/** Go's `filepath.Ext` on a slash-separated path, and the stem the `menu`
    helper cuts off with it. */
module FilePaths {

  /** `e` is the extension of `path`: either the suffix that starts at the
      last dot of the last path element, or empty when that element has no
      dot. */
  predicate IsExt(path: string, e: string) {
    && |e| <= |path|
    && path[|path| - |e|..] == e
    && (e == [] ==> forall i :: 0 <= i < |path| && path[i] == '.' ==> '/' in path[i + 1..])
    && (e != [] ==> e[0] == '.' && forall j :: 1 <= j < |e| ==> e[j] != '.' && e[j] != '/')
  }

  /** The extension of `path`, found by scanning back from its end to the
      first dot or slash, as `filepath.Ext` does. */
  function Ext(path: string): (e: string)
    ensures IsExt(path, e)
    decreases |path|
  {
    if path == [] then []
    else
      var c := path[|path| - 1];
      if c == '/' then []
      else if c == '.' then ['.']
      else
        var e := Ext(path[..|path| - 1]);
        if e == [] then [] else e + [c]
  }

  /** A path has only one extension, so `Ext` is the only function meeting
      `IsExt`. */
  lemma ExtUnique(path: string, e1: string, e2: string)
    requires IsExt(path, e1) && IsExt(path, e2)
    ensures e1 == e2
  {
  }

  /** The file name without its extension. */
  function Stem(filename: string): (stem: string)
    ensures stem + Ext(filename) == filename
  {
    filename[..|filename| - |Ext(filename)|]
  }
}
