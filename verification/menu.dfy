/** The `menu` template helper: lists the files of `page/<section>` and
    maps each file's stem to its title-cased label. */
module TemplateHelpers {
  import opened Outcomes
  import opened FilePaths

  /** The directory a section's menu is read from. */
  function SectionDir(section: string): (d: string)
    ensures |d| == 5 + |section| && d[..5] == "page/" && d[5..] == section
  {
    "page/" + section
  }

  /** A menu: file stem to display label. */
  type Links = map<string, string>

  /** The stems of the listed file names. */
  function Stems(files: seq<string>): set<string>
    decreases |files|
  {
    if files == [] then {} else Stems(files[..|files| - 1]) + {Stem(files[|files| - 1])}
  }

  /** `listDir` stands for `ioutil.ReadDir` (None when the directory cannot
      be read) and `title` for `strings.Title`. An unreadable directory is
      a panic; otherwise the result has one key per distinct stem, each
      mapped to its title. */
  method Menu(section: string, listDir: string -> Option<seq<string>>, title: string -> string)
    returns (r: Outcome<Links>)
    ensures r.Panic? <==> listDir(SectionDir(section)).None?
    ensures r.Done? ==> r.value.Keys == Stems(listDir(SectionDir(section)).value)
    ensures r.Done? ==> forall k :: k in r.value ==> r.value[k] == title(k)
  {
    var listing := listDir(SectionDir(section));
    if listing.None? {
      return Panic("open " + SectionDir(section) + ": cannot read directory");
    }
    var files := listing.value;
    var links: Links := map[];
    var i := 0;
    while i < |files|
      invariant 0 <= i <= |files|
      invariant links.Keys == Stems(files[..i])
      invariant forall k :: k in links ==> links[k] == title(k)
    {
      var filename := files[i];
      var name := Stem(filename);
      links := links[name := title(name)];
      assert files[..i + 1][..i] == files[..i];
      i := i + 1;
    }
    assert files[..|files|] == files;
    return Done(links);
  }

  /** A stem is in the menu exactly when some listed file has it. */
  lemma {:induction false} StemsMembers(files: seq<string>, k: string)
    ensures k in Stems(files) <==> exists i :: 0 <= i < |files| && Stem(files[i]) == k
  {
    if files != [] {
      var n := |files| - 1;
      var init := files[..n];
      assert Stems(files) == Stems(init) + {Stem(files[n])};
      StemsMembers(init, k);
      if k in Stems(init) {
        var i :| 0 <= i < |init| && Stem(init[i]) == k;
        assert files[i] == init[i];
      } else if k == Stem(files[n]) {
        assert 0 <= n < |files| && Stem(files[n]) == k;
      } else {
        forall i | 0 <= i < |files|
          ensures Stem(files[i]) != k
        {
          if i < n {
            assert files[i] == init[i];
          }
        }
      }
    }
  }
}
