/** Resolving a page name to a response: read `page/<name>.md`, read the
    optional `page/<name>.json` sidecar, pick the layout and assemble the
    template data. The file system is a snapshot map; markdown conversion
    and JSON decoding are the caller-supplied `Externals`. */
module Page {
  import opened Outcomes
  import opened Utf8
  import opened Responses
  import opened FilePaths

  type PageName = string

  /** What reading a path yields. A path absent from the snapshot does not
      exist; `Unreadable` is any other read failure (permissions, a
      directory in the way). */
  datatype Entry = File(contents: Bytes) | Unreadable

  type FileSystem = map<string, Entry>

  datatype PageSettings = PageSettings(layout: string)

  /** The decoded sidecar. A nil `data` map is `None`. */
  datatype PageData = PageData(settings: PageSettings, data: Option<map<string, Value>>)

  /** `markdown` stands for `blackfriday.MarkdownCommon`; `unmarshal` for
      `json.Unmarshal` into a fresh `PageData`, None when the input is
      rejected and the target is left untouched. `json.Unmarshal` always
      rejects empty input (`unmarshal([]) == None`); `GetPageDataUnreadable`
      states what that means for an unreadable sidecar. */
  datatype Externals = Externals(markdown: Bytes -> Bytes, unmarshal: Bytes -> Option<PageData>)

  const DefaultLayout := "default.html"

  /** The Go zero value of `PageData`: no layout, nil data. */
  function ZeroPageData(): (d: PageData)
    ensures d.settings.layout == [] && d.data.None?
  {
    PageData(PageSettings(""), None)
  }

  /** Where the file of type `filetype` for a page lives. */
  function Path(name: PageName, filetype: string): (p: string)
    ensures |p| == |name| + |filetype| + 6
    ensures p[..5] == "page/" && p[5..5 + |name|] == name
    ensures p[5 + |name|] == '.' && p[6 + |name|..] == filetype
  {
    "page/" + name + "." + filetype
  }

  /** The path's extension is the file type, whatever the page name holds,
      as long as the file type has no dot or slash of its own. */
  lemma PathExt(name: PageName, filetype: string)
    requires forall j :: 0 <= j < |filetype| ==> filetype[j] != '.' && filetype[j] != '/'
    ensures Ext(Path(name, filetype)) == "." + filetype
    ensures Stem(Path(name, filetype)) == "page/" + name
  {
  }

  /** The markdown file and the sidecar of two pages are never the same
      path, so a page's markdown is never read as anyone's sidecar. */
  lemma MarkdownAndSidecarDisjoint(n1: PageName, n2: PageName)
    ensures Path(n1, "md") != Path(n2, "json")
  {
  }

  /** A page's path determines its name. */
  lemma PathInjective(n1: PageName, n2: PageName, filetype: string)
    requires Path(n1, filetype) == Path(n2, filetype)
    ensures n1 == n2
  {
  }

  /** The sidecar's layout when it names one, else `default.html`. */
  function GetLayout(s: PageSettings): (layout: string)
    ensures layout != []
    ensures s.layout != [] ==> layout == s.layout
    ensures s.layout == [] ==> layout == DefaultLayout
  {
    if s.layout != "" then s.layout else DefaultLayout
  }

  /** The effective layout, once chosen, chooses itself again. */
  lemma GetLayoutIdempotent(s: PageSettings)
    ensures GetLayout(PageSettings(GetLayout(s))) == GetLayout(s)
  {
  }

  /** The sidecar settings and data. An absent sidecar, or one the decoder
      rejects, gives the zero `PageData`; a file whose read fails is
      decoded as empty input. */
  function GetPageData(fs: FileSystem, name: PageName, ext: Externals): (d: PageData)
    ensures Path(name, "json") !in fs ==> d == ZeroPageData()
    ensures Path(name, "json") in fs && fs[Path(name, "json")].File? ==>
      var decoded := ext.unmarshal(fs[Path(name, "json")].contents);
      d == (if decoded.Some? then decoded.value else ZeroPageData())
    ensures Path(name, "json") in fs && fs[Path(name, "json")].Unreadable? ==>
      d == (if ext.unmarshal([]).Some? then ext.unmarshal([]).value else ZeroPageData())
  {
    var path := Path(name, "json");
    if path in fs then
      var js := if fs[path].File? then fs[path].contents else [];
      match ext.unmarshal(js)
      case Some(decoded) => decoded
      case None => ZeroPageData()
    else
      ZeroPageData()
  }

  /** With a decoder that rejects empty input, as `json.Unmarshal` does,
      an unreadable sidecar gives the zero `PageData`, so the page keeps
      the default layout and nil data. */
  lemma GetPageDataUnreadable(fs: FileSystem, name: PageName, ext: Externals)
    requires Path(name, "json") in fs && fs[Path(name, "json")].Unreadable?
    requires ext.unmarshal([]) == None
    ensures GetPageData(fs, name, ext) == ZeroPageData()
    ensures GetLayout(GetPageData(fs, name, ext).settings) == DefaultLayout
  {
  }

  /** How reading the markdown ended. */
  datatype MdOutcome = Html(html: Bytes) | NotExist | ReadFailed

  /** Reads the markdown file and converts it. */
  function RenderMd(fs: FileSystem, name: PageName, ext: Externals): (m: MdOutcome)
    ensures m.NotExist? <==> Path(name, "md") !in fs
    ensures m.ReadFailed? <==> Path(name, "md") in fs && fs[Path(name, "md")].Unreadable?
    ensures m.Html? ==> fs[Path(name, "md")].File? && m.html == ext.markdown(fs[Path(name, "md")].contents)
  {
    var path := Path(name, "md");
    if path !in fs then NotExist
    else match fs[path]
      case Unreadable => ReadFailed
      case File(md) => Html(ext.markdown(md))
  }

  /** The template data: the sidecar's data with `Body` set to the
      rendered markdown. Writing into a nil map panics. */
  function InsertBody(data: Option<map<string, Value>>, html: Bytes): (r: Outcome<map<string, Value>>)
    ensures r.Panic? <==> data.None?
    ensures r.Done? ==> r.value.Keys == data.value.Keys + {"Body"}
    ensures r.Done? ==> r.value["Body"] == SafeHtml(html)
    ensures r.Done? ==> forall k :: k in data.value && k != "Body" ==> r.value[k] == data.value[k]
  {
    match data
    case None => Panic("assignment to entry in nil map")
    case Some(m) => Done(m["Body" := SafeHtml(html)])
  }

  /** `Page.Render`. A missing markdown file gives the shared 404 response
      and any other read failure the shared 500, whatever the sidecar says.
      Otherwise the rendered markdown goes into the sidecar data under
      `Body` and the page is a 200 template response on the chosen layout;
      with no sidecar data that insertion panics. */
  function Render(fs: FileSystem, name: PageName, ext: Externals): (r: Outcome<Response>)
    ensures Path(name, "md") !in fs ==> r == Done(NotFound())
    ensures Path(name, "md") in fs && fs[Path(name, "md")].Unreadable? ==> r == Done(ServerError())
    ensures Path(name, "md") in fs && fs[Path(name, "md")].File? ==>
      var d := GetPageData(fs, name, ext);
      && (r.Panic? <==> d.data.None?)
      && (r.Done? ==>
            && r.value.Deferred?
            && r.value.status == 200
            && r.value.header == map[]
            && r.value.template == GetLayout(d.settings)
            && r.value.data.Object?
            && r.value.data.fields.Keys == d.data.value.Keys + {"Body"}
            && r.value.data.fields["Body"] == SafeHtml(ext.markdown(fs[Path(name, "md")].contents))
            && forall k :: k in d.data.value && k != "Body" ==> r.value.data.fields[k] == d.data.value[k])
  {
    var md := RenderMd(fs, name, ext);
    var data := GetPageData(fs, name, ext);
    var layout := GetLayout(data.settings);
    match md
    case NotExist => Done(NotFound())
    case ReadFailed => Done(Error("Problems", "read failed"))
    case Html(body) =>
      match InsertBody(data.data, body)
      case Panic(reason) => Panic(reason)
      case Done(m) => Done(Template(200, layout, Object(m)))
  }

  /** The result depends on nothing but the two files of the page: two
      snapshots that agree on them give the same response. */
  lemma RenderReadsOnlyItsFiles(fs1: FileSystem, fs2: FileSystem, name: PageName, ext: Externals)
    requires forall p :: p in {Path(name, "md"), Path(name, "json")} ==>
      (p in fs1 <==> p in fs2) && (p in fs1 ==> fs1[p] == fs2[p])
    ensures Render(fs1, name, ext) == Render(fs2, name, ext)
  {
  }

  /** With markdown present and no sidecar, the page panics on the nil
      data map instead of rendering. */
  lemma RenderWithoutSidecarPanics(fs: FileSystem, name: PageName, ext: Externals)
    requires Path(name, "md") in fs && fs[Path(name, "md")].File?
    requires Path(name, "json") !in fs
    ensures Render(fs, name, ext).Panic?
  {
  }

  /** A sidecar naming a layout and holding data renders on that layout;
      the markdown wins over any `Body` of its own. */
  lemma RenderWithSidecar(fs: FileSystem, name: PageName, ext: Externals, layout: string, m: map<string, Value>)
    requires Path(name, "md") in fs && fs[Path(name, "md")].File?
    requires Path(name, "json") in fs && fs[Path(name, "json")].File?
    requires ext.unmarshal(fs[Path(name, "json")].contents) == Some(PageData(PageSettings(layout), Some(m)))
    requires layout != ""
    ensures Render(fs, name, ext) ==
      Done(Template(200, layout, Object(m["Body" := SafeHtml(ext.markdown(fs[Path(name, "md")].contents))])))
  {
  }

  /** What the code evidently means at the nil-map write: a page without
      sidecar data starts from an empty map, so `Body` can always be set. */
  function RenderIntended(fs: FileSystem, name: PageName, ext: Externals): (r: Response)
    ensures Path(name, "md") !in fs ==> r == NotFound()
    ensures Path(name, "md") in fs && fs[Path(name, "md")].Unreadable? ==> r == ServerError()
    ensures Path(name, "md") in fs && fs[Path(name, "md")].File? ==>
      && r.Deferred? && r.status == 200
      && r.template == GetLayout(GetPageData(fs, name, ext).settings)
      && r.data.Object?
      && "Body" in r.data.fields && r.data.fields["Body"] == SafeHtml(ext.markdown(fs[Path(name, "md")].contents))
    ensures Path(name, "md") in fs && fs[Path(name, "md")].File? ==>
      var d := GetPageData(fs, name, ext);
      r.data == Object((if d.data.Some? then d.data.value else map[])["Body" := SafeHtml(ext.markdown(fs[Path(name, "md")].contents))])
  {
    var md := RenderMd(fs, name, ext);
    var data := GetPageData(fs, name, ext);
    match md
    case NotExist => NotFound()
    case ReadFailed => Error("Problems", "read failed")
    case Html(body) =>
      var m := if data.data.Some? then data.data.value else map[];
      Template(200, GetLayout(data.settings), Object(m["Body" := SafeHtml(body)]))
  }

  /** The corrected resolver renders a page with no sidecar on the default
      layout with `Body` as its only datum. */
  lemma RenderIntendedWithoutSidecar(fs: FileSystem, name: PageName, ext: Externals)
    requires Path(name, "md") in fs && fs[Path(name, "md")].File?
    requires Path(name, "json") !in fs
    ensures RenderIntended(fs, name, ext) ==
      Template(200, DefaultLayout, Object(map["Body" := SafeHtml(ext.markdown(fs[Path(name, "md")].contents))]))
  {
  }

  /** A sidecar the decoder rejects: the code panics, while the corrected
      resolver renders on the default layout with `Body` as its only datum. */
  lemma RenderMalformedSidecar(fs: FileSystem, name: PageName, ext: Externals)
    requires Path(name, "md") in fs && fs[Path(name, "md")].File?
    requires Path(name, "json") in fs && fs[Path(name, "json")].File?
    requires ext.unmarshal(fs[Path(name, "json")].contents) == None
    ensures Render(fs, name, ext).Panic?
    ensures RenderIntended(fs, name, ext) ==
      Template(200, DefaultLayout, Object(map["Body" := SafeHtml(ext.markdown(fs[Path(name, "md")].contents))]))
  {
  }

  /** A sidecar that decodes but has no `data` object: the code panics,
      while the corrected resolver keeps the sidecar's layout choice and
      renders with `Body` as its only datum. */
  lemma RenderSidecarWithoutData(fs: FileSystem, name: PageName, ext: Externals, settings: PageSettings)
    requires Path(name, "md") in fs && fs[Path(name, "md")].File?
    requires Path(name, "json") in fs && fs[Path(name, "json")].File?
    requires ext.unmarshal(fs[Path(name, "json")].contents) == Some(PageData(settings, None))
    ensures Render(fs, name, ext).Panic?
    ensures RenderIntended(fs, name, ext) ==
      Template(200, GetLayout(settings), Object(map["Body" := SafeHtml(ext.markdown(fs[Path(name, "md")].contents))]))
  {
  }

  /** Where the code does not panic, the corrected resolver agrees with it. */
  lemma RenderIntendedAgrees(fs: FileSystem, name: PageName, ext: Externals)
    requires Render(fs, name, ext).Done?
    ensures RenderIntended(fs, name, ext) == Render(fs, name, ext).value
  {
  }
}
