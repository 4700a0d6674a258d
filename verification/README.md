# go-statweb page rendering, modelled in Dafny

go-statweb serves pages built from flat files. A request names a page.
The page's markdown `page/<name>.md` is converted to HTML. Its optional
sidecar `page/<name>.json` supplies a layout name and template data. The
result is a response that either carries its own bytes or executes a layout
from `layout/` when it is written.

This project models the two pure pieces under the HTTP glue:

- **Responses** (`responses.dfy`, with `headers.dfy` and `utf8.dfy`): the
  raw and deferred response variants and their fluent `Header` and `Cache`
  setters. It also covers the constructors `Respond`, `Empty`, `Text`,
  `Json`, `Template` and `Error`, the shared `NotFound` and `ServerError`
  values, and `WriteTo` for both variants. `WriteTo` writes to a modelled
  `http.ResponseWriter`: its header map plus the ordered events it received.
- **Menu helper** (`filepaths.dfy`, `menu.dfy`): `filepath.Ext` is stated by
  a declarative predicate and shown to be its only solution. The helper's
  loop maps each file stem to its title.
- **Page resolution** (`page.dfy`): the page paths, the layout fallback, the
  sidecar fallback, the markdown read outcome, and the `Render` decision.

Go values map to Dafny as follows:

- The file system is a snapshot `map<string, Entry>`. A path missing from the
  map does not exist.
- The markdown converter, `json.Unmarshal`, `json.Marshal`, `strings.Title`
  and `ioutil.ReadDir` are function-typed parameters.
- A Go panic is the `Panic` arm of `Outcomes.Outcome`.
- A nil byte slice is the empty sequence.
- A nil `interface{}` is `Value.Null`.
- A nil `map[string]interface{}` is `Option.None`.

The model follows the code as written, including two places where the code
does not do what its own text evidently intends (see "## Findings"):

- With no sidecar data, `Render` panics on the nil-map write at
  page.go:69. The TODO at page.go:48 ("Needs to return defalt page data or
  give error") shows that the nil default of `getPageData` was never meant
  to reach that write.
- A deferred response never writes its stored status or headers
  (responses.go:72-78). Yet `NotFound` passes status 404 to `Template` at
  responses.go:15, and `Cache` is offered on template responses at
  responses.go:80-82. So the 404 page is not sent with status 404, and
  `Cache` on a template response has no effect.

Two further points about the code:

- The cache header value is `public,max-age=<ttl>`, with no space.
- `Render` reads the sidecar and picks the layout before it looks at the
  markdown read error (page.go:60-62). In the model that order does not
  change the result, because decoding a sidecar never fails there. In Go it
  can: a sidecar holding JSON `null` nils the `PageData` pointer, and
  page.go:62 then panics before the 404/500 checks (see "## Left out").

## Model

| member | source | states |
|---|---|---|
| Headers.Set | responses.go:60 | After `Set`, the key maps to exactly `[value]` and every other key keeps its values |
| Headers.SetLastWriteWins | responses.go:59-62 | Two writes to the same key leave only the last value |
| Headers.SetCommutes | responses.go:59-62 | Writes to different keys do not interfere |
| Headers.CopyOnto | responses.go:47-50 | The copy loop overwrites each response key on the output and leaves other output keys alone; the result is the union `out + src` with the response winning |
| Responses.Header | responses.go:59-62 | On either variant, the key is set to exactly `[value]`, other keys are kept, and status, body, layout and data are unchanged |
| Responses.Cache | responses.go:55-57 | `Cache(ttl)` is one `Header` call, and afterwards `Cache-Control` is exactly `public,max-age=<ttl>` |
| Responses.Respond | responses.go:118-124 | A raw response with the given status and body and an empty header map |
| Responses.RespondWrites | responses.go:118-124 | At the output, a fresh raw response leaves the output headers as they were, sends its status, then exactly its body |
| Responses.Empty | responses.go:89-91 | `Empty(s)` is `Respond(s, nil)`: status `s`, no body bytes, no headers |
| Responses.EmptyWrites | responses.go:89-91 | At the output, `Empty(s)` sends status `s` and no body bytes |
| Responses.ServerError | responses.go:16 | The shared 500 response has an empty body and no headers |
| Responses.Template | responses.go:105-112 | A deferred response with the given status, layout and data and a fresh empty header map |
| Responses.TemplateWrites | responses.go:105-112 | At the output, a fresh template response only executes its layout on its data, and its status never appears |
| Responses.NotFound | responses.go:15 | The shared 404 response is deferred, with layout `404.html`, nil data and no headers |
| Responses.Error | responses.go:113-116 | Whatever the message and error, the result is the shared 500 response |
| Responses.ServerErrorWrites | responses.go:113-116 | At the output, the shared 500 is header-only: status 500, no header of its own, an empty body; `Error` writes exactly that whatever its arguments |
| Responses.Text | responses.go:102-104 | Status as given, body equal to the string's bytes, and `Content-Type: text/plain` as the only header |
| Responses.TextBodyRoundTrip | responses.go:103 | The body bytes of `Text` decode back to exactly the string given |
| Utf8.Encode | responses.go:103 | `[]byte(body)`: the bytes of a string, at least one and at most four per character |
| Utf8.DecodeEncode | responses.go:103 | Converting a string to bytes loses nothing: decoding the bytes gives the string back |
| Responses.Json | responses.go:93-100 | A failed marshal yields the shared 500 response; otherwise the status as given, the marshalled bytes, and `Content-Type: application/json` as the only header |
| Responses.JsonWrites | responses.go:93-100 | At the output, a failed marshal writes exactly what the shared 500 writes; otherwise the status goes out with `Content-Type: application/json` set, followed by the marshalled bytes |
| Responses.LayoutPath | responses.go:73 | A layout is looked up as `layout/` followed by its name |
| Responses.WriteTo | responses.go:46-53 | A raw response merges its headers onto the output, then writes its status with those headers, then its body. A deferred response only executes the template named `<name>` after parsing `layout/<name>`, on its data; the output header map is unchanged |
| Responses.DeferredWriteIgnoresStatusAndHeader | responses.go:72-78 | Two deferred responses with the same layout and data write the same output, whatever their status and headers |
| Responses.DeferredCacheInvisible | responses.go:80-82 | `Cache` on a deferred response does not change what is written |
| Responses.NormalCacheSent | responses.go:55-57 | `Cache` on a raw response puts the header on the output, and the header goes out with the status line |
| Responses.NotFoundSendsNoStatus | responses.go:72-78 | Writing the shared 404 response writes no status line and sets no output header |
| Responses.WriteToIntended | responses.go:72-78 | The corrected deferred write: headers merged, the status sent with them, then exactly what the code writes (the layout executed on the data); on raw responses it equals `WriteTo` |
| Responses.IntendedNotFoundAndCache | responses.go:15 | Under the corrected write, the 404 page goes out with status 404 and `Cache` reaches the output on both variants |
| FilePaths.Ext | responses.go:28 | The extension is the suffix from the last dot of the last path element, or empty when that element has no dot |
| FilePaths.ExtUnique | responses.go:28 | A path has exactly one extension in that sense |
| FilePaths.Stem | responses.go:29 | Stem followed by extension is the file name |
| TemplateHelpers.SectionDir | responses.go:22 | The menu directory is `page/` followed by the section name |
| TemplateHelpers.Menu | responses.go:20-33 | An unreadable `page/<section>` panics. Otherwise the result has exactly one key per distinct file stem, each mapped to the title of that stem |
| TemplateHelpers.StemsMembers | responses.go:26-31 | A key is in the menu exactly when some listed file has that stem |
| Page.Path | page.go:35-37 | The path is `page/`, then the name, then `.`, then the file type |
| Page.PathExt | page.go:35-37 | For any page name, the extension of a page path is `.` plus the file type and the stem is `page/<name>` |
| Page.MarkdownAndSidecarDisjoint | page.go:35-37 | No page's markdown path is any page's sidecar path |
| Page.PathInjective | page.go:35-37 | Two pages with the same path of one type have the same name |
| Page.GetLayout | page.go:23-28 | The layout is the sidecar's when non-empty, else `default.html`, and never empty |
| Page.GetLayoutIdempotent | page.go:23-28 | Choosing the layout again from the chosen one changes nothing |
| Page.ZeroPageData | page.go:50 | The starting `PageData` has an empty layout and nil data |
| Page.GetPageData | page.go:49-57 | A missing sidecar, or one the decoder rejects, gives the zero `PageData`; a decodable sidecar gives what it decodes to; an unreadable one is decoded as empty input |
| Page.GetPageDataUnreadable | page.go:51-54 | With a decoder that rejects empty input, as `json.Unmarshal` does, an unreadable sidecar gives the zero `PageData` and so the default layout |
| Page.RenderMd | page.go:39-46 | Not-exist exactly when the markdown path is absent, another failure exactly when it is unreadable, otherwise the converted markdown |
| Page.InsertBody | page.go:69 | Nil data panics. Otherwise `Body` is set to the HTML, every other key is kept, and no key is added besides `Body` |
| Page.Render | page.go:59-71 | Missing markdown gives the 404 response and an unreadable one the 500, whatever the sidecar. Otherwise nil data panics, and non-nil data gives a 200 template on `GetLayout` with the sidecar data plus the overriding `Body` |
| Page.RenderReadsOnlyItsFiles | page.go:59-71 | Two file-system snapshots that agree on the page's two files give the same result |
| Page.RenderWithoutSidecarPanics | page.go:69 | Markdown present and no sidecar: the render panics |
| Page.RenderWithSidecar | page.go:59-71 | A sidecar with a layout and data gives a 200 on that layout, with the data plus `Body` set to the converted markdown |
| Page.RenderIntended | page.go:69-70 | The corrected resolver gives 404, 500 or a 200 template on the chosen layout and never panics. Its data is the sidecar's data with `Body` set to the converted markdown, or `Body` alone when the sidecar data is nil |
| Page.RenderIntendedWithoutSidecar | page.go:69-70 | Under the corrected resolver, a page without a sidecar renders on `default.html` with `Body` as its only key |
| Page.RenderMalformedSidecar | page.go:53-54 | A sidecar the decoder rejects: the code panics at the `Body` write, and the corrected resolver renders on `default.html` with `Body` as its only key |
| Page.RenderSidecarWithoutData | page.go:69-70 | A sidecar that decodes but has no `data` object: the code panics, and the corrected resolver renders on the sidecar's layout choice with `Body` as its only key |
| Page.RenderIntendedAgrees | page.go:59-71 | Wherever the code does not panic, the corrected resolver gives the same response |

## Findings

| source | as written | input that shows it | evidently intended | confidence | as-written member | corrected member |
|---|---|---|---|---|---|---|
| page.go:69 | `data.Data["Body"] = ...` writes into a map that is nil when the sidecar is absent, malformed or has no `data` object, and the write panics | a page with `page/<name>.md` present and no `page/<name>.json` | start from an empty map, so the page renders on `default.html` with `Body` as its only datum | high; not executed | Page.RenderWithoutSidecarPanics | Page.RenderIntendedWithoutSidecar |
| responses.go:72-78 | `TemplateResponse.WriteTo` never writes the stored status or headers | writing `NotFound` to any output | the 404 page is sent with status 404, and `Cache` on a template response reaches the output | high; not executed | Responses.NotFoundSendsNoStatus | Responses.IntendedNotFoundAndCache |

## Left out

- Routing, the HTTP server and middleware (main.go): these are transport
  glue. The panics that escape the core, the nil-map write at page.go:69
  and `template.Must` at responses.go:74, are in practice recovered by the
  middleware and turned into an error response, which is not modelled. The route
  pattern `[a-zA-Z0-9/]+` is not imposed on page names, because no lemma
  here needs it.
- Template parsing and execution, including `template.Must` panics: these are
  a foreign library doing file I/O. Executing a layout is the opaque
  `Executed(path, data)` event, so helper calls made during execution (`menu`,
  `label`) are not connected to it. Nor is the implicit 200 status the
  transport sends when a template writes its first byte.
- The `label` helper: it is `strings.Title` itself, a library function.
- Markdown conversion, `json.Marshal`, `json.Unmarshal` and `strings.Title`
  are uninterpreted parameters, and their semantics are not verified.
- `Page.GetPageData`: a sidecar holding JSON `null`, which nils the
  `*PageData` pointer in Go, is not distinguished. The decoder parameter
  stands for whatever `PageData` decoding leaves behind.
- `Page.Render`: its 404 and 500 cases do not hold for a sidecar holding
  JSON `null`. In Go that input makes page.go:62 dereference a nil pointer
  and panic before the markdown error is looked at; the model gives 404 or
  500 there, because the `null` sidecar is not modelled.
- `Headers.Set`: `http.Header` key canonicalisation is not modelled. Keys are
  taken as already canonical, as `Cache-Control` and `Content-Type` are.
- Pointer aliasing is not modelled: responses are immutable values. In Go,
  `Header` on the shared `NotFound`/`ServerError` pointers would mutate them
  for every later request. Concurrency is not modelled either.
- `Responses.Error`: the `log.Println` of the message and error is not
  modelled, because it is logging I/O.
- `Responses.Text`: a Go string may hold bytes that are not valid UTF-8.
  The model's strings are sequences of Unicode scalar values, so such strings
  are not modelled.
- Write errors on the output are not modelled; the source ignores them too.
- `TemplateHelpers.Menu`: its panic on an unreadable directory
  (responses.go:24) is raised inside `t.Execute` (responses.go:77). The
  template engine recovers a panic raised by a template function and
  returns it as `Execute`'s error, which `WriteTo` discards. So in Go the
  page is cut off at the `menu` call and sent with the implicit 200; no
  middleware sees the panic. The model only records the helper's `Panic`
  outcome and does not connect it to the `Executed` event.
- `Responses.WriteTo`: a layout name containing `/` (a sidecar's
  `blog/post.html`, say) does not execute the file. `ParseFiles` registers
  `layout/blog/post.html` under its base name `post.html`, so executing the
  template named `blog/post.html` fails. That error is dropped at
  responses.go:77, and nothing is written. The `Executed(path, data)` event
  is opaque and does not distinguish this case.
- `TemplateHelpers.Menu`: the real directory listing is the `listDir` parameter.
  Subdirectories are listed as file names, as `ioutil.ReadDir` lists them.
