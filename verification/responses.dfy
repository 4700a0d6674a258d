/** The response values of the site: a raw response that carries its bytes,
    and a deferred one that names a layout and the data to execute it with.
    Responses are immutable values here; the fluent setters return the
    updated value. */
module Responses {
  import opened Outcomes
  import opened Utf8
  import opened Headers

  /** The shapes a Go `interface{}` takes in this program: JSON-decoded
      values, and `template.HTML`, the markdown output marked safe for
      unescaped output. `Number` stands for a decoded JSON number (a
      `float64` in Go); its contents are never inspected here. */
  datatype Value =
    | Null
    | Bool(b: bool)
    | Number(literal: string)
    | Str(s: string)
    | Array(items: seq<Value>)
    | Object(fields: map<string, Value>)
    | SafeHtml(html: Bytes)

  datatype Response =
    | Normal(status: int, body: Bytes, header: HeaderMap)
    | Deferred(status: int, data: Value, header: HeaderMap, template: string)

  /** What the HTTP output sees, in order. `WroteHeader` records the output
      header map as it stood when the status line went out. */
  datatype Event =
    | WroteHeader(status: int, sent: HeaderMap)
    | Wrote(bytes: Bytes)
    | Executed(templatePath: string, data: Value)

  /** An `http.ResponseWriter`: its header map and what was written to it. */
  datatype Writer = Writer(header: HeaderMap, events: seq<Event>)

  const CacheControl := "Cache-Control"
  const ContentType := "Content-Type"

  /** `Header(key, value)` on either variant: the key is set to exactly
      `[value]`, and nothing else about the response changes. */
  function Header(r: Response, key: string, value: string): (r': Response)
    ensures r'.header.Keys == r.header.Keys + {key}
    ensures r'.header[key] == [value]
    ensures forall k :: k in r.header && k != key ==> r'.header[k] == r.header[k]
    ensures r'.(header := r.header) == r
  {
    r.(header := Set(r.header, key, value))
  }

  /** `Cache(ttl)` sets a public cache lifetime of `ttl` seconds and is
      nothing more than one `Header` call. */
  function Cache(r: Response, ttl: string): (r': Response)
    ensures r' == Header(r, CacheControl, "public,max-age=" + ttl)
    ensures CacheControl in r'.header && r'.header[CacheControl] == ["public,max-age=" + ttl]
  {
    Header(r, CacheControl, "public,max-age=" + ttl)
  }

  /** A raw response with the given status and body and no headers. */
  function Respond(status: int, body: Bytes): (r: Response)
    ensures r.Normal? && r.status == status && r.body == body
    ensures r.header == map[]
  {
    Normal(status, body, map[])
  }

  /** A raw response with no body; Go's nil byte slice writes nothing. */
  function Empty(status: int): (r: Response)
    ensures r == Respond(status, [])
    ensures r.Normal? && r.status == status && |r.body| == 0 && r.header == map[]
  {
    Respond(status, [])
  }

  /** The shared 500 response: empty body, no headers. */
  function ServerError(): (r: Response)
    ensures r.Normal? && r.status == 500 && r.body == [] && r.header == map[]
  {
    Empty(500)
  }

  /** A deferred response; constructing it touches no file. */
  function Template(status: int, template: string, data: Value): (r: Response)
    ensures r.Deferred? && r.status == status && r.template == template && r.data == data
    ensures r.header == map[]
  {
    Deferred(status, data, map[], template)
  }

  /** The shared 404 response: layout `404.html` with nil data. */
  function NotFound(): (r: Response)
    ensures r.Deferred? && r.status == 404 && r.template == "404.html" && r.data == Null
    ensures r.header == map[]
  {
    Template(404, "404.html", Null)
  }

  /** `Error` logs its arguments (not modelled) and hands back the shared
      500 response, whatever it was told. */
  function Error(message: string, err: string): (r: Response)
    ensures r.Normal? && r.status == 500 && r.body == [] && r.header == map[]
  {
    ServerError()
  }

  /** A plain-text response: the string's UTF-8 bytes and one header. */
  function Text(status: int, body: string): (r: Response)
    ensures r.Normal? && r.status == status && r.body == Encode(body)
    ensures r.header == map[ContentType := ["text/plain"]]
  {
    Header(Respond(status, Encode(body)), ContentType, "text/plain")
  }

  /** A JSON response. `marshal` stands for `json.Marshal`: None when the
      value cannot be marshalled, which yields the shared 500 response. */
  function Json(status: int, body: Value, marshal: Value -> Option<Bytes>): (r: Response)
    ensures marshal(body).None? ==> r == ServerError()
    ensures marshal(body).Some? ==>
      r.Normal? && r.status == status && r.body == marshal(body).value
      && r.header == map[ContentType := ["application/json"]]
  {
    match marshal(body)
    case None => Error("body json marshal", "marshal failed")
    case Some(b) => Header(Respond(status, b), ContentType, "application/json")
  }

  /** At the output, a fresh deferred response only executes its layout
      on its data; its status never appears. */
  lemma TemplateWrites(status: int, template: string, data: Value, w: Writer)
    ensures WriteTo(Template(status, template, data), w)
         == Writer(w.header, w.events + [Executed(LayoutPath(template), data)])
  {
  }

  /** At the output, a raw response with no headers of its own sends its
      status with the output's headers unchanged, then exactly its body. */
  lemma RespondWrites(status: int, body: Bytes, w: Writer)
    ensures WriteTo(Respond(status, body), w)
         == Writer(w.header, w.events + [WroteHeader(status, w.header), Wrote(body)])
  {
    assert w.header + map[] == w.header;
  }

  /** `Empty` sends a status line and no body bytes at all. */
  lemma EmptyWrites(status: int, w: Writer)
    ensures WriteTo(Empty(status), w)
         == Writer(w.header, w.events + [WroteHeader(status, w.header), Wrote([])])
  {
    RespondWrites(status, [], w);
  }

  /** A 500 response is header-only: status 500, no header of its own, an
      empty body. `Error` sends exactly that, whatever it was told. */
  lemma ServerErrorWrites(message: string, err: string, w: Writer)
    ensures WriteTo(ServerError(), w)
         == Writer(w.header, w.events + [WroteHeader(500, w.header), Wrote([])])
    ensures WriteTo(Error(message, err), w) == WriteTo(ServerError(), w)
  {
    EmptyWrites(500, w);
  }

  /** At the output, `Json` either sends the shared 500 or the given status
      with `Content-Type: application/json` in place, then the marshalled
      bytes. */
  lemma JsonWrites(status: int, v: Value, marshal: Value -> Option<Bytes>, w: Writer)
    ensures marshal(v).None? ==> WriteTo(Json(status, v, marshal), w) == WriteTo(ServerError(), w)
    ensures marshal(v).Some? ==>
      var h := w.header[ContentType := ["application/json"]];
      WriteTo(Json(status, v, marshal), w)
        == Writer(h, w.events + [WroteHeader(status, h), Wrote(marshal(v).value)])
  {
    if marshal(v).Some? {
      var h := w.header[ContentType := ["application/json"]];
      assert w.header + map[ContentType := ["application/json"]] == h;
    }
  }

  /** Where a layout name is looked up. */
  function LayoutPath(template: string): (p: string)
    ensures |p| == 7 + |template| && p[..7] == "layout/" && p[7..] == template
  {
    "layout/" + template
  }

  /** Writing a response to the output.
      A raw response copies its headers onto the output (overwriting those
      keys only), then writes its status, then its body.
      A deferred response executes its layout against its data, and does
      nothing else: its stored status and headers never reach the output. */
  function WriteTo(r: Response, w: Writer): (w': Writer)
    ensures r.Normal? ==>
      && w'.header.Keys == w.header.Keys + r.header.Keys
      && (forall k :: k in r.header ==> w'.header[k] == r.header[k])
      && (forall k :: k in w.header && k !in r.header ==> w'.header[k] == w.header[k])
      && w'.events == w.events + [WroteHeader(r.status, w'.header), Wrote(r.body)]
    ensures r.Deferred? ==>
      && w'.header == w.header
      && w'.events == w.events + [Executed(LayoutPath(r.template), r.data)]
  {
    match r
    case Normal(status, body, header) =>
      var h := w.header + header;
      Writer(h, w.events + [WroteHeader(status, h), Wrote(body)])
    case Deferred(_, data, _, template) =>
      Writer(w.header, w.events + [Executed(LayoutPath(template), data)])
  }

  /** What a deferred response writes depends only on its layout and data. */
  lemma DeferredWriteIgnoresStatusAndHeader(r1: Response, r2: Response, w: Writer)
    requires r1.Deferred? && r2.Deferred?
    requires r1.template == r2.template && r1.data == r2.data
    ensures WriteTo(r1, w) == WriteTo(r2, w)
  {
  }

  /** So `Cache` on a deferred response has no effect on the output. */
  lemma DeferredCacheInvisible(r: Response, ttl: string, w: Writer)
    requires r.Deferred?
    ensures WriteTo(Cache(r, ttl), w) == WriteTo(r, w)
  {
  }

  /** On a raw response, `Cache` is visible in the header sent with the
      status line. */
  lemma NormalCacheSent(r: Response, ttl: string, w: Writer)
    requires r.Normal?
    ensures WriteTo(Cache(r, ttl), w).events[|w.events|]
         == WroteHeader(r.status, WriteTo(Cache(r, ttl), w).header)
    ensures WriteTo(Cache(r, ttl), w).header[CacheControl] == ["public,max-age=" + ttl]
  {
  }

  /** The text body of `Text` is exactly the string it was given. */
  lemma TextBodyRoundTrip(status: int, s: string)
    ensures Decode(Text(status, s).body) == Some(s)
  {
    DecodeEncode(s);
  }

  /** Writing the shared 404 response sends no status line and no header
      of its own: the output only sees the layout executed. */
  lemma NotFoundSendsNoStatus(w: Writer)
    ensures forall e :: e in WriteTo(NotFound(), w).events[|w.events|..] ==> !e.WroteHeader?
    ensures WriteTo(NotFound(), w).header == w.header
  {
  }

  /** What a deferred response evidently should write: its headers and
      status first, as a raw response does, then the executed layout. */
  function WriteToIntended(r: Response, w: Writer): (w': Writer)
    ensures w'.header.Keys == w.header.Keys + r.header.Keys
    ensures forall k :: k in r.header ==> w'.header[k] == r.header[k]
    ensures forall k :: k in w.header && k !in r.header ==> w'.header[k] == w.header[k]
    ensures |w'.events| > |w.events| && w'.events[..|w.events|] == w.events
    ensures w'.events[|w.events|] == WroteHeader(r.status, w'.header)
    ensures r.Normal? ==> w' == WriteTo(r, w)
    ensures r.Deferred? ==> w'.events[|w.events| + 1..] == WriteTo(r, w).events[|w.events|..]
  {
    match r
    case Normal(_, _, _) => WriteTo(r, w)
    case Deferred(status, data, header, template) =>
      var h := w.header + header;
      Writer(h, w.events + [WroteHeader(status, h), Executed(LayoutPath(template), data)])
  }

  /** Under the intended write, the 404 page is sent as a 404 and `Cache`
      reaches the output on both variants. */
  lemma IntendedNotFoundAndCache(r: Response, ttl: string, w: Writer)
    ensures WriteToIntended(NotFound(), w).events[|w.events|].status == 404
    ensures WriteToIntended(Cache(r, ttl), w).header[CacheControl] == ["public,max-age=" + ttl]
  {
  }
}
