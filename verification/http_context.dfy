/** The resumable HTTP parser over the network buffer. */
module HttpContexts {
  import opened ByteBuffers
  import opened HttpRequests

  datatype ParseState = ExpectRequestLine | ExpectHeaders | ExpectBody | GotAll

  datatype Context = Context(state: ParseState, request: Request)

  const START := Context(ExpectRequestLine, FRESH)

  /** What a call of the parser ends with: its verdict and what it left in the buffer; or
      the process aborted on a position past the end of the buffer; or the loop turns
      forever, which it does when the request was already complete. */
  datatype Outcome = Parsed(ctx: Context, rest: string, ok: bool) | Aborted | Stuck

  // ---- The request line ----

  const HTTP_1 := "HTTP/1."

  /** The last character of the version, if the rest of it is as expected. */
  function VersionOf(text: string): Version {
    if |text| == 8 && text[..7] == HTTP_1 then
      if text[7] == '1' then Http11 else if text[7] == '0' then Http10 else UnknownVersion
    else UnknownVersion
  }

  /** The target up to a question mark is the path, the rest of it the query. */
  function WithTarget(r: Request, target: string): Request {
    var question := IndexOf(target, '?');
    if question < |target| then WithQuery(r.(path := target[..question]), target[question..])
    else r.(path := target)
  }

  function WithVersion(r: Request, text: string): (Request, bool) {
    if VersionOf(text) == UnknownVersion then (r, false) else (r.(version := VersionOf(text)), true)
  }

  /** `processRequestLine`: the request so far and whether the line was good. */
  function WithRequestLine(r: Request, line: string): (Request, bool) {
    var space := IndexOf(line, ' ');
    if space == |line| then (r, false)
    else
      var (r1, known) := WithMethod(r, line[..space]);
      var rest := line[space + 1..];
      var second := IndexOf(rest, ' ');
      if !known || second == |rest| then (r1, false)
      else WithVersion(WithTarget(r1, rest[..second]), rest[second + 1..])
  }

  // ---- The parser, as a function of the buffer's contents ----

  function Rank(state: ParseState): nat {
    match state
    case ExpectRequestLine => 3
    case ExpectHeaders => 2
    case ExpectBody => 1
    case GotAll => 0
  }

  /** One header line, or the line that ends the headers: any line without a colon. */
  function AfterHeaderLine(ctx: Context, line: string): (r: Context)
    requires ctx.state == ExpectHeaders
    ensures r.state == ExpectHeaders || r.state == ExpectBody
  {
    var colon := IndexOf(line, ':');
    if colon < |line| then ctx.(request := WithHeader(ctx.request, line[..colon], line[colon + 1..]))
    else ctx.(state := ExpectBody)
  }

  function AfterRequestLine(ctx: Context, line: string, time: int): (r: Context)
    ensures r.state == ExpectHeaders
  {
    Context(ExpectHeaders, WithRequestLine(ctx.request, line).0.(receiveTime := time))
  }

  /** `parseRequest` on the bytes in the buffer. */
  function Parse(ctx: Context, text: string, time: int): Outcome
    decreases Rank(ctx.state), |text|
  {
    var crlf := IndexOf(text, '\r');
    match ctx.state
    case ExpectRequestLine =>
      if crlf == |text| then Parsed(ctx, text, true)
      else
        var (request, ok) := WithRequestLine(ctx.request, text[..crlf]);
        if !ok then Parsed(ctx.(request := request), text, false)
        else if |text| < crlf + 2 then Aborted
        else Parse(AfterRequestLine(ctx, text[..crlf], time), text[crlf + 2..], time)
    case ExpectHeaders =>
      if crlf == |text| then Parsed(ctx, text, true)
      else if |text| < crlf + 2 then Aborted
      else Parse(AfterHeaderLine(ctx, text[..crlf]), text[crlf + 2..], time)
    case ExpectBody =>
      Parsed(Context(GotAll, ctx.request.(body := text)), "", true)
    case GotAll => Stuck
  }

  /** The text is a line, a carriage return and, unless nothing else is left, some character
      and the rest. */
  ghost predicate CutsLine(text: string, line: string, rest: string) {
    && IndexOf(text, '\r') == |line| < |text| && text[..|line|] == line
    && if |text| < |line| + 2 then rest == text else text[|line| + 2..] == rest
  }

  /** What is left when a line and the two characters after it are gone. */
  function RestOf(text: string, crlf: nat): string {
    if |text| < crlf + 2 then text else text[crlf + 2..]
  }

  /** One turn of the parser at the request line. */
  lemma ParseRequestLine(ctx: Context, text: string, line: string, rest: string, time: int)
    requires ctx.state == ExpectRequestLine && CutsLine(text, line, rest)
    ensures Parse(ctx, text, time) ==
      if !WithRequestLine(ctx.request, line).1 then
        Parsed(ctx.(request := WithRequestLine(ctx.request, line).0), text, false)
      else if |text| < |line| + 2 then Aborted
      else Parse(AfterRequestLine(ctx, line, time), rest, time)
  {
    hide WithRequestLine, AfterRequestLine, IndexOf;
  }

  /** One turn of the parser at a header line. */
  lemma ParseHeaderLine(ctx: Context, text: string, line: string, rest: string, time: int)
    requires ctx.state == ExpectHeaders && CutsLine(text, line, rest)
    ensures Parse(ctx, text, time) ==
      if |text| < |line| + 2 then Aborted else Parse(AfterHeaderLine(ctx, line), rest, time)
  {
    hide AfterHeaderLine, IndexOf;
  }

  /** Without a carriage return the parser waits. */
  lemma ParseNoLine(ctx: Context, text: string, time: int)
    requires ctx.state == ExpectRequestLine || ctx.state == ExpectHeaders
    requires IndexOf(text, '\r') == |text|
    ensures Parse(ctx, text, time) == Parsed(ctx, text, true)
  {
    hide IndexOf;
  }

  // ---- Resuming: two chunks parse like one ----

  lemma IndexOfAppend(a: string, b: string, c: char)
    ensures IndexOf(a, c) < |a| ==> IndexOf(a + b, c) == IndexOf(a, c)
  {
    if IndexOf(a, c) < |a| {
      IndexOfUnique(a + b, c, IndexOf(a, c));
    }
  }

  /** Whatever has arrived can be parsed now and the rest later: unless the parser aborted
      or already took everything as the body, parsing what it left together with what
      comes next ends like parsing all at once. */
  lemma {:induction false} ParseResumes(ctx: Context, a: string, b: string, time: int)
    requires Parse(ctx, a, time).Parsed? && Parse(ctx, a, time).ctx.state != GotAll
    ensures var first := Parse(ctx, a, time);
            Parse(ctx, a + b, time) ==
              if first.ok then Parse(first.ctx, first.rest + b, time)
              else Parsed(first.ctx, first.rest + b, false)
    decreases Rank(ctx.state), |a|
  {
    hide WithRequestLine, AfterHeaderLine, AfterRequestLine, IndexOf;
    var crlf := IndexOf(a, '\r');
    IndexOfAppend(a, b, '\r');
    if crlf < |a| {
      assert (a + b)[..crlf] == a[..crlf];
      if ctx.state == ExpectRequestLine && WithRequestLine(ctx.request, a[..crlf]).1 {
        assert (a + b)[crlf + 2..] == a[crlf + 2..] + b;
        ParseResumes(AfterRequestLine(ctx, a[..crlf], time), a[crlf + 2..], b, time);
      } else if ctx.state == ExpectHeaders {
        assert (a + b)[crlf + 2..] == a[crlf + 2..] + b;
        ParseResumes(AfterHeaderLine(ctx, a[..crlf]), a[crlf + 2..], b, time);
      }
    }
  }

  // ---- The receive time decides nothing ----

  function Untimed(ctx: Context): Context {
    ctx.(request := ctx.request.(receiveTime := 0))
  }

  function UntimedOutcome(o: Outcome): Outcome {
    if o.Parsed? then o.(ctx := Untimed(o.ctx)) else o
  }

  lemma RequestLineUntimed(c1: Context, c2: Context, line: string, t1: int, t2: int)
    requires Untimed(c1) == Untimed(c2)
    ensures WithRequestLine(c1.request, line).1 == WithRequestLine(c2.request, line).1
    ensures Untimed(c1.(request := WithRequestLine(c1.request, line).0))
         == Untimed(c2.(request := WithRequestLine(c2.request, line).0))
    ensures Untimed(AfterRequestLine(c1, line, t1)) == Untimed(AfterRequestLine(c2, line, t2))
  {
    hide IndexOf, MethodOf, VersionOf, AddParams, Pieces;
  }

  lemma HeaderLineUntimed(c1: Context, c2: Context, line: string)
    requires c1.state == ExpectHeaders && Untimed(c1) == Untimed(c2)
    ensures Untimed(AfterHeaderLine(c1, line)) == Untimed(AfterHeaderLine(c2, line))
  {
    hide IndexOf, HeaderValue;
  }

  lemma {:induction false} TimeIndependent(c1: Context, c2: Context, text: string, t1: int, t2: int)
    requires Untimed(c1) == Untimed(c2)
    ensures UntimedOutcome(Parse(c1, text, t1)) == UntimedOutcome(Parse(c2, text, t2))
    decreases Rank(c1.state), |text|
  {
    hide IndexOf, WithRequestLine, AfterRequestLine, AfterHeaderLine;
    var crlf := IndexOf(text, '\r');
    if crlf < |text| {
      var line := text[..crlf];
      if c1.state == ExpectRequestLine {
        RequestLineUntimed(c1, c2, line, t1, t2);
        if crlf + 2 <= |text| {
          TimeIndependent(AfterRequestLine(c1, line, t1), AfterRequestLine(c2, line, t2), text[crlf + 2..], t1, t2);
        }
      } else if c1.state == ExpectHeaders && crlf + 2 <= |text| {
        HeaderLineUntimed(c1, c2, line);
        TimeIndependent(AfterHeaderLine(c1, line), AfterHeaderLine(c2, line), text[crlf + 2..], t1, t2);
      }
    }
  }

  // ---- Any number of chunks ----

  /** The parser called on each chunk as it arrives, until it reports a bad request. */
  function ParseChunks(ctx: Context, pending: string, chunks: seq<string>, times: seq<int>): Outcome
    requires |chunks| == |times|
    decreases |chunks|
  {
    if chunks == [] then Parsed(ctx, pending, true)
    else
      var first := Parse(ctx, pending + chunks[0], times[0]);
      if |chunks| == 1 || !first.Parsed? || !first.ok then first
      else ParseChunks(first.ctx, first.rest, chunks[1..], times[1..])
  }

  function Joined(chunks: seq<string>): string {
    if chunks == [] then "" else chunks[0] + Joined(chunks[1..])
  }

  /** After each chunk but the last the parser waits for more. */
  predicate WaitsBetween(ctx: Context, pending: string, chunks: seq<string>)
    decreases |chunks|
  {
    |chunks| <= 1 ||
    var first := Parse(ctx, pending + chunks[0], 0);
    && first.Parsed? && first.ok && first.ctx.state != GotAll
    && WaitsBetween(first.ctx, first.rest, chunks[1..])
  }

  lemma {:induction false} WaitsUntimed(c1: Context, c2: Context, pending: string, chunks: seq<string>)
    requires Untimed(c1) == Untimed(c2) && WaitsBetween(c1, pending, chunks)
    ensures WaitsBetween(c2, pending, chunks)
    decreases |chunks|
  {
    if |chunks| > 1 {
      TimeIndependent(c1, c2, pending + chunks[0], 0, 0);
      var o1, o2 := Parse(c1, pending + chunks[0], 0), Parse(c2, pending + chunks[0], 0);
      WaitsUntimed(o1.ctx, o2.ctx, o1.rest, chunks[1..]);
    }
  }

  lemma OneChunk(ctx: Context, pending: string, chunks: seq<string>, times: seq<int>)
    requires |chunks| == |times| == 1
    ensures ParseChunks(ctx, pending, chunks, times) == Parse(ctx, pending + Joined(chunks), times[0])
  {
    hide Parse;
    assert chunks[0] + "" == chunks[0];
  }

  lemma NextChunk(ctx: Context, pending: string, chunks: seq<string>, times: seq<int>)
    requires |chunks| == |times| > 1 && WaitsBetween(ctx, pending, chunks)
    ensures var plain := Parse(ctx, pending + chunks[0], 0);
            && plain.Parsed? && plain.ok && plain.ctx.state != GotAll
            && WaitsBetween(plain.ctx, plain.rest, chunks[1..])
    ensures var first := Parse(ctx, pending + chunks[0], times[0]);
            first.Parsed? && first.ok ==>
              ParseChunks(ctx, pending, chunks, times) == ParseChunks(first.ctx, first.rest, chunks[1..], times[1..])
    ensures pending + Joined(chunks) == pending + chunks[0] + Joined(chunks[1..])
  {
    hide Parse;
  }

  /** Chunk by chunk or all at once, whenever the chunks arrive: the same state, request
      (receive time aside) and left-over bytes. */
  lemma {:induction false} ChunksResume(ctx: Context, pending: string, chunks: seq<string>, times: seq<int>, time: int)
    requires |chunks| == |times| > 0 && WaitsBetween(ctx, pending, chunks)
    ensures UntimedOutcome(ParseChunks(ctx, pending, chunks, times))
         == UntimedOutcome(Parse(ctx, pending + Joined(chunks), time))
    decreases |chunks|
  {
    hide Parse, ParseChunks, Joined, WaitsBetween;
    if |chunks| == 1 {
      OneChunk(ctx, pending, chunks, times);
      TimeIndependent(ctx, ctx, pending + Joined(chunks), times[0], time);
    } else {
      var text, later := pending + chunks[0], Joined(chunks[1..]);
      NextChunk(ctx, pending, chunks, times);
      var first, plain := Parse(ctx, text, times[0]), Parse(ctx, text, 0);
      TimeIndependent(ctx, ctx, text, times[0], 0);
      WaitsUntimed(plain.ctx, first.ctx, first.rest, chunks[1..]);
      ChunksResume(first.ctx, first.rest, chunks[1..], times[1..], times[0]);
      ParseResumes(ctx, text, later, times[0]);
      TimeIndependent(ctx, ctx, text + later, times[0], time);
    }
  }

  // ---- Printing a request ----

  datatype Header = Header(name: string, value: string)

  /** A request as a client writes it (sections 3.1.1 and 3.2 of RFC 7230). */
  datatype Message = Message(
    verb: Method,
    version: Version,
    path: string,
    query: string,
    headers: seq<Header>,
    body: string
  )

  const CRLF := "\r\n"

  predicate IsCleanHeader(h: Header) {
    ':' !in h.name && '\r' !in h.name && '\r' !in h.value && IsTrimmed(h.value)
  }

  predicate IsClean(m: Message) {
    && m.verb != InvalidMethod && m.version != UnknownVersion
    && ' ' !in m.path && '?' !in m.path && '\r' !in m.path
    && ' ' !in m.query && '\r' !in m.query && (m.query != "" ==> m.query[0] == '?')
    && forall i :: 0 <= i < |m.headers| ==> IsCleanHeader(m.headers[i])
  }

  function PrintVersion(v: Version): string {
    HTTP_1 + if v == Http11 then "1" else "0"
  }

  function PrintRequestLine(m: Message): string
    requires m.verb != InvalidMethod
  {
    MethodName(m.verb) + " " + (m.path + m.query + " " + PrintVersion(m.version))
  }

  function PrintHeader(h: Header): string {
    h.name + ":" + (" " + h.value)
  }

  /** The header lines and the empty line that ends them. */
  function PrintHeaders(headers: seq<Header>): string {
    if headers == [] then CRLF else PrintHeader(headers[0]) + CRLF + PrintHeaders(headers[1..])
  }

  function PrintHead(m: Message): string
    requires m.verb != InvalidMethod
  {
    PrintRequestLine(m) + CRLF + PrintHeaders(m.headers)
  }

  function WithHeaders(r: Request, headers: seq<Header>): Request
    decreases |headers|
  {
    if headers == [] then r
    else WithHeaders(r.(headers := r.headers[headers[0].name := headers[0].value]), headers[1..])
  }

  /** The request a message stands for, when the context holds these parameters already. */
  function MeaningOn(params: map<string, string>, m: Message, time: int): Request {
    WithHeaders(
      Request(m.verb, m.version, m.path, m.query, time, map[], AddParams(params, Pieces(m.query)), m.body),
      m.headers)
  }

  /** The request a message stands for. */
  function Meaning(m: Message, time: int): Request {
    MeaningOn(map[], m, time)
  }

  // ---- Round trip ----

  lemma VersionRoundTrip(v: Version)
    requires v != UnknownVersion
    ensures VersionOf(PrintVersion(v)) == v && '\r' !in PrintVersion(v)
  {
    assert PrintVersion(v)[..7] == HTTP_1;
  }

  lemma TargetParts(r: Request, path: string, query: string)
    requires '?' !in path && (query == "" || query[0] == '?')
    ensures WithTarget(r, path + query)
         == r.(path := path, query := if query == "" then r.query else query,
               params := AddParams(r.params, Pieces(query)))
  {
    var target := path + query;
    IndexOfUnique(target, '?', |path|);
    hide IndexOf;
    assert target[..|path|] == path && target[|path|..] == query;
    if query == "" {
      assert Pieces(query) == [] && AddParams(r.params, []) == r.params;
    }
  }

  lemma TargetRoundTrip(r: Request, m: Message)
    requires IsClean(m)
    ensures WithTarget(r, m.path + m.query)
         == r.(path := m.path, query := if m.query == "" then r.query else m.query,
               params := AddParams(r.params, Pieces(m.query)))
  {
    TargetParts(r, m.path, m.query);
  }

  /** Two spaces cut a line into three words. */
  lemma ThreeWords(a: string, b: string, c: string)
    requires ' ' !in a && ' ' !in b
    ensures var line := a + " " + (b + " " + c);
            var rest := line[|a| + 1..];
            && IndexOf(line, ' ') == |a| < |line| && line[..|a|] == a
            && IndexOf(rest, ' ') == |b| < |rest| && rest[..|b|] == b && rest[|b| + 1..] == c
  {
    var rest := b + " " + c;
    IndexOfUnique(a + " " + rest, ' ', |a|);
    assert (a + " " + rest)[|a| + 1..] == rest;
    IndexOfUnique(rest, ' ', |b|);
  }

  lemma NoCarriageReturn(a: string, b: string, c: string)
    requires '\r' !in a && '\r' !in b && '\r' !in c
    ensures '\r' !in a + " " + (b + " " + c)
  {
    assert '\r' !in b + " " + c;
  }

  lemma RequestLineWords(r: Request, name: string, target: string, version: string)
    requires r.verb == InvalidMethod && ' ' !in name && ' ' !in target
    requires MethodOf(name) != InvalidMethod && VersionOf(version) != UnknownVersion
    ensures WithRequestLine(r, name + " " + (target + " " + version))
         == (WithTarget(r.(verb := MethodOf(name)), target).(version := VersionOf(version)), true)
  {
    ThreeWords(name, target, version);
    hide MethodOf, VersionOf, WithTarget, IndexOf;
  }

  lemma TargetWords(m: Message)
    requires IsClean(m)
    ensures ' ' !in m.path + m.query && '\r' !in m.path + m.query
  {
  }

  /** A printed request line is read back by any context that has no method yet. */
  lemma RequestLineRoundTrip(r: Request, m: Message)
    requires IsClean(m) && r.verb == InvalidMethod
    ensures WithRequestLine(r, PrintRequestLine(m))
         == (r.(verb := m.verb, version := m.version, path := m.path,
                query := if m.query == "" then r.query else m.query,
                params := AddParams(r.params, Pieces(m.query))), true)
    ensures '\r' !in PrintRequestLine(m)
  {
    hide MethodName, MethodOf, PrintVersion, VersionOf, WithTarget, WithRequestLine, AddParams, Pieces;
    var name, target, version := MethodName(m.verb), m.path + m.query, PrintVersion(m.version);
    MethodRoundTrip(m.verb);
    VersionRoundTrip(m.version);
    TargetWords(m);
    TargetRoundTrip(r.(verb := m.verb), m);
    NoCarriageReturn(name, target, version);
    RequestLineWords(r, name, target, version);
  }

  lemma HeaderRoundTrip(r: Request, h: Header)
    requires IsCleanHeader(h)
    ensures var line := PrintHeader(h);
            && '\r' !in line && IndexOf(line, ':') == |h.name| < |line|
            && WithHeader(r, line[..|h.name|], line[|h.name| + 1..]) == r.(headers := r.headers[h.name := h.value])
  {
    var line := PrintHeader(h);
    IndexOfUnique(line, ':', |h.name|);
    assert line[..|h.name|] == h.name && line[|h.name| + 1..] == " " + h.value + "";
    HeaderValueTrims(" ", h.value, "");
  }

  /** A line of the text, ended by CRLF, is what the parser sees first. */
  lemma LineFirst(line: string, rest: string)
    requires '\r' !in line
    ensures var text := line + CRLF + rest;
            && IndexOf(text, '\r') == |line| && |line| + 2 <= |text|
            && text[..|line|] == line && text[|line| + 2..] == rest
  {
    IndexOfUnique(line + CRLF + rest, '\r', |line|);
  }

  lemma {:induction false} HeadersRoundTrip(r: Request, headers: seq<Header>, body: string, time: int)
    requires forall i :: 0 <= i < |headers| ==> IsCleanHeader(headers[i])
    ensures Parse(Context(ExpectHeaders, r), PrintHeaders(headers) + body, time)
         == Parsed(Context(GotAll, WithHeaders(r, headers).(body := body)), "", true)
    decreases |headers|
  {
    if headers == [] {
      LineFirst("", body);
      assert CRLF + body == "" + CRLF + body;
    } else {
      var line, rest := PrintHeader(headers[0]), PrintHeaders(headers[1..]) + body;
      HeaderRoundTrip(r, headers[0]);
      LineFirst(line, rest);
      assert PrintHeaders(headers) + body == line + CRLF + rest;
      HeadersRoundTrip(r.(headers := r.headers[headers[0].name := headers[0].value]), headers[1..], body, time);
    }
  }

  /** A context that waits for a request line and has nothing but parameters and a body. */
  predicate IsReset(r: Request) {
    r == AfterReset(r)
  }

  lemma RoundTripOn(r: Request, m: Message, time: int)
    requires IsClean(m) && IsReset(r)
    ensures Parse(Context(ExpectRequestLine, r), PrintHead(m) + m.body, time)
         == Parsed(Context(GotAll, MeaningOn(r.params, m, time)), "", true)
  {
    var ctx := Context(ExpectRequestLine, r);
    var line, rest := PrintRequestLine(m), PrintHeaders(m.headers) + m.body;
    RequestLineRoundTrip(r, m);
    hide PrintRequestLine, PrintHeaders, WithRequestLine, IndexOf, AddParams, Pieces, WithHeaders;
    LineFirst(line, rest);
    ParseRequestLine(ctx, line + CRLF + rest, line, rest, time);
    hide Parse;
    assert PrintHead(m) + m.body == line + CRLF + rest;
    var read := AfterRequestLine(ctx, line, time).request;
    HeadersRoundTrip(read, m.headers, m.body, time);
    WithHeadersBody(read, m.headers, m.body);
  }

  /** Printing a clean request and parsing it in one buffer gives back its fields, takes
      every byte and completes the request. */
  lemma RoundTrip(m: Message, time: int)
    requires IsClean(m)
    ensures Parse(START, PrintHead(m) + m.body, time) == Parsed(Context(GotAll, Meaning(m, time)), "", true)
  {
    RoundTripOn(FRESH, m, time);
  }

  lemma {:induction false} WithHeadersOnly(r: Request, params: map<string, string>, headers: seq<Header>)
    ensures WithHeaders(r.(params := params), headers) == WithHeaders(r, headers).(params := params)
    ensures WithHeaders(r, headers).params == r.params
    decreases |headers|
  {
    if headers != [] {
      var h := headers[0];
      WithHeadersOnly(r.(headers := r.headers[h.name := h.value]), params, headers[1..]);
    }
  }

  // ---- After a reset ----

  /** A context that was reset after the request `r` parses the text like a new one. */
  predicate ParsesFresh(r: Request, m: Message, time: int)
    requires IsClean(m)
  {
    Parse(Context(ExpectRequestLine, AfterReset(r)), Text(m), time) == Parse(START, Text(m), time)
  }

  /** The next request is parsed as by a new context exactly when its own query overrides
      every parameter that was left; the body that was left is always overridden. */
  lemma ResetParsesFreshIff(r: Request, m: Message, time: int)
    requires IsClean(m)
    ensures ParsesFresh(r, m, time)
        <==> r.params.Keys <= AddParams(map[], Pieces(m.query)).Keys
  {
    hide Parse, PrintHead, AddParams, Pieces, IsClean, WithHeaders;
    OverriddenIff(r.params, Pieces(m.query));
    RoundTripOn(AfterReset(r), m, time);
    RoundTrip(m, time);
    var old', new' := AddParams(r.params, Pieces(m.query)), AddParams(map[], Pieces(m.query));
    var plain := Request(m.verb, m.version, m.path, m.query, time, map[], new', m.body);
    WithHeadersOnly(plain, old', m.headers);
  }

  /** So a reset context can be used again for whatever request comes next exactly when no
      parameters were left in it. */
  lemma ResetIsFreshIff(r: Request)
    ensures (forall m: Message, time: int :: IsClean(m) ==> ParsesFresh(r, m, time)) <==> r.params == map[]
  {
    if r.params == map[] {
      forall m: Message, time: int | IsClean(m)
        ensures ParsesFresh(r, m, time)
      {
        ResetParsesFreshIff(r, m, time);
      }
    } else {
      var m := Message(Get, Http11, "/", "", [], "");
      assert IsClean(m);
      ResetParsesFreshIff(r, m, 0);
      assert !ParsesFresh(r, m, 0);
    }
  }

  lemma {:induction false} WithHeadersBody(r: Request, headers: seq<Header>, body: string)
    ensures WithHeaders(r, headers).(body := body) == WithHeaders(r.(body := body), headers)
    decreases |headers|
  {
    if headers != [] {
      WithHeadersBody(r.(headers := r.headers[headers[0].name := headers[0].value]), headers[1..], body);
    }
  }

  // ---- What is refused ----

  /** A line of three words; the last one may have spaces in it. */
  predicate Words(line: string, name: string, target: string, version: string) {
    line == name + " " + (target + " " + version) && ' ' !in name && ' ' !in target
  }

  predicate Known(name: string, version: string) {
    name in {"GET", "POST", "HEAD", "PUT", "DELETE"} && version in {"HTTP/1.0", "HTTP/1.1"}
  }

  /** Three words, of which the first is a method and the last a version, letter by letter. */
  ghost predicate GoodLine(line: string) {
    exists name, target, version :: Words(line, name, target, version) && Known(name, version)
  }

  lemma KnownVersions(text: string)
    ensures VersionOf(text) == Http11 <==> text == "HTTP/1.1"
    ensures VersionOf(text) == Http10 <==> text == "HTTP/1.0"
    ensures VersionOf(text) != UnknownVersion <==> text in {"HTTP/1.0", "HTTP/1.1"}
  {
    if |text| == 8 {
      assert text == text[..7] + [text[7]];
    }
  }

  lemma FirstWord(s: string)
    ensures var i := IndexOf(s, ' ');
            i < |s| ==> s == s[..i] + " " + s[i + 1..] && ' ' !in s[..i]
  {
    hide IndexOf;
    var i := IndexOf(s, ' ');
    if i < |s| {
      Sliced(s, i);
    }
  }

  lemma Sliced(s: string, i: nat)
    requires i < |s|
    ensures s == s[..i] + [s[i]] + s[i + 1..]
  {
  }

  lemma WordsFound(line: string)
    ensures var space := IndexOf(line, ' ');
            space < |line| ==>
              var rest := line[space + 1..];
              var second := IndexOf(rest, ' ');
              second < |rest| ==> Words(line, line[..space], rest[..second], rest[second + 1..])
  {
    FirstWord(line);
    var space := IndexOf(line, ' ');
    if space < |line| {
      FirstWord(line[space + 1..]);
    }
    hide IndexOf;
  }

  lemma LineByWords(r: Request, line: string, name: string, target: string, version: string)
    requires Words(line, name, target, version)
    ensures WithRequestLine(r, line) ==
      if !WithMethod(r, name).1 then (WithMethod(r, name).0, false)
      else WithVersion(WithTarget(WithMethod(r, name).0, target), version)
  {
    ThreeWords(name, target, version);
    hide IndexOf, WithMethod, WithTarget, WithVersion;
  }

  lemma WordsAccepted(r: Request, line: string, name: string, target: string, version: string)
    requires r.verb == InvalidMethod && Words(line, name, target, version)
    ensures WithRequestLine(r, line).1 <==> Known(name, version)
  {
    LineByWords(r, line, name, target, version);
    KnownMethods(name);
    KnownVersions(version);
    hide WithRequestLine, MethodOf, VersionOf, WithTarget, Words;
  }

  lemma AcceptedHasWords(r: Request, line: string) returns (name: string, target: string, version: string)
    requires WithRequestLine(r, line).1
    ensures Words(line, name, target, version)
  {
    WordsFound(line);
    var space := IndexOf(line, ' ');
    var rest := line[space + 1..];
    var second := IndexOf(rest, ' ');
    hide IndexOf, WithMethod, WithTarget, WithVersion, Words;
    name, target, version := line[..space], rest[..second], rest[second + 1..];
  }

  /** Without a method so far, exactly the good lines are accepted. */
  lemma LineAcceptedIff(r: Request, line: string)
    requires r.verb == InvalidMethod
    ensures WithRequestLine(r, line).1 <==> GoodLine(line)
  {
    hide WithRequestLine, Words, Known;
    if WithRequestLine(r, line).1 {
      var name, target, version := AcceptedHasWords(r, line);
      WordsAccepted(r, line, name, target, version);
    } else if GoodLine(line) {
      var name, target, version :| Words(line, name, target, version) && Known(name, version);
      WordsAccepted(r, line, name, target, version);
      assert false;
    }
  }

  /** What a good line means: the method and the version are those named, the target up to
      its question mark is the path and the rest of it the query. */
  lemma LineMeans(r: Request, name: string, path: string, query: string, version: string)
    requires r.verb == InvalidMethod && ' ' !in name && ' ' !in path + query && Known(name, version)
    requires '?' !in path && (query == "" || query[0] == '?')
    ensures var q := WithRequestLine(r, name + " " + (path + query + " " + version)).0;
            && (q.verb == Get <==> name == "GET") && (q.verb == Post <==> name == "POST")
            && (q.verb == Head <==> name == "HEAD") && (q.verb == Put <==> name == "PUT")
            && (q.verb == Delete <==> name == "DELETE")
            && (q.version == Http11 <==> version == "HTTP/1.1") && (q.version == Http10 <==> version == "HTTP/1.0")
            && q.path == path && q.query == (if query == "" then r.query else query)
            && q.headers == r.headers && q.body == r.body && q.params == AddParams(r.params, Pieces(query))
  {
    KnownMethods(name);
    KnownVersions(version);
    RequestLineWords(r, name, path + query, version);
    TargetParts(r.(verb := MethodOf(name)), path, query);
    hide WithRequestLine, MethodOf, VersionOf, WithTarget, AddParams, Pieces;
  }

  /** What a refused line of three words leaves behind: nothing when the method is unknown,
      else the method, the path and the query. */
  lemma RefusedLineLeaves(r: Request, name: string, path: string, query: string, version: string)
    requires r.verb == InvalidMethod && ' ' !in name && ' ' !in path + query && !Known(name, version)
    requires '?' !in path && (query == "" || query[0] == '?')
    ensures var q := WithRequestLine(r, name + " " + (path + query + " " + version)).0;
            if name in {"GET", "POST", "HEAD", "PUT", "DELETE"} then
              && q.verb == MethodOf(name) && q.version == r.version && q.path == path
              && q.query == (if query == "" then r.query else query)
              && q.params == AddParams(r.params, Pieces(query)) && q.headers == r.headers
            else q == r
  {
    var line := name + " " + (path + query + " " + version);
    assert Words(line, name, path + query, version);
    LineByWords(r, line, name, path + query, version);
    KnownMethods(name);
    KnownVersions(version);
    TargetParts(r.(verb := MethodOf(name)), path, query);
    hide WithRequestLine, MethodOf, VersionOf, WithTarget, AddParams, Pieces, Words;
  }

  /** A context that has a method refuses every line and stays as it is. */
  lemma SetMethodRefuses(r: Request, line: string)
    requires r.verb != InvalidMethod
    ensures WithRequestLine(r, line) == (r, false)
  {
    hide IndexOf, MethodOf;
  }

  /** Past the request line nothing is refused any more. */
  lemma {:induction false} HeadersNeverRefused(ctx: Context, text: string, time: int)
    requires ctx.state == ExpectHeaders || ctx.state == ExpectBody
    ensures Parse(ctx, text, time).Parsed? ==> Parse(ctx, text, time).ok
    decreases Rank(ctx.state), |text|
  {
    hide IndexOf, AfterHeaderLine;
    var crlf := IndexOf(text, '\r');
    if ctx.state == ExpectHeaders && crlf + 2 <= |text| {
      HeadersNeverRefused(AfterHeaderLine(ctx, text[..crlf]), text[crlf + 2..], time);
    }
  }

  lemma LineThenRest(line: string, rest: string)
    requires '\r' !in line
    ensures var text := line + "\r" + rest;
            && CutsLine(text, line, if rest == "" then text else rest[1..])
            && |text| == |line| + 1 + |rest|
  {
    IndexOfUnique(line + "\r" + rest, '\r', |line|);
  }

  /** The parser reports a bad request exactly for a line that is not good; then nothing is
      consumed. A good line is consumed together with the character behind the carriage
      return, whatever it is, and aborts the process when there is none. */
  lemma ParseRefusesIff(r: Request, line: string, rest: string, time: int)
    requires r.verb == InvalidMethod && '\r' !in line
    ensures var ctx, text := Context(ExpectRequestLine, r), line + "\r" + rest;
            var o := Parse(ctx, text, time);
            && (o.Parsed? && !o.ok <==> !GoodLine(line))
            && (!GoodLine(line) ==> o.rest == text && o.ctx.state == ExpectRequestLine)
            && (GoodLine(line) ==>
                  o == if rest == "" then Aborted else Parse(AfterRequestLine(ctx, line, time), rest[1..], time))
  {
    var ctx, text := Context(ExpectRequestLine, r), line + "\r" + rest;
    LineThenRest(line, rest);
    LineAcceptedIff(r, line);
    ParseRequestLine(ctx, text, line, if rest == "" then text else rest[1..], time);
    hide Parse, WithRequestLine, IndexOf, GoodLine, CutsLine;
    if rest != "" {
      HeadersNeverRefused(AfterRequestLine(ctx, line, time), rest[1..], time);
    }
  }

  /** A header line with a colon is stored under what is before the first one; the character
      behind the carriage return does not matter. */
  lemma HeaderLineStored(r: Request, name: string, raw: string, x: char, rest: string, time: int)
    requires ':' !in name && '\r' !in name && '\r' !in raw
    ensures Parse(Context(ExpectHeaders, r), name + ":" + raw + "\r" + ([x] + rest), time)
         == Parse(Context(ExpectHeaders, r.(headers := r.headers[name := HeaderValue(raw)])), rest, time)
  {
    var line := name + ":" + raw;
    LineThenRest(line, [x] + rest);
    IndexOfUnique(line, ':', |name|);
    assert line[..|name|] == name && line[|name| + 1..] == raw;
    assert ([x] + rest)[1..] == rest;
    ParseHeaderLine(Context(ExpectHeaders, r), line + "\r" + ([x] + rest), line, rest, time);
    hide Parse, IndexOf, CutsLine, HeaderValue;
  }

  /** A line without a colon ends the head, even when it is not empty, and everything behind
      it is the body. */
  lemma BareLineEndsHead(r: Request, line: string, x: char, rest: string, time: int)
    requires ':' !in line && '\r' !in line
    ensures Parse(Context(ExpectHeaders, r), line + "\r" + ([x] + rest), time)
         == Parsed(Context(GotAll, r.(body := rest)), "", true)
  {
    LineThenRest(line, [x] + rest);
    IndexOfUnique(line, ':', |line|);
    assert ([x] + rest)[1..] == rest;
    ParseHeaderLine(Context(ExpectHeaders, r), line + "\r" + ([x] + rest), line, rest, time);
    hide IndexOf, CutsLine;
  }

  /** A refused line is refused again, whatever it has left in the request. */
  lemma RefusedAgain(r: Request, line: string)
    requires !WithRequestLine(r, line).1
    ensures !WithRequestLine(WithRequestLine(r, line).0, line).1
  {
    if r.verb == InvalidMethod {
      LineAcceptedIff(r, line);
    }
    var q := WithRequestLine(r, line).0;
    hide WithRequestLine, GoodLine;
    if q.verb == InvalidMethod {
      VerbOnlyAdded(r, line);
      LineAcceptedIff(q, line);
    } else {
      SetMethodRefuses(q, line);
    }
  }

  lemma VerbOnlyAdded(r: Request, line: string)
    ensures r.verb != InvalidMethod ==> WithRequestLine(r, line).0.verb == r.verb
  {
    hide IndexOf, MethodOf, VersionOf, WithTarget;
  }

  // ---- Where a printed request can be cut ----

  predicate AfterCR(text: string, k: nat)
    requires k <= |text|
  {
    0 < k && text[k - 1] == '\r'
  }

  /** Seeing the first `k` characters of a head, the parser waits for more, except directly
      after a carriage return, where it aborts. */
  predicate WaitsOrAborts(o: Outcome, text: string, k: nat)
    requires k <= |text|
  {
    if AfterCR(text, k) then o.Aborted? else o.Parsed? && o.ok && o.ctx.state != GotAll
  }

  /** A prefix that ends inside a line or in the middle of its CRLF. */
  lemma LineCut(line: string, rest: string, k: nat)
    requires '\r' !in line && k <= |line| + 1
    ensures var text := line + CRLF + rest;
            && (AfterCR(text, k) <==> k == |line| + 1)
            && (k <= |line| ==> IndexOf(text[..k], '\r') == k)
            && (k == |line| + 1 ==> IndexOf(text[..k], '\r') == |line| && text[..k][..|line|] == line)
  {
    var text := line + CRLF + rest;
    IndexOfUnique(text[..k], '\r', if k <= |line| then k else |line|);
  }

  /** A prefix that reaches past a line and its CRLF. */
  lemma LinePast(line: string, rest: string, k: nat)
    requires '\r' !in line && |line| + 2 <= k <= |line| + 2 + |rest|
    ensures var text, n := line + CRLF + rest, |line| + 2;
            && IndexOf(text[..k], '\r') == |line| && text[..k][..|line|] == line
            && text[..k][n..] == rest[..k - n]
            && (AfterCR(text, k) <==> AfterCR(rest, k - n))
  {
    IndexOfUnique((line + CRLF + rest)[..k], '\r', |line|);
  }

  lemma HeaderCut(r: Request, h: Header, rest: string, k: nat, time: int)
    requires IsCleanHeader(h) && k <= |PrintHeader(h)| + 1
    ensures var text := PrintHeader(h) + CRLF + rest;
            WaitsOrAborts(Parse(Context(ExpectHeaders, r), text[..k], time), text, k)
  {
    HeaderRoundTrip(r, h);
    LineCut(PrintHeader(h), rest, k);
    var ctx, line := Context(ExpectHeaders, r), PrintHeader(h);
    var seen := (line + CRLF + rest)[..k];
    hide PrintHeader, WithHeader, IndexOf, IsCleanHeader, Parse;
    if k <= |line| {
      ParseNoLine(ctx, seen, time);
    } else {
      ParseHeaderLine(ctx, seen, line, seen, time);
    }
  }

  lemma HeaderPast(r: Request, h: Header, rest: string, k: nat, time: int)
    requires IsCleanHeader(h) && |PrintHeader(h)| + 2 <= k <= |PrintHeader(h)| + 2 + |rest|
    ensures var text, n := PrintHeader(h) + CRLF + rest, |PrintHeader(h)| + 2;
            && Parse(Context(ExpectHeaders, r), text[..k], time)
            == Parse(Context(ExpectHeaders, r.(headers := r.headers[h.name := h.value])), rest[..k - n], time)
            && (AfterCR(text, k) <==> AfterCR(rest, k - n))
  {
    HeaderRoundTrip(r, h);
    LinePast(PrintHeader(h), rest, k);
    var ctx, line := Context(ExpectHeaders, r), PrintHeader(h);
    hide PrintHeader, WithHeader, IndexOf, IsCleanHeader, Parse;
    ParseHeaderLine(ctx, (line + CRLF + rest)[..k], line, rest[..k - |line| - 2], time);
  }

  lemma {:induction false} HeadersCut(r: Request, headers: seq<Header>, k: nat, time: int)
    requires (forall i :: 0 <= i < |headers| ==> IsCleanHeader(headers[i])) && k < |PrintHeaders(headers)|
    ensures var text := PrintHeaders(headers);
            WaitsOrAborts(Parse(Context(ExpectHeaders, r), text[..k], time), text, k)
    decreases |headers|
  {
    if headers == [] {
      LineCut("", "", k);
      assert "" + CRLF + "" == CRLF;
    } else {
      hide Parse, PrintHeader, IsCleanHeader;
      var h, rest := headers[0], PrintHeaders(headers[1..]);
      if k <= |PrintHeader(h)| + 1 {
        HeaderCut(r, h, rest, k, time);
      } else {
        HeaderPast(r, h, rest, k, time);
        HeadersCut(r.(headers := r.headers[h.name := h.value]), headers[1..], k - |PrintHeader(h)| - 2, time);
      }
    }
  }

  lemma RequestLineCut(line: string, rest: string, k: nat, time: int)
    requires '\r' !in line && WithRequestLine(FRESH, line).1 && k <= |line| + 1
    ensures var text := line + CRLF + rest;
            WaitsOrAborts(Parse(START, text[..k], time), text, k)
  {
    LineCut(line, rest, k);
    var seen := (line + CRLF + rest)[..k];
    hide WithRequestLine, IndexOf, Parse;
    if k <= |line| {
      ParseNoLine(START, seen, time);
    } else {
      ParseRequestLine(START, seen, line, seen, time);
    }
  }

  lemma RequestLinePast(line: string, rest: string, k: nat, time: int)
    requires '\r' !in line && WithRequestLine(FRESH, line).1 && |line| + 2 <= k <= |line| + 2 + |rest|
    ensures var text, n := line + CRLF + rest, |line| + 2;
            && Parse(START, text[..k], time) == Parse(AfterRequestLine(START, line, time), rest[..k - n], time)
            && (AfterCR(text, k) <==> AfterCR(rest, k - n))
  {
    LinePast(line, rest, k);
    hide WithRequestLine, IndexOf, Parse, AfterRequestLine;
    ParseRequestLine(START, (line + CRLF + rest)[..k], line, rest[..k - |line| - 2], time);
  }

  lemma HeadCut(m: Message, k: nat, time: int)
    requires IsClean(m) && k < |PrintHead(m)|
    ensures WaitsOrAborts(Parse(START, PrintHead(m)[..k], time), PrintHead(m), k)
  {
    var line, rest := PrintRequestLine(m), PrintHeaders(m.headers);
    RequestLineRoundTrip(FRESH, m);
    assert PrintHead(m) == line + CRLF + rest;
    hide WithRequestLine, PrintRequestLine, PrintHeaders, PrintHead, Parse;
    if k <= |line| + 1 {
      RequestLineCut(line, rest, k, time);
    } else {
      RequestLinePast(line, rest, k, time);
      HeadersCut(AfterRequestLine(START, line, time).request, m.headers, k - |line| - 2, time);
    }
  }

  /** A cut in the head, not directly after a carriage return. */
  predicate GoodCut(m: Message, k: nat)
    requires IsClean(m)
  {
    k < |PrintHead(m)| && !AfterCR(PrintHead(m), k)
  }

  function Text(m: Message): string
    requires m.verb != InvalidMethod
  {
    PrintHead(m) + m.body
  }

  lemma ParseTwo(a: string, b: string, t1: int, t2: int)
    ensures ParseChunks(START, "", [a, b], [t1, t2])
         == (var first := Parse(START, a, t1);
             if first.Parsed? && first.ok then Parse(first.ctx, first.rest + b, t2) else first)
  {
    assert "" + a == a && [a, b][1..] == [b] && [t1, t2][1..] == [t2];
    hide Parse;
  }

  lemma CutInHead(m: Message, k: nat, t1: int, t2: int, time: int)
    requires IsClean(m) && k < |PrintHead(m)|
    ensures UntimedOutcome(ParseChunks(START, "", [Text(m)[..k], Text(m)[k..]], [t1, t2]))
         == UntimedOutcome(Parse(START, Text(m), time))
        <==> GoodCut(m, k)
  {
    var a, b := Text(m)[..k], Text(m)[k..];
    hide Parse, ParseChunks, PrintHead, IsClean;
    assert a == PrintHead(m)[..k] && a + b == Text(m);
    HeadCut(m, k, t1);
    ParseTwo(a, b, t1, t2);
    RoundTrip(m, time);
    if GoodCut(m, k) {
      var first := Parse(START, a, t1);
      ParseResumes(START, a, b, t1);
      TimeIndependent(first.ctx, first.ctx, first.rest + b, t1, t2);
      TimeIndependent(START, START, Text(m), t1, time);
    }
  }

  /** A message with less of its body. */
  function Shortened(m: Message, k: nat): Message
    requires m.verb != InvalidMethod && |PrintHead(m)| <= k <= |Text(m)|
  {
    m.(body := m.body[..k - |PrintHead(m)|])
  }

  /** As soon as the head has arrived the request is complete, with what there is of the
      body. */
  lemma CompletesEarly(m: Message, k: nat, time: int)
    requires IsClean(m) && |PrintHead(m)| <= k <= |Text(m)|
    ensures Parse(START, Text(m)[..k], time) == Parsed(Context(GotAll, Meaning(Shortened(m, k), time)), "", true)
  {
    var m' := Shortened(m, k);
    assert IsClean(m') && PrintHead(m') == PrintHead(m);
    hide PrintHead, IsClean, Meaning, Parse;
    assert Text(m)[..k] == PrintHead(m') + m'.body;
    RoundTrip(m', time);
  }

  lemma CutPastHead(m: Message, k: nat, t1: int, t2: int)
    requires IsClean(m) && |PrintHead(m)| <= k <= |Text(m)|
    ensures ParseChunks(START, "", [Text(m)[..k], Text(m)[k..]], [t1, t2]) == Stuck
  {
    CompletesEarly(m, k, t1);
    hide PrintHead, ParseChunks, IsClean, Meaning, Parse, Text, Shortened;
    ParseTwo(Text(m)[..k], Text(m)[k..], t1, t2);
    CompleteSticks(Meaning(Shortened(m, k), t1), "" + Text(m)[k..], t2);
  }

  lemma CompleteSticks(r: Request, text: string, time: int)
    ensures Parse(Context(GotAll, r), text, time) == Stuck
  {
  }

  /** Cutting the text of a clean request in two and parsing the parts one after the other,
      without a reset in between, gives what parsing it whole gives exactly when the cut
      lies in the head and not directly after a carriage return. */
  lemma SplitAgreesIff(m: Message, k: nat, t1: int, t2: int, time: int)
    requires IsClean(m) && k <= |Text(m)|
    ensures UntimedOutcome(ParseChunks(START, "", [Text(m)[..k], Text(m)[k..]], [t1, t2]))
         == UntimedOutcome(Parse(START, Text(m), time))
        <==> GoodCut(m, k)
  {
    hide Parse, ParseChunks, PrintHead;
    if k < |PrintHead(m)| {
      CutInHead(m, k, t1, t2, time);
    } else {
      CutPastHead(m, k, t1, t2);
      RoundTrip(m, time);
    }
  }

  // ---- A caller that resets ----

  /** What the server has handed on so far and where its context stands, unless it crashed. */
  datatype Service = Serving(handed: seq<Request>, ctx: Context, rest: string) | Crashed

  /** `HttpServer::onMessage` for one chunk after the other: a complete request is handed
      on and the context is reset; after a bad one the context stays as it is. */
  function Serve(ctx: Context, pending: string, chunks: seq<string>, times: seq<int>): Service
    requires |chunks| == |times|
    decreases |chunks|
  {
    if chunks == [] then Serving([], ctx, pending)
    else
      var first := Parse(ctx, pending + chunks[0], times[0]);
      if !first.Parsed? then Crashed
      else if first.ctx.state != GotAll then Serve(first.ctx, first.rest, chunks[1..], times[1..])
      else
        var next := Context(ExpectRequestLine, AfterReset(first.ctx.request));
        var later := Serve(next, first.rest, chunks[1..], times[1..]);
        if later.Serving? then later.(handed := [first.ctx.request] + later.handed) else Crashed
  }

  /** The buffer begins with a line that is refused. */
  predicate Refused(ctx: Context, text: string) {
    && ctx.state == ExpectRequestLine
    && var crlf := IndexOf(text, '\r');
       crlf < |text| && !WithRequestLine(ctx.request, text[..crlf]).1
  }

  lemma RefusedStep(ctx: Context, text: string, more: string, time: int)
    requires Refused(ctx, text)
    ensures var o := Parse(ctx, text + more, time);
            o.Parsed? && !o.ok && o.rest == text + more && Refused(o.ctx, o.rest)
  {
    var crlf := IndexOf(text, '\r');
    IndexOfAppend(text, more, '\r');
    assert (text + more)[..crlf] == text[..crlf];
    RefusedAgain(ctx.request, text[..crlf]);
    hide WithRequestLine, IndexOf;
  }

  /** One bad request line, and whatever else arrives on the connection is refused with it:
      nothing is handed on any more. */
  lemma {:induction false} BadLineForever(ctx: Context, text: string, chunks: seq<string>, times: seq<int>)
    requires Refused(ctx, text) && |chunks| == |times|
    ensures var s := Serve(ctx, text, chunks, times);
            s.Serving? && s.handed == [] && s.rest == text + Joined(chunks)
    decreases |chunks|
  {
    if chunks == [] {
      assert text + "" == text;
    } else {
      RefusedStep(ctx, text, chunks[0], times[0]);
      var first := Parse(ctx, text + chunks[0], times[0]);
      assert first.ctx.state == ExpectRequestLine;
      assert text + (chunks[0] + Joined(chunks[1..])) == text + chunks[0] + Joined(chunks[1..]);
      hide Parse, Refused;
      BadLineForever(first.ctx, first.rest, chunks[1..], times[1..]);
    }
  }

  /** In particular for everything behind a line that is not good. */
  lemma NothingAfterBadLine(line: string, rest: string, chunks: seq<string>, times: seq<int>)
    requires '\r' !in line && !GoodLine(line) && |chunks| == |times|
    ensures var s := Serve(START, line + "\r" + rest, chunks, times);
            s.Serving? && s.handed == []
  {
    LineThenRest(line, rest);
    LineAcceptedIff(FRESH, line);
    hide WithRequestLine, GoodLine, Serve;
    assert Refused(START, line + "\r" + rest);
    BadLineForever(START, line + "\r" + rest, chunks, times);
  }

  /** The server hands on one request, this one (receive time aside). */
  predicate HandsOn(s: Service, r: Request) {
    && s.Serving? && |s.handed| == 1
    && s.handed[0].(receiveTime := 0) == r.(receiveTime := 0)
  }

  function ServeOne(ctx: Context, text: string, time: int): Service {
    var last := Parse(ctx, text, time);
    if !last.Parsed? then Crashed
    else if last.ctx.state != GotAll then Serving([], last.ctx, last.rest)
    else Serving([last.ctx.request], Context(ExpectRequestLine, AfterReset(last.ctx.request)), last.rest)
  }

  lemma ServeLast(ctx: Context, pending: string, chunk: string, time: int)
    ensures Serve(ctx, pending, [chunk], [time]) == ServeOne(ctx, pending + chunk, time)
  {
    hide Parse;
    var last := Parse(ctx, pending + chunk, time);
    assert [chunk][1..] == [] && [time][1..] == [];
    if last.Parsed? && last.ctx.state == GotAll {
      assert [last.ctx.request] + [] == [last.ctx.request];
    }
  }

  lemma ServeTwo(a: string, b: string, t1: int, t2: int)
    ensures Serve(START, "", [a, b], [t1, t2])
         == (var first := Parse(START, a, t1);
             if !first.Parsed? then Crashed
             else if first.ctx.state != GotAll then ServeOne(first.ctx, first.rest + b, t2)
             else
               var later := ServeOne(Context(ExpectRequestLine, AfterReset(first.ctx.request)), first.rest + b, t2);
               if later.Serving? then later.(handed := [first.ctx.request] + later.handed) else Crashed)
  {
    hide Parse, ServeOne;
    var first := Parse(START, "" + a, t1);
    assert "" + a == a;
    assert [a, b][0] == a && [a, b][1..] == [b] && [t1, t2][0] == t1 && [t1, t2][1..] == [t2];
    if first.Parsed? {
      ServeLast(first.ctx, first.rest, b, t2);
      ServeLast(Context(ExpectRequestLine, AfterReset(first.ctx.request)), first.rest, b, t2);
    }
  }

  /** The server parses a request and resets its context, and then a request without a query
      arrives, which shows the parameters of the one before. */
  lemma KeptParamsShow(m: Message, next: Message, t1: int, t2: int)
    requires IsClean(m) && IsClean(next) && next.query == ""
    ensures var s := Serve(START, "", [Text(m), Text(next)], [t1, t2]);
            && s.Serving? && |s.handed| == 2 && s.handed[0] == Meaning(m, t1)
            && s.handed[1].params == AddParams(map[], Pieces(m.query)) && Meaning(next, t2).params == map[]
  {
    var kept := Meaning(m, t1);
    ParamsOf(map[], m, t1);
    ParamsOf(map[], next, t2);
    ParamsOf(kept.params, next, t2);
    assert Pieces("") == [] && forall p :: AddParams(p, []) == p;
    RoundTrip(m, t1);
    RoundTripOn(AfterReset(kept), next, t2);
    hide Parse, PrintHead, Serve, Meaning, MeaningOn, IsClean, AddParams, Pieces;
    ServeTwo(Text(m), Text(next), t1, t2);
    assert "" + Text(next) == Text(next);
  }

  /** For instance `/?a=1` and then `/`, which is handed on with a parameter. */
  lemma KeptParamExample(t1: int, t2: int)
    ensures var m, next := Message(Get, Http11, "/", "?a=1", [], ""), Message(Get, Http11, "/", "", [], "");
            && IsClean(m) && IsClean(next)
            && var s := Serve(START, "", [Text(m), Text(next)], [t1, t2]);
               s.Serving? && |s.handed| == 2 && s.handed[1].params == map["?a" := "1"]
  {
    var m, next := Message(Get, Http11, "/", "?a=1", [], ""), Message(Get, Http11, "/", "", [], "");
    CleanExample();
    ParamExample();
    hide Parse, PrintHead, Serve, Meaning, MeaningOn, IsClean, AddParams, Pieces;
    KeptParamsShow(m, next, t1, t2);
  }

  lemma CleanExample()
    ensures IsClean(Message(Get, Http11, "/", "?a=1", [], "")) && IsClean(Message(Get, Http11, "/", "", [], ""))
  {
  }

  lemma ParamExample()
    ensures AddParams(map[], Pieces("?a=1")) == map["?a" := "1"]
  {
    var p := Param("?a", "1");
    assert PrintParam(p) == "?a=1";
    PieceAlone("?a=1");
    AddCleanParam(map[], p);
    hide AddParam, Pieces, IsCleanParam, PrintParam;
    assert ["?a=1"][1..] == [];
  }

  lemma ParamsOf(params: map<string, string>, m: Message, time: int)
    ensures MeaningOn(params, m, time).params == AddParams(params, Pieces(m.query))
  {
    var plain := Request(m.verb, m.version, m.path, m.query, time, map[], AddParams(params, Pieces(m.query)), m.body);
    WithHeadersOnly(plain, params, m.headers);
  }

  lemma ServedCutInHead(m: Message, k: nat, t1: int, t2: int, time: int)
    requires IsClean(m) && k < |PrintHead(m)|
    ensures HandsOn(Serve(START, "", [Text(m)[..k], Text(m)[k..]], [t1, t2]), Meaning(m, time)) <==> GoodCut(m, k)
  {
    var a, b := Text(m)[..k], Text(m)[k..];
    hide Parse, Serve, PrintHead, IsClean, Meaning;
    assert a == PrintHead(m)[..k] && a + b == Text(m);
    HeadCut(m, k, t1);
    ServeTwo(a, b, t1, t2);
    if GoodCut(m, k) {
      var first := Parse(START, a, t1);
      ParseResumes(START, a, b, t1);
      RoundTrip(m, time);
      TimeIndependent(first.ctx, first.ctx, first.rest + b, t1, t2);
      TimeIndependent(START, START, Text(m), t1, time);
    }
  }

  /** The first part completes a request with what it has of the body. */
  lemma ServedEarly(m: Message, k: nat, t1: int, t2: int)
    requires IsClean(m) && |PrintHead(m)| <= k <= |Text(m)|
    ensures var short := Meaning(Shortened(m, k), t1);
            var later := ServeOne(Context(ExpectRequestLine, AfterReset(short)), Text(m)[k..], t2);
            var s := Serve(START, "", [Text(m)[..k], Text(m)[k..]], [t1, t2]);
            s == if later.Serving? then later.(handed := [short] + later.handed) else Crashed
  {
    CompletesEarly(m, k, t1);
    hide PrintHead, Serve, ServeOne, IsClean, Meaning, Parse, Text, Shortened;
    ServeTwo(Text(m)[..k], Text(m)[k..], t1, t2);
    assert "" + Text(m)[k..] == Text(m)[k..];
  }

  lemma ServedCutPastHead(m: Message, k: nat, t1: int, t2: int, time: int)
    requires IsClean(m) && |PrintHead(m)| <= k <= |Text(m)|
    ensures var s := Serve(START, "", [Text(m)[..k], Text(m)[k..]], [t1, t2]);
            && (HandsOn(s, Meaning(m, time)) <==> k == |Text(m)|)
            && (s.Serving? ==> s.handed != [] && s.handed[0] == Meaning(Shortened(m, k), t1))
  {
    ServedEarly(m, k, t1, t2);
    BodyOf(m, time);
    BodyOf(Shortened(m, k), t1);
    if k == |Text(m)| {
      assert Text(m)[k..] == "" && Shortened(m, k) == m;
      TimedMeaning(m, t1, time);
      hide Parse, PrintHead, Serve, IsClean, Meaning, MeaningOn, Shortened;
      NothingYet(AfterReset(Meaning(m, t1)), t2);
    } else {
      assert |Shortened(m, k).body| < |m.body|;
      hide Parse, PrintHead, Serve, ServeOne, IsClean, Meaning, MeaningOn, Shortened;
    }
  }

  lemma TimedMeaning(m: Message, t1: int, t2: int)
    ensures Meaning(m, t1).(receiveTime := 0) == Meaning(m, t2).(receiveTime := 0)
  {
    var plain := Request(m.verb, m.version, m.path, m.query, t1, map[], AddParams(map[], Pieces(m.query)), m.body);
    WithHeadersTime(plain, t2, m.headers);
    WithHeadersTime(plain, t1, m.headers);
  }

  lemma {:induction false} WithHeadersTime(r: Request, time: int, headers: seq<Header>)
    ensures WithHeaders(r.(receiveTime := time), headers) == WithHeaders(r, headers).(receiveTime := time)
    decreases |headers|
  {
    if headers != [] {
      var h := headers[0];
      WithHeadersTime(r.(headers := r.headers[h.name := h.value]), time, headers[1..]);
    }
  }

  lemma BodyOf(m: Message, time: int)
    ensures Meaning(m, time).body == m.body
  {
    var plain := Request(m.verb, m.version, m.path, m.query, time, map[], AddParams(map[], Pieces(m.query)), "");
    WithHeadersBody(plain, m.headers, m.body);
  }

  lemma NothingYet(r: Request, time: int)
    ensures var ctx := Context(ExpectRequestLine, r);
            Parse(ctx, "", time) == Parsed(ctx, "", true)
  {
  }

  /** A server that resets its context after each request hands on the request that was
      sent, and nothing else, exactly when the cut lies in the head and not directly after
      a carriage return, or the first part is everything: a cut in the body hands on a
      request whose body is cut short. */
  lemma ServedWholeIff(m: Message, k: nat, t1: int, t2: int, time: int)
    requires IsClean(m) && k <= |Text(m)|
    ensures var s := Serve(START, "", [Text(m)[..k], Text(m)[k..]], [t1, t2]);
            && (HandsOn(s, Meaning(m, time)) <==> GoodCut(m, k) || k == |Text(m)|)
            && (s.Serving? && |PrintHead(m)| <= k ==>
                  s.handed != [] && s.handed[0] == Meaning(Shortened(m, k), t1))
  {
    hide Parse, Serve, PrintHead, Meaning;
    if k < |PrintHead(m)| {
      ServedCutInHead(m, k, t1, t2, time);
    } else {
      ServedCutPastHead(m, k, t1, t2, time);
    }
  }

  /** Every cut between two chunks is good, the first `done` characters being parsed. */
  predicate GoodCuts(m: Message, done: nat, chunks: seq<string>)
    requires IsClean(m)
    decreases |chunks|
  {
    |chunks| <= 1 || (GoodCut(m, done + |chunks[0]|) && GoodCuts(m, done + |chunks[0]|, chunks[1..]))
  }

  /** What has been parsed of the text, and what is to come. */
  predicate Between(m: Message, done: string, chunks: seq<string>)
    requires m.verb != InvalidMethod
  {
    done + Joined(chunks) == Text(m)
  }

  lemma FirstCutGood(m: Message, done: string, chunks: seq<string>)
    requires IsClean(m) && |chunks| > 1 && GoodCuts(m, |done|, chunks)
    ensures var k := |done + chunks[0]|;
            && k < |PrintHead(m)| && !AfterCR(PrintHead(m), k) && GoodCuts(m, k, chunks[1..])
  {
    hide PrintHead, IsClean, AfterCR;
    assert GoodCut(m, |done| + |chunks[0]|);
  }

  lemma NextPrefix(m: Message, done: string, chunks: seq<string>)
    requires m.verb != InvalidMethod && chunks != [] && Between(m, done, chunks)
    requires |done + chunks[0]| < |PrintHead(m)|
    ensures Between(m, done + chunks[0], chunks[1..])
    ensures done + chunks[0] == PrintHead(m)[..|done + chunks[0]|]
  {
    hide PrintHead;
    var prefix, rest := done + chunks[0], Joined(chunks[1..]);
    assert done + (chunks[0] + rest) == prefix + rest;
    assert prefix == (prefix + rest)[..|prefix|];
  }

  /** The parser waits after `done`, having this outcome. */
  predicate WaitsAfter(done: string, o: Outcome) {
    o == Parse(START, done, 0) && o.Parsed? && o.ok && o.ctx.state != GotAll
  }

  lemma NextOutcome(m: Message, done: string, o: Outcome, chunk: string)
    requires IsClean(m) && WaitsAfter(done, o)
    requires |done + chunk| < |PrintHead(m)| && done + chunk == PrintHead(m)[..|done + chunk|]
    requires !AfterCR(PrintHead(m), |done + chunk|)
    ensures WaitsAfter(done + chunk, Parse(o.ctx, o.rest + chunk, 0))
  {
    hide Parse, PrintHead, IsClean, AfterCR;
    HeadCut(m, |done + chunk|, 0);
    ParseResumes(START, done, chunk, 0);
  }

  lemma {:induction false} GoodCutsWait(m: Message, done: string, o: Outcome, chunks: seq<string>)
    requires IsClean(m) && Between(m, done, chunks) && GoodCuts(m, |done|, chunks) && WaitsAfter(done, o)
    ensures WaitsBetween(o.ctx, o.rest, chunks)
    decreases |chunks|
  {
    OutcomeParsed(done, o);
    if |chunks| > 1 {
      FirstCutGood(m, done, chunks);
      CleanMethod(m);
      hide Parse, PrintHead, IsClean, GoodCuts, AfterCR, WaitsBetween, Between, WaitsAfter;
      NextPrefix(m, done, chunks);
      NextOutcome(m, done, o, chunks[0]);
      var next := Parse(o.ctx, o.rest + chunks[0], 0);
      OutcomeParsed(done + chunks[0], next);
      GoodCutsWait(m, done + chunks[0], next, chunks[1..]);
      WaitsMore(o.ctx, o.rest, chunks);
    } else {
      WaitsEnd(o.ctx, o.rest, chunks);
    }
  }

  lemma CleanMethod(m: Message)
    requires IsClean(m)
    ensures m.verb != InvalidMethod
  {
  }

  lemma OutcomeParsed(done: string, o: Outcome)
    requires WaitsAfter(done, o)
    ensures o.Parsed? && o.ok && o.ctx.state != GotAll
  {
    hide Parse;
  }

  lemma WaitsEnd(ctx: Context, pending: string, chunks: seq<string>)
    requires |chunks| <= 1
    ensures WaitsBetween(ctx, pending, chunks)
  {
  }

  lemma WaitsMore(ctx: Context, pending: string, chunks: seq<string>)
    requires |chunks| > 1
    requires var first := Parse(ctx, pending + chunks[0], 0);
             first.Parsed? && first.ok && first.ctx.state != GotAll && WaitsBetween(first.ctx, first.rest, chunks[1..])
    ensures WaitsBetween(ctx, pending, chunks)
  {
    hide Parse;
  }

  /** The text may be cut after this prefix. */
  predicate GoodPrefix(m: Message, prefix: string)
    requires IsClean(m)
  {
    |prefix| < |PrintHead(m)| && !AfterCR(PrintHead(m), |prefix|)
  }

  lemma GoodCutsNext(m: Message, done: string, chunks: seq<string>)
    requires IsClean(m) && |chunks| > 1
    ensures GoodCuts(m, |done|, chunks)
        <==> GoodPrefix(m, done + chunks[0]) && GoodCuts(m, |done + chunks[0]|, chunks[1..])
  {
    hide PrintHead, IsClean, AfterCR;
    assert GoodCuts(m, |done|, chunks)
      <==> GoodCut(m, |done| + |chunks[0]|) && GoodCuts(m, |done| + |chunks[0]|, chunks[1..]);
  }

  lemma PrefixOfText(m: Message, done: string, chunks: seq<string>)
    requires m.verb != InvalidMethod && chunks != [] && Between(m, done, chunks)
    ensures |done + chunks[0]| <= |Text(m)| && done + chunks[0] == Text(m)[..|done + chunks[0]|]
    ensures Between(m, done + chunks[0], chunks[1..])
  {
    hide Text;
    var prefix, rest := done + chunks[0], Joined(chunks[1..]);
    assert done + (chunks[0] + rest) == prefix + rest;
    assert prefix == (prefix + rest)[..|prefix|];
  }

  /** What has been parsed as far as a cut that is not good either aborts or completes the
      request. */
  lemma BadCutOutcome(m: Message, k: nat)
    requires IsClean(m) && k <= |Text(m)|
    requires k >= |PrintHead(m)| || AfterCR(PrintHead(m), k)
    ensures var o := Parse(START, Text(m)[..k], 0);
            o.Aborted? || (o.Parsed? && o.ok && o.ctx.state == GotAll)
  {
    CleanMethod(m);
    hide Parse, PrintHead, IsClean, Meaning;
    if k < |PrintHead(m)| {
      assert Text(m)[..k] == PrintHead(m)[..k];
      HeadCut(m, k, 0);
    } else {
      CompletesEarly(m, k, 0);
    }
  }

  /** Nothing comes of chunks that start at a complete request. */
  lemma ChunksStick(ctx: Context, pending: string, chunks: seq<string>, times: seq<int>)
    requires |chunks| == |times| > 0 && ctx.state == GotAll
    ensures ParseChunks(ctx, pending, chunks, times) == Stuck
  {
  }

  lemma ChunksStep(ctx: Context, pending: string, chunks: seq<string>, times: seq<int>)
    requires |chunks| == |times| > 1
    ensures var first := Parse(ctx, pending + chunks[0], times[0]);
            ParseChunks(ctx, pending, chunks, times) ==
              if first.Parsed? && first.ok then ParseChunks(first.ctx, first.rest, chunks[1..], times[1..]) else first
  {
    hide Parse;
  }

  /** The parser meets the chunk in a context that differs in nothing but the time. */
  lemma NextParsed(done: string, o: Outcome, c: Context, chunk: string, time: int)
    requires WaitsAfter(done, o) && Untimed(c) == Untimed(o.ctx)
    ensures Parse(o.ctx, o.rest + chunk, 0) == Parse(START, done + chunk, 0)
    ensures UntimedOutcome(Parse(c, o.rest + chunk, time)) == UntimedOutcome(Parse(START, done + chunk, 0))
  {
    hide Parse;
    ParseResumes(START, done, chunk, 0);
    TimeIndependent(c, o.ctx, o.rest + chunk, time, 0);
  }

  /** A cut that is not good spoils everything. */
  lemma BadCutStep(m: Message, done: string, o: Outcome, c: Context, chunks: seq<string>, times: seq<int>)
    requires IsClean(m) && Between(m, done, chunks) && |chunks| == |times| > 1
    requires WaitsAfter(done, o) && Untimed(c) == Untimed(o.ctx)
    requires !GoodPrefix(m, done + chunks[0])
    ensures !ParseChunks(c, o.rest, chunks, times).Parsed?
  {
    CleanMethod(m);
    PrefixOfText(m, done, chunks);
    hide Parse, PrintHead, IsClean, AfterCR, Between, WaitsAfter, ParseChunks, Text;
    NextParsed(done, o, c, chunks[0], times[0]);
    BadCutOutcome(m, |done + chunks[0]|);
    ChunksStep(c, o.rest, chunks, times);
    var first := Parse(c, o.rest + chunks[0], times[0]);
    if first.Parsed? {
      ChunksStick(first.ctx, first.rest, chunks[1..], times[1..]);
    }
  }

  /** A good cut leaves everything to the rest. */
  lemma GoodCutStep(m: Message, done: string, o: Outcome, c: Context, chunks: seq<string>, times: seq<int>)
    requires IsClean(m) && Between(m, done, chunks) && |chunks| == |times| > 1
    requires WaitsAfter(done, o) && Untimed(c) == Untimed(o.ctx)
    requires GoodPrefix(m, done + chunks[0])
    ensures var next := Parse(START, done + chunks[0], 0);
            var first := Parse(c, o.rest + chunks[0], times[0]);
            && WaitsAfter(done + chunks[0], next) && Between(m, done + chunks[0], chunks[1..])
            && next.Parsed? && first.Parsed? && first.rest == next.rest && Untimed(first.ctx) == Untimed(next.ctx)
            && ParseChunks(c, o.rest, chunks, times) == ParseChunks(first.ctx, next.rest, chunks[1..], times[1..])
  {
    CleanMethod(m);
    hide Parse, PrintHead, IsClean, AfterCR, Between, WaitsAfter, ParseChunks;
    NextPrefix(m, done, chunks);
    NextParsed(done, o, c, chunks[0], times[0]);
    NextOutcome(m, done, o, chunks[0]);
    OutcomeParsed(done + chunks[0], Parse(START, done + chunks[0], 0));
    ChunksStep(c, o.rest, chunks, times);
  }

  /** The first cut that is not good decides. */
  lemma {:induction false} BadCutsFail(m: Message, done: string, o: Outcome, c: Context,
                                       chunks: seq<string>, times: seq<int>)
    requires IsClean(m) && Between(m, done, chunks) && |chunks| == |times|
    requires !GoodCuts(m, |done|, chunks) && WaitsAfter(done, o) && Untimed(c) == Untimed(o.ctx)
    ensures !ParseChunks(c, o.rest, chunks, times).Parsed?
    decreases |chunks|
  {
    GoodCutsMany(m, |done|, chunks);
    OutcomeParsed(done, o);
    CleanMethod(m);
    GoodCutsNext(m, done, chunks);
    hide *;
    if GoodPrefix(m, done + chunks[0]) {
      GoodCutStep(m, done, o, c, chunks, times);
      var next, first := Parse(START, done + chunks[0], 0), Parse(c, o.rest + chunks[0], times[0]);
      BadCutsFail(m, done + chunks[0], next, first.ctx, chunks[1..], times[1..]);
    } else {
      BadCutStep(m, done, o, c, chunks, times);
    }
  }

  lemma GoodCutsMany(m: Message, n: nat, chunks: seq<string>)
    requires IsClean(m) && !GoodCuts(m, n, chunks)
    ensures |chunks| > 1
  {
  }

  lemma NothingParsed(m: Message, chunks: seq<string>)
    requires m.verb != InvalidMethod && Joined(chunks) == Text(m)
    ensures Between(m, "", chunks) && WaitsAfter("", Parsed(START, "", true))
  {
    assert "" + Joined(chunks) == Joined(chunks);
  }

  /** Split-invariant parsing: however the text of a clean request is cut, and whenever the
      chunks arrive, parsing chunk by chunk, without a reset in between, completes the same
      request as parsing it whole exactly when every cut lies in the head and none falls
      directly after a carriage return. */
  lemma SplitInvariantIff(m: Message, chunks: seq<string>, times: seq<int>, time: int)
    requires IsClean(m) && |chunks| == |times| > 0 && Joined(chunks) == Text(m)
    ensures UntimedOutcome(ParseChunks(START, "", chunks, times))
         == UntimedOutcome(Parsed(Context(GotAll, Meaning(m, time)), "", true))
        <==> GoodCuts(m, 0, chunks)
  {
    CleanMethod(m);
    NothingParsed(m, chunks);
    hide Parse, ParseChunks, IsClean, GoodCuts, Between, WaitsAfter, PrintHead;
    var o := Parsed(START, "", true);
    if GoodCuts(m, 0, chunks) {
      assert "" + Joined(chunks) == Text(m);
      GoodCutsWait(m, "", o, chunks);
      ChunksResume(START, "", chunks, times, time);
      RoundTrip(m, time);
    } else {
      BadCutsFail(m, "", o, START, chunks, times);
    }
  }

  // ---- The code ----

  class HttpContext {
    var state: ParseState
    const request: HttpRequest

    function Value(): Context
      reads this, request
    {
      Context(state, request.Value())
    }

    constructor ()
      ensures Value() == START && fresh(request)
    {
      state := ExpectRequestLine;
      request := new HttpRequest();
    }

    /** The target of the request line. */
    method ProcessTarget(target: string)
      modifies request
      ensures request.Value() == WithTarget(old(request.Value()), target)
    {
      hide IndexOf, AddParams, Pieces;
      var question := IndexOf(target, '?');
      if question != |target| {
        request.path := target[..question];
        request.SetQuery(target[question..]);
      } else {
        request.path := target;
      }
    }

    /** The version at the end of the request line. */
    method ProcessVersion(version: string) returns (succeed: bool)
      modifies request
      ensures (request.Value(), succeed) == WithVersion(old(request.Value()), version)
    {
      succeed := |version| == 8 && version[..7] == HTTP_1;
      if succeed {
        if version[7] == '1' {
          request.version := Http11;
        } else if version[7] == '0' {
          request.version := Http10;
        } else {
          succeed := false;
        }
      }
    }

    method ProcessRequestLine(line: string) returns (succeed: bool)
      modifies request
      ensures (request.Value(), succeed) == WithRequestLine(old(request.Value()), line)
    {
      hide IndexOf, WithMethod, WithTarget, WithVersion;
      succeed := false;
      var space := IndexOf(line, ' ');
      if space != |line| {
        var known := request.SetMethod(line[..space]);
        if known {
          var rest := line[space + 1..];
          space := IndexOf(rest, ' ');
          if space != |rest| {
            ProcessTarget(rest[..space]);
            succeed := ProcessVersion(rest[space + 1..]);
          }
        }
      }
    }

    /** What a turn of the loop in `parseRequest` promises: it finishes with the outcome of
        parsing what it found, or leaves a state and a buffer with the same outcome. */
    ghost predicate Turned(buf: Buffer, goal: Outcome, time: int, aborted: bool, ok: bool, hasMore: bool)
      reads this, request, buf, buf.buffer
      requires buf.Valid()
    {
      if aborted then goal == Aborted
      else if hasMore then ok && state != GotAll && Parse(Value(), buf.Readable(), time) == goal
      else goal == Parsed(Value(), buf.Readable(), ok)
    }

    /** The line in front of the first carriage return. */
    method NextLine(buf: Buffer) returns (found: bool, line: string, crlf: nat)
      requires buf.Valid()
      ensures found <==> IndexOf(buf.Readable(), '\r') < |buf.Readable()|
      ensures found ==> |line| == crlf && CutsLine(buf.Readable(), line, RestOf(buf.Readable(), crlf))
      ensures !found ==> IndexOf(buf.Readable(), '\r') == |buf.Readable()|
    {
      hide IndexOf;
      found, crlf := buf.FindCRLF();
      line := [];
      if found {
        line := buf.Peek(crlf);
      }
    }

    method TurnRequestLine(buf: Buffer, receiveTime: int) returns (aborted: bool, ok: bool, hasMore: bool)
      requires buf.Valid() && state == ExpectRequestLine
      modifies this, request, buf
      ensures buf.Valid() && buf.buffer == old(buf.buffer)
      ensures Turned(buf, Parse(old(Value()), old(buf.Readable()), receiveTime), receiveTime, aborted, ok, hasMore)
      ensures hasMore && !aborted ==> Rank(state) < old(Rank(state))
    {
      hide WithRequestLine, IndexOf, Parse, Buffer.Readable, CutsLine;
      ghost var ctx, text := Value(), buf.Readable();
      aborted, ok, hasMore := false, true, true;
      var found, line, crlf := NextLine(buf);
      if found {
        ParseRequestLine(ctx, text, line, RestOf(text, crlf), receiveTime);
        ok := ProcessRequestLine(line);
        if ok {
          request.receiveTime := receiveTime;
          aborted := buf.RetrieveUntil(crlf + 2);
          if !aborted {
            state := ExpectHeaders;
          }
        } else {
          hasMore := false;
        }
      } else {
        ParseNoLine(ctx, text, receiveTime);
        hasMore := false;
      }
    }

    method TurnHeaders(buf: Buffer, receiveTime: int) returns (aborted: bool, ok: bool, hasMore: bool)
      requires buf.Valid() && state == ExpectHeaders
      modifies this, request, buf
      ensures buf.Valid() && buf.buffer == old(buf.buffer)
      ensures Turned(buf, Parse(old(Value()), old(buf.Readable()), receiveTime), receiveTime, aborted, ok, hasMore)
      ensures hasMore && !aborted ==>
                Rank(state) <= old(Rank(state)) && |buf.Readable()| < old(|buf.Readable()|)
    {
      hide WithHeader, IndexOf, Parse, Buffer.Readable, CutsLine;
      ghost var ctx, text := Value(), buf.Readable();
      aborted, ok, hasMore := false, true, true;
      var found, line, crlf := NextLine(buf);
      if found {
        ParseHeaderLine(ctx, text, line, RestOf(text, crlf), receiveTime);
        var colon := IndexOf(line, ':');
        if colon != |line| {
          request.AddHeader(line, colon);
        } else {
          state := ExpectBody;
        }
        aborted := buf.RetrieveUntil(crlf + 2);
      } else {
        ParseNoLine(ctx, text, receiveTime);
        hasMore := false;
      }
    }

    /** Everything in the buffer is the body. */
    method TurnBody(buf: Buffer, receiveTime: int)
      requires buf.Valid() && state == ExpectBody
      modifies this, request, buf
      ensures buf.Valid() && buf.buffer == old(buf.buffer)
      ensures Turned(buf, Parse(old(Value()), old(buf.Readable()), receiveTime), receiveTime, false, true, false)
    {
      var bytes := buf.Peek(buf.ReadableBytes());
      assert bytes == buf.Readable();
      request.body := bytes;
      buf.RetrieveAll();
      state := GotAll;
    }

    /** `parseRequest`. It must not be called once the request is complete: its loop would
        turn forever. */
    method ParseRequest(buf: Buffer, receiveTime: int) returns (aborted: bool, ok: bool)
      requires buf.Valid() && state != GotAll
      modifies this, request, buf
      ensures buf.Valid() && buf.buffer == old(buf.buffer)
      ensures var outcome := Parse(old(Value()), old(buf.Readable()), receiveTime);
              if aborted then outcome == Aborted else outcome == Parsed(Value(), buf.Readable(), ok)
    {
      hide Parse;
      ghost var goal := Parse(Value(), buf.Readable(), receiveTime);
      aborted, ok := false, true;
      var hasMore := true;
      while hasMore
        invariant buf.Valid() && buf.buffer == old(buf.buffer) && !aborted
        invariant Turned(buf, goal, receiveTime, aborted, ok, hasMore)
        decreases hasMore, Rank(state), |buf.Readable()|
      {
        if state == ExpectRequestLine {
          aborted, ok, hasMore := TurnRequestLine(buf, receiveTime);
          if aborted {
            return;
          }
        } else if state == ExpectHeaders {
          aborted, ok, hasMore := TurnHeaders(buf, receiveTime);
          if aborted {
            return;
          }
        } else if state == ExpectBody {
          TurnBody(buf, receiveTime);
          hasMore := false;
        }
      }
    }

    method Reset()
      modifies this, request
      ensures Value() == Context(ExpectRequestLine, AfterReset(old(request.Value())))
    {
      state := ExpectRequestLine;
      request.Reset();
    }
  }
}
