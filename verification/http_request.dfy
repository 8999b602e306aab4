/** The parsed request: its setters, the header trimming and the query parameters. */
module HttpRequests {
  import opened ByteBuffers

  datatype Method = InvalidMethod | Get | Post | Head | Put | Delete

  datatype Version = UnknownVersion | Http10 | Http11

  /** What a request holds. */
  datatype Request = Request(
    verb: Method,
    version: Version,
    path: string,
    query: string,
    receiveTime: int,
    headers: map<string, string>,
    params: map<string, string>,
    body: string
  )

  const FRESH := Request(InvalidMethod, UnknownVersion, "", "", 0, map[], map[], "")

  /** `kStringToHttpMethod`; what it does not list is invalid. */
  function MethodOf(name: string): Method {
    if name == "GET" then Get
    else if name == "POST" then Post
    else if name == "HEAD" then Head
    else if name == "PUT" then Put
    else if name == "DELETE" then Delete
    else InvalidMethod
  }

  function MethodName(m: Method): (name: string)
    requires m != InvalidMethod
  {
    match m
    case Get => "GET"
    case Post => "POST"
    case Head => "HEAD"
    case Put => "PUT"
    case Delete => "DELETE"
  }

  lemma MethodRoundTrip(m: Method)
    requires m != InvalidMethod
    ensures MethodOf(MethodName(m)) == m
    ensures ' ' !in MethodName(m) && '\r' !in MethodName(m)
  {
  }

  /** Exactly five names, letter by letter, are known. */
  lemma KnownMethods(name: string)
    ensures MethodOf(name) == Get <==> name == "GET"
    ensures MethodOf(name) == Post <==> name == "POST"
    ensures MethodOf(name) == Head <==> name == "HEAD"
    ensures MethodOf(name) == Put <==> name == "PUT"
    ensures MethodOf(name) == Delete <==> name == "DELETE"
    ensures MethodOf(name) != InvalidMethod <==> name in {"GET", "POST", "HEAD", "PUT", "DELETE"}
  {
  }

  /** `std::isspace` in the default locale. */
  predicate IsSpace(c: char) {
    c == ' ' || ('\t' <= c && c <= '\r')
  }

  predicate IsBlank(c: char) {
    c == ' ' || c == '\t'
  }

  function TrimLeft(s: string): string {
    if s != [] && IsSpace(s[0]) then TrimLeft(s[1..]) else s
  }

  /** `resize(find_last_not_of(" \t") + 1)`. */
  function TrimRight(s: string): string {
    if s != [] && IsBlank(s[|s| - 1]) then TrimRight(s[..|s| - 1]) else s
  }

  /** The value of a header, given everything after its colon. */
  function HeaderValue(raw: string): string {
    TrimRight(TrimLeft(raw))
  }

  /** A value that printing and parsing gives back. */
  predicate IsTrimmed(value: string) {
    value == "" || (!IsSpace(value[0]) && !IsBlank(value[|value| - 1]))
  }

  /** Any number of blanks before and after a trimmed value are cut off, and only they. */
  lemma {:induction false} HeaderValueTrims(before: string, value: string, after: string)
    requires (forall i :: 0 <= i < |before| ==> IsSpace(before[i])) && IsTrimmed(value)
    requires forall i :: 0 <= i < |after| ==> IsBlank(after[i])
    ensures HeaderValue(before + value + after) == value
  {
    if before != [] {
      var raw := before + value + after;
      HeaderValueTrims(before[1..], value, after);
      assert raw[0] == before[0] && raw[1..] == before[1..] + value + after;
    } else if value == "" && after != [] {
      HeaderValueTrims([], "", after[1..]);
      assert [] + "" + after == after && [] + "" + after[1..] == after[1..];
    } else if after != [] {
      var front := after[..|after| - 1];
      HeaderValueTrims([], value, front);
      var raw := [] + value + after;
      assert raw[..|raw| - 1] == [] + value + front;
    } else {
      assert [] + value + [] == value;
    }
  }

  // ---- Query parameters ----

  /** The pieces `std::getline` cuts at '&': no piece after a final '&'. */
  function Pieces(s: string): seq<string> {
    if s == [] then []
    else
      var i := IndexOf(s, '&');
      [s[..i]] + if i < |s| then Pieces(s[i + 1..]) else []
  }

  /** What one piece adds: nothing unless an equals sign with something behind it follows
      the key; the value ends at a line feed. */
  function AddParam(params: map<string, string>, piece: string): map<string, string> {
    var i := IndexOf(piece, '=');
    if i + 1 < |piece| then
      var rest := piece[i + 1..];
      params[piece[..i] := rest[..IndexOf(rest, '\n')]]
    else params
  }

  function AddParams(params: map<string, string>, pieces: seq<string>): map<string, string>
    decreases |pieces|
  {
    if pieces == [] then params else AddParams(AddParam(params, pieces[0]), pieces[1..])
  }

  lemma AddParamOver(p: map<string, string>, q: map<string, string>, piece: string)
    ensures AddParam(p + q, piece) == p + AddParam(q, piece)
  {
  }

  /** New parameters lie over the old ones. */
  lemma {:induction false} AddParamsOver(p: map<string, string>, q: map<string, string>, pieces: seq<string>)
    ensures AddParams(p + q, pieces) == p + AddParams(q, pieces)
    decreases |pieces|
  {
    if pieces != [] {
      AddParamOver(p, q, pieces[0]);
      hide AddParam;
      AddParamsOver(p, AddParam(q, pieces[0]), pieces[1..]);
    }
  }

  /** The old parameters make no difference exactly when new ones lie over all of them. */
  lemma OverriddenIff(p: map<string, string>, pieces: seq<string>)
    ensures AddParams(p, pieces) == p + AddParams(map[], pieces)
    ensures AddParams(p, pieces) == AddParams(map[], pieces) <==> p.Keys <= AddParams(map[], pieces).Keys
  {
    AddParamsOver(p, map[], pieces);
    assert p + map[] == p;
    hide AddParams;
    var new' := AddParams(map[], pieces);
    if p + new' == new' {
      forall key | key in p
        ensures key in new'
      {
        assert key in p + new';
      }
    }
  }

  /** A piece with an equals sign: what is before the first one is the key, what follows, up
      to a line feed, its value; with nothing behind the sign the piece is dropped. */
  lemma PieceStored(params: map<string, string>, key: string, value: string, tail: string)
    requires '=' !in key && '\n' !in value && (tail == "" || tail[0] == '\n')
    ensures AddParam(params, key + "=" + value + tail)
         == if value == "" && tail == "" then params else params[key := value]
  {
    Associate(key + "=", value, tail);
    AddParamParts(params, key, value + tail);
    UpToLineFeed(value, tail);
    hide AddParam;
  }

  lemma AddParamParts(params: map<string, string>, key: string, rest: string)
    requires '=' !in key
    ensures AddParam(params, key + "=" + rest)
         == if rest == "" then params else params[key := rest[..IndexOf(rest, '\n')]]
  {
    var piece := key + "=" + rest;
    IndexOfUnique(piece, '=', |key|);
    hide IndexOf;
    assert piece[..|key|] == key && piece[|key| + 1..] == rest;
  }

  lemma UpToLineFeed(value: string, tail: string)
    requires '\n' !in value && (tail == "" || tail[0] == '\n')
    ensures (value + tail)[..IndexOf(value + tail, '\n')] == value
  {
    IndexOfUnique(value + tail, '\n', |value|);
  }

  /** A piece without one is dropped. */
  lemma PieceDropped(params: map<string, string>, piece: string)
    requires '=' !in piece
    ensures AddParam(params, piece) == params
  {
    IndexOfUnique(piece, '=', |piece|);
  }

  function JoinPieces(pieces: seq<string>): string {
    if pieces == [] then ""
    else pieces[0] + if |pieces| == 1 then "" else "&" + JoinPieces(pieces[1..])
  }

  lemma JoinOne(piece: string)
    ensures JoinPieces([piece]) == piece
  {
    assert piece + "" == piece;
  }

  lemma JoinMore(piece: string, pieces: seq<string>)
    requires pieces != []
    ensures JoinPieces([piece] + pieces) == piece + ("&" + JoinPieces(pieces))
  {
    assert ([piece] + pieces)[1..] == pieces;
  }

  function LastAmpersand(s: string): string {
    if s != "" && s[|s| - 1] == '&' then "&" else ""
  }

  /** The text is these pieces with ampersands between them, and perhaps one behind. */
  predicate CutAt(s: string, pieces: seq<string>) {
    && (s == "" <==> pieces == [])
    && (forall i :: 0 <= i < |pieces| ==> '&' !in pieces[i])
    && s == JoinPieces(pieces) + LastAmpersand(s)
  }

  lemma CutMore(piece: string, rest: string, pieces: seq<string>)
    requires '&' !in piece && CutAt(rest, pieces)
    ensures CutAt(piece + ("&" + rest), [piece] + pieces)
  {
    var s := piece + ("&" + rest);
    if pieces == [] {
      JoinOne(piece);
      assert [piece] + [] == [piece] && s[|s| - 1] == '&';
    } else {
      JoinMore(piece, pieces);
      assert s[|s| - 1] == rest[|rest| - 1];
      var joined, end := JoinPieces(pieces), LastAmpersand(rest);
      hide JoinPieces;
      assert piece + ("&" + (joined + end)) == piece + ("&" + joined) + end;
    }
  }

  lemma CutNone(s: string)
    requires '&' !in s
    ensures CutAt(s, Pieces(s))
  {
    if s != "" {
      PieceAlone(s);
      JoinOne(s);
      hide Pieces, JoinPieces;
      assert s[|s| - 1] in s;
      assert s + "" == s;
    }
  }

  lemma SplitFirst(s: string) returns (piece: string, rest: string)
    requires '&' in s
    ensures s == piece + ("&" + rest) && '&' !in piece
  {
    var i := IndexOf(s, '&');
    piece, rest := s[..i], s[i + 1..];
  }

  /** The pieces are what lies between the ampersands, all of it but an empty last one. */
  lemma {:induction false} PiecesJoin(s: string)
    ensures CutAt(s, Pieces(s))
    decreases |s|
  {
    if '&' in s {
      hide Pieces, CutAt;
      var piece, rest := SplitFirst(s);
      PiecesJoin(rest);
      PiecesOf(piece, rest);
      CutMore(piece, rest, Pieces(rest));
    } else {
      CutNone(s);
    }
  }

  /** A key and a value as a form would send them. */
  datatype Param = Param(key: string, value: string)

  predicate IsCleanParam(p: Param) {
    && '&' !in p.key && '=' !in p.key
    && p.value != "" && '&' !in p.value && '\n' !in p.value
  }

  function PrintParam(p: Param): string {
    p.key + "=" + p.value
  }

  function PrintParams(params: seq<Param>): string {
    if params == [] then ""
    else PrintParam(params[0]) + if |params| == 1 then "" else "&" + PrintParams(params[1..])
  }

  function Stored(params: map<string, string>, list: seq<Param>): map<string, string>
    decreases |list|
  {
    if list == [] then params else Stored(params[list[0].key := list[0].value], list[1..])
  }

  lemma AddCleanParam(params: map<string, string>, p: Param)
    requires IsCleanParam(p)
    ensures AddParam(params, PrintParam(p)) == params[p.key := p.value]
    ensures PrintParam(p) != "" && '&' !in PrintParam(p)
  {
    var piece := PrintParam(p);
    IndexOfUnique(piece, '=', |p.key|);
    assert piece[|p.key| + 1..] == p.value && piece[..|p.key|] == p.key;
    IndexOfUnique(p.value, '\n', |p.value|);
    assert p.value[..|p.value|] == p.value;
  }

  lemma {:induction false} ParamsRoundTrip(params: map<string, string>, list: seq<Param>)
    requires forall i :: 0 <= i < |list| ==> IsCleanParam(list[i])
    ensures AddParams(params, Pieces(PrintParams(list))) == Stored(params, list)
    decreases |list|
  {
    if list != [] {
      var piece, rest := PrintParam(list[0]), PrintParams(list[1..]);
      var params' := params[list[0].key := list[0].value];
      AddCleanParam(params, list[0]);
      PieceAlone(piece);
      PiecesOf(piece, rest);
      ParamsRoundTrip(params', list[1..]);
      var pieces := if |list| == 1 then [piece] else [piece] + Pieces(rest);
      assert Pieces(PrintParams(list)) == pieces by {
        assert piece + "" == piece;
      }
      assert pieces[0] == piece && pieces[1..] == Pieces(rest) by {
        assert |list| == 1 ==> list[1..] == [];
      }
      assert AddParams(params, pieces) == AddParams(params', Pieces(rest));
    }
  }

  lemma PieceAlone(piece: string)
    requires piece != "" && '&' !in piece
    ensures Pieces(piece) == [piece]
  {
    IndexOfUnique(piece, '&', |piece|);
    hide IndexOf;
    assert piece[..|piece|] == piece;
  }

  lemma PiecesOf(piece: string, rest: string)
    requires '&' !in piece
    ensures Pieces(piece + ("&" + rest)) == [piece] + Pieces(rest)
  {
    var text := piece + ("&" + rest);
    IndexOfUnique(text, '&', |piece|);
    hide IndexOf;
    assert text[..|piece|] == piece && text[|piece| + 1..] == rest;
  }

  /** A non-empty list of parameters without the first key. */
  function AfterKey(list: seq<Param>): string
    requires list != []
  {
    "=" + list[0].value + if |list| == 1 then "" else "&" + PrintParams(list[1..])
  }

  lemma Associate(a: string, b: string, c: string)
    ensures a + b + c == a + (b + c)
  {
  }

  lemma PrintFirst(list: seq<Param>)
    requires list != []
    ensures PrintParams(list) == list[0].key + AfterKey(list)
  {
    var key, value, tail := list[0].key, list[0].value, if |list| == 1 then "" else "&" + PrintParams(list[1..]);
    Associate(key, "=", value);
    Associate(key, "=" + value, tail);
    hide PrintParams;
  }

  lemma PrintMarked(list: seq<Param>, marked: seq<Param>)
    requires list != [] && marked == [Param("?" + list[0].key, list[0].value)] + list[1..]
    ensures PrintParams(marked) == "?" + PrintParams(list)
  {
    PrintFirst(list);
    PrintFirst(marked);
    assert marked[1..] == list[1..];
    assert AfterKey(marked) == AfterKey(list);
    var key, rest := list[0].key, AfterKey(list);
    hide *;
    assert "?" + key + rest == "?" + (key + rest);
  }

  /** The query is stored with its question mark, so the key of the first parameter is. */
  lemma FirstParamKeepsQuestionMark(list: seq<Param>)
    requires list != [] && forall i :: 0 <= i < |list| ==> IsCleanParam(list[i])
    ensures var first := Param("?" + list[0].key, list[0].value);
            AddParams(map[], Pieces("?" + PrintParams(list))) == Stored(map[], [first] + list[1..])
  {
    hide PrintParams, Pieces, AddParams, Stored, IsCleanParam;
    var first := Param("?" + list[0].key, list[0].value);
    var marked := [first] + list[1..];
    MarkedIsClean(list[0]);
    PrintMarked(list, marked);
    assert forall i :: 0 < i < |marked| ==> marked[i] == list[i];
    ParamsRoundTrip(map[], marked);
  }

  /** A key is stored exactly when it was there before or some parameter has it. */
  lemma {:induction false} StoredKeys(params: map<string, string>, list: seq<Param>, key: string)
    ensures key in Stored(params, list) <==> key in params || exists i :: 0 <= i < |list| && list[i].key == key
    decreases |list|
  {
    if list != [] {
      var rest := list[1..];
      StoredKeys(params[list[0].key := list[0].value], rest, key);
      assert forall i :: 0 <= i < |rest| ==> rest[i] == list[i + 1];
      if exists i :: 0 <= i < |list| && list[i].key == key {
        var i :| 0 <= i < |list| && list[i].key == key;
        assert i > 0 ==> rest[i - 1].key == key;
      }
    }
  }

  /** A lookup of the first parameter under its own name finds something exactly when a
      later parameter repeats the name. */
  lemma FirstParamFoundIff(list: seq<Param>)
    requires list != [] && forall i :: 0 <= i < |list| ==> IsCleanParam(list[i])
    ensures list[0].key in AddParams(map[], Pieces("?" + PrintParams(list)))
        <==> exists i :: 0 < i < |list| && list[i].key == list[0].key
  {
    hide PrintParams, Pieces, AddParams, Stored, IsCleanParam;
    var marked := [Param("?" + list[0].key, list[0].value)] + list[1..];
    FirstParamKeepsQuestionMark(list);
    StoredKeys(map[], marked, list[0].key);
    assert |marked[0].key| != |list[0].key|;
    assert forall i :: 0 < i < |marked| ==> marked[i] == list[i];
  }

  lemma MarkedIsClean(p: Param)
    requires IsCleanParam(p)
    ensures IsCleanParam(Param("?" + p.key, p.value))
  {
  }

  // ---- The setters, on values ----

  /** `setMethod` of a name: refused when a method is already set. */
  function WithMethod(r: Request, name: string): (Request, bool) {
    if r.verb != InvalidMethod then (r, false)
    else (r.(verb := MethodOf(name)), MethodOf(name) != InvalidMethod)
  }

  function WithQuery(r: Request, query: string): Request {
    r.(query := query, params := AddParams(r.params, Pieces(query)))
  }

  function WithHeader(r: Request, field: string, raw: string): Request {
    r.(headers := r.headers[field := HeaderValue(raw)])
  }

  /** `swap` with a new request, as `reset` does: the parameters and the body stay. */
  function AfterReset(r: Request): Request {
    FRESH.(params := r.params, body := r.body)
  }

  class HttpRequest {
    var verb: Method
    var version: Version
    var path: string
    var query: string
    var receiveTime: int
    var headers: map<string, string>
    var params: map<string, string>
    var body: string

    function Value(): Request
      reads this
    {
      Request(verb, version, path, query, receiveTime, headers, params, body)
    }

    constructor ()
      ensures Value() == FRESH
    {
      verb, version, path, query, receiveTime := InvalidMethod, UnknownVersion, "", "", 0;
      headers, params, body := map[], map[], "";
    }

    method SetMethod(name: string) returns (ok: bool)
      modifies this
      ensures (Value(), ok) == WithMethod(old(Value()), name)
      ensures ok <==> old(verb) == InvalidMethod && name in {"GET", "POST", "HEAD", "PUT", "DELETE"}
      ensures old(verb) != InvalidMethod ==> Value() == old(Value())
    {
      if verb != InvalidMethod {
        return false;
      }
      verb := MethodOf(name);
      ok := verb != InvalidMethod;
    }

    /** Stores one piece of the query, if it has a key and a value. */
    method StoreParam(piece: string)
      modifies this`params
      ensures params == AddParam(old(params), piece)
    {
      var i := IndexOf(piece, '=');
      if i + 1 < |piece| {
        var rest := piece[i + 1..];
        params := params[piece[..i] := rest[..IndexOf(rest, '\n')]];
      }
    }

    /** Splits the query at '&' and stores each key that has a value. */
    method SetQuery(text: string)
      modifies this
      ensures Value() == WithQuery(old(Value()), text)
    {
      query := text;
      var rest := text;
      ghost var goal := AddParams(params, Pieces(text));
      while rest != []
        invariant AddParams(params, Pieces(rest)) == goal
        invariant query == text && unchanged(this`verb, this`version, this`path)
        invariant unchanged(this`receiveTime, this`headers, this`body)
        decreases |rest|
      {
        var i := IndexOf(rest, '&');
        assert Pieces(rest)[1..] == if i < |rest| then Pieces(rest[i + 1..]) else [];
        StoreParam(rest[..i]);
        rest := if i < |rest| then rest[i + 1..] else [];
      }
    }

    /** `addHeader` of a line split at its colon: the blanks around the value go. */
    method AddHeader(line: string, colon: nat)
      requires colon < |line|
      modifies this
      ensures Value() == WithHeader(old(Value()), line[..colon], line[colon + 1..])
    {
      var start := colon + 1;
      while start < |line| && IsSpace(line[start])
        invariant colon + 1 <= start <= |line|
        invariant TrimLeft(line[start..]) == TrimLeft(line[colon + 1..])
      {
        assert line[start..][1..] == line[start + 1..];
        start := start + 1;
      }
      var value := line[start..];
      var length := |value|;
      assert value[..length] == value;
      while 0 < length && IsBlank(value[length - 1])
        invariant 0 <= length <= |value|
        invariant TrimRight(value[..length]) == TrimRight(value)
      {
        assert value[..length][..length - 1] == value[..length - 1];
        length := length - 1;
      }
      headers := headers[line[..colon] := value[..length]];
    }

    /** What `HttpContext::reset` does to the request. */
    method Reset()
      modifies this
      ensures Value() == AfterReset(old(Value()))
      ensures verb == InvalidMethod && version == UnknownVersion && path == "" && query == "" && headers == map[]
      ensures params == old(params) && body == old(body)
    {
      verb, version, path, query, receiveTime, headers := InvalidMethod, UnknownVersion, "", "", 0, map[];
    }
  }
}
