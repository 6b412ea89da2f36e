/**
 The two HTTP parsers of `src/http.c` as functions: a request and a response parser that share one
 header sub-machine, fed with chunks as they come out of TCP.
 */
module HttpSpec {
  import opened Util

  const CR: byte := 13
  const LF: byte := 10
  const SPACE: byte := 32
  const COLON: byte := 58
  const MAX_METHOD_LENGTH := 10

  /** The compile-time limits of `src/http.c`. */
  datatype Limits = Limits(url: nat, rows: nat, data: nat, status: nat)
  {
    predicate Valid() { 0 < url <= 255 && 0 < rows <= 255 && 0 < data <= 255 && 0 < status <= 255 }
  }

  /** Parser states, in the order of their numbers from HTTP_STATE_VERSION on. */
  datatype Phase =
    | NoRequest | StartRequest | Method | Url
    | Waiting | Code | StatusMessage
    | Version | LinuxEnd | MacEnd | WinEnd | WinEnd2 | HeaderRow | EndHeader | EndMessage
    | Handling

  /** HTTP_STATE_LINUX_END_HEADER to HTTP_STATE_HEADER. */
  predicate InRows(p: Phase) { p == LinuxEnd || p == MacEnd || p == WinEnd || p == WinEnd2 || p == HeaderRow }

  /** Below HTTP_STATE_END_HEADER. */
  predicate BeforeEnd(p: Phase) { p != EndHeader && p != EndMessage && p != Handling }

  predicate IsBreak(ch: byte) { ch == CR || ch == LF }

  function Bytes(s: string): seq<byte>
    requires forall k | 0 <= k < |s| :: s[k] as int < 256
  {
    seq(|s|, k requires 0 <= k < |s| => s[k] as int)
  }

  // ----- header rows -------------------------------------------------------------------------

  /** The header sub-machine: its state, the rows stored so far, and whether the last byte was taken. */
  datatype Rows = Rows(phase: Phase, headers: seq<byte>, ok: bool)

  /** `HttpHeadersPutChar`. */
  function PutChar(limit: nat, phase: Phase, headers: seq<byte>, ch: byte): Rows
  {
    if IsBreak(ch) && headers == [] then Rows(phase, headers, true)
    else if |headers| >= limit then Rows(phase, headers, false)
    else Rows(phase, headers + [ch], true)
  }

  /** `HttpParseHeader`. */
  function RowStep(limit: nat, phase: Phase, headers: seq<byte>, ch: byte): Rows
  {
    if phase == MacEnd && ch == LF then PutChar(limit, WinEnd, headers, ch)
    else if phase == MacEnd && ch == CR then Rows(EndHeader, headers, true)
    else if (phase == LinuxEnd || phase == WinEnd2) && ch == LF then Rows(EndHeader, headers, true)
    else if phase == WinEnd && ch == CR then Rows(WinEnd2, headers, true)
    else if InRows(phase) then
      PutChar(limit, if ch == CR then MacEnd else if ch == LF then LinuxEnd else HeaderRow, headers, ch)
    else Rows(phase, headers, false)
  }

  // ----- header values -----------------------------------------------------------------------

  predicate OccursAt(text: seq<byte>, name: seq<byte>, i: nat) { i + |name| <= |text| && text[i..i + |name|] == name }

  /** The text up to the first NUL, as the C string functions see it. */
  function CString(s: seq<byte>): seq<byte>
  {
    if s == [] || s[0] == 0 then [] else [s[0]] + CString(s[1..])
  }

  /** A stored text ends at its zero for the C string functions. */
  lemma {:induction false} StoredIsText(buffer: seq<byte>, text: seq<byte>)
    requires |text| < |buffer| && buffer[..|text|] == text && buffer[|text|] == 0
    requires forall k | 0 <= k < |text| :: text[k] != 0
    ensures CString(buffer) == text
  {
    if text != [] {
      assert buffer[0] == buffer[..|text|][0] == text[0];
      assert buffer[1..][..|text| - 1] == buffer[..|text|][1..];
      StoredIsText(buffer[1..], text[1..]);
    }
  }

  /** `strstr`: the first occurrence at or after `i`, or the length. */
  function FirstIndex(text: seq<byte>, name: seq<byte>, i: nat): (r: nat)
    requires i <= |text|
    ensures i <= r <= |text|
    ensures forall j | i <= j < r :: !OccursAt(text, name, j)
    ensures r < |text| ==> OccursAt(text, name, r)
    decreases |text| - i
  {
    if i == |text| || OccursAt(text, name, i) then i else FirstIndex(text, name, i + 1)
  }

  /** The part of a row before its break. */
  function UpToBreak(s: seq<byte>): (r: seq<byte>)
    ensures r <= s
  {
    if s == [] || IsBreak(s[0]) then [] else [s[0]] + UpToBreak(s[1..])
  }

  /** It is the longest part without a break. */
  lemma {:induction false} UpToBreakStops(s: seq<byte>)
    ensures var r := UpToBreak(s); (forall k | 0 <= k < |r| :: !IsBreak(r[k])) && (|r| == |s| || IsBreak(s[|r|]))
  {
    if s != [] && !IsBreak(s[0]) {
      UpToBreakStops(s[1..]);
    }
  }

  /** `HttpParseHeaderValue`: what follows the first occurrence of the name, a colon and maybe a space,
      up to the end of the row. */
  function HeaderValue(headers: seq<byte>, name: seq<byte>): Option<seq<byte>>
  {
    var text := CString(headers);
    var at := FirstIndex(text, name, 0);
    if at == |text| || at + |name| > |headers| then None
    else
      var rest := headers[at + |name|..];
      if rest == [] || rest[0] != COLON then None
      else Some(UpToBreak(if |rest| >= 2 && rest[1] == SPACE then rest[2..] else rest[1..]))
  }

  const HTTP_VERSION: seq<byte> := Bytes("HTTP/1.0")
  const CONTENT_LENGTH: seq<byte> := Bytes("Content-Length")

  /** `ParseLong` as a value. */
  function ParsedLong(s: seq<byte>): Option<u32>
  {
    if s != [] && AllDigits(s) then Some(Wrap32(Decimal(s))) else None
  }

  // ----- responses ---------------------------------------------------------------------------

  /** `incomingResponse` with its message. `text` is the used part of the status buffer: first the
      digits of the code, then the status message. */
  datatype Response = Response(phase: Phase, code: nat, text: seq<byte>, headers: seq<byte>, data: seq<byte>)

  datatype Parsed<S> = Parsed(state: S, ok: bool)

  /** The state `HttpSendRequest` starts from; the rest of the record is whatever is left over. */
  predicate Fresh(s: Response) { s.phase == Waiting }

  /** `HttpParseResponseHeader`. */
  function ResponseStep(lim: Limits, s: Response, ch: byte): Parsed<Response>
  {
    if s.phase == Waiting || s.phase == Version then
      if ch == SPACE then Parsed(s.(phase := Code, code := 0, text := []), true)
      else Parsed(s.(phase := Version, text := []), true)
    else if s.phase == Code then
      if |s.text| >= lim.status then Parsed(s, false)
      else if ch == SPACE then
        match ParsedLong(s.text)
        case None => Parsed(s, false)
        case Some(code) =>
          if code > 65535 then Parsed(s, false)
          else Parsed(s.(phase := StatusMessage, code := code, text := [], headers := []), true)
      else Parsed(s.(text := s.text + [ch], code := |s.text| + 1), true)
    else if s.phase == StatusMessage then
      if |s.text| >= lim.status then Parsed(s, false)
      else if IsBreak(ch) then Parsed(s.(phase := if ch == CR then MacEnd else LinuxEnd, headers := []), true)
      else Parsed(s.(text := s.text + [ch]), true)
    else if InRows(s.phase) then
      var r := RowStep(lim.rows, s.phase, s.headers, ch);
      Parsed(s.(phase := r.phase, headers := r.headers, data := if r.phase == EndHeader then [] else s.data), r.ok)
    else Parsed(s, false)
  }

  /** The header loop of `HttpParseResponse`: stop after the end of the header or at the first error. */
  datatype Scan<S> = Scan(state: S, ok: bool, rest: seq<byte>)

  function ScanResponse(lim: Limits, s: Response, data: seq<byte>): (r: Scan<Response>)
    ensures |r.rest| <= |data|
    decreases |data|
  {
    if data == [] then Scan(s, true, [])
    else
      var p := ResponseStep(lim, s, data[0]);
      if !p.ok then Scan(p.state, false, data[1..])
      else if p.state.phase == EndHeader then Scan(p.state, true, data[1..])
      else ScanResponse(lim, p.state, data[1..])
  }

  /** The body length of a response: 0 when there is none, or none that can be stored. */
  function ResponseLength(lim: Limits, headers: seq<byte>): nat
  {
    match HeaderValue(headers, CONTENT_LENGTH)
    case None => 0
    case Some(v) => match ParsedLong(v) case None => 0 case Some(n) => if n > lim.data then 0 else n
  }

  /** The body part of `HttpParseResponse`. */
  function ResponseBody(lim: Limits, s: Response, rest: seq<byte>): Response
  {
    var n := ResponseLength(lim, s.headers);
    if n == 0 then s.(phase := EndMessage)
    else s.(data := s.data + rest, phase := if |s.data| + |rest| == n then EndMessage else s.phase)
  }

  /** `HttpParseResponse` on one chunk. */
  function ParseResponse(lim: Limits, s: Response, data: seq<byte>): Parsed<Response>
  {
    if BeforeEnd(s.phase) then
      var r := ScanResponse(lim, s, data);
      if !r.ok || r.state.phase != EndHeader then Parsed(r.state, r.ok)
      else Parsed(ResponseBody(lim, r.state, r.rest), true)
    else if s.phase == EndHeader then Parsed(ResponseBody(lim, s, data), true)
    else Parsed(s, true)
  }

  /** The bytes after the header are no more than the header announces. */
  predicate ResponseFits(lim: Limits, s: Response, data: seq<byte>)
  {
    if BeforeEnd(s.phase) then
      var r := ScanResponse(lim, s, data);
      r.ok && r.state.phase == EndHeader ==> BodyFits(lim, r.state, r.rest)
    else s.phase == EndHeader ==> BodyFits(lim, s, data)
  }

  predicate BodyFits(lim: Limits, s: Response, rest: seq<byte>)
  {
    var n := ResponseLength(lim, s.headers);
    n == 0 || |s.data| + |rest| <= n
  }

  /** The bytes after the header fit into `incomingMessage.data`; nothing is stored of a message without a
      body, or with one that is too long. */
  predicate ResponseRoom(lim: Limits, s: Response, data: seq<byte>)
  {
    if BeforeEnd(s.phase) then
      var r := ScanResponse(lim, s, data);
      r.ok && r.state.phase == EndHeader ==> RoomFor(lim, r.state, r.rest)
    else s.phase == EndHeader ==> RoomFor(lim, s, data)
  }

  predicate RoomFor(lim: Limits, s: Response, rest: seq<byte>)
  {
    ResponseLength(lim, s.headers) == 0 || |s.data| + |rest| <= lim.data
  }

  /** A state between two chunks: a body that has begun is not complete. */
  predicate ResponseResting(lim: Limits, s: Response)
  {
    s.phase == EndHeader ==> |s.data| < ResponseLength(lim, s.headers)
  }

  /** All chunks in turn, until the first error. */
  function FeedResponse(lim: Limits, s: Response, chunks: seq<seq<byte>>): Parsed<Response>
    decreases |chunks|
  {
    if chunks == [] then Parsed(s, true)
    else
      var p := ParseResponse(lim, s, chunks[0]);
      if p.ok then FeedResponse(lim, p.state, chunks[1..]) else p
  }

  // ----- requests ----------------------------------------------------------------------------

  /** `incomingRequest` with its message. */
  datatype Request = Request(phase: Phase, verb: seq<byte>, url: seq<byte>, headers: seq<byte>, data: seq<byte>)

  /** One byte or chunk of a request: taken, or refused with a status. */
  datatype Taken = Taken(state: Request) | Refused(status: u16)

  /** `HttpParseRequestHeader`. */
  function RequestStep(lim: Limits, s0: Request, ch: byte): Taken
  {
    var s := if s0.phase == StartRequest then s0.(phase := Method, verb := [], url := []) else s0;
    if s.phase == Method then
      if ch == SPACE then Taken(s.(phase := Url, url := []))
      else if ch < 'A' as int || ch > 'Z' as int then Refused(400)
      else if |s.verb| >= MAX_METHOD_LENGTH then Refused(431)
      else Taken(s.(verb := s.verb + [ch]))
    else if s.phase == Url then
      if ch == SPACE then Taken(s.(phase := Version))
      else if |s.url| >= lim.url then Refused(414)
      else Taken(s.(url := s.url + [ch]))
    else if s.phase == Version then
      if IsBreak(ch) then Taken(s.(phase := if ch == CR then MacEnd else LinuxEnd, headers := [])) else Taken(s)
    else if InRows(s.phase) then
      var r := RowStep(lim.rows, s.phase, s.headers, ch);
      if !r.ok then Refused(431)
      else Taken(s.(phase := r.phase, headers := r.headers, data := if r.phase == EndHeader then [] else s.data))
    else Refused(400)
  }

  datatype RequestScan = RequestScan(taken: Taken, rest: seq<byte>)

  function ScanRequest(lim: Limits, s: Request, data: seq<byte>): (r: RequestScan)
    ensures |r.rest| <= |data|
    decreases |data|
  {
    if data == [] then RequestScan(Taken(s), [])
    else
      match RequestStep(lim, s, data[0])
      case Refused(status) => RequestScan(Refused(status), data[1..])
      case Taken(s') =>
        if s'.phase == EndHeader then RequestScan(Taken(s'), data[1..]) else ScanRequest(lim, s', data[1..])
  }

  predicate Bodyless(verb: seq<byte>) { verb == Bytes("HEAD") || verb == Bytes("GET") || verb == Bytes("OPTIONS") }

  /** The announced body length of a request with a body, or the status that refuses it. */
  datatype BodyLength = Length(n: nat) | Bad(status: u16)

  function RequestLength(lim: Limits, headers: seq<byte>): BodyLength
  {
    match HeaderValue(headers, CONTENT_LENGTH)
    case None => Bad(411)
    case Some(v) =>
      match ParsedLong(v)
      case None => Bad(400)
      case Some(n) => if n > lim.data then Bad(413) else Length(n)
  }

  /** A chunk of a request: more is awaited, it is refused, or the request is handed to the application. */
  datatype Outcome = Await(state: Request) | Refuse(status: u16) | Serve(request: Request)

  /** The body part of `HttpTcpOnIncomingData`. */
  function RequestBody(lim: Limits, s: Request, rest: seq<byte>): Outcome
  {
    if Bodyless(s.verb) then Serve(s.(phase := Handling))
    else
      match RequestLength(lim, s.headers)
      case Bad(status) => Refuse(status)
      case Length(n) =>
        var s' := s.(data := s.data + rest);
        if |s'.data| == n then Serve(s'.(phase := Handling)) else Await(s')
  }

  /** `HttpTcpOnIncomingData` on a chunk of the request connection. */
  function ParseRequest(lim: Limits, s: Request, data: seq<byte>): Outcome
  {
    if BeforeEnd(s.phase) then
      var r := ScanRequest(lim, s, data);
      match r.taken
      case Refused(status) => Refuse(status)
      case Taken(s') => if s'.phase == EndHeader then RequestBody(lim, s', r.rest) else Await(s')
    else if s.phase == EndHeader then RequestBody(lim, s, data)
    else if s.phase == EndMessage then Serve(s.(phase := Handling))
    else Refuse(400)
  }

  /** The bytes after the header fit into `incomingMessage.data`. */
  predicate RequestRoom(lim: Limits, s: Request, data: seq<byte>)
  {
    if BeforeEnd(s.phase) then
      var r := ScanRequest(lim, s, data);
      r.taken.Taken? && r.taken.state.phase == EndHeader ==> RequestRoomFor(lim, r.taken.state, r.rest)
    else s.phase == EndHeader ==> RequestRoomFor(lim, s, data)
  }

  predicate RequestRoomFor(lim: Limits, s: Request, rest: seq<byte>)
  {
    !Bodyless(s.verb) && RequestLength(lim, s.headers).Length? ==> |s.data| + |rest| <= lim.data
  }

  /** The bytes after the header are no more than the header announces; behind a request without a body
      they do not matter. */
  predicate RequestBodyFits(lim: Limits, s: Request, rest: seq<byte>)
  {
    !Bodyless(s.verb) && RequestLength(lim, s.headers).Length? ==>
      |s.data| + |rest| <= RequestLength(lim, s.headers).n
  }

  predicate RequestFits(lim: Limits, s: Request, data: seq<byte>)
  {
    if BeforeEnd(s.phase) then
      var r := ScanRequest(lim, s, data);
      r.taken.Taken? && r.taken.state.phase == EndHeader ==> RequestBodyFits(lim, r.taken.state, r.rest)
    else s.phase == EndHeader && RequestBodyFits(lim, s, data)
  }

  /** No bytes follow the header of a request that has no body. */
  predicate NothingBehind(lim: Limits, s: Request, data: seq<byte>)
  {
    BeforeEnd(s.phase) ==>
      var r := ScanRequest(lim, s, data);
      r.taken.Taken? && r.taken.state.phase == EndHeader && Bodyless(r.taken.state.verb) ==> r.rest == []
  }

  predicate RequestResting(lim: Limits, s: Request)
  {
    (BeforeEnd(s.phase) || s.phase == EndHeader) &&
    (s.phase == EndHeader ==>
       !Bodyless(s.verb) && RequestLength(lim, s.headers).Length? && |s.data| < RequestLength(lim, s.headers).n)
  }

  /** All chunks in turn until a request is refused or served; how many chunks that took. */
  datatype Fed = Fed(outcome: Outcome, used: nat)

  function FeedRequest(lim: Limits, s: Request, chunks: seq<seq<byte>>): Fed
    decreases |chunks|
  {
    if chunks == [] then Fed(Await(s), 0)
    else
      match ParseRequest(lim, s, chunks[0])
      case Await(s') => (var f := FeedRequest(lim, s', chunks[1..]); Fed(f.outcome, f.used + 1))
      case other => Fed(other, 1)
  }
}
