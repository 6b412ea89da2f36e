/**
 The parsers of `src/http.c` as they work: one byte at a time into fixed buffers. Every write is in
 bounds for every byte stream, the terminating zeros included, and each method does what the
 functions of `HttpSpec` say.
 */
module HttpEngine {
  import opened Util
  import opened HttpSpec
  import opened HttpChunks

  /** Two states of a buffer that agree from position `n` on. */
  predicate SameFrom(a: seq<byte>, b: seq<byte>, n: nat) { n <= |a| == |b| && a[n..] == b[n..] }

  lemma SameFromTransitive(a: seq<byte>, b: seq<byte>, c: seq<byte>, n: nat, m: nat)
    requires SameFrom(a, b, m) && SameFrom(b, c, n) && n <= m
    ensures SameFrom(a, c, m)
  {
    assert b[m..] == b[n..][m - n..] && c[m..] == c[n..][m - n..];
  }

  /** `HttpMessage`: the header rows and the body, shared by requests and responses. */
  class HttpMessage {
    const lim: Limits
    const headers: array<byte>
    var headersLength: nat
    const data: array<byte>
    var dataLength: nat

    predicate Valid()
      reads this
    {
      lim.Valid() && headers.Length == lim.rows + 1 && data.Length == lim.data && headers != data
      && dataLength <= lim.data
    }

    predicate RowsFit()
      reads this
    {
      Valid() && headersLength <= lim.rows
    }

    function Rows(): seq<byte>
      requires RowsFit()
      reads this, headers
    {
      headers[..headersLength]
    }

    function Body(): seq<byte>
      requires Valid()
      reads this, data
    {
      data[..dataLength]
    }

    constructor (lim: Limits)
      requires lim.Valid()
      ensures RowsFit() && this.lim == lim && headersLength == 0 && dataLength == 0 && fresh(headers) && fresh(data)
    {
      this.lim := lim;
      headers := new byte[lim.rows + 1](i => 0);
      data := new byte[lim.data](i => 0);
      headersLength, dataLength := 0, 0;
    }

    /** `HttpHeadersPutChar`. */
    method PutChar(ch: byte) returns (ok: bool)
      requires RowsFit()
      modifies this`headersLength, headers
      ensures RowsFit()
      ensures var r := HttpSpec.PutChar(lim.rows, HeaderRow, old(Rows()), ch); ok == r.ok && Rows() == r.headers
    {
      if IsBreak(ch) && headersLength == 0 {
        return true;
      }
      if headersLength >= lim.rows {
        return false;
      }
      headers[headersLength] := ch;
      headersLength := headersLength + 1;
      ok := true;
    }

    /** `HttpMessagePutData`: the part of a chunk from `position` on goes behind the body so far. */
    method PutData(chunk: seq<byte>, position: nat)
      requires Valid() && position <= |chunk| && dataLength + (|chunk| - position) <= lim.data
      modifies this`dataLength, data
      ensures Valid() && Body() == old(Body()) + chunk[position..]
    {
      if |chunk| == 0 {
        return;
      }
      Put(data, dataLength, chunk[position..]);
      dataLength := dataLength + (|chunk| - position);
    }

    /** `HttpParseHeader`, with the state of the parser it serves. */
    method ParseHeader(ch: byte, phase: Phase) returns (ok: bool, phase': Phase)
      requires RowsFit()
      modifies this, headers
      ensures RowsFit()
      ensures HttpSpec.Rows(phase', Rows(), ok) == RowStep(lim.rows, phase, old(Rows()), ch)
      ensures phase' == EndHeader && phase != EndHeader ==> dataLength == 0 && headers[headersLength] == 0
      ensures phase' != EndHeader ==> dataLength == old(dataLength)
    {
      phase' := phase;
      if phase' == MacEnd {
        if ch == LF {
          phase' := WinEnd;
          ok := PutChar(ch);
          return;
        }
        if ch == CR {
          phase' := EndHeader;
          dataLength := 0;
          headers[headersLength] := 0;
          return true, phase';
        }
        phase' := HeaderRow;
      }
      if phase' == LinuxEnd || phase' == WinEnd2 {
        if ch == LF {
          phase' := EndHeader;
          dataLength := 0;
          headers[headersLength] := 0;
          return true, phase';
        }
        phase' := HeaderRow;
      }
      if phase' == WinEnd {
        if ch == CR {
          phase' := WinEnd2;
          return true, phase';
        }
        phase' := HeaderRow;
      }
      if phase' == HeaderRow {
        if ch == CR {
          phase' := MacEnd;
        }
        if ch == LF {
          phase' := LinuxEnd;
        }
        ok := PutChar(ch);
        return;
      }
      ok := false;
    }

    /** `HttpParseHeaderValue`; `strstr` is the function `FirstIndex`. */
    method ParseHeaderValue(name: seq<byte>) returns (value: Option<seq<byte>>)
      requires RowsFit()
      ensures value == HeaderValue(Rows(), name)
      ensures value.Some? ==> |value.value| <= lim.rows
    {
      hide CString, FirstIndex, UpToBreak, IsBreak;
      var rows := headers[..headersLength];
      var text := CString(rows);
      var at := FirstIndex(text, name, 0);
      if at == |text| || at + |name| > |rows| {
        return None;
      }
      var rest := rows[at + |name|..];
      if |rest| == 0 {
        return None;
      }
      if rest[0] != COLON {
        return None;
      }
      if |rest| >= 2 && rest[1] == SPACE {
        rest := rest[2..];
      } else {
        rest := rest[1..];
      }
      var length := CutAtBreak(rest);
      assert rest[..length] == UpToBreak(rest);
      value := Some(rest[..length]);
    }

    /** The last loop of `HttpParseHeaderValue`. */
    static method CutAtBreak(rest: seq<byte>) returns (length: nat)
      ensures length <= |rest| && rest[..length] == UpToBreak(rest)
    {
      UpToBreakStops(rest);
      length := 0;
      while length < |rest| && !IsBreak(rest[length])
        invariant length <= |rest| && forall k | 0 <= k < length :: !IsBreak(rest[k])
      {
        length := length + 1;
      }
      assert length == |UpToBreak(rest)|;
    }
  }

  /** The response parser has not written into the status buffer yet. */
  predicate Untouched(s: Response) { s.phase == Waiting || s.phase == Version || (s.phase == Code && s.text == []) }

  /** Once it has, it has. */
  lemma TouchedStays(lim: Limits, s: Response, ch: byte)
    requires !Untouched(s) && BeforeEnd(s.phase)
    ensures !Untouched(ResponseStep(lim, s, ch).state)
  {
  }

  /** `incomingResponse`, its state and the status buffer. */
  class HttpResponse {
    const lim: Limits
    const message: HttpMessage
    const statusText: array<byte>
    var phase: Phase
    var code: nat
    /** `status.message`, once it is complete */
    var status: seq<byte>

    predicate Valid()
      reads this, message
    {
      message.Valid() && message.lim == lim && statusText.Length == lim.status + 1
      && statusText != message.headers && statusText != message.data
      && (phase == Code ==> code <= lim.status)
      && (if phase == StatusMessage then message.headersLength <= lim.status else message.headersLength <= lim.rows)
      && (phase != Waiting && phase != Version && phase != Code && phase != StatusMessage ==> |status| <= lim.status)
    }

    function Text(): seq<byte>
      requires Valid()
      reads this, message, statusText
    {
      if phase == Waiting || phase == Version then []
      else if phase == Code then statusText[..code]
      else if phase == StatusMessage then statusText[..message.headersLength]
      else status
    }

    function V(): Response
      requires Valid()
      reads this, message, message.headers, message.data, statusText
    {
      Response(phase, code, Text(),
               if phase == StatusMessage then [] else message.headers[..message.headersLength], message.Body())
    }

    /** The status message is stored with its terminating zero. */
    ghost predicate StatusStored()
      requires Valid()
      reads this, message, statusText
    {
      InRows(phase) || phase == EndHeader || phase == EndMessage ==>
        statusText[..|status|] == status && statusText[|status|] == 0
    }

    constructor (message: HttpMessage)
      requires message.RowsFit()
      ensures Valid() && StatusStored() && phase == Waiting && this.message == message && fresh(statusText)
    {
      this.lim, this.message := message.lim, message;
      statusText := new byte[message.lim.status + 1](i => 0);
      phase, code, status := Waiting, 0, [];
    }

    /** `HttpParseResponseHeader`. */
    method ParseResponseHeader(ch: byte) returns (ok: bool)
      requires Valid() && StatusStored() && BeforeEnd(phase)
      modifies this, message, message.headers, statusText
      ensures Valid() && StatusStored() && (Untouched(V()) ==> statusText[..] == old(statusText[..]))
      ensures Parsed(V(), ok) == ResponseStep(lim, old(V()), ch)
    {
      hide RowStep, ParsedLong;
      if phase == Waiting {
        phase := Version;
      }
      if phase == Version {
        if ch == SPACE {
          phase, code := Code, 0;
        }
        return true;
      }
      if phase == Code {
        ok := ParseCode(ch);
        return;
      }
      if phase == StatusMessage {
        ok := ParseStatusMessage(ch);
        return;
      }
      if InRows(phase) {
        ok := ParseRow(ch);
        return;
      }
      ok := false;
    }

    /** The header row branch of `HttpParseResponseHeader`. */
    method ParseRow(ch: byte) returns (ok: bool)
      requires Valid() && StatusStored() && InRows(phase)
      modifies this, message, message.headers
      ensures Valid() && StatusStored()
      ensures Parsed(V(), ok) == ResponseStep(lim, old(V()), ch)
    {
      var phase';
      ok, phase' := message.ParseHeader(ch, phase);
      phase := phase';
    }

    /** The status code branch of `HttpParseResponseHeader`. */
    method ParseCode(ch: byte) returns (ok: bool)
      requires Valid() && phase == Code
      modifies this, message, statusText
      ensures Valid() && (phase == Code || phase == StatusMessage)
      ensures phase == Code && code == 0 ==> statusText[..] == old(statusText[..])
      ensures Parsed(V(), ok) == ResponseStep(lim, old(V()), ch)
    {
      if code >= lim.status {
        return false;
      }
      if ch == SPACE {
        var parsed, number := ParseLong(statusText[..code]);
        if !parsed {
          return false;
        }
        if number > 65535 {
          return false;
        }
        code, phase := number, StatusMessage;
        message.headersLength := 0;
        return true;
      }
      statusText[code] := ch;
      code := code + 1;
      assert statusText[..code] == old(statusText[..code]) + [ch];
      ok := true;
    }

    /** The status message branch of `HttpParseResponseHeader`. */
    method ParseStatusMessage(ch: byte) returns (ok: bool)
      requires Valid() && phase == StatusMessage
      modifies this, message, statusText
      ensures Valid() && StatusStored()
      ensures Parsed(V(), ok) == ResponseStep(lim, old(V()), ch)
    {
      if message.headersLength >= lim.status {
        return false;
      }
      if IsBreak(ch) {
        statusText[message.headersLength] := 0;
        status := statusText[..message.headersLength];
        if ch == CR {
          phase := MacEnd;
        }
        if ch == LF {
          phase := LinuxEnd;
        }
        message.headersLength := 0;
        return true;
      }
      statusText[message.headersLength] := ch;
      message.headersLength := message.headersLength + 1;
      assert statusText[..message.headersLength] == old(statusText[..message.headersLength]) + [ch];
      ok := true;
    }

    /** The header loop of `HttpParseResponse`; it stops behind the end of the header or at an error. */
    method ScanHeader(chunk: seq<byte>) returns (ok: bool, dataPosition: nat)
      requires Valid() && StatusStored() && BeforeEnd(phase)
      modifies this, message, message.headers, statusText
      ensures Valid() && StatusStored() && dataPosition <= |chunk|
      ensures Untouched(V()) ==> statusText[..] == old(statusText[..])
      ensures var r := ScanResponse(lim, old(V()), chunk);
              V() == r.state && ok == r.ok && (ok ==> chunk[dataPosition..] == r.rest)
      ensures ok && phase != EndHeader ==> BeforeEnd(phase) && dataPosition == |chunk|
      ensures phase != Handling
    {
      hide ResponseStep;
      ghost var s := V();
      dataPosition := 0;
      while dataPosition < |chunk|
        invariant 0 <= dataPosition <= |chunk| && Valid() && StatusStored() && BeforeEnd(phase)
        invariant Untouched(V()) ==> statusText[..] == old(statusText[..])
        invariant ScanResponse(lim, s, chunk) == ScanResponse(lim, V(), chunk[dataPosition..])
      {
        ghost var rest := chunk[dataPosition..];
        assert rest[0] == chunk[dataPosition] && rest[1..] == chunk[dataPosition + 1..];
        ResponseStepPhase(lim, V(), chunk[dataPosition]);
        if !Untouched(V()) { TouchedStays(lim, V(), chunk[dataPosition]); }
        var taken := ParseResponseHeader(chunk[dataPosition]);
        if !taken {
          return false, dataPosition;
        }
        if phase == EndHeader {
          dataPosition := dataPosition + 1;
          return true, dataPosition;
        }
        dataPosition := dataPosition + 1;
      }
      assert chunk[dataPosition..] == [];
      ok := true;
    }

    /** `HttpParseResponse`. */
    method ParseResponse(chunk: seq<byte>) returns (ok: bool)
      requires Valid() && StatusStored() && ResponseRoom(lim, V(), chunk) && phase != Handling
      modifies this, message, message.headers, message.data, statusText
      ensures Valid() && StatusStored() && (Untouched(V()) ==> statusText[..] == old(statusText[..]))
      ensures Parsed(V(), ok) == HttpSpec.ParseResponse(lim, old(V()), chunk) && phase != Handling
    {
      hide ResponseStep, ScanResponse, ResponseBody, RoomFor;
      var dataPosition := 0;
      if BeforeEnd(phase) {
        ok, dataPosition := ScanHeader(chunk);
        if !ok {
          return false;
        }
        if phase != EndHeader {
          return true;
        }
      }
      assert dataPosition == 0 ==> chunk[dataPosition..] == chunk;
      if phase == EndHeader {
        ParseResponseBody(chunk, dataPosition);
      }
      ok := true;
    }

    /** The announced length of the body, or 0. */
    method ContentLength() returns (n: nat)
      requires Valid() && phase == EndHeader
      ensures n == ResponseLength(lim, V().headers) <= lim.data
    {
      hide HeaderValue;
      n := 0;
      var length := message.ParseHeaderValue(CONTENT_LENGTH);
      if length.Some? {
        var parsed, number := ParseLong(length.value);
        n := number;
        if !parsed {
          n := 0;
        }
        if n > lim.data {
          n := 0;
        }
      }
    }

    /** The body part of `HttpParseResponse`. */
    method ParseResponseBody(chunk: seq<byte>, dataPosition: nat)
      requires Valid() && StatusStored() && phase == EndHeader && dataPosition <= |chunk|
      requires RoomFor(lim, V(), chunk[dataPosition..])
      modifies this, message, message.data
      ensures Valid() && StatusStored() && V() == ResponseBody(lim, old(V()), chunk[dataPosition..])
      ensures phase == EndHeader || phase == EndMessage
    {
      hide ResponseLength;
      var httpDataLength := ContentLength();
      if httpDataLength == 0 {
        phase := EndMessage;
        return;
      }
      message.PutData(chunk, dataPosition);
      if message.dataLength == httpDataLength {
        phase := EndMessage;
      }
    }
  }

  /** `incomingRequest` and its state, from the acceptance of a connection to the call of the application. */
  class HttpRequest {
    const lim: Limits
    const message: HttpMessage
    /** `method` */
    const verb: array<byte>
    const url: array<byte>
    var phase: Phase
    /** `urlLength`, which also counts the method while that is read */
    var urlLength: nat
    /** `method` as a string, once it is complete */
    var verbText: seq<byte>

    predicate Valid()
      reads this, message
    {
      message.RowsFit() && message.lim == lim && verb.Length == MAX_METHOD_LENGTH + 1 && url.Length == lim.url
      && verb != url && verb != message.headers && verb != message.data && url != message.headers && url != message.data
      && (if phase == Method then urlLength <= MAX_METHOD_LENGTH
          else phase == NoRequest || phase == StartRequest || urlLength <= lim.url)
      && |verbText| <= MAX_METHOD_LENGTH && (forall k | 0 <= k < |verbText| :: verbText[k] != 0)
    }

    function V(): Request
      requires Valid()
      reads this, message, message.headers, message.data, verb, url
    {
      Request(phase,
              if phase == StartRequest then [] else if phase == Method then verb[..urlLength] else verbText,
              if phase == NoRequest || phase == StartRequest || phase == Method then [] else url[..urlLength],
              message.Rows(), message.Body())
    }

    /** The URL lies at the beginning of its buffer. */
    lemma UrlInPlace()
      requires Valid()
      ensures |V().url| <= url.Length && V().url == url[..|V().url|]
    {
    }

    /** The method is in letters, and once complete it is stored with its terminating zero. */
    ghost predicate VerbStored()
      requires Valid()
      reads this, message, verb
    {
      (phase == Method ==> forall k | 0 <= k < urlLength :: verb[k] != 0) &&
      (phase != NoRequest && phase != StartRequest && phase != Method ==>
          verb[..|verbText|] == verbText && verb[|verbText|] == 0)
    }

    /** A connection has been accepted. */
    constructor (message: HttpMessage)
      requires message.RowsFit()
      ensures Valid() && VerbStored() && phase == StartRequest && this.message == message && fresh(verb) && fresh(url)
    {
      this.lim, this.message := message.lim, message;
      verb := new byte[MAX_METHOD_LENGTH + 1](i => 0);
      url := new byte[message.lim.url](i => 0);
      phase, urlLength, verbText := StartRequest, 0, [];
    }

    /** `HttpParseRequestHeader`; `refused` is the status sent to the client, or 0. */
    method ParseRequestHeader(ch: byte) returns (refused: u16)
      requires Valid() && VerbStored() && BeforeEnd(phase)
      modifies this, message, message.headers, verb, url
      ensures Valid() && VerbStored() && SameFrom(url[..], old(url[..]), |V().url|)
      ensures RequestStep(lim, old(V()), ch) == if refused == 0 then Taken(V()) else Refused(refused)
      ensures refused != 0 ==> V().url == old(V().url) && phase != EndMessage
      ensures refused != 0 && old(phase) != NoRequest ==> phase != NoRequest
    {
      if phase == StartRequest {
        phase, urlLength := Method, 0;
      }
      if phase == Method {
        refused := ParseVerb(ch);
        return;
      }
      if phase == Url {
        refused := ParseUrl(ch);
        return;
      }
      if phase == Version {
        if IsBreak(ch) {
          message.headersLength := 0;
          if ch == CR {
            phase := MacEnd;
          }
          if ch == LF {
            phase := LinuxEnd;
          }
        }
        return 0;
      }
      if InRows(phase) {
        refused := ParseRow(ch);
        return;
      }
      refused := 400;
    }

    /** The header row branch of `HttpParseRequestHeader`. */
    method ParseRow(ch: byte) returns (refused: u16)
      requires Valid() && VerbStored() && InRows(phase)
      modifies this`phase, message, message.headers
      ensures Valid() && VerbStored() && V().url == old(V().url) && phase != NoRequest && phase != EndMessage
      ensures RequestStep(lim, old(V()), ch) == if refused == 0 then Taken(V()) else Refused(refused)
    {
      var ok, phase' := message.ParseHeader(ch, phase);
      phase := phase';
      refused := if ok then 0 else 431;
    }

    /** The method branch of `HttpParseRequestHeader`. */
    method ParseVerb(ch: byte) returns (refused: u16)
      requires Valid() && VerbStored() && phase == Method
      modifies this, verb
      ensures Valid() && VerbStored() && (refused != 0 ==> phase == Method)
      ensures RequestStep(lim, old(V()), ch) == if refused == 0 then Taken(V()) else Refused(refused)
    {
      if ch == SPACE {
        verb[urlLength] := 0;
        verbText := verb[..urlLength];
        phase, urlLength := Url, 0;
        return 0;
      }
      if ch < 'A' as int || ch > 'Z' as int {
        return 400;
      }
      if urlLength >= MAX_METHOD_LENGTH {
        return 431;
      }
      verb[urlLength] := ch;
      urlLength := urlLength + 1;
      assert verb[..urlLength] == old(verb[..urlLength]) + [ch];
      refused := 0;
    }

    /** The URL branch of `HttpParseRequestHeader`. */
    method ParseUrl(ch: byte) returns (refused: u16)
      requires Valid() && VerbStored() && phase == Url
      modifies this, url
      ensures Valid() && VerbStored() && SameFrom(url[..], old(url[..]), |V().url|)
      ensures refused != 0 ==> V().url == old(V().url) && phase == Url
      ensures RequestStep(lim, old(V()), ch) == if refused == 0 then Taken(V()) else Refused(refused)
    {
      if ch == SPACE {
        phase := Version;
        return 0;
      }
      if urlLength >= lim.url {
        return 414;
      }
      url[urlLength] := ch;
      urlLength := urlLength + 1;
      assert url[..urlLength] == old(url[..urlLength]) + [ch];
      refused := 0;
    }

    /** The header loop of `HttpTcpOnIncomingData`. */
    method ScanHeader(chunk: seq<byte>) returns (refused: u16, dataPosition: nat)
      requires Valid() && VerbStored() && BeforeEnd(phase)
      modifies this, message, message.headers, verb, url
      ensures Valid() && VerbStored() && dataPosition <= |chunk| && SameFrom(url[..], old(url[..]), |V().url|)
      ensures (old(phase) != NoRequest ==> phase != NoRequest) && phase != EndMessage
      ensures ScanRequest(lim, old(V()), chunk).taken == if refused == 0 then Taken(V()) else Refused(refused)
      ensures refused == 0 ==> ScanRequest(lim, old(V()), chunk).rest == chunk[dataPosition..]
      ensures refused == 0 && phase != EndHeader ==> BeforeEnd(phase) && dataPosition == |chunk|
    {
      ghost var s := V();
      assert SameFrom(url[..], old(url[..]), |V().url|);
      hide RequestStep, SameFrom;
      dataPosition := 0;
      while dataPosition < |chunk|
        invariant 0 <= dataPosition <= |chunk| && Valid() && VerbStored() && BeforeEnd(phase)
        invariant SameFrom(url[..], old(url[..]), |V().url|) && (old(phase) != NoRequest ==> phase != NoRequest)
        invariant ScanRequest(lim, s, chunk) == ScanRequest(lim, V(), chunk[dataPosition..])
      {
        ghost var rest := chunk[dataPosition..];
        assert rest[0] == chunk[dataPosition] && rest[1..] == chunk[dataPosition + 1..];
        RequestStepPhase(lim, V(), chunk[dataPosition]);
        RequestStepGrows(lim, V(), chunk[dataPosition]);
        ghost var n, before := |V().url|, url[..];
        refused := ParseRequestHeader(chunk[dataPosition]);
        SameFromTransitive(url[..], before, old(url[..]), n, |V().url|);
        if refused != 0 {
          return;
        }
        if phase == EndHeader {
          dataPosition := dataPosition + 1;
          return;
        }
        dataPosition := dataPosition + 1;
      }
      assert chunk[dataPosition..] == [];
      refused := 0;
    }

    /** `HttpTcpOnIncomingData` for the connection of the request: `served` says that the application is
        called with what is stored, `refused` is the status the client gets instead, or 0. */
    method OnIncomingData(chunk: seq<byte>) returns (served: bool, refused: u16)
      requires Valid() && VerbStored() && phase != NoRequest && RequestRoom(lim, V(), chunk)
      modifies this, message, message.headers, message.data, verb, url
      ensures Valid() && VerbStored() && SameFrom(url[..], old(url[..]), |V().url|) && phase != NoRequest
      ensures phase != EndMessage
      ensures served ==> phase == Handling
      ensures match HttpSpec.ParseRequest(lim, old(V()), chunk)
              case Await(s') => !served && refused == 0 && V() == s'
              case Refuse(status) => !served && refused == status
              case Serve(r) => served && refused == 0 && V() == r
    {
      hide RequestStep, ScanRequest, RequestBody, RequestRoomFor, RequestLength, Bodyless;
      served, refused := false, 0;
      var dataPosition := 0;
      if BeforeEnd(phase) {
        refused, dataPosition := ScanHeader(chunk);
        if refused != 0 {
          return;
        }
        if phase != EndHeader {
          return;
        }
      }
      assert dataPosition == 0 ==> chunk[dataPosition..] == chunk;
      if phase == EndHeader {
        served, refused := ReadBody(chunk, dataPosition);
        return;
      }
      if phase == EndMessage {
        phase := Handling;
        served := true;
        return;
      }
      refused := 400;
    }

    /** The body part of `HttpTcpOnIncomingData`. */
    method ReadBody(chunk: seq<byte>, dataPosition: nat) returns (served: bool, refused: u16)
      requires Valid() && VerbStored() && phase == EndHeader && dataPosition <= |chunk|
      requires RequestRoomFor(lim, V(), chunk[dataPosition..])
      modifies this, message, message.data
      ensures Valid() && VerbStored() && phase != NoRequest && phase != EndMessage && V().url == old(V().url)
      ensures served ==> phase == Handling
      ensures match RequestBody(lim, old(V()), chunk[dataPosition..])
              case Await(s') => !served && refused == 0 && V() == s'
              case Refuse(status) => !served && refused == status
              case Serve(r) => served && refused == 0 && V() == r
    {
      hide RequestLength, Bodyless;
      served, refused := false, 0;
      var bodyless := IsBodyless();
      if bodyless {
        phase := EndMessage;
      } else {
        var httpDataLength;
        refused, httpDataLength := ContentLength();
        if refused != 0 {
          return;
        }
        message.PutData(chunk, dataPosition);
        if message.dataLength != httpDataLength {
          return;
        }
        phase := EndMessage;
      }
      phase := Handling;
      served := true;
    }

    /** The three `strcmp` tests on the stored method. */
    method IsBodyless() returns (bodyless: bool)
      requires Valid() && VerbStored() && phase == EndHeader
      ensures bodyless <==> Bodyless(V().verb)
    {
      hide Bodyless;
      StoredIsText(verb[..], verbText);
      bodyless := Bodyless(CString(verb[..]));
    }

    /** The announced length of the body, or the status that refuses the request. */
    method ContentLength() returns (refused: u16, n: nat)
      requires Valid()
      ensures RequestLength(lim, message.Rows()) == if refused == 0 then Length(n) else Bad(refused)
      ensures refused == 0 ==> n <= lim.data
    {
      hide HeaderValue;
      n := 0;
      var length := message.ParseHeaderValue(CONTENT_LENGTH);
      if length == None {
        return 411, n;
      }
      var parsed, number := ParseLong(length.value);
      if !parsed {
        return 400, n;
      }
      if number > lim.data {
        return 413, n;
      }
      refused, n := 0, number;
    }
  }
}
