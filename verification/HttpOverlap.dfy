/**
 A request of the client that comes while its response goes out: `HttpSendResponseHeader` in `src/http.c`
 moves the parser to START_REQUEST before it sends, and prints the rows of the response into the buffer of
 the URL.
 */
module HttpOverlap {
  import opened Util
  import opened HttpSpec
  import opened HttpRoundTrip

  /** A response begins: START_REQUEST, whatever is left of the request. */
  predicate Answering(s: Request) { s.phase == StartRequest && s.url == [] }

  /** Data of the client leaves a response in the making alone: it is neither refused nor served, and nothing
      of it has reached the URL, in whose buffer the rows of the response are printed. */
  predicate Harmless(lim: Limits, s: Request, chunk: seq<byte>)
  {
    match ParseRequest(lim, s, chunk)
    case Await(s') => s'.url == []
    case Refuse(_) => false
    case Serve(_) => false
  }

  lemma HarmlessIsAwaited(lim: Limits, s: Request, chunk: seq<byte>)
    ensures var outcome := ParseRequest(lim, s, chunk);
            Harmless(lim, s, chunk) ==> outcome.Await? && outcome.state.url == []
  {
  }

  // ----- harmless data, byte by byte -----------------------------------------------------------------

  /** A parser state that a response can meet as long as all data was harmless: nothing of a URL yet, and of a
      method no more than fits. */
  predicate Interrupting(s: Request)
  {
    s.url == [] && s.phase != NoRequest && s.phase != EndMessage && s.phase != Handling
    && (s.phase == Method ==> |s.verb| <= MAX_METHOD_LENGTH)
  }

  function SpaceAt(chunk: seq<byte>): (k: nat)
    ensures k <= |chunk| && (k < |chunk| ==> chunk[k] == SPACE) && forall j | 0 <= j < k :: chunk[j] != SPACE
  {
    if chunk == [] || chunk[0] == SPACE then 0 else 1 + SpaceAt(chunk[1..])
  }

  predicate Capitals(text: seq<byte>) { forall k | 0 <= k < |text| :: 'A' as int <= text[k] <= 'Z' as int }

  /** What stands before the first space is in capitals, at most ten with those before the chunk, and no URL follows. */
  predicate MethodOnly(lim: Limits, s: Request, chunk: seq<byte>)
  {
    var k := SpaceAt(chunk);
    var verb := if s.phase == StartRequest then [] else s.verb;
    Capitals(chunk[..k]) && |verb| + k <= MAX_METHOD_LENGTH
    && (k < |chunk| ==> EmptyUrl(lim, s.(phase := Url, verb := verb + chunk[..k]), chunk[k + 1..]))
  }

  /** Nothing follows, or a second space, and then only bytes that are awaited. */
  predicate EmptyUrl(lim: Limits, s: Request, rest: seq<byte>)
  {
    rest != [] ==> rest[0] == SPACE && ParseRequest(lim, s.(phase := Version), rest[1..]).Await?
  }

  predicate LeavesRows(lim: Limits, s: Request, chunk: seq<byte>)
  {
    if chunk == [] && BeforeEnd(s.phase) then true
    else if s.phase == StartRequest || s.phase == Method then MethodOnly(lim, s, chunk)
    else if s.phase == Url then EmptyUrl(lim, s, chunk)
    else ParseRequest(lim, s, chunk).Await?
  }

  /** For every state a response can meet, the bytes decide: data is harmless if and only if it is the beginning
      of a method, or a method with an empty URL behind it and the rest awaited. */
  lemma HarmlessIff(lim: Limits, s: Request, chunk: seq<byte>)
    requires lim.Valid() && Interrupting(s)
    ensures Harmless(lim, s, chunk) <==> LeavesRows(lim, s, chunk)
  {
    if s.phase == StartRequest {
      if chunk != [] {
        var t := s.(phase := Method, verb := []);
        assert ScanRequest(lim, s, chunk) == ScanRequest(lim, t, chunk);
        MethodIff(lim, t, chunk);
      }
    } else if s.phase == Method {
      MethodIff(lim, s, chunk);
    } else if s.phase == Url {
      UrlIff(lim, s, chunk);
    } else {
      UrlStays(lim, s, chunk);
    }
  }

  /** Those are all states: harmless data leads from one to another. */
  lemma InterruptingStays(lim: Limits, s: Request, chunk: seq<byte>)
    requires lim.Valid() && Interrupting(s) && Harmless(lim, s, chunk)
    ensures Interrupting(ParseRequest(lim, s, chunk).state)
  {
    if BeforeEnd(s.phase) { ScanStaysIn(lim, s, chunk); }
  }

  lemma {:induction false} ScanStaysIn(lim: Limits, s: Request, data: seq<byte>)
    requires BeforeEnd(s.phase) && s.phase != NoRequest && (s.phase == Method ==> |s.verb| <= MAX_METHOD_LENGTH)
    ensures var r := ScanRequest(lim, s, data).taken;
            r.Taken? ==> r.state.phase != NoRequest && r.state.phase != EndMessage && r.state.phase != Handling
                         && (r.state.phase == Method ==> |r.state.verb| <= MAX_METHOD_LENGTH)
    decreases |data|
  {
    if data != [] {
      match RequestStep(lim, s, data[0])
      case Refused(_) =>
      case Taken(s') => if s'.phase != EndHeader { ScanStaysIn(lim, s', data[1..]); }
    }
  }

  lemma {:induction false} MethodIff(lim: Limits, s: Request, chunk: seq<byte>)
    requires lim.Valid() && Interrupting(s) && s.phase == Method
    ensures Harmless(lim, s, chunk) <==> MethodOnly(lim, s, chunk)
    decreases |chunk|
  {
    if chunk != [] {
      var ch := chunk[0];
      if ch == SPACE {
        var t := s.(phase := Url);
        ParseOne(lim, s, chunk, t);
        UrlIff(lim, t, chunk[1..]);
        assert s.verb + chunk[..0] == s.verb;
      } else if 'A' as int <= ch <= 'Z' as int && |s.verb| < MAX_METHOD_LENGTH {
        var t := s.(verb := s.verb + [ch]);
        ParseOne(lim, s, chunk, t);
        MethodIff(lim, t, chunk[1..]);
        MethodOnlyOne(lim, s, chunk);
      } else {
        assert !Harmless(lim, s, chunk);
        assert 1 <= SpaceAt(chunk) && chunk[..SpaceAt(chunk)][0] == ch;
      }
    }
  }

  lemma MethodOnlyOne(lim: Limits, s: Request, chunk: seq<byte>)
    requires chunk != [] && s.phase == Method && 'A' as int <= chunk[0] <= 'Z' as int
    ensures MethodOnly(lim, s, chunk) <==> MethodOnly(lim, s.(verb := s.verb + [chunk[0]]), chunk[1..])
  {
    var k := SpaceAt(chunk[1..]);
    assert SpaceAt(chunk) == k + 1;
    assert chunk[..k + 1] == [chunk[0]] + chunk[1..][..k];
    assert s.verb + chunk[..k + 1] == s.verb + [chunk[0]] + chunk[1..][..k];
    if k < |chunk[1..]| { assert chunk[1..][k + 1..] == chunk[k + 2..]; }
    assert Capitals(chunk[..k + 1]) <==> Capitals(chunk[1..][..k]) by {
      assert forall j | 0 <= j < k :: chunk[1..][..k][j] == chunk[..k + 1][j + 1];
    }
  }

  lemma UrlIff(lim: Limits, s: Request, rest: seq<byte>)
    requires lim.Valid() && s.phase == Url && s.url == []
    ensures Harmless(lim, s, rest) <==> EmptyUrl(lim, s, rest)
  {
    if rest != [] {
      if rest[0] == SPACE {
        var t := s.(phase := Version);
        ParseOne(lim, s, rest, t);
        UrlStays(lim, t, rest[1..]);
      } else {
        var t := s.(url := [rest[0]]);
        ParseOne(lim, s, rest, t);
        UrlStays(lim, t, rest[1..]);
      }
    }
  }

  lemma ParseOne(lim: Limits, s: Request, data: seq<byte>, s': Request)
    requires BeforeEnd(s.phase) && data != [] && RequestStep(lim, s, data[0]) == Taken(s') && BeforeEnd(s'.phase)
    ensures ParseRequest(lim, s, data) == ParseRequest(lim, s', data[1..])
  {
  }

  /** Once the URL has begun, it stays; once it is over, it does not change. */
  lemma UrlStays(lim: Limits, s: Request, data: seq<byte>)
    requires s.phase != NoRequest && s.phase != StartRequest && s.phase != Method
    ensures var o := ParseRequest(lim, s, data);
            o.Await? ==> s.url <= o.state.url && (s.phase != Url ==> o.state.url == s.url)
  {
    if BeforeEnd(s.phase) { UrlStaysInScan(lim, s, data); }
  }

  lemma {:induction false} UrlStaysInScan(lim: Limits, s: Request, data: seq<byte>)
    requires BeforeEnd(s.phase) && s.phase != NoRequest && s.phase != StartRequest && s.phase != Method
    ensures var r := ScanRequest(lim, s, data).taken;
            r.Taken? ==> s.url <= r.state.url && (s.phase != Url ==> r.state.url == s.url)
    decreases |data|
  {
    if data != [] {
      match RequestStep(lim, s, data[0])
      case Refused(_) =>
      case Taken(s') => if s'.phase != EndHeader { UrlStaysInScan(lim, s', data[1..]); }
    }
  }

  // ----- data that is not harmless -------------------------------------------------------------------

  /** The line break that some clients send behind the body of a POST is refused: a second header goes out
      in the middle of the response. */
  lemma LateBreakIsRefused(lim: Limits, s: Request)
    requires lim.Valid() && Answering(s)
    ensures ParseRequest(lim, s, [CR, LF]) == Refuse(400)
  {
    assert ScanRequest(lim, s, [CR, LF]).taken == Refused(400);
  }

  const PIPELINED: seq<byte> := ['G' as int, 'E' as int, 'T' as int, SPACE, '/' as int]

  /** The beginning of a next request goes over the row that is being sent: a retransmission carries other
      bytes under the same number. */
  lemma PipelinedRequestOverwritesRow(lim: Limits, s: Request, row: seq<byte>)
    requires lim.Valid() && Answering(s) && |row| == lim.url && HTTP_VERSION[..1] <= row
    ensures ParseRequest(lim, s, PIPELINED).Await?
    ensures var url := ParseRequest(lim, s, PIPELINED).state.url; |url| == 1 && Patch(row, 0, url) != row
  {
    PipelinedIsAwaited(lim, s);
    assert row[0] == HTTP_VERSION[..1][0] == 'H' as int;
    assert Patch(row, 0, [PIPELINED[4]])[0] == '/' as int;
  }

  lemma PipelinedIsAwaited(lim: Limits, s: Request)
    requires lim.Valid() && Answering(s)
    ensures ParseRequest(lim, s, PIPELINED) == Await(s.(phase := Url, verb := PIPELINED[..3], url := [PIPELINED[4]]))
  {
    var c := PIPELINED;
    var s1 := s.(phase := Method, verb := [c[0]], url := []);
    var s2, s3 := s1.(verb := [c[0], c[1]]), s1.(verb := [c[0], c[1], c[2]]);
    var s4, s5 := s3.(phase := Url), s3.(phase := Url, url := [c[4]]);
    assert RequestStep(lim, s, c[0]) == Taken(s1) && RequestStep(lim, s1, c[1]) == Taken(s2);
    assert RequestStep(lim, s2, c[2]) == Taken(s3) && RequestStep(lim, s3, c[3]) == Taken(s4);
    assert RequestStep(lim, s4, c[4]) == Taken(s5);
    assert ScanRequest(lim, s5, []) == RequestScan(Taken(s5), []);
    hide RequestStep, ScanRequest;
    ScanOne(lim, s4, c[4..], s5);
    ScanOne(lim, s3, c[3..], s4);
    ScanOne(lim, s2, c[2..], s3);
    ScanOne(lim, s1, c[1..], s2);
    ScanOne(lim, s, c, s1);
    assert c[..3] == [c[0], c[1], c[2]];
  }

  lemma ScanOne(lim: Limits, s: Request, data: seq<byte>, s': Request)
    requires data != [] && RequestStep(lim, s, data[0]) == Taken(s') && s'.phase != EndHeader
    ensures ScanRequest(lim, s, data) == ScanRequest(lim, s', data[1..])
  {
  }
}
