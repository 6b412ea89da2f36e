/**
 Chunking does not matter: feeding a stream to either parser in any chunks is the same as feeding it
 at once, as long as no more bytes follow the header than the header announces.
 */
module HttpChunks {
  import opened Util
  import opened HttpSpec

  // ----- responses ---------------------------------------------------------------------------

  lemma ResponseStepPhase(lim: Limits, s: Response, ch: byte)
    requires BeforeEnd(s.phase)
    ensures var p := ResponseStep(lim, s, ch);
              BeforeEnd(p.state.phase) || (p.ok && p.state.phase == EndHeader && p.state.data == [])
  {
  }

  /** The header loop over `a + b` is the loop over `a`, then, if the header goes on, over `b`. */
  lemma {:induction false} ScanResponseAppend(lim: Limits, s: Response, a: seq<byte>, b: seq<byte>)
    requires BeforeEnd(s.phase)
    ensures var r, ab := ScanResponse(lim, s, a), ScanResponse(lim, s, a + b);
            if r.ok && r.state.phase != EndHeader then
              r.rest == [] && BeforeEnd(r.state.phase) && ab == ScanResponse(lim, r.state, b)
            else ab == Scan(r.state, r.ok, r.rest + b) && (r.ok ==> r.state.data == [])
    decreases |a|
  {
    if a == [] {
      assert a + b == b;
    } else {
      assert (a + b)[0] == a[0] && (a + b)[1..] == a[1..] + b;
      ResponseStepPhase(lim, s, a[0]);
      var p := ResponseStep(lim, s, a[0]);
      if p.ok && p.state.phase != EndHeader {
        ScanResponseAppend(lim, p.state, a[1..], b);
      }
    }
  }

  lemma ResponseBodyAppend(lim: Limits, s: Response, a: seq<byte>, b: seq<byte>)
    requires s.phase == EndHeader && BodyFits(lim, s, a + b)
    ensures ParseResponse(lim, ResponseBody(lim, s, a), b) == Parsed(ResponseBody(lim, s, a + b), true)
    ensures |s.data| + |a| <= ResponseLength(lim, s.headers) || ResponseLength(lim, s.headers) == 0
    ensures ResponseResting(lim, ResponseBody(lim, s, a)) && ResponseFits(lim, ResponseBody(lim, s, a), b)
  {
    assert s.data + (a + b) == s.data + a + b;
    if b == [] {
      assert a + b == a;
    }
  }

  /** One chunk may be cut in two anywhere. */
  lemma ParseResponseAppend(lim: Limits, s: Response, a: seq<byte>, b: seq<byte>)
    requires ResponseResting(lim, s) && ResponseFits(lim, s, a + b)
    ensures var p := ParseResponse(lim, s, a);
            if p.ok then ParseResponse(lim, s, a + b) == ParseResponse(lim, p.state, b)
                         && ResponseResting(lim, p.state) && ResponseFits(lim, p.state, b)
            else ParseResponse(lim, s, a + b) == p
  {
    if BeforeEnd(s.phase) {
      ScanResponseAppend(lim, s, a, b);
      var r := ScanResponse(lim, s, a);
      if r.ok && r.state.phase == EndHeader {
        ResponseBodyAppend(lim, r.state, r.rest, b);
      }
    } else if s.phase == EndHeader {
      ResponseBodyAppend(lim, s, a, b);
    }
  }

  /** The result of a response depends only on the concatenation of its chunks. */
  lemma {:induction false} ResponseChunkingInvariant(lim: Limits, s: Response, chunks: seq<seq<byte>>)
    requires ResponseResting(lim, s) && ResponseFits(lim, s, Concat(chunks))
    ensures FeedResponse(lim, s, chunks) == ParseResponse(lim, s, Concat(chunks))
    decreases |chunks|
  {
    if chunks == [] {
      assert s.phase == EndHeader ==> s.data + [] == s.data;
    } else {
      ParseResponseAppend(lim, s, chunks[0], Concat(chunks[1..]));
      var p := ParseResponse(lim, s, chunks[0]);
      if p.ok {
        ResponseChunkingInvariant(lim, p.state, chunks[1..]);
      }
    }
  }

  /** The body bytes of a response can be stored at all: they do not run over `incomingMessage.data`. */
  predicate ResponseStorable(lim: Limits, s: Response, stream: seq<byte>)
  {
    var r := ScanResponse(lim, s, stream);
    r.ok && r.state.phase == EndHeader ==> |r.rest| <= lim.data
  }

  /** The condition is exact: with more bytes than announced, a cut after the announced ones completes
      the response, and no cut at all does not. */
  lemma ResponseChunkingIff(lim: Limits, s: Response, stream: seq<byte>)
    requires BeforeEnd(s.phase) && ResponseStorable(lim, s, stream)
    ensures ResponseFits(lim, s, stream) <==>
            forall chunks | Concat(chunks) == stream :: FeedResponse(lim, s, chunks) == ParseResponse(lim, s, stream)
  {
    if ResponseFits(lim, s, stream) {
      forall chunks | Concat(chunks) == stream
        ensures FeedResponse(lim, s, chunks) == ParseResponse(lim, s, stream)
      {
        ResponseChunkingInvariant(lim, s, chunks);
      }
    } else {
      var chunks := ExcessCut(lim, s, stream);
    }
  }

  /** The cut that tells an overlong body from its announced part. */
  lemma ExcessCut(lim: Limits, s: Response, stream: seq<byte>) returns (chunks: seq<seq<byte>>)
    requires BeforeEnd(s.phase) && !ResponseFits(lim, s, stream)
    ensures Concat(chunks) == stream
    ensures FeedResponse(lim, s, chunks).state.phase == EndMessage
    ensures ParseResponse(lim, s, stream).state.phase == EndHeader
  {
    var r := ScanResponse(lim, s, stream);
    var n := ResponseLength(lim, r.state.headers);
    var k := |stream| - |r.rest| + n;
    ScanResponseRest(lim, s, stream);
    var a, b := stream[..k], stream[k..];
    assert stream == a + b;
    ScanResponseAppend(lim, s, a, b);
    ScanStopsEarly(lim, s, a, b);
    ScanResponseRest(lim, s, a);
    TwoChunks(lim, s, a, b);
    chunks := [a, b];
  }

  lemma TwoChunks(lim: Limits, s: Response, a: seq<byte>, b: seq<byte>)
    ensures Concat([a, b]) == a + b
    ensures var p := ParseResponse(lim, s, a);
            p.ok && p.state.phase == EndMessage ==> FeedResponse(lim, s, [a, b]) == p
  {
    assert [a, b][1..] == [b] && [b][1..] == [];
    assert Concat([b]) == b + Concat([]);
    var p := ParseResponse(lim, s, a);
    if p.ok && p.state.phase == EndMessage {
      assert FeedResponse(lim, p.state, [b]) == FeedResponse(lim, p.state, []);
    }
  }

  lemma {:induction false} ScanResponseRest(lim: Limits, s: Response, data: seq<byte>)
    requires BeforeEnd(s.phase)
    ensures var r := ScanResponse(lim, s, data); r.ok && r.state.phase == EndHeader ==> r.state.data == []
    decreases |data|
  {
    if data != [] {
      ResponseStepPhase(lim, s, data[0]);
      var p := ResponseStep(lim, s, data[0]);
      if p.ok && p.state.phase != EndHeader {
        ScanResponseRest(lim, p.state, data[1..]);
      }
    }
  }

  /** If the header ends inside `a + b` with at least `b` left over, it ends inside `a`. */
  lemma {:induction false} ScanStopsEarly(lim: Limits, s: Response, a: seq<byte>, b: seq<byte>)
    requires BeforeEnd(s.phase)
    requires a == [] ==> b != []
    requires var r := ScanResponse(lim, s, a + b); r.ok && r.state.phase == EndHeader && |r.rest| >= |b|
    ensures var r := ScanResponse(lim, s, a); r.ok && r.state.phase == EndHeader
    decreases |a|
  {
    if a == [] {
      assert a + b == b;
      ScanTakesOne(lim, s, b);
    } else {
      assert (a + b)[0] == a[0] && (a + b)[1..] == a[1..] + b;
      ResponseStepPhase(lim, s, a[0]);
      var p := ResponseStep(lim, s, a[0]);
      if p.ok && p.state.phase != EndHeader {
        ScanStopsEarly(lim, p.state, a[1..], b);
      }
    }
  }

  /** A header that ends has used at least one byte. */
  lemma ScanTakesOne(lim: Limits, s: Response, data: seq<byte>)
    requires BeforeEnd(s.phase) && ScanResponse(lim, s, data).state.phase == EndHeader
    ensures |ScanResponse(lim, s, data).rest| < |data|
  {
  }

  // ----- requests ----------------------------------------------------------------------------

  lemma RequestStepPhase(lim: Limits, s: Request, ch: byte)
    requires BeforeEnd(s.phase)
    ensures match RequestStep(lim, s, ch)
            case Refused(_) => true
            case Taken(s') => BeforeEnd(s'.phase) || (s'.phase == EndHeader && s'.data == [])
  {
  }

  /** The URL only grows, and a request that has been accepted stays one. */
  lemma RequestStepGrows(lim: Limits, s: Request, ch: byte)
    requires BeforeEnd(s.phase) && (s.phase == StartRequest || s.phase == Method ==> s.url == [])
    ensures match RequestStep(lim, s, ch)
            case Refused(_) => true
            case Taken(s') =>
              s.url <= s'.url && (s.phase != NoRequest ==> s'.phase != NoRequest)
              && (s'.phase == StartRequest || s'.phase == Method ==> s'.url == [])
  {
  }

  lemma {:induction false} ScanRequestAppend(lim: Limits, s: Request, a: seq<byte>, b: seq<byte>)
    requires BeforeEnd(s.phase)
    ensures var r, ab := ScanRequest(lim, s, a), ScanRequest(lim, s, a + b);
            if r.taken.Taken? && r.taken.state.phase != EndHeader then
              r.rest == [] && BeforeEnd(r.taken.state.phase) && ab == ScanRequest(lim, r.taken.state, b)
            else ab == RequestScan(r.taken, r.rest + b) && (r.taken.Taken? ==> r.taken.state.data == [])
    decreases |a|
  {
    if a == [] {
      assert a + b == b;
    } else {
      assert (a + b)[0] == a[0] && (a + b)[1..] == a[1..] + b;
      RequestStepPhase(lim, s, a[0]);
      match RequestStep(lim, s, a[0])
      case Refused(_) =>
      case Taken(s') =>
        if s'.phase != EndHeader {
          ScanRequestAppend(lim, s', a[1..], b);
        }
    }
  }

  /** Every refusal has a status. */
  lemma RefusalHasStatus(lim: Limits, s: Request, data: seq<byte>)
    ensures match ParseRequest(lim, s, data)
            case Refuse(status) => status != 0
            case Await(_) => true
            case Serve(_) => true
  {
    if BeforeEnd(s.phase) {
      ScanRefusalHasStatus(lim, s, data);
    }
  }

  lemma {:induction false} ScanRefusalHasStatus(lim: Limits, s: Request, data: seq<byte>)
    ensures ScanRequest(lim, s, data).taken.Refused? ==> ScanRequest(lim, s, data).taken.status != 0
    decreases |data|
  {
    if data != [] {
      match RequestStep(lim, s, data[0])
      case Refused(_) =>
      case Taken(s') => ScanRefusalHasStatus(lim, s', data[1..]);
    }
  }

  lemma RequestBodyAppend(lim: Limits, s: Request, a: seq<byte>, b: seq<byte>)
    requires s.phase == EndHeader && RequestBodyFits(lim, s, a + b)
    ensures match RequestBody(lim, s, a)
            case Await(s') =>
              s'.phase == EndHeader && RequestBody(lim, s, a + b) == RequestBody(lim, s', b)
              && RequestResting(lim, s') && RequestFits(lim, s', b)
            case other => RequestBody(lim, s, a + b) == other && (other.Serve? && !Bodyless(s.verb) ==> b == [])
  {
    assert s.data + (a + b) == s.data + a + b;
    if b == [] {
      assert a + b == a;
    }
  }

  /** One chunk may be cut in two anywhere. */
  lemma ParseRequestAppend(lim: Limits, s: Request, a: seq<byte>, b: seq<byte>)
    requires RequestResting(lim, s) && RequestFits(lim, s, a + b)
    ensures match ParseRequest(lim, s, a)
            case Await(s') =>
              ParseRequest(lim, s, a + b) == ParseRequest(lim, s', b) && RequestResting(lim, s')
              && RequestFits(lim, s', b)
              && (NothingBehind(lim, s, a + b) ==> NothingBehind(lim, s', b))
            case other =>
              ParseRequest(lim, s, a + b) == other && (other.Serve? && NothingBehind(lim, s, a + b) ==> b == [])
  {
    if BeforeEnd(s.phase) {
      ScanRequestAppend(lim, s, a, b);
      var r := ScanRequest(lim, s, a);
      if r.taken.Taken? && r.taken.state.phase == EndHeader {
        RequestBodyAppend(lim, r.taken.state, r.rest, b);
      }
    } else {
      RequestBodyAppend(lim, s, a, b);
    }
  }

  lemma ConcatNonempty(chunks: seq<seq<byte>>)
    requires chunks != [] && chunks[0] != []
    ensures Concat(chunks) != []
  {
  }

  /** The result of a request depends only on the concatenation of its chunks. */
  lemma {:induction false} RequestChunkingInvariant(lim: Limits, s: Request, chunks: seq<seq<byte>>)
    requires RequestResting(lim, s) && RequestFits(lim, s, Concat(chunks))
    ensures FeedRequest(lim, s, chunks).outcome == ParseRequest(lim, s, Concat(chunks))
    decreases |chunks|
  {
    if chunks == [] {
      assert s.phase == EndHeader ==> s.data + [] == s.data;
    } else {
      ParseRequestAppend(lim, s, chunks[0], Concat(chunks[1..]));
      match ParseRequest(lim, s, chunks[0])
      case Await(s') => RequestChunkingInvariant(lim, s', chunks[1..]);
      case Serve(_) =>
      case Refuse(_) =>
    }
  }

  /** The application is called once, and by the last chunk; TCP never delivers an empty one. */
  lemma {:induction false} ServedByLastChunk(lim: Limits, s: Request, chunks: seq<seq<byte>>)
    requires RequestResting(lim, s) && RequestFits(lim, s, Concat(chunks)) && NothingBehind(lim, s, Concat(chunks))
    requires forall k | 0 <= k < |chunks| :: chunks[k] != []
    ensures FeedRequest(lim, s, chunks).outcome.Serve? ==> FeedRequest(lim, s, chunks).used == |chunks|
    decreases |chunks|
  {
    if chunks != [] {
      ParseRequestAppend(lim, s, chunks[0], Concat(chunks[1..]));
      if |chunks| > 1 { ConcatNonempty(chunks[1..]); }
      match ParseRequest(lim, s, chunks[0])
      case Await(s') => ServedByLastChunk(lim, s', chunks[1..]);
      case Serve(_) =>
      case Refuse(_) =>
    }
  }

  /** The body bytes of a request do not run over `incomingMessage.data`. */
  predicate RequestStorable(lim: Limits, s: Request, stream: seq<byte>)
  {
    var r := ScanRequest(lim, s, stream);
    r.taken.Taken? && r.taken.state.phase == EndHeader ==> |r.rest| <= lim.data
  }

  /** The condition is exact: a body longer than announced is served when it is cut after the announced
      bytes, and waited for without end when it comes at once. */
  lemma RequestChunkingIff(lim: Limits, s: Request, stream: seq<byte>)
    requires BeforeEnd(s.phase) && RequestStorable(lim, s, stream)
    ensures RequestFits(lim, s, stream) <==>
            forall chunks | Concat(chunks) == stream ::
                FeedRequest(lim, s, chunks).outcome == ParseRequest(lim, s, stream)
  {
    if RequestFits(lim, s, stream) {
      forall chunks | Concat(chunks) == stream
        ensures FeedRequest(lim, s, chunks).outcome == ParseRequest(lim, s, stream)
      {
        RequestChunkingInvariant(lim, s, chunks);
      }
    } else {
      var chunks := ExcessRequestCut(lim, s, stream);
    }
  }

  /** The cut that tells an overlong body from its announced part. */
  lemma ExcessRequestCut(lim: Limits, s: Request, stream: seq<byte>) returns (chunks: seq<seq<byte>>)
    requires BeforeEnd(s.phase) && !RequestFits(lim, s, stream)
    ensures Concat(chunks) == stream
    ensures FeedRequest(lim, s, chunks).outcome.Serve? && ParseRequest(lim, s, stream).Await?
  {
    hide RequestLength, Bodyless, RequestStep;
    var r := ScanRequest(lim, s, stream);
    ScanRequestRest(lim, s, stream);
    var n := RequestLength(lim, r.taken.state.headers).n;
    var k := |stream| - |r.rest| + n;
    var a, b := stream[..k], stream[k..];
    assert stream == a + b;
    ScanRequestAppend(lim, s, a, b);
    RequestStopsEarly(lim, s, a, b);
    ScanRequestRest(lim, s, a);
    chunks := [a, b];
    assert chunks[1..] == [b] && Concat([b]) == b + Concat([b][1..]);
  }

  lemma {:induction false} ScanRequestRest(lim: Limits, s: Request, data: seq<byte>)
    requires BeforeEnd(s.phase)
    ensures var r := ScanRequest(lim, s, data);
            r.taken.Taken? && r.taken.state.phase == EndHeader ==> r.taken.state.data == []
    decreases |data|
  {
    ScanRequestAppend(lim, s, data, []);
  }

  /** If the header ends inside `a + b` with at least `b` left over, it ends inside `a`. */
  lemma {:induction false} RequestStopsEarly(lim: Limits, s: Request, a: seq<byte>, b: seq<byte>)
    requires BeforeEnd(s.phase)
    requires var r := ScanRequest(lim, s, a + b);
             r.taken.Taken? && r.taken.state.phase == EndHeader && |r.rest| >= |b| && (a == [] ==> b != [])
    ensures var r := ScanRequest(lim, s, a); r.taken.Taken? && r.taken.state.phase == EndHeader
    decreases |a|
  {
    if a == [] {
      assert a + b == b;
      RequestTakesOne(lim, s, b);
    } else {
      assert (a + b)[0] == a[0] && (a + b)[1..] == a[1..] + b;
      RequestStepPhase(lim, s, a[0]);
      match RequestStep(lim, s, a[0])
      case Refused(_) =>
      case Taken(s') =>
        if s'.phase != EndHeader {
          RequestStopsEarly(lim, s', a[1..], b);
        }
    }
  }

  /** A header that ends has used at least one byte. */
  lemma RequestTakesOne(lim: Limits, s: Request, data: seq<byte>)
    requires BeforeEnd(s.phase)
    requires var r := ScanRequest(lim, s, data); r.taken.Taken? && r.taken.state.phase == EndHeader
    ensures |ScanRequest(lim, s, data).rest| < |data|
  {
  }
}
