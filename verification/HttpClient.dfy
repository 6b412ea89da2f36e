/**
 The sending part of `HttpSendRequest` in `src/http.c`. The rows of the request are put together in the
 status buffer of the response, from where `TcpSendData` reads them each time it sends a segment; a server
 that answers early has its answer parsed into the same buffer.
 */
module HttpClient {
  import opened Util
  import opened HttpSpec
  import opened HttpChunks
  import opened HttpRoundTrip
  import opened HttpOutput
  import opened HttpEngine

  /** What can happen while the client waits: data of its connection, or the end of it. */
  datatype Event = Data(chunk: seq<byte>) | Closed

  /** The connection is closed if the parser refuses. */
  function Opened(p: Parsed<Response>, open: bool): Parsed<Response> { p.(ok := p.ok && open) }

  /** How a send begins: the bytes, what the server has got, the number of the wait, the parser and its buffer, and the
      digit that comes early. */
  datatype Start = Start(text: seq<byte>, before: seq<byte>, wait: nat, v: Response, status: seq<byte>, quiet: bool,
                         open: bool, digit: Option<byte>)

  class Client {
    const rb: seq<byte>
    /** `incomingResponse`, with `incomingResponseStatusMessage` */
    const response: HttpResponse
    /** what happens in each wait */
    const schedule: nat -> seq<Event>
    /** for each segment sent, how many of its bytes arrive before the wait behind it is over; for each wait,
        whether it brought the acknowledgement of all data */
    const arrivals: nat -> nat
    const acks: nat -> bool
    var open: bool
    var waits: nat
    /** what the server has got in order */
    var got: seq<byte>

    predicate Valid()
      reads this, response, response.message
    {
      IsRowBreak(rb) && response.Valid() && response.phase != Handling
    }

    ghost predicate Stored()
      requires Valid()
      reads this, response, response.message, response.statusText
    {
      response.StatusStored()
    }

    /** Nothing of an answer has been written into the status buffer. */
    ghost predicate Quiet()
      requires Valid()
      reads this, response, response.message, response.message.headers, response.message.data, response.statusText
    {
      Untouched(response.V())
    }

    /** The next segment is lost; while its acknowledgement is awaited the server sends the beginning of an answer, up
        to the first digit of the status; and the segment behind that arrives. The result is that digit. */
    ghost function Early(): Option<byte>
      requires Valid()
      reads this, response, response.message, response.message.headers, response.message.data, response.statusText
    {
      if open && response.phase == Waiting && |schedule(waits)| == 1 && schedule(waits)[0].Data?
         && |schedule(waits)[0].chunk| == 10 && schedule(waits)[0].chunk[..9] == HTTP_VERSION + [SPACE]
         && schedule(waits)[0].chunk[9] != SPACE && schedule(waits + 1) == [] && arrivals(waits) == 0
         && arrivals(waits + 1) >= 0x1_0000 && acks(waits + 1)
      then Some(schedule(waits)[0].chunk[9]) else None
    }

    /** The first byte that the server has got since is `digit`. */
    ghost predicate Begins(before: seq<byte>, digit: Option<byte>)
      reads this
    {
      before <= got && (digit.Some? ==> |before| < |got| && got[|before|] == digit.value)
    }

    /** `TcpConnect` has succeeded. */
    constructor (rb: seq<byte>, response: HttpResponse, schedule: nat -> seq<Event>, arrivals: nat -> nat,
        acks: nat -> bool)
      requires IsRowBreak(rb) && response.Valid() && response.phase == Waiting
      ensures Valid() && Stored() && Quiet() && this.response == response && this.rb == rb && open && got == []
      ensures this.schedule == schedule && this.arrivals == arrivals && this.acks == acks && waits == 0
    {
      this.rb, this.response, this.schedule, this.arrivals, this.acks := rb, response, schedule, arrivals, acks;
      open, waits, got := true, 0, [];
    }

    /** `HttpTcpOnIncomingData` for the connection of the client. Data that would overrun the body buffer is
        not part of the model. */
    method OnIncomingData(chunk: seq<byte>)
      requires Valid() && Stored()
      modifies this`open, response, response.message, response.message.headers, response.message.data,
                response.statusText
      ensures Valid() && Stored()
      ensures Quiet() ==> response.statusText[..] == old(response.statusText[..]) && old(Quiet())
      ensures ResponseRoom(response.lim, old(response.V()), chunk) ==>
                Parsed(response.V(), open)
                == Opened(HttpSpec.ParseResponse(response.lim, old(response.V()), chunk), old(open))
    {
      hide ScanResponse, RoomFor, ResponseBody, ResponseRoom, HttpSpec.ParseResponse, HttpResponse.V;
      if ResponseRoom(response.lim, response.V(), chunk) {
        TouchedByChunk(response.lim, response.V(), chunk);
        var ok := response.ParseResponse(chunk);
        if !ok {
          open := false;
        }
      }
    }

    /** The packets handled inside one wait of `TcpSendData`. */
    method Wait()
      requires Valid() && Stored()
      modifies this`open, this`waits, response, response.message, response.message.headers, response.message.data
      modifies response.statusText
      ensures Valid() && Stored()
      ensures Quiet() ==> response.statusText[..] == old(response.statusText[..]) && old(Quiet())
      ensures waits == old(waits) + 1
      ensures schedule(old(waits)) == [] ==>
                open == old(open) && response.V() == old(response.V())
                && response.statusText[..] == old(response.statusText[..])
      ensures |schedule(old(waits))| == 1 && schedule(old(waits))[0].Data? && old(open)
              && ResponseRoom(response.lim, old(response.V()), schedule(old(waits))[0].chunk) ==>
                Parsed(response.V(), open)
                == HttpSpec.ParseResponse(response.lim, old(response.V()), schedule(old(waits))[0].chunk)
    {
      hide ResponseRoom, HttpSpec.ParseResponse, HttpResponse.V;
      var events, k := schedule(waits), 0;
      waits := waits + 1;
      while k < |events|
        invariant 0 <= k <= |events| && Valid() && Stored() && waits == old(waits) + 1
        invariant Quiet() ==> response.statusText[..] == old(response.statusText[..]) && old(Quiet())
        invariant k == 0 ==> open == old(open) && response.V() == old(response.V())
                             && response.statusText[..] == old(response.statusText[..])
        invariant k == 1 && events[0].Data? && old(open) ==>
                    ResponseRoom(response.lim, old(response.V()), events[0].chunk) ==>
                    Parsed(response.V(), open)
                    == HttpSpec.ParseResponse(response.lim, old(response.V()), events[0].chunk)
      {
        match events[k] {
          case Data(chunk) => if open { OnIncomingData(chunk); }
          case Closed => open := false;
        }
        k := k + 1;
      }
    }

    /** `TcpSendData`, as its caller sees it: bytes reach the peer in order, each as it stands in memory when
        its segment is sent, and packets are handled after each segment. `n` counts the bytes that arrived. */
    method TcpSendData(source: array<byte>, length: nat) returns (ok: bool, ghost n: nat)
      requires Valid() && Stored() && length <= source.Length
      requires source == response.statusText || source !in {response.message.headers, response.message.data}
      modifies this`open, this`waits, this`got, response, response.message, response.message.headers,
                response.message.data
      modifies response.statusText
      ensures Valid() && Stored() && n <= length && (ok ==> n == length > 0)
      ensures Quiet() ==> old(Quiet()) && response.statusText[..] == old(response.statusText[..])
                          && got == old(got) + old(source[..])[..n]
      ensures Begins(old(got), if source == response.statusText && 0 < length < 0x1_0000 then old(Early()) else None)
    {
      ok, n := false, 0;
      if length == 0 {
        return;
      }
      hide Underway;
      ghost var st := Start(source[..], got, waits, response.V(), response.statusText[..], Quiet(), open,
                            if source == response.statusText && length < 0x1_0000 then Early() else None);
      var offset, rounds := 0, 0;
      SetsOut(st, source, length);
      while rounds <= 60000 + length
        invariant 0 <= rounds <= 60001 + length && 0 <= offset == n <= length && Valid() && Stored()
        invariant Underway(st, source, length, offset, rounds)
      {
        if !open {
          EndsUnderway(st, source, length, offset, rounds);
          return;
        }
        var part, acked;
        part, acked := TcpSendRound(source, length, offset, rounds, st);
        offset, n := offset + part, n + part;
        if offset == length && acked {
          return true, n;
        }
        rounds := rounds + 1;
      }
      EndsUnderway(st, source, length, offset, rounds);
    }

    /** A send that began as `st`, after `rounds` waits. */
    ghost predicate Underway(st: Start, source: array<byte>, length: nat, offset: nat, rounds: nat)
      reads this, source, response, response.message, response.message.headers, response.message.data,
            response.statusText
    {
      Valid() && offset <= length <= |st.text| && Ended(st, source, offset)
      && waits == st.wait + rounds && (rounds == 0 ==> response.V() == st.v && open == st.open && offset == 0)
      && (st.digit.Some? ==> rounds <= 1 && got == st.before && offset == 0 && open && EarlyAt(st, source, length)
                             && (rounds == 1 ==> response.statusText.Length > 0
                                                 && response.statusText[0] == st.digit.value))
    }

    /** What is known of the server and the buffer. */
    ghost predicate Ended(st: Start, source: array<byte>, offset: nat)
      requires Valid()
      reads this, source, response, response.message, response.message.headers, response.message.data,
            response.statusText
    {
      st.before <= got && offset <= |st.text| == source.Length
      && (Quiet() ==> st.quiet && response.statusText[..] == st.status && source[..] == st.text
                      && got == st.before + st.text[..offset])
    }

    /** What the next two waits bring. */
    ghost predicate EarlyAt(st: Start, source: array<byte>, length: nat)
      reads this, response
    {
      source == response.statusText && 0 < length < 0x1_0000 && st.v.phase == Waiting && st.open
      && |schedule(st.wait)| == 1 && schedule(st.wait)[0].Data? && schedule(st.wait + 1) == []
      && |schedule(st.wait)[0].chunk| == 10 && schedule(st.wait)[0].chunk[..9] == HTTP_VERSION + [SPACE]
      && schedule(st.wait)[0].chunk[9] != SPACE && arrivals(st.wait) == 0 && arrivals(st.wait + 1) >= 0x1_0000
      && acks(st.wait + 1) && st.digit == Some(schedule(st.wait)[0].chunk[9])
    }

    lemma SetsOut(st: Start, source: array<byte>, length: nat)
      requires Valid() && 0 < length <= source.Length
      requires st == Start(source[..], got, waits, response.V(), response.statusText[..], Quiet(), open,
                           if source == response.statusText && length < 0x1_0000 then Early() else None)
      ensures Underway(st, source, length, 0, 0)
    {
      assert st.before + st.text[..0] == st.before;
    }

    lemma EndsUnderway(st: Start, source: array<byte>, length: nat, offset: nat, rounds: nat)
      requires Underway(st, source, length, offset, rounds) && (!open || rounds >= 2)
      ensures Ended(st, source, offset) && st.digit == None
    {
    }

    /** One round of `TcpSendData`. */
    method TcpSendRound(source: array<byte>, length: nat, offset: nat, ghost rounds: nat, ghost st: Start)
      returns (part: nat, acked: bool)
      requires Valid() && Stored() && Underway(st, source, length, offset, rounds) && open && length <= source.Length
      requires source == response.statusText || source !in {response.message.headers, response.message.data}
      modifies this`open, this`waits, this`got, response, response.message, response.message.headers,
                response.message.data
      modifies response.statusText
      ensures Valid() && Stored() && offset + part <= length
      ensures if offset + part == length && acked then Ended(st, source, length) && Begins(st.before, st.digit)
              else Underway(st, source, length, offset + part, rounds + 1)
    {
      hide HttpResponse.V, HttpResponse.Valid, HttpResponse.StatusStored, HttpSpec.ParseResponse, ResponseRoom;
      hide Untouched, HTTP_VERSION;
      ghost var memory := source[..];
      part := if arrivals(waits) < length - offset then arrivals(waits) else length - offset;
      TakeMore(st.before, st.text, source[..], offset, part);
      got := got + source[..][offset..offset + part];
      acked := acks(waits);
      Wait();
      if st.digit.Some? && rounds == 0 { EarlyStored(st.v, schedule(st.wait)[0].chunk); }
    }

    /** The digit is at the beginning of the status buffer. */
    lemma EarlyStored(v: Response, chunk: seq<byte>)
      requires Valid() && v.phase == Waiting && |chunk| == 10 && chunk[..9] == HTTP_VERSION + [SPACE]
      requires chunk[9] != SPACE
      requires response.lim.Valid() && ResponseRoom(response.lim, v, chunk) ==>
                Parsed(response.V(), open) == HttpSpec.ParseResponse(response.lim, v, chunk)
      ensures open && response.statusText.Length > 0 && response.statusText[0] == chunk[9]
    {
      EarlyAnswer(response.lim, v, chunk);
    }

    /** The first row of a request, put together in the status buffer. */
    method PrintRequestRow(verb: seq<byte>, url: seq<byte>) returns (length: nat)
      requires Valid() && response.phase == Waiting && 8 + 2 + |verb| + |url| + |rb| <= response.lim.status
      modifies response.statusText
      ensures Valid() && Stored() && length <= response.statusText.Length
      ensures response.statusText[..length] == RequestRow(verb, url, rb)
    {
      hide HTTP_VERSION, IsRowBreak, RequestRow;
      var buffer := response.statusText;
      VersionLength();
      length := CharsCat(buffer, 0, verb);
      length := CharsCat(buffer, length, [SPACE]);
      length := CharsCat(buffer, length, url);
      length := CharsCat(buffer, length, [SPACE]);
      length := CharsCat(buffer, length, HTTP_VERSION + rb);
      RowInPieces(verb, url, rb);
    }

    /** The last row, printed over whatever the status buffer holds; a status message already stored there is
        lost with it. */
    method PrintLengthRow(dataLength: u16) returns (length: nat)
      requires Valid() && Stored()
      modifies response`status, response.statusText
      ensures Valid() && Stored() && (Quiet() <==> old(Quiet())) && length <= response.statusText.Length
      ensures response.statusText[..length] == Cut(LengthRow(dataLength, rb) + rb, response.lim.status)
    {
      hide LengthRow, CString, NoNul;
      RowsNoNul(0, [], dataLength, rb);
      Print(response.statusText, response.lim.status, LengthRow(dataLength, rb) + rb);
      response.status := CString(response.statusText[..]);
      length := |response.status|;
    }

    /** One send of the request, part `i` of it; the server had got `before` when the request began. `n` counts
        the bytes of the request that have arrived. */
    method SendPart(source: array<byte>, length: nat, ghost parts: seq<seq<byte>>, ghost i: nat,
                    ghost before: seq<byte>)
      returns (ok: bool, ghost n: nat)
      requires Valid() && Stored() && length <= source.Length
      requires source == response.statusText || source !in {response.message.headers, response.message.data}
      requires i < |parts| && source[..length] == parts[i] && (Quiet() ==> got == before + Before(parts, i))
      modifies this`open, this`waits, this`got, response, response.message, response.message.headers,
                response.message.data
      modifies response.statusText
      ensures Valid() && Stored() && n <= |Before(parts, |parts|)|
      ensures Quiet() ==> got == before + Before(parts, |parts|)[..n]
      ensures ok && Quiet() ==> got == before + Before(parts, i + 1)
      ensures ok && i + 1 == |parts| ==> n == |Before(parts, |parts|)|
      ensures Begins(old(got), if source == response.statusText && 0 < length < 0x1_0000 then old(Early()) else None)
    {
      hide Before, Untouched;
      ghost var k, memory := 0, source[..];
      ok, k := TcpSendData(source, length);
      n := ArrivedAll(before, parts, i, memory, length, k);
    }

    /** The sending part of `HttpSendRequest`. As long as no answer has been written into the status buffer,
        the server gets nothing but the request as printed, and all of it when every send succeeds. */
    method SendRequest(verb: seq<byte>, url: seq<byte>, headers: array<byte>, data: array<byte>)
      returns (ok: bool, ghost n: nat)
      requires Valid() && response.phase == Waiting && |verb| < 0x8000 && |url| < 0x100
      requires headers.Length < 0x1_0000 && data.Length < 0x1_0000
      requires {headers, data} !! {response.message.headers, response.message.data, response.statusText}
      modifies this`open, this`waits, this`got, response, response.message, response.message.headers,
                response.message.data
      modifies response.statusText
      ensures Valid() && Stored()
      ensures var fits := 8 + 2 + |verb| + |url| + |rb| <= response.lim.status
                && 16 + 5 + 2 * |rb| <= response.lim.status;
              if fits then
                var printed := PrintedRequest(response.lim.status, verb, url, rb, headers[..], data[..]);
                n <= |printed| && (Quiet() ==> got == old(got) + printed[..n]) && (ok ==> n == |printed|)
                && Begins(old(got), old(Early()))
              else !ok && got == old(got)
    {
      ok, n := false, 0;
      var limit := response.lim.status;
      if 8 + 2 + |verb| + |url| + |rb| > limit {
        return;
      }
      if 16 + 5 + 2 * |rb| > limit {
        return;
      }
      ok, n := SendRows(verb, url, headers, data);
    }

    /** The same, once both rows are known to fit. */
    method SendRows(verb: seq<byte>, url: seq<byte>, headers: array<byte>, data: array<byte>)
      returns (ok: bool, ghost n: nat)
      requires Valid() && response.phase == Waiting && headers.Length < 0x1_0000 && data.Length < 0x1_0000
      requires 8 + 2 + |verb| + |url| + |rb| <= response.lim.status
      requires {headers, data} !! {response.message.headers, response.message.data, response.statusText}
      modifies this`open, this`waits, this`got, response, response.message, response.message.headers,
                response.message.data
      modifies response.statusText
      ensures Valid() && Stored()
      ensures var printed := PrintedRequest(response.lim.status, verb, url, rb, headers[..], data[..]);
              n <= |printed| && (Quiet() ==> got == old(got) + printed[..n]) && (ok ==> n == |printed|)
      ensures Begins(old(got), old(Early()))
    {
      hide RequestRow, LengthRow, Cut, Before, Quiet;
      ghost var first, last := RequestRow(verb, url, rb), Cut(LengthRow(data.Length, rb) + rb, response.lim.status);
      ghost var parts, before := [first, headers[..], last, data[..]], got;
      PartsOfRequest(parts, before);
      ok, n := SendHead(verb, url, headers, parts, before);
      if ok {
        ok, n := SendTail(data, parts, before);
      }
    }

    /** The first row. */
    method SendFirst(verb: seq<byte>, url: seq<byte>, ghost parts: seq<seq<byte>>, ghost before: seq<byte>)
      returns (ok: bool, ghost n: nat)
      requires Valid() && response.phase == Waiting && 8 + 2 + |verb| + |url| + |rb| <= response.lim.status
      requires |parts| == 4 && parts[0] == RequestRow(verb, url, rb) && got == before
      modifies this`open, this`waits, this`got, response, response.message, response.message.headers,
                response.message.data
      modifies response.statusText
      ensures Valid() && Stored() && n <= |Before(parts, 4)| && (Quiet() ==> got == before + Before(parts, 4)[..n])
      ensures ok && Quiet() ==> got == before + Before(parts, 1)
      ensures Begins(old(got), old(Early()))
    {
      hide RequestRow, Before, Quiet, HttpResponse.StatusStored;
      PartsOfRequest(parts, before);
      RowLength(verb, url, rb);
      var length := PrintRequestRow(verb, url);
      assert length == |response.statusText[..length]| == |RequestRow(verb, url, rb)|;
      ok, n := SendPart(response.statusText, length, parts, 0, before);
    }

    /** The first row and the headers. */
    method SendHead(verb: seq<byte>, url: seq<byte>, headers: array<byte>, ghost parts: seq<seq<byte>>,
                    ghost before: seq<byte>)
      returns (ok: bool, ghost n: nat)
      requires Valid() && response.phase == Waiting && 8 + 2 + |verb| + |url| + |rb| <= response.lim.status
      requires headers !in {response.message.headers, response.message.data, response.statusText}
      requires |parts| == 4 && parts[0] == RequestRow(verb, url, rb) && parts[1] == headers[..] && got == before
      modifies this`open, this`waits, this`got, response, response.message, response.message.headers,
                response.message.data
      modifies response.statusText
      ensures Valid() && Stored() && n <= |Before(parts, 4)| && (Quiet() ==> got == before + Before(parts, 4)[..n])
      ensures ok && Quiet() ==> got == before + Before(parts, 2)
      ensures Begins(old(got), old(Early()))
    {
      hide RequestRow, Before, Quiet, Early, HttpResponse.Valid, HttpResponse.StatusStored;
      PartsOfRequest(parts, before);
      ok, n := SendFirst(verb, url, parts, before);
      if ok && headers.Length > 0 {
        assert headers[..headers.Length] == parts[1];
        ok, n := SendPart(headers, headers.Length, parts, 1, before);
      }
    }

    /** The last row and the data. */
    method SendTail(data: array<byte>, ghost parts: seq<seq<byte>>, ghost before: seq<byte>)
      returns (ok: bool, ghost n: nat)
      requires Valid() && Stored() && data.Length < 0x1_0000
      requires data !in {response.message.headers, response.message.data, response.statusText}
      requires |parts| == 4 && parts[2] == Cut(LengthRow(data.Length, rb) + rb, response.lim.status)
      requires parts[3] == data[..]
      requires Quiet() ==> got == before + Before(parts, 2)
      modifies this`open, this`waits, this`got, response, response.message, response.message.headers,
                response.message.data
      modifies response.statusText
      ensures Valid() && Stored() && n <= |Before(parts, 4)| && (Quiet() ==> got == before + Before(parts, 4)[..n])
      ensures ok ==> n == |Before(parts, 4)|
      ensures old(got) <= got
    {
      hide LengthRow, Cut, Before, Quiet, Early, HttpResponse.Valid, HttpResponse.StatusStored;
      PartsOfRequest(parts, before);
      var length := PrintLengthRow(data.Length);
      ok, n := SendPart(response.statusText, length, parts, 2, before);
      if !ok {
        return;
      }
      if data.Length > 0 {
        assert data[..data.Length] == parts[3];
        ok, n := SendPart(data, data.Length, parts, 3, before);
      } else {
        n := |Before(parts, 4)|;
      }
    }
  }

  /** A message of four parts, the second and last of which may be empty. */
  lemma PartsOfRequest(parts: seq<seq<byte>>, before: seq<byte>)
    requires |parts| == 4
    ensures Before(parts, 4) == parts[0] + parts[1] + parts[2] + parts[3] && before + Before(parts, 0) == before
    ensures parts[1] == [] ==> Before(parts, 2) == Before(parts, 1)
    ensures parts[3] == [] ==> Before(parts, 4) == Before(parts, 3)
    ensures before + Before(parts, 4)[..|Before(parts, 4)|] == before + Before(parts, 4)
  {
    assert Before(parts, 1) == parts[0];
    assert Before(parts, 2) == parts[0] + parts[1];
    assert Before(parts, 3) == parts[0] + parts[1] + parts[2];
  }

  lemma RowInPieces(verb: seq<byte>, url: seq<byte>, rb: seq<byte>)
    ensures RequestRow(verb, url, rb) == [] + verb + [SPACE] + url + [SPACE] + (HTTP_VERSION + rb)
  {
  }

  lemma RowLength(verb: seq<byte>, url: seq<byte>, rb: seq<byte>)
    ensures |RequestRow(verb, url, rb)| == 8 + 2 + |verb| + |url| + |rb|
  {
  }

  lemma VersionLength()
    ensures |HTTP_VERSION| == 8
  {
  }

  /** `k` bytes of part `i`, which lies at the start of a buffer. */
  lemma ArrivedAll(before: seq<byte>, parts: seq<seq<byte>>, i: nat, memory: seq<byte>, length: nat, k: nat)
    returns (n: nat)
    requires i < |parts| && k <= length <= |memory| && memory[..length] == parts[i]
    ensures n == |Before(parts, i)| + k <= |Before(parts, |parts|)|
    ensures before + Before(parts, i) + memory[..k] == before + Before(parts, |parts|)[..n]
    ensures k == length ==> before + Before(parts, i) + memory[..k] == before + Before(parts, i + 1)
    ensures k == length && i + 1 == |parts| ==> n == |Before(parts, |parts|)|
  {
    ArrivedPart(parts, i, k, |parts|);
    n := |Before(parts, i)| + k;
    assert memory[..k] == parts[i][..k];
    assert before + Before(parts, i) + memory[..k] == before + (Before(parts, i) + memory[..k]);
    assert Before(parts, i + 1) == Before(parts, i) + parts[i];
  }

  lemma TakeMore(before: seq<byte>, text: seq<byte>, now: seq<byte>, offset: nat, part: nat)
    requires offset + part <= |text| == |now|
    ensures now == text ==> before + text[..offset] + now[offset..offset + part] == before + text[..offset + part]
  {
    assert text[..offset] + text[offset..offset + part] == text[..offset + part];
  }

  /** Once a chunk of an answer has been written into the status buffer, it stays written. */
  lemma TouchedByChunk(lim: Limits, s: Response, chunk: seq<byte>)
    ensures !Untouched(s) ==> !Untouched(HttpSpec.ParseResponse(lim, s, chunk).state)
  {
    if BeforeEnd(s.phase) && !Untouched(s) {
      TouchedByScan(lim, s, chunk);
    }
  }

  lemma {:induction false} TouchedByScan(lim: Limits, s: Response, data: seq<byte>)
    requires BeforeEnd(s.phase) && !Untouched(s)
    ensures !Untouched(ScanResponse(lim, s, data).state)
    decreases |data|
  {
    if data != [] {
      TouchedStays(lim, s, data[0]);
      ResponseStepPhase(lim, s, data[0]);
      var p := ResponseStep(lim, s, data[0]);
      if p.ok && p.state.phase != EndHeader {
        TouchedByScan(lim, p.state, data[1..]);
      }
    }
  }

  // ----- an answer that comes while the request goes out ---------------------------------------------

  /** What follows the first space of an answer. */
  function BehindVersion(chunk: seq<byte>): seq<byte>
  {
    if chunk == [] then [] else if chunk[0] == SPACE then chunk[1..] else BehindVersion(chunk[1..])
  }

  /** The first chunk of an answer is written into the status buffer, where the request is being sent from, if
      and only if it reaches a byte of the status code. */
  lemma AnswerTouchesIff(lim: Limits, s: Response, chunk: seq<byte>)
    requires lim.Valid() && (s.phase == Waiting || s.phase == Version)
    ensures !Untouched(HttpSpec.ParseResponse(lim, s, chunk).state)
            <==> BehindVersion(chunk) != [] && BehindVersion(chunk)[0] != SPACE
  {
    ScanTouchesIff(lim, s, chunk);
  }

  lemma {:induction false} ScanTouchesIff(lim: Limits, s: Response, chunk: seq<byte>)
    requires lim.Valid() && (s.phase == Waiting || s.phase == Version)
    ensures !Untouched(ScanResponse(lim, s, chunk).state) <==>
              BehindVersion(chunk) != [] && BehindVersion(chunk)[0] != SPACE
    ensures ScanResponse(lim, s, chunk).state.phase == EndHeader ==> !Untouched(ScanResponse(lim, s, chunk).state)
    decreases |chunk|
  {
    if chunk != [] {
      var p := ResponseStep(lim, s, chunk[0]);
      if chunk[0] != SPACE {
        ScanTouchesIff(lim, p.state, chunk[1..]);
      } else if chunk[1..] != [] && chunk[1] != SPACE {
        var q := ResponseStep(lim, p.state, chunk[1]);
        assert chunk[1..][1..] == chunk[2..];
        TouchedByScan(lim, q.state, chunk[2..]);
      }
    }
  }

  lemma EarlyAnswer(lim: Limits, v: Response, chunk: seq<byte>)
    requires lim.Valid() && v.phase == Waiting && |chunk| == 10 && chunk[..9] == HTTP_VERSION + [SPACE]
    requires chunk[9] != SPACE
    ensures ResponseRoom(lim, v, chunk)
    ensures var p := HttpSpec.ParseResponse(lim, v, chunk); p.ok && p.state.phase == Code && p.state.text == [chunk[9]]
  {
    assert chunk == HTTP_VERSION + [SPACE] + [chunk[9]];
    EarlyRefusalOverwritesRow(lim, v, chunk[9], [(chunk[9] as int + 1) % 0x100]);
  }

  /** A refusal of this library, sent before it has read the whole request, changes the row that the client
      still sends: its first byte becomes the first digit of the status. */
  lemma EarlyRefusalOverwritesRow(lim: Limits, s: Response, digit: byte, row: seq<byte>)
    requires lim.Valid() && Fresh(s) && digit != SPACE && row != [] && row[0] != digit
    ensures var p := HttpSpec.ParseResponse(lim, s, HTTP_VERSION + [SPACE] + [digit]);
            p.ok && p.state.phase == Code && p.state.text == [digit] && Patch(row, 0, p.state.text) != row
  {
    var t := s.(phase := Code, code := 0, text := []);
    var u := t.(code := 1, text := [digit]);
    VersionHasNoSpaces();
    RunVersion(lim, s, HTTP_VERSION);
    assert [] + [digit] == [digit];
    RunsOne(lim, t, digit, u);
    RunsTogether(lim, s, HTTP_VERSION + [SPACE], t, [digit], u);
    assert Patch(row, 0, [digit])[0] == digit;
  }
}
