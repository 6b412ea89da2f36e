/**
 The printing side of `src/http.c`: rows are printed into a fixed buffer with `snprintf`, which cuts
 them.
 */
module HttpOutput {
  import opened Util
  import opened HttpSpec
  import opened HttpRoundTrip

  // ----- printing ----------------------------------------------------------------------------

  /** What `snprintf` with this limit leaves of a text. */
  function Cut(text: seq<byte>, limit: nat): seq<byte>
    requires 0 < limit
  {
    if |text| < limit then text else text[..limit - 1]
  }

  /** `snprintf` of a text without NUL. */
  method Print(buffer: array<byte>, limit: nat, text: seq<byte>)
    requires 0 < limit <= buffer.Length && NoNul(text)
    modifies buffer
    ensures CString(buffer[..]) == Cut(text, limit)
    ensures var kept := Cut(text, limit); |kept| < limit && buffer[..|kept|] == kept && buffer[|kept|] == 0
  {
    var kept := Cut(text, limit);
    Put(buffer, 0, kept);
    buffer[|kept|] := 0;
    StoredIsText(buffer[..], kept);
  }

  /** `CharsCat`. */
  method CharsCat(buffer: array<byte>, position: nat, chars: seq<byte>) returns (position': nat)
    requires position + |chars| <= buffer.Length
    modifies buffer
    ensures position' == position + |chars| && buffer[..position'] == old(buffer[..position]) + chars
  {
    Put(buffer, position, chars);
    position' := position + |chars|;
  }

  /** The parts of a message before part `i`. */
  function Before(parts: seq<seq<byte>>, i: nat): seq<byte>
    requires i <= |parts|
  {
    if i == 0 then [] else Before(parts, i - 1) + parts[i - 1]
  }

  /** How much of a message has arrived when `k` bytes of its part `i` have. */
  lemma {:induction false} ArrivedPart(parts: seq<seq<byte>>, i: nat, k: nat, m: nat)
    requires i < m <= |parts| && k <= |parts[i]|
    ensures |Before(parts, i)| + k <= |Before(parts, m)|
    ensures Before(parts, m)[..|Before(parts, i)| + k] == Before(parts, i) + parts[i][..k]
    decreases m
  {
    if m > i + 1 {
      ArrivedPart(parts, i, k, m - 1);
    }
  }

  /** What a response really looks like on the wire. */
  function PrintedResponse(limit: nat, code: u16, message: seq<byte>, rb: seq<byte>, headers: seq<byte>,
                           body: seq<byte>): seq<byte>
    requires 0 < limit
  {
    Cut(StatusRow(code, message, rb), limit) + headers + Cut(LengthRow(|body|, rb) + rb, limit) + body
  }

  function PrintedRequest(limit: nat, verb: seq<byte>, url: seq<byte>, rb: seq<byte>, headers: seq<byte>,
                          body: seq<byte>): seq<byte>
    requires 0 < limit
  {
    RequestRow(verb, url, rb) + headers + Cut(LengthRow(|body|, rb) + rb, limit) + body
  }

  /** The two length checks before anything is printed. */
  predicate RowsChecked(limit: nat, message: seq<byte>, rb: seq<byte>)
  {
    8 + 2 + 5 + |message| + |rb| <= limit && 16 + 5 + 2 * |rb| <= limit
  }

  /** Where the checks are one byte short: they leave no room for the terminating zero behind a
      five-digit number. */
  predicate RowsComplete(limit: nat, code: nat, message: seq<byte>, rb: seq<byte>, n: nat)
  {
    (code < 10000 || 15 + |message| + |rb| < limit) && (n < 10000 || 21 + 2 * |rb| < limit)
  }

  lemma StatusRowLength(code: u16, message: seq<byte>, rb: seq<byte>)
    ensures |StatusRow(code, message, rb)| == 10 + |Digits(code)| + |message| + |rb|
  {
    assert |HTTP_VERSION| == 8;
  }

  lemma LengthRowLength(n: nat, rb: seq<byte>)
    ensures |LengthRow(n, rb) + rb| == 16 + |Digits(n)| + 2 * |rb|
  {
    assert |CONTENT_LENGTH| == 14;
  }

  /** A response that passes the checks goes out as intended exactly when both rows are complete. */
  lemma ResponseIsCompleteIff(limit: nat, code: u16, message: seq<byte>, rb: seq<byte>, rows: seq<seq<byte>>,
                              body: seq<byte>)
    requires RowsChecked(limit, message, rb) && |body| < 0x1_0000
    ensures PrintedResponse(limit, code, message, rb, RowText(rows, rb), body)
              == ResponseBytes(code, message, rb, rows, body)
            <==> RowsComplete(limit, code, message, rb, |body|)
  {
    hide Digits, StatusRow, LengthRow, RowText;
    DigitsLength(code);
    DigitsLength(|body|);
    StatusRowLength(code, message, rb);
    LengthRowLength(|body|, rb);
    var first, last := StatusRow(code, message, rb), LengthRow(|body|, rb) + rb;
    assert ResponseBytes(code, message, rb, rows, body) == first + RowText(rows, rb) + last + body;
    if RowsComplete(limit, code, message, rb, |body|) {
      assert Cut(first, limit) == first && Cut(last, limit) == last;
    } else {
      assert |Cut(first, limit)| < |first| || |Cut(last, limit)| < |last|;
    }
  }

  lemma RequestIsCompleteIff(limit: nat, verb: seq<byte>, url: seq<byte>, rb: seq<byte>, rows: seq<seq<byte>>,
                             body: seq<byte>)
    requires 16 + 5 + 2 * |rb| <= limit && |body| < 0x1_0000
    ensures PrintedRequest(limit, verb, url, rb, RowText(rows, rb), body) == RequestBytes(verb, url, rb, rows, body)
            <==> |body| < 10000 || 21 + 2 * |rb| < limit
  {
    hide Digits, RequestRow, LengthRow, RowText;
    DigitsLength(|body|);
    LengthRowLength(|body|, rb);
    var first, last := RequestRow(verb, url, rb), LengthRow(|body|, rb) + rb;
    assert RequestBytes(verb, url, rb, rows, body) == first + RowText(rows, rb) + last + body;
    if |body| < 10000 || 21 + 2 * |rb| < limit {
      assert Cut(last, limit) == last;
    } else {
      assert |Cut(last, limit)| < |last|;
    }
  }

  lemma RowsNoNul(code: nat, message: seq<byte>, n: nat, rb: seq<byte>)
    requires NoNul(message) && IsRowBreak(rb)
    ensures NoNul(StatusRow(code, message, rb)) && NoNul(LengthRow(n, rb) + rb)
  {
    DigitsAreText(code);
    DigitsAreText(n);
    assert NoNul(CONTENT_LENGTH) && NoNul(HTTP_VERSION);
  }

  // ----- round trips of what is printed ------------------------------------------------------

  /** What `HttpSendResponse` puts on the wire is read back, in whatever chunks it arrives. */
  lemma PrintedResponseRoundTrip(limit: nat, lim: Limits, s: Response, code: u16, message: seq<byte>, rb: seq<byte>,
                                 rows: seq<seq<byte>>, body: seq<byte>, chunks: seq<seq<byte>>)
    requires lim.Valid() && Fresh(s) && GoodResponse(lim, code, message, rb, rows, body)
    requires RowsChecked(limit, message, rb) && RowsComplete(limit, code, message, rb, |body|)
    requires Concat(chunks) == PrintedResponse(limit, code, message, rb, RowText(rows, rb), body)
    ensures FeedResponse(lim, s, chunks)
              == Parsed(Response(EndMessage, code, message, StoredRows(rows, |body|, rb), body), true)
  {
    ResponseIsCompleteIff(limit, code, message, rb, rows, body);
    ResponseRoundTrip(lim, s, code, message, rb, rows, body, chunks);
  }

  /** What `HttpSendRequest` puts on the wire calls the application once, with what was asked. */
  lemma PrintedRequestRoundTrip(limit: nat, lim: Limits, s: Request, verb: seq<byte>, url: seq<byte>, rb: seq<byte>,
                                rows: seq<seq<byte>>, body: seq<byte>, chunks: seq<seq<byte>>)
    requires lim.Valid() && s.phase == StartRequest && GoodRequest(lim, verb, url, rb, rows, body)
    requires 16 + 5 + 2 * |rb| <= limit && (forall k | 0 <= k < |chunks| :: chunks[k] != [])
    requires Concat(chunks) == PrintedRequest(limit, verb, url, rb, RowText(rows, rb), body)
    ensures FeedRequest(lim, s, chunks)
              == Fed(Serve(Request(Handling, verb, url, StoredRows(rows, |body|, rb), body)), |chunks|)
  {
    RequestIsCompleteIff(limit, verb, url, rb, rows, body);
    RequestRoundTrip(lim, s, verb, url, rb, rows, body, chunks);
  }

  /** A refusal is an empty response: its status reaches the client. */
  lemma RefusalRoundTrip(limit: nat, lim: Limits, s: Response, code: u16, message: seq<byte>, rb: seq<byte>,
                         chunks: seq<seq<byte>>)
    requires lim.Valid() && Fresh(s) && IsRowBreak(rb) && NoBreaks(message) && |message| < lim.status && 5 < lim.status
    requires RowsChecked(limit, message, rb) && code < 10000 && |LengthRow(0, rb)| <= lim.rows
    requires Concat(chunks) == PrintedResponse(limit, code, message, rb, [], [])
    ensures FeedResponse(lim, s, chunks) == Parsed(Response(EndMessage, code, message, LengthRow(0, rb), []), true)
  {
    assert RowText([], rb) == [] && StoredRows([], 0, rb) == LengthRow(0, rb);
    PrintedResponseRoundTrip(limit, lim, s, code, message, rb, [], [], chunks);
  }
}
