/**
 What the printers of `src/http.c` send, and that the parsers read it back: RFC 1945, sections 5 and 6.
 */
module HttpRoundTrip {
  import opened Util
  import opened HttpSpec
  import opened HttpChunks

  // ----- what is sent ------------------------------------------------------------------------

  /** The values HTTP_HEADER_ROW_BREAK may have. */
  predicate IsRowBreak(rb: seq<byte>) { rb == [CR, LF] || rb == [LF] || rb == [CR] }

  /** The caller's header rows, each with its break. */
  function RowText(rows: seq<seq<byte>>, rb: seq<byte>): seq<byte>
  {
    if rows == [] then [] else RowText(rows[..|rows| - 1], rb) + (rows[|rows| - 1] + rb)
  }

  function LengthRow(n: nat, rb: seq<byte>): seq<byte> { CONTENT_LENGTH + [COLON, SPACE] + Digits(n) + rb }

  function StoredRows(rows: seq<seq<byte>>, n: nat, rb: seq<byte>): seq<byte> { RowText(rows, rb) + LengthRow(n, rb) }

  /** The first row of a response, as `HttpSendResponseHeader` prints it. */
  function StatusRow(code: nat, message: seq<byte>, rb: seq<byte>): seq<byte>
  {
    HTTP_VERSION + [SPACE] + Digits(code) + [SPACE] + message + rb
  }

  /** The first row of a request, as `HttpSendRequest` prints it. */
  function RequestRow(verb: seq<byte>, url: seq<byte>, rb: seq<byte>): seq<byte>
  {
    verb + [SPACE] + url + [SPACE] + HTTP_VERSION + rb
  }

  function ResponseBytes(code: nat, message: seq<byte>, rb: seq<byte>, rows: seq<seq<byte>>, body: seq<byte>): seq<byte>
  {
    StatusRow(code, message, rb) + StoredRows(rows, |body|, rb) + rb + body
  }

  function RequestBytes(verb: seq<byte>, url: seq<byte>, rb: seq<byte>, rows: seq<seq<byte>>,
                        body: seq<byte>): seq<byte>
  {
    RequestRow(verb, url, rb) + StoredRows(rows, |body|, rb) + rb + body
  }

  predicate NoBreaks(s: seq<byte>) { forall k | 0 <= k < |s| :: !IsBreak(s[k]) }

  predicate NoSpaces(s: seq<byte>) { forall k | 0 <= k < |s| :: s[k] != SPACE }

  predicate NoNul(s: seq<byte>) { forall k | 0 <= k < |s| :: s[k] != 0 }

  /** The rows a caller may pass: not empty, no break or NUL inside, and no "Content-Length" before the
      row the library adds; all of them fit. */
  predicate GoodRows(lim: Limits, rows: seq<seq<byte>>, n: nat, rb: seq<byte>)
  {
    (forall k | 0 <= k < |rows| :: rows[k] != [] && NoBreaks(rows[k]) && NoNul(rows[k]))
    && |StoredRows(rows, n, rb)| <= lim.rows
    && forall j | 0 <= j < |RowText(rows, rb)| :: !OccursAt(StoredRows(rows, n, rb), CONTENT_LENGTH, j)
  }

  // ----- the header rows ---------------------------------------------------------------------

  /** The state after a row break. */
  function AfterBreak(rb: seq<byte>): Phase
  {
    if rb == [CR, LF] then WinEnd else if rb == [LF] then LinuxEnd else MacEnd
  }

  datatype Ran = Ran(phase: Phase, headers: seq<byte>)

  /** The sub-machine over bytes that do not end the header. */
  function RunRows(limit: nat, phase: Phase, headers: seq<byte>, data: seq<byte>): Option<Ran>
    decreases |data|
  {
    if !InRows(phase) then None
    else if data == [] then Some(Ran(phase, headers))
    else
      var r := RowStep(limit, phase, headers, data[0]);
      if r.ok then RunRows(limit, r.phase, r.headers, data[1..]) else None
  }

  lemma {:induction false} RunRowsAppend(limit: nat, phase: Phase, headers: seq<byte>, a: seq<byte>, b: seq<byte>)
    requires RunRows(limit, phase, headers, a).Some?
    ensures var m := RunRows(limit, phase, headers, a).value;
            RunRows(limit, phase, headers, a + b) == RunRows(limit, m.phase, m.headers, b)
    decreases |a|
  {
    if a == [] {
      assert a + b == b;
    } else {
      assert (a + b)[0] == a[0] && (a + b)[1..] == a[1..] + b;
      var r := RowStep(limit, phase, headers, a[0]);
      RunRowsAppend(limit, r.phase, r.headers, a[1..], b);
    }
  }

  /** The text of a row is stored byte for byte. */
  lemma {:induction false} RunRowText(limit: nat, phase: Phase, headers: seq<byte>, text: seq<byte>)
    requires InRows(phase) && text != [] && NoBreaks(text) && |headers| + |text| <= limit
    ensures RunRows(limit, phase, headers, text) == Some(Ran(HeaderRow, headers + text))
    decreases |text|
  {
    var rest := text[1..];
    assert RowStep(limit, phase, headers, text[0]) == Rows(HeaderRow, headers + [text[0]], true);
    if rest == [] {
      assert text == [text[0]];
    } else {
      assert NoBreaks(rest);
      RunRowText(limit, HeaderRow, headers + [text[0]], rest);
      assert headers + [text[0]] + rest == headers + text;
    }
  }

  /** So is its break, whichever it is. */
  lemma RunBreak(limit: nat, headers: seq<byte>, rb: seq<byte>)
    requires IsRowBreak(rb) && headers != [] && |headers| + |rb| <= limit
    ensures RunRows(limit, HeaderRow, headers, rb) == Some(Ran(AfterBreak(rb), headers + rb))
  {
    if rb == [CR, LF] {
      RunOne(limit, HeaderRow, headers, CR);
      RunRowsAppend(limit, HeaderRow, headers, [CR], [LF]);
      RunOne(limit, MacEnd, headers + [CR], LF);
      assert [CR] + [LF] == rb && headers + [CR] + [LF] == headers + rb;
    } else {
      RunOne(limit, HeaderRow, headers, rb[0]);
      assert rb == [rb[0]];
    }
  }

  lemma RunOne(limit: nat, phase: Phase, headers: seq<byte>, ch: byte)
    requires InRows(phase) && InRows(RowStep(limit, phase, headers, ch).phase) && RowStep(limit, phase, headers, ch).ok
    ensures RunRows(limit, phase, headers, [ch])
            == Some(Ran(RowStep(limit, phase, headers, ch).phase, RowStep(limit, phase, headers, ch).headers))
  {
    assert [ch][1..] == [];
  }

  lemma RunRow(limit: nat, headers: seq<byte>, row: seq<byte>, rb: seq<byte>)
    requires IsRowBreak(rb) && row != [] && NoBreaks(row) && |headers| + |row| + |rb| <= limit
    ensures RunRows(limit, AfterBreak(rb), headers, row + rb) == Some(Ran(AfterBreak(rb), headers + (row + rb)))
  {
    RunRowText(limit, AfterBreak(rb), headers, row);
    RunRowsAppend(limit, AfterBreak(rb), headers, row, rb);
    RunBreak(limit, headers + row, rb);
    assert headers + row + rb == headers + (row + rb);
  }

  /** All rows are stored with their raw breaks, and the end of the header is not seen among them. */
  lemma {:induction false} RunAllRows(limit: nat, rows: seq<seq<byte>>, rb: seq<byte>)
    requires IsRowBreak(rb) && |RowText(rows, rb)| <= limit
    requires forall k | 0 <= k < |rows| :: rows[k] != [] && NoBreaks(rows[k])
    ensures RunRows(limit, AfterBreak(rb), [], RowText(rows, rb)) == Some(Ran(AfterBreak(rb), RowText(rows, rb)))
    decreases |rows|
  {
    if rows != [] {
      var init, last := rows[..|rows| - 1], rows[|rows| - 1];
      RunAllRows(limit, init, rb);
      RunRowsAppend(limit, AfterBreak(rb), [], RowText(init, rb), last + rb);
      RunRow(limit, RowText(init, rb), last, rb);
    }
  }

  lemma DigitsAreText(n: nat)
    ensures NoBreaks(Digits(n)) && NoSpaces(Digits(n)) && NoNul(Digits(n))
  {
  }

  function LengthText(n: nat): seq<byte> { CONTENT_LENGTH + [COLON, SPACE] + Digits(n) }

  lemma LengthTextIsText(n: nat)
    ensures LengthText(n) != [] && NoBreaks(LengthText(n)) && NoNul(LengthText(n))
  {
    DigitsAreText(n);
    assert NoBreaks(CONTENT_LENGTH) && NoNul(CONTENT_LENGTH);
  }

  lemma RunStoredRows(lim: Limits, rows: seq<seq<byte>>, n: nat, rb: seq<byte>)
    requires IsRowBreak(rb) && GoodRows(lim, rows, n, rb)
    ensures RunRows(lim.rows, AfterBreak(rb), [], StoredRows(rows, n, rb))
              == Some(Ran(AfterBreak(rb), StoredRows(rows, n, rb)))
  {
    RunAllRows(lim.rows, rows, rb);
    LengthTextIsText(n);
    RunRowsAppend(lim.rows, AfterBreak(rb), [], RowText(rows, rb), LengthRow(n, rb));
    RunRow(lim.rows, RowText(rows, rb), LengthText(n), rb);
  }

  // ----- the Content-Length row --------------------------------------------------------------

  lemma {:induction false} CStringWhole(s: seq<byte>)
    requires NoNul(s)
    ensures CString(s) == s
  {
    if s != [] {
      CStringWhole(s[1..]);
    }
  }

  lemma {:induction false} RowTextNoNul(rows: seq<seq<byte>>, rb: seq<byte>)
    requires IsRowBreak(rb) && forall k | 0 <= k < |rows| :: NoNul(rows[k])
    ensures NoNul(RowText(rows, rb))
    decreases |rows|
  {
    if rows != [] {
      RowTextNoNul(rows[..|rows| - 1], rb);
    }
  }

  lemma {:induction false} UpToBreakOf(s: seq<byte>, rb: seq<byte>)
    requires NoBreaks(s) && IsRowBreak(rb)
    ensures UpToBreak(s + rb) == s
  {
    if s == [] {
      assert s + rb == rb;
    } else {
      assert (s + rb)[1..] == s[1..] + rb;
      UpToBreakOf(s[1..], rb);
    }
  }

  /** The value found is the printed length. */
  lemma LengthRowFound(lim: Limits, rows: seq<seq<byte>>, n: nat, rb: seq<byte>)
    requires IsRowBreak(rb) && GoodRows(lim, rows, n, rb)
    ensures HeaderValue(StoredRows(rows, n, rb), CONTENT_LENGTH) == Some(Digits(n))
  {
    hide Digits, CString, OccursAt, HeaderValue, RowText, NoNul, NoBreaks, CONTENT_LENGTH;
    var h, r := StoredRows(rows, n, rb), RowText(rows, rb);
    DigitsAreText(n);
    StoredRowsNoNul(rows, n, rb);
    CStringWhole(h);
    ContentLengthNonempty();
    assert h == r + (CONTENT_LENGTH + ([COLON, SPACE] + (Digits(n) + rb)));
    ValueOfRow(r, CONTENT_LENGTH, Digits(n), rb);
  }

  lemma ContentLengthNonempty()
    ensures CONTENT_LENGTH != []
  {
    assert |CONTENT_LENGTH| == 14;
  }

  lemma StoredRowsNoNul(rows: seq<seq<byte>>, n: nat, rb: seq<byte>)
    requires IsRowBreak(rb) && forall k | 0 <= k < |rows| :: NoNul(rows[k])
    ensures NoNul(StoredRows(rows, n, rb))
  {
    RowTextNoNul(rows, rb);
    LengthTextIsText(n);
  }

  /** The value of the first row with a name, printed behind a colon and a space. */
  lemma ValueOfRow(r: seq<byte>, name: seq<byte>, value: seq<byte>, rb: seq<byte>)
    requires IsRowBreak(rb) && NoBreaks(value) && name != []
    requires var h := r + (name + ([COLON, SPACE] + (value + rb)));
             CString(h) == h && forall j | 0 <= j < |r| :: !OccursAt(h, name, j)
    ensures HeaderValue(r + (name + ([COLON, SPACE] + (value + rb))), name) == Some(value)
  {
    hide OccursAt, CString, FirstIndex, UpToBreak, NoBreaks, IsBreak;
    var tail := [COLON, SPACE] + (value + rb);
    var h := r + (name + tail);
    OccursHere(r, name, tail);
    FirstIndexIs(h, name, |r|);
    UpToBreakOf(value, rb);
    assert tail[2..] == value + rb && tail[0] == COLON && tail[1] == SPACE && |tail| >= 2;
    assert h[|r| + |name|..] == tail && |r| + |name| <= |h|;
  }

  lemma OccursHere(r: seq<byte>, name: seq<byte>, tail: seq<byte>)
    ensures OccursAt(r + (name + tail), name, |r|) && (r + (name + tail))[|r| + |name|..] == tail
  {
    assert (r + (name + tail))[|r|..|r| + |name|] == name;
  }

  lemma FirstIndexIs(text: seq<byte>, name: seq<byte>, k: nat)
    requires k < |text| && OccursAt(text, name, k) && forall j | 0 <= j < k :: !OccursAt(text, name, j)
    ensures FirstIndex(text, name, 0) == k
  {
    hide OccursAt;
  }

  lemma DigitsParse(n: nat)
    requires n < 0x1_0000_0000
    ensures ParsedLong(Digits(n)) == Some(n)
  {
  }

  // ----- responses ---------------------------------------------------------------------------

  /** The parser takes all of `a` without ending the header and is then in `s'`. */
  predicate Runs(lim: Limits, s: Response, a: seq<byte>, s': Response)
  {
    BeforeEnd(s.phase) && BeforeEnd(s'.phase) && ScanResponse(lim, s, a) == Scan(s', true, [])
  }

  lemma RunsThen(lim: Limits, s: Response, a: seq<byte>, s': Response, b: seq<byte>)
    requires Runs(lim, s, a, s')
    ensures ScanResponse(lim, s, a + b) == ScanResponse(lim, s', b)
  {
    ScanResponseAppend(lim, s, a, b);
  }

  lemma RunsOne(lim: Limits, s: Response, ch: byte, s': Response)
    requires BeforeEnd(s.phase) && BeforeEnd(s'.phase) && ResponseStep(lim, s, ch) == Parsed(s', true)
    ensures Runs(lim, s, [ch], s')
  {
    assert [ch][1..] == [];
  }

  lemma {:induction false} RunVersion(lim: Limits, s: Response, word: seq<byte>)
    requires (s.phase == Waiting || s.phase == Version) && NoSpaces(word)
    ensures Runs(lim, s, word + [SPACE], s.(phase := Code, code := 0, text := []))
    decreases |word|
  {
    if word == [] {
      assert word + [SPACE] == [SPACE];
      RunsOne(lim, s, SPACE, s.(phase := Code, code := 0, text := []));
    } else {
      assert (word + [SPACE])[1..] == word[1..] + [SPACE];
      RunVersion(lim, s.(phase := Version, text := []), word[1..]);
    }
  }

  lemma {:induction false} RunCode(lim: Limits, s: Response, digits: seq<byte>)
    requires s.phase == Code && s.code == |s.text| && NoSpaces(digits) && |s.text| + |digits| <= lim.status
    ensures Runs(lim, s, digits, s.(text := s.text + digits, code := |s.text| + |digits|))
    decreases |digits|
  {
    if digits == [] {
      assert s.text + digits == s.text;
    } else {
      var s' := s.(text := s.text + [digits[0]], code := |s.text| + 1);
      RunCode(lim, s', digits[1..]);
      assert s.text + [digits[0]] + digits[1..] == s.text + digits;
    }
  }

  lemma {:induction false} RunMessage(lim: Limits, s: Response, message: seq<byte>)
    requires s.phase == StatusMessage && NoBreaks(message) && |s.text| + |message| <= lim.status
    ensures Runs(lim, s, message, s.(text := s.text + message))
    decreases |message|
  {
    if message == [] {
      assert s.text + message == s.text;
    } else {
      RunMessage(lim, s.(text := s.text + [message[0]]), message[1..]);
      assert s.text + [message[0]] + message[1..] == s.text + message;
    }
  }

  /** The break of the first row stores nothing. */
  lemma RunFirstBreak(lim: Limits, s: Response, rb: seq<byte>)
    requires s.phase == StatusMessage && IsRowBreak(rb) && |s.text| < lim.status
    ensures Runs(lim, s, rb, s.(phase := AfterBreak(rb), headers := []))
  {
    if rb == [CR, LF] {
      var s' := s.(phase := MacEnd, headers := []);
      RunsOne(lim, s, CR, s');
      RunsOne(lim, s', LF, s'.(phase := WinEnd));
      RunsTogether(lim, s, [CR], s', [LF], s'.(phase := WinEnd));
      assert [CR] + [LF] == rb;
    } else {
      RunsOne(lim, s, rb[0], s.(phase := AfterBreak(rb), headers := []));
      assert rb == [rb[0]];
    }
  }

  lemma {:induction false} RowsInResponse(lim: Limits, s: Response, data: seq<byte>)
    requires InRows(s.phase) && RunRows(lim.rows, s.phase, s.headers, data).Some?
    ensures var m := RunRows(lim.rows, s.phase, s.headers, data).value;
            Runs(lim, s, data, s.(phase := m.phase, headers := m.headers))
    decreases |data|
  {
    if data != [] {
      var r := RowStep(lim.rows, s.phase, s.headers, data[0]);
      RowsInResponse(lim, s.(phase := r.phase, headers := r.headers), data[1..]);
    }
  }

  /** The blank line ends the header. */
  lemma BlankLineInResponse(lim: Limits, s: Response, rb: seq<byte>, body: seq<byte>)
    requires IsRowBreak(rb) && s.phase == AfterBreak(rb)
    ensures ScanResponse(lim, s, rb + body) == Scan(s.(phase := EndHeader, data := []), true, body)
  {
    if rb == [CR, LF] {
      assert (rb + body)[1..] == [LF] + body && ([LF] + body)[1..] == body;
    } else {
      assert (rb + body)[1..] == body;
    }
  }

  predicate GoodResponse(lim: Limits, code: u16, message: seq<byte>, rb: seq<byte>, rows: seq<seq<byte>>,
                         body: seq<byte>)
  {
    IsRowBreak(rb) && NoBreaks(message) && |message| < lim.status && 5 < lim.status && |body| <= lim.data
    && GoodRows(lim, rows, |body|, rb)
  }

  /** The first row of a response brings the parser to the header rows with code and message read. */
  lemma RunStatusRow(lim: Limits, s: Response, code: u16, message: seq<byte>, rb: seq<byte>)
    requires Fresh(s) && IsRowBreak(rb) && NoBreaks(message) && |message| < lim.status && 5 < lim.status
    ensures Runs(lim, s, StatusRow(code, message, rb),
                 s.(phase := AfterBreak(rb), code := code, text := message, headers := []))
  {
    hide Runs, Digits, NoBreaks, ParsedLong, HTTP_VERSION;
    DigitsLength(code);
    DigitsAreText(code);
    DigitsParse(code);
    var s1 := s.(phase := Code, code := 0, text := []);
    VersionHasNoSpaces();
    RunVersion(lim, s, HTTP_VERSION);
    RunCodeAndMessage(lim, s1, Digits(code), code, message, rb);
    var s2 := s1.(phase := AfterBreak(rb), code := code, text := message, headers := []);
    RunsTogether(lim, s, HTTP_VERSION + [SPACE], s1, Digits(code) + [SPACE] + message + rb, s2);
    assert StatusRow(code, message, rb) == HTTP_VERSION + [SPACE] + (Digits(code) + [SPACE] + message + rb);
  }

  lemma VersionHasNoSpaces()
    ensures NoSpaces(HTTP_VERSION) && NoBreaks(HTTP_VERSION)
  {
  }

  lemma RunCodeAndMessage(lim: Limits, s1: Response, digits: seq<byte>, code: u16, message: seq<byte>, rb: seq<byte>)
    requires s1.phase == Code && s1.code == 0 && s1.text == [] && NoSpaces(digits) && |digits| < lim.status
    requires ParsedLong(digits) == Some(code) && IsRowBreak(rb) && NoBreaks(message) && |message| < lim.status
    ensures Runs(lim, s1, digits + [SPACE] + message + rb,
                 s1.(phase := AfterBreak(rb), code := code, text := message, headers := []))
  {
    hide ScanResponse, ParsedLong;
    var s2 := s1.(text := digits, code := |digits|);
    var s3 := s2.(phase := StatusMessage, code := code, text := [], headers := []);
    var s4 := s3.(text := message);
    var s5 := s4.(phase := AfterBreak(rb), headers := []);
    assert [] + digits == digits && [] + message == message;
    RunCode(lim, s1, digits);
    RunsOne(lim, s2, SPACE, s3);
    RunsTogether(lim, s1, digits, s2, [SPACE], s3);
    RunMessage(lim, s3, message);
    RunsTogether(lim, s1, digits + [SPACE], s3, message, s4);
    RunFirstBreak(lim, s4, rb);
    RunsTogether(lim, s1, digits + [SPACE] + message, s4, rb, s5);
  }

  lemma RunsTogether(lim: Limits, s: Response, a: seq<byte>, s': Response, b: seq<byte>, s'': Response)
    requires Runs(lim, s, a, s') && Runs(lim, s', b, s'')
    ensures Runs(lim, s, a + b, s'')
  {
    RunsThen(lim, s, a, s', b);
  }

  /** Fed at once, the bytes of a response end its header with everything stored and the body left. */
  lemma ScanOfResponse(lim: Limits, s: Response, code: u16, message: seq<byte>, rb: seq<byte>, rows: seq<seq<byte>>,
                       body: seq<byte>)
    requires Fresh(s) && GoodResponse(lim, code, message, rb, rows, body)
    ensures ScanResponse(lim, s, ResponseBytes(code, message, rb, rows, body))
            == Scan(Response(EndHeader, code, message, StoredRows(rows, |body|, rb), []), true, body)
  {
    hide StatusRow, StoredRows, GoodRows, RunRows, ScanResponse, ResponseBytes;
    var first, stored := StatusRow(code, message, rb), StoredRows(rows, |body|, rb);
    var s1 := s.(phase := AfterBreak(rb), code := code, text := message, headers := []);
    var s2 := s1.(headers := stored);
    RunStatusRow(lim, s, code, message, rb);
    RunStoredRows(lim, rows, |body|, rb);
    RowsInResponse(lim, s1, stored);
    RunsTogether(lim, s, first, s1, stored, s2);
    RunsThen(lim, s, first + stored, s2, rb + body);
    BlankLineInResponse(lim, s2, rb, body);
    ResponseBytesSplit(code, message, rb, rows, body);
  }

  lemma ResponseBytesSplit(code: nat, message: seq<byte>, rb: seq<byte>, rows: seq<seq<byte>>, body: seq<byte>)
    ensures ResponseBytes(code, message, rb, rows, body)
            == StatusRow(code, message, rb) + StoredRows(rows, |body|, rb) + (rb + body)
  {
    hide StatusRow, StoredRows;
  }

  /** Response round trip: whatever chunks the bytes of `HttpSendResponse` arrive in, the parser ends in
      END_MESSAGE with the same code, message, rows and body. */
  lemma ResponseRoundTrip(lim: Limits, s: Response, code: u16, message: seq<byte>, rb: seq<byte>, rows: seq<seq<byte>>,
                          body: seq<byte>, chunks: seq<seq<byte>>)
    requires lim.Valid() && Fresh(s) && GoodResponse(lim, code, message, rb, rows, body)
    requires Concat(chunks) == ResponseBytes(code, message, rb, rows, body)
    ensures FeedResponse(lim, s, chunks)
            == Parsed(Response(EndMessage, code, message, StoredRows(rows, |body|, rb), body), true)
  {
    ScanOfResponse(lim, s, code, message, rb, rows, body);
    LengthRowFound(lim, rows, |body|, rb);
    DigitsParse(|body|);
    assert [] + body == body;
    ResponseChunkingInvariant(lim, s, chunks);
  }

  // ----- requests ----------------------------------------------------------------------------

  predicate Takes(lim: Limits, s: Request, a: seq<byte>, s': Request)
  {
    BeforeEnd(s.phase) && BeforeEnd(s'.phase) && ScanRequest(lim, s, a) == RequestScan(Taken(s'), [])
  }

  lemma TakesThen(lim: Limits, s: Request, a: seq<byte>, s': Request, b: seq<byte>)
    requires Takes(lim, s, a, s')
    ensures ScanRequest(lim, s, a + b) == ScanRequest(lim, s', b)
  {
    ScanRequestAppend(lim, s, a, b);
  }

  lemma TakesTogether(lim: Limits, s: Request, a: seq<byte>, s': Request, b: seq<byte>, s'': Request)
    requires Takes(lim, s, a, s') && Takes(lim, s', b, s'')
    ensures Takes(lim, s, a + b, s'')
  {
    TakesThen(lim, s, a, s', b);
  }

  predicate IsVerb(verb: seq<byte>)
  {
    |verb| <= MAX_METHOD_LENGTH && forall k | 0 <= k < |verb| :: 'A' as int <= verb[k] <= 'Z' as int
  }

  lemma {:induction false} TakeVerb(lim: Limits, s: Request, verb: seq<byte>)
    requires s.phase == Method && IsVerb(verb) && |s.verb| + |verb| <= MAX_METHOD_LENGTH
    ensures Takes(lim, s, verb + [SPACE], s.(phase := Url, verb := s.verb + verb, url := []))
    decreases |verb|
  {
    if verb == [] {
      assert verb + [SPACE] == [SPACE] && [SPACE][1..] == [] && s.verb + verb == s.verb;
    } else {
      assert (verb + [SPACE])[1..] == verb[1..] + [SPACE];
      TakeVerb(lim, s.(verb := s.verb + [verb[0]]), verb[1..]);
      assert s.verb + [verb[0]] + verb[1..] == s.verb + verb;
    }
  }

  lemma {:induction false} TakeUrl(lim: Limits, s: Request, url: seq<byte>)
    requires s.phase == Url && NoSpaces(url) && |s.url| + |url| <= lim.url
    ensures Takes(lim, s, url + [SPACE], s.(phase := Version, url := s.url + url))
    decreases |url|
  {
    if url == [] {
      assert url + [SPACE] == [SPACE] && [SPACE][1..] == [] && s.url + url == s.url;
    } else {
      assert (url + [SPACE])[1..] == url[1..] + [SPACE];
      TakeUrl(lim, s.(url := s.url + [url[0]]), url[1..]);
      assert s.url + [url[0]] + url[1..] == s.url + url;
    }
  }

  lemma {:induction false} TakeVersion(lim: Limits, s: Request, word: seq<byte>)
    requires s.phase == Version && NoBreaks(word)
    ensures Takes(lim, s, word, s)
    decreases |word|
  {
    if word != [] {
      TakeVersion(lim, s, word[1..]);
    }
  }

  lemma TakeFirstBreak(lim: Limits, s: Request, rb: seq<byte>)
    requires s.phase == Version && IsRowBreak(rb)
    ensures Takes(lim, s, rb, s.(phase := AfterBreak(rb), headers := []))
  {
    if rb == [CR, LF] {
      var s' := s.(phase := MacEnd, headers := []);
      TakesOne(lim, s, CR, s');
      TakesOne(lim, s', LF, s'.(phase := WinEnd));
      TakesTogether(lim, s, [CR], s', [LF], s'.(phase := WinEnd));
      assert [CR] + [LF] == rb;
    } else {
      TakesOne(lim, s, rb[0], s.(phase := AfterBreak(rb), headers := []));
      assert rb == [rb[0]];
    }
  }

  lemma TakesOne(lim: Limits, s: Request, ch: byte, s': Request)
    requires BeforeEnd(s.phase) && BeforeEnd(s'.phase) && RequestStep(lim, s, ch) == Taken(s')
    ensures Takes(lim, s, [ch], s')
  {
    assert [ch][1..] == [];
  }

  lemma {:induction false} RowsInRequest(lim: Limits, s: Request, data: seq<byte>)
    requires InRows(s.phase) && RunRows(lim.rows, s.phase, s.headers, data).Some?
    ensures var m := RunRows(lim.rows, s.phase, s.headers, data).value;
            Takes(lim, s, data, s.(phase := m.phase, headers := m.headers))
    decreases |data|
  {
    if data != [] {
      var r := RowStep(lim.rows, s.phase, s.headers, data[0]);
      RowsInRequest(lim, s.(phase := r.phase, headers := r.headers), data[1..]);
    }
  }

  lemma BlankLineInRequest(lim: Limits, s: Request, rb: seq<byte>, body: seq<byte>)
    requires IsRowBreak(rb) && s.phase == AfterBreak(rb)
    ensures ScanRequest(lim, s, rb + body) == RequestScan(Taken(s.(phase := EndHeader, data := [])), body)
  {
    if rb == [CR, LF] {
      assert (rb + body)[1..] == [LF] + body && ([LF] + body)[1..] == body;
    } else {
      assert (rb + body)[1..] == body;
    }
  }

  predicate GoodRequest(lim: Limits, verb: seq<byte>, url: seq<byte>, rb: seq<byte>, rows: seq<seq<byte>>,
                        body: seq<byte>)
  {
    IsRowBreak(rb) && IsVerb(verb) && NoSpaces(url) && |url| <= lim.url && |body| <= lim.data
    && (Bodyless(verb) ==> body == []) && GoodRows(lim, rows, |body|, rb)
  }

  lemma TakeRequestRow(lim: Limits, s: Request, verb: seq<byte>, url: seq<byte>, rb: seq<byte>)
    requires s.phase == StartRequest && IsVerb(verb) && NoSpaces(url) && |url| <= lim.url && IsRowBreak(rb)
    ensures Takes(lim, s, RequestRow(verb, url, rb),
                  s.(phase := AfterBreak(rb), verb := verb, url := url, headers := []))
  {
    hide Takes, NoSpaces, NoBreaks, HTTP_VERSION;
    VersionHasNoSpaces();
    var version := HTTP_VERSION;
    var s0 := s.(phase := Method, verb := [], url := []);
    var s1 := s0.(phase := Url, verb := verb, url := []);
    var s2 := s1.(phase := Version, url := url);
    var s3 := s2.(phase := AfterBreak(rb), headers := []);
    assert [] + verb == verb && [] + url == url;
    TakeVerb(lim, s0, verb);
    StartIsMethod(lim, s, verb + [SPACE], s1);
    TakeUrl(lim, s1, url);
    TakeVersion(lim, s2, version);
    TakeFirstBreak(lim, s2, rb);
    TakesTogether(lim, s, verb + [SPACE], s1, url + [SPACE], s2);
    TakesTogether(lim, s, verb + [SPACE] + (url + [SPACE]), s2, version, s2);
    TakesTogether(lim, s, verb + [SPACE] + (url + [SPACE]) + version, s2, rb, s3);
    assert RequestRow(verb, url, rb) == verb + [SPACE] + (url + [SPACE]) + version + rb;
  }

  /** START_REQUEST becomes METHOD with the first byte. */
  lemma StartIsMethod(lim: Limits, s: Request, data: seq<byte>, s': Request)
    requires s.phase == StartRequest && data != [] && Takes(lim, s.(phase := Method, verb := [], url := []), data, s')
    ensures Takes(lim, s, data, s')
  {
    assert RequestStep(lim, s, data[0]) == RequestStep(lim, s.(phase := Method, verb := [], url := []), data[0]);
  }

  lemma ScanOfRequest(lim: Limits, s: Request, verb: seq<byte>, url: seq<byte>, rb: seq<byte>, rows: seq<seq<byte>>,
                      body: seq<byte>)
    requires s.phase == StartRequest && GoodRequest(lim, verb, url, rb, rows, body)
    ensures ScanRequest(lim, s, RequestBytes(verb, url, rb, rows, body))
            == RequestScan(Taken(Request(EndHeader, verb, url, StoredRows(rows, |body|, rb), [])), body)
  {
    hide RequestRow, StoredRows, GoodRows, RunRows, ScanRequest, RequestBytes;
    var first, stored := RequestRow(verb, url, rb), StoredRows(rows, |body|, rb);
    var s1 := s.(phase := AfterBreak(rb), verb := verb, url := url, headers := []);
    var s2 := s1.(headers := stored);
    TakeRequestRow(lim, s, verb, url, rb);
    RunStoredRows(lim, rows, |body|, rb);
    RowsInRequest(lim, s1, stored);
    TakesTogether(lim, s, first, s1, stored, s2);
    TakesThen(lim, s, first + stored, s2, rb + body);
    BlankLineInRequest(lim, s2, rb, body);
    RequestBytesSplit(verb, url, rb, rows, body);
  }

  lemma RequestBytesSplit(verb: seq<byte>, url: seq<byte>, rb: seq<byte>, rows: seq<seq<byte>>, body: seq<byte>)
    ensures RequestBytes(verb, url, rb, rows, body)
            == RequestRow(verb, url, rb) + StoredRows(rows, |body|, rb) + (rb + body)
  {
    hide RequestRow, StoredRows;
  }

  /** Request round trip: whatever nonempty chunks the bytes of `HttpSendRequest` arrive in, the
      application is called once, by the last of them, with the same method, URL, rows and body. */
  lemma RequestRoundTrip(lim: Limits, s: Request, verb: seq<byte>, url: seq<byte>, rb: seq<byte>, rows: seq<seq<byte>>,
                         body: seq<byte>, chunks: seq<seq<byte>>)
    requires lim.Valid() && s.phase == StartRequest && GoodRequest(lim, verb, url, rb, rows, body)
    requires Concat(chunks) == RequestBytes(verb, url, rb, rows, body)
    requires forall k | 0 <= k < |chunks| :: chunks[k] != []
    ensures FeedRequest(lim, s, chunks)
            == Fed(Serve(Request(Handling, verb, url, StoredRows(rows, |body|, rb), body)), |chunks|)
  {
    ScanOfRequest(lim, s, verb, url, rb, rows, body);
    LengthRowFound(lim, rows, |body|, rb);
    DigitsParse(|body|);
    assert [] + body == body;
    RequestChunkingInvariant(lim, s, chunks);
    ServedByLastChunk(lim, s, chunks);
  }
}
