/**
 Runs in which the other end is not sent what was printed: of the HTTP server, from an empty table, and of the
 client, from its connection on.
 */
module HttpWitness {
  import opened Util
  import opened HttpSpec
  import opened HttpRoundTrip
  import opened HttpOutput
  import opened HttpEngine
  import opened HttpOverlap
  import opened HttpServer
  import Requests = HttpClient

  const RB: seq<byte> := [CR, LF]
  const LIMITS: Limits := Limits(100, 100, 100, 100)
  const GET: seq<byte> := Bytes("GET")
  const ROOT: seq<byte> := Bytes("/")
  const OK: ValidStatus := Fine()

  function Fine(): ValidStatus
  {
    FineIsText();
    Status(200, Some(Bytes("OK")))
  }

  lemma FineIsText()
    ensures NoNul(Bytes("OK")) && |Bytes("OK")| == 2
  {
  }

  /** A request without a body. */
  function Asking(): seq<byte> { RequestBytes(GET, ROOT, RB, [], []) }

  lemma AskingIsServed(s: Request)
    requires s.phase == StartRequest
    ensures RequestRoom(LIMITS, s, Asking()) && ParseRequest(LIMITS, s, Asking()).Serve?
  {
    assert GET == ['G' as int, 'E' as int, 'T' as int];
    assert |CONTENT_LENGTH| == 14;
    DigitsLength(0);
    ScanOfRequest(LIMITS, s, GET, ROOT, RB, [], []);
  }

  /** The response, and its first row. */
  function Response(body: seq<byte>): seq<byte> { PrintedResponse(LIMITS.url, 200, OK.Text(), RB, [], body) }

  function FirstRow(): seq<byte> { Cut(StatusRow(200, OK.Text(), RB), LIMITS.url) }

  /** A server on port 80 with one slot; `chunk` is all that comes in any wait. */
  method Listening(chunk: seq<byte>, first: nat) returns (s: Server)
    ensures s.Valid() && fresh(s) && fresh(s.Repr()) && s.l == Initial(1)
    ensures s.OneMore() && s.Next() == DataFor(0, chunk) && s.rb == RB && s.httpPort == 80
    ensures s.request.lim == LIMITS && s.got == map[] && s.turns == 0 && s.closing == {}
    ensures s.arrivals(0) == first && s.Prompt(1)
  {
    var message := new HttpMessage(LIMITS);
    var request := new HttpRequest(message);
    request.phase := NoRequest;
    s := new Server(80, RB, request, 1, [[DataFor(0, chunk)]], _ => None, k => if k == 0 then first else 0x1_0000,
      _ => true);
  }

  /** A client connects. */
  method Connect(s: Server)
    requires s.Valid() && s.l == Initial(1) && s.httpPort == 80
    modifies s`l, s.request`phase
    ensures s.Valid() && s.l.phase == StartRequest && s.l.owner == Some(0)
    ensures s.l.slots == [Established(80)] && s.l.generation == [0]
  {
    hide Inv, Leads, Follows, UrlKept, HttpRequest.VerbStored;
    s.StepTable(SynFor(0, 80, Ok));
    assert s.l.slots == [HalfOpen(80)] && s.l.phase == StartRequest;
    s.StepTable(AckFor(0));
    assert s.l.slots == [Established(80)];
  }

  /** A client has asked, and its request is being handled; `chunk` comes while the response goes out. */
  method Asked(chunk: seq<byte>, first: nat) returns (s: Server)
    ensures s.Valid() && fresh(s) && fresh(s.Repr()) && s.l.phase == Handling && s.l.owner == Some(0)
    ensures s.l.slots == [Established(80)] && s.l.generation == [0] && s.OneMore() && s.Next() == DataFor(0, chunk)
    ensures s.rb == RB && s.request.lim == LIMITS && s.got == map[] && s.turns == 0
    ensures s.arrivals(0) == first && s.Prompt(1)
  {
    hide Inv, Leads, Follows, UrlKept, ParseRequest, RequestRoom, HttpRequest.VerbStored, Server.Prompt;
    s := Listening(chunk, first);
    Connect(s);
    AskingIsServed(s.request.V());
    var served, refused := s.Parse(0, Asking());
  }

  /** A line break behind the request comes after the first row has arrived: a second header goes out inside the
      response. */
  method LateBreakRun(body: seq<byte>) returns (got: seq<byte>)
    requires |body| < 0x1_0000
    ensures FirstRow() + PrintedRefusal(LIMITS, RB, 400) <= got && !(got <= Response(body))
  {
    var s := Asked([CR, LF], 0x1_0000);
    ghost var v := Restarted(s.request.V());
    hide ParseRequest, RequestRoom, PrintedResponse, Cut, StatusRow, Over, PrintedRefusal;
    LateBreakIsRefused(LIMITS, v);
    LateBreakFits(v);
    got := Respond(s, body);
    FirstRowFits();
    assert FirstRow()[..|FirstRow()|] == FirstRow();
    SecondHeaderIsForeign(body, got);
  }

  lemma LateBreakFits(v: Request)
    requires Answering(v)
    ensures RequestRoom(LIMITS, v, [CR, LF])
  {
    assert ScanRequest(LIMITS, v, [CR, LF]).taken == Refused(400);
  }

  lemma PipelinedFits(v: Request)
    requires Answering(v)
    ensures RequestRoom(LIMITS, v, PIPELINED)
  {
    PipelinedIsAwaited(LIMITS, v);
  }

  /** The beginning of a next request comes before the first row has arrived: the row arrives with another byte. */
  method PipelinedRun(body: seq<byte>) returns (got: seq<byte>)
    requires |body| < 0x1_0000
    ensures Over(FirstRow(), ROOT) <= got && !(got <= Response(body))
  {
    hide ParseRequest, RequestRoom, PrintedResponse, Cut, StatusRow, Over, PrintedRefusal;
    hide ScanRequest, RequestStep;
    var s := Asked(PIPELINED, 0);
    ghost var v := Restarted(s.request.V());
    PipelinedIsAwaited(LIMITS, v);
    PipelinedFits(v);
    got := Respond(s, body);
    FirstRowFits();
    assert [PIPELINED[4]] == ROOT;
    assert FirstRow()[..0] + Over(FirstRow(), ROOT)[0..] == Over(FirstRow(), ROOT);
    OverwrittenIsForeign(body, got);
  }

  /** The application answers; `got` is what the client gets. */
  method Respond(s: Server, body: seq<byte>) returns (got: seq<byte>)
    requires s.Valid() && s.l.phase == Handling && s.l.owner == Some(0) && s.l.slots == [Established(80)]
    requires s.l.generation == [0] && s.OneMore() && s.Next().DataFor? && s.Next().i == 0 && s.rb == RB
    requires s.request.lim == LIMITS && s.got == map[] && s.turns == 0 && s.Prompt(1) && |body| < 0x1_0000
    requires RequestRoom(LIMITS, Restarted(s.request.V()), s.Next().chunk)
    modifies s.Repr()
    ensures got == s.S().Got(Conn(0, 0))
    ensures var v, k := Restarted(old(s.request.V())), s.Arriving(0, |FirstRow()|);
            match ParseRequest(LIMITS, v, old(s.Next()).chunk)
            case Refuse(status) =>
              RowsChecked(LIMITS.url, Refusal(status, false).Text(), RB) ==>
                OnTheWire(LIMITS, RB, v, FirstRow(), k, old(s.Next()).chunk) <= got
            case Await(_) => OnTheWire(LIMITS, RB, v, FirstRow(), k, old(s.Next()).chunk) <= got
            case Serve(_) => true
  {
    hide ParseRequest, RequestRoom, StatusRow, LengthRow, Cut, OnTheWire, PrintedResponse, RowsChecked;
    FirstRowFits();
    var headers, memory := new byte[0], new byte[|body|](k requires 0 <= k < |body| => body[k]);
    ghost var a, v, chunk := s.S(), Restarted(s.request.V()), s.Next().chunk;
    var ok;
    ghost var n;
    ok, n := s.SendResponse(OK, headers, memory);
    got := if Conn(0, 0) in s.got then s.got[Conn(0, 0)] else [];
    ghost var k := s.Arriving(0, |FirstRow()|);
    assert s.ForOwner(Begun(a), v, 0, chunk);
    assert Begun(a).Present(0) == Conn(0, 0) && a.Got(Conn(0, 0)) == [];
    assert WiredAs(LIMITS, RB, Begun(a), v, 0, FirstRow(), k, chunk, s.S());
    assert [] + OnTheWire(LIMITS, RB, v, FirstRow(), k, chunk) == OnTheWire(LIMITS, RB, v, FirstRow(), k, chunk);
  }

  lemma FirstRowFits()
    ensures FirstRow() == StatusRow(200, OK.Text(), RB) && 0 < |FirstRow()| < LIMITS.url && FirstRow()[0] == 'H' as int
    ensures RowsChecked(LIMITS.url, OK.Text(), RB) && RowsChecked(LIMITS.url, HEADER_SYNTAX, RB)
  {
    DigitsLength(200);
    FineIsText();
    RefusalsAreText();
  }

  /** Where the response goes on with its length row, a second header has begun. */
  lemma SecondHeaderIsForeign(body: seq<byte>, got: seq<byte>)
    requires FirstRow() + PrintedRefusal(LIMITS, RB, 400) <= got
    ensures !(got <= Response(body))
  {
    FirstRowFits();
    var row, refusal := FirstRow(), PrintedRefusal(LIMITS, RB, 400);
    StartsWithVersion(400, Refusal(400, false).Text(), []);
    StartsWithLength(body);
    assert got[|row|] == refusal[0] == 'H' as int;
    assert Response(body)[|row|] == 'C' as int;
  }

  lemma StartsWithVersion(code: u16, message: seq<byte>, body: seq<byte>)
    ensures var printed := PrintedResponse(LIMITS.url, code, message, RB, [], body);
            printed != [] && printed[0] == 'H' as int
  {
    assert StatusRow(code, message, RB)[0] == HTTP_VERSION[0] == 'H' as int;
  }

  lemma StartsWithLength(body: seq<byte>)
    ensures |Response(body)| > |FirstRow()| && Response(body)[|FirstRow()|] == 'C' as int
  {
    var last := Cut(LengthRow(|body|, RB) + RB, LIMITS.url);
    assert LengthRow(|body|, RB)[0] == CONTENT_LENGTH[0] == 'C' as int;
    assert last[0] == 'C' as int;
    assert Response(body) == FirstRow() + ([] + last + body);
  }

  /** The first byte of the row is another. */
  lemma OverwrittenIsForeign(body: seq<byte>, got: seq<byte>)
    requires Over(FirstRow(), ROOT) <= got
    ensures !(got <= Response(body))
  {
    FirstRowFits();
    StartsWithVersion(200, OK.Text(), body);
    assert got[0] == Over(FirstRow(), ROOT)[0] == '/' as int;
  }

  /** An answer up to the first digit of its status. */
  function AnswerTo(digit: byte): seq<byte> { HTTP_VERSION + [SPACE] + [digit] }

  /** A server refuses before it has got anything of the request: the first byte it gets is the digit of its own
      status. */
  method EarlyRefusalRun(digit: byte) returns (got: seq<byte>)
    requires '1' as int <= digit <= '9' as int
    ensures got != [] && got[0] == digit
    ensures !(got <= PrintedRequest(LIMITS.status, GET, ROOT, RB, [], []))
  {
    var message := new HttpMessage(LIMITS);
    var response := new HttpResponse(message);
    var c := new Requests.Client(RB, response, k => if k == 0 then [Requests.Data(AnswerTo(digit))] else [],
      k => if k == 0 then 0 else 0x1_0000, _ => true);
    var headers, data := new byte[0], new byte[0];
    AnswerIs(digit);
    GetIs();
    hide PrintedRequest, ParseRequest;
    assert c.Early() == Some(digit);
    var ok;
    ghost var n;
    ok, n := c.SendRequest(GET, ROOT, headers, data);
    got := c.got;
    StartsWithMethod();
  }

  lemma AnswerIs(digit: byte)
    ensures |AnswerTo(digit)| == 10 && AnswerTo(digit)[..9] == HTTP_VERSION + [SPACE] && AnswerTo(digit)[9] == digit
  {
  }

  lemma GetIs()
    ensures |GET| == 3 && |ROOT| == 1 && |RB| == 2
  {
  }

  lemma StartsWithMethod()
    ensures var printed := PrintedRequest(LIMITS.status, GET, ROOT, RB, [], []);
            printed != [] && printed[0] == 'G' as int
  {
    assert GET[0] == 'G' as int;
    assert RequestRow(GET, ROOT, RB)[0] == 'G' as int;
  }
}
