/**
 Who owns the one HTTP listener, and how a response is sent: `incomingRequestConnectionId` and
 `incomingRequestState` of `src/http.c` over every run of the connection table beneath them, with
 requests parsed and answered inside the waits of other answers.

 No client request is in progress, the server port is below the dynamic ports, and no SYN hits a
 connection that `TcpConnect` is opening.
 */
module HttpServer {
  import opened Util
  import opened HttpSpec
  import opened HttpRoundTrip
  import opened HttpOutput
  import opened HttpEngine
  import opened HttpChunks
  import opened HttpOverlap

  // ----- the listener ------------------------------------------------------------------------

  /** A slot of the connection table, as far as the listener can tell. */
  datatype Slot = Empty | Opening(port: u16) | HalfOpen(port: u16) | Established(port: u16) | Dyeing

  type DynamicPort = x: u16 | 49152 <= x witness 49152

  datatype Listener = Listener(
    slots: seq<Slot>,
    /** `incomingRequestConnectionId`; none is TCP_INVALID_CONNECTION_ID */
    owner: Option<nat>,
    /** `incomingRequestState` */
    phase: Phase,
    /** per slot, how often OnDisconnect was called */
    generation: seq<nat>,
    /** requests accepted so far, and the number of the owner's */
    accepted: nat,
    number: nat)

  /** The slot is a connection of the HTTP port between its acceptance and its disconnect callback. */
  predicate Serves(port: u16, s: Slot) { (s.HalfOpen? || s.Established?) && s.port == port }

  /** The listener is free exactly when the state is NO_REQUEST, and otherwise belongs to the one
      connection it serves. */
  ghost predicate Inv(port: u16, l: Listener)
  {
    |l.slots| == |l.generation|
    && (l.owner == None <==> l.phase == NoRequest)
    && (l.owner.Some? ==>
          && l.owner.value < |l.slots| && l.number < l.accepted
          && (l.phase == StartRequest || l.slots[l.owner.value].Established?))
    && (forall i | 0 <= i < |l.slots| :: Serves(port, l.slots[i]) <==> l.owner == Some(i))
    && (forall i | 0 <= i < |l.slots| && l.slots[i].Opening? :: l.slots[i].port >= 49152)
  }

  datatype Verdict = Ok | Drop

  /** `HttpTcpOnNewConnection`; `app` is the answer for the other ports. */
  function Answer(httpPort: u16, l: Listener, port: u16, app: Verdict): Verdict
  {
    if port != httpPort then app else if l.phase != NoRequest then Drop else Ok
  }

  /** A bare SYN for the empty slot `i`. */
  function Syn(httpPort: u16, l: Listener, i: nat, port: u16, app: Verdict): Listener
    requires i < |l.slots| && l.slots[i] == Empty
  {
    if Answer(httpPort, l, port, app) == Drop then l
    else
      var l' := l.(slots := l.slots[i := HalfOpen(port)]);
      if port != httpPort then l'
      else l'.(owner := Some(i), phase := StartRequest, number := l.accepted, accepted := l.accepted + 1)
  }

  /** `HttpTcpOnDisconnect`. */
  function Release(l: Listener, i: nat): Listener
  {
    if l.owner != Some(i) || l.phase == NoRequest then l else l.(owner := None, phase := NoRequest)
  }

  /** An established connection starts to close, by a FIN or by `TcpDisconnect`. */
  function Close(l: Listener, i: nat): Listener
    requires i < |l.slots| == |l.generation|
  {
    Release(l.(slots := l.slots[i := Dyeing], generation := l.generation[i := l.generation[i] + 1]), i)
  }

  /** What can happen while a call waits. `closing` are the slots whose `TcpClose` is the waiting call
      or one around it: they stay DYEING. */
  datatype Step =
    | SynFor(i: nat, port: u16, app: Verdict)
    | AckFor(i: nat)
    | CloseOf(i: nat)
    | ClosedOf(i: nat)
    /** `TcpConnect` takes a slot, succeeds or fails */
    | Dial(i: nat, dynamic: DynamicPort)
    | Dialled(i: nat, ok: bool)
    /** the parser or the request handler moves on */
    | Progress(to: Phase)

  function Stepped(httpPort: u16, closing: set<nat>, l: Listener, s: Step): Listener
    requires |l.slots| == |l.generation|
  {
    match s
    case SynFor(i, port, app) => if i < |l.slots| && l.slots[i] == Empty then Syn(httpPort, l, i, port, app) else l
    case AckFor(i) =>
      if i < |l.slots| && l.slots[i].HalfOpen? then l.(slots := l.slots[i := Established(l.slots[i].port)]) else l
    case CloseOf(i) => if i < |l.slots| && l.slots[i].Established? then Close(l, i) else l
    case ClosedOf(i) =>
      if i < |l.slots| && l.slots[i] == Dyeing && i !in closing then l.(slots := l.slots[i := Empty]) else l
    case Dial(i, dynamic) =>
      if i < |l.slots| && l.slots[i] == Empty then l.(slots := l.slots[i := Opening(dynamic)]) else l
    case Dialled(i, ok) =>
      if i < |l.slots| && l.slots[i].Opening? then
        l.(slots := l.slots[i := if ok then Established(l.slots[i].port) else Empty])
      else l
    case Progress(to) =>
      if l.owner.Some? && l.owner.value < |l.slots| && l.slots[l.owner.value].Established? && to != NoRequest then
        l.(phase := to)
      else l
  }

  function Run(httpPort: u16, closing: set<nat>, l: Listener, steps: seq<Step>): (r: Listener)
    requires |l.slots| == |l.generation|
    ensures |r.slots| == |r.generation|
    decreases |steps|
  {
    if steps == [] then l
    else Stepped(httpPort, closing, Run(httpPort, closing, l, steps[..|steps| - 1]), steps[|steps| - 1])
  }

  /** What a call may rely on over a wait: an established connection is still there unless its disconnect
      callback was called, and a listener that changed hands belongs to a later request. */
  ghost predicate Leads(l: Listener, l': Listener)
  {
    |l'.slots| == |l.slots| && |l'.generation| == |l.generation| && |l.slots| == |l.generation|
    && l.accepted <= l'.accepted
    && (forall i | 0 <= i < |l.slots| :: SlotLeads(l, l', i))
    && (l'.owner.Some? ==> l.accepted <= l'.number || SameOwner(l, l'))
  }

  ghost predicate SlotLeads(l: Listener, l': Listener, i: nat)
    requires i < |l.slots| && i < |l'.slots| && i < |l.generation| && i < |l'.generation|
  {
    l.generation[i] <= l'.generation[i]
    && (l.slots[i].Established? && l'.generation[i] == l.generation[i] ==> l'.slots[i] == l.slots[i])
  }

  /** The owner's connection has not been closed in between. */
  ghost predicate SameOwner(l: Listener, l': Listener)
  {
    l'.owner.Some? && l'.owner == l.owner && l'.number == l.number
    && l'.owner.value < |l.generation| && l'.owner.value < |l'.generation|
    && l'.generation[l'.owner.value] == l.generation[l'.owner.value]
  }

  lemma LeadsTransitive(a: Listener, b: Listener, c: Listener)
    requires Leads(a, b) && Leads(b, c)
    ensures Leads(a, c)
  {
    forall i | 0 <= i < |a.slots|
      ensures SlotLeads(a, c, i)
    {
      assert SlotLeads(a, b, i) && SlotLeads(b, c, i);
    }
  }

  lemma StepKeeps(httpPort: u16, closing: set<nat>, l: Listener, s: Step)
    requires httpPort < 49152 && Inv(httpPort, l)
    ensures Inv(httpPort, Stepped(httpPort, closing, l, s)) && Leads(l, Stepped(httpPort, closing, l, s))
  {
    hide Inv, Leads;
    SelfLeads(httpPort, l);
    match s
    case SynFor(i, port, app) => if i < |l.slots| && l.slots[i] == Empty { SynKeeps(httpPort, l, i, port, app); }
    case AckFor(i) =>
      if i < |l.slots| && l.slots[i].HalfOpen? { SlotKeeps(httpPort, l, i, Established(l.slots[i].port)); }
    case CloseOf(i) => if i < |l.slots| && l.slots[i].Established? { CloseKeeps(httpPort, l, i); }
    case ClosedOf(i) => if i < |l.slots| && l.slots[i] == Dyeing && i !in closing { SlotKeeps(httpPort, l, i, Empty); }
    case Dial(i, dynamic) => if i < |l.slots| && l.slots[i] == Empty { SlotKeeps(httpPort, l, i, Opening(dynamic)); }
    case Dialled(i, ok) =>
      if i < |l.slots| && l.slots[i].Opening? {
        SlotKeeps(httpPort, l, i, if ok then Established(l.slots[i].port) else Empty);
      }
    case Progress(to) => ProgressKeeps(httpPort, l, to);
  }

  lemma SelfLeads(httpPort: u16, l: Listener)
    requires Inv(httpPort, l)
    ensures Leads(l, l) && |l.slots| == |l.generation|
    ensures forall i | 0 <= i < |l.slots| && l.slots[i].Opening? :: l.slots[i].port >= 49152
  {
  }

  lemma SynKeeps(httpPort: u16, l: Listener, i: nat, port: u16, app: Verdict)
    requires Inv(httpPort, l) && i < |l.slots| && l.slots[i] == Empty
    ensures Inv(httpPort, Syn(httpPort, l, i, port, app)) && Leads(l, Syn(httpPort, l, i, port, app))
  {
  }

  /** A slot that is not established moves on, in or out of service as it was. */
  lemma SlotKeeps(httpPort: u16, l: Listener, i: nat, slot: Slot)
    requires Inv(httpPort, l) && i < |l.slots| && !l.slots[i].Established?
    requires Serves(httpPort, slot) <==> Serves(httpPort, l.slots[i])
    requires slot.Opening? ==> slot.port >= 49152
    requires l.slots[i].HalfOpen? ==> slot.Established?
    ensures Inv(httpPort, l.(slots := l.slots[i := slot])) && Leads(l, l.(slots := l.slots[i := slot]))
  {
  }

  lemma ProgressKeeps(httpPort: u16, l: Listener, to: Phase)
    requires Inv(httpPort, l)
    ensures Inv(httpPort, Stepped(httpPort, {}, l, Progress(to))) && Leads(l, Stepped(httpPort, {}, l, Progress(to)))
  {
  }

  lemma CloseKeeps(httpPort: u16, l: Listener, i: nat)
    requires Inv(httpPort, l) && i < |l.slots| && l.slots[i].Established?
    ensures Inv(httpPort, Close(l, i)) && Leads(l, Close(l, i))
    ensures Close(l, i).owner != Some(i)
  {
  }

  lemma {:induction false} RunKeeps(httpPort: u16, closing: set<nat>, l: Listener, steps: seq<Step>)
    requires httpPort < 49152 && Inv(httpPort, l)
    ensures Inv(httpPort, Run(httpPort, closing, l, steps)) && Leads(l, Run(httpPort, closing, l, steps))
    decreases |steps|
  {
    if steps != [] {
      var m := Run(httpPort, closing, l, steps[..|steps| - 1]);
      RunKeeps(httpPort, closing, l, steps[..|steps| - 1]);
      StepKeeps(httpPort, closing, m, steps[|steps| - 1]);
      LeadsTransitive(l, m, Run(httpPort, closing, l, steps));
    }
  }

  lemma StepLeavesClosing(httpPort: u16, closing: set<nat>, l: Listener, step: Step, i: nat)
    requires |l.slots| == |l.generation| && i in closing && i < |l.slots| && l.slots[i] == Dyeing
    ensures var slots := Stepped(httpPort, closing, l, step).slots; |slots| == |l.slots| && slots[i] == Dyeing
  {
  }

  /** The slots of closes under way are not touched. */
  lemma {:induction false} RunLeavesClosing(httpPort: u16, closing: set<nat>, l: Listener, steps: seq<Step>, i: nat)
    requires |l.slots| == |l.generation| && i in closing && i < |l.slots| && l.slots[i] == Dyeing
    ensures |Run(httpPort, closing, l, steps).slots| == |l.slots| && Run(httpPort, closing, l, steps).slots[i] == Dyeing
    decreases |steps|
  {
    hide Stepped;
    if steps != [] {
      RunLeavesClosing(httpPort, closing, l, steps[..|steps| - 1], i);
      StepLeavesClosing(httpPort, closing, Run(httpPort, closing, l, steps[..|steps| - 1]), steps[|steps| - 1], i);
    }
  }

  function Initial(n: nat): Listener { Listener(seq(n, _ => Empty), None, NoRequest, seq(n, _ => 0), 0, 0) }

  /** Listener ownership, over every run from `HttpInit`. */
  lemma ListenerOwnership(httpPort: u16, n: nat, steps: seq<Step>)
    requires httpPort < 49152
    ensures var l := Run(httpPort, {}, Initial(n), steps);
            (l.owner == None <==> l.phase == NoRequest)
            && (forall i | 0 <= i < |l.slots| :: Serves(httpPort, l.slots[i]) <==> l.owner == Some(i))
            && |l.slots| == n
  {
    RunKeeps(httpPort, {}, Initial(n), steps);
  }

  /** The listener no longer belongs to the request it served in `l`: it is free, or accepted another since. */
  ghost predicate Passed(l: Listener, l': Listener) { l'.owner == None || l.accepted <= l'.number }

  lemma ClosedIsPassed(l: Listener, l': Listener, i: nat)
    requires l.owner == Some(i) && i < |l.slots| && Leads(l, l') && l.generation[i] < l'.generation[i]
    ensures Passed(l, l')
  {
  }

  lemma HandlingIsOpen(httpPort: u16, l: Listener)
    requires Inv(httpPort, l) && l.phase == Handling
    ensures l.owner.Some? && l.owner.value < |l.slots| && l.slots[l.owner.value].Established?
  {
  }

  lemma PhaseKeeps(httpPort: u16, l: Listener, phase: Phase)
    requires httpPort < 49152 && Inv(httpPort, l) && phase != NoRequest
    requires l.owner.Some? && l.slots[l.owner.value].Established?
    ensures Inv(httpPort, l.(phase := phase)) && Leads(l, l.(phase := phase))
  {
    StepKeeps(httpPort, {}, l, Progress(phase));
  }

  // ----- the server ----------------------------------------------------------------------------------

  const SHIT_HAPPENS: seq<byte> := Bytes("Shit Happens")

  /** `HttpStatus`; the message may be missing. */
  datatype Status = Status(code: u16, message: Option<seq<byte>>)
  {
    function Text(): seq<byte> { if message.Some? then message.value else SHIT_HAPPENS }

    predicate Valid() { NoNul(Text()) && |Text()| < 0x8000 }
  }

  type ValidStatus = s: Status | s.Valid() witness Status(200, Some([]))

  datatype Reply = Reply(status: ValidStatus, headers: seq<byte>, body: seq<byte>)
  {
    predicate Valid() { |headers| < 0x1_0000 && |body| < 0x1_0000 }
  }

  type ValidReply = r: Reply | r.Valid() witness Reply(Status(200, Some([])), [], [])

  /** What happens in a wait: a step of the connection table, or data of an established connection. */
  datatype Happening = Of(step: Step) | DataFor(i: nat, chunk: seq<byte>)

  /** A connection: its slot, and how often that slot had been closed before. */
  datatype Conn = Conn(slot: nat, generation: nat)

  /** What the listener and the clients can see. */
  datatype Shot = Shot(
    l: Listener,
    /** `incomingRequest.url`, where the rows of a response are printed */
    url: seq<byte>,
    /** what the peer of a connection has got of this server's data */
    got: map<Conn, seq<byte>>,
    /** chunks of the connection of a request that were not harmless */
    struck: map<Conn, nat>)
  {
    function Got(c: Conn): seq<byte> { if c in got then got[c] else [] }

    function Struck(c: Conn): nat { if c in struck then struck[c] else 0 }

    function Present(i: nat): Conn requires i < |l.generation| { Conn(i, l.generation[i]) }
  }

  /** Slot `i` over a wait: its connection, if none of its data strikes, has got `sent` more; and if it is the
      owner's and lives, the rows being sent to it stand as they did. */
  ghost predicate SlotFollows(a: Shot, b: Shot, i: nat, sent: seq<byte>)
    requires i < |a.l.generation|
  {
    var c := a.Present(i);
    a.Struck(c) <= b.Struck(c) && a.Got(c) <= b.Got(c)
    && (b.Struck(c) == a.Struck(c) ==> b.Got(c) == a.Got(c) + sent)
    && forall g: nat | g < a.l.generation[i] ::
        b.Got(Conn(i, g)) == a.Got(Conn(i, g)) && b.Struck(Conn(i, g)) == a.Struck(Conn(i, g))
  }

  ghost predicate UrlKept(a: Shot, b: Shot)
  {
    a.l.owner.Some? && a.l.owner.value < |a.l.generation| && a.l.owner.value < |b.l.generation|
    && b.l.generation[a.l.owner.value] == a.l.generation[a.l.owner.value]
    && b.Struck(a.Present(a.l.owner.value)) == a.Struck(a.Present(a.l.owner.value)) ==>
      b.url == a.url && b.l.owner == a.l.owner
  }

  function Share(i: nat, j: nat, sent: seq<byte>): seq<byte> { if j == i then sent else [] }

  /** A wait in which slot `i`, if any, is sent `sent`. */
  ghost predicate Follows(a: Shot, b: Shot, i: nat, sent: seq<byte>)
  {
    Leads(a.l, b.l) && forall j | 0 <= j < |a.l.slots| :: SlotFollows(a, b, j, Share(i, j, sent))
  }

  lemma SelfFollows(a: Shot, i: nat)
    requires |a.l.slots| == |a.l.generation| && (a.l.owner.Some? ==> a.l.owner.value < |a.l.slots|)
    ensures Follows(a, a, i, []) && UrlKept(a, a)
  {
    forall j | 0 <= j < |a.l.slots|
      ensures SlotFollows(a, a, j, Share(i, j, []))
    {
      assert forall c: Conn :: a.Got(c) + [] == a.Got(c);
    }
  }

  /** One wait after another, for one slot; what is sent to a later connection of it does not count. */
  lemma SlotTransitive(a: Shot, b: Shot, c: Shot, j: nat, s: seq<byte>, t: seq<byte>)
    requires j < |a.l.generation| && j < |b.l.generation| && a.l.generation[j] <= b.l.generation[j]
    requires SlotFollows(a, b, j, s) && SlotFollows(b, c, j, t)
    ensures SlotFollows(a, c, j, if b.l.generation[j] == a.l.generation[j] then s + t else s)
  {
    if b.l.generation[j] == a.l.generation[j] {
      assert a.Got(a.Present(j)) + s + t == a.Got(a.Present(j)) + (s + t);
    }
  }

  lemma FollowsTransitive(a: Shot, b: Shot, c: Shot, i: nat, s: seq<byte>, t: seq<byte>)
    requires Follows(a, b, i, s) && Follows(b, c, i, t)
    ensures Follows(a, c, i, if i < |a.l.slots| && b.l.generation[i] == a.l.generation[i] then s + t else s)
  {
    hide SlotFollows;
    LeadsTransitive(a.l, b.l, c.l);
    var r := if i < |a.l.slots| && b.l.generation[i] == a.l.generation[i] then s + t else s;
    forall j | 0 <= j < |a.l.slots|
      ensures SlotFollows(a, c, j, Share(i, j, r))
    {
      assert SlotLeads(a.l, b.l, j);
      SlotTransitive(a, b, c, j, Share(i, j, s), Share(i, j, t));
      assert [] + [] == Share(i, if i == 0 then 1 else 0, s);
    }
  }

  lemma UrlKeptTransitive(a: Shot, b: Shot, c: Shot, i: nat, s: seq<byte>, t: seq<byte>)
    requires Follows(a, b, i, s) && Follows(b, c, i, t) && UrlKept(a, b) && UrlKept(b, c)
    ensures UrlKept(a, c)
  {
    if a.l.owner.Some? && a.l.owner.value < |a.l.slots| {
      var j := a.l.owner.value;
      assert SlotLeads(a.l, b.l, j) && SlotLeads(b.l, c.l, j);
      assert SlotFollows(a, b, j, Share(i, j, s)) && SlotFollows(b, c, j, Share(i, j, t));
    }
  }

  /** The slot has been closed since, and taken by another connection, which is there or closed as well. */
  predicate Lost(l: Listener, i: nat, generation: nat)
    requires i < |l.slots| == |l.generation|
  {
    generation < l.generation[i] && (l.slots[i].Established? || generation + 2 <= l.generation[i])
  }

  lemma LostStays(l: Listener, l': Listener, i: nat, generation: nat)
    requires Leads(l, l') && i < |l.slots|
    requires generation < l.generation[i] && l.slots[i].Established?
    ensures Lost(l', i, generation)
  {
    assert SlotLeads(l, l', i);
  }

  /** Bytes reach the present connection of slot `i`. */
  function Reached(s: Shot, i: nat, piece: seq<byte>): Shot
    requires i < |s.l.generation|
  {
    s.(got := s.got[s.Present(i) := s.Got(s.Present(i)) + piece])
  }

  /** More of what is sent reaches the connection of slot `i`, or a later one. */
  lemma ReachedFollows(a: Shot, b: Shot, i: nat, sent: seq<byte>, more: seq<byte>, piece: seq<byte>)
    requires Follows(a, b, i, sent) && i < |a.l.slots| && i < |a.l.generation| && i < |b.l.generation|
    requires b.l.generation[i] == a.l.generation[i] && b.Struck(a.Present(i)) == a.Struck(a.Present(i)) ==>
              piece == more
    ensures Follows(a, Reached(b, i, piece), i, if b.l.generation[i] == a.l.generation[i] then sent + more else sent)
  {
    var c := Reached(b, i, piece);
    var now := if b.l.generation[i] == a.l.generation[i] then sent + more else sent;
    assert SlotLeads(a.l, b.l, i);
    forall j | 0 <= j < |a.l.slots|
      ensures SlotFollows(a, c, j, Share(i, j, now))
    {
      assert SlotLeads(a.l, b.l, j);
      assert SlotFollows(a, b, j, Share(i, j, sent));
      ReachedSlot(a, b, i, j, sent, more, piece);
    }
  }

  lemma ReachedSlot(a: Shot, b: Shot, i: nat, j: nat, sent: seq<byte>, more: seq<byte>, piece: seq<byte>)
    requires i < |a.l.generation| == |b.l.generation| && j < |a.l.generation|
    requires a.l.generation[i] <= b.l.generation[i] && a.l.generation[j] <= b.l.generation[j]
    requires b.l.generation[i] == a.l.generation[i] && b.Struck(a.Present(i)) == a.Struck(a.Present(i)) ==>
              piece == more
    requires SlotFollows(a, b, j, Share(i, j, sent))
    ensures SlotFollows(a, Reached(b, i, piece), j,
                        Share(i, j, if b.l.generation[i] == a.l.generation[i] then sent + more else sent))
  {
    var c := Reached(b, i, piece);
    assert forall g: nat | Conn(j, g) != b.Present(i) :: c.Got(Conn(j, g)) == b.Got(Conn(j, g));
    if j == i && b.l.generation[i] == a.l.generation[i] {
      assert c.Got(a.Present(i)) == b.Got(a.Present(i)) + piece;
      assert a.Got(a.Present(i)) + sent + more == a.Got(a.Present(i)) + (sent + more);
    }
  }

  /** A wait in which nothing is sent to slot `i` either. */
  lemma FollowsAny(a: Shot, b: Shot, i: nat, j: nat)
    requires Follows(a, b, i, [])
    ensures Follows(a, b, j, [])
  {
    FollowsLeads(a, b, i, []);
    hide SlotFollows, Leads;
    forall k | 0 <= k < |a.l.slots|
      ensures SlotFollows(a, b, k, Share(j, k, []))
    {
      assert SlotFollows(a, b, k, Share(i, k, []));
      assert Share(i, k, []) == Share(j, k, []);
    }
  }

  /** The owner stays the owner until its connection is closed. */
  predicate OwnerStays(l: Listener, l': Listener)
  {
    l.owner.Some? ==> l.owner.value < |l.generation| && l.owner.value < |l'.generation|
                      && (l'.generation[l.owner.value] == l.generation[l.owner.value] ==> l'.owner == l.owner)
  }

  /** A change of the table alone. */
  lemma TableFollows(a: Shot, l: Listener)
    requires Leads(a.l, l)
    ensures Follows(a, a.(l := l), 0, [])
    ensures OwnerStays(a.l, l) ==> UrlKept(a, a.(l := l))
  {
    forall j | 0 <= j < |a.l.slots|
      ensures SlotFollows(a, a.(l := l), j, Share(0, j, []))
    {
      assert a.Got(a.Present(j)) + [] == a.Got(a.Present(j));
    }
  }

  lemma PatchFrom(a: seq<byte>, b: seq<byte>, url: seq<byte>)
    requires SameFrom(a, b, |url|) && a[..|url|] == url
    ensures a == Patch(b, 0, url)
  {
    assert a == a[..|url|] + a[|url|..];
  }

  lemma SameFromStart(a: seq<byte>, b: seq<byte>)
    requires SameFrom(a, b, 0)
    ensures a == b
  {
    assert a[0..] == a && b[0..] == b;
  }

  /** Two waits, one after the other. */
  lemma BothFollow(a: Shot, b: Shot, c: Shot)
    requires Follows(a, b, 0, []) && Follows(b, c, 0, []) && UrlKept(a, b) && UrlKept(b, c)
    ensures Follows(a, c, 0, []) && UrlKept(a, c)
  {
    FollowsTransitive(a, b, c, 0, [], []);
    var none: seq<byte> := [];
    assert none + none == none;
    UrlKeptTransitive(a, b, c, 0, [], []);
  }

  lemma SameSizes(httpPort: u16, l: Listener)
    requires Inv(httpPort, l)
    ensures |l.slots| == |l.generation| && (l.owner.Some? ==> l.owner.value < |l.slots| && l.phase != NoRequest)
  {
  }

  lemma StepOwner(httpPort: u16, closing: set<nat>, l: Listener, s: Step)
    requires httpPort < 49152 && Inv(httpPort, l)
    ensures OwnerStays(l, Stepped(httpPort, closing, l, s))
  {
  }

  /** The close of slot `i` counts. */
  lemma ClosedGrows(l: Listener, l': Listener, i: nat)
    requires i < |l.slots| == |l.generation| && l.slots[i].Established? && Leads(Close(l, i), l')
    ensures i < |l'.generation| && l.generation[i] < l'.generation[i]
  {
    assert SlotLeads(Close(l, i), l', i);
  }

  // ----- data that comes while a row goes out ----------------------------------------------------------

  /** A row when the URL of a next request has been stored over it. */
  function Over(row: seq<byte>, url: seq<byte>): seq<byte>
  {
    if |url| <= |row| then url + row[|url|..] else url[..|row|]
  }

  function PrintedRefusal(lim: Limits, rb: seq<byte>, status: u16): seq<byte>
    requires lim.Valid()
  {
    var r := Refusal(status, false);
    PrintedResponse(lim.url, r.code, r.Text(), rb, [], [])
  }

  /** What reaches the client while a row is being sent and `chunk` comes when it has got `k` bytes of the row. */
  function OnTheWire(lim: Limits, rb: seq<byte>, v: Request, row: seq<byte>, k: nat, chunk: seq<byte>): seq<byte>
    requires lim.Valid() && k <= |row|
  {
    match ParseRequest(lim, v, chunk)
    case Await(s') => row[..k] + Over(row, s'.url)[k..]
    case Refuse(status) => row[..k] + PrintedRefusal(lim, rb, status)
    case Serve(_) => row[..k]
  }

  /** What comes of a chunk of the owner, if nothing happens behind it and everything sent arrives. */
  ghost predicate Came(lim: Limits, rb: seq<byte>, a: Shot, v: Request, i: nat, chunk: seq<byte>, b: Shot)
    requires lim.Valid() && i < |a.l.generation|
  {
    match ParseRequest(lim, v, chunk)
    case Await(s') =>
      |s'.url| <= |a.url| && b.url == Patch(a.url, 0, s'.url) && b.l == a.l.(phase := s'.phase) && b.got == a.got
    case Refuse(status) =>
      RowsChecked(lim.url, Refusal(status, false).Text(), rb) ==>
        && i < |b.l.slots| && b.l.slots[i] == Empty
        && b.Got(a.Present(i)) == a.Got(a.Present(i)) + PrintedRefusal(lim, rb, status)
    case Serve(_) => true
  }

  /** What has reached the client by the time the row has been sent or given up, after `chunk` came. */
  ghost predicate WiredAs(lim: Limits, rb: seq<byte>, a: Shot, v: Request, i: nat, row: seq<byte>, k: nat,
                          chunk: seq<byte>, b: Shot)
    requires lim.Valid() && i < |a.l.generation| && k <= |row|
  {
    match ParseRequest(lim, v, chunk)
    case Refuse(status) =>
      RowsChecked(lim.url, Refusal(status, false).Text(), rb) ==>
        a.Got(a.Present(i)) + OnTheWire(lim, rb, v, row, k, chunk) <= b.Got(a.Present(i))
    case Await(_) => a.Got(a.Present(i)) + OnTheWire(lim, rb, v, row, k, chunk) <= b.Got(a.Present(i))
    case Serve(_) => true
  }

  lemma ReachedGot(a: Shot, i: nat, piece: seq<byte>)
    requires i < |a.l.generation|
    ensures var b := Reached(a, i, piece);
            b.l == a.l && b.url == a.url && b.Got(a.Present(i)) == a.Got(a.Present(i)) + piece
            && b.Present(i) == a.Present(i)
  {
  }

  lemma SameGot(a: Shot, b: Shot, c: Conn)
    requires a.got == b.got
    ensures a.Got(c) == b.Got(c)
  {
  }

  lemma OverLength(row: seq<byte>, url: seq<byte>)
    ensures |Over(row, url)| == |row|
  {
  }

  /** The row was sent in one piece, or the connection is closed. */
  lemma WiredAtOnce(lim: Limits, rb: seq<byte>, a: Shot, v: Request, i: nat, row: seq<byte>, k: nat,
                    chunk: seq<byte>, b: Shot)
    requires lim.Valid() && i < |a.l.slots| && i < |a.l.generation| && k <= |row| && a.l.slots[i].Established?
    requires Came(lim, rb, Reached(a, i, row[..k]), v, i, chunk, b)
    requires k == |row| || (i < |b.l.slots| && !b.l.slots[i].Established?)
    ensures WiredAs(lim, rb, a, v, i, row, k, chunk, b)
  {
    hide PrintedRefusal, RowsChecked, ParseRequest, Reached, Shot.Got, Patch, Over;
    var c := a.Present(i);
    ReachedGot(a, i, row[..k]);
    match ParseRequest(lim, v, chunk)
    case Refuse(status) =>
      var more := PrintedRefusal(lim, rb, status);
      assert a.Got(c) + row[..k] + more == a.Got(c) + (row[..k] + more);
    case Await(s') =>
      OverLength(row, s'.url);
      SameGot(Reached(a, i, row[..k]), b, c);
      assert row[..k] + Over(row, s'.url)[k..] == row;
    case Serve(_) =>
  }

  /** The rest of the row was sent from where the URL has been stored. */
  lemma WiredInTwo(lim: Limits, rb: seq<byte>, a: Shot, v: Request, i: nat, length: nat, k: nat, chunk: seq<byte>,
                   b: Shot, d: Shot)
    requires lim.Valid() && i < |a.l.generation| && k <= length <= |a.url|
    requires Came(lim, rb, Reached(a, i, a.url[..k]), v, i, chunk, b)
    requires i < |b.l.slots| && b.l.slots[i].Established? && |b.url| == |a.url| && i < |b.l.generation|
    requires d == Reached(b, i, b.url[k..length])
    ensures WiredAs(lim, rb, a, v, i, a.url[..length], k, chunk, d)
  {
    hide PrintedRefusal, RowsChecked, ParseRequest, Over, Patch, Reached, Shot.Got;
    var c, row := a.Present(i), a.url[..length];
    ReachedGot(a, i, a.url[..k]);
    ReachedGot(b, i, b.url[k..length]);
    match ParseRequest(lim, v, chunk)
    case Await(s') =>
      OverIsPatched(a.url, s'.url, length, k);
      SameGot(Reached(a, i, a.url[..k]), b, c);
      assert b.Present(i) == c;
      assert row[..k] == a.url[..k];
      assert a.Got(c) + row[..k] + b.url[k..length] == a.Got(c) + (row[..k] + b.url[k..length]);
    case Refuse(_) =>
    case Serve(_) =>
  }

  lemma OverIsPatched(memory: seq<byte>, url: seq<byte>, length: nat, k: nat)
    requires k <= length <= |memory| && |url| <= |memory|
    ensures |Over(memory[..length], url)| == length
    ensures Over(memory[..length], url)[k..] == Patch(memory, 0, url)[k..length]
  {
    assert Over(memory[..length], url) == Patch(memory, 0, url)[..length];
  }

  /** What a client has got, it has got. */
  ghost predicate Grows(a: Shot, b: Shot)
  {
    |a.l.slots| == |a.l.generation| == |b.l.slots| == |b.l.generation|
    && forall j, g: nat | 0 <= j < |a.l.generation| && g <= a.l.generation[j] ::
        a.l.generation[j] <= b.l.generation[j] && a.Got(Conn(j, g)) <= b.Got(Conn(j, g))
  }

  lemma FollowsGrows(a: Shot, b: Shot, i: nat, sent: seq<byte>)
    requires Follows(a, b, i, sent)
    ensures Grows(a, b)
  {
    forall j, g: nat | 0 <= j < |a.l.generation| && g <= a.l.generation[j]
      ensures a.l.generation[j] <= b.l.generation[j] && a.Got(Conn(j, g)) <= b.Got(Conn(j, g))
    {
      assert SlotLeads(a.l, b.l, j) && SlotFollows(a, b, j, Share(i, j, sent));
      assert a.Present(j) == Conn(j, a.l.generation[j]);
    }
  }

  lemma SelfGrows(a: Shot)
    requires |a.l.slots| == |a.l.generation|
    ensures Grows(a, a)
  {
  }

  lemma BegunGrows(a: Shot)
    requires |a.l.slots| == |a.l.generation|
    ensures Grows(a, Begun(a))
  {
  }

  lemma UnbegunGrows(a: Shot, b: Shot)
    requires Grows(a, b)
    ensures Grows(Begun(a), b)
  {
    var o := Begun(a);
    forall j, g: nat | 0 <= j < |o.l.generation| && g <= o.l.generation[j]
      ensures o.l.generation[j] <= b.l.generation[j] && o.Got(Conn(j, g)) <= b.Got(Conn(j, g))
    {
      assert a.Got(Conn(j, g)) <= b.Got(Conn(j, g));
    }
  }

  lemma UrlGrows(a: Shot, url: seq<byte>, b: Shot)
    requires Grows(a.(url := url), b)
    ensures Grows(a, b)
  {
    forall j, g: nat | 0 <= j < |a.l.generation| && g <= a.l.generation[j]
      ensures a.l.generation[j] <= b.l.generation[j] && a.Got(Conn(j, g)) <= b.Got(Conn(j, g))
    {
      assert a.(url := url).Got(Conn(j, g)) <= b.Got(Conn(j, g));
    }
  }

  lemma GrowsTransitive(a: Shot, b: Shot, c: Shot)
    requires Grows(a, b) && Grows(b, c)
    ensures Grows(a, c)
  {
    forall j, g: nat | 0 <= j < |a.l.generation| && g <= a.l.generation[j]
      ensures a.l.generation[j] <= c.l.generation[j] && a.Got(Conn(j, g)) <= c.Got(Conn(j, g))
    {
      assert a.Got(Conn(j, g)) <= b.Got(Conn(j, g)) <= c.Got(Conn(j, g));
    }
  }

  lemma WiredStays(lim: Limits, rb: seq<byte>, a: Shot, v: Request, i: nat, row: seq<byte>, k: nat, chunk: seq<byte>,
                   b: Shot, d: Shot)
    requires lim.Valid() && i < |a.l.generation| && k <= |row| && WiredAs(lim, rb, a, v, i, row, k, chunk, b)
    requires Grows(b, d) && i < |b.l.generation| && a.l.generation[i] <= b.l.generation[i]
    ensures WiredAs(lim, rb, a, v, i, row, k, chunk, d)
  {
    hide OnTheWire, ParseRequest, RowsChecked;
    assert a.Present(i) == Conn(i, a.l.generation[i]);
  }

  lemma RowsAreShort(limit: nat, status: ValidStatus, dataLength: u16, rb: seq<byte>)
    requires RowsChecked(limit, status.Text(), rb)
    ensures 0 < |Cut(StatusRow(status.code, status.Text(), rb), limit)| <= limit
    ensures 0 < |Cut(LengthRow(dataLength, rb) + rb, limit)| <= limit
  {
  }

  /** The parser when a response begins. */
  function Restarted(v: Request): Request { v.(phase := StartRequest, verb := [], url := []) }

  /** The table when a response begins. */
  function Begun(a: Shot): Shot { a.(l := a.l.(phase := StartRequest)) }

  lemma NotLost(l: Listener, i: nat)
    requires i < |l.slots| == |l.generation|
    ensures !Lost(l, i, l.generation[i])
  {
  }

  /** How a send begins: the table and the clients, the bytes, the parser, what happens next, how many bytes the first
      segment brings, its number, and what is known of the waits ahead: that nothing happens any more, that
      then everything arrives at once, that one thing happens and then everything arrives at once. */
  datatype Start = Start(a: Shot, data: seq<byte>, v: Request, next: Happening, k: nat, turn: nat, last: bool,
                         prompt: bool, spoils: bool)

  class Server {
    const httpPort: u16
    const rb: seq<byte>
    /** `incomingRequest` with its parser; `incomingRequestState` is its phase */
    const request: HttpRequest
    /** what happens in each wait; nothing after the last */
    const schedule: seq<seq<Happening>>
    /** what the application answers to each request; nothing if it does not call `HttpSendResponse` */
    const replies: nat -> Option<ValidReply>
    /** for each segment sent, how many of its bytes arrive before the wait behind it is over, and whether that
        wait brings the acknowledgement of everything */
    const arrivals: nat -> nat
    const acks: nat -> bool
    var l: Listener
    /** the slots whose `TcpClose` is under way */
    var closing: set<nat>
    var waits: nat
    var turns: nat
    var requests: nat
    /** what the client of each connection has got in order, and how many chunks of it have struck */
    var got: map<Conn, seq<byte>>
    ghost var struck: map<Conn, nat>

    ghost predicate Valid()
      reads this, request, request.message, request.verb
    {
      request.Valid() && request.VerbStored() && request.phase == l.phase && request.phase != EndMessage
      && request.lim.Valid() && IsRowBreak(rb) && httpPort < 49152 && Inv(httpPort, l) && waits <= |schedule|
      && forall i | i in closing :: i < |l.slots| && l.slots[i] == Dyeing
    }

    ghost function S(): Shot
      reads this, request.url
    {
      Shot(l, request.url[..], got, struck)
    }

    /** Nothing more happens in any wait. */
    ghost predicate Last()
      reads this
    {
      waits == |schedule|
    }

    /** From the `k`-th segment on, all bytes arrive at once and are acknowledged. */
    ghost predicate Prompt(k: nat) { forall j: nat | j >= k :: acks(j) && arrivals(j) >= 0x1_0000 }

    /** How many of `length` bytes the `k`-th segment brings. */
    function Arriving(k: nat, length: nat): nat { if arrivals(k) < length then arrivals(k) else length }

    /** If nothing happened any more at `a`, no data struck since. */
    ghost predicate Calm(last: bool, a: Shot)
      reads this
    {
      last ==> Last() && struck == a.struck
    }

    /** One more thing happens, in the next wait. */
    ghost predicate OneMore()
      reads this
    {
      waits + 1 == |schedule| && |schedule[waits]| == 1
    }

    ghost function Next(): Happening
      requires OneMore()
      reads this
    {
      schedule[waits][0]
    }

    /** The chunk is for the owner, whose request is not being handled, and fits. */
    ghost predicate ForOwner(a: Shot, v: Request, i: nat, chunk: seq<byte>)
    {
      i < |a.l.slots| == |a.l.generation| && a.l.slots[i].Established? && a.l.owner == Some(i) && a.l.phase != Handling
      && request.lim.Valid() && RequestRoom(request.lim, v, chunk)
    }

    /** What came of a happening behind which there is nothing more. */
    ghost predicate CameOf(h: Happening, a: Shot, v: Request)
      reads this, request.url
    {
      h.DataFor? && ForOwner(a, v, h.i, h.chunk) ==> Last() && Came(request.lim, rb, a, v, h.i, h.chunk, S())
    }

    /** What the client has got when the row that went out first has been sent or given up, though `h` happened. */
    ghost predicate SpoiltBy(h: Happening, a: Shot, v: Request, i: nat, row: seq<byte>, k: nat)
      reads this, request.url
    {
      h.DataFor? && h.i == i && ForOwner(a, v, i, h.chunk) && k <= |row| ==>
        WiredAs(request.lim, rb, a, v, i, row, k, h.chunk, S())
    }

    ghost predicate SpoiltAt(h: Happening, a: Shot, v: Request, i: nat, row: seq<byte>, k: nat, c: Shot)
    {
      h.DataFor? && h.i == i && ForOwner(a, v, i, h.chunk) && k <= |row| ==>
        WiredAs(request.lim, rb, a, v, i, row, k, h.chunk, c)
    }

    lemma StillSpoilt(h: Happening, a: Shot, v: Request, i: nat, row: seq<byte>, k: nat, c: Shot)
      requires SpoiltAt(h, a, v, i, row, k, c) && Grows(a, c) && Grows(c, S())
      ensures SpoiltBy(h, a, v, i, row, k)
    {
      hide WiredAs, RequestRoom;
      assert h.DataFor? && h.i == i && ForOwner(a, v, i, h.chunk) ==>
          a.Got(Conn(i, a.l.generation[i])) <= c.Got(Conn(i, a.l.generation[i]));
      if h.DataFor? && h.i == i && ForOwner(a, v, i, h.chunk) && k <= |row| {
        WiredStays(request.lim, rb, a, v, i, row, k, h.chunk, c, S());
      }
    }

    /** Nothing is sent on a connection that is not established. */
    lemma NeverSpoils(h: Happening, a: Shot, v: Request, i: nat, length: nat, k: nat)
      requires i < |a.l.slots| && !a.l.slots[i].Established? && length <= |a.url|
      ensures SpoiltBy(h, a, v, i, a.url[..length], k)
    {
    }

    lemma PromptAt(k: nat, turn: nat)
      requires Prompt(k) && k <= turn
      ensures acks(turn) && arrivals(turn) >= 0x1_0000
    {
    }

    lemma PromptFrom(k: nat, turn: nat, rounds: nat)
      requires Prompt(k) && k + rounds <= turn + 1
      ensures Prompt(turn + 1) && (rounds > 0 ==> acks(turn) && arrivals(turn) >= 0x1_0000)
    {
    }

    lemma CameIs(h: Happening, a: Shot, v: Request, i: nat, piece: seq<byte>)
      requires i < |a.l.slots| == |a.l.generation| && CameOf(h, Reached(a, i, piece), v)
      ensures h.DataFor? && h.i == i && ForOwner(a, v, i, h.chunk) ==>
                Last() && Came(request.lim, rb, Reached(a, i, piece), v, i, h.chunk, S())
    {
      hide Came, RequestRoom;
    }

    /** After the first segment and the wait behind it: the row is out, or the connection is closed. */
    lemma FirstSpoils(h: Happening, a: Shot, v: Request, i: nat, length: nat, k: nat)
      requires k <= length <= |a.url| && i < |a.l.slots| == |a.l.generation| && a.l.slots[i].Established?
      requires CameOf(h, Reached(a, i, a.url[..k]), v) && i < |l.slots| && (k == length || !l.slots[i].Established?)
      ensures SpoiltBy(h, a, v, i, a.url[..length], k)
    {
      hide ParseRequest, RequestRoom, Came, WiredAs;
      if h.DataFor? && h.i == i && ForOwner(a, v, i, h.chunk) {
        assert a.url[..length][..k] == a.url[..k];
        WiredAtOnce(request.lim, rb, a, v, i, a.url[..length], k, h.chunk, S());
      }
    }

    /** After the second: `b` is what there was before it. */
    lemma SecondSpoils(h: Happening, a: Shot, v: Request, i: nat, length: nat, k: nat, b: Shot)
      requires k <= length <= |a.url| && i < |a.l.slots| == |a.l.generation| && a.l.slots[i].Established?
      requires i < |b.l.slots| == |b.l.generation| && b.l.slots[i].Established? && |b.url| == |a.url|
      requires h.DataFor? && h.i == i && ForOwner(a, v, i, h.chunk) ==>
                Came(request.lim, rb, Reached(a, i, a.url[..k]), v, i, h.chunk, b)
                && S() == Reached(b, i, b.url[k..length])
      ensures SpoiltBy(h, a, v, i, a.url[..length], k)
    {
      hide RequestRoom, PrintedRefusal, RowsChecked, Came, WiredAs;
      if h.DataFor? && h.i == i && ForOwner(a, v, i, h.chunk) {
        WiredInTwo(request.lim, rb, a, v, i, length, k, h.chunk, b, S());
      }
    }

    ghost function Repr(): set<object>
    {
      {this, request, request.message, request.message.headers, request.message.data, request.verb, request.url}
    }

    /** `HttpInit`, with an empty connection table. */
    constructor (httpPort: u16, rb: seq<byte>, request: HttpRequest, n: byte, schedule: seq<seq<Happening>>,
                 replies: nat -> Option<ValidReply>, arrivals: nat -> nat, acks: nat -> bool)
      requires IsRowBreak(rb) && httpPort < 49152 && request.Valid() && request.phase == NoRequest
      requires request.lim.Valid()
      ensures Valid() && l == Initial(n) && this.request == request && closing == {}
      ensures this.httpPort == httpPort && this.rb == rb && this.schedule == schedule && this.arrivals == arrivals
      ensures this.acks == acks && waits == 0 && turns == 0 && got == map[] && struck == map[]
    {
      this.httpPort, this.rb, this.request, this.schedule := httpPort, rb, request, schedule;
      this.replies, this.arrivals, this.acks := replies, arrivals, acks;
      l, closing, waits, turns, requests, got, struck := Initial(n), {}, 0, 0, 0, map[], map[];
    }

    /** `HttpTcpOnNewConnection` for a slot that has just been taken by a SYN. */
    method OnNewConnection(i: nat, port: u16, app: Verdict) returns (verdict: Verdict)
      requires Valid() && i < |l.slots| && l.slots[i] == Empty
      modifies this`l, request`phase
      ensures Valid() && Leads(old(l), l) && l == Syn(httpPort, old(l), i, port, app)
      ensures verdict == Ok <==> if port == httpPort then old(l.phase) == NoRequest else app == Ok
      ensures port == httpPort && verdict == Ok ==> l.owner == Some(i) && l.phase == StartRequest
      ensures port != httpPort || verdict == Drop ==> l.owner == old(l.owner) && l.phase == old(l.phase)
    {
      StepKeeps(httpPort, {}, l, SynFor(i, port, app));
      if port != httpPort {
        if app == Ok {
          l := l.(slots := l.slots[i := HalfOpen(port)]);
        }
        return app;
      }
      if l.phase != NoRequest {
        return Drop;
      }
      l := l.(slots := l.slots[i := HalfOpen(port)], owner := Some(i), phase := StartRequest,
              number := l.accepted, accepted := l.accepted + 1);
      request.phase := StartRequest;
      verdict := Ok;
    }

    /** One step of the connection table. */
    method StepTable(step: Step)
      requires Valid() && !step.Progress?
      modifies this`l, request`phase
      ensures Valid() && Follows(old(S()), S(), 0, []) && UrlKept(old(S()), S())
      ensures l == Stepped(httpPort, closing, old(l), step)
      ensures forall i | i in closing :: l.slots[i] == Dyeing
    {
      ghost var a := S();
      StepKeeps(httpPort, closing, l, step);
      StepOwner(httpPort, closing, l, step);
      hide Inv, Leads, Follows, UrlKept;
      l := Stepped(httpPort, closing, l, step);
      request.phase := l.phase;
      TableFollows(a, l);
      assert S() == a.(l := l);
    }

    /** The packets handled inside one wait. */
    method Wait()
      requires Valid()
      modifies Repr()
      ensures Valid() && closing == old(closing) && waits >= old(waits)
      ensures requests >= old(requests) && turns >= old(turns)
      ensures old(Last()) ==> Last() && S() == old(S()) && turns == old(turns) && request.V() == old(request.V())
      ensures old(OneMore()) && Prompt(old(turns)) ==> CameOf(old(Next()), old(S()), old(request.V()))
      ensures Follows(old(S()), S(), 0, []) && UrlKept(old(S()), S())
      decreases |schedule| - waits, 1
    {
      hide Inv, Leads, Follows, UrlKept, CameOf, HttpRequest.V, HttpRequest.Valid;
      ghost var a, v := S(), request.V();
      SameSizes(httpPort, l);
      SelfFollows(a, 0);
      if waits == |schedule| {
        return;
      }
      var happenings, k := schedule[waits], 0;
      waits := waits + 1;
      while k < |happenings|
        invariant 0 <= k <= |happenings| && Valid() && closing == old(closing) && waits > old(waits)
        invariant requests >= old(requests) && turns >= old(turns)
        invariant Follows(a, S(), 0, []) && UrlKept(a, S())
        invariant k == 0 ==> S() == a && request.V() == v && turns == old(turns) && waits == old(waits) + 1
        invariant k == 1 && old(OneMore()) && Prompt(old(turns)) ==> CameOf(happenings[0], a, v)
      {
        ghost var b := S();
        Perform(happenings[k]);
        BothFollow(a, b, S());
        k := k + 1;
      }
    }

    /** One thing that happens in a wait. */
    method Perform(h: Happening)
      requires Valid()
      modifies Repr()
      ensures Valid() && closing == old(closing) && waits >= old(waits)
      ensures requests >= old(requests) && turns >= old(turns)
      ensures Follows(old(S()), S(), 0, []) && UrlKept(old(S()), S())
      ensures old(Last()) && Prompt(old(turns)) ==> CameOf(h, old(S()), old(request.V()))
      decreases |schedule| - waits, 18
    {
      hide Inv, Leads, Follows, UrlKept, Came, RequestRoom, HttpRequest.V, HttpRequest.Valid, Shot.Got, Limits.Valid;
      SameSizes(httpPort, l);
      SelfFollows(S(), 0);
      match h
      case Of(step) => if !step.Progress? { StepTable(step); }
      case DataFor(i, chunk) =>
        if i < |l.slots| && l.slots[i].Established? {
          ghost var b, sent := OnIncomingData(i, chunk);
        }
    }

    /** `TcpDisconnect`: an established connection gets its disconnect callback and is closed. */
    method TcpDisconnect(i: nat)
      requires Valid() && i < |l.slots|
      modifies Repr()
      ensures Valid() && closing == old(closing) && waits >= old(waits)
      ensures requests >= old(requests) && turns >= old(turns)
      ensures Follows(old(S()), S(), 0, []) && UrlKept(old(S()), S())
      ensures i < |l.generation| == |l.slots| == |old(l).slots| == |old(l).generation|
      ensures old(l).slots[i].Established? ==> old(l).generation[i] < l.generation[i]
      ensures !old(l).slots[i].Established? ==> S() == old(S()) && waits == old(waits)
      ensures Calm(old(Last()), old(S())) && (old(Last()) ==> l.generation[i] <= old(l).generation[i] + 1)
      ensures old(Last()) && old(l).slots[i].Established? ==> l.slots[i] == Empty
      decreases |schedule| - waits, 3
    {
      SameSizes(httpPort, l);
      SelfFollows(S(), 0);
      if !l.slots[i].Established? {
        return;
      }
      hide Inv, Leads, Follows, UrlKept;
      ghost var a := S();
      assert i !in closing;
      StepTable(CloseOf(i));
      ghost var b := S();
      assert b.l == Close(a.l, i);
      TcpClose(i);
      BothFollow(a, b, S());
      FollowsLeads(b, S(), 0, []);
      ClosedGrows(a.l, l, i);
    }

    /** The wait of `TcpClose`, and its end. */
    method TcpClose(i: nat)
      requires Valid() && i < |l.slots| && l.slots[i] == Dyeing && i !in closing
      modifies Repr()
      ensures Valid() && closing == old(closing) && waits >= old(waits)
      ensures requests >= old(requests) && turns >= old(turns)
      ensures Follows(old(S()), S(), 0, []) && UrlKept(old(S()), S())
      ensures Calm(old(Last()), old(S()))
      ensures old(Last()) ==> l == old(l).(slots := old(l).slots[i := Empty])
      decreases |schedule| - waits, 2
    {
      hide Inv, Leads, Follows, UrlKept, CameOf, HttpRequest.V, HttpRequest.Valid, HttpRequest.VerbStored, Prompt;
      hide Limits.Valid, IsRowBreak;
      SameSizes(httpPort, l);
      ghost var b := S();
      closing := closing + {i};
      Wait();
      ghost var c := S();
      closing := closing - {i};
      StepTable(ClosedOf(i));
      BothFollow(b, c, S());
    }

    /** `TcpSendData` on slot `i`, as its caller sees it: bytes reach the peer in order, each as it stands in
        memory when its segment is sent, and packets are handled after each segment. `sent` is what reached
        the connection the call began on, `n` bytes of it. */
    method TcpSendData(i: nat, source: array<byte>, length: nat) returns (ok: bool, ghost n: nat, ghost sent: seq<byte>)
      requires Valid() && i < |l.slots| && length <= source.Length && (source == request.url || source !in Repr())
      modifies Repr()
      ensures Calm(old(Last()), old(S())) && (old(Last()) ==> l == old(l))
      ensures old(Last()) && Prompt(old(turns)) && 0 < length < 0x1_0000 && old(l).slots[i].Established? ==>
                ok && n == length
      ensures Valid() && closing == old(closing) && waits >= old(waits)
      ensures requests >= old(requests) && turns >= old(turns)
      ensures i < |l.generation| == |l.slots| == |old(l).slots| == |old(l).generation|
      ensures n <= length && Follows(old(S()), S(), i, sent) && UrlKept(old(S()), S())
      ensures source != request.url || old(l).owner == Some(i) ==> sent == old(source[..])[..n]
      ensures old(OneMore()) && Prompt(old(turns) + 1) && source == request.url && 0 < length < 0x1_0000 ==>
                SpoiltBy(old(Next()), old(S()), old(request.V()), i, old(request.url[..])[..length],
                         Arriving(old(turns), length))
      ensures ok ==> length > 0 && old(l).slots[i].Established? && (n == length || Lost(l, i, old(l).generation[i]))
      decreases |schedule| - waits, 6
    {
      hide Inv, Leads, Follows, UrlKept, Lost, SpoiltBy, Underway, Prompt, HttpRequest.V, HttpRequest.Valid;
      SameSizes(httpPort, l);
      ghost var st := Start(S(), source[..], request.V(), if OneMore() then Next() else Of(AckFor(0)),
                            Arriving(turns, length), turns, Last(),
                            Prompt(turns) && length < 0x1_0000,
                            OneMore() && Prompt(turns + 1) && source == request.url && length < 0x1_0000);
      SelfFollows(st.a, i);
      ok, n, sent := false, 0, [];
      if length > 0 {
        SetsOut(st, i, source, length);
        ok, n, sent := TcpSendRounds(i, source, length, st);
      }
    }

    /** The loops of `TcpSendData`. */
    method TcpSendRounds(i: nat, source: array<byte>, length: nat, ghost st: Start)
      returns (ok: bool, ghost n: nat, ghost sent: seq<byte>)
      requires Valid() && length > 0 && Underway(st, i, source, length, 0, 0, 0, [])
      modifies Repr()
      ensures Valid() && closing == old(closing) && waits >= old(waits)
      ensures requests >= old(requests) && turns >= old(turns) && Ended(st, i, source, length, ok, n, sent)
      decreases |schedule| - waits, 5
    {
      hide Inv, Underway, Ended, HttpRequest.V, HttpRequest.Valid;
      ok, n, sent := false, 0, [];
      var offset, rounds := 0, 0;
      while rounds <= 60000 + length
        invariant 0 <= rounds <= 60001 + length && 0 <= offset <= length && Valid() && closing == old(closing)
        invariant waits >= old(waits) && requests >= old(requests) && turns >= old(turns)
        invariant Underway(st, i, source, length, offset, rounds, n, sent)
      {
        assert UnderwaySizes(i, st) by { SizesUnderway(st, i, source, length, offset, rounds, n, sent); }
        if !l.slots[i].Established? {
          EndsClosed(st, i, source, length, offset, rounds, n, sent);
          return;
        }
        var part, acked;
        part, acked, n, sent := TcpSendRound(i, source, length, offset, rounds, st, n, sent);
        offset := offset + part;
        if offset == length && acked {
          return true, n, sent;
        }
        rounds := rounds + 1;
      }
      EndsLate(st, i, source, length, offset, rounds, n, sent);
    }

    ghost predicate UnderwaySizes(i: nat, st: Start)
      reads this
    {
      i < |l.slots| == |l.generation| == |st.a.l.slots| == |st.a.l.generation|
    }

    /** A send that began as `st`, after `rounds` waits. */
    ghost predicate Underway(st: Start, i: nat, source: array<byte>, length: nat, offset: nat, rounds: nat, n: nat,
                             sent: seq<byte>)
      reads this, source, request, request.message, request.message.headers, request.message.data, request.verb,
            request.url
    {
      UnderwaySizes(i, st) && (rounds > 0 ==> st.a.l.slots[i].Established?) && n <= offset <= length <= |st.data|
      && request.Valid() && Follows(st.a, S(), i, sent) && UrlKept(st.a, S()) && |st.data| == source.Length
      && (if source == request.url then st.data == st.a.url else source !in Repr() && source[..] == st.data)
      && (source != request.url || st.a.l.owner == Some(i) ==> sent == st.data[..n])
      && (if rounds == 0 then S() == st.a && offset == 0 else n < offset ==> Lost(l, i, st.a.l.generation[i]))
      && turns >= st.turn + rounds && (rounds == 0 ==> turns == st.turn && request.V() == st.v)
      && (rounds == 0 ==> (st.last ==> Last()) && (st.spoils ==> OneMore() && Next() == st.next))
      && (st.last ==> Last() && l == st.a.l && struck == st.a.struck && (st.prompt ==> rounds == 0))
      && (st.prompt ==> Prompt(st.turn) && length < 0x1_0000)
      && (st.spoils ==> source == request.url && Prompt(st.turn + 1) && length < 0x1_0000 && rounds <= 1
                        && (rounds == 0 ==> st.k == Arriving(st.turn, length))
                        && (rounds == 1 ==> offset == st.k && st.k <= length
                                            && CameOf(st.next, Reached(st.a, i, st.data[..st.k]), st.v)))
    }

    lemma SetsOut(st: Start, i: nat, source: array<byte>, length: nat)
      requires Valid() && i < |l.slots| == |l.generation| && length <= source.Length
      requires source == request.url || source !in Repr()
      requires st == Start(S(), source[..], request.V(), if OneMore() then Next() else Of(AckFor(0)),
                            Arriving(turns, length), turns, Last(),
                            Prompt(turns) && length < 0x1_0000,
                            OneMore() && Prompt(turns + 1) && source == request.url && length < 0x1_0000)
      ensures Underway(st, i, source, length, 0, 0, 0, [])
    {
      SameSizes(httpPort, l);
      hide Inv, Leads, HttpRequest.Valid;
      SelfFollows(st.a, i);
    }

    lemma SizesUnderway(st: Start, i: nat, source: array<byte>, length: nat, offset: nat, rounds: nat, n: nat,
                        sent: seq<byte>)
      requires Underway(st, i, source, length, offset, rounds, n, sent)
      ensures UnderwaySizes(i, st)
    {
    }

    /** What is known when a send that began as `st` is over. */
    ghost predicate Ended(st: Start, i: nat, source: array<byte>, length: nat, ok: bool, n: nat, sent: seq<byte>)
      reads this, request.url
    {
      UnderwaySizes(i, st) && n <= length <= |st.data| && Follows(st.a, S(), i, sent) && UrlKept(st.a, S())
      && (source != request.url || st.a.l.owner == Some(i) ==> sent == st.data[..n])
      && (st.last ==> Last() && l == st.a.l && struck == st.a.struck)
      && (st.last && st.prompt && 0 < length && st.a.l.slots[i].Established? ==> ok && n == length)
      && (st.spoils && 0 < length ==>
            length <= |st.a.url| && SpoiltBy(st.next, st.a, st.v, i, st.a.url[..length], st.k))
      && (ok ==> length > 0 && st.a.l.slots[i].Established? && (n == length || Lost(l, i, st.a.l.generation[i])))
    }

    lemma EndsClosed(st: Start, i: nat, source: array<byte>, length: nat, offset: nat, rounds: nat, n: nat,
                     sent: seq<byte>)
      requires Underway(st, i, source, length, offset, rounds, n, sent) && i < |l.slots| && !l.slots[i].Established?
      ensures Ended(st, i, source, length, false, n, sent)
    {
      hide Follows, UrlKept, SpoiltBy, CameOf, HttpRequest.V, HttpRequest.Valid, Lost;
      if st.spoils {
        if rounds == 0 { NeverSpoils(st.next, st.a, st.v, i, length, st.k); }
        else { FirstSpoils(st.next, st.a, st.v, i, length, st.k); }
      }
    }

    lemma EndsLate(st: Start, i: nat, source: array<byte>, length: nat, offset: nat, rounds: nat, n: nat,
                   sent: seq<byte>)
      requires Underway(st, i, source, length, offset, rounds, n, sent) && rounds >= 2
      ensures Ended(st, i, source, length, false, n, sent)
    {
      hide Follows, UrlKept, SpoiltBy, CameOf, HttpRequest.V, HttpRequest.Valid, Lost;
    }

    /** One round of `TcpSendData`. */
    method TcpSendRound(i: nat, source: array<byte>, length: nat, offset: nat, ghost rounds: nat, ghost st: Start,
                        ghost n: nat, ghost sent: seq<byte>)
      returns (part: nat, acked: bool, ghost n': nat, ghost sent': seq<byte>)
      requires Valid() && length > 0 && Underway(st, i, source, length, offset, rounds, n, sent)
      requires i < |l.slots| && l.slots[i].Established?
      modifies Repr()
      ensures Valid() && closing == old(closing) && waits >= old(waits)
      ensures requests >= old(requests) && turns >= old(turns) && offset + part <= length
      ensures if offset + part == length && acked then Ended(st, i, source, length, true, n', sent')
              else Underway(st, i, source, length, offset + part, rounds + 1, n', sent')
      decreases |schedule| - waits, 4
    {
      hide Inv, Leads, Follows, UrlKept, Lost, HttpRequest.Valid, HttpRequest.VerbStored, HttpRequest.V;
      hide SpoiltBy, CameOf, Limits.Valid, IsRowBreak, Came, ForOwner, Shot.Got, Shot.Struck, Prompt;
      hide WiredAs, OnTheWire, ParseRequest, RequestRoom;
      ghost var b := S();
      if st.spoils && rounds == 1 { CameIs(st.next, st.a, st.v, i, st.data[..st.k]); }
      if st.prompt { PromptAt(st.turn, turns); }
      if st.spoils { PromptFrom(st.turn + 1, turns, rounds); }
      part := if arrivals(turns) < length - offset then arrivals(turns) else length - offset;
      acked := acks(turns);
      n', sent' := Carry(i, source, offset, part, st.a, st.data, n, sent);
      NotLost(st.a.l, i);
      if st.spoils && offset + part == length && acked {
        if rounds == 0 { FirstSpoils(st.next, st.a, st.v, i, length, st.k); }
        else { SecondSpoils(st.next, st.a, st.v, i, length, st.k, b); }
      }
    }

    /** A segment goes out, and packets are handled behind it. `part` bytes of it are new to the peer; `sent`, of
        `n` bytes, is what has reached the connection of `a`. */
    method Carry(i: nat, source: array<byte>, offset: nat, part: nat, ghost a: Shot, ghost data: seq<byte>,
                 ghost n: nat, ghost sent: seq<byte>)
      returns (ghost n': nat, ghost sent': seq<byte>)
      requires Valid() && i < |l.slots| == |l.generation| == |a.l.slots| == |a.l.generation| && l.slots[i].Established?
      requires n <= offset && offset + part <= source.Length == |data|
      requires if source == request.url then data == a.url else source !in Repr() && source[..] == data
      requires source != request.url || a.l.owner == Some(i) ==> sent == data[..n]
      requires Follows(a, S(), i, sent) && UrlKept(a, S()) && (n < offset ==> Lost(l, i, a.l.generation[i]))
      modifies Repr()
      ensures Valid() && closing == old(closing) && waits >= old(waits)
      ensures requests >= old(requests) && turns > old(turns)
      ensures |l.slots| == |l.generation| == |a.l.slots|
      ensures n' <= offset + part && Follows(a, S(), i, sent') && UrlKept(a, S())
      ensures source != request.url || a.l.owner == Some(i) ==> sent' == data[..n']
      ensures n' < offset + part ==> Lost(l, i, a.l.generation[i])
      ensures old(Last()) ==> Last() && S() == Reached(old(S()), i, old(source[..])[offset..offset + part])
                              && turns == old(turns) + 1
      ensures old(OneMore()) && Prompt(old(turns) + 1) ==>
                CameOf(old(Next()), Reached(old(S()), i, old(source[..])[offset..offset + part]), old(request.V()))
      decreases |schedule| - waits, 3
    {
      hide Inv, Leads, Follows, UrlKept, HttpRequest.Valid, HttpRequest.VerbStored, HttpRequest.V, CameOf;
      hide Limits.Valid, IsRowBreak, Prompt;
      ghost var b := S();
      var piece := source[..][offset..offset + part];
      ghost var same := l.generation[i] == a.l.generation[i];
      FollowsLeads(a, b, i, sent);
      GenerationGrows(a.l, l, i);
      if same { UrlOfOwner(a, b, i); }
      ghost var more := if source != request.url || a.l.owner == Some(i) then data[offset..offset + part] else piece;
      ReachedFollows(a, b, i, sent, more, piece);
      ghost var c := Reached(b, i, piece);
      SelfUrl(b, c);
      n', sent' := if same then n + part else n, if same then sent + more else sent;
      assert same ==> data[..n] + data[n..n + part] == data[..n + part];
      WaitBehind(i, piece);
      FollowsLeads(c, S(), i, []);
      SendThenWait(a, c, S(), i, sent');
      UrlThenWait(a, b, c, S(), i, sent, sent');
      if !same { LostStays(c.l, l, i, a.l.generation[i]); }
    }

    /** `piece` reaches slot `i`, and the wait follows. */
    method WaitBehind(i: nat, piece: seq<byte>)
      requires Valid() && i < |l.slots| == |l.generation|
      modifies Repr()
      ensures Valid() && closing == old(closing) && waits >= old(waits)
      ensures requests >= old(requests) && turns > old(turns)
      ensures Follows(Reached(old(S()), i, piece), S(), i, []) && UrlKept(Reached(old(S()), i, piece), S())
      ensures old(Last()) ==> Last() && S() == Reached(old(S()), i, piece) && turns == old(turns) + 1
      ensures old(OneMore()) && Prompt(old(turns) + 1) ==>
                CameOf(old(Next()), Reached(old(S()), i, piece), old(request.V()))
      decreases |schedule| - waits, 2
    {
      hide Inv, Leads, Follows, UrlKept, HttpRequest.Valid, HttpRequest.VerbStored, HttpRequest.V, CameOf, Prompt;
      ghost var b := S();
      var to := Conn(i, l.generation[i]);
      turns, got := turns + 1, got[to := (if to in got then got[to] else []) + piece];
      ghost var c := S();
      assert c == Reached(b, i, piece);
      Wait();
      FollowsAny(c, S(), 0, i);
    }

    /** A slot closes when a response is over or has failed; it was established when the table was `l0`. */
    method Abandon(i: nat, ghost l0: Listener)
      requires Valid() && Leads(l0, l) && i < |l0.slots| == |l0.generation| == |l.slots| && l0.slots[i].Established?
      modifies Repr()
      ensures Valid() && closing == old(closing) && waits >= old(waits)
      ensures requests >= old(requests) && turns >= old(turns) && Leads(l0, l)
      ensures Follows(old(S()), S(), 0, []) && UrlKept(old(S()), S())
      ensures i < |l.generation| == |l.slots| == |l0.slots| == |old(l).slots| && l0.generation[i] < l.generation[i]
      ensures Calm(old(Last()), old(S())) && (!old(l).slots[i].Established? ==> S() == old(S()) && waits == old(waits))
      ensures old(Last()) ==> l.generation[i] <= old(l).generation[i] + 1
      ensures old(Last()) && old(l).slots[i].Established? ==> l.slots[i] == Empty
      ensures i < |old(l).generation| && (Lost(old(l), i, l0.generation[i]) ==> l0.generation[i] + 2 <= l.generation[i])
      decreases |schedule| - waits, 4
    {
      ghost var l1 := l;
      assert SlotLeads(l0, l1, i);
      hide Inv, Follows, UrlKept;
      TcpDisconnect(i);
      FollowsLeads(old(S()), S(), 0, []);
      LeadsTransitive(l0, l1, l);
      assert SlotLeads(l1, l, i);
    }

    /** A response to slot `i` that began at `a`, before part `k`: `n` bytes of it have reached the client, and
        that is all parts before, unless the slot was lost to another connection. */
    ghost predicate Sending(a: Shot, i: nat, parts: seq<seq<byte>>, k: nat, n: nat)
      reads this, request.url
    {
      i < |a.l.slots| == |a.l.generation| == |l.slots| == |l.generation| && a.l.slots[i].Established?
          && a.l.owner == Some(i)
      && k <= |parts| && n <= |Before(parts, |parts|)| && Follows(a, S(), i, Before(parts, |parts|)[..n])
      && (n == |Before(parts, k)| || Lost(l, i, a.l.generation[i]))
    }

    /** The connection that slot `i` had at `a` is closed. */
    ghost predicate Closed(a: Shot, i: nat)
      reads this
    {
      i < |a.l.generation| && i < |l.generation| && a.l.generation[i] < l.generation[i]
    }

    /** One `TcpSendData` of a response; when it fails the connection is closed. */
    method SendOrAbandon(i: nat, source: array<byte>, length: nat, ghost a: Shot, ghost parts: seq<seq<byte>>,
                         ghost k: nat, ghost n: nat)
      returns (ok: bool, ghost n': nat)
      requires Valid() && length <= source.Length && (source == request.url || source !in Repr())
      requires Sending(a, i, parts, k, n) && k < |parts| && source[..length] == parts[k] && Inv(httpPort, a.l)
      modifies Repr()
      ensures Valid() && closing == old(closing) && waits >= old(waits)
      ensures requests >= old(requests) && turns >= old(turns)
      ensures n' <= |Before(parts, |parts|)| && Follows(a, S(), i, Before(parts, |parts|)[..n'])
      ensures ok ==> Sending(a, i, parts, k + 1, n')
      ensures !ok ==> Closed(a, i)
      ensures Calm(old(Last()), old(S()))
      ensures i < |old(l).slots| && Grows(old(S()), S())
      ensures old(Last()) && Prompt(old(turns)) && 0 < length < 0x1_0000 && old(l).slots[i].Established? ==>
                ok && l == old(l)
      ensures old(OneMore()) && Prompt(old(turns) + 1) && source == request.url && 0 < length < 0x1_0000 ==>
                SpoiltBy(old(Next()), old(S()), old(request.V()), i, parts[k], Arriving(old(turns), length))
      decreases |schedule| - waits, 7
    {
      hide Inv, Leads, Follows, UrlKept, Before, SpoiltBy, HttpRequest.V, HttpRequest.Valid, HttpRequest.VerbStored;
      hide Grows, WiredAs, ForOwner, Lost, Prompt;
      ghost var b, memory := S(), source[..];
      assert memory[..length] == source[..length];
      FollowsLeads(a, b, i, Before(parts, |parts|)[..n]);
      GenerationGrows(a.l, b.l, i);
      if b.l.generation[i] == a.l.generation[i] { StillOwner(httpPort, a.l, b.l, i); }
      ghost var m, sent, v, h := 0, [], request.V(), if OneMore() then Next() else Of(AckFor(0));
      ghost var spoils := OneMore() && Prompt(turns + 1) && source == request.url && 0 < length < 0x1_0000;
      ghost var row, arriving := source[..length], Arriving(turns, length);
      ok, m, sent := TcpSendData(i, source, length);
      ghost var c := S();
      if spoils { SpoiltNow(h, b, v, i, row, arriving); }
      FollowsLeads(b, c, i, sent);
      FollowsGrows(b, c, i, sent);
      n' := NextSent(a, b, c, i, parts, k, n, memory, length, m, sent, ok);
      if !ok {
        FollowsLeads(a, c, i, Before(parts, |parts|)[..n']);
        Abandon(i, a.l);
        FollowsGrows(c, S(), 0, []);
        GrowsTransitive(b, c, S());
        if spoils { StillSpoilt(h, b, v, i, row, arriving, c); }
        FollowsAny(c, S(), 0, i);
        SendThenWait(a, c, S(), i, Before(parts, |parts|)[..n']);
      }
    }

    /** `HttpSendResponseHeader`, for the connection `i` of the request. `n` counts the bytes of the whole response
        that have reached the client. */
    method SendResponseHeader(i: nat, status: ValidStatus, headers: array<byte>, dataLength: u16,
                              ghost parts: seq<seq<byte>>)
      returns (ok: bool, ghost n: nat)
      requires Valid() && l.owner == Some(i) && l.slots[i].Established?
      requires headers !in Repr() && headers.Length < 0x1_0000
      requires |parts| == 4 && parts[0] == Cut(StatusRow(status.code, status.Text(), rb), request.lim.url)
      requires parts[1] == headers[..]
      requires parts[2] == Cut(LengthRow(dataLength, rb) + rb, request.lim.url) && |parts[3]| == dataLength
      modifies Repr()
      ensures Valid() && closing == old(closing) && waits >= old(waits)
      ensures requests >= old(requests) && turns >= old(turns)
      ensures n <= |Before(parts, 4)| && Follows(old(S()), S(), i, Before(parts, 4)[..n])
      ensures ok ==> RowsChecked(request.lim.url, status.Text(), rb)
      ensures ok && dataLength > 0 ==> Sending(old(S()), i, parts, 3, n)
      ensures ok && dataLength == 0 ==> n == |Before(parts, 4)| || WasLost(old(S()), i)
      ensures !ok || dataLength == 0 ==> Closed(old(S()), i)
      ensures Calm(old(Last()), old(S())) && Grows(old(S()), S())
      ensures old(Last()) && Prompt(old(turns)) && dataLength == 0 ==>
                RowsChecked(request.lim.url, status.Text(), rb) ==>
                n == |Before(parts, 4)| && i < |l.slots| && l.slots[i] == Empty
      ensures old(OneMore()) && Prompt(old(turns) + 1) && RowsChecked(request.lim.url, status.Text(), rb) ==>
                SpoiltBy(old(Next()), Begun(old(S())), Restarted(old(request.V())), i, parts[0],
                         Arriving(old(turns), |parts[0]|))
      decreases |schedule| - waits, 12
    {
      hide Inv, Leads, Follows, UrlKept, Before, StatusRow, LengthRow, Cut, Lost, SpoiltBy, HttpRequest.V, Grows;
      hide HttpRequest.Valid, HttpRequest.VerbStored, Limits.Valid, IsRowBreak;
      ghost var a, h, turn := S(), if OneMore() then Next() else Of(AckFor(0)), turns;
      SameSizes(httpPort, l);
      BeginResponse(i);
      EndsEmpty(a, S(), i, Before(parts, 4));
      FirstPart(parts);
      BegunGrows(a);
      ghost var o := S();
      ok, n := false, 0;
      var message := status.Text();
      if 8 + 2 + 5 + |message| + |rb| > request.lim.url || 16 + 5 + 2 * |rb| > request.lim.url {
        EndResponse(i, a, parts, 0);
        GrowsTransitive(a, o, S());
        return;
      }
      ok, n := SendHeader(i, status, headers, dataLength, a, parts);
      GrowsTransitive(a, o, S());
    }

    /** The rows of a response that can be printed, and the close behind one without a body. */
    method SendHeader(i: nat, status: ValidStatus, headers: array<byte>, dataLength: u16, ghost a: Shot,
                      ghost parts: seq<seq<byte>>)
      returns (ok: bool, ghost n: nat)
      requires Valid() && headers !in Repr() && |parts| == 4 && Inv(httpPort, a.l) && Sending(a, i, parts, 0, 0)
      requires parts[0] == Cut(StatusRow(status.code, status.Text(), rb), request.lim.url) && parts[1] == headers[..]
      requires parts[2] == Cut(LengthRow(dataLength, rb) + rb, request.lim.url) && |parts[3]| == dataLength
      requires RowsChecked(request.lim.url, status.Text(), rb) && headers.Length < 0x1_0000
      modifies Repr()
      ensures Valid() && closing == old(closing) && waits >= old(waits)
      ensures requests >= old(requests) && turns >= old(turns) && Grows(old(S()), S())
      ensures n <= |Before(parts, 4)| && Follows(a, S(), i, Before(parts, 4)[..n])
      ensures ok && dataLength > 0 ==> Sending(a, i, parts, 3, n)
      ensures ok && dataLength == 0 ==> n == |Before(parts, 4)| || WasLost(a, i)
      ensures !ok || dataLength == 0 ==> Closed(a, i)
      ensures i < |old(l).slots| == |old(l).generation| && Calm(old(Last()), old(S()))
      ensures old(Last()) && Prompt(old(turns)) && dataLength == 0 && old(l).slots[i].Established?
              && old(l).generation == a.l.generation ==>
                n == |Before(parts, 4)| && i < |l.slots| && l.slots[i] == Empty
      ensures old(OneMore()) && Prompt(old(turns) + 1) && old(l).phase == StartRequest ==>
                SpoiltBy(old(Next()), old(S()), old(request.V()), i, parts[0], Arriving(old(turns), |parts[0]|))
      decreases |schedule| - waits, 11
    {
      hide Inv, Leads, Follows, UrlKept, Before, StatusRow, LengthRow, Cut, Lost, SpoiltBy, HttpRequest.V, Grows;
      hide HttpRequest.Valid, HttpRequest.VerbStored, Limits.Valid, IsRowBreak, RowsChecked;
      ghost var o, v, h, turn := S(), request.V(), if OneMore() then Next() else Of(AckFor(0)), turns;
      ghost var spoils, row := OneMore() && Prompt(turns + 1) && l.phase == StartRequest, parts[0];
      ok, n := SendRows(i, status, headers, dataLength, a, parts);
      ghost var c := S();
      if ok && dataLength == 0 {
        if spoils { SpoiltNow(h, o, v, i, row, Arriving(turn, |row|)); }
        EndResponse(i, a, parts, n);
        GrowsTransitive(o, c, S());
        if spoils { StillSpoilt(h, o, v, i, row, Arriving(turn, |row|), c); }
        LastPart(parts);
      }
    }

    /** The close behind a response that is over or cannot be printed. */
    method EndResponse(i: nat, ghost a: Shot, ghost parts: seq<seq<byte>>, ghost n: nat)
      requires Valid() && |parts| == 4 && n <= |Before(parts, 4)| && Follows(a, S(), i, Before(parts, 4)[..n])
      requires i < |a.l.slots| && a.l.slots[i].Established?
      modifies Repr()
      ensures Valid() && closing == old(closing) && waits >= old(waits)
      ensures requests >= old(requests) && turns >= old(turns) && Grows(old(S()), S())
      ensures Follows(a, S(), i, Before(parts, 4)[..n]) && Closed(a, i) && Calm(old(Last()), old(S()))
      ensures i < |old(l).generation| && i < |l.slots|
      ensures Lost(old(l), i, a.l.generation[i]) ==> WasLost(a, i)
      ensures old(Last()) && old(l).generation[i] == a.l.generation[i] ==> !WasLost(a, i)
      ensures old(Last()) && old(l).slots[i].Established? ==> l.slots[i] == Empty
      decreases |schedule| - waits, 5
    {
      hide Inv, Leads, Follows, UrlKept, Before, Grows;
      ghost var b := S();
      FollowsLeads(a, b, i, Before(parts, 4)[..n]);
      Abandon(i, a.l);
      FollowsGrows(b, S(), 0, []);
      FollowsAny(b, S(), 0, i);
      SendThenWait(a, b, S(), i, Before(parts, 4)[..n]);
    }

    /** The connection that slot `i` had at `a` was closed, and so was one that took its slot. */
    ghost predicate WasLost(a: Shot, i: nat)
      reads this
    {
      i < |a.l.generation| && i < |l.generation| && a.l.generation[i] + 2 <= l.generation[i]
    }

    /** A response begins: bytes of the client count as a new request from here on. */
    method BeginResponse(i: nat)
      requires Valid() && l.owner == Some(i) && l.slots[i].Established?
      modifies this`l, request`phase
      ensures Valid() && l == old(l).(phase := StartRequest) && Leads(old(l), l) && Follows(old(S()), S(), i, [])
      ensures request.V() == Restarted(old(request.V())) && S() == Begun(old(S()))
    {
      ghost var a := S();
      PhaseKeeps(httpPort, l, StartRequest);
      l := l.(phase := StartRequest);
      request.phase := StartRequest;
      TableFollows(a, l);
      FollowsAny(a, S(), 0, i);
    }

    /** A row is printed over whatever the URL buffer holds. */
    method PrintRow(text: seq<byte>, ghost a: Shot, ghost i: nat, ghost parts: seq<seq<byte>>, ghost k: nat,
                    ghost n: nat)
      returns (length: nat)
      requires Valid() && NoNul(text) && Sending(a, i, parts, k, n)
      modifies request.url
      ensures Valid() && length <= request.url.Length && request.url[..length] == Cut(text, request.lim.url)
      ensures Sending(a, i, parts, k, n) && S() == old(S()).(url := request.url[..]) && waits == old(waits)
      ensures turns == old(turns) && (l.phase == StartRequest ==> request.V() == old(request.V()))
    {
      hide Follows, CString, Before, Cut, NoNul, Lost;
      ghost var b := S();
      Print(request.url, request.lim.url, text);
      length := |CString(request.url[..])|;
      UrlAside(a, b, i, Before(parts, |parts|)[..n], request.url[..]);
      assert S() == b.(url := request.url[..]);
    }

    /** A row is printed and sent. */
    method SendRow(text: seq<byte>, i: nat, ghost a: Shot, ghost parts: seq<seq<byte>>, ghost k: nat, ghost n: nat)
      returns (ok: bool, ghost n': nat)
      requires Valid() && NoNul(text) && Sending(a, i, parts, k, n) && k < |parts| && Inv(httpPort, a.l)
      requires parts[k] == Cut(text, request.lim.url) && 0 < |parts[k]| < 0x1_0000
      modifies Repr()
      ensures Valid() && closing == old(closing) && waits >= old(waits)
      ensures requests >= old(requests) && turns >= old(turns) && i < |old(l).slots| && Grows(old(S()), S())
      ensures n' <= |Before(parts, |parts|)| && Follows(a, S(), i, Before(parts, |parts|)[..n'])
      ensures if ok then Sending(a, i, parts, k + 1, n') else Closed(a, i)
      ensures Calm(old(Last()), old(S()))
      ensures old(Last()) && Prompt(old(turns)) && old(l).slots[i].Established? ==> ok && l == old(l)
      ensures old(OneMore()) && Prompt(old(turns) + 1) && old(l).phase == StartRequest ==>
                SpoiltBy(old(Next()), old(S()), old(request.V()), i, parts[k], Arriving(old(turns), |parts[k]|))
      decreases |schedule| - waits, 8
    {
      hide Inv, Leads, Follows, Before, Cut, Sending, NoNul, SpoiltBy, HttpRequest.V, HttpRequest.Valid, Grows;
      ghost var v, h, turn := request.V(), if OneMore() then Next() else Of(AckFor(0)), turns;
      ghost var spoils, b := OneMore() && Prompt(turns + 1) && l.phase == StartRequest, S();
      var length := PrintRow(text, a, i, parts, k, n);
      ghost var c := S();
      ok, n' := SendOrAbandon(i, request.url, length, a, parts, k, n);
      UrlGrows(b, c.url, S());
      if spoils { PrintedSpoils(h, b, v, i, parts[k], Arriving(turn, |parts[k]|), c.url); }
    }

    /** What is in the buffer does not matter to what the client has got. */
    lemma PrintedSpoils(h: Happening, b: Shot, v: Request, i: nat, row: seq<byte>, k: nat, url: seq<byte>)
      requires SpoiltBy(h, b.(url := url), v, i, row, k)
      ensures SpoiltBy(h, b, v, i, row, k)
    {
    }

    /** Both rows and the headers between them. */
    method SendRows(i: nat, status: ValidStatus, headers: array<byte>, dataLength: u16, ghost a: Shot,
                    ghost parts: seq<seq<byte>>)
      returns (ok: bool, ghost n: nat)
      requires Valid() && headers !in Repr() && |parts| == 4 && Inv(httpPort, a.l) && Sending(a, i, parts, 0, 0)
      requires parts[0] == Cut(StatusRow(status.code, status.Text(), rb), request.lim.url) && parts[1] == headers[..]
      requires parts[2] == Cut(LengthRow(dataLength, rb) + rb, request.lim.url)
      requires RowsChecked(request.lim.url, status.Text(), rb) && headers.Length < 0x1_0000
      modifies Repr()
      ensures Valid() && closing == old(closing) && waits >= old(waits)
      ensures requests >= old(requests) && turns >= old(turns)
      ensures i < |old(l).slots| == |old(l).generation| && Grows(old(S()), S())
      ensures n <= |Before(parts, 4)| && Follows(a, S(), i, Before(parts, 4)[..n])
      ensures if ok then Sending(a, i, parts, 3, n) else Closed(a, i)
      ensures Calm(old(Last()), old(S()))
      ensures old(Last()) && Prompt(old(turns)) && old(l).slots[i].Established? ==> ok && l == old(l)
      ensures old(OneMore()) && Prompt(old(turns) + 1) && old(l).phase == StartRequest ==>
                SpoiltBy(old(Next()), old(S()), old(request.V()), i, parts[0], Arriving(old(turns), |parts[0]|))
      decreases |schedule| - waits, 10
    {
      hide Inv, Leads, Follows, Before, StatusRow, LengthRow, Cut, Sending, NoNul, SpoiltBy, Grows;
      hide HttpRequest.V, HttpRequest.Valid, HttpRequest.VerbStored, IsRowBreak;
      SameSizes(httpPort, l);
      RowsNoNul(status.code, status.Text(), dataLength, rb);
      RowsAreShort(request.lim.url, status, dataLength, rb);
      ghost var v, h, turn := request.V(), if OneMore() then Next() else Of(AckFor(0)), turns;
      ghost var spoils, b := OneMore() && Prompt(turns + 1) && l.phase == StartRequest, S();
      ok, n := SendRow(StatusRow(status.code, status.Text(), rb), i, a, parts, 0, 0);
      if !ok {
        return;
      }
      ghost var c := S();
      if spoils { SpoiltNow(h, b, v, i, parts[0], Arriving(turn, |parts[0]|)); }
      ok, n := SendMore(i, status, headers, dataLength, a, parts, n);
      GrowsTransitive(b, c, S());
      if spoils { StillSpoilt(h, b, v, i, parts[0], Arriving(turn, |parts[0]|), c); }
    }

    lemma SpoiltNow(h: Happening, a: Shot, v: Request, i: nat, row: seq<byte>, k: nat)
      requires SpoiltBy(h, a, v, i, row, k)
      ensures SpoiltAt(h, a, v, i, row, k, S())
    {
    }

    /** The headers and the second row. */
    method SendMore(i: nat, status: ValidStatus, headers: array<byte>, dataLength: u16, ghost a: Shot,
                    ghost parts: seq<seq<byte>>, ghost n0: nat)
      returns (ok: bool, ghost n: nat)
      requires Valid() && headers !in Repr() && |parts| == 4 && Inv(httpPort, a.l) && Sending(a, i, parts, 1, n0)
      requires parts[1] == headers[..] && headers.Length < 0x1_0000
      requires parts[2] == Cut(LengthRow(dataLength, rb) + rb, request.lim.url)
      requires RowsChecked(request.lim.url, status.Text(), rb)
      modifies Repr()
      ensures Valid() && closing == old(closing) && waits >= old(waits)
      ensures requests >= old(requests) && turns >= old(turns)
      ensures i < |old(l).slots| == |old(l).generation| && Grows(old(S()), S())
      ensures n <= |Before(parts, 4)| && Follows(a, S(), i, Before(parts, 4)[..n])
      ensures if ok then Sending(a, i, parts, 3, n) else Closed(a, i)
      ensures Calm(old(Last()), old(S()))
      ensures old(Last()) && Prompt(old(turns)) && old(l).slots[i].Established? ==> ok && l == old(l)
      decreases |schedule| - waits, 9
    {
      hide Inv, Leads, Follows, Before, StatusRow, LengthRow, Cut, Sending, NoNul, Grows;
      hide HttpRequest.Valid, HttpRequest.VerbStored, IsRowBreak;
      SameSizes(httpPort, l);
      RowsNoNul(status.code, status.Text(), dataLength, rb);
      RowsAreShort(request.lim.url, status, dataLength, rb);
      ghost var b := S();
      n := n0;
      if headers.Length > 0 {
        assert headers[..headers.Length] == parts[1];
        ok, n := SendOrAbandon(i, headers, headers.Length, a, parts, 1, n);
        if !ok {
          return;
        }
      } else {
        SkipEmpty(a, i, parts, n);
        SelfGrows(b);
      }
      ghost var c := S();
      ok, n := SendRow(LengthRow(dataLength, rb) + rb, i, a, parts, 2, n);
      GrowsTransitive(b, c, S());
    }

    /** Headers that are empty are not sent. */
    lemma SkipEmpty(a: Shot, i: nat, parts: seq<seq<byte>>, n: nat)
      requires |parts| == 4 && parts[1] == [] && Sending(a, i, parts, 1, n)
      ensures Sending(a, i, parts, 2, n)
    {
      assert Before(parts, 2) == Before(parts, 1) + parts[1];
    }

    /** `HttpSendResponse`. As long as none of its data strikes, the client gets nothing but the response as
        printed, and all of it when this succeeds, unless its connection was lost to another; either way its
        connection is closed and the listener no longer its own. `n` counts the bytes that reached it. */
    method SendResponse(status: ValidStatus, headers: array<byte>, body: array<byte>) returns (ok: bool, ghost n: nat)
      requires Valid() && headers !in Repr() && body !in Repr() && headers.Length < 0x1_0000 && body.Length < 0x1_0000
      modifies Repr()
      ensures Valid() && closing == old(closing) && waits >= old(waits)
      ensures requests >= old(requests) && turns >= old(turns)
      ensures old(l.phase) != Handling ==> !ok && S() == old(S())
      ensures old(l.phase) == Handling ==>
                var i := old(l).owner.value;
                var printed := PrintedResponse(request.lim.url, status.code, status.Text(), rb, headers[..], body[..]);
                Passed(old(l), l) && Closed(old(S()), i) && n <= |printed| && Follows(old(S()), S(), i, printed[..n])
                && (ok ==> RowsChecked(request.lim.url, status.Text(), rb) && (n == |printed| || WasLost(old(S()), i)))
      ensures old(l.phase) == Handling ==>
                var i, row := old(l).owner.value, Cut(StatusRow(status.code, status.Text(), rb), request.lim.url);
                Grows(old(S()), S())
                && (old(OneMore()) && Prompt(old(turns) + 1) && RowsChecked(request.lim.url, status.Text(), rb) ==>
                    SpoiltBy(old(Next()), Begun(old(S())), Restarted(old(request.V())), i, row,
                             Arriving(old(turns), |row|)))
      decreases |schedule| - waits, 14
    {
      hide Inv, Leads, Follows, Before, StatusRow, LengthRow, Cut, Lost, PrintedResponse, RowsChecked, SpoiltBy, Grows;
      hide HttpRequest.V, HttpRequest.Valid, HttpRequest.VerbStored, IsRowBreak;
      ok, n := false, 0;
      if l.phase != Handling {
        return;
      }
      SameSizes(httpPort, l);
      HandlingIsOpen(httpPort, l);
      var i := l.owner.value;
      ghost var a := S();
      ghost var parts := [Cut(StatusRow(status.code, status.Text(), rb), request.lim.url), headers[..],
                          Cut(LengthRow(body.Length, rb) + rb, request.lim.url), body[..]];
      PartsOfResponse(parts, request.lim.url, status.code, status.Text(), rb, headers[..], body[..]);
      ok, n := SendParts(i, status, headers, body, parts);
      FollowsLeads(a, S(), i, Before(parts, 4)[..n]);
      ClosedIsPassed(a.l, l, i);
    }

    /** The response to the owner. */
    method SendParts(i: nat, status: ValidStatus, headers: array<byte>, body: array<byte>, ghost parts: seq<seq<byte>>)
      returns (ok: bool, ghost n: nat)
      requires Valid() && headers !in Repr() && body !in Repr() && headers.Length < 0x1_0000 && body.Length < 0x1_0000
      requires l.owner == Some(i) && l.slots[i].Established? && |parts| == 4
      requires parts[0] == Cut(StatusRow(status.code, status.Text(), rb), request.lim.url) && parts[1] == headers[..]
      requires parts[2] == Cut(LengthRow(body.Length, rb) + rb, request.lim.url) && parts[3] == body[..]
      modifies Repr()
      ensures Valid() && closing == old(closing) && waits >= old(waits)
      ensures requests >= old(requests) && turns >= old(turns) && Grows(old(S()), S())
      ensures Closed(old(S()), i) && n <= |Before(parts, 4)| && Follows(old(S()), S(), i, Before(parts, 4)[..n])
      ensures ok ==> RowsChecked(request.lim.url, status.Text(), rb)
      ensures ok ==> n == |Before(parts, 4)| || WasLost(old(S()), i)
      ensures old(OneMore()) && Prompt(old(turns) + 1) && RowsChecked(request.lim.url, status.Text(), rb) ==>
                SpoiltBy(old(Next()), Begun(old(S())), Restarted(old(request.V())), i, parts[0],
                         Arriving(old(turns), |parts[0]|))
      decreases |schedule| - waits, 13
    {
      hide Inv, Leads, Follows, Before, StatusRow, LengthRow, Cut, Lost, PrintedResponse, RowsChecked, SpoiltBy, Grows;
      hide HttpRequest.V, HttpRequest.Valid, HttpRequest.VerbStored, IsRowBreak;
      ghost var a, h, v, turn := S(), if OneMore() then Next() else Of(AckFor(0)), Restarted(request.V()), turns;
      ghost var spoils, row := OneMore() && Prompt(turns + 1), parts[0];
      ok, n := SendResponseHeader(i, status, headers, body.Length, parts);
      if ok && body.Length > 0 {
        ghost var c := S();
        if spoils { SpoiltNow(h, Begun(a), v, i, row, Arriving(turn, |row|)); }
        ok, n := SendBody(i, body, a, parts, n);
        GrowsTransitive(a, c, S());
        if spoils {
          UnbegunGrows(a, c);
          StillSpoilt(h, Begun(a), v, i, row, Arriving(turn, |row|), c);
        }
      }
    }

    /** The body of a response, and the close behind it. */
    method SendBody(i: nat, body: array<byte>, ghost a: Shot, ghost parts: seq<seq<byte>>, ghost n: nat)
      returns (ok: bool, ghost n': nat)
      requires Valid() && body !in Repr() && Inv(httpPort, a.l) && |parts| == 4 && body[..] == parts[3]
      requires Sending(a, i, parts, 3, n)
      modifies Repr()
      ensures Valid() && closing == old(closing) && waits >= old(waits)
      ensures requests >= old(requests) && turns >= old(turns)
      ensures n' <= |Before(parts, 4)| && Follows(a, S(), i, Before(parts, 4)[..n']) && Closed(a, i)
      ensures ok ==> n' == |Before(parts, 4)| || WasLost(a, i)
      ensures Grows(old(S()), S())
      decreases |schedule| - waits, 8
    {
      hide Inv, Leads, Follows, Before, Lost, Grows;
      assert body[..body.Length] == parts[3];
      ghost var o := S();
      ok, n' := SendOrAbandon(i, body, body.Length, a, parts, 3, n);
      if ok {
        ghost var b := S();
        FollowsLeads(a, b, i, Before(parts, 4)[..n']);
        Abandon(i, a.l);
        FollowsGrows(b, S(), 0, []);
        GrowsTransitive(o, b, S());
        FollowsAny(b, S(), 0, i);
        SendThenWait(a, b, S(), i, Before(parts, 4)[..n']);
      }
    }

    /** What the application answers, from memory of its own. `sent` is what reached the client. */
    method Answer(i: nat, reply: ValidReply) returns (ghost sent: seq<byte>)
      requires Valid() && l.phase == Handling && l.owner == Some(i)
      modifies Repr()
      ensures Valid() && closing == old(closing) && waits >= old(waits)
      ensures requests >= old(requests) && turns >= old(turns)
      ensures Closed(old(S()), i) && Passed(old(l), l) && Follows(old(S()), S(), i, sent)
      decreases |schedule| - waits, 15
    {
      hide Inv, Leads, Follows, PrintedResponse, RowsChecked;
      var headers := new byte[|reply.headers|](k requires 0 <= k < |reply.headers| => reply.headers[k]);
      var body := new byte[|reply.body|](k requires 0 <= k < |reply.body| => reply.body[k]);
      var ok;
      ghost var n;
      ok, n := SendResponse(reply.status, headers, body);
      sent := PrintedResponse(request.lim.url, reply.status.code, reply.status.Text(), rb, headers[..], body[..])[..n];
    }

    /** The call of `HttpOnIncomingRequest`, and the close if it did not answer. */
    method OnIncomingRequest(i: nat) returns (ghost sent: seq<byte>)
      requires Valid() && l.phase == Handling && l.owner == Some(i)
      modifies Repr()
      ensures Valid() && closing == old(closing) && waits >= old(waits)
      ensures requests > old(requests) && turns >= old(turns)
      ensures Closed(old(S()), i) && Passed(old(l), l) && Follows(old(S()), S(), i, sent)
      decreases |schedule| - waits, 16
    {
      SameSizes(httpPort, l);
      ghost var a := S();
      assert l.slots[i].Established?;
      hide Inv, Leads, Follows;
      var reply := replies(requests);
      requests := requests + 1;
      sent := [];
      SelfFollows(a, i);
      assert S() == a;
      if reply.Some? {
        sent := Answer(i, reply.value);
      }
      FollowsLeads(a, S(), i, sent);
      if l.phase == Handling {
        ghost var b := S();
        Abandon(i, a.l);
        FollowsAny(b, S(), 0, i);
        SendThenWait(a, b, S(), i, sent);
        FollowsLeads(a, S(), i, sent);
        ClosedIsPassed(a.l, l, i);
      }
    }

    /** `HttpTcpOnIncomingData` for an established connection. Data that would overrun the body buffer is not part
        of the model. Once a request is refused or handled, its connection is closed and the listener no longer
        its own. */
    method OnIncomingData(i: nat, chunk: seq<byte>) returns (ghost b: Shot, ghost sent: seq<byte>)
      requires Valid() && i < |l.slots| && l.slots[i].Established?
      modifies Repr()
      ensures Valid() && closing == old(closing) && waits >= old(waits)
      ensures requests >= old(requests) && turns >= old(turns)
      ensures Follows(old(S()), S(), 0, []) && UrlKept(old(S()), S())
      ensures old(l).owner != Some(i) || !RequestRoom(request.lim, old(request.V()), chunk) ==> S() == old(S())
      ensures old(l).owner == Some(i) && RequestRoom(request.lim, old(request.V()), chunk) ==>
                match ParseRequest(request.lim, old(request.V()), chunk)
                case Await(s') =>
                  request.V() == s' && l == old(l).(phase := s'.phase) && got == old(got) && requests == old(requests)
                case Refuse(status) =>
                  && Closed(old(S()), i) && Passed(old(l), l) && sent <= Refused(status, old(l).phase == Handling)
                  && b == old(S()).(l := b.l, url := b.url, struck := b.struck) && b.l == old(l).(phase := b.l.phase)
                  && Follows(b, S(), i, sent)
                case Serve(_) => Closed(old(S()), i) && Passed(old(l), l) && requests > old(requests)
      ensures old(Last()) && Prompt(old(turns)) ==> CameOf(DataFor(i, chunk), old(S()), old(request.V()))
      decreases |schedule| - waits, 17
    {
      b, sent := S(), [];
      SameSizes(httpPort, l);
      SelfFollows(S(), 0);
      if l.owner != Some(i) || !RequestRoom(request.lim, request.V(), chunk) {
        return;
      }
      hide Inv, Leads, Follows, UrlKept, RequestRoom, ParseRequest, HttpRequest.V, HttpRequest.Valid, CameOf;
      hide Shot.Struck, Refused;
      ghost var a, v, last := S(), request.V(), Last() && Prompt(turns);
      var served, refused, invalid := Read(i, chunk);
      b := S();
      FollowsLeads(a, b, 0, []);
      if refused != 0 {
        sent := Refuse(i, refused, invalid);
        StruckFollows(a, b, S(), i, sent);
        ClosedSince(a, b, S(), i, sent);
        if last { CameRefused(a, v, i, chunk, b, sent); }
      } else if served {
        sent := OnIncomingRequest(i);
        StruckFollows(a, b, S(), i, sent);
        ClosedSince(a, b, S(), i, sent);
        if last { CameServed(a, v, i, chunk); }
      } else if last {
        CameAwaited(a, v, i, chunk);
      }
    }

    lemma CameAwaited(a: Shot, v: Request, i: nat, chunk: seq<byte>)
      requires i < |a.l.slots| == |a.l.generation| && ParseRequest(request.lim, v, chunk).Await? && Last()
      requires var s' := ParseRequest(request.lim, v, chunk).state;
               Stored(a.url, s'.url) && l == a.l.(phase := s'.phase) && got == a.got
      ensures CameOf(DataFor(i, chunk), a, v)
    {
      hide RequestRoom, ParseRequest;
    }

    lemma CameServed(a: Shot, v: Request, i: nat, chunk: seq<byte>)
      requires i < |a.l.slots| == |a.l.generation| && ParseRequest(request.lim, v, chunk).Serve? && Last()
      ensures CameOf(DataFor(i, chunk), a, v)
    {
      hide RequestRoom, ParseRequest;
    }

    lemma CameRefused(a: Shot, v: Request, i: nat, chunk: seq<byte>, b: Shot, sent: seq<byte>)
      requires i < |a.l.slots| == |a.l.generation| && ParseRequest(request.lim, v, chunk).Refuse? && request.lim.Valid()
      requires Last() && b.l.generation == a.l.generation && b.got == a.got && struck == b.struck
      requires Follows(b, S(), i, sent) && i < |b.l.slots| == |b.l.generation|
      requires var status := ParseRequest(request.lim, v, chunk).status;
               a.l.phase != Handling && RowsChecked(request.lim.url, Refusal(status, false).Text(), rb) ==>
                 sent == Refused(status, false) && i < |l.slots| && l.slots[i] == Empty
      ensures CameOf(DataFor(i, chunk), a, v)
    {
      hide RequestRoom, ParseRequest, RowsChecked, PrintedResponse;
      assert SlotFollows(b, S(), i, Share(i, i, sent));
    }

    /** The parser runs, and the state moves on with it. */
    method Parse(i: nat, chunk: seq<byte>) returns (served: bool, refused: u16)
      requires Valid() && l.owner == Some(i) && i < |l.slots| && l.slots[i].Established?
      requires RequestRoom(request.lim, request.V(), chunk)
      modifies Repr()
      ensures Valid() && closing == old(closing) && waits == old(waits) && requests == old(requests)
      ensures turns == old(turns)
      ensures got == old(got) && struck == old(struck) && l == old(l).(phase := l.phase) && Leads(old(l), l)
      ensures served ==> l.phase == Handling
      ensures Harmless(request.lim, old(request.V()), chunk) ==> request.url[..] == old(request.url[..])
      ensures match ParseRequest(request.lim, old(request.V()), chunk)
              case Await(s') => !served && refused == 0 && request.V() == s' && Stored(old(request.url[..]), s'.url)
              case Refuse(status) => !served && refused == status
              case Serve(_) => served && refused == 0
    {
      hide RequestRoom, ParseRequest, Inv, Leads, Harmless, Limits.Valid, IsRowBreak, Stored;
      hide HttpRequest.V, HttpRequest.Valid, HttpRequest.VerbStored;
      SameSizes(httpPort, l);
      ghost var before := l;
      served, refused := Digest(chunk);
      assert l == before;
      PhaseKeeps(httpPort, l, request.phase);
      l := l.(phase := request.phase);
      assert l.slots == before.slots;
    }

    /** The URL has been stored at the beginning of its buffer. */
    ghost predicate Stored(memory: seq<byte>, url: seq<byte>)
      reads request.url
    {
      |url| <= |memory| && request.url[..] == Patch(memory, 0, url)
    }

    lemma StoredIs(memory: seq<byte>, url: seq<byte>)
      requires |url| <= |memory| && request.url[..] == Patch(memory, 0, url)
      ensures Stored(memory, url)
    {
    }

    /** The parser alone. What it stores in the URL buffer starts at its beginning. */
    method Digest(chunk: seq<byte>) returns (served: bool, refused: u16)
      requires request.Valid() && request.VerbStored() && request.phase != NoRequest
      requires RequestRoom(request.lim, request.V(), chunk)
      modifies request, request.message, request.message.headers, request.message.data, request.verb, request.url
      ensures request.Valid() && request.VerbStored() && request.phase != NoRequest && request.phase != EndMessage
      ensures served ==> request.phase == Handling
      ensures Harmless(request.lim, old(request.V()), chunk) ==> request.url[..] == old(request.url[..])
      ensures match ParseRequest(request.lim, old(request.V()), chunk)
              case Await(s') => !served && refused == 0 && request.V() == s' && Stored(old(request.url[..]), s'.url)
              case Refuse(status) => !served && refused == status
              case Serve(_) => served && refused == 0
    {
      hide *;
      HarmlessIsAwaited(request.lim, request.V(), chunk);
      ghost var memory := request.url[..];
      served, refused := request.OnIncomingData(chunk);
      request.UrlInPlace();
      PatchFrom(request.url[..], memory, request.V().url);
      StoredIs(memory, request.V().url);
      if |request.V().url| == 0 { SameFromStart(request.url[..], old(request.url[..])); }
    }

    /** The parser takes a chunk of the owner's. */
    method Read(i: nat, chunk: seq<byte>) returns (served: bool, refused: u16, invalid: bool)
      requires Valid() && l.owner == Some(i) && i < |l.slots| && l.slots[i].Established?
      requires RequestRoom(request.lim, request.V(), chunk)
      modifies Repr()
      ensures Valid() && closing == old(closing) && waits == old(waits) && requests == old(requests) && got == old(got)
      ensures turns == old(turns)
      ensures l == old(l).(phase := l.phase) && Follows(old(S()), S(), 0, []) && UrlKept(old(S()), S())
      ensures served ==> l.phase == Handling
      ensures invalid == (old(l).phase == Handling)
      ensures served || refused != 0 ==>
                struck == old(struck)[old(S()).Present(i) := old(S()).Struck(old(S()).Present(i)) + 1]
      ensures served || refused != 0 ==> S().Struck(S().Present(i)) > old(S()).Struck(old(S()).Present(i))
      ensures match ParseRequest(request.lim, old(request.V()), chunk)
              case Await(s') => !served && refused == 0 && request.V() == s' && Stored(old(request.url[..]), s'.url)
              case Refuse(status) => !served && refused == status != 0
              case Serve(_) => served && refused == 0
    {
      hide RequestRoom, ParseRequest, Follows, UrlKept, Inv, Leads, Harmless, Limits.Valid, IsRowBreak, Stored;
      hide HttpRequest.V, HttpRequest.Valid, HttpRequest.VerbStored, Shot.Struck, Shot.Got;
      ghost var a, v, harmless := S(), request.V(), Harmless(request.lim, request.V(), chunk);
      invalid := l.phase == Handling;
      SameSizes(httpPort, l);
      HarmlessIsAwaited(request.lim, v, chunk);
      RefusalHasStatus(request.lim, v, chunk);
      served, refused := Parse(i, chunk);
      Strike(a.Present(i), a.Struck(a.Present(i)), harmless);
      ReadFollows(a, S(), i, harmless);
    }

    /** Data that is not harmless is counted; there have been `count` chunks of it. */
    ghost method Strike(c: Conn, count: nat, harmless: bool)
      requires Valid()
      modifies this`struck
      ensures Valid() && request.V() == old(request.V())
      ensures struck == if harmless then old(struck) else old(struck)[c := count + 1]
    {
      hide Inv;
      if !harmless {
        struck := struck[c := count + 1];
      }
    }

    /** The answer to a chunk that is refused. `sent` is what reached the client. */
    method Refuse(i: nat, refused: u16, invalid: bool) returns (ghost sent: seq<byte>)
      requires Valid() && l.owner == Some(i) && i < |l.slots| && l.slots[i].Established?
      modifies Repr()
      ensures Valid() && closing == old(closing) && waits >= old(waits)
      ensures requests >= old(requests) && turns >= old(turns)
      ensures Closed(old(S()), i) && Follows(old(S()), S(), i, sent)
      ensures sent <= Refused(refused, invalid) && Calm(old(Last()), old(S()))
      ensures old(Last()) && Prompt(old(turns)) ==>
                RowsChecked(request.lim.url, Refusal(refused, invalid).Text(), rb) ==>
                sent == Refused(refused, invalid) && i < |l.slots| && l.slots[i] == Empty
      decreases |schedule| - waits, 13
    {
      hide Inv, Leads, Follows, StatusRow, LengthRow, Cut, Before, RowsChecked, SpoiltBy, PrintedResponse, Grows;
      var status, none := Refusal(refused, invalid), new byte[0];
      ghost var parts := [Cut(StatusRow(status.code, status.Text(), rb), request.lim.url), none[..],
                          Cut(LengthRow(0, rb) + rb, request.lim.url), []];
      PartsOfResponse(parts, request.lim.url, status.code, status.Text(), rb, [], []);
      var ok;
      ghost var n;
      ok, n := SendResponseHeader(i, status, none, 0, parts);
      sent := Before(parts, 4)[..n];
    }

    /** A refusal as it is printed. */
    ghost function Refused(refused: u16, invalid: bool): seq<byte>
      requires request.lim.Valid()
    {
      var r := Refusal(refused, invalid);
      PrintedResponse(request.lim.url, r.code, r.Text(), rb, [], [])
    }
  }

  lemma FollowsLeads(a: Shot, b: Shot, i: nat, sent: seq<byte>)
    requires Follows(a, b, i, sent)
    ensures Leads(a.l, b.l) && |a.l.slots| == |a.l.generation| == |b.l.slots| == |b.l.generation|
  {
  }

  lemma GenerationGrows(l: Listener, l': Listener, i: nat)
    requires Leads(l, l') && i < |l.slots|
    ensures l.generation[i] <= l'.generation[i]
  {
    assert SlotLeads(l, l', i);
  }

  /** While its connection lives and none of its data strikes, the rows being sent to the owner stand. */
  lemma UrlOfOwner(a: Shot, b: Shot, i: nat)
    requires UrlKept(a, b) && i < |a.l.generation| && i < |b.l.generation| && b.l.generation[i] == a.l.generation[i]
    ensures a.l.owner == Some(i) && b.Struck(a.Present(i)) == a.Struck(a.Present(i)) ==> b.url == a.url
  {
  }

  /** Sending changes neither the table nor the rows. */
  lemma SelfUrl(b: Shot, c: Shot)
    requires c.l == b.l && c.url == b.url
    ensures UrlKept(b, c)
  {
  }

  lemma SendThenWait(a: Shot, c: Shot, d: Shot, i: nat, sent: seq<byte>)
    requires Follows(a, c, i, sent) && Follows(c, d, i, []) && i < |a.l.slots|
    ensures Follows(a, d, i, sent)
  {
    FollowsTransitive(a, c, d, i, sent, []);
    assert sent + [] == sent;
  }

  lemma UrlThenWait(a: Shot, b: Shot, c: Shot, d: Shot, i: nat, sent: seq<byte>, sent': seq<byte>)
    requires Follows(a, b, i, sent) && UrlKept(a, b) && c.l == b.l && c.url == b.url && c.struck == b.struck
    requires Follows(a, c, i, sent') && Follows(c, d, i, []) && UrlKept(c, d) && Follows(a, d, i, sent')
    ensures UrlKept(a, d)
  {
    assert UrlKept(a, c);
    UrlKeptTransitive(a, c, d, i, sent', []);
  }

  /** What has reached the client after one more `TcpSendData`, of part `k`. */
  lemma NextSent(a: Shot, b: Shot, c: Shot, i: nat, parts: seq<seq<byte>>, k: nat, n: nat, memory: seq<byte>,
                 length: nat, m: nat,
                 sent: seq<byte>, ok: bool) returns (n': nat)
    requires k < |parts|
    requires i < |a.l.slots| == |a.l.generation| == |b.l.slots| == |b.l.generation| == |c.l.slots| == |c.l.generation|
    requires n <= |Before(parts, |parts|)| && Follows(a, b, i, Before(parts, |parts|)[..n]) && Follows(b, c, i, sent)
    requires n == |Before(parts, k)| || Lost(b.l, i, a.l.generation[i])
    requires m <= length <= |memory| && memory[..length] == parts[k]
    requires b.l.generation[i] == a.l.generation[i] ==> sent == memory[..m]
    requires ok ==> b.l.slots[i].Established? && (m == length || Lost(c.l, i, b.l.generation[i]))
    ensures n' <= |Before(parts, |parts|)| && Follows(a, c, i, Before(parts, |parts|)[..n'])
    ensures ok ==> n' == |Before(parts, k + 1)| || Lost(c.l, i, a.l.generation[i])
  {
    hide Follows;
    FollowsTransitive(a, b, c, i, Before(parts, |parts|)[..n], sent);
    FollowsLeads(a, b, i, Before(parts, |parts|)[..n]);
    FollowsLeads(b, c, i, sent);
    GenerationGrows(a.l, b.l, i);
    if b.l.generation[i] == a.l.generation[i] {
      ArrivedPart(parts, k, m, |parts|);
      ArrivedPart(parts, k, 0, |parts|);
      assert memory[..m] == parts[k][..m];
      assert Before(parts, k) + parts[k][..0] == Before(parts, k);
      n' := n + m;
    } else {
      n' := n;
      if ok { LostStays(b.l, c.l, i, a.l.generation[i]); }
    }
  }

  /** A connection that lives on still owns the listener. */
  lemma StillOwner(httpPort: u16, l: Listener, l': Listener, i: nat)
    requires Inv(httpPort, l) && Inv(httpPort, l') && Leads(l, l') && l.owner == Some(i) && l.slots[i].Established?
    requires l'.generation[i] == l.generation[i]
    ensures l'.owner == Some(i)
  {
    assert SlotLeads(l, l', i);
  }

  lemma UrlAside(a: Shot, b: Shot, i: nat, sent: seq<byte>, url: seq<byte>)
    requires Follows(a, b, i, sent)
    ensures Follows(a, b.(url := url), i, sent)
  {
    var c := b.(url := url);
    forall j | 0 <= j < |a.l.slots|
      ensures SlotFollows(a, c, j, Share(i, j, sent))
    {
      assert SlotFollows(a, b, j, Share(i, j, sent));
    }
  }

  /** A response of which nothing has been sent. */
  lemma FirstPart(parts: seq<seq<byte>>)
    ensures |Before(parts, 0)| == 0
  {
  }

  lemma EndsEmpty(a: Shot, c: Shot, i: nat, all: seq<byte>)
    requires Follows(a, c, i, [])
    ensures Follows(a, c, i, all[..0])
  {
    assert all[..0] == [];
  }

  /** A response without a body is complete behind its rows. */
  lemma LastPart(parts: seq<seq<byte>>)
    requires |parts| == 4 && parts[3] == []
    ensures Before(parts, 4) == Before(parts, 3)
  {
  }

  /** The parts of a response, put together. */
  lemma PartsOfResponse(parts: seq<seq<byte>>, limit: nat, code: u16, message: seq<byte>, rb: seq<byte>,
                        headers: seq<byte>, body: seq<byte>)
    requires 0 < limit && |parts| == 4 && parts[0] == Cut(StatusRow(code, message, rb), limit) && parts[1] == headers
    requires parts[2] == Cut(LengthRow(|body|, rb) + rb, limit) && parts[3] == body
    ensures Before(parts, 4) == PrintedResponse(limit, code, message, rb, headers, body)
  {
    hide StatusRow, LengthRow, Cut;
    assert Before(parts, 1) == parts[0];
    assert Before(parts, 2) == parts[0] + parts[1];
    assert Before(parts, 3) == parts[0] + parts[1] + parts[2];
  }

  const INVALID_STATE: seq<byte> := Bytes("Request Is In Invalid State")
  const HEADER_SYNTAX: seq<byte> := Bytes("Header Syntax Error")
  const LENGTH_REQUIRED: seq<byte> := Bytes("Length Required")
  const TOO_LARGE: seq<byte> := Bytes("Payload Too Large")
  const URI_TOO_LONG: seq<byte> := Bytes("URI Too Long")
  const PART_TOO_LONG: seq<byte> := Bytes("Header Part Too Long")

  /** The statuses the parser refuses a request with. */
  function Refusal(code: u16, invalid: bool): ValidStatus
  {
    RefusalsAreText();
    Status(code, Some(if code == 400 then (if invalid then INVALID_STATE else HEADER_SYNTAX)
                      else if code == 411 then LENGTH_REQUIRED else if code == 413 then TOO_LARGE
                      else if code == 414 then URI_TOO_LONG else PART_TOO_LONG))
  }

  lemma RefusalsAreText()
    ensures NoNul(INVALID_STATE) && NoNul(HEADER_SYNTAX) && NoNul(LENGTH_REQUIRED)
    ensures NoNul(TOO_LARGE) && NoNul(URI_TOO_LONG) && NoNul(PART_TOO_LONG)
    ensures |INVALID_STATE| == 27 && |HEADER_SYNTAX| == 19 && |LENGTH_REQUIRED| == 15
    ensures |TOO_LARGE| == 17 && |URI_TOO_LONG| == 12 && |PART_TOO_LONG| == 20
  {
  }

  /** A chunk that the parser has taken: it strikes its connection unless it is harmless. */
  lemma ReadFollows(a: Shot, b: Shot, i: nat, harmless: bool)
    requires i < |a.l.slots| == |a.l.generation| && a.l.owner == Some(i) && b.l == a.l.(phase := b.l.phase)
    requires b.got == a.got
    requires Leads(a.l, b.l)
    requires if harmless then b.url == a.url && b.struck == a.struck
             else b.struck == a.struck[a.Present(i) := a.Struck(a.Present(i)) + 1]
    ensures Follows(a, b, 0, []) && UrlKept(a, b)
    ensures !harmless ==> b.Struck(b.Present(i)) > a.Struck(a.Present(i))
  {
    forall j | 0 <= j < |a.l.slots|
      ensures SlotFollows(a, b, j, Share(0, j, []))
    {
      assert a.Got(a.Present(j)) + [] == a.Got(a.Present(j));
    }
  }

  /** Whatever is done with a chunk that strikes its connection, nothing is promised for that connection. */
  lemma StruckFollows(a: Shot, b: Shot, c: Shot, i: nat, sent: seq<byte>)
    requires Follows(a, b, 0, []) && Follows(b, c, i, sent) && i < |a.l.slots| == |a.l.generation|
    requires a.l.owner == Some(i)
    requires b.l.generation == a.l.generation && b.Struck(a.Present(i)) > a.Struck(a.Present(i))
    ensures Follows(a, c, 0, []) && UrlKept(a, c)
  {
    LeadsTransitive(a.l, b.l, c.l);
    hide Leads;
    forall j | 0 <= j < |a.l.slots|
      ensures SlotFollows(a, c, j, Share(0, j, []))
    {
      assert SlotFollows(a, b, j, Share(0, j, [])) && SlotFollows(b, c, j, Share(i, j, sent));
      if j != i {
        SlotTransitive(a, b, c, j, [], []);
        var none: seq<byte> := [];
        assert none + none == none;
      }
    }
    assert SlotFollows(b, c, i, Share(i, i, sent));
  }

  lemma ClosedSince(a: Shot, b: Shot, c: Shot, i: nat, sent: seq<byte>)
    requires Leads(a.l, b.l) && Follows(b, c, i, sent) && i < |a.l.slots| == |a.l.generation| && a.l.owner == Some(i)
    requires b.l.generation == a.l.generation && i < |c.l.generation| && b.l.generation[i] < c.l.generation[i]
    ensures Passed(a.l, c.l) && a.l.generation[i] < c.l.generation[i]
  {
    FollowsLeads(b, c, i, sent);
    LeadsTransitive(a.l, b.l, c.l);
    ClosedIsPassed(a.l, c.l, i);
  }
}
