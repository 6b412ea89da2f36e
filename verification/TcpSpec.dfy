/**
 The connection table of `src/tcp.c` as a value: what one packet does to it, the invariant every
 call keeps, and what may happen to a connection while a call waits and packets are handled
 inside the wait.
 */
module TcpSpec {
  import opened Util
  import opened Addresses
  import opened Frame
  import opened TcpTypes
  import opened LinkLayer

  // ----- callbacks ---------------------------------------------------------------------------

  /** One callback call for a connection. */
  datatype Event = Connected | Received(data: seq<byte>) | Disconnected

  /** Where a callback trace stands: no open group, an open group, or out of order. */
  datatype Phase = Closed | Open | Broken

  function PhaseOf(trace: seq<Event>): Phase
  {
    if trace == [] then Closed
    else
      var before := PhaseOf(trace[..|trace| - 1]);
      match trace[|trace| - 1]
      case Connected => if before == Closed then Open else Broken
      case Received(_) => if before == Open then Open else Broken
      case Disconnected => if before == Open then Closed else Broken
  }

  /** The trace is (OnConnect OnIncomingData* OnDisconnect)* with at most one unfinished group:
      every call follows one it may follow. */
  ghost predicate Grouped(trace: seq<Event>) { forall k | 0 <= k < |trace| :: MayCome(trace, k) }

  ghost predicate MayCome(trace: seq<Event>, k: nat)
    requires k < |trace|
  {
    if trace[k].Connected? then k == 0 || trace[k - 1].Disconnected? else k > 0 && !trace[k - 1].Disconnected?
  }

  ghost predicate GroupOpen(trace: seq<Event>) { trace != [] && !trace[|trace| - 1].Disconnected? }

  lemma {:induction false} PhaseMeans(trace: seq<Event>)
    ensures PhaseOf(trace) != Broken <==> Grouped(trace)
    ensures Grouped(trace) ==> (PhaseOf(trace) == Open <==> GroupOpen(trace))
  {
    if trace != [] {
      var init, n := trace[..|trace| - 1], |trace| - 1;
      PhaseMeans(init);
      assert forall k | 0 <= k < n :: MayCome(trace, k) <==> MayCome(init, k);
      assert Grouped(trace) <==> Grouped(init) && MayCome(trace, n);
      assert MayCome(trace, n) <==> if trace[n].Connected? then !GroupOpen(init) else GroupOpen(init);
    }
  }

  /** The bytes handed to OnIncomingData since the last OnConnect. */
  function Delivered(trace: seq<Event>): seq<byte>
  {
    if trace == [] then []
    else
      match trace[|trace| - 1]
      case Connected => []
      case Received(data) => Delivered(trace[..|trace| - 1]) + data
      case Disconnected => []
  }

  // ----- the outside -------------------------------------------------------------------------

  type Timeout = x: int | 0 <= x < 0xFFFF

  type Chunk = s: seq<byte> | |s| < 0x1_0000 witness []

  /** What the caller of `TcpSendData` passes: the bytes that its memory holds after `n` polls. */
  datatype Bytes = Bytes(length: u16, at: nat -> seq<byte>)
  {
    ghost predicate Valid() { forall n: nat :: |at(n)| == length }

    /** The memory does not change. */
    ghost predicate Steady() { forall m: nat, n: nat :: at(m) == at(n) }
  }

  type Memory = m: Bytes | m.Valid() witness Bytes(0, (_: nat) => [])

  /** The part at `offset` was cut from this memory, as it stood at some time. */
  ghost predicate CutAt(m: Memory, offset: nat, part: seq<byte>)
  {
    offset + |part| <= m.length && exists n: nat :: part == m.at(n)[offset..offset + |part|]
  }

  /** The parts were cut from this memory one after the other. */
  ghost predicate CutFrom(m: Memory, parts: seq<seq<byte>>)
  {
    forall k | 0 <= k < |parts| :: CutAt(m, |Concat(parts[..k])|, parts[k])
  }

  /** From memory that does not change they are cut in one piece. */
  lemma {:induction false} CutFromSteady(m: Memory, parts: seq<seq<byte>>)
    requires CutFrom(m, parts) && m.Steady()
    ensures Concat(parts) <= m.at(0)
    decreases |parts|
  {
    if parts != [] {
      var init, k := parts[..|parts| - 1], |parts| - 1;
      CutFromInit(m, parts);
      hide CutFrom;
      CutFromSteady(m, init);
      ConcatSnoc(init, parts[k]);
      assert init + [parts[k]] == parts;
      var n: nat :| parts[k] == m.at(n)[|Concat(init)|..|Concat(init)| + |parts[k]|];
      assert m.at(n) == m.at(0);
    }
  }

  lemma CutFromInit(m: Memory, parts: seq<seq<byte>>)
    requires CutFrom(m, parts) && parts != []
    ensures var k := |parts| - 1; CutFrom(m, parts[..k]) && CutAt(m, |Concat(parts[..k])|, parts[k])
  {
    hide CutAt;
    var k := |parts| - 1;
    assert forall j | 0 <= j < k :: parts[..k][j] == parts[j] && parts[..k][..j] == parts[..j];
  }

  lemma NothingCut(m: Memory)
    ensures CutFrom(m, [])
  {
  }

  lemma CutFromSnoc(m: Memory, parts: seq<seq<byte>>, part: seq<byte>)
    requires CutFrom(m, parts) && CutAt(m, |Concat(parts)|, part)
    ensures CutFrom(m, parts + [part])
  {
    var more := parts + [part];
    forall k | 0 <= k < |more|
      ensures CutAt(m, |Concat(more[..k])|, more[k])
    {
      if k < |parts| {
        assert more[..k] == parts[..k];
        assert CutAt(m, |Concat(parts[..k])|, parts[k]);
      } else {
        assert more[..k] == parts;
      }
    }
  }

  function Fixed(data: Chunk): (m: Memory)
    ensures m.Steady() && m.length == |data| && m.at(0) == data
  {
    Bytes(|data|, (_: nat) => data)
  }

  /** What a callback does to the stack: `TcpDisconnect` or `TcpSendData` on a connection. */
  datatype Action = Hangup(id: byte, timeout: Timeout) | Send(id: byte, timeout: Timeout, data: Memory)

  predicate Sends(script: seq<Action>) { exists k :: 0 <= k < |script| && script[k].Send? }

  predicate HangsUp(script: seq<Action>) { exists k :: 0 <= k < |script| && script[k].Hangup? }

  /** An action that may poll on a table of `size` slots. */
  predicate Touches(a: Action, size: nat) { a.id as int < size && (a.Send? ==> a.data.length > 0) }

  datatype Verdict = Ok | Drop | Reject

  /** The application: its `n`-th callback call. `TcpOnNewConnection` only decides. From call number
      `sending` on, which may be any number, callbacks send nothing more. */
  datatype App = App(
    onNew: nat -> Verdict,
    onConnect: nat -> seq<Action>,
    onData: nat -> seq<Action>,
    onDisconnect: nat -> seq<Action>,
    sending: nat)
  {
    ghost predicate Valid()
    {
      forall n: nat | n >= sending :: !Sends(onConnect(n)) && !Sends(onData(n)) && !Sends(onDisconnect(n))
    }
  }

  /** The outside: the station, the frame the wire has ready at each poll, and the application. A send on a
      connection without segment size goes round for as long as empty segments are acknowledged; this model
      follows it for `patience` rounds, which may be any number. */
  datatype World = World(station: Station, supply: nat -> seq<byte>, app: App, patience: nat)
  {
    ghost predicate Valid() { station.Valid() && app.Valid() && forall t: nat :: station.WellFormed(supply(t)) }

    /** Poll `t` brought a TCP frame for this station. */
    predicate IsTcp(t: nat) { |supply(t)| >= 60 && station.IsTcp(supply(t)) }

    /** The slice a handler passes to OnIncomingData: it starts where a header without options ends. */
    function DataAt(t: nat): seq<byte>
    {
      if HasHeaders(supply(t)) then Window(supply(t), DataLength(supply(t))) else []
    }

    function SequenceAt(t: nat): u32 { if HasHeaders(supply(t)) then SequenceOf(supply(t)) else 0 }

    function AckAt(t: nat): u32 { if HasHeaders(supply(t)) then AckOf(supply(t)) else 0 }

    function FlagsAt(t: nat): byte { if HasHeaders(supply(t)) then Flags(supply(t)) else 0 }
  }

  /** The `n` bytes behind a header without options. What lies behind the end of the buffer is not part
      of the model and reads as zero. */
  function Window(q: seq<byte>, n: nat): (r: seq<byte>)
    ensures |r| == n
  {
    seq(n, k requires 0 <= k < n => if 54 + k < |q| then q[54 + k] else 0)
  }

  // ----- ghost history -----------------------------------------------------------------------

  /** A data segment put on the wire: its place in the written stream, and the frame. */
  datatype Transmission = Transmission(offset: nat, frame: seq<byte>)

  /** How a connection came to be: by a SYN from outside, as the `open`-th use of `TcpConnect`, or not yet. */
  datatype Birth = Unborn | Passive | Active(open: nat)

  /** What happened to a slot. All but the first three fields speak of the present incarnation. */
  datatype History = History(
    /** times a connection of this slot was closed */
    generation: nat,
    /** `TcpConnect` never ended on this slot while it was ESTABLISHED */
    orderly: bool,
    /** callback calls, over all incarnations */
    trace: seq<Event>,
    /** no bare SYN hit this slot while `TcpConnect` was opening it */
    clean: bool,
    birth: Birth,
    /** the poll of the peer's SYN or SYN-ACK */
    syn: nat,
    /** sequence number of the peer's first data byte */
    base: u32,
    /** polls whose frames were passed to OnIncomingData */
    accepted: seq<nat>,
    /** all that was passed to OnIncomingData was read from the frame that was being handled */
    exact: bool,
    /** the poll of the acknowledgement of our SYN */
    ack: nat,
    /** sequence number of our first data byte */
    sendBase: u32,
    /** all data `TcpSendData` has cut into segments, and the number of segments */
    written: seq<byte>,
    parts: nat,
    transmissions: seq<Transmission>,
    /** no `TcpSendData` begun on an earlier incarnation went on into this one, and no part was sent again with
        other bytes */
    alone: bool)

  /** Where `TcpConnect` was asked to connect to. */
  datatype Dial = Dial(ip: Ip, remotePort: u16)

  /** What has happened so far that may spoil a promise. */
  datatype Marks = Marks(
    /** the uses of `TcpConnect` that took a slot */
    dials: seq<Dial>,
    /** no record that `TcpConnect` wrote was the twin of a live one */
    distinct: bool,
    /** a bare SYN hit the slot that was being opened */
    crossed: bool,
    /** an OnConnect polled while a handshake was being handled */
    stirred: bool,
    /** a connection was closed by a FIN or by a callback */
    hung: bool,
    /** the main program sent from memory that changes */
    loose: bool,
    /** a part was sent again with other bytes */
    shifted: bool,
    /** a send went round for longer than the model follows it */
    stuck: bool)

  const NO_HISTORY: History := History(0, true, [], true, Unborn, 0, 0, [], true, 0, 0, [], 0, [], true)
  const NO_MARKS: Marks := Marks([], true, false, false, false, false, false, false)

  datatype View = View(
    conns: seq<TcpConnection>,
    hist: seq<History>,
    /** the slots whose `TcpClose` is under way, innermost last */
    closing: seq<nat>,
    /** the slot `TcpConnect` is opening */
    opening: Option<nat>,
    /** polls so far */
    now: nat,
    /** callback calls so far */
    calls: nat,
    marks: Marks)
  {
    function Set(i: nat, c: TcpConnection, h: History): View
      requires i < |conns| && i < |hist|
    {
      this.(conns := conns[i := c], hist := hist[i := h])
    }

    predicate IsOpening(i: nat) { opening == Some(i) }

    /** A slot other than `i` is being opened. */
    predicate Elsewhere(i: nat) { opening.Some? && opening.value != i }
  }

  // ----- looking up a connection -------------------------------------------------------------

  /** `TcpIsConnection`. */
  predicate Matches(p: seq<byte>, c: TcpConnection)
    requires HasHeaders(p)
  {
    c.state != NoConnection && c.port == TargetPort(p) && c.remotePort == SourcePort(p)
    && c.ip == SourceIp(p) && c.mac == SourceMac(p)
  }

  function FirstMatch(conns: seq<TcpConnection>, p: seq<byte>): (r: nat)
    requires HasHeaders(p)
    ensures r <= |conns| && (r < |conns| ==> Matches(p, conns[r]))
    ensures forall k | 0 <= k < r :: !Matches(p, conns[k])
    decreases |conns|
  {
    if conns == [] then 0
    else
      var r := FirstMatch(conns[..|conns| - 1], p);
      if r < |conns| - 1 then r else if Matches(p, conns[r]) then r else |conns|
  }

  function FirstEmpty(conns: seq<TcpConnection>): (r: nat)
    ensures r <= |conns| && (r < |conns| ==> conns[r].state == NoConnection)
    ensures forall k | 0 <= k < r :: conns[k].state != NoConnection
    decreases |conns|
  {
    if conns == [] then 0
    else
      var r := FirstEmpty(conns[..|conns| - 1]);
      if r < |conns| - 1 then r else if conns[r].state == NoConnection then r else |conns|
  }

  predicate Live(c: TcpConnection) { c.state != NoConnection }

  /** Who a connection is between. */
  datatype Ends = Ends(port: u16, remotePort: u16, ip: Ip, mac: Mac)

  function EndsOf(c: TcpConnection): Ends { Ends(c.port, c.remotePort, c.ip, c.mac) }

  predicate SamePair(c: TcpConnection, d: TcpConnection)
  {
    c.port == d.port && c.remotePort == d.remotePort && c.ip == d.ip
  }

  predicate SamePeer(c: TcpConnection, d: TcpConnection) { SamePair(c, d) && c.mac == d.mac }

  // ----- what came from outside --------------------------------------------------------------

  const MIN_DYNAMIC_PORT: u16 := 49152
  const DYNAMIC_PORTS := 16384

  /** `connectPortRotaiting` at the `k`-th active open. */
  function DynamicPort(k: nat): u16 { MIN_DYNAMIC_PORT + k % DYNAMIC_PORTS }

  /** Poll `t` brought a TCP frame between these ends with a correct checksum. */
  ghost predicate FromEnds(w: World, e: Ends, t: nat)
  {
    w.IsTcp(t) && TcpAccepts(w.supply(t))
    && e == Ends(TargetPort(w.supply(t)), SourcePort(w.supply(t)), SourceIp(w.supply(t)), SourceMac(w.supply(t)))
  }

  /** The same with data. */
  ghost predicate FromPeer(w: World, e: Ends, t: nat) { FromEnds(w, e, t) && DataLength(w.supply(t)) > 0 }

  /** Poll `t` brought a bare SYN between these ends. */
  ghost predicate SynFrom(w: World, port: u16, d: Dial, t: nat)
  {
    w.IsTcp(t) && TcpAccepts(w.supply(t)) && Flags(w.supply(t)) == SYN
    && TargetPort(w.supply(t)) == port && Dial(SourceIp(w.supply(t)), SourcePort(w.supply(t))) == d
  }

  ghost predicate FinAt(w: World, t: nat) { w.IsTcp(t) && TcpAccepts(w.supply(t)) && HasFlag(Flags(w.supply(t)), FIN) }

  /** Before poll `now` a bare SYN came from an end that was dialled, to the port it was dialled from. */
  ghost predicate CrossedBefore(w: World, now: nat, dials: seq<Dial>)
  {
    exists t: nat, k: nat :: t < now && k < |dials| && SynFrom(w, DynamicPort(k), dials[k], t)
  }

  /** An OnConnect before callback call number `calls` had something to close or to send. */
  ghost predicate StirredBefore(w: World, size: nat, calls: nat) { exists n: nat :: n < calls && StirsAt(w, size, n) }

  ghost predicate StirsAt(w: World, size: nat, n: nat)
  {
    exists k :: 0 <= k < |w.app.onConnect(n)| && Touches(w.app.onConnect(n)[k], size)
  }

  /** A FIN came, or a callback closed a connection, or OnConnect had something to do. */
  ghost predicate HungBefore(w: World, size: nat, now: nat, calls: nat)
  {
    (exists t: nat :: t < now && FinAt(w, t)) || (exists n: nat :: n < calls && HangsUpAt(w, n))
    || StirredBefore(w, size, calls)
  }

  ghost predicate HangsUpAt(w: World, n: nat)
  {
    HangsUp(w.app.onConnect(n)) || HangsUp(w.app.onData(n)) || HangsUp(w.app.onDisconnect(n))
  }

  /** A callback sent from memory that changes. */
  ghost predicate LooseBefore(w: World, calls: nat) { exists n: nat :: n < calls && LooseAt(w, n) }

  ghost predicate LooseAt(w: World, n: nat)
  {
    Loose(w.app.onConnect(n)) || Loose(w.app.onData(n)) || Loose(w.app.onDisconnect(n))
  }

  ghost predicate Loose(script: seq<Action>)
  {
    exists k :: 0 <= k < |script| && script[k].Send? && !script[k].data.Steady()
  }

  /** Poll `t` brought an acknowledgement. */
  ghost predicate AckCame(w: World, t: nat)
  {
    w.IsTcp(t) && TcpAccepts(w.supply(t)) && HasFlag(Flags(w.supply(t)), ACK)
  }

  /** The acknowledgements before poll `now`. */
  ghost function AcksBefore(w: World, now: nat): nat
  {
    if now == 0 then 0 else AcksBefore(w, now - 1) + if AckCame(w, now - 1) then 1 else 0
  }

  lemma {:induction false} AcksGrow(w: World, t: nat, now: nat)
    requires t <= now
    ensures AcksBefore(w, t) <= AcksBefore(w, now)
    ensures t < now && AckCame(w, t) ==> AcksBefore(w, t) < AcksBefore(w, now)
    decreases now
  {
    if t < now { AcksGrow(w, t, now - 1); }
  }

  /** Every mark has its cause in what came from outside: for a send without end, a SYN from an end that was
      dialled and more acknowledgements than the rounds that were followed. */
  ghost predicate Caused(w: World, size: nat, now: nat, calls: nat, marks: Marks)
  {
    (marks.crossed ==> CrossedBefore(w, now, marks.dials)) && (marks.stirred ==> StirredBefore(w, size, calls))
    && (marks.hung ==> HungBefore(w, size, now, calls))
    && (!marks.distinct ==> CrossedBefore(w, now, marks.dials) || |marks.dials| > DYNAMIC_PORTS)
    && (marks.shifted ==> marks.loose || LooseBefore(w, calls))
    && (marks.stuck ==> marks.crossed && AcksBefore(w, now) > w.patience)
  }

  /** Marks over a wait. While nothing is being opened, no SYN crosses and every send ends. */
  predicate MarksGrow(m: Marks, m': Marks, opening: bool)
  {
    m'.dials == m.dials && m'.distinct == m.distinct && m'.loose == m.loose
    && (m.crossed ==> m'.crossed) && (!opening ==> m'.crossed == m.crossed && m'.stuck == m.stuck)
    && (m.stirred ==> m'.stirred) && (m.hung ==> m'.hung) && (m.shifted ==> m'.shifted) && (m.stuck ==> m'.stuck)
  }

  // ----- the invariant -----------------------------------------------------------------------

  /** What the callback saw of the frames of `accepted`, in order. */
  function Seen(w: World, accepted: seq<nat>): seq<byte>
  {
    if accepted == [] then [] else Seen(w, accepted[..|accepted| - 1]) + w.DataAt(accepted[|accepted| - 1])
  }

  /** Every accepted frame carried the sequence number right after the bytes before it. */
  predicate InOrder(w: World, base: u32, accepted: seq<nat>)
  {
    accepted == [] ||
    (InOrder(w, base, accepted[..|accepted| - 1])
     && w.SequenceAt(accepted[|accepted| - 1]) == Wrap32(base as int + |Seen(w, accepted[..|accepted| - 1])|))
  }

  /** The accepted frames are the peer's, in the order of their sequence numbers, and came since its SYN. */
  ghost predicate Provenance(w: World, e: Ends, base: u32, accepted: seq<nat>, since: nat, now: nat)
  {
    InOrder(w, base, accepted)
    && forall k | 0 <= k < |accepted| :: since <= accepted[k] < now && FromPeer(w, e, accepted[k])
  }

  predicate Tallied(expected: u32, base: u32, delivered: seq<byte>, seen: seq<byte>)
  {
    delivered == seen && expected == Wrap32(base as int + |seen|)
  }

  /** Receiver in step: the callback got exactly the accepted frames, in order, and the next
      expected number counts them. */
  ghost predicate InStep(w: World, c: TcpConnection, h: History, now: nat)
  {
    Tallied(c.expectedSequence, h.base, Delivered(h.trace), Seen(w, h.accepted))
    && Provenance(w, EndsOf(c), h.base, h.accepted, h.syn, now)
  }

  /** A transmission is a slice of the written stream under its own sequence number. */
  ghost predicate IsSlice(e: Ends, sendBase: u32, written: seq<byte>, x: Transmission)
  {
    TcpAccepts(x.frame) && HeaderLength(x.frame) == TCP_HEADER_LEN
    && SequenceOf(x.frame) == Wrap32(sendBase as int + x.offset)
    && SourcePort(x.frame) == e.port && TargetPort(x.frame) == e.remotePort && x.frame[30..34] == e.ip
    && x.frame[..6] == e.mac
    && x.offset + |Payload(x.frame)| <= |written|
    && Payload(x.frame) == written[x.offset..x.offset + |Payload(x.frame)|]
  }

  /** Sender in step: the send sequence counts the written bytes and every segment sent is a slice of them. */
  ghost predicate OutStep(c: TcpConnection, h: History)
  {
    Tallied(c.sendSequence, h.sendBase, h.written, h.written)
    && Slices(EndsOf(c), h.sendBase, h.written, h.transmissions)
  }

  ghost predicate Slices(e: Ends, sendBase: u32, written: seq<byte>, transmissions: seq<Transmission>)
  {
    forall k | 0 <= k < |transmissions| :: IsSlice(e, sendBase, written, transmissions[k])
  }

  predicate Awaiting(c: TcpConnection) { c.state == New || c.state == SynReceived }

  /** The peer's SYN gave the first number expected of it. */
  ghost predicate Greeted(w: World, c: TcpConnection, h: History, now: nat)
  {
    h.syn < now && FromEnds(w, EndsOf(c), h.syn) && HasFlag(w.FlagsAt(h.syn), SYN)
    && h.base == Wrap32(w.SequenceAt(h.syn) as int + 1)
  }

  /** The peer's acknowledgement of our SYN gave the number of our first byte. */
  ghost predicate Confirmed(w: World, c: TcpConnection, h: History, now: nat)
  {
    h.ack < now && FromEnds(w, EndsOf(c), h.ack) && h.sendBase == w.AckAt(h.ack)
  }

  /** The segment size is usable once the slot is in use. */
  ghost predicate Sized(w: World, c: TcpConnection, opening: bool)
    requires w.station.Valid()
  {
    c.maxSegmetSize <= w.station.MaxSegmentSize()
    && (!opening && (Awaiting(c) || c.state == Established) ==> 1 <= c.maxSegmetSize)
  }

  /** What spoiled a slot is marked. */
  predicate Marked(h: History, m: Marks)
  {
    (!h.clean || !h.orderly ==> m.crossed) && (!h.exact ==> m.stirred) && (!h.alone ==> m.hung || m.shifted)
  }

  /** The uses of `TcpConnect` before the one that is being opened elsewhere. */
  function Earlier(m: Marks, elsewhere: bool): nat { if elsewhere && m.dials != [] then |m.dials| - 1 else |m.dials| }

  /** Where the pair of a connection comes from. */
  ghost predicate Born(w: World, c: TcpConnection, h: History, opening: bool, now: nat, m: Marks, elsewhere: bool)
  {
    (h.syn == 0 || h.syn < now) && (opening && h.clean ==> m.dials != [] && h.birth == Active(|m.dials| - 1)) &&
    match h.birth
    case Unborn => !Live(c) && !opening
    case Passive => h.syn < now && SynFrom(w, c.port, Dial(c.ip, c.remotePort), h.syn)
    case Active(k) => k < Earlier(m, elsewhere) && c.port == DynamicPort(k) && Dial(c.ip, c.remotePort) == m.dials[k]
  }

  /** An orderly slot has its callbacks in groups, and one that is not has lost that for good. */
  ghost predicate Ordered(c: TcpConnection, h: History)
  {
    if h.orderly then PhaseOf(h.trace) == (if c.state == Established then Open else Closed)
    else PhaseOf(h.trace) == Broken || (PhaseOf(h.trace) == Open && c.state != Established)
  }

  /** What holds of a connection no SYN crossed. */
  ghost predicate Story(w: World, c: TcpConnection, h: History, opening: bool, now: nat)
  {
    (!opening && Awaiting(c) ==> h.accepted == [] && c.expectedSequence == h.base && Greeted(w, c, h, now))
    && (c.state == Established ==>
          && Greeted(w, c, h, now) && Confirmed(w, c, h, now)
          && (h.exact ==> InStep(w, c, h, now)) && (h.alone ==> OutStep(c, h)))
  }

  ghost predicate SlotOk(w: World, c: TcpConnection, h: History, opening: bool, now: nat, m: Marks, elsewhere: bool)
    requires w.station.Valid()
  {
    Sized(w, c, opening) && Marked(h, m) && Born(w, c, h, opening, now, m, elsewhere) && Ordered(c, h)
    && (h.clean ==> Story(w, c, h, opening, now))
  }

  ghost predicate Unambiguous(conns: seq<TcpConnection>)
  {
    forall i, j | 0 <= i < j < |conns| && Live(conns[i]) && Live(conns[j]) :: !SamePeer(conns[i], conns[j])
  }

  /** No other live connection is the twin of `o`. */
  predicate Apart(conns: seq<TcpConnection>, o: nat)
    requires o < |conns|
  {
    Live(conns[o]) ==> forall j | 0 <= j < |conns| && j != o && Live(conns[j]) :: !SamePeer(conns[j], conns[o])
  }

  ghost predicate Distinct(s: seq<nat>) { forall i, j | 0 <= i < j < |s| :: s[i] != s[j] }

  ghost predicate Shape(v: View)
  {
    |v.conns| == |v.hist| && 0 < |v.conns| <= 254 && (v.opening.Some? ==> v.opening.value < |v.conns|)
  }

  /** The DYEING slots are exactly those of the closes under way, each owned once. */
  ghost predicate Owned(v: View)
  {
    Distinct(v.closing) && (forall k | 0 <= k < |v.closing| :: v.closing[k] < |v.conns|)
    && (forall i | 0 <= i < |v.conns| :: v.conns[i].state == Dyeing <==> i in v.closing)
  }

  ghost predicate SlotsOk(w: World, v: View)
    requires w.station.Valid() && Shape(v)
  {
    forall i | 0 <= i < |v.conns| ::
      SlotOk(w, v.conns[i], v.hist[i], v.IsOpening(i), v.now, v.marks, v.Elsewhere(i))
  }

  /** The slot being opened is still NEW unless a SYN hit it; and the table is unambiguous unless
      `TcpConnect` wrote the twin of a live record. */
  ghost predicate TableOk(v: View)
    requires Shape(v)
  {
    (v.opening.Some? && v.hist[v.opening.value].clean ==> v.conns[v.opening.value].state == New)
    && (v.marks.distinct ==> Unambiguous(v.conns))
  }

  ghost predicate Inv(w: World, v: View)
  {
    w.Valid() && Shape(v) && Owned(v) && SlotsOk(w, v) && TableOk(v)
    && Caused(w, |v.conns|, v.now, v.calls, v.marks)
  }

  /** The closes under way own distinct slots, so they are at most as many as there are slots. */
  lemma ClosingBounded(v: View)
    requires Shape(v) && Owned(v)
    ensures |v.closing| <= |v.conns|
  {
    DistinctBounded(v.closing, |v.conns|);
  }

  lemma InnermostClose(v: View)
    requires Shape(v) && Owned(v) && v.closing != []
    ensures v.closing[|v.closing| - 1] < |v.conns| && v.conns[v.closing[|v.closing| - 1]].state == Dyeing
  {
    assert v.closing[|v.closing| - 1] in v.closing;
  }

  /** A slot that is not closing does not become closing over a wait. */
  lemma StaysOutOfClosing(v: View, v': View, i: nat)
    requires Shape(v) && Owned(v) && Shape(v') && Owned(v') && v'.closing == v.closing && |v'.conns| == |v.conns|
    requires i < |v.conns| && v.conns[i].state != Dyeing
    ensures v'.conns[i].state != Dyeing
  {
  }

  lemma {:induction false} DistinctBounded(s: seq<nat>, n: nat)
    requires Distinct(s) && forall k | 0 <= k < |s| :: s[k] < n
    ensures |s| <= n
    decreases n
  {
    if s == [] {
    } else if s[0] >= n {
      assert false;
    } else if n - 1 in s {
      var k :| 0 <= k < |s| && s[k] == n - 1;
      DistinctBounded(s[..k] + s[k + 1..], n - 1);
    } else {
      DistinctBounded(s, n - 1);
    }
  }

  // ----- what may happen inside a wait -------------------------------------------------------

  /** An established connection that is not closed over a wait: it receives, and callbacks may send on it. */
  ghost predicate SlotRuns(c: TcpConnection, h: History, c': TcpConnection, h': History)
  {
    c' == c.(expectedSequence := c'.expectedSequence, sendSequence := c'.sendSequence)
    && h' == h.(trace := h'.trace, accepted := h'.accepted, exact := h'.exact, written := h'.written,
                parts := h'.parts, transmissions := h'.transmissions, alone := h'.alone)
    && h.trace <= h'.trace && h.accepted <= h'.accepted && (h'.exact ==> h.exact) && (h'.alone ==> h.alone)
    && h.written <= h'.written && h.parts <= h'.parts && h.transmissions <= h'.transmissions
    && (h'.parts == h.parts ==> h'.written == h.written && c'.sendSequence == c.sendSequence)
  }

  /** A connection over a wait: it is closed, or it runs. */
  ghost predicate SlotLeads(c: TcpConnection, h: History, c': TcpConnection, h': History, opening: bool, m: Marks)
  {
    h.generation <= h'.generation && (h.generation < h'.generation ==> m.hung) && h'.orderly == h.orderly
    && (opening && h'.clean ==> h.clean)
    && (c.maxSegmetSize > 0 ==> c'.maxSegmetSize > 0)
    && (c.state == Established && h'.generation == h.generation ==>
          SlotRuns(c, h, c', h') && (h.alone ==> h'.alone || m.shifted))
    && (c.state == Dyeing ==>
          && c' == c.(expectedSequence := c'.expectedSequence, sendSequence := c'.sendSequence)
          && h' == h)
  }

  ghost predicate Framed(v: View, v': View)
  {
    |v'.conns| == |v.conns| && |v'.hist| == |v.hist| && |v.hist| == |v.conns|
    && v'.closing == v.closing && v'.opening == v.opening
    && v.now <= v'.now && v.calls <= v'.calls && MarksGrow(v.marks, v'.marks, v.opening.Some?)
  }

  ghost predicate SlotsLead(v: View, v': View)
    requires Framed(v, v')
  {
    (forall i | 0 <= i < |v.conns| ::
       SlotLeads(v.conns[i], v.hist[i], v'.conns[i], v'.hist[i], v.IsOpening(i), v'.marks))
    && (forall i | 0 <= i < |v.conns| && v.IsOpening(i) && v'.hist[i].clean ::
          v'.conns[i] == v.conns[i] && v'.hist[i] == v.hist[i])
  }

  /** What a call may rely on while it waits: every close that began inside has ended, and every
      connection is as `SlotLeads` says. */
  ghost predicate Leads(v: View, v': View) { Framed(v, v') && SlotsLead(v, v') }

  /** The slots other than `e`, over a whole open or close of `e`. */
  ghost predicate Aside(v: View, v': View, e: nat)
  {
    |v'.conns| == |v.conns| && |v'.hist| == |v.hist| && |v.hist| == |v.conns| && v'.closing == v.closing
    && v.now <= v'.now && v.calls <= v'.calls && (v.marks.hung ==> v'.marks.hung)
    && (v.marks.shifted ==> v'.marks.shifted)
    && forall j | 0 <= j < |v.conns| && j != e ::
         SlotLeads(v.conns[j], v.hist[j], v'.conns[j], v'.hist[j], false, v'.marks)
  }

  lemma InvCaused(w: World, v: View)
    requires Inv(w, v)
    ensures Caused(w, |v.conns|, v.now, v.calls, v.marks)
  {
  }

  lemma SlotLeadsTransitive(c: TcpConnection, h: History, c': TcpConnection, h': History, c'': TcpConnection,
                            h'': History,
                            opening: bool, m: Marks, m': Marks)
    requires SlotLeads(c, h, c', h', opening, m) && SlotLeads(c', h', c'', h'', opening, m')
    requires (m.hung ==> m'.hung) && (m.shifted ==> m'.shifted)
    ensures SlotLeads(c, h, c'', h'', opening, m')
  {
  }

  lemma SelfLeads(v: View)
    requires |v.hist| == |v.conns|
    ensures Leads(v, v)
  {
  }

  lemma LeadsTransitive(u: View, v: View, x: View)
    requires Leads(u, v) && Leads(v, x)
    ensures Leads(u, x)
  {
    hide SlotLeads;
    forall i | 0 <= i < |u.conns|
      ensures SlotLeads(u.conns[i], u.hist[i], x.conns[i], x.hist[i], u.IsOpening(i), x.marks)
    {
      assert v.IsOpening(i) == u.IsOpening(i);
      SlotLeadsTransitive(u.conns[i], u.hist[i], v.conns[i], v.hist[i], x.conns[i], x.hist[i],
                          u.IsOpening(i), v.marks, x.marks);
    }
    forall i | 0 <= i < |u.conns| && u.IsOpening(i) && x.hist[i].clean
      ensures x.conns[i] == u.conns[i] && x.hist[i] == u.hist[i]
    {
      CleanBack(v, x, i);
    }
  }

  lemma CleanBack(v: View, x: View, i: nat)
    requires Leads(v, x) && i < |v.conns| && v.IsOpening(i) && x.hist[i].clean
    ensures v.hist[i].clean
  {
    assert SlotLeads(v.conns[i], v.hist[i], x.conns[i], x.hist[i], v.IsOpening(i), x.marks);
  }

  lemma AsideTransitive(u: View, v: View, x: View, e: nat)
    requires Aside(u, v, e) && Aside(v, x, e)
    ensures Aside(u, x, e)
  {
    hide SlotLeads;
    forall j | 0 <= j < |u.conns| && j != e
      ensures SlotLeads(u.conns[j], u.hist[j], x.conns[j], x.hist[j], false, x.marks)
    {
      SlotLeadsTransitive(u.conns[j], u.hist[j], v.conns[j], v.hist[j], x.conns[j], x.hist[j],
                          false, v.marks, x.marks);
    }
  }

  /** A wait, seen from the slots other than the one that may be opening. */
  lemma LeadsAside(v: View, x: View, e: nat)
    requires Leads(v, x) && (v.opening == None || v.opening == Some(e))
    ensures Aside(v, x, e)
  {
    forall j | 0 <= j < |v.conns| && j != e
      ensures SlotLeads(v.conns[j], v.hist[j], x.conns[j], x.hist[j], false, x.marks)
    {
      assert SlotLeads(v.conns[j], v.hist[j], x.conns[j], x.hist[j], v.IsOpening(j), x.marks);
    }
  }

  /** Only slot `e` changes, and what is counted or marked beside it. */
  lemma SetAside(v: View, x: View, e: nat)
    requires |v.hist| == |v.conns| && e < |v.conns| && x.closing == v.closing && x.now == v.now && v.calls <= x.calls
    requires (v.marks.hung ==> x.marks.hung) && (v.marks.shifted ==> x.marks.shifted)
    requires |x.conns| == |v.conns| && x.conns == v.conns[e := x.conns[e]] && |x.hist| == |v.hist|
    requires x.hist == v.hist[e := x.hist[e]]
    ensures Aside(v, x, e)
  {
  }

  // ----- single changes ----------------------------------------------------------------------

  /** Polls, calls and marks go on. */
  function Later(v: View, now: nat, calls: nat, m: Marks): View { v.(now := now, calls := calls, marks := m) }

  /** No mark is lost. */
  predicate MarksKept(m: Marks, m': Marks)
  {
    m.dials <= m'.dials && (m.crossed ==> m'.crossed) && (m.stirred ==> m'.stirred) && (m.hung ==> m'.hung)
    && (m.shifted ==> m'.shifted)
  }

  lemma SlotLater(w: World, c: TcpConnection, h: History, opening: bool, now: nat, m: Marks, elsewhere: bool, now': nat,
                  m': Marks, elsewhere': bool)
    requires w.station.Valid() && SlotOk(w, c, h, opening, now, m, elsewhere) && now <= now' && MarksKept(m, m')
    requires Earlier(m, elsewhere) <= Earlier(m', elsewhere') && (opening ==> m'.dials == m.dials)
    ensures SlotOk(w, c, h, opening, now', m', elsewhere')
  {
  }

  lemma LaterStep(w: World, v: View, now: nat, calls: nat, m: Marks)
    requires Inv(w, v) && v.now <= now && v.calls <= calls && MarksGrow(v.marks, m, v.opening.Some?)
    requires Caused(w, |v.conns|, now, calls, m)
    ensures Inv(w, Later(v, now, calls, m)) && Leads(v, Later(v, now, calls, m))
  {
    hide SlotOk, Caused, Owned;
    var v' := Later(v, now, calls, m);
    forall i | 0 <= i < |v.conns|
      ensures SlotOk(w, v'.conns[i], v'.hist[i], v'.IsOpening(i), v'.now, v'.marks, v'.Elsewhere(i))
    {
      SlotLater(w, v.conns[i], v.hist[i], v.IsOpening(i), v.now, v.marks, v.Elsewhere(i), now, m, v.Elsewhere(i));
    }
    assert Owned(v') by { SameOwned(v, v'); }
  }

  lemma SameOwned(v: View, v': View)
    requires Owned(v) && |v'.conns| == |v.conns| && v'.closing == v.closing
    requires forall i | 0 <= i < |v.conns| :: v'.conns[i].state == Dyeing <==> v.conns[i].state == Dyeing
    ensures Owned(v')
  {
  }

  lemma CausedLater(w: World, size: nat, now: nat, calls: nat, m: Marks, now': nat, calls': nat)
    requires Caused(w, size, now, calls, m) && now <= now' && calls <= calls'
    ensures Caused(w, size, now', calls', m)
  {
    AcksGrow(w, now, now');
  }

  /** Another poll. */
  function Ticked(v: View): View { Later(v, v.now + 1, v.calls, v.marks) }

  lemma TickStep(w: World, v: View)
    requires Inv(w, v)
    ensures Inv(w, Ticked(v)) && Leads(v, Ticked(v))
  {
    hide Caused, Owned, SlotsOk, TableOk, SlotsLead;
    CausedLater(w, |v.conns|, v.now, v.calls, v.marks, v.now + 1, v.calls);
    LaterStep(w, v, v.now + 1, v.calls, v.marks);
  }

  /** Another callback call. */
  function Called(v: View): View { Later(v, v.now, v.calls + 1, v.marks) }

  lemma CallStep(w: World, v: View)
    requires Inv(w, v)
    ensures Inv(w, Called(v)) && Leads(v, Called(v))
  {
    hide Caused, Owned, SlotsOk, TableOk, SlotsLead;
    CausedLater(w, |v.conns|, v.now, v.calls, v.marks, v.now, v.calls + 1);
    LaterStep(w, v, v.now, v.calls + 1, v.marks);
  }

  /** One slot changes without becoming or ceasing to be DYEING, and keeps its peer or dies. */
  lemma SlotStep(w: World, v: View, i: nat, c: TcpConnection, h: History)
    requires Inv(w, v) && i < |v.conns|
    requires SlotOk(w, c, h, v.IsOpening(i), v.now, v.marks, v.Elsewhere(i))
    requires c.state == Dyeing <==> v.conns[i].state == Dyeing
    requires v.IsOpening(i) && h.clean ==> c.state == New
    requires v.marks.distinct ==> c.state == NoConnection || (Live(v.conns[i]) && SamePeer(c, v.conns[i]))
    ensures Inv(w, v.Set(i, c, h))
  {
    hide SlotOk, Caused, Owned;
    var v' := v.Set(i, c, h);
    assert SlotsOk(w, v');
    SameOwned(v, v');
    assert TableOk(v') by { hide SlotsOk; }
  }

  lemma SlotStepLeads(v: View, i: nat, c: TcpConnection, h: History)
    requires |v.hist| == |v.conns| && i < |v.conns|
    requires SlotLeads(v.conns[i], v.hist[i], c, h, v.IsOpening(i), v.marks)
    requires v.IsOpening(i) && h.clean ==> c == v.conns[i] && h == v.hist[i]
    ensures Leads(v, v.Set(i, c, h))
  {
    var v' := v.Set(i, c, h);
    forall j | 0 <= j < |v.conns|
      ensures SlotLeads(v.conns[j], v.hist[j], v'.conns[j], v'.hist[j], v.IsOpening(j), v'.marks)
    {
    }
  }

  /** As long as no SYN hit it, the slot being opened is as `TcpConnect` left it. */
  lemma OpeningFrozen(u: View, v: View, e: nat)
    requires Leads(u, v) && u.opening == Some(e) && e < |u.conns| && v.hist[e].clean
    ensures v.conns[e] == u.conns[e] && v.hist[e] == u.hist[e]
  {
    assert u.IsOpening(e);
  }
}
