/**
 Inputs for which the engine does not do what one would expect, each with the condition that excludes
 it: frames as bytes, and the steps the engine's methods take on them.
 */
module TcpWitness {
  import opened Util
  import opened Addresses
  import opened Checksum
  import opened Frame
  import opened TcpTypes
  import opened LinkLayer
  import opened TcpSpec
  import opened TcpSteps
  import opened TcpTheorems

  // ----- frames ------------------------------------------------------------------------------

  const HERE: Station := Station([1, 1, 1, 1, 1, 1], [10, 0, 0, 1], 600)

  /** A TCP segment to this station, before its checksum: `words` is the data offset, options are zero,
      and the frame is padded to the minimum length. The ends are named from this side. */
  function Unsummed(e: Ends, sequence: u32, ack: u32, words: byte, flags: byte, payload: seq<byte>): (f: seq<byte>)
    requires 5 <= words <= 15 && |payload| <= 400
    ensures |f| == (if 34 + 4 * words as int + |payload| < 60 then 60 else 34 + 4 * words as int + |payload|)
  {
    var total := 20 + 4 * words as int + |payload|;
    var length := if 14 + total < 60 then 60 else 14 + total;
    seq(length, k requires 0 <= k < length => HeaderByte(e, sequence, ack, words, flags, payload, total, k))
  }

  function HeaderByte(e: Ends, sequence: u32, ack: u32, words: byte, flags: byte, payload: seq<byte>, total: u16,
                      k: nat): byte
    requires 5 <= words <= 15
  {
    if k < 6 then 1
    else if k < 12 then e.mac[k - 6]
    else if k == 12 then 8
    else if k == 14 then 0x45
    else if k == 16 then High(total)
    else if k == 17 then Low(total)
    else if k == 22 then 128
    else if k == 23 then PROTO_TCP
    else if 26 <= k < 30 then e.ip[k - 26]
    else if 30 <= k < 34 then HERE.ip[k - 30]
    else if 34 <= k < 36 then ShortBytes(e.remotePort)[k - 34]
    else if 36 <= k < 38 then ShortBytes(e.port)[k - 36]
    else if 38 <= k < 42 then LongBytes(sequence)[k - 38]
    else if 42 <= k < 46 then LongBytes(ack)[k - 42]
    else if k == 46 then 16 * words as int
    else if k == 47 then flags
    else if 34 + 4 * words as int <= k < 34 + 4 * words as int + |payload| then payload[k - (34 + 4 * words as int)]
    else 0
  }

  /** The segment with its checksum. */
  function Summed(e: Ends, sequence: u32, ack: u32, words: byte, flags: byte, payload: seq<byte>): (f: seq<byte>)
    requires 5 <= words <= 15 && |payload| <= 400
  {
    var z := Unsummed(e, sequence, ack, words, flags, payload);
    UnsummedFields(e, sequence, ack, words, flags, payload);
    UnsummedPayload(e, sequence, ack, words, flags, payload);
    WithShort(z, 50, Sum16(TcpRegion(z), TcpStart(z)))
  }

  lemma UnsummedFields(e: Ends, sequence: u32, ack: u32, words: byte, flags: byte, payload: seq<byte>)
    requires 5 <= words <= 15 && |payload| <= 400
    ensures var z := Unsummed(e, sequence, ack, words, flags, payload);
            TcpSized(z) && ShortAt(z, 50) == 0 && HERE.IsTcp(z) && z[46] == 16 * words as int && Flags(z) == flags
            && TotalLength(z) as int == 20 + 4 * words as int + |payload|
    ensures var z := Unsummed(e, sequence, ack, words, flags, payload);
            SourcePort(z) == e.remotePort && TargetPort(z) == e.port && SourceIp(z) == e.ip && SourceMac(z) == e.mac
            && SequenceOf(z) == sequence && AckOf(z) == ack
  {
    var z := Unsummed(e, sequence, ack, words, flags, payload);
    assert z[30..34] == HERE.ip;
    assert z[26..30] == e.ip;
    assert z[6..12] == e.mac;
    assert SequenceOf(z) == LongAt(LongBytes(sequence), 0) && AckOf(z) == LongAt(LongBytes(ack), 0);
    assert SourcePort(z) == ShortAt(ShortBytes(e.remotePort), 0) && TargetPort(z) == ShortAt(ShortBytes(e.port), 0);
  }

  lemma UnsummedPayload(e: Ends, sequence: u32, ack: u32, words: byte, flags: byte, payload: seq<byte>)
    requires 5 <= words <= 15 && |payload| <= 400
    ensures var z := Unsummed(e, sequence, ack, words, flags, payload);
            (forall k | 0 <= k < |payload| :: z[34 + 4 * words as int + k] == payload[k])
            && forall k | 54 <= k < 34 + 4 * words as int :: z[k] == 0
  {
  }

  /** A list of zeros is an empty option list. */
  lemma ZeroOptions(f: seq<byte>, end: nat)
    requires 54 <= end <= |f| && (end > 54 ==> f[54] == 0)
    ensures OptionsOk(f, 54, end)
  {
  }

  /** Storing the checksum of a segment, padded or not, makes it acceptable. */
  lemma SummedAccepted(z: seq<byte>, f: seq<byte>)
    requires TcpSized(z) && ShortAt(z, 50) == 0 && f == WithShort(z, 50, Sum16(TcpRegion(z), TcpStart(z)))
    ensures TcpAccepts(f)
  {
    hide OptionsOk;
    var n := 14 + TotalLength(z) as int;
    StoredTcpChecksum(z, n, Sum16(TcpRegion(z), TcpStart(z)));
    HeadTcp(f[..n], f);
  }

  /** It is a segment the engine accepts, with these fields and this payload. */
  lemma SummedFields(e: Ends, sequence: u32, ack: u32, words: byte, flags: byte, payload: seq<byte>)
    requires 5 <= words <= 15 && |payload| <= 400
    ensures var f := Summed(e, sequence, ack, words, flags, payload);
            60 <= |f| < HERE.bufferSize && HERE.IsTcp(f) && WellFormedTcp(f) && HERE.WellFormed(f) && TcpAccepts(f)
            && f[46] / 16 == words && Flags(f) == flags && SequenceOf(f) == sequence && AckOf(f) == ack
            && e == Ends(TargetPort(f), SourcePort(f), SourceIp(f), SourceMac(f))
            && Payload(f) == payload && DataLength(f) == |payload|
            && (words > 5 ==> f[54] == 0)
  {
    hide TcpAccepts, Unsummed, OptionsOk, Sum16;
    UnsummedFields(e, sequence, ack, words, flags, payload);
    UnsummedPayload(e, sequence, ack, words, flags, payload);
    var z := Unsummed(e, sequence, ack, words, flags, payload);
    var f := Summed(e, sequence, ack, words, flags, payload);
    assert forall k | 0 <= k < |z| && k != 50 && k != 51 :: f[k] == z[k];
    SummedAccepted(z, f);
    SummedSame(z, f);
    ZeroOptions(f, DataPosition(f));
    PayloadLength(f);
    assert Payload(f) == payload;
  }

  /** Storing the checksum changes no other field. */
  lemma SummedSame(z: seq<byte>, f: seq<byte>)
    requires HasHeaders(z) && |f| == |z| && forall k | 0 <= k < |z| && k != 50 && k != 51 :: f[k] == z[k]
    ensures TotalLength(f) == TotalLength(z) && SourcePort(f) == SourcePort(z) && TargetPort(f) == TargetPort(z)
    ensures SourceIp(f) == SourceIp(z) && SourceMac(f) == SourceMac(z) && f[30..34] == z[30..34]
    ensures EthType(f) == EthType(z)
    ensures SequenceOf(f) == SequenceOf(z) && AckOf(f) == AckOf(z)
  {
  }

  // ----- options before the data ---------------------------------------------------------------

  /** A world in which poll after poll brings the same frame, and the application does nothing. */
  function Repeating(f: seq<byte>): World
  {
    World(HERE, (t: nat) => f, App((n: nat) => Ok, (n: nat) => [], (n: nat) => [], (n: nat) => [], 0), 0)
  }

  lemma RepeatingValid(f: seq<byte>)
    requires HERE.WellFormed(f)
    ensures Repeating(f).Valid()
  {
  }

  /** What the callback sees of an accepted segment is its payload, whatever the segment, if and only if the
      header has no options: the handler locates the data after the header was overwritten. */
  lemma CallbackSeesPayloadIffNoOptions(h: byte)
    requires 5 <= h <= 15
    ensures h == 5 <==> forall w: World,
              t: nat | w.Valid() && w.IsTcp(t) && TcpAccepts(w.supply(t)) && w.supply(t)[46] / 16 == h ::
                          w.DataAt(t) == Payload(w.supply(t))
  {
    if h == 5 {
      forall w: World, t: nat | w.Valid() && w.IsTcp(t) && TcpAccepts(w.supply(t)) && w.supply(t)[46] / 16 == h
        ensures w.DataAt(t) == Payload(w.supply(t))
      {
        NoOptionsSeen(w, t);
      }
    } else {
      OptionsSeen(h);
    }
  }

  lemma NoOptionsSeen(w: World, t: nat)
    requires TcpSized(w.supply(t)) && w.supply(t)[46] / 16 == 5
    ensures w.DataAt(t) == Payload(w.supply(t))
  {
    PayloadLength(w.supply(t));
  }

  /** An acceptable segment with options and the single payload byte 1, of which the callback sees a 0. */
  lemma OptionsSeen(h: byte)
    requires 5 < h <= 15
    ensures var f := Summed(PEER, 0, 0, h, ACK, [1]);
            var w := Repeating(f);
            w.Valid() && w.IsTcp(0) && TcpAccepts(w.supply(0)) && w.supply(0)[46] / 16 == h
            && w.DataAt(0) != Payload(w.supply(0))
  {
    var f := Summed(PEER, 0, 0, h, ACK, [1]);
    SummedFields(PEER, 0, 0, h, ACK, [1]);
    RepeatingValid(f);
    assert Repeating(f).DataAt(0)[0] == f[54] == 0;
    assert Payload(f)[0] == 1;
  }

  const PEER: Ends := Ends(49152, 80, [10, 0, 0, 2], [2, 2, 2, 2, 2, 2])

  // ----- single packets ------------------------------------------------------------------------

  /** The table `TcpEngine.Stack` starts with. */
  function Start(n: nat): View
  {
    View(seq(n, _ => TcpConnection(0, 0, 0, 0, 0, NoConnection, [0, 0, 0, 0], [0, 0, 0, 0, 0, 0])),
         seq(n, _ => NO_HISTORY), [], None, 0, 0, NO_MARKS)
  }

  /** The packet of poll `t` takes table `v` to `u`, and nothing waits. */
  ghost predicate Packet(w: World, v: View, t: nat, u: View)
  {
    w.station.Valid() && v.now == t && w.IsTcp(t) && WellFormedTcp(w.supply(t)) && TcpAccepts(w.supply(t)) && Shape(v)
        && Shape(u)
    && React(w, Ticked(v), w.supply(t), t).Done? && React(w, Ticked(v), w.supply(t), t).view == u
  }

  /** A bare SYN from outside is accepted into slot `i`. */
  function SynAccepted(w: World, v: View, i: nat, p: seq<byte>, t: nat): View
    requires w.station.Valid() && WellFormedTcp(p) && i < |v.conns| == |v.hist|
  {
    WithState(Called(Accept(w.station, v, i, p, t)), i, SynReceived)
  }

  lemma SynIsAccepted(w: World, v: View, i: nat, p: seq<byte>, t: nat)
    requires w.station.Valid() && WellFormedTcp(p) && TcpAccepts(p) && Flags(p) == SYN && v.opening == None
    requires |v.conns| == |v.hist| && FirstMatch(v.conns, p) == |v.conns| && FirstEmpty(v.conns) == i < |v.conns|
    requires w.app.onNew(v.calls) == Ok
    ensures React(w, v, p, t).Done? && React(w, v, p, t).view == SynAccepted(w, v, i, p, t)
  {
    hide TcpAccepts, FirstMatch, FirstEmpty, AnnouncedMss;
  }

  /** The ACK of its handshake establishes it. */
  lemma AckEstablishes(w: World, v: View, i: nat, p: seq<byte>, t: nat)
    requires w.station.Valid() && WellFormedTcp(p) && TcpAccepts(p) && Flags(p) == ACK && DataLength(p) == 0
    requires |v.conns| == |v.hist| && FirstMatch(v.conns, p) == i < |v.conns| && v.conns[i].state == SynReceived
    requires w.app.onConnect(v.calls) == []
    ensures React(w, v, p, t) == Done(Establish(w, v, i, t), Silent)
  {
    hide TcpAccepts, FirstMatch, FirstEmpty, DataLength;
    assert HasFlag(ACK, ACK) && !HasFlag(ACK, FIN);
    assert Noted(v, p) == v;
  }

  lemma MatchesFirst(conns: seq<TcpConnection>, p: seq<byte>, i: nat)
    requires HasHeaders(p) && i < |conns| && Matches(p, conns[i]) && forall k | 0 <= k < i :: !Matches(p, conns[k])
    ensures FirstMatch(conns, p) == i
  {
    hide Matches;
  }

  lemma NoMatch(conns: seq<TcpConnection>, p: seq<byte>)
    requires HasHeaders(p) && forall k | 0 <= k < |conns| :: !Matches(p, conns[k])
    ensures FirstMatch(conns, p) == |conns|
  {
    hide Matches;
  }

  lemma EmptyFirst(conns: seq<TcpConnection>, i: nat)
    requires i < |conns| && conns[i].state == NoConnection && forall k | 0 <= k < i :: conns[k].state != NoConnection
    ensures FirstEmpty(conns) == i
  {
  }

  // ----- simultaneous open ---------------------------------------------------------------------

  /** A peer that answers a SYN with a SYN of its own, then an ACK, then a SYN-ACK. */
  function Crossing(): World
  {
    World(HERE, (t: nat) => if t == 0 then Summed(PEER, 7, 0, 5, SYN, []) else
                            if t == 1 then Summed(PEER, 8, 3, 5, ACK, []) else Summed(PEER, 7, 3, 5, SYN + ACK, []),
          App((n: nat) => Ok, (n: nat) => [], (n: nat) => [], (n: nat) => [], 0), 0)
  }

  /** The record of a connection to that peer once `TcpConnect` has its link address and has numbered its SYN. */
  const DIALLED: TcpConnection := TcpConnection(3, 0, PEER.port, PEER.remotePort, 0, New, PEER.ip, PEER.mac)

  /** `TcpConnect` has taken slot `i` and, with the link address in the record, sent its SYN. */
  function Dialling(v: View, i: nat): View
    requires i < |v.conns| && i < |v.hist|
  {
    var c := v.conns[i];
    Rewrite(BeginOpen(v, i, DIALLED.(sendSequence := 2, mac := c.mac, maxSegmetSize := c.maxSegmetSize)), i, DIALLED)
  }

  /** The callback lifecycle fails in a simultaneous open: the peer's SYN and ACK establish the slot that
      `TcpConnect` is opening, and its SYN-ACK, which `TcpConnect` still awaits, does so once more.
      OnConnect is called twice in a row. */
  lemma SimultaneousOpenBreaksLifecycle() returns (u: View, x: View, y: View)
    ensures Crossing().Valid() && SynFrom(Crossing(), PEER.port, Dial(PEER.ip, PEER.remotePort), 0)
    ensures Packet(Crossing(), Dialling(Start(1), 0), 0, u) && Packet(Crossing(), u, 1, x) && AnsweredAgain(x, y)
    ensures |y.hist| == 1 && y.hist[0].trace == [Connected, Connected] && !Grouped(y.hist[0].trace)
    ensures !y.hist[0].orderly
  {
    hide Packet, PhaseOf, Grouped, Dialling, SynFrom, World.Valid, AnsweredAgain;
    u, x := CrossedOpen();
    y := AnswerAgain(x);
    TwiceConnected();
  }

  lemma AnswerAgain(x: View) returns (y: View)
    requires |x.conns| == |x.hist| == 1 && x.conns[0].state == Established && EndsOf(x.conns[0]) == PEER
    requires x.conns[0].sendSequence == 3 && x.hist[0].trace == [Connected]
    ensures AnsweredAgain(x, y) && |y.hist| == 1 && y.hist[0].trace == [Connected, Connected] && !y.hist[0].orderly
  {
    hide TcpAccepts, Summed, OptionsOk;
    SummedFields(PEER, 7, 3, 5, SYN + ACK, []);
    y := EndOpen(Ticked(x), 0, x.conns[0].(expectedSequence := 8), 2);
  }

  /** The SYN-ACK of the third poll is the one `TcpConnect` awaits; it completes the open once more. */
  ghost predicate AnsweredAgain(x: View, y: View)
  {
    var p := Crossing().supply(2);
    |x.conns| == |x.hist| == 1 && HasHeaders(p) && x.conns[0].state == Established && Matches(p, x.conns[0])
    && Flags(p) == SYN + ACK && AckOf(p) == x.conns[0].sendSequence
    && y == EndOpen(Ticked(x), 0, x.conns[0].(expectedSequence := Wrap32(SequenceOf(p) as int + 1)), 2)
  }

  /** The peer's SYN and its ACK. */
  lemma CrossedOpen() returns (u: View, x: View)
    ensures Crossing().Valid() && SynFrom(Crossing(), PEER.port, Dial(PEER.ip, PEER.remotePort), 0)
    ensures Packet(Crossing(), Dialling(Start(1), 0), 0, u) && Packet(Crossing(), u, 1, x) && |x.conns| == |x.hist| == 1
    ensures x.conns[0].state == Established && EndsOf(x.conns[0]) == PEER && x.conns[0].sendSequence == 3
    ensures x.hist[0].trace == [Connected]
  {
    var w, v := Crossing(), Dialling(Start(1), 0);
    hide TcpAccepts, Summed, AnnouncedMss, PhaseOf, Grouped, OptionsOk, React, Dialling, Noted, Window, DataLength;
    CrossingFrames();
    DiallingFacts();
    MatchesFirst(Ticked(v).conns, w.supply(0), 0);
    u := CrossedSyn(w, Ticked(v), w.supply(0), 0);
    NotedFacts(Ticked(v), w.supply(0));
    MatchesFirst(Ticked(u).conns, w.supply(1), 0);
    AckEstablishes(w, Ticked(u), 0, w.supply(1), 1);
    x := Establish(w, Ticked(u), 0, 1);
  }

  lemma CrossingFrames()
    ensures var w := Crossing();
            w.Valid() && Brings(w, 0, PEER, 7, 0, SYN, []) && Brings(w, 1, PEER, 8, 3, ACK, [])
  {
    hide Summed, WellFormedTcp, Brings;
    var w := Crossing();
    forall t: nat
      ensures HERE.WellFormed(w.supply(t))
      ensures t == 0 ==> Brings(w, t, PEER, 7, 0, SYN, [])
      ensures t == 1 ==> Brings(w, t, PEER, 8, 3, ACK, [])
    {
      if t == 0 { SummedBrings(w, t, PEER, 7, 0, SYN, []); }
      else if t == 1 { SummedBrings(w, t, PEER, 8, 3, ACK, []); }
      else { SummedBrings(w, t, PEER, 7, 3, SYN + ACK, []); }
    }
  }

  lemma DiallingFacts()
    ensures var v := Dialling(Start(1), 0);
            Shape(v) && v.conns == [DIALLED] && |v.hist| == 1 && v.hist[0].trace == [] && v.hist[0].orderly
            && v.opening == Some(0) && v.now == v.calls == 0 && v.closing == [] && v.hist[0].generation == 0
  {
  }

  /** A SYN that hits the slot being opened changes no record and no trace. */
  lemma NotedFacts(v: View, p: seq<byte>)
    requires |v.conns| == |v.hist| == 1 && HasHeaders(p)
    ensures var u := Noted(v, p);
            u.conns == v.conns && |u.hist| == 1 && u.hist[0].trace == v.hist[0].trace && u.now == v.now
            && u.calls == v.calls && u.opening == v.opening && u.closing == v.closing
            && u.hist[0].orderly == v.hist[0].orderly && u.hist[0].generation == v.hist[0].generation
  {
  }

  lemma TwiceConnected()
    ensures !Grouped([Connected, Connected])
  {
    assert !MayCome([Connected, Connected], 1);
  }

  /** A SYN for the slot that is being opened. */
  lemma CrossedSyn(w: World, v: View, p: seq<byte>, t: nat) returns (u: View)
    requires w.station.Valid() && WellFormedTcp(p) && TcpAccepts(p) && Flags(p) == SYN && |v.conns| == |v.hist|
    requires v.opening == Some(0) && FirstMatch(v.conns, p) == 0 < |v.conns| && v.conns[0].state == New
    requires w.app.onNew(v.calls) == Ok
    requires Matches(p, v.conns[0])
    ensures u == WithState(Called(Noted(v, p)), 0, SynReceived)
    ensures React(w, v, p, t) == Done(u, Answer(u.conns[0], u.conns[0].sendSequence, SYN + ACK))
  {
    hide TcpAccepts, FirstMatch, FirstEmpty;
    u := WithState(Called(Noted(v, p)), 0, SynReceived);
  }

  // ----- a send without end ----------------------------------------------------------------------

  /** The peer that `TcpConnect` is dialling sends a SYN of its own and then the same acknowledgement for ever;
      OnConnect sends a byte. */
  function Endless(patience: nat): World
  {
    World(HERE, (t: nat) => if t == 0 then Summed(PEER, 7, 0, 5, SYN, []) else Summed(PEER, 0, 3, 5, ACK, []),
          App((n: nat) => Ok, (n: nat) => if n == 1 then [Send(0, 0, Fixed([1]))] else [], (n: nat) => [],
              (n: nat) => [], 2), patience)
  }

  /** The connection on which it is sent has no segment size yet. */
  const SIZELESS: TcpConnection := DIALLED.(state := Established)

  /** The state of the send between two rounds. */
  ghost predicate GoingRound(v: View, k: nat)
  {
    v.conns == [SIZELESS] && |v.hist| == 1 && v.hist[0].generation == 0 && v.now == k + 2
  }

  /** One round of `TcpSendData`: an empty part is cut and sent as `f`, and the frame of the next poll acknowledges
      it, carries nothing, and ends the wait. */
  ghost predicate EmptyRound(w: World, v: View, f: seq<byte>, ident: u16, v': View)
  {
    |v.conns| == |v.hist| == 1 && v.conns[0].state == Established && v.conns[0].maxSegmetSize == 0
    && IsSegment(f, w.station, v.conns[0], ident, v.conns[0].sendSequence, ACK, [])
    && v' == Ticked(Transmit(Cut(v, 0, [], 0), 0, Transmission(|v.hist[0].written|, f), true, false))
    && w.IsTcp(v.now) && TcpAccepts(w.supply(v.now)) && Matches(w.supply(v.now), v.conns[0])
    && HasAllFlags(Flags(w.supply(v.now)), ACK) && SequenceOf(w.supply(v.now)) == v.conns[0].expectedSequence
    && AckOf(w.supply(v.now)) == v.conns[0].sendSequence && DataLength(w.supply(v.now)) == 0
    && !HasFlag(Flags(w.supply(v.now)), FIN)
  }

  /** `TcpSendData` goes round without end: after any number `n` of rounds, whatever identifiers their frames have, it
      is where it was. `u` is the table after the SYN, `x` when OnConnect is called. */
  lemma EndlessSend(patience: nat, n: nat, frames: seq<seq<byte>>, idents: seq<u16>)
    returns (u: View, x: View, views: seq<View>)
    requires |frames| == |idents| == n
    requires forall k | 0 <= k < n :: IsSegment(frames[k], HERE, SIZELESS, idents[k], 3, ACK, [])
    ensures Endless(patience).Valid() && Packet(Endless(patience), Dialling(Start(1), 0), 0, u)
    ensures CallsOnConnect(Endless(patience), u, x) && |views| == n + 1 && views[0] == x
    ensures forall k | 0 <= k < n :: EmptyRound(Endless(patience), views[k], frames[k], idents[k], views[k + 1])
  {
    hide EmptyRound, CallsOnConnect, Packet, IsSegment;
    u, x := SizelessOpen(patience);
    views := [x];
    var k := 0;
    while k < n
      invariant 0 <= k <= n && |views| == k + 1 && views[0] == x && GoingRound(views[k], k)
      invariant forall j | 0 <= j < k :: EmptyRound(Endless(patience), views[j], frames[j], idents[j], views[j + 1])
    {
      var v := OneRound(patience, views[k], k, frames[k], idents[k]);
      views := views + [v];
      k := k + 1;
    }
  }

  /** The frame of the second poll makes the slot that is being opened ESTABLISHED, and OnConnect is to send. */
  ghost predicate CallsOnConnect(w: World, u: View, x: View)
  {
    w.station.Valid() && u.now == 1 && w.IsTcp(1) && WellFormedTcp(w.supply(1)) && |u.conns| == |u.hist|
    && React(w, Ticked(u), w.supply(1), 1) == Calls(x, Silent) && x.calls == 2 && x.opening == Some(0)
    && w.app.onConnect(1) == [Send(0, 0, Fixed([1]))]
  }

  lemma SizelessOpen(patience: nat) returns (u: View, x: View)
    ensures Endless(patience).Valid() && Packet(Endless(patience), Dialling(Start(1), 0), 0, u)
    ensures CallsOnConnect(Endless(patience), u, x) && GoingRound(x, 0)
  {
    var w, v := Endless(patience), Dialling(Start(1), 0);
    hide TcpAccepts, Summed, AnnouncedMss, OptionsOk, React, Dialling, Noted, Window, DataLength;
    EndlessFrames(patience);
    assert Brings(w, 1, PEER, 0, 3, ACK, []);
    DiallingFacts();
    MatchesFirst(Ticked(v).conns, w.supply(0), 0);
    u := CrossedSyn(w, Ticked(v), w.supply(0), 0);
    NotedFacts(Ticked(v), w.supply(0));
    MatchesFirst(Ticked(u).conns, w.supply(1), 0);
    assert u.hist[0].generation == 0;
    x := Establish(w, Ticked(u), 0, 1);
    assert w.app.onConnect(1)[0] == Send(0, 0, Fixed([1])) && !Idle(w.app.onConnect(1)[0], x.conns);
    AckCallsOnConnect(w, Ticked(u), w.supply(1), 1);
  }

  lemma AckCallsOnConnect(w: World, v: View, p: seq<byte>, t: nat)
    requires w.station.Valid() && WellFormedTcp(p) && TcpAccepts(p) && Flags(p) == ACK
    requires |v.conns| == |v.hist| && FirstMatch(v.conns, p) == 0 < |v.conns| && v.conns[0].state == SynReceived
    requires !Inert(w.app.onConnect(v.calls), Establish(w, v, 0, t).conns)
    ensures React(w, v, p, t) == Calls(Establish(w, v, 0, t), Silent)
  {
    hide TcpAccepts, FirstMatch, FirstEmpty, DataLength, Establish;
    assert HasFlag(ACK, ACK);
    assert Noted(v, p) == v;
  }

  lemma EndlessFrames(patience: nat)
    ensures var w := Endless(patience);
            w.Valid() && Brings(w, 0, PEER, 7, 0, SYN, []) && forall t: nat | t > 0 :: Brings(w, t, PEER, 0, 3, ACK, [])
  {
    hide Summed, WellFormedTcp, Brings;
    var w := Endless(patience);
    forall t: nat
      ensures HERE.WellFormed(w.supply(t))
      ensures t == 0 ==> Brings(w, t, PEER, 7, 0, SYN, [])
      ensures t > 0 ==> Brings(w, t, PEER, 0, 3, ACK, [])
    {
      if t == 0 { SummedBrings(w, t, PEER, 7, 0, SYN, []); } else { SummedBrings(w, t, PEER, 0, 3, ACK, []); }
    }
  }

  lemma OneRound(patience: nat, v: View, k: nat, f: seq<byte>, ident: u16) returns (v': View)
    requires GoingRound(v, k) && IsSegment(f, HERE, SIZELESS, ident, 3, ACK, [])
    ensures GoingRound(v', k + 1) && EmptyRound(Endless(patience), v, f, ident, v')
  {
    hide TcpAccepts, Summed, OptionsOk, IsSegment, DataLength;
    EndlessFrames(patience);
    assert Brings(Endless(patience), v.now, PEER, 0, 3, ACK, []);
    assert !HasFlag(ACK, FIN);
    v' := Ticked(Transmit(Cut(v, 0, [], 0), 0, Transmission(|v.hist[0].written|, f), true, false));
  }

  /** Poll `t` brings an acceptable segment between these ends. */
  ghost predicate Brings(w: World, t: nat, e: Ends, sequence: u32, ack: u32, flags: byte, payload: seq<byte>)
  {
    w.IsTcp(t) && FromEnds(w, e, t) && WellFormedTcp(w.supply(t)) && w.SequenceAt(t) == sequence && w.AckAt(t) == ack
    && w.FlagsAt(t) == flags && w.DataAt(t) == payload
  }

  lemma SummedBrings(w: World, t: nat, e: Ends, sequence: u32, ack: u32, flags: byte, payload: seq<byte>)
    requires |payload| <= 400 && w.station == HERE && w.supply(t) == Summed(e, sequence, ack, 5, flags, payload)
    ensures Brings(w, t, e, sequence, ack, flags, payload) && w.station.WellFormed(w.supply(t))
  {
    hide TcpAccepts, Summed, OptionsOk;
    SummedFields(e, sequence, ack, 5, flags, payload);
    NoOptionsSeen(w, t);
  }

  // ----- a connection opened from outside --------------------------------------------------------

  /** The peer's SYN and the ACK of its handshake, at polls `t` and `t + 1`, make slot `i` a connection. */
  lemma Handshake(w: World, v: View, i: nat, t: nat, e: Ends, s: u32, s': u32, a: u32, a': u32)
    returns (u: View, x: View)
    requires w.station.Valid() && Shape(v) && v.opening == None && v.now == t && i < |v.conns|
    requires Brings(w, t, e, s, a, SYN, []) && Brings(w, t + 1, e, s', a', ACK, [])
    requires FirstEmpty(v.conns) == i && forall k | 0 <= k < |v.conns| ::
              v.conns[k].state == NoConnection || EndsOf(v.conns[k]) != e
    requires w.app.onNew(v.calls) == Ok && w.app.onConnect(v.calls + 1) == []
    ensures Packet(w, v, t, u) && Packet(w, u, t + 1, x)
    ensures u == SynAccepted(w, Ticked(v), i, w.supply(t), t) && x == Establish(w, Ticked(u), i, t + 1)
    ensures Joined(v, x, i, e, s, a')
  {
    hide TcpAccepts, FirstEmpty, AnnouncedMss, OptionsOk, DataLength, React, Establish;
    var p, q := w.supply(t), w.supply(t + 1);
    NoMatch(v.conns, p);
    SynIsAccepted(w, Ticked(v), i, p, t);
    u := SynAccepted(w, Ticked(v), i, p, t);
    assert forall k | 0 <= k < i :: u.conns[k] == v.conns[k];
    MatchesFirst(u.conns, q, i);
    AckEstablishes(w, Ticked(u), i, q, t + 1);
    x := Establish(w, Ticked(u), i, t + 1);
    EstablishedShape(w, u, i, t);
    JoinedBy(w, v, u, x, i, t, e, s, s', a, a');
  }

  /** Slot `i` has become a connection between these ends, and nothing else has changed. */
  ghost predicate Joined(v: View, x: View, i: nat, e: Ends, sequence: u32, ack: u32)
  {
    |x.conns| == |v.conns| == |v.hist| == |x.hist| && i < |v.conns| && x.opening == v.opening && x.closing == v.closing
    && x.now == v.now + 2 && x.calls == v.calls + 2
    && (forall j | 0 <= j < |v.conns| && j != i :: x.conns[j] == v.conns[j] && x.hist[j] == v.hist[j])
    && x.conns[i].state == Established && EndsOf(x.conns[i]) == e && x.conns[i].sendSequence == ack
    && x.conns[i].expectedSequence == Wrap32(sequence as int + 1)
  }

  lemma JoinedBy(w: World, v: View, u: View, x: View, i: nat, t: nat, e: Ends, s: u32, s': u32, a: u32, a': u32)
    requires w.station.Valid() && Shape(v) && v.now == t && i < |v.conns| && v.conns[i].state == NoConnection
    requires Brings(w, t, e, s, a, SYN, []) && Brings(w, t + 1, e, s', a', ACK, [])
    requires u == SynAccepted(w, Ticked(v), i, w.supply(t), t) && Shape(u) && x == Establish(w, Ticked(u), i, t + 1)
    ensures Joined(v, x, i, e, s, a')
  {
    hide TcpAccepts, AnnouncedMss, OptionsOk, DataLength, Window;
  }

  lemma EstablishedShape(w: World, u: View, i: nat, t: nat)
    requires Shape(u) && i < |u.conns|
    ensures Shape(Establish(w, Ticked(u), i, t + 1))
  {
  }

  // ----- a pair opened twice ---------------------------------------------------------------------

  /** A peer that connects to the first dynamic port. */
  function Calling(): World
  {
    World(HERE, (t: nat) => if t == 0 then Summed(PEER, 7, 0, 5, SYN, []) else Summed(PEER, 8, 3, 5, ACK, []),
          App((n: nat) => Ok, (n: nat) => [], (n: nat) => [], (n: nat) => [], 0), 0)
  }

  /** `TcpConnect` takes the second slot. */
  ghost predicate OpensAgain(x: View, y: View)
  {
    |x.conns| == |x.hist| == 2 && FirstEmpty(x.conns) == 1 && y == Dialling(x, 1)
    && DIALLED.port == DynamicPort(|x.marks.dials|)
  }

  predicate BothMatch(p: seq<byte>, y: View)
  {
    HasHeaders(p) && |y.conns| == 2 && Matches(p, y.conns[0]) && Matches(p, y.conns[1])
  }

  /** Two slots answer to the same packet: a peer has connected to the local port that `TcpConnect` uses for
      its first connection, and that connection goes to the very port the peer came from. */
  lemma PairOpenedTwice() returns (u: View, x: View, y: View)
    ensures Calling().Valid() && SynFrom(Calling(), PEER.port, Dial(PEER.ip, PEER.remotePort), 0)
    ensures Packet(Calling(), Start(2), 0, u) && Packet(Calling(), u, 1, x) && OpensAgain(x, y)
    ensures BothMatch(Calling().supply(1), y) && !y.marks.distinct
  {
    var w := Calling();
    hide TcpAccepts, Summed, AnnouncedMss, React, Packet;
    SummedBrings(w, 0, PEER, 7, 0, SYN, []);
    SummedBrings(w, 1, PEER, 8, 3, ACK, []);
    CallingValid();
    EmptyFirst(Start(2).conns, 0);
    u, x := Handshake(w, Start(2), 0, 0, PEER, 7, 8, 0, 3);
    EmptyFirst(x.conns, 1);
    y := Dialling(x, 1);
    assert SamePeer(y.conns[0], y.conns[1]);
  }

  lemma CallingValid()
    ensures Calling().Valid()
  {
    hide Summed, WellFormedTcp;
    var w := Calling();
    forall t: nat
      ensures HERE.WellFormed(w.supply(t))
    {
      if t == 0 { SummedBrings(w, t, PEER, 7, 0, SYN, []); } else { SummedBrings(w, t, PEER, 8, 3, ACK, []); }
    }
  }

  // ----- a buffer used again ---------------------------------------------------------------------

  const OTHER: Ends := Ends(80, 1024, [10, 0, 0, 3], [3, 3, 3, 3, 3, 3])
  const FIRST: Ends := Ends(80, 1024, [10, 0, 0, 2], [2, 2, 2, 2, 2, 2])

  /** Two peers connect. When the second is connected, OnConnect closes the first connection; its peer
      acknowledges the FIN with a segment that still carries the byte 9. After that the second peer sends the
      same byte. */
  function Overtaken(): World
  {
    World(HERE, (t: nat) =>
            if t == 0 then Summed(FIRST, 6, 0, 5, SYN, []) else if t == 1 then Summed(FIRST, 7, 3, 5, ACK, []) else
            if t == 2 then Summed(OTHER, 6, 0, 5, SYN, []) else if t == 3 then Summed(OTHER, 7, 3, 5, ACK, []) else
            if t == 4 then Summed(FIRST, 7, 4, 5, ACK, [9]) else Summed(OTHER, 7, 3, 5, ACK, [9]),
          App((n: nat) => Ok, (n: nat) => if n == 3 then [Hangup(0, 0)] else [], (n: nat) => [], (n: nat) => [], 0), 0)
  }

  lemma OvertakenFrames()
    ensures var w := Overtaken();
            w.Valid() && Brings(w, 0, FIRST, 6, 0, SYN, []) && Brings(w, 1, FIRST, 7, 3, ACK, [])
                && Brings(w, 2, OTHER, 6, 0, SYN, [])
            && Brings(w, 3, OTHER, 7, 3, ACK, []) && Brings(w, 4, FIRST, 7, 4, ACK, [9])
            && Brings(w, 5, OTHER, 7, 3, ACK, [9])
  {
    hide Summed, WellFormedTcp, Brings;
    var w := Overtaken();
    forall t: nat
      ensures HERE.WellFormed(w.supply(t))
      ensures t == 0 ==> Brings(w, t, FIRST, 6, 0, SYN, [])
      ensures t == 1 ==> Brings(w, t, FIRST, 7, 3, ACK, [])
      ensures t == 2 ==> Brings(w, t, OTHER, 6, 0, SYN, [])
      ensures t == 3 ==> Brings(w, t, OTHER, 7, 3, ACK, [])
      ensures t == 4 ==> Brings(w, t, FIRST, 7, 4, ACK, [9])
      ensures t >= 5 ==> Brings(w, t, OTHER, 7, 3, ACK, [9])
    {
      if t == 0 { SummedBrings(w, t, FIRST, 6, 0, SYN, []); }
      else if t == 1 { SummedBrings(w, t, FIRST, 7, 3, ACK, []); }
      else if t == 2 { SummedBrings(w, t, OTHER, 6, 0, SYN, []); }
      else if t == 3 { SummedBrings(w, t, OTHER, 7, 3, ACK, []); }
      else if t == 4 { SummedBrings(w, t, FIRST, 7, 4, ACK, [9]); }
      else { SummedBrings(w, t, OTHER, 7, 3, ACK, [9]); }
    }
    OvertakenApp();
  }

  lemma OvertakenApp()
    ensures Overtaken().app.Valid()
  {
  }

  /** A SYN from outside has been accepted into slot `i`, and the frame of poll `t + 1` completes its
      handshake; OnConnect is yet to run. */
  ghost predicate Shaken(w: World, v: View, i: nat, t: nat, u: View, x: View)
  {
    Packet(w, v, t, u) && Shape(x) && i < |u.conns| && x == Establish(w, Ticked(u), i, t + 1)
    && FromEnds(w, EndsOf(u.conns[i]), t + 1) && w.FlagsAt(t + 1) == ACK && u.conns[i].state == SynReceived
  }

  /** A callback closes slot `i`: `b` is the table when the close begins, `c` when it has numbered its FIN;
      the frame of poll `t` acknowledges that FIN and takes the table to `d`, and the close ends in `e`. */
  ghost predicate ClosedBy(w: World, x: View, i: nat, t: nat, b: View, c: View, d: View, e: View)
  {
    Shape(x) && i < |x.conns| && x.conns[i].state == Established
        && b == BeginClose(x, i, x.conns[i].expectedSequence, true)
    && c == b.Set(i, b.conns[i].(sendSequence := Wrap32(b.conns[i].sendSequence as int + 1)), b.hist[i])
    && Packet(w, c, t, d) && FromEnds(w, EndsOf(c.conns[i]), t) && w.FlagsAt(t) == ACK
    && w.AckAt(t) == c.conns[i].sendSequence && w.SequenceAt(t) == c.conns[i].expectedSequence
    && |d.conns| == |c.conns| && d.closing == c.closing && e == EndClose(d, i)
  }

  /** A handler of slot `i` whose OnConnect has left the frame of poll `t` in the buffer. */
  ghost predicate HandledStale(w: World, e: View, i: nat, t: nat, y: View)
  {
    e.marks.stirred && Shape(e) && Shape(y) && i < |e.conns| && |y.conns| == |e.conns| && HasHeaders(w.supply(t))
    && ReactData(w, e, i, w.supply(t), Stale) == Done(y, AckOfSlot(y.conns[i]))
  }

  lemma HalfShaken(w: World, v: View, i: nat, t: nat, e: Ends, s: u32, s': u32, a: u32, a': u32)
    returns (u: View, x: View)
    requires w.station.Valid() && Shape(v) && v.opening == None && v.now == t && i < |v.conns|
    requires Brings(w, t, e, s, a, SYN, []) && Brings(w, t + 1, e, s', a', ACK, [])
    requires FirstEmpty(v.conns) == i && forall k | 0 <= k < |v.conns| ::
              v.conns[k].state == NoConnection || EndsOf(v.conns[k]) != e
    requires w.app.onNew(v.calls) == Ok
    ensures Shaken(w, v, i, t, u, x) && u == SynAccepted(w, Ticked(v), i, w.supply(t), t)
  {
    hide TcpAccepts, FirstEmpty, AnnouncedMss, OptionsOk, DataLength, React;
    NoMatch(v.conns, w.supply(t));
    SynIsAccepted(w, Ticked(v), i, w.supply(t), t);
    u := SynAccepted(w, Ticked(v), i, w.supply(t), t);
    x := Establish(w, Ticked(u), i, t + 1);
  }

  lemma HungUp(w: World, x: View, t: nat, s: u32, a: u32, payload: seq<byte>)
    returns (b: View, c: View, d: View, e: View)
    requires w.station.Valid() && Shape(x) && x.opening == None && x.now == t && x.conns[0].state == Established
    requires x.closing == []
    requires Brings(w, t, EndsOf(x.conns[0]), s, a, ACK, payload)
    requires s == x.conns[0].expectedSequence && a == Wrap32(x.conns[0].sendSequence as int + 1)
    ensures ClosedBy(w, x, 0, t, b, c, d, e)
    ensures e.conns == x.conns[0 := e.conns[0]] && e.hist == x.hist[0 := e.hist[0]] && e.opening == None
    ensures e.calls == x.calls + 1 && e.now == t + 1 && e.marks.stirred == x.marks.stirred && Shape(e)
    ensures |e.conns| == |x.conns| == |e.hist|
  {
    hide TcpAccepts, OptionsOk, DataLength, React, Window;
    b := BeginClose(x, 0, x.conns[0].expectedSequence, true);
    c := b.Set(0, b.conns[0].(sendSequence := Wrap32(b.conns[0].sendSequence as int + 1)), b.hist[0]);
    d := Ticked(c);
    DyingIgnores(w, d, w.supply(t), t);
    e := EndClose(d, 0);
  }

  /** A segment without FIN for a connection that is closing does nothing. */
  lemma DyingIgnores(w: World, v: View, p: seq<byte>, t: nat)
    requires w.station.Valid() && WellFormedTcp(p) && TcpAccepts(p) && Flags(p) == ACK && v.opening == None
    requires |v.conns| == |v.hist| > 0 && Matches(p, v.conns[0]) && v.conns[0].state == Dyeing
    ensures React(w, v, p, t) == Done(v, Silent)
  {
    hide TcpAccepts, DataLength;
    MatchesFirst(v.conns, p, 0);
    assert !HasFlag(ACK, FIN);
  }

  /** Data in a stale buffer, under the number expected of another connection. */
  lemma StaleDelivered(w: World, e: View, i: nat, t: nat, payload: seq<byte>) returns (y: View)
    requires e.marks.stirred && Shape(e) && i < |e.conns| && e.conns[i].state == Established && HasHeaders(w.supply(t))
    requires w.FlagsAt(t) == ACK
    requires DataLength(w.supply(t)) == |payload| > 0 && w.DataAt(t) == payload
    requires w.SequenceAt(t) == e.conns[i].expectedSequence
    requires w.app.onData(e.calls) == []
    ensures HandledStale(w, e, i, t, y) && y == Deliver(e, i, Stale, payload)
  {
    hide DataLength, Window;
    assert !HasFlag(ACK, FIN);
    y := Deliver(e, i, Stale, payload);
  }

  /** Bytes of one connection are delivered as another's: while the handshake of slot 1 is completed, its
      OnConnect closes slot 0, the close reads the last segment of slot 0 into the buffer, and the handler
      of slot 1 goes on with that. */
  lemma ForeignBytesDelivered()
    returns (u: View, x: View, u': View, x': View, b: View, c: View, d: View, e: View, y: View)
    ensures Overtaken().Valid() && Packet(Overtaken(), Start(2), 0, u) && Packet(Overtaken(), u, 1, x)
    ensures Shaken(Overtaken(), x, 1, 2, u', x') && x'.calls == 4 && Overtaken().app.onConnect(3) == [Hangup(0, 0)]
    ensures ClosedBy(Overtaken(), x', 0, 4, b, c, d, e) && HandledStale(Overtaken(), e, 1, 4, y)
    ensures |y.hist| == 2 && y.hist[1].trace == [Connected, Received([9])] && !y.hist[1].exact
    ensures |y.conns| == 2 && EndsOf(y.conns[1]) == OTHER && FromEnds(Overtaken(), FIRST, 4)
    ensures Overtaken().DataAt(4) == [9]
    ensures PeerStreams(Overtaken(), y, 1, []) && !(Delivered(y.hist[1].trace) <= [])
    ensures y.now == 5 && y.calls == 6 && y.hist[1].syn == 2 && y.hist[1].base == 7 && y.opening == None
    ensures y.conns[1].state == Established && y.conns[1].expectedSequence == 8 && y.conns[0].state == NoConnection
    ensures Shape(y)
  {
    var w := Overtaken();
    hide TcpAccepts, Summed, React, Packet, Window, DataLength, Shaken, OptionsOk;
    OvertakenFrames();
    u, x, u', x' := BothConnected();
    b, c, d, e := HungUp(w, x', 4, 7, 4, [9]);
    y := StaleDelivered(w, e, 1, 4, [9]);
    assert y.hist[1].trace == [Connected] + [Received([9])];
    NothingSent(y);
  }

  /** The second peer has sent nothing until then. */
  lemma NothingSent(y: View)
    requires |y.conns| == |y.hist| == 2 && EndsOf(y.conns[1]) == OTHER && y.now == 5 && y.hist[1].syn == 2
    ensures PeerStreams(Overtaken(), y, 1, [])
  {
    hide TcpAccepts, Summed, Window, DataLength, OptionsOk;
    OvertakenFrames();
    var w := Overtaken();
    forall t: nat | 2 <= t < 5
      ensures !FromPeer(w, OTHER, t)
    {
      assert w.DataAt(2) == [] && w.DataAt(3) == [];
      assert FromEnds(w, FIRST, 4);
    }
  }

  /** A delivery out of such a buffer need not be wrong: when the second peer sends the same byte under the same
      number, what was delivered is a prefix of whatever it streams. */
  lemma StaleMayBeRight(y: View) returns (z: View)
    requires Shape(y) && |y.conns| == 2 && EndsOf(y.conns[1]) == OTHER && y.conns[1].state == Established
    requires y.conns[1].expectedSequence == 8 && y.conns[0].state == NoConnection && y.opening == None
    requires y.now == 5 && y.hist[1].syn == 2 && y.hist[1].base == 7
    requires y.hist[1].trace == [Connected, Received([9])] && !y.hist[1].exact
    ensures Packet(Overtaken(), y, 5, z) && |z.conns| == |z.hist| == 2 && !z.hist[1].exact
    ensures forall stream | PeerStreams(Overtaken(), z, 1, stream) :: Delivered(z.hist[1].trace) <= stream
  {
    var w := Overtaken();
    hide TcpAccepts, Summed, Window, OptionsOk, Streams, DataLength, Carries;
    OvertakenFrames();
    z := Ticked(y);
    MatchesFirst(z.conns, w.supply(5), 1);
    OldNumber(w, z, 5);
    forall stream | PeerStreams(w, z, 1, stream)
      ensures Delivered(z.hist[1].trace) <= stream
    {
      assert z.hist[1].trace == [Connected] + [Received([9])];
      DeliveredStep([Connected], [9]);
      assert [Connected][..0] == [];
      assert Delivered(z.hist[1].trace) == [9];
      assert FromPeer(w, OTHER, 5);
      FirstByte(w, z, stream);
    }
  }

  /** Data under a number before the expected one is only acknowledged. */
  lemma OldNumber(w: World, v: View, t: nat)
    requires w.station.Valid() && WellFormedTcp(w.supply(t)) && TcpAccepts(w.supply(t)) && Flags(w.supply(t)) == ACK
    requires |v.conns| == |v.hist| && FirstMatch(v.conns, w.supply(t)) == 1 < |v.conns|
    requires v.conns[1].state == Established && DataLength(w.supply(t)) > 0 && v.opening == None
    requires SequenceOf(w.supply(t)) != v.conns[1].expectedSequence
    ensures React(w, v, w.supply(t), t) == Done(v, AckOfSlot(v.conns[1]))
  {
    hide TcpAccepts, DataLength, FirstMatch;
    assert !HasFlag(ACK, FIN);
  }

  lemma FirstByte(w: World, z: View, stream: seq<byte>)
    requires |z.conns| == |z.hist| == 2 && PeerStreams(w, z, 1, stream) && z.now == 6 && z.hist[1].syn == 2
    requires z.hist[1].base == 7 && FromPeer(w, EndsOf(z.conns[1]), 5) && w.SequenceAt(5) == 7 && w.DataAt(5) == [9]
    ensures [9] <= stream
  {
    hide FromPeer;
    assert exists at: nat :: Carries(w, 5, 7, stream, at);
    NextContinues(w, 5, 7, stream, []);
    assert [] + [9] == [9];
  }

  /** Both connections, before the OnConnect of the second. */
  lemma BothConnected() returns (u: View, x: View, u': View, x': View)
    ensures Packet(Overtaken(), Start(2), 0, u) && Packet(Overtaken(), u, 1, x) && Shaken(Overtaken(), x, 1, 2, u', x')
    ensures Shape(x') && |x'.conns| == 2 && x'.opening == None && x'.closing == [] && x'.now == 4 && x'.calls == 4
    ensures x'.conns[0].state == x'.conns[1].state == Established && EndsOf(x'.conns[0]) == FIRST
    ensures EndsOf(x'.conns[1]) == OTHER
    ensures x'.conns[0].expectedSequence == x'.conns[1].expectedSequence == 7 && x'.conns[0].sendSequence == 3
    ensures x'.hist[1].trace == [Connected] && x'.hist[1].exact && x'.marks.stirred
    ensures x'.hist[1].syn == 2 && x'.hist[1].base == 7
  {
    hide TcpAccepts, Summed, AnnouncedMss, React, Packet, Window, DataLength, OptionsOk;
    OvertakenFrames();
    u, x := OneConnected();
    EmptyFirst(x.conns, 1);
    u', x' := HalfShaken(Overtaken(), x, 1, 2, OTHER, 6, 7, 0, 3);
    assert !Idle(Hangup(0, 0), x'.conns);
    assert Overtaken().app.onConnect(3)[0] == Hangup(0, 0);
    assert !Inert(Overtaken().app.onConnect(3), x'.conns);
  }

  /** The first connection. */
  lemma OneConnected() returns (u: View, x: View)
    ensures Packet(Overtaken(), Start(2), 0, u) && Packet(Overtaken(), u, 1, x)
    ensures Shape(x) && |x.conns| == 2 && x.opening == None && x.closing == [] && x.now == 2 && x.calls == 2
    ensures x.conns[0].state == Established && EndsOf(x.conns[0]) == FIRST && x.conns[1].state == NoConnection
    ensures x.conns[0].expectedSequence == 7 && x.conns[0].sendSequence == 3 && x.hist[1].trace == []
  {
    hide TcpAccepts, Summed, React, Packet, Window, DataLength, OptionsOk, SynAccepted, Establish;
    OvertakenFrames();
    EmptyFirst(Start(2).conns, 0);
    u, x := Handshake(Overtaken(), Start(2), 0, 0, FIRST, 6, 7, 0, 3);
  }

  // ----- a send that outlives its connection -------------------------------------------------------

  const FIN_ACK: byte := 17

  /** A peer connects, closes the connection, and connects again. */
  function Returning(): World
  {
    World(HERE, (t: nat) =>
            if t == 0 then Summed(FIRST, 6, 0, 5, SYN, []) else if t == 1 then Summed(FIRST, 7, 3, 5, ACK, []) else
            if t == 2 then Summed(FIRST, 7, 3, 5, FIN_ACK, []) else if t == 3 then Summed(FIRST, 8, 5, 5, ACK, []) else
            if t == 4 then Summed(FIRST, 6, 0, 5, SYN, []) else Summed(FIRST, 7, 3, 5, ACK, []),
          App((n: nat) => Ok, (n: nat) => [], (n: nat) => [], (n: nat) => [], 0), 0)
  }

  lemma ReturningFrames()
    ensures var w := Returning();
            w.Valid() && Brings(w, 0, FIRST, 6, 0, SYN, []) && Brings(w, 1, FIRST, 7, 3, ACK, [])
            && Brings(w, 2, FIRST, 7, 3, FIN_ACK, []) && Brings(w, 3, FIRST, 8, 5, ACK, [])
            && Brings(w, 4, FIRST, 6, 0, SYN, []) && Brings(w, 5, FIRST, 7, 3, ACK, [])
  {
    hide Summed, WellFormedTcp, Brings;
    var w := Returning();
    forall t: nat
      ensures HERE.WellFormed(w.supply(t))
      ensures t == 0 || t == 4 ==> Brings(w, t, FIRST, 6, 0, SYN, [])
      ensures t == 1 || t == 5 ==> Brings(w, t, FIRST, 7, 3, ACK, [])
      ensures t == 2 ==> Brings(w, t, FIRST, 7, 3, FIN_ACK, [])
      ensures t == 3 ==> Brings(w, t, FIRST, 8, 5, ACK, [])
    {
      if t == 0 || t == 4 { SummedBrings(w, t, FIRST, 6, 0, SYN, []); }
      else if t == 2 { SummedBrings(w, t, FIRST, 7, 3, FIN_ACK, []); }
      else if t == 3 { SummedBrings(w, t, FIRST, 8, 5, ACK, []); }
      else { SummedBrings(w, t, FIRST, 7, 3, ACK, []); }
    }
    ReturningApp();
  }

  lemma ReturningApp()
    ensures Returning().app.Valid()
  {
  }

  /** The FIN of poll `t` closes slot 0: `b` is the table when the close begins, `c` when it has numbered its
      FIN; the frame of the next poll acknowledges that FIN, takes the table to `d`, and the close ends in `e`. */
  ghost predicate ClosedByFin(w: World, x: View, t: nat, b: View, c: View, d: View, e: View)
  {
    Shape(x) && x.now == t && w.station.Valid() && w.IsTcp(t) && WellFormedTcp(w.supply(t)) && TcpAccepts(w.supply(t))
    && x.conns[0].state == Established
    && b == BeginClose(Ticked(x), 0, Wrap32(x.conns[0].expectedSequence as int + 1), true)
    && React(w, Ticked(x), w.supply(t), t)
        == Closes(0, b, AckOfSlot(x.conns[0].(expectedSequence := b.conns[0].expectedSequence)))
    && c == b.Set(0, b.conns[0].(sendSequence := Wrap32(b.conns[0].sendSequence as int + 1)), b.hist[0])
    && Packet(w, c, t + 1, d) && FromEnds(w, EndsOf(c.conns[0]), t + 1) && w.FlagsAt(t + 1) == ACK
    && w.AckAt(t + 1) == c.conns[0].sendSequence && |d.conns| == |c.conns| && d.closing == c.closing
        && e == EndClose(d, 0)
  }

  lemma FinCloses(w: World, x: View, t: nat, s: u32, s': u32, a: u32, a': u32)
    returns (b: View, c: View, d: View, e: View)
    requires w.station.Valid() && Shape(x) && x.opening == None && x.now == t && x.conns[0].state == Established
    requires x.closing == []
    requires Brings(w, t, EndsOf(x.conns[0]), s, a, FIN_ACK, [])
    requires Brings(w, t + 1, EndsOf(x.conns[0]), s', a', ACK, [])
    requires s == x.conns[0].expectedSequence && a' == Wrap32(x.conns[0].sendSequence as int + 1)
    ensures ClosedByFin(w, x, t, b, c, d, e)
    ensures e.conns == x.conns[0 := e.conns[0]] && e.opening == None && e.now == t + 2 && e.calls == x.calls + 1
    ensures e.closing == []
    ensures e.conns[0].state == NoConnection && Shape(e) && e.hist[0].generation == x.hist[0].generation + 1
  {
    hide TcpAccepts, OptionsOk, DataLength, Window, React, TcpSized, Distinct;
    b := BeginClose(Ticked(x), 0, Wrap32(x.conns[0].expectedSequence as int + 1), true);
    FinReacts(w, Ticked(x), w.supply(t), t);
    c := b.Set(0, b.conns[0].(sendSequence := Wrap32(b.conns[0].sendSequence as int + 1)), b.hist[0]);
    d := Ticked(c);
    DyingIgnores(w, d, w.supply(t + 1), t + 1);
    e := EndClose(d, 0);
  }

  lemma FinReacts(w: World, v: View, p: seq<byte>, t: nat)
    requires w.station.Valid() && WellFormedTcp(p) && TcpAccepts(p) && Flags(p) == FIN_ACK && v.opening == None
    requires |v.conns| == |v.hist| > 0 && Matches(p, v.conns[0]) && v.conns[0].state == Established
    requires SequenceOf(p) == v.conns[0].expectedSequence
    ensures var b := BeginClose(v, 0, Wrap32(v.conns[0].expectedSequence as int + 1), true);
            React(w, v, p, t) == Closes(0, b, AckOfSlot(v.conns[0].(expectedSequence := b.conns[0].expectedSequence)))
  {
    hide TcpAccepts, DataLength;
    MatchesFirst(v.conns, p, 0);
    assert HasFlag(FIN_ACK, FIN) && FIN_ACK != SYN;
  }

  /** `TcpSendData` has cut a part for slot 0 at `v` and sent it as frame `f`. */
  ghost predicate SentPart(w: World, v: View, part: seq<byte>, f: seq<byte>, ident: u16, z: View)
  {
    Shape(v) && v.conns[0].state == Established
    && var c := Cut(v, 0, part, v.hist[0].generation);
       IsSegment(f, w.station, c.conns[0], ident, v.conns[0].sendSequence, ACK, part)
       && z == Transmit(c, 0, Transmission(|v.hist[0].written|, f), true, false)
  }

  /** The record slot 0 has in all of this, but for its numbers. */
  const RETURNED: TcpConnection := TcpConnection(3, 7, FIRST.port, FIRST.remotePort, 546, Established, FIRST.ip,
      FIRST.mac)

  /** Two segments go out under one number: a send of the byte 7 waits while its connection is closed and opened
      again; it finds the slot established and sends its part once more, into the new connection. Then the byte
      `b'` is sent there, under the same number. `f` and `g` are those frames, whatever identifiers they have.
      They carry different bytes if and only if the bytes are different. */
  lemma SendOutlivesItsConnection(f0: seq<byte>, f: seq<byte>, g: seq<byte>, b': byte, n0: u16, n1: u16, n2: u16)
    returns (u: View, x: View, z: View, b: View, c: View, d: View, e: View, u': View, x': View, z': View, y: View)
    requires IsSegment(f0, HERE, RETURNED.(sendSequence := 4), n0, 3, ACK, [7])
    requires IsSegment(f, HERE, RETURNED, n1, 3, ACK, [7])
    requires IsSegment(g, HERE, RETURNED.(sendSequence := 4), n2, 3, ACK, [b'])
    ensures Returning().Valid() && Packet(Returning(), Start(1), 0, u) && Packet(Returning(), u, 1, x)
    ensures SentPart(Returning(), x, [7], f0, n0, z) && ClosedByFin(Returning(), z, 2, b, c, d, e)
    ensures Packet(Returning(), e, 4, u') && Packet(Returning(), u', 5, x') && |x'.conns| == |x'.hist| == 1
    ensures x'.conns[0] == RETURNED && x'.hist[0].generation == 1
    ensures z' == Transmit(x', 0, Transmission(0, f), false, false)
    ensures SentPart(Returning(), z', [b'], g, n2, y) && |y.hist| == 1
    ensures y.hist[0].transmissions == [Transmission(0, f), Transmission(0, g)]
    ensures TcpSized(f) && TcpSized(g) && SequenceOf(f) == SequenceOf(g) && Payload(f) == [7] && Payload(g) == [b']
  {
    hide TcpAccepts, React, Packet, IsSegment, TcpSized, Payload, ClosedByFin, World.Valid, SentPart;
    u, x, z, b, c, d, e := FirstLife(f0, n0);
    u', x', z', y := SecondLife(e, f, g, b', n1, n2);
    SameNumber(f, g, b', n1, n2);
  }

  /** The connection, the send and the close. */
  lemma FirstLife(f0: seq<byte>, n0: u16) returns (u: View, x: View, z: View, b: View, c: View, d: View, e: View)
    requires IsSegment(f0, HERE, RETURNED.(sendSequence := 4), n0, 3, ACK, [7])
    ensures Packet(Returning(), Start(1), 0, u) && Packet(Returning(), u, 1, x)
    ensures SentPart(Returning(), x, [7], f0, n0, z) && ClosedByFin(Returning(), z, 2, b, c, d, e)
    ensures Closed(e)
  {
    var w := Returning();
    hide TcpAccepts, Summed, React, Packet, Window, DataLength, IsSegment, AnnouncedMss, OptionsOk, ClosedByFin;
    hide Cut, Transmit, SentPart, World.Valid;
    ReturningFrames();
    EmptyFirst(Start(1).conns, 0);
    u, x := Handshake(w, Start(1), 0, 0, FIRST, 6, 7, 0, 3);
    FullSize(0);
    assert x.conns[0] == RETURNED;
    z := FirstSend(x, f0, n0);
    b, c, d, e := FinCloses(w, z, 2, 7, 8, 3, 5);
  }

  lemma FirstSend(x: View, f0: seq<byte>, n0: u16) returns (z: View)
    requires Shape(x) && |x.conns| == 1 && x.conns[0] == RETURNED && x.hist[0].generation == 0
    requires x.hist[0].written == []
    requires IsSegment(f0, HERE, RETURNED.(sendSequence := 4), n0, 3, ACK, [7])
    ensures SentPart(Returning(), x, [7], f0, n0, z) && Shape(z) && |z.conns| == 1
    ensures z.hist[0].transmissions == x.hist[0].transmissions + [Transmission(0, f0)]
    ensures z.hist[0].alone == x.hist[0].alone
    ensures z.conns[0] == RETURNED.(sendSequence := 4) && z.hist[0].generation == 0
    ensures z.opening == x.opening && z.closing == x.closing && z.now == x.now
  {
    hide IsSegment, Summed;
    z := Transmit(Cut(x, 0, [7], 0), 0, Transmission(0, f0), true, false);
  }

  /** A table of one slot, closed once, after the fourth poll. */
  ghost predicate Closed(e: View)
  {
    Shape(e) && |e.conns| == 1 && e.conns[0].state == NoConnection && e.hist[0].generation == 1 && e.opening == None
        && e.now == 4
  }

  /** The connection again, the stray part, and the next send. */
  lemma SecondLife(e: View, f: seq<byte>, g: seq<byte>, b': byte, n1: u16, n2: u16)
    returns (u: View, x: View, z: View, y: View)
    requires Closed(e)
    requires IsSegment(f, HERE, RETURNED, n1, 3, ACK, [7])
    requires IsSegment(g, HERE, RETURNED.(sendSequence := 4), n2, 3, ACK, [b'])
    ensures Returning().Valid() && Packet(Returning(), e, 4, u) && Packet(Returning(), u, 5, x)
    ensures |x.conns| == |x.hist| == 1
    ensures x.conns[0] == RETURNED && x.hist[0].generation == 1
    ensures z == Transmit(x, 0, Transmission(0, f), false, false)
    ensures SentPart(Returning(), z, [b'], g, n2, y) && |y.hist| == 1
    ensures y.hist[0].transmissions == [Transmission(0, f), Transmission(0, g)]
  {
    hide TcpAccepts, Summed, React, Packet, Window, DataLength, IsSegment, AnnouncedMss, OptionsOk, World.Valid, Cut;
    hide Transmit;
    ReturningFrames();
    EmptyFirst(e.conns, 0);
    u, x := Handshake(Returning(), e, 0, 4, FIRST, 6, 7, 0, 3);
    FullSize(4);
    assert x.conns[0] == RETURNED;
    z, y := StrayAndNext(x, f, g, b', n2);
  }

  lemma StrayAndNext(x: View, f: seq<byte>, g: seq<byte>, b': byte, n2: u16) returns (z: View, y: View)
    requires Shape(x) && |x.conns| == 1 && x.conns[0] == RETURNED && x.hist[0].generation == 1
    requires x.hist[0].written == []
    requires x.hist[0].transmissions == [] && IsSegment(g, HERE, RETURNED.(sendSequence := 4), n2, 3, ACK, [b'])
    ensures z == Transmit(x, 0, Transmission(0, f), false, false)
    ensures SentPart(Returning(), z, [b'], g, n2, y) && |y.hist| == 1
    ensures y.hist[0].transmissions == [Transmission(0, f), Transmission(0, g)]
  {
    hide IsSegment, Summed;
    z := Transmit(x, 0, Transmission(0, f), false, false);
    y := Transmit(Cut(z, 0, [b'], 1), 0, Transmission(0, g), true, false);
  }

  /** Two segments with different bytes go out under one number, though nothing was closed and nothing else was
      sent: the memory of the caller has changed before its part was sent again. `x` is a connection on which
      nothing has been sent. */
  lemma PartSentAgain(x: View, f: seq<byte>, g: seq<byte>, b': byte, n0: u16, n1: u16) returns (z: View, y: View)
    requires Shape(x) && |x.conns| == 1 && x.conns[0] == RETURNED && x.hist[0].generation == 0
    requires x.hist[0].written == [] && x.hist[0].transmissions == []
    requires IsSegment(f, HERE, RETURNED.(sendSequence := 4), n0, 3, ACK, [7])
    requires IsSegment(g, HERE, RETURNED.(sendSequence := 4), n1, 3, ACK, [b'])
    ensures SentPart(Returning(), x, [7], f, n0, z) && y == Transmit(z, 0, Transmission(0, g), true, b' != 7)
    ensures |y.hist| == 1 && y.hist[0].transmissions == [Transmission(0, f), Transmission(0, g)]
    ensures TcpSized(f) && TcpSized(g) && SequenceOf(f) == SequenceOf(g) && Payload(f) == [7] && Payload(g) == [b']
    ensures y.hist[0].alone <==> x.hist[0].alone && b' == 7
  {
    SegmentPayload(f, HERE, RETURNED.(sendSequence := 4), n0, 3, ACK, [7]);
    SegmentPayload(g, HERE, RETURNED.(sendSequence := 4), n1, 3, ACK, [b']);
    hide TcpAccepts, Verifies, IsSegment, Summed;
    z := FirstSend(x, f, n0);
    y := Transmit(z, 0, Transmission(0, g), true, b' != 7);
  }

  lemma SameNumber(f: seq<byte>, g: seq<byte>, b': byte, n1: u16, n2: u16)
    requires IsSegment(f, HERE, RETURNED, n1, 3, ACK, [7])
    requires IsSegment(g, HERE, RETURNED.(sendSequence := 4), n2, 3, ACK, [b'])
    ensures TcpSized(f) && TcpSized(g) && SequenceOf(f) == SequenceOf(g) && Payload(f) == [7] && Payload(g) == [b']
  {
    SegmentPayload(f, HERE, RETURNED, n1, 3, ACK, [7]);
    SegmentPayload(g, HERE, RETURNED.(sendSequence := 4), n2, 3, ACK, [b']);
    hide TcpAccepts, Verifies;
  }

  /** Those SYNs announce no segment size, so the largest is used. */
  lemma FullSize(t: nat)
    requires t == 0 || t == 4
    ensures HasHeaders(Returning().supply(t)) && HeaderOptionsOk(Returning().supply(t))
    ensures AnnouncedMss(HERE, Returning().supply(t)) == 546
  {
    var p := Returning().supply(t);
    hide TcpAccepts, Summed;
    SummedFields(FIRST, 6, 0, 5, SYN, []);
    assert DataPosition(p) == 54;
    assert HeaderOptions(p) == [];
  }
}
