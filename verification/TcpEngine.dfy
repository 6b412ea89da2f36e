/**
 The TCP engine of `src/tcp.c` with the wait and dispatch loops of `src/ethernet.c` and
 `src/network.c`: one object holding the connection table and the shared buffer.

 The handlers are mutually recursive: a handled packet may close a connection or make a callback
 send, both wait, and a wait handles packets. Termination is by the callbacks left that may send,
 then by the number of slots not closing, then by the phase of the call, then by the waits left. A send on
 a connection without segment size need not end; it is followed for `patience` rounds.
 Each method is proved against the steps of `TcpSteps`.
 */
module TcpEngine {
  import opened Util
  import opened Addresses
  import opened Frame
  import opened TcpTypes
  import opened LinkLayer
  import opened TcpSpec
  import opened TcpSteps
  import opened Arp

  const INVALID_CONNECTION_ID: byte := 0xFF
  const MAX_PORT: u16 := 65535

  class Stack {
    const w: World
    const link: Link
    /** `connections` of `src/tcp.c`. */
    const connections: array<TcpConnection>
    const cache: ArpCache
    /** `connectPortRotaiting`. */
    var nextPort: u16
    /** Callback calls made so far. */
    var calls: nat
    ghost var hist: seq<History>
    ghost var closing: seq<nat>
    ghost var opening: Option<nat>
    ghost var marks: Marks

    /** `NetInit` with `TcpInit`: an empty table of TCP_MAX_CONNECTIONS slots. */
    constructor (w: World, size: nat, cacheSize: nat)
      requires w.Valid() && 0 < size <= 254 && 0 < cacheSize <= 255
      ensures Ready() && this.w == w && connections.Length == size
      ensures closing == [] && calls == 0 && link.sent == [] && link.now == 0
      ensures marks == NO_MARKS
      ensures forall i | 0 <= i < size :: connections[i].state == NoConnection && hist[i].trace == [] && hist[i].clean
      ensures nextPort == MIN_DYNAMIC_PORT && Initial(cache.rows[..])
      ensures fresh(link) && fresh(link.buffer) && fresh(connections) && fresh(cache.rows)
    {
      this.w := w;
      link := new Link(w.station, w.supply);
      cache := new ArpCache(cacheSize);
      nextPort := MIN_DYNAMIC_PORT;
      connections := new TcpConnection[size](
        i => TcpConnection(0, 0, 0, 0, 0, NoConnection, [0, 0, 0, 0], [0, 0, 0, 0, 0, 0]));
      calls := 0;
      hist := seq(size, i => NO_HISTORY);
      closing, opening, marks := [], None, NO_MARKS;
    }

    ghost function V(): View
      reads this, connections, link
    {
      View(connections[..], hist, closing, opening, link.now, calls, marks)
    }

    ghost predicate Wired()
    {
      link.Valid() && cache.Valid() && link.station == w.station && link.supply == w.supply && w.Valid()
    }

    ghost predicate Valid()
      reads this, connections, link
    {
      Wired() && Inv(w, V())
    }

    lemma Sizes()
      requires Valid()
      ensures |hist| == connections.Length > 0 && w.Valid()
    {
    }

    /** Between the calls of the main program: nothing is being opened. */
    ghost predicate Ready()
      reads this, connections, link
    {
      Valid() && opening == None && nextPort == DynamicPort(|marks.dials|)
    }

    /** Callback calls left that may send. */
    ghost function Fuel(): nat
      reads this
    {
      if calls < w.app.sending then w.app.sending - calls else 0
    }

    /** The buffer starts with the frame of poll `t`, the last one. */
    ghost predicate HoldsFrame(t: nat)
      reads link, link.buffer
    {
      w.supply(t) != [] && Heads(w.supply(t), link.buffer[..]) && link.now == t + 1
    }

    ghost predicate Holds(t: nat)
      reads link, link.buffer
    {
      HoldsFrame(t) && w.IsTcp(t)
    }

    /** The segment in the buffer reads as the frame it came from. */
    lemma BufferReads(t: nat)
      requires Wired() && Holds(t)
      ensures var f, q := w.supply(t), link.buffer[..];
              WellFormedTcp(f) && TcpSized(q) && HeaderOptionsOk(q) && HeaderOptions(q) == HeaderOptions(f)
              && (TcpAccepts(q) <==> TcpAccepts(f)) && Flags(q) == Flags(f) && SequenceOf(q) == SequenceOf(f)
              && AckOf(q) == AckOf(f) && DataLength(q) == DataLength(f) && TotalLength(q) == TotalLength(f)
              && TargetPort(q) == TargetPort(f) && SourcePort(q) == SourcePort(f)
              && SourceIp(q) == SourceIp(f) && SourceMac(q) == SourceMac(f) && link.buffer[47] == Flags(f)
    {
      var f, q := w.supply(t), link.buffer[..];
      assert w.station.WellFormed(f);
      HeadReads(f, q);
      HeadTcp(f, q);
    }

    // ----- the table -------------------------------------------------------------------------

    /** `TcpGetEmptyConenctionId`. */
    method TcpGetEmptyConnectionId() returns (id: byte)
      requires connections.Length <= 254
      ensures FirstEmpty(connections[..]) < connections.Length ==> id == FirstEmpty(connections[..])
      ensures FirstEmpty(connections[..]) == connections.Length ==> id == INVALID_CONNECTION_ID
    {
      var i := 0;
      while i < connections.Length
        invariant 0 <= i <= connections.Length
        invariant forall k | 0 <= k < i :: connections[k].state != NoConnection
      {
        if connections[i].state == NoConnection {
          return i;
        }
        i := i + 1;
      }
      id := INVALID_CONNECTION_ID;
    }

    /** The segment size of a new connection, from the option in the buffer. The buffer may have been used
        again; an option list in it that does not end is taken as empty. */
    method TcpGetMaxSegmentSize() returns (mss: u16)
      requires Wired()
      ensures 1 <= mss <= w.station.MaxSegmentSize()
      ensures var q := link.buffer[..]; HeaderOptionsOk(q) ==> mss == AnnouncedMss(w.station, q)
    {
      hide OptionsOk, Options;
      var position := 0;
      if HeaderOptionsOk(link.buffer[..]) {
        position := TcpGetOptionPosition(link.buffer, 2);
      }
      mss := w.station.MaxSegmentSize();
      if position != 0 && ShortAt(link.buffer[..], position + 2) != 0 {
        mss := ShortAt(link.buffer[..], position + 2);
      }
      if mss > w.station.MaxSegmentSize() {
        mss := w.station.MaxSegmentSize();
      }
    }

    /** The search of `TcpGetConnectionId`. */
    method TcpFindConnection() returns (id: byte)
      requires Wired() && connections.Length <= 254
      ensures FirstMatch(connections[..], link.buffer[..]) < connections.Length ==>
                id == FirstMatch(connections[..], link.buffer[..])
      ensures FirstMatch(connections[..], link.buffer[..]) == connections.Length ==> id == INVALID_CONNECTION_ID
    {
      var i := 0;
      while i < connections.Length
        invariant 0 <= i <= connections.Length
        invariant forall k | 0 <= k < i :: !Matches(link.buffer[..], connections[k])
      {
        if Matches(link.buffer[..], connections[i]) {
          return i;
        }
        i := i + 1;
      }
      id := INVALID_CONNECTION_ID;
    }

    /** The part of `TcpGetConnectionId` that fills a free slot from a SYN. */
    method TcpOpenSlot(id: byte, ghost t: nat)
      requires Valid() && Holds(t) && id == FirstEmpty(connections[..]) < connections.Length
      requires TcpAccepts(w.supply(t)) && Flags(w.supply(t)) == SYN
      requires FirstMatch(connections[..], w.supply(t)) == connections.Length
      modifies this`hist, connections
      ensures Valid() && Leads(old(V()), V())
      ensures w.station.WellFormed(w.supply(t)) && V() == Accept(w.station, old(V()), id, w.supply(t), t)
      ensures opening == Some(id as nat) ==> !hist[id].clean
    {
      hide TcpAccepts, Owned, SlotsOk, TableOk, SlotsLead, Caused, FirstMatch;
      ghost var f, v := w.supply(t), V();
      BufferReads(t);
      var mss := TcpGetMaxSegmentSize();
      AnnouncedSame(f, link.buffer[..]);
      connections[id] := TcpConnection(2, Wrap32(SequenceOf(link.buffer[..]) as int + 1), TargetPort(link.buffer[..]),
                                       SourcePort(link.buffer[..]), mss, New, SourceIp(link.buffer[..]),
                                       SourceMac(link.buffer[..]));
      hist := hist[id := AcceptedHistory(v, id, f, t)];
      assert V() == Accept(w.station, v, id, f, t);
      AcceptStep(w, v, f, t);
    }

    /** `TcpGetConnectionId`: the live slot a packet belongs to, or a slot opened for a SYN. */
    method TcpGetConnectionId(ghost t: nat) returns (id: byte)
      requires Valid() && Holds(t) && TcpAccepts(w.supply(t))
      modifies this`hist, connections
      ensures Valid() && Leads(old(V()), V()) && w.station.WellFormed(w.supply(t))
      ensures var f, v := w.supply(t), old(V());
              var i, e := FirstMatch(v.conns, f), FirstEmpty(v.conns);
              if i < |v.conns| then id == i && V() == v
              else if Flags(f) != SYN || e == |v.conns| then id == INVALID_CONNECTION_ID && V() == v
              else id == e && V() == Accept(w.station, v, e, f, t) && (opening == Some(e) ==> !hist[e].clean)
      ensures id != INVALID_CONNECTION_ID ==> id < connections.Length && Matches(w.supply(t), connections[id])
    {
      hide TcpAccepts, Owned, SlotsOk, TableOk, SlotsLead, Caused, FirstMatch, FirstEmpty;
      BufferReads(t);
      SelfLeads(V());
      FirstMatchSame(connections[..], w.supply(t), link.buffer[..]);
      id := TcpFindConnection();
      if id != INVALID_CONNECTION_ID {
        return;
      }
      if link.buffer[47] != SYN {
        return;
      }
      id := TcpGetEmptyConnectionId();
      if id == INVALID_CONNECTION_ID {
        return;
      }
      TcpOpenSlot(id, t);
    }

    // ----- handling a packet -----------------------------------------------------------------

    /** `TcpSendAck`: move the expected number if this is the expected segment, acknowledge either way. */
    method TcpSendAck(id: byte, sequence: u32, length: u16) returns (expected: bool)
      requires Wired() && id < connections.Length
      modifies connections, link`ipIdentifier, link`sent, link.buffer
      ensures expected <==> sequence == old(connections[id]).expectedSequence
      ensures connections[..] == old(connections[..])[id := if expected then
                old(connections[id]).(expectedSequence := Wrap32(sequence as int + length)) else old(connections[id])]
      ensures Replied(w.station, old(link.ipIdentifier), old(link.sent), link.sent, AckOfSlot(connections[id]))
      ensures link.buffer[54..] == old(link.buffer[54..])
    {
      expected := sequence == connections[id].expectedSequence;
      if expected {
        var next := Wrap32(connections[id].expectedSequence as int + length);
        connections[id] := connections[id].(expectedSequence := next);
      }
      ghost var frame := link.TcpSendPacket(connections[id], connections[id].sendSequence, ACK, 0);
    }

    /** What is known after a packet was handled: everything, if nothing waited; otherwise how it
        began, and that a connection it closed is closed. */
    ghost predicate Outcome(r: Reaction, ident: u16, before: seq<seq<byte>>, buffer: seq<byte>)
      reads this, connections, link, link.buffer
    {
      match r
      case Done(u, reply) =>
        V() == u && Replied(w.station, ident, before, link.sent, reply)
        && (reply == Silent ==> link.buffer[..] == buffer)
      case Calls(u, reply) => Leads(u, V()) && Began(w.station, ident, before, link.sent, reply)
      case Closes(i, u, reply) =>
        i < connections.Length && i < |hist| && i < |u.hist|
        && connections[i].state == NoConnection && hist[i] == u.hist[i].(generation := u.hist[i].generation + 1)
        && Began(w.station, ident, before, link.sent, reply)
    }

    /** The SYN branch of `TcpHandleIncomingPacket`. */
    method TcpHandleSyn(id: byte, ghost t: nat)
      requires Valid() && Holds(t) && id < connections.Length && Awaiting(connections[id])
      requires opening == Some(id as nat) ==> !hist[id].clean
      modifies this`calls, connections, link`ipIdentifier, link`sent, link.buffer
      ensures Valid() && Leads(old(V()), V()) && old(link.sent) <= link.sent
      ensures Outcome(ReactSyn(w, old(V()), id, w.supply(t)), old(link.ipIdentifier), old(link.sent),
                old(link.buffer[..]))
    {
      hide IsSegment, IsUnreachable, TcpAccepts, Owned, SlotsOk, TableOk, SlotsLead, Caused;
      ghost var v := V();
      if connections[id].state == New {
        var verdict := w.app.onNew(calls);
        calls := calls + 1;
        CallStep(w, v);
        ghost var u := V();
        assert u == Called(v);
        if verdict != Ok {
          if verdict == Reject {
            TcpRefuse(id, t);
          }
          connections[id] := connections[id].(state := NoConnection);
          assert V() == WithState(u, id, NoConnection);
          AwaitingStep(w, u, id, NoConnection);
          LeadsTransitive(v, u, V());
          return;
        }
        TcpAnswerSyn(id);
        LeadsTransitive(v, u, V());
        return;
      }
      TcpAnswerSyn(id);
    }

    /** The slot waits for the handshake to be completed, and the SYN is answered. */
    method TcpAnswerSyn(id: byte)
      requires Valid() && id < connections.Length && Awaiting(connections[id])
      requires opening == Some(id as nat) ==> !hist[id].clean
      modifies connections, link`ipIdentifier, link`sent, link.buffer
      ensures Valid() && Leads(old(V()), V()) && V() == WithState(old(V()), id, SynReceived)
      ensures old(link.sent) <= link.sent
      ensures Replied(w.station, old(link.ipIdentifier), old(link.sent), link.sent,
                      Answer(connections[id], connections[id].sendSequence, SYN + ACK))
    {
      hide Owned, SlotsOk, TableOk, SlotsLead, Caused;
      ghost var v := V();
      connections[id] := connections[id].(state := SynReceived);
      assert V() == WithState(v, id, SynReceived);
      AwaitingStep(w, v, id, SynReceived);
      ghost var frame := link.TcpSendPacket(connections[id], connections[id].sendSequence, SYN + ACK, 0);
      assert HasFlag(SYN + ACK, SYN);
    }

    /** The answer to a rejected SYN. */
    method TcpRefuse(id: byte, ghost t: nat)
      requires Wired() && Holds(t) && id < connections.Length
      modifies link`ipIdentifier, link`sent, link.buffer
      ensures old(link.sent) <= link.sent
      ensures Replied(w.station, old(link.ipIdentifier), old(link.sent), link.sent, Unreachable(connections[id],
                Quoted(w.supply(t))))
    {
      ghost var f, q := w.supply(t), link.buffer[..];
      BufferReads(t);
      assert Quoted(f) == q[14..14 + Min(TotalLength(q), 28)] by {
        assert q[..|f|][14..14 + Min(TotalLength(q), 28)] == q[14..14 + Min(TotalLength(q), 28)];
      }
      hide TcpAccepts, TcpSized, HeaderOptionsOk;
      ghost var frame := link.IcmpSendUnreachable(connections[id].mac, connections[id].ip,
          TotalLength(link.buffer[..]));
      ghost var b := link.buffer[..];
      EthHeaderKept(b, frame, connections[id].mac, w.station.mac, ETH_TYPE_IP);
      IpHeaderKept(b, frame, |frame| - 14, old(link.ipIdentifier), PROTO_ICMP, w.station.ip, connections[id].ip);
    }

    /** Where the handler of slot `id` has its segment from. */
    ghost predicate Sourced(id: byte, src: Source)
      requires id < connections.Length
      reads this, connections, link, link.buffer
    {
      match src
      case Poll(t) =>
        Holds(t) && TcpAccepts(w.supply(t)) && Matches(w.supply(t), connections[id]) && id < |hist| && hist[id].syn <= t
      case Stale => marks.stirred
    }

    /** A segment from the buffer fits if it carries the expected number. */
    lemma SourceFits(id: byte, src: Source)
      requires Valid() && id < connections.Length && Sourced(id, src)
      requires var q := link.buffer[..]; DataLength(q) > 0 && SequenceOf(q) == connections[id].expectedSequence
      ensures var q := link.buffer[..]; Fits(w, V(), id, src, Window(q, DataLength(q)))
    {
      hide Inv;
      if src.Poll? {
        BufferReads(src.t);
        WindowOfHead(w.supply(src.t), link.buffer[..]);
      }
    }

    /** The data branch of `TcpHandleIncomingPacket`. */
    method TcpHandlePayload(id: byte, ghost src: Source)
      requires Valid() && id < connections.Length && connections[id].state == Established && Sourced(id, src)
      modifies this`calls, this`hist, this`closing, this`marks, connections, link, link.buffer
      ensures Valid() && Leads(old(V()), V()) && old(link.sent) <= link.sent
      ensures Outcome(ReactPayload(w, old(V()), id, old(link.buffer[..]), src), old(link.ipIdentifier), old(link.sent),
                old(link.buffer[..]))
      decreases Fuel(), connections.Length - |closing|, 6
    {
      hide IsSegment, TcpAccepts, Owned, SlotsOk, TableOk, SlotsLead, Caused, Replied, Began, Fits, Sourced, Inert;
      hide Window, Wrap32, Heads;
      ghost var v, q := V(), link.buffer[..];
      SelfLeads(v);
      var length := DataLength(link.buffer[..]);
      if length == 0 {
        SilentReply(w.station, link.ipIdentifier, link.sent);
        return;
      }
      if SequenceOf(q) == connections[id].expectedSequence { SourceFits(id, src); }
      ghost var ident, before := link.ipIdentifier, link.sent;
      var expected := TcpSendAck(id, SequenceOf(link.buffer[..]), length);
      ReplyGrows(w.station, ident, before, link.sent, AckOfSlot(connections[id]));
      if !expected {
        assert V() == v;
        return;
      }
      ghost var sent, reply := link.sent, AckOfSlot(connections[id]);
      AnsweredBegins(w.station, ident, before, sent, reply);
      TcpDeliver(id, src, v, Window(q, length));
      BeganGrows(w.station, ident, before, sent, link.sent, reply);
    }

    /** The data is passed to the application. `v` is the table before the expected number moved. */
    method TcpDeliver(id: byte, ghost src: Source, ghost v: View, ghost data: seq<byte>)
      requires Wired() && Inv(w, v) && id < connections.Length && |v.conns| == connections.Length
      requires v.conns[id].state == Established
      requires V() == v.Set(id, v.conns[id].(expectedSequence := Wrap32(v.conns[id].expectedSequence as int + |data|)),
                v.hist[id])
      requires Fits(w, v, id, src, data)
      modifies this`calls, this`hist, this`closing, this`marks, connections, link, link.buffer
      ensures Valid() && Leads(v, V()) && old(link.sent) <= link.sent
      ensures var u := Deliver(v, id, src, data);
              Leads(u, V()) && (Inert(w.app.onData(old(calls)), u.conns) ==> V() == u && unchanged(link, link.buffer))
      decreases Fuel(), connections.Length - |closing|, 5
    {
      hide Owned, SlotsOk, TableOk, SlotsLead, Caused, Fits, Inert;
      DeliverStep(w, v, id, src, data);
      hist := Deliver(v, id, src, data).hist;
      calls := calls + 1;
      ghost var u := V();
      assert u == Deliver(v, id, src, data);
      RunCallback(w.app.onData(calls - 1), calls - 1);
      LeadsTransitive(v, u, V());
    }

    /** The FIN branch and what follows it. */
    method TcpHandleData(id: byte, ghost src: Source)
      requires Valid() && id < connections.Length && Sourced(id, src)
      requires src.Stale? ==> connections[id].state != Dyeing
      modifies this`calls, this`hist, this`closing, this`marks, connections, link, link.buffer
      ensures Valid() && Leads(old(V()), V()) && old(link.sent) <= link.sent
      ensures Outcome(ReactData(w, old(V()), id, old(link.buffer[..]), src), old(link.ipIdentifier), old(link.sent),
                old(link.buffer[..]))
      decreases Fuel(), connections.Length - |closing|, 7
    {
      hide IsSegment, TcpAccepts, Owned, SlotsOk, TableOk, SlotsLead, Caused, Replied, Began, Sourced, HungBefore;
      var flags := link.buffer[47];
      if HasFlag(flags, FIN) && (connections[id].state == Established || connections[id].state == Dyeing) {
        TcpHandleFin(id, src);
        return;
      }
      if connections[id].state != Established {
        SelfLeads(V());
        SilentReply(w.station, link.ipIdentifier, link.sent);
        return;
      }
      TcpHandlePayload(id, src);
    }

    /** A FIN for a connection that is open or closing; nothing behind it is handled. */
    method TcpHandleFin(id: byte, ghost src: Source)
      requires Valid() && id < connections.Length && Sourced(id, src) && HasFlag(Flags(link.buffer[..]), FIN)
      requires connections[id].state == Established || connections[id].state == Dyeing
      modifies this`calls, this`hist, this`closing, this`marks, connections, link, link.buffer
      ensures Valid() && Leads(old(V()), V()) && old(link.sent) <= link.sent
      ensures Outcome(ReactData(w, old(V()), id, old(link.buffer[..]), src), old(link.ipIdentifier), old(link.sent),
                old(link.buffer[..]))
      decreases Fuel(), connections.Length - |closing|, 4
    {
      hide IsSegment, TcpAccepts, Owned, SlotsOk, TableOk, SlotsLead, Caused, Replied, Began, Sourced, HungBefore;
      ghost var v := V();
      SelfLeads(v);
      FinHangs(id, src);
      ghost var ident, before := link.ipIdentifier, link.sent;
      var expected := TcpSendAck(id, SequenceOf(link.buffer[..]), 1);
      ghost var sent, reply := link.sent, AckOfSlot(connections[id]);
      ReplyGrows(w.station, ident, before, sent, reply);
      if !expected {
        assert V() == v;
        return;
      }
      if connections[id].state == Established {
        AnsweredBegins(w.station, ident, before, sent, reply);
        TcpShut(id, 1000, v, true);
        BeganGrows(w.station, ident, before, sent, link.sent, reply);
      } else {
        DyeingStep(w, v, id, connections[id].expectedSequence, connections[id].sendSequence);
        assert V() == v.Set(id, connections[id], v.hist[id]);
      }
    }

    /** A FIN in the buffer came from outside, or from a buffer that a wait inside OnConnect used again. */
    lemma FinHangs(id: byte, src: Source)
      requires Valid() && id < connections.Length && Sourced(id, src) && HasFlag(Flags(link.buffer[..]), FIN)
      ensures HungBefore(w, connections.Length, link.now, calls + 1)
    {
      hide Inv;
      if src.Poll? {
        BufferReads(src.t);
        assert FinAt(w, src.t);
      } else {
        assert Caused(w, connections.Length, link.now, calls, marks) by { assert Inv(w, V()); InvCaused(w, V()); }
      }
    }

    /** A connection leaves ESTABLISHED: it is DYEING from here on, the application is told, and the
        close waits for the peer. `v` is the table before. */
    method TcpShut(id: byte, timeout: Timeout, ghost v: View, ghost inside: bool)
      requires Wired() && Inv(w, v) && id < connections.Length && |v.conns| == connections.Length
      requires v.conns[id].state == Established
      requires V() == v.Set(id, v.conns[id].(expectedSequence := connections[id].expectedSequence), v.hist[id])
      requires inside ==> HungBefore(w, |v.conns|, v.now, v.calls + 1)
      modifies this`calls, this`hist, this`closing, this`marks, connections, link, link.buffer
      ensures Valid() && (inside ==> Leads(v, V())) && (v.opening == None ==> Aside(v, V(), id as nat))
      ensures old(link.sent) <= link.sent && connections[id].state == NoConnection && opening == v.opening
      ensures marks.dials == v.marks.dials && marks.loose == v.marks.loose
      ensures hist[id] == v.hist[id].(trace := v.hist[id].trace + [Disconnected],
                generation := v.hist[id].generation + 1)
      ensures v.calls <= calls && v.closing == closing && |v.conns| == |V().conns| && old(link.now) < link.now
      decreases Fuel(), connections.Length - |closing|, 0
    {
      hide Owned, SlotsOk, TableOk, SlotsLead, Caused, HungBefore, Began, Aside;
      ghost var e := connections[id].expectedSequence;
      TcpMarkDyeing(id, v, inside);
      ghost var b := V();
      RunCallback(w.app.onDisconnect(calls - 1), calls - 1);
      ghost var x := V();
      ghost var mid := TcpClose(id, timeout);
      LeadsTransitive(b, x, mid);
      CloseLeads(w, v, id, e, inside, mid);
    }

    /** The close of a connection begins. */
    method TcpMarkDyeing(id: byte, ghost v: View, ghost inside: bool)
      requires Wired() && Inv(w, v) && id < connections.Length && |v.conns| == connections.Length
      requires v.conns[id].state == Established
      requires V() == v.Set(id, v.conns[id].(expectedSequence := connections[id].expectedSequence), v.hist[id])
      requires inside ==> HungBefore(w, |v.conns|, v.now, v.calls + 1)
      modifies this`calls, this`hist, this`closing, this`marks, connections
      ensures Valid() && V() == BeginClose(v, id, old(connections[id]).expectedSequence, inside)
      ensures |closing| == |old(closing)| + 1 <= connections.Length && calls == old(calls) + 1
      ensures closing[|closing| - 1] == id
    {
      hide Owned, SlotsOk, TableOk, SlotsLead, Caused, HungBefore;
      BeginCloseStep(w, v, id, connections[id].expectedSequence, inside);
      connections[id] := connections[id].(state := Dyeing);
      hist := hist[id := hist[id].(trace := hist[id].trace + [Disconnected])];
      closing := closing + [id as nat];
      marks := marks.(hung := marks.hung || inside);
      calls := calls + 1;
      assert V() == BeginClose(v, id, old(connections[id]).expectedSequence, inside);
    }

    /** Callback call number `n` runs: it closes connections and sends on those that are established, one
        after the other. */
    method RunCallback(script: seq<Action>, ghost n: nat)
      requires Valid() && n < calls
      requires script == w.app.onConnect(n) || script == w.app.onData(n) || script == w.app.onDisconnect(n)
      modifies this`calls, this`hist, this`closing, this`marks, connections, link, link.buffer
      ensures Valid() && Leads(old(V()), V()) && old(link.sent) <= link.sent
      ensures if Inert(script, old(connections[..])) then unchanged(this, connections, link, link.buffer)
              else old(link.now) < link.now
      decreases Fuel(), connections.Length - |closing|, if Sends(script) then 22 else 3
    {
      hide Owned, SlotsOk, TableOk, SlotsLead, Caused, HungBefore;
      SelfLeads(V());
      var i := 0;
      while i < |script|
        invariant 0 <= i <= |script|
        invariant Valid() && Leads(old(V()), V()) && old(link.sent) <= link.sent
        invariant if forall k | 0 <= k < i :: Idle(script[k], old(connections[..]))
                  then unchanged(this, connections, link, link.buffer) else old(link.now) < link.now
      {
        ghost var v := V();
        RunAction(script[i], script, n);
        LeadsTransitive(old(V()), v, V());
        i := i + 1;
      }
    }

    /** One action of a callback. It sends only on a connection that is established. */
    method RunAction(a: Action, ghost script: seq<Action>, ghost n: nat)
      requires Valid() && n < calls && a in script
      requires script == w.app.onConnect(n) || script == w.app.onData(n) || script == w.app.onDisconnect(n)
      modifies this`calls, this`hist, this`closing, this`marks, connections, link, link.buffer
      ensures Valid() && Leads(old(V()), V()) && old(link.sent) <= link.sent
      ensures if Idle(a, old(connections[..])) then unchanged(this, connections, link, link.buffer)
              else old(link.now) < link.now
      decreases Fuel(), connections.Length - |closing|, if Sends(script) then 21 else 2
    {
      hide Owned, SlotsOk, TableOk, SlotsLead, Caused, HungBefore, LooseBefore, Aside, CutFrom, Sent, Undivided, Lent;
      ghost var v := V();
      SelfLeads(v);
      match a
      case Hangup(id, timeout) =>
        HangupHangs(a, script, n);
        var ok := TcpDisconnect(id, timeout, true);
      case Send(id, timeout, data) =>
        assert Sends(script);
        if id as int < connections.Length && connections[id].state == Established {
          if opening == Some(id as nat) && hist[id].clean { OpeningIsNew(w, v, id); }
          LooseScript(a, script, n);
          LentInside(v, data);
          var ok, t, parts := TcpSendData(id, timeout, data, true);
        }
    }

    /** A callback that closes a connection is a cause for closed connections. */
    lemma HangupHangs(a: Action, script: seq<Action>, n: nat)
      requires n < calls && a in script && a.Hangup?
      requires script == w.app.onConnect(n) || script == w.app.onData(n) || script == w.app.onDisconnect(n)
      ensures HungBefore(w, connections.Length, link.now, calls + 1)
    {
      assert HangsUp(script);
      assert HangsUpAt(w, n);
    }

    /** A callback that sends from memory that changes is a cause for parts sent again with other bytes. */
    lemma LooseScript(a: Action, script: seq<Action>, n: nat)
      requires n < calls && a in script && a.Send?
      requires script == w.app.onConnect(n) || script == w.app.onData(n) || script == w.app.onDisconnect(n)
      ensures a.data.Steady() || LooseBefore(w, calls)
    {
      if !a.data.Steady() {
        assert Loose(script);
        assert LooseAt(w, n);
      }
    }

    /** `TcpDisconnect`, called `inside` a callback or by the main program. */
    method TcpDisconnect(id: byte, timeout: Timeout, ghost inside: bool) returns (ok: bool)
      requires Valid() && (inside ==> HungBefore(w, connections.Length, link.now, calls + 1))
      modifies this`calls, this`hist, this`closing, this`marks, connections, link, link.buffer
      ensures Valid() && (inside ==> Leads(old(V()), V())) && old(link.sent) <= link.sent && opening == old(opening)
      ensures old(opening) == None ==> Aside(old(V()), V(), id as nat)
      ensures ok <==> id < connections.Length && old(connections[..])[id].state == Established
      ensures !ok ==> unchanged(this, connections, link, link.buffer)
      ensures ok ==> old(link.now) < link.now && connections[id].state == NoConnection
                     && hist[id] == old(hist[id]).(trace := old(hist[id]).trace + [Disconnected],
                         generation := old(hist[id]).generation + 1)
      ensures marks.dials == old(marks).dials && marks.loose == old(marks).loose
      decreases Fuel(), connections.Length - |closing|, 1
    {
      hide Owned, SlotsOk, TableOk, SlotsLead, Caused, HungBefore, Aside;
      SelfLeads(V());
      SelfAside(V(), id as nat);
      if id >= connections.Length {
        return false;
      }
      if connections[id].state != Established {
        return false;
      }
      ghost var v := V();
      assert v.Set(id, v.conns[id], v.hist[id]) == v;
      TcpShut(id, timeout, v, inside);
      ok := true;
    }

    // ----- waiting ---------------------------------------------------------------------------

    /** `TcpSendPacket` without data. */
    method TcpSendBare(id: byte, sequence: u32, flags: byte)
      requires Wired() && id < connections.Length
      modifies link`ipIdentifier, link`sent, link.buffer
      ensures old(link.sent) <= link.sent
      ensures Replied(w.station, old(link.ipIdentifier), old(link.sent), link.sent, Answer(connections[id], sequence,
                flags))
    {
      ghost var frame := link.TcpSendPacket(connections[id], sequence, flags, 0);
    }

    /** The loop of `TcpClose`: send FIN until it is acknowledged or the time is up; `waits` counts its own
        waits. */
    method TcpSendFin(id: byte, sequence: u32, timeout: Timeout) returns (ghost waits: nat)
      requires Valid() && id < connections.Length
      modifies this`calls, this`hist, this`closing, this`marks, connections, link, link.buffer
      ensures Valid() && Leads(old(V()), V()) && 1 <= waits <= timeout as int + 1 && old(link.sent) <= link.sent
      ensures old(link.now) < link.now
      ensures Began(w.station, old(link.ipIdentifier), old(link.sent), link.sent, Answer(old(connections[id]), sequence,
                FIN + ACK))
      decreases Fuel(), connections.Length - |closing|, 15
    {
      hide Replied, Began, Owned, SlotsOk, TableOk, SlotsLead, Caused, Awaited;
      ghost var v, ident, before := V(), link.ipIdentifier, link.sent;
      ghost var first := Answer(connections[id], sequence, FIN + ACK);
      SelfLeads(v);
      var waiting := 0;
      waits := 0;
      while true
        invariant 0 <= waiting <= timeout && waits == waiting
        invariant Valid() && Leads(v, V()) && before <= link.sent
        invariant if waiting == 0 then unchanged(this, connections, link)
                  else Began(w.station, ident, before, link.sent, first) && old(link.now) < link.now
        decreases timeout - waiting
      {
        ghost var a, s := V(), link.sent;
        if waiting % 300 == 0 {
          TcpSendBare(id, sequence, FIN + ACK);
          if waiting == 0 { AnsweredBegins(w.station, ident, before, link.sent, first); }
        }
        ghost var s' := link.sent;
        if waiting > 0 { BeganGrows(w.station, ident, before, s, s', first); }
        var ok, t, m := TcpWaitPacket(id, Wrap32(sequence as int + 1), ACK);
        waits := waits + 1;
        BeganGrows(w.station, ident, before, s', link.sent, first);
        LeadsTransitive(v, a, V());
        if ok {
          break;
        }
        waiting := waiting + 1;
        if waiting > timeout {
          break;
        }
      }
    }

    /** `TcpClose`: send FIN and wait for its acknowledgement, then give the slot up. `mid` is the table
        just before. */
    method TcpClose(id: byte, timeout: Timeout) returns (ghost mid: View)
      requires Valid() && closing != [] && closing[|closing| - 1] == id
      modifies this`calls, this`hist, this`closing, this`marks, connections, link, link.buffer
      ensures Valid() && old(link.sent) <= link.sent && Leads(old(V()), mid) && mid.closing != [] && id < |mid.conns|
      ensures V() == EndClose(mid, id) && old(link.now) < link.now
      ensures var c := old(connections[..])[id];
              Began(w.station, old(link.ipIdentifier), old(link.sent), link.sent,
                    Answer(c.(sendSequence := Wrap32(c.sendSequence as int + 1)), c.sendSequence, FIN + ACK))
      decreases Fuel(), connections.Length - |closing|, 16
    {
      hide Began, Owned, SlotsOk, TableOk, SlotsLead, Caused;
      ghost var v := V();
      assert Owned(v);
      InnermostClose(v);
      var sendSequence := connections[id].sendSequence;
      connections[id] := connections[id].(sendSequence := Wrap32(connections[id].sendSequence as int + 1));
      ghost var u := V();
      assert u == v.Set(id, connections[id], v.hist[id]);
      DyeingStep(w, v, id, connections[id].expectedSequence, connections[id].sendSequence);
      ghost var waits := TcpSendFin(id, sendSequence, timeout);
      mid := V();
      LeadsTransitive(v, u, mid);
      EndCloseStep(w, mid, id);
      connections[id] := connections[id].(state := NoConnection);
      hist := hist[id := hist[id].(generation := hist[id].generation + 1)];
      closing := closing[..|closing| - 1];
      assert V() == EndClose(mid, id);
    }

    /** Poll `t` brought the packet that `TcpWaitPacket` was waiting for on connection `c`. */
    ghost predicate Awaited(c: TcpConnection, t: nat, expectedAck: u32, expectedFlag: byte)
    {
      w.IsTcp(t) && TcpAccepts(w.supply(t)) && Matches(w.supply(t), c) && HasAllFlags(Flags(w.supply(t)), expectedFlag)
      && AckOf(w.supply(t)) == expectedAck
      && (HasFlag(expectedFlag, SYN) || SequenceOf(w.supply(t)) == c.expectedSequence)
    }

    /** The table once the SYN-ACK of poll `t` gave slot `id` the peer's number. */
    ghost function Greeting(v: View, id: byte, t: nat): View
      requires id < |v.conns| && id < |v.hist|
    {
      v.Set(id, v.conns[id].(expectedSequence := w.SequenceAt(t)), v.hist[id])
    }

    /** Whatever else a SYN-ACK carries, nothing comes of it while the slot is new. */
    lemma NothingBehindSynAck(u: View, id: byte, t: nat)
      requires Inv(w, u) && u.opening == Some(id as nat) && u.hist[id].clean && id < |u.conns|
      requires w.IsTcp(t) && WellFormedTcp(w.supply(t)) && FirstMatch(u.conns, w.supply(t)) == id
      requires HasAllFlags(Flags(w.supply(t)), SYN + ACK)
      ensures React(w, u, w.supply(t), t) == Done(u, Silent)
    {
      hide Inv, FirstMatch, TcpAccepts, WellFormedTcp, DataLength;
      TablesFit(w, u);
      OpeningIsNew(w, u, id);
      assert HasFlag(SYN + ACK, ACK) && HasFlag(SYN + ACK, 0x10);
      assert HasFlag(Flags(w.supply(t)), 0x10);
      assert Flags(w.supply(t)) != SYN;
    }

    /** The number of an awaited SYN-ACK is noted. */
    method TcpNoteNumber(id: byte, ghost t: nat)
      requires Valid() && Holds(t) && id < connections.Length && opening == Some(id as nat)
      modifies connections
      ensures Valid() && V() == Greeting(old(V()), id, t) && Leads(V(), V())
    {
      hide TcpAccepts, Owned, SlotsOk, TableOk, SlotsLead, Caused, WellFormedTcp;
      ghost var v := V();
      BufferReads(t);
      if hist[id].clean { OpeningIsNew(w, v, id); }
      connections[id] := connections[id].(expectedSequence := SequenceOf(link.buffer[..]));
      OpeningStep(w, v, id, connections[id]);
      assert V() == Greeting(v, id, t) == v.Set(id, connections[id], v.hist[id]);
      SelfLeads(V());
    }

    /** What an awaited packet carries besides is handled; behind a SYN-ACK it is nothing. */
    method TcpTakeRest(id: byte, expectedAck: u32, ghost synAck: bool, ghost t: nat)
      requires Valid() && Holds(t) && id < connections.Length
      requires synAck ==> opening == Some(id as nat) && HasAllFlags(Flags(w.supply(t)), SYN + ACK)
      modifies this`calls, this`hist, this`closing, this`marks, connections, link, link.buffer
      ensures Valid() && old(link.sent) <= link.sent && Leads(old(V()), V())
      ensures synAck && old(hist[id]).clean && FirstMatch(old(connections[..]), w.supply(t)) == id ==>
                Holds(t) && V() == old(V())
      decreases Fuel(), connections.Length - |closing|, 12
    {
      hide TcpAccepts, Owned, SlotsOk, TableOk, SlotsLead, Caused, HasFlag, HasAllFlags, WellFormedTcp, React;
      hide FirstMatch;
      hide DataLength;
      ghost var u := V();
      SelfLeads(u);
      BufferReads(t);
      if (DataLength(link.buffer[..]) != 0 || HasFlag(link.buffer[47], FIN))
          && connections[id].sendSequence == expectedAck {
        if synAck && hist[id].clean && FirstMatch(u.conns, w.supply(t)) == id { NothingBehindSynAck(u, id, t); }
        TcpHandleIncomingPacket(t);
      }
    }

    /** The awaited packet came: note the peer's initial number, handle what else it carries. */
    method TcpTakeAwaited(id: byte, expectedAck: u32, expectedFlag: byte, ghost t: nat)
      requires Valid() && Holds(t) && id < connections.Length && Awaited(connections[id], t, expectedAck, expectedFlag)
      requires expectedFlag == ACK || (expectedFlag == SYN + ACK && opening == Some(id as nat))
      modifies this`calls, this`hist, this`closing, this`marks, connections, link, link.buffer
      ensures Valid() && old(link.sent) <= link.sent
      ensures expectedFlag == ACK ==> Leads(old(V()), V())
      ensures expectedFlag != ACK ==>
                var u := Greeting(old(V()), id, t);
                Leads(u, V()) && (old(hist[id]).clean && FirstMatch(u.conns, w.supply(t)) == id ==>
                    Holds(t) && V() == u)
      decreases Fuel(), connections.Length - |closing|, 13
    {
      assert HasFlag(expectedFlag, SYN) <==> expectedFlag != ACK;
      hide TcpAccepts, Owned, SlotsOk, TableOk, SlotsLead, Caused, HasFlag, HasAllFlags, WellFormedTcp, FirstMatch;
      if HasFlag(expectedFlag, SYN) {
        TcpNoteNumber(id, t);
      }
      TcpTakeRest(id, expectedAck, expectedFlag != ACK, t);
    }

    /** `TcpWaitPacket`: one bounded wait. `mid` is the table when the awaited packet of poll `t` came. */
    method TcpWaitPacket(id: byte, expectedAck: u32, expectedFlag: byte)
      returns (ok: bool, ghost t: nat, ghost mid: View)
      requires Valid() && id < connections.Length
      requires expectedFlag == ACK || (expectedFlag == SYN + ACK && opening == Some(id as nat))
      modifies this`calls, this`hist, this`closing, this`marks, connections, link, link.buffer
      ensures Valid() && old(link.sent) <= link.sent && old(link.now) < link.now
      ensures ok ==> old(link.now) <= t < link.now
      ensures expectedFlag == ACK ==> Leads(old(V()), V())
      ensures !ok ==> Leads(old(V()), V())
      ensures ok ==> Leads(old(V()), mid) && id < |mid.conns| && mid.now == t + 1
                     && Awaited(mid.conns[id], t, expectedAck, expectedFlag)
      ensures ok && expectedFlag == ACK ==> Leads(mid, V())
      ensures ok && expectedFlag != ACK ==>
                var u := Greeting(mid, id, t);
                Leads(u, V()) && (mid.hist[id].clean && FirstMatch(u.conns, w.supply(t)) == id ==> Holds(t) && V() == u)
      decreases Fuel(), connections.Length - |closing|, 14
    {
      hide TcpAccepts, Owned, SlotsOk, TableOk, SlotsLead, Caused, HasAllFlags, HasFlag, FirstMatch;
      var length;
      ghost var polls;
      length, t, polls := EthWaitPacket(ETH_TYPE_IP, 0);
      mid := V();
      ok := false;
      if length != 0 {
        HeadReads(w.supply(t), link.buffer[..]);
        if w.station.IsTcp(link.buffer[..]) {
          BufferReads(t);
          var correct := link.TcpVerifyChecksum();
          if !correct {
            return;
          }
          if Matches(link.buffer[..], connections[id]) && HasAllFlags(link.buffer[47], expectedFlag)
             && (connections[id].expectedSequence == SequenceOf(link.buffer[..]) || HasFlag(expectedFlag, SYN))
             && expectedAck == AckOf(link.buffer[..])
          {
            TcpTakeAwaited(id, expectedAck, expectedFlag, t);
            ok := true;
          } else {
            TcpHandleIncomingPacket(t);
          }
        } else {
          NetHandleIncomingPacket(length, t);
        }
        if !ok || expectedFlag == ACK {
          LeadsTransitive(old(V()), mid, V());
        }
      }
    }

    /** One poll. */
    method Receive() returns (length: u16)
      requires Valid()
      modifies link`now, link.buffer
      ensures Valid() && V() == Ticked(old(V())) && Leads(old(V()), V())
      ensures length == |w.supply(old(link.now))| && (length != 0 ==> HoldsFrame(old(link.now)))
    {
      hide Inv, Leads;
      TickStep(w, V());
      ghost var t := link.now;
      length := link.PacketReceive();
      assert link.buffer[..length] == link.buffer[..][..length];
    }

    /** `EthWaitPacket`: poll ten times per tick; other packets are handled on the way. `polls` counts its
        own polls. */
    method EthWaitPacket(kind: u16, timeout: Timeout) returns (length: u16, ghost t: nat, ghost polls: nat)
      requires Valid()
      modifies this`calls, this`hist, this`closing, this`marks, connections, link, link.buffer
      ensures Valid() && Leads(old(V()), V()) && old(link.sent) <= link.sent && 1 <= polls <= 10 * (timeout as int + 1)
      ensures old(link.now) < link.now
      ensures length != 0 ==> old(link.now) <= t && HoldsFrame(t) && length == |w.supply(t)| && length >= 60
                              && EthType(w.supply(t)) == kind && w.supply(t)[..6] == w.station.mac
      decreases Fuel(), connections.Length - |closing|, 12
    {
      hide Owned, SlotsOk, TableOk, SlotsLead, Caused;
      SelfLeads(V());
      var microWaiting, waiting := 0, 0;
      t, polls := 0, 0;
      while true
        invariant 0 <= microWaiting < 10 && 0 <= waiting <= timeout && polls == 10 * waiting + microWaiting
        invariant Valid() && Leads(old(V()), V()) && old(link.sent) <= link.sent
        invariant polls > 0 ==> old(link.now) < link.now
        decreases 10 * (timeout as int + 1 - waiting) - microWaiting
      {
        ghost var v := V();
        t := link.now;
        length := Receive();
        polls := polls + 1;
        LeadsTransitive(old(V()), v, V());
        if length != 0 {
          assert w.station.WellFormed(w.supply(t));
          HeadReads(w.supply(t), link.buffer[..]);
          if EthType(link.buffer[..]) == kind && link.buffer[..6] == w.station.mac {
            assert link.buffer[..][..6] == link.buffer[..6];
            return;
          }
          ghost var u := V();
          NetHandleIncomingPacket(length, t);
          LeadsTransitive(old(V()), u, V());
        }
        microWaiting := microWaiting + 1;
        if microWaiting == 10 {
          microWaiting := 0;
          waiting := waiting + 1;
        }
        if waiting > timeout {
          break;
        }
      }
      length := 0;
    }

    /** `NetHandleIncomingPacket`: ARP requests and echo requests are answered, TCP goes to its handler. */
    method NetHandleIncomingPacket(length: u16, ghost t: nat)
      requires Valid() && HoldsFrame(t) && length == |w.supply(t)|
      modifies this`calls, this`hist, this`closing, this`marks, connections, link, link.buffer
      ensures Valid() && Leads(old(V()), V()) && old(link.sent) <= link.sent
      ensures !w.IsTcp(t) ==> V() == old(V())
      decreases Fuel(), connections.Length - |closing|, 11
    {
      hide Owned, SlotsOk, TableOk, SlotsLead, Caused, React;
      SelfLeads(V());
      assert w.station.WellFormed(w.supply(t));
      HeadReads(w.supply(t), link.buffer[..]);
      var srcMac: Mac := link.buffer[6..12];
      var isArp := link.ArpPacketIsArp(1);
      if isArp {
        ghost var frame := link.ArpSendPacket(2, srcMac, srcMac, link.buffer[28..32]);
        return;
      }
      if !w.station.IsIp(link.buffer[..]) {
        return;
      }
      var srcIp: Ip := link.buffer[26..30];
      var isEcho := link.IcmpSendReply(length, srcMac, srcIp);
      if isEcho {
        return;
      }
      if link.buffer[23] == PROTO_TCP {
        TcpHandleIncomingPacket(t);
      }
    }

    /** `TcpHandleIncomingPacket`. */
    method TcpHandleIncomingPacket(ghost t: nat)
      requires Valid() && Holds(t)
      modifies this`calls, this`hist, this`closing, this`marks, connections, link, link.buffer
      ensures Valid() && Leads(old(V()), V()) && old(link.sent) <= link.sent
      ensures w.station.WellFormed(w.supply(t))
      ensures Outcome(React(w, old(V()), w.supply(t), t), old(link.ipIdentifier), old(link.sent), old(link.buffer[..]))
      decreases Fuel(), connections.Length - |closing|, 10
    {
      hide IsSegment, IsUnreachable, TcpAccepts, Owned, SlotsOk, TableOk, SlotsLead, Caused, ReactSlot, Replied, Began;
      hide Accept, Matches, FirstMatch, FirstEmpty;
      ghost var v, f := V(), w.supply(t);
      SelfLeads(v);
      SilentReply(w.station, link.ipIdentifier, link.sent);
      BufferReads(t);
      var correct := link.TcpVerifyChecksum();
      if !correct {
        return;
      }
      NotedStep(w, v, f, t);
      hist, marks := Noted(v, f).hist, Noted(v, f).marks;
      ghost var u := V();
      assert u == Noted(v, f);
      var id := TcpGetConnectionId(t);
      if id == INVALID_CONNECTION_ID {
        return;
      }
      ghost var x := V();
      LeadsTransitive(v, u, x);
      TcpHandleSlot(id, t);
      LeadsTransitive(v, x, V());
    }

    /** The rest of `TcpHandleIncomingPacket`, once the slot is known. */
    method TcpHandleSlot(id: byte, ghost t: nat)
      requires Valid() && Holds(t) && id < connections.Length && TcpAccepts(w.supply(t))
      requires Matches(w.supply(t), connections[id])
      requires Flags(w.supply(t)) == SYN && opening == Some(id as nat) ==> !hist[id].clean
      modifies this`calls, this`hist, this`closing, this`marks, connections, link, link.buffer
      ensures Valid() && Leads(old(V()), V()) && old(link.sent) <= link.sent
      ensures Outcome(ReactSlot(w, old(V()), id, w.supply(t), t), old(link.ipIdentifier), old(link.sent),
                old(link.buffer[..]))
      decreases Fuel(), connections.Length - |closing|, 9
    {
      hide IsSegment, TcpAccepts, Owned, SlotsOk, TableOk, SlotsLead, Caused, Replied, Began, Matches, ReactSyn;
      hide ReactData;
      BufferReads(t);
      SynBefore(id);
      var flags := link.buffer[47];
      if flags == SYN && (connections[id].state == New || connections[id].state == SynReceived) {
        TcpHandleSyn(id, t);
      } else if HasFlag(flags, ACK) && connections[id].state == SynReceived {
        TcpHandleHandshake(id, t);
      } else {
        SameReaction(V(), id, t);
        TcpHandleData(id, Poll(t));
      }
    }

    /** The slots were opened by polls before the present one or by it. */
    lemma SynBefore(id: byte)
      requires Valid() && id < connections.Length && link.now > 0
      ensures hist[id].syn < link.now
    {
      OneSlot(w, V(), id);
    }

    /** The data branch does the same on the buffer as on the frame. */
    lemma SameReaction(v: View, id: byte, t: nat)
      requires Wired() && Holds(t) && id < |v.conns| && id < |v.hist|
      ensures ReactData(w, v, id, w.supply(t), Poll(t)) == ReactData(w, v, id, link.buffer[..], Poll(t))
    {
      BufferReads(t);
      WindowOfHead(w.supply(t), link.buffer[..]);
      ReactDataSame(w, v, id, w.supply(t), link.buffer[..], Poll(t));
    }

    /** The ACK that completes a passive open, and whatever else it carries. */
    method TcpHandleHandshake(id: byte, ghost t: nat)
      requires Valid() && Holds(t) && id < connections.Length && TcpAccepts(w.supply(t))
      requires Matches(w.supply(t), connections[id])
      requires connections[id].state == SynReceived && HasFlag(Flags(w.supply(t)), ACK) && Flags(w.supply(t)) != SYN
      requires hist[id].syn <= t
      modifies this`calls, this`hist, this`closing, this`marks, connections, link, link.buffer
      ensures Valid() && Leads(old(V()), V()) && old(link.sent) <= link.sent
      ensures Outcome(ReactSlot(w, old(V()), id, w.supply(t), t), old(link.ipIdentifier), old(link.sent),
                old(link.buffer[..]))
      decreases Fuel(), connections.Length - |closing|, 8
    {
      hide IsSegment, TcpAccepts, Owned, SlotsOk, TableOk, SlotsLead, Caused, Replied, Began, Inert, ReactData;
      ghost var v, before, ident := V(), link.sent, link.ipIdentifier;
      ghost var quiet := TcpEstablish(id, t);
      ghost var x := V();
      if quiet { SameReaction(x, id, t); }
      TcpHandleData(id, if quiet then Poll(t) else Stale);
      if !quiet {
        SilentBegins(w.station, ident, before, link.sent);
        LeadsTransitive(Establish(w, v, id, t), x, V());
      }
      LeadsTransitive(v, x, V());
    }

    /** The connection is ESTABLISHED and the application is told; `quiet` if that did nothing. */
    method TcpEstablish(id: byte, ghost t: nat) returns (ghost quiet: bool)
      requires Valid() && Holds(t) && id < connections.Length && connections[id].state == SynReceived
      requires TcpAccepts(w.supply(t)) && Matches(w.supply(t), connections[id]) && hist[id].syn <= t
      modifies this`calls, this`hist, this`closing, this`marks, connections, link, link.buffer
      ensures Valid() && Leads(old(V()), V()) && old(link.sent) <= link.sent
      ensures var u := Establish(w, old(V()), id, t);
              quiet == Inert(w.app.onConnect(old(calls)), u.conns)
              && if quiet then V() == u && unchanged(link, link.buffer) else Leads(u, V()) && old(link.now) < link.now
      ensures connections[id].state != Dyeing && calls > old(calls)
      ensures Sourced(id, if quiet then Poll(t) else Stale)
      decreases Fuel(), connections.Length - |closing|, 5
    {
      hide TcpAccepts, Owned, SlotsOk, TableOk, SlotsLead, Caused, Inert, Establish, Matches;
      ghost var v := V();
      TcpMarkEstablished(id, t);
      ghost var u := V();
      quiet := Inert(w.app.onConnect(calls - 1), u.conns);
      assert !quiet ==> marks.stirred;
      RunCallback(w.app.onConnect(calls - 1), calls - 1);
      LeadsTransitive(v, u, V());
      StaysOutOfClosing(u, V(), id);
    }

    /** The handshake of a passive open is complete. */
    method TcpMarkEstablished(id: byte, ghost t: nat)
      requires Valid() && Holds(t) && id < connections.Length && connections[id].state == SynReceived
      requires TcpAccepts(w.supply(t)) && Matches(w.supply(t), connections[id]) && hist[id].syn <= t
      modifies this`calls, this`hist, this`marks, connections
      ensures Valid() && Leads(old(V()), V()) && V() == Establish(w, old(V()), id, t) && calls == old(calls) + 1
      ensures Matches(w.supply(t), connections[id]) && hist[id].syn <= t && closing == old(closing)
      ensures connections[id].state == Established
      ensures !Inert(w.app.onConnect(old(calls)), connections[..]) ==> marks.stirred
    {
      hide TcpAccepts, Owned, SlotsOk, TableOk, SlotsLead, Caused;
      ghost var v := V();
      BufferReads(t);
      EstablishStep(w, v, id, t);
      connections[id] := connections[id].(state := Established);
      connections[id] := connections[id].(sendSequence := AckOf(link.buffer[..]));
      hist, marks := Establish(w, v, id, t).hist, Establish(w, v, id, t).marks;
      calls := calls + 1;
      assert V() == Establish(w, v, id, t);
    }

    /** `NetHandleNetwork`: one turn of the main loop. */
    method NetHandleNetwork()
      requires Valid()
      modifies this`calls, this`hist, this`closing, this`marks, connections, link, link.buffer
      ensures Valid() && Leads(old(V()), V()) && old(link.sent) <= link.sent
      ensures !w.IsTcp(old(link.now)) ==> V() == Ticked(old(V()))
    {
      hide Owned, SlotsOk, TableOk, SlotsLead, Caused;
      ghost var v, t := V(), link.now;
      var length := Receive();
      if length == 0 {
        return;
      }
      ghost var u := V();
      NetHandleIncomingPacket(length, t);
      LeadsTransitive(v, u, V());
    }

    // ----- sending ---------------------------------------------------------------------------

    /** Poll `t` brought the peer's acknowledgement of number `ack` on `c`. */
    ghost predicate AckedTo(c: TcpConnection, t: nat, ack: u32)
    {
      w.IsTcp(t) && TcpAccepts(w.supply(t)) && Matches(w.supply(t), c) && HasFlag(Flags(w.supply(t)), ACK)
      && AckOf(w.supply(t)) == ack
    }

    /** Poll `t` brought the peer's acknowledgement of everything sent on `c`. */
    ghost predicate Acknowledged(c: TcpConnection, t: nat) { AckedTo(c, t, c.sendSequence) }

    /** The first frame sent since `before` is the data segment of `part`. */
    ghost predicate FirstSent(before: seq<seq<byte>>, ident: u16, c: TcpConnection, sequence: u32, part: seq<byte>)
      reads link
    {
      before < link.sent && IsSegment(link.sent[|before|], w.station, c, ident, sequence, ACK, part)
    }

    /** A part stands at `at` in the written stream, under its number. */
    ghost predicate PartAt(h: History, part: seq<byte>, sequence: u32, at: nat)
    {
      at + |part| <= |h.written| && h.written[at..at + |part|] == part
      && (h.clean && h.alone ==> sequence == Wrap32(h.sendBase as int + at))
    }

    lemma PartStays(c: TcpConnection, h: History, c': TcpConnection, h': History, part: seq<byte>, sequence: u32,
                    at: nat)
      requires PartAt(h, part, sequence, at) && SlotRuns(c, h, c', h') && (h'.clean ==> h.clean)
      ensures PartAt(h', part, sequence, at)
    {
      assert h'.written[at..at + |part|] == h'.written[..|h.written|][at..at + |part|];
    }

    /** An established slot over a wait. */
    lemma RunsOver(u: View, x: View, id: byte)
      requires Leads(u, x) && id < |u.conns| && u.conns[id].state == Established
      requires x.hist[id].generation == u.hist[id].generation
      ensures SlotRuns(u.conns[id], u.hist[id], x.conns[id], x.hist[id]) && x.conns[id].state == Established
      ensures x.hist[id].clean ==> u.hist[id].clean
    {
      assert SlotLeads(u.conns[id], u.hist[id], x.conns[id], x.hist[id], u.IsOpening(id), x.marks);
    }

    lemma RunsTransitive(c: TcpConnection, h: History, c': TcpConnection, h': History, c'': TcpConnection, h'': History)
      requires SlotRuns(c, h, c', h') && SlotRuns(c', h', c'', h'')
      ensures SlotRuns(c, h, c'', h'')
    {
    }

    /** On incarnation `gen`, the slot ran on since `x`. */
    ghost predicate RanSince(x: View, id: byte, gen: nat)
      reads this, connections, link
    {
      id < connections.Length && id < |hist| && id < |x.conns| && id < |x.hist|
      && x.hist[id].generation <= hist[id].generation
      && (hist[id].generation == x.hist[id].generation == gen ==>
          SlotRuns(x.conns[id], x.hist[id], connections[id], hist[id]))
    }

    /** A wait later, the slot still ran on and the part is still where it was. */
    lemma PartRuns(x: View, u: View, v: View, id: byte, gen: nat, part: seq<byte>, sequence: u32, at: nat)
      requires id < |x.conns| && id < |x.hist| && id < |u.hist| && |u.hist| == |u.conns|
      requires x.hist[id].generation <= u.hist[id].generation
      requires u.hist[id].generation == x.hist[id].generation == gen ==>
                SlotRuns(x.conns[id], x.hist[id], u.conns[id], u.hist[id])
      requires u.hist[id].generation == gen ==> PartAt(u.hist[id], part, sequence, at)
      requires Leads(u, v) && u.conns[id].state == Established && gen <= x.hist[id].generation
      ensures x.hist[id].generation <= v.hist[id].generation
      ensures v.hist[id].generation == gen ==>
                SlotRuns(x.conns[id], x.hist[id], v.conns[id], v.hist[id]) && PartAt(v.hist[id], part, sequence, at)
    {
      hide SlotRuns, PartAt;
      GenerationGrows(u, v, id);
      if v.hist[id].generation == gen {
        RunsOver(u, v, id);
        RunsTransitive(x.conns[id], x.hist[id], u.conns[id], u.hist[id], v.conns[id], v.hist[id]);
        PartStays(u.conns[id], u.hist[id], v.conns[id], v.hist[id], part, sequence, at);
      }
    }

    lemma GenerationGrows(u: View, x: View, id: byte)
      requires Leads(u, x) && id < |u.conns|
      ensures u.hist[id].generation <= x.hist[id].generation
      ensures u.conns[id].maxSegmetSize > 0 ==> x.conns[id].maxSegmetSize > 0
    {
      assert SlotLeads(u.conns[id], u.hist[id], x.conns[id], x.hist[id], u.IsOpening(id), x.marks);
    }

    lemma FirstSentGrows(before: seq<seq<byte>>, mid: seq<seq<byte>>, ident: u16, c: TcpConnection, sequence: u32,
                         part: seq<byte>)
      requires before < mid <= link.sent && IsSegment(mid[|before|], w.station, c, ident, sequence, ACK, part)
      ensures FirstSent(before, ident, c, sequence, part)
    {
      assert mid[|before|] == link.sent[|before|];
    }

    /** Memory that changes is a cause for parts sent again with other bytes. */
    ghost predicate Allowed(v: View, memory: Memory)
    {
      memory.Steady() || v.marks.loose || LooseBefore(w, v.calls)
    }

    /** The inner loop of `TcpSendData`: send one part until it is acknowledged. The send began at `v`; the
        part was cut from `memory` at `offset` and stands at `at` in the stream written on that incarnation. */
    method TcpSendPart(id: byte, sequence: u32, memory: Memory, offset: nat, part: seq<byte>, waited: nat,
                       timeout: Timeout, ghost v: View, ghost at: nat)
      returns (acked: bool, waiting: nat, ghost t: nat)
      requires Valid() && id < connections.Length && waited <= timeout && Sending(v, V(), id) && Allowed(v, memory)
      requires offset + |part| <= memory.length && part == memory.at(link.now)[offset..offset + |part|]
      requires opening == Some(id as nat) ==> !hist[id].clean
      requires connections[id].state == Established ==> |part| <= w.station.MaxSegmentSize()
      requires connections[id].state == Established && hist[id].generation == v.hist[id].generation ==>
                PartAt(hist[id], part, sequence, at)
      modifies this`calls, this`hist, this`closing, this`marks, connections, link, link.buffer
      ensures Valid() && Sending(v, V(), id) && old(link.sent) <= link.sent
      ensures RanSince(old(V()), id, v.hist[id].generation)
      ensures waited <= waiting
      ensures acked ==> waiting <= timeout && t < link.now && old(connections[id]).state == Established
      ensures acked ==> AcksBefore(w, old(link.now)) < AcksBefore(w, link.now)
      ensures opening == Some(id as nat) ==> !hist[id].clean
      ensures acked && hist[id].generation == v.hist[id].generation ==>
                connections[id].state == Established && AckedTo(connections[id], t, Wrap32(sequence as int + |part|))
      ensures old(connections[id]).state == Established ==>
                old(link.now) < link.now
                && FirstSent(old(link.sent), old(link.ipIdentifier), old(connections[id]), sequence, part)
      ensures old(connections[id]).state != Established ==> !acked && unchanged(this, connections, link)
      decreases Fuel(), connections.Length - |closing|, 17
    {
      hide IsSegment, AckedTo, Owned, SlotsOk, TableOk, SlotsLead, Caused, SlotRuns, PartAt, AcksBefore, AckCame;
      hide Allowed;
      ghost var x, gen := V(), v.hist[id].generation;
      SelfRuns(x.conns[id], x.hist[id]);
      GenerationGrows(v, x, id);
      var firstTry := true;
      waiting, t := waited, 0;
      acked := false;
      while true
        invariant waited <= waiting <= timeout && (firstTry <==> waiting == waited)
        invariant if firstTry then unchanged(this, connections, link)
                  else x.conns[id].state == Established && x.now < link.now
        invariant closing == x.closing && calls >= x.calls
        invariant Valid() && Sending(v, V(), id) && RanSince(x, id, gen) && old(link.sent) <= link.sent
        invariant opening == Some(id as nat) ==> !hist[id].clean
        invariant !firstTry ==> FirstSent(old(link.sent), old(link.ipIdentifier), old(connections[id]), sequence, part)
        invariant connections[id].state == Established && hist[id].generation == gen ==>
                  PartAt(hist[id], part, sequence, at)
        decreases timeout - waiting
      {
        if connections[id].state != Established {
          return;
        }
        ghost var s, n := link.sent, link.now;
        acked, t := TcpSendOnce(id, sequence, memory, offset, part, waiting % 200 == 0 || firstTry, v, x, at);
        if !firstTry {
          FirstSentGrows(old(link.sent), s, old(link.ipIdentifier), old(connections[id]), sequence, part);
        }
        firstTry := false;
        if acked {
          AcksGrow(w, old(link.now), n);
          return;
        }
        waiting := waiting + 1;
        if waiting > timeout {
          return;
        }
      }
    }

    /** One turn of that loop: the segment goes out if it is its time, with the bytes that the memory holds
        then, and one wait follows. */
    method TcpSendOnce(id: byte, sequence: u32, memory: Memory, offset: nat, part: seq<byte>, due: bool,
                       ghost v: View, ghost x: View, ghost at: nat)
      returns (acked: bool, ghost t: nat)
      requires Valid() && id < connections.Length && Sending(v, V(), id) && |part| <= w.station.MaxSegmentSize()
      requires Allowed(v, memory) && CutAt(memory, offset, part)
      requires opening == Some(id as nat) ==> !hist[id].clean
      requires connections[id].state == Established && RanSince(x, id, v.hist[id].generation)
      requires v.hist[id].generation <= x.hist[id].generation
      requires hist[id].generation == v.hist[id].generation ==> PartAt(hist[id], part, sequence, at)
      modifies this`calls, this`hist, this`closing, this`marks, connections, link, link.buffer
      ensures Valid() && Sending(v, V(), id) && RanSince(x, id, v.hist[id].generation) && old(link.sent) <= link.sent
      ensures opening == Some(id as nat) ==> !hist[id].clean
      ensures due ==> FirstSent(old(link.sent), old(link.ipIdentifier), old(connections[id]), sequence,
                                memory.at(old(link.now))[offset..offset + |part|])
      ensures connections[id].state == Established && hist[id].generation == v.hist[id].generation ==>
                PartAt(hist[id], part, sequence, at)
      ensures closing == old(closing) && calls >= old(calls) && old(link.now) < link.now && (acked ==> t < link.now)
      ensures acked ==> AcksBefore(w, old(link.now)) < AcksBefore(w, link.now)
      ensures acked && hist[id].generation == v.hist[id].generation ==>
                connections[id].state == Established && AckedTo(connections[id], t, Wrap32(sequence as int + |part|))
      decreases Fuel(), connections.Length - |closing|, 16
    {
      hide Inv, Leads, IsSegment, AckedTo, SlotRuns, PartAt, Awaited, Allowed, AcksBefore, CutAt, RanSince, Sending;
      hide Transmit;
      SendingSizes(v, V(), id);
      CutFits(memory, offset, part);
      ghost var bytes := memory.at(link.now)[offset..offset + |part|];
      if due {
        var found := memory.at(link.now)[offset..offset + |part|];
        Put(link.buffer, 54, found);
        assert link.buffer[54..54 + |part|] == found;
        CutNow(memory, link.now, offset, |part|);
        TcpTransmit(id, sequence, memory, offset, part, found, v, x, at);
      }
      ghost var s := link.sent;
      acked, t := TcpAwaitAck(id, sequence, part, v, x, at);
      if due { FirstSentGrows(old(link.sent), s, old(link.ipIdentifier), old(connections[id]), sequence, bytes); }
    }

    lemma CutFits(memory: Memory, offset: nat, part: seq<byte>)
      requires CutAt(memory, offset, part)
      ensures offset + |part| <= memory.length
    {
    }

    lemma CutNow(memory: Memory, n: nat, offset: nat, length: nat)
      requires offset + length <= memory.length
      ensures CutAt(memory, offset, memory.at(n)[offset..offset + length])
    {
    }

    /** The wait for the acknowledgement of a part. */
    method TcpAwaitAck(id: byte, sequence: u32, part: seq<byte>, ghost v: View, ghost x: View, ghost at: nat)
      returns (acked: bool, ghost t: nat)
      requires Valid() && id < connections.Length && Sending(v, V(), id) && connections[id].state == Established
      requires opening == Some(id as nat) ==> !hist[id].clean
      requires RanSince(x, id, v.hist[id].generation) && v.hist[id].generation <= x.hist[id].generation
      requires hist[id].generation == v.hist[id].generation ==> PartAt(hist[id], part, sequence, at)
      modifies this`calls, this`hist, this`closing, this`marks, connections, link, link.buffer
      ensures Valid() && Sending(v, V(), id) && RanSince(x, id, v.hist[id].generation) && old(link.sent) <= link.sent
      ensures opening == Some(id as nat) ==> !hist[id].clean
      ensures connections[id].state == Established && hist[id].generation == v.hist[id].generation ==>
                PartAt(hist[id], part, sequence, at)
      ensures closing == old(closing) && calls >= old(calls) && old(link.now) < link.now && (acked ==> t < link.now)
      ensures acked ==> AcksBefore(w, old(link.now)) < AcksBefore(w, link.now)
      ensures acked && hist[id].generation == v.hist[id].generation ==>
                connections[id].state == Established && AckedTo(connections[id], t, Wrap32(sequence as int + |part|))
      decreases Fuel(), connections.Length - |closing|, 15
    {
      hide Inv, SlotsLead, IsSegment, AckedTo, SlotRuns, PartAt, Awaited, Allowed, AcksBefore;
      Sizes();
      ghost var b := V();
      ghost var mid;
      acked, t, mid := TcpWaitPacket(id, Wrap32(sequence as int + |part|), ACK);
      PartRuns(x, b, V(), id, v.hist[id].generation, part, sequence, at);
      SendingOn(v, b, V(), id);
      StaysUnclean(b, V(), id);
      if acked {
        AckCounts(id, mid, t, Wrap32(sequence as int + |part|), old(link.now), link.now);
        AckedHere(id, b, mid, V(), t, Wrap32(sequence as int + |part|));
        GenerationGrows(v, b, id);
        GenerationGrows(b, V(), id);
      }
    }

    /** An awaited acknowledgement is one more. */
    lemma AckCounts(id: byte, mid: View, t: nat, ack: u32, now: nat, now': nat)
      requires id < |mid.conns| && Awaited(mid.conns[id], t, ack, ACK) && now <= t < now'
      ensures AcksBefore(w, now) < AcksBefore(w, now')
    {
      hide TcpAccepts;
      assert AckCame(w, t) by { assert HasFlag(ACK, 0x10); }
      AcksGrow(w, now, t);
      AcksGrow(w, t, now');
    }

    lemma SelfRuns(c: TcpConnection, h: History)
      ensures SlotRuns(c, h, c, h)
    {
    }

    /** A slot that is being opened and was hit by a SYN stays so. */
    lemma StaysUnclean(u: View, x: View, id: byte)
      requires Leads(u, x) && id < |u.conns| && (u.opening == Some(id as nat) ==> !u.hist[id].clean)
      ensures x.opening == Some(id as nat) ==> !x.hist[id].clean
    {
      assert SlotLeads(u.conns[id], u.hist[id], x.conns[id], x.hist[id], u.IsOpening(id), x.marks);
    }

    /** One transmission of a part; `found` is what the memory held, and lies in the buffer. */
    method TcpTransmit(id: byte, sequence: u32, ghost memory: Memory, ghost offset: nat, ghost part: seq<byte>,
                       found: seq<byte>, ghost v: View, ghost x: View, ghost at: nat)
      requires Valid() && id < connections.Length && connections[id].state == Established && Sending(v, V(), id)
      requires 54 + |found| <= link.buffer.Length && link.buffer[54..54 + |found|] == found
      requires Allowed(v, memory) && CutAt(memory, offset, part) && CutAt(memory, offset, found) && |found| == |part|
      requires opening == Some(id as nat) ==> !hist[id].clean
      requires RanSince(x, id, v.hist[id].generation)
      requires hist[id].generation == v.hist[id].generation ==> PartAt(hist[id], part, sequence, at)
      modifies this`hist, this`marks, link`ipIdentifier, link`sent, link.buffer
      ensures Valid() && Sending(v, V(), id) && RanSince(x, id, v.hist[id].generation)
      ensures old(link.sent) < link.sent
              && IsSegment(link.sent[|old(link.sent)|], w.station, connections[id], old(link.ipIdentifier), sequence,
                  ACK, found)
      ensures V() == Transmit(old(V()), id, Transmission(at, link.sent[|old(link.sent)|]),
                              old(hist)[id].generation == v.hist[id].generation, found != part)
      ensures hist[id].generation == v.hist[id].generation ==> PartAt(hist[id], part, sequence, at)
      ensures hist[id].generation == old(hist)[id].generation && hist[id].clean == old(hist)[id].clean
    {
      hide Inv, Leads, IsSegment, CutAt, Allowed, LooseBefore, SlotRuns, PartAt, Sending, Transmit;
      Sizes();
      SendingSizes(v, V(), id);
      ghost var u := V();
      ghost var frame := link.TcpSendPacket(connections[id], sequence, ACK, |found|);
      assert V() == u;
      AlteredAllowed(v, u, memory, offset, part, found);
      TcpNoteSent(id, frame, old(link.ipIdentifier), sequence, part, found, v, x, at);
    }

    /** What was sent is noted. */
    ghost method TcpNoteSent(id: byte, frame: seq<byte>, ident: u16, sequence: u32, part: seq<byte>, found: seq<byte>,
                             v: View, x: View, at: nat)
      requires Valid() && id < connections.Length && connections[id].state == Established && Sending(v, V(), id)
      requires IsSegment(frame, w.station, connections[id], ident, sequence, ACK, found)
      requires found != part ==> marks.loose || LooseBefore(w, calls)
      requires opening == Some(id as nat) ==> !hist[id].clean
      requires RanSince(x, id, v.hist[id].generation)
      requires hist[id].generation == v.hist[id].generation ==> PartAt(hist[id], part, sequence, at)
      modifies this`hist, this`marks
      ensures Valid() && Sending(v, V(), id) && RanSince(x, id, v.hist[id].generation)
      ensures V() == Transmit(old(V()), id, Transmission(at, frame), old(hist)[id].generation == v.hist[id].generation,
                              found != part)
      ensures hist[id].generation == v.hist[id].generation ==> PartAt(hist[id], part, sequence, at)
      ensures hist[id].generation == old(hist)[id].generation && hist[id].clean == old(hist)[id].clean
    {
      hide Inv, Leads, IsSegment, IsSlice, LooseBefore, SlotRuns, PartAt, Sending;
      Sizes();
      SendingSizes(v, V(), id);
      ghost var u, sent := V(), Transmission(at, frame);
      ghost var own, altered := hist[id].generation == v.hist[id].generation, found != part;
      if own && !altered && hist[id].clean && hist[id].alone {
        PartIsSlice(id, frame, ident, sequence, at, part);
      }
      TransmitStep(w, u, id, sent, own, altered);
      TransmitLeads(w, v, u, id, sent, own, altered);
      if own {
        TransmitRuns(x.conns[id], x.hist[id], u.conns[id], u.hist[id], sent, !altered);
        PartTransmit(u.hist[id], sent, !altered, part, sequence, at);
      }
      hist, marks := Transmit(u, id, sent, own, altered).hist, Transmit(u, id, sent, own, altered).marks;
      assert V() == Transmit(u, id, sent, own, altered);
    }

    lemma SendingSizes(v: View, u: View, id: byte)
      requires Sending(v, u, id)
      ensures Leads(v, u) && id < |v.conns| == |v.hist| == |u.conns| == |u.hist|
      ensures v.hist[id].generation <= u.hist[id].generation
      ensures u.hist[id].generation != v.hist[id].generation ==> u.marks.hung
    {
      StrayIsHung(v, u, id);
      SameTables(v, u);
    }

    lemma PartIsSlice(id: byte, frame: seq<byte>, ident: u16, sequence: u32, at: nat, part: seq<byte>)
      requires id < connections.Length && id < |hist| && PartAt(hist[id], part, sequence, at)
      requires IsSegment(frame, w.station, connections[id], ident, sequence, ACK, part)
      requires hist[id].clean && hist[id].alone
      ensures IsSlice(EndsOf(connections[id]), hist[id].sendBase, hist[id].written, Transmission(at, frame))
    {
      hide IsSegment, IsSlice;
      SegmentIsSlice(w, connections[id], hist[id], frame, ident, sequence, at, part);
    }

    lemma PartTransmit(h: History, x: Transmission, same: bool, part: seq<byte>, sequence: u32, at: nat)
      requires PartAt(h, part, sequence, at)
      ensures PartAt(h.(transmissions := h.transmissions + [x], alone := h.alone && same), part, sequence, at)
    {
    }

    lemma TransmitRuns(c: TcpConnection, h: History, c': TcpConnection, h': History, x: Transmission, same: bool)
      ensures SlotRuns(c, h, c', h') ==>
                SlotRuns(c, h, c', h'.(transmissions := h'.transmissions + [x], alone := h'.alone && same))
    {
    }

    /** A part that is found altered comes from memory that changes. */
    lemma AlteredAllowed(v: View, u: View, memory: Memory, offset: nat, part: seq<byte>, found: seq<byte>)
      requires Allowed(v, memory) && CutAt(memory, offset, part) && CutAt(memory, offset, found) && |found| == |part|
      requires Leads(v, u)
      ensures found != part ==> u.marks.loose || LooseBefore(w, u.calls)
    {
      if found != part {
        var m: nat, n: nat :| part == memory.at(m)[offset..offset + |part|]
                              && found == memory.at(n)[offset..offset + |part|];
        assert memory.at(m) != memory.at(n);
      }
    }

    /** The acknowledgement that ended a wait still stands. */
    lemma AckedHere(id: byte, u: View, mid: View, v: View, t: nat, ack: u32)
      requires Leads(u, mid) && Leads(mid, v) && id < |u.conns| && u.conns[id].state == Established
      requires Awaited(mid.conns[id], t, ack, ACK)
      ensures v.hist[id].generation == u.hist[id].generation ==>
                v.conns[id].state == Established && AckedTo(v.conns[id], t, ack)
    {
      GenerationGrows(u, mid, id);
      GenerationGrows(mid, v, id);
      if v.hist[id].generation == u.hist[id].generation {
        RunsOver(u, mid, id);
        RunsOver(mid, v, id);
        assert HasFlag(ACK, 0x10);
      }
    }

    /** On the incarnation of `v`, slot `id` has written `parts` by `u`, and more only if other sends were
        made on it meanwhile. */
    ghost predicate Sent(v: View, u: View, id: nat, parts: seq<seq<byte>>)
    {
      id < |u.conns| == |u.hist| && id < |v.conns| == |v.hist| && v.hist[id].generation <= u.hist[id].generation
      && (u.hist[id].generation == v.hist[id].generation && v.conns[id].state == Established ==>
            && u.conns[id].state == Established && SlotRuns(v.conns[id], v.hist[id], u.conns[id], u.hist[id])
            && v.hist[id].parts + |parts| <= u.hist[id].parts
            && (v.hist[id].parts + |parts| == u.hist[id].parts ==>
                u.hist[id].written == v.hist[id].written + Concat(parts)))
    }

    /** Nothing else was sent on the slot while `parts` were. */
    ghost predicate Undivided(v: View, u: View, id: nat, parts: seq<seq<byte>>)
    {
      id < |u.hist| && id < |v.hist| && u.hist[id].generation == v.hist[id].generation
      && u.hist[id].parts == v.hist[id].parts + |parts|
    }

    lemma SentStart(v: View, id: nat)
      requires |v.conns| == |v.hist| && id < |v.conns|
      ensures Sent(v, v, id, [])
    {
      assert v.hist[id].written + [] == v.hist[id].written;
    }

    /** After the next part has been cut at `z` and sent by `y`. */
    lemma SentNext(v: View, z: View, y: View, id: byte, parts: seq<seq<byte>>, part: seq<byte>)
      requires Sent(v, z, id, parts) && Leads(v, y) && |y.conns| == |y.hist|
      requires z.hist[id].generation <= y.hist[id].generation
      requires var x := Cut(z, id, part, v.hist[id].generation);
               y.hist[id].generation == x.hist[id].generation == v.hist[id].generation ==>
                 SlotRuns(x.conns[id], x.hist[id], y.conns[id], y.hist[id])
      ensures Sent(v, y, id, parts + [part])
      ensures Undivided(v, y, id, parts + [part]) && v.conns[id].state == Established ==>
                y.conns[id].sendSequence == Wrap32(z.conns[id].sendSequence as int + |part|)
    {
      ConcatSnoc(parts, part);
      GenerationGrows(v, y, id);
      if y.hist[id].generation == v.hist[id].generation && v.conns[id].state == Established {
        RunsOver(v, y, id);
        assert v.hist[id].written + Concat(parts) + part == v.hist[id].written + (Concat(parts) + part);
      }
    }

    /** One turn of the outer loop of `TcpSendData`: cut the next part at `offset` and send it until it is
        acknowledged. The send began at `v` and has cut `parts` so far. */
    method TcpSendNext(id: byte, memory: Memory, offset: nat, waited: nat, timeout: Timeout, ghost v: View,
                       ghost parts: seq<seq<byte>>)
      returns (length: nat, acked: bool, waiting: nat, ghost t: nat, ghost parts': seq<seq<byte>>)
      requires Valid() && id < connections.Length && offset < memory.length && waited <= timeout
      requires Sending(v, V(), id) && Sent(v, V(), id, parts) && (v.conns[id].state != Established ==> V() == v)
      requires Inv(w, v) && Allowed(v, memory) && CutFrom(memory, parts) && |Concat(parts)| == offset
      requires opening == Some(id as nat) ==> !hist[id].clean
      modifies this`calls, this`hist, this`closing, this`marks, connections, link, link.buffer
      ensures Valid() && Sending(v, V(), id) && old(link.sent) <= link.sent && Sent(v, V(), id, parts')
      ensures opening == Some(id as nat) ==> !hist[id].clean
      ensures offset + length <= memory.length && (acked && length == 0 ==> opening == Some(id as nat))
      ensures length == 0 <==> old(connections[id]).maxSegmetSize == 0
      ensures if v.conns[id].state == Established
              then parts < parts' && |parts'| == |parts| + 1
                   && |parts'[|parts|]| == length <= w.station.MaxSegmentSize()
                   && |Concat(parts')| == offset + length && (opening != Some(id as nat) ==> length > 0)
              else parts' == parts
      ensures CutFrom(memory, parts') && old(link.now) <= link.now
      ensures acked ==> v.conns[id].state == Established && waiting <= timeout && t < link.now
      ensures acked ==> AcksBefore(w, old(link.now)) < AcksBefore(w, link.now)
      ensures acked && Undivided(v, V(), id, parts') ==> Acknowledged(connections[id], t)
      ensures old(connections[id]).state == Established ==> old(link.now) < link.now
      decreases Fuel(), connections.Length - |closing|, 18
    {
      hide Inv, SlotsLead, AckedTo, SlotRuns, FirstSent, PartAt, Cut, Wrap32, Allowed, AcksBefore, CutFrom, CutAt;
      Sizes();
      length := connections[id].maxSegmetSize as int;
      if memory.length - offset < length {
        length := memory.length - offset;
      }
      var part := memory.at(link.now)[offset..offset + length];
      var sequence := connections[id].sendSequence;
      ghost var z, at := V(), |hist[id].written|;
      SegmentSizeOk(z, id);
      GenerationGrows(v, z, id);
      TcpCut(id, part, v);
      acked, waiting, t := TcpSendPart(id, sequence, memory, offset, part, waited, timeout, v, at);
      SentNext(v, z, V(), id, parts, part);
      parts' := parts;
      if v.conns[id].state == Established {
        parts' := parts + [part];
        PartsGrow(memory, z.now, offset, length, parts);
        SegmentSizeOk(v, id);
        if acked && length == 0 { SizelessIsOpening(w, z, id); }
      }
    }

    /** `TcpSendData`: cut the data into segments and send each until it is acknowledged. `parts` are those
        it cut; a callback may have sent on the slot meanwhile. They are nonempty unless the slot is still
        being opened; empty ones are followed for `patience` rounds. */
    method TcpSendData(id: byte, timeout: Timeout, memory: Memory, ghost inside: bool)
      returns (ok: bool, ghost t: nat, ghost parts: seq<seq<byte>>)
      requires Valid() && (inside ==> memory.Steady() || LooseBefore(w, calls))
      requires opening == Some(id as nat) ==> id < |hist| && !hist[id].clean
      modifies this`calls, this`hist, this`closing, this`marks, connections, link, link.buffer
      ensures Valid() && old(link.sent) <= link.sent && Leads(Lent(old(V()), memory, inside), V())
      ensures id >= connections.Length || memory.length == 0 ==>
                !ok && V() == Lent(old(V()), memory, inside) && unchanged(connections, link, link.buffer)
      ensures id < connections.Length && memory.length > 0 && old(connections[..])[id].state == Established ==>
                old(link.now) < link.now
      ensures ok ==> id < connections.Length && old(connections[..])[id].state == Established
      ensures ok ==> t < link.now && |Concat(parts)| == memory.length
      ensures CutFrom(memory, parts) && forall k | 0 <= k < |parts| :: |parts[k]| <= w.station.MaxSegmentSize()
      ensures opening != Some(id as nat) ==> forall k | 0 <= k < |parts| :: parts[k] != []
      ensures id < connections.Length ==> Sent(old(V()), V(), id, parts)
      ensures ok && Undivided(old(V()), V(), id, parts) ==> Acknowledged(connections[id], t)
      ensures opening == None ==> marks.stuck == old(marks).stuck
      decreases Fuel(), connections.Length - |closing|, 20
    {
      hide Owned, SlotsOk, TableOk, SlotsLead, Caused, AckedTo, SlotRuns, FirstSent, CutFrom, LooseBefore;
      ok, t, parts := false, 0, [];
      NothingCut(memory);
      LentStep(w, V(), memory, inside);
      marks := Lent(V(), memory, inside).marks;
      ghost var v := V();
      SelfLeads(v);
      if id >= connections.Length {
        return;
      }
      SentStart(v, id);
      if memory.length == 0 {
        return;
      }
      ok, t, parts := TcpSendAll(id, timeout, memory, v);
    }

    /** The outer loop of `TcpSendData`. The send began at `v`. */
    method TcpSendAll(id: byte, timeout: Timeout, memory: Memory, ghost v: View)
      returns (ok: bool, ghost t: nat, ghost parts: seq<seq<byte>>)
      requires Valid() && V() == v && id < connections.Length && memory.length > 0 && Allowed(v, memory)
      requires opening == Some(id as nat) ==> !hist[id].clean
      modifies this`calls, this`hist, this`closing, this`marks, connections, link, link.buffer
      ensures Valid() && old(link.sent) <= link.sent && Leads(v, V())
      ensures v.conns[id].state == Established ==> old(link.now) < link.now
      ensures ok ==> v.conns[id].state == Established && t < link.now && |Concat(parts)| == memory.length
      ensures CutFrom(memory, parts) && forall k | 0 <= k < |parts| :: |parts[k]| <= w.station.MaxSegmentSize()
      ensures opening != Some(id as nat) ==> forall k | 0 <= k < |parts| :: parts[k] != []
      ensures Sent(v, V(), id, parts) && (ok && Undivided(v, V(), id, parts) ==> Acknowledged(connections[id], t))
      decreases Fuel(), connections.Length - |closing|, 19
    {
      hide Owned, SlotsOk, TableOk, SlotsLead, Caused, AckedTo, SlotRuns, FirstSent, AcksBefore, CutFrom, Undivided;
      hide Allowed;
      ok, t, parts := false, 0, [];
      SelfLeads(v);
      SentStart(v, id);
      NothingCut(memory);
      var waiting, offset, empties := 0, 0, 0;
      while true
        invariant 0 <= offset < memory.length && 0 <= waiting <= timeout && Valid() && old(link.sent) <= link.sent
        invariant Sending(v, V(), id) && Sent(v, V(), id, parts) && |Concat(parts)| == offset && CutFrom(memory, parts)
        invariant forall k | 0 <= k < |parts| :: |parts[k]| <= w.station.MaxSegmentSize()
        invariant opening != Some(id as nat) ==> forall k | 0 <= k < |parts| :: parts[k] != []
        invariant if parts == [] then V() == v else v.conns[id].state == Established && v.now < link.now
        invariant opening == Some(id as nat) ==> !hist[id].clean
        invariant empties <= w.patience && empties <= AcksBefore(w, link.now)
        decreases memory.length - offset, w.patience - empties
      {
        var length, acked;
        length, acked, waiting, t, parts := TcpSendNext(id, memory, offset, waiting, timeout, v, parts);
        if !acked {
          return;
        }
        if length == 0 {
          if empties == w.patience {
            StuckSend(v, id, parts);
            marks := marks.(stuck := true);
            return;
          }
          empties := empties + 1;
        }
        offset := offset + length;
        if offset >= memory.length {
          break;
        }
      }
      ok := true;
    }

    /** The next part was cut where the parts before it end. */
    lemma PartsGrow(memory: Memory, n: nat, offset: nat, length: nat, parts: seq<seq<byte>>)
      requires CutFrom(memory, parts) && |Concat(parts)| == offset && offset + length <= memory.length
      ensures var parts' := parts + [memory.at(n)[offset..offset + length]];
              CutFrom(memory, parts') && |Concat(parts')| == offset + length
    {
      var part := memory.at(n)[offset..offset + length];
      assert CutAt(memory, offset, part);
      CutFromSnoc(memory, parts, part);
      ConcatSnoc(parts, part);
    }

    /** A send that is no longer followed. */
    lemma StuckSend(v: View, id: byte, parts: seq<seq<byte>>)
      requires Valid() && Sending(v, V(), id) && Sent(v, V(), id, parts)
      requires opening == Some(id as nat) && !hist[id].clean && AcksBefore(w, link.now) > w.patience
      ensures var u := V().(marks := marks.(stuck := true)); Inv(w, u) && Sending(v, u, id) && Sent(v, u, id, parts)
    {
      hide Owned, SlotsOk, TableOk, SlotsLead, Caused, AcksBefore, Sized, Born, Ordered, Story;
      OneSlot(w, V(), id);
      StuckStep(w, V());
      LeadsTransitive(v, V(), Later(V(), link.now, calls, marks.(stuck := true)));
    }

    /** The segment size of a connection on which something is sent. */
    lemma SegmentSizeOk(v: View, id: byte)
      requires Inv(w, v) && id < |v.conns|
      ensures v.conns[id].maxSegmetSize <= w.station.MaxSegmentSize()
      ensures v.conns[id].state == Established && !v.IsOpening(id) ==> 1 <= v.conns[id].maxSegmetSize
    {
      OneSlot(w, v, id);
    }

    /** The send sequence moves past the next part. The send began at `v`. */
    method TcpCut(id: byte, part: seq<byte>, ghost v: View)
      requires Valid() && id < connections.Length && |part| < 0x1_0000 && Sending(v, V(), id)
      requires opening == Some(id as nat) ==> !hist[id].clean
      modifies this`hist, connections
      ensures Valid() && Sending(v, V(), id) && V() == Cut(old(V()), id, part, v.hist[id].generation)
      ensures connections[id].state == old(connections[id]).state && hist[id].generation == old(hist)[id].generation
      ensures opening == Some(id as nat) ==> !hist[id].clean
      ensures connections[id].state == Established && hist[id].generation == v.hist[id].generation ==>
                PartAt(hist[id], part, old(connections[id]).sendSequence, |old(hist[id]).written|)
    {
      hide Owned, SlotsOk, TableOk, SlotsLead, Caused;
      ghost var u := V();
      if connections[id].state == Established { SenderFacts(w, u, id); }
      CutStep(w, v, u, id, part);
      connections[id] := connections[id].(sendSequence := Wrap32(connections[id].sendSequence as int + |part|));
      hist := Cut(u, id, part, v.hist[id].generation).hist;
      assert V() == Cut(u, id, part, v.hist[id].generation);
    }

    // ----- active open -----------------------------------------------------------------------

    /** `ArpWhoIs`, with packets handled while it waits. `l` is the lookup as the cache saw it. */
    method ArpWhoIs(ip: Ip) returns (found: bool, mac: Mac, ghost l: Lookup)
      requires Valid()
      modifies this`calls, this`hist, this`closing, this`marks, connections, link, link.buffer, cache.rows
      ensures Valid() && Leads(old(V()), V()) && old(link.sent) <= link.sent
      ensures l.ip == ip && Possible(old(cache.rows[..]), l) && cache.rows[..] == After(old(cache.rows[..]), l)
      ensures Resolve(old(cache.rows[..]), l) == if found then Some(mac) else None
    {
      hide Owned, SlotsOk, TableOk, SlotsLead, Caused, Aged, MostUsed;
      SelfLeads(V());
      var hit, victim;
      hit, mac, victim := cache.Search(ip);
      l := Lookup(ip, None, victim);
      if hit {
        return true, mac, l;
      }
      var reply := ArpAsk(ip);
      found := reply.Some?;
      if found {
        mac := reply.value;
        cache.Store(victim, ip, mac);
        l := Lookup(ip, Some(mac), victim);
      }
    }

    /** The request of `ArpWhoIs` and the wait for the reply. */
    method ArpAsk(ip: Ip) returns (reply: Option<Mac>)
      requires Valid()
      modifies this`calls, this`hist, this`closing, this`marks, connections, link, link.buffer
      ensures Valid() && Leads(old(V()), V()) && old(link.sent) <= link.sent
    {
      hide Owned, SlotsOk, TableOk, SlotsLead, Caused;
      ghost var frame := link.ArpSendPacket(1, [0xFF, 0xFF, 0xFF, 0xFF, 0xFF, 0xFF], [0, 0, 0, 0, 0, 0], ip);
      ghost var t, polls;
      var length;
      length, t, polls := EthWaitPacket(ETH_TYPE_ARP, 100);
      if length != 0 {
        var isReply := link.ArpPacketIsArp(2);
        if isReply {
          return Some(link.buffer[6..12]);
        }
        ghost var v := V();
        NetHandleIncomingPacket(length, t);
        LeadsTransitive(old(V()), v, V());
      }
      reply := None;
    }

    /** The loop of `TcpConnect`: send SYN until the peer answers or the time is up; `waits` counts its own
        waits. */
    method TcpSendSyn(id: byte, sequence: u32, timeout: Timeout)
      returns (ok: bool, ghost t: nat, ghost mid: View, ghost waits: nat)
      requires Valid() && id < connections.Length && opening == Some(id as nat)
      modifies this`calls, this`hist, this`closing, this`marks, connections, link, link.buffer
      ensures Valid() && old(link.sent) <= link.sent && 1 <= waits <= timeout as int + 1
      ensures Began(w.station, old(link.ipIdentifier), old(link.sent), link.sent, Answer(old(connections[id]), sequence,
                SYN))
      ensures !ok ==> Leads(old(V()), V())
      ensures ok ==> Leads(old(V()), mid) && id < |mid.conns| && mid.now == t + 1
                     && Awaited(mid.conns[id], t, Wrap32(sequence as int + 1), SYN + ACK)
      ensures ok ==> var u := Greeting(mid, id, t);
                     Leads(u, V()) && (mid.hist[id].clean && FirstMatch(u.conns, w.supply(t)) == id ==>
                         Holds(t) && V() == u)
    {
      hide Replied, Began, Owned, SlotsOk, TableOk, SlotsLead, Caused, Awaited, FirstMatch, Greeting;
      ghost var v, ident, before := V(), link.ipIdentifier, link.sent;
      ghost var first := Answer(connections[id], sequence, SYN);
      SelfLeads(v);
      var waiting := 0;
      waits := 0;
      while true
        invariant 0 <= waiting <= timeout && waits == waiting
        invariant Valid() && Leads(v, V()) && before <= link.sent
        invariant if waiting == 0 then unchanged(this, connections, link)
                  else Began(w.station, ident, before, link.sent, first)
        decreases timeout - waiting
      {
        ghost var a, s := V(), link.sent;
        if waiting % 300 == 0 {
          TcpSendBare(id, sequence, SYN);
          if waiting == 0 { AnsweredBegins(w.station, ident, before, link.sent, first); }
        }
        ghost var s' := link.sent;
        if waiting > 0 { BeganGrows(w.station, ident, before, s, s', first); }
        ok, t, mid := TcpWaitPacket(id, Wrap32(sequence as int + 1), SYN + ACK);
        waits := waits + 1;
        BeganGrows(w.station, ident, before, s', link.sent, first);
        if ok {
          LeadsTransitive(v, a, mid);
          return;
        }
        LeadsTransitive(v, a, V());
        waiting := waiting + 1;
        if waiting > timeout {
          break;
        }
      }
    }

    /** The first statements of `TcpConnect`: the slot is taken. */
    method TcpBeginOpen(id: byte, ip: Ip, remotePort: u16)
      requires Ready() && id < connections.Length && connections[id].state == NoConnection
      modifies this`nextPort, this`hist, this`opening, this`marks, connections
      ensures Valid() && Aside(old(V()), V(), id as nat) && opening == Some(id as nat)
      ensures nextPort == DynamicPort(|marks.dials|)
      ensures connections[id] == old(connections[id]).(ip := ip, port := old(nextPort), remotePort := remotePort,
                                                       sendSequence := 2, expectedSequence := 0, state := New)
      ensures hist[id] == Reopened(old(hist)[id], Active(|old(marks).dials|), 0, 0, true)
      ensures marks.dials == old(marks).dials + [Dial(ip, remotePort)] && marks.loose == old(marks).loose
      ensures nextPort == if old(nextPort) == MAX_PORT then MIN_DYNAMIC_PORT else old(nextPort) as int + 1
    {
      hide Inv, Aside, Apart, BeginOpen, Reopened;
      Sizes();
      ghost var v := V();
      connections[id] := connections[id].(ip := ip);
      connections[id] := connections[id].(port := nextPort);
      connections[id] := connections[id].(remotePort := remotePort);
      connections[id] := connections[id].(sendSequence := 2);
      connections[id] := connections[id].(expectedSequence := 0);
      connections[id] := connections[id].(state := New);
      nextPort := if nextPort == MAX_PORT then MIN_DYNAMIC_PORT else nextPort as int + 1;
      ghost var u := BeginOpen(v, id, connections[id]);
      BeginOpenStep(w, v, id, connections[id]);
      BeginOpenIs(v, id, connections[id]);
      hist, opening, marks := u.hist, u.opening, u.marks;
      assert V() == u;
    }

    /** `TcpConnect` fails. */
    method TcpAbortOpen(id: byte)
      requires Valid() && id < connections.Length && opening == Some(id as nat) && connections[id].state != Dyeing
      modifies this`opening, this`hist, connections
      ensures Valid() && V() == AbortOpen(old(V()), id) && Aside(old(V()), V(), id as nat)
    {
      ghost var v := V();
      hide Owned, SlotsOk, TableOk, Caused, Aside;
      AbortOpenStep(w, v, id);
      hist := AbortOpen(v, id).hist;
      connections[id] := connections[id].(state := NoConnection);
      opening := None;
      assert V() == AbortOpen(v, id);
    }

    /** `TcpConnect` succeeds with the SYN-ACK of poll `t`: its number is in the record, its option is taken
        from the buffer. Then the application is told. */
    method TcpFinishOpen(id: byte, ghost t: nat)
      requires Valid() && id < connections.Length && opening == Some(id as nat) && connections[id].state != Dyeing
      requires t < link.now
      requires hist[id].clean ==>
                 var c := connections[id];
                 hist[id].birth.Active? && Answered(w, c.(expectedSequence := Wrap32(c.expectedSequence as int + 1)), t,
                     link.now)
      modifies this`calls, this`hist, this`opening, this`marks, connections, link`ipIdentifier, link`sent, link.buffer
      ensures Valid() && old(link.sent) <= link.sent && Aside(old(V()), V(), id as nat) && V().opening == None
      ensures var v, c := old(V()), connections[id];
              c == v.conns[id].(state := Established, maxSegmetSize := c.maxSegmetSize,
                                expectedSequence := Wrap32(v.conns[id].expectedSequence as int + 1))
              && 1 <= c.maxSegmetSize <= w.station.MaxSegmentSize() && V() == EndOpen(v, id, c, t)
              && (HeaderOptionsOk(old(link.buffer[..])) ==>
                  c.maxSegmetSize == AnnouncedMss(w.station, old(link.buffer[..])))
      ensures marks.dials == old(marks).dials && marks.loose == old(marks).loose && calls == old(calls) + 1
      ensures Replied(w.station, old(link.ipIdentifier), old(link.sent), link.sent,
                      AckOfSlot(connections[id].(state := old(connections[id]).state)))
    {
      hide TcpAccepts, IsSegment, Owned, SlotsOk, TableOk, Caused, Aside, FromEnds, Replied, EndOpen, OptionsOk;
      ghost var v := V();
      var mss := TcpGetMaxSegmentSize();
      connections[id] := connections[id].(maxSegmetSize := mss);
      ghost var ident, before := link.ipIdentifier, link.sent;
      var expected := TcpSendAck(id, connections[id].expectedSequence, 1);
      ReplyGrows(w.station, ident, before, link.sent, AckOfSlot(connections[id]));
      TcpMarkOpen(id, t, v);
    }

    /** The connection that was being opened is established. `v` is the table before its record was completed. */
    method TcpMarkOpen(id: byte, ghost t: nat, ghost v: View)
      requires Wired() && Inv(w, v) && id < connections.Length && |v.conns| == connections.Length
      requires v.opening == Some(id as nat)
      requires v.conns[id].state != Dyeing && t < v.now
      requires 1 <= connections[id].maxSegmetSize <= w.station.MaxSegmentSize()
      requires v.hist[id].clean ==>
                 var c := v.conns[id];
                 v.hist[id].birth.Active? && Answered(w, c.(expectedSequence := Wrap32(c.expectedSequence as int + 1)),
                     t, v.now)
      requires V() == v.Set(id, v.conns[id].(maxSegmetSize := connections[id].maxSegmetSize,
                                             expectedSequence := Wrap32(v.conns[id].expectedSequence as int + 1)),
                           v.hist[id])
      modifies this`calls, this`hist, this`opening, this`marks, connections
      ensures connections[id] == old(connections[id]).(state := Established)
      ensures Valid() && V() == EndOpen(v, id, connections[id], t) && Aside(v, V(), id as nat) && opening == None
      ensures marks.dials == v.marks.dials && marks.loose == v.marks.loose && calls == v.calls + 1
    {
      hide TcpAccepts, Owned, SlotsOk, TableOk, Caused, Aside, FromEnds;
      connections[id] := connections[id].(state := Established);
      ghost var c := connections[id];
      EndsSame(w, v.conns[id], c, t, v.now, v.hist[id].clean);
      EndOpenStep(w, v, id, c, t);
      hist, marks, opening := EndOpen(v, id, c, t).hist, EndOpen(v, id, c, t).marks, None;
      calls := calls + 1;
      assert V() == EndOpen(v, id, c, t);
    }

    /** `TcpConnect` looks up the link address and takes the sequence number of its SYN. */
    method TcpResolve(id: byte, ip: Ip) returns (found: bool, sequence: u32)
      requires Valid() && id < connections.Length && opening == Some(id as nat)
      modifies this`calls, this`hist, this`closing, this`marks, connections, link, link.buffer, cache.rows
      ensures Valid() && Aside(old(V()), V(), id as nat) && opening == old(opening) && old(link.sent) <= link.sent
      ensures marks.dials == old(marks).dials && marks.loose == old(marks).loose && closing == old(closing)
      ensures found && hist[id].clean ==>
                hist[id] == old(hist)[id] && sequence == old(connections[id]).sendSequence
                && connections[id] == old(connections[id]).(mac := connections[id].mac,
                    sendSequence := Wrap32(sequence as int + 1))
    {
      hide Inv, SlotsLead, Aside, After, Resolve, Possible, Rewrite, Wrap32;
      Sizes();
      ghost var o := V();
      var mac;
      ghost var l;
      found, mac, l := ArpWhoIs(ip);
      ghost var a := V();
      LeadsAside(o, a, id as nat);
      sequence := 0;
      if !found {
        return;
      }
      if a.hist[id].clean { OpeningFrozen(o, a, id as nat); }
      sequence := TcpNameSlot(id, mac);
      AsideTransitive(o, a, V(), id as nat);
    }

    /** The link address is written into the slot that is being opened, and the SYN takes its number. */
    method TcpNameSlot(id: byte, mac: Mac) returns (sequence: u32)
      requires Valid() && id < connections.Length && opening == Some(id as nat)
      modifies this`marks, connections
      ensures Valid() && Aside(old(V()), V(), id as nat) && sequence == old(connections[id]).sendSequence
      ensures connections[id] == old(connections[id]).(mac := mac, sendSequence := Wrap32(sequence as int + 1))
      ensures V() == Rewrite(old(V()), id, connections[id])
      ensures marks.dials == old(marks).dials && marks.loose == old(marks).loose && hist[id] == old(hist)[id]
    {
      hide Inv, Apart, Aside;
      ghost var v := V();
      NewOrUnclean(v, id);
      connections[id] := connections[id].(mac := mac);
      sequence := connections[id].sendSequence;
      connections[id] := connections[id].(sendSequence := Wrap32(connections[id].sendSequence as int + 1));
      OpeningStep(w, v, id, connections[id]);
      marks := Rewrite(v, id, connections[id]).marks;
      assert V() == Rewrite(v, id, connections[id]);
    }

    lemma NewOrUnclean(v: View, id: byte)
      requires Inv(w, v) && v.IsOpening(id as nat)
      ensures id < |v.conns| == |v.hist| && (v.conns[id].state == Established ==> !v.hist[id].clean)
    {
      hide Owned, SlotsOk, Caused;
    }

    /** `TcpConnect` from its SYN on: the connection is established, or the slot is given back. */
    method TcpHandshake(id: byte, sequence: u32, timeout: Timeout) returns (ok: bool, ghost t: nat)
      requires Valid() && id < connections.Length && opening == Some(id as nat) && connections[id].state != Dyeing
      requires hist[id].clean ==> hist[id].birth.Active? && connections[id].sendSequence == Wrap32(sequence as int + 1)
      modifies this`calls, this`hist, this`closing, this`marks, this`opening, connections, link, link.buffer
      ensures Valid() && opening == None && Aside(old(V()), V(), id as nat) && old(link.sent) <= link.sent
      ensures marks.dials == old(marks).dials && marks.loose == old(marks).loose && calls >= old(calls)
      ensures !ok ==> connections[id].state == NoConnection
      ensures ok ==> Won(V(), id, t) && calls > 0 && (hist[id].clean ==>
                && old(hist)[id].clean && hist[id].trace == old(hist)[id].trace + [Connected]
                && hist[id].syn == t == hist[id].ack && AckOf(w.supply(t)) == Wrap32(sequence as int + 1)
                && EndsOf(connections[id]) == EndsOf(old(connections[id]))
                && connections[id].sendSequence == old(connections[id]).sendSequence)
    {
      hide Owned, SlotsOk, TableOk, SlotsLead, Caused, Aside, TcpAccepts, HasAllFlags, Replied, Began, FirstMatch;
      hide Won, EndOpen, Answered, Awaited, Matches, FromEnds;
      ghost var b := V();
      ghost var mid, waits;
      ok, t, mid, waits := TcpSendSyn(id, sequence, timeout);
      ghost var z := V();
      if !ok {
        LeadsAside(b, z, id as nat);
        StaysOutOfClosing(b, z, id);
        TcpAbortOpen(id);
        AsideTransitive(b, z, V(), id as nat);
        return;
      }
      GreetedSlot(b, mid, z, id, t, sequence);
      StaysOutOfClosing(b, z, id);
      TcpFinishOpen(id, t);
      WonNow(b, mid, z, V(), id, t, sequence);
      AsideTransitive(b, z, V(), id as nat);
    }

    lemma WonNow(b: View, mid: View, z: View, won: View, id: byte, t: nat, sequence: u32)
      requires w.station.Valid() && id < |z.conns| == |z.hist| && id < |b.conns| == |b.hist| && id < |won.conns|
      requires id < |mid.conns| && Awaited(mid.conns[id], t, Wrap32(sequence as int + 1), SYN + ACK)
      requires z.hist[id].clean ==> b.hist[id] == z.hist[id] && b.hist[id].birth.Active?
                                    && Matches(w.supply(t), z.conns[id])
                                    && z.conns[id] == b.conns[id].(expectedSequence := w.SequenceAt(t))
      requires var c := won.conns[id];
               c == z.conns[id].(state := Established, maxSegmetSize := c.maxSegmetSize,
                                 expectedSequence := Wrap32(z.conns[id].expectedSequence as int + 1))
               && 1 <= c.maxSegmetSize <= w.station.MaxSegmentSize() && won == EndOpen(z, id, c, t)
      ensures Won(won, id, t) && won.calls > 0 && (won.hist[id].clean ==>
                && b.hist[id].clean && won.hist[id].trace == b.hist[id].trace + [Connected]
                && won.hist[id].syn == t == won.hist[id].ack && AckOf(w.supply(t)) == Wrap32(sequence as int + 1)
                && EndsOf(won.conns[id]) == EndsOf(b.conns[id])
                && won.conns[id].sendSequence == b.conns[id].sendSequence)
    {
      hide TcpAccepts, Apart;
    }

    /** A slot that awaited its SYN-ACK at `mid`, and whatever was handled behind it. */
    lemma GreetedSlot(b: View, mid: View, z: View, id: byte, t: nat, sequence: u32)
      requires Inv(w, b) && Inv(w, z) && b.opening == Some(id as nat) && id < |b.conns| && Leads(b, mid)
      requires Leads(Greeting(mid, id, t), z)
      requires Awaited(mid.conns[id], t, Wrap32(sequence as int + 1), SYN + ACK) && mid.now == t + 1
      requires b.hist[id].clean ==> b.conns[id].sendSequence == Wrap32(sequence as int + 1)
      ensures Aside(b, z, id as nat) && z.opening == b.opening && z.closing == b.closing && t < z.now
      ensures z.marks.dials == b.marks.dials && z.marks.loose == b.marks.loose
      ensures z.calls >= b.calls
      ensures z.hist[id].clean ==>
                && b.hist[id] == z.hist[id] && z.conns[id] == b.conns[id].(expectedSequence := w.SequenceAt(t))
                && Matches(w.supply(t), z.conns[id])
                && Answered(w, z.conns[id].(expectedSequence := Wrap32(z.conns[id].expectedSequence as int + 1)), t,
                    z.now)
    {
      hide Owned, SlotsOk, TableOk, SlotsLead, Caused, Aside, TcpAccepts;
      var u := Greeting(mid, id, t);
      LeadsAside(b, mid, id as nat);
      assert u == mid.Set(id, u.conns[id], u.hist[id]);
      SetAside(mid, u, id as nat);
      LeadsAside(u, z, id as nat);
      AsideTransitive(b, mid, u, id as nat);
      AsideTransitive(b, u, z, id as nat);
      if z.hist[id].clean {
        OpeningFrozen(u, z, id as nat);
        OpeningFrozen(b, mid, id as nat);
        assert HasFlag(SYN + ACK, 0x02);
      }
    }

    /** A new connection right after its handshake; the SYN-ACK came at poll `t` unless a SYN hit the slot. */
    ghost predicate Won(won: View, id: byte, t: nat)
    {
      w.station.Valid() && id < |won.conns| && id < |won.hist| && won.conns[id].state == Established
      && 1 <= won.conns[id].maxSegmetSize <= w.station.MaxSegmentSize()
      && won.hist[id].written == [] && won.hist[id].accepted == [] && won.hist[id].exact && won.hist[id].alone
      && won.hist[id].base == won.conns[id].expectedSequence && w.IsTcp(t) && TcpAccepts(w.supply(t))
      && HasAllFlags(Flags(w.supply(t)), SYN + ACK)
      && (won.hist[id].clean ==>
            Matches(w.supply(t), won.conns[id]) && won.conns[id].expectedSequence == Wrap32(w.SequenceAt(t) as int + 1))
    }

    /** `TcpConnect`. `won` is the table when the handshake was complete, `t` the poll of the SYN-ACK. */
    method TcpConnect(ip: Ip, remotePort: u16, timeout: Timeout) returns (id: byte, ghost won: View, ghost t: nat)
      requires Ready()
      modifies this, connections, link, link.buffer, cache.rows
      ensures Ready() && old(link.sent) <= link.sent && Aside(old(V()), V(), FirstEmpty(old(connections[..])))
      ensures FirstEmpty(old(connections[..])) == connections.Length ==>
                id == INVALID_CONNECTION_ID && unchanged(this, connections, link, cache.rows)
      ensures FirstEmpty(old(connections[..])) < connections.Length ==>
                marks.dials == old(marks).dials + [Dial(ip, remotePort)] && marks.loose == old(marks).loose
      ensures id == INVALID_CONNECTION_ID && FirstEmpty(old(connections[..])) < connections.Length ==>
                connections[FirstEmpty(old(connections[..]))].state == NoConnection
      ensures id != INVALID_CONNECTION_ID ==>
                && id as nat == FirstEmpty(old(connections[..])) < connections.Length && Won(won, id, t)
                && Leads(won, V())
                && (won.hist[id].clean ==>
                      && won.conns[id].port == old(nextPort) && won.conns[id].remotePort == remotePort
                      && won.conns[id].ip == ip
                      && won.conns[id].sendSequence == 3 == AckOf(w.supply(t))
                      && won.hist[id].trace == old(hist)[id].trace + [Connected])
    {
      hide Owned, SlotsOk, TableOk, SlotsLead, Caused, Aside, Won, Replied, FirstEmpty;
      ghost var v := V();
      won, t := v, 0;
      SelfAside(v, FirstEmpty(v.conns));
      id := TcpGetEmptyConnectionId();
      if id == INVALID_CONNECTION_ID {
        return;
      }
      TcpBeginOpen(id, ip, remotePort);
      ghost var o := V();
      var ok;
      ok, t := TcpOpen(id, ip, timeout);
      won := V();
      AsideTransitive(v, o, won, id as nat);
      if !ok {
        return INVALID_CONNECTION_ID, won, t;
      }
      RunCallback(w.app.onConnect(calls - 1), calls - 1);
      LeadsAside(won, V(), id as nat);
      AsideTransitive(v, won, V(), id as nat);
    }

    /** The rest of `TcpConnect`, up to its callback: the slot has been taken. */
    method TcpOpen(id: byte, ip: Ip, timeout: Timeout) returns (ok: bool, ghost t: nat)
      requires Valid() && id < connections.Length && opening == Some(id as nat) && connections[id].state == New
      requires hist[id].birth.Active? && connections[id].sendSequence == 2
      modifies this`calls, this`hist, this`closing, this`marks, this`opening, connections, link, link.buffer, cache.rows
      ensures Valid() && opening == None && Aside(old(V()), V(), id as nat) && old(link.sent) <= link.sent
      ensures marks.dials == old(marks).dials && marks.loose == old(marks).loose
      ensures !ok ==> connections[id].state == NoConnection
      ensures ok ==> Won(V(), id, t) && calls > 0 && (hist[id].clean ==>
                && hist[id].trace == old(hist)[id].trace + [Connected] && AckOf(w.supply(t)) == 3
                && connections[id].port == old(connections[id]).port
                && connections[id].remotePort == old(connections[id]).remotePort
                && connections[id].ip == old(connections[id]).ip && connections[id].sendSequence == 3)
    {
      hide Owned, SlotsOk, TableOk, SlotsLead, Caused, Aside, Won;
      ghost var o := V();
      t := 0;
      var sequence;
      ok, sequence := TcpResolve(id, ip);
      ghost var b := V();
      StaysOutOfClosing(o, b, id);
      if !ok {
        TcpAbortOpen(id);
        AsideTransitive(o, b, V(), id as nat);
        return;
      }
      if b.hist[id].clean { OpeningIsNew(w, b, id); }
      ok, t := TcpHandshake(id, sequence, timeout);
      AsideTransitive(o, b, V(), id as nat);
    }

    lemma AnnouncedSame(f: seq<byte>, q: seq<byte>)
      requires Wired() && Heads(f, q) && TcpSized(f) && HeaderOptionsOk(f) && TcpSized(q)
      ensures HeaderOptionsOk(q) && AnnouncedMss(w.station, f) == AnnouncedMss(w.station, q)
    {
      HeadReads(f, q);
      HeadTcp(f, q);
      MssFits(f, 54, DataPosition(f));
      assert forall k | 0 <= k < |f| :: q[k] == f[k];
    }
  }

  /** What the SYN-ACK gave a record it still gives when the rest of the record is complete. */
  lemma EndsSame(w: World, c0: TcpConnection, c: TcpConnection, t: nat, now: nat, clean: bool)
    requires clean ==> Answered(w, c0.(expectedSequence := Wrap32(c0.expectedSequence as int + 1)), t, now)
    requires c == c0.(maxSegmetSize := c.maxSegmetSize, state := c.state,
              expectedSequence := Wrap32(c0.expectedSequence as int + 1))
    ensures clean ==> Answered(w, c, t, now)
  {
    assert EndsOf(c) == EndsOf(c0.(expectedSequence := Wrap32(c0.expectedSequence as int + 1)));
    hide FromEnds;
  }

  lemma SilentReply(s: Station, ident: u16, sent: seq<seq<byte>>)
    ensures Replied(s, ident, sent, sent, Silent)
  {
  }

  lemma SilentBegins(s: Station, ident: u16, before: seq<seq<byte>>, after: seq<seq<byte>>)
    requires before <= after
    ensures Began(s, ident, before, after, Silent)
  {
  }

  lemma ReplyGrows(s: Station, ident: u16, before: seq<seq<byte>>, after: seq<seq<byte>>, reply: Reply)
    requires Replied(s, ident, before, after, reply)
    ensures before <= after
  {
    hide IsSegment, IsUnreachable;
  }

  lemma {:induction false} FirstMatchSame(conns: seq<TcpConnection>, f: seq<byte>, q: seq<byte>)
    requires HasHeaders(f) && HasHeaders(q) && TargetPort(q) == TargetPort(f) && SourcePort(q) == SourcePort(f)
    requires SourceIp(q) == SourceIp(f) && SourceMac(q) == SourceMac(f)
    ensures FirstMatch(conns, f) == FirstMatch(conns, q)
  {
    if conns != [] {
      FirstMatchSame(conns[..|conns| - 1], f, q);
    }
  }

  lemma {:induction false} MssFits(p: seq<byte>, i: nat, end: nat)
    requires end <= |p| && OptionsOk(p, i, end)
    ensures var at := FirstOption(Options(p, i, end), 2); at != 0 ==> at + 4 <= end
    decreases end - i
  {
    if i < end && p[i] != 0 {
      var next := i + if p[i] == 1 then 1 else p[i + 1] as int;
      assert Options(p, i, end)[1..] == Options(p, next, end);
      MssFits(p, next, end);
    }
  }
}
