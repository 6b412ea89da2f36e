/**
 The theorems for the engine itself: for whole programs from a freshly initialised stack, and for one
 call of `TcpSendData`.
 */
module TcpRuns {
  import opened Util
  import opened Addresses
  import opened Frame
  import opened TcpTypes
  import opened LinkLayer
  import opened TcpSpec
  import opened TcpSteps
  import opened TcpEngine
  import opened TcpTheorems

  // ----- whole programs ------------------------------------------------------------------------

  /** What a main program does: turns of the main loop, opens, sends and closes. */
  datatype Operation =
    | Turn
    | Open(ip: Ip, remotePort: u16, connectTimeout: Timeout)
    | Write(to: byte, sendTimeout: Timeout, data: Memory)
    | Shut(which: byte, closeTimeout: Timeout)

  /** Every slot keeps its callbacks in order. */
  ghost predicate Lifecycles(v: View)
    requires |v.conns| == |v.hist|
  {
    forall i | 0 <= i < |v.conns| :: Lifecycle(v.conns[i], v.hist[i].trace)
  }

  /** All that was dialled is in the program. */
  ghost predicate Dialled(program: seq<Operation>, dials: seq<Dial>)
  {
    forall d | d in dials :: exists k :: 0 <= k < |program| && program[k].Open?
                                         && Dial(program[k].ip, program[k].remotePort) == d
  }

  /** All sends of the program are from memory that does not change. */
  ghost predicate AllSteady(program: seq<Operation>)
  {
    forall k | 0 <= k < |program| && program[k].Write? :: program[k].data.Steady()
  }

  /** Every open connection has passed on a prefix of the stream its peer sends. */
  ghost predicate Prefixes(w: World, v: View)
    requires |v.conns| == |v.hist|
  {
    forall i, stream | 0 <= i < |v.conns| && v.conns[i].state == Established && PeerStreams(w, v, i, stream) ::
      Delivered(v.hist[i].trace) <= stream
  }

  /** Whatever an honest peer of an open connection holds is a prefix of what was written to it. */
  ghost predicate HeldPrefixes(v: View)
    requires |v.conns| == |v.hist|
  {
    forall i, held | 0 <= i < |v.conns| && v.conns[i].state == Established && |v.hist[i].written| < 0x1_0000_0000
                     && HeldFrom(held, v.hist[i]) :: held <= v.hist[i].written
  }

  /** What a stack promises, each thing unless something happened that is marked, and for each mark there is a
      cause in what came from outside. */
  ghost predicate Promises(w: World, v: View)
  {
    |v.conns| == |v.hist| && |v.closing| == 0 && Caused(w, |v.conns|, v.now, v.calls, v.marks)
    && (!v.marks.crossed ==> Lifecycles(v))
    && (!v.marks.crossed && !v.marks.stirred ==> Prefixes(w, v))
    && (!v.marks.crossed && !v.marks.hung && !v.marks.shifted ==> HeldPrefixes(v))
    && (v.marks.distinct ==> Unambiguous(v.conns))
  }

  lemma PromisesKept(w: World, v: View)
    requires Inv(w, v) && v.closing == []
    ensures Promises(w, v)
  {
    hide Inv, Caused, Grouped, GroupOpen, PeerStreams, HeldFrom, Delivered;
    InvCaused(w, v);
    SameSizes(w, v);
    if v.conns != [] { Unmarked(w, v, 0); }
    if !v.marks.crossed {
      forall i | 0 <= i < |v.conns|
        ensures Lifecycle(v.conns[i], v.hist[i].trace)
      {
        Unmarked(w, v, i);
        LifecycleOfSlot(w, v, i);
      }
      forall i, stream | 0 <= i < |v.conns| && v.conns[i].state == Established && PeerStreams(w, v, i, stream)
          && !v.marks.stirred
        ensures Delivered(v.hist[i].trace) <= stream
      {
        Unmarked(w, v, i);
        DeliveryOfSlot(w, v, i, stream);
      }
      forall i, held | 0 <= i < |v.conns| && v.conns[i].state == Established && |v.hist[i].written| < 0x1_0000_0000
                       && HeldFrom(held, v.hist[i]) && !v.marks.hung && !v.marks.shifted
        ensures held <= v.hist[i].written
      {
        Unmarked(w, v, i);
        HeldIsPrefix(w, v, i, held);
      }
    }
  }

  lemma SameSizes(w: World, v: View)
    requires Inv(w, v)
    ensures |v.conns| == |v.hist| > 0
  {
  }

  lemma NoneDialled(program: seq<Operation>)
    ensures Dialled(program, [])
  {
  }

  lemma MoreDialled(program: seq<Operation>, dials: seq<Dial>, k: nat)
    requires Dialled(program, dials) && k < |program| && program[k].Open?
    ensures Dialled(program, dials + [Dial(program[k].ip, program[k].remotePort)])
  {
  }

  /** Every program, from initialisation, over every supply of frames and with every application. */
  method Run(w: World, size: nat, cacheSize: nat, program: seq<Operation>) returns (s: Stack)
    requires w.Valid() && 0 < size <= 254 && 0 < cacheSize <= 255
    ensures s.Ready() && s.w == w && s.connections.Length == size
    ensures Promises(w, s.V())
    ensures |s.marks.dials| <= |program| && Dialled(program, s.marks.dials)
    ensures AllSteady(program) ==> !s.marks.loose
  {
    hide Inv, Promises, Dialled;
    s := new Stack(w, size, cacheSize);
    NoneDialled(program);
    var k := 0;
    while k < |program|
      invariant 0 <= k <= |program| && s.Ready() && s.closing == [] && |s.marks.dials| <= k
      invariant Dialled(program, s.marks.dials) && (AllSteady(program) ==> !s.marks.loose)
      invariant s.w == w && s.connections.Length == size && fresh(s) && fresh(s.link) && fresh(s.link.buffer)
      invariant fresh(s.connections) && fresh(s.cache.rows)
    {
      match program[k] {
        case Turn =>
          s.NetHandleNetwork();
        case Open(ip, remotePort, timeout) =>
          var id;
          ghost var won, t, dials := s.V(), 0, s.marks.dials;
          id, won, t := s.TcpConnect(ip, remotePort, timeout);
          MoreDialled(program, dials, k);
        case Write(id, timeout, data) =>
          var ok;
          ghost var t, parts;
          ok, t, parts := s.TcpSendData(id, timeout, data, false);
        case Shut(id, timeout) =>
          var ok := s.TcpDisconnect(id, timeout, false);
      }
      k := k + 1;
    }
    PromisesKept(w, s.V());
  }

  // ----- one send ------------------------------------------------------------------------------

  /** At poll `t` the peer of a connection acknowledges exactly the bytes `held` it holds in order. */
  ghost predicate HonestAt(w: World, h: History, held: seq<byte>, t: nat)
  {
    HeldFrom(held, h) && w.AckAt(t) == Wrap32(h.sendBase as int + |held|)
  }

  /** A call of `TcpSendData` on an established connection that is not closed meanwhile, on which no callback
      sends, and from memory that does not change. What an honest peer holds afterwards is at most what it was
      sent before and the data; and when the call returns 1, the peer's stream has grown by exactly the data. */
  method SendReliably(s: Stack, id: byte, timeout: Timeout, memory: Memory)
    returns (ok: bool, ghost t: nat, ghost parts: seq<seq<byte>>)
    requires s.Ready() && Sender(s.w, s.V(), id) && |s.hist[id].written| + memory.length < 0x1_0000_0000
    modifies s`calls, s`hist, s`closing, s`marks, s.connections, s.link, s.link.buffer
    ensures s.Ready() && id < s.connections.Length && |s.hist| == s.connections.Length
    ensures Undisturbed(s, old(s.V()), s.V(), id, memory, parts) ==>
              Concat(parts) <= memory.at(0) && s.hist[id].written == old(s.hist)[id].written + Concat(parts)
              && forall held | HeldFrom(held, s.hist[id]) :: held <= old(s.hist)[id].written + memory.at(0)
    ensures ok && Undisturbed(s, old(s.V()), s.V(), id, memory, parts) ==>
              s.hist[id].written == old(s.hist)[id].written + memory.at(0)
              && forall held | HonestAt(s.w, s.hist[id], held, t) :: held == old(s.hist)[id].written + memory.at(0)
  {
    hide Owned, SlotsOk, TableOk, Caused, HeldFrom, SlotsLead, CutFrom;
    ghost var v := s.V();
    ok, t, parts := s.TcpSendData(id, timeout, memory, false);
    ghost var u := s.V();
    if Undisturbed(s, v, u, id, memory, parts) {
      var data := memory.at(0);
      assert Lent(v, memory, false) == v;
      CutFromSteady(memory, parts);
      StillSender(s, v, u, id, parts);
      forall held | HeldFrom(held, u.hist[id])
        ensures held <= v.hist[id].written + data
      {
        HeldIsPrefix(s.w, u, id, held);
        assert v.hist[id].written + Concat(parts) <= v.hist[id].written + data;
      }
      if ok {
        assert Concat(parts) == data;
        forall held | HonestAt(s.w, u.hist[id], held, t)
          ensures held == v.hist[id].written + data
        {
          ReliableSend(s.w, u, id, held, s.w.AckAt(t));
        }
      }
    }
  }

  /** Nothing else was sent on the slot, it was not closed, and nothing was sent with other bytes than before. */
  ghost predicate Undisturbed(s: Stack, v: View, u: View, id: byte, memory: Memory, parts: seq<seq<byte>>)
  {
    s.Undivided(v, u, id, parts) && memory.Steady() && !u.marks.shifted
  }

  /** The connection is still a sender after a send that nothing disturbed. */
  lemma StillSender(s: Stack, v: View, u: View, id: byte, parts: seq<seq<byte>>)
    requires Sender(s.w, v, id) && Inv(s.w, u) && Leads(v, u) && v.opening == None && s.Sent(v, u, id, parts)
    requires s.Undivided(v, u, id, parts) && !u.marks.shifted
    requires |v.hist[id].written| + |Concat(parts)| < 0x1_0000_0000
    ensures Sender(s.w, u, id) && u.hist[id].written == v.hist[id].written + Concat(parts)
  {
    hide Owned, SlotsOk, TableOk, Caused;
    assert SlotLeads(v.conns[id], v.hist[id], u.conns[id], u.hist[id], false, u.marks)
        by { assert !v.IsOpening(id); }
  }
}
