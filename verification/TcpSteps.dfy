/**
 The steps of the connection table, each with the proof that it keeps the invariant and respects
 what other calls may rely on while they wait, and `React`: what one packet does when nothing waits.
 */
module TcpSteps {
  import opened Util
  import opened Addresses
  import opened Frame
  import opened TcpTypes
  import opened LinkLayer
  import opened TcpSpec

  // ----- a SYN from outside --------------------------------------------------------------------

  /** The segment size taken from a SYN: the announced one, the maximum for none or 0, never more. */
  function AnnouncedMss(s: Station, p: seq<byte>): u16
    requires s.Valid() && HasHeaders(p) && HeaderOptionsOk(p)
  {
    var at := FirstOption(HeaderOptions(p), 2);
    var announced := if at != 0 && at + 4 <= |p| then ShortAt(p, at + 2) else 0;
    if announced == 0 || announced > s.MaxSegmentSize() then s.MaxSegmentSize() else announced
  }

  /** Whatever the peer announces, segments are neither empty nor longer than the buffer allows. */
  lemma AnnouncedMssFits(s: Station, p: seq<byte>)
    requires s.Valid() && HasHeaders(p) && HeaderOptionsOk(p)
    ensures 1 <= AnnouncedMss(s, p) <= s.MaxSegmentSize()
  {
  }

  /** `TcpGetConnectionId` opens a slot for a SYN. */
  function Opened(s: Station, p: seq<byte>): TcpConnection
    requires s.Valid() && TcpSized(p) && HeaderOptionsOk(p)
  {
    TcpConnection(2, Wrap32(SequenceOf(p) as int + 1), TargetPort(p), SourcePort(p), AnnouncedMss(s, p), New,
                  SourceIp(p), SourceMac(p))
  }

  function Reopened(h: History, birth: Birth, syn: nat, base: u32, clean: bool): History
  {
    h.(clean := clean, birth := birth, syn := syn, base := base, accepted := [], exact := true, sendBase := 0,
       written := [], parts := 0, transmissions := [], alone := true)
  }

  function AcceptedHistory(v: View, e: nat, p: seq<byte>, t: nat): History
    requires e < |v.hist| && HasHeaders(p)
  {
    Reopened(v.hist[e], Passive, t, Wrap32(SequenceOf(p) as int + 1), !v.IsOpening(e))
  }

  function Accept(s: Station, v: View, e: nat, p: seq<byte>, t: nat): View
    requires s.Valid() && TcpSized(p) && HeaderOptionsOk(p) && e < |v.conns| && e < |v.hist|
  {
    v.Set(e, Opened(s, p), AcceptedHistory(v, e, p, t))
  }

  function WithState(v: View, i: nat, s: State): View
    requires i < |v.conns| && i < |v.hist|
  {
    v.Set(i, v.conns[i].(state := s), v.hist[i])
  }

  /** A bare SYN hits the slot that is being opened. */
  predicate Crosses(v: View, p: seq<byte>)
    requires HasHeaders(p)
  {
    Flags(p) == SYN && v.opening.Some? && v.opening.value < |v.conns| && FirstMatch(v.conns, p) == v.opening.value
  }

  /** That is remembered. */
  function Noted(v: View, p: seq<byte>): View
    requires HasHeaders(p) && |v.hist| == |v.conns|
  {
    if Crosses(v, p) then
      var o := v.opening.value;
      v.(marks := v.marks.(crossed := true), hist := v.hist[o := v.hist[o].(clean := false)])
    else v
  }

  /** Poll `t` brought TCP frame `p` with a correct checksum. */
  ghost predicate Brought(w: World, t: nat, p: seq<byte>, now: nat)
  {
    t < now && p == w.supply(t) && w.IsTcp(t) && TcpAccepts(p)
  }

  lemma NotedStep(w: World, v: View, p: seq<byte>, t: nat)
    requires Inv(w, v) && Brought(w, t, p, v.now)
    ensures Inv(w, Noted(v, p)) && Leads(v, Noted(v, p)) && Noted(v, p).conns == v.conns
    ensures Flags(p) == SYN && v.opening.Some? && FirstMatch(v.conns, p) == v.opening.value
            ==> !Noted(v, p).hist[v.opening.value].clean
  {
    hide Owned, SlotsOk, TableOk, SlotsLead, FirstMatch, TcpAccepts;
    SelfLeads(v);
    if Crosses(v, p) {
      var o := v.opening.value;
      var m := v.marks.(crossed := true);
      CrossingCaused(w, v, p, t);
      LaterStep(w, v, v.now, v.calls, m);
      var u := Later(v, v.now, v.calls, m);
      UncleanStep(w, u, o);
      assert Noted(v, p) == u.Set(o, u.conns[o], u.hist[o].(clean := false));
      LeadsTransitive(v, u, Noted(v, p));
    }
  }

  lemma CrossingCaused(w: World, v: View, p: seq<byte>, t: nat)
    requires Inv(w, v) && Brought(w, t, p, v.now) && Crosses(v, p)
    ensures Caused(w, |v.conns|, v.now, v.calls, v.marks.(crossed := true))
  {
    hide Owned, TcpAccepts, Story, Ordered, HungBefore, StirredBefore, LooseBefore, AcksBefore;
    var o, n := v.opening.value, |v.marks.dials|;
    OneSlot(w, v, o);
    if v.hist[o].clean {
      assert SynFrom(w, DynamicPort(n - 1), v.marks.dials[n - 1], t);
    }
  }

  /** A slot being opened is no longer clean. */
  lemma UncleanStep(w: World, v: View, o: nat)
    requires Inv(w, v) && v.opening == Some(o) && v.marks.crossed
    ensures var v' := v.Set(o, v.conns[o], v.hist[o].(clean := false)); Inv(w, v') && Leads(v, v')
  {
    OneSlot(w, v, o);
    hide Owned, Caused, Greeted, Confirmed, OutStep, InStep, SlotsOk, TableOk;
    var h := v.hist[o].(clean := false);
    SlotStep(w, v, o, v.conns[o], h);
    SlotStepLeads(v, o, v.conns[o], h);
  }

  lemma AcceptStep(w: World, v: View, p: seq<byte>, t: nat)
    requires Inv(w, v) && WellFormedTcp(p) && Brought(w, t, p, v.now) && Flags(p) == SYN
    requires FirstMatch(v.conns, p) == |v.conns| && FirstEmpty(v.conns) < |v.conns|
    ensures var v' := Accept(w.station, v, FirstEmpty(v.conns), p, t); Inv(w, v') && Leads(v, v')
    ensures v.IsOpening(FirstEmpty(v.conns)) ==> !v.hist[FirstEmpty(v.conns)].clean
  {
    var e := FirstEmpty(v.conns);
    var v' := Accept(w.station, v, e, p, t);
    AcceptedSlotOk(w, v, e, p, t);
    AcceptTable(w, v, p, t);
    hide SlotOk, Caused, Greeted, Confirmed, OutStep, InStep, TcpAccepts, Opened, FirstMatch, AcceptedHistory;
    assert SlotsOk(w, v');
    assert Owned(v') by { assert Opened(w.station, p).state == New by { NewSlot(w.station, p); } }
    AcceptLeads(w, v, p, t);
  }

  lemma NewSlot(s: Station, p: seq<byte>)
    requires s.Valid() && TcpSized(p) && HeaderOptionsOk(p)
    ensures Opened(s, p).state == New
  {
  }

  lemma AcceptedSlotOk(w: World, v: View, e: nat, p: seq<byte>, t: nat)
    requires Inv(w, v) && WellFormedTcp(p) && Brought(w, t, p, v.now) && Flags(p) == SYN
    requires e < |v.conns| && v.conns[e].state == NoConnection
    ensures SlotOk(w, Opened(w.station, p), AcceptedHistory(v, e, p, t), v.IsOpening(e), v.now, v.marks,
                   v.Elsewhere(e))
  {
    hide Owned, Caused, TcpAccepts, OutStep, InStep, Confirmed, PhaseOf;
    OneSlot(w, v, e);
    AnnouncedMssFits(w.station, p);
    assert HasFlag(SYN, SYN);
    if v.IsOpening(e) { assert !v.hist[e].clean; }
  }

  lemma AcceptTable(w: World, v: View, p: seq<byte>, t: nat)
    requires Inv(w, v) && WellFormedTcp(p)
    requires FirstMatch(v.conns, p) == |v.conns| && FirstEmpty(v.conns) < |v.conns|
    requires Flags(p) == SYN
    ensures TableOk(Accept(w.station, v, FirstEmpty(v.conns), p, t))
    ensures v.IsOpening(FirstEmpty(v.conns)) ==> !v.hist[FirstEmpty(v.conns)].clean
  {
    hide SlotOk, Owned, Caused, TcpAccepts;
    var e := FirstEmpty(v.conns);
    var v' := Accept(w.station, v, e, p, t);
    var c := v'.conns[e];
    if v.marks.distinct {
      forall j | 0 <= j < |v.conns| && j != e && Live(v.conns[j])
        ensures !SamePeer(v.conns[j], c)
      {
        assert !Matches(p, v.conns[j]);
      }
    }
  }

  lemma AcceptLeads(w: World, v: View, p: seq<byte>, t: nat)
    requires Inv(w, v) && WellFormedTcp(p) && FirstEmpty(v.conns) < |v.conns|
    requires v.IsOpening(FirstEmpty(v.conns)) ==> !v.hist[FirstEmpty(v.conns)].clean
    ensures Leads(v, Accept(w.station, v, FirstEmpty(v.conns), p, t))
  {
    hide SlotOk, Owned, Caused, TcpAccepts, TableOk;
    var e := FirstEmpty(v.conns);
    AnnouncedMssFits(w.station, p);
    SlotStepLeads(v, e, Opened(w.station, p), AcceptedHistory(v, e, p, t));
  }

  /** A slot waiting for its handshake moves on or is dropped. */
  lemma AwaitingStep(w: World, v: View, i: nat, s: State)
    requires Inv(w, v) && i < |v.conns| && Awaiting(v.conns[i]) && (s == NoConnection || s == SynReceived)
    requires v.IsOpening(i) ==> !v.hist[i].clean
    ensures Inv(w, WithState(v, i, s)) && Leads(v, WithState(v, i, s))
  {
    hide Owned, Caused, OutStep, InStep, Confirmed, PhaseOf;
    var c, h := v.conns[i].(state := s), v.hist[i];
    OneSlot(w, v, i);
    assert EndsOf(c) == EndsOf(v.conns[i]);
    SlotStep(w, v, i, c, h);
    SlotStepLeads(v, i, c, h);
  }

  // ----- the handshake is complete -------------------------------------------------------------

  /** A callback action that does nothing: its connection is not established, or there is nothing to send. */
  predicate Idle(a: Action, conns: seq<TcpConnection>)
  {
    a.id as int >= |conns| || conns[a.id].state != Established || (a.Send? && a.data.length == 0)
  }

  predicate Inert(script: seq<Action>, conns: seq<TcpConnection>)
  {
    forall k | 0 <= k < |script| :: Idle(script[k], conns)
  }

  /** The frame of poll `t` acknowledges our SYN, and the application is told. An OnConnect that does
      something polls. */
  function Establish(w: World, v: View, i: nat, t: nat): View
    requires i < |v.conns| && i < |v.hist|
  {
    var c := v.conns[i].(state := Established, sendSequence := w.AckAt(t));
    var stirs := !Inert(w.app.onConnect(v.calls), v.conns[i := c]);
    Later(v, v.now, v.calls + 1, v.marks.(stirred := v.marks.stirred || stirs))
    .Set(i, c, v.hist[i].(trace := v.hist[i].trace + [Connected], ack := t, sendBase := w.AckAt(t), written := [],
                          parts := 0, transmissions := [], alone := true))
  }

  lemma ConnectedStep(trace: seq<Event>)
    ensures Delivered(trace + [Connected]) == []
    ensures PhaseOf(trace + [Connected]) == if PhaseOf(trace) == Closed then Open else Broken
  {
    assert (trace + [Connected])[..|trace|] == trace;
  }

  lemma EstablishStep(w: World, v: View, i: nat, t: nat)
    requires Inv(w, v) && i < |v.conns| && v.conns[i].state == SynReceived && t < v.now
    requires FromEnds(w, EndsOf(v.conns[i]), t)
    ensures Inv(w, Establish(w, v, i, t)) && Leads(v, Establish(w, v, i, t))
  {
    var v' := Establish(w, v, i, t);
    EstablishCaused(w, v, i, t);
    hide Owned, Caused, SlotOk, SlotsOk, TableOk, PhaseOf, Delivered, FromEnds, Inert;
    var u := Later(v, v'.now, v'.calls, v'.marks);
    LaterStep(w, v, v'.now, v'.calls, v'.marks);
    EstablishedSlotOk(w, v, i, t);
    if v.IsOpening(i) && v.hist[i].clean { OpeningIsNew(w, v, i); }
    SlotStep(w, u, i, v'.conns[i], v'.hist[i]);
    SlotStepLeads(u, i, v'.conns[i], v'.hist[i]);
    LeadsTransitive(v, u, v');
  }

  lemma EstablishCaused(w: World, v: View, i: nat, t: nat)
    requires Inv(w, v) && i < |v.conns|
    ensures var v' := Establish(w, v, i, t); Caused(w, |v.conns|, v'.now, v'.calls, v'.marks)
  {
    hide Owned, SlotsOk, TableOk, HungBefore, CrossedBefore, LooseBefore, AcksBefore;
    CausedLater(w, |v.conns|, v.now, v.calls, v.marks, v.now, v.calls + 1);
    var script, v' := w.app.onConnect(v.calls), Establish(w, v, i, t);
    if !Inert(script, v'.conns) {
      var k :| 0 <= k < |script| && !Idle(script[k], v'.conns);
      assert Touches(script[k], |v.conns|);
      assert StirsAt(w, |v.conns|, v.calls);
    }
  }

  /** The slot being opened is NEW unless a SYN hit it. */
  lemma OpeningIsNew(w: World, v: View, i: nat)
    requires Inv(w, v) && v.IsOpening(i) && v.hist[i].clean
    ensures i < |v.conns| && v.conns[i].state == New
  {
  }

  lemma EstablishedSlotOk(w: World, v: View, i: nat, t: nat)
    requires Inv(w, v) && i < |v.conns| && v.conns[i].state == SynReceived && t < v.now
    requires FromEnds(w, EndsOf(v.conns[i]), t)
    ensures var v' := Establish(w, v, i, t);
            SlotOk(w, v'.conns[i], v'.hist[i], v.IsOpening(i), v.now, v'.marks, v.Elsewhere(i))
  {
    hide Story, Owned, Caused, TcpAccepts, FromEnds, PhaseOf, Inert;
    OneSlot(w, v, i);
    ConnectedStep(v.hist[i].trace);
    if v.hist[i].clean {
      if v.IsOpening(i) { OpeningIsNew(w, v, i); }
      EstablishedStory(w, v, i, t);
    }
  }

  lemma EstablishedStory(w: World, v: View, i: nat, t: nat)
    requires i < |v.conns| == |v.hist| && v.conns[i].state == SynReceived && t < v.now
    requires FromEnds(w, EndsOf(v.conns[i]), t)
    requires Story(w, v.conns[i], v.hist[i], false, v.now)
    ensures var v' := Establish(w, v, i, t); Story(w, v'.conns[i], v'.hist[i], false, v.now)
  {
    hide PhaseOf, Delivered, FromEnds, TcpAccepts, Inert;
    var v' := Establish(w, v, i, t);
    var c, h, c', h' := v.conns[i], v.hist[i], v'.conns[i], v'.hist[i];
    assert EndsOf(c') == EndsOf(c);
    ConnectedStep(h.trace);
    assert Greeted(w, c', h', v.now);
    assert InStep(w, c', h', v.now);
    assert OutStep(c', h');
  }

  // ----- data comes in -------------------------------------------------------------------------

  /** Where a handler finds its segment: in the frame of a poll, or in a buffer that was used again while
      OnConnect waited. */
  datatype Source = Poll(t: nat) | Stale

  /** The handler passes `data` on. */
  function Deliver(v: View, i: nat, src: Source, data: seq<byte>): View
    requires i < |v.conns| && i < |v.hist|
  {
    Called(v).Set(i, v.conns[i].(expectedSequence := Wrap32(v.conns[i].expectedSequence as int + |data|)),
         v.hist[i].(trace := v.hist[i].trace + [Received(data)],
                    accepted := if src.Poll? then v.hist[i].accepted + [src.t] else v.hist[i].accepted,
                    exact := v.hist[i].exact && src.Poll?))
  }

  lemma DeliveredStep(trace: seq<Event>, data: seq<byte>)
    ensures Delivered(trace + [Received(data)]) == Delivered(trace) + data
    ensures PhaseOf(trace + [Received(data)]) == if PhaseOf(trace) == Open then Open else Broken
  {
    assert (trace + [Received(data)])[..|trace|] == trace;
  }

  lemma SeenSnoc(w: World, accepted: seq<nat>, t: nat)
    ensures Seen(w, accepted + [t]) == Seen(w, accepted) + w.DataAt(t)
  {
    assert (accepted + [t])[..|accepted|] == accepted;
  }

  lemma InOrderSnoc(w: World, base: u32, accepted: seq<nat>, t: nat)
    requires InOrder(w, base, accepted) && w.SequenceAt(t) == Wrap32(base as int + |Seen(w, accepted)|)
    ensures InOrder(w, base, accepted + [t])
  {
    hide Seen, Wrap32;
    assert (accepted + [t])[..|accepted|] == accepted;
  }

  /** A frame with the expected number extends what was accepted. */
  lemma AcceptedStep(w: World, c: TcpConnection, h: History, now: nat, t: nat)
    requires InStep(w, c, h, now) && FromPeer(w, EndsOf(c), t) && h.syn <= t < now
    requires w.SequenceAt(t) == c.expectedSequence
    ensures Provenance(w, EndsOf(c), h.base, h.accepted + [t], h.syn, now)
    ensures Seen(w, h.accepted + [t]) == Seen(w, h.accepted) + w.DataAt(t)
  {
    hide FromPeer, Wrap32, Delivered, Seen, InOrder;
    SeenSnoc(w, h.accepted, t);
    InOrderSnoc(w, h.base, h.accepted, t);
  }

  /** A sequence number that counts `seen` from `base` still counts after both grow by `data`. */
  lemma TalliedStep(expected: u32, base: u32, delivered: seq<byte>, seen: seq<byte>, data: seq<byte>)
    requires Tallied(expected, base, delivered, seen)
    ensures Tallied(Wrap32(expected as int + |data|), base, delivered + data, seen + data)
  {
  }

  /** Delivering the next segment in order keeps the receiver in step. */
  lemma DeliverInStep(w: World, c: TcpConnection, h: History, now: nat, t: nat, data: seq<byte>, c': TcpConnection,
                      h': History)
    requires InStep(w, c, h, now) && FromPeer(w, EndsOf(c), t) && h.syn <= t < now
    requires w.SequenceAt(t) == c.expectedSequence && data == w.DataAt(t)
    requires c' == c.(expectedSequence := Wrap32(c.expectedSequence as int + |data|))
    requires h' == h.(trace := h.trace + [Received(data)], accepted := h.accepted + [t])
    ensures InStep(w, c', h', now)
  {
    hide Tallied, Provenance, Seen, Delivered, FromPeer, PhaseOf, Wrap32;
    AcceptedStep(w, c, h, now, t);
    TalliedStep(c.expectedSequence, h.base, Delivered(h.trace), Seen(w, h.accepted), data);
    DeliveredStep(h.trace, data);
    assert EndsOf(c') == EndsOf(c);
  }

  /** The segment is the next one of this connection: the data of its frame, under the expected number. */
  ghost predicate Fits(w: World, v: View, i: nat, src: Source, data: seq<byte>)
    requires i < |v.conns| && i < |v.hist|
  {
    match src
    case Poll(t) =>
      t < v.now && v.hist[i].syn <= t && FromPeer(w, EndsOf(v.conns[i]), t)
      && w.SequenceAt(t) == v.conns[i].expectedSequence && data == w.DataAt(t)
    case Stale => v.marks.stirred
  }

  lemma DeliveredSlotOk(w: World, v: View, i: nat, src: Source, data: seq<byte>)
    requires Inv(w, v) && i < |v.conns| && v.conns[i].state == Established && Fits(w, v, i, src, data)
    ensures var v' := Deliver(v, i, src, data);
            SlotOk(w, v'.conns[i], v'.hist[i], v.IsOpening(i), v'.now, v'.marks, v.Elsewhere(i))
  {
    hide Story, Owned, TableOk, Caused, Wrap32, TcpAccepts, Delivered, PhaseOf;
    var v' := Deliver(v, i, src, data);
    OneSlot(w, v, i);
    DeliveredStep(v.hist[i].trace, data);
    if v.hist[i].clean {
      DeliveredStory(w, v, i, src, data);
    }
  }

  lemma DeliveredStory(w: World, v: View, i: nat, src: Source, data: seq<byte>)
    requires i < |v.conns| == |v.hist| && v.conns[i].state == Established && Fits(w, v, i, src, data)
    requires Story(w, v.conns[i], v.hist[i], v.IsOpening(i), v.now)
    ensures var v' := Deliver(v, i, src, data); Story(w, v'.conns[i], v'.hist[i], v.IsOpening(i), v'.now)
  {
    hide InStep, PhaseOf, Delivered, FromEnds, FromPeer, TcpAccepts, Slices, Wrap32, Tallied;
    var v' := Deliver(v, i, src, data);
    var c, h, c', h' := v.conns[i], v.hist[i], v'.conns[i], v'.hist[i];
    assert EndsOf(c') == EndsOf(c);
    DeliveredStep(h.trace, data);
    if h'.exact {
      DeliverInStep(w, c, h, v.now, src.t, data, c', h');
    }
  }

  lemma DeliverStep(w: World, v: View, i: nat, src: Source, data: seq<byte>)
    requires Inv(w, v) && i < |v.conns| && v.conns[i].state == Established && Fits(w, v, i, src, data)
    ensures Inv(w, Deliver(v, i, src, data)) && Leads(v, Deliver(v, i, src, data))
  {
    var v' := Deliver(v, i, src, data);
    DeliveredSlotOk(w, v, i, src, data);
    hide Owned, Caused, SlotOk, SlotsOk, TableOk, PhaseOf, Delivered, FromPeer;
    CallStep(w, v);
    var u := Called(v);
    if v.IsOpening(i) && v.hist[i].clean { OpeningIsNew(w, v, i); }
    SlotStep(w, u, i, v'.conns[i], v'.hist[i]);
    SlotStepLeads(u, i, v'.conns[i], v'.hist[i]);
    LeadsTransitive(v, u, v');
  }

  // ----- closing -------------------------------------------------------------------------------

  /** A close begins: the slot is DYEING and owned by this close, and the application is told. `inside`
      says that a FIN or a callback is the reason, not the main program. */
  function BeginClose(v: View, i: nat, expected: u32, inside: bool): View
    requires i < |v.conns| && i < |v.hist|
  {
    Later(v, v.now, v.calls + 1, v.marks.(hung := v.marks.hung || inside))
    .Set(i, v.conns[i].(state := Dyeing, expectedSequence := expected),
         v.hist[i].(trace := v.hist[i].trace + [Disconnected])).(closing := v.closing + [i])
  }

  /** The innermost close ends. */
  function EndClose(v: View, i: nat): View
    requires i < |v.conns| && i < |v.hist| && v.closing != []
  {
    v.Set(i, v.conns[i].(state := NoConnection), v.hist[i].(generation := v.hist[i].generation + 1))
    .(closing := v.closing[..|v.closing| - 1])
  }

  lemma DisconnectedStep(trace: seq<Event>)
    ensures PhaseOf(trace + [Disconnected]) == if PhaseOf(trace) == Open then Closed else Broken
  {
    assert (trace + [Disconnected])[..|trace|] == trace;
  }

  lemma ClosingSlotOk(w: World, v: View, i: nat, expected: u32, inside: bool)
    requires Inv(w, v) && i < |v.conns| && v.conns[i].state == Established
    ensures var v' := BeginClose(v, i, expected, inside);
              SlotOk(w, v'.conns[i], v'.hist[i], v.IsOpening(i), v'.now, v'.marks, v.Elsewhere(i))
  {
    OneSlot(w, v, i);
    DisconnectedStep(v.hist[i].trace);
    hide InStep, OutStep, Greeted, Confirmed, Owned, TableOk, Caused;
  }

  lemma BeginCloseStep(w: World, v: View, i: nat, expected: u32, inside: bool)
    requires Inv(w, v) && i < |v.conns| && v.conns[i].state == Established
    requires inside ==> HungBefore(w, |v.conns|, v.now, v.calls + 1)
    ensures Inv(w, BeginClose(v, i, expected, inside)) && |BeginClose(v, i, expected, inside).closing| <= |v.conns|
  {
    CloseCaused(w, v, inside);
    BeginCloseOwned(v, i, expected, inside);
    BeginCloseTable(w, v, i, expected, inside);
    hide Caused, HungBefore, SlotsOk, TableOk, Owned;
    ClosingBounded(BeginClose(v, i, expected, inside));
  }

  lemma BeginCloseTable(w: World, v: View, i: nat, expected: u32, inside: bool)
    requires Inv(w, v) && i < |v.conns| && v.conns[i].state == Established
    requires inside ==> HungBefore(w, |v.conns|, v.now, v.calls + 1)
    ensures var v' := BeginClose(v, i, expected, inside); Shape(v') && SlotsOk(w, v') && TableOk(v')
  {
    hide Caused, HungBefore, SlotOk, SlotsOk, PhaseOf, TableOk, Leads, Owned;
    var v' := BeginClose(v, i, expected, inside);
    ClosingSlotOk(w, v, i, expected, inside);
    CloseCaused(w, v, inside);
    var u := Later(v, v'.now, v'.calls, v'.marks);
    LaterStep(w, v, v'.now, v'.calls, v'.marks);
    CloseTable(w, u, i, v'.conns[i], v'.hist[i], v'.closing);
    CloseSlots(w, u, i, v'.conns[i], v'.hist[i], v'.closing);
  }

  lemma CloseCaused(w: World, v: View, inside: bool)
    requires Inv(w, v) && (inside ==> HungBefore(w, |v.conns|, v.now, v.calls + 1))
    ensures Caused(w, |v.conns|, v.now, v.calls + 1, v.marks.(hung := v.marks.hung || inside))
  {
    CausedLater(w, |v.conns|, v.now, v.calls, v.marks, v.now, v.calls + 1);
    hide Owned, SlotsOk, TableOk, HungBefore, CrossedBefore, StirredBefore, LooseBefore, AcksBefore;
  }

  /** Slot `i` is replaced by one that is DYEING or free. */
  lemma CloseSlots(w: World, v: View, i: nat, c: TcpConnection, h: History, closing: seq<nat>)
    requires w.station.Valid() && Shape(v) && SlotsOk(w, v) && i < |v.conns|
    requires SlotOk(w, c, h, v.IsOpening(i), v.now, v.marks, v.Elsewhere(i))
    ensures SlotsOk(w, v.Set(i, c, h).(closing := closing))
  {
    hide SlotOk;
  }

  lemma CloseTable(w: World, v: View, i: nat, c: TcpConnection, h: History, closing: seq<nat>)
    requires Inv(w, v) && i < |v.conns| && (v.conns[i].state == Established || v.conns[i].state == Dyeing)
    requires SamePeer(c, v.conns[i]) && h.clean == v.hist[i].clean
    ensures TableOk(v.Set(i, c, h).(closing := closing))
  {
    hide SlotOk, Caused, Owned;
  }

  lemma BeginCloseOwned(v: View, i: nat, expected: u32, inside: bool)
    requires Shape(v) && Owned(v) && i < |v.conns| && v.conns[i].state == Established
    ensures Owned(BeginClose(v, i, expected, inside))
  {
    var v' := BeginClose(v, i, expected, inside);
    assert i !in v.closing;
    assert forall j: nat :: j in v'.closing <==> j in v.closing || j == i;
  }

  lemma EndCloseOwned(v: View, i: nat)
    requires Shape(v) && Owned(v) && v.closing != [] && v.closing[|v.closing| - 1] == i
    ensures i < |v.conns| && v.conns[i].state == Dyeing && Owned(EndClose(v, i))
  {
    InnermostClose(v);
    var v' := EndClose(v, i);
    assert v.closing == v'.closing + [i];
    assert forall j: nat :: j in v.closing <==> j in v'.closing || j == i;
    assert i !in v'.closing;
  }

  lemma EndCloseStep(w: World, v: View, i: nat)
    requires Inv(w, v) && v.closing != [] && v.closing[|v.closing| - 1] == i
    ensures i < |v.conns| && Inv(w, EndClose(v, i))
  {
    EndCloseOwned(v, i);
    var v' := EndClose(v, i);
    OneSlot(w, v, i);
    assert SlotOk(w, v'.conns[i], v'.hist[i], v.IsOpening(i), v.now, v.marks, v.Elsewhere(i)) by { hide PhaseOf; }
    hide Owned, SlotOk, Caused, SlotsOk;
    CloseTable(w, v, i, v'.conns[i], v'.hist[i], v'.closing);
    hide TableOk;
    CloseSlots(w, v, i, v'.conns[i], v'.hist[i], v'.closing);
  }

  /** A whole close, with whatever happened while it waited, leaves the other slots as a wait may leave
      them; one that began inside a wait is one of the things a wait may bring. */
  lemma CloseLeads(w: World, v: View, i: nat, expected: u32, inside: bool, mid: View)
    requires Inv(w, v) && i < |v.conns| && v.conns[i].state == Established
    requires Leads(BeginClose(v, i, expected, inside), mid)
    ensures inside ==> Leads(v, EndClose(mid, i))
    ensures v.opening == None ==> Aside(v, EndClose(mid, i), i)
    ensures EndClose(mid, i).hist[i]
              == v.hist[i].(trace := v.hist[i].trace + [Disconnected], generation := v.hist[i].generation + 1)
    ensures EndClose(mid, i).opening == v.opening && EndClose(mid, i).marks.dials == v.marks.dials
    ensures EndClose(mid, i).marks.loose == v.marks.loose
  {
    hide Inv, SlotLeads;
    OpenIsUnclean(w, v, i);
    var b, v' := BeginClose(v, i, expected, inside), EndClose(mid, i);
    CloseSlotLeads(b, mid, i, v.conns[i], v.hist[i]);
    CloseFramed(v, i, expected, inside, mid);
    forall j | 0 <= j < |v.conns| && j != i
      ensures SlotLeads(v.conns[j], v.hist[j], v'.conns[j], v'.hist[j], v.IsOpening(j), v'.marks)
      ensures v.IsOpening(j) && v'.hist[j].clean ==> v'.conns[j] == v.conns[j] && v'.hist[j] == v.hist[j]
    {
      OneLeads(b, mid, j);
    }
    hide Framed;
    if inside { assert SlotsLead(v, v'); }
  }

  lemma OpenIsUnclean(w: World, v: View, i: nat)
    requires Inv(w, v) && i < |v.conns| && v.conns[i].state == Established
    ensures |v.hist| == |v.conns| && (v.IsOpening(i) ==> !v.hist[i].clean)
  {
    hide Owned, SlotsOk, Caused;
  }

  lemma OneLeads(v: View, v': View, j: nat)
    requires Leads(v, v') && j < |v.conns|
    ensures SlotLeads(v.conns[j], v.hist[j], v'.conns[j], v'.hist[j], v.IsOpening(j), v'.marks)
    ensures v.IsOpening(j) && v'.hist[j].clean ==> v'.conns[j] == v.conns[j] && v'.hist[j] == v.hist[j]
  {
  }

  lemma CloseFramed(v: View, i: nat, expected: u32, inside: bool, mid: View)
    requires i < |v.conns| == |v.hist| && Leads(BeginClose(v, i, expected, inside), mid)
    ensures Framed(v, EndClose(mid, i)) && (v.marks.hung ==> mid.marks.hung)
  {
    hide SlotsLead;
    assert (v.closing + [i])[..|v.closing|] == v.closing;
  }

  /** The slot that was closed: `b` and `mid` are the table when the close began and before it ended. */
  lemma CloseSlotLeads(b: View, mid: View, i: nat, c: TcpConnection, h: History)
    requires Leads(b, mid) && i < |b.conns| && b.conns[i].state == Dyeing && c.state == Established
    requires b.conns[i] == c.(state := Dyeing, expectedSequence := b.conns[i].expectedSequence)
    requires b.hist[i] == h.(trace := h.trace + [Disconnected]) && (b.IsOpening(i) ==> !h.clean) && mid.closing != []
    ensures var x := EndClose(mid, i);
            (b.marks.hung ==> SlotLeads(c, h, x.conns[i], x.hist[i], b.IsOpening(i), x.marks))
            && x.hist[i] == h.(trace := h.trace + [Disconnected], generation := h.generation + 1)
  {
    assert SlotLeads(b.conns[i], b.hist[i], mid.conns[i], mid.hist[i], b.IsOpening(i), mid.marks);
  }

  /** A slot already closing may move its sequence numbers. */
  lemma DyeingStep(w: World, v: View, i: nat, expected: u32, send: u32)
    requires Inv(w, v) && i < |v.conns| && v.conns[i].state == Dyeing
    ensures Inv(w, v.Set(i, v.conns[i].(expectedSequence := expected, sendSequence := send), v.hist[i]))
    ensures Leads(v, v.Set(i, v.conns[i].(expectedSequence := expected, sendSequence := send), v.hist[i]))
  {
    var c, h := v.conns[i].(expectedSequence := expected, sendSequence := send), v.hist[i];
    OneSlot(w, v, i);
    if v.IsOpening(i) && h.clean { OpeningIsNew(w, v, i); }
    hide Owned, PhaseOf, Caused, TableOk, SlotsOk, InStep, OutStep, Greeted, Confirmed;
    SlotStep(w, v, i, c, h);
    SlotStepLeads(v, i, c, h);
  }

  // ----- active open -------------------------------------------------------------------------

  /** `TcpConnect` takes slot `e`; its record `c` still has the link address and segment size of an
      earlier connection. */
  function BeginOpen(v: View, e: nat, c: TcpConnection): View
    requires e < |v.conns| && e < |v.hist|
  {
    v.(marks := v.marks.(dials := v.marks.dials + [Dial(c.ip, c.remotePort)],
                         distinct := v.marks.distinct && Apart(v.conns[e := c], e)))
    .Set(e, c, Reopened(v.hist[e], Active(|v.marks.dials|), 0, 0, true)).(opening := Some(e))
  }

  lemma BeginOpenIs(v: View, e: nat, c: TcpConnection)
    requires e < |v.conns| == |v.hist|
    ensures var u := BeginOpen(v, e, c);
            u == View(v.conns[e := c], u.hist, v.closing, Some(e), v.now, v.calls, u.marks) && |u.hist| == |v.hist|
            && u.hist[e] == Reopened(v.hist[e], Active(|v.marks.dials|), 0, 0, true)
            && u.marks.dials == v.marks.dials + [Dial(c.ip, c.remotePort)] && u.marks.loose == v.marks.loose
  {
  }

  /** `TcpConnect` writes into the record of the slot it is opening. */
  function Rewrite(v: View, e: nat, c: TcpConnection): View
    requires e < |v.conns| && e < |v.hist|
  {
    v.Set(e, c, v.hist[e]).(marks := v.marks.(distinct := v.marks.distinct && Apart(v.conns[e := c], e)))
  }

  /** Exactly the writes that are not apart make two slots answer to the same packets. */
  lemma ApartIff(conns: seq<TcpConnection>, e: nat, c: TcpConnection)
    requires Unambiguous(conns) && e < |conns|
    ensures Unambiguous(conns[e := c]) <==> Apart(conns[e := c], e)
  {
    var conns' := conns[e := c];
    if Unambiguous(conns') && Live(c) {
      forall j | 0 <= j < |conns| && j != e && Live(conns'[j])
        ensures !SamePeer(conns'[j], conns'[e])
      {
        assert if j < e then !SamePeer(conns'[j], conns'[e]) else !SamePeer(conns'[e], conns'[j]);
      }
    }
  }

  /** The twin of the latest dial came by a SYN from the end that was dialled, or all dynamic ports have
      been gone through. */
  lemma TwinCaused(w: World, now: nat, m: Marks, c: TcpConnection, d: TcpConnection, h: History)
    requires Born(w, d, h, false, now, m, true) && Live(d) && SamePair(d, c) && m.dials != []
    requires c.port == DynamicPort(|m.dials| - 1) && Dial(c.ip, c.remotePort) == m.dials[|m.dials| - 1]
    ensures CrossedBefore(w, now, m.dials) || |m.dials| > DYNAMIC_PORTS
  {
    hide TcpAccepts;
    var n := |m.dials| - 1;
    if h.birth.Active? && |m.dials| <= DYNAMIC_PORTS {
      PortsDiffer(h.birth.open, n);
      assert false;
    } else if h.birth.Passive? {
      assert SynFrom(w, DynamicPort(n), m.dials[n], h.syn);
    }
  }

  lemma PortsDiffer(k: nat, n: nat)
    requires k < n < DYNAMIC_PORTS
    ensures DynamicPort(k) != DynamicPort(n)
  {
    assert k % DYNAMIC_PORTS == k && n % DYNAMIC_PORTS == n;
  }

  /** A write that is not apart has its cause. */
  lemma RewriteCaused(w: World, v: View, e: nat, c: TcpConnection)
    requires Inv(w, v) && v.opening == Some(e) && SamePair(c, v.conns[e])
    ensures Caused(w, |v.conns|, v.now, v.calls, Rewrite(v, e, c).marks)
  {
    hide Owned, TableOk, Sized, Story, Ordered, HungBefore, StirredBefore, LooseBefore, AcksBefore, SynFrom;
    OneSlot(w, v, e);
    if !Apart(v.conns[e := c], e) && v.hist[e].clean {
      var j :| 0 <= j < |v.conns| && j != e && Live(v.conns[j]) && SamePeer(v.conns[e := c][j], v.conns[e := c][e]);
      OneSlot(w, v, j);
      TwinCaused(w, v.now, v.marks, c, v.conns[j], v.hist[j]);
    }
  }

  lemma BeginOpenCaused(w: World, v: View, e: nat, c: TcpConnection)
    requires Inv(w, v) && v.opening == None && e < |v.conns| && c.port == DynamicPort(|v.marks.dials|)
    ensures Caused(w, |v.conns|, v.now, v.calls, BeginOpen(v, e, c).marks)
  {
    hide Owned, TableOk, Sized, Story, Ordered, HungBefore, StirredBefore, LooseBefore, AcksBefore, SynFrom;
    var m := BeginOpen(v, e, c).marks;
    CrossedStays(w, v.now, v.marks.dials, m.dials);
    if !Apart(v.conns[e := c], e) {
      var j :| 0 <= j < |v.conns| && j != e && Live(v.conns[j]) && SamePeer(v.conns[e := c][j], v.conns[e := c][e]);
      OneSlot(w, v, j);
      BornBefore(w, v.conns[j], v.hist[j], v.now, v.marks, m);
      TwinCaused(w, v.now, m, c, v.conns[j], v.hist[j]);
    }
  }

  lemma CrossedStays(w: World, now: nat, dials: seq<Dial>, dials': seq<Dial>)
    requires dials <= dials'
    ensures CrossedBefore(w, now, dials) ==> CrossedBefore(w, now, dials')
  {
    hide SynFrom;
    if CrossedBefore(w, now, dials) {
      var t: nat, k: nat :| t < now && k < |dials| && SynFrom(w, DynamicPort(k), dials[k], t);
      assert dials'[k] == dials[k];
    }
  }

  lemma BornBefore(w: World, c: TcpConnection, h: History, now: nat, m: Marks, m': Marks)
    requires Born(w, c, h, false, now, m, false) && m.dials <= m'.dials && |m'.dials| == |m.dials| + 1
    ensures Born(w, c, h, false, now, m', true)
  {
    hide SynFrom;
  }

  lemma BeginOpenStep(w: World, v: View, e: nat, c: TcpConnection)
    requires Inv(w, v) && v.opening == None && e < |v.conns| && v.conns[e].state == NoConnection && c.state == New
    requires c.port == DynamicPort(|v.marks.dials|) && c.maxSegmetSize == v.conns[e].maxSegmetSize
    ensures Inv(w, BeginOpen(v, e, c)) && Aside(v, BeginOpen(v, e, c), e)
  {
    var v' := BeginOpen(v, e, c);
    BeginOpenCaused(w, v, e, c);
    BeginOpenSlots(w, v, e, c);
    hide SlotOk, SlotsOk, Caused, SlotLeads, Apart, Owned;
    SameOwned(v, v');
    if v.marks.distinct { ApartIff(v.conns, e, c); }
    SetAside(v, v', e);
  }

  lemma SelfAside(v: View, e: nat)
    requires |v.hist| == |v.conns|
    ensures Aside(v, v, e)
  {
  }

  lemma BeginOpenSlots(w: World, v: View, e: nat, c: TcpConnection)
    requires Inv(w, v) && v.opening == None && e < |v.conns| && v.conns[e].state == NoConnection && c.state == New
    requires c.port == DynamicPort(|v.marks.dials|) && c.maxSegmetSize == v.conns[e].maxSegmetSize
    ensures SlotsOk(w, BeginOpen(v, e, c))
  {
    hide Owned, TableOk, Caused, InStep, OutStep, Greeted, Confirmed, PhaseOf, Apart;
    var v' := BeginOpen(v, e, c);
    forall j | 0 <= j < |v.conns|
      ensures SlotOk(w, v'.conns[j], v'.hist[j], v'.IsOpening(j), v'.now, v'.marks, v'.Elsewhere(j))
    {
      OneSlot(w, v, j);
      if j != e { SlotLater(w, v.conns[j], v.hist[j], false, v.now, v.marks, false, v.now, v'.marks, true); }
    }
  }

  /** While the slot is being opened its record may change, but not its pair. */
  lemma OpeningStep(w: World, v: View, i: nat, c: TcpConnection)
    requires Inv(w, v) && v.opening == Some(i) && c.state == v.conns[i].state && SamePair(c, v.conns[i])
    requires c.maxSegmetSize == v.conns[i].maxSegmetSize && (c.state == Established ==> !v.hist[i].clean)
    ensures Inv(w, Rewrite(v, i, c)) && Aside(v, Rewrite(v, i, c), i)
    ensures SamePeer(c, v.conns[i]) ==> Rewrite(v, i, c) == v.Set(i, c, v.hist[i])
  {
    var v' := Rewrite(v, i, c);
    RewriteCaused(w, v, i, c);
    OpeningSlots(w, v, i, c);
    hide SlotOk, SlotsOk, Caused, Apart, SlotLeads, Owned, Unambiguous;
    SameOwned(v, v');
    if v.marks.distinct { ApartIff(v.conns, i, c); }
    if v.marks.distinct && SamePeer(c, v.conns[i]) { SamePeerApart(v.conns, i, c); }
    SetAside(v, v', i);
  }

  lemma OpeningSlots(w: World, v: View, i: nat, c: TcpConnection)
    requires Inv(w, v) && v.opening == Some(i) && c.state == v.conns[i].state && SamePair(c, v.conns[i])
    requires c.maxSegmetSize == v.conns[i].maxSegmetSize && (c.state == Established ==> !v.hist[i].clean)
    ensures SlotsOk(w, Rewrite(v, i, c))
  {
    hide Owned, Caused, InStep, OutStep, Greeted, Confirmed, PhaseOf, Apart;
    var v' := Rewrite(v, i, c);
    forall j | 0 <= j < |v.conns|
      ensures SlotOk(w, v'.conns[j], v'.hist[j], v'.IsOpening(j), v'.now, v'.marks, v'.Elsewhere(j))
    {
      OneSlot(w, v, j);
      if j != i {
        SlotLater(w, v.conns[j], v.hist[j], false, v.now, v.marks, true, v.now, v'.marks, true);
      }
    }
  }

  lemma SamePeerApart(conns: seq<TcpConnection>, e: nat, c: TcpConnection)
    requires Unambiguous(conns) && e < |conns| && SamePeer(c, conns[e]) && (Live(c) ==> Live(conns[e]))
    ensures Apart(conns[e := c], e)
  {
    ApartIff(conns, e, c);
  }

  /** `TcpConnect` gives up. The slot keeps its callbacks in order if and only if it is not ESTABLISHED. */
  function AbortOpen(v: View, e: nat): View
    requires e < |v.conns| && e < |v.hist|
  {
    v.Set(e, v.conns[e].(state := NoConnection),
          v.hist[e].(orderly := v.hist[e].orderly && v.conns[e].state != Established)).(opening := None)
  }

  lemma AbortOpenStep(w: World, v: View, e: nat)
    requires Inv(w, v) && v.opening == Some(e) && v.conns[e].state != Dyeing
    ensures Inv(w, AbortOpen(v, e)) && Aside(v, AbortOpen(v, e), e)
  {
    var v' := AbortOpen(v, e);
    AbortedSlotOk(w, v, e);
    hide SlotOk, SlotsOk, Caused, SlotLeads, Owned;
    EndSlots(w, v, e, v'.conns[e], v'.hist[e], v.marks, v.calls);
    SameOwned(v, v');
    SetAside(v, v', e);
  }

  lemma AbortedSlotOk(w: World, v: View, e: nat)
    requires Inv(w, v) && v.opening == Some(e) && v.conns[e].state != Dyeing
    ensures var v' := AbortOpen(v, e); SlotOk(w, v'.conns[e], v'.hist[e], false, v.now, v.marks, false)
  {
    hide InStep, OutStep, Greeted, Confirmed, PhaseOf, Owned, Caused;
    OneSlot(w, v, e);
  }

  /** The slot that was being opened is replaced, and the others are no longer aside of an open. */
  lemma EndSlots(w: World, v: View, e: nat, c: TcpConnection, h: History, m: Marks, calls: nat)
    requires Inv(w, v) && v.opening == Some(e) && m == v.marks.(distinct := m.distinct)
    requires SlotOk(w, c, h, false, v.now, m, false)
    ensures SlotsOk(w, Later(v, v.now, calls, m).Set(e, c, h).(opening := None))
  {
    hide Owned, TableOk, Caused, SlotOk;
    var v' := Later(v, v.now, calls, m).Set(e, c, h).(opening := None);
    forall j | 0 <= j < |v.conns|
      ensures SlotOk(w, v'.conns[j], v'.hist[j], v'.IsOpening(j), v'.now, v'.marks, v'.Elsewhere(j))
    {
      OneSlot(w, v, j);
      if j != e { SlotLater(w, v.conns[j], v.hist[j], false, v.now, v.marks, true, v.now, m, false); }
    }
  }

  /** `TcpConnect` has its handshake, from the frame of poll `t`: `c` is the record with the peer's
      numbers and segment size. The application is told, even if the slot is ESTABLISHED already. */
  function EndOpen(v: View, e: nat, c: TcpConnection, t: nat): View
    requires e < |v.conns| && e < |v.hist|
  {
    var h := v.hist[e];
    Called(Rewrite(v, e, c)).Set(e, c, h.(orderly := h.orderly && v.conns[e].state != Established,
                           trace := h.trace + [Connected], syn := if h.birth.Active? then t else h.syn,
                           base := c.expectedSequence, accepted := [], exact := true, ack := t,
                           sendBase := c.sendSequence, written := [], parts := 0, transmissions := [], alone := true))
    .(opening := None)
  }

  /** The SYN-ACK of poll `t` gave the record its numbers. */
  ghost predicate Answered(w: World, c: TcpConnection, t: nat, now: nat)
  {
    t < now && FromEnds(w, EndsOf(c), t) && HasFlag(w.FlagsAt(t), SYN)
    && c.expectedSequence == Wrap32(w.SequenceAt(t) as int + 1) && c.sendSequence == w.AckAt(t)
  }

  lemma EndOpenSlotOk(w: World, v: View, e: nat, c: TcpConnection, t: nat)
    requires Inv(w, v) && v.opening == Some(e) && v.conns[e].state != Dyeing
    requires c.state == Established && 1 <= c.maxSegmetSize <= w.station.MaxSegmentSize() && t < v.now
    requires SamePeer(c, v.conns[e]) && (v.hist[e].clean ==> v.hist[e].birth.Active? && Answered(w, c, t, v.now))
    ensures var v' := EndOpen(v, e, c, t); SlotOk(w, c, v'.hist[e], false, v.now, v'.marks, false)
  {
    hide Owned, Caused, FromEnds, TcpAccepts, PhaseOf, Delivered, Apart;
    var v' := EndOpen(v, e, c, t);
    OneSlot(w, v, e);
    ConnectedStep(v.hist[e].trace);
    if v.hist[e].clean {
      assert InStep(w, c, v'.hist[e], v.now) && OutStep(c, v'.hist[e]);
    }
  }

  lemma EndOpenStep(w: World, v: View, e: nat, c: TcpConnection, t: nat)
    requires Inv(w, v) && v.opening == Some(e) && v.conns[e].state != Dyeing
    requires c.state == Established && 1 <= c.maxSegmetSize <= w.station.MaxSegmentSize() && t < v.now
    requires SamePeer(c, v.conns[e]) && (v.hist[e].clean ==> v.hist[e].birth.Active? && Answered(w, c, t, v.now))
    ensures Inv(w, EndOpen(v, e, c, t)) && Aside(v, EndOpen(v, e, c, t), e)
  {
    hide SlotOk, PhaseOf, Delivered;
    var v' := EndOpen(v, e, c, t);
    RewriteCaused(w, v, e, c);
    CausedLater(w, |v.conns|, v.now, v.calls, v'.marks, v.now, v.calls + 1);
    EndOpenTable(w, v, e, c, t);
    hide SlotsOk, Caused, Apart, SlotLeads, Owned, TableOk, Answered;
    SameOwned(v, v');
    SetAside(v, v', e);
  }

  lemma EndOpenTable(w: World, v: View, e: nat, c: TcpConnection, t: nat)
    requires Inv(w, v) && v.opening == Some(e) && v.conns[e].state != Dyeing
    requires c.state == Established && 1 <= c.maxSegmetSize <= w.station.MaxSegmentSize() && t < v.now
    requires SamePeer(c, v.conns[e]) && (v.hist[e].clean ==> v.hist[e].birth.Active? && Answered(w, c, t, v.now))
    ensures var v' := EndOpen(v, e, c, t); Shape(v') && SlotsOk(w, v') && TableOk(v')
  {
    hide SlotOk, SlotsOk, Caused, PhaseOf, Apart, Owned, Unambiguous, Answered;
    var v' := EndOpen(v, e, c, t);
    EndOpenSlotOk(w, v, e, c, t);
    assert v' == Later(v, v.now, v'.calls, v'.marks).Set(e, c, v'.hist[e]).(opening := None);
    EndSlots(w, v, e, c, v'.hist[e], v'.marks, v'.calls);
    if v.marks.distinct { ApartIff(v.conns, e, c); }
  }

  // ----- sending -----------------------------------------------------------------------------

  /** `TcpSendData` cuts the next part. */
  function Write(v: View, i: nat, part: seq<byte>): View
    requires i < |v.conns| && i < |v.hist|
  {
    v.Set(i, v.conns[i].(sendSequence := Wrap32(v.conns[i].sendSequence as int + |part|)),
          v.hist[i].(written := v.hist[i].written + part, parts := v.hist[i].parts + 1))
  }

  lemma SlicesGrow(e: Ends, sendBase: u32, written: seq<byte>, transmissions: seq<Transmission>, part: seq<byte>)
    requires Slices(e, sendBase, written, transmissions)
    ensures Slices(e, sendBase, written + part, transmissions)
  {
    forall k | 0 <= k < |transmissions|
      ensures IsSlice(e, sendBase, written + part, transmissions[k])
    {
      var x := transmissions[k];
      assert IsSlice(e, sendBase, written, x);
      assert (written + part)[x.offset..x.offset + |Payload(x.frame)|]
          == written[x.offset..x.offset + |Payload(x.frame)|];
    }
  }

  /** An established slot changes in what was sent and nothing else. */
  lemma SenderStep(w: World, v: View, i: nat, c: TcpConnection, h: History)
    requires Inv(w, v) && i < |v.conns| && v.conns[i].state == Established
    requires c == v.conns[i].(sendSequence := c.sendSequence)
    requires h == v.hist[i].(written := h.written, parts := h.parts, transmissions := h.transmissions, alone := h.alone)
    requires !h.alone ==> v.marks.hung || v.marks.shifted
    requires v.hist[i].clean && v.hist[i].alone && OutStep(v.conns[i], v.hist[i]) && h.alone ==> OutStep(c, h)
    requires h.alone ==> v.hist[i].alone
    ensures Inv(w, v.Set(i, c, h))
  {
    hide Owned, Caused, TableOk, SlotsOk, OutStep, PhaseOf, Tallied, Provenance, FromEnds;
    assert EndsOf(c) == EndsOf(v.conns[i]);
    OneSlot(w, v, i);
    assert h.clean ==> Story(w, c, h, v.IsOpening(i), v.now);
    if v.IsOpening(i) && v.hist[i].clean { OpeningIsNew(w, v, i); }
    SlotStep(w, v, i, c, h);
  }

  lemma OneSlot(w: World, v: View, i: nat)
    requires Inv(w, v) && i < |v.conns|
    ensures SlotOk(w, v.conns[i], v.hist[i], v.IsOpening(i), v.now, v.marks, v.Elsewhere(i))
  {
  }

  lemma WriteStep(w: World, v: View, i: nat, part: seq<byte>)
    requires Inv(w, v) && i < |v.conns| && v.conns[i].state == Established
    ensures Inv(w, Write(v, i, part))
  {
    hide Owned, Caused, TableOk, SlotsOk, Slices, Tallied;
    var c, h := v.conns[i], v.hist[i];
    var c', h' := Write(v, i, part).conns[i], Write(v, i, part).hist[i];
    OneSlot(w, v, i);
    assert EndsOf(c') == EndsOf(c);
    if h.clean && h.alone {
      TalliedStep(c.sendSequence, h.sendBase, h.written, h.written, part);
      SlicesGrow(EndsOf(c), h.sendBase, h.written, h.transmissions, part);
    }
    SenderStep(w, v, i, c', h');
  }

  /** A part cut for a connection that turns out not to be established is never sent. */
  lemma WriteNowhereStep(w: World, v: View, i: nat, send: u32)
    requires Inv(w, v) && i < |v.conns| && v.conns[i].state != Established
    requires v.IsOpening(i) ==> !v.hist[i].clean
    ensures var v' := v.Set(i, v.conns[i].(sendSequence := send), v.hist[i]); Inv(w, v')
  {
    hide Owned, Caused, TableOk, SlotsOk, InStep, OutStep, FromEnds, PhaseOf;
    var c := v.conns[i].(sendSequence := send);
    OneSlot(w, v, i);
    assert EndsOf(c) == EndsOf(v.conns[i]);
    assert SlotOk(w, c, v.hist[i], v.IsOpening(i), v.now, v.marks, v.Elsewhere(i));
    SlotStep(w, v, i, c, v.hist[i]);
  }

  /** A send begun on an earlier incarnation of the slot goes on into this one. */
  function Strayed(v: View, i: nat): View
    requires i < |v.conns| && i < |v.hist|
  {
    v.Set(i, v.conns[i], v.hist[i].(alone := false))
  }

  lemma StrayStep(w: World, v: View, i: nat)
    requires Inv(w, v) && i < |v.conns| && v.conns[i].state == Established && v.marks.hung
    ensures Inv(w, Strayed(v, i))
  {
    hide Owned, Caused, TableOk, SlotsOk, SlotOk, OutStep;
    SenderStep(w, v, i, v.conns[i], Strayed(v, i).hist[i]);
  }

  /** A part is sent again with other bytes. */
  function Shifted(v: View, altered: bool): View
  {
    Later(v, v.now, v.calls, v.marks.(shifted := v.marks.shifted || altered))
  }

  lemma ShiftStep(w: World, v: View, altered: bool)
    requires Inv(w, v) && (altered ==> v.marks.loose || LooseBefore(w, v.calls))
    ensures Inv(w, Shifted(v, altered)) && Leads(v, Shifted(v, altered))
    ensures |v.hist| == |v.conns|
  {
    hide Owned, SlotsOk, TableOk, Caused, Leads, LooseBefore;
    ShiftCaused(w, v, altered);
    LaterStep(w, v, v.now, v.calls, v.marks.(shifted := v.marks.shifted || altered));
  }

  /** A segment goes out. `own` says that it belongs to a send begun on this incarnation, and `altered` that it
      carries other bytes than were cut. */
  function Transmit(v: View, i: nat, x: Transmission, own: bool, altered: bool): View
    requires i < |v.conns| && i < |v.hist|
  {
    Shifted(v, altered)
    .Set(i, v.conns[i], v.hist[i].(transmissions := v.hist[i].transmissions + [x],
                                   alone := v.hist[i].alone && own && !altered))
  }

  lemma TransmitStep(w: World, v: View, i: nat, x: Transmission, own: bool, altered: bool)
    requires Inv(w, v) && i < |v.conns| && v.conns[i].state == Established && (!own ==> v.marks.hung)
    requires altered ==> v.marks.loose || LooseBefore(w, v.calls)
    requires own && !altered && v.hist[i].clean && v.hist[i].alone ==>
               IsSlice(EndsOf(v.conns[i]), v.hist[i].sendBase, v.hist[i].written, x)
    ensures Inv(w, Transmit(v, i, x, own, altered))
  {
    hide Owned, Caused, TableOk, SlotsOk, Leads, Slices, IsSlice, Tallied, LooseBefore, Sized, Born, Story, Ordered;
    ShiftStep(w, v, altered);
    var e, h, h' := EndsOf(v.conns[i]), v.hist[i], Transmit(v, i, x, own, altered).hist[i];
    if h.alone && own && !altered && h.clean && OutStep(v.conns[i], h) {
      SliceMore(e, h.sendBase, h.written, h.transmissions, x);
    }
    SenderStep(w, Shifted(v, altered), i, v.conns[i], h') by { if !h.alone { OneSlot(w, v, i); } }
  }

  /** A segment that goes out is one of the things a wait may bring. */
  lemma TransmitLeads(w: World, v: View, u: View, i: nat, x: Transmission, own: bool, altered: bool)
    requires Inv(w, u) && Sending(v, u, i) && u.conns[i].state == Established && (u.IsOpening(i) ==> !u.hist[i].clean)
    requires own <==> u.hist[i].generation == v.hist[i].generation
    requires altered ==> u.marks.loose || LooseBefore(w, u.calls)
    ensures Sending(v, Transmit(u, i, x, own, altered), i)
  {
    hide Inv, LooseBefore, Leads;
    ShiftStep(w, u, altered);
    SameTables(v, u);
    var z, y := Shifted(u, altered), Transmit(u, i, x, own, altered);
    SendingOn(v, u, z, i);
    SenderLeads(v, z, i, y.conns[i], y.hist[i]);
    assert y == z.Set(i, y.conns[i], y.hist[i]);
  }

  lemma SliceMore(e: Ends, sendBase: u32, written: seq<byte>, transmissions: seq<Transmission>, x: Transmission)
    requires Slices(e, sendBase, written, transmissions) && IsSlice(e, sendBase, written, x)
    ensures Slices(e, sendBase, written, transmissions + [x])
  {
    hide IsSlice;
  }

  lemma ShiftCaused(w: World, v: View, altered: bool)
    requires Inv(w, v) && (altered ==> v.marks.loose || LooseBefore(w, v.calls))
    ensures Caused(w, |v.conns|, v.now, v.calls, v.marks.(shifted := v.marks.shifted || altered))
  {
    hide Owned, SlotsOk, TableOk, CrossedBefore, HungBefore, StirredBefore, AcksBefore, LooseBefore;
  }

  /** A send has gone round more often than this model follows it. */
  lemma StuckStep(w: World, v: View)
    requires Inv(w, v) && v.opening.Some? && v.marks.crossed && AcksBefore(w, v.now) > w.patience
    ensures var v' := Later(v, v.now, v.calls, v.marks.(stuck := true)); Inv(w, v') && Leads(v, v')
  {
    assert Caused(w, |v.conns|, v.now, v.calls, v.marks.(stuck := true));
    hide Owned, SlotsOk, TableOk, Caused, SlotsLead;
    LaterStep(w, v, v.now, v.calls, v.marks.(stuck := true));
  }

  /** The main program sends, perhaps from memory that changes. */
  ghost function Lent(v: View, memory: Memory, inside: bool): View
  {
    v.(marks := v.marks.(loose := v.marks.loose || (!inside && !memory.Steady())))
  }

  /** A connection without segment size is one that is being opened and that a SYN hit. */
  lemma SizelessIsOpening(w: World, v: View, i: nat)
    requires Inv(w, v) && i < |v.conns| && v.conns[i].state == Established && v.conns[i].maxSegmetSize == 0
    ensures v.IsOpening(i) && !v.hist[i].clean && v.marks.crossed
  {
    OneSlot(w, v, i);
    if v.IsOpening(i) && v.hist[i].clean { OpeningIsNew(w, v, i); assert false; }
  }

  lemma LentInside(v: View, memory: Memory)
    ensures Lent(v, memory, true) == v
  {
  }

  lemma LentStep(w: World, v: View, memory: Memory, inside: bool)
    requires Inv(w, v)
    ensures Inv(w, Lent(v, memory, inside))
  {
    hide CrossedBefore, HungBefore, StirredBefore, AcksBefore, LooseBefore, Owned, SlotOk;
    var v' := Lent(v, memory, inside);
    SameOwned(v, v');
    forall i | 0 <= i < |v.conns|
      ensures SlotOk(w, v'.conns[i], v'.hist[i], v'.IsOpening(i), v'.now, v'.marks, v'.Elsewhere(i))
    {
      OneSlot(w, v, i);
      SlotLater(w, v.conns[i], v.hist[i], v.IsOpening(i), v.now, v.marks, v.Elsewhere(i), v.now, v'.marks,
                v.Elsewhere(i));
    }
  }

  /** The start `v` of a send on slot `i`, and the table while it goes on. */
  ghost predicate Sending(v: View, u: View, i: nat)
  {
    Leads(v, u) && i < |v.conns| && (u.conns[i].state == Established && u.hist[i].generation == v.hist[i].generation ==>
                                       v.conns[i].state == Established)
  }

  lemma TablesFit(w: World, v: View)
    requires Inv(w, v)
    ensures w.Valid() && |v.conns| == |v.hist| > 0
  {
  }

  lemma SameTables(v: View, u: View)
    requires Leads(v, u)
    ensures |u.conns| == |u.hist| == |v.conns| == |v.hist|
  {
    hide SlotsLead;
  }

  /** A wait later, it is still the start of that send. */
  lemma SendingOn(v: View, u: View, x: View, i: nat)
    requires Sending(v, u, i) && Leads(u, x) && u.conns[i].state == Established
    ensures Sending(v, x, i)
  {
    StrayIsHung(v, u, i);
    StrayIsHung(u, x, i);
    hide SlotsLead;
    LeadsTransitive(v, u, x);
  }

  /** What a send does to its slot is one of the things a wait may bring. */
  lemma SenderLeads(v: View, u: View, i: nat, c: TcpConnection, h: History)
    requires Sending(v, u, i) && u.conns[i].state == Established && (u.IsOpening(i) ==> !u.hist[i].clean)
    requires c == u.conns[i].(sendSequence := c.sendSequence)
    requires h == u.hist[i].(written := h.written, parts := h.parts, transmissions := h.transmissions, alone := h.alone)
    requires u.hist[i].written <= h.written && u.hist[i].transmissions <= h.transmissions && u.hist[i].parts <= h.parts
    requires h.parts == u.hist[i].parts ==> h.written == u.hist[i].written && c.sendSequence == u.conns[i].sendSequence
    requires u.hist[i].generation == v.hist[i].generation ==>
              (h.alone ==> u.hist[i].alone) && (u.hist[i].alone ==> h.alone || u.marks.shifted)
    ensures Sending(v, u.Set(i, c, h), i)
  {
    var x := u.Set(i, c, h);
    hide SlotLeads;
    forall j | 0 <= j < |v.conns|
      ensures SlotLeads(v.conns[j], v.hist[j], x.conns[j], x.hist[j], v.IsOpening(j), x.marks)
    {
      assert SlotLeads(v.conns[j], v.hist[j], u.conns[j], u.hist[j], v.IsOpening(j), u.marks);
      if j == i { SenderSlot(v.conns[i], v.hist[i], u.conns[i], u.hist[i], c, h, v.IsOpening(i), u.marks); }
    }
  }

  lemma SenderSlot(c0: TcpConnection, h0: History, c: TcpConnection, h: History, c': TcpConnection, h': History,
                   opening: bool, m: Marks)
    requires SlotLeads(c0, h0, c, h, opening, m) && c.state == Established
    requires h.generation == h0.generation ==> c0.state == Established
    requires c' == c.(sendSequence := c'.sendSequence)
    requires h' == h.(written := h'.written, parts := h'.parts, transmissions := h'.transmissions, alone := h'.alone)
    requires h.written <= h'.written && h.transmissions <= h'.transmissions && h.parts <= h'.parts
    requires h'.parts == h.parts ==> h'.written == h.written && c'.sendSequence == c.sendSequence
    requires h.generation == h0.generation ==> (h'.alone ==> h.alone) && (h.alone ==> h'.alone || m.shifted)
    ensures SlotLeads(c0, h0, c', h', opening, m)
  {
  }

  /** `TcpSendData` cuts a part for slot `i`; the send began on incarnation `gen`. */
  function Cut(v: View, i: nat, part: seq<byte>, gen: nat): View
    requires i < |v.conns| && i < |v.hist|
  {
    if v.conns[i].state == Established then Write(if v.hist[i].generation == gen then v else Strayed(v, i), i, part)
    else v.Set(i, v.conns[i].(sendSequence := Wrap32(v.conns[i].sendSequence as int + |part|)), v.hist[i])
  }

  lemma CutStep(w: World, v: View, u: View, i: nat, part: seq<byte>)
    requires Inv(w, u) && Sending(v, u, i) && (u.IsOpening(i) ==> !u.hist[i].clean)
    ensures var x := Cut(u, i, part, v.hist[i].generation); Inv(w, x) && Sending(v, x, i)
  {
    hide Owned, SlotsOk, TableOk, Caused, SlotsLead;
    var gen := v.hist[i].generation;
    if u.conns[i].state == Established {
      StrayIsHung(v, u, i);
      if u.hist[i].generation != gen { StrayStep(w, u, i); }
      WriteStep(w, if u.hist[i].generation == gen then u else Strayed(u, i), i, part);
      var x := Cut(u, i, part, gen);
      SenderLeads(v, u, i, x.conns[i], x.hist[i]);
      assert x == u.Set(i, x.conns[i], x.hist[i]);
    } else {
      WriteNowhereStep(w, u, i, Wrap32(u.conns[i].sendSequence as int + |part|));
      NowhereLeads(v, u, i, Wrap32(u.conns[i].sendSequence as int + |part|));
    }
  }

  /** A slot that was closed and opened again since the start of a send was closed from inside. */
  lemma StrayIsHung(v: View, u: View, i: nat)
    requires Leads(v, u) && i < |v.conns|
    ensures v.hist[i].generation <= u.hist[i].generation
    ensures u.hist[i].generation != v.hist[i].generation ==> u.marks.hung
  {
    assert SlotLeads(v.conns[i], v.hist[i], u.conns[i], u.hist[i], v.IsOpening(i), u.marks);
  }

  lemma NowhereLeads(v: View, u: View, i: nat, send: u32)
    requires Sending(v, u, i) && u.conns[i].state != Established && (u.IsOpening(i) ==> !u.hist[i].clean)
    ensures Sending(v, u.Set(i, u.conns[i].(sendSequence := send), u.hist[i]), i)
  {
    var x := u.Set(i, u.conns[i].(sendSequence := send), u.hist[i]);
    forall j | 0 <= j < |v.conns|
      ensures SlotLeads(v.conns[j], v.hist[j], x.conns[j], x.hist[j], v.IsOpening(j), x.marks)
    {
      assert SlotLeads(v.conns[j], v.hist[j], u.conns[j], u.hist[j], v.IsOpening(j), u.marks);
    }
  }

  /** What `TcpSendData` knows of an established connection. */
  lemma SenderFacts(w: World, v: View, i: nat)
    requires Inv(w, v) && i < |v.conns| && v.conns[i].state == Established
    ensures v.hist[i].clean && v.hist[i].alone ==>
              v.conns[i].sendSequence == Wrap32(v.hist[i].sendBase as int + |v.hist[i].written|)
    ensures v.conns[i].maxSegmetSize <= w.station.MaxSegmentSize()
    ensures !v.IsOpening(i) ==> 1 <= v.conns[i].maxSegmetSize
  {
    hide Owned, SlotsOk, TableOk, Caused, Slices, InStep, Born, Greeted, Confirmed;
    OneSlot(w, v, i);
  }

  /** The segment of a part, at its place in the stream, is a slice. */
  lemma SegmentIsSlice(w: World, c: TcpConnection, h: History, frame: seq<byte>, ident: u16, sequence: u32, at: nat,
                       part: seq<byte>)
    requires IsSegment(frame, w.station, c, ident, sequence, ACK, part)
    requires at + |part| <= |h.written| && h.written[at..at + |part|] == part
    requires sequence == Wrap32(h.sendBase as int + at)
    ensures IsSlice(EndsOf(c), h.sendBase, h.written, Transmission(at, frame))
  {
    SegmentPayload(frame, w.station, c, ident, sequence, ACK, part);
    hide Wrap32, FromEnds;
  }

  // ----- what one packet does ------------------------------------------------------------------

  datatype Reply = Silent | Answer(c: TcpConnection, sequence: u32, flags: byte) | Unreachable(c: TcpConnection,
      quote: seq<byte>)

  /** The outcome of `TcpHandleIncomingPacket`: all of it, or the state and the answer sent when a
      callback first gets to do something, or when the close of slot `i` begins. */
  datatype Reaction =
    | Done(view: View, reply: Reply)
    | Calls(view: View, reply: Reply)
    | Closes(i: nat, view: View, reply: Reply)

  function AckOfSlot(c: TcpConnection): Reply { Answer(c, c.sendSequence, ACK) }

  /** The start of a refused packet that `IcmpSendUnreachable` sends back. */
  function Quoted(p: seq<byte>): seq<byte>
    requires HasHeaders(p)
  {
    p[14..14 + Min(TotalLength(p), 28)]
  }

  function ReactSyn(w: World, v: View, i: nat, p: seq<byte>): Reaction
    requires i < |v.conns| && i < |v.hist| && HasHeaders(p)
  {
    var u := if v.conns[i].state == New then Called(v) else v;
    var accepted := WithState(u, i, SynReceived);
    var answer := Answer(accepted.conns[i], accepted.conns[i].sendSequence, SYN + ACK);
    if v.conns[i].state != New then Done(accepted, answer)
    else
      match w.app.onNew(v.calls)
      case Ok => Done(accepted, answer)
      case Drop => Done(WithState(u, i, NoConnection), Silent)
      case Reject => Done(WithState(u, i, NoConnection), Unreachable(v.conns[i], Quoted(p)))
  }

  /** The data branch, for the segment that the buffer `q` holds. */
  function ReactPayload(w: World, v: View, i: nat, q: seq<byte>, src: Source): Reaction
    requires i < |v.conns| && i < |v.hist| && HasHeaders(q)
  {
    var c := v.conns[i];
    if c.state != Established || DataLength(q) == 0 then Done(v, Silent)
    else if SequenceOf(q) != c.expectedSequence then Done(v, AckOfSlot(c))
    else
      var v' := Deliver(v, i, src, Window(q, DataLength(q)));
      if Inert(w.app.onData(v.calls), v'.conns) then Done(v', AckOfSlot(v'.conns[i]))
      else Calls(v', AckOfSlot(v'.conns[i]))
  }

  /** The FIN branch and what follows it. */
  function ReactData(w: World, v: View, i: nat, q: seq<byte>, src: Source): Reaction
    requires i < |v.conns| && i < |v.hist| && HasHeaders(q)
  {
    var c := v.conns[i];
    if HasFlag(Flags(q), FIN) && (c.state == Established || c.state == Dyeing) then
      if SequenceOf(q) != c.expectedSequence then Done(v, AckOfSlot(c))
      else
        var c' := c.(expectedSequence := Wrap32(c.expectedSequence as int + 1));
        if c.state == Established then Closes(i, BeginClose(v, i, c'.expectedSequence, true), AckOfSlot(c'))
        else Done(v.Set(i, c', v.hist[i]), AckOfSlot(c'))
    else ReactPayload(w, v, i, q, src)
  }

  function ReactSlot(w: World, v: View, i: nat, p: seq<byte>, t: nat): Reaction
    requires i < |v.conns| && i < |v.hist| && HasHeaders(p)
  {
    if Flags(p) == SYN && Awaiting(v.conns[i]) then ReactSyn(w, v, i, p)
    else if HasFlag(Flags(p), ACK) && v.conns[i].state == SynReceived then
      var v' := Establish(w, v, i, t);
      if Inert(w.app.onConnect(v.calls), v'.conns) then ReactData(w, v', i, p, Poll(t)) else Calls(v', Silent)
    else ReactData(w, v, i, p, Poll(t))
  }

  /** What a TCP packet `p`, received at poll `t`, does to the table `v`. */
  ghost function React(w: World, v: View, p: seq<byte>, t: nat): Reaction
    requires w.station.Valid() && WellFormedTcp(p)
    requires |v.hist| == |v.conns|
  {
    if !TcpAccepts(p) then Done(v, Silent)
    else
      var u := Noted(v, p);
      var i, e := FirstMatch(u.conns, p), FirstEmpty(u.conns);
      if i < |u.conns| then ReactSlot(w, u, i, p, t)
      else if Flags(p) != SYN || e == |u.conns| then Done(u, Silent)
      else ReactSlot(w, Accept(w.station, u, e, p, t), e, p, t)
  }

  /** The data branch sees only these fields, and the data. */
  lemma ReactDataSame(w: World, v: View, i: nat, p: seq<byte>, q: seq<byte>, src: Source)
    requires i < |v.conns| && i < |v.hist| && HasHeaders(p) && HasHeaders(q)
    requires Flags(p) == Flags(q) && SequenceOf(p) == SequenceOf(q) && DataLength(p) == DataLength(q)
    requires Window(p, DataLength(p)) == Window(q, DataLength(q))
    ensures ReactData(w, v, i, p, src) == ReactData(w, v, i, q, src)
    ensures ReactPayload(w, v, i, p, src) == ReactPayload(w, v, i, q, src)
  {
  }

  /** The window on a segment does not depend on what lies behind it in the buffer. */
  lemma WindowOfHead(f: seq<byte>, q: seq<byte>)
    requires Heads(f, q) && TcpSized(f)
    ensures Window(f, DataLength(f)) == Window(q, DataLength(f)) == f[54..54 + DataLength(f) as int]
  {
    PayloadLength(f);
    assert forall k | 0 <= k < |f| :: q[k] == f[k];
  }

  /** The frames sent since `before` are exactly `reply`. */
  ghost predicate Replied(s: Station, ident: u16, before: seq<seq<byte>>, after: seq<seq<byte>>, reply: Reply)
  {
    match reply
    case Silent => after == before
    case Answer(c, sequence, flags) =>
      |after| == |before| + 1 && before <= after && IsSegment(after[|before|], s, c, ident, sequence, flags, [])
    case Unreachable(c, quote) =>
      |after| == |before| + 1 && before <= after && IsUnreachable(after[|before|], s, c, ident, quote)
  }

  /** The frames sent since `before` begin with `reply`. */
  ghost predicate Began(s: Station, ident: u16, before: seq<seq<byte>>, after: seq<seq<byte>>, reply: Reply)
  {
    before <= after &&
    (reply == Silent || (|after| > |before| && Replied(s, ident, before, after[..|before| + 1], reply)))
  }

  lemma BeganGrows(s: Station, ident: u16, before: seq<seq<byte>>, mid: seq<seq<byte>>, after: seq<seq<byte>>,
                   reply: Reply)
    requires Began(s, ident, before, mid, reply) && mid <= after
    ensures Began(s, ident, before, after, reply)
  {
    if |mid| > |before| {
      assert after[..|before| + 1] == mid[..|before| + 1];
    }
  }

  lemma AnsweredBegins(s: Station, ident: u16, before: seq<seq<byte>>, after: seq<seq<byte>>, reply: Reply)
    requires Replied(s, ident, before, after, reply)
    ensures Began(s, ident, before, after, reply)
  {
    if reply != Silent {
      assert after[..|before| + 1] == after;
    }
  }
}
