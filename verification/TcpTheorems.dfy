/**
 What the invariant of the engine means: callbacks, exactly-once delivery, reliable sending and the
 connection table. Each theorem speaks of any table the engine can be in (`Inv` holds initially and is
 kept by every method of `TcpEngine`), under conditions on what came from outside.
 */
module TcpTheorems {
  import opened Util
  import opened Addresses
  import opened Frame
  import opened TcpTypes
  import opened LinkLayer
  import opened TcpSpec
  import opened TcpSteps

  // ----- what spoils a promise ---------------------------------------------------------------

  /** What spoiled a slot is marked. */
  lemma Unmarked(w: World, v: View, i: nat)
    requires Inv(w, v) && i < |v.conns|
    ensures !v.marks.crossed ==> v.hist[i].orderly && v.hist[i].clean
    ensures !v.marks.stirred ==> v.hist[i].exact
    ensures !v.marks.hung && !v.marks.shifted ==> v.hist[i].alone
    ensures v.marks.distinct ==> Unambiguous(v.conns)
  {
    hide Sized, Born, Ordered, Story, Owned, Caused;
    OneSlot(w, v, i);
  }

  /** A slot is spoiled only by what came from outside. */
  lemma Unspoiled(w: World, v: View, i: nat)
    requires Inv(w, v) && i < |v.conns|
    ensures !CrossedBefore(w, v.now, v.marks.dials) ==> v.hist[i].orderly && v.hist[i].clean && !v.marks.stuck
    ensures !CrossedBefore(w, v.now, v.marks.dials) && |v.marks.dials| <= DYNAMIC_PORTS ==> v.marks.distinct
    ensures !StirredBefore(w, |v.conns|, v.calls) ==> v.hist[i].exact
    ensures !HungBefore(w, |v.conns|, v.now, v.calls) && !v.marks.loose && !LooseBefore(w, v.calls) ==> v.hist[i].alone
  {
    hide CrossedBefore, StirredBefore, HungBefore, LooseBefore, AcksBefore, Owned, SlotsOk, TableOk;
    Unmarked(w, v, i);
  }

  /** A send goes round without end only on a connection that is still being opened, and only as often as
      acknowledgements come. */
  lemma SendsEnd(w: World, v: View)
    requires Inv(w, v)
    ensures !CrossedBefore(w, v.now, v.marks.dials) || AcksBefore(w, v.now) <= w.patience ==> !v.marks.stuck
  {
    hide CrossedBefore, StirredBefore, HungBefore, LooseBefore, AcksBefore, Owned, SlotsOk, TableOk;
  }

  // ----- callbacks ---------------------------------------------------------------------------

  /** The callbacks of a slot are (OnConnect OnIncomingData* OnDisconnect)*, and a group is open exactly
      while the slot is ESTABLISHED. */
  ghost predicate Lifecycle(c: TcpConnection, trace: seq<Event>)
  {
    Grouped(trace) && (c.state == Established <==> GroupOpen(trace))
  }

  /** That holds of a slot if and only if `TcpConnect` never ended on it while it was ESTABLISHED. */
  lemma LifecycleOfSlot(w: World, v: View, i: nat)
    requires Inv(w, v) && i < |v.conns|
    ensures Lifecycle(v.conns[i], v.hist[i].trace) <==> v.hist[i].orderly
  {
    hide Sized, Born, Story, Owned, TableOk, Caused;
    OneSlot(w, v, i);
    PhaseMeans(v.hist[i].trace);
  }

  /** Whether `TcpConnect` succeeds or gives up, its slot keeps its callbacks in order if and only if it is not
      ESTABLISHED by then. */
  lemma OpenKeepsLifecycleIff(w: World, v: View, e: nat, c: TcpConnection, t: nat)
    requires Inv(w, v) && v.opening == Some(e) && v.conns[e].state != Dyeing && c.state == Established && t < v.now
    requires Lifecycle(v.conns[e], v.hist[e].trace)
    requires 1 <= c.maxSegmetSize <= w.station.MaxSegmentSize()
    requires SamePeer(c, v.conns[e]) && (v.hist[e].clean ==> v.hist[e].birth.Active? && Answered(w, c, t, v.now))
    ensures var x := EndOpen(v, e, c, t);
            Lifecycle(x.conns[e], x.hist[e].trace) <==> v.conns[e].state != Established
    ensures var x := AbortOpen(v, e); Lifecycle(x.conns[e], x.hist[e].trace) <==> v.conns[e].state != Established
  {
    EndOpenStep(w, v, e, c, t);
    AbortOpenStep(w, v, e);
    hide Inv, Lifecycle, Apart, Answered;
    LifecycleOfSlot(w, v, e);
    LifecycleOfSlot(w, EndOpen(v, e, c, t), e);
    LifecycleOfSlot(w, AbortOpen(v, e), e);
  }

  /** Whatever comes in while a call waits, a slot keeps its callbacks in order if and only if it did so before. */
  lemma WaitKeepsLifecycleIff(w: World, v: View, v': View, i: nat)
    requires Inv(w, v) && Inv(w, v') && Leads(v, v') && i < |v.conns|
    ensures Lifecycle(v'.conns[i], v'.hist[i].trace) <==> Lifecycle(v.conns[i], v.hist[i].trace)
  {
    OneLeads(v, v', i);
    hide Inv, Lifecycle, SlotsLead;
    LifecycleOfSlot(w, v, i);
    LifecycleOfSlot(w, v', i);
  }

  /** Hence for all slots, in every run in which no bare SYN came from an end that was dialled to the port it
      was dialled from. */
  lemma CallbackLifecycle(w: World, v: View)
    requires Inv(w, v) && !CrossedBefore(w, v.now, v.marks.dials)
    ensures forall i | 0 <= i < |v.conns| :: Lifecycle(v.conns[i], v.hist[i].trace)
  {
    hide Owned, SlotsOk, TableOk, Caused, Lifecycle, CrossedBefore;
    forall i | 0 <= i < |v.conns|
      ensures Lifecycle(v.conns[i], v.hist[i].trace)
    {
      Unspoiled(w, v, i);
      LifecycleOfSlot(w, v, i);
    }
  }

  // ----- closing -----------------------------------------------------------------------------

  /** Over any call that waits, the DYEING slots are the same before and after, they are those of the
      closes around the call, and there are at most as many closes under way as slots. */
  lemma DyeingSlotsAreKept(w: World, v: View, v': View)
    requires Inv(w, v) && Inv(w, v') && Leads(v, v')
    ensures forall i | 0 <= i < |v.conns| :: v'.conns[i].state == Dyeing <==> v.conns[i].state == Dyeing
    ensures forall i | 0 <= i < |v.conns| :: v.conns[i].state == Dyeing <==> i in v.closing
    ensures Distinct(v.closing) && |v.closing| <= |v.conns|
  {
    hide SlotsOk, TableOk, Caused, SlotsLead;
    ClosingBounded(v);
  }

  // ----- receiving ---------------------------------------------------------------------------

  /** The frame of poll `t` carries the peer's stream at `at`, behind a header without options. */
  ghost predicate Carries(w: World, t: nat, base: u32, stream: seq<byte>, at: nat)
  {
    var f := w.supply(t);
    TcpSized(f) && HeaderLength(f) == TCP_HEADER_LEN && SequenceOf(f) == Wrap32(base as int + at)
    && at + |Payload(f)| <= |stream| && Payload(f) == stream[at..at + |Payload(f)|]
  }

  /** A peer that, between polls `since` and `now`, only sent segments of one stream; the network may lose,
      repeat and reorder them. */
  ghost predicate Streams(w: World, e: Ends, base: u32, stream: seq<byte>, since: nat, now: nat)
  {
    forall t: nat | since <= t < now && FromPeer(w, e, t) :: exists at: nat :: Carries(w, t, base, stream, at)
  }

  lemma NumberUnique(base: u32, x: nat, y: nat)
    requires x < 0x1_0000_0000 && y < 0x1_0000_0000 && Wrap32(base as int + x) == Wrap32(base as int + y)
    ensures x == y
  {
    var m := 0x1_0000_0000;
    var a, b := (base as int + x) / m, (base as int + y) / m;
    assert base as int + x == a * m + Wrap32(base as int + x);
    assert base as int + y == b * m + Wrap32(base as int + y);
    assert x - y == (a - b) * m;
  }

  lemma DataOfStream(w: World, t: nat, base: u32, stream: seq<byte>, at: nat)
    requires Carries(w, t, base, stream, at)
    ensures w.DataAt(t) == stream[at..at + |w.DataAt(t)|]
  {
    PayloadLength(w.supply(t));
  }

  lemma CarriesNumber(w: World, t: nat, base: u32, stream: seq<byte>, at: nat)
    requires Carries(w, t, base, stream, at)
    ensures w.SequenceAt(t) == Wrap32(base as int + at) && at + |w.DataAt(t)| <= |stream|
  {
    PayloadLength(w.supply(t));
  }

  /** The next accepted frame continues the stream where the bytes before it end. */
  lemma NextContinues(w: World, t: nat, base: u32, stream: seq<byte>, seen: seq<byte>)
    requires seen <= stream && |stream| < 0x1_0000_0000 && w.SequenceAt(t) == Wrap32(base as int + |seen|)
    requires exists at: nat :: Carries(w, t, base, stream, at)
    ensures seen + w.DataAt(t) <= stream
  {
    hide Wrap32, Carries;
    var at: nat :| Carries(w, t, base, stream, at);
    CarriesNumber(w, t, base, stream, at);
    NumberUnique(base, at, |seen|);
    DataOfStream(w, t, base, stream, at);
  }

  lemma {:induction false} SeenIsPrefix(w: World, e: Ends, base: u32, accepted: seq<nat>, since: nat, now: nat,
                                        stream: seq<byte>)
    requires Provenance(w, e, base, accepted, since, now) && Streams(w, e, base, stream, since, now)
    requires |stream| < 0x1_0000_0000
    ensures Seen(w, accepted) <= stream
    decreases |accepted|
  {
    if accepted != [] {
      hide Provenance, Streams;
      var before, t := accepted[..|accepted| - 1], accepted[|accepted| - 1];
      SeenIsPrefix(w, e, base, before, since, now, stream) by { LastAccepted(w, e, base, accepted, since, now, stream);
          }
      ContinuesSeen(w, e, base, accepted, since, now, stream, Seen(w, before));
    }
  }

  lemma ContinuesSeen(w: World, e: Ends, base: u32, accepted: seq<nat>, since: nat, now: nat, stream: seq<byte>,
                      seen: seq<byte>)
    requires accepted != [] && Provenance(w, e, base, accepted, since, now) && Streams(w, e, base, stream, since, now)
    requires seen == Seen(w, accepted[..|accepted| - 1]) <= stream && |stream| < 0x1_0000_0000
    ensures seen + w.DataAt(accepted[|accepted| - 1]) <= stream
  {
    hide Provenance, Streams, Carries, Wrap32, Seen;
    LastAccepted(w, e, base, accepted, since, now, stream);
    NextContinues(w, accepted[|accepted| - 1], base, stream, seen);
  }

  /** The last accepted frame is from the stream, and follows those before it. */
  lemma LastAccepted(w: World, e: Ends, base: u32, accepted: seq<nat>, since: nat, now: nat, stream: seq<byte>)
    requires accepted != [] && Provenance(w, e, base, accepted, since, now) && Streams(w, e, base, stream, since, now)
    ensures var before, t := accepted[..|accepted| - 1], accepted[|accepted| - 1];
            Provenance(w, e, base, before, since, now) && w.SequenceAt(t) == Wrap32(base as int + |Seen(w, before)|)
            && exists at: nat :: Carries(w, t, base, stream, at)
  {
    hide FromPeer, Carries, Wrap32, Seen;
    assert FromPeer(w, e, accepted[|accepted| - 1]);
  }

  /** The peer of slot `i` sends one stream from its SYN on. */
  ghost predicate PeerStreams(w: World, v: View, i: nat, stream: seq<byte>)
    requires i < |v.conns| == |v.hist|
  {
    |stream| < 0x1_0000_0000 && Streams(w, EndsOf(v.conns[i]), v.hist[i].base, stream, v.hist[i].syn, v.now)
  }

  /** Exactly once and in order: what OnIncomingData has been given is a prefix of the peer's stream,
      and the next expected number counts it. The stream begins right after the peer's SYN. */
  lemma DeliveryOfSlot(w: World, v: View, i: nat, stream: seq<byte>)
    requires Inv(w, v) && i < |v.conns| && v.conns[i].state == Established && v.hist[i].clean && v.hist[i].exact
    requires PeerStreams(w, v, i, stream)
    ensures Delivered(v.hist[i].trace) <= stream
    ensures v.conns[i].expectedSequence == Wrap32(v.hist[i].base as int + |Delivered(v.hist[i].trace)|)
    ensures v.hist[i].base == Wrap32(w.SequenceAt(v.hist[i].syn) as int + 1)
  {
    hide Sized, Born, Confirmed, OutStep, Owned, TableOk, Caused, Streams, Provenance, PhaseOf, FromEnds, Wrap32, Seen;
    hide Delivered;
    OneSlot(w, v, i);
    SeenIsPrefix(w, EndsOf(v.conns[i]), v.hist[i].base, v.hist[i].accepted, v.hist[i].syn, v.now, stream);
  }

  /** Hence in every run in which no such SYN came and no OnConnect had anything to close or to send. */
  lemma ExactlyOnceInOrder(w: World, v: View, i: nat, stream: seq<byte>)
    requires Inv(w, v) && !CrossedBefore(w, v.now, v.marks.dials) && !StirredBefore(w, |v.conns|, v.calls)
    requires i < |v.conns| && v.conns[i].state == Established && PeerStreams(w, v, i, stream)
    ensures Delivered(v.hist[i].trace) <= stream
    ensures v.conns[i].expectedSequence == Wrap32(v.hist[i].base as int + |Delivered(v.hist[i].trace)|)
  {
    hide Inv, PeerStreams, Delivered;
    Unspoiled(w, v, i);
    DeliveryOfSlot(w, v, i, stream);
  }

  /** Whatever was delivered before, whenever it comes again, is acknowledged and changes nothing. */
  lemma DuplicateIsOnlyAcknowledged(w: World, v: View, i: nat, q: seq<byte>, src: Source, at: nat)
    requires Inv(w, v) && i < |v.conns| && v.conns[i].state == Established && v.hist[i].clean && v.hist[i].exact
    requires HasHeaders(q) && (DataLength(q) > 0 || HasFlag(Flags(q), FIN))
    requires at < |Delivered(v.hist[i].trace)| < 0x1_0000_0000 && SequenceOf(q) == Wrap32(v.hist[i].base as int + at)
    ensures ReactData(w, v, i, q, src) == Done(v, AckOfSlot(v.conns[i]))
  {
    hide Sized, Born, Confirmed, Greeted, OutStep, Owned, TableOk, Caused, Provenance, PhaseOf, Wrap32, HasFlag;
    hide DataLength;
    OneSlot(w, v, i);
    if SequenceOf(q) == v.conns[i].expectedSequence {
      NumberUnique(v.hist[i].base, at, |Delivered(v.hist[i].trace)|);
    }
  }

  // ----- sending -----------------------------------------------------------------------------

  /** A byte of the far end's stream that a transmitted segment put there. */
  ghost predicate Explains(x: Transmission, sendBase: u32, at: nat, p: nat, b: byte)
  {
    TcpSized(x.frame) && SequenceOf(x.frame) == Wrap32(sendBase as int + at) && at < 0x1_0000_0000
    && at <= p < at + |Payload(x.frame)| && Payload(x.frame)[p - at] == b
  }

  /** The far end holds in order only bytes that some transmitted segment carried at that place. */
  ghost predicate HeldFrom(held: seq<byte>, h: History)
  {
    forall p | 0 <= p < |held| :: exists k, at: nat ::
      0 <= k < |h.transmissions| && Explains(h.transmissions[k], h.sendBase, at, p, held[p])
  }

  /** Whatever number the receiver reads it under, a segment carries the written bytes of that number. */
  lemma ExplainedByWritten(e: Ends, h: History, x: Transmission, at: nat, p: nat, b: byte)
    requires IsSlice(e, h.sendBase, h.written, x) && |h.written| < 0x1_0000_0000
    requires Explains(x, h.sendBase, at, p, b)
    ensures p < |h.written| && b == h.written[p]
  {
    hide TcpAccepts, Wrap32, HeaderLength;
    NumberUnique(h.sendBase, at, x.offset);
  }

  lemma SenderInStep(w: World, v: View, i: nat)
    requires Inv(w, v) && i < |v.conns| && v.conns[i].state == Established && v.hist[i].clean && v.hist[i].alone
    ensures v.conns[i].sendSequence == Wrap32(v.hist[i].sendBase as int + |v.hist[i].written|)
    ensures Slices(EndsOf(v.conns[i]), v.hist[i].sendBase, v.hist[i].written, v.hist[i].transmissions)
    ensures v.hist[i].sendBase == w.AckAt(v.hist[i].ack)
  {
    hide Sized, Born, Greeted, InStep, Owned, TableOk, Caused, Slices, PhaseOf, FromEnds;
    OneSlot(w, v, i);
  }

  /** An established connection whose sends are all its own and from memory that did not change, less than
      2^32 bytes of them. */
  ghost predicate Sender(w: World, v: View, i: nat)
  {
    Inv(w, v) && i < |v.conns| == |v.hist| && v.conns[i].state == Established && v.hist[i].clean && v.hist[i].alone
    && |v.hist[i].written| < 0x1_0000_0000
  }

  /** Every established connection is one, in a run in which no such SYN came, nothing was closed by a FIN or
      a callback, and all sends were from memory that does not change. */
  lemma SenderUnlessClosed(w: World, v: View, i: nat)
    requires Inv(w, v) && !CrossedBefore(w, v.now, v.marks.dials) && !HungBefore(w, |v.conns|, v.now, v.calls)
    requires !v.marks.loose && !LooseBefore(w, v.calls)
    requires i < |v.conns| && v.conns[i].state == Established && |v.hist[i].written| < 0x1_0000_0000
    ensures Sender(w, v, i)
  {
    Unspoiled(w, v, i);
  }

  /** No two segments sent on a connection carry different bytes under one sequence number. */
  lemma SameNumberSameByte(w: World, v: View, i: nat, j: nat, k: nat, atJ: nat, atK: nat, p: nat, b: byte, b': byte)
    requires Sender(w, v, i) && j < |v.hist[i].transmissions| && k < |v.hist[i].transmissions|
    requires Explains(v.hist[i].transmissions[j], v.hist[i].sendBase, atJ, p, b)
    requires Explains(v.hist[i].transmissions[k], v.hist[i].sendBase, atK, p, b')
    ensures b == b'
  {
    hide Inv, IsSlice, Explains;
    SenderInStep(w, v, i);
    ExplainedByWritten(EndsOf(v.conns[i]), v.hist[i], v.hist[i].transmissions[j], atJ, p, b);
    ExplainedByWritten(EndsOf(v.conns[i]), v.hist[i], v.hist[i].transmissions[k], atK, p, b');
  }

  /** What an honest peer holds is a prefix of what was written. */
  lemma HeldIsPrefix(w: World, v: View, i: nat, held: seq<byte>)
    requires Sender(w, v, i) && HeldFrom(held, v.hist[i])
    ensures held <= v.hist[i].written
  {
    hide Inv, IsSlice, Explains;
    var c, h := v.conns[i], v.hist[i];
    SenderInStep(w, v, i);
    forall p | 0 <= p < |held|
      ensures p < |h.written| && held[p] == h.written[p]
    {
      var k, at: nat :| 0 <= k < |h.transmissions| && Explains(h.transmissions[k], h.sendBase, at, p, held[p]);
      assert IsSlice(EndsOf(c), h.sendBase, h.written, h.transmissions[k]);
      ExplainedByWritten(EndsOf(c), h, h.transmissions[k], at, p, held[p]);
    }
    if held != [] {
      var last := held[|held| - 1];
      assert |held| - 1 < |h.written|;
    }
  }

  /** A peer that acknowledges only what it holds in order, and whose acknowledgement equals our send
      sequence, holds everything written, no more and no less. */
  lemma ReliableSend(w: World, v: View, i: nat, held: seq<byte>, ack: u32)
    requires Sender(w, v, i) && HeldFrom(held, v.hist[i])
    requires ack == Wrap32(v.hist[i].sendBase as int + |held|) && ack == v.conns[i].sendSequence
    ensures held == v.hist[i].written
  {
    hide Inv, HeldFrom, Wrap32, Slices;
    HeldIsPrefix(w, v, i, held);
    SenderInStep(w, v, i);
    SameCount(v.hist[i].sendBase, held, v.hist[i].written);
  }

  lemma SameCount(base: u32, got: seq<byte>, written: seq<byte>)
    requires got <= written && |written| < 0x1_0000_0000
    ensures Wrap32(base as int + |got|) == Wrap32(base as int + |written|) ==> got == written
  {
    hide Wrap32;
    if Wrap32(base as int + |got|) == Wrap32(base as int + |written|) {
      NumberUnique(base, |got|, |written|);
    }
  }

  // ----- both ends ---------------------------------------------------------------------------

  /** The network between two stations: every data frame that reaches `e` begins with a frame that was
      transmitted, but frames may be lost, repeated, reordered and padded. */
  ghost predicate Network(w: World, e: Ends, h: History, since: nat, now: nat)
  {
    forall t: nat | since <= t < now && FromPeer(w, e, t) ::
      exists k :: 0 <= k < |h.transmissions| && Heads(h.transmissions[k].frame, w.supply(t))
  }

  /** The handshake between them: this code numbers every SYN 2, so the receiver saw that number and the
      sender saw it acknowledged. */
  ghost predicate ShookHands(w: World, h: History, w': World, h': History)
  {
    w'.SequenceAt(h'.syn) == 2 && w.AckAt(h.ack) == 3
  }

  /** Two stations running this code: what the receiver's callback got is a prefix of what the sender
      wrote, and every acknowledgement the receiver sends is an honest one. */
  lemma EndToEnd(w: World, v: View, i: nat, w': World, v': View, j: nat)
    requires Sender(w, v, i) && Inv(w', v') && j < |v'.conns| && v'.conns[j].state == Established
    requires v'.hist[j].clean && v'.hist[j].exact && ShookHands(w, v.hist[i], w', v'.hist[j])
    requires Network(w', EndsOf(v'.conns[j]), v.hist[i], v'.hist[j].syn, v'.now)
    ensures v'.hist[j].base == v.hist[i].sendBase == 3
    ensures Delivered(v'.hist[j].trace) <= v.hist[i].written
    ensures v'.conns[j].expectedSequence == Wrap32(v.hist[i].sendBase as int + |Delivered(v'.hist[j].trace)|)
    ensures v'.conns[j].expectedSequence == v.conns[i].sendSequence ==> Delivered(v'.hist[j].trace) == v.hist[i].written
  {
    hide Owned, SlotsOk, TableOk, Caused, Network, Streams, Slices, FromPeer, Delivered, Wrap32;
    SenderInStep(w, v, i);
    var e, h, h' := EndsOf(v'.conns[j]), v.hist[i], v'.hist[j];
    BaseIsThree(w', v', j);
    NetworkStreams(w', e, EndsOf(v.conns[i]), h, h'.syn, v'.now);
    DeliveryOfSlot(w', v', j, h.written);
    SameCount(h.sendBase, Delivered(h'.trace), h.written);
  }

  lemma BaseIsThree(w: World, v: View, j: nat)
    requires Inv(w, v) && j < |v.conns| && v.conns[j].state == Established && v.hist[j].clean
    requires w.SequenceAt(v.hist[j].syn) == 2
    ensures v.hist[j].base == 3
  {
    hide Sized, Born, Confirmed, InStep, OutStep, Owned, TableOk, Caused, PhaseOf, FromEnds;
    OneSlot(w, v, j);
  }

  /** Seen from the receiver, such a network is a peer that streams what was written. */
  lemma NetworkStreams(w: World, e: Ends, sender: Ends, h: History, since: nat, now: nat)
    requires w.Valid() && Network(w, e, h, since, now) && Slices(sender, h.sendBase, h.written, h.transmissions)
    ensures Streams(w, e, h.sendBase, h.written, since, now)
  {
    hide FromPeer, Carries, IsSlice, Heads;
    forall t: nat | since <= t < now && FromPeer(w, e, t)
      ensures exists at: nat :: Carries(w, t, h.sendBase, h.written, at)
    {
      var k :| 0 <= k < |h.transmissions| && Heads(h.transmissions[k].frame, w.supply(t));
      assert w.station.WellFormed(w.supply(t));
      assert IsSlice(sender, h.sendBase, h.written, h.transmissions[k]);
      TransmissionCarries(w, t, sender, h, h.transmissions[k]);
    }
  }

  lemma TransmissionCarries(w: World, t: nat, e: Ends, h: History, x: Transmission)
    requires IsSlice(e, h.sendBase, h.written, x) && Heads(x.frame, w.supply(t)) && |w.supply(t)| < 0x8000
    ensures Carries(w, t, h.sendBase, h.written, x.offset)
  {
    hide TcpAccepts, Payload;
    AcceptedIsSized(x.frame);
    HeadReads(x.frame, w.supply(t));
    HeadPayload(x.frame, w.supply(t));
  }

  /** Padding does not change the payload of a segment without options. */
  lemma HeadPayload(x: seq<byte>, f: seq<byte>)
    requires TcpSized(x) && HeaderLength(x) == TCP_HEADER_LEN && Heads(x, f) && |f| < 0x8000
    ensures TcpSized(f) && Payload(f) == Payload(x)
  {
    hide TcpAccepts, OptionsOk;
    HeadReads(x, f);
    HeadTcp(x, f);
    PayloadLength(f);
    PayloadLength(x);
  }

  lemma AcceptedIsSized(f: seq<byte>)
    requires TcpAccepts(f)
    ensures TcpSized(f)
  {
  }

  // ----- the table ---------------------------------------------------------------------------

  /** At most one slot answers to any packet if and only if no two live records are twins. */
  lemma OneConnectionPerPacketIff(conns: seq<TcpConnection>)
    ensures Unambiguous(conns) <==> forall p, i, j | HasHeaders(p) && 0 <= i < |conns| && 0 <= j < |conns|
        && Matches(p, conns[i]) && Matches(p, conns[j]) :: i == j
  {
    if Unambiguous(conns) {
      forall p, i, j | HasHeaders(p) && 0 <= i < |conns| && 0 <= j < |conns| && Matches(p, conns[i])
                       && Matches(p, conns[j])
        ensures i == j
      {
        assert SamePeer(conns[i], conns[j]) && SamePeer(conns[j], conns[i]);
      }
    } else {
      var i, j :| 0 <= i < j < |conns| && Live(conns[i]) && Live(conns[j]) && SamePeer(conns[i], conns[j]);
      var p := PacketOf(conns[i]);
      assert Matches(p, conns[i]) && Matches(p, conns[j]);
    }
  }

  /** A packet for a live connection. */
  lemma PacketOf(c: TcpConnection) returns (p: seq<byte>)
    requires Live(c)
    ensures HasHeaders(p) && Matches(p, c)
  {
    p := seq(60, k requires 0 <= k < 60 =>
                   if 6 <= k < 12 then c.mac[k - 6]
                   else if 26 <= k < 30 then c.ip[k - 26]
                   else if 34 <= k < 36 then ShortBytes(c.remotePort)[k - 34]
                   else if 36 <= k < 38 then ShortBytes(c.port)[k - 36]
                   else 0);
    assert p[6..12] == c.mac && p[26..30] == c.ip;
    assert SourcePort(p) == ShortAt(ShortBytes(c.remotePort), 0) && TargetPort(p) == ShortAt(ShortBytes(c.port), 0);
  }

  /** That is so as long as no bare SYN came from an end that was dialled to the port it was dialled from, and
      `TcpConnect` has not gone through all dynamic ports. */
  lemma OneConnectionPerPacket(w: World, v: View)
    requires Inv(w, v) && !CrossedBefore(w, v.now, v.marks.dials) && |v.marks.dials| <= DYNAMIC_PORTS
    ensures Unambiguous(v.conns)
  {
    Unspoiled(w, v, 0);
  }

  /** Of all that happens to the table, only what `TcpConnect` writes can make two live records twins: when it
      takes a slot, when it has the link address, and when it has its SYN-ACK. Each of these does so if and
      only if the record it writes is not apart from the live ones. */
  lemma OpenKeepsUnambiguousIff(v: View, e: nat, c: TcpConnection, t: nat)
    requires |v.conns| == |v.hist| && e < |v.conns| && Unambiguous(v.conns)
    ensures Unambiguous(BeginOpen(v, e, c).conns) <==> Apart(v.conns[e := c], e)
    ensures Unambiguous(Rewrite(v, e, c).conns) <==> Apart(v.conns[e := c], e)
    ensures Unambiguous(EndOpen(v, e, c, t).conns) <==> Apart(v.conns[e := c], e)
  {
    ApartIff(v.conns, e, c);
    hide Apart, Unambiguous;
    assert v.conns[e := c][e := c] == v.conns[e := c];
  }

  /** A packet of a live connection opens no slot and touches no other connection. */
  lemma LivePacketStaysInItsSlot(w: World, v: View, p: seq<byte>, t: nat, j: nat)
    requires Inv(w, v) && WellFormedTcp(p) && Brought(w, t, p, v.now) && j < |v.conns|
    requires FirstMatch(v.conns, p) < |v.conns| && j != FirstMatch(v.conns, p)
    ensures match React(w, v, p, t)
            case Done(u, _) => |u.conns| == |v.conns| && u.conns[j] == v.conns[j]
            case Calls(u, _) => |u.conns| == |v.conns| && u.conns[j] == v.conns[j]
            case Closes(i, u, _) => i == FirstMatch(v.conns, p) && |u.conns| == |v.conns| && u.conns[j] == v.conns[j]
  {
    hide TcpAccepts, Owned, SlotsOk, TableOk, Caused, ReactSlot, Noted, SlotsLead;
    NotedStep(w, v, p, t);
    ReactionStays(w, Noted(v, p), FirstMatch(v.conns, p), p, t, j);
  }

  /** What a packet does to the slot it belongs to, it does to no other. */
  lemma ReactionStays(w: World, v: View, i: nat, p: seq<byte>, t: nat, j: nat)
    requires i < |v.conns| == |v.hist| && HasHeaders(p) && j < |v.conns| && j != i
    ensures match ReactSlot(w, v, i, p, t)
            case Done(u, _) => |u.conns| == |v.conns| && u.conns[j] == v.conns[j]
            case Calls(u, _) => |u.conns| == |v.conns| && u.conns[j] == v.conns[j]
            case Closes(k, u, _) => k == i && |u.conns| == |v.conns| && u.conns[j] == v.conns[j]
  {
    hide DataLength, HasFlag, Inert, Window, Wrap32;
  }
}
