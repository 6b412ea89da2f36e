/**
 The listener machine of `HttpServer` sees the connection table of `TcpEngine`: whatever a run of the engine
 does to the table, a run of that machine does to its slots.
 */
module HttpTable {
  import opened Util
  import opened Frame
  import opened TcpTypes
  import opened LinkLayer
  import opened TcpSpec
  import opened TcpSteps
  import Http = HttpServer

  /** A slot as the listener sees it. One that was filled from a SYN the application has yet to answer is
      still empty. */
  function SlotOf(c: TcpConnection, opening: bool): Http.Slot
  {
    match c.state
    case NoConnection => Http.Empty
    case New => if opening then Http.Opening(c.port) else Http.Empty
    case SynReceived => Http.HalfOpen(c.port)
    case Established => Http.Established(c.port)
    case Dyeing => Http.Dyeing
  }

  /** The listener counts a connection as closed when its close begins, the engine when it ends. */
  function GenerationOf(c: TcpConnection, h: History): nat { h.generation + if c.state == Dyeing then 1 else 0 }

  /** The listener's view of a table, whatever else it knows. */
  ghost predicate Sees(l: Http.Listener, v: View)
  {
    |l.slots| == |l.generation| == |v.conns| == |v.hist|
    && forall i | 0 <= i < |v.conns| ::
         l.slots[i] == SlotOf(v.conns[i], v.IsOpening(i)) && l.generation[i] == GenerationOf(v.conns[i], v.hist[i])
  }

  /** The callback of the engine decides as `HttpTcpOnNewConnection` does, with `app` for the other ports. */
  predicate Decides(w: World, httpPort: u16, l: Http.Listener, v: View, port: u16, app: Http.Verdict)
  {
    (w.app.onNew(v.calls) == Ok <==> Http.Answer(httpPort, l, port, app) == Http.Ok)
  }

  /** What changes the table. */
  datatype Change =
    /** a SYN fills slot `i` and is accepted, dropped or refused */
    | Arrives(i: nat, p: seq<byte>, poll: nat, app: Http.Verdict)
    /** the ACK of a handshake */
    | Acked(i: nat, poll: nat)
    | Closes(i: nat, expected: u32, inside: bool)
    | IsClosed(i: nat)
    /** `TcpConnect` takes slot `i`, succeeds or fails */
    | Dials(i: nat, c: TcpConnection)
    | Succeeds(i: nat, c: TcpConnection, poll: nat)
    | Fails(i: nat)
    /** no state and no pair changes: a poll, a delivery, a send, numbers and link addresses */
    | Quiet(to: View)

  /** The change takes table `v` to `u`. */
  ghost predicate Makes(w: World, httpPort: u16, l: Http.Listener, v: View, ch: Change, u: View)
    requires |v.conns| == |v.hist|
  {
    match ch
    case Arrives(i, p, t, app) =>
      w.station.Valid() && WellFormedTcp(p) && Flags(p) == SYN && i < |v.conns| && v.opening == None
      && v.conns[i].state == NoConnection && Decides(w, httpPort, l, v, TargetPort(p), app)
      && var r := ReactSlot(w, Accept(w.station, v, i, p, t), i, p, t); r.Done? && u == r.view
    case Acked(i, t) => i < |v.conns| && v.conns[i].state == SynReceived && u == Establish(w, v, i, t)
    case Closes(i, expected, inside) =>
      i < |v.conns| && v.conns[i].state == Established && u == BeginClose(v, i, expected, inside)
    case IsClosed(i) => i < |v.conns| && v.conns[i].state == Dyeing && v.closing != [] && u == EndClose(v, i)
    case Dials(i, c) =>
      i < |v.conns| && v.opening == None && v.conns[i].state == NoConnection && c.state == New
      && c.port == DynamicPort(|v.marks.dials|) && u == BeginOpen(v, i, c)
    case Succeeds(i, c, t) =>
      i < |v.conns| && v.opening == Some(i) && v.conns[i].state == New && c.state == Established
      && c.port == v.conns[i].port && u == EndOpen(v, i, c, t)
    case Fails(i) => i < |v.conns| && v.opening == Some(i) && v.conns[i].state == New && u == AbortOpen(v, i)
    case Quiet(to) =>
      u == to && |u.conns| == |u.hist| == |v.conns| && u.opening == v.opening
      && forall i | 0 <= i < |v.conns| ::
           u.conns[i].state == v.conns[i].state && u.conns[i].port == v.conns[i].port
           && u.hist[i].generation == v.hist[i].generation
  }

  /** The step of the listener, if it is one. */
  function StepsOf(ch: Change): seq<Http.Step>
  {
    match ch
    case Arrives(i, p, _, app) => if HasHeaders(p) then [Http.SynFor(i, TargetPort(p), app)] else []
    case Acked(i, _) => [Http.AckFor(i)]
    case Closes(i, _, _) => [Http.CloseOf(i)]
    case IsClosed(i) => [Http.ClosedOf(i)]
    case Dials(i, c) => if c.port >= MIN_DYNAMIC_PORT then [Http.Dial(i, c.port)] else []
    case Succeeds(i, _, _) => [Http.Dialled(i, true)]
    case Fails(i) => [Http.Dialled(i, false)]
    case Quiet(_) => []
  }

  function Moved(httpPort: u16, l: Http.Listener, ch: Change): (l': Http.Listener)
    requires |l.slots| == |l.generation|
    ensures |l'.slots| == |l'.generation|
  {
    Http.Run(httpPort, {}, l, StepsOf(ch))
  }

  lemma OneStep(httpPort: u16, l: Http.Listener, s: Http.Step)
    requires |l.slots| == |l.generation|
    ensures Http.Run(httpPort, {}, l, [s]) == Http.Stepped(httpPort, {}, l, s)
  {
    assert [s][..0] == [];
  }

  lemma NoStep(httpPort: u16, l: Http.Listener)
    requires |l.slots| == |l.generation|
    ensures Http.Run(httpPort, {}, l, []) == l
  {
  }

  /** Each change of the table is a step of the listener, or none. */
  lemma ChangeRefines(w: World, httpPort: u16, l: Http.Listener, v: View, ch: Change, u: View)
    requires Sees(l, v) && Makes(w, httpPort, l, v, ch, u)
    ensures Sees(Moved(httpPort, l, ch), u)
  {
    hide Apart, Inert, AnnouncedMss, Http.Run;
    if StepsOf(ch) != [] { OneStep(httpPort, l, StepsOf(ch)[0]); }
    match ch
    case Arrives(i, p, t, app) => ArrivalRefines(w, httpPort, l, v, i, p, t, app);
    case Acked(_, _) =>
    case Closes(_, _, _) => EndRefines(w, httpPort, l, v, ch, u);
    case IsClosed(_) => EndRefines(w, httpPort, l, v, ch, u);
    case Dials(_, _) => OpenRefines(w, httpPort, l, v, ch, u);
    case Succeeds(_, _, _) => OpenRefines(w, httpPort, l, v, ch, u);
    case Fails(_) => OpenRefines(w, httpPort, l, v, ch, u);
    case Quiet(_) => NoStep(httpPort, l);
  }

  lemma EndRefines(w: World, httpPort: u16, l: Http.Listener, v: View, ch: Change, u: View)
    requires Sees(l, v) && Makes(w, httpPort, l, v, ch, u) && (ch.Closes? || ch.IsClosed?)
    ensures Sees(Moved(httpPort, l, ch), u)
  {
    hide Apart, Inert, AnnouncedMss, Http.Run;
    if StepsOf(ch) != [] { OneStep(httpPort, l, StepsOf(ch)[0]); }
  }

  lemma OpenRefines(w: World, httpPort: u16, l: Http.Listener, v: View, ch: Change, u: View)
    requires Sees(l, v) && Makes(w, httpPort, l, v, ch, u) && (ch.Dials? || ch.Succeeds? || ch.Fails?)
    ensures Sees(Moved(httpPort, l, ch), u)
  {
    hide Apart, Inert, AnnouncedMss, Http.Run;
    if StepsOf(ch) != [] { OneStep(httpPort, l, StepsOf(ch)[0]); }
  }

  lemma ArrivalRefines(w: World, httpPort: u16, l: Http.Listener, v: View, i: nat, p: seq<byte>, t: nat,
                       app: Http.Verdict)
    requires w.station.Valid() && WellFormedTcp(p) && Flags(p) == SYN && Sees(l, v) && i < |v.conns|
    requires v.conns[i].state == NoConnection && v.opening == None && Decides(w, httpPort, l, v, TargetPort(p), app)
    ensures var r := ReactSlot(w, Accept(w.station, v, i, p, t), i, p, t);
            r.Done? && Sees(Http.Stepped(httpPort, {}, l, Http.SynFor(i, TargetPort(p), app)), r.view)
  {
    hide AnnouncedMss;
    var u := Accept(w.station, v, i, p, t);
    assert u.conns[i].state == New;
  }

  /** A run of the engine over the table: each view comes from the one before by a change. */
  ghost predicate TableRun(w: World, httpPort: u16, l: Http.Listener, views: seq<View>, changes: seq<Change>)
    requires |l.slots| == |l.generation|
    decreases |changes|
  {
    |views| == |changes| + 1 && |views[0].conns| == |views[0].hist|
    && (changes != [] ==> Makes(w, httpPort, l, views[0], changes[0], views[1])
                          && TableRun(w, httpPort, Moved(httpPort, l, changes[0]), views[1..], changes[1..]))
  }

  /** The steps of the listener over such a run. */
  function AllSteps(changes: seq<Change>): seq<Http.Step>
  {
    if changes == [] then [] else StepsOf(changes[0]) + AllSteps(changes[1..])
  }

  lemma {:induction false} RunJoins(httpPort: u16, l: Http.Listener, s: seq<Http.Step>, t: seq<Http.Step>)
    requires |l.slots| == |l.generation|
    ensures Http.Run(httpPort, {}, l, s + t) == Http.Run(httpPort, {}, Http.Run(httpPort, {}, l, s), t)
    decreases |t|
  {
    if t == [] {
      assert s + t == s;
    } else {
      var init := t[..|t| - 1];
      assert (s + t)[..|s + t| - 1] == s + init;
      RunJoins(httpPort, l, s, init);
    }
  }

  /** Whatever a run of the engine does to the table, from any table on, a run of the listener does to its slots;
      so what holds of the listener over every run holds of it over the engine. */
  lemma {:induction false} TableRefinesRun(w: World, httpPort: u16, l: Http.Listener, views: seq<View>,
                                           changes: seq<Change>)
    requires |views| > 0 && |l.slots| == |l.generation| && Sees(l, views[0]) && TableRun(w, httpPort, l, views, changes)
    ensures Sees(Http.Run(httpPort, {}, l, AllSteps(changes)), views[|views| - 1])
    decreases |changes|
  {
    hide Makes, Sees;
    if changes != [] {
      ChangeRefines(w, httpPort, l, views[0], changes[0], views[1]);
      TableRefinesRun(w, httpPort, Moved(httpPort, l, changes[0]), views[1..], changes[1..]);
      RunJoins(httpPort, l, StepsOf(changes[0]), AllSteps(changes[1..]));
    }
  }

  /** From empty tables on, the connections on the HTTP port are those of the owner. */
  lemma OwnerOverTheTable(w: World, httpPort: u16, views: seq<View>, changes: seq<Change>)
    requires |views| > 0 && httpPort < 49152
    requires Sees(Http.Initial(|views[0].conns|), views[0])
    requires TableRun(w, httpPort, Http.Initial(|views[0].conns|), views, changes)
    ensures var l := Http.Run(httpPort, {}, Http.Initial(|views[0].conns|), AllSteps(changes));
            var v := views[|views| - 1];
            |v.conns| == |l.slots| && forall i | 0 <= i < |v.conns| ::
              (v.conns[i].state == SynReceived || v.conns[i].state == Established) && v.conns[i].port == httpPort
              <==> l.owner == Some(i)
  {
    hide Http.Run;
    TableRefinesRun(w, httpPort, Http.Initial(|views[0].conns|), views, changes);
    Http.ListenerOwnership(httpPort, |views[0].conns|, AllSteps(changes));
  }

  /** Polls, calls, deliveries and sends are quiet. */
  lemma QuietSteps(w: World, httpPort: u16, l: Http.Listener, v: View, i: nat, src: Source, data: seq<byte>,
                   x: Transmission, own: bool, altered: bool)
    requires i < |v.conns| == |v.hist|
    ensures Makes(w, httpPort, l, v, Quiet(Ticked(v)), Ticked(v))
    ensures Makes(w, httpPort, l, v, Quiet(Called(v)), Called(v))
    ensures var u := Deliver(v, i, src, data); Makes(w, httpPort, l, v, Quiet(u), u)
    ensures var u := Write(v, i, data); Makes(w, httpPort, l, v, Quiet(u), u)
    ensures var u := Transmit(v, i, x, own, altered); Makes(w, httpPort, l, v, Quiet(u), u)
  {
  }

  /** So are numbers and link addresses, and a SYN that is answered again. */
  lemma QuietWrites(w: World, httpPort: u16, l: Http.Listener, v: View, i: nat, c: TcpConnection)
    requires i < |v.conns| == |v.hist| && c.state == v.conns[i].state && c.port == v.conns[i].port
    ensures var u := Rewrite(v, i, c); Makes(w, httpPort, l, v, Quiet(u), u)
    ensures var u := Strayed(v, i); Makes(w, httpPort, l, v, Quiet(u), u)
    ensures v.conns[i].state == SynReceived ==>
              var u := WithState(v, i, SynReceived); Makes(w, httpPort, l, v, Quiet(u), u)
  {
    hide Apart;
  }
}
