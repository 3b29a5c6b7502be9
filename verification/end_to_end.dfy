/** Order pipeline, event bus and position book together. */
module EndToEnd {
  // The pipeline publishes its fills on the bus that the engine reads; the symbol and side of a fill are those of its
  // order. A joint run interleaves the sections of the pipeline with the rounds of the bus loop.

  import P = OrderPipelines
  import B = PositionBooks
  import V = PositionInvariants
  import R = PositionRuns
  import F = IdleFills
  import I = IdleRuns

  datatype Ticket = Ticket(symbol: B.Symbol, side: B.Side)

  type Tickets = P.OrderId -> Ticket

  type Verdicts = P.OrderId -> P.Report

  function BookFill(tickets: Tickets, fill: P.Fill): B.Fill {
    var t := tickets(fill.orderId);
    B.Fill(t.symbol, t.side, fill.price, fill.quantity)
  }

  /** The fills among the events that the pipeline has published. */
  function Fills(tickets: Tickets, events: seq<P.Event>): seq<B.Fill>
    decreases |events|
  {
    if events == [] then []
    else
      var last := events[|events| - 1];
      Fills(tickets, events[..|events| - 1]) + if last.OrderFilled? then [BookFill(tickets, last.fill)] else []
  }

  // ---------- joint runs ----------

  datatype State = State(pipe: P.Pipe, world: R.World)

  datatype Step = Pipeline(step: P.Step) | Engine

  const START: State := State(P.IDLE, R.START)

  /** What a section of the pipeline does to the bus. */
  function Bus(tickets: Tickets, p: P.Pipe, s: P.Step): seq<R.Step> {
    if s.Process? && p.queue != [] then [R.Publish(BookFill(tickets, p.queue[0]))] else []
  }

  function Apply(tickets: Tickets, j: State, s: Step): State {
    match s
    case Pipeline(t) => State(P.Apply(j.pipe, t), R.Exec(j.world, Bus(tickets, j.pipe, t)))
    case Engine => j.(world := R.Apply(j.world, R.Handle))
  }

  function Exec(tickets: Tickets, j: State, steps: seq<Step>): State
    decreases |steps|
  {
    if steps == [] then j else Exec(tickets, Apply(tickets, j, steps[0]), steps[1..])
  }

  predicate Enabled(j: State, s: Step, verdict: Verdicts) {
    match s
    case Pipeline(t) => P.Enabled(j.pipe, t, verdict)
    case Engine => R.Enabled(j.world, R.Handle)
  }

  predicate Legal(tickets: Tickets, j: State, steps: seq<Step>, verdict: Verdicts)
    decreases |steps|
  {
    steps == []
    || (Enabled(j, steps[0], verdict) && Legal(tickets, Apply(tickets, j, steps[0]), steps[1..], verdict))
  }

  /** The pipeline's part of a joint run. */
  function PipeSteps(steps: seq<Step>): seq<P.Step> {
    if steps == [] then []
    else (if steps[0].Pipeline? then [steps[0].step] else []) + PipeSteps(steps[1..])
  }

  /** The book's part: what the pipeline publishes, and the rounds of the bus loop. */
  function BookSteps(tickets: Tickets, j: State, steps: seq<Step>): seq<R.Step>
    decreases |steps|
  {
    if steps == [] then []
    else
      (match steps[0] case Pipeline(t) => Bus(tickets, j.pipe, t) case Engine => [R.Handle])
      + BookSteps(tickets, Apply(tickets, j, steps[0]), steps[1..])
  }

  // ---------- a joint run is a run of each part ----------

  lemma FillsAppend(tickets: Tickets, events: seq<P.Event>, e: P.Event)
    ensures Fills(tickets, events + [e])
         == Fills(tickets, events) + if e.OrderFilled? then [BookFill(tickets, e.fill)] else []
  {
    assert (events + [e])[..|events|] == events;
  }

  lemma BusPublishes(tickets: Tickets, p: P.Pipe, s: P.Step)
    ensures Fills(tickets, P.Apply(p, s).published)
         == Fills(tickets, p.published) + R.Published(Bus(tickets, p, s))
  {
    assert Bus(tickets, p, s) == [] ==> R.Published(Bus(tickets, p, s)) == [];
    hide Fills, R.Published, P.AfterFill, BookFill, P.Delta;
    match s
    case Track(i, _) => FillsAppend(tickets, p.published, P.OrderSubmitted(i));
    case Cancel(i, _) => FillsAppend(tickets, p.published, P.OrderCancelled(i));
    case Process =>
      if p.queue != [] {
        FillsAppend(tickets, p.published, P.OrderFilled(p.queue[0]));
        R.PublishedOne(BookFill(tickets, p.queue[0]));
      }
    case Drain =>
    case Poll(i, _) =>
      FillsAppend(tickets, p.published, P.OrderCancelled(i));
      FillsAppend(tickets, p.published, P.OrderRejected(i));
  }

  lemma {:induction false} PipeProjects(tickets: Tickets, j: State, steps: seq<Step>, verdict: Verdicts)
    requires Legal(tickets, j, steps, verdict)
    ensures P.Legal(j.pipe, PipeSteps(steps), verdict)
    ensures Exec(tickets, j, steps).pipe == P.Exec(j.pipe, PipeSteps(steps))
    decreases |steps|
  {
    hide Bus, P.Apply, P.Enabled, R.Apply, R.Enabled;
    if steps != [] {
      var rest := PipeSteps(steps[1..]);
      PipeProjects(tickets, Apply(tickets, j, steps[0]), steps[1..], verdict);
      if steps[0].Pipeline? {
        P.Unroll(j.pipe, steps[0].step, rest, verdict);
      } else {
        assert PipeSteps(steps) == rest;
      }
    }
  }

  lemma {:induction false} BookProjects(tickets: Tickets, j: State, steps: seq<Step>, verdict: Verdicts)
    requires Legal(tickets, j, steps, verdict)
    ensures var run := BookSteps(tickets, j, steps);
            && R.Legal(j.world, run)
            && Exec(tickets, j, steps).world == R.Exec(j.world, run)
            && Fills(tickets, Exec(tickets, j, steps).pipe.published)
                 == Fills(tickets, j.pipe.published) + R.Published(run)
    decreases |steps|
  {
    if steps != [] {
      hide Bus, Fills, P.Apply, P.Enabled, R.Apply, R.Enabled, R.Published, R.Exec, R.Legal;
      var k := Apply(tickets, j, steps[0]);
      var rest := BookSteps(tickets, k, steps[1..]);
      BookProjects(tickets, k, steps[1..], verdict);
      match steps[0] {
        case Pipeline(t) =>
          BusLegal(tickets, j, t);
          BusPublishes(tickets, j.pipe, t);
          R.Append(j.world, Bus(tickets, j.pipe, t), rest);
          R.PublishedAppend(Bus(tickets, j.pipe, t), rest);
        case Engine =>
          R.One(j.world, R.Handle);
          R.Append(j.world, [R.Handle], rest);
          R.PublishedCons([], R.Handle, rest);
      }
    }
  }

  lemma BusLegal(tickets: Tickets, j: State, s: P.Step)
    ensures R.Legal(j.world, Bus(tickets, j.pipe, s))
  {
    if s.Process? && j.pipe.queue != [] {
      R.One(j.world, R.Publish(BookFill(tickets, j.pipe.queue[0])));
    }
  }

  // ---------- what one order comes to ----------

  /** Where the run tracks the order, or its length if it never does. */
  function TrackedAt(steps: seq<P.Step>, id: P.OrderId): (k: nat)
    ensures k <= |steps|
    ensures k < |steps| ==> steps[k].Track? && steps[k].id == id
    ensures forall i :: 0 <= i < k ==> !(steps[i].Track? && steps[i].id == id)
  {
    if steps == [] || (steps[0].Track? && steps[0].id == id) then 0
    else
      var k := TrackedAt(steps[1..], id);
      assert forall i :: 0 < i <= k ==> steps[i] == steps[1..][i - 1];
      k + 1
  }

  /** The order is not detected again while its fill is queued. */
  predicate Once(steps: seq<P.Step>, id: P.OrderId) {
    var k := TrackedAt(steps, id);
    k < |steps| ==> !P.Repolled(P.TrackedAfter(steps[..k], id, steps[k].r), steps[k + 1..], id)
  }

  /** The quantity that should be announced for an order: what the exchange reported when a poll found it filled, less
      what submission had shown. */
  function Due(steps: seq<P.Step>, verdict: Verdicts, id: P.OrderId): real {
    var k := TrackedAt(steps, id);
    if k == |steps| then 0.0
    else
      var r0 := steps[k].r;
      if !r0.state.Filled? && verdict(id).state.Filled?
         && P.Detections(P.TrackedAfter(steps[..k], id, r0), steps[k + 1..], id) > 0
      then verdict(id).filled - r0.filled
      else 0.0
  }

  lemma {:induction false} NeverTracked(p: P.Pipe, steps: seq<P.Step>, id: P.OrderId)
    requires id !in p.orders && TrackedAt(steps, id) == |steps|
    ensures id !in P.Exec(p, steps).orders
    decreases |steps|
  {
    if steps != [] {
      NeverTracked(P.Apply(p, steps[0]), steps[1..], id);
    }
  }

  lemma TrackedAtPrefix(steps: seq<P.Step>, id: P.OrderId)
    ensures TrackedAt(steps[..TrackedAt(steps, id)], id) == TrackedAt(steps, id)
  {
  }

  /** A run splits at the section that tracks the order. */
  lemma LifeOf(steps: seq<P.Step>, verdict: Verdicts, id: P.OrderId) returns (before: seq<P.Step>, after: seq<P.Step>)
    requires P.Legal(P.IDLE, steps, verdict) && P.Unflushed(steps, id) && TrackedAt(steps, id) < |steps|
    ensures var k := TrackedAt(steps, id);
            && before == steps[..k] && after == steps[k + 1..]
            && P.Life(before, id, steps[k].r, after, verdict)
            && P.Exec(P.IDLE, steps) == P.Exec(P.TrackedAfter(before, id, steps[k].r), after)
  {
    hide P.Apply, P.Exec, P.Legal, TrackedAt;
    var k := TrackedAt(steps, id);
    before, after := steps[..k], steps[k + 1..];
    var track := steps[k];
    assert steps == before + ([track] + after);
    P.Append(P.IDLE, before, [track] + after, verdict);
    TrackedAtPrefix(steps, id);
    NeverTracked(P.IDLE, before, id);
    UnrollLegal(P.Exec(P.IDLE, before), track, after, verdict);
    assert track == P.Track(id, track.r);
  }

  lemma UnrollLegal(p: P.Pipe, s: P.Step, rest: seq<P.Step>, verdict: Verdicts)
    requires P.Legal(p, [s] + rest, verdict)
    ensures P.Exec(p, [s] + rest) == P.Exec(P.Apply(p, s), rest) && P.Legal(P.Apply(p, s), rest, verdict)
  {
    assert ([s] + rest)[1..] == rest;
  }

  /** What is published for an order once none of its fills waits is what is due. */
  lemma PublishedIsDue(steps: seq<P.Step>, verdict: Verdicts, id: P.OrderId)
    requires P.Legal(P.IDLE, steps, verdict) && P.Unflushed(steps, id) && Once(steps, id)
    requires P.Waiting(P.Exec(P.IDLE, steps).queue, id) == 0
    ensures P.Published(P.Exec(P.IDLE, steps).published, id, P.Quantity) == Due(steps, verdict, id)
  {
    hide P.Apply, P.Exec, P.Legal, P.Published, P.Waiting, P.Unflushed, P.Detections, P.Repolled, TrackedAt;
    var k := TrackedAt(steps, id);
    if k == |steps| {
      NeverTracked(P.IDLE, steps, id);
      IdleUnknown(id);
      P.UnknownUntilTracked(P.IDLE, steps, verdict, id);
    } else {
      var r0 := steps[k].r;
      var before, after := LifeOf(steps, verdict, id);
      var p := P.TrackedAfter(before, id, r0);
      P.JustTracked(before, id, r0, after, verdict);
      if r0.state.Filled? {
        P.FilledAtSubmissionIsSilent(p, after, verdict, id, P.Quantity);
      } else if verdict(id).state.Filled? {
        P.ExactlyOnce(before, id, r0, after, verdict, P.Quantity);
      } else {
        P.CancelledIsSilent(before, id, r0, after, verdict, P.Quantity);
      }
    }
  }

  lemma IdleUnknown(id: P.OrderId)
    ensures P.Unknown(P.IDLE, id)
  {
  }

  // ---------- what a symbol comes to ----------

  function Sign(t: Ticket, q: real): real { if t.side.Buy? then q else -q }

  /** What one of the amounts of an order adds to the position in `symbol`. */
  function Adds(tickets: Tickets, id: P.OrderId, symbol: B.Symbol, q: real): real {
    if tickets(id).symbol == symbol then Sign(tickets(id), q) else 0.0
  }

  /** The signed sum of what was published for the orders. */
  function Booked(tickets: Tickets, ids: seq<P.OrderId>, events: seq<P.Event>, symbol: B.Symbol): real
    decreases |ids|
  {
    if ids == [] then 0.0
    else
      Adds(tickets, ids[0], symbol, P.Published(events, ids[0], P.Quantity)) + Booked(tickets, ids[1..], events, symbol)
  }

  /** The signed sum of what is due for the orders. */
  function Owed(tickets: Tickets, ids: seq<P.OrderId>, steps: seq<P.Step>, verdict: Verdicts, symbol: B.Symbol): real
    decreases |ids|
  {
    if ids == [] then 0.0
    else
      Adds(tickets, ids[0], symbol, Due(steps, verdict, ids[0])) + Owed(tickets, ids[1..], steps, verdict, symbol)
  }

  predicate Distinct(ids: seq<P.OrderId>) {
    forall i, j :: 0 <= i < j < |ids| ==> ids[i] != ids[j]
  }

  lemma {:induction false} BookedAppend(tickets: Tickets, ids: seq<P.OrderId>, events: seq<P.Event>, e: P.Event,
                                        symbol: B.Symbol)
    requires Distinct(ids)
    ensures Booked(tickets, ids, events + [e], symbol)
         == Booked(tickets, ids, events, symbol)
            + if e.OrderFilled? && e.fill.orderId in ids then Adds(tickets, e.fill.orderId, symbol, e.fill.quantity)
              else 0.0
    decreases |ids|
  {
    if ids != [] {
      hide P.Published;
      BookedAppend(tickets, ids[1..], events, e, symbol);
      P.PublishedAppend(events, e, ids[0], P.Quantity);
      assert ids[0] !in ids[1..];
    }
  }

  lemma {:induction false} NothingBooked(tickets: Tickets, ids: seq<P.OrderId>, none: seq<P.Event>, symbol: B.Symbol)
    requires none == []
    ensures Booked(tickets, ids, none, symbol) == 0.0
    decreases |ids|
  {
    if ids != [] {
      NothingBooked(tickets, ids[1..], none, symbol);
    }
  }

  ghost predicate Among(events: seq<P.Event>, ids: seq<P.OrderId>) {
    forall i :: 0 <= i < |events| && events[i].OrderFilled? ==> events[i].fill.orderId in ids
  }

  /** The net of the published fills, order by order. */
  lemma {:induction false} NetIsBooked(tickets: Tickets, events: seq<P.Event>, ids: seq<P.OrderId>, symbol: B.Symbol)
    requires Distinct(ids) && Among(events, ids)
    ensures V.Net(Fills(tickets, events), symbol) == Booked(tickets, ids, events, symbol)
    decreases |events|
  {
    hide V.Net, Booked;
    if events == [] {
      NothingBooked(tickets, ids, events, symbol);
      NetOfNone(Fills(tickets, events), symbol);
    } else {
      var n := |events| - 1;
      var init, e := events[..n], events[n];
      NetIsBooked(tickets, init, ids, symbol);
      assert init + [e] == events;
      BookedAppend(tickets, ids, init, e, symbol);
      if e.OrderFilled? {
        V.NetAppend(Fills(tickets, init), BookFill(tickets, e.fill), symbol);
      } else {
        assert Fills(tickets, events) == Fills(tickets, init);
      }
    }
  }

  lemma NetOfNone(fills: seq<B.Fill>, symbol: B.Symbol)
    requires fills == []
    ensures V.Net(fills, symbol) == 0.0
  {
  }

  lemma {:induction false} BookedIsOwed(tickets: Tickets, ids: seq<P.OrderId>, steps: seq<P.Step>, verdict: Verdicts,
                                        symbol: B.Symbol)
    requires P.Legal(P.IDLE, steps, verdict) && P.Exec(P.IDLE, steps).queue == []
    requires forall id :: id in ids ==> P.Unflushed(steps, id) && Once(steps, id)
    ensures Booked(tickets, ids, P.Exec(P.IDLE, steps).published, symbol) == Owed(tickets, ids, steps, verdict, symbol)
    decreases |ids|
  {
    hide P.Legal, P.Exec, P.Published, P.Unflushed, Once, Due;
    if ids != [] {
      var queue := P.Exec(P.IDLE, steps).queue;
      assert P.Waiting(queue, ids[0]) == 0;
      PublishedIsDue(steps, verdict, ids[0]);
      BookedIsOwed(tickets, ids[1..], steps, verdict, symbol);
    }
  }

  // ---------- the theorem ----------

  /** Whatever is published or queued belongs to an order that has been tracked. */
  ghost predicate Known(p: P.Pipe) {
    && (forall i :: 0 <= i < |p.queue| ==> p.queue[i].orderId in p.orders)
    && (forall i :: 0 <= i < |p.published| && p.published[i].OrderFilled? ==> p.published[i].fill.orderId in p.orders)
  }

  lemma {:induction false} KnownRun(p: P.Pipe, steps: seq<P.Step>)
    requires Known(p)
    ensures Known(P.Exec(p, steps))
    decreases |steps|
  {
    if steps != [] {
      KnownStep(p, steps[0]);
      hide P.Apply, Known;
      KnownRun(P.Apply(p, steps[0]), steps[1..]);
    }
  }

  lemma KnownStep(p: P.Pipe, s: P.Step)
    requires Known(p)
    ensures Known(P.Apply(p, s))
  {
    hide P.AfterFill;
  }

  /** The book gets the fills of the run right: they come to it safely at any speed, or safely one by one and so. */
  ghost predicate Booksafe(fills: seq<B.Fill>, run: seq<R.Step>) {
    V.Positive(fills) && (V.Tame(fills) || (F.Free(fills) && I.Unhurried(R.START, run)))
  }

  lemma BookedSafely(fills: seq<B.Fill>, run: seq<R.Step>)
    requires Booksafe(fills, run) && R.Interleaves(run, fills)
    ensures V.Agrees(R.Exec(R.START, run).b, R.Exec(R.START, run).handled)
    ensures R.Delivered(R.Exec(R.START, run)) == R.Published(run)
  {
    hide V.Tame, V.Positive, R.Interleaves, V.Agrees, F.Free, I.Unhurried, R.Exec, R.Delivered, R.Published;
    if V.Tame(fills) {
      R.TameIsSafe(fills, run);
    } else {
      I.FreeIsSafe(fills, run);
    }
  }

  /** From exchange to book: in every joint run in which no order is flushed or detected twice, and whose fills meet one
      of the two conditions for the book, once both queues are empty the book holds in each symbol the signed sum over
      its orders of what the exchange reported as filled, less what submission had shown. */
  lemma EndToEndTheorem(tickets: Tickets, steps: seq<Step>, verdict: Verdicts, ids: seq<P.OrderId>, symbol: B.Symbol)
    requires Legal(tickets, START, steps, verdict)
    requires Distinct(ids) && forall id :: id in ids <==> id in Exec(tickets, START, steps).pipe.orders
    requires forall id :: id in ids ==> P.Unflushed(PipeSteps(steps), id) && Once(PipeSteps(steps), id)
    requires Booksafe(Fills(tickets, Exec(tickets, START, steps).pipe.published), BookSteps(tickets, START, steps))
    requires var j := Exec(tickets, START, steps); j.pipe.queue == [] && R.Waiting(j.world.b.queue) == []
    ensures var book := Exec(tickets, START, steps).world.b;
            B.WellFormed(book) && V.Held(book, symbol) == Owed(tickets, ids, PipeSteps(steps), verdict, symbol)
  {
    hide Exec, Legal, PipeSteps, BookSteps, Fills, Booked, Owed, P.Exec, P.Legal, R.Exec, R.Legal, V.Held, V.Net,
      R.Published, Booksafe;
    var j, run := Exec(tickets, START, steps), BookSteps(tickets, START, steps);
    var fills := Fills(tickets, j.pipe.published);
    PipeProjects(tickets, START, steps, verdict);
    BookProjects(tickets, START, steps, verdict);
    NoFills(tickets, P.IDLE.published);
    assert R.Published(run) == fills;
    BookedSafely(fills, run);
    assert j.world.handled == fills;
    IdleKnown();
    KnownRun(P.IDLE, PipeSteps(steps));
    NetIsBooked(tickets, j.pipe.published, ids, symbol);
    BookedIsOwed(tickets, ids, PipeSteps(steps), verdict, symbol);
  }

  lemma NoFills(tickets: Tickets, none: seq<P.Event>)
    requires none == []
    ensures Fills(tickets, none) == []
  {
  }

  lemma IdleKnown()
    ensures Known(P.IDLE)
  {
  }
}
