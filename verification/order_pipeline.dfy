/** Fill tracking in engine/order_pipeline.py. */
module OrderPipelines {
  // The status poller, the fill processor and the order submitter share `Order` objects, the open-order map and the
  // fill queue. Between two awaits a task runs alone, so each such section is one method of `OrderPipeline` and one
  // `Step` of a run. What the exchange answers is a parameter. Times and log lines play no role.

  datatype OrderId = OrderId(uuid: string)

  datatype OrderState = Pending | Submitted | Partial | Filled | Cancelled | Rejected | Expired

  /** The attributes of an order object. */
  datatype OrderRec = OrderRec(quantity: real, filled: real, avgPrice: real, commission: real, state: OrderState)

  /** What `fetch_order` returns. */
  datatype Report = Report(state: OrderState, filled: real, avgPrice: real, commission: real)

  datatype Fill = Fill(orderId: OrderId, price: real, quantity: real, commission: real)

  datatype Event =
    | OrderFilled(fill: Fill)
    | OrderSubmitted(id: OrderId)
    | OrderCancelled(id: OrderId)
    | OrderRejected(id: OrderId)

  datatype Pipe = Pipe(
    orders: map<OrderId, OrderRec>,   // every order ever tracked, open or not
    open: set<OrderId>,
    queue: seq<Fill>,
    published: seq<Event>)

  const IDLE: Pipe := Pipe(map[], {}, [], [])

  // ---------- the sections ----------

  function AfterFill(r: OrderRec, fill: Fill): OrderRec {
    var filled := r.filled + fill.quantity;
    r.(filled := filled, avgPrice := fill.price, commission := r.commission + fill.commission,
       state := if filled >= r.quantity then Filled else Partial)
  }

  function Processed(p: Pipe): Pipe
    requires p.queue != []
  {
    var fill := p.queue[0];
    var q := p.(queue := p.queue[1..], published := p.published + [OrderFilled(fill)]);
    if fill.orderId in p.open && fill.orderId in p.orders then
      var r := AfterFill(p.orders[fill.orderId], fill);
      q.(orders := p.orders[fill.orderId := r], open := if r.state.Filled? then p.open - {fill.orderId} else p.open)
    else q
  }

  predicate Detects(p: Pipe, id: OrderId, report: Report) {
    id in p.orders && report.state.Filled? && !p.orders[id].state.Filled?
  }

  function Delta(r: OrderRec, id: OrderId, report: Report): Fill {
    Fill(id, report.avgPrice, report.filled - r.filled, report.commission - r.commission)
  }

  function Polled(p: Pipe, id: OrderId, report: Report): Pipe
    requires id in p.orders
  {
    if Detects(p, id, report) then p.(queue := p.queue + [Delta(p.orders[id], id, report)])
    else if report.state.Cancelled? then p.(open := p.open - {id}, published := p.published + [OrderCancelled(id)])
    else if report.state.Rejected? then p.(open := p.open - {id}, published := p.published + [OrderRejected(id)])
    else p
  }

  function Tracked(p: Pipe, id: OrderId, r: OrderRec): Pipe {
    p.(orders := p.orders[id := r], open := p.open + {id}, published := p.published + [OrderSubmitted(id)])
  }

  /** The exchange hands back either the tracked order object itself (`same`) or a fresh one. */
  function CancelledBy(p: Pipe, id: OrderId, same: bool): Pipe
    requires id in p.orders
  {
    p.(orders := if same then p.orders[id := p.orders[id].(state := Cancelled)] else p.orders,
       open := p.open - {id},
       published := p.published + [OrderCancelled(id)])
  }

  class Order {
    const id: OrderId
    var quantity: real
    var filled: real
    var avgPrice: real
    var commission: real
    var state: OrderState

    constructor (id: OrderId, r: OrderRec)
      ensures this.id == id && Rec() == r
    {
      this.id := id;
      quantity, filled, avgPrice, commission, state := r.quantity, r.filled, r.avgPrice, r.commission, r.state;
    }

    function Rec(): OrderRec
      reads this
    {
      OrderRec(quantity, filled, avgPrice, commission, state)
    }

    method Apply(fill: Fill)
      modifies this
      ensures Rec() == AfterFill(old(Rec()), fill)
    {
      filled := filled + fill.quantity;
      avgPrice := fill.price;
      commission := commission + fill.commission;
      state := if filled >= quantity then Filled else Partial;
    }
  }

  class OrderPipeline {
    var openOrders: map<OrderId, Order>
    var fillQueue: seq<Fill>
    var published: seq<Event>
    ghost var tracked: map<OrderId, Order>

    ghost predicate Valid()
      reads this, tracked.Values
    {
      && (forall id :: id in tracked ==> tracked[id].id == id)
      && (forall id :: id in openOrders ==> id in tracked && openOrders[id] == tracked[id])
    }

    ghost function Value(): Pipe
      reads this, tracked.Values
    {
      Pipe(map id | id in tracked :: tracked[id].Rec(), openOrders.Keys, fillQueue, published)
    }

    constructor ()
      ensures Valid() && Value() == IDLE && fresh(tracked.Values)
    {
      openOrders, fillQueue, published, tracked := map[], [], [], map[];
    }

    /** The tail of `submit_signal`: track what the exchange returned. Identifiers are never reused. */
    method Track(order: Order)
      requires Valid() && order.id !in tracked
      modifies this
      ensures Valid() && tracked == old(tracked)[order.id := order]
      ensures Value() == Tracked(old(Value()), order.id, order.Rec())
    {
      openOrders := openOrders[order.id := order];
      tracked := tracked[order.id := order];
      published := published + [OrderSubmitted(order.id)];
    }

    /** One round of `_fill_processor_loop`. */
    method ProcessFill()
      requires Valid() && fillQueue != []
      modifies this, tracked.Values
      ensures Valid() && tracked == old(tracked)
      ensures Value() == Processed(old(Value()))
    {
      var fill := fillQueue[0];
      fillQueue := fillQueue[1..];
      if fill.orderId in openOrders {
        var order := openOrders[fill.orderId];
        assert order in tracked.Values;
        order.Apply(fill);
        if order.state == Filled {
          openOrders := openOrders - {order.id};
        }
      }
      published := published + [OrderFilled(fill)];
    }

    /** What `_order_status_poller_loop` does with one reply, which may be the very object that is tracked. The loop
        walks a snapshot of the open orders, so `order` may have left the open map while the request was under way. */
    method HandleReply(order: Order, updated: Order)
      requires Valid() && order in tracked.Values
      modifies this
      ensures Valid() && tracked == old(tracked)
      ensures var report := Report(updated.state, updated.filled, updated.avgPrice, updated.commission);
              Value() == Polled(old(Value()), order.id, report)
    {
      if updated.state == Filled && order.state != Filled {
        fillQueue := fillQueue + [Fill(order.id, updated.avgPrice, updated.filled - order.filled,
                                       updated.commission - order.commission)];
      } else if updated.state == Cancelled {
        openOrders := openOrders - {order.id};
        published := published + [OrderCancelled(order.id)];
      } else if updated.state == Rejected {
        openOrders := openOrders - {order.id};
        published := published + [OrderRejected(order.id)];
      }
    }

    /** `_cancel_order`, once the exchange has confirmed. */
    method Cancel(order: Order, same: bool)
      requires Valid() && order in tracked.Values
      modifies this, order
      ensures Valid() && tracked == old(tracked)
      ensures Value() == CancelledBy(old(Value()), order.id, same)
    {
      if same { order.state := Cancelled; }
      openOrders := openOrders - {order.id};
      published := published + [OrderCancelled(order.id)];
    }

    /** The second half of `flush`. */
    method DrainFills()
      requires Valid()
      modifies this
      ensures Valid() && tracked == old(tracked)
      ensures Value() == old(Value()).(queue := [])
    {
      while fillQueue != []
        invariant openOrders == old(openOrders) && published == old(published) && tracked == old(tracked)
        decreases |fillQueue|
      {
        fillQueue := fillQueue[1..];
      }
    }
  }

  // ---------- runs ----------

  datatype Step =
    | Track(id: OrderId, r: OrderRec)
    | Poll(id: OrderId, report: Report)
    | Process
    | Cancel(id: OrderId, same: bool)
    | Drain

  /** The exchange may still say anything about an unfinished order, but what it says of a finished one is settled:
      `verdict(id)` is its only terminal answer. Order identifiers are unique. */
  predicate Enabled(p: Pipe, s: Step, verdict: OrderId -> Report) {
    match s
    case Track(id, _) => id !in p.orders
    case Poll(id, report) => id in p.orders && (Terminal(report) ==> report == verdict(id))
    case Process => p.queue != []
    case Cancel(id, _) => id in p.orders
    case Drain => true
  }

  predicate Terminal(report: Report) {
    report.state.Filled? || report.state.Cancelled? || report.state.Rejected? || report.state.Expired?
  }

  function Apply(p: Pipe, s: Step): Pipe {
    match s
    case Track(id, r) => Tracked(p, id, r)
    case Poll(id, report) => if id in p.orders then Polled(p, id, report) else p
    case Process => if p.queue != [] then Processed(p) else p
    case Cancel(id, same) => if id in p.orders then CancelledBy(p, id, same) else p
    case Drain => p.(queue := [])
  }

  function Exec(p: Pipe, steps: seq<Step>): Pipe
    decreases |steps|
  {
    if steps == [] then p else Exec(Apply(p, steps[0]), steps[1..])
  }

  predicate Legal(p: Pipe, steps: seq<Step>, verdict: OrderId -> Report)
    decreases |steps|
  {
    steps == [] || (Enabled(p, steps[0], verdict) && Legal(Apply(p, steps[0]), steps[1..], verdict))
  }

  /** No flush touches order `id`. */
  predicate Unflushed(steps: seq<Step>, id: OrderId) {
    forall i :: 0 <= i < |steps| ==> !steps[i].Drain? && !(steps[i].Cancel? && steps[i].id == id)
  }

  // ---------- what was published for one order ----------

  /** The two figures a fill carries that must add up. */
  datatype Column = Quantity | Commission

  function Worth(fill: Fill, id: OrderId, c: Column): real {
    if fill.orderId != id then 0.0 else if c.Quantity? then fill.quantity else fill.commission
  }

  function Done(r: OrderRec, c: Column): real { if c.Quantity? then r.filled else r.commission }

  function Told(report: Report, c: Column): real { if c.Quantity? then report.filled else report.commission }

  function Queued(queue: seq<Fill>, id: OrderId, c: Column): real {
    if queue == [] then 0.0 else Worth(queue[0], id, c) + Queued(queue[1..], id, c)
  }

  function Published(events: seq<Event>, id: OrderId, c: Column): real
    decreases |events|
  {
    if events == [] then 0.0
    else
      var last := events[|events| - 1];
      Published(events[..|events| - 1], id, c) + if last.OrderFilled? then Worth(last.fill, id, c) else 0.0
  }

  /** All that has been announced for an order, whether already published or still queued. */
  function Announced(p: Pipe, id: OrderId, c: Column): real {
    Published(p.published, id, c) + Queued(p.queue, id, c)
  }

  /** How many fills of the order wait in the queue. */
  function Waiting(queue: seq<Fill>, id: OrderId): nat {
    if queue == [] then 0 else (if queue[0].orderId == id then 1 else 0) + Waiting(queue[1..], id)
  }

  /** How often a run finds order `id` newly filled, and so queues a fill for it. */
  function Detections(p: Pipe, steps: seq<Step>, id: OrderId): nat
    decreases |steps|
  {
    if steps == [] then 0
    else (if Finds(p, steps[0], id) then 1 else 0) + Detections(Apply(p, steps[0]), steps[1..], id)
  }

  predicate Finds(p: Pipe, s: Step, id: OrderId) {
    s.Poll? && s.id == id && Detects(p, id, s.report)
  }

  /** Some detection happens while an earlier fill of the same order still waits in the queue. */
  predicate Repolled(p: Pipe, steps: seq<Step>, id: OrderId)
    decreases |steps|
  {
    steps != [] &&
    ((Finds(p, steps[0], id) && Waiting(p.queue, id) > 0) || Repolled(Apply(p, steps[0]), steps[1..], id))
  }

  // ---------- one step ----------

  lemma {:induction false} QueuedAppend(queue: seq<Fill>, fill: Fill, id: OrderId, c: Column)
    ensures Queued(queue + [fill], id, c) == Queued(queue, id, c) + Worth(fill, id, c)
    ensures Waiting(queue + [fill], id) == Waiting(queue, id) + if fill.orderId == id then 1 else 0
  {
    if queue == [] {
      assert queue + [fill] == [fill];
    } else {
      assert (queue + [fill])[1..] == queue[1..] + [fill];
      QueuedAppend(queue[1..], fill, id, c);
    }
  }

  lemma PublishedAppend(events: seq<Event>, e: Event, id: OrderId, c: Column)
    ensures Published(events + [e], id, c)
         == Published(events, id, c) + if e.OrderFilled? then Worth(e.fill, id, c) else 0.0
  {
    assert (events + [e])[..|events|] == events;
  }

  lemma {:induction false} NoneWaiting(queue: seq<Fill>, id: OrderId, c: Column)
    requires Waiting(queue, id) == 0
    ensures Queued(queue, id, c) == 0.0
  {
    if queue != [] {
      NoneWaiting(queue[1..], id, c);
    }
  }

  /** Processing moves value from the queue to the bus; only a detection adds to what is announced, and it adds the
      difference between the report and the record. */
  lemma AnnouncedStep(p: Pipe, s: Step, id: OrderId, c: Column)
    requires (s.Process? ==> p.queue != []) && !s.Drain?
    ensures Announced(Apply(p, s), id, c) ==
            Announced(p, id, c) + if Finds(p, s, id) then Told(s.report, c) - Done(p.orders[id], c) else 0.0
  {
    match s
    case Track(i, _) => PublishedAppend(p.published, OrderSubmitted(i), id, c);
    case Cancel(i, _) => PublishedAppend(p.published, OrderCancelled(i), id, c);
    case Process => PublishedAppend(p.published, OrderFilled(p.queue[0]), id, c);
    case Poll(i, report) =>
      if i in p.orders {
        QueuedAppend(p.queue, Delta(p.orders[i], i, report), id, c);
        PublishedAppend(p.published, OrderCancelled(i), id, c);
        PublishedAppend(p.published, OrderRejected(i), id, c);
      }
  }

  /** What a step does to the queue entries and the record of order `id`. */
  lemma OrderStep(p: Pipe, s: Step, id: OrderId)
    requires id in p.orders && (s.Track? ==> s.id != id) && (s.Process? ==> p.queue != []) && !s.Drain?
    requires !(s.Cancel? && s.id == id)
    ensures var q := Apply(p, s);
            var mine := s.Process? && p.queue[0].orderId == id;
            && id in q.orders
            && q.orders[id] == (if mine && id in p.open then AfterFill(p.orders[id], p.queue[0]) else p.orders[id])
            && Waiting(q.queue, id)
                 == Waiting(p.queue, id) - (if mine then 1 else 0) + (if Finds(p, s, id) then 1 else 0)
            && (id in q.open <==>
                  (id in p.open && !(mine && q.orders[id].state.Filled?)
                   && !(s.Poll? && s.id == id && (s.report.state.Cancelled? || s.report.state.Rejected?))))
  {
    match s
    case Poll(i, report) =>
      if i in p.orders {
        QueuedAppend(p.queue, Delta(p.orders[i], i, report), id, Quantity);
      }
    case _ =>
  }

  // ---------- every run ----------

  /** `n` times `x`, as a sum. */
  function Copies(n: nat, x: real): real {
    if n == 0 then 0.0 else Copies(n - 1, x) + x
  }

  lemma {:induction false} CopiesSign(n: nat, x: real)
    requires x != 0.0 && n > 0
    ensures if x > 0.0 then Copies(n, x) >= x else Copies(n, x) <= x
    ensures Copies(n, x) == x <==> n == 1
  {
    if n != 1 {
      CopiesSign(n - 1, x);
    }
  }

  /** Every queued fill of the order carries the whole difference between the report `x` and the record `r0`. */
  ghost predicate Uniform(queue: seq<Fill>, id: OrderId, r0: OrderRec, x: Report, c: Column) {
    forall i :: 0 <= i < |queue| && queue[i].orderId == id ==>
      && Worth(queue[i], id, c) == Told(x, c) - Done(r0, c)
      && queue[i].quantity == x.filled - r0.filled
  }

  /** Order `id`, tracked as `r0`, is filled completely by the exchange's final report `x`; `n` detections so far. */
  ghost predicate FullFillInv(p: Pipe, id: OrderId, r0: OrderRec, x: Report, n: nat, c: Column) {
    && id in p.orders
    && p.orders[id].quantity == r0.quantity
    && Uniform(p.queue, id, r0, x, c)
    && Announced(p, id, c) == Copies(n, Told(x, c) - Done(r0, c))
    && (id in p.open <==> !p.orders[id].state.Filled?)
    && (id in p.open ==>
          && Waiting(p.queue, id) == n
          && p.orders[id].filled == r0.filled && Done(p.orders[id], c) == Done(r0, c))
  }

  lemma UniformStep(p: Pipe, s: Step, id: OrderId, r0: OrderRec, x: Report, c: Column)
    requires Uniform(p.queue, id, r0, x, c) && (s.Process? ==> p.queue != [])
    requires Finds(p, s, id) ==>
               s.report == x && p.orders[id].filled == r0.filled && Done(p.orders[id], c) == Done(r0, c)
    ensures Uniform(Apply(p, s).queue, id, r0, x, c)
  {
    var queue := Apply(p, s).queue;
    forall i | 0 <= i < |queue| && queue[i].orderId == id
      ensures Worth(queue[i], id, c) == Told(x, c) - Done(r0, c) && queue[i].quantity == x.filled - r0.filled
    {
      assert queue[i] in p.queue || Finds(p, s, id);
    }
  }

  /** The exchange's replies about order `id` agree with its final report `x`. */
  predicate Fair(p: Pipe, s: Step, id: OrderId, x: Report) {
    && x.state.Filled?
    && (s.Process? ==> p.queue != []) && !s.Drain? && !(s.Cancel? && s.id == id) && !(s.Track? && s.id == id)
    && (s.Poll? && s.id == id && Terminal(s.report) ==> s.report == x)
  }

  lemma FullFillStep(p: Pipe, s: Step, id: OrderId, r0: OrderRec, x: Report, n: nat, c: Column)
    requires r0.quantity <= x.filled && FullFillInv(p, id, r0, x, n, c) && Fair(p, s, id, x)
    ensures id in Apply(p, s).orders && FullFillInv(Apply(p, s), id, r0, x, n + if Finds(p, s, id) then 1 else 0, c)
  {
    AnnouncedStep(p, s, id, c);
    OrderStep(p, s, id);
    UniformStep(p, s, id, r0, x, c);
    if s.Process? && p.queue[0].orderId == id && id in p.open {
      assert p.queue[0].quantity == x.filled - r0.filled;
      assert Apply(p, s).orders[id].state.Filled?;
    }
    assert Copies(n + 1, Told(x, c) - Done(r0, c)) == Copies(n, Told(x, c) - Done(r0, c)) + (Told(x, c) - Done(r0, c));
    hide Announced, Waiting, Uniform, Apply, Copies;
  }

  lemma FindsWaiting(p: Pipe, s: Step, id: OrderId, r0: OrderRec, x: Report, n: nat, c: Column)
    requires FullFillInv(p, id, r0, x, n, c)
    ensures Finds(p, s, id) ==> Waiting(p.queue, id) == n
  {
    hide Waiting, Uniform;
  }

  lemma FairStep(p: Pipe, steps: seq<Step>, verdict: OrderId -> Report, id: OrderId)
    requires steps != [] && id in p.orders && verdict(id).state.Filled?
    requires Legal(p, steps, verdict) && Unflushed(steps, id)
    ensures Fair(p, steps[0], id, verdict(id)) && Legal(Apply(p, steps[0]), steps[1..], verdict)
    ensures Unflushed(steps[1..], id)
  {
    hide Apply;
  }

  lemma {:induction false} FullFillRun(p: Pipe, steps: seq<Step>, verdict: OrderId -> Report,
                                       id: OrderId, r0: OrderRec, n: nat, c: Column)
    requires verdict(id).state.Filled? && r0.quantity <= verdict(id).filled
    requires id in p.orders && FullFillInv(p, id, r0, verdict(id), n, c)
    requires Legal(p, steps, verdict) && Unflushed(steps, id)
    ensures FullFillInv(Exec(p, steps), id, r0, verdict(id), n + Detections(p, steps, id), c)
    ensures Repolled(p, steps, id) <==> Detections(p, steps, id) > 0 && n + Detections(p, steps, id) > 1
    decreases |steps|
  {
    hide FullFillInv, Apply, Waiting, Finds;
    if steps != [] {
      var s := steps[0];
      FairStep(p, steps, verdict, id);
      FindsWaiting(p, s, id, r0, verdict(id), n, c);
      FullFillStep(p, s, id, r0, verdict(id), n, c);
      FullFillRun(Apply(p, s), steps[1..], verdict, id, r0, n + if Finds(p, s, id) then 1 else 0, c);
    }
  }

  lemma PublishedStep(p: Pipe, s: Step, id: OrderId, c: Column)
    requires s.Process? ==> p.queue != []
    ensures Published(Apply(p, s).published, id, c) ==
            Published(p.published, id, c) + if s.Process? then Worth(p.queue[0], id, c) else 0.0
  {
    hide Published, Worth;
    match s
    case Track(i, _) => PublishedAppend(p.published, OrderSubmitted(i), id, c);
    case Cancel(i, _) => PublishedAppend(p.published, OrderCancelled(i), id, c);
    case Process => PublishedAppend(p.published, OrderFilled(p.queue[0]), id, c);
    case Drain =>
    case Poll(i, _) =>
      PublishedAppend(p.published, OrderCancelled(i), id, c);
      PublishedAppend(p.published, OrderRejected(i), id, c);
  }

  /** Order `id`, tracked as `r0` and finally reported as `x`, has never been repolled; `n` detections so far. */
  ghost predicate SingleInv(p: Pipe, id: OrderId, r0: OrderRec, x: Report, n: nat, c: Column) {
    && id in p.orders
    && (id in p.open <==> !p.orders[id].state.Filled?)
    && Waiting(p.queue, id) <= (if id in p.open && n > 0 then 1 else 0)
    && Announced(p, id, c) == (if n == 0 then 0.0 else Told(x, c) - Done(r0, c))
    && (id in p.open ==> Done(p.orders[id], c) == Done(r0, c) + Published(p.published, id, c))
  }

  lemma SingleStep(p: Pipe, s: Step, id: OrderId, r0: OrderRec, x: Report, n: nat, c: Column)
    requires SingleInv(p, id, r0, x, n, c) && Fair(p, s, id, x)
    requires Finds(p, s, id) ==> Waiting(p.queue, id) == 0
    ensures id in Apply(p, s).orders && SingleInv(Apply(p, s), id, r0, x, n + if Finds(p, s, id) then 1 else 0, c)
  {
    hide Waiting, Apply, Published, Queued;
    AnnouncedStep(p, s, id, c);
    PublishedStep(p, s, id, c);
    OrderStep(p, s, id);
    if Finds(p, s, id) {
      NoneWaiting(p.queue, id, c);
    }
  }

  lemma {:induction false} SingleRun(p: Pipe, steps: seq<Step>, verdict: OrderId -> Report,
                                     id: OrderId, r0: OrderRec, n: nat, c: Column)
    requires verdict(id).state.Filled?
    requires id in p.orders && SingleInv(p, id, r0, verdict(id), n, c)
    requires Legal(p, steps, verdict) && Unflushed(steps, id) && !Repolled(p, steps, id)
    ensures SingleInv(Exec(p, steps), id, r0, verdict(id), n + Detections(p, steps, id), c)
    decreases |steps|
  {
    hide SingleInv, Apply, Waiting, Finds;
    if steps != [] {
      var s := steps[0];
      FairStep(p, steps, verdict, id);
      SingleStep(p, s, id, r0, verdict(id), n, c);
      SingleRun(Apply(p, s), steps[1..], verdict, id, r0, n + if Finds(p, s, id) then 1 else 0, c);
    }
  }

  // ---------- the theorems ----------

  /** A pipeline that has never heard of order `id`. */
  predicate Unknown(p: Pipe, id: OrderId) {
    id !in p.orders && Waiting(p.queue, id) == 0
    && Published(p.published, id, Quantity) == 0.0 == Published(p.published, id, Commission)
  }

  lemma {:induction false} UnknownUntilTracked(p: Pipe, steps: seq<Step>, verdict: OrderId -> Report, id: OrderId)
    requires Unknown(p, id) && Legal(p, steps, verdict) && id !in Exec(p, steps).orders
    ensures Unknown(Exec(p, steps), id)
    decreases |steps|
  {
    if steps != [] {
      var s := steps[0];
      if s.Track? && s.id == id {
        OrdersStay(Apply(p, s), steps[1..], id);
      }
      PublishedStep(p, s, id, Quantity);
      PublishedStep(p, s, id, Commission);
      if s.Poll? && Detects(p, s.id, s.report) {
        QueuedAppend(p.queue, Delta(p.orders[s.id], s.id, s.report), id, Quantity);
      }
      UnknownUntilTracked(Apply(p, s), steps[1..], verdict, id);
    }
  }

  lemma {:induction false} OrdersStay(p: Pipe, steps: seq<Step>, id: OrderId)
    requires id in p.orders
    ensures id in Exec(p, steps).orders
    decreases |steps|
  {
    if steps != [] {
      OrdersStay(Apply(p, steps[0]), steps[1..], id);
    }
  }

  /** The state in which a run leaves the pipeline when order `id` has just been tracked as `r0`. */
  function TrackedAfter(before: seq<Step>, id: OrderId, r0: OrderRec): Pipe {
    Apply(Exec(IDLE, before), Track(id, r0))
  }

  /** A run from the idle pipeline that tracks `id` once, as `r0`, and never flushes it. */
  predicate Life(before: seq<Step>, id: OrderId, r0: OrderRec, after: seq<Step>, verdict: OrderId -> Report) {
    && Legal(IDLE, before, verdict)
    && id !in Exec(IDLE, before).orders
    && Legal(TrackedAfter(before, id, r0), after, verdict)
    && Unflushed(after, id)
  }

  lemma JustTracked(before: seq<Step>, id: OrderId, r0: OrderRec, after: seq<Step>, verdict: OrderId -> Report)
    requires Life(before, id, r0, after, verdict)
    ensures var p := TrackedAfter(before, id, r0);
            && id in p.orders && p.orders[id] == r0 && id in p.open && Waiting(p.queue, id) == 0
            && (forall c :: Published(p.published, id, c) == 0.0 && Announced(p, id, c) == 0.0)
            && (forall i :: 0 <= i < |p.queue| ==> p.queue[i].orderId != id)
  {
    var p := Exec(IDLE, before);
    UnknownUntilTracked(IDLE, before, verdict, id);
    forall c ensures Published(TrackedAfter(before, id, r0).published, id, c) == 0.0 && Queued(p.queue, id, c) == 0.0 {
      PublishedStep(p, Track(id, r0), id, c);
      NoneWaiting(p.queue, id, c);
      assert c.Quantity? || c.Commission?;
    }
    NoneQueued(p.queue, id);
  }

  lemma {:induction false} NoneQueued(queue: seq<Fill>, id: OrderId)
    requires Waiting(queue, id) == 0
    ensures forall i :: 0 <= i < |queue| ==> queue[i].orderId != id
  {
    if queue != [] {
      NoneQueued(queue[1..], id);
      assert forall i :: 0 < i < |queue| ==> queue[i] == queue[1..][i - 1];
    }
  }

  /** What a completely filled order costs in every interleaving: each detection made before the first fill was
      processed announces the whole difference between the exchange's report and the submitted record again. */
  lemma EveryDetectionIsAnnounced(before: seq<Step>, id: OrderId, r0: OrderRec, after: seq<Step>,
                                  verdict: OrderId -> Report, c: Column)
    requires Life(before, id, r0, after, verdict) && !r0.state.Filled?
    requires verdict(id).state.Filled? && r0.quantity <= verdict(id).filled
    ensures var p := TrackedAfter(before, id, r0);
            Announced(Exec(p, after), id, c) == Copies(Detections(p, after, id), Told(verdict(id), c) - Done(r0, c))
    ensures var p := TrackedAfter(before, id, r0);
            Repolled(p, after, id) <==> Detections(p, after, id) >= 2
  {
    var p := TrackedAfter(before, id, r0);
    JustTracked(before, id, r0, after, verdict);
    assert FullFillInv(p, id, r0, verdict(id), 0, c);
    FullFillRun(p, after, verdict, id, r0, 0, c);
  }

  /** Exactly once: while no order is polled again with its fill still queued, what has been published for a detected
      order once its fill is processed is what the exchange reported, less what the submission already showed. This
      holds even when the exchange calls an order FILLED short of its quantity, and the order then stays open. */
  lemma ExactlyOnce(before: seq<Step>, id: OrderId, r0: OrderRec, after: seq<Step>,
                    verdict: OrderId -> Report, c: Column)
    requires Life(before, id, r0, after, verdict) && !r0.state.Filled?
    requires verdict(id).state.Filled? && !Repolled(TrackedAfter(before, id, r0), after, id)
    ensures var p := TrackedAfter(before, id, r0);
            var q := Exec(p, after);
            Waiting(q.queue, id) == 0 ==>
              Published(q.published, id, c)
                == if Detections(p, after, id) > 0 then Told(verdict(id), c) - Done(r0, c) else 0.0
  {
    var p := TrackedAfter(before, id, r0);
    JustTracked(before, id, r0, after, verdict);
    assert SingleInv(p, id, r0, verdict(id), 0, c);
    SingleRun(p, after, verdict, id, r0, 0, c);
    var q := Exec(p, after);
    if Waiting(q.queue, id) == 0 {
      NoneWaiting(q.queue, id, c);
    }
  }

  /** The condition is exact: for an order the exchange fills completely, with something left to report at submission,
      the published total is right if and only if the run never repolled. */
  lemma ExactlyOnceIff(before: seq<Step>, id: OrderId, r0: OrderRec, after: seq<Step>,
                       verdict: OrderId -> Report, c: Column)
    requires Life(before, id, r0, after, verdict) && !r0.state.Filled?
    requires verdict(id).state.Filled? && r0.quantity <= verdict(id).filled
    requires Told(verdict(id), c) != Done(r0, c)
    requires Detections(TrackedAfter(before, id, r0), after, id) > 0
    requires Waiting(Exec(TrackedAfter(before, id, r0), after).queue, id) == 0
    ensures var p := TrackedAfter(before, id, r0);
            (Published(Exec(p, after).published, id, c) == Told(verdict(id), c) - Done(r0, c))
            <==> !Repolled(p, after, id)
  {
    var p := TrackedAfter(before, id, r0);
    var n, d := Detections(p, after, id), Told(verdict(id), c) - Done(r0, c);
    EveryDetectionIsAnnounced(before, id, r0, after, verdict, c);
    NoneWaiting(Exec(p, after).queue, id, c);
    CopiesSign(n, d);
  }

  /** An order that comes back from submission already FILLED is never announced at all. */
  lemma {:induction false} FilledAtSubmissionIsSilent(p: Pipe, steps: seq<Step>, verdict: OrderId -> Report,
                                                      id: OrderId, c: Column)
    requires id in p.orders && p.orders[id].state.Filled? && Waiting(p.queue, id) == 0
    requires Legal(p, steps, verdict) && Unflushed(steps, id)
    ensures Published(Exec(p, steps).published, id, c) == Published(p.published, id, c)
    decreases |steps|
  {
    hide Waiting, Apply, Published, AfterFill;
    if steps != [] {
      OrderStep(p, steps[0], id);
      PublishedStep(p, steps[0], id, c);
      FilledAtSubmissionIsSilent(Apply(p, steps[0]), steps[1..], verdict, id, c);
    }
  }

  /** A poll told that order `id` has come to an end without being filled. */
  predicate Heard(steps: seq<Step>, id: OrderId)
    decreases |steps|
  {
    steps != [] &&
    ((steps[0].Poll? && steps[0].id == id && (steps[0].report.state.Cancelled? || steps[0].report.state.Rejected?))
     || Heard(steps[1..], id))
  }

  lemma {:induction false} UnfilledRun(p: Pipe, steps: seq<Step>, verdict: OrderId -> Report, id: OrderId, c: Column)
    requires id in p.orders && Waiting(p.queue, id) == 0 && !verdict(id).state.Filled?
    requires Legal(p, steps, verdict) && Unflushed(steps, id)
    ensures var q := Exec(p, steps);
            && id in q.orders && q.orders[id] == p.orders[id] && Waiting(q.queue, id) == 0
            && (id in q.open <==> id in p.open && !Heard(steps, id))
            && Published(q.published, id, c) == Published(p.published, id, c)
    decreases |steps|
  {
    hide Waiting, Apply, Published, AfterFill;
    if steps != [] {
      OrderStep(p, steps[0], id);
      PublishedStep(p, steps[0], id, c);
      UnfilledRun(Apply(p, steps[0]), steps[1..], verdict, id, c);
    }
  }

  /** Nor is any part of an order that the exchange fills in part and then cancels or rejects: the order leaves the
      open map as soon as a poll hears of it, and what was filled is in no event and in no record. So the published
      total is right exactly when nothing was filled after submission. */
  lemma CancelledIsSilent(before: seq<Step>, id: OrderId, r0: OrderRec, after: seq<Step>,
                          verdict: OrderId -> Report, c: Column)
    requires Life(before, id, r0, after, verdict)
    requires !verdict(id).state.Filled?
    ensures var q := Exec(TrackedAfter(before, id, r0), after);
            && id in q.orders && q.orders[id] == r0 && (id in q.open <==> !Heard(after, id))
            && Published(q.published, id, c) == 0.0
            && (Published(q.published, id, c) == Told(verdict(id), c) - Done(r0, c)
                <==> Told(verdict(id), c) == Done(r0, c))
  {
    JustTracked(before, id, r0, after, verdict);
    UnfilledRun(TrackedAfter(before, id, r0), after, verdict, id, c);
  }

  // ---------- an exchange that fills the tracked object in place ----------

  /** A section of the pipeline, or the exchange writing to the object of an order it shares with the pipeline. */
  datatype SharedStep = Section(step: Step) | InPlace(r: OrderRec)

  /** Order `id` is shared: every poll of it is answered with the object itself, or with EXPIRED once the exchange no
      longer lists it. The exchange fills the object, but neither cancels nor rejects it, and it is not submitted again,
      cancelled or flushed. */
  predicate Shares(p: Pipe, s: SharedStep, id: OrderId) {
    match s
    case InPlace(r) => !r.state.Cancelled? && !r.state.Rejected?
    case Section(t) =>
      && (t.Process? ==> p.queue != []) && !t.Drain?
      && (t.Track? || t.Cancel? ==> t.id != id)
      && (t.Poll? && t.id == id && id in p.orders ==>
            var r := p.orders[id];
            t.report == Report(r.state, r.filled, r.avgPrice, r.commission) || t.report.state.Expired?)
  }

  function SharedApply(p: Pipe, s: SharedStep, id: OrderId): Pipe {
    match s
    case InPlace(r) => p.(orders := p.orders[id := r])
    case Section(t) => Apply(p, t)
  }

  function SharedExec(p: Pipe, steps: seq<SharedStep>, id: OrderId): Pipe
    decreases |steps|
  {
    if steps == [] then p else SharedExec(SharedApply(p, steps[0], id), steps[1..], id)
  }

  predicate SharedLegal(p: Pipe, steps: seq<SharedStep>, id: OrderId)
    decreases |steps|
  {
    steps == [] || (Shares(p, steps[0], id) && SharedLegal(SharedApply(p, steps[0], id), steps[1..], id))
  }

  lemma SharedStepKeeps(p: Pipe, s: SharedStep, id: OrderId, c: Column)
    requires id in p.orders && Waiting(p.queue, id) == 0 && Shares(p, s, id)
    requires !p.orders[id].state.Cancelled? && !p.orders[id].state.Rejected?
    ensures var q := SharedApply(p, s, id);
            && id in q.orders && Waiting(q.queue, id) == 0 && (id in p.open <==> id in q.open)
            && !q.orders[id].state.Cancelled? && !q.orders[id].state.Rejected?
            && Published(q.published, id, c) == Published(p.published, id, c)
  {
    hide AfterFill, Published;
    if s.Section? {
      OrderStep(p, s.step, id);
      PublishedStep(p, s.step, id, c);
    }
  }

  /** An order whose object the exchange fills in place, as the paper adapter does with a pending order, is never
      announced as filled and never leaves the open map, whatever else the pipeline does. */
  lemma {:induction false} FilledInPlaceIsSilent(p: Pipe, steps: seq<SharedStep>, id: OrderId, c: Column)
    requires id in p.orders && Waiting(p.queue, id) == 0 && SharedLegal(p, steps, id)
    requires !p.orders[id].state.Cancelled? && !p.orders[id].state.Rejected?
    ensures var q := SharedExec(p, steps, id);
            Published(q.published, id, c) == Published(p.published, id, c) && (id in p.open <==> id in q.open)
    decreases |steps|
  {
    hide SharedApply, Shares, Published, Waiting;
    if steps != [] {
      SharedStepKeeps(p, steps[0], id, c);
      FilledInPlaceIsSilent(SharedApply(p, steps[0], id), steps[1..], id, c);
    }
  }

  lemma {:induction false} Append(p: Pipe, a: seq<Step>, b: seq<Step>, verdict: OrderId -> Report)
    ensures Exec(p, a + b) == Exec(Exec(p, a), b)
    ensures Legal(p, a + b, verdict) <==> Legal(p, a, verdict) && Legal(Exec(p, a), b, verdict)
    decreases |a|
  {
    hide Apply, Enabled;
    if a == [] {
      assert a + b == b;
    } else {
      assert (a + b)[1..] == a[1..] + b;
      Append(Apply(p, a[0]), a[1..], b, verdict);
    }
  }

  lemma Unroll(p: Pipe, s: Step, rest: seq<Step>, verdict: OrderId -> Report)
    requires Enabled(p, s, verdict)
    ensures Exec(p, [s] + rest) == Exec(Apply(p, s), rest)
    ensures Legal(p, [s] + rest, verdict) <==> Legal(Apply(p, s), rest, verdict)
  {
    assert ([s] + rest)[1..] == rest;
  }

  lemma TwoFillsPublished(events: seq<Event>, id: OrderId, fill: Fill)
    requires fill.orderId == id && events == [OrderSubmitted(id)]
    ensures Published(events + [OrderFilled(fill)] + [OrderFilled(fill)], id, Quantity) == 2.0 * fill.quantity
  {
    PublishedAppend(events, OrderFilled(fill), id, Quantity);
    PublishedAppend(events + [OrderFilled(fill)], OrderFilled(fill), id, Quantity);
    SubmittedCounts(events, events[..0], id);
    hide Published;
  }

  lemma SubmittedCounts(events: seq<Event>, none: seq<Event>, id: OrderId)
    requires events == [OrderSubmitted(id)] && none == events[..0]
    ensures Published(events, id, Quantity) == 0.0
  {
    assert Published(none, id, Quantity) == 0.0;
  }

  /** Two polls before the fill processor runs publish the same fill twice. */
  lemma TwoDetections(p: Pipe, id: OrderId, x: Report, fill: Fill, verdict: OrderId -> Report, steps: seq<Step>)
    requires Detects(p, id, x) && p.queue == [] && verdict(id) == x && fill == Delta(p.orders[id], id, x)
    requires steps == [Poll(id, x)] + ([Poll(id, x)] + ([Process] + ([Process] + [])))
    ensures Legal(p, steps, verdict) && Exec(p, steps).queue == []
    ensures Exec(p, steps).published == p.published + [OrderFilled(fill)] + [OrderFilled(fill)]
  {
    hide Apply, Processed, Polled;
    var poll := Poll(id, x);
    DetectionQueues(p, id, x);
    var p1 := Apply(p, poll);
    DetectionQueues(p1, id, x);
    var p2 := Apply(p1, poll);
    FirstProcessed(p2, fill);
    var p3 := Apply(p2, Process);
    FirstProcessed(p3, fill);
    Unroll(p, poll, [poll] + ([Process] + ([Process] + [])), verdict);
    Unroll(p1, poll, [Process] + ([Process] + []), verdict);
    Unroll(p2, Process, [Process] + [], verdict);
    Unroll(p3, Process, [], verdict);
  }

  /** The race is real: a fill of 5 is published as 10. */
  lemma DoubleFill() returns (id: OrderId, r0: OrderRec, after: seq<Step>, verdict: OrderId -> Report)
    ensures Life([], id, r0, after, verdict) && Done(r0, Quantity) == 0.0 && verdict(id).filled == 5.0
    ensures Waiting(Exec(TrackedAfter([], id, r0), after).queue, id) == 0
    ensures Published(Exec(TrackedAfter([], id, r0), after).published, id, Quantity) == 10.0
  {
    var x := Report(Filled, 5.0, 100.0, 0.0);
    id, r0, verdict := OrderId("a"), OrderRec(5.0, 0.0, 0.0, 0.0, Submitted), _ => x;
    after := [Poll(id, x)] + ([Poll(id, x)] + ([Process] + ([Process] + [])));
    var fill := Fill(id, 100.0, 5.0, 0.0);
    hide Exec, Legal, Published, Waiting, TrackedAfter;
    StartTracked(id, r0, verdict);
    TwoDetections(TrackedAfter([], id, r0), id, x, fill, verdict, after);
    TwoFillsPublished([OrderSubmitted(id)], id, fill);
    assert Unflushed(after, id);
  }

  lemma StartTracked(id: OrderId, r0: OrderRec, verdict: OrderId -> Report)
    ensures TrackedAfter([], id, r0) == Pipe(map[id := r0], {id}, [], [OrderSubmitted(id)])
    ensures Legal(IDLE, [], verdict) && id !in Exec(IDLE, []).orders
  {
    assert Exec(IDLE, []) == IDLE;
  }

  lemma DetectionQueues(p: Pipe, id: OrderId, x: Report)
    requires Detects(p, id, x)
    ensures Apply(p, Poll(id, x)) == p.(queue := p.queue + [Delta(p.orders[id], id, x)])
  {
  }

  lemma FirstProcessed(p: Pipe, fill: Fill)
    requires p.queue != [] && p.queue[0] == fill
    ensures Apply(p, Process).queue == p.queue[1..]
    ensures Apply(p, Process).published == p.published + [OrderFilled(fill)]
  {
  }
}
