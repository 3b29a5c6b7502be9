/** Orders and events of the pipeline against the log of its runs. */
module PipelineLogs {
  // What an order's record shows, at which price its fills are announced, and which notices go out, read off the steps
  // and the fills that were published.

  import opened OrderPipelines

  // ---------- prices ----------

  /** Every fill of the order, queued or published, is at the price. */
  ghost predicate PricedAt(p: Pipe, id: OrderId, price: real) {
    && (forall i :: 0 <= i < |p.queue| && p.queue[i].orderId == id ==> p.queue[i].price == price)
    && (forall i :: 0 <= i < |p.published| && p.published[i].OrderFilled? && p.published[i].fill.orderId == id ==>
          p.published[i].fill.price == price)
  }

  lemma PricedStep(p: Pipe, s: Step, id: OrderId, price: real)
    requires PricedAt(p, id, price) && (Finds(p, s, id) ==> s.report.avgPrice == price)
    ensures PricedAt(Apply(p, s), id, price)
  {
    hide AfterFill;
    var q := Apply(p, s);
    forall i | 0 <= i < |q.queue| && q.queue[i].orderId == id ensures q.queue[i].price == price {
      assert q.queue[i] in p.queue || Finds(p, s, id);
    }
    forall i | 0 <= i < |q.published| && q.published[i].OrderFilled? && q.published[i].fill.orderId == id
      ensures q.published[i].fill.price == price
    {
      assert q.published[i] in p.published || (s.Process? && q.published[i] == OrderFilled(p.queue[0]));
    }
  }

  lemma {:induction false} PricedRun(p: Pipe, steps: seq<Step>, verdict: OrderId -> Report, id: OrderId)
    requires PricedAt(p, id, verdict(id).avgPrice) && Legal(p, steps, verdict)
    ensures PricedAt(Exec(p, steps), id, verdict(id).avgPrice)
    decreases |steps|
  {
    if steps != [] {
      hide PricedAt;
      PricedStep(p, steps[0], id, verdict(id).avgPrice);
      PricedRun(Apply(p, steps[0]), steps[1..], verdict, id);
    }
  }

  lemma IdlePriced(id: OrderId, price: real)
    ensures PricedAt(IDLE, id, price)
  {
  }

  /** In every run each fill that is announced for an order carries the average price of the exchange's verdict on it.
      */
  lemma PriceTheorem(steps: seq<Step>, verdict: OrderId -> Report, id: OrderId)
    requires Legal(IDLE, steps, verdict)
    ensures PricedAt(Exec(IDLE, steps), id, verdict(id).avgPrice)
  {
    hide PricedAt;
    IdlePriced(id, verdict(id).avgPrice);
    PricedRun(IDLE, steps, verdict, id);
  }

  // ---------- the record ----------

  /** The fills published for an order, in order. */
  function FillsFor(events: seq<Event>, id: OrderId): seq<Fill>
    decreases |events|
  {
    if events == [] then []
    else
      var last := events[|events| - 1];
      FillsFor(events[..|events| - 1], id) + if last.OrderFilled? && last.fill.orderId == id then [last.fill] else []
  }

  function Sum(fills: seq<Fill>): real
    decreases |fills|
  {
    if fills == [] then 0.0 else Sum(fills[..|fills| - 1]) + fills[|fills| - 1].quantity
  }

  function Fees(fills: seq<Fill>): real
    decreases |fills|
  {
    if fills == [] then 0.0 else Fees(fills[..|fills| - 1]) + fills[|fills| - 1].commission
  }

  /** The record `r` shows what it was tracked with and the first `k` of the fills. */
  ghost predicate Shows(r: OrderRec, r0: OrderRec, fills: seq<Fill>, k: nat) {
    && k <= |fills|
    && r.quantity == r0.quantity
    && r.filled == r0.filled + Sum(fills[..k])
    && r.commission == r0.commission + Fees(fills[..k])
    && (if k == 0 then r.avgPrice == r0.avgPrice && r.state == r0.state
        else r.avgPrice == fills[k - 1].price && r.state == if r.filled >= r.quantity then Filled else Partial)
  }

  /** The record shows all the fills while the order is open; once it is filled, the fills up to that one. */
  ghost predicate Recorded(p: Pipe, id: OrderId, r0: OrderRec, earlier: seq<Fill>, k: nat) {
    && id in p.orders
    && earlier <= FillsFor(p.published, id)
    && Shows(p.orders[id], r0, FillsFor(p.published, id)[|earlier|..], k)
    && (id in p.open ==> k == |FillsFor(p.published, id)| - |earlier|)
    && (id in p.open <==> !p.orders[id].state.Filled?)
  }

  lemma FillsForSnoc(events: seq<Event>, e: Event, id: OrderId)
    ensures FillsFor(events + [e], id)
         == FillsFor(events, id) + if e.OrderFilled? && e.fill.orderId == id then [e.fill] else []
  {
    assert (events + [e])[..|events|] == events;
  }

  lemma SumSnoc(fills: seq<Fill>, f: Fill)
    ensures Sum(fills + [f]) == Sum(fills) + f.quantity && Fees(fills + [f]) == Fees(fills) + f.commission
  {
    assert (fills + [f])[..|fills|] == fills;
  }

  /** One fill more, applied or not. */
  lemma ShowsMore(r: OrderRec, r0: OrderRec, fills: seq<Fill>, f: Fill, k: nat)
    requires Shows(r, r0, fills, k)
    ensures Shows(r, r0, fills + [f], k)
    ensures k == |fills| ==> Shows(AfterFill(r, f), r0, fills + [f], k + 1)
  {
    hide Sum, Fees;
    var more := fills + [f];
    assert more[..k] == fills[..k];
    assert k > 0 ==> more[k - 1] == fills[k - 1];
    if k == |fills| {
      assert more[..k + 1] == fills[..k] + [f] && more[k] == f;
      SumSnoc(fills[..k], f);
    }
  }

  /** The exchange's verdict is a fill, so nothing but filling ends the order. */
  lemma RecordedStep(p: Pipe, s: Step, id: OrderId, r0: OrderRec, earlier: seq<Fill>, k: nat) returns (next: nat)
    requires Recorded(p, id, r0, earlier, k) && (s.Process? ==> p.queue != []) && !s.Drain?
    requires !(s.Cancel? && s.id == id) && !(s.Track? && s.id == id)
    requires !(s.Poll? && s.id == id && (s.report.state.Cancelled? || s.report.state.Rejected?))
    ensures Recorded(Apply(p, s), id, r0, earlier, next)
  {
    var q, fills := Apply(p, s), FillsFor(p.published, id);
    OrderStep(p, s, id);
    FillsStep(p, s, id);
    next := k;
    hide FillsFor, Shows, AfterFill, Waiting, Apply;
    assert fills + [] == fills;
    if s.Process? && p.queue[0].orderId == id {
      ShowsMore(p.orders[id], r0, fills[|earlier|..], p.queue[0], k);
      assert (fills + [p.queue[0]])[|earlier|..] == fills[|earlier|..] + [p.queue[0]];
      if id in p.open { next := k + 1; }
    }
  }

  lemma FillsStep(p: Pipe, s: Step, id: OrderId)
    requires s.Process? ==> p.queue != []
    ensures FillsFor(Apply(p, s).published, id)
         == FillsFor(p.published, id) + if s.Process? && p.queue[0].orderId == id then [p.queue[0]] else []
  {
    hide FillsFor, AfterFill;
    match s
    case Track(i, _) => FillsForSnoc(p.published, OrderSubmitted(i), id);
    case Cancel(i, _) => FillsForSnoc(p.published, OrderCancelled(i), id);
    case Process => FillsForSnoc(p.published, OrderFilled(p.queue[0]), id);
    case Drain =>
    case Poll(i, _) =>
      FillsForSnoc(p.published, OrderCancelled(i), id);
      FillsForSnoc(p.published, OrderRejected(i), id);
  }

  lemma {:induction false} RecordedRun(p: Pipe, steps: seq<Step>, verdict: OrderId -> Report, id: OrderId, r0: OrderRec,
                                       earlier: seq<Fill>, k: nat) returns (next: nat)
    requires Recorded(p, id, r0, earlier, k) && Legal(p, steps, verdict) && Unflushed(steps, id)
    requires verdict(id).state.Filled?
    ensures Recorded(Exec(p, steps), id, r0, earlier, next)
    decreases |steps|
  {
    next := k;
    if steps != [] {
      hide Recorded, Apply;
      KnownOrder(p, id, r0, earlier, k);
      FairStep(p, steps, verdict, id);
      next := RecordedStep(p, steps[0], id, r0, earlier, k);
      next := RecordedRun(Apply(p, steps[0]), steps[1..], verdict, id, r0, earlier, next);
    }
  }

  lemma KnownOrder(p: Pipe, id: OrderId, r0: OrderRec, earlier: seq<Fill>, k: nat)
    requires Recorded(p, id, r0, earlier, k)
    ensures id in p.orders
  {
  }

  /** The record of an order that the exchange fills, in every run that does not flush it: it shows what it was tracked
      with and every fill published for it, each quantity and commission added and the price of the last; a fill that
      completes it is the last it takes up, and then it leaves the open map. */
  lemma RecordTheorem(before: seq<Step>, id: OrderId, r0: OrderRec, after: seq<Step>, verdict: OrderId -> Report)
      returns (k: nat)
    requires Life(before, id, r0, after, verdict) && !r0.state.Filled? && verdict(id).state.Filled?
    ensures var q := Exec(TrackedAfter(before, id, r0), after);
            var fills := FillsFor(q.published, id);
            && id in q.orders && Shows(q.orders[id], r0, fills, k)
            && (id in q.open <==> !q.orders[id].state.Filled?) && (id in q.open ==> k == |fills|)
  {
    hide FillsFor, Exec, Apply, Shows, Legal;
    var p := TrackedAfter(before, id, r0);
    JustTracked(before, id, r0, after, verdict);
    NothingYet(p, before, id, r0, after, verdict);
    ShowsNothing(r0, FillsFor(p.published, id)[0..]);
    k := RecordedRun(p, after, verdict, id, r0, [], 0);
  }

  lemma ShowsNothing(r0: OrderRec, fills: seq<Fill>)
    ensures Shows(r0, r0, fills, 0)
  {
    assert fills[..0] == [];
  }

  lemma NothingYet(p: Pipe, before: seq<Step>, id: OrderId, r0: OrderRec, after: seq<Step>, verdict: OrderId -> Report)
    requires Life(before, id, r0, after, verdict) && p == TrackedAfter(before, id, r0)
    ensures FillsFor(p.published, id) == []
  {
    UnknownHasNone(IDLE, before, verdict, id);
    FillsForSnoc(Exec(IDLE, before).published, OrderSubmitted(id), id);
  }

  lemma {:induction false} UnknownHasNone(p: Pipe, steps: seq<Step>, verdict: OrderId -> Report, id: OrderId)
    requires id !in p.orders && Waiting(p.queue, id) == 0 && FillsFor(p.published, id) == []
    requires Legal(p, steps, verdict) && id !in Exec(p, steps).orders
    ensures FillsFor(Exec(p, steps).published, id) == []
    decreases |steps|
  {
    hide FillsFor, AfterFill;
    if steps != [] {
      var s := steps[0];
      if s.Track? && s.id == id {
        OrdersStay(Apply(p, s), steps[1..], id);
      }
      FillsStep(p, s, id);
      if s.Poll? && Detects(p, s.id, s.report) {
        QueuedAppend(p.queue, Delta(p.orders[s.id], s.id, s.report), id, Quantity);
      }
      UnknownHasNone(Apply(p, s), steps[1..], verdict, id);
    }
  }

  // ---------- notices ----------

  /** How often the events say that an order was submitted, cancelled or rejected. */
  function Notices(events: seq<Event>, e: Event): nat
    decreases |events|
  {
    if events == [] then 0
    else Notices(events[..|events| - 1], e) + if events[|events| - 1] == e then 1 else 0
  }

  /** A section that gives notice that order `id` was cancelled: a confirmed cancellation, or a poll that hears of one.
      */
  predicate TellsCancelled(s: Step, id: OrderId) {
    (s.Cancel? && s.id == id) || (s.Poll? && s.id == id && s.report.state.Cancelled?)
  }

  predicate TellsRejected(s: Step, id: OrderId) { s.Poll? && s.id == id && s.report.state.Rejected? }

  function Submissions(steps: seq<Step>, id: OrderId): nat {
    if steps == [] then 0 else (if steps[0].Track? && steps[0].id == id then 1 else 0) + Submissions(steps[1..], id)
  }

  function Cancellations(steps: seq<Step>, id: OrderId): nat {
    if steps == [] then 0 else (if TellsCancelled(steps[0], id) then 1 else 0) + Cancellations(steps[1..], id)
  }

  function Rejections(steps: seq<Step>, id: OrderId): nat {
    if steps == [] then 0 else (if TellsRejected(steps[0], id) then 1 else 0) + Rejections(steps[1..], id)
  }

  lemma NoticesSnoc(events: seq<Event>, f: Event, e: Event)
    ensures Notices(events + [f], e) == Notices(events, e) + if f == e then 1 else 0
  {
    assert (events + [f])[..|events|] == events;
  }

  lemma NoticesStep(p: Pipe, s: Step, id: OrderId, verdict: OrderId -> Report)
    requires Enabled(p, s, verdict)
    ensures var q := Apply(p, s);
            && Notices(q.published, OrderSubmitted(id))
                 == Notices(p.published, OrderSubmitted(id)) + (if s.Track? && s.id == id then 1 else 0)
            && Notices(q.published, OrderCancelled(id))
                 == Notices(p.published, OrderCancelled(id)) + (if TellsCancelled(s, id) then 1 else 0)
            && Notices(q.published, OrderRejected(id))
                 == Notices(p.published, OrderRejected(id)) + (if TellsRejected(s, id) then 1 else 0)
  {
    hide AfterFill, Notices;
    forall e, f ensures Notices(p.published + [f], e) == Notices(p.published, e) + if f == e then 1 else 0 {
      NoticesSnoc(p.published, f, e);
    }
  }

  /** Every submission, cancellation and rejection is announced once, and nothing else is announced as one. */
  lemma {:induction false} NoticeTheorem(p: Pipe, steps: seq<Step>, id: OrderId, verdict: OrderId -> Report)
    requires Legal(p, steps, verdict)
    ensures var q := Exec(p, steps);
            && Notices(q.published, OrderSubmitted(id))
                 == Notices(p.published, OrderSubmitted(id)) + Submissions(steps, id)
            && Notices(q.published, OrderCancelled(id))
                 == Notices(p.published, OrderCancelled(id)) + Cancellations(steps, id)
            && Notices(q.published, OrderRejected(id))
                 == Notices(p.published, OrderRejected(id)) + Rejections(steps, id)
    decreases |steps|
  {
    hide Notices, Apply, TellsCancelled, TellsRejected, Enabled;
    if steps != [] {
      NoticesStep(p, steps[0], id, verdict);
      NoticeTheorem(Apply(p, steps[0]), steps[1..], id, verdict);
    }
  }

  // ---------- cancelling and flushing ----------

  /** An order that has left the open map never comes back, and no fill changes its record any more. */
  lemma {:induction false} ClosedStays(p: Pipe, steps: seq<Step>, verdict: OrderId -> Report, id: OrderId)
    requires id in p.orders && id !in p.open && Legal(p, steps, verdict)
    ensures var q := Exec(p, steps);
            && id in q.orders && id !in q.open
            && (q.orders[id] == p.orders[id] || q.orders[id] == p.orders[id].(state := Cancelled))
    decreases |steps|
  {
    hide AfterFill;
    if steps != [] {
      ClosedStays(Apply(p, steps[0]), steps[1..], verdict, id);
    }
  }

  /** A confirmed cancellation takes the order out of the open map for good; its record is marked only where the
      exchange hands back the order object itself. */
  lemma CancelTheorem(p: Pipe, id: OrderId, same: bool, steps: seq<Step>, verdict: OrderId -> Report)
    requires id in p.orders && Legal(Apply(p, Cancel(id, same)), steps, verdict)
    requires forall i :: 0 <= i < |steps| ==> !(steps[i].Cancel? && steps[i].id == id)
    ensures var q := Exec(Apply(p, Cancel(id, same)), steps);
            && id in q.orders && id !in q.open
            && q.orders[id] == if same then p.orders[id].(state := Cancelled) else p.orders[id]
  {
    CancelledStays(Apply(p, Cancel(id, same)), steps, verdict, id);
    hide Exec, Legal;
  }

  lemma {:induction false} CancelledStays(p: Pipe, steps: seq<Step>, verdict: OrderId -> Report, id: OrderId)
    requires id in p.orders && id !in p.open && Legal(p, steps, verdict)
    requires forall i :: 0 <= i < |steps| ==> !(steps[i].Cancel? && steps[i].id == id)
    ensures var q := Exec(p, steps); id in q.orders && id !in q.open && q.orders[id] == p.orders[id]
    decreases |steps|
  {
    hide AfterFill;
    if steps != [] {
      CancelledStays(Apply(p, steps[0]), steps[1..], verdict, id);
    }
  }

  /** A flush loses what is queued: unless an order is detected afterwards, nothing more is announced for it. */
  lemma FlushLoses(p: Pipe, steps: seq<Step>, verdict: OrderId -> Report, id: OrderId)
    requires Legal(p, [Drain] + steps, verdict) && Detections(Apply(p, Drain), steps, id) == 0
    ensures FillsFor(Exec(p, [Drain] + steps).published, id) == FillsFor(p.published, id)
    ensures Apply(p, Drain).orders == p.orders && Apply(p, Drain).open == p.open
  {
    Unroll(p, Drain, steps, verdict);
    NothingMore(Apply(p, Drain), steps, verdict, id);
  }

  lemma {:induction false} NothingMore(p: Pipe, steps: seq<Step>, verdict: OrderId -> Report, id: OrderId)
    requires Legal(p, steps, verdict) && Waiting(p.queue, id) == 0 && Detections(p, steps, id) == 0
    ensures FillsFor(Exec(p, steps).published, id) == FillsFor(p.published, id)
    decreases |steps|
  {
    hide FillsFor, AfterFill;
    if steps != [] {
      var s := steps[0];
      FillsStep(p, s, id);
      if s.Poll? && Detects(p, s.id, s.report) {
        QueuedAppend(p.queue, Delta(p.orders[s.id], s.id, s.report), id, Quantity);
      }
      NothingMore(Apply(p, s), steps[1..], verdict, id);
    }
  }
}
