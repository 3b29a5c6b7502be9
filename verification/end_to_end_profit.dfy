/** Profit from the exchange to the book. */
module EndToEndProfits {
  // Every fill that reaches the book carries the price that the exchange reported for its order; so what a position has
  // earned can be told from the orders alone.

  import opened Arithmetic
  import P = OrderPipelines
  import L = PipelineLogs
  import B = PositionBooks
  import V = PositionInvariants
  import R = PositionRuns
  import M = PositionProfits
  import opened EndToEnd

  /** The money that the published fills of the orders brought in for a symbol, at the verdicts' prices. */
  function Received(tickets: Tickets, ids: seq<P.OrderId>, events: seq<P.Event>, verdict: Verdicts, symbol: B.Symbol)
    : real
    decreases |ids|
  {
    if ids == [] then 0.0
    else
      Received(tickets, ids[1..], events, verdict, symbol)
      - Times(verdict(ids[0]).avgPrice, Adds(tickets, ids[0], symbol, P.Published(events, ids[0], P.Quantity)))
  }

  /** The money that the orders should have brought in: what each was filled for, at the price the exchange reported. */
  function Earned(tickets: Tickets, ids: seq<P.OrderId>, steps: seq<P.Step>, verdict: Verdicts, symbol: B.Symbol): real
    decreases |ids|
  {
    if ids == [] then 0.0
    else
      Earned(tickets, ids[1..], steps, verdict, symbol)
      - Times(verdict(ids[0]).avgPrice, Adds(tickets, ids[0], symbol, Due(steps, verdict, ids[0])))
  }

  /** All fills are at the prices of the verdicts. */
  ghost predicate AllPriced(events: seq<P.Event>, verdict: Verdicts) {
    forall i :: 0 <= i < |events| && events[i].OrderFilled? ==>
      events[i].fill.price == verdict(events[i].fill.orderId).avgPrice
  }

  lemma AddsMore(tickets: Tickets, id: P.OrderId, symbol: B.Symbol, x: real, y: real)
    ensures Adds(tickets, id, symbol, x + y) == Adds(tickets, id, symbol, x) + Adds(tickets, id, symbol, y)
    ensures Adds(tickets, id, symbol, 0.0) == 0.0
  {
  }

  lemma TimesMore(p: real, x: real, y: real)
    ensures Times(p, x + y) == Times(p, x) + Times(p, y) && Times(p, 0.0) == 0.0
  {
  }

  lemma {:induction false} ReceivedAppend(tickets: Tickets, ids: seq<P.OrderId>, events: seq<P.Event>, e: P.Event,
                                          verdict: Verdicts, symbol: B.Symbol)
    requires Distinct(ids)
    ensures Received(tickets, ids, events + [e], verdict, symbol)
         == Received(tickets, ids, events, verdict, symbol)
            - if e.OrderFilled? && e.fill.orderId in ids then
                Times(verdict(e.fill.orderId).avgPrice, Adds(tickets, e.fill.orderId, symbol, e.fill.quantity))
              else 0.0
    decreases |ids|
  {
    if ids != [] {
      hide P.Published, Times, Adds;
      var id, price := ids[0], verdict(ids[0]).avgPrice;
      ReceivedAppend(tickets, ids[1..], events, e, verdict, symbol);
      P.PublishedAppend(events, e, id, P.Quantity);
      assert id !in ids[1..];
      if e.OrderFilled? && e.fill.orderId == id {
        var was := P.Published(events, id, P.Quantity);
        AddsMore(tickets, id, symbol, was, e.fill.quantity);
        TimesMore(price, Adds(tickets, id, symbol, was), Adds(tickets, id, symbol, e.fill.quantity));
      }
    }
  }

  lemma {:induction false} NothingReceived(tickets: Tickets, ids: seq<P.OrderId>, none: seq<P.Event>, verdict: Verdicts,
                                           symbol: B.Symbol)
    requires none == []
    ensures Received(tickets, ids, none, verdict, symbol) == 0.0
    decreases |ids|
  {
    if ids != [] {
      NothingReceived(tickets, ids[1..], none, verdict, symbol);
      hide Times;
      AddsMore(tickets, ids[0], symbol, 0.0, 0.0);
      TimesMore(verdict(ids[0]).avgPrice, 0.0, 0.0);
    }
  }

  lemma CashOfFill(tickets: Tickets, fill: P.Fill, symbol: B.Symbol)
    ensures var f := BookFill(tickets, fill);
            (if f.symbol == symbol then M.CashOf(f) else 0.0)
              == -Times(fill.price, Adds(tickets, fill.orderId, symbol, fill.quantity))
  {
    TimesNegate(fill.price, fill.quantity);
    TimesMore(fill.price, 0.0, 0.0);
    hide Times;
  }

  /** The cash of the published fills, order by order. */
  lemma {:induction false} CashIsReceived(tickets: Tickets, events: seq<P.Event>, ids: seq<P.OrderId>,
                                          verdict: Verdicts, symbol: B.Symbol)
    requires Distinct(ids) && Among(events, ids) && AllPriced(events, verdict)
    ensures M.Cash(Fills(tickets, events), symbol) == Received(tickets, ids, events, verdict, symbol)
    decreases |events|
  {
    hide M.Cash, Received, Times, Adds, BookFill;
    if events == [] {
      NothingReceived(tickets, ids, events, verdict, symbol);
      NoCash(Fills(tickets, events), symbol);
    } else {
      var n := |events| - 1;
      var init, e := events[..n], events[n];
      CashIsReceived(tickets, init, ids, verdict, symbol);
      assert init + [e] == events;
      ReceivedAppend(tickets, ids, init, e, verdict, symbol);
      if e.OrderFilled? {
        M.Snoc(Fills(tickets, init), BookFill(tickets, e.fill), symbol);
        CashOfFill(tickets, e.fill, symbol);
      } else {
        assert Fills(tickets, events) == Fills(tickets, init);
      }
    }
  }

  lemma NoCash(fills: seq<B.Fill>, symbol: B.Symbol)
    requires fills == []
    ensures M.Cash(fills, symbol) == 0.0
  {
  }

  lemma {:induction false} ReceivedIsEarned(tickets: Tickets, ids: seq<P.OrderId>, steps: seq<P.Step>,
                                            verdict: Verdicts, symbol: B.Symbol)
    requires P.Legal(P.IDLE, steps, verdict) && P.Exec(P.IDLE, steps).queue == []
    requires forall id :: id in ids ==> P.Unflushed(steps, id) && Once(steps, id)
    ensures Received(tickets, ids, P.Exec(P.IDLE, steps).published, verdict, symbol)
         == Earned(tickets, ids, steps, verdict, symbol)
    decreases |ids|
  {
    hide P.Legal, P.Exec, P.Published, P.Unflushed, Once, Due, Times, Adds;
    if ids != [] {
      var queue := P.Exec(P.IDLE, steps).queue;
      assert P.Waiting(queue, ids[0]) == 0;
      PublishedIsDue(steps, verdict, ids[0]);
      ReceivedIsEarned(tickets, ids[1..], steps, verdict, symbol);
    }
  }

  lemma EventsPriced(steps: seq<P.Step>, verdict: Verdicts)
    requires P.Legal(P.IDLE, steps, verdict)
    ensures AllPriced(P.Exec(P.IDLE, steps).published, verdict)
  {
    var events := P.Exec(P.IDLE, steps).published;
    hide P.Exec, P.Legal;
    forall i | 0 <= i < |events| && events[i].OrderFilled?
      ensures events[i].fill.price == verdict(events[i].fill.orderId).avgPrice
    {
      L.PriceTheorem(steps, verdict, events[i].fill.orderId);
    }
  }

  /** From exchange to profit: in every joint run as in `EndToEndTheorem` whose fills are tame, once both queues are
      empty the position in a symbol has realised what its orders were filled for at the prices the exchange reported,
      and what is held at its average entry, apart from what a sale that took it short was credited too much. */
  lemma ProfitEndToEnd(tickets: Tickets, steps: seq<Step>, verdict: Verdicts, ids: seq<P.OrderId>, r: nat)
    requires Legal(tickets, START, steps, verdict)
    requires Distinct(ids) && forall id :: id in ids <==> id in Exec(tickets, START, steps).pipe.orders
    requires forall id :: id in ids ==> P.Unflushed(PipeSteps(steps), id) && Once(PipeSteps(steps), id)
    requires var fills := Fills(tickets, Exec(tickets, START, steps).pipe.published); V.Positive(fills) && V.Tame(fills)
    requires var j := Exec(tickets, START, steps); j.pipe.queue == [] && R.Waiting(j.world.b.queue) == []
    requires r < |Exec(tickets, START, steps).world.b.store|
    ensures var j := Exec(tickets, START, steps);
            var p := j.world.b.store[r];
            p.realized == Earned(tickets, ids, PipeSteps(steps), verdict, p.symbol)
                          + Times(M.SignedQuantity(p), p.avgEntry) + M.Excess(j.world.handled, p.symbol)
  {
    hide Exec, Legal, PipeSteps, BookSteps, Fills, Received, Earned, P.Exec, P.Legal, R.Exec, R.Legal, M.Cash, M.Basis,
      M.Excess, R.Published, V.Tame, V.Positive, Times, AllPriced;
    var j, run := Exec(tickets, START, steps), BookSteps(tickets, START, steps);
    var fills := Fills(tickets, j.pipe.published);
    PipeProjects(tickets, START, steps, verdict);
    BookProjects(tickets, START, steps, verdict);
    NoFills(tickets, P.IDLE.published);
    assert R.Published(run) == fills;
    R.TameIsSafe(fills, run);
    assert j.world.handled == fills;
    M.ProfitTheorem(fills, run, r);
    IdleKnown();
    KnownRun(P.IDLE, PipeSteps(steps));
    EventsPriced(PipeSteps(steps), verdict);
    CashIsReceived(tickets, j.pipe.published, ids, verdict, j.world.b.store[r].symbol);
    ReceivedIsEarned(tickets, ids, PipeSteps(steps), verdict, j.world.b.store[r].symbol);
  }
}
