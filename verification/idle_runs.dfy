/** Runs that publish a fill only on an idle bus, and when the position book stays right in them. */
module IdleRuns {
  import opened OrderedDicts
  import opened PositionBooks
  import opened PositionInvariants
  import opened PositionRuns
  import opened IdleFills

  /** Every fill is published on an idle bus. */
  predicate Unhurried(w: World, steps: seq<Step>)
    decreases |steps|
  {
    steps == [] || ((steps[0].Publish? ==> w.b.queue == []) && Unhurried(Apply(w, steps[0]), steps[1..]))
  }

  /** The book agrees, is settled or about to be, and at most one event is on the bus. */
  ghost predicate Calm(w: World) {
    && Agrees(w.b, w.handled) && |w.b.queue| <= 1
    && if w.b.queue != [] && w.b.queue[0].PositionUpdated? then
         var r := w.b.queue[0].ref;
         Settled(w.b.store, Put(w.b.dict, Key(w.b.store[r].symbol), r), w.handled)
       else
         Settled(w.b.store, w.b.dict, w.handled)
  }

  lemma CalmPublish(w: World, f: Fill)
    requires Calm(w) && w.b.queue == []
    ensures Calm(Apply(w, Publish(f))) && Delivered(Apply(w, Publish(f))) == Delivered(w) + [f]
  {
    hide Settled;
    WaitingAppend(w.b.queue, OrderFilled(f));
    var v := Apply(w, Publish(f));
    assert forall symbol :: Held(v.b, symbol) == Held(w.b, symbol);
    hide Held;
  }

  lemma CalmUpdate(w: World)
    requires Calm(w) && w.b.queue != [] && w.b.queue[0].PositionUpdated?
    ensures Calm(Apply(w, Handle)) && Delivered(Apply(w, Handle)) == Delivered(w)
  {
    hide Put, Settled, Key;
    var r := w.b.queue[0].ref;
    assert w.b.queue == [PositionUpdated(r)] + w.b.queue[1..] && w.b.queue[1..] == [];
    HandleUpdateStep(w, r, w.b.queue[1..]);
    assert Waiting(w.b.queue) == Waiting(w.b.queue[1..]);
    SettledAgrees(Apply(w, Handle).b, w.handled);
  }

  lemma CalmFill(w: World, f: Fill)
    requires Calm(w) && w.b.queue == [OrderFilled(f)] && !Blocked(w.handled, f) && Deliverable(w.handled, f)
    ensures Calm(Apply(w, Handle)) && Delivered(Apply(w, Handle)) == Delivered(w)
  {
    hide Put, Settled, Key, Blocked, Deliverable, ApplyFill;
    var rest := w.b.queue[1..];
    assert w.b.queue == [OrderFilled(f)] + rest && rest == [];
    HandleFillStep(w, f, rest);
    var r := FreeLands(w.b.(queue := rest), w.handled, f);
    var v := Apply(w, Handle);
    assert v.b.queue == [PositionUpdated(r)];
    assert Waiting(w.b.queue) == [f] + Waiting(rest);
    assert Waiting(v.b.queue) == Waiting(v.b.queue[1..]) == [];
    assert w.handled + [f] + [] == w.handled + [f];
  }

  lemma NextIsFree(handled: seq<Fill>, f: Fill, fills: seq<Fill>)
    requires Positive(fills) && Free(fills) && handled + [f] <= fills
    ensures Deliverable(handled, f) && !Blocked(handled, f)
  {
    var n := |handled|;
    assert fills[..n] == handled && fills[n] == f && fills[..n + 1] == handled + [f];
  }

  lemma CalmStep(w: World, s: Step, rest: seq<Step>, fills: seq<Fill>)
    requires Positive(fills) && Free(fills) && Calm(w) && Enabled(w, s) && (s.Publish? ==> w.b.queue == [])
    requires Delivered(w) + Published([s] + rest) <= fills
    ensures Calm(Apply(w, s)) && Delivered(Apply(w, s)) + Published(rest) == Delivered(w) + Published([s] + rest)
  {
    PublishedCons(Delivered(w), s, rest);
    hide Published, Positive, Free;
    match s
    case Publish(f) => CalmPublish(w, f);
    case Handle =>
      if w.b.queue[0].OrderFilled? {
        var f := w.b.queue[0].fill;
        assert Waiting(w.b.queue) == [f] + Waiting(w.b.queue[1..]);
        assert w.handled + [f] <= Delivered(w) <= Delivered(w) + Published([s] + rest);
        NextIsFree(w.handled, f, fills);
        assert w.b.queue == [OrderFilled(f)];
        CalmFill(w, f);
      } else {
        CalmUpdate(w);
      }
  }

  lemma {:induction false} CalmRun(w: World, steps: seq<Step>, fills: seq<Fill>)
    requires Positive(fills) && Free(fills) && Calm(w) && Legal(w, steps) && Unhurried(w, steps)
    requires Delivered(w) + Published(steps) <= fills
    ensures Calm(Exec(w, steps)) && Delivered(Exec(w, steps)) == Delivered(w) + Published(steps)
    decreases |steps|
  {
    hide Calm, Delivered, Apply, Positive, Free, Enabled;
    if steps == [] {
      assert Published(steps) == [];
    } else {
      hide Published;
      assert steps == [steps[0]] + steps[1..];
      CalmStep(w, steps[0], steps[1..], fills);
      CalmRun(Apply(w, steps[0]), steps[1..], fills);
    }
  }

  lemma StartSettled(store: seq<Pos>, dict: seq<Entry<nat>>, handled: seq<Fill>)
    requires store == [] && dict == [] && handled == []
    ensures Settled(store, dict, handled)
  {
    hide Entered, Net;
  }

  lemma StartAgrees(w: World)
    requires w == START
    ensures Agrees(w.b, w.handled) && w.b.queue == []
  {
    hide Accurate, Covers, Keyed, Agrees, Inv;
    StartInv();
    InvAgrees(EMPTY, []);
  }

  lemma StartCalm(w: World)
    requires w == START
    ensures Calm(w)
  {
    StartSettled(w.b.store, w.b.dict, w.handled);
    StartAgrees(w);
    hide Settled, Agrees, Put;
  }

  // ---------- a blocked fill goes wrong ----------

  lemma {:induction false} UnhurriedAppend(w: World, a: seq<Step>, b: seq<Step>)
    ensures Unhurried(w, a + b) <==> Unhurried(w, a) && Unhurried(Exec(w, a), b)
    decreases |a|
  {
    hide Apply;
    if a == [] {
      assert a + b == b;
    } else {
      assert (a + b)[1..] == a[1..] + b;
      UnhurriedAppend(Apply(w, a[0]), a[1..], b);
    }
  }

  /** From an idle bus, one fill and its announcement. */
  lemma FreeTrip(w: World, f: Fill)
    requires Calm(w) && w.b.queue == [] && !Blocked(w.handled, f) && Deliverable(w.handled, f)
    ensures var steps := [Publish(f)] + [Handle] + [Handle];
            var v := Exec(w, steps);
            && Legal(w, steps) && Unhurried(w, steps)
            && v.handled == w.handled + [f] && v.b.queue == [] && Calm(v)
  {
    var w1 := Apply(w, Publish(f));
    CalmPublish(w, f);
    assert w1.b.queue == [OrderFilled(f)] + [];
    hide Settled, Blocked, Deliverable, ApplyFill;
    HandleFillStep(w1, f, []);
    CalmFill(w1, f);
    var w2 := Apply(w1, Handle);
    var r := FreeLands(w1.b.(queue := []), w.handled, f);
    HandleUpdateStep(w2, r, []);
    CalmUpdate(w2);
    TripSteps(w, f, w1, w2, Apply(w2, Handle));
  }

  lemma TripSteps(w: World, f: Fill, w1: World, w2: World, v: World)
    requires w.b.queue == [] && w1 == Apply(w, Publish(f))
    requires Enabled(w1, Handle) && w2 == Apply(w1, Handle) && Enabled(w2, Handle) && v == Apply(w2, Handle)
    ensures Exec(w, [Publish(f)] + [Handle]) == w2 && Legal(w, [Publish(f)] + [Handle])
    ensures Unhurried(w, [Publish(f)] + [Handle])
    ensures var steps := [Publish(f)] + [Handle] + [Handle];
            Exec(w, steps) == v && Legal(w, steps) && Unhurried(w, steps)
  {
    assert Enabled(w, Publish(f));
    hide Apply, Enabled, Unhurried, Exec, Legal;
    One(w, Publish(f));
    One(w1, Handle);
    One(w2, Handle);
    Append(w, [Publish(f)], [Handle]);
    Append(w, [Publish(f)] + [Handle], [Handle]);
    UnhurriedOne(w, Publish(f));
    UnhurriedOne(w1, Handle);
    UnhurriedOne(w2, Handle);
    UnhurriedAppend(w, [Publish(f)], [Handle]);
    UnhurriedAppend(w, [Publish(f)] + [Handle], [Handle]);
  }

  lemma UnhurriedOne(w: World, s: Step)
    ensures Unhurried(w, [s]) <==> (s.Publish? ==> w.b.queue == [])
  {
    hide Apply;
    var steps := [s];
    assert steps[1..] == [];
    assert Unhurried(Apply(w, s), steps[1..]);
  }

  /** The run that takes the fills one by one. */
  lemma {:induction false} OneByOne(fills: seq<Fill>) returns (steps: seq<Step>)
    requires Positive(fills) && Free(fills)
    ensures Legal(START, steps) && Unhurried(START, steps) && Published(steps) == fills
    ensures var v := Exec(START, steps); v.handled == fills && v.b.queue == [] && Calm(v)
    decreases |fills|
  {
    if fills == [] {
      steps := NothingYet(fills);
    } else {
      hide Calm, Positive, Free, Unhurried, Exec, Legal, Published, Blocked, Deliverable, Apply, Net, Delivered;
      var n := |fills| - 1;
      var f, trip := fills[n], [Publish(fills[n])] + [Handle] + [Handle];
      assert fills[..n] + [f] == fills;
      PositivePrefix(fills, n);
      FreePrefix(fills, n);
      var init := OneByOne(fills[..n]);
      NextIsFree(fills[..n], f, fills);
      FreeTrip(Exec(START, init), f);
      Append(START, init, trip);
      UnhurriedAppend(START, init, trip);
      PublishedOne(f);
      PublishedAppend(init, trip);
      steps := init + trip;
    }
  }

  lemma NothingYet(fills: seq<Fill>) returns (steps: seq<Step>)
    requires fills == []
    ensures Legal(START, steps) && Unhurried(START, steps) && Published(steps) == fills
    ensures var v := Exec(START, steps); v.handled == fills && v.b.queue == [] && Calm(v)
  {
    hide Calm;
    steps := [];
    NoSteps(START);
    StartCalm(START);
  }

  lemma NoSteps(w: World)
    ensures Legal(w, []) && Unhurried(w, []) && Published([]) == [] && Exec(w, []) == w
  {
  }

  lemma FreePrefix(fills: seq<Fill>, n: nat)
    requires n <= |fills| && Free(fills)
    ensures Free(fills[..n])
  {
    forall j | 0 <= j < n ensures fills[..n][..j] == fills[..j] && fills[..n][j] == fills[j] {
    }
  }

  lemma {:induction false} FirstBlocked(fills: seq<Fill>) returns (j: nat)
    requires !Free(fills)
    ensures j < |fills| && Free(fills[..j]) && (Blocked(fills[..j], fills[j]) || Shorted(fills[..j], fills[j]))
    decreases |fills|
  {
    var n := |fills| - 1;
    var init := fills[..n];
    forall k | 0 <= k < n ensures init[..k] == fills[..k] && init[k] == fills[k] {
    }
    if Free(init) {
      j := n;
    } else {
      j := FirstBlocked(init);
    }
  }

  /** The run that takes the fills one by one, and then publishes and handles one more. */
  lemma OneMoreAlone(before: seq<Fill>, f: Fill) returns (steps: seq<Step>, b: Book)
    requires Positive(before) && Free(before)
    ensures Legal(START, steps) && Unhurried(START, steps) && Published(steps) == before + [f]
    ensures WellFormed(b) && Settled(b.store, b.dict, before)
    ensures Exec(START, steps) == World(ApplyFill(b, f), before + [f])
  {
    hide Positive, Free, Settled, Agrees, ApplyFill, Exec, Legal, Published, WellFormed, Unhurried;
    var last := [Publish(f)] + [Handle];
    var init := OneByOne(before);
    var w := Exec(START, init);
    b := w.b;
    AgreesWellFormed(w);
    PublishAndHandle(w, f);
    UnhurriedLast(w, f);
    Append(START, init, last);
    UnhurriedAppend(START, init, last);
    PublishedOne(f);
    PublishedAppend(init, last);
    steps := init + last;
  }

  lemma BlockedRun(fills: seq<Fill>, j: nat) returns (steps: seq<Step>)
    requires Positive(fills) && j < |fills| && Free(fills[..j])
    requires Blocked(fills[..j], fills[j]) || Shorted(fills[..j], fills[j])
    ensures Interleaves(steps, fills) && Unhurried(START, steps)
    ensures !Agrees(Exec(START, steps).b, Exec(START, steps).handled)
  {
    var before, f := fills[..j], fills[j];
    PositivePrefix(fills, j);
    assert f.quantity > 0.0 && before + [f] <= fills;
    hide Positive, Free, Blocked, Shorted, Settled, Agrees, ApplyFill, Exec, Legal, Published, Unhurried;
    var b;
    steps, b := OneMoreAlone(before, f);
    if Blocked(before, f) {
      BlockedDisagrees(b, before, f);
    } else {
      ShortedDisagrees(b, before, f);
    }
  }

  lemma AgreesWellFormed(w: World)
    requires Agrees(w.b, w.handled)
    ensures WellFormed(w.b)
  {
  }

  lemma UnhurriedLast(w: World, f: Fill)
    requires w.b.queue == []
    ensures Unhurried(w, [Publish(f)] + [Handle])
  {
    hide Unhurried, Apply;
    UnhurriedOne(w, Publish(f));
    UnhurriedOne(Exec(w, [Publish(f)]), Handle);
    UnhurriedAppend(w, [Publish(f)], [Handle]);
  }

  /** When no fill is published before the bus is idle, reopening a symbol does no harm in itself: the book shows the
      net of the handled fills at every moment of every such run, if and only if no fill comes to a symbol that is
      short, or while the key of another symbol starts with its own and stands in front of it, or, at its symbol's
      first fill, anywhere. */
  lemma IdleTheorem(fills: seq<Fill>)
    requires Positive(fills)
    ensures (forall steps | Interleaves(steps, fills) && Unhurried(START, steps) ::
               Agrees(Exec(START, steps).b, Exec(START, steps).handled))
       <==> Free(fills)
  {
    hide Positive, Agrees, Interleaves, Free, Exec, Unhurried;
    if Free(fills) {
      forall steps | Interleaves(steps, fills) && Unhurried(START, steps)
        ensures Agrees(Exec(START, steps).b, Exec(START, steps).handled)
      {
        FreeIsSafe(fills, steps);
      }
    } else {
      var j := FirstBlocked(fills);
      var steps := BlockedRun(fills, j);
    }
  }

  lemma FreeIsSafe(fills: seq<Fill>, steps: seq<Step>)
    requires Positive(fills) && Free(fills) && Interleaves(steps, fills) && Unhurried(START, steps)
    ensures Agrees(Exec(START, steps).b, Exec(START, steps).handled)
    ensures Delivered(Exec(START, steps)) == Published(steps)
  {
    StartCalm(START);
    StartDelivered();
    assert [] + Published(steps) == Published(steps);
    hide Settled, Delivered, Positive, Free, Exec, Legal, Published, Agrees, Unhurried;
    CalmRun(START, steps, fills);
  }

  /** Whatever is safe at any speed is safe on an idle bus. */
  lemma TameIsFree(fills: seq<Fill>)
    requires Positive(fills) && Tame(fills)
    ensures Free(fills)
  {
    hide Positive, Agrees, Interleaves, Tame, Free, Exec, Unhurried;
    forall steps | Interleaves(steps, fills) && Unhurried(START, steps)
      ensures Agrees(Exec(START, steps).b, Exec(START, steps).handled)
    {
      TameIsSafe(fills, steps);
    }
    IdleTheorem(fills);
  }
}
