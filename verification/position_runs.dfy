/** Interleavings of fills and their handling. */
module PositionRuns {
  import opened OrderedDicts
  import opened PositionBooks
  import opened PositionInvariants

  datatype Step = Publish(fill: Fill) | Handle

  /** The book, and the fills whose handler has run. */
  datatype World = World(b: Book, handled: seq<Fill>)

  const START: World := World(EMPTY, [])

  predicate Enabled(w: World, s: Step) {
    s.Handle? ==> w.b.queue != [] && WellFormed(w.b)
  }

  function Apply(w: World, s: Step): World {
    match s
    case Publish(f) => w.(b := PositionBooks.Publish(w.b, f))
    case Handle =>
      if Enabled(w, s) then
        World(PositionBooks.Handle(w.b),
              if w.b.queue[0].OrderFilled? then w.handled + [w.b.queue[0].fill] else w.handled)
      else w
  }

  function Exec(w: World, steps: seq<Step>): World
    decreases |steps|
  {
    if steps == [] then w else Exec(Apply(w, steps[0]), steps[1..])
  }

  predicate Legal(w: World, steps: seq<Step>)
    decreases |steps|
  {
    steps == [] || (Enabled(w, steps[0]) && Legal(Apply(w, steps[0]), steps[1..]))
  }

  function Published(steps: seq<Step>): seq<Fill> {
    if steps == [] then []
    else (if steps[0].Publish? then [steps[0].fill] else []) + Published(steps[1..])
  }

  /** The fills still on the bus. */
  function Waiting(queue: seq<Event>): seq<Fill> {
    if queue == [] then []
    else (if queue[0].OrderFilled? then [queue[0].fill] else []) + Waiting(queue[1..])
  }

  lemma {:induction false} WaitingAppend(queue: seq<Event>, e: Event)
    ensures Waiting(queue + [e]) == Waiting(queue) + if e.OrderFilled? then [e.fill] else []
  {
    if queue == [] {
      assert queue + [e] == [e];
    } else {
      var h := if queue[0].OrderFilled? then [queue[0].fill] else [];
      var t := if e.OrderFilled? then [e.fill] else [];
      assert (queue + [e])[1..] == queue[1..] + [e];
      assert Waiting(queue + [e]) == h + Waiting(queue[1..] + [e]);
      WaitingAppend(queue[1..], e);
      assert h + (Waiting(queue[1..]) + t) == (h + Waiting(queue[1..])) + t;
    }
  }

  /** A run that publishes some beginning of the stream, in order. */
  predicate Interleaves(steps: seq<Step>, fills: seq<Fill>) {
    Legal(START, steps) && Published(steps) <= fills
  }

  /** Everything published so far: what has been handled, then what waits. */
  function Delivered(w: World): seq<Fill> {
    w.handled + Waiting(w.b.queue)
  }

  lemma NextFits(handled: seq<Fill>, f: Fill, fills: seq<Fill>)
    requires Positive(fills) && Tame(fills) && handled + [f] <= fills
    ensures Fits(handled, f)
  {
    var n := |handled|;
    assert fills[..n] == handled && fills[n] == f && fills[..n + 1] == handled + [f];
  }

  lemma HandleKeeps(w: World, fills: seq<Fill>)
    requires Positive(fills) && Tame(fills) && Inv(w.b, w.handled) && w.b.queue != [] && Delivered(w) <= fills
    ensures Inv(Apply(w, Handle).b, Apply(w, Handle).handled)
    ensures Delivered(Apply(w, Handle)) == Delivered(w)
  {
    var b := w.b;
    var rest := b.(queue := b.queue[1..]);
    assert Inv(rest, w.handled);
    match b.queue[0]
    case OrderFilled(f) =>
      assert Waiting(b.queue) == [f] + Waiting(b.queue[1..]);
      assert Delivered(w) == (w.handled + [f]) + Waiting(rest.queue);
      NextFits(w.handled, f, fills);
      FillKeeps(rest, w.handled, f);
    case PositionUpdated(ref) =>
      PutKeeps(b.dict, b.store, ref);
      assert Waiting(b.queue) == Waiting(b.queue[1..]);
  }

  lemma PublishKeeps(w: World, f: Fill)
    requires Inv(w.b, w.handled)
    ensures Inv(Apply(w, Publish(f)).b, w.handled)
    ensures Delivered(Apply(w, Publish(f))) == Delivered(w) + [f]
  {
    WaitingAppend(w.b.queue, OrderFilled(f));
  }

  lemma FillKeeps(b: Book, handled: seq<Fill>, f: Fill)
    requires Inv(b, handled) && Fits(handled, f)
    ensures Inv(ApplyFill(b, f), handled + [f])
    ensures Waiting(ApplyFill(b, f).queue) == Waiting(b.queue)
  {
    if Mentioned(handled, f.symbol) {
      var r := FillExisting(b, handled, f);
      WaitingAppend(b.queue, PositionUpdated(r));
    } else {
      FillNew(b, handled, f);
      WaitingAppend(b.queue, PositionUpdated(|b.store|));
    }
  }

  lemma PublishedCons(delivered: seq<Fill>, s: Step, rest: seq<Step>)
    ensures delivered + Published([s] + rest)
         == (if s.Publish? then delivered + [s.fill] else delivered) + Published(rest)
  {
    assert ([s] + rest)[1..] == rest;
    assert Published([s] + rest) == (if s.Publish? then [s.fill] else []) + Published(rest);
  }

  lemma StepKeeps(w: World, s: Step, rest: seq<Step>, fills: seq<Fill>)
    requires Positive(fills) && Tame(fills) && Inv(w.b, w.handled) && Enabled(w, s)
    requires Delivered(w) + Published([s] + rest) <= fills
    ensures Inv(Apply(w, s).b, Apply(w, s).handled)
    ensures Delivered(Apply(w, s)) + Published(rest) == Delivered(w) + Published([s] + rest)
  {
    PublishedCons(Delivered(w), s, rest);
    hide Published, Delivered, Inv, Positive, Tame;
    match s
    case Publish(f) =>
      PublishKeeps(w, f);
    case Handle =>
      assert Delivered(w) <= Delivered(w) + Published([s] + rest);
      HandleKeeps(w, fills);
  }

  lemma {:induction false} RunKeeps(w: World, steps: seq<Step>, fills: seq<Fill>)
    requires Positive(fills) && Tame(fills) && Inv(w.b, w.handled) && Legal(w, steps)
    requires Delivered(w) + Published(steps) <= fills
    ensures Inv(Exec(w, steps).b, Exec(w, steps).handled)
    ensures Delivered(Exec(w, steps)) == Delivered(w) + Published(steps)
    decreases |steps|
  {
    if steps == [] {
      assert Published(steps) == [];
    } else {
      hide Inv, Delivered, Apply, Positive, Tame, Enabled, Published;
      assert steps == [steps[0]] + steps[1..];
      StepKeeps(w, steps[0], steps[1..], fills);
      RunKeeps(Apply(w, steps[0]), steps[1..], fills);
    }
  }

  lemma StartStore()
    ensures Accurate(EMPTY.store, []) && Covers(EMPTY.store, []) && Unshadowed(EMPTY.store)
  {
  }

  lemma StartDict()
    ensures Keyed(EMPTY.dict, EMPTY.store) && Ordered(EMPTY.dict, EMPTY.store)
  {
  }

  lemma StartInv()
    ensures Inv(EMPTY, [])
  {
    hide Accurate, Covers, Unshadowed, Keyed, Ordered;
    StartStore();
    StartDict();
  }

  lemma StartDelivered()
    ensures Delivered(START) == []
  {
  }

  /** A tame stream is booked correctly at every moment of every interleaving. */
  lemma TameIsSafe(fills: seq<Fill>, steps: seq<Step>)
    requires Positive(fills) && Tame(fills) && Interleaves(steps, fills)
    ensures Agrees(Exec(START, steps).b, Exec(START, steps).handled)
    ensures Delivered(Exec(START, steps)) == Published(steps)
  {
    StartInv();
    StartDelivered();
    assert [] + Published(steps) == Published(steps);
    hide Inv, Delivered, Positive, Tame, Exec, Legal, Published, Agrees;
    RunKeeps(START, steps, fills);
    InvAgrees(Exec(START, steps).b, Exec(START, steps).handled);
  }

  // ---------- a stream that is not tame goes wrong ----------

  lemma {:induction false} Append(w: World, a: seq<Step>, b: seq<Step>)
    ensures Exec(w, a + b) == Exec(Exec(w, a), b)
    ensures Legal(w, a + b) <==> Legal(w, a) && Legal(Exec(w, a), b)
    decreases |a|
  {
    hide Apply, Enabled;
    if a == [] {
      assert a + b == b;
    } else {
      assert (a + b)[1..] == a[1..] + b;
      Append(Apply(w, a[0]), a[1..], b);
    }
  }

  lemma {:induction false} PublishedAppend(a: seq<Step>, b: seq<Step>)
    ensures Published(a + b) == Published(a) + Published(b)
  {
    if a == [] {
      assert a + b == b;
    } else {
      assert (a + b)[1..] == a[1..] + b;
      PublishedAppend(a[1..], b);
      var h := if a[0].Publish? then [a[0].fill] else [];
      assert h + (Published(a[1..]) + Published(b)) == (h + Published(a[1..])) + Published(b);
    }
  }

  lemma One(w: World, s: Step)
    ensures Exec(w, [s]) == Apply(w, s)
    ensures Legal(w, [s]) <==> Enabled(w, s)
  {
    assert [s][1..] == [];
    assert Exec(Apply(w, s), []) == Apply(w, s);
  }

  lemma PositivePrefix(fills: seq<Fill>, n: nat)
    requires Positive(fills) && n <= |fills|
    ensures Positive(fills[..n])
  {
  }

  lemma TamePrefix(fills: seq<Fill>, n: nat)
    requires n <= |fills|
    ensures Tame(fills) ==> Tame(fills[..n])
  {
    forall j | 0 <= j < n ensures fills[..n][..j] == fills[..j] && fills[..n][j] == fills[j] {
    }
  }

  /** The first fill at which a stream stops being tame. */
  lemma {:induction false} FirstWild(fills: seq<Fill>) returns (j: nat)
    requires !Tame(fills)
    ensures j < |fills| && Tame(fills[..j])
    ensures Reopens(fills[..j], fills[j]) || Shadowed(fills[..j], fills[j]) || Shorted(fills[..j], fills[j])
    decreases |fills|
  {
    var n := |fills| - 1;
    var init := fills[..n];
    forall k | 0 <= k < n ensures init[..k] == fills[..k] && init[k] == fills[k] {
    }
    if Tame(init) {
      j := n;
    } else {
      j := FirstWild(init);
    }
  }

  /** Publish and handle each fill, and its announcement, before the next. */
  function Sequential(fills: seq<Fill>): seq<Step>
    decreases |fills|
  {
    if fills == [] then []
    else Sequential(fills[..|fills| - 1]) + [Publish(fills[|fills| - 1])] + [Handle] + [Handle]
  }

  ghost predicate AllListed(b: Book) {
    forall r: nat :: r < |b.store| ==> Listed(b.dict, r)
  }

  /** After a fill that fits, at most the object it hit has left the dictionary. */
  lemma FillLists(b: Book, handled: seq<Fill>, f: Fill) returns (r: nat)
    requires Inv(b, handled) && Fits(handled, f) && AllListed(b)
    ensures Inv(ApplyFill(b, f), handled + [f])
    ensures r < |ApplyFill(b, f).store| && ApplyFill(b, f).queue == b.queue + [PositionUpdated(r)]
    ensures forall t: nat :: t < |ApplyFill(b, f).store| && t != r ==> Listed(ApplyFill(b, f).dict, t)
  {
    if Mentioned(handled, f.symbol) {
      r := FillExisting(b, handled, f);
      hide ApplyFill, Hit, Inv, Fits, FindPrefix;
      ListedAfterRemove(b.dict, FindPrefix(b.dict, Key(f.symbol)));
    } else {
      FillNew(b, handled, f);
      r := |b.store|;
      hide ApplyFill, Inv, Fits;
      ListedAfterAppend(b.dict, Entry(Key(f.symbol), r));
    }
  }

  lemma PutLists(dict: seq<Entry<nat>>, store: seq<Pos>, ref: nat)
    requires Keyed(dict, store) && ref < |store|
    requires forall r, t :: 0 <= r < t < |store| ==> store[r].symbol != store[t].symbol
    ensures forall r: nat :: Listed(dict, r) || r == ref ==> Listed(Put(dict, Key(store[ref].symbol), ref), r)
  {
    var key := Key(store[ref].symbol);
    var i := Find(dict, key);
    if i < |dict| {
      KeyInjective(store[dict[i].value].symbol, store[ref].symbol);
      assert dict[i] == Entry(key, ref);
      assert Put(dict, key, ref) == dict;
      assert Listed(dict, ref);
    } else {
      ListedAfterAppend(dict, Entry(key, ref));
    }
  }

  lemma HandleFillStep(w: World, f: Fill, rest: seq<Event>)
    requires WellFormed(w.b) && w.b.queue == [OrderFilled(f)] + rest
    ensures Enabled(w, Handle) && WellFormed(w.b.(queue := rest))
    ensures Apply(w, Handle) == World(ApplyFill(w.b.(queue := rest), f), w.handled + [f])
  {
    hide ApplyFill;
    assert w.b.queue[1..] == rest;
  }

  lemma HandleUpdateStep(w: World, ref: nat, rest: seq<Event>)
    requires WellFormed(w.b) && w.b.queue == [PositionUpdated(ref)] + rest
    ensures Enabled(w, Handle) && ref < |w.b.store|
    ensures Apply(w, Handle)
         == World(Book(w.b.store, Put(w.b.dict, Key(w.b.store[ref].symbol), ref), rest), w.handled)
  {
    hide Put, Key;
    assert w.b.queue[1..] == rest;
    assert w.b.queue[0] == PositionUpdated(ref);
  }

  lemma PublishAndHandle(w: World, f: Fill)
    requires w.b.queue == [] && WellFormed(w.b)
    ensures var steps := [Publish(f)] + [Handle];
            && Legal(w, steps)
            && Exec(w, steps) == World(ApplyFill(w.b, f), w.handled + [f])
  {
    var w1 := Apply(w, Publish(f));
    assert WellFormed(w1.b) && w1.b.queue == [OrderFilled(f)] + [] && w1.b.(queue := []) == w.b;
    hide ApplyFill, WellFormed;
    HandleFillStep(w1, f, []);
    One(w, Publish(f));
    One(w1, Handle);
    Append(w, [Publish(f)], [Handle]);
  }

  lemma InvIgnoresQueue(b: Book, handled: seq<Fill>, queue: seq<Event>)
    requires Inv(b, handled) && WellFormed(b.(queue := queue))
    ensures Inv(b.(queue := queue), handled)
  {
  }

  lemma PutKeepsInv(b: Book, handled: seq<Fill>, ref: nat)
    requires Inv(b, handled) && ref < |b.store| && b.queue == []
    ensures Inv(b.(dict := Put(b.dict, Key(b.store[ref].symbol), ref)), handled)
    ensures forall r: nat :: Listed(b.dict, r) || r == ref ==>
              Listed(Put(b.dict, Key(b.store[ref].symbol), ref), r)
  {
    PutKeeps(b.dict, b.store, ref);
    PutLists(b.dict, b.store, ref);
    hide Put, Key, Listed;
  }

  /** One fill through the bus and back: from an idle bus to an idle bus with every object listed. */
  lemma RoundTrip(w: World, f: Fill)
    requires Inv(w.b, w.handled) && Fits(w.handled, f) && AllListed(w.b) && w.b.queue == []
    ensures var steps := [Publish(f)] + [Handle] + [Handle];
            var v := Exec(w, steps);
            && Legal(w, steps)
            && v.handled == w.handled + [f] && v.b.queue == []
            && Inv(v.b, v.handled) && AllListed(v.b)
  {
    hide Inv, Fits, ApplyFill, Listed, Put, Key;
    InvAccurate(w.b, w.handled);
    PublishAndHandle(w, f);
    var r := FillLists(w.b, w.handled, f);
    var w2 := World(ApplyFill(w.b, f), w.handled + [f]);
    HandleUpdateStep(w2, r, []);
    InvIgnoresQueue(w2.b, w2.handled, []);
    PutKeepsInv(w2.b.(queue := []), w2.handled, r);
    One(w2, Handle);
    Append(w, [Publish(f)] + [Handle], [Handle]);
  }

  lemma InvAccurate(b: Book, handled: seq<Fill>)
    requires Inv(b, handled)
    ensures Accurate(b.store, handled) && WellFormed(b)
  {
  }

  lemma SequentialStep(fills: seq<Fill>, f: Fill)
    ensures Sequential(fills + [f]) == Sequential(fills) + ([Publish(f)] + [Handle] + [Handle])
  {
    assert (fills + [f])[..|fills|] == fills;
  }

  lemma PublishedOne(f: Fill)
    ensures Published([Publish(f)]) == [f]
    ensures Published([Publish(f)] + [Handle]) == [f] == Published([Publish(f)] + [Handle] + [Handle])
  {
    assert [Publish(f)][1..] == [];
    assert [Handle][1..] == [];
    assert ([Publish(f)] + [Handle])[1..] == [Handle];
    assert ([Publish(f)] + [Handle] + [Handle])[1..] == [Handle] + [Handle];
    assert ([Handle] + [Handle])[1..] == [Handle];
  }

  lemma {:induction false} SequentialPublishes(fills: seq<Fill>)
    ensures Published(Sequential(fills)) == fills
    decreases |fills|
  {
    if fills != [] {
      var n := |fills| - 1;
      SequentialPublishes(fills[..n]);
      PublishedOne(fills[n]);
      PublishedAppend(Sequential(fills[..n]), [Publish(fills[n])] + [Handle] + [Handle]);
      assert fills[..n] + [fills[n]] == fills;
      SequentialStep(fills[..n], fills[n]);
    }
  }

  lemma SequentialStart()
    ensures Legal(START, Sequential([])) && Exec(START, Sequential([])) == START
    ensures Inv(START.b, START.handled) && AllListed(START.b)
  {
    hide Inv;
    StartInv();
  }

  lemma {:induction false} SequentialRun(fills: seq<Fill>)
    requires Positive(fills) && Tame(fills)
    ensures var v := Exec(START, Sequential(fills));
            && Legal(START, Sequential(fills))
            && v.handled == fills && v.b.queue == []
            && Inv(v.b, v.handled) && AllListed(v.b)
    decreases |fills|
  {
    hide Inv, AllListed;
    if fills == [] {
      SequentialStart();
    } else {
      hide Positive, Tame, Inv, AllListed, Fits, Sequential, Exec, Legal, Net;
      var n := |fills| - 1;
      var init, f := fills[..n], fills[n];
      assert init + [f] == fills;
      PositivePrefix(fills, n);
      TamePrefix(fills, n);
      NextFits(init, f, fills);
      SequentialStep(init, f);
      SequentialRun(init);
      var w := Exec(START, Sequential(init));
      var steps := [Publish(f)] + [Handle] + [Handle];
      RoundTrip(w, f);
      Append(START, Sequential(init), steps);
    }
  }

  lemma UnmentionedHasNoKey(b: Book, handled: seq<Fill>, symbol: Symbol)
    requires Inv(b, handled) && !Mentioned(handled, symbol)
    ensures Find(b.dict, Key(symbol)) == |b.dict|
  {
    forall k | 0 <= k < |b.dict| ensures b.dict[k].key != Key(symbol) {
      var own := b.store[b.dict[k].value].symbol;
      assert Owned(b.store, own);
      KeysDiffer(own, symbol);
    }
  }

  lemma ShadowMisdirects(b: Book, handled: seq<Fill>, f: Fill)
    requires Inv(b, handled) && AllListed(b) && Shadowed(handled, f)
    ensures FindPrefix(b.dict, Key(f.symbol)) < |b.dict| && Find(b.dict, Key(f.symbol)) == |b.dict|
  {
    UnmentionedHasNoKey(b, handled, f.symbol);
    hide Key, Find, Accurate, Unshadowed, Ordered;
    var i :| 0 <= i < |handled| && Key(f.symbol) <= Key(handled[i].symbol);
    assert Mentioned(handled, handled[i].symbol);
    assert Owned(b.store, handled[i].symbol);
    var t: nat :| t < |b.store| && b.store[t].symbol == handled[i].symbol;
    assert Listed(b.dict, t);
    var k :| 0 <= k < |b.dict| && b.dict[k].value == t;
    assert Key(f.symbol) <= b.dict[k].key;
  }

  /** In step with the bus, a shadowed fill lands in the wrong position. */
  lemma ShadowedFill(b: Book, handled: seq<Fill>, f: Fill)
    requires f.quantity > 0.0 && Shadowed(handled, f) && Inv(b, handled) && AllListed(b)
    ensures !Agrees(ApplyFill(b, f), handled + [f])
  {
    InvWellFormed(b, handled);
    hide Inv, AllListed, Agrees, Net, ApplyFill, Key, WellFormed;
    UnmentionedNet(handled, f.symbol);
    ShadowMisdirects(b, handled, f);
    MisdirectedFill(b, handled, f);
  }

  /** And so does a fill that comes to a short symbol, although it finds its own position. */
  lemma ShortFill(b: Book, handled: seq<Fill>, f: Fill)
    requires f.quantity > 0.0 && Shorted(handled, f) && Inv(b, handled)
    ensures !Agrees(ApplyFill(b, f), handled + [f])
  {
    var i := OwnShort(b, handled, f);
    InvWellFormed(b, handled);
    InvAccurate(b, handled);
    hide Inv, Agrees, Net, ApplyFill, Key, WellFormed, FindPrefix, Accurate;
    ShortedFill(b, handled, f, i);
  }

  lemma OwnShort(b: Book, handled: seq<Fill>, f: Fill) returns (i: nat)
    requires Shorted(handled, f) && Inv(b, handled)
    ensures i == FindPrefix(b.dict, Key(f.symbol)) < |b.dict| && b.dict[i].value < |b.store|
    ensures b.store[b.dict[i].value].symbol == f.symbol && b.dict[i].key == Key(f.symbol)
    ensures forall k :: 0 <= k < |b.dict| && k != i ==> b.dict[k].key != Key(f.symbol)
  {
    hide Net, FindPrefix;
    if !Mentioned(handled, f.symbol) { UnmentionedNet(handled, f.symbol); }
    assert Owned(b.store, f.symbol);
    var r :| 0 <= r < |b.store| && b.store[r].symbol == f.symbol;
    FindsOwn(b.dict, b.store, r);
    i := FindPrefix(b.dict, Key(f.symbol));
    forall k | 0 <= k < |b.dict| && k != i ensures b.dict[k].key != Key(f.symbol) {
      KeysDiffer(b.store[b.dict[k].value].symbol, f.symbol);
    }
  }

  lemma InvWellFormed(b: Book, handled: seq<Fill>)
    requires Inv(b, handled)
    ensures WellFormed(b)
  {
  }

  /** The run that takes the fills one by one, and then publishes and handles one more. */
  lemma OneMore(before: seq<Fill>, f: Fill) returns (steps: seq<Step>, b: Book)
    requires Positive(before) && Tame(before)
    ensures Legal(START, steps) && Published(steps) == before + [f]
    ensures Inv(b, before) && AllListed(b) && WellFormed(b)
    ensures Exec(START, steps) == World(ApplyFill(b, f), before + [f])
  {
    hide Inv, AllListed, Positive, Tame, Sequential, ApplyFill, Exec, Legal, Published, WellFormed;
    var last := [Publish(f)] + [Handle];
    SequentialRun(before);
    var w := Exec(START, Sequential(before));
    b := w.b;
    InvWellFormed(b, before);
    PublishAndHandle(w, f);
    Append(START, Sequential(before), last);
    steps := Sequential(before) + last;
    SequentialPublishes(before);
    PublishedOne(f);
    PublishedAppend(Sequential(before), last);
  }

  lemma ShadowedRun(fills: seq<Fill>, j: nat) returns (steps: seq<Step>)
    requires Positive(fills) && j < |fills| && Tame(fills[..j]) && Shadowed(fills[..j], fills[j])
    ensures Interleaves(steps, fills)
    ensures !Agrees(Exec(START, steps).b, Exec(START, steps).handled)
  {
    var before, f := fills[..j], fills[j];
    PositivePrefix(fills, j);
    assert f.quantity > 0.0 && before + [f] <= fills;
    hide Inv, AllListed, Positive, Tame, Shadowed, Agrees, ApplyFill, Exec, Legal, Published;
    var b;
    steps, b := OneMore(before, f);
    ShadowedFill(b, before, f);
  }

  lemma ShortedRun(fills: seq<Fill>, j: nat) returns (steps: seq<Step>)
    requires Positive(fills) && j < |fills| && Tame(fills[..j]) && Shorted(fills[..j], fills[j])
    ensures Interleaves(steps, fills)
    ensures !Agrees(Exec(START, steps).b, Exec(START, steps).handled)
  {
    var before, f := fills[..j], fills[j];
    PositivePrefix(fills, j);
    assert f.quantity > 0.0 && before + [f] <= fills;
    hide Inv, AllListed, Positive, Tame, Shorted, Agrees, ApplyFill, Exec, Legal, Published;
    var b;
    steps, b := OneMore(before, f);
    ShortFill(b, before, f);
  }

  /** Publish all the fills before any event is handled. */
  function Batch(fills: seq<Fill>): seq<Step>
    decreases |fills|
  {
    if fills == [] then [] else Batch(fills[..|fills| - 1]) + [Publish(fills[|fills| - 1])]
  }

  function AsEvents(fills: seq<Fill>): seq<Event> {
    seq(|fills|, i requires 0 <= i < |fills| => OrderFilled(fills[i]))
  }

  function Loaded(fills: seq<Fill>): World {
    World(EMPTY.(queue := AsEvents(fills)), [])
  }

  lemma {:induction false} BatchPublishes(fills: seq<Fill>)
    ensures Published(Batch(fills)) == fills
    decreases |fills|
  {
    if fills != [] {
      var n := |fills| - 1;
      BatchPublishes(fills[..n]);
      PublishedAppend(Batch(fills[..n]), [Publish(fills[n])]);
      assert [Publish(fills[n])][1..] == [];
      assert fills[..n] + [fills[n]] == fills;
    }
  }

  lemma {:induction false} BatchRun(fills: seq<Fill>)
    ensures Legal(START, Batch(fills)) && Exec(START, Batch(fills)) == Loaded(fills)
    decreases |fills|
  {
    if fills == [] {
      assert AsEvents([]) == [];
    } else {
      hide AsEvents, Exec, Legal;
      var n := |fills| - 1;
      BatchRun(fills[..n]);
      assert fills[..n] + [fills[n]] == fills;
      Append(START, Batch(fills[..n]), [Publish(fills[n])]);
      One(Loaded(fills[..n]), Publish(fills[n]));
    }
  }

  function Handles(n: nat): seq<Step> {
    if n == 0 then [] else Handles(n - 1) + [Handle]
  }

  lemma {:induction false} HandlesPublishNothing(n: nat)
    ensures Published(Handles(n)) == []
  {
    if n != 0 {
      HandlesPublishNothing(n - 1);
      PublishedAppend(Handles(n - 1), [Handle]);
      assert [Handle][1..] == [];
    }
  }

  lemma HandlesOneMore(w: World, n: nat)
    ensures Exec(w, Handles(n + 1)) == Apply(Exec(w, Handles(n)), Handle)
    ensures Legal(w, Handles(n + 1)) <==> Legal(w, Handles(n)) && Enabled(Exec(w, Handles(n)), Handle)
  {
    hide Apply, Enabled;
    Append(w, Handles(n), [Handle]);
    One(Exec(w, Handles(n)), Handle);
  }

  ghost predicate OnlyOpen(dict: seq<Entry<nat>>, store: seq<Pos>) {
    forall k :: 0 <= k < |dict| ==> dict[k].value < |store| && store[dict[k].value].quantity > 0.0
  }

  lemma HitStaysOpen(dict: seq<Entry<nat>>, store: seq<Pos>, i: nat, p: Pos)
    requires Ordered(dict, store) && OnlyOpen(dict, store) && i < |dict| && 0.0 <= p.quantity
    ensures OnlyOpen(if p.quantity == 0.0 then RemoveAt(dict, i) else dict, store[dict[i].value := p])
  {
  }

  /** `ups` announces, in order, the objects that the fills have hit. */
  ghost predicate Announces(ups: seq<Event>, store: seq<Pos>, fills: seq<Fill>) {
    && |ups| == |fills|
    && (forall i :: 0 <= i < |ups| ==>
          ups[i].PositionUpdated? && ups[i].ref < |store| && store[ups[i].ref].symbol == fills[i].symbol)
  }

  lemma HitObjectAnnounced(b: Book, handled: seq<Fill>, f: Fill, ups: seq<Event>, r: nat)
    requires Announces(ups, b.store, handled) && r < |b.store| && b.store[r].symbol == f.symbol
    ensures Announces(ups + [PositionUpdated(r)], b.store[r := Hit(b.store[r], f)], handled + [f])
  {
    HitSymbol(b.store[r], f);
    hide Hit;
  }

  lemma HitNonNegative(b: Book, handled: seq<Fill>, f: Fill, r: nat)
    requires WellFormed(b) && Inv(ApplyFill(b, f), handled + [f])
    requires r < |b.store| && ApplyFill(b, f).store == b.store[r := Hit(b.store[r], f)]
    ensures 0.0 <= Hit(b.store[r], f).quantity
  {
    hide ApplyFill, Hit;
    InvAccurate(ApplyFill(b, f), handled + [f]);
    assert ApplyFill(b, f).store[r] == Hit(b.store[r], f);
  }

  lemma InvOrdered(b: Book, handled: seq<Fill>)
    requires Inv(b, handled)
    ensures Ordered(b.dict, b.store) && WellFormed(b)
  {
  }

  /** A fill that fits, with no announcement handled yet, leaves only open positions in the book. */
  lemma FillInBatch(b: Book, handled: seq<Fill>, f: Fill, ups: seq<Event>) returns (e: Event)
    requires Inv(b, handled) && Fits(handled, f) && OnlyOpen(b.dict, b.store) && Announces(ups, b.store, handled)
    ensures Inv(ApplyFill(b, f), handled + [f])
    ensures OnlyOpen(ApplyFill(b, f).dict, ApplyFill(b, f).store)
    ensures Announces(ups + [e], ApplyFill(b, f).store, handled + [f])
    ensures ApplyFill(b, f).queue == b.queue + [e]
  {
    hide Inv, Ordered, WellFormed, Fits, Hit, ApplyFill, FindPrefix, Find, RemoveAt;
    InvOrdered(b, handled);
    if Mentioned(handled, f.symbol) {
      hide OnlyOpen, Announces, Mentioned;
      var r := FillExisting(b, handled, f);
      e := PositionUpdated(r);
      HitNonNegative(b, handled, f, r);
      HitObjectAnnounced(b, handled, f, ups, r);
      HitStaysOpen(b.dict, b.store, FindPrefix(b.dict, Key(f.symbol)), Hit(b.store[r], f));
    } else {
      FillNew(b, handled, f);
      e := PositionUpdated(|b.store|);
      FitsPositive(handled, f);
    }
  }

  lemma FitsPositive(handled: seq<Fill>, f: Fill)
    requires Fits(handled, f)
    ensures f.quantity > 0.0
  {
  }

  lemma HitSymbol(p: Pos, f: Fill)
    ensures Hit(p, f).symbol == p.symbol
  {
  }

  lemma LoadedInv(fills: seq<Fill>)
    ensures Inv(Loaded(fills).b, []) && OnlyOpen([], [])
  {
    hide Inv;
    StartInv();
    InvIgnoresQueue(EMPTY, [], AsEvents(fills));
  }

  lemma NextEvent(fills: seq<Fill>, m: nat, ups: seq<Event>)
    requires m < |fills|
    ensures AsEvents(fills[m..]) + ups == [OrderFilled(fills[m])] + (AsEvents(fills[m + 1..]) + ups)
  {
    assert fills[m..] == [fills[m]] + fills[m + 1..];
    assert AsEvents(fills[m..]) == [OrderFilled(fills[m])] + AsEvents(fills[m + 1..]);
  }

  lemma BatchStart(fills: seq<Fill>) returns (ups: seq<Event>)
    ensures Exec(Loaded(fills), Handles(0)) == Loaded(fills) && Legal(Loaded(fills), Handles(0))
    ensures Inv(Loaded(fills).b, []) && OnlyOpen(Loaded(fills).b.dict, Loaded(fills).b.store) && fills[..0] == []
    ensures Loaded(fills).b.queue == AsEvents(fills[0..]) + ups && Announces(ups, Loaded(fills).b.store, [])
  {
    hide Inv, OnlyOpen, AsEvents;
    ups := [];
    LoadedInv(fills);
    assert fills[0..] == fills;
  }

  /** With all fills published first, handling `m` of them leaves the rest and then `m` announcements on the bus. */
  lemma {:induction false} BatchHandled(fills: seq<Fill>, m: nat) returns (ups: seq<Event>)
    requires m <= |fills| && Positive(fills) && Tame(fills[..m])
    ensures var w := Exec(Loaded(fills), Handles(m));
            && Legal(Loaded(fills), Handles(m)) && w.handled == fills[..m]
            && Inv(w.b, w.handled) && OnlyOpen(w.b.dict, w.b.store)
            && w.b.queue == AsEvents(fills[m..]) + ups && Announces(ups, w.b.store, fills[..m])
  {
    hide Inv, OnlyOpen, Announces, Positive, Tame, Fits, AsEvents, ApplyFill, WellFormed;
    if m == 0 {
      ups := BatchStart(fills);
    } else {
      var f := fills[m - 1];
      assert fills[..m - 1] == fills[..m][..m - 1];
      TamePrefix(fills[..m], m - 1);
      var ups' := BatchHandled(fills, m - 1);
      var w := Exec(Loaded(fills), Handles(m - 1));
      InvWellFormed(w.b, w.handled);
      NextEvent(fills, m - 1, ups');
      var rest := AsEvents(fills[m..]) + ups';
      HandleFillStep(w, f, rest);
      InvIgnoresQueue(w.b, w.handled, rest);
      PositivePrefix(fills, m);
      assert fills[..m - 1] + [f] == fills[..m];
      NextFits(fills[..m - 1], f, fills[..m]);
      var e := FillInBatch(w.b.(queue := rest), w.handled, f, ups');
      ups := ups' + [e];
      assert rest + [e] == AsEvents(fills[m..]) + ups;
      HandlesOneMore(Loaded(fills), m - 1);
    }
  }

  /** Announcements at the head of the bus are handled without touching any position object. */
  lemma {:induction false} DrainUpdates(w: World, k: nat)
    requires WellFormed(w.b) && k <= |w.b.queue|
    requires forall i :: 0 <= i < k ==> w.b.queue[i].PositionUpdated?
    ensures var v := Exec(w, Handles(k));
            && Legal(w, Handles(k)) && WellFormed(v.b)
            && v.b.store == w.b.store && v.handled == w.handled && v.b.queue == w.b.queue[k..]
  {
    hide WellFormed, Put, Key;
    if k != 0 {
      DrainUpdates(w, k - 1);
      HandlesOneMore(w, k - 1);
      var v := Exec(w, Handles(k - 1));
      assert v.b.queue == [w.b.queue[k - 1]] + w.b.queue[k..];
      HandleUpdateStep(v, w.b.queue[k - 1].ref, w.b.queue[k..]);
    }
  }

  /** A stale announcement brings back a flat object over whatever its symbol holds by then. */
  lemma StaleAnnouncement(w: World, ref: nat, rest: seq<Event>)
    requires WellFormed(w.b) && w.b.queue == [PositionUpdated(ref)] + rest
    requires ref < |w.b.store| && w.b.store[ref].quantity == 0.0
    requires Net(w.handled, w.b.store[ref].symbol) != 0.0
    ensures Enabled(w, Handle) && !Agrees(Apply(w, Handle).b, Apply(w, Handle).handled)
  {
    hide Put, Find, Key;
    HandleUpdateStep(w, ref, rest);
    var symbol := w.b.store[ref].symbol;
    PutFinds(w.b.dict, Key(symbol), ref, Key(symbol));
    var c := Apply(w, Handle).b;
    if WellFormed(c) {
      assert Held(c, symbol) == 0.0;
    }
  }

  /** A closed symbol has no key while none of its announcements has been handled. */
  lemma FlatHasNoKey(b: Book, handled: seq<Fill>, symbol: Symbol)
    requires Inv(b, handled) && OnlyOpen(b.dict, b.store) && Net(handled, symbol) == 0.0
    ensures Find(b.dict, Key(symbol)) == |b.dict|
  {
    forall k | 0 <= k < |b.dict| ensures b.dict[k].key != Key(symbol) {
      var p := b.store[b.dict[k].value];
      assert Right(p, Net(handled, p.symbol));
      assert p.symbol != symbol;
      KeysDiffer(p.symbol, symbol);
    }
  }

  lemma FlatObject(b: Book, handled: seq<Fill>, r: nat)
    requires Inv(b, handled) && r < |b.store| && Net(handled, b.store[r].symbol) == 0.0
    ensures b.store[r].quantity == 0.0
  {
  }

  /** A fill that finds nothing opens an object at the end of the store. */
  lemma OpensNew(b: Book, f: Fill)
    requires WellFormed(b) && FindPrefix(b.dict, Key(f.symbol)) == |b.dict|
    ensures ApplyFill(b, f).store == b.store + [Opened(f)]
    ensures ApplyFill(b, f).queue == b.queue + [PositionUpdated(|b.store|)]
  {
  }

  /** The bus holds a fill that reopens a flat symbol, and behind it the announcements of all earlier fills. */
  ghost predicate AboutToReopen(w: World, f: Fill, ups: seq<Event>) {
    && Inv(w.b, w.handled) && OnlyOpen(w.b.dict, w.b.store)
    && w.b.queue == [OrderFilled(f)] + ups && Announces(ups, w.b.store, w.handled)
    && Reopens(w.handled, f) && f.quantity > 0.0
  }

  /** Handling the fill, and then announcements up to one of the flat object, ends in disagreement. */
  lemma ReopenGoesWrong(w: World, f: Fill, ups: seq<Event>) returns (k: nat)
    requires AboutToReopen(w, f, ups)
    ensures Legal(w, Handles(k)) && !Agrees(Exec(w, Handles(k)).b, Exec(w, Handles(k)).handled)
  {
    hide Inv, OnlyOpen, WellFormed, ApplyFill, Agrees, Key, Exec, Legal;
    InvWellFormed(w.b, w.handled);
    HandleFillStep(w, f, ups);
    var b := w.b.(queue := ups);
    InvIgnoresQueue(w.b, w.handled, ups);
    FlatHasNoKey(b, w.handled, f.symbol);
    HandlesOne(w);
    if FindPrefix(b.dict, Key(f.symbol)) < |b.dict| {
      MisdirectedFill(b, w.handled, f);
      k := 1;
    } else {
      k := StaleRun(w, f, ups, b);
    }
  }

  lemma HandlesOne(w: World)
    ensures Exec(w, Handles(1)) == Apply(w, Handle)
    ensures Legal(w, Handles(1)) <==> Enabled(w, Handle)
  {
    assert Handles(1) == [Handle] by { assert Handles(0) == []; }
    One(w, Handle);
  }

  lemma HandlesFirst(w: World, n: nat)
    requires Enabled(w, Handle)
    ensures Exec(w, Handles(n + 1)) == Exec(Apply(w, Handle), Handles(n))
    ensures Legal(w, Handles(n + 1)) <==> Legal(Apply(w, Handle), Handles(n))
  {
    hide Apply, Enabled;
    HandlesCons(n);
    assert ([Handle] + Handles(n))[1..] == Handles(n);
  }

  lemma {:induction false} HandlesCons(n: nat)
    ensures Handles(n + 1) == [Handle] + Handles(n)
  {
    if n != 0 {
      HandlesCons(n - 1);
    }
  }

  lemma StaleRun(w: World, f: Fill, ups: seq<Event>, b: Book) returns (k: nat)
    requires AboutToReopen(w, f, ups) && WellFormed(b) && b == w.b.(queue := ups)
    requires FindPrefix(b.dict, Key(f.symbol)) == |b.dict|
    requires Enabled(w, Handle) && Apply(w, Handle) == World(ApplyFill(b, f), w.handled + [f])
    ensures Legal(w, Handles(k)) && !Agrees(Exec(w, Handles(k)).b, Exec(w, Handles(k)).handled)
  {
    hide Inv, OnlyOpen, WellFormed, ApplyFill, Agrees, Key, Exec, Legal, Handles, Enabled, Apply;
    var i :| 0 <= i < |w.handled| && w.handled[i].symbol == f.symbol;
    var ref := ups[i].ref;
    FlatObject(w.b, w.handled, ref);
    OpensNew(b, f);
    var v := Apply(w, Handle);
    assert v.b.store[ref] == w.b.store[ref];
    var queue := ups + [PositionUpdated(|b.store|)];
    DrainUpdates(v, i);
    var u := Exec(v, Handles(i));
    assert queue[i..] == [PositionUpdated(ref)] + queue[i + 1..];
    StaleAnnouncement(u, ref, queue[i + 1..]);
    HandlesOneMore(v, i);
    HandlesFirst(w, i + 1);
    k := i + 2;
  }

  /** The run that publishes all the fills and then handles `j` and `k` events. */
  lemma BatchThen(batch: seq<Fill>, j: nat, k: nat) returns (steps: seq<Step>)
    requires Legal(Loaded(batch), Handles(j)) && Legal(Exec(Loaded(batch), Handles(j)), Handles(k))
    ensures Legal(START, steps) && Published(steps) == batch
    ensures Exec(START, steps) == Exec(Exec(Loaded(batch), Handles(j)), Handles(k))
  {
    hide Exec, Legal, Published, Handles, Loaded, Batch;
    BatchRun(batch);
    BatchPublishes(batch);
    HandlesPublishNothing(j);
    HandlesPublishNothing(k);
    Append(START, Batch(batch), Handles(j));
    Append(START, Batch(batch) + Handles(j), Handles(k));
    PublishedAppend(Batch(batch), Handles(j));
    PublishedAppend(Batch(batch) + Handles(j), Handles(k));
    steps := Batch(batch) + Handles(j) + Handles(k);
    assert batch + [] + [] == batch;
  }

  lemma ReopeningRun(fills: seq<Fill>, j: nat) returns (steps: seq<Step>)
    requires Positive(fills) && j < |fills| && Tame(fills[..j]) && Reopens(fills[..j], fills[j])
    ensures Interleaves(steps, fills)
    ensures !Agrees(Exec(START, steps).b, Exec(START, steps).handled)
  {
    assert fills[j].quantity > 0.0;
    hide Inv, OnlyOpen, Announces, Positive, Tame, Reopens, Agrees, WellFormed, Exec, Legal, Published, Handles, Net;
    var batch := fills[..j + 1];
    PositivePrefix(fills, j + 1);
    assert batch[..j] == fills[..j] && batch[j] == fills[j];
    var ups := BatchHandled(batch, j);
    var w := Exec(Loaded(batch), Handles(j));
    NextEvent(batch, j, ups);
    assert batch[j + 1..] == [] && AsEvents([]) + ups == ups;
    var k := ReopenGoesWrong(w, fills[j], ups);
    steps := BatchThen(batch, j, k);
  }

  /** For every stream of fills, the book shows the net of the handled fills at every moment of every interleaving of
      publication and handling, if and only if no fill comes to a symbol that is short or reopens one that has gone
      flat, and no symbol's first fill comes after one whose key it abbreviates. */
  lemma BookTheorem(fills: seq<Fill>)
    requires Positive(fills)
    ensures (forall steps | Interleaves(steps, fills) :: Agrees(Exec(START, steps).b, Exec(START, steps).handled))
       <==> Tame(fills)
  {
    hide Positive, Agrees, Interleaves, Tame, Exec;
    if Tame(fills) {
      forall steps | Interleaves(steps, fills) ensures Agrees(Exec(START, steps).b, Exec(START, steps).handled) {
        TameIsSafe(fills, steps);
      }
    } else {
      var j := FirstWild(fills);
      var steps;
      if Reopens(fills[..j], fills[j]) {
        steps := ReopeningRun(fills, j);
      } else if Shorted(fills[..j], fills[j]) {
        steps := ShortedRun(fills, j);
      } else {
        steps := ShadowedRun(fills, j);
      }
    }
  }

  // ---------- a fill lost for good ----------

  ghost predicate LongOnly(fills: seq<Fill>) {
    Positive(fills) && forall k, symbol :: 0 <= k <= |fills| ==> Net(fills[..k], symbol) >= 0.0
  }

  lemma ApplyToOnly(b: Book, f: Fill, ref: nat)
    requires WellFormed(b) && b.dict == [Entry(Key(f.symbol), ref)]
    ensures ApplyFill(b, f) == Book(b.store[ref := Hit(b.store[ref], f)],
                                    if Closes(b.store[ref], f) then [] else b.dict,
                                    b.queue + [PositionUpdated(ref)])
  {
    hide Hit, Key;
    assert FindPrefix(b.dict, Key(f.symbol)) == 0;
    assert RemoveAt(b.dict, 0) == [];
  }

  lemma ApplyToNone(b: Book, f: Fill)
    requires WellFormed(b) && b.dict == []
    ensures ApplyFill(b, f) == Book(b.store + [Opened(f)], [Entry(Key(f.symbol), |b.store|)],
                                    b.queue + [PositionUpdated(|b.store|)])
  {
    hide Key;
    assert [] + [Entry(Key(f.symbol), |b.store|)] == [Entry(Key(f.symbol), |b.store|)];
  }

  lemma PutOnly(symbol: Symbol, was: nat, ref: nat)
    ensures Put([Entry(Key(symbol), was)], Key(symbol), ref) == [Entry(Key(symbol), ref)]
    ensures Put([], Key(symbol), ref) == [Entry(Key(symbol), ref)]
  {
    hide Key;
    assert Find([Entry(Key(symbol), was)], Key(symbol)) == 0;
    assert [] + [Entry(Key(symbol), ref)] == [Entry(Key(symbol), ref)];
  }

  lemma HandleOnlyFill(w: World, f: Fill, ref: nat, rest: seq<Event>)
    requires WellFormed(w.b) && w.b.queue == [OrderFilled(f)] + rest && w.b.dict == [Entry(Key(f.symbol), ref)]
    ensures Enabled(w, Handle)
    ensures Apply(w, Handle)
         == World(Book(w.b.store[ref := Hit(w.b.store[ref], f)],
                       if Closes(w.b.store[ref], f) then [] else w.b.dict,
                       rest + [PositionUpdated(ref)]), w.handled + [f])
  {
    hide ApplyFill, Hit, Closes, Key, Apply, Enabled;
    HandleFillStep(w, f, rest);
    ApplyToOnly(w.b.(queue := rest), f, ref);
  }

  lemma HeldOnly(b: Book, symbol: Symbol, ref: nat)
    requires WellFormed(b) && b.dict == [Entry(Key(symbol), ref)] && ref < |b.store| && b.store[ref].side.Buy?
    ensures Held(b, symbol) == b.store[ref].quantity
  {
    hide Key;
    assert Find(b.dict, Key(symbol)) == 0;
  }

  lemma HitFlat(flat: Pos, f: Fill)
    requires f.side.Buy? && flat.symbol == f.symbol && flat.side.Buy? && flat.quantity == 0.0
    ensures Hit(flat, f).quantity == f.quantity && Hit(flat, f).side.Buy? && Hit(flat, f).symbol == f.symbol
    ensures !Closes(flat, f)
  {
  }

  /** A flat position and its reopened successor swap places on the bus. */
  lemma SwapPlaces(w: World, flat: Pos, f: Fill) returns (steps: seq<Step>, v: World)
    requires f.side.Buy? && f.quantity > 0.0 && flat.symbol == f.symbol && flat.side.Buy? && flat.quantity == 0.0
    requires w.b == Book([flat], [], [OrderFilled(f)] + [PositionUpdated(0)])
    ensures Legal(w, steps) && Published(steps) == [f] && v == Exec(w, steps) && v.b.queue == []
    ensures v.handled == w.handled + [f] + [f] && WellFormed(v.b) && Held(v.b, f.symbol) == f.quantity
  {
    var key := Key(f.symbol);
    hide ApplyFill, Key, Put, Find, Hit, Closes, Held, Legal, Exec, Published;
    // a second fill is published before the first is handled
    var rest := [PositionUpdated(0)] + [OrderFilled(f)];
    var w1 := Apply(w, Publish(f));
    assert w1.b.queue == [OrderFilled(f)] + rest;
    HandleFillStep(w1, f, rest);
    ApplyToNone(w1.b.(queue := rest), f);
    var w2 := Apply(w1, Handle);
    assert w2.b == Book([flat] + [Opened(f)], [Entry(key, 1)], rest + [PositionUpdated(1)]);
    // the stale announcement re-installs the flat object
    var rest2 := [OrderFilled(f)] + [PositionUpdated(1)];
    assert w2.b.queue == [PositionUpdated(0)] + rest2;
    HandleUpdateStep(w2, 0, rest2);
    PutOnly(f.symbol, 1, 0);
    var w3 := Apply(w2, Handle);
    assert w3.b == Book([flat] + [Opened(f)], [Entry(key, 0)], rest2);
    // the second fill goes to it
    HandleOnlyFill(w3, f, 0, [PositionUpdated(1)]);
    var w4 := Apply(w3, Handle);
    var hit := Hit(flat, f);
    HitFlat(flat, f);
    assert w4.b == Book([hit] + [Opened(f)], [Entry(key, 0)], [PositionUpdated(1)] + [PositionUpdated(0)]);
    // both announcements come round, the newer object first
    HandleUpdateStep(w4, 1, [PositionUpdated(0)]);
    PutOnly(f.symbol, 0, 1);
    var w5 := Apply(w4, Handle);
    assert w5.b == Book([hit] + [Opened(f)], [Entry(key, 1)], [PositionUpdated(0)] + []);
    HandleUpdateStep(w5, 0, []);
    PutOnly(f.symbol, 1, 0);
    v := Apply(w5, Handle);
    assert v.b == Book([hit] + [Opened(f)], [Entry(key, 0)], []);
    HeldOnly(v.b, f.symbol, 0);
    steps := [Publish(f)] + Handles(5);
    LostFillSteps(w, f, w1, w2, w3, w4, w5, v);
  }

  lemma LostFillSteps(w: World, f: Fill, w1: World, w2: World, w3: World, w4: World, w5: World, v: World)
    requires w1 == Apply(w, Publish(f))
    requires Enabled(w1, Handle) && w2 == Apply(w1, Handle) && Enabled(w2, Handle) && w3 == Apply(w2, Handle)
    requires Enabled(w3, Handle) && w4 == Apply(w3, Handle) && Enabled(w4, Handle) && w5 == Apply(w4, Handle)
    requires Enabled(w5, Handle) && v == Apply(w5, Handle)
    ensures Legal(w, [Publish(f)] + Handles(5)) && Exec(w, [Publish(f)] + Handles(5)) == v
    ensures Published([Publish(f)] + Handles(5)) == [f]
  {
    hide Apply, Handles, Exec, Legal, Published;
    HandlesFirst(w1, 4);
    HandlesFirst(w2, 3);
    HandlesFirst(w3, 2);
    HandlesFirst(w4, 1);
    HandlesOne(w5);
    One(w, Publish(f));
    Append(w, [Publish(f)], Handles(5));
    HandlesPublishNothing(5);
    PublishedAppend([Publish(f)], Handles(5));
    PublishedOne(f);
  }

  /** A fill and its undoing, twice a fill again: four fills that leave twice the quantity. */
  function Undone(f: Fill): Fill {
    f.(side := Sell)
  }

  lemma FourFills(f: Fill)
    requires f.side.Buy? && f.quantity > 0.0
    ensures LongOnly([f] + [Undone(f)] + [f] + [f])
    ensures Net([f] + [Undone(f)] + [f] + [f], f.symbol) == 2.0 * f.quantity
  {
    var u := Undone(f);
    var fills := [f] + [u] + [f] + [f];
    forall symbol
      ensures Net([], symbol) >= 0.0 && Net([f], symbol) >= 0.0 && Net([f] + [u], symbol) >= 0.0
      ensures Net([f] + [u] + [f], symbol) >= 0.0 && Net(fills, symbol) >= 0.0
      ensures symbol == f.symbol ==> Net(fills, symbol) == 2.0 * f.quantity
    {
      assert [] + [f] == [f];
    }
    assert fills[..0] == [] && fills[..1] == [f] && fills[..2] == [f] + [u];
    assert fills[..3] == [f] + [u] + [f] && fills[..4] == fills;
    forall k, symbol | 0 <= k <= |fills| ensures Net(fills[..k], symbol) >= 0.0 {
      assert k == 0 || k == 1 || k == 2 || k == 3 || k == 4;
    }
  }

  /** Opening, closing, and reopening in one burst leads to `SwapPlaces`. */
  lemma CloseInABurst(f: Fill) returns (steps: seq<Step>, w: World, flat: Pos)
    requires f.side.Buy? && f.quantity > 0.0
    ensures Legal(START, steps) && Published(steps) == [f] + [Undone(f)] + [f] && w == Exec(START, steps)
    ensures w.handled == [f] + [Undone(f)] && w.b == Book([flat], [], [OrderFilled(f)] + [PositionUpdated(0)])
    ensures flat.symbol == f.symbol && flat.side.Buy? && flat.quantity == 0.0
  {
    hide ApplyFill, Key, Put, Find, Exec, Legal, Published, Handles;
    var u := Undone(f);
    flat := Hit(Opened(f), u);
    assert Closes(Opened(f), u);
    PublishAndHandle(START, f);
    ApplyToNone(EMPTY, f);
    var w2 := World(Book([Opened(f)], [Entry(Key(f.symbol), 0)], [PositionUpdated(0)] + []), [f]);
    assert Exec(START, [Publish(f)] + [Handle]) == w2;
    HandleUpdateStep(w2, 0, []);
    PutOnly(f.symbol, 0, 0);
    var w3 := Apply(w2, Handle);
    var w4 := Apply(w3, Publish(u));
    var w5 := Apply(w4, Publish(f));
    assert w5.b.queue == [OrderFilled(u)] + [OrderFilled(f)];
    HandleOnlyFill(w5, u, 0, [OrderFilled(f)]);
    w := Apply(w5, Handle);
    assert w.b.store == [flat];
    One(w2, Handle);
    One(w3, Publish(u));
    One(w4, Publish(f));
    One(w5, Handle);
    var first := [Publish(f)] + [Handle];
    Append(START, first, [Handle]);
    Append(START, first + [Handle], [Publish(u)]);
    Append(START, first + [Handle] + [Publish(u)], [Publish(f)]);
    Append(START, first + [Handle] + [Publish(u)] + [Publish(f)], [Handle]);
    steps := first + [Handle] + [Publish(u)] + [Publish(f)] + [Handle];
    BurstPublishes(f, u);
  }

  lemma BurstPublishes(f: Fill, u: Fill)
    ensures Published([Publish(f)] + [Handle] + [Handle] + [Publish(u)] + [Publish(f)] + [Handle]) == [f] + [u] + [f]
  {
    PublishedOne(f);
    PublishedOne(u);
    assert Published([Publish(u)]) == [u] by { assert [Publish(u)][1..] == []; }
    PublishedAppend([Publish(f)] + [Handle] + [Handle], [Publish(u)]);
    PublishedAppend([Publish(f)] + [Handle] + [Handle] + [Publish(u)], [Publish(f)] + [Handle]);
    assert [Publish(f)] + [Handle] + [Handle] + [Publish(u)] + ([Publish(f)] + [Handle])
        == [Publish(f)] + [Handle] + [Handle] + [Publish(u)] + [Publish(f)] + [Handle];
  }

  /** A fill lost for good: a long-only stream of four fills whose run ends with the bus idle, every fill handled,
      and the book showing half of what was bought. */
  lemma LostFill(f: Fill) returns (steps: seq<Step>)
    requires f.side.Buy? && f.quantity > 0.0
    ensures var fills := [f] + [Undone(f)] + [f] + [f];
            var v := Exec(START, steps);
            && LongOnly(fills) && Interleaves(steps, fills)
            && v.b.queue == [] && v.handled == fills && WellFormed(v.b)
            && Held(v.b, f.symbol) == f.quantity && Net(v.handled, f.symbol) == 2.0 * f.quantity
  {
    hide LongOnly, Net, Exec, Legal, Published, WellFormed, Held;
    FourFills(f);
    var before, w, flat := CloseInABurst(f);
    var after, v := SwapPlaces(w, flat, f);
    Append(START, before, after);
    PublishedAppend(before, after);
    steps := before + after;
    assert v.handled == [f] + [Undone(f)] + [f] + [f];
  }
}
