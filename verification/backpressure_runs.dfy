/** Whole runs of the bounded priority queue of infrastructure/backpressure.py: what every sequence of its operations
    keeps, in which order messages come out, and exactly when a critical one is lost. Counters on the side tell what
    became of every message that was ever put in. */
module BackpressureRuns {
  import opened Backpressure
  import opened StableSorting

  function Max(a: int, b: int): int { if a >= b then a else b }

  // ---------- runs ----------

  datatype Step = Put(m: Message) | Get | Drain(maxItems: int) | Clear

  /** The queue, and what has happened to messages so far. */
  datatype World = World(q: Queue, puts: nat, refused: nat, evicted: nat, cleared: nat)

  const START: World := World(EMPTY, 0, 0, 0, 0)

  function Apply(cfg: Config, w: World, s: Step): World {
    match s
    case Put(m) =>
      var (q, accepted) := PutResult(cfg, w.q, m);
      World(q, w.puts + 1, w.refused + (if accepted then 0 else 1),
            w.evicted + (if Evicts(cfg, w.q, m) then 1 else 0), w.cleared)
    case Get => if w.q.messages == [] then w else w.(q := GetResult(w.q).0)
    case Drain(maxItems) => w.(q := DrainResult(w.q, maxItems))
    case Clear => w.(q := w.q.(messages := []), cleared := w.cleared + |w.q.messages|)
  }

  function Exec(cfg: Config, w: World, steps: seq<Step>): World
    decreases |steps|
  {
    if steps == [] then w else Exec(cfg, Apply(cfg, w, steps[0]), steps[1..])
  }

  /** How many expendable messages wait. */
  function Expendables(cfg: Config, s: seq<Message>): nat
    decreases |s|
  {
    if s == [] then 0
    else Expendables(cfg, s[..|s| - 1]) + if Expendable(cfg, s[|s| - 1]) then 1 else 0
  }

  ghost predicate Counted(w: World) {
    && w.puts == w.q.enqueued + w.refused
    && w.q.enqueued == w.q.dequeued + |w.q.messages| + w.evicted + w.cleared
    && w.q.dropped == w.refused + w.evicted
  }

  ghost predicate Bounded(cfg: Config, w: World) {
    && |w.q.messages| <= Max(cfg.maxSize, 0)
    && Expendables(cfg, w.q.messages) <= Max(cfg.high, 0)
    && (cfg.low <= cfg.high && !w.q.shedding ==> |w.q.messages| <= Max(cfg.high, 0))
  }

  lemma {:induction false} ExpendablesAppend(cfg: Config, a: seq<Message>, b: seq<Message>)
    ensures Expendables(cfg, a + b) == Expendables(cfg, a) + Expendables(cfg, b)
    decreases |b|
  {
    if b == [] {
      assert a + b == a;
    } else {
      var n := |b| - 1;
      assert (a + b)[..|a + b| - 1] == a + b[..n];
      ExpendablesAppend(cfg, a, b[..n]);
    }
  }

  lemma {:induction false} ExpendablesAtMost(cfg: Config, s: seq<Message>)
    ensures Expendables(cfg, s) <= |s|
    decreases |s|
  {
    if s != [] {
      ExpendablesAtMost(cfg, s[..|s| - 1]);
    }
  }

  lemma ExpendablesWithout(cfg: Config, s: seq<Message>, i: nat)
    requires i < |s|
    ensures Expendables(cfg, Without(s, i)) <= Expendables(cfg, s)
  {
    hide Expendables;
    assert s == s[..i] + ([s[i]] + s[i + 1..]);
    ExpendablesAppend(cfg, s[..i], [s[i]] + s[i + 1..]);
    ExpendablesAppend(cfg, [s[i]], s[i + 1..]);
    ExpendablesAppend(cfg, s[..i], s[i + 1..]);
  }

  lemma ExpendablesOne(cfg: Config, s: seq<Message>, m: Message)
    ensures Expendables(cfg, s + [m]) == Expendables(cfg, s) + if Expendable(cfg, m) then 1 else 0
  {
    assert (s + [m])[..|s|] == s;
  }

  lemma AdmitBounded(cfg: Config, q: Queue, m: Message)
    requires |q.messages| <= Max(cfg.maxSize, 0) - 1
    requires Expendables(cfg, q.messages) <= Max(cfg.high, 0)
    requires cfg.low <= cfg.high && !q.shedding ==> |q.messages| <= Max(cfg.high, 0)
    ensures var r := Admit(cfg, q, m).0;
            && |r.messages| <= Max(cfg.maxSize, 0)
            && Expendables(cfg, r.messages) <= Max(cfg.high, 0)
            && (cfg.low <= cfg.high && !r.shedding ==> |r.messages| <= Max(cfg.high, 0))
  {
    ExpendablesOne(cfg, q.messages, m);
    ExpendablesAtMost(cfg, q.messages);
    hide Expendables;
  }

  lemma PutBounded(cfg: Config, w: World, m: Message)
    requires Bounded(cfg, w)
    ensures Bounded(cfg, Apply(cfg, w, Put(m)))
  {
    hide Expendables, Worst, Admit;
    if !(Full(cfg, w.q) && (Expendable(cfg, m) || w.q.messages == [])) {
      if Full(cfg, w.q) {
        ExpendablesWithout(cfg, w.q.messages, Worst(w.q.messages));
        AdmitBounded(cfg, Evicted(w.q), m);
      } else {
        AdmitBounded(cfg, w.q, m);
      }
    }
  }

  lemma StepBounded(cfg: Config, w: World, s: Step)
    requires Bounded(cfg, w)
    ensures Bounded(cfg, Apply(cfg, w, s))
  {
    match s
    case Put(m) => PutBounded(cfg, w, m);
    case Get =>
      if w.q.messages != [] {
        ExpendablesWithout(cfg, w.q.messages, Best(w.q.messages));
        hide Expendables, Best;
      }
    case Drain(maxItems) =>
      var n, s := DrainCount(w.q, maxItems), w.q.messages;
      assert s == s[..n] + s[n..];
      ExpendablesAppend(cfg, s[..n], s[n..]);
      hide Expendables;
    case Clear =>
  }

  lemma StepCounted(cfg: Config, w: World, s: Step)
    requires Counted(w)
    ensures Counted(Apply(cfg, w, s))
  {
    hide Worst, Best;
  }

  lemma {:induction false} RunKeeps(cfg: Config, w: World, steps: seq<Step>)
    requires Counted(w) && Bounded(cfg, w)
    ensures Counted(Exec(cfg, w, steps)) && Bounded(cfg, Exec(cfg, w, steps))
    decreases |steps|
  {
    hide Counted, Bounded, Apply;
    if steps != [] {
      StepCounted(cfg, w, steps[0]);
      StepBounded(cfg, w, steps[0]);
      RunKeeps(cfg, Apply(cfg, w, steps[0]), steps[1..]);
    }
  }

  /** Every run: the depth stays within capacity, expendable messages leave the headroom above the high watermark to
      the others, and every message put is refused, evicted, cleared, dequeued, or still there. */
  lemma QueueTheorem(cfg: Config, steps: seq<Step>)
    ensures var w := Exec(cfg, START, steps);
            && |w.q.messages| <= Max(cfg.maxSize, 0)
            && Expendables(cfg, w.q.messages) <= Max(cfg.high, 0)
            && w.puts == w.q.enqueued + w.refused
            && w.q.enqueued == w.q.dequeued + |w.q.messages| + w.evicted + w.cleared
            && w.q.dropped == w.refused + w.evicted
  {
    hide Exec, Expendables, Counted, Bounded;
    FreshKeeps(cfg, START);
    RunKeeps(cfg, START, steps);
    Kept(cfg, Exec(cfg, START, steps));
  }

  lemma Kept(cfg: Config, w: World)
    requires Counted(w) && Bounded(cfg, w)
    ensures |w.q.messages| <= Max(cfg.maxSize, 0)
    ensures Expendables(cfg, w.q.messages) <= Max(cfg.high, 0)
    ensures w.puts == w.q.enqueued + w.refused
    ensures w.q.enqueued == w.q.dequeued + |w.q.messages| + w.evicted + w.cleared
    ensures w.q.dropped == w.refused + w.evicted
  {
  }

  lemma FreshKeeps(cfg: Config, w: World)
    requires w.q.messages == [] && w.puts == w.refused == w.evicted == w.cleared == 0
    requires w.q.enqueued == w.q.dequeued == w.q.dropped == 0
    ensures Counted(w) && Bounded(cfg, w)
  {
  }

  /** Shedding is announced whenever the depth exceeds the high watermark, in every run, exactly when the watermarks
      are in order, or capacity or the drop level keeps the depth below the high one anyway, and the high one is not
      below zero. */
  lemma SheddingIsAnnounced(cfg: Config)
    ensures (forall steps :: !Exec(cfg, START, steps).q.shedding ==> |Exec(cfg, START, steps).q.messages| <= cfg.high)
       <==> 0 <= cfg.high && (cfg.low <= cfg.high || cfg.maxSize <= cfg.high || cfg.dropBelow <= 0)
  {
    hide Expendables, Bounded, Counted;
    var none: seq<Step> := [];
    assert Exec(cfg, START, none) == START;
    hide Exec;
    FreshKeeps(cfg, START);
    if cfg.high < 0 {
      assert !Exec(cfg, START, none).q.shedding;
    } else if cfg.low <= cfg.high || cfg.maxSize <= cfg.high {
      forall steps
        ensures !Exec(cfg, START, steps).q.shedding ==> |Exec(cfg, START, steps).q.messages| <= cfg.high
      {
        RunKeeps(cfg, START, steps);
        BoundedDepth(cfg, Exec(cfg, START, steps));
      }
    } else if cfg.dropBelow <= 0 {
      forall steps ensures Expendables(cfg, Exec(cfg, START, steps).q.messages) <= cfg.high {
        RunKeeps(cfg, START, steps);
        BoundedDepth(cfg, Exec(cfg, START, steps));
      }
      forall steps ensures |Exec(cfg, START, steps).q.messages| <= cfg.high {
        AllExpendable(cfg, Exec(cfg, START, steps).q.messages);
      }
    } else {
      var steps := FillUp(cfg, cfg.high + 1);
    }
  }

  lemma BoundedDepth(cfg: Config, w: World)
    requires Bounded(cfg, w) && 0 <= cfg.high
    ensures (cfg.low <= cfg.high && !w.q.shedding) || cfg.maxSize <= cfg.high ==> |w.q.messages| <= cfg.high
    ensures Expendables(cfg, w.q.messages) <= cfg.high
  {
  }

  lemma {:induction false} AllExpendable(cfg: Config, s: seq<Message>)
    requires cfg.dropBelow <= 0
    ensures Expendables(cfg, s) == |s|
    decreases |s|
  {
    if s != [] {
      AllExpendable(cfg, s[..|s| - 1]);
    }
  }

  lemma {:induction false} AppendStep(cfg: Config, w: World, steps: seq<Step>, s: Step)
    ensures Exec(cfg, w, steps + [s]) == Apply(cfg, Exec(cfg, w, steps), s)
    decreases |steps|
  {
    hide Apply;
    if steps == [] {
      assert steps + [s] == [s] && [s][1..] == [];
      assert Exec(cfg, Apply(cfg, w, s), []) == Apply(cfg, w, s);
    } else {
      assert (steps + [s])[1..] == steps[1..] + [s];
      AppendStep(cfg, Apply(cfg, w, steps[0]), steps[1..], s);
    }
  }

  /** With the watermarks crossed, critical messages pile up unannounced. */
  lemma {:induction false} FillUp(cfg: Config, n: nat) returns (steps: seq<Step>)
    requires 0 <= cfg.high < cfg.low && n <= cfg.high + 1 <= cfg.maxSize && 0 < cfg.dropBelow
    ensures |Exec(cfg, START, steps).q.messages| == n && !Exec(cfg, START, steps).q.shedding
  {
    if n == 0 {
      steps := [];
    } else {
      var before := FillUp(cfg, n - 1);
      AppendStep(cfg, START, before, Put(Message(0, CRITICAL)));
      steps := before + [Put(Message(0, CRITICAL))];
      hide Exec;
    }
  }

  // ---------- when an urgent message is lost ----------

  /** A waiting critical message is thrown out by a put exactly when the queue is full of critical messages and the
      newcomer, itself of whatever priority above the drop level, is let in over them. */
  lemma CriticalEvictedIff(cfg: Config, q: Queue, m: Message)
    ensures (Evicts(cfg, q, m) && q.messages[Worst(q.messages)].priority == CRITICAL)
       <==> (Full(cfg, q) && !Expendable(cfg, m) && q.messages != []
             && forall i :: 0 <= i < |q.messages| ==> q.messages[i].priority == CRITICAL)
  {
    if q.messages != [] {
      assert q.messages[Worst(q.messages)] in q.messages;
    }
  }

  /** A critical message is turned away exactly when nothing is exempt from dropping and the high watermark or the
      capacity is reached, or when the queue can hold nothing. */
  lemma CriticalRefusedIff(cfg: Config, q: Queue, m: Message)
    requires m.priority == CRITICAL
    ensures !PutResult(cfg, q, m).1
       <==> ((cfg.dropBelow <= 0 && (|q.messages| >= cfg.high || Full(cfg, q)))
             || (Full(cfg, q) && q.messages == []))
  {
    hide Worst;
  }

  // ---------- what `get` delivers ----------

  function AsItem(m: Message): Item<Message> { Item(m.priority as real, m) }

  function AsItems(s: seq<Message>): (r: seq<Item<Message>>)
    ensures |r| == |s| && forall i :: 0 <= i < |s| ==> r[i] == AsItem(s[i])
  {
    seq(|s|, i requires 0 <= i < |s| => AsItem(s[i]))
  }

  lemma {:induction false} OnlyConcat(a: seq<Item<Message>>, b: seq<Item<Message>>, key: real)
    ensures Only(a + b, key) == Only(a, key) + Only(b, key)
    decreases |b|
  {
    if b == [] {
      assert a + b == a;
    } else {
      var n := |b| - 1;
      assert a + b == (a + b[..n]) + [b[n]] && b == b[..n] + [b[n]];
      OnlyConcat(a, b[..n], key);
    }
  }

  lemma {:induction false} OnlyAbsent(s: seq<Item<Message>>, key: real)
    requires forall i :: 0 <= i < |s| ==> s[i].key != key
    ensures Only(s, key) == []
  {
    if s != [] {
      OnlyAbsent(s[..|s| - 1], key);
    }
  }

  lemma OnlyOne(x: Item<Message>, key: real)
    ensures Only([x], key) == if x.key == key then [x] else []
  {
    assert [x][..0] == [];
  }

  lemma SplitAt(s: seq<Message>, b: nat)
    requires b < |s|
    ensures AsItems(s) == AsItems(s[..b]) + ([AsItem(s[b])] + AsItems(s[b + 1..]))
    ensures AsItems(Without(s, b)) == AsItems(s[..b]) + AsItems(s[b + 1..])
  {
    hide AsItem;
  }

  lemma BeforeBest(s: seq<Message>)
    requires s != []
    ensures forall i :: 0 <= i < Best(s) ==> AsItems(s[..Best(s)])[i].key != AsItem(s[Best(s)]).key
  {
  }

  /** Moving an item to the front past items of other keys keeps the items of each key. */
  lemma MovedToFront(before: seq<Item<Message>>, x: Item<Message>, after: seq<Item<Message>>, key: real)
    requires forall i :: 0 <= i < |before| ==> before[i].key != x.key
    ensures Only([x] + (before + after), key) == Only(before + ([x] + after), key)
  {
    hide Only;
    OnlyConcat(before, [x] + after, key);
    OnlyConcat([x], after, key);
    OnlyConcat([x], before + after, key);
    OnlyConcat(before, after, key);
    OnlyOne(x, key);
    if key == x.key {
      OnlyAbsent(before, key);
    }
  }

  /** Taking out the first of the most urgent messages and putting it in front keeps the messages of each priority. */
  lemma BestInFront(s: seq<Message>, key: real)
    requires s != []
    ensures var b := Best(s);
            Only([AsItem(s[b])] + AsItems(Without(s, b)), key) == Only(AsItems(s), key)
  {
    hide Only, AsItems, AsItem, Without;
    var b := Best(s);
    SplitAt(s, b);
    BeforeBest(s);
    MovedToFront(AsItems(s[..b]), AsItem(s[b]), AsItems(s[b + 1..]), key);
  }

  lemma BestIsLeast(s: seq<Message>)
    requires s != []
    ensures forall i :: 0 <= i < |s| - 1 ==>
              AsItem(s[Best(s)]).key <= Sort(AsItems(Without(s, Best(s))))[i].key
  {
    hide Sort, AsItems;
    var rest := AsItems(Without(s, Best(s)));
    SortItems(rest);
    forall i | 0 <= i < |Sort(rest)| ensures AsItem(s[Best(s)]).key <= Sort(rest)[i].key {
      assert Sort(rest)[i] in multiset(rest);
      var k :| 0 <= k < |rest| && rest[k] == Sort(rest)[i];
      assert Without(s, Best(s))[k] in s;
    }
  }

  /** One `get` delivers the head of the stable sort by priority, and leaves a queue whose sort is the tail. */
  lemma GetTakesHead(s: seq<Message>)
    requires s != []
    ensures Sort(AsItems(s)) == [AsItem(s[Best(s)])] + Sort(AsItems(Without(s, Best(s))))
  {
    hide Only, Sort;
    var x, rest := AsItem(s[Best(s)]), AsItems(Without(s, Best(s)));
    SortIsStable(AsItems(s));
    SortIsStable(rest);
    BestIsLeast(s);
    forall key ensures Only([x] + Sort(rest), key) == Only(Sort(AsItems(s)), key) {
      OnlyConcat([x], Sort(rest), key);
      OnlyConcat([x], rest, key);
      BestInFront(s, key);
    }
    SortedIsUnique([x] + Sort(rest), Sort(AsItems(s)));
  }

  /** `n` gets in a row: the queue they leave, and the messages they deliver. */
  function Gets(q: Queue, n: nat): (Queue, seq<Message>)
    requires n <= |q.messages|
    decreases n
  {
    if n == 0 then (q, [])
    else
      var (q', m) := GetResult(q);
      var (q'', ms) := Gets(q', n - 1);
      (q'', [m] + ms)
  }

  /** `s` is what remains of `t` when some elements are taken out, the rest in their old order. */
  ghost predicate Within(s: seq<Message>, t: seq<Message>) {
    exists at: seq<nat> :: Embeds(at, s, t)
  }

  ghost predicate Embeds(at: seq<nat>, s: seq<Message>, t: seq<Message>) {
    && |at| == |s|
    && (forall i :: 0 <= i < |at| ==> at[i] < |t| && t[at[i]] == s[i])
    && (forall i, j :: 0 <= i < j < |at| ==> at[i] < at[j])
  }

  lemma WithinWithout(s: seq<Message>, t: seq<Message>, b: nat)
    requires b < |t| && Within(s, Without(t, b))
    ensures Within(s, t)
  {
    var at: seq<nat> :| Embeds(at, s, Without(t, b));
    var up := seq(|at|, i requires 0 <= i < |at| => if at[i] < b then at[i] else at[i] + 1);
    assert Embeds(up, s, t);
  }

  lemma WithinItself(s: seq<Message>)
    ensures Within(s, s)
  {
    assert Embeds(seq(|s|, i => i), s, s);
  }

  /** With no put in between, `n` gets deliver the first `n` messages of the queue's stable sort by priority, and what
      stays in the queue keeps its order. */
  lemma {:induction false} GetsAreSorted(q: Queue, n: nat)
    requires n <= |q.messages|
    ensures var (r, ms) := Gets(q, n);
            && AsItems(ms) + Sort(AsItems(r.messages)) == Sort(AsItems(q.messages))
            && |ms| == n && Within(r.messages, q.messages)
    decreases n
  {
    hide Sort, Within, AsItems, AsItem, Without;
    if n == 0 {
      WithinItself(q.messages);
    } else {
      var s := q.messages;
      var (q', m) := GetResult(q);
      GetTakesHead(s);
      GetsAreSorted(q', n - 1);
      var (r, ms) := Gets(q', n - 1);
      WithinWithout(r.messages, s, Best(s));
    }
  }

  // ---------- one operation, by sizes and priorities ----------

  /** A message is turned away exactly when the queue is full and has nobody to make room for it, or when it is
      expendable and the high watermark is reached. */
  lemma RefusedIff(cfg: Config, q: Queue, m: Message)
    ensures !PutResult(cfg, q, m).1 <==>
              || (|q.messages| >= cfg.maxSize && (m.priority >= cfg.dropBelow || q.messages == []))
              || (|q.messages| >= cfg.high && m.priority >= cfg.dropBelow)
  {
    WithoutSize(q);
  }

  lemma WithoutSize(q: Queue)
    ensures q.messages != [] ==> |Evicted(q).messages| == |q.messages| - 1
  {
    hide Worst;
  }

  /** What a put leaves: a refused message leaves the queue as it was; an accepted one stands at the end, where the
      queue was full in the place of the first of the least urgent. Every loss and every arrival is counted; shedding
      begins at the high watermark and ends when an accepted message leaves no more than the low one. */
  lemma PutTheorem(cfg: Config, q: Queue, m: Message)
    ensures var (r, accepted) := PutResult(cfg, q, m);
            var evicts := accepted && |q.messages| >= cfg.maxSize;
            var depth := if evicts then |q.messages| - 1 else |q.messages|;
            && (!accepted ==> r.messages == q.messages)
            && (accepted && !evicts ==> r.messages == q.messages + [m])
            && (evicts ==> exists w :: IsWorst(q.messages, w) && r.messages == Without(q.messages, w) + [m])
            && r.enqueued == q.enqueued + (if accepted then 1 else 0) && r.dequeued == q.dequeued
            && r.dropped == q.dropped + (if accepted then 0 else 1) + (if evicts then 1 else 0)
            && (r.shedding <==>
                  if !accepted && |q.messages| >= cfg.maxSize then q.shedding
                  else (q.shedding || depth >= cfg.high) && !(accepted && depth + 1 <= cfg.low))
  {
    WithoutSize(q);
    if q.messages != [] {
      assert IsWorst(q.messages, Worst(q.messages));
    }
    hide Worst;
  }

  /** The first of the least urgent. */
  predicate IsWorst(s: seq<Message>, w: nat) {
    && w < |s|
    && (forall i :: 0 <= i < |s| ==> s[i].priority <= s[w].priority)
    && (forall i :: 0 <= i < w ==> s[i].priority < s[w].priority)
  }

  /** Draining takes from the front: everything for a bound of zero, nothing for a negative one, and otherwise as many
      as the bound allows. */
  lemma DrainTheorem(q: Queue, bound: int, taken: nat)
    requires taken == if bound == 0 then |q.messages|
                      else if bound < 0 then 0
                      else if bound < |q.messages| then bound else |q.messages|
    ensures DrainResult(q, bound) == q.(messages := q.messages[taken..], dequeued := q.dequeued + taken)
  {
  }
}
