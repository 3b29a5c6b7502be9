/** The bounded priority queue of infrastructure/backpressure.py. */
module Backpressure {
  // Messages wait in arrival order; `get` scans for the first of the most urgent, eviction scans for the first of
  // the least urgent, and two watermarks decide when low-priority messages are turned away. A lower priority number
  // is more urgent.

  datatype Message = Message(payload: int, priority: nat)

  const CRITICAL: nat := 0

  datatype Config = Config(maxSize: int, high: int, low: int, dropBelow: int)

  datatype Queue = Queue(messages: seq<Message>, dropped: nat, enqueued: nat, dequeued: nat, shedding: bool)

  const EMPTY: Queue := Queue([], 0, 0, 0, false)

  function Without(s: seq<Message>, i: nat): seq<Message>
    requires i < |s|
  {
    s[..i] + s[i + 1..]
  }

  /** Rounding towards zero: the whole number next to `x` on the side of zero. */
  function Truncated(x: real): (n: int)
    ensures if x >= 0.0 then n as real <= x < n as real + 1.0 else n as real - 1.0 < x <= n as real
  {
    if x >= 0.0 then x.Floor else -(-x).Floor
  }

  /** The first message of the most urgent priority. */
  function Best(s: seq<Message>): (b: nat)
    requires s != []
    ensures b < |s|
    ensures forall i :: 0 <= i < |s| ==> s[b].priority <= s[i].priority
    ensures forall i :: 0 <= i < b ==> s[b].priority < s[i].priority
  {
    var n := |s| - 1;
    if n == 0 then 0
    else
      var b := Best(s[..n]);
      if s[n].priority < s[b].priority then n else b
  }

  /** The first message of the least urgent priority. */
  function Worst(s: seq<Message>): (w: nat)
    requires s != []
    ensures w < |s|
    ensures forall i :: 0 <= i < |s| ==> s[i].priority <= s[w].priority
    ensures forall i :: 0 <= i < w ==> s[i].priority < s[w].priority
  {
    var n := |s| - 1;
    if n == 0 then 0
    else
      var w := Worst(s[..n]);
      if s[n].priority > s[w].priority then n else w
  }

  // ---------- the operations ----------

  predicate Expendable(cfg: Config, m: Message) { m.priority >= cfg.dropBelow }

  predicate Full(cfg: Config, q: Queue) { |q.messages| >= cfg.maxSize }

  predicate Evicts(cfg: Config, q: Queue, m: Message) {
    Full(cfg, q) && !Expendable(cfg, m) && q.messages != []
  }

  function Evicted(q: Queue): Queue
    requires q.messages != []
  {
    q.(messages := Without(q.messages, Worst(q.messages)), dropped := q.dropped + 1)
  }

  /** The part of `put` below the capacity check. */
  function Admit(cfg: Config, q: Queue, m: Message): (Queue, bool) {
    var q1 := if |q.messages| >= cfg.high then q.(shedding := true) else q;
    if |q.messages| >= cfg.high && Expendable(cfg, m) then (q1.(dropped := q1.dropped + 1), false)
    else
      var q2 := q1.(messages := q1.messages + [m], enqueued := q1.enqueued + 1);
      (if q2.shedding && |q2.messages| <= cfg.low then q2.(shedding := false) else q2, true)
  }

  function PutResult(cfg: Config, q: Queue, m: Message): (Queue, bool) {
    if Full(cfg, q) && (Expendable(cfg, m) || q.messages == []) then (q.(dropped := q.dropped + 1), false)
    else Admit(cfg, if Full(cfg, q) then Evicted(q) else q, m)
  }

  function GetResult(q: Queue): (Queue, Message)
    requires q.messages != []
  {
    var b := Best(q.messages);
    (q.(messages := Without(q.messages, b), dequeued := q.dequeued + 1), q.messages[b])
  }

  /** How many messages `drain` takes: all of them for 0, none for a negative bound. */
  function DrainCount(q: Queue, maxItems: int): nat {
    var n := |q.messages|;
    if maxItems == 0 || maxItems > n then n else if maxItems < 0 then 0 else maxItems
  }

  function DrainResult(q: Queue, maxItems: int): Queue {
    var n := DrainCount(q, maxItems);
    q.(messages := q.messages[n..], dequeued := q.dequeued + n)
  }

  class BackpressureQueue {
    const cfg: Config
    var messages: seq<Message>
    var dropped: nat
    var enqueued: nat
    var dequeued: nat
    var shedding: bool

    function Value(): Queue
      reads this
    {
      Queue(messages, dropped, enqueued, dequeued, shedding)
    }

    /** The watermarks are fractions of the capacity. */
    constructor (maxSize: int, highFraction: real, lowFraction: real, dropBelow: int)
      ensures Value() == EMPTY
      ensures var high, low := maxSize as real * highFraction, maxSize as real * lowFraction;
              cfg == Config(maxSize, Truncated(high), Truncated(low), dropBelow)
    {
      var high, low := maxSize as real * highFraction, maxSize as real * lowFraction;
      cfg := Config(maxSize, Truncated(high), Truncated(low), dropBelow);
      messages, dropped, enqueued, dequeued, shedding := [], 0, 0, 0, false;
    }

    method EvictLowest() returns (evicted: bool)
      modifies this
      ensures evicted == (old(messages) != [])
      ensures Value() == if evicted then Evicted(old(Value())) else old(Value())
    {
      hide Worst;
      if messages == [] { return false; }
      var worst, i := 0, 1;
      while i < |messages|
        invariant 1 <= i <= |messages| && worst < i
        invariant forall j :: 0 <= j < i ==> messages[j].priority <= messages[worst].priority
        invariant forall j :: 0 <= j < worst ==> messages[j].priority < messages[worst].priority
      {
        if messages[i].priority > messages[worst].priority {
          worst := i;
        }
        i := i + 1;
      }
      messages := messages[..worst] + messages[worst + 1..];
      dropped := dropped + 1;
      return true;
    }

    method Put(m: Message) returns (accepted: bool)
      modifies this
      ensures (Value(), accepted) == PutResult(cfg, old(Value()), m)
    {
      hide Worst;
      if |messages| >= cfg.maxSize {
        if m.priority >= cfg.dropBelow {
          dropped := dropped + 1;
          return false;
        }
        var evicted := EvictLowest();
        if !evicted {
          dropped := dropped + 1;
          return false;
        }
      }
      if |messages| >= cfg.high {
        shedding := true;
        if m.priority >= cfg.dropBelow {
          dropped := dropped + 1;
          return false;
        }
      }
      messages := messages + [m];
      enqueued := enqueued + 1;
      if shedding && |messages| <= cfg.low {
        shedding := false;
      }
      return true;
    }

    /** `get`, once a message is there. */
    method Get() returns (m: Message)
      requires messages != []
      modifies this
      ensures (Value(), m) == GetResult(old(Value()))
    {
      hide Best;
      var best, i := 0, 1;
      while i < |messages|
        invariant 1 <= i <= |messages| && best < i
        invariant forall j :: 0 <= j < i ==> messages[best].priority <= messages[j].priority
        invariant forall j :: 0 <= j < best ==> messages[best].priority < messages[j].priority
      {
        if messages[i].priority < messages[best].priority {
          best := i;
        }
        i := i + 1;
      }
      m := messages[best];
      messages := messages[..best] + messages[best + 1..];
      dequeued := dequeued + 1;
    }

    method Drain(maxItems: int) returns (items: seq<Message>)
      modifies this
      ensures items == old(messages)[..DrainCount(old(Value()), maxItems)]
      ensures Value() == DrainResult(old(Value()), maxItems)
    {
      var count := if maxItems != 0 then maxItems else |messages|;
      var bound := if count < |messages| then count else |messages|;
      items := [];
      var i := 0;
      while i < bound
        invariant 0 <= i && (i <= bound || (bound < 0 && i == 0))
        invariant bound <= |old(messages)| && i <= |old(messages)|
        invariant items == old(messages)[..i] && messages == old(messages)[i..]
        invariant enqueued == old(enqueued) && dropped == old(dropped) && dequeued == old(dequeued)
        invariant shedding == old(shedding)
      {
        items := items + [messages[0]];
        messages := messages[1..];
        i := i + 1;
      }
      dequeued := dequeued + |items|;
    }

    method Clear() returns (count: nat)
      modifies this
      ensures count == |old(messages)| && Value() == old(Value()).(messages := [])
    {
      count := |messages|;
      messages := [];
    }
  }
}
