/** The engine's position book (engine/async_engine.py) behind the FIFO event bus (core/events.py). */
module PositionBooks {
  // A fill changes a shared `Position` object and announces that very object on the bus; when the announcement comes
  // round, whatever object it carries is stored under its key. `Book` is the state with object identities written as
  // indices into `store`, the sequence of all positions ever created. `PositionEngine` is the same state as objects
  // on the heap, and each of its methods is proved to do to the heap what the function on `Book` says.

  import opened OrderedDicts

  datatype Side = Buy | Sell

  datatype Symbol = Symbol(name: string)

  datatype Fill = Fill(symbol: Symbol, side: Side, price: real, quantity: real)

  /** The attributes of a position object that the handlers use. The strategy id is always empty. */
  datatype Pos = Pos(symbol: Symbol, side: Side, quantity: real, avgEntry: real, realized: real)

  datatype Event = OrderFilled(fill: Fill) | PositionUpdated(ref: nat)

  datatype Book = Book(store: seq<Pos>, dict: seq<Entry<nat>>, queue: seq<Event>)

  const EMPTY: Book := Book([], [], [])

  function Key(symbol: Symbol): string { symbol.name + ":" }

  // ---------- the handlers ----------

  function Blend(p: Pos, f: Fill): real {
    var quantity := p.quantity + f.quantity;
    if quantity != 0.0 then (p.avgEntry * p.quantity + f.price * f.quantity) / quantity else 0.0
  }

  function Gain(p: Pos, f: Fill): real {
    (f.price - p.avgEntry) * f.quantity
  }

  function Hit(p: Pos, f: Fill): Pos {
    match f.side
    case Buy =>
      p.(quantity := p.quantity + f.quantity, avgEntry := Blend(p, f))
    case Sell =>
      var pnl := Gain(p, f);
      var q := p.(realized := if p.side.Buy? then p.realized + pnl else p.realized - pnl,
                  quantity := p.quantity - f.quantity);
      if q.quantity < 0.0 then q.(side := Sell, quantity := -q.quantity, avgEntry := f.price) else q
  }

  predicate Closes(p: Pos, f: Fill) {
    f.side.Sell? && p.quantity - f.quantity == 0.0
  }

  function Opened(f: Fill): Pos {
    Pos(f.symbol, f.side, f.quantity, f.price, 0.0)
  }

  predicate WellFormed(b: Book) {
    && (forall i :: 0 <= i < |b.dict| ==> b.dict[i].value < |b.store|)
    && (forall i :: 0 <= i < |b.queue| && b.queue[i].PositionUpdated? ==> b.queue[i].ref < |b.store|)
  }

  function ApplyFill(b: Book, f: Fill): (c: Book)
    requires WellFormed(b)
    ensures WellFormed(c)
  {
    var i := FindPrefix(b.dict, Key(f.symbol));
    if i < |b.dict| then
      var ref := b.dict[i].value;
      Book(b.store[ref := Hit(b.store[ref], f)],
           if Closes(b.store[ref], f) then RemoveAt(b.dict, i) else b.dict,
           b.queue + [PositionUpdated(ref)])
    else
      Book(b.store + [Opened(f)], Put(b.dict, Key(f.symbol), |b.store|), b.queue + [PositionUpdated(|b.store|)])
  }

  /** One round of the bus loop. */
  function Handle(b: Book): (c: Book)
    requires WellFormed(b) && b.queue != []
    ensures WellFormed(c)
  {
    var rest := b.(queue := b.queue[1..]);
    match b.queue[0]
    case OrderFilled(f) => ApplyFill(rest, f)
    case PositionUpdated(ref) => rest.(dict := Put(b.dict, Key(b.store[ref].symbol), ref))
  }

  function Publish(b: Book, f: Fill): Book {
    b.(queue := b.queue + [OrderFilled(f)])
  }

  class Position {
    const symbol: Symbol
    var side: Side
    var quantity: real
    var avgEntry: real
    var realized: real

    constructor (f: Fill)
      ensures Data() == Opened(f)
    {
      symbol, side, quantity, avgEntry, realized := f.symbol, f.side, f.quantity, f.price, 0.0;
    }

    function Data(): Pos
      reads this
    {
      Pos(symbol, side, quantity, avgEntry, realized)
    }

    /** The branch of `_apply_fill` for a position that exists; tells whether the position is now closed. */
    method Apply(f: Fill) returns (closed: bool)
      modifies this
      ensures Data() == Hit(old(Data()), f)
      ensures closed == Closes(old(Data()), f)
    {
      hide Blend, Gain;
      closed := false;
      if f.side == Buy {
        avgEntry := Blend(Data(), f);
        quantity := quantity + f.quantity;
      } else {
        var pnl := Gain(Data(), f);
        if side == Buy {
          realized := realized + pnl;
        } else {
          realized := realized - pnl;
        }
        quantity := quantity - f.quantity;
        if quantity <= 0.0 {
          if quantity < 0.0 {
            side := Sell;
            quantity := -quantity;
            avgEntry := f.price;
          } else {
            closed := true;
          }
        }
      }
    }
  }

  datatype BusEvent = FillEvent(fill: Fill) | PositionEvent(position: Position)

  class PositionEngine {
    const maxQueueSize: nat
    var positions: seq<Entry<Position>>
    var queue: seq<BusEvent>
    ghost var objects: seq<Position>
    ghost var book: Book

    ghost predicate Valid()
      reads this, objects
    {
      && WellFormed(book)
      && |objects| == |book.store|
      && (forall i, j :: 0 <= i < j < |objects| ==> objects[i] != objects[j])
      && (forall i :: 0 <= i < |objects| ==> objects[i].Data() == book.store[i])
      && |positions| == |book.dict|
      && (forall i :: 0 <= i < |positions| ==>
            positions[i].key == book.dict[i].key && positions[i].value == objects[book.dict[i].value])
      && |queue| == |book.queue|
      && (forall i :: 0 <= i < |queue| ==> Same(queue[i], book.queue[i], objects))
    }

    static ghost predicate Same(e: BusEvent, f: Event, objects: seq<Position>) {
      match e
      case FillEvent(fill) => f == OrderFilled(fill)
      case PositionEvent(position) => f.PositionUpdated? && f.ref < |objects| && objects[f.ref] == position
    }

    constructor (maxQueueSize: nat)
      ensures Valid() && book == EMPTY && this.maxQueueSize == maxQueueSize
    {
      this.maxQueueSize := maxQueueSize;
      positions, queue, objects, book := [], [], [], EMPTY;
    }

    /** `publish` of an ORDER_FILLED event; an event that finds the bus full is dropped. */
    method PublishFill(f: Fill)
      requires Valid()
      modifies this
      ensures Valid() && objects == old(objects)
      ensures book == if maxQueueSize == 0 || |old(book).queue| < maxQueueSize
                      then Publish(old(book), f) else old(book)
    {
      if maxQueueSize == 0 || |queue| < maxQueueSize {
        queue := queue + [FillEvent(f)];
        book := Publish(book, f);
      }
    }

    /** The first key that starts with the fill's symbol and a colon. */
    method FirstCandidate(f: Fill) returns (i: nat)
      requires Valid()
      ensures i == FindPrefix(book.dict, Key(f.symbol))
    {
      i := 0;
      while i < |positions| && !(Key(f.symbol) <= positions[i].key)
        invariant i <= |positions|
        invariant forall k :: 0 <= k < i ==> !(Key(f.symbol) <= book.dict[k].key)
      {
        i := i + 1;
      }
    }

    /** `positions[key] = value` for the object with identity `ref`. */
    method Store(position: Position, ghost ref: nat)
      requires Valid() && ref < |objects| && objects[ref] == position
      modifies this`positions, this`book
      ensures Valid()
      ensures book == old(book).(dict := Put(old(book.dict), Key(position.symbol), ref))
    {
      var key := Key(position.symbol);
      var i := 0;
      while i < |positions| && positions[i].key != key
        invariant i <= |positions|
        invariant forall k :: 0 <= k < i ==> book.dict[k].key != key
      {
        i := i + 1;
      }
      assert i == Find(book.dict, key);
      if i < |positions| {
        positions := positions[i := Entry(key, position)];
      } else {
        positions := positions + [Entry(key, position)];
      }
      book := book.(dict := Put(book.dict, key, ref));
    }

    /** `publish` of a POSITION_UPDATED event. It follows the removal of an event, so the bus has room. */
    method PublishPosition(position: Position, ghost ref: nat)
      requires Valid() && ref < |objects| && objects[ref] == position
      modifies this`queue, this`book
      ensures Valid()
      ensures book == old(book).(queue := old(book.queue) + [PositionUpdated(ref)])
    {
      queue := queue + [PositionEvent(position)];
      book := book.(queue := book.queue + [PositionUpdated(ref)]);
    }

    /** Change the object with identity `ref` in place; every holder of it sees the change. */
    method HitObject(position: Position, f: Fill, ghost ref: nat) returns (closed: bool)
      requires Valid() && ref < |objects| && objects[ref] == position
      modifies this`book, position
      ensures Valid()
      ensures book == old(book).(store := old(book.store)[ref := Hit(old(book.store)[ref], f)])
      ensures closed == Closes(old(book.store)[ref], f)
    {
      hide Hit, Closes, Find, Put;
      closed := position.Apply(f);
      book := book.(store := book.store[ref := position.Data()]);
    }

    /** `del positions[key]` for the entry at `i`. */
    method Remove(i: nat)
      requires Valid() && i < |positions|
      modifies this`positions, this`book
      ensures Valid() && book == old(book).(dict := RemoveAt(old(book.dict), i))
    {
      positions := RemoveAt(positions, i);
      book := book.(dict := RemoveAt(book.dict, i));
    }

    method ApplyToExisting(f: Fill, i: nat)
      requires Valid() && i < |positions| && i == FindPrefix(book.dict, Key(f.symbol))
      modifies this`positions, this`queue, this`book, objects
      ensures Valid() && book == ApplyFill(old(book), f)
    {
      ghost var ref := book.dict[i].value;
      var position := positions[i].value;
      var closed := HitObject(position, f, ref);
      if closed {
        Remove(i);
      }
      PublishPosition(position, ref);
      hide Hit, Closes, RemoveAt, FindPrefix;
    }

    method Create(f: Fill) returns (position: Position)
      requires Valid()
      modifies this`objects, this`book
      ensures Valid() && fresh(position) && objects == old(objects) + [position]
      ensures book == old(book).(store := old(book.store) + [Opened(f)])
      ensures position.symbol == f.symbol
    {
      position := new Position(f);
      objects := objects + [position];
      book := book.(store := book.store + [Opened(f)]);
    }

    method ApplyToNew(f: Fill)
      requires Valid() && FindPrefix(book.dict, Key(f.symbol)) == |book.dict|
      modifies this
      ensures Valid() && book == ApplyFill(old(book), f)
      ensures forall p :: p in objects ==> p in old(objects) || fresh(p)
    {
      var position := Create(f);
      Store(position, |objects| - 1);
      PublishPosition(position, |objects| - 1);
    }

    method Pop() returns (event: BusEvent, ghost e: Event)
      requires Valid() && queue != []
      modifies this`queue, this`book
      ensures Valid() && book == old(book).(queue := old(book.queue)[1..])
      ensures e == old(book.queue)[0] && Same(event, e, objects)
    {
      event, e := queue[0], book.queue[0];
      queue := queue[1..];
      book := book.(queue := book.queue[1..]);
    }

    /** One event off the bus and through its handler. */
    method HandleNext()
      requires Valid() && queue != []
      modifies this, objects
      ensures Valid() && book == Handle(old(book))
      ensures forall p :: p in objects ==> p in old(objects) || fresh(p)
    {
      var event, e := Pop();
      hide ApplyFill, FindPrefix, Find, Put;
      match event
      case FillEvent(f) =>
        var i := FirstCandidate(f);
        if i < |positions| {
          ApplyToExisting(f, i);
        } else {
          ApplyToNew(f);
        }
      case PositionEvent(position) =>
        Store(position, e.ref);
    }
  }
}
