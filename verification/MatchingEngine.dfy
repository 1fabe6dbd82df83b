/** The engine thread: one indexed book per symbol, work items taken from the queue in order. */
module EngineThread {
  import opened Orders
  import opened Matching
  import opened Books
  import opened IndexedBook
  import opened Engine
  import opened Persistence

  /** What keeps the book valid: the order does not come to rest beside another one with its
      id, and no order is edited in place down to nothing. */
  predicate Suits(b: Book, item: WorkItem) {
    match item
    case NewOrder(o) => Killed(b, o) || !Clashes(b, o)
    case CancelItem(_) => true
    case ReplaceItem(q) => !EditsToNothing(b, q.id, q.price, q.qty)
  }

  predicate Fine(books: BookMap, item: WorkItem) {
    SymbolOf(item) in books && Suits(books[SymbolOf(item)], item)
  }

  function Handled(books: BookMap, item: WorkItem): BookMap
    requires SymbolOf(item) in books
  {
    books[SymbolOf(item) := Process(books[SymbolOf(item)], item).book]
  }

  predicate AllFine(books: BookMap, queue: seq<WorkItem>)
    decreases |queue|
  {
    queue == [] || (Fine(books, queue[0]) && AllFine(Handled(books, queue[0]), queue[1..]))
  }

  function HandleAll(books: BookMap, queue: seq<WorkItem>): (r: (BookMap, seq<Callback>))
    requires AllFine(books, queue)
    decreases |queue|
  {
    if queue == [] then (books, [])
    else
      var rest := HandleAll(Handled(books, queue[0]), queue[1..]);
      (rest.0, Process(books[SymbolOf(queue[0])], queue[0]).calls + rest.1)
  }

  class MatchingEngine {
    var books: map<Symbol, OrderBook>
    var queue: seq<WorkItem>

    /** Every book's index finds exactly its orders, and no two symbols share a book. */
    ghost predicate Sound()
      reads this, books.Values
    {
      && (forall s :: s in books ==> books[s].symbol == s && Coherent(books[s].R()))
      && (forall s, t :: s in books && t in books && s != t ==> books[s] != books[t])
    }

    ghost function Contents(): BookMap
      reads this, books.Values
      requires Sound()
    {
      map s | s in books :: Abs(books[s].R())
    }

    /** Moreover every book is valid. */
    ghost predicate Ok()
      reads this, books.Values
    {
      Sound() && forall s :: s in books ==> books[s].Ok()
    }

    constructor ()
      ensures Ok() && Contents() == map[] && queue == []
    {
      books, queue := map[], [];
    }

    method Enqueue(item: WorkItem)
      requires Ok()
      modifies this`queue
      ensures Ok() && Contents() == old(Contents()) && queue == old(queue) + [item]
    {
      hide Coherent, Valid, Abs;
      queue := queue + [item];
    }

    method Take() returns (item: WorkItem)
      requires Ok() && queue != []
      modifies this`queue
      ensures Ok() && Contents() == old(Contents()) && item == old(queue)[0] && queue == old(queue)[1..]
    {
      hide Coherent, Valid, Abs;
      item, queue := queue[0], queue[1..];
    }

    /** Crash recovery: orders of unknown symbols are ignored, and any other is put into its
        book as it is. The indexes stay sound if and only if its id is new there. */
    method RestoreOrder(o: Order)
      requires Sound()
      modifies books.Values
      ensures books == old(books) && queue == old(queue)
      ensures Sound() <==> !(o.symbol in books && Present(old(Contents())[o.symbol], o.id))
      ensures Sound() ==> Contents() == RestoreOne(old(Contents()), o)
    {
      hide Coherent, Abs, Restore, Present, Ladders;
      if o.symbol in books {
        books[o.symbol].RestoreOrder(o);
        assert forall s :: s in books && s != o.symbol ==> books[s].R() == old(books[s].R());
      }
    }

    /** One dequeued item: the fill-or-kill pre-check, matching, and the callbacks. */
    method HandleItem(item: WorkItem) returns (calls: seq<Callback>)
      requires Ok() && SymbolOf(item) in books
      modifies books.Values
      ensures books == old(books) && queue == old(queue)
      ensures calls == Process(old(Contents())[SymbolOf(item)], item).calls
      ensures var book := books[SymbolOf(item)];
              Ladders(book.R()) && Abs(book.R()) == Process(old(Contents())[SymbolOf(item)], item).book
      ensures forall s :: s in books && s != SymbolOf(item) ==> books[s].R() == old(books[s].R())
      ensures Ok() <==> Suits(old(Contents())[SymbolOf(item)], item)
      ensures Ok() ==> Contents() == Handled(old(Contents()), item)
    {
      hide Ladders, Coherent, Valid, Process, Suits, Abs, Handled;
      var book := books[SymbolOf(item)];
      calls := HandleOn(book, item);
      assert forall s :: s in books && s != SymbolOf(item) ==> books[s].R() == old(books[s].R());
      assert Ok() <==> book.Ok();
      HandledIs(old(Contents()), item);
    }

    static method HandleOn(book: OrderBook, item: WorkItem) returns (calls: seq<Callback>)
      requires book.Ok() && SymbolOf(item) == book.symbol
      modifies book
      ensures Ladders(book.R()) && Abs(book.R()) == Process(old(book.Contents()), item).book
      ensures calls == Process(old(book.Contents()), item).calls
      ensures book.Ok() <==> Suits(old(book.Contents()), item)
    {
      hide Ladders, Valid, Add, Replace, Cancel, EditsToNothing, Clashes, Abs, Available, Present, Linked;
      match item {
        case NewOrder(order) =>
          var available := 0;
          if order.tif == Fok {
            available := book.AvailableToFill(order);
          }
          if order.tif == Fok && available < order.qty {
            calls := [OnTifCancel(order.(leaves := order.qty))];
          } else {
            var leaves, trades := book.AddOrder(order);
            calls := Report(trades);
            if order.tif == Ioc && leaves > 0 {
              calls := calls + [OnTifCancel(order.(leaves := leaves))];
            } else if order.tif != Fok && leaves > 0 && order.typ == Limit {
              calls := calls + [OnRested(order, leaves)];
            }
          }
        case CancelItem(c) =>
          var found := book.CancelOrder(c.id);
          calls := [OnCancel(c, found)];
        case ReplaceItem(q) =>
          var leaves, trades := book.ReplaceOrder(q.id, q.price, q.qty);
          calls := Report(trades);
          calls := calls + [OnReplace(q, leaves >= 0, leaves)];
      }
    }

    /** The fill callbacks, one per trade, in order. */
    static method Report(trades: seq<Trade>) returns (calls: seq<Callback>)
      ensures calls == Fills(trades)
    {
      calls := [];
      for i := 0 to |trades|
        invariant calls == Fills(trades[..i])
      {
        calls := calls + [OnFill(trades[i])];
      }
      assert trades[..|trades|] == trades;
    }

    /** The engine loop on what is in the queue: everything is handled once, in order. */
    method Drain() returns (calls: seq<Callback>)
      requires Ok() && AllFine(Contents(), queue)
      modifies this, books.Values
      ensures Ok() && books == old(books) && queue == []
      ensures (Contents(), calls) == HandleAll(old(Contents()), old(queue))
    {
      hide Handled, Process, Coherent, Valid, Abs, Suits, Ladders, Contents, Sound, HandleAll;
      calls := [];
      ghost var goal := HandleAll(Contents(), queue);
      assert [] + goal.1 == goal.1;
      while queue != []
        invariant Ok() && books == old(books) && AllFine(Contents(), queue)
        invariant var r := HandleAll(Contents(), queue); goal == (r.0, calls + r.1)
        decreases |queue|
      {
        ghost var before := calls;
        HandledNext(this);
        var item := Take();
        var more := HandleItem(item);
        calls := calls + more;
        assert before + (more + HandleAll(Contents(), queue).1) == calls + HandleAll(Contents(), queue).1;
      }
      HandledNone(Contents());
      assert calls + [] == calls;
    }
  }

  lemma {:induction false} HandledIs(books: BookMap, item: WorkItem)
    requires SymbolOf(item) in books
    ensures Handled(books, item) == books[SymbolOf(item) := Process(books[SymbolOf(item)], item).book]
  {
    hide Process;
  }

  lemma {:induction false} HandledNone(books: BookMap)
    ensures HandleAll(books, []) == (books, [])
  {
  }

  lemma {:induction false} HandledNext(e: MatchingEngine)
    requires e.Ok() && e.queue != [] && AllFine(e.Contents(), e.queue)
    ensures var item, books := e.queue[0], e.Contents();
            && Fine(books, item) && SymbolOf(item) in e.books && AllFine(Handled(books, item), e.queue[1..])
            && var rest := HandleAll(Handled(books, item), e.queue[1..]);
               HandleAll(books, e.queue) == (rest.0, Process(books[SymbolOf(item)], item).calls + rest.1)
  {
    hide Coherent, Valid, Abs, Suits, Process, Handled;
  }
}
