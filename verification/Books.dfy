/** The order book seen as two flat sequences in price-then-arrival order, with every
    operation done by plain linear search: the reference for the indexed book. */
module Books {
  import opened Options
  import opened Orders
  import opened Matching

  datatype Book = Book(bids: seq<Order>, asks: seq<Order>)
  {
    function On(side: Side): seq<Order> {
      if side.Buy? then bids else asks
    }

    function With(side: Side, s: seq<Order>): Book {
      if side.Buy? then Book(s, asks) else Book(bids, s)
    }
  }

  const EMPTY := Book([], [])

  /** An operation's new book, returned quantity and trades. */
  datatype Outcome = Outcome(book: Book, leaves: int, trades: seq<Trade>)

  /** Where o belongs: behind every order it has no price priority over. */
  function Place(s: seq<Order>, o: Order): (k: nat)
    ensures k <= |s|
  {
    if s == [] || Better(o.side, o.price, s[0].price) then 0 else 1 + Place(s[1..], o)
  }

  function Insert(s: seq<Order>, o: Order): seq<Order> {
    s[..Place(s, o)] + [o] + s[Place(s, o)..]
  }

  /** The position of the first order with this id, or |s|. */
  function Find(s: seq<Order>, id: Id): (k: nat)
    ensures k <= |s|
    ensures k < |s| ==> s[k].id == id
    ensures forall j :: 0 <= j < k ==> s[j].id != id
  {
    if s == [] || s[0].id == id then 0 else 1 + Find(s[1..], id)
  }

  function Remove(s: seq<Order>, id: Id): seq<Order> {
    var k := Find(s, id);
    if k < |s| then s[..k] + s[k + 1..] else s
  }

  function Resize(s: seq<Order>, id: Id, qty: int): seq<Order> {
    var k := Find(s, id);
    if k < |s| then s[k := s[k].(qty := qty, leaves := qty)] else s
  }

  function Lookup(b: Book, id: Id): Option<Order> {
    if Find(b.bids, id) < |b.bids| then Some(b.bids[Find(b.bids, id)])
    else if Find(b.asks, id) < |b.asks| then Some(b.asks[Find(b.asks, id)])
    else None
  }

  predicate Rests(o: Order) {
    o.leaves > 0 && o.typ.Limit? && !o.tif.Ioc?
  }

  function Restore(b: Book, o: Order): Book {
    b.With(o.side, Insert(b.On(o.side), o))
  }

  function Add(b: Book, o: Order): Outcome {
    var r := Sweep(o.(leaves := o.qty), b.On(o.side.Opposite()));
    var b' := b.With(o.side.Opposite(), r.rest);
    Outcome(if Rests(r.taker) then Restore(b', r.taker) else b', r.taker.leaves, r.trades)
  }

  function Cancel(b: Book, id: Id): Book {
    Book(Remove(b.bids, id), Remove(b.asks, id))
  }

  /** A replace at the same price for less than the remaining quantity edits the order where it stands. */
  predicate InPlace(o: Order, price: Price, qty: int) {
    price == o.price && qty < o.leaves
  }

  function Replace(b: Book, id: Id, price: Price, qty: int): Outcome {
    match Lookup(b, id)
    case None => Outcome(b, -1, [])
    case Some(o) =>
      if InPlace(o, price, qty) then
        Outcome(Book(Resize(b.bids, id, qty), Resize(b.asks, id, qty)), qty, [])
      else
        Add(Cancel(b, id), o.(price := price, qty := qty))
  }

  // ---- The invariant of every book ----

  predicate RestingOrder(symbol: Symbol, side: Side, o: Order) {
    && o.symbol == symbol && o.side == side
    && o.typ.Limit? && !o.tif.Ioc?
    && 0 < o.leaves <= o.qty
  }

  ghost predicate Distinct(s: seq<Order>) {
    forall i, j :: 0 <= i < j < |s| ==> s[i].id != s[j].id
  }

  ghost predicate ValidSide(symbol: Symbol, side: Side, s: seq<Order>) {
    && (forall i :: 0 <= i < |s| ==> RestingOrder(symbol, side, s[i]))
    && Sorted(side, s)
    && Distinct(s)
  }

  ghost predicate Uncrossed(bids: seq<Order>, asks: seq<Order>) {
    forall i, j :: 0 <= i < |bids| && 0 <= j < |asks| ==> bids[i].price < asks[j].price
  }

  ghost predicate Apart(s: seq<Order>, t: seq<Order>) {
    forall i, j :: 0 <= i < |s| && 0 <= j < |t| ==> s[i].id != t[j].id
  }

  ghost predicate Valid(symbol: Symbol, b: Book) {
    && ValidSide(symbol, Buy, b.bids)
    && ValidSide(symbol, Sell, b.asks)
    && Apart(b.bids, b.asks)
    && Uncrossed(b.bids, b.asks)
  }

  lemma {:induction false} SideIsOrderly(symbol: Symbol, b: Book, side: Side)
    requires Valid(symbol, b)
    ensures var s := b.On(side);
            && Positive(s) && Sorted(side, s) && Distinct(s)
            && forall i :: 0 <= i < |s| ==> RestingOrder(symbol, side, s[i])
  {
    assert forall i :: 0 <= i < |b.On(side)| ==> RestingOrder(symbol, side, b.On(side)[i]);
  }

  predicate Holds(s: seq<Order>, id: Id) {
    exists i :: 0 <= i < |s| && s[i].id == id
  }

  predicate Present(b: Book, id: Id) {
    Holds(b.bids, id) || Holds(b.asks, id)
  }

  lemma {:induction false} LookupFinds(symbol: Symbol, b: Book, id: Id)
    requires Valid(symbol, b)
    ensures Present(b, id) <==> Lookup(b, id).Some?
    ensures Lookup(b, id).Some? ==>
              var o := Lookup(b, id).value;
              var k := Find(b.On(o.side), id);
              && o.id == id
              && k < |b.On(o.side)| && b.On(o.side)[k] == o
              && RestingOrder(symbol, o.side, o)
              && !Holds(b.On(o.side.Opposite()), id)
  {
    if Find(b.bids, id) < |b.bids| {
      assert Holds(b.bids, id);
      assert RestingOrder(symbol, Buy, b.bids[Find(b.bids, id)]);
    } else if Find(b.asks, id) < |b.asks| {
      assert Holds(b.asks, id);
      assert RestingOrder(symbol, Sell, b.asks[Find(b.asks, id)]);
    }
  }

  lemma {:induction false} FoundAt(symbol: Symbol, b: Book, side: Side, i: nat)
    requires Valid(symbol, b) && i < |b.On(side)|
    ensures var o := b.On(side)[i]; o.symbol == symbol && o.leaves > 0 && Lookup(b, o.id) == Some(o)
  {
    var o := b.On(side)[i];
    SideIsOrderly(symbol, b, side);
    assert Find(b.On(side), o.id) == i;
    if side.Sell? {
      assert Find(b.bids, o.id) == |b.bids|;
    }
  }

  // ---- Insertion ----

  lemma {:induction false} PlaceIsPriority(side: Side, s: seq<Order>, o: Order)
    requires o.side == side && Sorted(side, s)
    ensures forall i :: 0 <= i < Place(s, o) ==> !Better(side, o.price, s[i].price)
    ensures forall i :: Place(s, o) <= i < |s| ==> Better(side, o.price, s[i].price)
  {
    if s == [] || Better(o.side, o.price, s[0].price) {
    } else {
      PlaceIsPriority(side, s[1..], o);
      forall i | 0 <= i < |s|
        ensures i < Place(s, o) <==> !Better(side, o.price, s[i].price)
      {
        if i > 0 {
          assert s[i] == s[1..][i - 1];
        }
      }
    }
  }

  /** A new order goes behind everything at its own price and ahead of every worse price. */
  lemma {:induction false} InsertKeepsSide(symbol: Symbol, side: Side, s: seq<Order>, o: Order)
    requires ValidSide(symbol, side, s) && RestingOrder(symbol, side, o) && !Holds(s, o.id)
    ensures ValidSide(symbol, side, Insert(s, o))
  {
    hide Place;
    PlaceIsPriority(side, s, o);
    var k, t := Place(s, o), Insert(s, o);
    assert forall i :: 0 <= i < |s| ==> s[i].id != o.id;
    forall i | 0 <= i < |t|
      ensures t[i] == if i < k then s[i] else if i == k then o else s[i - 1]
    {
    }
    hide Insert, Holds;
    forall i, j | 0 <= i < j < |t|
      ensures t[i].id != t[j].id && !Better(side, t[j].price, t[i].price)
    {
      if j == k {
        assert t[i] == s[i];
      }
    }
  }

  lemma {:induction false} RestoreKeepsValid(symbol: Symbol, b: Book, o: Order)
    requires Valid(symbol, b) && RestingOrder(symbol, o.side, o) && !Present(b, o.id)
    requires forall i :: 0 <= i < |b.On(o.side.Opposite())| ==> !Crosses(o, b.On(o.side.Opposite())[i].price)
    ensures Valid(symbol, Restore(b, o))
  {
    var s := b.On(o.side);
    InsertKeepsSide(symbol, o.side, s, o);
    var k, t, opp := Place(s, o), Insert(s, o), b.On(o.side.Opposite());
    forall i, j | 0 <= i < |t| && 0 <= j < |opp|
      ensures t[i].id != opp[j].id && Better(o.side, opp[j].price, t[i].price)
    {
      assert t[i] == if i < k then s[i] else if i == k then o else s[i - 1];
      assert !Crosses(o, opp[j].price);
    }
  }

  // ---- Matching ----

  lemma {:induction false} RemainsKeepsSide(symbol: Symbol, side: Side, rest: seq<Order>, s: seq<Order>)
    requires ValidSide(symbol, side, s) && Remains(rest, s)
    ensures ValidSide(symbol, side, rest)
    ensures forall id :: Holds(rest, id) ==> Holds(s, id)
  {
    var d := |s| - |rest|;
    forall i | 0 <= i < |rest|
      ensures RestingOrder(symbol, side, rest[i])
    {
      assert RestingOrder(symbol, side, s[i + d]);
    }
    forall i, j | 0 <= i < j < |rest|
      ensures rest[i].id != rest[j].id && !Better(side, rest[j].price, rest[i].price)
    {
      assert Reduced(rest[i], s[i + d]) && Reduced(rest[j], s[j + d]);
    }
    forall id | Holds(rest, id)
      ensures Holds(s, id)
    {
      var i :| 0 <= i < |rest| && rest[i].id == id;
      assert Reduced(rest[i], s[i + d]);
    }
  }

  lemma {:induction false} SweptBookValid(symbol: Symbol, b: Book, side: Side, rest: seq<Order>)
    requires Valid(symbol, b) && Remains(rest, b.On(side))
    ensures Valid(symbol, b.With(side, rest))
    ensures forall id :: Present(b.With(side, rest), id) ==> Present(b, id)
  {
    var s := b.On(side);
    RemainsKeepsSide(symbol, side, rest, s);
    forall i | 0 <= i < |rest|
      ensures rest[i].price == s[i + |s| - |rest|].price && rest[i].id == s[i + |s| - |rest|].id
    {
      assert Reduced(rest[i], s[i + |s| - |rest|]);
    }
  }

  /** What is left of the order would rest beside another order with its id. */
  predicate Clashes(b: Book, o: Order) {
    var r := Sweep(o.(leaves := o.qty), b.On(o.side.Opposite()));
    Rests(r.taker) && Present(b.With(o.side.Opposite(), r.rest), o.id)
  }

  /** Whatever its type, price, quantity and time in force, adding an order keeps the book
      sorted, id-unique and uncrossed if and only if it does not come to rest beside
      another order with its id. */
  lemma {:induction false} AddKeepsValidIff(symbol: Symbol, b: Book, o: Order)
    requires Valid(symbol, b) && o.symbol == symbol
    ensures Valid(symbol, Add(b, o).book) <==> !Clashes(b, o)
    ensures !Present(b, o.id) ==> !Clashes(b, o)
  {
    var t, other := o.(leaves := o.qty), o.side.Opposite();
    SideIsOrderly(symbol, b, other);
    if o.qty >= 0 {
      SweepRest(t, b.On(other));
      var r := Sweep(t, b.On(other));
      hide Sweep, Remains;
      SweptBookValid(symbol, b, other, r.rest);
      var b' := b.With(other, r.rest);
      if Rests(r.taker) {
        SideIsOrderly(symbol, b', other);
        if Present(b', o.id) {
          TwiceIsInvalid(symbol, b', r.taker);
        } else {
          RestoreKeepsValid(symbol, b', r.taker);
        }
      }
    }
  }

  lemma {:induction false} TwiceIsInvalid(symbol: Symbol, b: Book, o: Order)
    requires Present(b, o.id)
    ensures !Valid(symbol, Restore(b, o))
  {
    var s, t, k := b.On(o.side), Insert(b.On(o.side), o), Place(b.On(o.side), o);
    hide Place;
    assert t[k].id == o.id;
    if Holds(s, o.id) {
      var i :| 0 <= i < |s| && s[i].id == o.id;
      assert t[if i < k then i else i + 1] == s[i];
    } else {
      var j :| 0 <= j < |b.On(o.side.Opposite())| && b.On(o.side.Opposite())[j].id == o.id;
    }
  }

  // ---- Removal ----

  lemma {:induction false} RemoveKeepsSide(symbol: Symbol, side: Side, s: seq<Order>, id: Id)
    requires ValidSide(symbol, side, s)
    ensures ValidSide(symbol, side, Remove(s, id))
    ensures !Holds(Remove(s, id), id)
    ensures forall x :: x != id ==> (Holds(Remove(s, id), x) <==> Holds(s, x))
  {
    var k, t := Find(s, id), Remove(s, id);
    if k < |s| {
      forall i | 0 <= i < |t|
        ensures t[i] == if i < k then s[i] else s[i + 1]
      {
      }
      forall x | x != id && Holds(s, x)
        ensures Holds(t, x)
      {
        var i :| 0 <= i < |s| && s[i].id == x;
        assert t[if i < k then i else i - 1].id == x;
      }
    }
  }

  lemma {:induction false} CancelKeepsValid(symbol: Symbol, b: Book, id: Id)
    requires Valid(symbol, b)
    ensures Valid(symbol, Cancel(b, id))
    ensures !Present(Cancel(b, id), id)
    ensures forall x :: x != id ==> (Present(Cancel(b, id), x) <==> Present(b, x))
  {
    RemoveKeepsSide(symbol, Buy, b.bids, id);
    RemoveKeepsSide(symbol, Sell, b.asks, id);
    RemoveMembers(b.bids, id);
    RemoveMembers(b.asks, id);
  }

  lemma {:induction false} RemoveMembers(s: seq<Order>, id: Id)
    ensures forall i :: 0 <= i < |Remove(s, id)| ==> exists j :: 0 <= j < |s| && Remove(s, id)[i] == s[j]
  {
    var k, t := Find(s, id), Remove(s, id);
    forall i | 0 <= i < |t|
      ensures exists j :: 0 <= j < |s| && t[i] == s[j]
    {
      if k < |s| {
        assert t[i] == s[if i < k then i else i + 1];
      }
    }
  }

  function Others(s: seq<Order>, id: Id): seq<Order> {
    if s == [] then [] else (if s[0].id == id then [] else [s[0]]) + Others(s[1..], id)
  }

  lemma {:induction false} OthersAbsent(s: seq<Order>, id: Id)
    requires forall i :: 0 <= i < |s| ==> s[i].id != id
    ensures Others(s, id) == s
  {
    if s != [] {
      OthersAbsent(s[1..], id);
    }
  }

  lemma {:induction false} OthersAt(s: seq<Order>, id: Id, k: nat)
    requires k < |s| && forall i :: 0 <= i < |s| ==> (s[i].id == id <==> i == k)
    ensures Others(s, id) == s[..k] + s[k + 1..]
    decreases k
  {
    var tail := s[1..];
    assert forall i :: 0 <= i < |tail| ==> tail[i] == s[i + 1];
    if k == 0 {
      OthersAbsent(tail, id);
    } else {
      OthersAt(tail, id, k - 1);
      assert s[..k] == [s[0]] + tail[..k - 1] && s[k + 1..] == tail[k..];
    }
  }

  lemma {:induction false} RemoveKeepsOthers(s: seq<Order>, id: Id)
    requires Distinct(s)
    ensures Remove(s, id) == Others(s, id)
  {
    hide Others;
    var k := Find(s, id);
    if k < |s| {
      OthersAt(s, id, k);
    } else {
      OthersAbsent(s, id);
    }
  }

  /** A cancel leaves exactly the other orders, in the order they stood in. */
  lemma {:induction false} CancelKeepsOthers(symbol: Symbol, b: Book, id: Id)
    requires Valid(symbol, b)
    ensures Cancel(b, id) == Book(Others(b.bids, id), Others(b.asks, id))
  {
    RemoveKeepsOthers(b.bids, id);
    RemoveKeepsOthers(b.asks, id);
  }

  lemma {:induction false} AbsentRemove(s: seq<Order>, id: Id)
    requires !Holds(s, id)
    ensures Remove(s, id) == s
  {
  }

  lemma {:induction false} AbsentResize(s: seq<Order>, id: Id, qty: int)
    requires !Holds(s, id)
    ensures Resize(s, id, qty) == s
  {
  }

  lemma {:induction false} ResizedLookup(symbol: Symbol, b: Book, o: Order, qty: int)
    requires Valid(symbol, b) && Lookup(b, o.id) == Some(o)
    ensures var b' := Book(Resize(b.bids, o.id, qty), Resize(b.asks, o.id, qty));
            Lookup(b', o.id) == Some(o.(qty := qty, leaves := qty))
  {
    LookupFinds(symbol, b, o.id);
    AbsentResize(b.On(o.side.Opposite()), o.id, qty);
    var s, k := b.On(o.side), Find(b.On(o.side), o.id);
    var s' := Resize(s, o.id, qty);
    assert s'[k] == o.(qty := qty, leaves := qty);
    assert forall j :: 0 <= j < k ==> s'[j] == s[j];
    assert Find(s', o.id) == k;
  }

  lemma {:induction false} AbsentCancel(b: Book, id: Id)
    requires !Present(b, id)
    ensures Cancel(b, id) == b
  {
  }

  // ---- Replacement ----

  lemma {:induction false} ResizeKeepsSide(symbol: Symbol, side: Side, s: seq<Order>, id: Id, qty: int)
    requires ValidSide(symbol, side, s)
    requires Find(s, id) < |s| ==> qty >= 1
    ensures ValidSide(symbol, side, Resize(s, id, qty))
  {
  }

  /** The one way a replace can break the book: an in-place edit down to nothing or less. */
  predicate EditsToNothing(b: Book, id: Id, price: Price, qty: int) {
    Lookup(b, id).Some? && InPlace(Lookup(b, id).value, price, qty) && qty <= 0
  }

  /** A replace keeps the book valid exactly when it is not an in-place edit to a
      non-positive quantity. The gateway does not check the quantity of a replace. */
  lemma {:induction false} ReplaceKeepsValidIff(symbol: Symbol, b: Book, id: Id, price: Price, qty: int)
    requires Valid(symbol, b)
    ensures Valid(symbol, Replace(b, id, price, qty).book) <==> !EditsToNothing(b, id, price, qty)
  {
    hide Valid, Lookup, Add, Cancel, Clashes, Present, Resize;
    match Lookup(b, id)
    case None =>
    case Some(o) =>
      LookupFinds(symbol, b, id);
      if InPlace(o, price, qty) {
        ResizeKeepsValidIff(symbol, b, o, id, qty);
      } else {
        CancelKeepsValid(symbol, b, id);
        AddKeepsValidIff(symbol, Cancel(b, id), o.(price := price, qty := qty));
      }
  }

  lemma {:induction false} ResizeKeepsValidIff(symbol: Symbol, b: Book, o: Order, id: Id, qty: int)
    requires Valid(symbol, b) && Find(b.On(o.side), id) < |b.On(o.side)|
    ensures Valid(symbol, Book(Resize(b.bids, id, qty), Resize(b.asks, id, qty))) <==> qty >= 1
  {
    if qty >= 1 {
      ResizeKeepsSide(symbol, Buy, b.bids, id, qty);
      ResizeKeepsSide(symbol, Sell, b.asks, id, qty);
    } else {
      var b' := Book(Resize(b.bids, id, qty), Resize(b.asks, id, qty));
      assert b'.On(o.side)[Find(b.On(o.side), id)].leaves == qty;
    }
  }

  /** A replace at the same price for less than is left keeps every queue position and
      changes only the quantity of the one order. */
  lemma {:induction false} ReplaceInPlace(symbol: Symbol, b: Book, id: Id, price: Price, qty: int, side: Side)
    requires Valid(symbol, b) && Lookup(b, id).Some? && InPlace(Lookup(b, id).value, price, qty)
    ensures var r := Replace(b, id, price, qty);
            && r.trades == [] && r.leaves == qty && |r.book.On(side)| == |b.On(side)|
            && forall i :: 0 <= i < |b.On(side)| ==>
                 var o := b.On(side)[i];
                 r.book.On(side)[i] == if o.id == id then o.(qty := qty, leaves := qty) else o
  {
    var s := b.On(side);
    assert Distinct(s);
    assert Replace(b, id, price, qty).book.On(side) == Resize(s, id, qty);
  }

  /** now is own with o behind everything at its price or better and ahead of everything worse. */
  ghost predicate JoinsBehind(now: seq<Order>, own: seq<Order>, o: Order) {
    exists k :: 0 <= k <= |own| && now == own[..k] + [o] + own[k..] && SplitAt(own, o, k)
  }

  predicate SplitAt(own: seq<Order>, o: Order, k: nat)
    requires k <= |own|
  {
    && (forall i :: 0 <= i < k ==> !Better(o.side, o.price, own[i].price))
    && (forall i :: k <= i < |own| ==> Better(o.side, o.price, own[i].price))
  }

  /** Any other replace costs the order its place: what is left of it after matching, if
      anything, goes behind everything at its new price, and no other order of its side moves. */
  lemma {:induction false} ReplaceLosesPlace(symbol: Symbol, b: Book, id: Id, price: Price, qty: int)
    requires Valid(symbol, b) && Lookup(b, id).Some? && !InPlace(Lookup(b, id).value, price, qty)
    ensures var o, r := Lookup(b, id).value, Replace(b, id, price, qty);
            var own, now := Others(b.On(o.side), id), r.book.On(o.side);
            if r.leaves <= 0 then now == own
            else JoinsBehind(now, own, o.(price := price, qty := qty, leaves := r.leaves))
  {
    hide Valid, Cancel, Add, JoinsBehind;
    LookupFinds(symbol, b, id);
    CancelKeepsOthers(symbol, b, id);
    CancelKeepsValid(symbol, b, id);
    EntryJoinsBehind(symbol, Cancel(b, id), Lookup(b, id).value.(price := price, qty := qty));
  }

  lemma {:induction false} EntryJoinsBehind(symbol: Symbol, b: Book, o: Order)
    requires Valid(symbol, b) && o.typ.Limit? && !o.tif.Ioc?
    ensures var r := Add(b, o);
            var own, now := b.On(o.side), r.book.On(o.side);
            if r.leaves <= 0 then now == own else JoinsBehind(now, own, o.(leaves := r.leaves))
  {
    var opp := b.On(o.side.Opposite());
    assert forall i :: 0 <= i < |opp| ==> RestingOrder(symbol, o.side.Opposite(), opp[i]);
    if o.qty >= 0 {
      SweepRest(o.(leaves := o.qty), opp);
    }
    var left := o.(leaves := Add(b, o).leaves);
    PlaceIsPriority(o.side, b.On(o.side), left);
    assert SplitAt(b.On(o.side), left, Place(b.On(o.side), left));
  }

  /** The result is -1 exactly if the order is absent or was asked to become -1, and is
      reported as found, that is non-negative, exactly if it was present and the new
      quantity is not negative. */
  lemma {:induction false} ReplaceFoundIff(symbol: Symbol, b: Book, id: Id, price: Price, qty: int)
    requires Valid(symbol, b)
    ensures Replace(b, id, price, qty).leaves == -1 <==> !Present(b, id) || qty == -1
    ensures Replace(b, id, price, qty).leaves >= 0 <==> Present(b, id) && qty >= 0
  {
    LookupFinds(symbol, b, id);
    if Lookup(b, id).Some? {
      var o := Lookup(b, id).value;
      if !InPlace(o, price, qty) && qty >= 0 {
        CancelKeepsValid(symbol, b, id);
        var b1 := Cancel(b, id);
        assert forall i :: 0 <= i < |b1.On(o.side.Opposite())| ==>
          RestingOrder(symbol, o.side.Opposite(), b1.On(o.side.Opposite())[i]);
        SweepRest(o.(price := price, qty := qty, leaves := qty), b1.On(o.side.Opposite()));
      }
    }
  }
}
