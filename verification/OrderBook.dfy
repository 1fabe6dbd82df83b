/** The indexed order book, and its agreement with the flat book of module Books. */
module IndexedBook {
  import opened Orders
  import opened Matching
  import opened Books
  import opened PriceLevels

  /** The representation: two ladders of levels, the list nodes, and the id index. */
  datatype Rep = Rep(
    bids: seq<Level>, asks: seq<Level>, nodes: map<Handle, Order>, index: map<Id, Handle>, next: Handle)
  {
    function On(side: Side): seq<Level> {
      if side.Buy? then bids else asks
    }

    function With(side: Side, ls: seq<Level>): Rep {
      if side.Buy? then this.(bids := ls) else this.(asks := ls)
    }
  }

  /** The index and the queues hold the same orders: its keys are the ids of the listed
      nodes and each entry locates its node. */
  ghost predicate Linked(r: Rep) {
    && (forall h :: h in r.nodes <==> h in Handles(r.bids) || h in Handles(r.asks))
    && (forall h :: h in r.nodes ==> r.nodes[h].id in r.index && r.index[r.nodes[h].id] == h && h < r.next)
    && (forall id :: id in r.index ==> r.index[id] in r.nodes && r.nodes[r.index[id]].id == id)
  }

  ghost predicate Ladders(r: Rep) {
    Ladder(Buy, r.bids, r.nodes) && Ladder(Sell, r.asks, r.nodes)
  }

  ghost predicate Coherent(r: Rep) {
    Ladders(r) && Linked(r)
  }

  ghost function Abs(r: Rep): Book
    requires Ladders(r)
  {
    Book(Flat(Buy, r.bids, r.nodes), Flat(Sell, r.asks, r.nodes))
  }

  /** The index holds exactly the ids of the resting orders. */
  lemma {:induction false} IndexIsPresence(r: Rep, id: Id)
    requires Coherent(r)
    ensures id in r.index <==> Present(Abs(r), id)
    ensures id in r.index ==>
              var h := r.index[id]; var side := r.nodes[h].side;
              h in Handles(r.On(side)) && h !in Handles(r.On(side.Opposite()))
  {
    hide Ladder, Handles, Flat, Holds;
    FlatHolds(Buy, r.bids, r.nodes, id);
    FlatHolds(Sell, r.asks, r.nodes, id);
  }

  lemma {:induction false} FlatHolds(side: Side, ls: seq<Level>, nodes: map<Handle, Order>, id: Id)
    requires Ladder(side, ls, nodes)
    ensures forall h :: h in Handles(ls) ==> h in nodes && nodes[h].side == side
    ensures Holds(Flat(side, ls, nodes), id) <==> exists h :: h in Handles(ls) && nodes[h].id == id
  {
    LadderHandles(side, ls, nodes);
    hide Ladder, Handles;
    var hs, s := Handles(ls), Flat(side, ls, nodes);
    assert |s| == |hs| && forall i :: 0 <= i < |s| ==> s[i] == nodes[hs[i]];
    if h :| h in hs && nodes[h].id == id {
      var i :| 0 <= i < |hs| && hs[i] == h;
      assert s[i].id == id;
    }
  }

  /** Looking an id up in the index is searching the whole book for it. */
  lemma {:induction false} IndexFinds(symbol: Symbol, r: Rep, id: Id)
    requires Coherent(r) && Valid(symbol, Abs(r))
    ensures id in r.index <==> Lookup(Abs(r), id).Some?
    ensures id in r.index <==> Present(Abs(r), id)
    ensures id in r.index ==>
              var h := r.index[id]; var o := r.nodes[h];
              && Lookup(Abs(r), id).value == o
              && h in Handles(r.On(o.side)) && h !in Handles(r.On(o.side.Opposite()))
  {
    hide Ladder, Handles, Valid, Lookup;
    IndexIsPresence(r, id);
    LookupFinds(symbol, Abs(r), id);
    if id in r.index {
      var o := Lookup(Abs(r), id).value;
      LadderHandles(o.side, r.On(o.side), r.nodes);
      var k := Find(Abs(r).On(o.side), id);
      assert Handles(r.On(o.side))[k] in r.nodes;
    }
  }

  function Placed(r: Rep, o: Order): Rep {
    r.With(o.side, PushBack(o.side, r.On(o.side), o.price, r.next))
     .(nodes := r.nodes[r.next := o], index := r.index[o.id := r.next], next := r.next + 1)
  }

  lemma {:induction false} NextIsFree(r: Rep)
    requires Linked(r)
    ensures r.next !in r.nodes
    ensures forall h :: h in r.nodes <==> h in Handles(r.bids) || h in Handles(r.asks)
  {
  }

  /** Placing an order at the back of its level is insertion into the flat book. The index
      still finds every order if and only if the id is new. */
  lemma {:induction false} PlacedRestores(r: Rep, o: Order)
    requires Coherent(r)
    ensures Ladders(Placed(r, o)) && Abs(Placed(r, o)) == Restore(Abs(r), o)
    ensures Coherent(Placed(r, o)) <==> o.id !in r.index
  {
    hide Ladder, Handles, PushBack, Insert, Linked;
    var other := o.side.Opposite();
    assert r.next !in r.nodes by { NextIsFree(r); }
    PushBackInserts(o.side, r.On(o.side), r.nodes, r.next, o);
    LadderHandles(other, r.On(other), r.nodes);
    LadderFrame(other, r.On(other), r.nodes, r.nodes[r.next := o]);
    PlacedLinked(r, o);
  }

  lemma {:induction false} PlacedLinked(r: Rep, o: Order)
    requires Linked(r)
    requires forall h :: h in Handles(Placed(r, o).On(o.side)) <==> h in Handles(r.On(o.side)) || h == r.next
    ensures Linked(Placed(r, o)) <==> o.id !in r.index
  {
    hide Handles, PushBack;
    var r' := Placed(r, o);
    if o.id in r.index {
      var h := r.index[o.id];
      assert h in r'.nodes && h != r.next && r'.nodes[h].id == o.id;
    }
  }

  function Erased(r: Rep, id: Id): Rep
    requires id in r.index && r.index[id] in r.nodes
  {
    var h := r.index[id];
    var o := r.nodes[h];
    r.With(o.side, Erase(r.On(o.side), o.price, h)).(nodes := r.nodes - {h}, index := r.index - {id})
  }

  lemma {:induction false} ErasedCancels(symbol: Symbol, r: Rep, id: Id)
    requires Coherent(r) && Valid(symbol, Abs(r)) && id in r.index
    ensures Coherent(Erased(r, id))
    ensures Abs(Erased(r, id)) == Cancel(Abs(r), id)
  {
    hide Ladder, Handles, Valid, Erase, Remove;
    IndexFinds(symbol, r, id);
    LookupFinds(symbol, Abs(r), id);
    var h := r.index[id];
    var o := r.nodes[h];
    SideIsOrderly(symbol, Abs(r), o.side);
    ErasedSide(o.side, r.On(o.side), r.nodes, h);
    FrameOff(o.side.Opposite(), r.On(o.side.Opposite()), r.nodes, h);
    AbsentRemove(Abs(r).On(o.side.Opposite()), id);
    ErasedLinked(r, id);
  }

  lemma {:induction false} ErasedSide(side: Side, ls: seq<Level>, nodes: map<Handle, Order>, h: Handle)
    requires Ladder(side, ls, nodes) && h in Handles(ls) && h in nodes
    requires Distinct(Flat(side, ls, nodes))
    ensures var ls' := Erase(ls, nodes[h].price, h);
            && Ladder(side, ls', nodes - {h})
            && Flat(side, ls', nodes - {h}) == Remove(Flat(side, ls, nodes), nodes[h].id)
            && forall x :: x in Handles(ls') <==> x in Handles(ls) && x != h
  {
    hide Ladder, Handles, Erase, Remove, Drop;
    var ls' := Erase(ls, nodes[h].price, h);
    LadderHandles(side, ls, nodes);
    EraseDrops(side, ls, nodes, h);
    DropRemoves(Handles(ls), nodes, h);
    LadderFrame(side, ls', nodes, nodes - {h});
  }

  lemma {:induction false} FrameOff(side: Side, ls: seq<Level>, nodes: map<Handle, Order>, h: Handle)
    requires Ladder(side, ls, nodes) && h !in Handles(ls)
    ensures Ladder(side, ls, nodes - {h})
    ensures Flat(side, ls, nodes - {h}) == Flat(side, ls, nodes)
  {
    hide Ladder, Handles;
    LadderHandles(side, ls, nodes);
    LadderFrame(side, ls, nodes, nodes - {h});
  }

  lemma {:induction false} ErasedLinked(r: Rep, id: Id)
    requires Linked(r) && id in r.index
    requires var h := r.index[id]; var o := r.nodes[h];
             && h in Handles(r.On(o.side)) && h !in Handles(r.On(o.side.Opposite()))
             && forall x :: x in Handles(Erase(r.On(o.side), o.price, h)) <==> x in Handles(r.On(o.side)) && x != h
    ensures Linked(Erased(r, id))
  {
    hide Handles, Erase;
  }

  function Edited(r: Rep, id: Id, o: Order): Rep
    requires id in r.index
  {
    r.(nodes := r.nodes[r.index[id] := o])
  }

  /** Writing through an iterator changes one order and moves none. */
  lemma {:induction false} EditedUpdates(symbol: Symbol, r: Rep, id: Id, o: Order)
    requires Coherent(r) && Valid(symbol, Abs(r)) && id in r.index
    requires var o' := r.nodes[r.index[id]]; o == o'.(qty := o.qty, leaves := o.leaves)
    ensures Coherent(Edited(r, id, o))
    ensures var b, b' := Abs(r), Abs(Edited(r, id, o));
            var k := Find(b.On(o.side), id);
            && k < |b.On(o.side)|
            && b'.On(o.side) == b.On(o.side)[k := o]
            && b'.On(o.side.Opposite()) == b.On(o.side.Opposite())
  {
    hide Ladder, Handles, Valid, Distinct;
    IndexFinds(symbol, r, id);
    LookupFinds(symbol, Abs(r), id);
    SideIsOrderly(symbol, Abs(r), o.side);
    var h := r.index[id];
    FrameEdit(o.side.Opposite(), r.On(o.side.Opposite()), r.nodes, h, o);
    EditKeepsLadder(o.side, r.On(o.side), r.nodes, h, o);
    EditedSide(o.side, r.On(o.side), r.nodes, h, o);
    EditedLinked(r, id, o);
  }

  lemma {:induction false} EditedLinked(r: Rep, id: Id, o: Order)
    requires Linked(r) && id in r.index && o.id == id
    ensures Linked(Edited(r, id, o))
  {
    hide Handles;
  }

  lemma {:induction false} FrameEdit(side: Side, ls: seq<Level>, nodes: map<Handle, Order>, h: Handle, o: Order)
    requires Ladder(side, ls, nodes) && h !in Handles(ls)
    ensures Ladder(side, ls, nodes[h := o])
    ensures Flat(side, ls, nodes[h := o]) == Flat(side, ls, nodes)
  {
    hide Ladder, Handles;
    LadderHandles(side, ls, nodes);
    LadderFrame(side, ls, nodes, nodes[h := o]);
  }

  lemma {:induction false} EditedSide(side: Side, ls: seq<Level>, nodes: map<Handle, Order>, h: Handle, o: Order)
    requires Ladder(side, ls, nodes) && h in Handles(ls) && h in nodes && nodes[h].id == o.id
    requires Ladder(side, ls, nodes[h := o])
    requires Distinct(Flat(side, ls, nodes))
    ensures var s := Flat(side, ls, nodes); var k := Find(s, o.id);
            k < |s| && Flat(side, ls, nodes[h := o]) == s[k := o]
  {
    hide Ladder, Handles;
    var hs, s := Handles(ls), Flat(side, ls, nodes);
    LadderHandles(side, ls, nodes);
    LadderHandles(side, ls, nodes[h := o]);
    var i :| 0 <= i < |hs| && hs[i] == h;
    assert s[i].id == o.id;
    forall j | 0 <= j < |hs| && j != i
      ensures hs[j] != h && s[j].id != o.id
    {
      assert s[j].id != s[i].id;
    }
  }

  lemma {:induction false} EditKeepsLadder(side: Side, ls: seq<Level>, nodes: map<Handle, Order>, h: Handle, o: Order)
    requires Ladder(side, ls, nodes) && h in nodes
    requires o.side == nodes[h].side && o.price == nodes[h].price
    ensures Ladder(side, ls, nodes[h := o])
  {
    forall i | 0 <= i < |ls|
      ensures QueueOk(side, ls[i], nodes[h := o])
    {
      assert QueueOk(side, ls[i], nodes);
    }
  }

  /** The first order of a side loses qty, and its node goes when nothing is left. */
  function Taken(r: Rep, side: Side, qty: int): Rep
    requires r.On(side) != [] && r.On(side)[0].queue != [] && r.On(side)[0].queue[0] in r.nodes
  {
    var ls := r.On(side);
    var h := ls[0].queue[0];
    var resting := r.nodes[h].(leaves := r.nodes[h].leaves - qty);
    if resting.leaves > 0 then r.(nodes := r.nodes[h := resting])
    else
      var queue := ls[0].queue[1..];
      var ls' := if queue == [] then ls[1..] else [Level(ls[0].price, queue)] + ls[1..];
      r.With(side, ls').(nodes := r.nodes - {h}, index := r.index - {resting.id})
  }

  lemma {:induction false} FrontTaken(symbol: Symbol, r: Rep, side: Side, qty: int)
    requires Coherent(r) && Valid(symbol, Abs(r)) && r.On(side) != []
    ensures r.On(side)[0].queue != [] && r.On(side)[0].queue[0] in r.nodes
    ensures Abs(r).On(side) != [] && Abs(r).On(side)[0] == r.nodes[r.On(side)[0].queue[0]]
    ensures Abs(r).On(side)[0].price == r.On(side)[0].price
    ensures RestingOrder(symbol, side, Abs(r).On(side)[0])
    ensures var s := Abs(r).On(side);
            var s' := Front(s, qty);
            0 < qty <= s[0].leaves ==>
              && Coherent(Taken(r, side, qty))
              && Abs(Taken(r, side, qty)) == Abs(r).With(side, s')
              && Valid(symbol, Abs(r).With(side, s'))
  {
    hide Ladder, Handles, Linked, Erase, Flat, Valid;
    var ls, s := r.On(side), Abs(r).On(side);
    FlatFront(side, ls, r.nodes);
    SideIsOrderly(symbol, Abs(r), side);
    if 0 < qty <= s[0].leaves {
      FrontIsLocated(r, side, ls[0].queue[0]);
      if qty == s[0].leaves {
        FrontErased(symbol, r, side);
      } else {
        FrontEdited(symbol, r, side, qty);
      }
    }
  }

  lemma {:induction false} FrontErased(symbol: Symbol, r: Rep, side: Side)
    requires Coherent(r) && Valid(symbol, Abs(r)) && r.On(side) != []
    requires r.On(side)[0].queue != [] && r.On(side)[0].queue[0] in r.nodes
    requires var h := r.On(side)[0].queue[0]; var o := r.nodes[h];
             Abs(r).On(side) != [] && Abs(r).On(side)[0] == o && o.id in r.index && r.index[o.id] == h
             && RestingOrder(symbol, side, o) && o.price == r.On(side)[0].price
    ensures var s := Abs(r).On(side); var r' := Taken(r, side, s[0].leaves);
            Coherent(r') && Abs(r') == Abs(r).With(side, s[1..]) && Valid(symbol, Abs(r'))
  {
    hide Ladder, Handles, Linked, Erase, Flat, Valid;
    var s := Abs(r).On(side);
    var id := s[0].id;
    LookupFinds(symbol, Abs(r), id);
    FrontOfErase(side, r.On(side), r.nodes);
    ErasedCancels(symbol, r, id);
    CancelKeepsValid(symbol, Abs(r), id);
    assert Holds(s, id);
    IndexFinds(symbol, r, id);
    AbsentRemove(Abs(r).On(side.Opposite()), id);
  }

  lemma {:induction false} FrontEdited(symbol: Symbol, r: Rep, side: Side, qty: int)
    requires Coherent(r) && Valid(symbol, Abs(r)) && r.On(side) != []
    requires r.On(side)[0].queue != [] && r.On(side)[0].queue[0] in r.nodes
    requires var h := r.On(side)[0].queue[0]; var o := r.nodes[h];
             Abs(r).On(side) != [] && Abs(r).On(side)[0] == o && o.id in r.index && r.index[o.id] == h
             && RestingOrder(symbol, side, o) && 0 < qty < o.leaves
    ensures var s := Abs(r).On(side); var r' := Taken(r, side, qty);
            var maker := s[0].(leaves := s[0].leaves - qty);
            Coherent(r') && Abs(r') == Abs(r).With(side, s[0 := maker]) && Valid(symbol, Abs(r'))
  {
    hide Ladder, Handles, Linked, Flat, Valid, Remains, Total;
    var s := Abs(r).On(side);
    var maker := s[0].(leaves := s[0].leaves - qty);
    EditedUpdates(symbol, r, s[0].id, maker);
    SideIsOrderly(symbol, Abs(r), side);
    FrontRemains(s, qty);
    SweptBookValid(symbol, Abs(r), side, s[0 := maker]);
  }

  lemma {:induction false} FlatFront(side: Side, ls: seq<Level>, nodes: map<Handle, Order>)
    requires Ladder(side, ls, nodes) && ls != []
    ensures ls[0].queue != [] && ls[0].queue[0] in nodes
    ensures Flat(side, ls, nodes) != [] && Flat(side, ls, nodes)[0] == nodes[ls[0].queue[0]]
    ensures nodes[ls[0].queue[0]].price == ls[0].price
  {
    LadderHandles(side, ls, nodes);
  }

  lemma {:induction false} FrontIsLocated(r: Rep, side: Side, h: Handle)
    requires Linked(r) && h in r.nodes
    ensures r.nodes[h].id in r.index && r.index[r.nodes[h].id] == h
  {
  }

  class OrderBook {
    const symbol: Symbol
    var bids: seq<Level>
    var asks: seq<Level>
    var nodes: map<Handle, Order>
    var index: map<Id, Handle>
    var next: Handle

    ghost function R(): Rep
      reads this
    {
      Rep(bids, asks, nodes, index, next)
    }

    /** The representation is coherent and what it represents is a valid book. */
    ghost predicate Ok()
      reads this
    {
      Coherent(R()) && Valid(symbol, Abs(R()))
    }

    ghost function Contents(): Book
      reads this
      requires Ok()
    {
      Abs(R())
    }

    constructor (symbol: Symbol)
      ensures Ok() && this.symbol == symbol && Contents() == EMPTY
    {
      this.symbol := symbol;
      bids, asks, nodes, index, next := [], [], map[], map[], 0;
    }

    method PushBackNode(o: Order)
      modifies this
      ensures R() == Placed(old(R()), o)
    {
      if o.side == Buy {
        bids := PushBack(Buy, bids, o.price, next);
      } else {
        asks := PushBack(Sell, asks, o.price, next);
      }
      nodes, index, next := nodes[next := o], index[o.id := next], next + 1;
    }

    /** Crash recovery: insert without matching. The index still finds every order if and only
        if the id is new, and the book stays valid if the order could rest beside what is
        already there. */
    method RestoreOrder(o: Order)
      requires Coherent(R())
      modifies this
      ensures Ladders(R()) && Abs(R()) == Restore(old(Abs(R())), o)
      ensures Coherent(R()) <==> !Present(old(Abs(R())), o.id)
    {
      hide Ladder, Handles, Flat, Linked, Insert, Present;
      IndexIsPresence(R(), o.id);
      PlacedRestores(R(), o);
      PushBackNode(o);
    }

    method EraseNode(id: Id)
      requires Ok() && id in index
      modifies this
      ensures Ok() && Contents() == Cancel(old(Contents()), id) && id !in index
    {
      hide Ladder, Handles, Erase, Flat, Valid, Cancel;
      ErasedCancels(symbol, R(), id);
      CancelKeepsValid(symbol, Contents(), id);
      var h := index[id];
      var o := nodes[h];
      index := index - {id};
      if o.side == Buy {
        bids := Erase(bids, o.price, h);
      } else {
        asks := Erase(asks, o.price, h);
      }
      nodes := nodes - {h};
      assert R() == Erased(old(R()), id);
    }

    method CancelOrder(id: Id) returns (found: bool)
      requires Ok()
      modifies this
      ensures Ok() && Contents() == Cancel(old(Contents()), id)
      ensures found <==> Present(old(Contents()), id)
    {
      IndexFinds(symbol, R(), id);
      LookupFinds(symbol, Contents(), id);
      found := id in index;
      if found {
        EraseNode(id);
      } else {
        AbsentCancel(Contents(), id);
      }
    }

    /** The matching loop: greedy consumption of the flat opposite side. */
    method MatchAgainst(aggressor: Order, side: Side) returns (taker: Order, trades: seq<Trade>)
      requires Ok() && side == aggressor.side.Opposite()
      modifies this
      ensures Ok()
      ensures var r := Sweep(aggressor, old(Contents()).On(side));
              && taker == r.taker && trades == r.trades
              && Contents() == old(Contents()).With(side, r.rest)
    {
      hide Ladder, Handles, Flat, Linked, Valid, Ladders, Coherent, Sweep, Resumed, Front, Positive;
      taker, trades := aggressor, [];
      ghost var b := Contents();
      ghost var goal := Sweep(aggressor, b.On(side));
      ResumedStart(aggressor, b.On(side));
      while taker.leaves > 0 && (if side == Buy then bids else asks) != []
        invariant Ok() && Contents() == b.With(side, Contents().On(side))
        invariant goal == Resumed(trades, taker, Contents().On(side))
        decreases taker.leaves
      {
        ghost var r, s := R(), Contents().On(side);
        var ls := if side == Buy then bids else asks;
        SidesEmpty(r, side);
        FrontTaken(symbol, r, side, Min(taker.leaves, s[0].leaves));
        var best := ls[0].price;
        SideIsOrderly(symbol, Contents(), side);
        SweepResumes(trades, taker, s);
        if !Crosses(taker, best) {
          break;
        }
        var h := ls[0].queue[0];
        var qty := Min(taker.leaves, nodes[h].leaves);
        var resting := nodes[h].(leaves := nodes[h].leaves - qty);
        taker := taker.(leaves := taker.leaves - qty);
        trades := trades + [Trade(FillOf(resting, best, qty), FillOf(taker, best, qty))];
        if resting.leaves == 0 {
          index := index - {resting.id};
          var queue := ls[0].queue[1..];
          ls := if queue == [] then ls[1..] else [Level(best, queue)] + ls[1..];
          nodes := nodes - {h};
          if side == Buy { bids := ls; } else { asks := ls; }
        } else {
          nodes := nodes[h := resting];
        }
        assert R() == Taken(r, side, qty);
      }
      SidesEmpty(R(), side);
      SideIsOrderly(symbol, Contents(), side);
      SweepResumes(trades, taker, Contents().On(side));
    }

    /** Match, and rest what is left. The book stays valid, and the index finds every order, if
        and only if the order does not come to rest beside another one with its id. */
    method AddOrder(order: Order) returns (leaves: int, trades: seq<Trade>)
      requires Ok() && order.symbol == symbol
      modifies this
      ensures Ladders(R())
      ensures var r := Add(old(Contents()), order);
              Abs(R()) == r.book && leaves == r.leaves && trades == r.trades
      ensures Ok() <==> !Clashes(old(Contents()), order)
      ensures !Present(old(Contents()), order.id) ==> Ok()
    {
      hide Ladder, Handles, Flat, Linked, Valid, Insert, Sweep, Present;
      ghost var b := Contents();
      AddKeepsValidIff(symbol, b, order);
      var taker;
      SweepKeepsTaker(order.(leaves := order.qty), b.On(order.side.Opposite()));
      taker, trades := MatchAgainst(order.(leaves := order.qty), order.side.Opposite());
      if taker.leaves > 0 && taker.typ == Limit && taker.tif != Ioc {
        IndexIsPresence(R(), taker.id);
        PlacedRestores(R(), taker);
        PushBackNode(taker);
      }
      leaves := taker.leaves;
    }

    /** In place or out and in again; the book stays valid unless the order was edited in place
        down to nothing. */
    method ReplaceOrder(id: Id, price: Price, qty: int) returns (leaves: int, trades: seq<Trade>)
      requires Ok()
      modifies this
      ensures Coherent(R()) && Ladders(R())
      ensures var r := Replace(old(Contents()), id, price, qty);
              Abs(R()) == r.book && leaves == r.leaves && trades == r.trades
      ensures Ok() <==> !EditsToNothing(old(Contents()), id, price, qty)
    {
      hide Ladder, Handles, Flat, Valid, Add, Cancel, EditsToNothing;
      ghost var b := Contents();
      IndexFinds(symbol, R(), id);
      LookupFinds(symbol, b, id);
      ReplaceKeepsValidIff(symbol, b, id, price, qty);
      if id !in index {
        return -1, [];
      }
      var o := nodes[index[id]];
      if price == o.price && qty < o.leaves {
        EditedUpdates(symbol, R(), id, o.(qty := qty, leaves := qty));
        AbsentResize(b.On(o.side.Opposite()), id, qty);
        nodes := nodes[index[id] := o.(qty := qty, leaves := qty)];
        return qty, [];
      }
      CancelKeepsValid(symbol, b, id);
      EraseNode(id);
      leaves, trades := AddOrder(o.(price := price, qty := qty));
    }

    /** The FOK pre-check: a level-by-level count that stops at the first price out of reach. */
    method AvailableToFill(order: Order) returns (total: int)
      requires Ok()
      ensures total == Available(order, Contents().On(order.side.Opposite()))
    {
      var side := order.side.Opposite();
      var ls := if side == Buy then bids else asks;
      total := 0;
      while ls != []
        invariant Ladder(side, ls, nodes)
        invariant Available(order, Contents().On(side)) == total + Available(order, Flat(side, ls, nodes))
        decreases |ls|
      {
        FlatStep(side, ls, nodes);
        AvailableAppend(order, Deref(ls[0].queue, nodes), Flat(side, ls[1..], nodes), ls[0].price);
        if order.typ == Limit && (if side == Sell then ls[0].price > order.price else ls[0].price < order.price) {
          break;
        }
        var qty := QueueTotal(ls[0].queue);
        total, ls := total + qty, ls[1..];
      }
    }

    method QueueTotal(queue: seq<Handle>) returns (total: int)
      requires forall i :: 0 <= i < |queue| ==> queue[i] in nodes
      ensures total == Total(Deref(queue, nodes))
    {
      total := 0;
      ghost var s := Deref(queue, nodes);
      for i := 0 to |queue|
        invariant total == Total(s[..i])
      {
        TotalPrefix(s, i);
        total := total + nodes[queue[i]].leaves;
      }
      assert s[..|queue|] == s;
    }

    /** The aggregated levels of one side: best price first, exactly the prices with
        resting orders, each with the quantity resting there. */
    method GetLevels(side: Side) returns (out: seq<(Price, int)>)
      requires Ok()
      ensures Ranked(side, out, []) && Totals(out, Contents().On(side))
    {
      hide Ladder, Handles, Flat, Linked, Valid, Ranked, Totals, Positive, Total;
      var ls := if side == Buy then bids else asks;
      ghost var s := Contents().On(side);
      ghost var seen: seq<Order> := [];
      SideIsOrderly(symbol, Contents(), side);
      NoLevelsYet(side, s);
      out := [];
      while ls != []
        invariant Ladder(side, ls, nodes)
        invariant s == seen + Flat(side, ls, nodes)
        invariant Ranked(side, out, Flat(side, ls, nodes))
        invariant Totals(out, seen)
        decreases |ls|
      {
        FlatStep(side, ls, nodes);
        ghost var q, rest := Deref(ls[0].queue, nodes), Flat(side, ls[1..], nodes);
        var total := QueueTotal(ls[0].queue);
        MiddlePositive(seen, q, rest);
        LevelDone(side, seen, q, rest, ls[0].price, out);
        if total > 0 {
          out := out + [(ls[0].price, total)];
        }
        seen := seen + q;
        ls := ls[1..];
      }
      assert seen == s by { FlatEmpty(side, nodes); }
    }

    /** The resting orders one by one: bids then asks, each in priority order. */
    method GetOrders() returns (out: seq<Order>)
      requires Ok()
      ensures out == Contents().bids + Contents().asks
    {
      var fromBids := SideOrders(Buy);
      var fromAsks := SideOrders(Sell);
      out := fromBids + fromAsks;
    }

    method SideOrders(side: Side) returns (out: seq<Order>)
      requires Ok()
      ensures out == Contents().On(side)
    {
      hide Ladder, Handles, Flat, Linked, Valid;
      var ls := if side == Buy then bids else asks;
      FlatEmpty(side, nodes);
      out := [];
      while ls != []
        invariant Ladder(side, ls, nodes)
        invariant Contents().On(side) == out + Flat(side, ls, nodes)
        decreases |ls|
      {
        FlatStep(side, ls, nodes);
        var orders := QueueOrders(ls[0].queue);
        assert out + (orders + Flat(side, ls[1..], nodes)) == out + orders + Flat(side, ls[1..], nodes);
        out, ls := out + orders, ls[1..];
      }
    }

    method QueueOrders(queue: seq<Handle>) returns (out: seq<Order>)
      requires forall i :: 0 <= i < |queue| ==> queue[i] in nodes
      ensures out == Deref(queue, nodes)
    {
      out := [];
      for i := 0 to |queue|
        invariant out == Deref(queue, nodes)[..i]
      {
        out := out + [nodes[queue[i]]];
      }
    }
  }

  /** The sweep still to be done, its trades appended to those already made. */
  ghost function Resumed(done: seq<Trade>, taker: Order, s: seq<Order>): Swept {
    var r := Sweep(taker, s);
    r.(trades := done + r.trades)
  }

  lemma {:induction false} ResumedStart(taker: Order, s: seq<Order>)
    ensures Resumed([], taker, s) == Sweep(taker, s)
  {
  }

  lemma {:induction false} SweepResumes(done: seq<Trade>, taker: Order, s: seq<Order>)
    requires Positive(s)
    ensures Stops(taker, s) ==> Resumed(done, taker, s) == Swept(taker, s, done)
    ensures !Stops(taker, s) ==>
              var qty := Min(taker.leaves, s[0].leaves);
              Resumed(done, taker, s)
              == Resumed(done + [TradeOf(taker, s[0], qty)], taker.(leaves := taker.leaves - qty), Front(s, qty))
  {
    hide Sweep, TradeOf, Front, Positive, Crosses;
    SweepUnfolds(taker, s);
    if Stops(taker, s) {
      assert done + [] == done;
    } else {
      var qty := Min(taker.leaves, s[0].leaves);
      var t, ts := TradeOf(taker, s[0], qty), Sweep(taker.(leaves := taker.leaves - qty), Front(s, qty)).trades;
      assert done + ([t] + ts) == done + [t] + ts;
    }
  }

  lemma {:induction false} SidesEmpty(r: Rep, side: Side)
    requires Coherent(r)
    ensures r.On(side) == [] <==> Abs(r).On(side) == []
  {
    LadderHandles(side, r.On(side), r.nodes);
  }

  lemma {:induction false} FrontOfErase(side: Side, ls: seq<Level>, nodes: map<Handle, Order>)
    requires Ladder(side, ls, nodes) && ls != []
    ensures ls[0].queue != [] && ls[0].queue[0] in nodes
    ensures var queue, h := ls[0].queue[1..], ls[0].queue[0];
            Erase(ls, nodes[h].price, h) == if queue == [] then ls[1..] else [Level(ls[0].price, queue)] + ls[1..]
  {
    LadderTail(side, ls, nodes);
  }

  lemma {:induction false} FlatEmpty(side: Side, nodes: map<Handle, Order>)
    ensures Ladder(side, [], nodes) && Flat(side, [], nodes) == []
  {
  }

  /** Listed prices go from best to worst and are all better than those still to come. */
  ghost predicate Ranked(side: Side, out: seq<(Price, int)>, rest: seq<Order>) {
    && (forall i, j :: 0 <= i < j < |out| ==> Better(side, out[i].0, out[j].0))
    && (forall i, k :: 0 <= i < |out| && 0 <= k < |rest| ==> Better(side, out[i].0, rest[k].price))
  }

  /** The listed prices are exactly those of s, each with the positive quantity s has there. */
  ghost predicate Totals(out: seq<(Price, int)>, s: seq<Order>) {
    && (forall i :: 0 <= i < |out| ==> out[i].1 > 0 && out[i].1 == LevelQty(s, out[i].0))
    && (forall k :: 0 <= k < |s| ==> exists i :: 0 <= i < |out| && out[i].0 == s[k].price)
  }

  lemma {:induction false} MiddlePositive(a: seq<Order>, q: seq<Order>, b: seq<Order>)
    requires Positive(a + (q + b)) && q != []
    ensures Total(q) > 0 && a + (q + b) == a + q + b
  {
    assert q == (a + (q + b))[|a|..|a| + |q|];
    TotalPositive(q);
  }

  lemma {:induction false} NoLevelsYet(side: Side, s: seq<Order>)
    ensures Ranked(side, [], s) && Totals([], [])
  {
  }

  /** Listing the next level extends the list by that price and its total. */
  lemma {:induction false} LevelDone(
    side: Side, seen: seq<Order>, q: seq<Order>, rest: seq<Order>, price: Price, out: seq<(Price, int)>)
    requires q != [] && Total(q) > 0 && forall i :: 0 <= i < |q| ==> q[i].price == price
    requires Ranked(side, out, q + rest) && Totals(out, seen)
    requires forall i :: 0 <= i < |rest| ==> Better(side, price, rest[i].price)
    ensures Ranked(side, out + [(price, Total(q))], rest)
    ensures Totals(out + [(price, Total(q))], seen + q)
  {
    var out' := out + [(price, Total(q))];
    assert (q + rest)[0] == q[0];
    forall k | 0 <= k < |rest|
      ensures rest[k] == (q + rest)[|q| + k]
    {
    }
    LevelQtyAppend(seen, q, price);
    LevelQtyUniform(q, price);
    LevelQtyUniform(seen, price);
    forall i | 0 <= i < |out|
      ensures LevelQty(seen + q, out[i].0) == LevelQty(seen, out[i].0)
    {
      LevelQtyAppend(seen, q, out[i].0);
      LevelQtyUniform(q, out[i].0);
    }
    forall k | 0 <= k < |seen + q|
      ensures exists i :: 0 <= i < |out'| && out'[i].0 == (seen + q)[k].price
    {
      if k < |seen| {
        var i :| 0 <= i < |out| && out[i].0 == seen[k].price;
        assert out'[i].0 == (seen + q)[k].price;
      } else {
        assert out'[|out|].0 == (seen + q)[k].price;
      }
    }
  }
}
