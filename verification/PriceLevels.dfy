/** One side of the indexed book: price levels in priority order, each a queue of list
    nodes. A handle stands for a std::list iterator: it keeps naming its node until the
    node is erased, whatever happens around it. */
module PriceLevels {
  import opened Orders
  import opened Matching
  import opened Books

  type Handle = nat

  datatype Level = Level(price: Price, queue: seq<Handle>)

  function Handles(ls: seq<Level>): seq<Handle> {
    if ls == [] then [] else ls[0].queue + Handles(ls[1..])
  }

  function Deref(hs: seq<Handle>, nodes: map<Handle, Order>): (s: seq<Order>)
    requires forall i :: 0 <= i < |hs| ==> hs[i] in nodes
    ensures |s| == |hs|
    ensures forall i :: 0 <= i < |hs| ==> s[i] == nodes[hs[i]]
  {
    seq(|hs|, i requires 0 <= i < |hs| => nodes[hs[i]])
  }

  ghost predicate QueueOk(side: Side, l: Level, nodes: map<Handle, Order>) {
    && l.queue != []
    && forall i :: 0 <= i < |l.queue| ==>
         && l.queue[i] in nodes
         && nodes[l.queue[i]].side == side && nodes[l.queue[i]].price == l.price
  }

  /** Levels are non-empty, strictly ordered by priority, and hold only orders of their own price and side. */
  ghost predicate Ladder(side: Side, ls: seq<Level>, nodes: map<Handle, Order>) {
    && (forall i :: 0 <= i < |ls| ==> QueueOk(side, ls[i], nodes))
    && (forall i, j :: 0 <= i < j < |ls| ==> Better(side, ls[i].price, ls[j].price))
  }

  lemma {:induction false} LadderHandles(side: Side, ls: seq<Level>, nodes: map<Handle, Order>)
    requires Ladder(side, ls, nodes)
    ensures forall i :: 0 <= i < |Handles(ls)| ==> Handles(ls)[i] in nodes && nodes[Handles(ls)[i]].side == side
    ensures ls != [] ==> |Handles(ls)| > 0 && Handles(ls)[0] == ls[0].queue[0]
    ensures forall i :: 0 <= i < |Handles(ls)| ==> !Better(side, nodes[Handles(ls)[i]].price, ls[0].price)
    ensures ls == [] <==> Handles(ls) == []
  {
    if ls != [] {
      LadderTail(side, ls, nodes);
      LadderHandles(side, ls[1..], nodes);
      assert QueueOk(side, ls[0], nodes);
      assert |ls| > 1 ==> Better(side, ls[0].price, ls[1..][0].price);
    }
  }

  lemma {:induction false} LadderTail(side: Side, ls: seq<Level>, nodes: map<Handle, Order>)
    requires Ladder(side, ls, nodes) && ls != []
    ensures Ladder(side, ls[1..], nodes)
    ensures QueueOk(side, ls[0], nodes)
  {
  }

  ghost function Flat(side: Side, ls: seq<Level>, nodes: map<Handle, Order>): seq<Order>
    requires Ladder(side, ls, nodes)
  {
    LadderHandles(side, ls, nodes);
    Deref(Handles(ls), nodes)
  }

  lemma {:induction false} FlatStep(side: Side, ls: seq<Level>, nodes: map<Handle, Order>)
    requires Ladder(side, ls, nodes) && ls != []
    ensures Ladder(side, ls[1..], nodes) && QueueOk(side, ls[0], nodes)
    ensures |ls| > 1 ==> Better(side, ls[0].price, ls[1].price)
    ensures Flat(side, ls, nodes) == Deref(ls[0].queue, nodes) + Flat(side, ls[1..], nodes)
    ensures forall i :: 0 <= i < |Flat(side, ls[1..], nodes)| ==>
              Better(side, ls[0].price, Flat(side, ls[1..], nodes)[i].price)
  {
    LadderTail(side, ls, nodes);
    LadderHandles(side, ls, nodes);
    LadderHandles(side, ls[1..], nodes);
    if |ls| > 1 {
      assert Better(side, ls[0].price, ls[1..][0].price);
    }
  }

  /** Nodes that a side does not use may change freely. */
  lemma {:induction false} LadderFrame(
    side: Side, ls: seq<Level>, nodes: map<Handle, Order>, nodes': map<Handle, Order>)
    requires Ladder(side, ls, nodes)
    requires forall i :: 0 <= i < |Handles(ls)| ==>
               && Handles(ls)[i] in nodes && Handles(ls)[i] in nodes'
               && nodes'[Handles(ls)[i]] == nodes[Handles(ls)[i]]
    ensures Ladder(side, ls, nodes')
    ensures Flat(side, ls, nodes') == Flat(side, ls, nodes)
  {
    forall i | 0 <= i < |ls|
      ensures QueueOk(side, ls[i], nodes')
    {
      assert QueueOk(side, ls[i], nodes);
      forall j | 0 <= j < |ls[i].queue|
        ensures ls[i].queue[j] in Handles(ls)
      {
        HandleListed(ls, i, j);
      }
    }
    LadderHandles(side, ls, nodes);
    LadderHandles(side, ls, nodes');
  }

  lemma {:induction false} HandleListed(ls: seq<Level>, i: nat, j: nat)
    requires i < |ls| && j < |ls[i].queue|
    ensures ls[i].queue[j] in Handles(ls)
  {
    if i > 0 {
      HandleListed(ls[1..], i - 1, j);
    }
  }

  // ---- levels[price].push_back(node) ----

  function PushBack(side: Side, ls: seq<Level>, price: Price, h: Handle): seq<Level> {
    if ls == [] || Better(side, price, ls[0].price) then [Level(price, [h])] + ls
    else if price == ls[0].price then [Level(price, ls[0].queue + [h])] + ls[1..]
    else [ls[0]] + PushBack(side, ls[1..], price, h)
  }

  lemma {:induction false} InsertAfter(a: seq<Order>, b: seq<Order>, o: Order)
    requires forall i :: 0 <= i < |a| ==> !Better(o.side, o.price, a[i].price)
    ensures Insert(a + b, o) == a + Insert(b, o)
  {
    if a == [] {
      assert a + b == b;
    } else {
      assert (a + b)[1..] == a[1..] + b;
      InsertAfter(a[1..], b, o);
      PlaceAfter(a, b, o);
    }
  }

  lemma {:induction false} PlaceAfter(a: seq<Order>, b: seq<Order>, o: Order)
    requires forall i :: 0 <= i < |a| ==> !Better(o.side, o.price, a[i].price)
    ensures Place(a + b, o) == |a| + Place(b, o)
  {
    if a == [] {
      assert a + b == b;
    } else {
      assert (a + b)[1..] == a[1..] + b;
      PlaceAfter(a[1..], b, o);
    }
  }

  ghost predicate Pushed(side: Side, ls: seq<Level>, nodes: map<Handle, Order>, h: Handle, o: Order)
    requires Ladder(side, ls, nodes)
  {
    var ls', nodes' := PushBack(side, ls, o.price, h), nodes[h := o];
    && Ladder(side, ls', nodes')
    && Flat(side, ls', nodes') == Insert(Flat(side, ls, nodes), o)
    && (forall x :: x in Handles(ls') <==> x in Handles(ls) || x == h)
    && ls' != []
    && (ls'[0].price == o.price || (ls != [] && ls'[0].price == ls[0].price))
  }

  /** Pushing at the back of the order's level is inserting it in price-then-arrival order. */
  lemma {:induction false} PushBackInserts(side: Side, ls: seq<Level>, nodes: map<Handle, Order>, h: Handle, o: Order)
    requires Ladder(side, ls, nodes) && h !in nodes && o.side == side
    ensures Pushed(side, ls, nodes, h, o)
  {
    if ls == [] || Better(side, o.price, ls[0].price) {
      PushNewLevel(side, ls, nodes, h, o);
    } else if o.price == ls[0].price {
      PushSameLevel(side, ls, nodes, h, o);
    } else {
      LadderTail(side, ls, nodes);
      PushBackInserts(side, ls[1..], nodes, h, o);
      PushDeeper(side, ls, nodes, h, o);
    }
  }

  lemma {:induction false} PushNewLevel(side: Side, ls: seq<Level>, nodes: map<Handle, Order>, h: Handle, o: Order)
    requires Ladder(side, ls, nodes) && h !in nodes && o.side == side
    requires ls == [] || Better(side, o.price, ls[0].price)
    ensures Pushed(side, ls, nodes, h, o)
  {
    var ls', nodes' := PushBack(side, ls, o.price, h), nodes[h := o];
    LadderHandles(side, ls, nodes);
    LadderFrame(side, ls, nodes, nodes');
    assert ls'[1..] == ls;
    LadderCons(side, ls', nodes');
    FlatStep(side, ls', nodes');
    assert Place(Flat(side, ls, nodes), o) == 0;
  }

  lemma {:induction false} PushSameLevel(side: Side, ls: seq<Level>, nodes: map<Handle, Order>, h: Handle, o: Order)
    requires Ladder(side, ls, nodes) && h !in nodes && o.side == side
    requires ls != [] && ls[0].price == o.price
    ensures Pushed(side, ls, nodes, h, o)
  {
    hide Ladder, Flat;
    var ls', nodes' := PushBack(side, ls, o.price, h), nodes[h := o];
    FlatStep(side, ls, nodes);
    var q, rest := Deref(ls[0].queue, nodes), Flat(side, ls[1..], nodes);
    assert ls'[1..] == ls[1..];
    assert Ladder(side, ls', nodes') by {
      LadderHandles(side, ls[1..], nodes);
      LadderFrame(side, ls[1..], nodes, nodes');
      assert QueueOk(side, ls'[0], nodes');
      LadderCons(side, ls', nodes');
    }
    assert Flat(side, ls', nodes') == q + [o] + rest by {
      LadderHandles(side, ls[1..], nodes);
      LadderFrame(side, ls[1..], nodes, nodes');
      FlatStep(side, ls', nodes');
      assert Deref(ls'[0].queue, nodes') == q + [o];
    }
    assert Insert(q + rest, o) == q + [o] + rest by {
      InsertAfter(q, rest, o);
      assert Place(rest, o) == 0;
    }
    assert Handles(ls') == ls[0].queue + [h] + Handles(ls[1..]);
  }

  lemma {:induction false} PushDeeper(side: Side, ls: seq<Level>, nodes: map<Handle, Order>, h: Handle, o: Order)
    requires Ladder(side, ls, nodes) && h !in nodes && o.side == side
    requires ls != [] && Better(side, ls[0].price, o.price)
    requires Ladder(side, ls[1..], nodes) && Pushed(side, ls[1..], nodes, h, o)
    ensures Pushed(side, ls, nodes, h, o)
  {
    var ls', nodes' := PushBack(side, ls, o.price, h), nodes[h := o];
    FlatStep(side, ls, nodes);
    var q, rest := Deref(ls[0].queue, nodes), Flat(side, ls[1..], nodes);
    assert ls'[1..] == PushBack(side, ls[1..], o.price, h);
    assert QueueOk(side, ls'[0], nodes');
    LadderCons(side, ls', nodes');
    FlatStep(side, ls', nodes');
    InsertAfter(q, rest, o);
    assert Deref(ls'[0].queue, nodes') == q;
  }

  lemma {:induction false} LadderCons(side: Side, ls: seq<Level>, nodes: map<Handle, Order>)
    requires ls != [] && QueueOk(side, ls[0], nodes) && Ladder(side, ls[1..], nodes)
    requires |ls| > 1 ==> Better(side, ls[0].price, ls[1].price)
    ensures Ladder(side, ls, nodes)
  {
    forall i, j | 0 <= i < j < |ls|
      ensures Better(side, ls[i].price, ls[j].price)
    {
      assert ls[j] == ls[1..][j - 1];
      if i > 0 {
        assert ls[i] == ls[1..][i - 1];
      } else if j > 1 {
        assert Better(side, ls[1..][0].price, ls[1..][j - 1].price);
      }
    }
    forall i | 0 <= i < |ls|
      ensures QueueOk(side, ls[i], nodes)
    {
      if i > 0 {
        assert ls[i] == ls[1..][i - 1];
      }
    }
  }

  // ---- levels[price].erase(iterator), dropping the level when it becomes empty ----

  function Drop(q: seq<Handle>, h: Handle): seq<Handle> {
    if q == [] then [] else if q[0] == h then q[1..] else [q[0]] + Drop(q[1..], h)
  }

  function Erase(ls: seq<Level>, price: Price, h: Handle): seq<Level> {
    if ls == [] then []
    else if ls[0].price != price then [ls[0]] + Erase(ls[1..], price, h)
    else
      var q := Drop(ls[0].queue, h);
      if q == [] then ls[1..] else [Level(price, q)] + ls[1..]
  }

  lemma {:induction false} DropAppend(a: seq<Handle>, b: seq<Handle>, h: Handle)
    ensures Drop(a + b, h) == if h in a then Drop(a, h) + b else a + Drop(b, h)
  {
    if a == [] {
      assert a + b == b;
    } else {
      var rest := a[1..];
      assert a == [a[0]] + rest && a + b == [a[0]] + (rest + b);
      assert (a + b)[1..] == rest + b;
      if a[0] != h {
        DropAppend(rest, b, h);
        assert h in a <==> h in rest;
        assert [a[0]] + (rest + Drop(b, h)) == a + Drop(b, h);
        assert [a[0]] + (Drop(rest, h) + b) == [a[0]] + Drop(rest, h) + b;
      }
    }
  }

  lemma {:induction false} DropMembers(q: seq<Handle>, h: Handle)
    ensures forall i :: 0 <= i < |Drop(q, h)| ==> Drop(q, h)[i] in q
    ensures forall x :: x in q && x != h ==> x in Drop(q, h)
  {
    if q != [] {
      DropMembers(q[1..], h);
    }
  }

  /** Erasing through the index reaches exactly the node and leaves every other one in order. */
  lemma {:induction false} EraseDrops(side: Side, ls: seq<Level>, nodes: map<Handle, Order>, h: Handle)
    requires Ladder(side, ls, nodes) && h in Handles(ls) && h in nodes
    ensures var ls' := Erase(ls, nodes[h].price, h);
            && Ladder(side, ls', nodes)
            && Handles(ls') == Drop(Handles(ls), h)
            && (ls' != [] ==> ls'[0].price == ls[0].price || Better(side, ls[0].price, ls'[0].price))
  {
    FlatStep(side, ls, nodes);
    LadderHandles(side, ls, nodes);
    LadderHandles(side, ls[1..], nodes);
    var price := nodes[h].price;
    var ls' := Erase(ls, price, h);
    DropAppend(ls[0].queue, Handles(ls[1..]), h);
    if ls[0].price != price {
      assert h in Handles(ls[1..]);
      EraseDrops(side, ls[1..], nodes, h);
      assert ls'[1..] == Erase(ls[1..], price, h);
      assert QueueOk(side, ls'[0], nodes);
      LadderCons(side, ls', nodes);
    } else {
      var q := Drop(ls[0].queue, h);
      DropMembers(ls[0].queue, h);
      assert h in ls[0].queue;
      if q != [] {
        assert ls'[1..] == ls[1..];
        forall i | 0 <= i < |q|
          ensures q[i] in nodes && nodes[q[i]].side == side && nodes[q[i]].price == price
        {
          assert q[i] in ls[0].queue;
        }
        LadderCons(side, ls', nodes);
      }
    }
  }

  lemma {:induction false} DropRemoves(hs: seq<Handle>, nodes: map<Handle, Order>, h: Handle)
    requires forall i :: 0 <= i < |hs| ==> hs[i] in nodes
    requires h in hs && Distinct(Deref(hs, nodes))
    ensures forall i :: 0 <= i < |Drop(hs, h)| ==> Drop(hs, h)[i] in nodes
    ensures Deref(Drop(hs, h), nodes) == Remove(Deref(hs, nodes), nodes[h].id)
    ensures forall x :: x in Drop(hs, h) <==> x in hs && x != h
  {
    hide Distinct, Remove, Drop;
    var s := Deref(hs, nodes);
    var k :| 0 <= k < |hs| && hs[k] == h;
    OnlyOnce(s, k);
    assert forall i :: 0 <= i < |hs| && i != k ==> hs[i] != h by {
      assert forall i :: 0 <= i < |hs| && i != k ==> s[i].id != s[k].id;
    }
    DropAt(hs, h, k);
    RemoveAt(s, nodes[h].id, k);
    assert Deref(hs[..k] + hs[k + 1..], nodes) == s[..k] + s[k + 1..];
    WithoutAt(hs, h, k);
  }

  lemma {:induction false} OnlyOnce(s: seq<Order>, k: nat)
    requires Distinct(s) && k < |s|
    ensures forall i :: 0 <= i < |s| && i != k ==> s[i].id != s[k].id
  {
  }

  lemma {:induction false} WithoutAt(hs: seq<Handle>, h: Handle, k: nat)
    requires k < |hs| && forall i :: 0 <= i < |hs| ==> (hs[i] == h <==> i == k)
    ensures forall x :: x in hs[..k] + hs[k + 1..] <==> x in hs && x != h
  {
    var t := hs[..k] + hs[k + 1..];
    forall x | x in hs && x != h
      ensures x in t
    {
      var i :| 0 <= i < |hs| && hs[i] == x;
      assert t[if i < k then i else i - 1] == x;
    }
  }

  lemma {:induction false} RemoveAt(s: seq<Order>, id: Id, k: nat)
    requires k < |s| && s[k].id == id && forall i :: 0 <= i < k ==> s[i].id != id
    ensures Remove(s, id) == s[..k] + s[k + 1..]
  {
    assert Find(s, id) == k;
  }

  lemma {:induction false} DropAt(hs: seq<Handle>, h: Handle, k: nat)
    requires k < |hs| && hs[k] == h && forall i :: 0 <= i < k ==> hs[i] != h
    ensures Drop(hs, h) == hs[..k] + hs[k + 1..]
    decreases k
  {
    if k > 0 {
      DropAt(hs[1..], h, k - 1);
      assert hs[..k] == [hs[0]] + hs[1..][..k - 1] && hs[k + 1..] == hs[1..][k..];
    }
  }

  // ---- Reading a level ----

  lemma {:induction false} AvailableAppend(o: Order, a: seq<Order>, b: seq<Order>, price: Price)
    requires forall i :: 0 <= i < |a| ==> a[i].price == price
    ensures a != [] && Beyond(o, price) ==> Available(o, a + b) == 0
    ensures !Beyond(o, price) ==> Available(o, a + b) == Total(a) + Available(o, b)
  {
    if a == [] {
      assert a + b == b;
    } else {
      assert (a + b)[1..] == a[1..] + b;
      AvailableAppend(o, a[1..], b, price);
    }
  }
}
