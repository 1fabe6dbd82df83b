/** The history of one book, entry by entry, and what holds between a book and its history
    after any sequence of operations: time priority, conservation of quantity, and the
    cumulative quantities that execution reports claim. */
module Ledger {
  import opened Orders
  import opened Matching
  import opened Books
  import opened MessageFactory

  datatype Entry =
    | Entered(order: Order)              // an order starts matching
    | Traded(trade: Trade)
    | Discarded(id: Id, qty: int)        // an unmatched remainder that may not rest
    | Cancelled(id: Id, qty: int)
    | Resized(id: Id, was: int, now: int)
    | TakenOut(id: Id, qty: int)         // removed by a replace, about to re-enter

  type History = seq<Entry>

  datatype Op = AddOp(order: Order) | CancelOp(id: Id) | ReplaceOp(id: Id, price: Price, qty: int)

  function Apply(b: Book, op: Op): Book {
    match op
    case AddOp(o) => Add(b, o).book
    case CancelOp(id) => Cancel(b, id)
    case ReplaceOp(id, price, qty) => Replace(b, id, price, qty).book
  }

  function Trades(ts: seq<Trade>): History {
    seq(|ts|, i requires 0 <= i < |ts| => Traded(ts[i]))
  }

  /** An order without quantity leaves no trace. */
  function AddEntries(b: Book, o: Order): History {
    var r := Sweep(o.(leaves := o.qty), b.On(o.side.Opposite()));
    if o.qty <= 0 then []
    else
      [Entered(o)] + Trades(r.trades)
      + if r.taker.leaves > 0 && !Rests(r.taker) then [Discarded(o.id, r.taker.leaves)] else []
  }

  function EntriesOf(b: Book, op: Op): History {
    match op
    case AddOp(o) => AddEntries(b, o)
    case CancelOp(id) => if Lookup(b, id).Some? then [Cancelled(id, Lookup(b, id).value.leaves)] else []
    case ReplaceOp(id, price, qty) =>
      match Lookup(b, id)
      case None => []
      case Some(o) =>
        if InPlace(o, price, qty) then [Resized(id, o.leaves, qty)]
        else [TakenOut(id, o.leaves)] + AddEntries(Cancel(b, id), o.(price := price, qty := qty))
  }

  // ---- What a history says ----

  /** When the order last (re-)entered the book: its time priority. */
  function Stamp(h: History, id: Id): int {
    if h == [] then -1
    else
      var last := h[|h| - 1];
      if last.Entered? && last.order.id == id then |h| - 1 else Stamp(h[..|h| - 1], id)
  }

  /** Quantity this order has traded since it last entered or was resized. */
  function Cum(h: History, id: Id): int {
    if h == [] then 0
    else
      match h[|h| - 1]
      case Entered(o) => if o.id == id then 0 else Cum(h[..|h| - 1], id)
      case Resized(x, _, _) => if x == id then 0 else Cum(h[..|h| - 1], id)
      case Traded(t) =>
        Cum(h[..|h| - 1], id)
        + (if t.maker.id == id then t.maker.qty else 0) + (if t.taker.id == id then t.taker.qty else 0)
      case _ => Cum(h[..|h| - 1], id)
  }

  /** Where quantity comes from and where it goes. */
  datatype Account = Entries | Bought | Sold | Discards | Cancels | Replacements

  function Posting(e: Entry, a: Account): int {
    match (e, a)
    case (Entered(o), Entries) => o.qty
    case (Traded(t), Bought) =>
      (if t.maker.side.Buy? then t.maker.qty else 0) + (if t.taker.side.Buy? then t.taker.qty else 0)
    case (Traded(t), Sold) =>
      (if t.maker.side.Sell? then t.maker.qty else 0) + (if t.taker.side.Sell? then t.taker.qty else 0)
    case (Discarded(_, q), Discards) => q
    case (Cancelled(_, q), Cancels) => q
    case (Resized(_, was, now), Replacements) => was - now
    case (TakenOut(_, q), Replacements) => q
    case _ => 0
  }

  function Balance(h: History, a: Account): int {
    if h == [] then 0 else Balance(h[..|h| - 1], a) + Posting(h[|h| - 1], a)
  }

  // ---- What a book owes its history ----

  /** Within a price, orders queue in order of entry. */
  ghost predicate InTime(s: seq<Order>, h: History) {
    forall i, j :: 0 <= i < j < |s| && s[i].price == s[j].price ==> Stamp(h, s[i].id) < Stamp(h, s[j].id)
  }

  /** Every order's missing quantity has been traded. */
  ghost predicate Tracked(s: seq<Order>, h: History) {
    forall i :: 0 <= i < |s| ==> s[i].qty - s[i].leaves == Cum(h, s[i].id)
  }

  /** Nothing is created or lost: open is the quantity resting or still matching. */
  ghost predicate Balanced(open: int, h: History) {
    && Balance(h, Bought) == Balance(h, Sold)
    && Balance(h, Entries) == Balance(h, Bought) + Balance(h, Sold) + Balance(h, Discards) + Balance(h, Cancels)
                              + Balance(h, Replacements) + open
  }

  ghost predicate Honest(t: Trade, h: History) {
    && t.maker.qty == t.taker.qty > 0
    && t.maker.price == t.taker.price
    && t.maker.side != t.taker.side
    && FillReport(t.maker).cum == Cum(h, t.maker.id)
    && FillReport(t.taker).cum == Cum(h, t.taker.id)
  }

  /** Both parties' reports of every trade so far were right when they were sent. */
  ghost predicate AllHonest(h: History) {
    forall k :: 0 <= k < |h| && h[k].Traded? ==> Honest(h[k].trade, h[..k + 1])
  }

  ghost predicate Accounted(symbol: Symbol, b: Book, h: History) {
    && Valid(symbol, b)
    && InTime(b.bids, h) && InTime(b.asks, h)
    && Tracked(b.bids, h) && Tracked(b.asks, h)
    && Balanced(Total(b.bids) + Total(b.asks), h)
    && AllHonest(h)
  }

  /** A new order is for this book and has an id that does not rest. */
  predicate Fresh(symbol: Symbol, b: Book, op: Op) {
    op.AddOp? ==> op.order.symbol == symbol && !Present(b, op.order.id)
  }

  predicate Breaks(b: Book, op: Op) {
    op.ReplaceOp? && EditsToNothing(b, op.id, op.price, op.qty)
  }

  // ---- One entry at a time ----

  lemma {:induction false} StampBound(h: History, id: Id)
    ensures Stamp(h, id) < |h|
  {
    if h != [] {
      StampBound(h[..|h| - 1], id);
    }
  }

  lemma {:induction false} Extend(h: History, e: Entry)
    ensures (h + [e])[..|h|] == h && (h + [e])[|h|] == e
    ensures forall a: Account :: Balance(h + [e], a) == Balance(h, a) + Posting(e, a)
    ensures forall id :: Stamp(h + [e], id) == if e.Entered? && e.order.id == id then |h| else Stamp(h, id)
    ensures forall id :: Cum(h + [e], id) ==
              match e {
                case Entered(o) => if o.id == id then 0 else Cum(h, id)
                case Resized(x, _, _) => if x == id then 0 else Cum(h, id)
                case Traded(t) => Cum(h, id)
                  + (if t.maker.id == id then t.maker.qty else 0) + (if t.taker.id == id then t.taker.qty else 0)
                case _ => Cum(h, id)
              }
    ensures AllHonest(h) && (e.Traded? ==> Honest(e.trade, h + [e])) ==> AllHonest(h + [e])
  {
    var h' := h + [e];
    assert h'[..|h'| - 1] == h;
    if AllHonest(h) && (e.Traded? ==> Honest(e.trade, h')) {
      forall k | 0 <= k < |h'| && h'[k].Traded?
        ensures Honest(h'[k].trade, h'[..k + 1])
      {
        if k < |h| {
          assert h'[..k + 1] == h[..k + 1];
        } else {
          assert h'[..k + 1] == h';
        }
      }
    }
  }

  // ---- Matching ----

  ghost predicate Facing(own: seq<Order>, opp: seq<Order>, taker: Order) {
    && taker.leaves >= 0 && Positive(opp)
    && Distinct(opp) && Apart(own, opp)
    && !Holds(own, taker.id) && !Holds(opp, taker.id)
    && (forall i :: 0 <= i < |opp| ==> opp[i].side != taker.side)
  }

  /** The state of the accounts in the middle of a sweep: own is the aggressor's side. */
  ghost predicate Midway(own: seq<Order>, opp: seq<Order>, taker: Order, h: History) {
    && Facing(own, opp, taker)
    && InTime(own, h) && InTime(opp, h)
    && Tracked(own, h) && Tracked(opp, h)
    && taker.qty - taker.leaves == Cum(h, taker.id)
    && Balanced(Total(own) + Total(opp) + taker.leaves, h)
    && AllHonest(h)
  }

  lemma {:induction false} TradeKeepsFacing(own: seq<Order>, opp: seq<Order>, taker: Order, qty: int)
    requires Facing(own, opp, taker) && opp != [] && 0 < qty <= Min(taker.leaves, opp[0].leaves)
    ensures Facing(own, Front(opp, qty), taker.(leaves := taker.leaves - qty))
  {
    FrontRemains(opp, qty);
    hide Front;
    var s, d := Front(opp, qty), |opp| - |Front(opp, qty)|;
    forall i | 0 <= i < |s|
      ensures Reduced(s[i], opp[i + d])
    {
    }
  }

  /** Queue order does not depend on trades, nor on quantities. */
  lemma {:induction false} TradeKeepsTime(s: seq<Order>, opp: seq<Order>, h: History, t: Trade)
    requires InTime(opp, h) && Remains(s, opp)
    ensures InTime(s, h + [Traded(t)])
  {
    Extend(h, Traded(t));
    hide Stamp;
    var d := |opp| - |s|;
    forall i, j | 0 <= i < j < |s| && s[i].price == s[j].price
      ensures Stamp(h + [Traded(t)], s[i].id) < Stamp(h + [Traded(t)], s[j].id)
    {
      assert Reduced(s[i], opp[i + d]) && Reduced(s[j], opp[j + d]);
    }
  }

  lemma {:induction false} TradeKeepsTracked(own: seq<Order>, opp: seq<Order>, taker: Order, qty: int, h: History)
    requires Facing(own, opp, taker) && opp != [] && 0 < qty <= Min(taker.leaves, opp[0].leaves)
    requires Tracked(own, h) && Tracked(opp, h) && taker.qty - taker.leaves == Cum(h, taker.id)
    ensures var h', taker' := h + [Traded(TradeOf(taker, opp[0], qty))], taker.(leaves := taker.leaves - qty);
            && Tracked(own, h') && Tracked(Front(opp, qty), h')
            && taker'.qty - taker'.leaves == Cum(h', taker.id)
            && Honest(TradeOf(taker, opp[0], qty), h')
  {
    var h' := h + [Traded(TradeOf(taker, opp[0], qty))];
    Extend(h, Traded(TradeOf(taker, opp[0], qty)));
    FrontRemains(opp, qty);
    hide Cum;
    var s, d := Front(opp, qty), |opp| - |Front(opp, qty)|;
    forall i | 0 <= i < |s|
      ensures s[i].qty - s[i].leaves == Cum(h', s[i].id)
    {
      if i + d > 0 {
        assert opp[0].id != opp[i + d].id;
      }
    }
  }

  /** One trade moves the accounts along. */
  lemma {:induction false} TradeKeeps(own: seq<Order>, opp: seq<Order>, taker: Order, h: History)
    requires Midway(own, opp, taker, h) && taker.leaves > 0 && opp != []
    ensures var qty := Min(taker.leaves, opp[0].leaves);
            Midway(own, Front(opp, qty), taker.(leaves := taker.leaves - qty),
              h + [Traded(TradeOf(taker, opp[0], qty))])
  {
    hide Balance, Cum, Stamp, Total, Front, InTime, Tracked, AllHonest;
    var qty := Min(taker.leaves, opp[0].leaves);
    var t := TradeOf(taker, opp[0], qty);
    assert opp[0].leaves > 0;
    FrontRemains(opp, qty);
    TradeKeepsFacing(own, opp, taker, qty);
    TradeKeepsTracked(own, opp, taker, qty, h);
    hide Facing;
    Extend(h, Traded(t));
    TradeKeepsTime(Front(opp, qty), opp, h, t);
    StampsUnmoved(own, h, t);
  }

  lemma {:induction false} StampsUnmoved(s: seq<Order>, h: History, t: Trade)
    requires InTime(s, h)
    ensures InTime(s, h + [Traded(t)])
  {
    Extend(h, Traded(t));
  }

  lemma {:induction false} SweepKeeps(own: seq<Order>, opp: seq<Order>, taker: Order, h: History)
    requires Midway(own, opp, taker, h)
    ensures var r := Sweep(taker, opp);
            Midway(own, r.rest, r.taker, h + Trades(r.trades))
    decreases |opp|
  {
    hide Midway;
    var r := Sweep(taker, opp);
    if taker.leaves <= 0 || opp == [] || !Crosses(taker, opp[0].price) {
      assert h + Trades([]) == h;
    } else {
      TradeKeeps(own, opp, taker, h);
      var qty := Min(taker.leaves, opp[0].leaves);
      var taker' := taker.(leaves := taker.leaves - qty);
      if qty == opp[0].leaves {
        SweepKeeps(own, opp[1..], taker', h + [Traded(r.trades[0])]);
        TradesCons(h, r.trades[0], Sweep(taker', opp[1..]).trades);
      } else {
        assert h + Trades(r.trades) == h + [Traded(r.trades[0])];
      }
    }
  }

  lemma {:induction false} TradesCons(h: History, t: Trade, ts: seq<Trade>)
    ensures h + Trades([t] + ts) == h + [Traded(t)] + Trades(ts)
  {
  }

  lemma {:induction false} TradesKeepStamps(h: History, ts: seq<Trade>, id: Id)
    ensures Stamp(h + Trades(ts), id) == Stamp(h, id)
    decreases |ts|
  {
    if ts == [] {
      assert h + Trades([]) == h;
    } else {
      TradesCons(h, ts[0], ts[1..]);
      assert [ts[0]] + ts[1..] == ts;
      Extend(h, Traded(ts[0]));
      TradesKeepStamps(h + [Traded(ts[0])], ts[1..], id);
    }
  }

  // ---- Insertion, removal and resizing of one order ----

  lemma {:induction false} TotalInsert(s: seq<Order>, o: Order)
    ensures Total(Insert(s, o)) == Total(s) + o.leaves
  {
    var k := Place(s, o);
    TotalAppend(s[..k], [o]);
    TotalAppend(s[..k] + [o], s[k..]);
    TotalAppend(s[..k], s[k..]);
    assert s == s[..k] + s[k..];
  }

  lemma {:induction false} TotalSplit(s: seq<Order>, k: nat, mid: seq<Order>)
    requires k < |s|
    ensures Total(s[..k] + mid + s[k + 1..]) == Total(s) - s[k].leaves + Total(mid)
  {
    TotalAppend(s[..k], mid);
    TotalAppend(s[..k] + mid, s[k + 1..]);
    TotalAppend(s[..k], [s[k]]);
    TotalAppend(s[..k] + [s[k]], s[k + 1..]);
    assert s == s[..k] + [s[k]] + s[k + 1..];
  }

  lemma {:induction false} InsertKeepsAccounts(s: seq<Order>, o: Order, h: History)
    requires Sorted(o.side, s) && !Holds(s, o.id)
    requires InTime(s, h) && Tracked(s, h) && o.qty - o.leaves == Cum(h, o.id)
    requires forall i :: 0 <= i < |s| ==> Stamp(h, s[i].id) < Stamp(h, o.id)
    ensures InTime(Insert(s, o), h) && Tracked(Insert(s, o), h)
  {
    hide Stamp, Cum;
    PlaceIsPriority(o.side, s, o);
    var k, t := Place(s, o), Insert(s, o);
    hide Place;
    forall i | 0 <= i < |t|
      ensures t[i] == if i < k then s[i] else if i == k then o else s[i - 1]
    {
    }
  }

  lemma {:induction false} RemoveKeepsAccounts(s: seq<Order>, id: Id, h: History, e: Entry)
    requires InTime(s, h) && Tracked(s, h) && Distinct(s)
    requires e.Cancelled? || e.TakenOut?
    ensures InTime(Remove(s, id), h + [e]) && Tracked(Remove(s, id), h + [e])
    ensures Find(s, id) < |s| ==> Total(Remove(s, id)) == Total(s) - s[Find(s, id)].leaves
    ensures Find(s, id) == |s| ==> Total(Remove(s, id)) == Total(s)
  {
    Extend(h, e);
    hide Stamp, Cum;
    var k, t := Find(s, id), Remove(s, id);
    if k < |s| {
      assert t == s[..k] + [] + s[k + 1..];
      TotalSplit(s, k, []);
    }
    hide Find;
    forall i | 0 <= i < |t|
      ensures t[i] == if i < k then s[i] else s[i + 1]
    {
    }
  }

  lemma {:induction false} ResizeKeepsAccounts(s: seq<Order>, id: Id, h: History, was: int, now: int)
    requires InTime(s, h) && Tracked(s, h) && Distinct(s)
    ensures var h' := h + [Resized(id, was, now)];
            InTime(Resize(s, id, now), h') && Tracked(Resize(s, id, now), h')
    ensures Find(s, id) < |s| ==> Total(Resize(s, id, now)) == Total(s) - s[Find(s, id)].leaves + now
    ensures Find(s, id) == |s| ==> Total(Resize(s, id, now)) == Total(s)
  {
    Extend(h, Resized(id, was, now));
    hide Stamp, Cum;
    var k, t := Find(s, id), Resize(s, id, now);
    if k < |s| {
      assert t == s[..k] + [t[k]] + s[k + 1..];
      TotalSplit(s, k, [t[k]]);
    }
  }

  // ---- Whole operations ----

  lemma {:induction false} EnteringIsMidway(symbol: Symbol, b: Book, o: Order, h: History)
    requires Accounted(symbol, b, h) && o.qty >= 1 && !Present(b, o.id)
    ensures Midway(b.On(o.side), b.On(o.side.Opposite()), o.(leaves := o.qty), h + [Entered(o)])
  {
    var own, opp := b.On(o.side), b.On(o.side.Opposite());
    var h' := h + [Entered(o)];
    Extend(h, Entered(o));
    hide Stamp, Cum, Balance, AllHonest, Total;
    EnteringKeeps(own, o, h);
    EnteringKeeps(opp, o, h);
    assert Facing(own, opp, o.(leaves := o.qty)) by {
      assert forall i :: 0 <= i < |opp| ==> RestingOrder(symbol, o.side.Opposite(), opp[i]);
    }
  }

  lemma {:induction false} EnteringKeeps(s: seq<Order>, o: Order, h: History)
    requires InTime(s, h) && Tracked(s, h) && !Holds(s, o.id)
    ensures InTime(s, h + [Entered(o)]) && Tracked(s, h + [Entered(o)])
  {
    Extend(h, Entered(o));
  }

  lemma {:induction false} AddKeepsAccounts(symbol: Symbol, b: Book, o: Order, h: History)
    requires Accounted(symbol, b, h) && Fresh(symbol, b, AddOp(o))
    ensures Accounted(symbol, Add(b, o).book, h + AddEntries(b, o))
  {
    hide Midway, Valid, InTime, Tracked, Balanced, AllHonest;
    AddKeepsValidIff(symbol, b, o);
    if o.qty <= 0 {
      assert h + [] == h && Add(b, o).book == b;
      return;
    }
    hide Sweep, Rests;
    EnteringIsMidway(symbol, b, o, h);
    var own, opp := b.On(o.side), b.On(o.side.Opposite());
    var t := o.(leaves := o.qty);
    var h1 := h + [Entered(o)];
    SweepKeeps(own, opp, t, h1);
    var r := Sweep(t, opp);
    var h2 := h1 + Trades(r.trades);
    AfterSweep(symbol, b, o, h, r, h2);
    assert h + AddEntries(b, o)
        == h2 + if r.taker.leaves > 0 && !Rests(r.taker) then [Discarded(o.id, r.taker.leaves)] else [];
    assert h2 + [] == h2;
  }

  lemma {:induction false} AfterSweep(symbol: Symbol, b: Book, o: Order, h: History, r: Swept, h2: History)
    requires Accounted(symbol, b, h) && Fresh(symbol, b, AddOp(o)) && o.qty >= 1
    requires r == Sweep(o.(leaves := o.qty), b.On(o.side.Opposite()))
    requires h2 == h + [Entered(o)] + Trades(r.trades)
    requires Midway(b.On(o.side), r.rest, r.taker, h2)
    requires Valid(symbol, Add(b, o).book)
    ensures Accounted(symbol, Add(b, o).book,
              if r.taker.leaves > 0 && !Rests(r.taker) then h2 + [Discarded(o.id, r.taker.leaves)] else h2)
  {
    hide Stamp, Cum, Balance, AllHonest, Total, Insert, Place, Sweep;
    var own := b.On(o.side);
    assert r.taker == o.(leaves := r.taker.leaves) by {
      assert forall i :: 0 <= i < |b.On(o.side.Opposite())| ==>
        RestingOrder(symbol, o.side.Opposite(), b.On(o.side.Opposite())[i]);
      SweepRest(o.(leaves := o.qty), b.On(o.side.Opposite()));
    }
    if Rests(r.taker) {
      forall i | 0 <= i < |own|
        ensures Stamp(h2, own[i].id) < Stamp(h2, o.id)
      {
        TradesKeepStamps(h + [Entered(o)], r.trades, own[i].id);
        TradesKeepStamps(h + [Entered(o)], r.trades, o.id);
        Extend(h, Entered(o));
        StampBound(h, own[i].id);
      }
      InsertKeepsAccounts(own, r.taker, h2);
      TotalInsert(own, r.taker);
    } else if r.taker.leaves > 0 {
      Extend(h2, Discarded(o.id, r.taker.leaves));
    }
  }

  /** An operation keeps the book in step with its history if and only if it does not edit
      an order in place down to nothing. */
  lemma {:induction false} StepKeepsAccountsIff(symbol: Symbol, b: Book, op: Op, h: History)
    requires Accounted(symbol, b, h) && Fresh(symbol, b, op)
    ensures Accounted(symbol, Apply(b, op), h + EntriesOf(b, op)) <==> !Breaks(b, op)
  {
    hide InTime, Tracked, Balanced, AllHonest, Valid, Present, AddEntries, Add, Cancel;
    match op
    case AddOp(o) =>
      AddKeepsAccounts(symbol, b, o, h);
    case CancelOp(id) =>
      LookupFinds(symbol, b, id);
      CancelKeepsValid(symbol, b, id);
      if Lookup(b, id).Some? {
        RemovalKeepsAccounts(symbol, b, id, h, Cancelled(id, Lookup(b, id).value.leaves));
      } else {
        AbsentCancel(b, id);
        assert h + [] == h;
      }
    case ReplaceOp(id, price, qty) =>
      LookupFinds(symbol, b, id);
      ReplaceKeepsValidIff(symbol, b, id, price, qty);
      match Lookup(b, id)
      case None =>
        assert h + [] == h;
      case Some(o) =>
        if !InPlace(o, price, qty) {
          var e := TakenOut(id, o.leaves);
          var o' := o.(price := price, qty := qty);
          CancelKeepsValid(symbol, b, id);
          RemovalKeepsAccounts(symbol, b, id, h, e);
          AddKeepsAccounts(symbol, Cancel(b, id), o', h + [e]);
          assert h + EntriesOf(b, op) == h + [e] + AddEntries(Cancel(b, id), o');
        } else if qty >= 1 {
          ResizingKeepsAccounts(symbol, b, id, qty, h);
        }
  }

  lemma {:induction false} RemovalKeepsAccounts(symbol: Symbol, b: Book, id: Id, h: History, e: Entry)
    requires Accounted(symbol, b, h) && Lookup(b, id).Some?
    requires e == Cancelled(id, Lookup(b, id).value.leaves) || e == TakenOut(id, Lookup(b, id).value.leaves)
    ensures Accounted(symbol, Cancel(b, id), h + [e])
  {
    hide Stamp, Cum, Balance, Total, AllHonest, Remove, Present;
    LookupFinds(symbol, b, id);
    CancelKeepsValid(symbol, b, id);
    RemoveKeepsAccounts(b.bids, id, h, e);
    RemoveKeepsAccounts(b.asks, id, h, e);
    hide InTime, Tracked, Valid;
    Extend(h, e);
  }

  lemma {:induction false} ResizingKeepsAccounts(symbol: Symbol, b: Book, id: Id, qty: int, h: History)
    requires Accounted(symbol, b, h) && Lookup(b, id).Some? && 1 <= qty < Lookup(b, id).value.leaves
    requires Valid(symbol, Book(Resize(b.bids, id, qty), Resize(b.asks, id, qty)))
    ensures Accounted(symbol, Book(Resize(b.bids, id, qty), Resize(b.asks, id, qty)),
              h + [Resized(id, Lookup(b, id).value.leaves, qty)])
  {
    LookupFinds(symbol, b, id);
    var was := Lookup(b, id).value.leaves;
    ResizeKeepsAccounts(b.bids, id, h, was, qty);
    ResizeKeepsAccounts(b.asks, id, h, was, qty);
    Extend(h, Resized(id, was, qty));
  }

  // ---- Whole runs ----

  function Run(b: Book, ops: seq<Op>): Book
    decreases |ops|
  {
    if ops == [] then b else Run(Apply(b, ops[0]), ops[1..])
  }

  function RunEntries(b: Book, ops: seq<Op>): History
    decreases |ops|
  {
    if ops == [] then [] else EntriesOf(b, ops[0]) + RunEntries(Apply(b, ops[0]), ops[1..])
  }

  predicate AllFresh(symbol: Symbol, b: Book, ops: seq<Op>)
    decreases |ops|
  {
    ops == [] || (Fresh(symbol, b, ops[0]) && AllFresh(symbol, Apply(b, ops[0]), ops[1..]))
  }

  predicate NeverBreaks(b: Book, ops: seq<Op>)
    decreases |ops|
  {
    ops == [] || (!Breaks(b, ops[0]) && NeverBreaks(Apply(b, ops[0]), ops[1..]))
  }

  /** Before and after every operation the book is in step with its history. */
  ghost predicate AlwaysAccounted(symbol: Symbol, b: Book, ops: seq<Op>, h: History)
    decreases |ops|
  {
    && Accounted(symbol, b, h)
    && (ops == [] || AlwaysAccounted(symbol, Apply(b, ops[0]), ops[1..], h + EntriesOf(b, ops[0])))
  }

  /** From any book in step with its history, and so from the empty one, the book stays in
      step throughout a sequence of adds, cancels and replaces if and only if no replace
      edits an order in place down to nothing. */
  lemma {:induction false} RunKeepsAccountsIff(symbol: Symbol, b: Book, ops: seq<Op>, h: History)
    requires Accounted(symbol, b, h) && AllFresh(symbol, b, ops)
    ensures AlwaysAccounted(symbol, b, ops, h) <==> NeverBreaks(b, ops)
    ensures NeverBreaks(b, ops) ==> Accounted(symbol, Run(b, ops), h + RunEntries(b, ops))
    decreases |ops|
  {
    hide Accounted, Apply, EntriesOf, Fresh, Breaks;
    if ops == [] {
      assert h + [] == h;
    } else {
      StepKeepsAccountsIff(symbol, b, ops[0], h);
      var b', h' := Apply(b, ops[0]), h + EntriesOf(b, ops[0]);
      if Breaks(b, ops[0]) {
        assert !AlwaysAccounted(symbol, b', ops[1..], h');
      } else {
        RunKeepsAccountsIff(symbol, b', ops[1..], h');
        assert h + RunEntries(b, ops) == h' + RunEntries(b', ops[1..]);
      }
    }
  }

  lemma {:induction false} EmptyIsAccounted(symbol: Symbol)
    ensures Accounted(symbol, EMPTY, [])
  {
  }
}
