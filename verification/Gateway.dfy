/** The gateway's order maps and what it sends on: market-data packets and persistence events. */
module Gateway {
  import opened Orders
  import opened Engine
  import opened MessageFactory

  type Session = string

  // ---- The two outgoing feeds ----

  datatype PacketKind =
    | NewOrderPkt | CancelPkt | FillRestingPkt | TradePkt
    | ReplaceInPlacePkt | ReplaceDeletePkt | ReplaceNewPkt

  datatype PacketSide = BidSide | AskSide | TradeSide

  datatype Packet = Packet(kind: PacketKind, side: PacketSide, symbol: Symbol, price: Price, qty: int, id: Id)

  datatype DbEvent =
    | RestedEvt(order: Order, leaves: int)
    | FillEvt(fill: Fill)
    | TakerFillEvt(fill: Fill)
    | CancelEvt(id: Id)
    | ReplaceEvt(req: ReplaceReq, leaves: int)

  function WireSide(side: Side): PacketSide {
    if side.Buy? then BidSide else AskSide
  }

  function FillPackets(m: Fill): seq<Packet> {
    [Packet(FillRestingPkt, WireSide(m.side), m.symbol, m.price, m.leaves, m.id),
     Packet(TradePkt, TradeSide, m.symbol, m.price, m.qty, m.id)]
  }

  function ReplacePackets(q: ReplaceReq, leaves: int, oldPrice: Price): seq<Packet> {
    if oldPrice == q.price then
      [Packet(ReplaceInPlacePkt, WireSide(q.side), q.symbol, q.price, leaves, q.id)]
    else
      [Packet(ReplaceDeletePkt, WireSide(q.side), q.symbol, oldPrice, 0, q.id),
       Packet(ReplaceNewPkt, WireSide(q.side), q.symbol, q.price, leaves, q.id)]
  }

  // ---- The gateway's reaction to a callback ----

  datatype Gw = Gw(sessions: map<Id, Session>, active: map<Id, Order>, seqNo: nat)
  {
    function Forget(id: Id): Gw {
      this.(sessions := sessions - {id}, active := active - {id})
    }

    predicate Knows(id: Id) {
      id in sessions && id in active
    }
  }

  datatype Out = Out(gw: Gw, packets: seq<Packet>, events: seq<DbEvent>)

  function SendFill(g: Gw, f: Fill): Gw {
    if f.id !in g.sessions then g
    else if f.leaves == 0 then g.Forget(f.id)
    else if f.id in g.active then g.(active := g.active[f.id := g.active[f.id].(leaves := f.leaves)])
    else g
  }

  function Notify(g: Gw, c: Callback): Out {
    match c
    case OnFill(Trade(m, t)) =>
      Out(SendFill(SendFill(g, m), t), FillPackets(m), [FillEvt(m), TakerFillEvt(t)])
    case OnTifCancel(o) =>
      Out(if o.id in g.sessions then g.Forget(o.id) else g, [], [])
    case OnRested(o, leaves) =>
      Out(g, [Packet(NewOrderPkt, WireSide(o.side), o.symbol, o.price, leaves, o.id)], [RestedEvt(o, leaves)])
    case OnCancel(c, found) =>
      if !g.Knows(c.id) || !found then Out(g, [], [])
      else
        var o := g.active[c.id];
        Out(g.Forget(c.id), [Packet(CancelPkt, WireSide(o.side), o.symbol, o.price, 0, o.id)], [CancelEvt(c.id)])
    case OnReplace(q, found, leaves) =>
      if !g.Knows(q.id) || !found then Out(g, [], [])
      else
        var leaves' := if leaves < 0 then 0 else leaves;
        var o := g.active[q.id].(price := q.price, qty := q.qty, leaves := leaves');
        var g' := if leaves == 0 then g.Forget(q.id) else g.(active := g.active[q.id := o]);
        Out(g', ReplacePackets(q, leaves, g.active[q.id].price), [ReplaceEvt(q, leaves')])
  }

  function NotifyAll(g: Gw, cs: seq<Callback>): Out
    decreases |cs|
  {
    if cs == [] then Out(g, [], [])
    else
      var first := Notify(g, cs[0]);
      var rest := NotifyAll(first.gw, cs[1..]);
      Out(rest.gw, first.packets + rest.packets, first.events + rest.events)
  }

  // ---- What the owners are told ----

  function FillReports(g: Gw, f: Fill): seq<Report> {
    if f.id in g.sessions then [FillReport(f)] else []
  }

  /** The reports sent for a callback, to whoever has a session. */
  function Reports(g: Gw, c: Callback): seq<Report> {
    match c
    case OnFill(Trade(m, t)) => FillReports(g, m) + FillReports(SendFill(g, m), t)
    case OnTifCancel(o) => if o.id in g.sessions then [TifReport(o)] else []
    case OnRested(_, _) => []
    case OnCancel(c, found) => if g.Knows(c.id) && found then [OrderReport(g.active[c.id], Canceled)] else []
    case OnReplace(q, found, leaves) =>
      if !g.Knows(q.id) then []
      else if !found then [CancelReject(q.id)]
      else [OrderReport(g.active[q.id].(price := q.price, qty := q.qty, leaves := leaves), Replaced)]
  }

  function AllReports(g: Gw, cs: seq<Callback>): seq<Report>
    decreases |cs|
  {
    if cs == [] then [] else Reports(g, cs[0]) + AllReports(Notify(g, cs[0]).gw, cs[1..])
  }

  lemma {:induction false} ReportsAppend(g: Gw, a: seq<Callback>, c: Callback)
    ensures AllReports(g, a + [c]) == AllReports(g, a) + Reports(NotifyAll(g, a).gw, c)
    decreases |a|
  {
    hide Notify, Reports;
    if a == [] {
      assert a + [c] == [c] && [c][1..] == [];
      assert Reports(g, c) + [] == Reports(g, c);
    } else {
      assert (a + [c])[1..] == a[1..] + [c];
      ReportsAppend(Notify(g, a[0]).gw, a[1..], c);
    }
  }

  // ---- Lists of callbacks ----

  lemma {:induction false} NotifyAppend(g: Gw, a: seq<Callback>, b: seq<Callback>)
    ensures var x := NotifyAll(g, a); var y := NotifyAll(x.gw, b);
            NotifyAll(g, a + b) == Out(y.gw, x.packets + y.packets, x.events + y.events)
    decreases |a|
  {
    hide Notify;
    if a == [] {
      assert a + b == b;
    } else {
      assert (a + b)[1..] == a[1..] + b;
      var first, rest := Notify(g, a[0]), NotifyAll(Notify(g, a[0]).gw, a[1..]);
      NotifyAppend(first.gw, a[1..], b);
      var y := NotifyAll(rest.gw, b);
      assert first.packets + (rest.packets + y.packets) == first.packets + rest.packets + y.packets;
      assert first.events + (rest.events + y.events) == first.events + rest.events + y.events;
    }
  }

  lemma {:induction false} NotifyOne(g: Gw, c: Callback)
    ensures NotifyAll(g, [c]) == Notify(g, c)
  {
    assert [c][1..] == [];
    assert Notify(g, c).packets + [] == Notify(g, c).packets && Notify(g, c).events + [] == Notify(g, c).events;
  }

  // ---- Incoming messages ----

  /** An incoming order message; the verdicts of the symbol and risk checks are given. */
  datatype OrderMsg = OrderMsg(
    client: string, symbol: Symbol, side: Side, typ: OrdType, price: Price, qty: int, tif: Tif,
    knownSymbol: bool, riskOk: bool)

  predicate Accepts(m: OrderMsg) {
    m.qty > 0 && (m.typ.Limit? ==> m.price > 0) && m.knownSymbol && m.riskOk
  }

  /** The id is used up whether or not the order is accepted. */
  function OrderFrom(g: Gw, m: OrderMsg): Order {
    Order(g.seqNo + 1, m.client, m.symbol, m.side, m.typ, if m.typ.Limit? then m.price else 0, m.qty, m.qty, m.tif)
  }

  function OnOrderMsg(g: Gw, m: OrderMsg, session: Session): Gw {
    var o := OrderFrom(g, m);
    if Accepts(m) then
      Gw(g.sessions[o.id := session], g.active[o.id := o], g.seqNo + 1)
    else g.(seqNo := g.seqNo + 1)
  }

  /** A replace for an active order must name that order's symbol and side. */
  predicate ForwardsReplace(g: Gw, q: ReplaceReq) {
    && 1 <= q.id <= g.seqNo
    && (q.id in g.active ==> g.active[q.id].symbol == q.symbol && g.active[q.id].side == q.side)
  }

  predicate ForwardsCancel(g: Gw, c: CancelReq) {
    1 <= c.id <= g.seqNo
  }

  /** Orders of a client that have no session yet get the one that logs on. */
  function Rebind(g: Gw, client: string, session: Session): Gw {
    g.(sessions := g.sessions
         + (map id | id in g.active && id !in g.sessions && g.active[id].client == client :: session))
  }
}
