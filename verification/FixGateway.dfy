/** The gateway object: its maps as updated in place by incoming messages and engine callbacks. */
module GatewayObject {
  import opened Options
  import opened Orders
  import opened Engine
  import opened Gateway
  import opened MessageFactory
  import opened Recovery

  class FixGateway {
    var sessions: map<Id, Session>
    var active: map<Id, Order>
    var orderSeq: nat

    ghost function State(): Gw
      reads this
    {
      Gw(sessions, active, orderSeq)
    }

    /** There is no session without an order. */
    ghost predicate Valid()
      reads this
    {
      sessions.Keys <= active.Keys
    }

    constructor ()
      ensures Valid() && State() == Gw(map[], map[], 0)
    {
      sessions, active, orderSeq := map[], map[], 0;
    }

    method OnNewOrder(m: OrderMsg, session: Session) returns (submitted: Option<Order>)
      requires Valid()
      modifies this
      ensures Valid()
      ensures State() == OnOrderMsg(old(State()), m, session)
      ensures submitted == if Accepts(m) then Some(OrderFrom(old(State()), m)) else None
    {
      orderSeq := orderSeq + 1;
      if m.qty <= 0 {
        return None;
      }
      var price := 0;
      if m.typ == Limit {
        if m.price <= 0 {
          return None;
        }
        price := m.price;
      }
      if !m.knownSymbol || !m.riskOk {
        return None;
      }
      var order := Order(orderSeq, m.client, m.symbol, m.side, m.typ, price, m.qty, m.qty, m.tif);
      sessions := sessions[order.id := session];
      active := active[order.id := order];
      submitted := Some(order);
    }

    method Send(f: Fill) returns (reports: seq<Report>)
      requires Valid()
      modifies this
      ensures Valid()
      ensures State() == SendFill(old(State()), f) && reports == FillReports(old(State()), f)
    {
      reports := [];
      if f.id !in sessions {
        return;
      }
      if f.leaves == 0 {
        sessions := sessions - {f.id};
        active := active - {f.id};
      } else if f.id in active {
        active := active[f.id := active[f.id].(leaves := f.leaves)];
      }
      reports := [FillReport(f)];
    }

    /** A cancel whose ClOrdID was resolved goes to the engine. */
    method OnCancelRequest(c: CancelReq) returns (item: Option<WorkItem>)
      ensures item == if ForwardsCancel(State(), c) then Some(CancelItem(c)) else None
    {
      if c.id < 1 || c.id > orderSeq {
        return None;
      }
      item := Some(CancelItem(c));
    }

    /** So does a replace, unless it names another symbol or side than the order has. */
    method OnReplaceRequest(q: ReplaceReq) returns (item: Option<WorkItem>)
      ensures item == if ForwardsReplace(State(), q) then Some(ReplaceItem(q)) else None
    {
      if q.id < 1 || q.id > orderSeq {
        return None;
      }
      if q.id in active && (active[q.id].symbol != q.symbol || active[q.id].side != q.side) {
        return None;
      }
      item := Some(ReplaceItem(q));
    }

    method OnFillCallback(t: Trade) returns (packets: seq<Packet>, events: seq<DbEvent>, reports: seq<Report>)
      requires Valid()
      modifies this
      ensures Valid()
      ensures Out(State(), packets, events) == Notify(old(State()), OnFill(t))
      ensures reports == Reports(old(State()), OnFill(t))
    {
      var toMaker := Send(t.maker);
      var toTaker := Send(t.taker);
      reports := toMaker + toTaker;
      packets := FillPackets(t.maker);
      events := [FillEvt(t.maker), TakerFillEvt(t.taker)];
    }

    method OnTifCancelCallback(o: Order) returns (reports: seq<Report>)
      requires Valid()
      modifies this
      ensures Valid()
      ensures Out(State(), [], []) == Notify(old(State()), OnTifCancel(o))
      ensures reports == Reports(old(State()), OnTifCancel(o))
    {
      reports := [];
      if o.id in sessions {
        sessions := sessions - {o.id};
        active := active - {o.id};
        reports := [TifReport(o)];
      }
    }

    method OnRestedCallback(o: Order, leaves: int) returns (packets: seq<Packet>, events: seq<DbEvent>)
      ensures Out(State(), packets, events) == Notify(State(), OnRested(o, leaves))
    {
      packets := [Packet(NewOrderPkt, WireSide(o.side), o.symbol, o.price, leaves, o.id)];
      events := [RestedEvt(o, leaves)];
    }

    method OnCancelCallback(
      c: CancelReq, found: bool) returns (packets: seq<Packet>, events: seq<DbEvent>, reports: seq<Report>)
      requires Valid()
      modifies this
      ensures Valid()
      ensures Out(State(), packets, events) == Notify(old(State()), OnCancel(c, found))
      ensures reports == Reports(old(State()), OnCancel(c, found))
    {
      packets, events, reports := [], [], [];
      if c.id !in sessions || c.id !in active || !found {
        return;
      }
      var order := active[c.id];
      sessions := sessions - {c.id};
      active := active - {c.id};
      reports := [OrderReport(order, Canceled)];
      packets := [Packet(CancelPkt, WireSide(order.side), order.symbol, order.price, 0, order.id)];
      events := [CancelEvt(c.id)];
    }

    method OnReplaceCallback(
      q: ReplaceReq, found: bool,
      leaves: int) returns (packets: seq<Packet>, events: seq<DbEvent>, reports: seq<Report>)
      requires Valid()
      modifies this
      ensures Valid()
      ensures Out(State(), packets, events) == Notify(old(State()), OnReplace(q, found, leaves))
      ensures reports == Reports(old(State()), OnReplace(q, found, leaves))
    {
      packets, events, reports := [], [], [];
      if q.id !in sessions || q.id !in active {
        return;
      }
      if !found {
        reports := [CancelReject(q.id)];
        return;
      }
      var oldPrice := active[q.id].price;
      var leaves' := if leaves < 0 then 0 else leaves;
      var order := active[q.id].(price := q.price, qty := q.qty, leaves := leaves');
      if leaves == 0 {
        sessions := sessions - {q.id};
        active := active - {q.id};
      } else {
        active := active[q.id := order];
      }
      reports := [OrderReport(order, Replaced)];
      packets := ReplacePackets(q, leaves, oldPrice);
      events := [ReplaceEvt(q, leaves')];
    }

    /** Recovery: sessions stay empty until the owners log on. */
    method RestoreActive(os: seq<Order>, maxSeq: nat)
      requires Valid()
      modifies this
      ensures Valid()
      ensures State() == RestoreOrders(old(State()), os, maxSeq)
    {
      for i := 0 to |os|
        invariant sessions == old(sessions) && orderSeq == old(orderSeq) && Valid()
        invariant Emplace(old(active), os) == Emplace(active, os[i..])
      {
        if os[i].id !in active {
          active := active[os[i].id := os[i]];
        }
      }
      if maxSeq > 0 {
        orderSeq := maxSeq;
      }
    }

    /** Every active order of the client gets one status report, and a session if it had none. */
    method OnLogon(client: string, session: Session) returns (reports: seq<Report>)
      requires Valid()
      modifies this
      ensures Valid()
      ensures State() == Rebind(old(State()), client, session)
      ensures Told(reports, active, client, active.Keys)
    {
      hide Told, SessionsFor;
      reports := [];
      var todo := active.Keys;
      ghost var done: set<Id> := {};
      NoneYet(sessions, active, client, session);
      while todo != {}
        invariant active == old(active) && orderSeq == old(orderSeq)
        invariant todo !! done && todo + done == active.Keys
        invariant sessions == SessionsFor(old(sessions), active, client, session, done)
        invariant Told(reports, active, client, done)
        decreases |todo|
      {
        var id :| id in todo;
        OneMore(reports, old(sessions), active, client, session, done, id);
        if active[id].client == client {
          reports := reports + [StatusReport(active[id])];
          if id !in sessions {
            sessions := sessions[id := session];
          }
        }
        todo, done := todo - {id}, done + {id};
      }
      assert done == active.Keys;
      AllBound(old(State()), client, session);
    }
  }

  function Mine(active: map<Id, Order>, client: string, ids: set<Id>): set<Id> {
    set id | id in ids && id in active && active[id].client == client
  }

  /** One report per order of the client among ids. */
  ghost predicate Told(reports: seq<Report>, active: map<Id, Order>, client: string, ids: set<Id>) {
    && |reports| == |Mine(active, client, ids)|
    && (forall i :: 0 <= i < |reports| ==>
          exists id :: id in Mine(active, client, ids) && reports[i] == StatusReport(active[id]))
    && (forall id :: id in Mine(active, client, ids) ==> StatusReport(active[id]) in reports)
  }

  /** The sessions once the client's orders among ids have been looked at. */
  function SessionsFor(
    sessions: map<Id, Session>, active: map<Id, Order>, client: string, session: Session,
    ids: set<Id>): map<Id, Session>
  {
    sessions + map id | id in Mine(active, client, ids) && id !in sessions :: session
  }

  lemma {:induction false} NoneYet(sessions: map<Id, Session>, active: map<Id, Order>, client: string, session: Session)
    ensures SessionsFor(sessions, active, client, session, {}) == sessions && Told([], active, client, {})
  {
    assert Mine(active, client, {}) == {};
  }

  lemma {:induction false} AllBound(g: Gw, client: string, session: Session)
    ensures g.(sessions := SessionsFor(g.sessions, g.active, client, session, g.active.Keys))
         == Rebind(g, client, session)
  {
    assert SessionsFor(g.sessions, g.active, client, session, g.active.Keys) == Rebind(g, client, session).sessions;
  }

  lemma {:induction false} OneMore(
    reports: seq<Report>, sessions: map<Id, Session>, active: map<Id, Order>, client: string, session: Session,
    ids: set<Id>, id: Id)
    requires Told(reports, active, client, ids) && id !in ids && id in active
    ensures var b := SessionsFor(sessions, active, client, session, ids);
            var b' := SessionsFor(sessions, active, client, session, ids + {id});
            if active[id].client == client
            then && b' == (if id in b then b else b[id := session])
                 && Told(reports + [StatusReport(active[id])], active, client, ids + {id})
            else b' == b && Told(reports, active, client, ids + {id})
  {
    MineGrows(active, client, ids, id);
    hide Mine;
    BoundGrows(sessions, active, client, session, ids, id);
    hide SessionsFor;
    if active[id].client == client {
      ReportAdded(reports, active, client, ids, id);
    }
  }

  lemma {:induction false} MineGrows(active: map<Id, Order>, client: string, ids: set<Id>, id: Id)
    requires id !in ids && id in active
    ensures Mine(active, client, ids + {id})
         == if active[id].client == client then Mine(active, client, ids) + {id} else Mine(active, client, ids)
    ensures id !in Mine(active, client, ids)
  {
  }

  lemma {:induction false} BoundGrows(
    sessions: map<Id, Session>, active: map<Id, Order>, client: string, session: Session, ids: set<Id>, id: Id)
    requires id !in ids && id in active
    ensures var b := SessionsFor(sessions, active, client, session, ids);
            var b' := SessionsFor(sessions, active, client, session, ids + {id});
            b' == if active[id].client == client && id !in b then b[id := session] else b
  {
    MineGrows(active, client, ids, id);
    hide Mine;
    var b := SessionsFor(sessions, active, client, session, ids);
    var b' := SessionsFor(sessions, active, client, session, ids + {id});
    assert b'.Keys == if active[id].client == client then b.Keys + {id} else b.Keys;
  }

  lemma {:induction false} ReportAdded(
    reports: seq<Report>, active: map<Id, Order>, client: string, ids: set<Id>, id: Id)
    requires Told(reports, active, client, ids) && id !in ids && id in active && active[id].client == client
    requires Mine(active, client, ids + {id}) == Mine(active, client, ids) + {id}
    ensures Told(reports + [StatusReport(active[id])], active, client, ids + {id})
  {
    var reports' := reports + [StatusReport(active[id])];
    hide Mine;
    var m' := Mine(active, client, ids + {id});
    MineGrows(active, client, ids, id);
    assert reports'[|reports|] == StatusReport(active[id]);
    forall x | x in Mine(active, client, ids)
      ensures StatusReport(active[x]) in reports'
    {
    }
    forall i | 0 <= i < |reports'|
      ensures exists x :: x in m' && reports'[i] == StatusReport(active[x])
    {
      if i < |reports| {
        var x :| x in Mine(active, client, ids) && reports[i] == StatusReport(active[x]);
        assert x in m';
      } else {
        assert id in m';
      }
    }
  }
}
