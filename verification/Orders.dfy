/** The records that travel through the exchange: orders, fills, requests, work items. */
module Orders {
  /** The number n of an exchange id "EXCH-n"; module OrderIds shows that the text and n determine each other. */
  type Id = nat
  type Symbol = string
  /** A price in ticks. The exchange only ever compares prices. */
  type Price = int

  datatype Side = Buy | Sell
  {
    function Opposite(): Side {
      if Buy? then Sell else Buy
    }
  }

  /** FIX tag 40: '1', '2', or any other code, none of which the gateway rejects. */
  datatype OrdType = Market | Limit | Other

  /** FIX tag 59: '3' and '4'; every other code is treated as the default '0'. */
  datatype Tif = Gtc | Ioc | Fok

  datatype Order = Order(
    id: Id, client: string, symbol: Symbol, side: Side, typ: OrdType,
    price: Price, qty: int, leaves: int, tif: Tif)

  /** One party's half of an execution. */
  datatype Fill = Fill(
    id: Id, symbol: Symbol, side: Side, price: Price, qty: int, leaves: int, orderQty: int)

  /** One invocation of the fill callback. */
  datatype Trade = Trade(maker: Fill, taker: Fill)

  datatype CancelReq = CancelReq(id: Id, symbol: Symbol)

  datatype ReplaceReq = ReplaceReq(id: Id, symbol: Symbol, side: Side, price: Price, qty: int)

  datatype WorkItem =
    | NewOrder(order: Order)
    | CancelItem(cancel: CancelReq)
    | ReplaceItem(replace: ReplaceReq)

  function Min(a: int, b: int): int {
    if a <= b then a else b
  }

  /** Does p have price priority over q among the resting orders of this side? */
  predicate Better(side: Side, p: Price, q: Price) {
    if side.Buy? then p > q else p < q
  }

  /** May o, as an aggressor, trade at resting price p? */
  predicate Crosses(o: Order, p: Price) {
    o.typ.Market? || (if o.side.Buy? then o.price >= p else o.price <= p)
  }

  /** Does the FOK pre-check stop counting at resting price p? */
  predicate Beyond(o: Order, p: Price) {
    o.typ.Limit? && (if o.side.Buy? then p > o.price else p < o.price)
  }
}
