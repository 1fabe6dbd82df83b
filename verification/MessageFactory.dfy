/** The quantities an execution report claims. */
module MessageFactory {
  import opened Orders

  datatype ExecType = PartFill | Filled | Canceled | Replaced | OrderStatus

  /** What the gateway sends to an order's owner. */
  datatype Report =
    | Execution(exec: ExecType, id: Id, orderQty: int, leaves: int, cum: int)
    | CancelReject(id: Id)

  /** Of an order, when it was cancelled or replaced: all of it open, none of it traded. */
  function OrderReport(o: Order, exec: ExecType): Report {
    Execution(exec, o.id, o.qty, o.qty, 0)
  }

  /** Of one half of a trade. */
  function FillReport(f: Fill): Report {
    Execution(if f.leaves == 0 then Filled else PartFill, f.id, f.orderQty, f.leaves, f.orderQty - f.leaves)
  }

  /** Of an order cancelled for its time in force. */
  function TifReport(o: Order): Report {
    Execution(Canceled, o.id, o.qty, 0, o.qty - o.leaves)
  }

  /** Of an active order, when its owner logs on. */
  function StatusReport(o: Order): Report {
    Execution(OrderStatus, o.id, o.qty, o.leaves, o.qty - o.leaves)
  }
}
