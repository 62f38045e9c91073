/**
  The store owner's order-status update (app.py:396-415): any allowed
  status may replace any other; an unknown order or status changes nothing.
 */
module OrderStatus {
  import opened Wrappers
  import opened Model
  import Ledger

  /** The status strings the owner's form may submit. */
  const Allowed: set<string> := {"pending", "accepted", "ready", "completed"}

  /** The string the source stores for each status. */
  function StatusName(st: Status): (name: string)
    ensures name in Allowed
  {
    match st
    case Pending => "pending"
    case Accepted => "accepted"
    case Ready => "ready"
    case Completed => "completed"
  }

  /** Accept exactly the allowed status strings. */
  function ParseStatus(raw: string): (r: Option<Status>)
    ensures r.Some? <==> raw in Allowed
    ensures r.Some? ==> StatusName(r.value) == raw
  {
    if raw == "pending" then Some(Pending)
    else if raw == "accepted" then Some(Accepted)
    else if raw == "ready" then Some(Ready)
    else if raw == "completed" then Some(Completed)
    else None
  }

  /** Parsing a status's own name gives that status back. */
  lemma ParseStatusName(st: Status)
    ensures ParseStatus(StatusName(st)) == Some(st)
  {
  }

  /** The submitted status, `"pending"` when the form omits the field. */
  function RequestedStatus(statusField: Option<string>): string {
    if statusField.Some? then statusField.value else "pending"
  }

  /**
    `update_order_status`: look up the order first, then check the new
    status against the allowed set, then overwrite the status of that order.
   */
  function UpdateOrderStatus(s: Store, orderId: int, statusField: Option<string>): (r: (Store, Outcome<Error>))
    ensures r.1.Fail? ==> r.0 == s
    ensures r.1 == Fail(OrderNotFound) <==> forall i :: 0 <= i < |s.orders| ==> s.orders[i].id != orderId
    ensures r.1 == Fail(InvalidStatus) <==>
      && (exists i :: 0 <= i < |s.orders| && s.orders[i].id == orderId)
      && RequestedStatus(statusField) !in Allowed
    ensures r.1.Pass? <==>
      && (exists i :: 0 <= i < |s.orders| && s.orders[i].id == orderId)
      && RequestedStatus(statusField) in Allowed
    ensures r.1.Pass? ==>
      var i := Ledger.FindOrder(s.orders, orderId).value;
      && r.0.products == s.products && r.0.id == s.id && r.0.name == s.name
      && |r.0.orders| == |s.orders|
      && r.0.orders[i] == s.orders[i].(status := ParseStatus(RequestedStatus(statusField)).value)
      && forall j :: 0 <= j < |s.orders| && j != i ==> r.0.orders[j] == s.orders[j]
    ensures Valid(s) ==> Valid(r.0)
  {
    match Ledger.FindOrder(s.orders, orderId)
    case None => (s, Fail(OrderNotFound))
    case Some(i) =>
      match ParseStatus(RequestedStatus(statusField))
      case None => (s, Fail(InvalidStatus))
      case Some(st) => (s.(orders := s.orders[i := s.orders[i].(status := st)]), Pass)
  }

  /**
    No transition is forbidden: any existing order may be moved to any
    status, including from `completed` back to `pending`.
   */
  lemma AnyStatusFollowsAny(s: Store, i: int, st: Status)
    requires Valid(s)
    requires 0 <= i < |s.orders|
    ensures var r := UpdateOrderStatus(s, s.orders[i].id, Some(StatusName(st)));
      && r.1 == Pass
      && Ledger.GetOrder(r.0.orders, s.orders[i].id) == Some(s.orders[i].(status := st))
  {
    Ledger.GetOrderUnique(s.orders, i);
  }

  /** A form that omits the status field resets the order to `pending`. */
  lemma MissingFieldResetsToPending(s: Store, i: int)
    requires Valid(s)
    requires 0 <= i < |s.orders|
    ensures var r := UpdateOrderStatus(s, s.orders[i].id, None);
      r.1 == Pass && r.0.orders[i].status == Pending
  {
    Ledger.GetOrderUnique(s.orders, i);
  }
}
