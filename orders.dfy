/**
 * A unit's order queue: a first-in first-out queue of pending orders plus the
 * order currently being processed. What an order does when it ticks belongs
 * to the concrete order kind and is given to `Tick` as an oracle.
 */
module Orders {
  import opened Wrappers

  /** The unit an order list belongs to (a non-owning `Unit*`; `None` is null). */
  type UnitRef = nat

  /** An order, identified by `id`, with the unit it acts for. */
  datatype Order = Order(id: nat, unit: Option<UnitRef>)

  /** The value held by an order list: its unit, the current order and the queue (front first). */
  datatype Snapshot = Snapshot(unit: Option<UnitRef>, current: Option<Order>, orders: seq<Order>)

  /** The list after `enqueue(o)`: `o`, bound to the list's unit, joins the back of the queue. */
  function Enqueued(s: Snapshot, o: Order): (r: Snapshot)
    ensures |r.orders| == |s.orders| + 1 && r.orders[..|s.orders|] == s.orders
    ensures r.orders[|s.orders|].id == o.id && r.orders[|s.orders|].unit == s.unit
    ensures r.current == s.current && r.unit == s.unit
  {
    s.(orders := s.orders + [o.(unit := s.unit)])
  }

  /** The order whose own tick runs during one tick of the list, if any. */
  function Running(s: Snapshot): (r: Option<Order>)
    ensures r.Some? <==> s.current.Some? || s.orders != []
    ensures s.current.Some? ==> r == s.current
    ensures s.current.None? && s.orders != [] ==> r == Some(s.orders[0])
  {
    if s.current.None? && |s.orders| > 0 then Some(s.orders[0]) else s.current
  }

  /**
   * The list after one tick, where `result` is what the running order's tick
   * returned (ignored when no order runs). The running order is cleared when
   * `result` is false, although an order's tick is documented to return true
   * when it has completed.
   */
  function AfterTick(s: Snapshot, result: bool): Snapshot
  {
    var fetched := if s.current.None? && |s.orders| > 0
      then s.(current := Some(s.orders[0]), orders := s.orders[1..])
      else s;
    if fetched.current.Some? && !result then fetched.(current := None) else fetched
  }

  /** A tick with no current order and a non-empty queue starts the front order; the queue shrinks by one. */
  lemma TickFetchesFront(s: Snapshot, result: bool)
    requires s.current.None? && s.orders != []
    ensures Running(s) == Some(s.orders[0])
    ensures AfterTick(s, result).orders == s.orders[1..]
    ensures |AfterTick(s, result).orders| == |s.orders| - 1
    ensures AfterTick(s, result).current == (if result then Some(s.orders[0]) else None)
  {
  }

  /** A tick of an idle list with an empty queue changes nothing and runs nothing. */
  lemma TickIdleIsNoop(s: Snapshot, result: bool)
    requires s.current.None? && s.orders == []
    ensures Running(s).None? && AfterTick(s, result) == s
  {
  }

  /** The current order is cleared exactly when its tick returned false; the queue is untouched while one is current. */
  lemma TickClearsOnFalse(s: Snapshot, result: bool)
    requires s.current.Some?
    ensures AfterTick(s, result).orders == s.orders
    ensures AfterTick(s, result).current.None? <==> !result
  {
  }

  /** The orders whose tick runs during successive ticks with the given outcomes. */
  function Dispatched(s: Snapshot, outcomes: seq<bool>): seq<Order>
    decreases |outcomes|
  {
    if outcomes == [] then []
    else
      var r := Running(s);
      (if r.Some? then [r.value] else []) + Dispatched(AfterTick(s, outcomes[0]), outcomes[1..])
  }

  /**
   * First in, first out: when every order's first tick returns false (which
   * clears it), an idle list runs its queued orders in exactly the order they
   * were queued.
   */
  lemma {:induction false} DispatchIsFifo(s: Snapshot, outcomes: seq<bool>)
    requires s.current.None?
    requires |outcomes| == |s.orders|
    requires forall i :: 0 <= i < |outcomes| ==> !outcomes[i]
    ensures Dispatched(s, outcomes) == s.orders
    decreases |outcomes|
  {
    if outcomes != [] {
      var next := AfterTick(s, outcomes[0]);
      assert next == s.(orders := s.orders[1..]);
      DispatchIsFifo(next, outcomes[1..]);
    }
  }

  /**
   * The other side of clearing on false: an order whose tick keeps returning
   * true (documented as "completed") runs on every tick, and the queued orders
   * behind it never run.
   */
  lemma {:induction false} CompletedOrderStays(s: Snapshot, outcomes: seq<bool>)
    requires s.current.Some?
    requires forall i :: 0 <= i < |outcomes| ==> outcomes[i]
    ensures Dispatched(s, outcomes) == seq(|outcomes|, _ => s.current.value)
    decreases |outcomes|
  {
    if outcomes != [] {
      assert AfterTick(s, outcomes[0]) == s;
      CompletedOrderStays(s, outcomes[1..]);
    }
  }

  /** An order list, updated in place by `Enqueue` and `Tick`. */
  class OrderList {
    var unit: Option<UnitRef>
    var current: Option<Order>
    var orders: seq<Order>

    function Value(): Snapshot
      reads this
    {
      Snapshot(unit, current, orders)
    }

    /** `OrderList(unit)`: no current order and an empty queue. */
    constructor (unit: Option<UnitRef>)
      ensures Value() == Snapshot(unit, None, [])
    {
      this.unit := unit;
      current := None;
      orders := [];
    }

    /** `OrderList(unit, orders)`: no current order; the queue is taken as given (its orders keep their unit). */
    constructor WithOrders(unit: Option<UnitRef>, orders: seq<Order>)
      ensures Value() == Snapshot(unit, None, orders)
    {
      this.unit := unit;
      current := None;
      this.orders := orders;
    }

    /** Binds `order` to this list's unit and appends it at the back of the queue. */
    method Enqueue(order: Order)
      modifies this
      ensures Value() == Enqueued(old(Value()), order)
    {
      var bound := order.(unit := unit);
      orders := orders + [bound];
    }

    /**
     * Fetches the front order when none is current, then ticks the current
     * order once; `orderTick` is the order's own tick. `ticked` is the order
     * whose tick ran (at most one per call).
     */
    method Tick(dt: real, orderTick: (Order, real) -> bool) returns (ticked: Option<Order>)
      modifies this
      ensures ticked == Running(old(Value()))
      ensures Value() == AfterTick(old(Value()), ticked.Some? && orderTick(ticked.value, dt))
    {
      ticked := None;
      if current.None? && |orders| > 0 {
        current := Some(orders[0]);
        orders := orders[1..];
      }
      if current.Some? {
        ticked := current;
        if !orderTick(current.value, dt) {
          current := None;
        }
      }
    }
  }
}
