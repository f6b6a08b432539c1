/**
 * The ordering service's two transactional handlers over its tables
 * food_items, orders and order_items.
 *
 * Placement prices every requested line inside one transaction and inserts a
 * pending order with its lines; settlement checks the order (exists, owned by
 * the caller, pending), decrements stock line by line with the conditional
 * `quantity >= requested` update, and marks the order completed. Each
 * handler works on a snapshot of the tables and either commits all of it or
 * leaves the tables as they were. `commitOk` is the outcome of tx.Commit().
 */
module OrderStore {
  import opened Wrappers
  import opened Models
  import Producer
  import Strconv

  datatype OrderError =
    | FoodItemNotFound(foodItemId: int)                  // 404, placement
    | OrderNotFound                                      // 404, settlement
    | Forbidden                                          // 403, settlement by a non-owner
    | NotPending                                         // 400, order is not pending
    | InsufficientStock(foodItemId: int, name: string)   // 400, a conditional decrement hit no row
    | TransactionFailure                                 // 500, the commit failed

  /** The arguments a handler hands to the publisher once its transaction committed. */
  datatype PublishRequest = PublishRequest(order: Order, names: map<int, string>)

  /** The response of a successful placement, and the event it hands off. */
  datatype Placed = Placed(orderId: int, totalPrice: int, publish: PublishRequest)

  /** One row of the settlement query: order_items joined with food_items. */
  datatype JoinedLine = JoinedLine(foodItemId: int, quantity: int, name: string)

  /** The tables of the ordering service. */
  datatype Tables = Tables(
    food: map<int, FoodItem>,
    orders: map<int, OrderRow>,
    lines: seq<OrderItem>,
    nextOrderId: int)   // the next value of the orders id sequence

  datatype Outcome<R> = Outcome(after: Tables, result: Result<R, OrderError>)

  /** Foreign keys of order_items, fresh order ids, and no stock below zero. */
  ghost predicate WellFormed(t: Tables)
  {
    && StockNonNegative(t.food)
    && (forall i :: 0 <= i < |t.lines| ==> t.lines[i].foodItemId in t.food && t.lines[i].orderId in t.orders)
    && (forall id :: id in t.orders ==> id < t.nextOrderId)
  }

  predicate StockNonNegative(food: map<int, FoodItem>)
  {
    forall id :: id in food ==> food[id].quantity >= 0
  }

  // ---------------------------------------------------------------- placement

  predicate AllKnown(food: map<int, FoodItem>, items: seq<ItemRequest>)
  {
    forall i :: 0 <= i < |items| ==> items[i].foodItemId in food
  }

  /** The position of the first requested line whose food item does not exist. */
  function FirstUnknown(food: map<int, FoodItem>, items: seq<ItemRequest>): (k: nat)
    requires !AllKnown(food, items)
    ensures k < |items| && items[k].foodItemId !in food
    ensures forall j :: 0 <= j < k ==> items[j].foodItemId in food
  {
    if items[0].foodItemId !in food then 0 else 1 + FirstUnknown(food, items[1..])
  }

  /** The order total: price times quantity, summed in request order. */
  function Total(food: map<int, FoodItem>, items: seq<ItemRequest>): int
    requires AllKnown(food, items)
  {
    if items == [] then 0
    else
      var last := items[|items| - 1];
      Total(food, items[..|items| - 1]) + food[last.foodItemId].price * last.quantity
  }

  function Ids(items: seq<ItemRequest>): set<int>
  {
    set i | 0 <= i < |items| :: items[i].foodItemId
  }

  /** The id-to-name map placement fills for the event: every requested id, with its name. */
  function Names(food: map<int, FoodItem>, items: seq<ItemRequest>): (m: map<int, string>)
    requires AllKnown(food, items)
    ensures m.Keys == Ids(items)
    ensures forall id :: id in m ==> m[id] == food[id].name
  {
    if items == [] then map[]
    else
      var last := items[|items| - 1];
      var m := Names(food, items[..|items| - 1])[last.foodItemId := food[last.foodItemId].name];
      assert Ids(items) == Ids(items[..|items| - 1]) + {last.foodItemId} by {
        forall id | id in Ids(items) ensures id in Ids(items[..|items| - 1]) + {last.foodItemId} {
          var i :| 0 <= i < |items| && items[i].foodItemId == id;
          if i < |items| - 1 { assert items[..|items| - 1][i] == items[i]; }
        }
      }
      m
  }

  /** The order_items rows inserted for the request, in request order. */
  function LinesOf(orderId: int, items: seq<ItemRequest>): (ls: seq<OrderItem>)
    ensures |ls| == |items|
    ensures forall i :: 0 <= i < |items| ==> ls[i] == OrderItem(orderId, items[i].foodItemId, items[i].quantity)
  {
    if items == [] then []
    else
      var last := items[|items| - 1];
      LinesOf(orderId, items[..|items| - 1]) + [OrderItem(orderId, last.foodItemId, last.quantity)]
  }

  /**
   * PlaceOrderHandler, from the opened transaction to the commit. The orders
   * insert draws the next value of the id sequence, and a sequence value is
   * not returned by a rollback: a failed commit still uses up that id.
   */
  function Place(t: Tables, userId: int, items: seq<ItemRequest>, commitOk: bool): (o: Outcome<Placed>)
    ensures o.result.Ok? <==> AllKnown(t.food, items) && commitOk
    ensures o.after.food == t.food
    ensures o.result.Err? ==> o.after.orders == t.orders && o.after.lines == t.lines
    ensures o.after.nextOrderId == if AllKnown(t.food, items) then t.nextOrderId + 1 else t.nextOrderId
  {
    if !AllKnown(t.food, items) then
      Outcome(t, Err(FoodItemNotFound(items[FirstUnknown(t.food, items)].foodItemId)))
    else if !commitOk then
      Outcome(t.(nextOrderId := t.nextOrderId + 1), Err(TransactionFailure))
    else
      var id := t.nextOrderId;
      var total := Total(t.food, items);
      var ls := LinesOf(id, items);
      Outcome(
        t.(orders := t.orders[id := OrderRow(userId, total, Pending)], lines := t.lines + ls, nextOrderId := id + 1),
        Ok(Placed(id, total, PublishRequest(Order(id, userId, ls, total, Pending), Names(t.food, items)))))
  }

  // --------------------------------------------------------------- settlement

  /** The rows of the join query for `orderId`, in order_items order. */
  function Joined(food: map<int, FoodItem>, lines: seq<OrderItem>, orderId: int): (js: seq<JoinedLine>)
    ensures |js| <= |lines|
    ensures forall k :: 0 <= k < |js| ==> js[k].foodItemId in food && js[k].name == food[js[k].foodItemId].name
  {
    if lines == [] then []
    else
      var l := lines[|lines| - 1];
      var rest := Joined(food, lines[..|lines| - 1], orderId);
      if l.orderId == orderId && l.foodItemId in food then
        rest + [JoinedLine(l.foodItemId, l.quantity, food[l.foodItemId].name)]
      else rest
  }

  /**
   * The conditional decrements in line order. Each one applies only when the
   * current stock covers the line; the first that does not names its line.
   */
  function Decrement(food: map<int, FoodItem>, js: seq<JoinedLine>): Result<map<int, FoodItem>, JoinedLine>
  {
    if js == [] then Ok(food)
    else
      match Decrement(food, js[..|js| - 1])
      case Err(l) => Err(l)
      case Ok(f) => ConditionalDecrement(f, js[|js| - 1])
  }

  /**
   * `UPDATE food_items SET quantity = quantity - q WHERE id = i AND quantity >= q`:
   * the new stock when one row is affected, the line itself when none is.
   */
  function ConditionalDecrement(f: map<int, FoodItem>, l: JoinedLine): (r: Result<map<int, FoodItem>, JoinedLine>)
    ensures r.Ok? <==> l.foodItemId in f && f[l.foodItemId].quantity >= l.quantity
    ensures r.Err? ==> r.error == l
    ensures r.Ok? ==> r.value.Keys == f.Keys
  {
    if l.foodItemId in f && f[l.foodItemId].quantity >= l.quantity then
      Ok(f[l.foodItemId := f[l.foodItemId].(quantity := f[l.foodItemId].quantity - l.quantity)])
    else Err(l)
  }

  /** An applied update lowers only its item's quantity, by exactly the line's quantity. */
  lemma ConditionalDecrementFrame(f: map<int, FoodItem>, l: JoinedLine)
    requires ConditionalDecrement(f, l).Ok?
    ensures var g := ConditionalDecrement(f, l).value;
      && g[l.foodItemId].quantity == f[l.foodItemId].quantity - l.quantity
      && g[l.foodItemId].name == f[l.foodItemId].name
      && g[l.foodItemId].price == f[l.foodItemId].price
      && forall id :: id in f && id != l.foodItemId ==> g[id] == f[id]
  {
  }

  /** The total quantity the joined lines ask of one food item. */
  function Demand(js: seq<JoinedLine>, id: int): int
  {
    if js == [] then 0
    else Demand(js[..|js| - 1], id) + (if js[|js| - 1].foodItemId == id then js[|js| - 1].quantity else 0)
  }

  /** The total quantity the order_items rows of `orderId` ask of one food item. */
  function OrderDemand(lines: seq<OrderItem>, orderId: int, id: int): int
  {
    if lines == [] then 0
    else
      var l := lines[|lines| - 1];
      OrderDemand(lines[..|lines| - 1], orderId, id) + (if l.orderId == orderId && l.foodItemId == id then l.quantity else 0)
  }

  /** Every line's demand, counted up to and including that line, fits the initial stock. */
  predicate Feasible(food: map<int, FoodItem>, js: seq<JoinedLine>)
  {
    forall k :: 0 <= k < |js| ==>
      js[k].foodItemId in food && Demand(js[..k + 1], js[k].foodItemId) <= food[js[k].foodItemId].quantity
  }

  /** The order lines of the settlement event, one per joined row. */
  function EventLines(orderId: int, js: seq<JoinedLine>): (ls: seq<OrderItem>)
    ensures |ls| == |js|
    ensures forall k :: 0 <= k < |js| ==> ls[k] == OrderItem(orderId, js[k].foodItemId, js[k].quantity)
  {
    if js == [] then []
    else EventLines(orderId, js[..|js| - 1]) + [OrderItem(orderId, js[|js| - 1].foodItemId, js[|js| - 1].quantity)]
  }

  /** The id-to-name map settlement fills from the joined rows. */
  function JoinNames(js: seq<JoinedLine>): (m: map<int, string>)
    ensures forall k :: 0 <= k < |js| ==> js[k].foodItemId in m
    ensures forall id :: id in m ==> exists k :: 0 <= k < |js| && js[k].foodItemId == id && js[k].name == m[id]
  {
    if js == [] then map[]
    else
      var l := js[|js| - 1];
      var m := JoinNames(js[..|js| - 1])[l.foodItemId := l.name];
      assert forall k :: 0 <= k < |js| - 1 ==> js[..|js| - 1][k] == js[k];
      m
  }

  /**
   * HandleTransactionHandler, from the opened transaction to the commit:
   * all or nothing, and it succeeds exactly when the caller's pending order
   * fits the stock and the commit goes through.
   */
  function Settle(t: Tables, orderId: int, caller: int, commitOk: bool): (o: Outcome<PublishRequest>)
    ensures o.result.Err? ==> o.after == t
    ensures o.after.lines == t.lines && o.after.nextOrderId == t.nextOrderId && o.after.orders.Keys == t.orders.Keys
    ensures o.result.Ok? <==>
      && orderId in t.orders && t.orders[orderId].userId == caller && t.orders[orderId].status == Pending
      && Feasible(t.food, Joined(t.food, t.lines, orderId)) && commitOk
  {
    if orderId !in t.orders then Outcome(t, Err(OrderNotFound))
    else if t.orders[orderId].userId != caller then Outcome(t, Err(Forbidden))
    else if t.orders[orderId].status != Pending then Outcome(t, Err(NotPending))
    else
      var js := Joined(t.food, t.lines, orderId);
      DecrementSucceedsIff(t.food, js);
      match Decrement(t.food, js)
      case Err(l) => Outcome(t, Err(InsufficientStock(l.foodItemId, l.name)))
      case Ok(f) =>
        if !commitOk then Outcome(t, Err(TransactionFailure))
        else
          var row := t.orders[orderId];
          Outcome(
            t.(food := f, orders := t.orders[orderId := row.(status := Completed)]),
            Ok(PublishRequest(Order(orderId, row.userId, EventLines(orderId, js), row.totalPrice, Completed), JoinNames(js))))
  }

  // ------------------------------------------------------------ the store

  /** The ordering service's database, updated in place by the two handlers. */
  class Store {
    var food: map<int, FoodItem>
    var orders: map<int, OrderRow>
    var lines: seq<OrderItem>
    var nextOrderId: int

    function Snapshot(): Tables
      reads this
    {
      Tables(food, orders, lines, nextOrderId)
    }

    ghost predicate Valid()
      reads this
    {
      WellFormed(Snapshot())
    }

    /** A store provisioned with a catalog and no orders; the id sequence starts at 1. */
    constructor (catalog: map<int, FoodItem>)
      requires StockNonNegative(catalog)
      ensures Valid()
      ensures Snapshot() == Tables(catalog, map[], [], 1)
    {
      food, orders, lines, nextOrderId := catalog, map[], [], 1;
    }

    /**
     * PlaceOrderHandler: look up and price every line on the snapshot, insert
     * the order and its lines, and commit them together or not at all.
     */
    method PlaceOrder(userId: int, items: seq<ItemRequest>, commitOk: bool) returns (r: Result<Placed, OrderError>)
      requires Valid()
      modifies this
      ensures Valid()
      ensures Outcome(Snapshot(), r) == Place(old(Snapshot()), userId, items, commitOk)
    {
      ghost var t := Snapshot();
      var priced := PriceItems(food, items);
      if priced.Err? {
        r := Err(FoodItemNotFound(items[priced.error].foodItemId));
        assert Place(t, userId, items, commitOk) == Outcome(t, r);
        return;
      }
      var orderId := nextOrderId;
      var newOrders := orders[orderId := OrderRow(userId, priced.value.total, Pending)];
      var newLines := InsertLines(orderId, items);
      if !commitOk {
        nextOrderId := orderId + 1;
        r := Err(TransactionFailure);
        assert Place(t, userId, items, commitOk) == Outcome(t.(nextOrderId := orderId + 1), r);
        return;
      }
      PlaceKeepsWellFormed(Snapshot(), userId, items, true);
      orders, lines, nextOrderId := newOrders, lines + newLines, orderId + 1;
      var order := Order(orderId, userId, newLines, priced.value.total, Pending);
      r := Ok(Placed(orderId, priced.value.total, PublishRequest(order, priced.value.names)));
    }

    /**
     * HandleTransactionHandler: check existence, ownership and status, scan
     * the joined lines, apply the conditional decrements to a snapshot of the
     * stock, mark the order completed, and commit all of it or nothing.
     */
    method SettleOrder(orderId: int, caller: int, commitOk: bool) returns (r: Result<PublishRequest, OrderError>)
      requires Valid()
      modifies this
      ensures Valid()
      ensures Outcome(Snapshot(), r) == Settle(old(Snapshot()), orderId, caller, commitOk)
    {
      if orderId !in orders {
        return Err(OrderNotFound);
      }
      var row := orders[orderId];
      if row.userId != caller {
        return Err(Forbidden);
      }
      if row.status != Pending {
        return Err(NotPending);
      }
      var js := ScanJoin(food, lines, orderId);
      var stock, names := ApplyDecrements(food, js);
      if stock.Err? {
        return Err(InsufficientStock(stock.error.foodItemId, stock.error.name));
      }
      var newOrders := orders[orderId := row.(status := Completed)];
      if !commitOk {
        return Err(TransactionFailure);
      }
      SettleKeepsWellFormed(Snapshot(), orderId, caller);
      food, orders := stock.value, newOrders;
      r := Ok(PublishRequest(Order(orderId, row.userId, EventLines(orderId, js), row.totalPrice, Completed), names));
    }
  }

  datatype Priced = Priced(total: int, names: map<int, string>)

  /**
   * The lookup loop of placement: price each line in request order and
   * collect the names, or stop at the first line whose food item is unknown.
   */
  method PriceItems(food: map<int, FoodItem>, items: seq<ItemRequest>) returns (r: Result<Priced, nat>)
    ensures AllKnown(food, items) ==> r == Ok(Priced(Total(food, items), Names(food, items)))
    ensures !AllKnown(food, items) ==> r == Err(FirstUnknown(food, items))
  {
    var total := 0;
    var names: map<int, string> := map[];
    var i := 0;
    while i < |items|
      invariant 0 <= i <= |items|
      invariant AllKnown(food, items[..i])
      invariant total == Total(food, items[..i])
      invariant names == Names(food, items[..i])
    {
      var item := items[i];
      if item.foodItemId !in food {
        FirstUnknownAt(food, items, i);
        return Err(i);
      }
      PriceStep(food, items, i);
      total := total + food[item.foodItemId].price * item.quantity;
      names := names[item.foodItemId := food[item.foodItemId].name];
      i := i + 1;
    }
    assert items[..i] == items;
    r := Ok(Priced(total, names));
  }

  lemma FirstUnknownAt(food: map<int, FoodItem>, items: seq<ItemRequest>, i: nat)
    requires i < |items| && AllKnown(food, items[..i]) && items[i].foodItemId !in food
    ensures !AllKnown(food, items) && FirstUnknown(food, items) == i
  {
    assert forall j :: 0 <= j < i ==> items[..i][j] == items[j];
  }

  lemma PriceStep(food: map<int, FoodItem>, items: seq<ItemRequest>, i: nat)
    requires i < |items| && AllKnown(food, items[..i]) && items[i].foodItemId in food
    ensures AllKnown(food, items[..i + 1])
    ensures Total(food, items[..i + 1]) == Total(food, items[..i]) + food[items[i].foodItemId].price * items[i].quantity
    ensures Names(food, items[..i + 1]) == Names(food, items[..i])[items[i].foodItemId := food[items[i].foodItemId].name]
  {
    assert items[..i + 1][..i] == items[..i];
  }

  /** The insert loop of placement: one order_items row per requested line. */
  method InsertLines(orderId: int, items: seq<ItemRequest>) returns (ls: seq<OrderItem>)
    ensures ls == LinesOf(orderId, items)
  {
    ls := [];
    var j := 0;
    while j < |items|
      invariant 0 <= j <= |items|
      invariant ls == LinesOf(orderId, items[..j])
    {
      assert items[..j + 1][..j] == items[..j];
      ls := ls + [OrderItem(orderId, items[j].foodItemId, items[j].quantity)];
      j := j + 1;
    }
    assert items[..j] == items;
  }

  /** The scan loop of settlement over the rows of the join query. */
  method ScanJoin(food: map<int, FoodItem>, lines: seq<OrderItem>, orderId: int) returns (js: seq<JoinedLine>)
    ensures js == Joined(food, lines, orderId)
  {
    js := [];
    var i := 0;
    while i < |lines|
      invariant 0 <= i <= |lines|
      invariant js == Joined(food, lines[..i], orderId)
    {
      assert lines[..i + 1][..i] == lines[..i];
      var l := lines[i];
      if l.orderId == orderId && l.foodItemId in food {
        js := js + [JoinedLine(l.foodItemId, l.quantity, food[l.foodItemId].name)];
      }
      i := i + 1;
    }
    assert lines[..i] == lines;
  }

  /**
   * The decrement loop of settlement, on a snapshot of the stock: each
   * conditional update either applies or ends the loop naming its line.
   */
  method ApplyDecrements(food: map<int, FoodItem>, js: seq<JoinedLine>)
    returns (r: Result<map<int, FoodItem>, JoinedLine>, names: map<int, string>)
    ensures r == Decrement(food, js)
    ensures r.Ok? ==> names == JoinNames(js)
  {
    var stock := food;
    names := map[];
    var k := 0;
    while k < |js|
      invariant 0 <= k <= |js|
      invariant Decrement(food, js[..k]) == Ok(stock)
      invariant names == JoinNames(js[..k])
    {
      var l := js[k];
      DecrementStep(food, js, k);
      var step := ConditionalDecrement(stock, l);
      if step.Err? {
        DecrementFailureSticks(food, js, k + 1);
        return Err(l), names;
      }
      stock := step.value;
      names := names[l.foodItemId := l.name];
      k := k + 1;
    }
    assert js[..k] == js;
    r := Ok(stock);
  }

  // ------------------------------------------------------------------ lemmas

  lemma DecrementStep(food: map<int, FoodItem>, js: seq<JoinedLine>, k: nat)
    requires k < |js|
    ensures Decrement(food, js[..k]).Ok? ==>
      Decrement(food, js[..k + 1]) == ConditionalDecrement(Decrement(food, js[..k]).value, js[k])
    ensures JoinNames(js[..k + 1]) == JoinNames(js[..k])[js[k].foodItemId := js[k].name]
  {
    assert js[..k + 1][..k] == js[..k];
  }

  /** Once a prefix of the decrements fails, the whole settlement fails on that line. */
  lemma {:induction false} DecrementFailureSticks(food: map<int, FoodItem>, js: seq<JoinedLine>, k: nat)
    requires k <= |js| && Decrement(food, js[..k]).Err?
    ensures Decrement(food, js) == Decrement(food, js[..k])
    decreases |js| - k
  {
    if k < |js| {
      assert js[..k + 1][..k] == js[..k];
      DecrementFailureSticks(food, js, k + 1);
    } else {
      assert js[..k] == js;
    }
  }

  /**
   * A successful run of decrements keeps the catalog's ids, names and prices,
   * and lowers each item's stock by exactly the quantity its lines ask for.
   */
  lemma {:induction false} DecrementExact(food: map<int, FoodItem>, js: seq<JoinedLine>)
    requires Decrement(food, js).Ok?
    ensures var f := Decrement(food, js).value;
      && f.Keys == food.Keys
      && forall id :: id in food ==>
           && f[id].name == food[id].name && f[id].price == food[id].price
           && f[id].quantity == food[id].quantity - Demand(js, id)
  {
    if js != [] {
      DecrementExact(food, js[..|js| - 1]);
    }
  }

  /** The conditional decrements all apply exactly when every line fits the stock its predecessors left. */
  lemma {:induction false} DecrementSucceedsIff(food: map<int, FoodItem>, js: seq<JoinedLine>)
    ensures Decrement(food, js).Ok? <==> Feasible(food, js)
  {
    if js != [] {
      var p := js[..|js| - 1];
      var l := js[|js| - 1];
      DecrementSucceedsIff(food, p);
      assert js[..|js|] == js;
      assert Feasible(food, js) <==> Feasible(food, p) && l.foodItemId in food && Demand(js, l.foodItemId) <= food[l.foodItemId].quantity by {
        forall k | 0 <= k < |p| ensures js[k] == p[k] && js[..k + 1] == p[..k + 1] { }
      }
      if Decrement(food, p).Ok? {
        DecrementExact(food, p);
      }
    }
  }

  /** The conditional decrement never drives an item below zero. */
  lemma {:induction false} DecrementKeepsStockNonNegative(food: map<int, FoodItem>, js: seq<JoinedLine>)
    requires StockNonNegative(food)
    requires Decrement(food, js).Ok?
    ensures StockNonNegative(Decrement(food, js).value)
  {
    if js != [] {
      DecrementKeepsStockNonNegative(food, js[..|js| - 1]);
    }
  }

  /** Placement keeps the foreign keys of order_items, the freshness of order ids and the stock. */
  lemma PlaceKeepsWellFormed(t: Tables, userId: int, items: seq<ItemRequest>, commitOk: bool)
    requires WellFormed(t)
    ensures WellFormed(Place(t, userId, items, commitOk).after)
  {
    if AllKnown(t.food, items) && commitOk {
      var u := Place(t, userId, items, true).after;
      var ls := LinesOf(t.nextOrderId, items);
      forall i | 0 <= i < |u.lines| ensures u.lines[i].foodItemId in u.food && u.lines[i].orderId in u.orders {
        if i >= |t.lines| {
          assert u.lines[i] == ls[i - |t.lines|];
        }
      }
    }
  }

  /** Settlement keeps the foreign keys of order_items, the freshness of order ids and the stock. */
  lemma SettleKeepsWellFormed(t: Tables, orderId: int, caller: int)
    requires WellFormed(t)
    ensures WellFormed(Settle(t, orderId, caller, true).after)
  {
    if orderId in t.orders && t.orders[orderId].userId == caller && t.orders[orderId].status == Pending {
      var js := Joined(t.food, t.lines, orderId);
      if Decrement(t.food, js).Ok? {
        DecrementExact(t.food, js);
        DecrementKeepsStockNonNegative(t.food, js);
      }
    }
  }

  /** Totals add up over concatenated requests. */
  lemma {:induction false} TotalAppend(food: map<int, FoodItem>, a: seq<ItemRequest>, b: seq<ItemRequest>)
    requires AllKnown(food, a) && AllKnown(food, b)
    ensures AllKnown(food, a + b)
    ensures Total(food, a + b) == Total(food, a) + Total(food, b)
  {
    assert AllKnown(food, a + b) by {
      forall i | 0 <= i < |a + b| ensures (a + b)[i].foodItemId in food {
        if i >= |a| { assert (a + b)[i] == b[i - |a|]; }
      }
    }
    if b == [] {
      assert a + b == a;
    } else {
      var b' := b[..|b| - 1];
      assert (a + b)[..|a + b| - 1] == a + b';
      TotalAppend(food, a, b');
    }
  }

  /** The total does not depend on the order in which the lines are requested: any permutation has the same total. */
  lemma {:induction false} OrderIndependentTotal(food: map<int, FoodItem>, a: seq<ItemRequest>, b: seq<ItemRequest>)
    requires AllKnown(food, a) && multiset(a) == multiset(b)
    ensures AllKnown(food, b)
    ensures Total(food, a) == Total(food, b)
    decreases |a|
  {
    assert AllKnown(food, b) by {
      forall i | 0 <= i < |b| ensures b[i].foodItemId in food {
        assert b[i] in multiset(a);
      }
    }
    if a != [] {
      var n := |a| - 1;
      var x := a[n];
      var a' := a[..n];
      assert a == a' + [x];
      assert x in multiset(b);
      var j :| 0 <= j < |b| && b[j] == x;
      var b1, b2 := b[..j], b[j + 1..];
      assert b == b1 + [x] + b2;
      MultisetCancel(a', x, b1, b2);
      TotalWithout(food, b1, x, b2);
      OrderIndependentTotal(food, a', b1 + b2);
    }
  }

  lemma MultisetCancel<T>(a: seq<T>, x: T, b1: seq<T>, b2: seq<T>)
    requires multiset(a + [x]) == multiset(b1 + [x] + b2)
    ensures multiset(a) == multiset(b1 + b2)
  {
    assert multiset(b1 + [x] + b2) == multiset(b1) + multiset([x]) + multiset(b2);
    assert multiset(a + [x]) == multiset(a) + multiset([x]);
    assert multiset(b1 + b2) == multiset(b1) + multiset(b2);
    forall y ensures multiset(b1 + b2)[y] == multiset(a)[y] {
      assert (multiset(b1 + b2) + multiset([x]))[y] == (multiset(a) + multiset([x]))[y];
    }
  }

  /** Taking one line out of a request lowers its total by that line's price times quantity. */
  lemma TotalWithout(food: map<int, FoodItem>, b1: seq<ItemRequest>, x: ItemRequest, b2: seq<ItemRequest>)
    requires AllKnown(food, b1 + [x] + b2)
    ensures AllKnown(food, b1 + b2) && x.foodItemId in food
    ensures Total(food, b1 + [x] + b2) == Total(food, b1 + b2) + food[x.foodItemId].price * x.quantity
  {
    var b := b1 + [x] + b2;
    assert AllKnown(food, b1) && AllKnown(food, b2) && AllKnown(food, [x]) by {
      forall i | 0 <= i < |b1| ensures b1[i].foodItemId in food { assert b1[i] == b[i]; }
      forall i | 0 <= i < |b2| ensures b2[i].foodItemId in food { assert b2[i] == b[|b1| + 1 + i]; }
      assert x == b[|b1|];
    }
    assert [x][..0] == [];
    TotalAppend(food, b1, [x]);
    TotalAppend(food, b1 + [x], b2);
    TotalAppend(food, b1, b2);
  }

  /** Placement naming an unknown food item fails with that item and writes nothing. */
  lemma PlaceUnknownItemFails(t: Tables, userId: int, items: seq<ItemRequest>, commitOk: bool, i: nat)
    requires i < |items| && items[i].foodItemId !in t.food
    ensures var o := Place(t, userId, items, commitOk);
      && o.after == t
      && o.result.Err? && o.result.error.FoodItemNotFound?
      && o.result.error.foodItemId !in t.food
  {
  }

  /**
   * A committed placement adds exactly one pending order owned by the caller,
   * under a fresh id, with one line per requested line, and leaves the
   * catalog alone; its total is the priced sum of the request.
   */
  lemma PlaceSucceeds(t: Tables, userId: int, items: seq<ItemRequest>)
    requires WellFormed(t) && AllKnown(t.food, items)
    ensures var o := Place(t, userId, items, true);
      var id := t.nextOrderId;
      && id !in t.orders
      && o.result == Ok(Placed(id, Total(t.food, items), o.result.value.publish))
      && o.after.food == t.food
      && o.after.orders.Keys == t.orders.Keys + {id}
      && (forall k :: k in t.orders ==> o.after.orders[k] == t.orders[k])
      && o.after.orders[id] == OrderRow(userId, Total(t.food, items), Pending)
      && |o.after.lines| == |t.lines| + |items|
      && o.after.lines[..|t.lines|] == t.lines
      && (forall i :: 0 <= i < |items| ==>
            o.after.lines[|t.lines| + i] == OrderItem(id, items[i].foodItemId, items[i].quantity))
  {
    var o := Place(t, userId, items, true);
    assert o.after.lines == t.lines + LinesOf(t.nextOrderId, items);
  }

  /**
   * Settlement is refused, without touching any table, for a missing order,
   * then for a caller who does not own it, then for an order that is not pending.
   */
  lemma SettleRefusals(t: Tables, orderId: int, caller: int, commitOk: bool)
    ensures var o := Settle(t, orderId, caller, commitOk);
      && (orderId !in t.orders ==> o == Outcome(t, Err(OrderNotFound)))
      && (orderId in t.orders && t.orders[orderId].userId != caller ==> o == Outcome(t, Err(Forbidden)))
      && (orderId in t.orders && t.orders[orderId].userId == caller && t.orders[orderId].status != Pending ==>
            o == Outcome(t, Err(NotPending)))
  {
  }

  /**
   * A pending order whose lines do not all fit the stock fails on the first
   * line that does not fit: every line before it fits, and its own
   * cumulative demand exceeds its item's stock. No stock and no order
   * status changes.
   */
  lemma SettleInsufficientStock(t: Tables, orderId: int, caller: int, commitOk: bool)
    requires orderId in t.orders && t.orders[orderId].userId == caller && t.orders[orderId].status == Pending
    requires !Feasible(t.food, Joined(t.food, t.lines, orderId))
    ensures var o := Settle(t, orderId, caller, commitOk);
      var js := Joined(t.food, t.lines, orderId);
      && o.after == t
      && o.result.Err? && o.result.error.InsufficientStock?
      && exists k :: 0 <= k < |js|
           && o.result.error == InsufficientStock(js[k].foodItemId, js[k].name)
           && Feasible(t.food, js[..k])
           && Demand(js[..k + 1], js[k].foodItemId) > t.food[js[k].foodItemId].quantity
  {
    var js := Joined(t.food, t.lines, orderId);
    DecrementSucceedsIff(t.food, js);
    DecrementFailureNamesALine(t.food, js);
  }

  /**
   * A failed run of decrements names the first line that does not fit:
   * every line before it fits, and it does not.
   */
  lemma {:induction false} DecrementFailureNamesALine(food: map<int, FoodItem>, js: seq<JoinedLine>)
    requires Decrement(food, js).Err?
    ensures exists k ::
      (&& 0 <= k < |js| && js[k] == Decrement(food, js).error && Feasible(food, js[..k])
       && !(js[k].foodItemId in food && Demand(js[..k + 1], js[k].foodItemId) <= food[js[k].foodItemId].quantity))
  {
    var n := |js| - 1;
    var p := js[..n];
    if Decrement(food, p).Err? {
      DecrementFailureNamesALine(food, p);
      var k :| 0 <= k < |p| && p[k] == Decrement(food, p).error && Feasible(food, p[..k])
        && !(p[k].foodItemId in food && Demand(p[..k + 1], p[k].foodItemId) <= food[p[k].foodItemId].quantity);
      assert js[k] == p[k] && js[..k] == p[..k] && js[..k + 1] == p[..k + 1];
    } else {
      var l := js[n];
      assert js[..n + 1] == js;
      DecrementSucceedsIff(food, p);
      DecrementExact(food, p);
      assert l == Decrement(food, js).error;
      assert Feasible(food, js[..n]);
    }
  }

  /**
   * A committed settlement completes the order, lowers each item's stock by
   * exactly the quantity the order's lines ask for, keeps the stock
   * non-negative, and changes no other order and no line.
   */
  lemma SettleSucceeds(t: Tables, orderId: int, caller: int)
    requires StockNonNegative(t.food)
    requires Settle(t, orderId, caller, true).result.Ok?
    ensures var o := Settle(t, orderId, caller, true);
      var js := Joined(t.food, t.lines, orderId);
      && o.after.orders == t.orders[orderId := t.orders[orderId].(status := Completed)]
      && o.after.lines == t.lines
      && o.after.food.Keys == t.food.Keys
      && (forall id :: id in t.food ==>
            o.after.food[id] == t.food[id].(quantity := t.food[id].quantity - Demand(js, id)))
      && (forall id :: id in t.food ==>
            o.after.food[id].quantity == t.food[id].quantity - OrderDemand(t.lines, orderId, id))
      && StockNonNegative(o.after.food)
  {
    forall id | id in t.food ensures Demand(Joined(t.food, t.lines, orderId), id) == OrderDemand(t.lines, orderId, id) {
      JoinedDemand(t.food, t.lines, orderId, id);
    }
    var js := Joined(t.food, t.lines, orderId);
    DecrementExact(t.food, js);
    DecrementKeepsStockNonNegative(t.food, js);
  }

  /**
   * The join asks of each existing food item exactly what the order's lines
   * ask of it, and nothing of an item that does not exist.
   */
  lemma {:induction false} JoinedDemand(food: map<int, FoodItem>, lines: seq<OrderItem>, orderId: int, id: int)
    ensures Demand(Joined(food, lines, orderId), id) == if id in food then OrderDemand(lines, orderId, id) else 0
  {
    if lines != [] {
      var n := |lines| - 1;
      var l := lines[n];
      var rest := Joined(food, lines[..n], orderId);
      JoinedDemand(food, lines[..n], orderId, id);
      if l.orderId == orderId && l.foodItemId in food {
        var x := JoinedLine(l.foodItemId, l.quantity, food[l.foodItemId].name);
        var js := rest + [x];
        assert Joined(food, lines, orderId) == js;
        assert js[..|js| - 1] == rest;
        assert Demand(js, id) == Demand(rest, id) + (if x.foodItemId == id then x.quantity else 0);
      } else {
        assert Joined(food, lines, orderId) == rest;
      }
    }
  }

  /** `j` is, food item and quantity, one of the order_items rows of `orderId`. */
  predicate FromOrder(lines: seq<OrderItem>, orderId: int, j: JoinedLine)
  {
    exists i :: 0 <= i < |lines| && lines[i] == OrderItem(orderId, j.foodItemId, j.quantity)
  }

  /** Every joined row is one of the order's own lines, with its food item and quantity. */
  lemma {:induction false} JoinedFromOrderLines(food: map<int, FoodItem>, lines: seq<OrderItem>, orderId: int)
    ensures forall k :: 0 <= k < |Joined(food, lines, orderId)| ==> FromOrder(lines, orderId, Joined(food, lines, orderId)[k])
    decreases |lines|
  {
    if lines != [] {
      var n := |lines| - 1;
      var l := lines[n];
      var js := Joined(food, lines, orderId);
      var rest := Joined(food, lines[..n], orderId);
      JoinedFromOrderLines(food, lines[..n], orderId);
      forall k | 0 <= k < |js| ensures FromOrder(lines, orderId, js[k]) {
        if k < |rest| {
          assert js[k] == rest[k];
          assert FromOrder(lines[..n], orderId, rest[k]);
          var i :| 0 <= i < n && lines[..n][i] == OrderItem(orderId, rest[k].foodItemId, rest[k].quantity);
          assert lines[i] == lines[..n][i];
        } else {
          assert js[k] == JoinedLine(l.foodItemId, l.quantity, food[l.foodItemId].name);
          assert lines[n] == OrderItem(orderId, js[k].foodItemId, js[k].quantity);
        }
      }
    }
  }

  /**
   * The join holds each order_items row of `orderId` whose food item exists,
   * as often as the row occurs, with the item's current name, and nothing else.
   */
  lemma {:induction false} JoinedCounts(food: map<int, FoodItem>, lines: seq<OrderItem>, orderId: int)
    ensures forall j: JoinedLine :: multiset(Joined(food, lines, orderId))[j]
              == if j.foodItemId in food && j.name == food[j.foodItemId].name
                 then multiset(lines)[OrderItem(orderId, j.foodItemId, j.quantity)] else 0
    decreases |lines|
  {
    if lines != [] {
      var n := |lines| - 1;
      var l := lines[n];
      var rest := Joined(food, lines[..n], orderId);
      JoinedCounts(food, lines[..n], orderId);
      assert lines == lines[..n] + [l];
      assert multiset(lines) == multiset(lines[..n]) + multiset{l};
      if l.orderId == orderId && l.foodItemId in food {
        var x := JoinedLine(l.foodItemId, l.quantity, food[l.foodItemId].name);
        assert Joined(food, lines, orderId) == rest + [x];
        assert multiset(Joined(food, lines, orderId)) == multiset(rest) + multiset{x};
      } else {
        assert Joined(food, lines, orderId) == rest;
      }
    }
  }

  /** Settling the same order a second time is refused as not pending and changes nothing. */
  lemma SettleTwiceFails(t: Tables, orderId: int, caller: int, commitOk: bool)
    requires Settle(t, orderId, caller, true).result.Ok?
    ensures var u := Settle(t, orderId, caller, true).after;
      Settle(u, orderId, caller, commitOk) == Outcome(u, Err(NotPending))
  {
  }

  /** Placement and settlement never drive any stock below zero. */
  lemma StepsKeepStockNonNegative(t: Tables, userId: int, items: seq<ItemRequest>, orderId: int, caller: int, c: bool)
    requires StockNonNegative(t.food)
    ensures StockNonNegative(Place(t, userId, items, c).after.food)
    ensures StockNonNegative(Settle(t, orderId, caller, c).after.food)
  {
    if Settle(t, orderId, caller, c).result.Ok? {
      DecrementKeepsStockNonNegative(t.food, Joined(t.food, t.lines, orderId));
    }
  }

  /**
   * The settlement event names each line with the food name current at
   * settlement and carries the order's owner, total and the completed status;
   * its key reads back as the order id.
   */
  lemma SettlementEvent(t: Tables, orderId: int, caller: int, now: int)
    requires Settle(t, orderId, caller, true).result.Ok?
    ensures var req := Settle(t, orderId, caller, true).result.value;
      var e := Producer.BuildEvent(req.order, req.names, now);
      var js := Joined(t.food, t.lines, orderId);
      && e.orderId == orderId && e.userId == caller && e.status == Completed
      && e.totalPrice == t.orders[orderId].totalPrice
      && |e.items| == |js|
      && (forall k :: 0 <= k < |js| ==>
            e.items[k] == Item(js[k].foodItemId, t.food[js[k].foodItemId].name, js[k].quantity))
      && Strconv.Atoi(Producer.MessageKey(e.orderId)) == Some(orderId)
  {
    var req := Settle(t, orderId, caller, true).result.value;
    var js := Joined(t.food, t.lines, orderId);
    var e := Producer.BuildEvent(req.order, req.names, now);
    forall k | 0 <= k < |js|
      ensures e.items[k] == Item(js[k].foodItemId, t.food[js[k].foodItemId].name, js[k].quantity)
    {
      var id := js[k].foodItemId;
      assert id in req.names;
      var j :| 0 <= j < |js| && js[j].foodItemId == id && js[j].name == req.names[id];
    }
  }

  /**
   * The placement event lists the requested lines in order, each with the
   * food name read during placement, and the pending status.
   */
  lemma PlacementEvent(t: Tables, userId: int, items: seq<ItemRequest>, now: int)
    requires Place(t, userId, items, true).result.Ok?
    ensures var p := Place(t, userId, items, true).result.value;
      var e := Producer.BuildEvent(p.publish.order, p.publish.names, now);
      && e.orderId == p.orderId && e.userId == userId && e.status == Pending && e.totalPrice == p.totalPrice
      && |e.items| == |items|
      && (forall i :: 0 <= i < |items| ==>
            e.items[i] == Item(items[i].foodItemId, t.food[items[i].foodItemId].name, items[i].quantity))
  {
    var p := Place(t, userId, items, true).result.value;
    var e := Producer.BuildEvent(p.publish.order, p.publish.names, now);
    forall i | 0 <= i < |items|
      ensures e.items[i] == Item(items[i].foodItemId, t.food[items[i].foodItemId].name, items[i].quantity)
    {
      assert items[i].foodItemId in Ids(items);
    }
  }

  // ------------------------------------------------------------------ traces

  /** One committed or failed request to either handler. */
  datatype Request =
    | Placement(userId: int, items: seq<ItemRequest>, commitOk: bool)
    | Settlement(orderId: int, caller: int, commitOk: bool)

  function Apply(t: Tables, q: Request): Tables
  {
    match q
    case Placement(u, items, c) => Place(t, u, items, c).after
    case Settlement(o, u, c) => Settle(t, o, u, c).after
  }

  /** The tables after the requests, one transaction after another, in the order they committed. */
  function Run(t: Tables, qs: seq<Request>): Tables
  {
    if qs == [] then t else Apply(Run(t, qs[..|qs| - 1]), qs[|qs| - 1])
  }

  /**
   * Whatever requests arrive and in whatever order their transactions
   * commit, the foreign keys hold and no food item's stock goes below zero.
   */
  lemma {:induction false} RunKeepsWellFormed(t: Tables, qs: seq<Request>)
    requires WellFormed(t)
    ensures WellFormed(Run(t, qs))
    ensures StockNonNegative(Run(t, qs).food)
  {
    if qs != [] {
      var before := Run(t, qs[..|qs| - 1]);
      RunKeepsWellFormed(t, qs[..|qs| - 1]);
      match qs[|qs| - 1]
      case Placement(u, items, c) =>
        PlaceKeepsWellFormed(before, u, items, c);
      case Settlement(o, u, c) =>
        if c { SettleKeepsWellFormed(before, o, u); }
    }
  }
}
