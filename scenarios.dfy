/**
 * Four concrete runs of the ordering handlers, evaluated on their
 * specification functions, over a catalog of two dishes at 10.00
 * (1000 cents) each: a placement, a settlement that lacks stock, one that
 * succeeds, and two orders competing for the last units of a dish; and, on
 * the decrements alone, a pair of lines whose verdict depends on their order.
 */
module OrderScenarios {
  import opened Wrappers
  import opened Models
  import opened OrderStore

  function Catalog(stock1: int, stock2: int): map<int, FoodItem>
  {
    map[1 := FoodItem("Butter Chicken", 1000, stock1), 2 := FoodItem("Paneer Tikka", 1000, stock2)]
  }

  function Request(): seq<ItemRequest>
  {
    [ItemRequest(1, 2), ItemRequest(2, 1)]
  }

  /** Scenario A: two of item 1 and one of item 2 cost 30.00 and make a pending order. */
  lemma ScenarioA(stock1: int, stock2: int, userId: int)
    ensures var o := Place(Tables(Catalog(stock1, stock2), map[], [], 1), userId, Request(), true);
      && o.result.Ok? && o.result.value.orderId == 1 && o.result.value.totalPrice == 3000
      && o.after.orders[1] == OrderRow(userId, 3000, Pending)
      && o.after.lines == [OrderItem(1, 1, 2), OrderItem(1, 2, 1)]
  {
    var items := Request();
    var food := Catalog(stock1, stock2);
    assert items[..1] == [ItemRequest(1, 2)] && items[..1][..0] == [];
    assert Total(food, items[..1]) == 2000;
    assert Total(food, items) == Total(food, items[..1]) + 1000;
  }

  /**
   * Scenario B: with one unit of item 1 left, settling that order fails on
   * item 1 and item 2's stock stays as it was although it would suffice.
   */
  lemma ScenarioB(userId: int, commitOk: bool)
    ensures var t := Tables(Catalog(1, 10), map[1 := OrderRow(userId, 3000, Pending)], [OrderItem(1, 1, 2), OrderItem(1, 2, 1)], 2);
      var o := Settle(t, 1, userId, commitOk);
      && o.result == Err(InsufficientStock(1, "Butter Chicken"))
      && o.after == t
      && o.after.food[2].quantity == 10
      && o.after.orders[1].status == Pending
  {
    var t := Tables(Catalog(1, 10), map[1 := OrderRow(userId, 3000, Pending)], [OrderItem(1, 1, 2), OrderItem(1, 2, 1)], 2);
    var js := [JoinedLine(1, 2, "Butter Chicken"), JoinedLine(2, 1, "Paneer Tikka")];
    assert t.lines[..1] == [OrderItem(1, 1, 2)] && t.lines[..1][..0] == [];
    assert Joined(t.food, t.lines, 1) == js;
    assert js[..1] == [JoinedLine(1, 2, "Butter Chicken")] && js[..1][..0] == [];
    assert Decrement(t.food, js[..1]) == Err(JoinedLine(1, 2, "Butter Chicken"));
    DecrementFailureSticks(t.food, js, 1);
  }

  /**
   * Scenario C: with enough stock, settlement completes the order and lowers
   * each stock by exactly the requested quantity.
   */
  lemma ScenarioC(userId: int)
    ensures var t := Tables(Catalog(1000, 1000), map[1 := OrderRow(userId, 3000, Pending)], [OrderItem(1, 1, 2), OrderItem(1, 2, 1)], 2);
      var o := Settle(t, 1, userId, true);
      && o.result.Ok?
      && o.after.orders[1].status == Completed
      && o.after.food == Catalog(998, 999)
  {
    var t := Tables(Catalog(1000, 1000), map[1 := OrderRow(userId, 3000, Pending)], [OrderItem(1, 1, 2), OrderItem(1, 2, 1)], 2);
    ScenarioCJoin();
    ScenarioCStock();
    assert Settle(t, 1, userId, true).after == t.(food := Catalog(998, 999), orders := t.orders[1 := OrderRow(userId, 3000, Completed)]);
  }

  /** The join of Scenario C: both lines of order 1, in order, with their names. */
  lemma ScenarioCJoin()
    ensures Joined(Catalog(1000, 1000), [OrderItem(1, 1, 2), OrderItem(1, 2, 1)], 1)
            == [JoinedLine(1, 2, "Butter Chicken"), JoinedLine(2, 1, "Paneer Tikka")]
  {
    var lines := [OrderItem(1, 1, 2), OrderItem(1, 2, 1)];
    assert lines[..1] == [OrderItem(1, 1, 2)] && lines[..1][..0] == [];
  }

  /** The decrements of Scenario C: 1000 - 2 and 1000 - 1. */
  lemma ScenarioCStock()
    ensures Decrement(Catalog(1000, 1000), [JoinedLine(1, 2, "Butter Chicken"), JoinedLine(2, 1, "Paneer Tikka")])
            == Ok(Catalog(998, 999))
  {
    var food := Catalog(1000, 1000);
    var js := [JoinedLine(1, 2, "Butter Chicken"), JoinedLine(2, 1, "Paneer Tikka")];
    assert js[..1] == [JoinedLine(1, 2, "Butter Chicken")] && js[..1][..0] == [];
    var f1 := food[1 := FoodItem("Butter Chicken", 1000, 998)];
    assert Decrement(food, js[..1]) == Ok(f1);
    DecrementStep(food, js, 1);
    assert js[..2] == js;
    assert f1[2 := FoodItem("Paneer Tikka", 1000, 999)] == Catalog(998, 999);
  }

  /**
   * Scenario D: two orders each want the last 5 units of item 1. Settled one
   * after the other, the first succeeds and leaves the tables `u`; on `u`
   * the second fails on item 1 and changes nothing, so the stock stays at zero.
   */
  lemma ScenarioD(alice: int, bob: int)
    ensures var t := Tables(Catalog(5, 0),
                            map[1 := OrderRow(alice, 5000, Pending), 2 := OrderRow(bob, 5000, Pending)],
                            [OrderItem(1, 1, 5), OrderItem(2, 1, 5)], 3);
      var u := Tables(Catalog(0, 0),
                      map[1 := OrderRow(alice, 5000, Completed), 2 := OrderRow(bob, 5000, Pending)],
                      [OrderItem(1, 1, 5), OrderItem(2, 1, 5)], 3);
      && Settle(t, 1, alice, true).result.Ok?
      && Settle(t, 1, alice, true).after == u
      && Settle(u, 2, bob, true) == Outcome(u, Err(InsufficientStock(1, "Butter Chicken")))
      && u.food[1].quantity == 0
  {
    ScenarioDFirst(alice, bob);
    ScenarioDSecond(alice, bob);
  }

  /** The first settlement of Scenario D drains item 1 and completes order 1. */
  lemma ScenarioDFirst(alice: int, bob: int)
    ensures var t := Tables(Catalog(5, 0),
                            map[1 := OrderRow(alice, 5000, Pending), 2 := OrderRow(bob, 5000, Pending)],
                            [OrderItem(1, 1, 5), OrderItem(2, 1, 5)], 3);
      var first := Settle(t, 1, alice, true);
      && first.result.Ok?
      && first.after == Tables(Catalog(0, 0),
                               map[1 := OrderRow(alice, 5000, Completed), 2 := OrderRow(bob, 5000, Pending)],
                               [OrderItem(1, 1, 5), OrderItem(2, 1, 5)], 3)
  {
    var t := Tables(Catalog(5, 0),
                    map[1 := OrderRow(alice, 5000, Pending), 2 := OrderRow(bob, 5000, Pending)],
                    [OrderItem(1, 1, 5), OrderItem(2, 1, 5)], 3);
    ScenarioDJoins();
    ScenarioDStock();
    var completed := map[1 := OrderRow(alice, 5000, Completed), 2 := OrderRow(bob, 5000, Pending)];
    assert t.orders[1 := t.orders[1].(status := Completed)] == completed;
    var js := [JoinedLine(1, 5, "Butter Chicken")];
    var req := PublishRequest(Order(1, alice, EventLines(1, js), 5000, Completed), JoinNames(js));
    assert Settle(t, 1, alice, true) == Outcome(t.(food := Catalog(0, 0), orders := completed), Ok(req));
  }

  /** The second settlement of Scenario D finds item 1 drained and changes nothing. */
  lemma ScenarioDSecond(alice: int, bob: int)
    ensures var u := Tables(Catalog(0, 0),
                            map[1 := OrderRow(alice, 5000, Completed), 2 := OrderRow(bob, 5000, Pending)],
                            [OrderItem(1, 1, 5), OrderItem(2, 1, 5)], 3);
      Settle(u, 2, bob, true) == Outcome(u, Err(InsufficientStock(1, "Butter Chicken")))
  {
    ScenarioDJoins();
    ScenarioDStock();
  }

  /** The decrements of Scenario D: the first order drains item 1, and the second then finds nothing left. */
  lemma ScenarioDStock()
    ensures Decrement(Catalog(5, 0), [JoinedLine(1, 5, "Butter Chicken")]) == Ok(Catalog(0, 0))
    ensures Decrement(Catalog(0, 0), [JoinedLine(1, 5, "Butter Chicken")]) == Err(JoinedLine(1, 5, "Butter Chicken"))
  {
    var line := JoinedLine(1, 5, "Butter Chicken");
    assert [line][..0] == [];
    assert Catalog(5, 0)[1 := FoodItem("Butter Chicken", 1000, 0)] == Catalog(0, 0);
  }

  /** The joins of Scenario D: each order has its one line of five units of item 1, before and after the drain. */
  lemma ScenarioDJoins()
    ensures Joined(Catalog(5, 0), [OrderItem(1, 1, 5), OrderItem(2, 1, 5)], 1) == [JoinedLine(1, 5, "Butter Chicken")]
    ensures Joined(Catalog(0, 0), [OrderItem(1, 1, 5), OrderItem(2, 1, 5)], 2) == [JoinedLine(1, 5, "Butter Chicken")]
  {
    var lines := [OrderItem(1, 1, 5), OrderItem(2, 1, 5)];
    assert lines[..1] == [OrderItem(1, 1, 5)] && lines[..1][..0] == [];
    assert Joined(Catalog(5, 0), lines[..1], 1) == [JoinedLine(1, 5, "Butter Chicken")];
    assert Joined(Catalog(0, 0), lines[..1], 2) == [];
  }

  /**
   * Scenario E: with no stock left, a line of 5 followed by a line of -5 fails
   * on the first, while the same two lines the other way round succeed and
   * leave the stock at zero. The join query fixes no row order, so the
   * verdict of settlement depends on the order in which the rows come back.
   */
  lemma ScenarioE()
    ensures Decrement(Catalog(0, 0), [JoinedLine(1, 5, "Butter Chicken"), JoinedLine(1, -5, "Butter Chicken")])
            == Err(JoinedLine(1, 5, "Butter Chicken"))
    ensures Decrement(Catalog(0, 0), [JoinedLine(1, -5, "Butter Chicken"), JoinedLine(1, 5, "Butter Chicken")])
            == Ok(Catalog(0, 0))
  {
    var up := JoinedLine(1, 5, "Butter Chicken");
    var down := JoinedLine(1, -5, "Butter Chicken");
    assert [up, down][..1] == [up] && [up][..0] == [];
    assert [down, up][..1] == [down] && [down][..0] == [];
    var raised := Catalog(5, 0);
    assert Catalog(0, 0)[1 := FoodItem("Butter Chicken", 1000, 5)] == raised;
    assert Decrement(Catalog(0, 0), [down]) == Ok(raised);
    assert raised[1 := FoodItem("Butter Chicken", 1000, 0)] == Catalog(0, 0);
  }
}
