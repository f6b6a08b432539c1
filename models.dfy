/**
 * The records of both services. Prices and totals are integer cents (the
 * store keeps NUMERIC(10,2)); row identities are the keys of the tables
 * that hold the rows.
 */
module Models {
  /** Order status values written by the ordering service. */
  const Pending: string := "pending"
  const Completed: string := "completed"

  /** A food_items row; its id is its key in the food table. */
  datatype FoodItem = FoodItem(name: string, price: int, quantity: int)

  /** An orders row; its id is its key in the orders table. */
  datatype OrderRow = OrderRow(userId: int, totalPrice: int, status: string)

  /** An order_items row, and the line of an Order handed to the publisher. */
  datatype OrderItem = OrderItem(orderId: int, foodItemId: int, quantity: int)

  /** An order as handed to the publisher: the row plus its line items. */
  datatype Order = Order(id: int, userId: int, items: seq<OrderItem>, totalPrice: int, status: string)

  /** One requested line of a place-order request. */
  datatype ItemRequest = ItemRequest(foodItemId: int, quantity: int)

  /** One line of an order event, with the food name snapshot. */
  datatype Item = Item(foodItemId: int, name: string, quantity: int)

  /** The event both services exchange (same JSON shape on both sides). */
  datatype OrderEvent = OrderEvent(
    orderId: int, userId: int, totalPrice: int, status: string, items: seq<Item>, timestamp: int)

  /** A message on the orders topic: key and serialized value. */
  newtype Byte = x: int | 0 <= x < 256
  datatype Message = Message(key: string, value: seq<Byte>)

  /** A users row of the feedback service. */
  datatype User = User(id: nat, username: string, email: string)

  /** A feedbacks row; `deleted` stands for a set deleted_at (soft delete). */
  datatype Feedback = Feedback(
    id: nat, orderId: nat, userId: nat, rating: nat, comment: string, deleted: bool)
}
