/**
 * Event publication of the ordering service: building an OrderEvent from an
 * Order and an id-to-name map, its message key, and one write to the
 * orders topic. Serialization and the broker write are given from outside:
 * `marshal` stands for json.Marshal and `writeOk` for whether the write
 * reached the broker; `now` is the clock reading taken for the timestamp.
 */
module Producer {
  import opened Wrappers
  import opened Models
  import Strconv

  datatype PublishError = MarshalFailed | WriteFailed

  /** Go's map index: the name stored for `id`, or "" when there is none. */
  function NameOf(names: map<int, string>, id: int): string
  {
    if id in names then names[id] else ""
  }

  /** The event lines: one per order line, in order, with the name snapshot. */
  function EventItems(items: seq<OrderItem>, names: map<int, string>): (r: seq<Item>)
    ensures |r| == |items|
    ensures forall i :: 0 <= i < |items| ==>
      r[i] == Item(items[i].foodItemId, NameOf(names, items[i].foodItemId), items[i].quantity)
  {
    if items == [] then []
    else
      var last := items[|items| - 1];
      EventItems(items[..|items| - 1], names) + [Item(last.foodItemId, NameOf(names, last.foodItemId), last.quantity)]
  }

  /** The event for `order`: its identity, owner, total and status, its lines, and the time. */
  function BuildEvent(order: Order, names: map<int, string>, now: int): (e: OrderEvent)
    ensures e.orderId == order.id && e.userId == order.userId
    ensures e.totalPrice == order.totalPrice && e.status == order.status && e.timestamp == now
    ensures |e.items| == |order.items|
    ensures forall i :: 0 <= i < |order.items| ==>
      && e.items[i].foodItemId == order.items[i].foodItemId
      && e.items[i].quantity == order.items[i].quantity
      && e.items[i].name == NameOf(names, order.items[i].foodItemId)
  {
    OrderEvent(order.id, order.userId, order.totalPrice, order.status, EventItems(order.items, names), now)
  }

  /** The message key: the decimal spelling of the order id, which reads back as that id. */
  function MessageKey(orderId: int): (key: string)
    ensures Strconv.Atoi(key) == Some(orderId)
    ensures |key| > 0
  {
    Strconv.ItoaRoundTrip(orderId);
    Strconv.Itoa(orderId)
  }

  /** The orders topic as the producer sees it: the messages written so far. */
  class Topic {
    var messages: seq<Message>

    constructor ()
      ensures messages == []
    {
      messages := [];
    }
  }

  /**
   * PublishOrderEvent: serialize the event, then write one message keyed by
   * the order id. Either failure is returned as an error and nothing is
   * written; otherwise exactly one message is appended.
   */
  method PublishOrderEvent(topic: Topic, order: Order, names: map<int, string>, now: int,
                           marshal: OrderEvent -> Option<seq<Byte>>, writeOk: bool)
    returns (err: Option<PublishError>)
    modifies topic
    ensures marshal(BuildEvent(order, names, now)).None? ==>
      err == Some(MarshalFailed) && topic.messages == old(topic.messages)
    ensures marshal(BuildEvent(order, names, now)).Some? && !writeOk ==>
      err == Some(WriteFailed) && topic.messages == old(topic.messages)
    ensures marshal(BuildEvent(order, names, now)).Some? && writeOk ==>
      && err == None
      && topic.messages == old(topic.messages)
                           + [Message(MessageKey(order.id), marshal(BuildEvent(order, names, now)).value)]
  {
    var event := BuildEvent(order, names, now);
    var value := marshal(event);
    if value.None? {
      return Some(MarshalFailed);
    }
    if !writeOk {
      return Some(WriteFailed);
    }
    topic.messages := topic.messages + [Message(MessageKey(event.orderId), value.value)];
    err := None;
  }
}
