/**
 * The feedback service's database: the users table, which the order-event
 * consumer fills lazily, and the feedbacks table the HTTP handlers work on.
 * Both components write the same database, so one object holds both tables.
 */
module FeedbackDb {
  import opened Models

  /** Primary keys match the rows, and usernames and emails are unique. */
  ghost predicate UsersValid(users: map<nat, User>)
  {
    && (forall id :: id in users ==> users[id].id == id)
    && (forall a, b :: a in users && b in users && a != b ==>
          users[a].username != users[b].username && users[a].email != users[b].email)
  }

  /** A row the queries see: GORM leaves soft-deleted rows out. */
  predicate Visible(f: Feedback) { !f.deleted }

  /** The caller already has a visible feedback for this order. */
  predicate HasFeedback(rows: seq<Feedback>, orderId: nat, userId: nat)
  {
    exists i :: 0 <= i < |rows| && Visible(rows[i]) && rows[i].orderId == orderId && rows[i].userId == userId
  }

  /**
   * Ids are distinct and below the id sequence, every row references a
   * user (the foreign key of Feedback.User), visible ratings are 1 to 5, and
   * there is at most one visible feedback per order and user.
   */
  ghost predicate FeedbackValid(rows: seq<Feedback>, users: map<nat, User>, nextId: nat)
  {
    && (forall i :: 0 <= i < |rows| ==> rows[i].id < nextId && rows[i].userId in users)
    && (forall i, j :: 0 <= i < j < |rows| ==> rows[i].id != rows[j].id)
    && (forall i :: 0 <= i < |rows| && Visible(rows[i]) ==> 1 <= rows[i].rating <= 5)
    && (forall i, j :: 0 <= i < j < |rows| && Visible(rows[i]) && Visible(rows[j]) ==>
          rows[i].orderId != rows[j].orderId || rows[i].userId != rows[j].userId)
  }

  class Database {
    var users: map<nat, User>
    var feedback: seq<Feedback>
    var nextFeedbackId: nat

    ghost predicate Valid()
      reads this
    {
      UsersValid(users) && FeedbackValid(feedback, users, nextFeedbackId)
    }

    /** A freshly migrated database holding the seeded users and no feedback; ids start at 1. */
    constructor (seed: map<nat, User>)
      requires UsersValid(seed)
      ensures Valid()
      ensures users == seed && feedback == [] && nextFeedbackId == 1
    {
      users, feedback, nextFeedbackId := seed, [], 1;
    }
  }
}
