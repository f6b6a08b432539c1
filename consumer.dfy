/**
 * One iteration of the feedback service's consumer loop: read a message from
 * the orders topic, decode it, on a completed order make sure the user
 * exists (GORM FirstOrCreate), and then commit the message's offset
 * explicitly with CommitMessages.
 *
 * The reader's outcome, json.Unmarshal (`decode`) and the outcome of
 * CommitMessages (`commitOk`) are given from outside.
 */
module Consumer {
  import opened Wrappers
  import opened Models
  import FeedbackDb

  datatype Fetch = ReadFailed | Fetched(offset: nat, message: Message)

  datatype StepOutcome =
    | ReadError            // logged; nothing else happens
    | UndecodablePayload   // logged and skipped; no explicit commit
    | UpsertFailed         // logged; no explicit commit of this message
    | Committed            // applied and acknowledged
    | CommitFailed         // applied; the commit error is only logged

  /** The consumer group's explicitly committed offsets, in commit order. */
  class GroupReader {
    var committed: seq<nat>

    constructor ()
      ensures committed == []
    {
      committed := [];
    }
  }

  /** Go's `uint(x)` on a 64-bit int: the value modulo 2^64. */
  function UserKey(userId: int): (k: nat)
    ensures k < 0x1_0000_0000_0000_0000
    ensures 0 <= userId < 0x1_0000_0000_0000_0000 ==> k == userId
  {
    userId % 0x1_0000_0000_0000_0000
  }

  /** Some existing user already has this username or this email (a unique index). */
  predicate Taken(users: map<nat, User>, username: string, email: string)
  {
    exists id :: id in users && (users[id].username == username || users[id].email == email)
  }

  /**
   * FirstOrCreate(&user, User{ID: id}): a user with that id is found and
   * left alone, or one is inserted with that id and empty username and
   * email, which the unique indexes refuse once any user holds either.
   */
  function Upsert(users: map<nat, User>, id: nat): (r: Option<map<nat, User>>)
    ensures r.None? <==> id !in users && Taken(users, "", "")
    ensures r.Some? ==> id in r.value && r.value.Keys == users.Keys + {id}
    ensures r.Some? ==> forall k :: k in users ==> r.value[k] == users[k]
  {
    if id in users then Some(users)
    else if Taken(users, "", "") then None
    else Some(users[id := User(id, "", "")])
  }

  /** The side effect of one decoded event: only completed orders touch the users table. */
  function ApplyEvent(users: map<nat, User>, event: OrderEvent): Option<map<nat, User>>
  {
    if event.status == Completed then Upsert(users, UserKey(event.userId)) else Some(users)
  }

  /** The body of consumeMessages' loop, once. */
  method ConsumeStep(db: FeedbackDb.Database, reader: GroupReader, fetch: Fetch,
                     decode: seq<Byte> -> Option<OrderEvent>, commitOk: bool)
    returns (outcome: StepOutcome)
    requires db.Valid()
    modifies db`users, reader
    ensures db.Valid()
    ensures fetch.ReadFailed? ==>
      outcome == ReadError && db.users == old(db.users) && reader.committed == old(reader.committed)
    ensures fetch.Fetched? && decode(fetch.message.value).None? ==>
      outcome == UndecodablePayload && db.users == old(db.users) && reader.committed == old(reader.committed)
    ensures fetch.Fetched? && decode(fetch.message.value).Some? ==>
      match ApplyEvent(old(db.users), decode(fetch.message.value).value)
      case None =>
        outcome == UpsertFailed && db.users == old(db.users) && reader.committed == old(reader.committed)
      case Some(users) =>
        && db.users == users
        && (commitOk ==> outcome == Committed && reader.committed == old(reader.committed) + [fetch.offset])
        && (!commitOk ==> outcome == CommitFailed && reader.committed == old(reader.committed))
  {
    if fetch.ReadFailed? {
      return ReadError;
    }
    var decoded := decode(fetch.message.value);
    if decoded.None? {
      return UndecodablePayload;
    }
    var event := decoded.value;
    if event.status == Completed {
      var created := Upsert(db.users, UserKey(event.userId));
      if created.None? {
        return UpsertFailed;
      }
      UpsertKeepsUsersValid(db.users, UserKey(event.userId));
      db.users := created.value;
    }
    if commitOk {
      reader.committed := reader.committed + [fetch.offset];
      outcome := Committed;
    } else {
      outcome := CommitFailed;
    }
  }

  /** The upsert keeps the primary keys and the unique usernames and emails. */
  lemma UpsertKeepsUsersValid(users: map<nat, User>, id: nat)
    requires FeedbackDb.UsersValid(users)
    requires Upsert(users, id).Some?
    ensures FeedbackDb.UsersValid(Upsert(users, id).value)
  {
  }

  /** Applying the same event a second time leaves the users table as the first time left it. */
  lemma ApplyEventIdempotent(users: map<nat, User>, event: OrderEvent)
    requires ApplyEvent(users, event).Some?
    ensures ApplyEvent(ApplyEvent(users, event).value, event) == ApplyEvent(users, event)
  {
  }

  /** After a completed event is applied its user exists, and no other user is added or changed. */
  lemma CompletedEventMaterializesUser(users: map<nat, User>, event: OrderEvent)
    requires event.status == Completed && ApplyEvent(users, event).Some?
    ensures var u := ApplyEvent(users, event).value;
      && UserKey(event.userId) in u
      && (forall k :: k in u && k != UserKey(event.userId) ==> k in users && u[k] == users[k])
      && (forall k :: k in users ==> k in u)
  {
  }

  /** Events of any other status leave the users table alone. */
  lemma OtherEventsChangeNoUser(users: map<nat, User>, event: OrderEvent)
    requires event.status != Completed
    ensures ApplyEvent(users, event) == Some(users)
  {
  }

  /**
   * Lazily created users all have the empty username and email, so once one
   * exists, creating any further unseen user hits the unique indexes.
   */
  lemma SecondLazyUserFails(users: map<nat, User>, a: nat, b: nat)
    requires a !in users && b !in users && a != b
    requires Upsert(users, a).Some?
    ensures Upsert(Upsert(users, a).value, b) == None
  {
    var u := Upsert(users, a).value;
    assert u[a].username == "";
  }
}
