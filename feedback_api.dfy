/**
 * The feedback service's handlers over the feedbacks table: create, partial
 * update and (soft) delete by the owning user, the caller's list, and the
 * per-rating counts of the statistics endpoint.
 *
 * A request body arrives already decoded from JSON into integers and a
 * string; the binding rules of the request types decide whether it is
 * accepted. The caller's id is the one the authentication layer put into
 * the request context.
 */
module FeedbackApi {
  import opened Wrappers
  import opened Models
  import opened FeedbackDb
  import Strconv

  const MaxUint64: int := 0x1_0000_0000_0000_0000 - 1

  datatype ApiError =
    | InvalidFeedbackId   // 400, the path id is not a 32-bit decimal
    | InvalidRequest      // 400, the body does not bind
    | Conflict            // 409, feedback for this order already given
    | NotFound            // 404, no such feedback owned by the caller
    | StoreError          // 500, the insert was refused by the database

  datatype FeedbackRequest = FeedbackRequest(orderId: int, rating: int, comment: string)
  datatype UpdateRequest = UpdateRequest(rating: int, comment: string)
  datatype RatingCount = RatingCount(rating: nat, count: nat)

  /** `order_id` uint, required (non-zero); `rating` uint8, required, 1 to 5. */
  predicate BindsCreate(req: FeedbackRequest)
  {
    1 <= req.orderId <= MaxUint64 && 1 <= req.rating <= 5
  }

  /** `rating` uint8 with min=1,max=5 and no omitempty, so an absent (zero) rating fails too. */
  predicate BindsUpdate(req: UpdateRequest)
  {
    1 <= req.rating <= 5
  }

  /** The row `WHERE id = ? AND user_id = ?` finds among the visible rows. */
  function FindOwned(rows: seq<Feedback>, id: nat, userId: nat): (r: Option<nat>)
    ensures r.Some? ==> r.value < |rows| && Visible(rows[r.value])
                        && rows[r.value].id == id && rows[r.value].userId == userId
    ensures r.None? ==> forall i :: 0 <= i < |rows| && Visible(rows[i]) ==> rows[i].id != id || rows[i].userId != userId
  {
    if rows == [] then None
    else if Visible(rows[0]) && rows[0].id == id && rows[0].userId == userId then Some(0)
    else match FindOwned(rows[1..], id, userId)
      case None => None
      case Some(i) => Some(i + 1)
  }

  /** Updates(updates): rating only when positive, comment only when non-empty; nothing else. */
  function Patch(f: Feedback, req: UpdateRequest): (g: Feedback)
    requires req.rating >= 0
  {
    var f' := if req.rating > 0 then f.(rating := req.rating) else f;
    if req.comment != "" then f'.(comment := req.comment) else f'
  }

  /** `WHERE user_id = ?`: the caller's visible rows, in table order. */
  function ListFor(rows: seq<Feedback>, userId: nat): (r: seq<Feedback>)
    ensures |r| <= |rows|
    ensures forall f :: f in r <==> f in rows && Visible(f) && f.userId == userId
    ensures forall f :: multiset(r)[f] == if Visible(f) && f.userId == userId then multiset(rows)[f] else 0
  {
    if rows == [] then []
    else
      var rest := ListFor(rows[1..], userId);
      assert forall f :: f in rows <==> f == rows[0] || f in rows[1..];
      assert rows == [rows[0]] + rows[1..];
      assert multiset(rows) == multiset([rows[0]]) + multiset(rows[1..]);
      if Visible(rows[0]) && rows[0].userId == userId then [rows[0]] + rest else rest
  }

  /** `Count` over the visible rows, optionally restricted to one rating. */
  function CountVisible(rows: seq<Feedback>): (c: nat)
    ensures c <= |rows|
  {
    if rows == [] then 0 else CountVisible(rows[..|rows| - 1]) + (if Visible(rows[|rows| - 1]) then 1 else 0)
  }

  function CountRating(rows: seq<Feedback>, rating: nat): (c: nat)
    ensures c <= CountVisible(rows)
  {
    if rows == [] then 0
    else
      var f := rows[|rows| - 1];
      CountRating(rows[..|rows| - 1], rating) + (if Visible(f) && f.rating == rating then 1 else 0)
  }

  /**
   * CreateFeedbackHandler. An insert refused by the foreign key has already
   * taken a value of the id sequence, which the failure does not return.
   */
  method CreateFeedback(db: Database, caller: nat, req: FeedbackRequest) returns (r: Result<Feedback, ApiError>)
    requires db.Valid()
    modifies db`feedback, db`nextFeedbackId
    ensures db.Valid()
    ensures !BindsCreate(req) ==>
      r == Err(InvalidRequest) && db.feedback == old(db.feedback) && db.nextFeedbackId == old(db.nextFeedbackId)
    ensures BindsCreate(req) && HasFeedback(old(db.feedback), req.orderId, caller) ==>
      r == Err(Conflict) && db.feedback == old(db.feedback) && db.nextFeedbackId == old(db.nextFeedbackId)
    ensures BindsCreate(req) && !HasFeedback(old(db.feedback), req.orderId, caller) && caller !in db.users ==>
      r == Err(StoreError) && db.feedback == old(db.feedback) && db.nextFeedbackId == old(db.nextFeedbackId) + 1
    ensures BindsCreate(req) && !HasFeedback(old(db.feedback), req.orderId, caller) && caller in db.users ==>
      var f := Feedback(old(db.nextFeedbackId), req.orderId, caller, req.rating, req.comment, false);
      && r == Ok(f)
      && db.feedback == old(db.feedback) + [f]
      && db.nextFeedbackId == old(db.nextFeedbackId) + 1
  {
    if !BindsCreate(req) {
      return Err(InvalidRequest);
    }
    var orderId: nat := req.orderId;
    if HasFeedback(db.feedback, orderId, caller) {
      return Err(Conflict);
    }
    if caller !in db.users {
      // the insert drew its id from the sequence before the foreign key refused it
      db.nextFeedbackId := db.nextFeedbackId + 1;
      return Err(StoreError);
    }
    var f := Feedback(db.nextFeedbackId, orderId, caller, req.rating, req.comment, false);
    db.feedback := db.feedback + [f];
    db.nextFeedbackId := db.nextFeedbackId + 1;
    r := Ok(f);
  }

  /** UpdateFeedbackHandler. */
  method UpdateFeedback(db: Database, caller: nat, idText: string, req: UpdateRequest)
    returns (r: Result<Feedback, ApiError>)
    requires db.Valid()
    modifies db`feedback
    ensures db.Valid()
    ensures Strconv.ParseUint32(idText).None? ==> r == Err(InvalidFeedbackId) && db.feedback == old(db.feedback)
    ensures Strconv.ParseUint32(idText).Some? && !BindsUpdate(req) ==>
      r == Err(InvalidRequest) && db.feedback == old(db.feedback)
    ensures Strconv.ParseUint32(idText).Some? && BindsUpdate(req) ==>
      match FindOwned(old(db.feedback), Strconv.ParseUint32(idText).value, caller)
      case None => r == Err(NotFound) && db.feedback == old(db.feedback)
      case Some(i) =>
        && r == Ok(Patch(old(db.feedback)[i], req))
        && db.feedback == old(db.feedback)[i := Patch(old(db.feedback)[i], req)]
  {
    var id := Strconv.ParseUint32(idText);
    if id.None? {
      return Err(InvalidFeedbackId);
    }
    if !BindsUpdate(req) {
      return Err(InvalidRequest);
    }
    var found := FindOwned(db.feedback, id.value, caller);
    if found.None? {
      return Err(NotFound);
    }
    var i := found.value;
    var f := db.feedback[i];
    if req.rating > 0 {
      f := f.(rating := req.rating);
    }
    if req.comment != "" {
      f := f.(comment := req.comment);
    }
    db.feedback := db.feedback[i := f];
    r := Ok(f);
  }

  /** DeleteFeedbackHandler: a soft delete of the one owned row. */
  method DeleteFeedback(db: Database, caller: nat, idText: string) returns (err: Option<ApiError>)
    requires db.Valid()
    modifies db`feedback
    ensures db.Valid()
    ensures Strconv.ParseUint32(idText).None? ==> err == Some(InvalidFeedbackId) && db.feedback == old(db.feedback)
    ensures Strconv.ParseUint32(idText).Some? ==>
      match FindOwned(old(db.feedback), Strconv.ParseUint32(idText).value, caller)
      case None => err == Some(NotFound) && db.feedback == old(db.feedback)
      case Some(i) => err == None && db.feedback == old(db.feedback)[i := old(db.feedback)[i].(deleted := true)]
  {
    var id := Strconv.ParseUint32(idText);
    if id.None? {
      return Some(InvalidFeedbackId);
    }
    var found := FindOwned(db.feedback, id.value, caller);
    if found.None? {
      return Some(NotFound);
    }
    var i := found.value;
    db.feedback := db.feedback[i := db.feedback[i].(deleted := true)];
    err := None;
  }

  /** GetUserFeedbackHandler. */
  method GetUserFeedback(db: Database, caller: nat) returns (rows: seq<Feedback>)
    ensures forall f :: f in rows <==> f in db.feedback && Visible(f) && f.userId == caller
    ensures forall f :: multiset(rows)[f] == if Visible(f) && f.userId == caller then multiset(db.feedback)[f] else 0
  {
    rows := ListFor(db.feedback, caller);
  }

  /** The counting part of GetFeedbackStatsHandler: the total and one entry per rating 1 to 5. */
  method FeedbackStats(db: Database) returns (total: nat, counts: array<RatingCount>)
    ensures total == CountVisible(db.feedback)
    ensures fresh(counts) && counts.Length == 5
    ensures forall i :: 0 <= i < 5 ==> counts[i] == RatingCount(i + 1, CountRating(db.feedback, i + 1))
  {
    total := CountVisible(db.feedback);
    counts := new RatingCount[5](_ => RatingCount(0, 0));
    var i := 1;
    while i <= 5
      invariant 1 <= i <= 6
      invariant forall j :: 0 <= j < i - 1 ==> counts[j] == RatingCount(j + 1, CountRating(db.feedback, j + 1))
    {
      counts[i - 1] := RatingCount(i, CountRating(db.feedback, i));
      i := i + 1;
    }
  }

  // ------------------------------------------------------------------ lemmas

  /** When every visible rating is 1 to 5, the five per-rating counts add up to the total. */
  lemma {:induction false} RatingCountsAddUp(rows: seq<Feedback>)
    requires forall i :: 0 <= i < |rows| && Visible(rows[i]) ==> 1 <= rows[i].rating <= 5
    ensures CountRating(rows, 1) + CountRating(rows, 2) + CountRating(rows, 3)
            + CountRating(rows, 4) + CountRating(rows, 5) == CountVisible(rows)
  {
    if rows != [] {
      RatingCountsAddUp(rows[..|rows| - 1]);
    }
  }

  /** A soft delete hides exactly the deleted row from every listing. */
  lemma DeleteHidesExactlyOne(rows: seq<Feedback>, i: nat, userId: nat)
    requires i < |rows|
    requires forall a, b :: 0 <= a < b < |rows| ==> rows[a].id != rows[b].id
    ensures var after := rows[i := rows[i].(deleted := true)];
      forall f :: f in ListFor(after, userId) <==> f in ListFor(rows, userId) && f != rows[i]
  {
    var after := rows[i := rows[i].(deleted := true)];
    forall f ensures f in after && Visible(f) <==> f in rows && Visible(f) && f != rows[i] {
      if f in after && Visible(f) {
        var k :| 0 <= k < |after| && after[k] == f;
        assert k != i;
        assert rows[k] == f;
        assert rows[k].id != rows[i].id;
      }
      if f in rows && Visible(f) && f != rows[i] {
        var k :| 0 <= k < |rows| && rows[k] == f;
        assert after[k] == f;
      }
    }
  }

  /** A soft delete lowers the visible count by one. */
  lemma {:induction false} DeleteCountsOneLess(rows: seq<Feedback>, i: nat)
    requires i < |rows| && Visible(rows[i])
    ensures CountVisible(rows[i := rows[i].(deleted := true)]) == CountVisible(rows) - 1
  {
    var after := rows[i := rows[i].(deleted := true)];
    var n := |rows| - 1;
    if i < n {
      assert after[..n] == rows[..n][i := rows[i].(deleted := true)];
      DeleteCountsOneLess(rows[..n], i);
    } else {
      assert after[..n] == rows[..n];
    }
  }

  /** An update with a rating keeps the row's identity, order and owner, and sets the rating. */
  lemma PatchKeepsIdentity(f: Feedback, req: UpdateRequest)
    requires BindsUpdate(req)
    ensures var g := Patch(f, req);
      && g.id == f.id && g.orderId == f.orderId && g.userId == f.userId && g.deleted == f.deleted
      && g.rating == req.rating
      && g.comment == (if req.comment != "" then req.comment else f.comment)
  {
  }

  /** An update that carries only a comment is refused at binding, before any lookup. */
  lemma CommentOnlyUpdateRefused(comment: string)
    ensures !BindsUpdate(UpdateRequest(0, comment))
  {
  }
}
