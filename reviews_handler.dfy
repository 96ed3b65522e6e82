/**
 * The review handlers (reviews.go) over the in-memory engine: a buyer with
 * at least one order may leave one review; anyone may list them.
 */
module ReviewsHandler {
  import opened Models
  import opened Collections
  import opened Sorting
  import opened MemoryStore
  import Strconv

  const ErrUnauthorized := "unauthorized"
  const ErrNoOrder := "you must complete at least one order to leave a review"
  const ErrFetchUser := "failed to fetch user"
  const ErrAlreadyReviewed := "you have already submitted a review"
  const PlaceholderPhoto := "https://images.unsplash.com/photo-1535713875002-d1d0cf377fde?auto=format&fit=crop&w=240&q=80"

  /** The decoded request body. */
  datatype ReviewReq = ReviewReq(rating: int, comment: string)

  /** The binding rules: a rating from 1 to 5 and a comment are required. */
  predicate Binds(req: ReviewReq)
  {
    1 <= req.rating <= 5 && req.comment != ""
  }

  datatype ReviewReply = Refused(code: int, error: string) | Created(review: Review)

  predicate HasOrder(s: MemState, userId: string)
  {
    exists id :: id in s.orders && s.orders[id].userId == userId
  }

  function ReviewCount(s: MemState, userId: string): int
  {
    |set k | k in s.reviews && s.reviews[k].userId == userId|
  }

  /**
   * Create as one step: the caller must be signed in and the body must bind
   * (a failed binding answers 400 with the binder's text, `bindError`); then
   * the caller must have an order, must exist, and must not have reviewed
   * yet; the review is signed with the caller's email and a fixed photo.
   */
  function ReviewStep(s: MemState, caller: Option<string>, body: Result<ReviewReq>, bindError: string,
                      id: string, now: Time): (MemState, ReviewReply)
  {
    if caller.None? then (s, Refused(401, ErrUnauthorized))
    else if body.Err? then (s, Refused(400, body.msg))
    else if !Binds(body.value) then (s, Refused(400, bindError))
    else
      var userId := caller.value;
      if !HasOrder(s, userId) then (s, Refused(403, ErrNoOrder))
      else if userId !in s.users then (s, Refused(500, ErrFetchUser))
      else if ReviewCount(s, userId) > 0 then (s, Refused(403, ErrAlreadyReviewed))
      else
        var rv := Review(id, userId, s.users[userId].email, PlaceholderPhoto, body.value.rating, body.value.comment, now);
        (s.(reviews := s.reviews[id := rv]), Created(rv))
  }

  /** The handler, with the store calls in the source's order. */
  method HandleCreate(st: InMemoryStore, caller: Option<string>, body: Result<ReviewReq>, bindError: string,
                      id: string, now: Time) returns (reply: ReviewReply)
    requires st.Valid() && id !in st.reviews
    modifies st
    ensures st.Valid()
    ensures (st.State(), reply) == ReviewStep(old(st.State()), caller, body, bindError, id, now)
  {
    if caller.None? {
      return Refused(401, ErrUnauthorized);
    }
    var userId := caller.value;
    if body.Err? {
      return Refused(400, body.msg);
    }
    var req := body.value;
    if !Binds(req) {
      return Refused(400, bindError);
    }
    var orders, oks := st.ListOrdersByUser(userId);
    if |orders| == 0 {
      assert !HasOrder(st.State(), userId);
      return Refused(403, ErrNoOrder);
    }
    assert st.orders[oks[0]].userId == userId;
    var user := st.GetUserByID(userId);
    if user.Err? {
      return Refused(500, ErrFetchUser);
    }
    var count := st.GetUserReviewCount(userId);
    if count > 0 {
      return Refused(403, ErrAlreadyReviewed);
    }
    var r := st.CreateReview(userId, user.value.email, PlaceholderPhoto, req.rating, req.comment, id, now);
    match r
    case Err(m) => return Refused(500, m);
    case Ok(rv) => return Created(rv);
  }

  /**
   * A review is created exactly when a signed-in caller with a valid body,
   * at least one order, an account and no earlier review asks; it is then the
   * only change, and it carries the caller's email and the placeholder photo.
   */
  lemma ReviewCreatedIff(s: MemState, caller: Option<string>, body: Result<ReviewReq>, bindError: string,
                         id: string, now: Time)
    ensures var (s', r) := ReviewStep(s, caller, body, bindError, id, now);
      r.Created? <==>
        caller.Some? && body.Ok? && Binds(body.value) && HasOrder(s, caller.value)
        && caller.value in s.users && ReviewCount(s, caller.value) == 0
    ensures var (s', r) := ReviewStep(s, caller, body, bindError, id, now);
      r.Created? ==>
        r.review.userId == caller.value && r.review.userName == s.users[caller.value].email
        && r.review.userPhoto == PlaceholderPhoto && 1 <= r.review.rating <= 5
        && s' == s.(reviews := s.reviews[id := r.review])
    ensures var (s', r) := ReviewStep(s, caller, body, bindError, id, now);
      r.Refused? ==> s' == s
  {
  }

  /**
   * The order gate comes before everything the store knows about the user:
   * a caller without orders is refused with 403 whether or not the account
   * exists or has reviewed.
   */
  lemma NoOrderFirst(s: MemState, userId: string, req: ReviewReq, bindError: string, id: string, now: Time)
    requires Binds(req) && !HasOrder(s, userId)
    ensures ReviewStep(s, Some(userId), Ok(req), bindError, id, now) == (s, Refused(403, ErrNoOrder))
  {
  }

  /** A successful review closes the gate: the same caller's next attempt is refused. */
  lemma SecondReviewRefused(s: MemState, userId: string, req: ReviewReq, req2: ReviewReq, bindError: string,
                            id: string, id2: string, now: Time, now2: Time)
    requires ReviewStep(s, Some(userId), Ok(req), bindError, id, now).1.Created?
    requires Binds(req2)
    ensures var s' := ReviewStep(s, Some(userId), Ok(req), bindError, id, now).0;
      ReviewStep(s', Some(userId), Ok(req2), bindError, id2, now2) == (s', Refused(403, ErrAlreadyReviewed))
  {
    var s' := ReviewStep(s, Some(userId), Ok(req), bindError, id, now).0;
    assert id in s'.reviews && s'.reviews[id].userId == userId;
    var mine := set k | k in s'.reviews && s'.reviews[k].userId == userId;
    assert id in mine;
    assert |mine| > 0;
    var oid :| oid in s.orders && s.orders[oid].userId == userId;
    assert oid in s'.orders;
  }

  // ----- listing -----

  /** DefaultQuery: the parameter as sent, or the default when it is absent. */
  function LimitText(param: Option<string>): string
  {
    if param.Some? then param.value else "20"
  }

  /** List: all reviews newest first, cut to the parsed limit when it is positive. */
  method HandleList(st: InMemoryStore, param: Option<string>) returns (r: seq<Review>, ghost all: seq<Review>,
                                                                       ghost listed: seq<Review>, ghost ks: seq<string>)
    ensures Listing(st.reviews, (rv: Review) => true, listed, ks)
    ensures multiset(all) == multiset(listed) && NonIncreasing(all, (rv: Review) => rv.createdAt)
    ensures var limit := Strconv.Atoi(LimitText(param)).0;
      r == if limit > 0 && |all| > limit then all[..limit] else all
  {
    var limit := Strconv.Atoi(LimitText(param)).0;
    r, all, listed, ks := st.ListReviews(limit);
  }

  /**
   * Without the parameter the limit is 20; a limit that is not a number
   * reads as 0, which lists every review.
   */
  lemma ListLimits()
    ensures Strconv.Atoi(LimitText(None)).0 == 20
    ensures Strconv.Atoi(LimitText(Some("abc"))).0 == 0
    ensures Strconv.Atoi(LimitText(Some(""))).0 == 0
  {
    assert Strconv.Decimal(20) == "20";
    Strconv.ParseDecimal(20);
    Strconv.SyntaxExamples();
  }
}
