/**
 * The application shell: which requests get their body parsed as JSON,
 * what the global error handler answers, and the nightly job that lifts
 * lapsed reservations.
 */
module App {
  import opened Wrappers
  import opened Api
  import opened GridSpaces

  const WebhookPath: string := "/api/brand/webhook"

  /** Every request but the payment webhook has its body parsed as JSON;
    * the webhook keeps its raw body for the signature check. */
  predicate ParsesJson(path: string) {
    path != WebhookPath
  }

  lemma OnlyWebhookKeepsRawBody(path: string)
    ensures !ParsesJson(path) <==> path == "/api/brand/webhook"
    ensures ParsesJson("/api/brand/webhook/") && ParsesJson("/api/brand")
  {
  }

  /** The global error handler: whatever a handler throws is answered with
    * status 500 and the error's message, or "Internal Server Error" when
    * the message is empty.  The status an `ApiError` names is not used. */
  function ErrorResponse(e: ApiError): (r: (nat, string))
    ensures r.0 == ServerError
    ensures |e.message| > 0 ==> r.1 == e.message
    ensures |e.message| == 0 ==> r.1 == "Internal Server Error"
  {
    (ServerError, if |e.message| > 0 then e.message else "Internal Server Error")
  }

  /** Two thrown errors are told apart by their messages alone. */
  lemma ErrorStatusIgnored(e: ApiError, status: nat)
    ensures ErrorResponse(e) == ErrorResponse(e.(status := status))
  {
  }

  /** The reservation of `s` has lapsed at `now`: the filter
    * `{ status: "reserved", reservationExpiresAt: { $lt: now } }`, which a
    * missing expiry does not match. */
  predicate Lapsed(s: GridSpace, now: int) {
    s.status == Reserved && s.reservationExpiresAt.Some? && s.reservationExpiresAt.value < now
  }

  /** What the `$set` of the nightly job makes of a lapsed space; as an
    * `updateMany` it runs no save hook, so `updatedAt` is kept. */
  function Lifted(s: GridSpace): (t: GridSpace)
    ensures t.status == Available && t.owner.None? && t.reservationExpiresAt.None?
    ensures t.(status := s.status, owner := s.owner, reservationExpiresAt := s.reservationExpiresAt) == s
  {
    s.(status := Available, owner := None, reservationExpiresAt := None)
  }

  /** The nightly `updateMany` over all grid spaces at time `now`. */
  function ExpireReservations(spaces: map<nat, GridSpace>, now: int): (r: map<nat, GridSpace>)
    ensures r.Keys == spaces.Keys
  {
    map id | id in spaces :: if Lapsed(spaces[id], now) then Lifted(spaces[id]) else spaces[id]
  }

  /** Exactly the lapsed reservations are lifted; every other space, and
    * every other field, is left as it was. */
  lemma ExpireSpec(spaces: map<nat, GridSpace>, now: int, id: nat)
    requires id in spaces
    ensures var t := ExpireReservations(spaces, now)[id];
      (t != spaces[id] <==> Lapsed(spaces[id], now))
      && (Lapsed(spaces[id], now) ==>
            (t.status == Available && t.owner.None? && t.reservationExpiresAt.None?
             && t.(status := Reserved, owner := spaces[id].owner,
                   reservationExpiresAt := spaces[id].reservationExpiresAt) == spaces[id]))
  {
  }

  /** The job is idempotent: a second run at the same time changes nothing. */
  lemma ExpireIdempotent(spaces: map<nat, GridSpace>, now: int)
    ensures ExpireReservations(ExpireReservations(spaces, now), now) == ExpireReservations(spaces, now)
  {
    var once := ExpireReservations(spaces, now);
    forall id | id in once
      ensures !Lapsed(once[id], now)
    {
    }
  }

  /** After the job no space is left with a lapsed reservation. */
  lemma NoLapsedAfterExpiry(spaces: map<nat, GridSpace>, now: int, id: nat)
    requires id in spaces
    ensures !Lapsed(ExpireReservations(spaces, now)[id], now)
  {
  }

  /** `result.modifiedCount`, the number the job logs. */
  function ModifiedCount(spaces: map<nat, GridSpace>, now: int): (n: nat)
    ensures n <= |spaces.Keys|
  {
    var lapsed := set id | id in spaces && Lapsed(spaces[id], now);
    assert lapsed <= spaces.Keys;
    SubsetCard(lapsed, spaces.Keys);
    |lapsed|
  }

  lemma {:induction false} SubsetCard(a: set<nat>, b: set<nat>)
    requires a <= b
    ensures |a| <= |b|
  {
    if a != {} {
      var x :| x in a;
      SubsetCard(a - {x}, b - {x});
    }
  }
}
