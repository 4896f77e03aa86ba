/** The payment-notification endpoint (supabase/functions/midtrans-webhook/index.ts):
    the decision on a notification's transaction and fraud status, and the
    credit grant. The profiles table is a map from user id to `usage_limit`
    (None for null). The database calls are parameters: the outcome of the
    `admin_add_credits` procedure (the table as it leaves it, or None when
    it fails), whether the fallback read fails, and whether the fallback
    write fails. */
module Webhook {
  import opened Wrappers
  import opened Types

  const CreditsToAdd: int := 10

  /** The notification fields the handler reads; absent ones are None. */
  datatype Notification = Notification(
    orderId: Option<string>,
    transactionStatus: Option<string>,
    fraudStatus: Option<string>,
    customField1: Option<string>)

  datatype Decision = Challenged | Grant | NoGrant

  /** The status dispatch: a captured payment is refused when challenged and
      granted when accepted; a settled one is granted whatever its fraud
      status; nothing else grants anything. */
  function Dispatch(transactionStatus: Option<string>, fraudStatus: Option<string>): (d: Decision)
    ensures d == Challenged <==> transactionStatus == Some("capture") && fraudStatus == Some("challenge")
    ensures d == Grant <==> (transactionStatus == Some("capture") && fraudStatus == Some("accept"))
                            || transactionStatus == Some("settlement")
  {
    if transactionStatus == Some("capture") then
      if fraudStatus == Some("challenge") then Challenged
      else if fraudStatus == Some("accept") then Grant
      else NoGrant
    else if transactionStatus == Some("settlement") then Grant
    else NoGrant
  }

  /** `profile.usage_limit || 0` */
  function LimitOrZero(limit: Option<int>): int {
    if limit.Some? then limit.value else 0
  }

  /** What `handleSuccess` leaves in the profiles table: nothing changes
      without a user id; a working procedure call decides the table; on the
      fallback path a missing profile, a failed read or a failed write
      changes nothing, and otherwise the user's limit becomes the old limit
      (null read as 0) plus ten. */
  function SuccessEffect(userId: Option<string>, profiles: map<string, Option<int>>,
                         rpc: Option<map<string, Option<int>>>, fetchFails: bool, updateFails: bool)
    : (r: map<string, Option<int>>)
    ensures !Truthy(userId) ==> r == profiles
    ensures Truthy(userId) && rpc.Some? ==> r == rpc.value
    ensures Truthy(userId) && rpc.None? && (fetchFails || userId.value !in profiles || updateFails) ==> r == profiles
    ensures Truthy(userId) && rpc.None? && !fetchFails && userId.value in profiles && !updateFails ==>
      r.Keys == profiles.Keys
      && r[userId.value] == Some(LimitOrZero(profiles[userId.value]) + CreditsToAdd)
      && forall u :: u in profiles && u != userId.value ==> r[u] == profiles[u]
  {
    if !Truthy(userId) then profiles
    else if rpc.Some? then rpc.value
    else if fetchFails || userId.value !in profiles then profiles
    else
      var newLimit := LimitOrZero(profiles[userId.value]) + CreditsToAdd;
      if updateFails then profiles else profiles[userId.value := Some(newLimit)]
  }

  /** On the fallback path a grant adds exactly ten credits to that user
      and to nobody else: the table's total grows by ten. */
  lemma FallbackGrantsTen(user: string, profiles: map<string, Option<int>>)
    requires user != "" && user in profiles
    ensures var r := SuccessEffect(Some(user), profiles, None, false, false);
      LimitOrZero(r[user]) == LimitOrZero(profiles[user]) + 10
      && forall u :: u in profiles && u != user ==> LimitOrZero(r[u]) == LimitOrZero(profiles[u])
  {
  }

  /** The profiles table as `handleSuccess` drives it: the early return
      without a user id, the procedure call, and the read-then-write
      fallback. */
  class ProfileStore {
    var limits: map<string, Option<int>>

    constructor (limits: map<string, Option<int>>)
      ensures this.limits == limits
    {
      this.limits := limits;
    }

    method HandleSuccess(customField1: Option<string>, rpc: Option<map<string, Option<int>>>,
                         fetchFails: bool, updateFails: bool)
      modifies this
      ensures limits == SuccessEffect(customField1, old(limits), rpc, fetchFails, updateFails)
    {
      if !Truthy(customField1) {
        return;
      }
      var userId := customField1.value;
      if rpc.Some? {
        limits := rpc.value;
        return;
      }
      if fetchFails || userId !in limits {
        return;
      }
      var newLimit := LimitOrZero(limits[userId]) + CreditsToAdd;
      if !updateFails {
        limits := limits[userId := Some(newLimit)];
      }
    }
  }

  datatype Response = Response(status: int, body: string)

  const OkBody: string := "{\"status\":\"ok\"}"
  const ChallengedBody: string := "{\"status\":\"challenged\"}"

  /** The request handler. An OPTIONS request is answered "ok" at once; a
      body that is not JSON (None) is a 500 carrying the parse error's
      message; otherwise the decision picks the response, and only a grant
      touches the table. */
  function HandleRequest(httpMethod: string, body: Option<Notification>, parseError: string,
                         profiles: map<string, Option<int>>,
                         rpc: Option<map<string, Option<int>>>, fetchFails: bool, updateFails: bool)
    : (r: (Response, map<string, Option<int>>))
    ensures httpMethod == "OPTIONS" ==> r == (Response(200, "ok"), profiles)
    ensures httpMethod != "OPTIONS" && body.None? ==> r.0.status == 500 && r.1 == profiles
    ensures httpMethod != "OPTIONS" && body.Some? ==>
      var n := body.value;
      match Dispatch(n.transactionStatus, n.fraudStatus)
      case Challenged => r == (Response(200, ChallengedBody), profiles)
      case Grant => r == (Response(200, OkBody), SuccessEffect(n.customField1, profiles, rpc, fetchFails, updateFails))
      case NoGrant => r == (Response(200, OkBody), profiles)
  {
    if httpMethod == "OPTIONS" then (Response(200, "ok"), profiles)
    else match body
      case None => (Response(500, "{\"error\":\"" + parseError + "\"}"), profiles)
      case Some(n) =>
        match Dispatch(n.transactionStatus, n.fraudStatus)
        case Challenged => (Response(200, ChallengedBody), profiles)
        case Grant => (Response(200, OkBody), SuccessEffect(n.customField1, profiles, rpc, fetchFails, updateFails))
        case NoGrant => (Response(200, OkBody), profiles)
  }

  /** Failed, cancelled, expired and pending payments, and any status the
      handler does not know, are acknowledged and grant nothing. */
  lemma NonPaymentsGrantNothing(n: Notification, profiles: map<string, Option<int>>,
                                rpc: Option<map<string, Option<int>>>, fetchFails: bool, updateFails: bool)
    requires n.transactionStatus != Some("capture") && n.transactionStatus != Some("settlement")
    ensures HandleRequest("POST", Some(n), "", profiles, rpc, fetchFails, updateFails) == (Response(200, OkBody), profiles)
  {
  }
}
