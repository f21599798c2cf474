/**
 * The decisions the bot's handlers take, with rendering stripped: which replies they
 * give and what they write to the tables and the rate limiter. The clock, the
 * gateway's answers and the chat platform's failures are inputs.
 */
module Lifecycle {
  import opened Wrappers
  import opened Text
  import Plans
  import opened Callbacks
  import RateLimit
  import opened Tables

  /** Everything the handlers change: the two tables and the limiter's request lists. */
  datatype BotState = BotState(db: Db, requests: map<int, seq<int>>)

  const SecondsPerHour: nat := 3600

  /**
   * timedelta's .days and .seconds // 3600 for a positive remaining time: whole days,
   * then whole hours of the rest, both rounded down.
   */
  function TimeLeft(remaining: int): (r: (nat, nat))
    requires remaining > 0
    ensures r.1 < 24
    ensures r.0 * Plans.SecondsPerDay + r.1 * SecondsPerHour <= remaining
    ensures remaining < r.0 * Plans.SecondsPerDay + (r.1 + 1) * SecondsPerHour
  {
    var days := remaining / Plans.SecondsPerDay;
    var rest := remaining % Plans.SecondsPerDay;
    var hours := rest / SecondsPerHour;
    assert remaining == days * Plans.SecondsPerDay + rest;
    assert rest == hours * SecondsPerHour + rest % SecondsPerHour;
    (days, hours)
  }

  /** The window verify_payment grants: it starts now, whatever window the user had. */
  function ActivationWindow(now: int, plan: Plans.Plan): (w: (int, int))
    ensures w.0 == now && w.0 <= w.1
    ensures plan.durationDays >= 1 ==> now + Plans.SecondsPerDay <= w.1
  {
    (now, now + plan.durationDays * Plans.SecondsPerDay)
  }

  // ---------------------------------------------------------------- /status

  datatype StatusReply =
    | NotRegistered
    | ActiveUntil(plan: string, end: int, daysLeft: nat, hoursLeft: nat)
    | SubscriptionExpired
    | StatusError
    | FreeAccount

  /**
   * check_subscription_status. A premium user whose end has passed (end <= now) is
   * expired on the spot; a missing end or plan makes the date handling raise, which is
   * answered with an error message.
   */
  function CheckStatus(db: Db, userId: int, now: int): (r: (Db, StatusReply))
    ensures r.0.payments == db.payments && r.0.users.Keys == db.users.Keys
    ensures r.1 != SubscriptionExpired ==> r.0 == db
  {
    if userId !in db.users then (db, NotRegistered)
    else
      var row := db.users[userId];
      if !row.isPremium then (db, FreeAccount)
      else if row.end.None? then (db, StatusError)
      else if row.end.value > now then
        if row.plan.None? then (db, StatusError)
        else
          var left := TimeLeft(row.end.value - now);
          (db, ActiveUntil(row.plan.value, row.end.value, left.0, left.1))
      else (ExpireUser(db, userId, now), SubscriptionExpired)
  }

  /**
   * On consistent tables, /status reports an active subscription exactly when the user
   * is premium with an end still in the future, and changes nothing then.
   */
  lemma StatusActiveIff(db: Db, userId: int, now: int)
    requires Consistent(db)
    ensures var r := CheckStatus(db, userId, now);
      r.1.ActiveUntil? <==>
        userId in db.users && db.users[userId].isPremium && db.users[userId].end.value > now
    ensures CheckStatus(db, userId, now).1.ActiveUntil? ==> CheckStatus(db, userId, now).0 == db
  {
  }

  /**
   * /status changes the tables only by expiring the caller, and only when the caller
   * is premium with end <= now; afterwards the caller is no longer premium.
   */
  lemma StatusExpiresOnlyCaller(db: Db, userId: int, now: int)
    ensures var r := CheckStatus(db, userId, now);
      && (r.1 == SubscriptionExpired <==>
           userId in db.users && db.users[userId].isPremium
           && db.users[userId].end.Some? && db.users[userId].end.value <= now)
      && (r.1 == SubscriptionExpired ==> r.0 == ExpireUser(db, userId, now) && !r.0.users[userId].isPremium)
      && (r.1 != SubscriptionExpired ==> r.0 == db)
  {
  }

  /**
   * The two expiry tests disagree at the boundary: when end == now, /status expires
   * the user while the sweep's query (end < now) does not select them.
   */
  lemma StatusAndSweepBoundary(db: Db, userId: int, now: int)
    requires userId in db.users && db.users[userId].isPremium && db.users[userId].end == Some(now)
    ensures CheckStatus(db, userId, now).1 == SubscriptionExpired
    ensures userId !in ExpiredUsers(db, now)
  {
  }

  /** The time left shown is the largest whole number of days and hours not exceeding it. */
  lemma TimeLeftIsFloor(remaining: int, days: nat, hours: nat)
    requires remaining > 0 && hours < 24
    requires days * Plans.SecondsPerDay + hours * SecondsPerHour <= remaining
    requires remaining < days * Plans.SecondsPerDay + (hours + 1) * SecondsPerHour
    ensures TimeLeft(remaining) == (days, hours)
  {
  }

  // ---------------------------------------------------------------- upgrade menu

  /** The callback data of the upgrade menu: one button per plan in table order, then "Back". */
  function MenuButtons(): (buttons: seq<string>)
    ensures |buttons| == |Plans.PlanIds| + 1 && buttons[|Plans.PlanIds|] == "back_to_menu"
  {
    seq(|Plans.PlanIds|, i requires 0 <= i < |Plans.PlanIds| => PlanCallback(Plans.PlanIds[i]))
      + ["back_to_menu"]
  }

  datatype UpgradeReply = AlreadySubscribed(plan: string, end: int) | PlanMenu(buttons: seq<string>)

  /**
   * upgrade_menu. A premium user whose end is still ahead is told so; one whose end has
   * passed is expired and shown the menu. Errors in reading the row are logged and the
   * menu is shown.
   */
  function UpgradeMenu(db: Db, userId: int, now: int): (r: (Db, UpgradeReply))
    ensures r.0.payments == db.payments && r.0.users.Keys == db.users.Keys
    ensures r.1.PlanMenu? ==> r.1.buttons == MenuButtons()
  {
    if userId in db.users && db.users[userId].isPremium then
      var row := db.users[userId];
      if row.end.None? then (db, PlanMenu(MenuButtons()))
      else if row.end.value > now then
        if row.plan.None? then (db, PlanMenu(MenuButtons()))
        else (db, AlreadySubscribed(row.plan.value, row.end.value))
      else (ExpireUser(db, userId, now), PlanMenu(MenuButtons()))
    else (db, PlanMenu(MenuButtons()))
  }

  /** Every plan button of the menu routes to plan selection and names a plan that exists. */
  lemma MenuButtonsSelectPlans()
    ensures |MenuButtons()| == |Plans.PlanIds| + 1
    ensures forall i :: 0 <= i < |Plans.PlanIds| ==>
      && Dispatch(MenuButtons()[i]) == ChoosePlan
      && ParsePlanId(MenuButtons()[i]) == Some(Plans.PlanIds[i])
      && Plans.Lookup(Plans.PlanIds[i]).Some?
    ensures Dispatch(MenuButtons()[|Plans.PlanIds|]) == BackToMenu
  {
    Plans.PlanIdsWellFormed();
    forall i | 0 <= i < |Plans.PlanIds|
      ensures Dispatch(MenuButtons()[i]) == ChoosePlan
      ensures ParsePlanId(MenuButtons()[i]) == Some(Plans.PlanIds[i])
    {
      assert MenuButtons()[i] == PlanCallback(Plans.PlanIds[i]);
      RenderedButtonsDispatch(Plans.PlanIds[i], "");
      PlanCallbackRoundTrip(Plans.PlanIds[i]);
    }
    RenderedButtonsDispatch("", "");
  }

  /**
   * On consistent tables, a user with a running subscription is never offered plans and
   * nothing changes; anyone else gets the menu, and only a lapsed premium user is expired.
   */
  lemma UpgradeMenuDecision(db: Db, userId: int, now: int)
    requires Consistent(db)
    ensures var r := UpgradeMenu(db, userId, now);
      var active := userId in db.users && db.users[userId].isPremium && db.users[userId].end.value > now;
      && (r.1.AlreadySubscribed? <==> active)
      && (r.1.PlanMenu? ==> r.1.buttons == MenuButtons())
      && (if userId in db.users && db.users[userId].isPremium && !active
          then r.0 == ExpireUser(db, userId, now) else r.0 == db)
  {
  }

  // ---------------------------------------------------------------- plan selection

  /** What create_payment_link returns: a link and the pieces of the tx_ref it made, or an error. */
  datatype LinkResponse = LinkCreated(nonce: string, stamp: int, link: string) | LinkFailed(message: string)

  datatype SelectReply =
    | RateLimited
    | MalformedPlanData
    | InvalidPlan
    | PaymentOffer(txRef: string, link: string, verifyButton: string)
    | LinkError(message: string)
    | SelectFailed

  /**
   * process_plan_selection: the rate limiter first (it records the request whatever
   * follows), then the plan id out of the callback data, then the plan lookup, then
   * the gateway; a pending payment record is written only for a created link, and a
   * refused INSERT is answered with the generic error.
   */
  function SelectPlan(st: BotState, userId: int, data: string, now: int, response: LinkResponse): (r: (BotState, SelectReply))
    ensures r.0.requests == RateLimit.Admit(st.requests, userId, now).0
    ensures r.0.db.users == st.db.users && r.0.db.payments.Keys >= st.db.payments.Keys
  {
    var admit := RateLimit.Admit(st.requests, userId, now);
    var limited := st.(requests := admit.0);
    if !admit.1 then (limited, RateLimited)
    else match ParsePlanId(data)
      case None => (limited, MalformedPlanData)
      case Some(planId) =>
        match Plans.Lookup(planId)
        case None => (limited, InvalidPlan)
        case Some(plan) =>
          match response
          case LinkFailed(message) => (limited, LinkError(message))
          case LinkCreated(nonce, stamp, link) =>
            var ref := TxRef(userId, nonce, stamp);
            match AddPayment(st.db, userId, ref, plan.amount, planId, now)
            case Err(_) => (limited, SelectFailed)
            case Ok(db) => (limited.(db := db), PaymentOffer(ref, link, VerifyCallback(ref)))
  }

  /** The limiter is consulted on every selection, before anything else. */
  lemma SelectPlanConsultsLimiterFirst(st: BotState, userId: int, data: string, now: int, response: LinkResponse)
    ensures SelectPlan(st, userId, data, now, response).0.requests == RateLimit.Admit(st.requests, userId, now).0
    ensures !RateLimit.Admit(st.requests, userId, now).1 ==>
      SelectPlan(st, userId, data, now, response) == (st.(requests := RateLimit.Admit(st.requests, userId, now).0), RateLimited)
  {
  }

  /**
   * The payments table changes only when the request is admitted, the plan exists and
   * the gateway created a link; then exactly one pending record is added, owned by the
   * caller, for the plan's amount, under the link's reference.
   */
  lemma SelectPlanRecordsOnlyCreatedLinks(st: BotState, userId: int, data: string, now: int, response: LinkResponse)
    ensures var r := SelectPlan(st, userId, data, now, response);
      && (r.1.PaymentOffer? <==>
           && RateLimit.Admit(st.requests, userId, now).1
           && ParsePlanId(data).Some? && Plans.Lookup(ParsePlanId(data).value).Some?
           && response.LinkCreated?
           && AddPayment(st.db, userId, TxRef(userId, response.nonce, response.stamp),
                         Plans.Lookup(ParsePlanId(data).value).value.amount, ParsePlanId(data).value, now).Ok?)
      && (!r.1.PaymentOffer? ==> r.0.db == st.db)
      && (r.1.PaymentOffer? ==>
           && r.0.db.users == st.db.users
           && r.0.db.payments.Keys == st.db.payments.Keys + {r.1.txRef}
           && r.1.txRef !in st.db.payments
           && r.0.db.payments[r.1.txRef] == PaymentRow(userId, Plans.Lookup(ParsePlanId(data).value).value.amount,
                                                       ParsePlanId(data).value, Pending, now, now))
  {
  }

  /** An unknown plan id is turned away before the gateway is asked or anything is written. */
  lemma UnknownPlanWritesNothing(st: BotState, userId: int, planId: string, now: int, response: LinkResponse)
    requires '_' !in planId && Plans.Lookup(planId).None?
    ensures SelectPlan(st, userId, PlanCallback(planId), now, response).0.db == st.db
    ensures SelectPlan(st, userId, PlanCallback(planId), now, response).1 in {RateLimited, InvalidPlan}
  {
    PlanCallbackRoundTrip(planId);
  }

  /**
   * The offer's verify button routes to verify_payment and carries back exactly the
   * reference of the record just written.
   */
  lemma OfferButtonCarriesRef(st: BotState, userId: int, data: string, now: int, response: LinkResponse)
    requires SelectPlan(st, userId, data, now, response).1.PaymentOffer?
    ensures var r := SelectPlan(st, userId, data, now, response);
      && Dispatch(r.1.verifyButton) == Action.VerifyPayment
      && ParseVerifyRef(r.1.verifyButton) == Some(r.1.txRef)
      && r.1.txRef in r.0.db.payments && r.0.db.payments[r.1.txRef].userId == userId
      && r.0.db.payments[r.1.txRef].status == Pending
  {
    var r := SelectPlan(st, userId, data, now, response);
    var ref := r.1.txRef;
    assert r.1.verifyButton == VerifyCallback(ref)
      && ref in r.0.db.payments && r.0.db.payments[ref].userId == userId && r.0.db.payments[ref].status == Pending;
    RenderedButtonsDispatch("", ref);
    VerifyCallbackRoundTrip(ref);
  }

  // ---------------------------------------------------------------- payment verification

  /** The parts of the gateway's verify_by_reference JSON the handler reads. */
  datatype VerifyData = VerifyData(status: Option<string>, plan: Option<string>)
  datatype VerifyResponse = VerifyResponse(status: Option<string>, data: Option<VerifyData>)

  /** status == 'success' and data.status == 'successful' (a missing data reads as {}). */
  predicate Successful(response: VerifyResponse) {
    response.status == Some("success") && response.data.Some? && response.data.value.status == Some("successful")
  }

  datatype VerifyReply =
    | MalformedVerifyData
    | RecordNotFound
    | AlreadyProcessed
    | NotConfirmed
    | MissingPlan
    | UnknownPlanInPayment
    | Activated(plan: string, end: int)

  /**
   * verify_payment: the record must exist and belong to the caller; a completed record
   * is not processed again; then the gateway must report success, its metadata must
   * name a plan (a missing key raises KeyError) that is in PLANS. Only then is the
   * subscription written, from now, and the payment marked completed.
   */
  function ConfirmPayment(db: Db, userId: int, data: string, now: int, response: VerifyResponse): (r: (Db, VerifyReply))
    ensures r.0.users.Keys == db.users.Keys && r.0.payments.Keys == db.payments.Keys
    ensures !r.1.Activated? ==> r.0 == db
  {
    match ParseVerifyRef(data)
    case None => (db, MalformedVerifyData)
    case Some(ref) =>
      if ref !in db.payments || db.payments[ref].userId != userId then (db, RecordNotFound)
      else if db.payments[ref].status == Completed then (db, AlreadyProcessed)
      else if !Successful(response) then (db, NotConfirmed)
      else match response.data.value.plan
        case None => (db, MissingPlan)
        case Some(planType) =>
          match Plans.Lookup(planType)
          case None => (db, UnknownPlanInPayment)
          case Some(plan) =>
            var window := ActivationWindow(now, plan);
            var subscribed := UpdateSubscription(db, userId, planType, window.0, window.1, now);
            (UpdatePaymentStatus(subscribed, ref, Completed, now), Activated(planType, window.1))
  }

  /** A missing record, or someone else's, is refused and nothing changes. */
  lemma VerifyChecksOwnership(db: Db, userId: int, ref: string, now: int, response: VerifyResponse)
    requires ref !in db.payments || db.payments[ref].userId != userId
    ensures ConfirmPayment(db, userId, VerifyCallback(ref), now, response) == (db, RecordNotFound)
  {
    VerifyCallbackRoundTrip(ref);
  }

  /** A completed record is never processed again, whatever the gateway now says. */
  lemma VerifyCompletedIsNoOp(db: Db, userId: int, ref: string, now: int, response: VerifyResponse)
    requires ref in db.payments && db.payments[ref].userId == userId && db.payments[ref].status == Completed
    ensures ConfirmPayment(db, userId, VerifyCallback(ref), now, response) == (db, AlreadyProcessed)
  {
    VerifyCallbackRoundTrip(ref);
  }

  /**
   * The tables change exactly when the caller's record is not yet completed, the
   * gateway reports success and names a plan in PLANS. Then the caller's row holds that
   * plan with start = now and end = now + duration, is premium, the payment is
   * completed, and no other row changes; otherwise nothing changes.
   */
  lemma VerifyActivatesExactly(db: Db, userId: int, ref: string, now: int, response: VerifyResponse)
    requires Consistent(db)
    ensures var r := ConfirmPayment(db, userId, VerifyCallback(ref), now, response);
      var grant := && ref in db.payments && db.payments[ref].userId == userId
                   && db.payments[ref].status != Completed && Successful(response)
                   && response.data.value.plan.Some? && Plans.Lookup(response.data.value.plan.value).Some?;
      && (r.1.Activated? <==> grant)
      && (!grant ==> r.0 == db)
      && (grant ==>
           var planType := response.data.value.plan.value;
           var end := now + Plans.Lookup(planType).value.durationDays * Plans.SecondsPerDay;
           && r.1 == Activated(planType, end)
           && r.0.users == db.users[userId := Subscribed(db.users[userId], planType, now, end, now)]
           && r.0.payments == db.payments[ref := db.payments[ref].(status := Completed, updatedAt := now)])
  {
    VerifyCallbackRoundTrip(ref);
  }

  /**
   * At most one activation per reference: once a verification has activated, any later
   * verification of the same button by the same user changes nothing.
   */
  lemma VerifyAtMostOnce(db: Db, userId: int, data: string, t1: int, r1: VerifyResponse, t2: int, r2: VerifyResponse)
    requires ConfirmPayment(db, userId, data, t1, r1).1.Activated?
    ensures var after := ConfirmPayment(db, userId, data, t1, r1).0;
      ConfirmPayment(after, userId, data, t2, r2) == (after, AlreadyProcessed)
  {
  }

  /**
   * Renewing early does not extend: the new window ends at now + duration, which is
   * before the old end + duration whenever the old end is still ahead.
   */
  lemma EarlyRenewalRestartsWindow(db: Db, userId: int, ref: string, now: int, response: VerifyResponse)
    requires Consistent(db)
    requires ConfirmPayment(db, userId, VerifyCallback(ref), now, response).1.Activated?
    requires db.users[userId].end.Some? && db.users[userId].end.value > now
    ensures var r := ConfirmPayment(db, userId, VerifyCallback(ref), now, response);
      var planType := response.data.value.plan.value;
      var d := Plans.Lookup(planType).value.durationDays * Plans.SecondsPerDay;
      r.0.users[userId].end == Some(now + d) && now + d < db.users[userId].end.value + d
  {
  }

  lemma VerifyConsistent(db: Db, userId: int, data: string, now: int, response: VerifyResponse)
    requires Consistent(db)
    ensures Consistent(ConfirmPayment(db, userId, data, now, response).0)
  {
  }

  // ---------------------------------------------------------------- expiry sweep

  /** The best-effort platform calls the sweep makes: the expiry message, then the ban. */
  datatype SweepEvent = ExpiryNotice(userId: int) | ChannelRemoval(userId: int)

  /**
   * One user of check_expired_subscriptions. A failing expire_user_subscription skips
   * the user; otherwise the row is expired first, the message is sent, and the ban is
   * attempted only if sending did not raise and a premium channel id is configured.
   */
  function SweepOne(db: Db, userId: int, now: int, channel: bool, storageFailures: set<int>, sendFailures: set<int>): (r: (Db, seq<SweepEvent>))
    ensures r.0.payments == db.payments && r.0.users.Keys == db.users.Keys
    ensures |r.1| <= 2 && forall e :: e in r.1 ==> e.userId == userId
  {
    if userId in storageFailures then (db, [])
    else if userId in sendFailures || !channel then (ExpireUser(db, userId, now), [ExpiryNotice(userId)])
    else (ExpireUser(db, userId, now), [ExpiryNotice(userId), ChannelRemoval(userId)])
  }

  /** The loop over the selected ids: each user's failure is caught and the loop goes on. */
  function Sweep(db: Db, ids: seq<int>, now: int, channel: bool, storageFailures: set<int>, sendFailures: set<int>): (r: (Db, seq<SweepEvent>))
    ensures r.0.payments == db.payments && r.0.users.Keys == db.users.Keys
    ensures |r.1| <= 2 * |ids|
    decreases |ids|
  {
    if ids == [] then (db, [])
    else
      var before := Sweep(db, ids[..|ids| - 1], now, channel, storageFailures, sendFailures);
      var step := SweepOne(before.0, ids[|ids| - 1], now, channel, storageFailures, sendFailures);
      (step.0, before.1 + step.1)
  }

  /**
   * What a pass leaves in the users table: the rows of the listed users whose write did
   * not fail are expired, every other row is as it was, and payments are untouched.
   */
  lemma {:induction false} SweepRows(db: Db, ids: seq<int>, now: int, channel: bool, storageFailures: set<int>, sendFailures: set<int>)
    ensures var r := Sweep(db, ids, now, channel, storageFailures, sendFailures).0;
      && r.payments == db.payments && r.users.Keys == db.users.Keys
      && (forall u :: u in db.users && u in ids && u !in storageFailures ==> r.users[u] == Lapsed(db.users[u], now))
      && (forall u :: u in db.users && (u !in ids || u in storageFailures) ==> r.users[u] == db.users[u])
    decreases |ids|
  {
    if ids != [] {
      var init := ids[..|ids| - 1];
      var last := ids[|ids| - 1];
      SweepRows(db, init, now, channel, storageFailures, sendFailures);
      var before := Sweep(db, init, now, channel, storageFailures, sendFailures).0;
      assert Sweep(db, ids, now, channel, storageFailures, sendFailures).0
        == SweepOne(before, last, now, channel, storageFailures, sendFailures).0;
      assert forall u :: u in ids <==> u in init || u == last by {
        assert ids == init + [last];
      }
    }
  }

  /**
   * After a pass over a list that covers the selected users, the only users still
   * premium with an end in the past are those whose write failed: a failure on one
   * user does not stop the others.
   */
  lemma SweepLeavesOnlyFailures(db: Db, ids: seq<int>, now: int, channel: bool, storageFailures: set<int>, sendFailures: set<int>)
    requires forall u :: u in ExpiredUsers(db, now) ==> u in ids
    ensures ExpiredUsers(Sweep(db, ids, now, channel, storageFailures, sendFailures).0, now)
      == ExpiredUsers(db, now) * storageFailures
  {
    SweepRows(db, ids, now, channel, storageFailures, sendFailures);
    var r := Sweep(db, ids, now, channel, storageFailures, sendFailures).0;
    assert forall u :: u in ExpiredUsers(r, now) <==> u in ExpiredUsers(db, now) && u in storageFailures;
  }

  /** A pass keeps the tables consistent: expiring rows never breaks a premium row or a payment's owner. */
  lemma {:induction false} SweepConsistent(db: Db, ids: seq<int>, now: int, channel: bool, storageFailures: set<int>, sendFailures: set<int>)
    requires Consistent(db)
    ensures Consistent(Sweep(db, ids, now, channel, storageFailures, sendFailures).0)
    decreases |ids|
  {
    if ids != [] {
      var before := Sweep(db, ids[..|ids| - 1], now, channel, storageFailures, sendFailures);
      SweepConsistent(db, ids[..|ids| - 1], now, channel, storageFailures, sendFailures);
      ExpireUserConsistent(before.0, ids[|ids| - 1], now);
    }
  }

  /** With no storage failure, a pass leaves no premium user whose end has passed. */
  lemma SweepClearsAllOverdue(db: Db, ids: seq<int>, now: int, channel: bool, sendFailures: set<int>)
    requires forall u :: u in ExpiredUsers(db, now) ==> u in ids
    ensures ExpiredUsers(Sweep(db, ids, now, channel, {}, sendFailures).0, now) == {}
  {
    SweepLeavesOnlyFailures(db, ids, now, channel, {}, sendFailures);
  }

  /**
   * Over a list without repetitions, each user gets one expiry message when the write
   * succeeded, and one removal attempt when the message went out too and a channel is
   * configured; no user gets more.
   */
  lemma {:induction false} SweepEventsOncePerUser(db: Db, ids: seq<int>, now: int, channel: bool, storageFailures: set<int>, sendFailures: set<int>, u: int)
    requires forall i, j :: 0 <= i < j < |ids| ==> ids[i] != ids[j]
    ensures var events := multiset(Sweep(db, ids, now, channel, storageFailures, sendFailures).1);
      && events[ExpiryNotice(u)] == (if u in ids && u !in storageFailures then 1 else 0)
      && events[ChannelRemoval(u)] == (if channel && u in ids && u !in storageFailures && u !in sendFailures then 1 else 0)
    decreases |ids|
  {
    if ids != [] {
      var init := ids[..|ids| - 1];
      var last := ids[|ids| - 1];
      assert forall i, j :: 0 <= i < j < |init| ==> init[i] != init[j] by {
        assert forall i :: 0 <= i < |init| ==> init[i] == ids[i];
      }
      assert last !in init by {
        assert forall i :: 0 <= i < |init| ==> init[i] == ids[i];
      }
      assert u in ids <==> u in init || u == last by {
        assert ids == init + [last];
      }
      SweepEventsOncePerUser(db, init, now, channel, storageFailures, sendFailures, u);
      var before := Sweep(db, init, now, channel, storageFailures, sendFailures);
      var step := SweepOne(before.0, last, now, channel, storageFailures, sendFailures);
      SweepOneEvents(before.0, last, now, channel, storageFailures, sendFailures, u);
      assert multiset(Sweep(db, ids, now, channel, storageFailures, sendFailures).1) == multiset(before.1) + multiset(step.1) by {
        assert Sweep(db, ids, now, channel, storageFailures, sendFailures).1 == before.1 + step.1;
      }
    }
  }

  /** The events of one user's step, counted per user. */
  lemma SweepOneEvents(db: Db, userId: int, now: int, channel: bool, storageFailures: set<int>, sendFailures: set<int>, u: int)
    ensures var events := multiset(SweepOne(db, userId, now, channel, storageFailures, sendFailures).1);
      && events[ExpiryNotice(u)] == (if u == userId && u !in storageFailures then 1 else 0)
      && events[ChannelRemoval(u)] == (if channel && u == userId && u !in storageFailures && u !in sendFailures then 1 else 0)
  {
  }

  // ---------------------------------------------------------------- button dispatch

  datatype ButtonReply =
    | UpgradeShown(upgrade: UpgradeReply)
    | PlanSelected(selection: SelectReply)
    | PaymentChecked(verification: VerifyReply)
    | InfoShown
    | SupportShown
    | WelcomeShown
    | UnknownActionAnswered

  /**
   * button_handler: routes the callback data; "back_to_menu" runs start, which
   * re-registers the user through add_user.
   */
  function HandleButton(st: BotState, userId: int, username: Option<string>, firstName: Option<string>,
                        data: string, now: int, link: LinkResponse, verification: VerifyResponse): (r: (BotState, ButtonReply))
    ensures r.0.db.users.Keys >= st.db.users.Keys && r.0.db.payments.Keys >= st.db.payments.Keys
    ensures Dispatch(data) != ChoosePlan ==> r.0.requests == st.requests
  {
    match Dispatch(data)
    case Upgrade =>
      var r := UpgradeMenu(st.db, userId, now);
      (st.(db := r.0), UpgradeShown(r.1))
    case ChoosePlan =>
      var r := SelectPlan(st, userId, data, now, link);
      (r.0, PlanSelected(r.1))
    case VerifyPayment =>
      var r := ConfirmPayment(st.db, userId, data, now, verification);
      (st.(db := r.0), PaymentChecked(r.1))
    case LearnMore => (st, InfoShown)
    case Support => (st, SupportShown)
    case BackToMenu => (st.(db := AddUser(st.db, userId, username, firstName, now)), WelcomeShown)
    case UnknownAction => (st, UnknownActionAnswered)
  }

  /**
   * Only plan selection touches the rate limiter, and only plan selection and payment
   * verification touch the payments table.
   */
  lemma HandleButtonFootprint(st: BotState, userId: int, username: Option<string>, firstName: Option<string>,
                              data: string, now: int, link: LinkResponse, verification: VerifyResponse)
    ensures var r := HandleButton(st, userId, username, firstName, data, now, link, verification).0;
      && (!StartsWith(data, "plan_") ==> r.requests == st.requests)
      && (!StartsWith(data, "plan_") && !StartsWith(data, "verify_") ==> r.db.payments == st.db.payments)
  {
  }

  /**
   * Pressing "Back to Menu" as a premium user ends the subscription, because start
   * re-registers the user with INSERT OR REPLACE.
   */
  lemma BackToMenuEndsSubscription(st: BotState, userId: int, username: Option<string>, firstName: Option<string>,
                                   now: int, link: LinkResponse, verification: VerifyResponse)
    requires userId in st.db.users && st.db.users[userId].isPremium
    ensures var r := HandleButton(st, userId, username, firstName, "back_to_menu", now, link, verification);
      r.1 == WelcomeShown && !r.0.db.users[userId].isPremium && r.0.db.users[userId].end.None?
  {
    RenderedButtonsDispatch("", "");
  }

  // ---------------------------------------------------------------- completed payments

  /** Every payment completed in `before` is still there, unchanged, in `after`. */
  predicate KeepsCompleted(before: Db, after: Db) {
    forall ref :: ref in before.payments && before.payments[ref].status == Completed ==>
      ref in after.payments && after.payments[ref] == before.payments[ref]
  }

  /** Plan selection only ever adds a payment record. */
  lemma SelectPlanKeepsCompleted(st: BotState, userId: int, data: string, now: int, response: LinkResponse)
    ensures KeepsCompleted(st.db, SelectPlan(st, userId, data, now, response).0.db)
  {
    var r := SelectPlan(st, userId, data, now, response);
    if r.1.PaymentOffer? {
      SelectPlanRecordsOnlyCreatedLinks(st, userId, data, now, response);
      assert forall q :: q in st.db.payments ==> r.0.db.payments[q] == st.db.payments[q];
    }
  }

  /** Verification only ever completes a record that was not completed yet. */
  lemma ConfirmPaymentKeepsCompleted(db: Db, userId: int, data: string, now: int, response: VerifyResponse)
    ensures KeepsCompleted(db, ConfirmPayment(db, userId, data, now, response).0)
  {
    var r := ConfirmPayment(db, userId, data, now, response);
    if r.1.Activated? {
      var ref := ParseVerifyRef(data).value;
      assert db.payments[ref].status != Completed;
      assert forall q :: q in db.payments && q != ref ==> r.0.payments[q] == db.payments[q];
    }
  }

  /** No button leaves a completed payment anything but completed and as it was. */
  lemma HandleButtonKeepsCompleted(st: BotState, userId: int, username: Option<string>, firstName: Option<string>,
                                   data: string, now: int, link: LinkResponse, verification: VerifyResponse)
    ensures KeepsCompleted(st.db, HandleButton(st, userId, username, firstName, data, now, link, verification).0.db)
  {
    var action := Dispatch(data);
    if action == ChoosePlan {
      SelectPlanKeepsCompleted(st, userId, data, now, link);
    } else if action == Action.VerifyPayment {
      ConfirmPaymentKeepsCompleted(st.db, userId, data, now, verification);
    }
  }

  /** A sweep pass never touches the payments table. */
  lemma {:induction false} SweepKeepsPayments(db: Db, ids: seq<int>, now: int, channel: bool, storageFailures: set<int>, sendFailures: set<int>)
    ensures Sweep(db, ids, now, channel, storageFailures, sendFailures).0.payments == db.payments
    decreases |ids|
  {
    if ids != [] {
      SweepKeepsPayments(db, ids[..|ids| - 1], now, channel, storageFailures, sendFailures);
    }
  }

  /** Neither /status nor /start touches the payments table. */
  lemma CommandsKeepPayments(db: Db, userId: int, username: Option<string>, firstName: Option<string>, now: int)
    ensures CheckStatus(db, userId, now).0.payments == db.payments
    ensures AddUser(db, userId, username, firstName, now).payments == db.payments
  {
  }

  /**
   * At most one activation per reference across any handlers: once a verification has
   * activated, every later state that kept completed payments refuses to activate the
   * same button again and changes nothing.
   */
  lemma NoSecondActivation(db: Db, userId: int, data: string, t1: int, r1: VerifyResponse,
                           later: Db, t2: int, r2: VerifyResponse)
    requires ConfirmPayment(db, userId, data, t1, r1).1.Activated?
    requires KeepsCompleted(ConfirmPayment(db, userId, data, t1, r1).0, later)
    ensures ConfirmPayment(later, userId, data, t2, r2) == (later, AlreadyProcessed)
  {
    var ref := ParseVerifyRef(data).value;
    var after := ConfirmPayment(db, userId, data, t1, r1).0;
    assert ref in after.payments && after.payments[ref].status == Completed;
  }

  /** Keeping completed payments composes, so it holds across any sequence of the handlers above. */
  lemma KeepsCompletedTransitive(a: Db, b: Db, c: Db)
    requires KeepsCompleted(a, b) && KeepsCompleted(b, c)
    ensures KeepsCompleted(a, c)
  {
  }
}
