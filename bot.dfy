/**
 * PremiumBot: the handlers as methods over the shared DatabaseManager and
 * RateLimiter. Each handler is proved to leave the objects in the state, and give
 * the reply, that the matching function of module Lifecycle describes.
 */
module Bot {
  import opened Wrappers
  import Plans
  import opened Callbacks
  import RateLimit
  import opened Tables
  import opened Lifecycle
  import Store

  /** The loop over PLANS that lays out the upgrade keyboard, followed by the "Back" button. */
  method PlanKeyboard() returns (buttons: seq<string>)
    ensures buttons == MenuButtons()
  {
    buttons := [];
    var i := 0;
    while i < |Plans.PlanIds|
      invariant 0 <= i <= |Plans.PlanIds|
      invariant |buttons| == i
      invariant forall k :: 0 <= k < i ==> buttons[k] == PlanCallback(Plans.PlanIds[k])
    {
      buttons := buttons + [PlanCallback(Plans.PlanIds[i])];
      i := i + 1;
    }
    buttons := buttons + ["back_to_menu"];
  }

  class PremiumBot {
    const db: Store.DatabaseManager
    const limiter: RateLimit.RateLimiter

    ghost predicate Valid()
      reads db, limiter
    {
      db.Valid() && limiter.Valid()
    }

    function State(): BotState
      reads db, limiter
    {
      BotState(db.State(), limiter.requests)
    }

    /** A bot over a fresh, empty database and an empty limiter. */
    constructor ()
      ensures Valid() && fresh(db) && fresh(limiter)
      ensures State() == BotState(Db(map[], map[]), map[])
    {
      db := new Store.DatabaseManager();
      limiter := new RateLimit.RateLimiter();
    }

    /** start, run by /start, /help and "Back to Menu": registers the user with add_user. */
    method Start(userId: int, username: Option<string>, firstName: Option<string>, now: int)
      requires Valid()
      modifies db
      ensures Valid()
      ensures db.State() == Tables.AddUser(old(db.State()), userId, username, firstName, now)
    {
      db.AddUser(userId, username, firstName, now);
    }

    method UpgradeMenu(userId: int, now: int) returns (reply: UpgradeReply)
      requires Valid()
      modifies db
      ensures Valid()
      ensures (db.State(), reply) == Lifecycle.UpgradeMenu(old(db.State()), userId, now)
    {
      var row := db.GetUser(userId);
      if row.Some? && row.value.isPremium && row.value.end.Some? {
        if row.value.end.value > now {
          if row.value.plan.Some? {
            return AlreadySubscribed(row.value.plan.value, row.value.end.value);
          }
        } else {
          db.ExpireUserSubscription(userId, now);
        }
      }
      var buttons := PlanKeyboard();
      reply := PlanMenu(buttons);
    }

    method ProcessPlanSelection(userId: int, data: string, now: int, response: LinkResponse) returns (reply: SelectReply)
      requires Valid()
      modifies db, limiter
      ensures Valid()
      ensures (State(), reply) == SelectPlan(old(State()), userId, data, now, response)
    {
      var allowed := limiter.IsAllowed(userId, now);
      if !allowed {
        return RateLimited;
      }
      var planId := ParsePlanId(data);
      if planId.None? {
        return MalformedPlanData;
      }
      var plan := Plans.Lookup(planId.value);
      if plan.None? {
        return InvalidPlan;
      }
      match response {
        case LinkFailed(message) =>
          reply := LinkError(message);
        case LinkCreated(nonce, stamp, link) =>
          var ref := TxRef(userId, nonce, stamp);
          var error := db.AddPaymentRecord(userId, ref, plan.value.amount, planId.value, now);
          reply := if error.Some? then SelectFailed else PaymentOffer(ref, link, VerifyCallback(ref));
      }
    }

    method VerifyPayment(userId: int, data: string, now: int, response: VerifyResponse) returns (reply: VerifyReply)
      requires Valid()
      modifies db
      ensures Valid()
      ensures (db.State(), reply) == ConfirmPayment(old(db.State()), userId, data, now, response)
    {
      var parsed := ParseVerifyRef(data);
      if parsed.None? {
        return MalformedVerifyData;
      }
      var ref := parsed.value;
      var record := db.GetPaymentRecord(ref);
      if record.None? || record.value.userId != userId {
        return RecordNotFound;
      }
      if record.value.status == Completed {
        return AlreadyProcessed;
      }
      if !Successful(response) {
        return NotConfirmed;
      }
      var planType := response.data.value.plan;
      if planType.None? {
        return MissingPlan;
      }
      var plan := Plans.Lookup(planType.value);
      if plan.None? {
        return UnknownPlanInPayment;
      }
      var window := ActivationWindow(now, plan.value);
      db.UpdateSubscription(userId, planType.value, window.0, window.1, now);
      db.UpdatePaymentStatus(ref, Completed, now);
      reply := Activated(planType.value, window.1);
    }

    method CheckSubscriptionStatus(userId: int, now: int) returns (reply: StatusReply)
      requires Valid()
      modifies db
      ensures Valid()
      ensures (db.State(), reply) == CheckStatus(old(db.State()), userId, now)
    {
      var row := db.GetUser(userId);
      if row.None? {
        return NotRegistered;
      }
      var user := row.value;
      if !user.isPremium {
        return FreeAccount;
      }
      if user.end.None? {
        return StatusError;
      }
      if user.end.value > now {
        if user.plan.None? {
          return StatusError;
        }
        var left := TimeLeft(user.end.value - now);
        reply := ActiveUntil(user.plan.value, user.end.value, left.0, left.1);
      } else {
        db.ExpireUserSubscription(userId, now);
        reply := SubscriptionExpired;
      }
    }

    method ButtonHandler(userId: int, username: Option<string>, firstName: Option<string>, data: string, now: int,
                         link: LinkResponse, verification: VerifyResponse) returns (reply: ButtonReply)
      requires Valid()
      modifies db, limiter
      ensures Valid()
      ensures (State(), reply) == HandleButton(old(State()), userId, username, firstName, data, now, link, verification)
    {
      var action := Dispatch(data);
      if action.Upgrade? {
        var r := UpgradeMenu(userId, now);
        reply := UpgradeShown(r);
      } else if action.ChoosePlan? {
        var r := ProcessPlanSelection(userId, data, now, link);
        reply := PlanSelected(r);
      } else if action.VerifyPayment? {
        var r := VerifyPayment(userId, data, now, verification);
        reply := PaymentChecked(r);
      } else if action.LearnMore? {
        reply := InfoShown;
      } else if action.Support? {
        reply := SupportShown;
      } else if action.BackToMenu? {
        Start(userId, username, firstName, now);
        reply := WelcomeShown;
      } else {
        reply := UnknownActionAnswered;
      }
    }

    /**
     * The scheduled check_expired_subscriptions: lists the users whose subscription
     * has ended, then processes them one by one. Returns the ids it listed and the
     * platform calls it made.
     */
    method CheckExpiredSubscriptions(now: int, channel: bool, storageFailures: set<int>, sendFailures: set<int>)
      returns (ids: seq<int>, events: seq<SweepEvent>)
      requires Valid()
      modifies db
      ensures Valid()
      ensures forall u :: u in ids <==> u in ExpiredUsers(old(db.State()), now)
      ensures forall i, j :: 0 <= i < j < |ids| ==> ids[i] != ids[j]
      ensures (db.State(), events) == Sweep(old(db.State()), ids, now, channel, storageFailures, sendFailures)
      ensures ExpiredUsers(db.State(), now) == ExpiredUsers(old(db.State()), now) * storageFailures
    {
      ids := db.GetExpiredUsers(now);
      ghost var start := db.State();
      events := [];
      var i := 0;
      while i < |ids|
        invariant 0 <= i <= |ids|
        invariant db.Valid()
        invariant (db.State(), events) == Sweep(start, ids[..i], now, channel, storageFailures, sendFailures)
      {
        var u := ids[i];
        ghost var step := SweepOne(db.State(), u, now, channel, storageFailures, sendFailures);
        assert ids[..i + 1][..i] == ids[..i] && ids[..i + 1][i] == u;
        assert Sweep(start, ids[..i + 1], now, channel, storageFailures, sendFailures) == (step.0, events + step.1);
        ghost var earlier := events;
        if u !in storageFailures {
          db.ExpireUserSubscription(u, now);
          if channel && u !in sendFailures {
            events := events + [ExpiryNotice(u), ChannelRemoval(u)];
          } else {
            events := events + [ExpiryNotice(u)];
          }
        }
        assert db.State() == step.0;
        assert events == earlier + step.1;
        i := i + 1;
      }
      assert ids[..i] == ids;
      SweepLeavesOnlyFailures(start, ids, now, channel, storageFailures, sendFailures);
    }
  }
}
