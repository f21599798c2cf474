# Premium Gaming Bot: a verified model of its subscription core

This project models the part of the Premium Gaming Bot (a Telegram bot that sells
time-limited access to a premium channel, with payments through Flutterwave) that
decides who is premium and for how long. It covers these parts:

- the `PLANS` table;
- `sanitize_string` and the SQLite-backed `DatabaseManager`, with its `users` and
  `payments` tables;
- the per-user sliding-window `RateLimiter`;
- the parsing of callback data (`"plan_<id>"`, `"verify_<tx_ref>"`);
- the decision logic of the handlers `start`, `upgrade_menu`,
  `process_plan_selection`, `verify_payment`, `check_subscription_status`,
  `button_handler`, and the scheduled `check_expired_subscriptions`.

Times are whole seconds since the epoch and are passed in as `now`. The answers of
the payment gateway and the failures of the chat platform are also parameters,
because they are outside the bot.

## Layout

- `wrappers.dfy`: `Option` and `Result`.
- `text.dfy` (module `Text`): Python string semantics.
  - `str.strip()` over the code points `str.isspace()` accepts.
  - Slicing `s[:n]`, including a negative `n`.
  - `split(sep)` and `split(sep, 1)`.
  - `startswith`.
  - The decimal text of an int.
- `plans.dfy` (module `Plans`): `PLANS`.
- `callbacks.dfy` (module `Callbacks`): the routing of `button_handler`, the
  callback data the bot renders, the two parsers, and the shape of `tx_ref`.
- `ratelimit.dfy` (module `RateLimit`):
  - the limiter as functions on a user's list of request times;
  - class `RateLimiter`, whose `IsAllowed` updates its `requests` map in place.
- `tables.dfy` (module `Tables`): the two tables as a value `Db`, with one function
  per SQL statement and the table invariant `Consistent`. `Consistent` holds two
  facts:
  - every premium row has a plan and a window;
  - every payment's user exists.
- `store.dfy` (module `Store`): class `DatabaseManager`. Its fields hold the
  tables, and its methods change them in place. Each method is proved to give
  the table its `Tables` function gives.
- `lifecycle.dfy` (module `Lifecycle`): each handler's decision as a function
  from the tables (and the limiter's map) to new tables and a reply. The
  properties of the bot are proved here.
- `bot.dfy` (module `Bot`): class `PremiumBot`, which holds a `DatabaseManager`
  and a `RateLimiter`. Each handler method is proved to match the `Lifecycle`
  function of the same handler.

## Behaviour of the code the model keeps

- **Activation restarts the window.** `verify_payment` stores `start = now` and
  `end = now + duration_days` (bot.py:648-651). Paying while a subscription is
  still running therefore does not add to it (`Lifecycle.EarlyRenewalRestartsWindow`).
- **`/start`, `/help` and "Back to Menu" end a subscription.** All three run
  `start` (`/help` is registered to it at bot.py:1017), which calls `add_user`.
  `add_user` is
  `INSERT OR REPLACE`, so it deletes and reinserts the row. Every column it does
  not list falls back to its default: no plan, no window, `is_premium = 0`, and a
  new `created_at` (`Tables.AddUserRevokesSubscription`,
  `Lifecycle.BackToMenuEndsSubscription`).
- **Two expiry tests.**
  - `/status` and the upgrade menu expire a premium user when `end <= now`,
    because they test `end_date > current_time` for activity.
  - The scheduled sweep selects only `end < now`.
  - So a user whose end is exactly now is expired by `/status` but not selected
    by the sweep (`Lifecycle.StatusAndSweepBoundary`).
- **Expiry clears only two columns.** `expire_user_subscription` clears only
  `is_premium` and `subscription_plan`. The window stays in the row
  (`Tables.ExpireKeepsWindow`).
- **The gateway decides the plan.** `verify_payment` grants the plan named in the
  gateway's metadata, not the `plan_type` stored with the payment record. It does
  not compare the amount paid.
- **The sweep bans only after a successful notice.** It attempts the channel ban
  only when the expiry message was sent without an exception.

## Model

| member | source | states |
|---|---|---|
| Plans.Lookup | bot.py:79-84 | `PLANS.get(id)` yields a plan exactly for the four ids daily, weekly, monthly and yearly. Every plan has a positive amount and lasts at least one day. |
| Plans.PlanIdsWellFormed | bot.py:79-84 | The plan ids are distinct and contain no `_`, so `split('_')[1]` recovers them from their buttons. |
| Text.Strip | bot.py:158 | `str.strip()` returns a slice of its input with no whitespace at either end, and only whitespace was removed from either side. |
| Text.SliceTo | bot.py:158 | `s[:n]` is a prefix of `s` of length `min(n, len(s))` for `n >= 0` and `max(len(s)+n, 0)` for negative `n`. |
| Text.Sanitize | bot.py:154-158 | `None` maps to `None`. Otherwise the result is stripped, no longer than `max_length`, and no longer than the input. |
| Text.SanitizeKeepsClean | bot.py:154-158 | An already stripped string within the limit passes through unchanged. |
| Text.SanitizeIdempotent | bot.py:154-158 | Sanitizing twice gives the same result as sanitizing once. |
| Text.StripOfStripped | bot.py:158 | `strip` leaves a stripped string unchanged. |
| Text.LeadingSpaces | bot.py:158 | Counts exactly the whitespace run at the start of the string. |
| Text.TrailingSpaces | bot.py:158 | Counts exactly the whitespace run at the end of the string. |
| Text.FindChar | bot.py:606 | The first occurrence of a character, or `None` exactly when it does not occur. |
| Text.FindCharAfter | bot.py:606 | In `p + [c] + rest` with `c` not in `p`, the first `c` is at index `len(p)`. |
| Text.Split | bot.py:552 | `str.split(sep)` always returns at least one piece. |
| Text.SplitPieces | bot.py:552 | `split` returns a single piece exactly when the separator does not occur, and no piece contains the separator. |
| Text.JoinSplit | bot.py:552 | Joining the pieces of `split` with the separator gives back the string. |
| Text.SplitJoin | bot.py:552 | Splitting a join of separator-free pieces gives back the pieces. |
| Text.SplitAround | bot.py:552 | A string is its prefix, the character at `i`, and the rest. |
| Text.SplitOnce | bot.py:606 | `str.split(sep, 1)` has one piece exactly when the separator is absent. Otherwise it has two pieces, the first free of the separator, and the original is first + sep + second. |
| Text.Digit | bot.py:322 | A digit below ten renders as a character from `'0'` to `'9'`. |
| Text.Decimal | bot.py:322 | A natural number renders as a non-empty run of decimal digits. |
| Text.IntText | bot.py:322 | An int renders as a non-empty string of digits and `-`, so the user id in `tx_ref` contains no `_`. |
| Callbacks.Dispatch | bot.py:781-794 | `button_handler` routing: each action is chosen exactly when its test in the `elif` chain holds (equality for upgrade, learn_more, support and back_to_menu; prefix for `plan_` and `verify_`). Anything else is an unknown action. |
| Callbacks.NotPrefixAt | bot.py:783-785 | A string that differs from a prefix at some position does not start with it. |
| Callbacks.RenderedButtonsDispatch | bot.py:476-480 | Every callback datum the bot renders routes to its own handler. |
| Callbacks.VerifyCallbackRoundTrip | bot.py:582-606 | `"verify_" + tx_ref` parsed with `split('_', 1)[1]` gives back `tx_ref`, even though `tx_ref` itself contains `_`. |
| Callbacks.SecondSegmentAfterWord | bot.py:552 | After a `_`-free word and `_`, `split('_')[1]` is the first segment of the rest. |
| Callbacks.PlanCallbackSelectsSecondSegment | bot.py:527-552 | `split('_')[1]` of a plan button yields the plan id up to its first `_`. |
| Callbacks.PlanCallbackRoundTrip | bot.py:527-552 | For a `_`-free plan id, the plan button parses back to that plan id. |
| Callbacks.SplitAfterWord | bot.py:552 | Splitting a `_`-free word, `_`, and the rest gives the word followed by the pieces of the rest. |
| Callbacks.ParsePlanId | bot.py:552 | `split('_')[1]` exists exactly when the data contains `_`, and it contains no `_`. Its round trips are `PlanCallbackRoundTrip` and `PlanCallbackSelectsSecondSegment`. |
| Callbacks.ParseVerifyRef | bot.py:606 | `split('_', 1)[1]` exists exactly when the data contains `_`, and it is a proper suffix of the data. `VerifyCallbackRoundTrip` proves that it undoes the verify button. |
| Callbacks.TxRef | bot.py:322 | Every `tx_ref` starts with `premium_bot_`. `TxRefFirstSegment` and `VerifyNeedsSingleSplit` state what this means for parsing. |
| Callbacks.TxRefFirstSegment | bot.py:322 | Every `tx_ref` starts with the segment `premium`. |
| Callbacks.VerifyCallbackSegments | bot.py:582 | The `_`-pieces of a verify button are `verify` followed by the pieces of the reference. |
| Callbacks.VerifyNeedsSingleSplit | bot.py:582-606 | `split('_')[1]` of a verify button would give `premium`, not the reference. This is why the handler must split only once. |
| RateLimit.Recent | bot.py:415 | Pruning keeps exactly the times newer than `now - 60`, each with as many copies as the list had, drops every older one, and never lengthens the list. |
| RateLimit.Step | bot.py:406-422 | A request is admitted exactly when fewer than 5 times survive pruning. An admitted request appends `now`; a refused one appends nothing. A list of at most 5 stays at most 5. |
| RateLimit.Admit | bot.py:406-422 | Only the caller's list changes, and it is created if missing. The decision is `Step` on the caller's history, and every list stays within the limit. |
| RateLimit.Replay | bot.py:406-422 | A run of calls admits no more calls than were made, and a list within the limit stays within it. |
| RateLimit.ReplayAppend | bot.py:406-422 | A run split in two is the first part, then the second part from the list the first left; the admissions add up. |
| RateLimit.AtMostMaxInAnyWindowOfRun | bot.py:401-422 | In any run, the calls that fall inside one 60-second window add at most 5 admissions, whatever came before them. |
| RateLimit.RecentAppend | bot.py:415 | Pruning a list with one more time appended is pruning the list, then keeping the new time if it is recent. |
| RateLimit.RecentNarrows | bot.py:415 | Pruning at an earlier time and then at a later one equals pruning at the later one. |
| RateLimit.RecentKeepsFresh | bot.py:415 | A list whose times are all within the window survives pruning whole. |
| RateLimit.WindowCap | bot.py:406-422 | For calls inside any 60-second window, the admitted calls plus the list's entries already in the window never exceed 5. |
| RateLimit.AtMostMaxPerWindow | bot.py:401-422 | At most 5 requests are admitted in any 60-second window. |
| RateLimit.BurstAdmitsExactly | bot.py:406-422 | A burst inside one window admits exactly as many calls as the remaining room. |
| RateLimit.FreshUserBurst | bot.py:401-422 | A new user's `k` calls within one minute admit exactly `min(k, 5)`. |
| RateLimit.RateLimiter.IsAllowed | bot.py:406-422 | The in-place update of `requests` and the returned decision equal `Admit` on the old map. The bound on every list is kept. |
| Tables.AddUser | bot.py:160-179 | `INSERT OR REPLACE`: the row's names are sanitized, the subscription columns are empty, it is not premium, and it is created and updated now. Other rows and payments are untouched. |
| Tables.AddUserRevokesSubscription | bot.py:169-172 | Re-registering a premium user makes them non-premium, and the sweep no longer selects them. |
| Tables.AddUserConsistent | bot.py:160-179 | `add_user` keeps the table invariant. |
| Tables.UpdateSubscription | bot.py:200-219 | The user's row gets the plan, the window and `is_premium = 1`. Nothing else changes, and a missing user is a no-op, as an `UPDATE` matching no row is. |
| Tables.UpdateSubscriptionConsistent | bot.py:200-219 | `update_subscription` keeps the table invariant. |
| Tables.SubscribedUntilEnd | bot.py:200-257 | After a subscription is written, the user is premium, and the sweep selects them exactly at times after its end. |
| Tables.ExpireUser | bot.py:221-238 | Only `is_premium` and the plan are cleared (and `updated_at` set), only on the user's row. A missing user is a no-op. |
| Tables.ExpireUserConsistent | bot.py:221-238 | Expiring keeps the table invariant. |
| Tables.ExpireKeepsWindow | bot.py:227-230 | Expiry leaves the start and end in the row and is idempotent. |
| Tables.ExpiredUsers | bot.py:247-252 | The sweep's `SELECT` returns only registered users. `SubscribedUntilEnd`, `AddUserRevokesSubscription` and `ExpiredUsersAfterExpire` state which ones. |
| Tables.ExpiredUsersAfterExpire | bot.py:221-257 | Expiring a user removes exactly that user from the sweep's selection. |
| Tables.AddPayment | bot.py:259-275 | The `INSERT` fails on a duplicate reference (`UNIQUE`) or an unknown user (foreign key with `PRAGMA foreign_keys = ON`). Otherwise it adds exactly one pending row and changes nothing else. |
| Tables.AddPaymentConsistent | bot.py:259-275 | A successful insert keeps the table invariant. |
| Tables.UpdatePaymentStatus | bot.py:277-292 | Only the named payment's status and `updated_at` change. |
| Tables.UpdatePaymentStatusConsistent | bot.py:277-292 | Updating a status keeps the table invariant. |
| Store.DatabaseManager.AddUser | bot.py:160-179 | The tables become `Tables.AddUser` of the old tables, and the invariant is kept. |
| Store.DatabaseManager.GetUser | bot.py:181-198 | Returns the user's row exactly when it exists. |
| Store.DatabaseManager.UpdateSubscription | bot.py:200-219 | The tables become `Tables.UpdateSubscription` of the old tables. |
| Store.DatabaseManager.ExpireUserSubscription | bot.py:221-238 | The tables become `Tables.ExpireUser` of the old tables. |
| Store.DatabaseManager.GetExpiredUsers | bot.py:240-257 | A scan of the rows returns exactly the premium users whose end is before `now`, each once. |
| Store.DatabaseManager.AddPaymentRecord | bot.py:259-275 | On success the tables become the `Tables.AddPayment` result. On failure the error is reported (raised) and nothing changes. |
| Store.DatabaseManager.UpdatePaymentStatus | bot.py:277-292 | The tables become `Tables.UpdatePaymentStatus` of the old tables. |
| Store.DatabaseManager.GetPaymentRecord | bot.py:294-311 | Returns the payment row exactly when the reference exists. |
| Lifecycle.TimeLeft | bot.py:728-730 | `timedelta.days` and `.seconds // 3600` give whole days, and hours under 24, bracketing the remaining time within one hour. |
| Lifecycle.CheckStatus | bot.py:713-774 | `/status` never touches payments and never adds or removes a user. Unless it reports "expired", it changes nothing. `StatusActiveIff`, `StatusExpiresOnlyCaller` and `StatusAndSweepBoundary` state the decision. |
| Lifecycle.TimeLeftIsFloor | bot.py:728-730 | These are the only such days and hours. |
| Lifecycle.StatusActiveIff | bot.py:713-757 | On consistent tables, `/status` reports an active subscription exactly when the user is premium with an end after now, and then changes nothing. |
| Lifecycle.StatusExpiresOnlyCaller | bot.py:724-746 | `/status` says "expired" exactly for a premium user whose end is at or before now. It then expires only that user, and in every other case writes nothing. |
| Lifecycle.StatusAndSweepBoundary | bot.py:724-746 | When the end equals now, `/status` (which tests `end_date > current_time`) expires the user, but the sweep's query (`subscription_end < ?`, bot.py:249) does not select them. |
| Lifecycle.MenuButtons | bot.py:522-532 | The menu holds one button per plan and ends with `back_to_menu`. `MenuButtonsSelectPlans` proves each plan button selects its plan. |
| Lifecycle.UpgradeMenu | bot.py:484-535 | `upgrade_menu` never touches payments and never adds or removes a user. When it shows plans, they are exactly `MenuButtons`. `UpgradeMenuDecision` states who gets which reply. |
| Lifecycle.MenuButtonsSelectPlans | bot.py:523-532 | The menu has one button per plan, in table order, then Back. Every plan button routes to plan selection and parses back to an existing plan. |
| Lifecycle.UpgradeMenuDecision | bot.py:484-535 | A user with a running subscription is told so and never offered plans. Everyone else gets the full menu, and only a lapsed premium user is expired on the way. |
| Lifecycle.SelectPlan | bot.py:537-598 | The limiter map is always `Admit` of the old one. Users are untouched, and no payment reference disappears. `SelectPlanConsultsLimiterFirst`, `SelectPlanRecordsOnlyCreatedLinks`, `UnknownPlanWritesNothing` and `OfferButtonCarriesRef` state the decision. |
| Lifecycle.SelectPlanConsultsLimiterFirst | bot.py:545-550 | The limiter records every selection. A refused request writes nothing else and answers "please wait". |
| Lifecycle.SelectPlanRecordsOnlyCreatedLinks | bot.py:545-598 | A payment offer is made exactly when the request is admitted, the plan exists, the gateway created a link and the insert succeeds. Then exactly one pending record owned by the caller, for the plan's amount, is added under the link's reference. Otherwise the tables do not change. |
| Lifecycle.UnknownPlanWritesNothing | bot.py:552-557 | A button for a `_`-free id not in `PLANS` never writes a payment record. (`plan_daily_x` selects `daily`, because only the second `_`-piece is read.) |
| Lifecycle.OfferButtonCarriesRef | bot.py:565-606 | The offer's verify button routes to `verify_payment`, and it parses back to the reference of the caller's pending record just written. |
| Lifecycle.ActivationWindow | bot.py:648-649 | The window starts at now and ends no earlier. For a plan of at least one day it ends at least a day later. `VerifyActivatesExactly` and `EarlyRenewalRestartsWindow` state the exact end. |
| Lifecycle.ConfirmPayment | bot.py:601-711 | Verification never adds or removes a user or a payment, and anything other than an activation changes nothing. `VerifyChecksOwnership`, `VerifyCompletedIsNoOp`, `VerifyActivatesExactly` and `VerifyAtMostOnce` state the decision. |
| Lifecycle.VerifyChecksOwnership | bot.py:608-616 | A missing reference, or another user's, is refused and nothing changes. |
| Lifecycle.VerifyCompletedIsNoOp | bot.py:619-624 | A completed payment is never processed again, whatever the gateway says. |
| Lifecycle.VerifyActivatesExactly | bot.py:601-711 | Activation happens exactly when four things hold: the caller's record is not yet completed, the gateway reports success twice, its metadata names a plan, and that plan is in `PLANS`. The user row then holds the plan with start = now and end = now + duration, and the payment is completed. In every other case nothing changes. |
| Lifecycle.VerifyAtMostOnce | bot.py:619-652 | After an activation, any later verification of the same button changes nothing. |
| Lifecycle.EarlyRenewalRestartsWindow | bot.py:648-651 | Paying during a running subscription sets the end to now + duration, which is earlier than old end + duration. |
| Lifecycle.VerifyConsistent | bot.py:601-711 | Verification keeps the table invariant. |
| Lifecycle.SweepOne | bot.py:912-939 | One user's step never touches payments or the set of users. It emits at most two events, all about that user. `SweepOneEvents` counts them. |
| Lifecycle.Sweep | bot.py:907-946 | A pass never touches payments or the set of users, and emits at most two events per listed id. `SweepRows`, `SweepLeavesOnlyFailures` and `SweepEventsOncePerUser` state what it does. |
| Lifecycle.SweepRows | bot.py:907-946 | A pass expires exactly the listed users whose write did not fail. Every other row and every payment is unchanged. |
| Lifecycle.SweepLeavesOnlyFailures | bot.py:907-946 | After a pass over the selected users, the only overdue premium users left are those whose write failed. A failure on one user does not stop the others. |
| Lifecycle.SweepClearsAllOverdue | bot.py:907-946 | Without storage failures, a pass leaves no overdue premium user. |
| Lifecycle.SweepConsistent | bot.py:907-946 | A pass keeps the table invariant. |
| Lifecycle.SweepEventsOncePerUser | bot.py:912-939 | Over distinct ids, each user gets one expiry message if their write succeeded, and one ban attempt if the message also went out and a channel is configured. No user gets more. |
| Lifecycle.SweepOneEvents | bot.py:912-939 | The events of one user's step, counted per user. |
| Lifecycle.SelectPlanKeepsCompleted | bot.py:537-598 | Plan selection leaves every completed payment as it was. |
| Lifecycle.ConfirmPaymentKeepsCompleted | bot.py:601-711 | Verification leaves every completed payment as it was; it only completes a record that was not completed. |
| Lifecycle.HandleButtonKeepsCompleted | bot.py:776-797 | No button leaves a completed payment anything but completed and unchanged. |
| Lifecycle.SweepKeepsPayments | bot.py:907-946 | A sweep pass never touches the payments table. |
| Lifecycle.CommandsKeepPayments | bot.py:431-447 | `/status` and `/start` never touch the payments table. |
| Lifecycle.NoSecondActivation | bot.py:619-652 | Once a verification has activated, any later tables that kept completed payments refuse to activate the same button again and are left unchanged. |
| Lifecycle.KeepsCompletedTransitive | bot.py:619-624 | Keeping completed payments composes, so the previous row holds across any sequence of handlers. |
| Lifecycle.HandleButton | bot.py:776-797 | No button removes a user or a payment reference, and only plan selection touches the limiter. `HandleButtonFootprint`, `HandleButtonKeepsCompleted` and `BackToMenuEndsSubscription` state more. |
| Lifecycle.HandleButtonFootprint | bot.py:776-797 | Only `plan_` data touches the limiter. Only `plan_` and `verify_` data touch the payments table. |
| Lifecycle.BackToMenuEndsSubscription | bot.py:791-792 | "Back to Menu" from a premium user answers with the welcome and ends their subscription. |
| Bot.PlanKeyboard | bot.py:522-532 | The loop over `PLANS` builds exactly the menu's callback data. |
| Bot.PremiumBot.Start | bot.py:431-447 | The tables become `Tables.AddUser` of the old ones. |
| Bot.PremiumBot.UpgradeMenu | bot.py:484-535 | The new tables and the reply are `Lifecycle.UpgradeMenu` of the old tables. |
| Bot.PremiumBot.ProcessPlanSelection | bot.py:537-598 | The new tables, the new limiter map and the reply are `Lifecycle.SelectPlan` of the old ones. |
| Bot.PremiumBot.VerifyPayment | bot.py:601-711 | The new tables and the reply are `Lifecycle.ConfirmPayment` of the old tables. |
| Bot.PremiumBot.CheckSubscriptionStatus | bot.py:713-757 | The new tables and the reply are `Lifecycle.CheckStatus` of the old tables. |
| Bot.PremiumBot.ButtonHandler | bot.py:776-797 | The new state and the reply are `Lifecycle.HandleButton` of the old state. |
| Bot.PremiumBot.CheckExpiredSubscriptions | bot.py:907-946 | Lists exactly the overdue premium users, each once. The new tables and the platform calls are `Lifecycle.Sweep` over that list. Afterwards the only overdue premium users are those whose write failed. |

## Left out

- Telegram I/O is not modelled: message texts, Markdown, keyboards other than
  their callback data, `query.answer()`. Replies are datatypes naming the outcome.
- The Flutterwave HTTP calls are not modelled.
  - `create_payment_link`'s outcome is the parameter `LinkResponse`, carrying the
    uuid nonce and the timestamp of `tx_ref`.
  - `verify_payment`'s JSON is the parameter `VerifyResponse`. Network errors
    there come back as `status: "error"`, which the model treats like any other
    unsuccessful answer.
- Clocks are not modelled: `datetime.now`, `time.time()` and the ISO-8601 strings
  stored in the tables are a single integer `now`. String comparison of timestamps
  (`subscription_end < ?`) is integer comparison, and the rate limiter's float
  seconds are whole seconds.
- Money is an integer in kobo. The division to naira and `amount REAL` are not
  modelled.
- The payments table's autoincrement `id` is not modelled, because nothing reads
  it.
- `get_connection`'s rollback is not modelled. Storage exceptions in `start`,
  `upgrade_menu`, `verify_payment` and `check_subscription_status` are not
  modelled either: each is caught and logged, and the model assumes the SQL
  succeeds.
  - In `process_plan_selection`, an `add_payment_record` failure that is not a
    constraint violation (a locked database, say) is caught at bot.py:594 and
    writes nothing. The model produces `SelectFailed` only for the `UNIQUE` and
    foreign-key failures of `Tables.AddPayment`, never for such an error.
  - `get_expired_users` returning `[]` on error is left out for the same reason.
  - The sweep keeps storage failures as the parameter `storageFailures`, because
    there they decide which users stay overdue.
- `asyncio.sleep(2)` in `verify_payment` is not modelled, and neither is the
  concurrency of handlers.
- `admin_stats`, `learn_more`, `support`, the health server, `load_config`,
  `main` and the job scheduling are not part of this model. They read no state
  the core writes, or only render text.
- The sweep's `channel` flag stands for `if CONFIG.PREMIUM_CHANNEL_ID`.
  `load_config` refuses an empty id, so it is true in a running bot.
- Lifecycle.VerifyActivatesExactly: the generic "Payment successful but there was
  an error setting up your account" reply (bot.py:685-691) is not modelled. It
  follows a storage exception inside the activation branch, or a `meta` that is
  not a dict. The KeyError reply (bot.py:678-684), for a gateway answer with no
  `meta` or `plan` key (bot.py:638), is modelled as `MissingPlan`.
- Plans.Lookup: its contract does not pin each plan's name, amount and duration.
  Those values are written once, in its body.
