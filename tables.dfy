/**
 * The users and payments tables as values, and what each DatabaseManager statement
 * does to them. Timestamps are integer seconds; SQL NULL is None.
 */
module Tables {
  import opened Wrappers
  import Text

  /** sanitize_string's default bound, used for username and first_name. */
  const MaxFieldLength: int := 100
  const Pending: string := "pending"
  const Completed: string := "completed"

  /** A row of `users`; subscription columns are NULL until a subscription is written. */
  datatype UserRow = UserRow(
    username: Option<string>,
    firstName: Option<string>,
    plan: Option<string>,
    start: Option<int>,
    end: Option<int>,
    isPremium: bool,
    createdAt: int,
    updatedAt: int)

  /** A row of `payments`, keyed by its UNIQUE transaction_ref; the amount is in kobo. */
  datatype PaymentRow = PaymentRow(
    userId: int,
    amount: int,
    planType: string,
    status: string,
    createdAt: int,
    updatedAt: int)

  datatype Db = Db(users: map<int, UserRow>, payments: map<string, PaymentRow>)

  /** Why an INSERT into payments is refused: the UNIQUE ref, or the foreign key to users. */
  datatype StoreError = DuplicateRef | UnknownUser

  /** A premium row has all its subscription columns set. */
  predicate PremiumComplete(row: UserRow) {
    row.isPremium ==> row.plan.Some? && row.start.Some? && row.end.Some?
  }

  /**
   * What every reachable pair of tables satisfies: premium rows are complete, and every
   * payment belongs to a stored user (foreign keys are switched on for each connection).
   */
  ghost predicate Consistent(db: Db) {
    && (forall u :: u in db.users ==> PremiumComplete(db.users[u]))
    && (forall ref :: ref in db.payments ==> db.payments[ref].userId in db.users)
  }

  /**
   * add_user: INSERT OR REPLACE of (user_id, username, first_name, updated_at). The old
   * row is deleted and a new one inserted, so every column not listed falls back to its
   * default: no plan, no window, not premium, and a new creation time.
   */
  function AddUser(db: Db, userId: int, username: Option<string>, firstName: Option<string>, now: int): (r: Db)
    ensures r.payments == db.payments
    ensures r.users.Keys == db.users.Keys + {userId}
    ensures forall u :: u in db.users && u != userId ==> r.users[u] == db.users[u]
    ensures var row := r.users[userId];
      && !row.isPremium && row.plan.None? && row.start.None? && row.end.None?
      && row.createdAt == now && row.updatedAt == now
      && row.username == Text.Sanitize(username, MaxFieldLength)
      && row.firstName == Text.Sanitize(firstName, MaxFieldLength)
  {
    var row := UserRow(Text.Sanitize(username, MaxFieldLength), Text.Sanitize(firstName, MaxFieldLength),
                       None, None, None, false, now, now);
    Db(db.users[userId := row], db.payments)
  }

  /** The row update_subscription writes. */
  function Subscribed(row: UserRow, plan: string, start: int, end: int, now: int): UserRow {
    row.(plan := Some(plan), start := Some(start), end := Some(end), isPremium := true, updatedAt := now)
  }

  /**
   * update_subscription: an UPDATE ... WHERE user_id = ?, so a missing user is left
   * missing and nothing changes; otherwise plan, start, end, is_premium = 1 and
   * updated_at are set on that user's row alone.
   */
  function UpdateSubscription(db: Db, userId: int, plan: string, start: int, end: int, now: int): (r: Db)
    ensures r.payments == db.payments && r.users.Keys == db.users.Keys
    ensures forall u :: u in db.users && u != userId ==> r.users[u] == db.users[u]
    ensures userId in db.users ==> r.users[userId] == Subscribed(db.users[userId], plan, start, end, now)
    ensures userId !in db.users ==> r == db
  {
    if userId in db.users then
      Db(db.users[userId := Subscribed(db.users[userId], plan, start, end, now)], db.payments)
    else db
  }

  /** The row expire_user_subscription writes: only is_premium, plan and updated_at change. */
  function Lapsed(row: UserRow, now: int): UserRow {
    row.(isPremium := false, plan := None, updatedAt := now)
  }

  /** expire_user_subscription: on that user's row alone; a missing user changes nothing. */
  function ExpireUser(db: Db, userId: int, now: int): (r: Db)
    ensures r.payments == db.payments && r.users.Keys == db.users.Keys
    ensures forall u :: u in db.users && u != userId ==> r.users[u] == db.users[u]
    ensures userId in db.users ==> r.users[userId] == Lapsed(db.users[userId], now)
  {
    if userId in db.users then Db(db.users[userId := Lapsed(db.users[userId], now)], db.payments)
    else db
  }

  /** is_premium = 1 AND subscription_end < now; a NULL end never compares true. */
  predicate Overdue(row: UserRow, now: int) {
    row.isPremium && row.end.Some? && row.end.value < now
  }

  /** The users get_expired_users selects. */
  function ExpiredUsers(db: Db, now: int): (r: set<int>)
    ensures r <= db.users.Keys
  {
    set u | u in db.users && Overdue(db.users[u], now)
  }

  /**
   * add_payment_record: an INSERT with status 'pending'. A ref already present violates
   * UNIQUE, and a user id not in users violates the foreign key; either way nothing is
   * written and the error is raised.
   */
  function AddPayment(db: Db, userId: int, ref: string, amount: int, planType: string, now: int): (r: Result<Db, StoreError>)
    ensures r.Err? <==> ref in db.payments || userId !in db.users
    ensures ref in db.payments ==> r == Err(DuplicateRef)
    ensures r.Ok? ==> r.value.users == db.users
    ensures r.Ok? ==> r.value.payments.Keys == db.payments.Keys + {ref}
    ensures r.Ok? ==> forall q :: q in db.payments ==> r.value.payments[q] == db.payments[q]
    ensures r.Ok? ==> r.value.payments[ref] == PaymentRow(userId, amount, planType, Pending, now, now)
  {
    if ref in db.payments then Err(DuplicateRef)
    else if userId !in db.users then Err(UnknownUser)
    else Ok(Db(db.users, db.payments[ref := PaymentRow(userId, amount, planType, Pending, now, now)]))
  }

  /** update_payment_status: status and updated_at of the matching ref, if any; nothing else. */
  function UpdatePaymentStatus(db: Db, ref: string, status: string, now: int): (r: Db)
    ensures r.users == db.users && r.payments.Keys == db.payments.Keys
    ensures forall q :: q in db.payments && q != ref ==> r.payments[q] == db.payments[q]
    ensures ref in db.payments ==> r.payments[ref] == db.payments[ref].(status := status, updatedAt := now)
  {
    if ref in db.payments then
      Db(db.users, db.payments[ref := db.payments[ref].(status := status, updatedAt := now)])
    else db
  }

  /** Re-registering a premium user through add_user silently ends the subscription. */
  lemma AddUserRevokesSubscription(db: Db, userId: int, username: Option<string>, firstName: Option<string>, now: int, later: int)
    requires userId in db.users && db.users[userId].isPremium
    ensures !AddUser(db, userId, username, firstName, now).users[userId].isPremium
    ensures userId !in ExpiredUsers(AddUser(db, userId, username, firstName, now), later)
  {
  }

  lemma AddUserConsistent(db: Db, userId: int, username: Option<string>, firstName: Option<string>, now: int)
    requires Consistent(db)
    ensures Consistent(AddUser(db, userId, username, firstName, now))
  {
  }

  lemma UpdateSubscriptionConsistent(db: Db, userId: int, plan: string, start: int, end: int, now: int)
    requires Consistent(db)
    ensures Consistent(UpdateSubscription(db, userId, plan, start, end, now))
  {
  }

  /** After a subscription is written, the user is selected as expired exactly at times past its end. */
  lemma SubscribedUntilEnd(db: Db, userId: int, plan: string, start: int, end: int, now: int, t: int)
    requires userId in db.users
    ensures var r := UpdateSubscription(db, userId, plan, start, end, now);
      r.users[userId].isPremium && (userId in ExpiredUsers(r, t) <==> end < t)
  {
  }

  lemma ExpireUserConsistent(db: Db, userId: int, now: int)
    requires Consistent(db)
    ensures Consistent(ExpireUser(db, userId, now))
  {
  }

  /** Expiring keeps the window on record, and expiring twice is expiring once. */
  lemma ExpireKeepsWindow(db: Db, userId: int, now: int)
    requires userId in db.users
    ensures ExpireUser(db, userId, now).users[userId].start == db.users[userId].start
    ensures ExpireUser(db, userId, now).users[userId].end == db.users[userId].end
    ensures ExpireUser(ExpireUser(db, userId, now), userId, now) == ExpireUser(db, userId, now)
  {
  }

  /** Expiring one user removes exactly that user from the expired set. */
  lemma ExpiredUsersAfterExpire(db: Db, userId: int, now: int, t: int)
    ensures ExpiredUsers(ExpireUser(db, userId, now), t) == ExpiredUsers(db, t) - {userId}
  {
  }

  lemma AddPaymentConsistent(db: Db, userId: int, ref: string, amount: int, planType: string, now: int)
    requires Consistent(db)
    ensures AddPayment(db, userId, ref, amount, planType, now).Ok? ==>
      Consistent(AddPayment(db, userId, ref, amount, planType, now).value)
  {
  }

  lemma UpdatePaymentStatusConsistent(db: Db, ref: string, status: string, now: int)
    requires Consistent(db)
    ensures Consistent(UpdatePaymentStatus(db, ref, status, now))
  {
  }
}
