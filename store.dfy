/**
 * DatabaseManager: the two tables held in place as maps, with one method per
 * statement. Each mutating method is proved to leave exactly the tables the
 * corresponding function of module Tables describes.
 */
module Store {
  import opened Wrappers
  import opened Tables

  class DatabaseManager {
    var users: map<int, UserRow>
    var payments: map<string, PaymentRow>
    /** The users' ids in storage order: each stored user once. A table scan visits them in this order. */
    var rowIds: seq<int>

    function State(): Db
      reads this
    {
      Db(users, payments)
    }

    ghost predicate Valid()
      reads this
    {
      && Consistent(State())
      && (forall u :: u in users <==> u in rowIds)
      && (forall i, j :: 0 <= i < j < |rowIds| ==> rowIds[i] != rowIds[j])
    }

    /** init_database on an empty file: both tables exist and are empty. */
    constructor ()
      ensures Valid() && users == map[] && payments == map[]
    {
      users := map[];
      payments := map[];
      rowIds := [];
    }

    method AddUser(userId: int, username: Option<string>, firstName: Option<string>, now: int)
      requires Valid()
      modifies this
      ensures Valid()
      ensures State() == Tables.AddUser(old(State()), userId, username, firstName, now)
    {
      AddUserConsistent(State(), userId, username, firstName, now);
      var row := UserRow(Text.Sanitize(username, MaxFieldLength), Text.Sanitize(firstName, MaxFieldLength),
                         None, None, None, false, now, now);
      if userId !in users {
        rowIds := rowIds + [userId];
      }
      users := users[userId := row];
    }

    method GetUser(userId: int) returns (row: Option<UserRow>)
      ensures row.Some? <==> userId in users
      ensures row.Some? ==> row.value == users[userId]
    {
      row := if userId in users then Some(users[userId]) else None;
    }

    method UpdateSubscription(userId: int, plan: string, start: int, end: int, now: int)
      requires Valid()
      modifies this
      ensures Valid()
      ensures State() == Tables.UpdateSubscription(old(State()), userId, plan, start, end, now)
    {
      UpdateSubscriptionConsistent(State(), userId, plan, start, end, now);
      if userId in users {
        users := users[userId := Subscribed(users[userId], plan, start, end, now)];
      }
    }

    method ExpireUserSubscription(userId: int, now: int)
      requires Valid()
      modifies this
      ensures Valid()
      ensures State() == ExpireUser(old(State()), userId, now)
    {
      ExpireUserConsistent(State(), userId, now);
      if userId in users {
        users := users[userId := Lapsed(users[userId], now)];
      }
    }

    /** get_expired_users: a scan of the table yielding each selected user once. */
    method GetExpiredUsers(now: int) returns (ids: seq<int>)
      requires Valid()
      ensures forall u :: u in ids <==> u in ExpiredUsers(State(), now)
      ensures forall i, j :: 0 <= i < j < |ids| ==> ids[i] != ids[j]
    {
      ids := [];
      var k := 0;
      while k < |rowIds|
        invariant 0 <= k <= |rowIds|
        invariant forall u :: u in ids <==> u in rowIds[..k] && Overdue(users[u], now)
        invariant forall i, j :: 0 <= i < j < |ids| ==> ids[i] != ids[j]
      {
        var u := rowIds[k];
        assert u !in rowIds[..k];
        if Overdue(users[u], now) {
          ids := ids + [u];
        }
        assert rowIds[..k + 1] == rowIds[..k] + [u];
        k := k + 1;
      }
      assert rowIds[..k] == rowIds;
    }

    method AddPaymentRecord(userId: int, ref: string, amount: int, planType: string, now: int)
      returns (error: Option<StoreError>)
      requires Valid()
      modifies this
      ensures Valid()
      ensures var r := AddPayment(old(State()), userId, ref, amount, planType, now);
        if r.Ok? then error == None && State() == r.value
        else error == Some(r.error) && State() == old(State())
    {
      if ref in payments {
        return Some(DuplicateRef);
      }
      if userId !in users {
        return Some(UnknownUser);
      }
      AddPaymentConsistent(State(), userId, ref, amount, planType, now);
      payments := payments[ref := PaymentRow(userId, amount, planType, Pending, now, now)];
      error := None;
    }

    method UpdatePaymentStatus(ref: string, status: string, now: int)
      requires Valid()
      modifies this
      ensures Valid()
      ensures State() == Tables.UpdatePaymentStatus(old(State()), ref, status, now)
    {
      UpdatePaymentStatusConsistent(State(), ref, status, now);
      if ref in payments {
        payments := payments[ref := payments[ref].(status := status, updatedAt := now)];
      }
    }

    method GetPaymentRecord(ref: string) returns (record: Option<PaymentRow>)
      ensures record.Some? <==> ref in payments
      ensures record.Some? ==> record.value == payments[ref]
    {
      record := if ref in payments then Some(payments[ref]) else None;
    }
  }
}
