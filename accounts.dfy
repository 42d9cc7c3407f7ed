/**
 * The `users` table and the read-only queries over it: `is_pro_valid` and
 * `get_user_status`. Time is a day number `today`; a stored expiry date is the
 * day it names, so "now is before midnight of the expiry day" is
 * `today < day`.
 */
module Accounts {
  import opened Wrappers

  type UserId = int

  /** The `expiry` column: NULL, the text 'Cancelled', or a '%Y-%m-%d' date. */
  datatype Expiry = Unset | Cancelled | Date(day: int)

  /** One row of `users`; `joined_channel` is never read or written by the bot and is left out. */
  datatype Account = Account(
    username: Option<string>,
    refBy: Option<UserId>,
    refCount: nat,
    isPro: bool,
    expiry: Expiry)

  type Table = map<UserId, Account>

  /** Referrals needed per automatic reward. */
  const RewardThreshold: nat := 5
  /** Days of PRO granted by the automatic referral reward. */
  const RewardDays: nat := 12
  /** Days of PRO granted by an admin approval. */
  const PaidDays: nat := 30

  /** The row `INSERT INTO users (user_id, username, ref_by)` creates: column defaults elsewhere. */
  function NewAccount(username: Option<string>, refBy: Option<UserId>): Account {
    Account(username, refBy, 0, false, Unset)
  }

  /** `UPDATE users SET is_pro=1, expiry=<today + days>`: overwrites, never extends. */
  function Grant(a: Account, today: int, days: nat): Account {
    a.(isPro := true, expiry := Date(today + days))
  }

  /** `UPDATE users SET is_pro=0, expiry='Cancelled'`. */
  function Revoke(a: Account): Account {
    a.(isPro := false, expiry := Cancelled)
  }

  /**
   * `is_pro_valid`: no row, `is_pro == 0`, or an expiry that `strptime`
   * cannot read all give false (fail closed); otherwise today must be
   * strictly before the expiry day.
   */
  function IsProValid(users: Table, uid: UserId, today: int): (valid: bool)
    ensures valid ==> uid in users && users[uid].isPro && users[uid].expiry.Date?
  {
    if uid !in users || !users[uid].isPro then false
    else
      match users[uid].expiry
      case Date(day) => today < day
      case _ => false
  }

  /** The `(is_pro, expiry, ref_count)` triple `get_user_status` returns. */
  datatype Status = Status(isPro: bool, expiry: Expiry, refCount: nat)

  /**
   * `get_user_status`: the row's three columns, or `(0, "None", 0)` when there
   * is no row (the text "None" and a NULL column are both `Unset`).
   */
  function UserStatus(users: Table, uid: UserId): (s: Status)
    ensures uid !in users ==> s == Status(false, Unset, 0)
  {
    if uid in users then Status(users[uid].isPro, users[uid].expiry, users[uid].refCount)
    else Status(false, Unset, 0)
  }

  /** The status shown on the account page and the validity check agree. */
  lemma StatusAgreesWithValidity(users: Table, uid: UserId, today: int)
    ensures var s := UserStatus(users, uid);
      IsProValid(users, uid, today) <==> s.isPro && s.expiry.Date? && today < s.expiry.day
  {
  }

  /** Validity only runs out: valid today means valid on every earlier day. */
  lemma ValidityAntitone(users: Table, uid: UserId, later: int, earlier: int)
    requires earlier <= later
    requires IsProValid(users, uid, later)
    ensures IsProValid(users, uid, earlier)
  {
  }

  /** A grant of `days` from `start` makes the row valid exactly on the days before `start + days`. */
  lemma GrantedValidity(users: Table, uid: UserId, start: int, days: nat, today: int)
    requires uid in users
    ensures IsProValid(users[uid := Grant(users[uid], start, days)], uid, today) <==> today < start + days
  {
  }

  /** A revoked row is never valid. */
  lemma RevokedNeverValid(users: Table, uid: UserId, today: int)
    requires uid in users
    ensures !IsProValid(users[uid := Revoke(users[uid])], uid, today)
  {
  }

  /** The users whose `ref_by` names `r`. */
  ghost function Referred(users: Table, r: UserId): set<UserId> {
    set u | u in users && users[u].refBy == Some(r)
  }

  /**
   * The invariant every table built by the bot keeps: PRO rows carry a date;
   * nobody refers themselves; a non-zero `ref_by` names an existing row; and
   * every non-zero user's `ref_count` is the number of rows that name them.
   */
  ghost predicate WellFormed(users: Table) {
    && (forall u :: u in users && users[u].isPro ==> users[u].expiry.Date?)
    && (forall u :: u in users ==> users[u].refBy != Some(u))
    && (forall u :: u in users && users[u].refBy.Some? && users[u].refBy.value != 0 ==>
          users[u].refBy.value in users)
    && (forall r :: r in users && r != 0 ==> users[r].refCount == |Referred(users, r)|)
  }

  /** Changing a row but not its `ref_by` leaves every referral set as it was. */
  lemma ReferredAfterUpdate(users: Table, v: UserId, a: Account, r: UserId)
    requires v in users && a.refBy == users[v].refBy
    ensures Referred(users[v := a], r) == Referred(users, r)
  {
  }

  /** Inserting a fresh row adds it to exactly the referral set its `ref_by` names. */
  lemma ReferredAfterInsert(users: Table, u: UserId, a: Account, r: UserId)
    requires u !in users
    ensures Referred(users[u := a], r) == Referred(users, r) + (if a.refBy == Some(r) then {u} else {})
  {
  }

  /** Overwriting the PRO fields of a row keeps the table well formed. */
  lemma {:induction false} ProChangePreservesWellFormed(users: Table, v: UserId, a: Account)
    requires WellFormed(users)
    requires v in users
    requires a.refBy == users[v].refBy && a.refCount == users[v].refCount
    requires a.isPro ==> a.expiry.Date?
    ensures WellFormed(users[v := a])
  {
    var t := users[v := a];
    forall r | r in t && r != 0
      ensures t[r].refCount == |Referred(t, r)|
    {
      ReferredAfterUpdate(users, v, a, r);
    }
  }
}
