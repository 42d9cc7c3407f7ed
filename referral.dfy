/**
 * The database part of the `/start` handler: first-contact insertion,
 * referral attribution from the deep-link argument, crediting the referrer
 * and the automatic reward on every fifth referral.
 */
module Referral {
  import opened Wrappers
  import opened Text
  import opened Accounts

  /**
   * `ref_by`: `int(args[0])` when the first argument is all digits, dropped
   * when it names the newcomer themselves.
   */
  function ParseReferrer(args: seq<string>, uid: UserId): (refBy: Option<UserId>)
    ensures refBy != Some(uid)
    ensures refBy.Some? ==> |args| > 0 && IsDigits(args[0]) && refBy.value == DigitsValue(args[0])
    ensures |args| > 0 && IsDigits(args[0]) && DigitsValue(args[0]) != uid ==> refBy == Some(DigitsValue(args[0]))
  {
    var parsed: Option<UserId> := if |args| > 0 && IsDigits(args[0]) then Some(DigitsValue(args[0])) else None;
    if parsed == Some(uid) then None else parsed
  }

  /** The `?start=<uid>` argument of a user's referral link names that user, unless it is the newcomer. */
  lemma ReferralLinkRoundTrip(r: UserId, uid: UserId)
    requires r >= 0
    ensures ParseReferrer([IntToString(r)], uid) == if r == uid then None else Some(r)
  {
    NatToStringValue(r);
  }

  /** `if ref_by:` — a missing referrer and the falsy id 0 both credit nobody. */
  predicate Credits(refBy: Option<UserId>) {
    refBy.Some? && refBy.value != 0
  }

  predicate IsRewardCount(count: int) {
    count % RewardThreshold == 0
  }

  /** The referral notice sent to the referrer: the new total and whether the reward fired. */
  datatype Notice = Notice(referrer: UserId, total: nat, rewarded: bool)

  /** The table `commit` stores, and the notice the referrer is sent, if any. */
  datatype Admission = Admission(users: Table, notice: Option<Notice>)

  /** `fetchone()[0]` on a missing referrer row raises before `commit`. */
  datatype StartFault = ReferrerMissing

  /**
   * The transaction of `start`: insert the newcomer once; credit a truthy
   * referrer by one; on a multiple of five grant the referrer twelve days.
   * A failing notification send is swallowed and does not change the outcome.
   */
  function Admit(users: Table, uid: UserId, username: Option<string>, args: seq<string>, today: int)
    : (r: Result<Admission, StartFault>)
    ensures uid in users ==> r == Success(Admission(users, None))
    ensures r.Failure? <==>
      uid !in users && Credits(ParseReferrer(args, uid)) && ParseReferrer(args, uid).value !in users
    ensures r.Success? ==> r.value.users.Keys == users.Keys + {uid}
    ensures r.Success? && uid !in users ==> r.value.users[uid] == NewAccount(username, ParseReferrer(args, uid))
    ensures r.Success? ==> forall v ::
      (v in users && v != uid && (r.value.notice.None? || v != r.value.notice.value.referrer)) ==>
        r.value.users[v] == users[v]
  {
    if uid in users then Success(Admission(users, None))
    else
      var refBy := ParseReferrer(args, uid);
      var inserted := users[uid := NewAccount(username, refBy)];
      if !Credits(refBy) then Success(Admission(inserted, None))
      else
        var referrer := refBy.value;
        if referrer !in inserted then Failure(ReferrerMissing)
        else
          var count := inserted[referrer].refCount + 1;
          var credited := inserted[referrer].(refCount := count);
          var rewarded := IsRewardCount(count);
          var final := if rewarded then Grant(credited, today, RewardDays) else credited;
          Success(Admission(inserted[referrer := final], Some(Notice(referrer, count, rewarded))))
  }

  /**
   * A truthy referrer with a row gains exactly one referral; on a multiple of
   * five they become PRO until `today + 12` whatever their previous expiry,
   * otherwise their PRO fields stay as they were; they are told the new total.
   */
  lemma AdmitCredits(users: Table, uid: UserId, username: Option<string>, args: seq<string>, today: int, referrer: UserId)
    requires uid !in users
    requires ParseReferrer(args, uid) == Some(referrer) && referrer != 0 && referrer in users
    ensures var r := Admit(users, uid, username, args, today);
      && r.Success?
      && var after := r.value.users[referrer];
      && var before := users[referrer];
      && after.refCount == before.refCount + 1
      && after.username == before.username && after.refBy == before.refBy
      && (IsRewardCount(after.refCount) ==> after.isPro && after.expiry == Date(today + RewardDays))
      && (!IsRewardCount(after.refCount) ==> after.isPro == before.isPro && after.expiry == before.expiry)
      && r.value.notice == Some(Notice(referrer, after.refCount, IsRewardCount(after.refCount)))
  {
  }

  /** Without a truthy referrer (none, self, or 0) only the newcomer's row is added. */
  lemma AdmitWithoutCredit(users: Table, uid: UserId, username: Option<string>, args: seq<string>, today: int)
    requires uid !in users
    requires !Credits(ParseReferrer(args, uid))
    ensures Admit(users, uid, username, args, today)
      == Success(Admission(users[uid := NewAccount(username, ParseReferrer(args, uid))], None))
  {
  }

  /** A repeated `/start` changes nothing, whatever name and argument it carries. */
  lemma {:induction false} AdmitIdempotent(users: Table, uid: UserId, username: Option<string>, args: seq<string>,
                                           today: int, username': Option<string>, args': seq<string>, today': int)
    requires Admit(users, uid, username, args, today).Success?
    ensures var first := Admit(users, uid, username, args, today).value.users;
      Admit(first, uid, username', args', today') == Success(Admission(first, None))
  {
    var first := Admit(users, uid, username, args, today).value.users;
    assert uid in first;
  }

  /**
   * Inserting a newcomer who does not name themselves and whose non-zero
   * referrer exists keeps every clause of the invariant except that the
   * referrer's count is now one short.
   */
  lemma {:induction false} InsertNewcomer(users: Table, uid: UserId, a: Account)
    requires WellFormed(users)
    requires uid !in users
    requires a.refCount == 0 && !a.isPro && a.refBy != Some(uid)
    requires Credits(a.refBy) ==> a.refBy.value in users
    ensures var t := users[uid := a];
      && (forall u :: u in t && t[u].isPro ==> t[u].expiry.Date?)
      && (forall u :: u in t ==> t[u].refBy != Some(u))
      && (forall u :: u in t && t[u].refBy.Some? && t[u].refBy.value != 0 ==> t[u].refBy.value in t)
      && (forall r :: r in t && r != 0 ==>
            t[r].refCount + (if a.refBy == Some(r) then 1 else 0) == |Referred(t, r)|)
  {
    var t := users[uid := a];
    forall r | r in t && r != 0
      ensures t[r].refCount + (if a.refBy == Some(r) then 1 else 0) == |Referred(t, r)|
    {
      ReferredAfterInsert(users, uid, a, r);
      if r == uid {
        // nobody in the old table names the newcomer, who had no row
        forall v | v in users && users[v].refBy == Some(uid) ensures false {
        }
        assert Referred(users, uid) == {};
      } else if a.refBy == Some(r) {
        assert uid !in Referred(users, r);
      }
    }
  }

  /** Crediting the referrer, with or without the reward, restores the invariant. */
  lemma {:induction false} CreditRestores(t: Table, referrer: UserId, final: Account)
    requires referrer in t && referrer != 0
    requires forall u :: u in t && t[u].isPro ==> t[u].expiry.Date?
    requires forall u :: u in t ==> t[u].refBy != Some(u)
    requires forall u :: u in t && t[u].refBy.Some? && t[u].refBy.value != 0 ==> t[u].refBy.value in t
    requires forall r :: r in t && r != 0 ==> t[r].refCount + (if r == referrer then 1 else 0) == |Referred(t, r)|
    requires final.refBy == t[referrer].refBy && final.refCount == t[referrer].refCount + 1
    requires final.isPro ==> final.expiry.Date?
    ensures WellFormed(t[referrer := final])
  {
    var t' := t[referrer := final];
    forall r | r in t' && r != 0
      ensures t'[r].refCount == |Referred(t', r)|
    {
      ReferredAfterUpdate(t, referrer, final, r);
    }
  }

  /** Every `/start` transaction keeps the table well formed. */
  lemma {:induction false} AdmitPreservesWellFormed(users: Table, uid: UserId, username: Option<string>,
                                                    args: seq<string>, today: int)
    requires WellFormed(users)
    ensures Admit(users, uid, username, args, today).Success? ==>
      WellFormed(Admit(users, uid, username, args, today).value.users)
  {
    var r := Admit(users, uid, username, args, today);
    if uid in users || r.Failure? {
      return;
    }
    var refBy := ParseReferrer(args, uid);
    var newcomer := NewAccount(username, refBy);
    var inserted := users[uid := newcomer];
    if Credits(refBy) {
      var referrer := refBy.value;
      var count := inserted[referrer].refCount + 1;
      var credited := inserted[referrer].(refCount := count);
      var final := if IsRewardCount(count) then Grant(credited, today, RewardDays) else credited;
      assert r.value.users == inserted[referrer := final];
      InsertNewcomer(users, uid, newcomer);
      CreditRestores(inserted, referrer, final);
    } else {
      assert r.value.users == inserted;
      InsertNewcomer(users, uid, newcomer);
    }
  }

  /** `n` newcomers following `referrer`'s link, one `/start` each. */
  ghost function AdmitAll(users: Table, newcomers: seq<UserId>, referrer: UserId, today: int): Table
    decreases |newcomers|
  {
    if newcomers == [] then users
    else
      var next := Admit(users, newcomers[0], None, [IntToString(referrer)], today);
      AdmitAll(if next.Success? then next.value.users else users, newcomers[1..], referrer, today)
  }

  /**
   * Distinct newcomers through one referrer's link raise the count by exactly
   * their number; the reward fires when the final count is a multiple of five
   * and the PRO fields are untouched when no count reached on the way is one.
   */
  lemma {:induction false} ReferralsAccumulate(users: Table, newcomers: seq<UserId>, referrer: UserId, today: int)
    requires referrer in users && referrer > 0
    requires forall i :: 0 <= i < |newcomers| ==> newcomers[i] !in users && newcomers[i] != referrer
    requires forall i, j :: 0 <= i < j < |newcomers| ==> newcomers[i] != newcomers[j]
    ensures var after := AdmitAll(users, newcomers, referrer, today);
      && referrer in after
      && after[referrer].refCount == users[referrer].refCount + |newcomers|
      && after[referrer].refBy == users[referrer].refBy
      && ((forall k :: users[referrer].refCount < k <= after[referrer].refCount ==> !IsRewardCount(k)) ==>
            after[referrer].isPro == users[referrer].isPro && after[referrer].expiry == users[referrer].expiry)
      && (|newcomers| > 0 && IsRewardCount(after[referrer].refCount) ==>
            after[referrer].isPro && after[referrer].expiry == Date(today + RewardDays))
    decreases |newcomers|
  {
    if newcomers != [] {
      var uid := newcomers[0];
      ReferralLinkRoundTrip(referrer, uid);
      AdmitCredits(users, uid, None, [IntToString(referrer)], today, referrer);
      var next := Admit(users, uid, None, [IntToString(referrer)], today).value.users;
      ReferralsAccumulate(next, newcomers[1..], referrer, today);
    }
  }

  /** Four referrals from a fresh account leave its PRO fields alone; the fifth grants twelve days. */
  lemma FifthReferralRewards(users: Table, newcomers: seq<UserId>, referrer: UserId, today: int)
    requires referrer in users && referrer > 0 && users[referrer].refCount == 0
    requires |newcomers| == 5
    requires forall i :: 0 <= i < 5 ==> newcomers[i] !in users && newcomers[i] != referrer
    requires forall i, j :: 0 <= i < j < 5 ==> newcomers[i] != newcomers[j]
    ensures var four := AdmitAll(users, newcomers[..4], referrer, today);
      referrer in four && four[referrer].isPro == users[referrer].isPro && four[referrer].expiry == users[referrer].expiry
    ensures var five := AdmitAll(users, newcomers, referrer, today);
      referrer in five && five[referrer].refCount == 5 && five[referrer].isPro && five[referrer].expiry == Date(today + RewardDays)
  {
    ReferralsAccumulate(users, newcomers[..4], referrer, today);
    ReferralsAccumulate(users, newcomers, referrer, today);
  }
}
