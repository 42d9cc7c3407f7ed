/**
 * The admin branch of `callback_handler`: the `adm_<act>:<uid>` callback
 * payload, its decoding, the decisions it triggers on the `users` table and
 * the gate that only the configured administrator passes.
 */
module Approval {
  import opened Wrappers
  import opened Text
  import opened Accounts

  const AdminPrefix: string := "adm_"

  datatype Decision = Approve | Reject | Cancel

  function Tag(d: Decision): string {
    match d
    case Approve => "app"
    case Reject => "rej"
    case Cancel => "can"
  }

  /** `f"adm_{tag}:{uid}"`, the data bound to the admin's inline buttons. */
  function EncodePayload(d: Decision, target: UserId): (data: string)
    ensures StartsWith(data, AdminPrefix)
  {
    AdminPrefix + Tag(d) + ":" + IntToString(target)
  }

  /** A decoded payload; `decision` is `None` when the action names none of the three tags. */
  datatype Command = Command(decision: Option<Decision>, target: UserId)

  /** The `ValueError`s of `action, tid = data.split(":")` and `int(tid)`. */
  datatype PayloadError = WrongFieldCount | BadTarget

  /** The substring tests `"app" in action`, `"can" in action`, `"rej" in action`, in that order. */
  function Classify(action: string): (d: Option<Decision>)
    ensures d == Some(Approve) <==> Contains(action, "app")
    ensures d == Some(Cancel) <==> !Contains(action, "app") && Contains(action, "can")
    ensures d.None? <==> !Contains(action, "app") && !Contains(action, "can") && !Contains(action, "rej")
  {
    if Contains(action, "app") then Some(Approve)
    else if Contains(action, "can") then Some(Cancel)
    else if Contains(action, "rej") then Some(Reject)
    else None
  }

  function DecodePayload(data: string): Result<Command, PayloadError> {
    var fields := Split(data, ':');
    if |fields| != 2 then Failure(WrongFieldCount)
    else
      match ParseInt(fields[1])
      case None => Failure(BadTarget)
      case Some(target) => Success(Command(Classify(fields[0]), target))
  }

  /**
   * `data.split(":")` unpacks into two fields exactly when `data` holds one
   * colon; the target is `int` of what follows it and the decision is read
   * from what precedes it.
   */
  lemma DecodeAtSoleColon(data: string)
    ensures DecodePayload(data) == Failure(WrongFieldCount) <==> multiset(data)[':'] != 1
    ensures multiset(data)[':'] == 1 ==>
      var colon := IndexOf(data, ':');
      var r := DecodePayload(data);
      && (r == Failure(BadTarget) <==> ParseInt(data[colon + 1..]).None?)
      && (r.Success? ==> r.value.target == ParseInt(data[colon + 1..]).value &&
                         r.value.decision == Classify(data[..colon]))
  {
    SplitCount(data, ':');
    SplitAtSoleSeparator(data, ':');
  }

  /** A string lacking the last character of `sub` does not hold `sub`. */
  lemma {:induction false} LacksLast(s: string, sub: string)
    requires |sub| > 0 && sub[|sub| - 1] !in s
    ensures !Contains(s, sub)
    decreases |s|
  {
    if |sub| <= |s| {
      assert s[..|sub|][|sub| - 1] == s[|sub| - 1];
      if |s| > 0 {
        LacksLast(s[1..], sub);
      }
    }
  }

  /** A string holds each of its suffixes. */
  lemma {:induction false} ContainsSuffix(a: string, b: string)
    ensures Contains(a + b, b)
    decreases |a|
  {
    if a == [] {
      assert (a + b)[..|b|] == b;
    } else {
      assert (a + b)[1..] == a[1..] + b;
      ContainsSuffix(a[1..], b);
    }
  }

  lemma TagsClassify(d: Decision)
    ensures Classify(AdminPrefix + Tag(d)) == Some(d)
  {
    var action := AdminPrefix + Tag(d);
    ContainsSuffix(AdminPrefix, Tag(d));
    match d
    case Approve =>
    case Cancel =>
      assert action == "adm_can";
      LacksLast(action, "app");
    case Reject =>
      assert action == "adm_rej";
      LacksLast(action, "app");
      LacksLast(action, "can");
  }

  /** Every payload the bot builds decodes to the decision and user it was built from. */
  lemma PayloadRoundTrip(d: Decision, target: UserId)
    ensures DecodePayload(EncodePayload(d, target)) == Success(Command(Some(d), target))
  {
    var action := AdminPrefix + Tag(d);
    var digits := IntToString(target);
    assert ':' !in action;
    assert ':' !in digits by {
      if target >= 0 {
        assert IsDigits(digits);
      } else {
        assert digits == "-" + NatToString(-target);
        assert IsDigits(digits[1..]);
      }
    }
    assert Join([action, digits], ':') == EncodePayload(d, target);
    SplitJoin([action, digits], ':');
    IntToStringRoundTrip(target);
    TagsClassify(d);
  }

  /** Different decisions or users never share a payload. */
  lemma PayloadInjective(d1: Decision, t1: UserId, d2: Decision, t2: UserId)
    requires EncodePayload(d1, t1) == EncodePayload(d2, t2)
    ensures d1 == d2 && t1 == t2
  {
    PayloadRoundTrip(d1, t1);
    PayloadRoundTrip(d2, t2);
  }

  /**
   * The `UPDATE` each decision runs: approval grants thirty days from today
   * whatever the row held before, cancellation revokes, rejection changes
   * nothing; a missing row is left missing and no other row is touched.
   */
  function Decide(users: Table, target: UserId, d: Decision, today: int): (r: Table)
    ensures r.Keys == users.Keys
    ensures forall v :: v in users && v != target ==> r[v] == users[v]
    ensures target in users ==>
      r[target].username == users[target].username &&
      r[target].refBy == users[target].refBy &&
      r[target].refCount == users[target].refCount
    ensures target in users && d == Approve ==> r[target].isPro && r[target].expiry == Date(today + PaidDays)
    ensures target in users && d == Cancel ==> !r[target].isPro && r[target].expiry == Cancelled
    ensures d == Reject ==> r == users
  {
    if target !in users then users
    else
      match d
      case Approve => users[target := Grant(users[target], today, PaidDays)]
      case Cancel => users[target := Revoke(users[target])]
      case Reject => users
  }

  /** The latest approval or cancellation wins: whatever came before it is overwritten. */
  lemma LatestDecisionWins(users: Table, target: UserId, earlier: Decision, day1: int, later: Decision, day2: int)
    requires later != Reject
    ensures Decide(Decide(users, target, earlier, day1), target, later, day2) == Decide(users, target, later, day2)
  {
    if target in users {
      var once := Decide(users, target, earlier, day1);
      assert once[target].(isPro := true) == users[target].(isPro := true).(expiry := once[target].expiry);
    }
  }

  /** Approval makes the user PRO for exactly the thirty days starting today; cancellation for none. */
  lemma DecisionValidity(users: Table, target: UserId, d: Decision, today: int, day: int)
    requires target in users && d != Reject
    ensures IsProValid(Decide(users, target, d, today), target, day) <==> d == Approve && day < today + PaidDays
  {
    if d == Approve {
      GrantedValidity(users, target, today, PaidDays, day);
    } else {
      RevokedNeverValid(users, target, day);
    }
  }

  lemma {:induction false} DecidePreservesWellFormed(users: Table, target: UserId, d: Decision, today: int)
    requires WellFormed(users)
    ensures WellFormed(Decide(users, target, d, today))
  {
    if target in users && d != Reject {
      ProChangePreservesWellFormed(users, target, Decide(users, target, d, today)[target]);
      assert Decide(users, target, d, today) == users[target := Decide(users, target, d, today)[target]];
    }
  }

  /**
   * The table after an admin callback is committed: only data starting with
   * `adm_` from the administrator reaches the decision; a payload that does
   * not decode raises first, and a failed message to the user raises before
   * `commit`, so in both cases nothing is stored.
   */
  function AdminEffect(users: Table, sender: UserId, adminId: UserId, data: string, today: int, sendFails: bool)
    : (r: Table)
    ensures sender != adminId ==> r == users
    ensures !StartsWith(data, AdminPrefix) ==> r == users
    ensures r.Keys == users.Keys
    ensures forall v :: v in users && (DecodePayload(data).Failure? || v != DecodePayload(data).value.target) ==>
      r[v] == users[v]
  {
    if !(StartsWith(data, AdminPrefix) && sender == adminId) then users
    else
      match DecodePayload(data)
      case Failure(_) => users
      case Success(cmd) =>
        if cmd.decision.None? || sendFails then users
        else Decide(users, cmd.target, cmd.decision.value, today)
  }

  /** An administrator's payload that decodes applies its decision unless the message to the user raised. */
  lemma AdminEffectDecoded(users: Table, adminId: UserId, data: string, today: int, sendFails: bool)
    requires StartsWith(data, AdminPrefix) && DecodePayload(data).Success?
    ensures var cmd := DecodePayload(data).value;
      AdminEffect(users, adminId, adminId, data, today, sendFails)
        == if cmd.decision.None? || sendFails then users else Decide(users, cmd.target, cmd.decision.value, today)
  {
  }

  /** Pressing a button the bot built applies exactly the decision the button names. */
  lemma AdminButtonApplies(users: Table, adminId: UserId, d: Decision, target: UserId, today: int)
    ensures AdminEffect(users, adminId, adminId, EncodePayload(d, target), today, false) == Decide(users, target, d, today)
  {
    PayloadRoundTrip(d, target);
  }
}
