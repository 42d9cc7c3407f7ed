/**
 * The Telegram handlers as methods of one object holding the `users` table
 * and every user's `context.user_data`. Network answers (channel membership,
 * whether a send raised, whether the AI backend failed, the AI's text) are
 * parameters; a database transaction is a local copy of the table that is
 * written back at `commit`, so a handler that raises before `commit` leaves
 * the table as it was.
 */
module Handlers {
  import opened Wrappers
  import opened Text
  import opened Accounts
  import opened Referral
  import opened Approval
  import opened Chunking
  import opened Sessions

  datatype StartReply =
    | Joined(notice: Option<Notice>, delivered: bool)
    | StartRaised

  datatype ButtonReply =
    | AccountPage(status: Status, proActive: bool, offersPurchase: bool, refArg: string)
    | ProRequired
    | ImagePromptRequested
    | ModeEnabled(mode: Mode)

  datatype AiReply =
    | JoinChannelFirst
    | ProofForwarded(from: UserId, approveData: string, rejectData: string)
    | ImageSent
    | Answer(detailed: bool, chunks: seq<string>)
    | ErrorReported
    | AiRaised

  datatype CallbackReply =
    | Verified
    | JoinFirst
    | ProofRequested
    | Approved(target: UserId, cancelData: string)
    | Revoked(target: UserId, reapproveData: string)
    | Rejected(target: UserId)
    | NoDecision
    | CallbackRaised
    | Ignored

  class Bot {
    var users: Table
    var userData: map<UserId, Session>
    const adminId: UserId

    ghost predicate Valid()
      reads this
    {
      WellFormed(users)
    }

    /** `init_db` on an empty database, with no conversation yet. */
    constructor (adminId: UserId)
      ensures Valid() && users == map[] && userData == map[] && this.adminId == adminId
    {
      this.adminId := adminId;
      users := map[];
      userData := map[];
    }

    /** The flags a user's `user_data` holds; an empty one reads as `Fresh`. */
    function SessionOf(uid: UserId): Session
      reads this
    {
      if uid in userData then userData[uid] else Fresh
    }

    /**
     * `/start`: the committed table is `Admit`'s, or unchanged when the
     * missing referrer row makes the handler raise; whether the referral
     * notice reached the referrer changes nothing stored.
     */
    method Start(uid: UserId, username: Option<string>, args: seq<string>, today: int, sendFails: bool)
      returns (reply: StartReply)
      requires Valid()
      modifies this`users
      ensures Valid()
      ensures match Admit(old(users), uid, username, args, today)
        case Success(a) => users == a.users && reply == Joined(a.notice, a.notice.Some? && !sendFails)
        case Failure(_) => users == old(users) && reply == StartRaised
    {
      AdmitPreservesWellFormed(users, uid, username, args, today);
      var pending := users;
      var notice: Option<Notice> := None;
      if uid !in pending {
        var refBy := ParseReferrer(args, uid);
        pending := pending[uid := NewAccount(username, refBy)];
        if Credits(refBy) {
          var referrer := refBy.value;
          if referrer !in pending {
            reply := StartRaised;
            return;
          }
          ghost var inserted := pending;
          var credited := pending[referrer].(refCount := pending[referrer].refCount + 1);
          pending := pending[referrer := credited];
          var count := pending[referrer].refCount;
          var rewarded := IsRewardCount(count);
          if rewarded {
            pending := pending[referrer := Grant(pending[referrer], today, RewardDays)];
            assert pending == inserted[referrer := Grant(credited, today, RewardDays)];
          }
          notice := Some(Notice(referrer, count, rewarded));
        }
        assert Admit(old(users), uid, username, args, today) == Success(Admission(pending, notice));
        users := pending;
      }
      reply := Joined(notice, notice.Some? && !sendFails);
    }

    /** `handle_buttons`: reads the table, changes only the user's mode. */
    method HandleButtons(uid: UserId, button: Button, today: int) returns (reply: ButtonReply)
      modifies this`userData
      ensures SessionOf(uid) == PressButton(old(SessionOf(uid)), button, IsProValid(users, uid, today))
      ensures forall v :: v != uid ==> SessionOf(v) == old(SessionOf(v))
      ensures button == MyAccount ==>
        var valid := IsProValid(users, uid, today);
        reply == AccountPage(UserStatus(users, uid), valid, !valid, IntToString(uid))
      ensures button == GenerateImage ==>
        reply == if IsProValid(users, uid, today) then ImagePromptRequested else ProRequired
      ensures button == DeepResearch ==> reply == ModeEnabled(Research)
      ensures button == WebSearch ==> reply == ModeEnabled(Web)
    {
      var session := SessionOf(uid);
      match button {
        case MyAccount =>
          var status := UserStatus(users, uid);
          var proActive := IsProValid(users, uid, today);
          reply := AccountPage(status, proActive, !proActive, IntToString(uid));
        case GenerateImage =>
          if !IsProValid(users, uid, today) {
            reply := ProRequired;
          } else {
            userData := userData[uid := session.(mode := Image)];
            reply := ImagePromptRequested;
          }
        case DeepResearch =>
          userData := userData[uid := session.(mode := Research)];
          reply := ModeEnabled(Research);
        case WebSearch =>
          userData := userData[uid := session.(mode := Web)];
          reply := ModeEnabled(Web);
      }
    }

    /**
     * `process_ai`: a pending proof goes to the admin with approve and reject
     * buttons and no AI call; otherwise the mode picks image generation or a
     * chat answer split into messages.
     */
    method ProcessAi(uid: UserId, subscribed: bool, sendFails: bool, backendFails: bool, answer: string)
      returns (reply: AiReply)
      modifies this`userData
      ensures var route := RouteOf(old(SessionOf(uid)), subscribed);
        SessionOf(uid) == AfterMessage(old(SessionOf(uid)), route, if route == ForwardProof then sendFails else backendFails)
      ensures forall v :: v != uid ==> SessionOf(v) == old(SessionOf(v))
      ensures match RouteOf(old(SessionOf(uid)), subscribed)
        case NotSubscribed => reply == JoinChannelFirst
        case ForwardProof =>
          reply == if sendFails then AiRaised
                   else ProofForwarded(uid, EncodePayload(Approve, uid), EncodePayload(Reject, uid))
        case MakeImage => reply == if backendFails then ErrorReported else ImageSent
        case AskAi(detailed) =>
          reply == if backendFails then ErrorReported else Answer(detailed, Chunks(answer, DefaultMaxLength))
    {
      var session := SessionOf(uid);
      if !subscribed {
        reply := JoinChannelFirst;
        return;
      }
      if session.waitingProof {
        if sendFails {
          reply := AiRaised;
          return;
        }
        reply := ProofForwarded(uid, EncodePayload(Approve, uid), EncodePayload(Reject, uid));
        userData := userData[uid := session.(waitingProof := false)];
        return;
      }
      if session.mode == Image {
        if backendFails {
          reply := ErrorReported;
        } else {
          reply := ImageSent;
          userData := userData[uid := session.(mode := Chat)];
        }
      } else if backendFails {
        reply := ErrorReported;
      } else {
        var chunks := SplitMessage(answer, DefaultMaxLength);
        reply := Answer(session.mode == Research, chunks);
      }
    }

    /**
     * The decision branch of `callback_handler` once the payload is decoded:
     * the `UPDATE` runs, the message to the user may raise before `commit`,
     * and the admin is offered the opposite action on the same user.
     */
    method ApplyDecision(cmd: Command, today: int, sendFails: bool) returns (reply: CallbackReply)
      requires Valid()
      modifies this`users
      ensures Valid()
      ensures users == if cmd.decision.None? || sendFails then old(users)
                       else Approval.Decide(old(users), cmd.target, cmd.decision.value, today)
      ensures cmd.decision.None? ==> reply == NoDecision
      ensures cmd.decision.Some? && sendFails ==> reply == CallbackRaised
      ensures cmd.decision == Some(Reject) && !sendFails ==> reply == Rejected(cmd.target)
      ensures cmd.decision == Some(Approve) && !sendFails ==> reply == Approved(cmd.target, EncodePayload(Cancel, cmd.target))
      ensures cmd.decision == Some(Cancel) && !sendFails ==> reply == Revoked(cmd.target, EncodePayload(Approve, cmd.target))
      ensures reply.Approved? ==> DecodePayload(reply.cancelData) == Success(Command(Some(Cancel), reply.target))
      ensures reply.Revoked? ==> DecodePayload(reply.reapproveData) == Success(Command(Some(Approve), reply.target))
    {
      if cmd.decision.None? {
        reply := NoDecision;
        return;
      }
      var target, d := cmd.target, cmd.decision.value;
      // The `UPDATE` of the decision, inside the transaction.
      var pending := Approval.Decide(users, target, d, today);
      if sendFails {
        reply := CallbackRaised;
        return;
      }
      match d {
        case Approve =>
          PayloadRoundTrip(Cancel, target);
          reply := Approved(target, EncodePayload(Cancel, target));
        case Cancel =>
          PayloadRoundTrip(Approve, target);
          reply := Revoked(target, EncodePayload(Approve, target));
        case Reject =>
          reply := Rejected(target);
      }
      DecidePreservesWellFormed(users, target, d, today);
      users := pending;
    }

    /**
     * `callback_handler`: 'send_proof' sets the sender's proof flag; an
     * `adm_` payload from the administrator decides on the named user and
     * commits only if the message to that user went out; anything else from
     * anyone else changes nothing.
     */
    method OnCallback(sender: UserId, data: string, subscribed: bool, sendFails: bool, today: int)
      returns (reply: CallbackReply)
      requires Valid()
      modifies this
      ensures Valid()
      ensures users == AdminEffect(old(users), sender, adminId, data, today, sendFails)
      ensures SessionOf(sender) == AfterCallback(old(SessionOf(sender)), data)
      ensures forall v :: v != sender ==> SessionOf(v) == old(SessionOf(v))
      ensures data == "verify_join" ==> reply == if subscribed then Verified else JoinFirst
      ensures data == "send_proof" ==> reply == ProofRequested
      ensures sender != adminId && data != "verify_join" && data != "send_proof" ==> reply == Ignored
      ensures reply.Approved? ==>
        users == Decide(old(users), reply.target, Approve, today) &&
        DecodePayload(reply.cancelData) == Success(Command(Some(Cancel), reply.target))
      ensures reply.Revoked? ==>
        users == Decide(old(users), reply.target, Cancel, today) &&
        DecodePayload(reply.reapproveData) == Success(Command(Some(Approve), reply.target))
    {
      assert !StartsWith("verify_join", AdminPrefix) by {
        assert "verify_join"[..4][0] != AdminPrefix[0];
      }
      assert !StartsWith("send_proof", AdminPrefix) by {
        assert "send_proof"[..4][0] != AdminPrefix[0];
      }
      if data == "verify_join" {
        reply := if subscribed then Verified else JoinFirst;
      } else if data == "send_proof" {
        userData := userData[sender := SessionOf(sender).(waitingProof := true)];
        reply := ProofRequested;
      } else if StartsWith(data, AdminPrefix) && sender == adminId {
        var decoded := DecodePayload(data);
        if decoded.Failure? {
          reply := CallbackRaised;
          return;
        }
        AdminEffectDecoded(users, adminId, data, today, sendFails);
        reply := ApplyDecision(decoded.value, today, sendFails);
      } else {
        reply := Ignored;
      }
    }
  }

  /**
   * The administrator approves a user, cancels and approves again on three
   * days: the user ends PRO for thirty days from the last approval only.
   */
  method ApproveCancelReapprove(admin: UserId, uid: UserId, day1: int, day2: int, day3: int)
    returns (final: Account)
    ensures final.isPro && final.expiry == Date(day3 + PaidDays)
  {
    var bot := new Bot(admin);
    var joined := bot.Start(uid, None, [], day1, false);
    assert uid in bot.users;
    AdminButtonApplies(bot.users, admin, Approve, uid, day1);
    var approved := bot.OnCallback(admin, EncodePayload(Approve, uid), true, false, day1);
    AdminButtonApplies(bot.users, admin, Cancel, uid, day2);
    var cancelled := bot.OnCallback(admin, EncodePayload(Cancel, uid), true, false, day2);
    assert bot.users[uid].expiry == Cancelled;
    AdminButtonApplies(bot.users, admin, Approve, uid, day3);
    var reapproved := bot.OnCallback(admin, EncodePayload(Approve, uid), true, false, day3);
    final := bot.users[uid];
  }
}
