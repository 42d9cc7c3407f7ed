# Subscription and referral core of a Telegram AI bot

The bot (`main.py`) gives every Telegram user who sends `/start` a row in a
SQLite `users` table (`user_id`, `username`, `ref_by`, `ref_count`, `is_pro`,
`expiry`). It credits a referrer when a newcomer arrives through their
`?start=<id>` link, and grants twelve PRO days on every fifth referral.
Payment proofs go to an administrator, who approves (thirty PRO days),
rejects or cancels a user through `adm_<act>:<uid>` inline buttons. Per-user
conversation state (`mode`, the `waiting_proof` flag) lives in
`context.user_data`. Long AI answers are cut into Telegram-sized chunks by
`split_message`.

This Dafny project models that core:

* `wrappers.dfy` (`Wrappers`): `Option` and `Result`.
* `text.dfy` (`Text`) covers the string operations the handlers rely on:
  * decimal rendering and parsing (`str(uid)`, `int(...)`, `isdigit`);
  * `split(":")`, `in` on strings and `startswith`;
  * `lstrip` and `rfind`.
* `accounts.dfy` (`Accounts`) holds the rest of the data model:
  * the table is a `map<UserId, Account>`;
  * an `Expiry` is unset, the literal `'Cancelled'`, or a calendar day (dates are day numbers; `datetime.now()` is the parameter `today`);
  * `is_pro_valid` and `get_user_status`;
  * a ghost well-formedness invariant of the table.
* `referral.dfy` (`Referral`) is the database half of `/start`, as a function `Admit` on the table.
* `approval.dfy` (`Approval`) covers the admin side:
  * the `adm_` payload: its encoding and decoding, and the order of the substring tests;
  * the three decisions;
  * the administrator gate.
* `chunking.dfy` (`Chunking`): `split_message` as a method with a `while` loop, proved against the recursive function `Chunks`.
* `sessions.dfy` (`Sessions`) is the per-user `user_data` as a `Session` value, with the transitions made by:
  * the reply-keyboard buttons;
  * the message router of `process_ai`;
  * the `send_proof` callback.
* `handlers.dfy` (`Handlers`) holds the handlers as a `class Bot`:
  * its fields are the table `users` and the map `userData` of sessions;
  * its methods are `start`, `handle_buttons`, `process_ai` and `callback_handler`.

  A database transaction is a local copy of the table, assigned back at `conn.commit()`. A handler that raises before the commit therefore returns with the table untouched. Each method's postcondition ties the new state to the specification functions above.

Network outcomes are Boolean parameters:

* whether the user is a channel member;
* whether a Telegram send raised;
* whether the AI or image backend failed.

The AI's answer text is a parameter too.

Behaviour of the code that the model keeps, though a reader might expect otherwise:

* An admin decision is rolled back when the message to the target user (or the edit of the admin's message) raises. Both happen before `conn.commit()` (main.py:265-276).
* An `adm_` callback from anyone but the administrator gets no answer at all. It falls through every branch (main.py:257).
* When the referrer named in the link has no row, `c.fetchone()[0]` raises outside the `try` (main.py:126). The handler stops before `commit`, so the newcomer's own row is not stored either.
* A referral argument `"0"` is stored as `ref_by = 0` but credits no one, because `if ref_by:` is false (main.py:123).
* The proof flag is cleared only after the forward to the admin and the confirmation succeed (main.py:196-203). If either raises, the flag stays set.
* `adm_can` works from any state of the user, not only after an approval (main.py:268-269).
* Image mode is checked against PRO validity only when the button is pressed, not when the image is generated (main.py:168-172, 210).
* A text longer than the limit whose first character is a line break, with no other break before the limit, yields an empty first chunk (main.py:84-86). `Chunking.LeadingBreakGivesEmptyChunk` states this.
* `split_message` can also end with an empty chunk, when only whitespace follows the last cut. For example, `"abcd  "` with a limit of 4 gives `["abcd", ""]`. An empty answer is likewise a single empty chunk.
* Telegram refuses empty text, so neither `reply_text` call can deliver an empty chunk. Both raise, and `process_ai` reports its error message after the earlier chunks have gone out (main.py:226-232). The model does not follow individual sends (see "Left out").

## Model

| member | source | states |
|---|---|---|
| Accounts.IsProValid | main.py:58-69 | a user counts as PRO only when the row exists, `is_pro` is set, and the expiry parses as a date |
| Accounts.UserStatus | main.py:72-78 | a user without a row reads as `(0, "None", 0)`; otherwise the row's flag, expiry and referral count |
| Accounts.StatusAgreesWithValidity | main.py:155-159 | the account page shows PRO exactly when the status says `is_pro` with a date expiry that is still ahead |
| Accounts.ValidityAntitone | main.py:66-67 | once a subscription has lapsed it stays lapsed on every later day |
| Accounts.GrantedValidity | main.py:130-132 | after a grant of `days` days from `start`, the user is PRO exactly on the days before `start + days` |
| Accounts.RevokedNeverValid | main.py:269 | a cancelled user is never PRO, whatever the day |
| Accounts.ProChangePreservesWellFormed | main.py:42-45 | changing only a row's `is_pro`/`expiry` keeps the table invariant: <ul><li>PRO implies a date</li><li>no self-referral</li><li>referrers exist</li><li>`ref_count` equals the number of rows naming the referrer</li></ul> |
| Text.NatToStringValue | main.py:158 | `str(n)` of a natural is a digit string whose value is `n` |
| Text.IntToStringRoundTrip | main.py:259 | `int(str(n)) == n` for every integer |
| Text.Split | main.py:258 | `split(":")` yields at least one field; no field holds the separator; joining the fields gives back the input |
| Text.SplitCount | main.py:258 | `split(":")` yields exactly one more field than there are colons |
| Text.SplitAtSoleSeparator | main.py:258 | with exactly one colon, `split(":")` gives the part before it and the part after it |
| Text.ParseInt | main.py:259 | `int` of a digit string is its decimal value; anything accepted ends in a digit; a negative result needs a leading `-`. `Text.IntToStringRoundTrip` is its partner |
| Text.SplitJoin | main.py:258 | splitting the join of separator-free fields gives back the fields |
| Text.LeadingSpaceSpan | main.py:87 | `lstrip` removes exactly the leading whitespace: everything before the cut is whitespace, and the character at the cut is not |
| Text.RFindLast | main.py:84 | `rfind` returns the last occurrence before `end`, or -1 when there is none |
| Referral.ParseReferrer | main.py:120-121 | <ul><li>the referrer is taken only from an all-digit first argument, is its value, and is never the newcomer</li><li>every all-digit first argument whose value is not the newcomer is taken, leading zeros included</li></ul> |
| Referral.ReferralLinkRoundTrip | main.py:158 | the `?start=<uid>` link of a user is parsed back to that user by every other newcomer |
| Referral.Admit | main.py:115-137 | these outcomes of `/start` on the table: <ul><li>a known user changes nothing</li><li>it fails exactly when a credited referrer has no row</li><li>otherwise it adds exactly the newcomer's row and leaves other rows outside the referrer alone</li></ul> |
| Referral.AdmitCredits | main.py:123-136 | a credited referral adds one to the referrer's count; on a multiple of five it grants twelve days from today; otherwise PRO state is kept; the notice reports both |
| Referral.AdmitWithoutCredit | main.py:120-123 | without a creditable referrer only the newcomer's row is inserted and no notice is sent |
| Referral.AdmitIdempotent | main.py:117-119 | running `/start` a second time changes nothing |
| Referral.AdmitPreservesWellFormed | main.py:115-137 | `/start` keeps the table invariant, including `ref_count` = number of referred rows |
| Referral.ReferralsAccumulate | main.py:123-132 | `n` distinct newcomers through one link raise the count by `n` |
| Referral.FifthReferralRewards | main.py:130-132 | a referrer with four referrals gets twelve PRO days from the fifth |
| Approval.EncodePayload | main.py:192-193 | every admin button payload starts with `adm_` |
| Approval.Classify | main.py:262-273 | the decision is approval exactly when the action holds `app`; cancel when it holds `can` but not `app`; none when it holds none of the three tags |
| Approval.DecodeAtSoleColon | main.py:258-259 | for `DecodePayload`: <ul><li>unpacking into two fields fails exactly when the data does not hold exactly one colon</li><li>otherwise the target is `int` of the text after the colon, and the decode fails exactly when that is not an integer</li><li>the decision is `Classify` of the text before the colon</li></ul> |
| Approval.TagsClassify | main.py:262-273 | the substring tests, in the code's order, recover the decision from each of `adm_app`, `adm_rej`, `adm_can` |
| Approval.PayloadRoundTrip | main.py:257-259 | every payload the bot builds splits into two fields and decodes to the decision and user it was built from |
| Approval.PayloadInjective | main.py:192-193 | different decisions or users never share a payload |
| Approval.Decide | main.py:262-275 | approve sets PRO with thirty days from today; cancel sets not-PRO and `Cancelled`; reject and a missing row change nothing; no other row or column changes |
| Approval.LatestDecisionWins | main.py:262-272 | an approval or cancellation overrides whatever decision came before it |
| Approval.DecisionValidity | main.py:263-269 | after a decision the user is PRO on a day exactly when it was an approval and the day is within the thirty days |
| Approval.DecidePreservesWellFormed | main.py:262-275 | decisions keep the table invariant |
| Approval.AdminEffect | main.py:257-277 | a callback from anyone but the administrator, or one without the `adm_` prefix, leaves the table unchanged; at most the decoded target's row changes |
| Approval.AdminEffectDecoded | main.py:257-276 | an administrator's payload that decodes applies its decision, unless the message to the user raised |
| Approval.AdminButtonApplies | main.py:257-266 | pressing a button the bot built applies exactly the decision it names |
| Chunking.Chunks | main.py:81-89 | defines the result one cut at a time, with always at least one chunk. Its partners are `ChunksBounded`, `CutPointIsLastBreak`, `FirstChunkCut` and `ChunksReassemble` |
| Chunking.SplitMessage | main.py:81-89 | the loop returns `Chunks(text, max_length)` |
| Chunking.ChunksBounded | main.py:83-88 | there is at least one chunk and no chunk is longer than the limit |
| Chunking.ShortTextOneChunk | main.py:83-88 | a text within the limit is one chunk, itself |
| Chunking.CutPointIsLastBreak | main.py:84-85 | the cut is at the last line break before the limit, or at the limit when there is none |
| Chunking.FirstChunkCut | main.py:84-86 | the first chunk of a long text ends just before its last line break within the limit, or is the first `max_length` characters |
| Chunking.LeadingBreakGivesEmptyChunk | main.py:84-86 | a long text starting with its only break before the limit yields an empty first chunk |
| Chunking.ChunksReassemble | main.py:83-88 | the chunks are consecutive slices of the text: with the dropped gaps put back between them they give the text exactly, and every gap is whitespace. So nothing inside a chunk is lost, and only the whitespace right after a cut is dropped |
| Sessions.PressButton | main.py:168-177 | the research and web buttons set their mode; image mode is entered only by a PRO user; the account button and a refused image press change nothing; the proof flag is kept |
| Sessions.RouteOf | main.py:183-210 | <ul><li>non-members are turned away before anything else</li><li>a pending proof is forwarded instead of asking the AI</li><li>image mode generates an image</li><li>every other mode asks the AI, in detail only in research mode</li></ul> |
| Sessions.AfterMessage | main.py:190-215 | a message never sets the proof flag and never enters image mode; a forwarded proof clears the flag; a generated image returns to chat mode |
| Sessions.AfterCallback | main.py:252-253 | only the `send_proof` callback sets the proof flag, and it changes nothing else |
| Sessions.ProofRequestThenSubmit | main.py:190-203 | after `send_proof`, the next message from a member is forwarded as the proof and not sent to the AI |
| Sessions.ImageModeNeedsPro | main.py:168-172 | no button press puts a user without valid PRO into image mode |
| Handlers.Bot.constructor | main.py:39-47 | an empty table and no sessions; the invariant holds |
| Handlers.Bot.Start | main.py:112-138 | the committed table is `Admit`'s, or unchanged when it raises; the invariant is kept; the notice is reported as delivered only when the send went out |
| Handlers.Bot.HandleButtons | main.py:151-177 | the session moves by `PressButton` with the user's current validity; the account page shows the status, the PRO flag, purchase buttons only for non-PRO users, and the user's id as referral argument |
| Handlers.Bot.ProcessAi | main.py:180-235 | replies and session follow `RouteOf` and `AfterMessage`: <ul><li>a proof is forwarded with approve and reject payloads for the sender</li><li>an answer is `Chunks(answer, 4000)`</li></ul> |
| Handlers.Bot.ApplyDecision | main.py:257-277 | the table becomes `Decide(...)` unless the send raised (then unchanged); the admin is offered a payload that decodes to the opposite action on the same user |
| Handlers.Bot.OnCallback | main.py:238-277 | the table becomes `AdminEffect(...)`; the sender's session moves by `AfterCallback`; nobody else's session changes; `verify_join` and `send_proof` answer as in the code |
| Handlers.ApproveCancelReapprove | main.py:262-272 | approve, cancel, re-approve on three days leaves the user PRO until thirty days after the last approval |

## Left out

- Telegram transport is not modelled: message texts, keyboards, Markdown, `get_me`, photo versus text proofs and message deletion. Replies are datatypes carrying what the handler decides.
- `is_subscribed`, `keep_typing`, the OpenRouter and Hugging Face calls, and `asyncio` are not modelled. Their outcomes are parameters.
- The health-check server, `run_bot`, `load_dotenv` and the module-level `init_db()` call are not modelled.
- Concurrency is not modelled: handlers run one at a time, so interleavings of concurrent updates and SQLite locking are not captured.
- `ADMIN_ID` is not read from the environment (main.py:27). It is the `Bot` constructor's parameter, so the fallback id used when the variable is unset is not part of the model.
- Dates are day numbers: `strftime`/`strptime` formatting, time of day and time zones are not modelled. An expiry string the bot never writes (hand-edited or malformed) is not modelled; the bot writes only unset, `Cancelled` or a date.
- The `joined_channel` column is not modelled: the code never reads or writes it.
- `is_pro` is a Boolean: the code writes only 0 and 1.
- Text.ParseInt accepts an optional sign and ASCII digits only. Python's `int()` also accepts surrounding whitespace, `_` between digits and non-ASCII decimal digits. A payload with those is outside the model.
- Referral.ParseReferrer uses ASCII digits for `isdigit()`. Python's `isdigit()` also accepts other Unicode digits, some of which `int()` then rejects with a raise.
- Handlers.Bot.ProcessAi does not model the per-chunk Markdown fallback, the half-second pauses, or a chunk whose send fails part-way. The whole answer is reported as sent or as an error.
- Handlers.Bot.ProcessAi does not model a message without text (`msg.text` of `None`), or an AI reply whose content is `None`.
- Handlers.Bot.OnCallback treats the `reply_text`/`answer` calls of `send_proof` as succeeding. The flag is set before them in the code, so a failure there would not change the state.
- Database errors other than the missing referrer row are not modelled: disk, locking, and an `adm_` target that is not an integer column. The connection left open after a raise is not modelled either.
