# Amisache backend: verified model

This project models the parts of the Amisache backend whose correctness depends on more than one function, and proves
what they promise. Each module follows one part of the program:

| file | part of the program |
|---|---|
| `Calendar.dfy`, `Liturgy.dfy` | dates as strings, occurrences of a schedule, the next occurrence, the lead time of a request |
| `UpcomingMasses.dfy` | the assistant's list of dated masses, and the way back from a listed mass to its schedule |
| `OtpLimiter.dfy` | one-time codes, attempt counters and locks |
| `Sessions.dfy` | refresh tokens: login, rotation, logout, nightly cleanup |
| `Chat.dfy`, `ChatSteps.dfy`, `ChatAccess.dfy`, `ChatService.dfy` | conversations: message log, cached last message, BOT/AGENT mode, memberships, automatic replies; the operations, every sequence of them, who enters an assistant conversation, and the service that carries them out |
| `Presence.dfy` | the gateway's index of who is online |
| `Slugs.dfy`, `Churches.dfy` | slugs, and the hierarchy of churches |
| `MailRetry.dfy` | the mail queue, the table of failed mails and their retries |
| `Wkt.dfy` | Well-known Text of points and polygons |
| `ToolLoop.dfy` | the loop between the language model and its tools |
| `Text.dfy`, `Wrappers.dfy` | string order, decimal numbers, splitting; Option and Result |

Services that change state are classes whose methods change the same tables in the same order as the program. A
method's `ensures` equates the new state with a function of the old one, and the lemmas are about those functions; the
class invariant `Valid` then says what is true between any two steps of any run. Pure code is functions. Methods that
only hand on a row or a key have no row of their own in the table below.

The main results are `Liturgy.OccurrenceMeaningIff`, `Liturgy.ExactIffWithinBound`, `UpcomingMasses.GetUpcomingMasses`
with `UpcomingMasses.StopsIff`, `OtpLimiter.AttemptsBounded` with `OtpLimiter.BoundIsReached`,
`OtpLimiter.AcceptedIff`, `Sessions.AuthService.Refresh` with `Sessions.RefreshesOnce`, `ChatSteps.EveryRun`,
`ChatAccess.NoOneEntersByOpening`, `Presence.ChatGateway.HandleDisconnect`, `Churches.ChainsAreShort` with the invariant of
`Churches.ChurchService`, `Slugs.FirstFree`, `MailRetry.NoMailIsLost`, `MailRetry.OnceUnlessHasty` and
`MailRetry.AbandonedIsFinal`, `Wkt.PolygonRoundTrip`, and `ToolLoop.LlmChatBot.Reply` with `ToolLoop.GivesUpIff`.

Where the code falls short of a promise, the model keeps the code as it is and states exactly when the promise holds:

* The comment above `nextScheduleOccurrence` (src/liturgy/liturgy.util.ts:88-93) says that a mass in progress counts as
  the next one. The search starts at the UTC date of `from`, so a mass that began on an earlier date can be missed.
  `Liturgy.ExactIffWithinBound` shows that it never is if and only if start time and duration add up to at most 1500
  minutes; `Liturgy.RunningMassMissed` is a mass that is missed.
* `isValidScheduleOccurrence` compares strings but reads them with `new Date`, which also takes a year, a month and a day
  past the end of its month. `Liturgy.OccurrenceMeaningIff` shows for which strings the comparison and the reading agree;
  `Liturgy.MonthIsAccepted` and `Liturgy.RolledDayIsRefused` are two for which they do not.
* The loop of `getUpcomingMasses` does not always end, because the day after 9999-12-31 is written with a plus and becomes
  its own successor once cut to ten characters. `UpcomingMasses.StopsIff` shows that it ends if and only if its start is
  after its end or its end is before 9999-12-31; `UpcomingMasses.EndlessWindow` is a call that does not end.
* A list made without a type shows masses and confessions alike. `UpcomingMasses.ListedMassIsFound` shows when a request
  for an entry succeeds; `UpcomingMasses.ConfessionIsRefused` is one that does not.
* `respectsLeadTime` compares the hour and minute of a slot as strings within its date, so a schedule at 24:00 or later, which
  the request format and a TIME column accept (src/liturgy/dto/schedule.dto.ts:38-39), can be refused although it begins late enough.
  `Liturgy.LeadTimeIff` shows that slots are judged by their minutes if and only if the time is a time of day;
  `Liturgy.LateTimeIsRefused` is a slot that is not.
* Nothing is to be sent after a second escalation (src/chat/services/chat.service.ts:824-828), but the fallback
  for a model that fails is sent without asking. `ToolLoop.LlmChatBot.Reply` shows that a run escalated again is silent if
  and only if no completion was given up, `ToolLoop.GivesUpIff` and `ToolLoop.GivenUpIff` when one is;
  `ToolLoop.SpeaksAfterReEscalation` is a reply that speaks.
* A socket that disconnects while `onJoinConversation` waits is left in the presence index.
  `Presence.JoiningAgrees` shows that the index is right after a join if and only if the socket is still connected;
  `Presence.GhostEntry` is a run in which it is not. The invariant of `Presence.ChatGateway` says that in every run the index
  is right but for the entries left behind in this way, which nothing removes but a leave of the socket itself, and a
  socket that is gone sends none.
* Nothing refuses a second retry of a failed mail while the first is queued. `MailRetry.OnceUnlessHasty` shows that this
  is the only step after which a mail can be delivered twice, and `MailRetry.AbandonedIsFinal` that an abandoned mail
  stays abandoned if and only if no retry of it is queued. `MailRetry.DeliveredTwice` and `MailRetry.AbandonedIsReopened`
  are runs from the empty system in which this goes wrong.
* `createOrOpen` writes the participants it is given. `Chat.OpeningKeepsApart` shows that memberships stay apart if and
  only if these are distinct and do not include the initiator, and `ChatSteps.EveryRun` that this is never made or mended
  afterwards.
* `polygonTransformer` writes the first ring only. `Wkt.PolygonRoundTrip` shows that a polygon survives if and only if it
  has one ring, with at least one position.
* An actor key is split at colons. `Presence.KeyRoundTrip` shows that it is taken apart correctly if and only if the id
  holds none; ids are UUIDs.
* The comment in src/chat/dto/handoff.dto.ts says that a handoff emits no system message; the code does
  (src/chat/services/chat.service.ts:661-703), and the model follows it.

## Model

| member | source | states |
|---|---|---|
| Calendar.CivilOrder | src/liturgy/liturgy.util.ts:26-30 | the civil dates (year, month, day) come in the order of their day numbers, across month ends and leap years |
| Calendar.CivilRoundTrip | src/liturgy/liturgy.util.ts:29-30 | the civil date found for a date's day number is that date, by the definitions of ECMA-262 section 21.4.1 |
| Calendar.NextDay | src/assistant/services/assistant-tools.service.ts:496-500 | the date of the next day number is tomorrow by the calendar's own rules (month lengths, leap years, year ends) |
| Calendar.PrintableRange | src/assistant/services/assistant-tools.service.ts:496-500 | exactly the day numbers whose date prints with a four-digit year |
| Calendar.PrintThenParse | src/assistant/services/assistant-tools.service.ts:496-500 | a day of the years 0000 to 9999 printed as YYYY-MM-DD and read back is the same day |
| Calendar.PrintThenParseIff | src/assistant/services/assistant-tools.service.ts:496-500 | for every day a `Date` can hold, reading its ten printed characters gives it back if and only if its year has four digits or it is the first of a month |
| Calendar.ParseThenPrint | src/liturgy/liturgy.util.ts:29-30 | a string that `new Date` reads, in any of the date forms of ECMA-262 section 21.4.1.32, is what its day prints as if and only if it is a real YYYY-MM-DD date, or a month of a signed year outside 0 to 9999 |
| Calendar.LenientReading | src/liturgy/liturgy.util.ts:29-30 | 2026 and 2026-01 read as January 1st, and 2026-02-31 as March 3rd |
| Calendar.RealDateIsPrinted | src/liturgy/liturgy.util.ts:29-30 | a real date reads as its day and is what that day prints as |
| Calendar.DateOrder | src/liturgy/liturgy.util.ts:26-27 | comparing two dates as strings compares their day numbers, both ways |
| Calendar.AddDaysIsAddition | src/assistant/services/assistant-tools.service.ts:496-500 | for every string that reads as a day, `addDays` followed by reading is addition on day numbers if and only if the sum is a valid date with a four-digit year, or the first of a month |
| Calendar.CeilCountsWeekDays | src/liturgy/liturgy.util.ts:43-48 | `ceil(day / 7)` is n if and only if counting the days of the month up to this one with its weekday gives n |
| Calendar.NthIsUnique | src/liturgy/liturgy.util.ts:43-48 | every month has exactly one n-th given weekday for n from 1 to 4, at most one for 5 and none for other n, and which day it is |
| Calendar.Zeller | src/liturgy/liturgy.util.ts:41-45 | the weekday of every date is the one of Zeller's congruence on its year, month and day, 0 for a Sunday |
| Calendar.WeekDaysFollow | src/liturgy/liturgy.util.ts:41-45 | January 1st 1970 is a Thursday, and weekdays follow each other |
| Liturgy.OccurrenceMeaning | src/liturgy/liturgy.util.ts:22-53 | on a real YYYY-MM-DD date the string tests say that the schedule takes place, in day numbers and counted weekdays |
| Liturgy.OccurrenceMeaningIff | src/liturgy/liturgy.util.ts:22-53 | for every string, the tests agree with the meaning of every schedule on the day the string reads as, if and only if the string is a real date, or no date, or has a negative year |
| Liturgy.MonthIsAccepted | src/liturgy/liturgy.util.ts:29-37 | a daily schedule accepts 2026-01, and there is a schedule whose meaning on the day it reads as the tests get wrong |
| Liturgy.RolledDayIsRefused | src/liturgy/liturgy.util.ts:26-30 | a daily schedule from 2026-03-01 refuses 2026-02-31, though it is read as March 3rd |
| Liturgy.EmptyDateIsNone | src/liturgy/liturgy.util.ts:26-27 | an empty validity date sets no bound |
| Liturgy.NextScheduleOccurrence | src/liturgy/liturgy.util.ts:94-116 | the day-by-day loop over strings returns the start of the first occurrence, from the UTC day of `from` to the horizon, that is not over |
| Liturgy.SearchFinds | src/liturgy/liturgy.util.ts:101-115 | the start found belongs to the earliest pending day of the range; none is found only if no day of it is pending |
| Liturgy.SundayMassIsFound | src/liturgy/liturgy.util.ts:94-116 | the Sunday mass at ten of 2026-03-01 is found on that Sunday, at nine o'clock UTC |
| Liturgy.ExactUnlessRunning | src/liturgy/liturgy.util.ts:94-116 | the result is the earliest pending occurrence over all days, past or future, if and only if none that began before the UTC day of `from` is still running |
| Liturgy.ExactIffOverByThen | src/liturgy/liturgy.util.ts:94-116 | for a given instant, time and duration: exact for every schedule if and only if start plus duration, past 25 hours, is over by that time of day |
| Liturgy.ExactIffWithinBound | src/liturgy/liturgy.util.ts:94-116 | exact for every schedule and instant if and only if start time and duration add up to at most 1500 minutes |
| Liturgy.RunningMassMissed | src/liturgy/liturgy.util.ts:88-93 | a mass from 23:30 to 01:30 is missed at 01:00 local time, against the comment |
| Liturgy.WeeklyResolves | src/liturgy/liturgy.util.ts:94-98 | a weekly schedule without validity dates always has a next occurrence under the default horizon, less than 7 days ahead |
| Liturgy.ClockOrder | src/liturgy/liturgy.util.ts:146 | HH:mm strings compare by hours, then minutes, with or without seconds; as the minutes they denote if there are fewer than 60 of them |
| Liturgy.LeadTimeInMinutes | src/liturgy/liturgy.util.ts:126-147 | an accepted slot's local minute is at least now plus the lead, rounded down to the minute; for a time of day the slot is accepted if and only if it is |
| Liturgy.LeadTimeIff | src/liturgy/liturgy.util.ts:126-147 | slots at a time are judged by their minutes, on every date and at every instant, if and only if the time is a time of day |
| Liturgy.AcceptedIffInTime | src/liturgy/liturgy.util.ts:126-147 | a slot at a time of day is accepted if and only if it begins later than one minute before now plus the lead |
| Liturgy.LateTimeIsRefused | src/liturgy/liturgy.util.ts:144-146 | a slot at 25:00 is refused half an hour before it begins |
| Liturgy.NeverAMinuteEarly | src/liturgy/liturgy.util.ts:137-147 | no accepted slot begins a full minute or more before the lead has run |
| Liturgy.LeadTimeInDays | src/liturgy/liturgy.util.ts:131-136 | without a time, a lead of d whole days accepts exactly the dates from local today plus d on |
| UpcomingMasses.GetUpcomingMasses | src/assistant/services/assistant-tools.service.ts:442-480 | whenever its loop ends: the window starts at the later of today and the asked day, ends at the lesser of the asked end and 31 days on, and a question about one day gets that day; no listed day is past; it fails only for a start that reads as no day, and lists exactly the (day, schedule) pairs of the window that pass the tests, in nondecreasing order of date and time, also when the start is a day past the end of its month; five buttons and one for the rest |
| UpcomingMasses.MassesAre | src/assistant/services/assistant-tools.service.ts:463-471 | each mass listed has the date as it was written, its weekday, five characters of its time, and its schedule's celebration |
| UpcomingMasses.IsDayIff | src/assistant/services/assistant-tools.service.ts:447-449 | an argument counts as a day if and only if it is four, two and two digits with hyphens, whatever day that is |
| UpcomingMasses.OneDay | src/assistant/services/assistant-tools.service.ts:447-459 | a window that ends on the day it starts is passed once, and every mass listed is on that day |
| UpcomingMasses.StopsIff | src/assistant/services/assistant-tools.service.ts:459 | the loop over days ends if and only if its start is after its end or its end is before 9999-12-31 |
| UpcomingMasses.TerminatesIffStops | src/assistant/services/assistant-tools.service.ts:444-459 | the condition under which GetUpcomingMasses is stated is that its start reads as no day or its loop ends, and no more |
| UpcomingMasses.EndlessWindow | src/assistant/services/assistant-tools.service.ts:448-459 | from 9999-12-17 without an end the loop never ends; from 9999-12-20 it ends at once |
| UpcomingMasses.EndlessCall | src/assistant/services/assistant-tools.service.ts:442-459 | a call of the tool whose loop does not end |
| UpcomingMasses.MassPicksHolds | src/assistant/services/assistant-tools.service.ts:459-471 | a pair is listed if and only if its day is in the window and its schedule passes the tests on the day as it is written; no pair comes twice |
| UpcomingMasses.WantedMeaning | src/assistant/services/assistant-tools.service.ts:461-463 | on a date of the calendar a schedule that passes the tests takes place that day, its minute is not before now plus the lead, and it is a mass if it has to be; for a time of day it passes if and only if this is so |
| UpcomingMasses.AscendingPicksInOrder | src/assistant/services/assistant-tools.service.ts:451-455 | pairs by day and then by the table's order of times give masses ordered by date, then time, whatever valid text the first day has |
| UpcomingMasses.WindowIsClamped | src/assistant/services/assistant-tools.service.ts:446-449 | a day is in the window if and only if it is at most the asked end and at most 31 days after the start, 14 by default; the window is empty if that reaches past the year 9999 |
| UpcomingMasses.AppendDay | src/assistant/services/assistant-tools.service.ts:460-470 | one day adds exactly its wanted masses, in the order of the table |
| UpcomingMasses.ListedMassIsFound | src/assistant/services/assistant-tools.service.ts:516-531 | a request for a listed mass finds a schedule if and only if one takes place on that date at that time and is a mass if the request needs one, whatever order the table is read in; it always does if the request is not stricter than the list |
| UpcomingMasses.SecondsAreDropped | src/assistant/services/assistant-tools.service.ts:517 | a request finds its time also when it gives the seconds |
| UpcomingMasses.ConfessionIsListed | src/assistant/services/assistant-tools.service.ts:451-463 | a confession is listed when no type is given |
| UpcomingMasses.ConfessionIsRefused | src/assistant/services/assistant-tools.service.ts:520-531 | and is then refused for an intention |
| OtpLimiter.OtpService.IncrementAttempt | src/auth/services/otp.service.ts:123-142 | counts one attempt, starts the window on the first, locks and forgets the counter beyond the limit; no other key changes |
| OtpLimiter.OtpService.SendOtp | src/auth/services/otp.service.ts:25-76 | refused while locked; counts; stores the code only if still within the limit |
| OtpLimiter.OtpService.VerifyOtp | src/auth/services/otp.service.ts:81-104 | refused while locked; no live code counts nothing; a code other than the one stored counts; the one stored deletes code and counter |
| OtpLimiter.RefusedIff | src/auth/services/otp.service.ts:113-142 | in every run a request for a code or an attempt is refused as locked if and only if a call went over the limit within the lock's duration before it |
| OtpLimiter.AcceptedIff | src/auth/services/otp.service.ts:81-104 | in every run a code is accepted if and only if the user is not locked, and the last code sent is this one, younger than its lifetime and not used since |
| OtpLimiter.EachCodeOnce | src/auth/services/otp.service.ts:98-104 | in every run a code is sent between any two that are accepted: each is accepted once at most |
| OtpLimiter.AlwaysSound | src/auth/services/otp.service.ts:123-142 | in every run and for every configuration whose lock outlives its counter: a counter never exceeds its limit, and while a lock lives there is no counter |
| OtpLimiter.WindowAccounted | src/auth/services/otp.service.ts:113-142 | in every run: what the keys say bounds the attempts counted so far in any open window |
| OtpLimiter.AttemptsBounded | src/auth/services/otp.service.ts:113-142 | in every run and for every such configuration, any interval of the counter's lifetime holds at most 2 maxAttempts counted attempts, plus maxAttempts for each success in it |
| OtpLimiter.AttemptsBoundedWithoutReset | src/auth/services/otp.service.ts:113-142 | without a success, at most 2 maxAttempts in any such interval |
| OtpLimiter.OperationsAreSensible | src/utils/redis.config.ts:18-64 | all four operations are configured so |
| OtpLimiter.BoundIsReached | src/auth/services/otp.service.ts:113-142 | the bound is tight, by requests for a code as by failures, for every such configuration whose counter lives at least two seconds, or one if a single attempt is allowed |
| Sessions.AuthService.BuildAuthResponse | src/auth/services/auth.service.ts:452-479 | a login makes its token the latest of its user and device, replacing the row there was |
| Sessions.AuthService.Refresh | src/auth/services/auth.service.ts:244-311 | succeeds if and only if the token is signed, the latest issued to its user and device since the last revocation, not expired, and the user exists; then a new token is the latest; a refusal changes nothing and says what failed first, which is never the expiry of the row |
| Sessions.AuthService.RotateSession | src/auth/services/session.service.ts:77-95 | the row keeps its id and takes the new hash and expiry; the table still tells the latest token of every device |
| Sessions.AuthService.DeleteSessionById | src/auth/services/session.service.ts:133-135 | revokes the session of that id if it is the user's, and nothing otherwise |
| Sessions.AuthService.CleanExpiredSessions | src/auth/services/session.service.ts:200-205 | removes expired rows only, and the table still tells the latest token of every device |
| Sessions.AcceptedIffLatest | src/auth/services/auth.service.ts:244-300 | in any state whose table agrees with what was issued and revoked, the checks of `refresh` accept exactly the latest unexpired token |
| Sessions.CleanupIsInvisible | src/auth/services/session.service.ts:200-203 | the nightly cleanup never changes whether a refresh succeeds, then or later |
| Sessions.NeverLatestAgain | src/auth/services/session.service.ts:77-92 | a token superseded or revoked is never the latest again, whatever is issued or revoked afterwards |
| Sessions.RefreshesOnce | src/auth/services/auth.service.ts:266-308 | a token that was exchanged is refused in every later state |
| Sessions.DevicesAreApart | src/auth/services/session.service.ts:116-135 | issuing or revoking changes the latest token of the user and device named, of all the user's devices at a logout everywhere, and of no other |
| Chat.OpeningKeepsApart | src/chat/services/chat.service.ts:240-267 | the first memberships do not overlap if and only if the participants are distinct and not the initiator |
| Chat.DuplicateOverlaps | src/chat/services/chat.service.ts:255-267 | an actor given twice has overlapping memberships from the start |
| Chat.JoiningKeepsApart | src/chat/services/chat.service.ts:290-308 | joining neither makes memberships overlap nor heals an overlap |
| Chat.LeavingKeepsApart | src/chat/services/chat.service.ts:668-673 | closing an open membership never makes two overlap, nor, at a later instant, heals an overlap |
| Chat.HandoffKeepsApart | src/chat/services/chat.service.ts:668-698 | closing the bot's membership and adding the human's, in that order, neither makes memberships overlap nor heals an overlap |
| Chat.PostingKeeps | src/chat/services/chat.service.ts:771-803 | a new message keeps the cache equal to the newest message, the mode equal to the replay of the system messages, the bot silent in AGENT mode, and automatic messages at most one more than requests |
| Chat.HeadersDecide | src/chat/services/chat.service.ts:582-627 | mode and counts depend only on what deletion and reading receipts leave unchanged |
| Chat.WhoSpoke | src/chat/services/chat.service.ts:422-438 | the bot's messages count as automatic, and no others; the requests are the messages of visitors, and of the user of an assistant conversation in it |
| Chat.PreviewIs | src/chat/services/chat.service.ts:539-547 | the preview is the text, cut to 140 characters and an ellipsis if longer; for a text of white space the kind of the first attachment, or nothing |
| Chat.UpdatingKeeps | src/chat/services/chat.service.ts:582-657 | changing bodies or receipts keeps all of it, if the cache is still true |
| Chat.DeletingKeeps | src/chat/services/chat.service.ts:582-627 | after a deletion anywhere in the log the cache still shows the newest message as it now stands |
| Chat.SendingKeeps | src/chat/services/chat.service.ts:362-410 | a message, and the reply it may start, keep all of it |
| Chat.ReplyingKeeps | src/chat/services/chat.service.ts:723-749 | a reply posted in BOT mode is paid for by the request that started it |
| Chat.HandoffKeeps | src/chat/services/chat.service.ts:661-703 | after a handoff the replayed mode is AGENT and the mode with it |
| Chat.ReleaseKeeps | src/chat/services/chat.service.ts:708-716 | after a release the replayed mode is BOT and the mode with it; releasing twice says nothing twice |
| Chat.MarkingReads | src/chat/services/chat.service.ts:185-203 | after marking nothing is unread, and then exactly each message of another sender counts, which leaves out the bot's; no other actor's count changes |
| ChatSteps.EveryRun | src/chat/services/chat.service.ts:207-900 | after every sequence of operations, in every conversation: the cache is the newest message as it now stands; the mode is what the intact handoff and release messages make of the first one; the bot spoke only in BOT mode and at most once more than it was asked; memberships overlap if and only if the conversation was opened with the same actor twice; and no subject has two conversations |
| ChatSteps.StepKeeps | src/chat/services/chat.service.ts:207-900 | every operation keeps this, at any later instant |
| ChatSteps.RunKeeps | src/chat/services/chat.service.ts:226-308 | after every run the conversations recorded as apart are those that the run opened with distinct participants |
| ChatServices.ChatService.CreateOrOpen | src/chat/services/chat.service.ts:207-279 | forbidden if and only if an existing initiator asks for an assistant conversation that is not his own; a subject never gets a second conversation: one found for it gains the initiator and nothing else; a new one has the subject, mode and participants given, and for the assistant its user alone, the bot and a greeting; refusals change nothing, and a participant that does not exist stops the rest after those before him |
| ChatAccess.OthersStay | src/chat/services/chat.service.ts:213-237 | opening leaves every assistant conversation of someone else as it was, and of any other changes at most that the initiator joins |
| ChatAccess.NewIsAlone | src/chat/services/chat.service.ts:213-247 | an assistant conversation is opened by the user its subject names, who is alone in it |
| ChatAccess.NoOneEntersByOpening | src/chat/services/chat.service.ts:213-222 | in every run the first participant and owner of an assistant conversation is the user its subject names, and everyone else in it was added by hand or by a handoff |
| ChatServices.OpenWithDuplicate | src/chat/services/chat.service.ts:240-267 | a run that opens a conversation whose memberships overlap |
| ChatServices.ChatService.OpenGuestConversation | src/chat/services/chat.service.ts:856-900 | a visitor's conversation is found again, or opened in BOT mode with a greeting |
| ChatServices.ChatService.SendMessage | src/chat/services/chat.service.ts:362-438 | posts the sender's message; starts a reply exactly when the sender is the requester and the mode is BOT; refusals change nothing |
| ChatServices.ChatService.FinishReply | src/chat/services/chat.service.ts:723-749 | posts if and only if there is something to post and the mode is BOT now, whatever happened since the reply was started |
| ChatServices.ChatService.DeleteMessage | src/chat/services/chat.service.ts:582-627 | only the sender deletes, so system messages never go; a second deletion changes nothing; the preview changes only for the newest message, whether or not the database layer erases the stored body |
| ChatServices.ChatService.MarkRead | src/chat/services/chat.service.ts:631-657 | only an open membership marks; exactly the unread messages of other senders are marked, none without sender |
| ChatServices.ChatService.Handoff | src/chat/services/chat.service.ts:661-703 | every error case leaves all as it was; otherwise the bot leaves, the human joins, the mode is AGENT and the log says so |
| ChatServices.ChatService.ReleaseToBot | src/chat/services/chat.service.ts:708-716 | the mode is BOT again and the log says so, once |
| ChatServices.ChatService.Escalate | src/chat/services/chat.service.ts:829-847 | marks the conversation, leaves mode and log alone, and tells whether it was marked before |
| Presence.KeyRoundTrip | src/chat/gateways/chat.gateway.ts:302-316 | an actor key is taken apart into its type and id if and only if the id holds no colon |
| Presence.KeysDistinct | src/chat/gateways/chat.gateway.ts:313-316 | different actors have different keys |
| Presence.TrackingAdds | src/chat/gateways/chat.gateway.ts:270-285 | exactly one (conversation, actor, socket) is added, and nothing empty is left |
| Presence.UntrackingRemoves | src/chat/gateways/chat.gateway.ts:287-296 | exactly one (conversation, actor, socket) is removed, and nothing empty is left |
| Presence.JoiningAgrees | src/chat/gateways/chat.gateway.ts:224-227 | after a join the index equals what the sockets say if and only if the socket is still connected, or was already left behind there; else it differs by exactly that entry |
| Presence.LeavingAgrees | src/chat/gateways/chat.gateway.ts:242-246 | after a leave the index equals what the sockets say and the entries left behind, without this one |
| Presence.ListedIsTrue | src/chat/gateways/chat.gateway.ts:298-311 | the actors listed from an index that agrees are exactly those online or left behind, each once |
| Presence.TruthWithoutGhosts | src/chat/gateways/chat.gateway.ts:298-311 | where nothing was left behind, they are exactly those with a connected socket in the conversation |
| Presence.ChatGateway.BroadcastPresence | src/chat/gateways/chat.gateway.ts:298-311 | one event, which lists each key of the room once, taken apart |
| Presence.ChatGateway.OnJoinConversation | src/chat/gateways/chat.gateway.ts:198-234 | refusals change nothing; a join adds the socket, and leaves an entry behind if and only if the socket is no longer connected; in every run the index is the sockets' truth and these entries, and each event says so |
| Presence.GhostEntry | src/chat/gateways/chat.gateway.ts:183-234 | a run in which a socket disconnects during its join and leaves an entry behind |
| Presence.ChatGateway.OnLeaveConversation | src/chat/gateways/chat.gateway.ts:238-247 | the index stays the truth and what was left behind, which only this socket's own entry can leave; the room is told so |
| Presence.ChatGateway.HandleDisconnect | src/chat/gateways/chat.gateway.ts:183-192 | the socket is nowhere in the index, which is again the truth and what was left behind, and every conversation it was in is told so |
| Slugs.BaseIsHyphenatedWords | src/church/services/church.service.ts:356-362 | the chain of replacements gives the words of the text joined by single hyphens, none lost or reordered |
| Slugs.BaseIsIdempotent | src/church/services/church.service.ts:356-362 | the base form of a base form is itself |
| Text.TrimIs | src/church/services/church.service.ts:356-362 | trimming takes away the white space at both ends, all of it and nothing else |
| Slugs.BaseIsPlain | src/church/services/church.service.ts:356-362 | the base form has only lower-case letters, digits and hyphens, and its letters and digits are those of the folded text, in order |
| Slugs.CandidatesDiffer | src/church/services/church.service.ts:364-374 | no two tried slugs are equal |
| Slugs.TakenBound | src/church/services/church.service.ts:366 | no more tried slugs can be taken than there are other slugs, so the loop ends as its comment says |
| Slugs.FirstFree | src/church/services/church.service.ts:364-375 | the slug has the smallest free suffix, after at most n + 1 probes for n other slugs |
| Churches.AcceptsWellPlaced | src/church/services/church.service.ts:315-352 | the check accepts exactly a conference at the root with a known country, a leaf under a parish or community, and any other church under a higher level |
| Churches.AcceptsByName | src/church/services/church.service.ts:315-352 | the check accepts a church exactly under a type that may stand above it, type by type, and names the first thing wrong with any other |
| Churches.StandsByName | src/church/services/church.service.ts:33-43 | in a forest every church stands under a type that may stand above it, type by type |
| Churches.ChainsAreShort | src/church/services/church.service.ts:33-43 | in a forest every chain of parents ends at a conference after at most six steps, with levels strictly rising, so no church is its own ancestor |
| Churches.LeavesHaveNoChildren | src/church/services/church.service.ts:337-343 | a church or chapel is nobody's parent, and every parent exists |
| Churches.WritingKeeps | src/church/services/church.service.ts:171-197 | writing a well-placed row with a free slug keeps the forest and the slugs distinct |
| Churches.FirstFreeIsUnique | src/church/services/church.service.ts:355-376 | there is only one slug the search can give |
| Churches.ChurchService.PrepareSlug | src/church/services/church.service.ts:355-376 | the first free slug among the other churches, the church itself left out |
| Churches.ChurchService.Create | src/church/services/church.service.ts:171-181 | succeeds if and only if the type may stand where it is put, by the names of the types; refused exactly as the check says; otherwise one new row with the first free slug; the table stays a forest of distinct slugs |
| Churches.ChurchService.Update | src/church/services/church.service.ts:183-197 | type, parent and the rest of the row stay; a slug asked for is the first free one; the table stays a forest of distinct slugs |
| Churches.ChurchService.Delete | src/church/entities/church.entity.ts:87-104 | succeeds if and only if the church exists and has no child; the table stays a forest |
| Churches.ChurchService.SetPerimeter | src/church/services/church.service.ts:218-227 | the stored text reads back as the closed ring of the vertices; nothing else of the row changes |
| MailRetry.StepKeeps | src/mail/mail.processor.ts:60-83 | every step keeps: a queued job carries its mail, a row holds the mail it was saved for, and exists until that mail is delivered |
| MailRetry.NoMailIsLost | src/mail/mail-failed.service.ts:34-69 | in every run each submitted mail is queued for its first delivery, or held whole by one row, or delivered, and only one of these |
| MailRetry.RunRemembers | src/mail/mail-failed.service.ts:122-129 | a mail keeps its content, and once delivered stays so |
| MailRetry.OnceUnlessHasty | src/mail/mail-failed.service.ts:87-116 | once-only delivery is kept by a step if and only if it is not a second retry of a row with one queued |
| MailRetry.PatientRunsDeliverOnce | src/mail/mail-failed.service.ts:87-129 | in every run without such a retry no mail is delivered twice |
| MailRetry.HastyMayDeliverTwice | src/mail/mail-failed.service.ts:87-116 | after any such retry there is a run that delivers the mail twice |
| MailRetry.DeliveredTwice | src/mail/mail-failed.service.ts:87-129 | a run from the empty system that delivers a mail twice |
| MailRetry.AbandonedIsFinal | src/mail/mail-failed.service.ts:133-139 | an abandoned row stays abandoned in every run if and only if no retry of it is queued |
| MailRetry.FailedRetryReopens | src/mail/mail-failed.service.ts:56-69 | a retry that fails its attempts makes its row pending again, abandoned or not |
| MailRetry.AbandonedIsReopened | src/mail/mail-failed.service.ts:56-139 | a run from the empty system that reopens an abandoned row |
| MailRetry.MailModule.AttemptSucceeds | src/mail/mail.processor.ts:77-83 | the job leaves the queue, its mail is delivered, and a retry takes its row along |
| MailRetry.MailModule.AttemptFails | src/mail/mail.processor.ts:60-71 | nothing is saved before the last attempt; then a first job gets a row and a retry updates its own |
| MailRetry.MailModule.Retry | src/mail/mail-failed.service.ts:87-116 | not found, or not pending, changes nothing; otherwise one job more, and the row as it was |
| Wkt.PointRoundTrip | src/shared/geo.ts:35-44 | a point reads back as itself |
| Wkt.RingRoundTrip | src/shared/geo.ts:50-58 | every non-empty ring reads back as itself, position by position |
| Wkt.PolygonRoundTrip | src/shared/geo.ts:47-63 | a polygon reads back as itself if and only if it is one non-empty ring |
| Wkt.WrittenAsStandard | src/shared/geo.ts:35-52 | what the database is given: longitude before latitude, separated by a blank, positions by a comma and a blank |
| Wkt.ReadAsStandard | src/shared/geo.ts:53-62 | what the database gives back, without the blank after the comma, is read in the same order |
| Wkt.PerimeterReadsBack | src/church/services/church.service.ts:218-227 | n vertices read back as a closed ring of n + 1 positions (section 3.1.6 of RFC 7946) |
| ToolLoop.PlainIsWellFormed | src/assistant/services/llm-chat-bot.service.ts:158-180 | the history the loop starts from is a well-formed transcript |
| ToolLoop.RoundKeepsWellFormed | src/assistant/services/llm-chat-bot.service.ts:113-130 | a round of tool calls and their answers keeps the transcript well formed: each call answered at once, in order, and no other tool message |
| ToolLoop.ReEscalatedIff | src/assistant/services/assistant-tools.service.ts:571-577 | a run counts as escalated again if and only if the conversation was escalated twice, an escalation before this reply included |
| ToolLoop.LinkIsTheLast | src/assistant/services/assistant-tools.service.ts:542-543 | a link to the request form is replaced only by a later one |
| ToolLoop.LinkIsWhole | src/assistant/services/llm-chat-bot.service.ts:151-156 | a reader of the Markdown link takes exactly the escaped address, whatever parentheses the address held |
| ToolLoop.LinkedBody | src/assistant/services/llm-chat-bot.service.ts:151-156 | without a link the text is as the model wrote it; with one it is followed by the label and the escaped address in parentheses |
| ToolLoop.EscapingKeepsMeaning | src/assistant/services/llm-chat-bot.service.ts:151-156 | with the parentheses put back, an escaped address and the address are the same text |
| ToolLoop.PlainAddressStays | src/assistant/services/llm-chat-bot.service.ts:151-156 | an address without parentheses is left as it is |
| ToolLoop.LinkIffGiven | src/assistant/services/assistant-tools.service.ts:542-543 | a run has a link if and only if some tool gave one |
| ToolLoop.ButtonsAreLast | src/assistant/services/assistant-tools.service.ts:472-480 | the buttons are those of the last tool with an effect of its own, if it offers any |
| ToolLoop.LlmChatBot.Attempt | src/assistant/services/llm-chat-bot.service.ts:186-193 | no call once time is up; a call may take at most 20 s and never beyond the deadline |
| ToolLoop.GivenUpIff | src/assistant/services/llm-chat-bot.service.ts:182-204 | a completion is given up if and only if the model failed to answer in time twice, or once with less than 5 s left |
| ToolLoop.GivesUpIff | src/assistant/services/llm-chat-bot.service.ts:93-147 | the loop ends in the fallback if and only if the completion of some round that it reaches is given up |
| ToolLoop.LlmChatBot.Complete | src/assistant/services/llm-chat-bot.service.ts:182-204 | at most two calls with the same transcript; the second only with 5 s left; what comes of them is fixed by the model's answers and their times |
| ToolLoop.LlmChatBot.RunTools | src/assistant/services/llm-chat-bot.service.ts:114-130 | every call is carried out once, in order, recorded and answered |
| ToolLoop.LlmChatBot.Reply | src/assistant/services/llm-chat-bot.service.ts:73-148 | for every behaviour of model and tools: at most ten calls, all on time, with well-formed transcripts that only grow; the trace and the ending are those of the rounds as model and tools make them; silent if and only if escalated again and no completion was given up; an answer is the model's last message with the last link; the reply for too many rounds comes after the escalation was tried, and leaves the conversation escalated for the first time unless that failed |
| ToolLoop.SpeaksAfterReEscalation | src/assistant/services/llm-chat-bot.service.ts:139-146 | a reply in which the conversation is escalated again and the fallback is sent all the same |

## Left out

- Calendar.ParseIso: a string of none of the date forms of ECMA-262 is read as no date, although an implementation may read some of them in ways of its own.
- Liturgy.NextScheduleOccurrence: the horizon lies in the years 0000 to 9999; beyond them days are written by their month.
- Liturgy.LeadTimeInMinutes: the date and the earliest instant lie in the years 0000 to 9999, for the same reason.
- UpcomingMasses.GetUpcomingMasses: says nothing about calls whose loop does not end; today lies in the years 0000 to 9999; one value of now serves for the whole call.
- OtpLimiter.OtpService.CountFailure: the check and the count are one step; requests that overlap between them are not modelled.
- OtpLimiter.OtpService.SendOtp: the mail is not sent, and the random code is a parameter.
- Sessions.AuthService.Refresh: one step; two refreshes that overlap are not modelled. Signatures are a parameter, the hash is injective, identifiers are fresh, times are whole seconds.
- Sessions.AuthService.DeleteSession: the access token put on the revocation list at logout, and the device rows, are not modelled.
- ChatServices.ChatService.CreateOrOpen: looking up the subject and inserting are one step; two openings that overlap are not modelled.
- ChatServices.ChatService.SendMessage: instants are strictly increasing and stored without loss; the last_message_at column keeps whole seconds.
- ChatServices.ChatService.DeleteMessage: whether the database layer erases a body that is undefined or leaves it is a parameter.
- Chat.PostingKeeps: preview lengths count Unicode scalar values, not UTF-16 units.
- Presence.ChatGateway.Authenticate: API keys, tokens and rooms are left to the caller; the answer about membership in a join is a parameter.
- Churches.ChurchService.Create: nature, status, address, images and photos of a church are not modelled; lower-casing and accent removal are the parameter fold.
- MailRetry.MailModule.AttemptFails: database writes succeed, though the program swallows their errors; jobs the queue gives up as stalled, and jobs of an unknown type, are not modelled.
- Wkt.ParsePolygon: numbers are tokens; printing and reading a number are left to JavaScript.
- ToolLoop.LlmChatBot.Reply: prompt, history and arguments are not built; a failure before the loop, the alert and the keyword reply are not modelled; whether the escalation after the last round gets as far as the conversation is a parameter.
- The validation of a request, tariffs and the address built by prepareRequest: other services decide them; only the lookup of the schedule is modelled.
- formatLeadTime, isMassTypeName and labels of buttons: wording; whether a name is that of a mass is a parameter.
- BIWEEKLY parity: the program checks only the weekday.
- sendMessageWithFiles, file storage, typing indicators and realtime events other than presence: they add nothing to the state that is modelled.
- The content of replies (keyword search, language model) in the chat: any text.
- Unread counts of the bot's messages: the query leaves out messages without sender, and so does the model.
- Controllers, DTO validation, guards, migrations and the services that only store and list rows: each checks or copies one thing.
