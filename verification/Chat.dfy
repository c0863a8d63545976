/**
 Conversations: the message log, the cached last message, the BOT/AGENT mode and the participants
 (src/chat/services/chat.service.ts). This file says what each operation does to one conversation, and proves what
 every operation keeps; ChatSteps.dfy has the operations on the tables and their runs, ChatService.dfy carries them out.

 Instants are integers; every operation happens later than the one before.
 */
module Chat {
  import opened Wrappers
  import opened Text

  datatype ActorType = Human | Guest | AI | System
  datatype Actor = Actor(id: string, kind: ActorType)
  datatype Mode = Bot | Agent
  datatype Status = Open | Pending | Resolved | Closed
  datatype Role = Owner | Member | Faithful | Clergy
  datatype MessageKind = Plain | Notice
  datatype AttachmentKind = Image | Audio | Video | File

  /** `deletedAt` is `contentDeletedAt`: the row stays, its body and attachments do not. */
  datatype Message = Message(
    createdAt: int,
    senderId: Option<string>,
    senderType: ActorType,
    kind: MessageKind,
    body: Option<string>,
    attachments: seq<AttachmentKind>,
    deletedAt: Option<int>,
    readAt: Option<int>)

  datatype Participant = Participant(
    actor: Actor,
    role: Role,
    joinedAt: int,
    leftAt: Option<int>,
    lastReadAt: Option<int>)

  datatype Escalation = Escalation(at: int, reason: string, churchId: Option<string>)

  datatype Conversation = Conversation(
    subjectType: Option<string>,
    subjectId: Option<string>,
    status: Status,
    mode: Mode,
    lastMessageAt: Option<int>,
    lastMessagePreview: Option<string>,
    lastMessageSenderId: Option<string>,
    escalation: Option<Escalation>,
    log: seq<Message>,
    participants: seq<Participant>)

  const PREVIEW_MAX_LENGTH := 140
  const GUEST_SUBJECT_TYPE := "guest-widget"
  const BOT_WIDGET_SUBJECT_TYPE := "bot-widget"
  const HANDOFF_MESSAGE := "Un membre de l'équipe a pris le relais et vous répondra ici."
  const RELEASE_MESSAGE := "L'assistant reprend la conversation."
  const DELETED_PREVIEW := "Message supprimé"

  // ---- the cached last message ----

  predicate IsBlank(s: string) {
    forall i :: 0 <= i < |s| ==> IsSpace(s[i])
  }

  function KindName(kind: AttachmentKind): string {
    match kind
    case Image => "IMAGE"
    case Audio => "AUDIO"
    case Video => "VIDEO"
    case File => "FILE"
  }

  /** `buildPreviewText`. */
  function PreviewText(body: Option<string>, attachments: seq<AttachmentKind>): (s: string) {
    if body.Some? && !IsBlank(body.value) then
      if |body.value| > PREVIEW_MAX_LENGTH then body.value[..PREVIEW_MAX_LENGTH] + "…" else body.value
    else if attachments != [] then "[" + KindName(attachments[0]) + "]"
    else ""
  }

  /** A text of more than white space is shown, its first 140 characters if it is longer; then a first attachment. */
  lemma PreviewIs(body: Option<string>, attachments: seq<AttachmentKind>)
    ensures var p := PreviewText(body, attachments);
            if body.Some? && Trim(body.value) != "" then
              if |body.value| <= 140 then p == body.value
              else |p| == 141 && p[..140] == body.value[..140] && p[140] == '…'
            else if attachments == [] then p == ""
            else
              match attachments[0]
              case Image => p == "[IMAGE]"
              case Audio => p == "[AUDIO]"
              case Video => p == "[VIDEO]"
              case File => p == "[FILE]"
  {
    if body.Some? { BlankIff(body.value); }
  }

  lemma {:induction false} BlankIff(s: string)
    ensures IsBlank(s) <==> Trim(s) == ""
  {
    if s != "" && IsSpace(s[0]) {
      BlankIff(s[1..]);
    } else if s != "" && IsSpace(s[|s| - 1]) {
      BlankIff(s[..|s| - 1]);
    }
  }

  /** What the list of conversations should show for a message as it now stands. */
  function Shown(m: Message): string {
    if m.deletedAt.Some? then DELETED_PREVIEW else PreviewText(m.body, m.attachments)
  }

  /** The cache says what the newest message of the log says. */
  predicate CacheIsTrue(c: Conversation) {
    if c.log == [] then c.lastMessageAt.None? && c.lastMessagePreview.None? && c.lastMessageSenderId.None?
    else
      var last := c.log[|c.log| - 1];
      && c.lastMessageAt == Some(last.createdAt)
      && c.lastMessagePreview == Some(Shown(last))
      && c.lastMessageSenderId == last.senderId
  }

  predicate Ordered(log: seq<Message>, clock: int) {
    && (forall i, j :: 0 <= i < j < |log| ==> log[i].createdAt < log[j].createdAt)
    && (forall i :: 0 <= i < |log| ==> log[i].createdAt <= clock)
  }

  // ---- the mode ----

  /** The mode the system messages of a log lead to. */
  function Replay(initial: Mode, log: seq<Message>): Mode {
    if log == [] then initial
    else
      var m := log[|log| - 1];
      if m.kind == Notice && m.body == Some(HANDOFF_MESSAGE) then Agent
      else if m.kind == Notice && m.body == Some(RELEASE_MESSAGE) then Bot
      else Replay(initial, log[..|log| - 1])
  }

  /** System messages have no sender and are as they were posted. */
  predicate NoticesIntact(log: seq<Message>) {
    forall i :: 0 <= i < |log| && log[i].kind == Notice ==>
      && log[i].senderId.None? && log[i].deletedAt.None?
      && (log[i].body == Some(HANDOFF_MESSAGE) || log[i].body == Some(RELEASE_MESSAGE))
  }

  // ---- automatic replies ----

  /** Posted by the bot: its greeting and its replies. */
  predicate IsAutomatic(m: Message) {
    m.senderType == AI && m.senderId.None?
  }

  /** `isRequester`: a visitor, or the owner of a bot-widget conversation. */
  predicate IsRequester(c: Conversation, sender: Actor) {
    || sender.kind == Guest
    || (sender.kind == Human && c.subjectType == Some(BOT_WIDGET_SUBJECT_TYPE) && c.subjectId == Some(sender.id))
  }

  predicate FromRequester(c: Conversation, m: Message) {
    m.senderId.Some? && IsRequester(c, Actor(m.senderId.value, m.senderType))
  }

  /** The bot's own messages are the automatic ones; the requests are those of visitors and of the assistant's user. */
  lemma WhoSpoke(c: Conversation, sender: Actor, body: Option<string>, attachments: seq<AttachmentKind>, text: string,
                 now: int)
    ensures IsAutomatic(FromBot(text, now)) && !IsAutomatic(FromSystem(text, now))
    ensures !IsAutomatic(FromActor(sender, body, attachments, now))
    ensures FromRequester(c, FromActor(sender, body, attachments, now)) <==>
              || sender.kind == Guest
              || (sender.kind == Human && c.subjectType == Some("bot-widget") && c.subjectId == Some(sender.id))
    ensures !FromRequester(c, FromBot(text, now)) && !FromRequester(c, FromSystem(text, now))
  {
  }

  function Automatic(log: seq<Message>): (n: nat) {
    if log == [] then 0
    else Automatic(log[..|log| - 1]) + if IsAutomatic(log[|log| - 1]) then 1 else 0
  }

  function Requests(c: Conversation, log: seq<Message>): (n: nat) {
    if log == [] then 0
    else Requests(c, log[..|log| - 1]) + if FromRequester(c, log[|log| - 1]) then 1 else 0
  }

  /** Every automatic message was posted while the mode was BOT. */
  predicate BotSpokeOnlyAsBot(initial: Mode, log: seq<Message>) {
    forall i :: 0 <= i < |log| && IsAutomatic(log[i]) ==> Replay(initial, log[..i]) == Bot
  }

  // ---- participants ----

  predicate IsActive(p: Participant, actorId: string) {
    p.actor.id == actorId && p.leftAt.None?
  }

  /** The first active row of an actor. */
  function FindActive(ps: seq<Participant>, actorId: string): (r: Option<nat>)
    ensures r.Some? ==> r.value < |ps| && IsActive(ps[r.value], actorId)
    ensures r.None? ==> forall i :: 0 <= i < |ps| ==> !IsActive(ps[i], actorId)
  {
    if ps == [] then None
    else if IsActive(ps[0], actorId) then Some(0)
    else
      match FindActive(ps[1..], actorId)
      case None => None
      case Some(i) => assert ps[1..][i] == ps[i + 1]; Some(i + 1)
  }

  /** Membership intervals of one actor do not overlap; in particular at most one is open. */
  predicate OneAtATime(ps: seq<Participant>) {
    forall i, j :: 0 <= i < j < |ps| && ps[i].actor.id == ps[j].actor.id ==>
      ps[i].leftAt.Some? && ps[i].leftAt.value <= ps[j].joinedAt
  }

  predicate Past(ps: seq<Participant>, clock: int) {
    forall i :: 0 <= i < |ps| ==>
      ps[i].joinedAt <= clock && (ps[i].leftAt.Some? ==> ps[i].leftAt.value <= clock)
  }

  function NewMember(actor: Actor, role: Role, now: int): Participant {
    Participant(actor, role, now, None, None)
  }

  /** `ensureParticipant`. */
  function Joined(ps: seq<Participant>, actor: Actor, role: Role, now: int): (r: seq<Participant>) {
    if FindActive(ps, actor.id).Some? then ps else ps + [NewMember(actor, role, now)]
  }

  /** The rows of a new conversation: the initiator, then the others as given. */
  function FirstRows(initiator: Actor, others: seq<(Actor, Role)>, now: int): (r: seq<Participant>)
    ensures |r| == |others| + 1
    ensures r[0] == NewMember(initiator, Owner, now)
    ensures forall i :: 0 <= i < |others| ==> r[i + 1] == NewMember(others[i].0, others[i].1, now)
  {
    [NewMember(initiator, Owner, now)]
    + seq(|others|, i requires 0 <= i < |others| => NewMember(others[i].0, others[i].1, now))
  }

  predicate Distinct(initiator: Actor, others: seq<(Actor, Role)>) {
    && (forall i :: 0 <= i < |others| ==> others[i].0.id != initiator.id)
    && (forall i, j :: 0 <= i < j < |others| ==> others[i].0.id != others[j].0.id)
  }

  /** Opening keeps memberships apart exactly when the participants given are distinct and not the initiator. */
  lemma OpeningKeepsApart(initiator: Actor, others: seq<(Actor, Role)>, now: int)
    ensures OneAtATime(FirstRows(initiator, others, now)) <==> Distinct(initiator, others)
  {
    var r := FirstRows(initiator, others, now);
    if OneAtATime(r) {
      forall i | 0 <= i < |others| ensures others[i].0.id != initiator.id {
        assert r[i + 1].actor == others[i].0 && r[0].leftAt.None?;
      }
      forall i, j | 0 <= i < j < |others| ensures others[i].0.id != others[j].0.id {
        assert r[j + 1].actor == others[j].0 && r[i + 1] == NewMember(others[i].0, others[i].1, now);
      }
    }
    if Distinct(initiator, others) {
      forall i, j | 0 <= i < j < |r| ensures r[i].actor.id != r[j].actor.id {
        assert r[j].actor == others[j - 1].0;
        if i > 0 { assert r[i].actor == others[i - 1].0; }
      }
    }
  }

  /** An actor given twice has two open memberships from the start. */
  lemma DuplicateOverlaps(now: int)
    ensures var twice := [(Actor("b", Human), Member), (Actor("b", Human), Clergy)];
            !OneAtATime(FirstRows(Actor("a", Human), twice, now))
  {
    var twice := [(Actor("b", Human), Member), (Actor("b", Human), Clergy)];
    assert twice[0].0.id == twice[1].0.id && !Distinct(Actor("a", Human), twice);
    OpeningKeepsApart(Actor("a", Human), twice, now);
  }

  lemma JoiningKeepsApart(ps: seq<Participant>, actor: Actor, role: Role, clock: int, now: int)
    requires Past(ps, clock) && clock <= now
    ensures OneAtATime(Joined(ps, actor, role, now)) <==> OneAtATime(ps)
    ensures Past(Joined(ps, actor, role, now), now)
  {
    var r := Joined(ps, actor, role, now);
    assert forall i :: 0 <= i < |ps| ==> r[i] == ps[i];
  }

  /** Closing the first active row of an actor, as `handoff` does for the bot. */
  function Left(ps: seq<Participant>, i: nat, now: int): (r: seq<Participant>)
    requires i < |ps|
  {
    ps[i := ps[i].(leftAt := Some(now))]
  }

  lemma LeavingKeepsApart(ps: seq<Participant>, i: nat, clock: int, now: int)
    requires i < |ps| && ps[i].leftAt.None? && Past(ps, clock) && clock <= now
    ensures OneAtATime(ps) ==> OneAtATime(Left(ps, i, now))
    ensures clock < now && OneAtATime(Left(ps, i, now)) ==> OneAtATime(ps)
    ensures Past(Left(ps, i, now), now)
  {
    var r := Left(ps, i, now);
    assert forall j :: 0 <= j < |ps| ==> r[j].actor == ps[j].actor && r[j].joinedAt == ps[j].joinedAt;
  }

  // ---- the operations on one conversation ----

  /** A message added to the log, and the cache updated: what every way of posting does. */
  function Posted(c: Conversation, m: Message): Conversation {
    c.(log := c.log + [m],
       lastMessageAt := Some(m.createdAt),
       lastMessagePreview := Some(PreviewText(m.body, m.attachments)),
       lastMessageSenderId := m.senderId)
  }

  function FromActor(sender: Actor, body: Option<string>, attachments: seq<AttachmentKind>, now: int): Message {
    Message(now, Some(sender.id), sender.kind, Plain, body, attachments, None, None)
  }

  function FromBot(body: string, now: int): Message {
    Message(now, None, AI, Plain, Some(body), [], None, None)
  }

  function FromSystem(body: string, now: int): Message {
    Message(now, None, System, Notice, Some(body), [], None, None)
  }

  /**
   A deleted message as it is returned, and as it is stored. The code assigns `undefined` to the body; whether the
   stored text is erased or left is up to the database layer, so `body` stands for either.
   */
  function Emptied(m: Message, body: Option<string>, now: int): Message {
    m.(body := body, attachments := [], deletedAt := Some(now))
  }

  /** `deleteMessage` on message `i`. */
  function Deleted(c: Conversation, i: nat, body: Option<string>, now: int): Conversation
    requires i < |c.log|
  {
    c.(log := c.log[i := Emptied(c.log[i], body, now)],
       lastMessagePreview := if c.lastMessageAt == Some(c.log[i].createdAt) then Some(DELETED_PREVIEW)
                             else c.lastMessagePreview)
  }

  /** `handoff`: close the row `bot`, make `to` a participant, and say so. */
  function HandedOff(c: Conversation, bot: Option<nat>, to: Actor, role: Role, now: int): Conversation
    requires bot.Some? ==> bot.value < |c.participants|
  {
    var remaining := if bot.Some? then Left(c.participants, bot.value, now) else c.participants;
    Posted(c.(participants := Joined(remaining, to, role, now), mode := Agent), FromSystem(HANDOFF_MESSAGE, now))
  }

  /** `releaseToBot`. */
  function Released(c: Conversation, now: int): Conversation {
    if c.mode == Bot then c
    else Posted(c.(mode := Bot), FromSystem(RELEASE_MESSAGE, now))
  }

  /** A message of the log that `markRead` marks: from someone else, which excludes messages without sender. */
  predicate ReadByMarking(m: Message, actorId: string) {
    m.senderId.Some? && m.senderId.value != actorId && m.readAt.None?
  }

  function MarkedRead(c: Conversation, i: nat, now: int): Conversation
    requires i < |c.participants|
  {
    var actorId := c.participants[i].actor.id;
    c.(participants := c.participants[i := c.participants[i].(lastReadAt := Some(now))],
       log := seq(|c.log|, k requires 0 <= k < |c.log| =>
                    if ReadByMarking(c.log[k], actorId) then c.log[k].(readAt := Some(now)) else c.log[k]))
  }

  // ---- what every operation keeps ----

  /**
   One conversation in any reachable state: `initial` is the mode it was opened with, `inFlight` the number of replies
   the bot is preparing.
   */
  ghost predicate Sound(c: Conversation, initial: Mode, inFlight: nat, clock: int) {
    && Ordered(c.log, clock) && CacheIsTrue(c)
    && NoticesIntact(c.log) && c.mode == Replay(initial, c.log)
    && BotSpokeOnlyAsBot(initial, c.log)
    && Automatic(c.log) + inFlight <= 1 + Requests(c, c.log)
    && Past(c.participants, clock)
  }

  lemma SoundLater(c: Conversation, initial: Mode, inFlight: nat, clock: int, now: int)
    requires Sound(c, initial, inFlight, clock) && clock <= now
    ensures Sound(c, initial, inFlight, now)
  {
  }

  lemma {:induction false} RequestsFrame(c: Conversation, d: Conversation, log: seq<Message>)
    requires c.subjectType == d.subjectType && c.subjectId == d.subjectId
    ensures Requests(c, log) == Requests(d, log)
  {
    if log != [] { RequestsFrame(c, d, log[..|log| - 1]); }
  }

  lemma LogGrows(log: seq<Message>, m: Message, clock: int)
    requires Ordered(log, clock) && NoticesIntact(log) && clock < m.createdAt && m.deletedAt.None?
    requires m.kind == Notice ==>
               m.senderId.None? && (m.body == Some(HANDOFF_MESSAGE) || m.body == Some(RELEASE_MESSAGE))
    ensures Ordered(log + [m], m.createdAt) && NoticesIntact(log + [m])
  {
  }

  lemma BotSpokeGrows(initial: Mode, log: seq<Message>, m: Message)
    requires BotSpokeOnlyAsBot(initial, log) && (IsAutomatic(m) ==> Replay(initial, log) == Bot)
    ensures BotSpokeOnlyAsBot(initial, log + [m])
  {
    hide Replay;
    var longer := log + [m];
    forall i | 0 <= i < |longer| && IsAutomatic(longer[i])
      ensures Replay(initial, longer[..i]) == Bot
    {
      assert longer[..i] == log[..i];
    }
  }

  lemma CountsGrow(c: Conversation, log: seq<Message>, m: Message)
    ensures Automatic(log + [m]) == Automatic(log) + if IsAutomatic(m) then 1 else 0
    ensures Requests(c, log + [m]) == Requests(c, log) + if FromRequester(c, m) then 1 else 0
  {
    assert (log + [m])[..|log|] == log;
  }

  /**
   Posting a message keeps a conversation sound, if the mode is what the longer log says, the bot posts only in mode
   BOT, and the replies are still paid for by requests.
   */
  lemma PostingKeeps(c: Conversation, d: Conversation, initial: Mode, inFlight: nat, clock: int,
                     m: Message, inFlight': nat)
    requires Sound(c, initial, inFlight, clock) && clock < m.createdAt && m.deletedAt.None?
    requires d.log == c.log && d.subjectType == c.subjectType && d.subjectId == c.subjectId
    requires Past(d.participants, m.createdAt)
    requires m.kind == Notice ==>
               m.senderId.None? && (m.body == Some(HANDOFF_MESSAGE) || m.body == Some(RELEASE_MESSAGE))
    requires d.mode == Replay(initial, c.log + [m])
    requires IsAutomatic(m) ==> c.mode == Bot
    requires Automatic(c.log) + (if IsAutomatic(m) then 1 else 0) + inFlight'
             <= 1 + Requests(c, c.log) + if FromRequester(c, m) then 1 else 0
    ensures Sound(Posted(d, m), initial, inFlight', m.createdAt)
  {
    hide Replay, PreviewText, Past, Ordered, NoticesIntact, BotSpokeOnlyAsBot, Automatic, Requests, IsAutomatic;
    var p := Posted(d, m);
    LogGrows(c.log, m, clock);
    BotSpokeGrows(initial, c.log, m);
    CountsGrow(c, c.log, m);
    RequestsFrame(c, p, p.log);
  }

  /** The part of a message that does not change once it is posted. */
  predicate SameHeader(m: Message, n: Message) {
    && m.createdAt == n.createdAt && m.senderId == n.senderId && m.senderType == n.senderType && m.kind == n.kind
    && (m.kind == Notice ==> m.body == n.body && m.deletedAt == n.deletedAt)
  }

  predicate SameHeaders(log: seq<Message>, log': seq<Message>) {
    |log| == |log'| && forall i :: 0 <= i < |log| ==> SameHeader(log[i], log'[i])
  }

  lemma {:induction false} HeadersDecide(c: Conversation, initial: Mode, log: seq<Message>, log': seq<Message>)
    requires SameHeaders(log, log')
    ensures Replay(initial, log) == Replay(initial, log')
    ensures Automatic(log) == Automatic(log') && Requests(c, log) == Requests(c, log')
  {
    if log != [] {
      HeadersDecide(c, initial, log[..|log| - 1], log'[..|log'| - 1]);
    }
  }

  /** An update of rows that changes no header keeps a conversation sound, if the cache is still true. */
  lemma UpdatingKeeps(c: Conversation, d: Conversation, initial: Mode, inFlight: nat, clock: int)
    requires Sound(c, initial, inFlight, clock) && SameHeaders(c.log, d.log)
    requires d.subjectType == c.subjectType && d.subjectId == c.subjectId && d.mode == c.mode
    requires Past(d.participants, clock) && CacheIsTrue(d)
    ensures Sound(d, initial, inFlight, clock)
  {
    HeadersDecide(c, initial, c.log, d.log);
    RequestsFrame(c, d, d.log);
    forall i | 0 <= i < |d.log| && IsAutomatic(d.log[i])
      ensures Replay(initial, d.log[..i]) == Bot
    {
      HeadersDecide(c, initial, c.log[..i], d.log[..i]);
    }
  }

  lemma OpeningIsSound(c: Conversation, now: int)
    requires c.log == [] && CacheIsTrue(c) && Past(c.participants, now)
    ensures Sound(c, c.mode, 0, now)
  {
  }

  lemma GreetingIsSound(c: Conversation, body: string, clock: int, now: int)
    requires c.log == [] && CacheIsTrue(c) && Past(c.participants, now) && c.mode == Bot && clock < now
    ensures Sound(Posted(c, FromBot(body, now)), Bot, 0, now)
  {
    var m := FromBot(body, now);
    var p := Posted(c, m);
    assert p.log[..0] == [];
    assert Automatic(p.log) == 1;
  }

  /** The message a requester or anyone else sends; `inFlight'` counts the reply it may start. */
  lemma SendingKeeps(c: Conversation, initial: Mode, inFlight: nat, clock: int,
                     sender: Actor, body: Option<string>, attachments: seq<AttachmentKind>, now: int)
    requires Sound(c, initial, inFlight, clock) && clock < now
    ensures var m := FromActor(sender, body, attachments, now);
            Sound(Posted(c, m), initial, inFlight + if IsRequester(c, sender) then 1 else 0, now)
            && Sound(Posted(c, m), initial, inFlight, now)
  {
    var m := FromActor(sender, body, attachments, now);
    assert (c.log + [m])[..|c.log|] == c.log;
    PostingKeeps(c, c, initial, inFlight, clock, m, inFlight + if IsRequester(c, sender) then 1 else 0);
    PostingKeeps(c, c, initial, inFlight, clock, m, inFlight);
  }

  lemma ReplyingKeeps(c: Conversation, initial: Mode, inFlight: nat, clock: int, body: string, now: int)
    requires Sound(c, initial, inFlight, clock) && clock < now && inFlight > 0 && c.mode == Bot
    ensures Sound(Posted(c, FromBot(body, now)), initial, inFlight - 1, now)
  {
    var m := FromBot(body, now);
    assert (c.log + [m])[..|c.log|] == c.log;
    PostingKeeps(c, c, initial, inFlight, clock, m, inFlight - 1);
  }

  lemma HandoffKeepsApart(ps: seq<Participant>, clock: int, bot: Option<nat>, to: Actor, role: Role, now: int)
    requires Past(ps, clock) && clock <= now
    requires bot.Some? ==> bot.value < |ps| && ps[bot.value].leftAt.None?
    ensures var remaining := if bot.Some? then Left(ps, bot.value, now) else ps;
            && Past(Joined(remaining, to, role, now), now)
            && (OneAtATime(ps) ==> OneAtATime(Joined(remaining, to, role, now)))
            && (clock < now && OneAtATime(Joined(remaining, to, role, now)) ==> OneAtATime(ps))
  {
    hide OneAtATime, Joined;
    var remaining := if bot.Some? then Left(ps, bot.value, now) else ps;
    if bot.Some? { LeavingKeepsApart(ps, bot.value, clock, now); }
    JoiningKeepsApart(remaining, to, role, now, now);
  }

  lemma HandoffKeeps(c: Conversation, initial: Mode, inFlight: nat, clock: int,
                     bot: Option<nat>, to: Actor, role: Role, now: int)
    requires Sound(c, initial, inFlight, clock) && clock < now
    requires bot.Some? ==> bot.value < |c.participants| && c.participants[bot.value].leftAt.None?
    ensures Sound(HandedOff(c, bot, to, role, now), initial, inFlight, now)
    ensures OneAtATime(HandedOff(c, bot, to, role, now).participants) <==> OneAtATime(c.participants)
  {
    hide OneAtATime, Past, Joined, Left, Requests, Automatic, BotSpokeOnlyAsBot;
    var m := FromSystem(HANDOFF_MESSAGE, now);
    var remaining := if bot.Some? then Left(c.participants, bot.value, now) else c.participants;
    var d := c.(participants := Joined(remaining, to, role, now), mode := Agent);
    HandoffKeepsApart(c.participants, clock, bot, to, role, now);
    assert (c.log + [m])[..|c.log|] == c.log;
    PostingKeeps(c, d, initial, inFlight, clock, m, inFlight);
  }

  lemma ReleaseKeeps(c: Conversation, initial: Mode, inFlight: nat, clock: int, now: int)
    requires Sound(c, initial, inFlight, clock) && clock < now
    ensures Sound(Released(c, now), initial, inFlight, now)
  {
    var m := FromSystem(RELEASE_MESSAGE, now);
    assert (c.log + [m])[..|c.log|] == c.log;
    if c.mode != Bot {
      PostingKeeps(c, c.(mode := Bot), initial, inFlight, clock, m, inFlight);
    }
  }

  /** A message with a sender can be emptied; the cache stays true wherever in the log it is. */
  lemma DeletingKeeps(c: Conversation, initial: Mode, inFlight: nat, clock: int, i: nat, body: Option<string>, now: int)
    requires Sound(c, initial, inFlight, clock) && i < |c.log| && c.log[i].senderId.Some? && clock <= now
    ensures Sound(Deleted(c, i, body, now), initial, inFlight, now)
  {
    SoundLater(c, initial, inFlight, clock, now);
    UpdatingKeeps(c, Deleted(c, i, body, now), initial, inFlight, now);
  }

  lemma MarkingKeeps(c: Conversation, initial: Mode, inFlight: nat, clock: int, i: nat, now: int)
    requires Sound(c, initial, inFlight, clock) && i < |c.participants| && clock <= now
    ensures Sound(MarkedRead(c, i, now), initial, inFlight, now)
    ensures OneAtATime(MarkedRead(c, i, now).participants) <==> OneAtATime(c.participants)
  {
    hide Replay, PreviewText, BotSpokeOnlyAsBot, NoticesIntact, Automatic, Requests, Ordered;
    SoundLater(c, initial, inFlight, clock, now);
    UpdatingKeeps(c, MarkedRead(c, i, now), initial, inFlight, now);
    var ps, qs := c.participants, MarkedRead(c, i, now).participants;
    assert forall j :: 0 <= j < |ps| ==>
             qs[j].actor == ps[j].actor && qs[j].joinedAt == ps[j].joinedAt && qs[j].leftAt == ps[j].leftAt;
  }

  lemma JoiningKeeps(c: Conversation, initial: Mode, inFlight: nat, clock: int, actor: Actor, role: Role, now: int)
    requires Sound(c, initial, inFlight, clock) && clock <= now
    ensures Sound(c.(participants := Joined(c.participants, actor, role, now)), initial, inFlight, now)
    ensures OneAtATime(Joined(c.participants, actor, role, now)) <==> OneAtATime(c.participants)
  {
    SoundLater(c, initial, inFlight, clock, now);
    UpdatingKeeps(c, c.(participants := Joined(c.participants, actor, role, now)), initial, inFlight, now);
    JoiningKeepsApart(c.participants, actor, role, clock, now);
  }

  /** `escalate`: marked for a human, with the mode and the log as they were. */
  function Escalated(c: Conversation, reason: string, churchId: Option<string>, now: int): Conversation {
    c.(status := Pending, escalation := Some(Escalation(now, reason, churchId)))
  }

  lemma EscalatingKeeps(c: Conversation, initial: Mode, inFlight: nat, clock: int,
                        reason: string, churchId: Option<string>, now: int)
    requires Sound(c, initial, inFlight, clock) && clock <= now
    ensures Sound(Escalated(c, reason, churchId, now), initial, inFlight, now)
  {
    SoundLater(c, initial, inFlight, clock, now);
    UpdatingKeeps(c, Escalated(c, reason, churchId, now), initial, inFlight, now);
  }

  // ---- unread messages ----

  predicate IsUnread(m: Message, actorId: string, lastReadAt: Option<int>) {
    && m.senderId.Some? && m.senderId.value != actorId
    && (lastReadAt.Some? ==> m.createdAt > lastReadAt.value)
  }

  /** `getUnreadCount`; like the query, it leaves out messages without sender. */
  function Unread(log: seq<Message>, actorId: string, lastReadAt: Option<int>): (n: nat) {
    if log == [] then 0
    else Unread(log[..|log| - 1], actorId, lastReadAt) + if IsUnread(log[|log| - 1], actorId, lastReadAt) then 1 else 0
  }

  lemma {:induction false} NothingAfter(log: seq<Message>, actorId: string, readAt: int)
    requires forall i :: 0 <= i < |log| ==> log[i].createdAt <= readAt
    ensures Unread(log, actorId, Some(readAt)) == 0
  {
    if log != [] { NothingAfter(log[..|log| - 1], actorId, readAt); }
  }

  lemma {:induction false} UnreadHeaders(log: seq<Message>, log': seq<Message>, actorId: string, readAt: Option<int>)
    requires SameHeaders(log, log')
    ensures Unread(log, actorId, readAt) == Unread(log', actorId, readAt)
  {
    if log != [] { UnreadHeaders(log[..|log| - 1], log'[..|log'| - 1], actorId, readAt); }
  }

  /**
   After marking, nothing is unread; each later message from another sender adds one, and none else does. The receipts
   change no other actor's count, now or at any other reading time.
   */
  lemma MarkingReads(c: Conversation, initial: Mode, inFlight: nat, clock: int, i: nat, now: int, m: Message,
                     other: string, readAt: Option<int>)
    requires Sound(c, initial, inFlight, clock) && i < |c.participants| && clock <= now < m.createdAt
    ensures var actorId, d := c.participants[i].actor.id, MarkedRead(c, i, now);
            && Unread(d.log, actorId, d.participants[i].lastReadAt) == 0
            && Unread(Posted(d, m).log, actorId, d.participants[i].lastReadAt)
               == (if m.senderId.Some? && m.senderId.value != actorId then 1 else 0)
            && Unread(d.log, other, readAt) == Unread(c.log, other, readAt)
  {
    var actorId, d := c.participants[i].actor.id, MarkedRead(c, i, now);
    NothingAfter(d.log, actorId, now);
    UnreadHeaders(c.log, d.log, other, readAt);
    assert Posted(d, m).log[..|d.log|] == d.log;
  }
}
