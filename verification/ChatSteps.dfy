/**
 What each operation of the chat service does to the tables, and what is true after every sequence of operations
 (src/chat/services/chat.service.ts). ChatService.dfy carries the operations out.

 Each operation is one atomic step at its own instant. An automatic reply takes two: `Send` starts it and `FinishReply`
 ends it, with any other steps in between.
 */
module ChatSteps {
  import opened Wrappers
  import opened Chat

  datatype Error = ConversationNotFound | UserNotFound | MessageNotFound | ParticipantNotFound | Forbidden

  datatype Opening = Opening(
    subjectType: Option<string>,
    subjectId: Option<string>,
    mode: Option<Mode>,
    participants: seq<(Actor, Role)>)

  type Conversations = map<nat, Conversation>

  const CHAT_BOT_GREETING :=
    "Bonjour 👋 Je suis l'assistant Amisache. Posez votre question ci-dessous — "
    + "si je ne trouve pas de réponse, un membre de l'équipe prendra le relais."

  predicate Given(s: Option<string>) {
    s.Some? && s.value != ""
  }

  predicate HasSubject(c: Conversation, subjectType: Option<string>, subjectId: Option<string>) {
    c.subjectType == subjectType && c.subjectId == subjectId
  }

  /** A subject has at most one conversation. */
  ghost predicate SubjectsUnique(convs: Conversations) {
    forall i, j :: i in convs && j in convs && i != j && Given(convs[i].subjectType) && Given(convs[i].subjectId) ==>
      !HasSubject(convs[j], convs[i].subjectType, convs[i].subjectId)
  }

  /**
   Every conversation is sound, and its memberships are apart exactly if it is one of `apart`, the conversations opened
   with distinct participants.
   */
  ghost predicate AllSound(convs: Conversations, initial: map<nat, Mode>, inFlight: map<nat, nat>, apart: set<nat>,
                           clock: int) {
    && convs.Keys == initial.Keys == inFlight.Keys && apart <= convs.Keys
    && (forall id :: id in convs ==> Sound(convs[id], initial[id], inFlight[id], clock))
    && (forall id :: id in convs ==> (OneAtATime(convs[id].participants) <==> id in apart))
  }

  lemma SoundAt(convs: Conversations, initial: map<nat, Mode>, inFlight: map<nat, nat>, apart: set<nat>, clock: int,
                id: nat)
    requires AllSound(convs, initial, inFlight, apart, clock)
    ensures convs.Keys == initial.Keys == inFlight.Keys
    ensures id in convs ==> Sound(convs[id], initial[id], inFlight[id], clock)
    ensures id in convs ==> (OneAtATime(convs[id].participants) <==> id in apart)
  {
  }

  lemma Changed(convs: Conversations, initial: map<nat, Mode>, inFlight: map<nat, nat>, apart: set<nat>, clock: int,
                id: nat, c: Conversation, n: nat, now: int)
    requires AllSound(convs, initial, inFlight, apart, clock) && SubjectsUnique(convs) && clock <= now
    requires id in convs && HasSubject(c, convs[id].subjectType, convs[id].subjectId) && Sound(c, initial[id], n, now)
    requires OneAtATime(c.participants) <==> OneAtATime(convs[id].participants)
    ensures AllSound(convs[id := c], initial, inFlight[id := n], apart, now) && SubjectsUnique(convs[id := c])
  {
    hide Sound, OneAtATime;
    forall i | i in convs && i != id
      ensures Sound(convs[i], initial[i], inFlight[i], now)
    {
      SoundLater(convs[i], initial[i], inFlight[i], clock, now);
    }
  }

  lemma Added(convs: Conversations, initial: map<nat, Mode>, inFlight: map<nat, nat>, apart: set<nat>, clock: int,
              id: nat, c: Conversation, mode: Mode, now: int)
    requires AllSound(convs, initial, inFlight, apart, clock) && SubjectsUnique(convs) && clock <= now
    requires id !in convs && Sound(c, mode, 0, now)
    requires Given(c.subjectType) && Given(c.subjectId) ==>
               forall i :: i in convs ==> !HasSubject(convs[i], c.subjectType, c.subjectId)
    ensures SubjectsUnique(convs[id := c])
    ensures AllSound(convs[id := c], initial[id := mode], inFlight[id := 0],
                     if OneAtATime(c.participants) then apart + {id} else apart, now)
  {
    hide Sound, OneAtATime;
    forall i | i in convs
      ensures Sound(convs[i], initial[i], inFlight[i], now)
    {
      SoundLater(convs[i], initial[i], inFlight[i], clock, now);
    }
  }

  /** The actor exists: only users are looked up. */
  predicate Exists(users: set<string>, actor: Actor) {
    actor.kind == Human ==> actor.id in users
  }

  predicate IsBotWidget(o: Opening) {
    o.subjectType == Some(BOT_WIDGET_SUBJECT_TYPE)
  }

  /** A user can open no one's assistant conversation but his own. */
  predicate Refused(initiator: Actor, o: Opening) {
    IsBotWidget(o) && (initiator.kind != Human || o.subjectId != Some(initiator.id))
  }

  function Effective(o: Opening): Opening {
    if IsBotWidget(o) then Opening(o.subjectType, o.subjectId, Some(Bot), []) else o
  }

  function OpenedMode(o: Opening): Mode {
    match o.mode
    case Some(m) => m
    case None => Agent
  }

  /** A new conversation with its first participants and no message. */
  function Opened(o: Opening, initiator: Actor, others: seq<(Actor, Role)>, now: int): Conversation {
    Conversation(o.subjectType, o.subjectId, Open, OpenedMode(o), None, None, None, None, [],
                 FirstRows(initiator, others, now))
  }

  /** How many of the participants are added before one is found not to exist. */
  function Vetted(users: set<string>, others: seq<(Actor, Role)>): (n: nat)
    ensures n <= |others| && (n < |others| ==> !Exists(users, others[n].0))
    ensures forall i :: 0 <= i < n ==> Exists(users, others[i].0)
  {
    if others == [] || !Exists(users, others[0].0) then 0 else 1 + Vetted(users, others[1..])
  }

  lemma SoundParts(c: Conversation, initial: Mode, inFlight: nat, clock: int, now: int)
    requires Sound(c, initial, inFlight, clock) && clock <= now
    ensures CacheIsTrue(c) && Past(c.participants, now)
  {
  }

  lemma DroppingKeeps(c: Conversation, initial: Mode, inFlight: nat, clock: int, now: int)
    requires Sound(c, initial, inFlight, clock) && clock <= now && inFlight > 0
    ensures Sound(c, initial, inFlight - 1, now)
  {
    SoundLater(c, initial, inFlight, clock, now);
  }

  // ---- the steps ----

  /** The tables; `initial`, `apart` and `clock` are history. */
  datatype State = State(
    convs: Conversations,
    inFlight: map<nat, nat>,
    nextId: nat,
    initial: map<nat, Mode>,
    apart: set<nat>,
    clock: int)

  function Empty(now: int): State {
    State(map[], map[], 0, map[], {}, now)
  }

  datatype Operation =
    | CreateOrOpen(initiator: Actor, dto: Opening, users: set<string>, now: int)
    | OpenGuest(guestId: string, now: int)
    | AddParticipant(id: nat, actor: Actor, role: Role, now: int)
    | Send(id: nat, sender: Actor, body: Option<string>, attachments: seq<AttachmentKind>, users: set<string>, now: int)
    | FinishReply(id: nat, reply: Option<string>, now: int)
    | Delete(id: nat, index: nat, actor: Actor, erased: bool, now: int)
    | MarkRead(id: nat, actorId: string, now: int)
    | HandOff(id: nat, from: Option<string>, to: Actor, role: Role, users: set<string>, now: int)
    | Release(id: nat, now: int)
    | Escalate(id: nat, reason: string, churchId: Option<string>, now: int)

  /** A conversation already there is changed. */
  function With(s: State, id: nat, c: Conversation): State {
    s.(convs := s.convs[id := c])
  }

  /** The conversation an operation opens: who opens it, with whom, and what it holds when the operation ends. */
  datatype Start = Start(initiator: Actor, others: seq<(Actor, Role)>, c: Conversation)

  function GuestOpening(guestId: string): Opening {
    Opening(Some(GUEST_SUBJECT_TYPE), Some(guestId), Some(Bot), [])
  }

  ghost predicate IsTaken(convs: Conversations, subjectType: Option<string>, subjectId: Option<string>) {
    exists id :: id in convs && HasSubject(convs[id], subjectType, subjectId)
  }

  /** The conversation is saved at the instant before `now`, so that a greeting can follow at `now`. */
  function Started(o: Opening, initiator: Actor, others: seq<(Actor, Role)>, greeted: bool, now: int): Start {
    var c := Opened(o, initiator, others, now - 1);
    Start(initiator, others, if greeted then Posted(c, FromBot(CHAT_BOT_GREETING, now)) else c)
  }

  ghost function Starts(s: State, op: Operation): Option<Start> {
    match op
    case CreateOrOpen(initiator, dto, users, now) =>
      var o := Effective(dto);
      if !Exists(users, initiator) || Refused(initiator, dto)
         || (Given(o.subjectType) && Given(o.subjectId) && IsTaken(s.convs, o.subjectType, o.subjectId))
      then None
      else Some(Started(o, initiator, o.participants[..Vetted(users, o.participants)], IsBotWidget(dto), now))
    case OpenGuest(guestId, now) =>
      if IsTaken(s.convs, Some(GUEST_SUBJECT_TYPE), Some(guestId)) then None
      else Some(Started(GuestOpening(guestId), Actor(guestId, Guest), [], true, now))
    case _ => None
  }

  ghost function Adding(s: State, n: Start): State {
    State(s.convs[s.nextId := n.c], s.inFlight[s.nextId := 0], s.nextId + 1, s.initial[s.nextId := n.c.mode],
          if Distinct(n.initiator, n.others) then s.apart + {s.nextId} else s.apart, s.clock)
  }

  /** A message is posted, and a reply started if the requester asks the bot. */
  function Sent(s: State, id: nat, sender: Actor, body: Option<string>, attachments: seq<AttachmentKind>,
                users: set<string>, now: int): State
  {
    if id !in s.convs || id !in s.inFlight || !Exists(users, sender) then s
    else
      var c := s.convs[id];
      var replies := if IsRequester(c, sender) && c.mode == Bot then 1 else 0;
      With(s, id, Posted(c, FromActor(sender, body, attachments, now)))
      .(inFlight := s.inFlight[id := s.inFlight[id] + replies])
  }

  predicate IsPosted(c: Conversation, reply: Option<string>) {
    reply.Some? && !IsBlank(reply.value) && c.mode == Bot
  }

  /** A reply in preparation is posted, or dropped if there is none or a human has taken over. */
  function Finished(s: State, id: nat, reply: Option<string>, now: int): State {
    if id !in s.convs || id !in s.inFlight || s.inFlight[id] == 0 then s
    else
      var c := s.convs[id];
      With(s, id, if IsPosted(c, reply) then Posted(c, FromBot(reply.value, now)) else c)
      .(inFlight := s.inFlight[id := s.inFlight[id] - 1])
  }

  function Erased(s: State, id: nat, i: nat, actor: Actor, erased: bool, now: int): State {
    if id !in s.convs || i >= |s.convs[id].log| then s
    else
      var m := s.convs[id].log[i];
      if m.senderId != Some(actor.id) || m.deletedAt.Some? then s
      else With(s, id, Deleted(s.convs[id], i, if erased then None else m.body, now))
  }

  function Marked(s: State, id: nat, actorId: string, now: int): State {
    if id !in s.convs then s
    else
      var i := FindActive(s.convs[id].participants, actorId);
      if i.None? then s else With(s, id, MarkedRead(s.convs[id], i.value, now))
  }

  /** The membership that a handoff closes, if one is named. */
  function BotRow(c: Conversation, from: Option<string>): (bot: Option<nat>)
    ensures bot.Some? ==> bot.value < |c.participants| && c.participants[bot.value].leftAt.None?
  {
    if Given(from) then FindActive(c.participants, from.value) else None
  }

  function HandedTo(s: State, id: nat, from: Option<string>, to: Actor, role: Role, users: set<string>, now: int): State {
    if id !in s.convs || !Exists(users, to) then s
    else
      var c := s.convs[id];
      if Given(from) && BotRow(c, from).None? then s else With(s, id, HandedOff(c, BotRow(c, from), to, role, now))
  }

  /** The tables after an operation that opens no conversation. */
  ghost function Changing(s: State, op: Operation): State {
    match op
    case CreateOrOpen(initiator, dto, users, now) =>
      var o := Effective(dto);
      if Exists(users, initiator) && !Refused(initiator, dto)
         && Given(o.subjectType) && Given(o.subjectId) && IsTaken(s.convs, o.subjectType, o.subjectId)
      then
        var id :| id in s.convs && HasSubject(s.convs[id], o.subjectType, o.subjectId);
        With(s, id, s.convs[id].(participants := Joined(s.convs[id].participants, initiator, Owner, now)))
      else s
    case OpenGuest(_, _) => s
    case AddParticipant(id, actor, role, now) =>
      if id !in s.convs then s
      else With(s, id, s.convs[id].(participants := Joined(s.convs[id].participants, actor, role, now)))
    case Send(id, sender, body, attachments, users, now) => Sent(s, id, sender, body, attachments, users, now)
    case FinishReply(id, reply, now) => Finished(s, id, reply, now)
    case Delete(id, i, actor, erased, now) => Erased(s, id, i, actor, erased, now)
    case MarkRead(id, actorId, now) => Marked(s, id, actorId, now)
    case HandOff(id, from, to, role, users, now) => HandedTo(s, id, from, to, role, users, now)
    case Release(id, now) => if id !in s.convs then s else With(s, id, Released(s.convs[id], now))
    case Escalate(id, reason, churchId, now) =>
      if id !in s.convs then s else With(s, id, Escalated(s.convs[id], reason, churchId, now))
  }

  ghost function Step(s: State, op: Operation): State {
    var t := match Starts(s, op)
             case None => Changing(s, op)
             case Some(n) => Adding(s, n);
    t.(clock := op.now)
  }

  // ---- what every step keeps ----

  ghost predicate Kept(s: State) {
    && AllSound(s.convs, s.initial, s.inFlight, s.apart, s.clock) && SubjectsUnique(s.convs)
    && (forall id :: id in s.convs ==> id < s.nextId)
  }

  /** A changed conversation that is still sound, and apart as it was. */
  lemma WithKeeps(s: State, id: nat, c: Conversation, n: nat, now: int)
    requires Kept(s) && id in s.convs && s.clock <= now
    requires HasSubject(c, s.convs[id].subjectType, s.convs[id].subjectId)
    requires id in s.initial && Sound(c, s.initial[id], n, now)
    requires OneAtATime(c.participants) <==> OneAtATime(s.convs[id].participants)
    ensures Kept(With(s, id, c).(inFlight := s.inFlight[id := n], clock := now))
  {
    hide Sound, OneAtATime, AllSound, SubjectsUnique, HasSubject;
    Changed(s.convs, s.initial, s.inFlight, s.apart, s.clock, id, c, n, now);
  }

  /** The same for a step that neither starts nor ends a reply. */
  lemma WithOnlyKeeps(s: State, id: nat, c: Conversation, now: int)
    requires Kept(s) && id in s.convs && s.clock <= now
    requires HasSubject(c, s.convs[id].subjectType, s.convs[id].subjectId)
    requires id in s.initial && id in s.inFlight && Sound(c, s.initial[id], s.inFlight[id], now)
    requires OneAtATime(c.participants) <==> OneAtATime(s.convs[id].participants)
    ensures Kept(With(s, id, c).(clock := now))
  {
    hide Sound, OneAtATime, Kept, HasSubject;
    WithKeeps(s, id, c, s.inFlight[id], now);
    assert s.inFlight[id := s.inFlight[id]] == s.inFlight;
  }

  lemma StillKept(s: State, now: int)
    requires Kept(s) && s.clock <= now
    ensures Kept(s.(clock := now))
  {
    hide Sound, OneAtATime;
    forall id | id in s.convs ensures Sound(s.convs[id], s.initial[id], s.inFlight[id], now) {
      SoundLater(s.convs[id], s.initial[id], s.inFlight[id], s.clock, now);
    }
  }

  lemma KeptAt(s: State, id: nat)
    requires Kept(s) && id in s.convs
    ensures id in s.initial && id in s.inFlight && Sound(s.convs[id], s.initial[id], s.inFlight[id], s.clock)
  {
    hide Sound, OneAtATime;
  }

  lemma OpenedIsEmpty(o: Opening, initiator: Actor, others: seq<(Actor, Role)>, now: int)
    ensures var c := Opened(o, initiator, others, now); CacheIsTrue(c) && Past(c.participants, now)
  {
    var r := FirstRows(initiator, others, now);
    assert forall i :: 0 < i < |r| ==> r[i] == NewMember(others[i - 1].0, others[i - 1].1, now);
  }

  lemma AddingKeeps(s: State, o: Opening, initiator: Actor, others: seq<(Actor, Role)>, greeted: bool, now: int)
    requires Kept(s) && s.clock < now && (greeted ==> OpenedMode(o) == Bot)
    requires Given(o.subjectType) && Given(o.subjectId) ==> !IsTaken(s.convs, o.subjectType, o.subjectId)
    ensures Kept(Adding(s, Started(o, initiator, others, greeted, now)).(clock := now))
  {
    hide Sound, AllSound, SubjectsUnique, CacheIsTrue, Past, OneAtATime, Distinct, FirstRows;
    var c := Opened(o, initiator, others, now - 1);
    OpenedIsEmpty(o, initiator, others, now - 1);
    OpeningKeepsApart(initiator, others, now - 1);
    var d := Started(o, initiator, others, greeted, now).c;
    if greeted {
      GreetingIsSound(c, CHAT_BOT_GREETING, now - 1, now);
    } else {
      OpeningIsSound(c, now - 1);
      SoundLater(c, c.mode, 0, now - 1, now);
    }
    Added(s.convs, s.initial, s.inFlight, s.apart, s.clock, s.nextId, d, d.mode, now);
  }

  lemma JoinKeeps(s: State, id: nat, actor: Actor, role: Role, now: int)
    requires Kept(s) && id in s.convs && s.clock < now
    ensures Kept(With(s, id, s.convs[id].(participants := Joined(s.convs[id].participants, actor, role, now)))
                 .(clock := now))
  {
    hide Sound, Kept, OneAtATime, Joined;
    KeptAt(s, id);
    JoiningKeeps(s.convs[id], s.initial[id], s.inFlight[id], s.clock, actor, role, now);
    WithOnlyKeeps(s, id, s.convs[id].(participants := Joined(s.convs[id].participants, actor, role, now)), now);
  }

  lemma SendKeeps(s: State, id: nat, sender: Actor, body: Option<string>, attachments: seq<AttachmentKind>,
                  users: set<string>, now: int)
    requires Kept(s) && id in s.convs && s.clock < now
    ensures Kept(Sent(s, id, sender, body, attachments, users, now).(clock := now))
  {
    hide Sound, Kept, OneAtATime, PreviewText, IsRequester;
    KeptAt(s, id);
    var c, k := s.convs[id], s.inFlight[id];
    if Exists(users, sender) {
      SendingKeeps(c, s.initial[id], k, s.clock, sender, body, attachments, now);
      WithKeeps(s, id, Posted(c, FromActor(sender, body, attachments, now)),
                k + if IsRequester(c, sender) && c.mode == Bot then 1 else 0, now);
    } else {
      StillKept(s, now);
    }
  }

  lemma FinishReplyKeeps(s: State, id: nat, reply: Option<string>, now: int)
    requires Kept(s) && id in s.convs && s.clock < now
    ensures Kept(Finished(s, id, reply, now).(clock := now))
  {
    hide Sound, Kept, OneAtATime, PreviewText, IsBlank;
    KeptAt(s, id);
    var c, k := s.convs[id], s.inFlight[id];
    if k == 0 {
      StillKept(s, now);
    } else if IsPosted(c, reply) {
      ReplyingKeeps(c, s.initial[id], k, s.clock, reply.value, now);
      WithKeeps(s, id, Posted(c, FromBot(reply.value, now)), k - 1, now);
    } else {
      DroppingKeeps(c, s.initial[id], k, s.clock, now);
      WithKeeps(s, id, c, k - 1, now);
    }
  }

  lemma DeleteKeeps(s: State, id: nat, i: nat, actor: Actor, erased: bool, now: int)
    requires Kept(s) && id in s.convs && s.clock < now
    ensures Kept(Erased(s, id, i, actor, erased, now).(clock := now))
  {
    hide Sound, Kept, OneAtATime;
    KeptAt(s, id);
    var c := s.convs[id];
    if i < |c.log| && c.log[i].senderId == Some(actor.id) && c.log[i].deletedAt.None? {
      var body := if erased then None else c.log[i].body;
      DeletingKeeps(c, s.initial[id], s.inFlight[id], s.clock, i, body, now);
      WithOnlyKeeps(s, id, Deleted(c, i, body, now), now);
    } else {
      StillKept(s, now);
    }
  }

  lemma MarkReadKeeps(s: State, id: nat, actorId: string, now: int)
    requires Kept(s) && id in s.convs && s.clock < now
    ensures Kept(Marked(s, id, actorId, now).(clock := now))
  {
    hide Sound, Kept, OneAtATime, FindActive;
    KeptAt(s, id);
    var c := s.convs[id];
    var i := FindActive(c.participants, actorId);
    if i.Some? {
      MarkingKeeps(c, s.initial[id], s.inFlight[id], s.clock, i.value, now);
      WithOnlyKeeps(s, id, MarkedRead(c, i.value, now), now);
    } else {
      StillKept(s, now);
    }
  }

  lemma HandOffKeeps(s: State, id: nat, from: Option<string>, to: Actor, role: Role, users: set<string>, now: int)
    requires Kept(s) && id in s.convs && s.clock < now
    ensures Kept(HandedTo(s, id, from, to, role, users, now).(clock := now))
  {
    hide Sound, Kept, OneAtATime, BotRow, PreviewText, Joined, Left;
    KeptAt(s, id);
    var c := s.convs[id];
    if Exists(users, to) && !(Given(from) && BotRow(c, from).None?) {
      HandoffKeeps(c, s.initial[id], s.inFlight[id], s.clock, BotRow(c, from), to, role, now);
      WithOnlyKeeps(s, id, HandedOff(c, BotRow(c, from), to, role, now), now);
    } else {
      StillKept(s, now);
    }
  }

  lemma ReleaseOrEscalateKeeps(s: State, op: Operation)
    requires Kept(s) && (op.Release? || op.Escalate?) && op.id in s.convs && s.clock < op.now
    ensures Kept(Changing(s, op).(clock := op.now))
  {
    hide Sound, Kept, OneAtATime, PreviewText;
    KeptAt(s, op.id);
    var c := s.convs[op.id];
    if op.Release? {
      ReleaseKeeps(c, s.initial[op.id], s.inFlight[op.id], s.clock, op.now);
      WithOnlyKeeps(s, op.id, Released(c, op.now), op.now);
    } else {
      EscalatingKeeps(c, s.initial[op.id], s.inFlight[op.id], s.clock, op.reason, op.churchId, op.now);
      WithOnlyKeeps(s, op.id, Escalated(c, op.reason, op.churchId, op.now), op.now);
    }
  }

  lemma OpeningKeeps(s: State, op: Operation)
    requires Kept(s) && (op.CreateOrOpen? || op.OpenGuest?) && s.clock < op.now
    ensures Kept(Step(s, op))
  {
    hide Sound, Kept, OneAtATime, Joined, IsTaken, Exists, Vetted, Distinct;
    if Starts(s, op).None? {
      StillKept(s, op.now);
      if Changing(s, op) != s {
        var o := Effective(op.dto);
        var id :| id in s.convs && HasSubject(s.convs[id], o.subjectType, o.subjectId)
                  && Changing(s, op) == With(s, id, s.convs[id].(participants :=
                                               Joined(s.convs[id].participants, op.initiator, Owner, op.now)));
        JoinKeeps(s, id, op.initiator, Owner, op.now);
      }
    } else if op.CreateOrOpen? {
      var o := Effective(op.dto);
      AddingKeeps(s, o, op.initiator, o.participants[..Vetted(op.users, o.participants)], IsBotWidget(op.dto), op.now);
    } else {
      AddingKeeps(s, GuestOpening(op.guestId), Actor(op.guestId, Guest), [], true, op.now);
    }
  }

  lemma StepKeeps(s: State, op: Operation)
    requires Kept(s) && s.clock < op.now
    ensures Kept(Step(s, op))
  {
    hide Kept, IsTaken, Effective, Refused, Sent, Finished, Erased, Marked, HandedTo, Released, Escalated, Joined;
    match op
    case CreateOrOpen(_, _, _, _) => OpeningKeeps(s, op);
    case OpenGuest(_, _) => OpeningKeeps(s, op);
    case _ =>
      if op.id !in s.convs {
        StillKept(s, op.now);
        Unknown(s, op);
      } else {
        KnownKeeps(s, op);
      }
  }

  lemma KnownKeeps(s: State, op: Operation)
    requires Kept(s) && !op.CreateOrOpen? && !op.OpenGuest? && op.id in s.convs && s.clock < op.now
    ensures Kept(Changing(s, op).(clock := op.now))
  {
    hide Kept, IsTaken, Effective, Refused, Sent, Finished, Erased, Marked, HandedTo, Released, Escalated, Joined;
    match op
    case AddParticipant(id, actor, role, now) => JoinKeeps(s, id, actor, role, now);
    case Send(id, sender, body, attachments, users, now) => SendKeeps(s, id, sender, body, attachments, users, now);
    case FinishReply(id, reply, now) => FinishReplyKeeps(s, id, reply, now);
    case Delete(id, i, actor, erased, now) => DeleteKeeps(s, id, i, actor, erased, now);
    case MarkRead(id, actorId, now) => MarkReadKeeps(s, id, actorId, now);
    case HandOff(id, from, to, role, users, now) => HandOffKeeps(s, id, from, to, role, users, now);
    case Release(_, _) => ReleaseOrEscalateKeeps(s, op);
    case Escalate(_, _, _, _) => ReleaseOrEscalateKeeps(s, op);
  }

  lemma Unknown(s: State, op: Operation)
    requires !op.CreateOrOpen? && !op.OpenGuest? && op.id !in s.convs
    ensures Changing(s, op) == s
  {
  }

  lemma ChangingOpensNothing(s: State, op: Operation)
    ensures Changing(s, op).apart == s.apart
  {
    hide Posted, Joined, MarkedRead, Deleted, HandedOff, Released, Escalated, Vetted, IsTaken, FindActive;
  }

  // ---- whole runs ----

  /** Each operation is later than the one before. */
  predicate Successive(clock: int, run: seq<Operation>) {
    (forall k :: 0 <= k < |run| ==> clock < run[k].now) && forall j, k :: 0 <= j < k < |run| ==> run[j].now < run[k].now
  }

  ghost function Run(s: State, run: seq<Operation>): State
    decreases |run|
  {
    if run == [] then s else Run(Step(s, run[0]), run[1..])
  }

  /** Conversation `id` was opened in the run with distinct participants other than the initiator. */
  ghost predicate OpenedApart(s: State, run: seq<Operation>, id: nat)
    decreases |run|
  {
    run != []
    && (var n := Starts(s, run[0]);
        (n.Some? && id == s.nextId && Distinct(n.value.initiator, n.value.others))
        || OpenedApart(Step(s, run[0]), run[1..], id))
  }

  lemma {:induction false} RunKeeps(s: State, run: seq<Operation>)
    requires Kept(s) && Successive(s.clock, run)
    ensures Kept(Run(s, run))
    ensures forall id :: id in Run(s, run).apart <==> id in s.apart || OpenedApart(s, run, id)
    decreases |run|
  {
    hide Kept, Changing, Starts, Distinct;
    if run != [] {
      StepKeeps(s, run[0]);
      ChangingOpensNothing(s, run[0]);
      RunKeeps(Step(s, run[0]), run[1..]);
    }
  }

  /** The mode a conversation was opened with. */
  ghost function FirstMode(t: State, id: nat): Mode {
    if id in t.initial then t.initial[id] else Bot
  }

  /**
   After every run of the service, in every conversation: the cached last message is the newest one as it now stands; the
   mode is what the handoffs and releases of its log make of the first one, and those messages are intact; the bot spoke
   only in mode BOT, and at most once more than it was asked; memberships overlap if and only if the conversation was
   opened with the same actor twice. No subject has two conversations.
   */
  lemma EveryRun(run: seq<Operation>, start: int, id: nat)
    requires Successive(start, run) && id in Run(Empty(start), run).convs
    ensures var t := Run(Empty(start), run);
            var c := t.convs[id];
            && CacheIsTrue(c) && NoticesIntact(c.log) && c.mode == Replay(FirstMode(t, id), c.log)
            && BotSpokeOnlyAsBot(FirstMode(t, id), c.log)
            && Automatic(c.log) <= 1 + Requests(c, c.log)
            && (OneAtATime(c.participants) <==> OpenedApart(Empty(start), run, id))
            && SubjectsUnique(t.convs)
  {
    EmptyIsKept(start);
    RunKeeps(Empty(start), run);
    hide Run, OpenedApart, OneAtATime, CacheIsTrue, NoticesIntact, BotSpokeOnlyAsBot, Replay, Automatic, Requests;
    KeptAt(Run(Empty(start), run), id);
  }

  lemma EmptyIsKept(now: int)
    ensures Kept(Empty(now))
  {
  }
}
