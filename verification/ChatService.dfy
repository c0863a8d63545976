/**
 The chat service: the operations of src/chat/services/chat.service.ts on the tables of conversations, messages and
 participants, and the replies the bot is preparing.

 Each method that is an operation of its own makes the step of ChatSteps.dfy of that name.
 */
module ChatServices {
  import opened Wrappers
  import opened Chat
  import opened ChatSteps

  class ChatService {
    var convs: Conversations
    var inFlight: map<nat, nat>
    var nextId: nat
    ghost var initial: map<nat, Mode>
    ghost var apart: set<nat>
    ghost var clock: int

    ghost function View(): State
      reads this
    {
      State(convs, inFlight, nextId, initial, apart, clock)
    }

    ghost predicate Valid()
      reads this
    {
      Kept(View())
    }

    constructor (ghost now: int)
      ensures Valid() && View() == Empty(now)
    {
      convs, inFlight, nextId, initial, apart, clock := map[], map[], 0, map[], {}, now;
    }

    // ---- opening ----

    method FindBySubject(subjectType: Option<string>, subjectId: Option<string>) returns (r: Option<nat>)
      ensures r.Some? ==> r.value in convs && HasSubject(convs[r.value], subjectType, subjectId)
      ensures r.Some? <==> IsTaken(convs, subjectType, subjectId)
    {
      if exists id :: id in convs && HasSubject(convs[id], subjectType, subjectId) {
        var id :| id in convs && HasSubject(convs[id], subjectType, subjectId);
        return Some(id);
      }
      return None;
    }

    /** Save a new conversation and its participants, and greet if the bot is to. */
    method Open(o: Opening, initiator: Actor, others: seq<(Actor, Role)>, greeted: bool, now: int) returns (id: nat)
      modifies this`convs, this`inFlight, this`nextId, this`initial, this`apart
      ensures id == old(nextId) && View() == Adding(old(View()), Started(o, initiator, others, greeted, now))
    {
      hide PreviewText, Distinct, FirstRows;
      var c := Opened(o, initiator, others, now - 1);
      id := nextId;
      convs := convs[id := c];
      inFlight := inFlight[id := 0];
      nextId := nextId + 1;
      initial := initial[id := c.mode];
      if Distinct(initiator, others) { apart := apart + {id}; }
      if greeted {
        PostMessage(id, AI, CHAT_BOT_GREETING, Plain, now);
        assert convs == old(convs)[id := Posted(c, FromBot(CHAT_BOT_GREETING, now))];
      }
    }

    /** A conversation is saved at the instant before `now`, so that a greeting can follow at `now`. */
    method CreateOrOpen(initiator: Actor, dto: Opening, users: set<string>, now: int) returns (r: Result<nat, Error>)
      requires Valid() && clock < now
      modifies this
      ensures Valid() && View() == Step(old(View()), Operation.CreateOrOpen(initiator, dto, users, now))
      ensures initiator.kind == Human && initiator.id !in users ==> r == Failure(UserNotFound) && convs == old(convs)
      ensures r == Failure(Forbidden) <==>
                && (initiator.kind == Human ==> initiator.id in users)
                && dto.subjectType == Some("bot-widget")
                && !(initiator.kind == Human && dto.subjectId == Some(initiator.id))
      ensures r == Failure(Forbidden) ==> convs == old(convs)
      // a conversation found for the subject: the initiator takes part in it, and no other changes
      ensures r.Success? && r.value in old(convs) ==>
                var c := old(convs)[r.value];
                && dto.subjectType.Some? && dto.subjectType.value != "" && dto.subjectId.Some? && dto.subjectId.value != ""
                && HasSubject(c, dto.subjectType, dto.subjectId)
                && convs == old(convs)[r.value := c.(participants := convs[r.value].participants)]
                && TakesPart(c.participants, convs[r.value].participants, Participant(initiator, Owner, now, None, None))
      // a new one
      ensures r.Success? && r.value !in old(convs) ==>
                && r.value == old(nextId) && r.value in convs && convs == old(convs)[r.value := convs[r.value]]
                && !(dto.subjectType.Some? && dto.subjectType.value != "" && dto.subjectId.Some?
                     && dto.subjectId.value != "" && IsTaken(old(convs), dto.subjectType, dto.subjectId))
                && IsNew(convs[r.value], initiator, dto, now)
                && (dto.subjectType != Some("bot-widget") ==>
                      forall i :: 0 <= i < |dto.participants| ==>
                        dto.participants[i].0.kind == Human ==> dto.participants[i].0.id in users)
      // a participant who does not exist: those before him are in the conversation, which stays
      ensures r == Failure(UserNotFound) && (initiator.kind == Human ==> initiator.id in users) ==>
                exists n | 0 <= n < |dto.participants| ::
                  && dto.participants[n].0.kind == Human && dto.participants[n].0.id !in users
                  && old(nextId) !in old(convs) && old(nextId) in convs
                  && convs == old(convs)[old(nextId) := convs[old(nextId)]]
                  && IsNew(convs[old(nextId)], initiator, dto.(participants := dto.participants[..n]), now)
      ensures r.Success? || r == Failure(UserNotFound) || r == Failure(Forbidden)
    {
      hide Kept, Joined, Adding, Started, Step, IsTaken, Refused, Effective, Vetted, IsNew, TakesPart, HasSubject, Given;
      ghost var op := Operation.CreateOrOpen(initiator, dto, users, now);
      RefusedIs(initiator, dto);
      GivenIs(dto.subjectType);
      GivenIs(dto.subjectId);
      StepKeeps(View(), op);
      NewIdIsFree(View());
      clock := now;
      if !Exists(users, initiator) || Refused(initiator, dto) { RefusingIs(old(View()), op); }
      if !Exists(users, initiator) { return Failure(UserNotFound); }
      if Refused(initiator, dto) { return Failure(Forbidden); }
      var o := Effective(dto);
      if Given(o.subjectType) && Given(o.subjectId) {
        var existing := FindBySubject(o.subjectType, o.subjectId);
        if existing.Some? {
          ReopeningIs(old(View()), op, existing.value);
          EnsureParticipant(existing.value, initiator, Owner, now);
          JoinedTakesPart(old(convs)[existing.value].participants, initiator, Owner, now);
          return Success(existing.value);
        }
      }
      // The conversation and its owner are saved first; a participant that does not exist stops the rest.
      var others := [];
      var i := 0;
      while i < |o.participants| && Exists(users, o.participants[i].0)
        invariant 0 <= i <= |o.participants| && others == o.participants[..i]
        invariant forall k :: 0 <= k < i ==> Exists(users, o.participants[k].0)
      {
        others := others + [o.participants[i]];
        i := i + 1;
      }
      VettedIs(users, o.participants, i);
      StartingIs(old(View()), op);
      var id := Open(o, initiator, others, IsBotWidget(dto), now);
      StartedIsNew(dto, initiator, i, now);
      AddingIs(old(View()).(clock := now), Started(o, initiator, others, IsBotWidget(dto), now));
      if i < |o.participants| { return Failure(UserNotFound); }
      return Success(id);
    }

    method OpenGuestConversation(guestId: string, now: int) returns (id: nat)
      requires Valid() && clock < now
      modifies this
      ensures Valid() && View() == Step(old(View()), OpenGuest(guestId, now))
      ensures id in convs && HasSubject(convs[id], Some("guest-widget"), Some(guestId))
      ensures id in old(convs) <==> IsTaken(old(convs), Some("guest-widget"), Some(guestId))
      ensures id in old(convs) ==> convs == old(convs)
      ensures id !in old(convs) ==>
                && id == old(nextId) && convs == old(convs)[id := convs[id]]
                && convs[id].mode == Bot && convs[id].status == Status.Open && convs[id].escalation.None?
                && convs[id].participants == [Participant(Actor(guestId, Guest), Owner, now - 1, None, None)]
                && convs[id].log == [Message(now, None, AI, Plain, Some(CHAT_BOT_GREETING), [], None, None)]
    {
      hide Kept, Distinct, FirstRows, PreviewText;
      StepKeeps(View(), OpenGuest(guestId, now));
      NewIdIsFree(View());
      clock := now;
      var existing := FindBySubject(Some(GUEST_SUBJECT_TYPE), Some(guestId));
      if existing.Some? { return existing.value; }
      id := Open(GuestOpening(guestId), Actor(guestId, Guest), [], true, now);
    }

    // ---- participants ----

    method EnsureParticipant(id: nat, actor: Actor, role: Role, now: int)
      requires id in convs
      modifies this`convs
      ensures var c := old(convs)[id];
              convs == old(convs)[id := c.(participants := Joined(c.participants, actor, role, now))]
    {
      hide FindActive;
      var c := convs[id];
      if FindActive(c.participants, actor.id).Some? {
        assert convs[id := c] == convs;
        return;
      }
      convs := convs[id := c.(participants := c.participants + [Participant(actor, role, now, None, None)])];
    }

    method AddParticipant(id: nat, actor: Actor, role: Role, now: int)
      requires Valid() && clock < now && id in convs
      modifies this`convs, this`clock
      ensures Valid() && View() == Step(old(View()), Operation.AddParticipant(id, actor, role, now))
      ensures var c := old(convs)[id];
              && convs == old(convs)[id := c.(participants := convs[id].participants)]
              && TakesPart(c.participants, convs[id].participants, Participant(actor, role, now, None, None))
    {
      hide Kept, Joined, TakesPart;
      JoinedTakesPart(convs[id].participants, actor, role, now);
      StepKeeps(View(), Operation.AddParticipant(id, actor, role, now));
      clock := now;
      EnsureParticipant(id, actor, role, now);
    }

    // ---- posting ----

    /** `postMessage`: a message without sender, and the cache. */
    method PostMessage(id: nat, senderType: ActorType, body: string, kind: MessageKind, now: int)
      requires id in convs
      modifies this`convs
      ensures convs == old(convs)[id := Posted(old(convs)[id],
                                               Message(now, None, senderType, kind, Some(body), [], None, None))]
    {
      var saved := Message(now, None, senderType, kind, Some(body), [], None, None);
      convs := convs[id := convs[id].(log := convs[id].log + [saved])];
      convs := convs[id := convs[id].(lastMessageAt := Some(saved.createdAt),
                                      lastMessagePreview := Some(PreviewText(Some(body), [])),
                                      lastMessageSenderId := None)];
    }

    /** Sends a message; when the sender is the requester and the mode is BOT, starts a reply. */
    method SendMessage(id: nat, sender: Actor, body: Option<string>, attachments: seq<AttachmentKind>,
                       users: set<string>, now: int) returns (r: Result<Message, Error>)
      requires Valid() && clock < now
      modifies this`convs, this`inFlight, this`clock
      ensures Valid() && View() == Step(old(View()), Send(id, sender, body, attachments, users, now))
      ensures r.Failure? <==> id !in old(convs) || (sender.kind == Human && sender.id !in users)
      ensures r.Failure? ==> r.error == if id !in old(convs) then ConversationNotFound else UserNotFound
      ensures r.Failure? ==> convs == old(convs) && inFlight == old(inFlight)
      ensures r.Success? ==>
                var c := old(convs)[id];
                && r.value == Message(now, Some(sender.id), sender.kind, Plain, body, attachments, None, None)
                && convs == old(convs)[id := c.(log := c.log + [r.value], lastMessageAt := Some(now),
                                                lastMessagePreview := Some(PreviewText(body, attachments)),
                                                lastMessageSenderId := Some(sender.id))]
                && id in old(inFlight)
                && inFlight == old(inFlight)[id := old(inFlight)[id] + if Asks(c, sender) then 1 else 0]
    {
      hide Kept, PreviewText, IsRequester, Asks;
      StepKeeps(View(), Send(id, sender, body, attachments, users, now));
      clock := now;
      if id !in convs { return Failure(ConversationNotFound); }
      if !Exists(users, sender) { return Failure(UserNotFound); }
      KeptAt(old(View()), id);
      var c := convs[id];
      var message := FromActor(sender, body, attachments, now);
      convs := convs[id := c.(log := c.log + [message])];
      convs := convs[id := convs[id].(lastMessageAt := Some(message.createdAt),
                                      lastMessagePreview := Some(PreviewText(body, attachments)),
                                      lastMessageSenderId := Some(sender.id))];
      assert convs == old(convs)[id := Posted(c, message)];
      RequesterAsks(c, sender);
      inFlight := inFlight[id := inFlight[id] + if IsRequester(c, sender) && c.mode == Bot then 1 else 0];
      return Success(message);
    }

    /** The bot has a reply, or none; the mode is read again before it is posted. */
    method FinishReply(id: nat, reply: Option<string>, now: int) returns (posted: bool)
      requires Valid() && clock < now && id in convs && id in inFlight && inFlight[id] > 0
      modifies this`convs, this`inFlight, this`clock
      ensures Valid() && View() == Step(old(View()), Operation.FinishReply(id, reply, now))
      ensures posted <==> reply.Some? && !IsBlank(reply.value) && old(convs)[id].mode == Bot
      ensures inFlight == old(inFlight)[id := old(inFlight)[id] - 1]
      ensures !posted ==> convs == old(convs)
      ensures posted ==>
                var c := old(convs)[id];
                convs == old(convs)[id := c.(log := c.log + [Message(now, None, AI, Plain, reply, [], None, None)],
                                             lastMessageAt := Some(now),
                                             lastMessagePreview := Some(PreviewText(reply, [])),
                                             lastMessageSenderId := None)]
    {
      hide Kept, PreviewText, IsBlank;
      StepKeeps(View(), Operation.FinishReply(id, reply, now));
      clock := now;
      inFlight := inFlight[id := inFlight[id] - 1];
      if reply.None? || IsBlank(reply.value) || convs[id].mode != Bot {
        assert convs[id := convs[id]] == convs;
        return false;
      }
      PostMessage(id, AI, reply.value, Plain, now);
      return true;
    }

    // ---- deleting and reading ----

    /**
     The sender empties one of his messages, which keeps its place; message `i` of the log. `erased` tells whether the
     database layer writes a body that is undefined, or leaves the column as it is.
     */
    method DeleteMessage(id: nat, i: nat, actor: Actor, erased: bool, now: int) returns (r: Result<Message, Error>)
      requires Valid() && clock < now
      modifies this`convs, this`clock
      ensures Valid() && View() == Step(old(View()), Delete(id, i, actor, erased, now))
      ensures id !in old(convs) || i >= |old(convs)[id].log| ==> r == Failure(MessageNotFound)
      ensures id in old(convs) && i < |old(convs)[id].log| ==>
                var m := old(convs)[id].log[i];
                && (r == Failure(Forbidden) <==> m.senderId != Some(actor.id))
                && (r.Success? <==> m.senderId == Some(actor.id))
                && (r.Success? && m.deletedAt.Some? ==> r.value == m && convs == old(convs))
                && (r.Success? && m.deletedAt.None? ==>
                      && r.value == m.(body := None, attachments := [], deletedAt := Some(now))
                      && convs == old(convs)[id := convs[id]]
                      && IsEmptied(old(convs)[id], convs[id], i, if erased then None else m.body, now))
      ensures r.Failure? ==> convs == old(convs)
    {
      hide Kept;
      StepKeeps(View(), Delete(id, i, actor, erased, now));
      clock := now;
      if id !in convs || i >= |convs[id].log| { return Failure(MessageNotFound); }
      var c := convs[id];
      var message := c.log[i];
      if message.senderId != Some(actor.id) { return Failure(Forbidden); }
      if message.deletedAt.Some? { return Success(message); }
      var body := if erased then None else message.body;
      message := message.(body := None, attachments := [], deletedAt := Some(now));
      convs := convs[id := c.(log := c.log[i := message.(body := body)])];
      if c.lastMessageAt == Some(message.createdAt) {
        convs := convs[id := convs[id].(lastMessagePreview := Some(DELETED_PREVIEW))];
      }
      assert convs[id] == Deleted(c, i, body, now) && convs == old(convs)[id := convs[id]];
      return Success(message);
    }

    /** Someone who is not an active participant has nothing to mark. */
    method MarkRead(id: nat, actorId: string, now: int)
      requires Valid() && clock < now && id in convs
      modifies this`convs, this`clock
      ensures Valid() && View() == Step(old(View()), Operation.MarkRead(id, actorId, now))
      ensures var c := old(convs)[id];
              match FindActive(c.participants, actorId)
              case None => convs == old(convs)
              case Some(i) => convs == old(convs)[id := convs[id]] && IsRead(c, convs[id], i, actorId, now)
    {
      hide Kept, FindActive;
      StepKeeps(View(), Operation.MarkRead(id, actorId, now));
      clock := now;
      var c := convs[id];
      var participant := FindActive(c.participants, actorId);
      if participant.None? { return; }
      var i := participant.value;
      var rows := c.participants[i := c.participants[i].(lastReadAt := Some(now))];
      var log := [];
      for k := 0 to |c.log|
        invariant |log| == k
        invariant forall j :: 0 <= j < k ==>
                    log[j] == if ReadByMarking(c.log[j], actorId) then c.log[j].(readAt := Some(now)) else c.log[j]
      {
        var m := c.log[k];
        log := log + [if ReadByMarking(m, actorId) then m.(readAt := Some(now)) else m];
      }
      assert log == MarkedRead(c, i, now).log;
      convs := convs[id := c.(participants := rows)];
      convs := convs[id := convs[id].(log := log)];
      assert convs == old(convs)[id := MarkedRead(c, i, now)];
    }

    // ---- mode ----

    /** BOT to AGENT: `from` leaves, `to` joins. */
    method Handoff(id: nat, from: Option<string>, to: Actor, role: Role, users: set<string>, now: int)
      returns (r: Result<(), Error>)
      requires Valid() && clock < now
      modifies this`convs, this`clock
      ensures Valid() && View() == Step(old(View()), HandOff(id, from, to, role, users, now))
      ensures r.Failure? ==> convs == old(convs)
      ensures r.Failure? ==> r.error == if id !in old(convs) then ConversationNotFound
                                        else if to.kind == Human && to.id !in users then UserNotFound
                                        else ParticipantNotFound
      ensures r.Failure? <==> id !in old(convs) || (to.kind == Human && to.id !in users)
                              || (from.Some? && from.value != ""
                                  && FindActive(old(convs)[id].participants, from.value).None?)
      ensures r.Success? ==>
                && convs == old(convs)[id := convs[id]]
                && IsHandedOver(old(convs)[id], convs[id], from, Participant(to, role, now, None, None), now)
    {
      hide Kept, FindActive, PreviewText, Joined, BotRow, IsHandedOver, Given, Step, IsActive;
      GivenIs(from);
      StepKeeps(View(), HandOff(id, from, to, role, users, now));
      HandingIs(View(), id, from, to, role, users, now);
      clock := now;
      if id !in convs { return Failure(ConversationNotFound); }
      if !Exists(users, to) { return Failure(UserNotFound); }
      var c := convs[id];
      var bot := BotRow(c, from);
      BotRowIs(c, from);
      if Given(from) && bot.None? { return Failure(ParticipantNotFound); }
      var rows := c.participants;
      if bot.Some? {
        rows := rows[bot.value := rows[bot.value].(leftAt := Some(now))];
      }
      JoinedIs(rows, to, role, now);
      var existing := FindActive(rows, to.id);
      if existing.None? {
        rows := rows + [Participant(to, role, now, None, None)];
      }
      convs := convs[id := c.(participants := rows)];
      convs := convs[id := convs[id].(mode := Agent)];
      PostMessage(id, System, HANDOFF_MESSAGE, Notice, now);
      assert convs == old(convs)[id := HandedOff(c, bot, to, role, now)];
      HandedOffIsHandedOver(c, from, to, role, now);
      return Success(());
    }

    /** AGENT to BOT. */
    method ReleaseToBot(id: nat, now: int) returns (r: Result<Conversation, Error>)
      requires Valid() && clock < now
      modifies this`convs, this`clock
      ensures Valid() && View() == Step(old(View()), Release(id, now))
      ensures r.Failure? <==> id !in old(convs)
      ensures r.Failure? ==> convs == old(convs)
      ensures r.Success? ==>
                var c := old(convs)[id];
                && convs == old(convs)[id := r.value]
                && (c.mode == Bot ==> r.value == c)
                && (c.mode == Agent ==>
                      r.value == c.(mode := Bot,
                                    log := c.log + [Message(now, None, System, Notice, Some(RELEASE_MESSAGE), [], None,
                                                            None)],
                                    lastMessageAt := Some(now),
                                    lastMessagePreview := Some(PreviewText(Some(RELEASE_MESSAGE), [])),
                                    lastMessageSenderId := None))
    {
      hide Kept, PreviewText;
      StepKeeps(View(), Release(id, now));
      clock := now;
      if id !in convs { return Failure(ConversationNotFound); }
      var c := convs[id];
      assert convs[id := c] == convs;
      if c.mode == Bot { return Success(c); }
      convs := convs[id := c.(mode := Bot)];
      PostMessage(id, System, RELEASE_MESSAGE, Notice, now);
        assert convs == old(convs)[id := Released(c, now)];
      return Success(convs[id]);
    }

    /** Marks the conversation for a human; neither the mode nor the log changes. */
    method Escalate(id: nat, reason: string, churchId: Option<string>, now: int) returns (r: Result<bool, Error>)
      requires Valid() && clock < now
      modifies this`convs, this`clock
      ensures Valid() && View() == Step(old(View()), Operation.Escalate(id, reason, churchId, now))
      ensures r == if id in old(convs) then Success(old(convs)[id].escalation.Some?) else Failure(ConversationNotFound)
      ensures convs == if id in old(convs)
                       then old(convs)[id := old(convs)[id].(status := Pending,
                                                             escalation := Some(Escalation(now, reason, churchId)))]
                       else old(convs)
    {
      hide Kept;
      StepKeeps(View(), Operation.Escalate(id, reason, churchId, now));
      clock := now;
      if id !in convs { return Failure(ConversationNotFound); }
      var c := convs[id];
      convs := convs[id := c.(status := Pending, escalation := Some(Escalation(now, reason, churchId)))];
      return Success(c.escalation.Some?);
    }
  }

  /** A conversation opened with the same actor twice, whose memberships overlap. */
  method OpenWithDuplicate() returns (service: ChatService, id: nat)
    ensures fresh(service) && service.Valid() && id in service.convs
    ensures !OneAtATime(service.convs[id].participants)
  {
    hide Kept, IsNew, TakesPart, IsTaken, Joined;
    service := new ChatService(0);
    var twice := [(Actor("b", Human), Member), (Actor("b", Human), Clergy)];
    var users := {"a", "b"};
    AllVetted(users, twice);
    var r := service.CreateOrOpen(Actor("a", Human), Opening(None, None, None, twice), users, 2);
    id := r.value;
    DuplicateOverlaps(1);
  }

  /** What a new conversation holds: the subject, the mode and the participants given, and no message; an assistant
      conversation has its user alone, the bot to answer him, and its greeting. */
  ghost predicate IsNew(c: Conversation, initiator: Actor, dto: Opening, now: int) {
    var widget := dto.subjectType == Some("bot-widget");
    && c.subjectType == dto.subjectType && c.subjectId == dto.subjectId
    && c.status == Status.Open && c.escalation.None?
    && c.mode == (if widget then Bot else if dto.mode.Some? then dto.mode.value else Agent)
    && |c.participants| == (if widget then 1 else 1 + |dto.participants|)
    && c.participants[0] == Participant(initiator, Owner, now - 1, None, None)
    && (!widget ==>
          forall i :: 0 <= i < |dto.participants| ==>
            c.participants[i + 1] == Participant(dto.participants[i].0, dto.participants[i].1, now - 1, None, None))
    && c.log == if widget then [Message(now, None, AI, Plain, Some(CHAT_BOT_GREETING), [], None, None)] else []
  }

  /** The bot answers visitors, and the user of an assistant conversation, until a human has taken over. */
  ghost predicate Asks(c: Conversation, sender: Actor) {
    && c.mode == Bot
    && (sender.kind == Guest
        || (sender.kind == Human && c.subjectType == Some("bot-widget") && c.subjectId == Some(sender.id)))
  }

  lemma RequesterAsks(c: Conversation, sender: Actor)
    ensures IsRequester(c, sender) && c.mode == Bot <==> Asks(c, sender)
  {
  }

  /** Message `i` lost its attachments and keeps its place; the list shows that if it shows this message. */
  ghost predicate IsEmptied(c: Conversation, d: Conversation, i: nat, body: Option<string>, now: int)
    requires i < |c.log|
  {
    && |d.log| == |c.log| && d.log[i] == c.log[i].(body := body, attachments := [], deletedAt := Some(now))
    && (forall k :: 0 <= k < |c.log| && k != i ==> d.log[k] == c.log[k])
    && d.lastMessagePreview
       == (if c.lastMessageAt == Some(c.log[i].createdAt) then Some("Message supprimé") else c.lastMessagePreview)
    && d == c.(log := d.log, lastMessagePreview := d.lastMessagePreview)
  }

  /** The reader's row, and every message from someone else that was not yet read, has the time; nothing else changed. */
  ghost predicate IsRead(c: Conversation, d: Conversation, i: nat, actorId: string, now: int)
    requires i < |c.participants|
  {
    && d.participants == c.participants[i := c.participants[i].(lastReadAt := Some(now))]
    && |d.log| == |c.log|
    && (forall k :: 0 <= k < |c.log| ==>
          d.log[k] == if c.log[k].readAt.None? && c.log[k].senderId.Some? && c.log[k].senderId != Some(actorId)
                      then c.log[k].(readAt := Some(now)) else c.log[k])
    && d == c.(log := d.log, participants := d.participants)
  }

  /** The one named has left, the row's actor takes part, and the conversation is with a human and says so. */
  ghost predicate IsHandedOver(c: Conversation, d: Conversation, from: Option<string>, row: Participant, now: int)
    requires from.Some? && from.value != "" ==> FindActive(c.participants, from.value).Some?
  {
    && d.mode == Agent
    && (if from.Some? && from.value != "" then
          var i := FindActive(c.participants, from.value).value;
          TakesPart(c.participants[i := c.participants[i].(leftAt := Some(now))], d.participants, row)
        else TakesPart(c.participants, d.participants, row))
    && d == c.(mode := d.mode, participants := d.participants,
               log := c.log + [Message(now, None, System, Notice, Some(HANDOFF_MESSAGE), [], None, None)],
               lastMessageAt := Some(now), lastMessagePreview := Some(PreviewText(Some(HANDOFF_MESSAGE), [])),
               lastMessageSenderId := None)
  }

  lemma HandingIs(s: State, id: nat, from: Option<string>, to: Actor, role: Role, users: set<string>, now: int)
    ensures Step(s, HandOff(id, from, to, role, users, now))
            == HandedTo(s, id, from, to, role, users, now).(clock := now)
  {
    hide HandedTo;
  }

  lemma HandedOffIsHandedOver(c: Conversation, from: Option<string>, to: Actor, role: Role, now: int)
    requires from.Some? && from.value != "" ==> FindActive(c.participants, from.value).Some?
    ensures IsHandedOver(c, HandedOff(c, BotRow(c, from), to, role, now), from, Participant(to, role, now, None, None),
                         now)
  {
    hide FindActive, TakesPart, PreviewText, Joined;
    var bot := BotRow(c, from);
    JoinedTakesPart(if bot.Some? then Left(c.participants, bot.value, now) else c.participants, to, role, now);
  }

  /** The row's actor takes part: as he does already, or with this row. */
  ghost predicate TakesPart(before: seq<Participant>, after: seq<Participant>, row: Participant) {
    if exists i :: 0 <= i < |before| && before[i].actor.id == row.actor.id && before[i].leftAt.None?
    then after == before
    else after == before + [row]
  }

  lemma JoinedTakesPart(ps: seq<Participant>, actor: Actor, role: Role, now: int)
    ensures TakesPart(ps, Joined(ps, actor, role, now), Participant(actor, role, now, None, None))
  {
    hide FindActive;
    assert forall i :: 0 <= i < |ps| && ps[i].actor.id == actor.id && ps[i].leftAt.None? ==> IsActive(ps[i], actor.id);
  }

  lemma RefusedIs(initiator: Actor, dto: Opening)
    ensures Refused(initiator, dto) <==>
              dto.subjectType == Some("bot-widget") && !(initiator.kind == Human && dto.subjectId == Some(initiator.id))
    ensures var o := Effective(dto);
            && o.subjectType == dto.subjectType && o.subjectId == dto.subjectId
            && (if dto.subjectType == Some("bot-widget") then o.participants == [] else o == dto)
  {
  }

  lemma GivenIs(s: Option<string>)
    ensures Given(s) <==> s.Some? && s.value != ""
  {
  }

  lemma StartedIsNew(dto: Opening, initiator: Actor, n: nat, now: int)
    requires n <= |Effective(dto).participants| <= |dto.participants|
    ensures var o := Effective(dto);
            IsNew(Started(o, initiator, o.participants[..n], IsBotWidget(dto), now).c, initiator,
                  if n < |o.participants| then dto.(participants := dto.participants[..n]) else dto, now)
  {
    hide PreviewText;
  }

  lemma AddingIs(s: State, n: Start)
    ensures Adding(s, n).convs == s.convs[s.nextId := n.c]
  {
  }

  lemma AllVetted(users: set<string>, others: seq<(Actor, Role)>)
    requires forall i :: 0 <= i < |others| ==> Exists(users, others[i].0)
    ensures Vetted(users, others) == |others| && others[..|others|] == others
  {
  }

  lemma NewIdIsFree(s: State)
    requires Kept(s)
    ensures s.nextId !in s.convs
  {
    hide AllSound, SubjectsUnique;
  }

  /** The conversation found for a subject is the only one, so opening it again is a step on that one. */
  lemma ReopeningIs(s: State, op: Operation, id: nat)
    requires Kept(s) && op.CreateOrOpen? && Exists(op.users, op.initiator) && !Refused(op.initiator, op.dto)
    requires var o := Effective(op.dto);
             && Given(o.subjectType) && Given(o.subjectId)
             && id in s.convs && HasSubject(s.convs[id], o.subjectType, o.subjectId)
    ensures Step(s, op)
            == With(s, id, s.convs[id].(participants := Joined(s.convs[id].participants, op.initiator, Owner, op.now)))
               .(clock := op.now)
  {
    hide AllSound, Joined, Exists, Refused, Effective;
    var o := Effective(op.dto);
    var other :| other in s.convs && HasSubject(s.convs[other], o.subjectType, o.subjectId)
                 && Changing(s, op) == With(s, other, s.convs[other].(participants :=
                                              Joined(s.convs[other].participants, op.initiator, Owner, op.now)));
    assert other == id;
  }

  lemma BotRowIs(c: Conversation, from: Option<string>)
    ensures Given(from) ==> BotRow(c, from) == FindActive(c.participants, from.value)
    ensures !Given(from) ==> BotRow(c, from).None?
  {
  }

  lemma RefusingIs(s: State, op: Operation)
    requires op.CreateOrOpen? && (!Exists(op.users, op.initiator) || Refused(op.initiator, op.dto))
    ensures Step(s, op) == s.(clock := op.now)
  {
    hide Exists, Refused, Effective;
  }

  lemma StartingIs(s: State, op: Operation)
    requires op.CreateOrOpen? && Exists(op.users, op.initiator) && !Refused(op.initiator, op.dto)
    requires var o := Effective(op.dto);
             !(Given(o.subjectType) && Given(o.subjectId) && IsTaken(s.convs, o.subjectType, o.subjectId))
    ensures var o := Effective(op.dto);
            Step(s, op) == Adding(s.(clock := op.now),
                                  Started(o, op.initiator, o.participants[..Vetted(op.users, o.participants)],
                                          IsBotWidget(op.dto), op.now))
  {
    hide Exists, Refused, Effective, IsTaken, Started, Vetted, Distinct;
  }

  lemma JoinedIs(ps: seq<Participant>, actor: Actor, role: Role, now: int)
    ensures Joined(ps, actor, role, now) ==
              if FindActive(ps, actor.id).Some? then ps else ps + [Participant(actor, role, now, None, None)]
  {
  }

  lemma {:induction false} VettedIs(users: set<string>, others: seq<(Actor, Role)>, n: nat)
    requires n <= |others| && forall i :: 0 <= i < n ==> Exists(users, others[i].0)
    requires n < |others| ==> !Exists(users, others[n].0)
    ensures Vetted(users, others) == n
  {
  }
}
