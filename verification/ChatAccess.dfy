/**
 Who enters an assistant conversation, over every sequence of operations (src/chat/services/chat.service.ts:213-222).
 */
module ChatAccess {
  import opened Wrappers
  import opened Chat
  import opened ChatSteps

  /** An operation on a conversation someone takes part in only adds rows, and who added them is the actor it names. */
  ghost predicate RowsGrow(ps: seq<Participant>, qs: seq<Participant>, newcomer: Option<Actor>) {
    && |ps| <= |qs|
    && (forall k :: 0 <= k < |ps| ==> qs[k].actor == ps[k].actor && qs[k].role == ps[k].role)
    && (forall k :: |ps| <= k < |qs| ==> newcomer == Some(qs[k].actor))
  }

  /** The actor an operation can make a participant of a conversation that is already there. */
  function Newcomer(op: Operation, id: nat): Option<Actor> {
    match op
    case CreateOrOpen(initiator, _, _, _) => Some(initiator)
    case AddParticipant(i, actor, _, _) => if i == id then Some(actor) else None
    case HandOff(i, _, to, _, _, _) => if i == id then Some(to) else None
    case _ => None
  }

  lemma JoinedGrows(ps: seq<Participant>, actor: Actor, role: Role, now: int)
    ensures RowsGrow(ps, Joined(ps, actor, role, now), Some(actor))
  {
  }

  lemma HandedOffGrows(c: Conversation, bot: Option<nat>, to: Actor, role: Role, now: int)
    requires bot.Some? ==> bot.value < |c.participants|
    ensures RowsGrow(c.participants, HandedOff(c, bot, to, role, now).participants, Some(to))
  {
    hide PreviewText, FindActive;
    var remaining := if bot.Some? then Left(c.participants, bot.value, now) else c.participants;
    JoinedGrows(remaining, to, role, now);
  }

  /** A conversation already there: its subject stays, and its rows grow by the newcomer at most. */
  ghost predicate GrewAs(c: Conversation, d: Conversation, newcomer: Option<Actor>) {
    HasSubject(d, c.subjectType, c.subjectId) && RowsGrow(c.participants, d.participants, newcomer)
  }

  lemma ChangingGrows(s: State, op: Operation, id: nat)
    requires id in s.convs && !op.CreateOrOpen?
    ensures id in Changing(s, op).convs && GrewAs(s.convs[id], Changing(s, op).convs[id], Newcomer(op, id))
  {
    hide Joined, PreviewText, IsRequester, FindActive, BotRow, IsBlank, HandedOff;
    if op.AddParticipant? && op.id == id {
      JoinedGrows(s.convs[id].participants, op.actor, op.role, op.now);
    } else if op.HandOff? && op.id == id {
      HandedOffGrows(s.convs[id], BotRow(s.convs[id], op.from), op.to, op.role, op.now);
      HandedOffSubject(s.convs[id], BotRow(s.convs[id], op.from), op.to, op.role, op.now);
    }
  }

  lemma HandedOffSubject(c: Conversation, bot: Option<nat>, to: Actor, role: Role, now: int)
    requires bot.Some? ==> bot.value < |c.participants|
    ensures HasSubject(HandedOff(c, bot, to, role, now), c.subjectType, c.subjectId)
  {
  }

  /**
   Opening leaves every assistant conversation of someone else as it was; any other conversation it can only make the
   initiator join.
   */
  lemma OthersStay(s: State, op: Operation, id: nat)
    requires Kept(s) && op.CreateOrOpen? && id in s.convs
    ensures id in Step(s, op).convs
    ensures s.convs[id].subjectType == Some("bot-widget")
            && !(op.initiator.kind == Human && s.convs[id].subjectId == Some(op.initiator.id)) ==>
              Step(s, op).convs[id] == s.convs[id]
    ensures GrewAs(s.convs[id], Step(s, op).convs[id], Some(op.initiator))
  {
    hide AllSound, SubjectsUnique, Joined, Started, Distinct, Vetted, IsTaken, Exists;
    JoinedGrows(s.convs[id].participants, op.initiator, Owner, op.now);
  }

  /** A new assistant conversation is its user's, who is alone in it. */
  lemma NewIsAlone(s: State, op: Operation)
    requires Starts(s, op).Some?
    ensures var c := Starts(s, op).value.c;
            c.subjectType == Some("bot-widget") ==>
              && op.CreateOrOpen? && op.initiator.kind == Human && c.subjectId == Some(op.initiator.id)
              && c.participants == [Participant(op.initiator, Owner, op.now - 1, None, None)]
  {
    hide PreviewText, IsTaken, Exists;
    assert GUEST_SUBJECT_TYPE[0] != "bot-widget"[0];
  }

  /** Its user is the owner and comes first; everyone else in it was admitted. */
  ghost predicate IsPrivate(c: Conversation, id: nat, admitted: set<(nat, Actor)>) {
    c.subjectType == Some("bot-widget") ==>
      && c.subjectId.Some? && c.participants != []
      && c.participants[0].actor == Actor(c.subjectId.value, Human) && c.participants[0].role == Owner
      && forall k :: 0 <= k < |c.participants| ==>
           c.participants[k].actor == Actor(c.subjectId.value, Human) || (id, c.participants[k].actor) in admitted
  }

  ghost predicate AllPrivate(convs: Conversations, admitted: set<(nat, Actor)>) {
    forall id :: id in convs ==> IsPrivate(convs[id], id, admitted)
  }

  predicate Admits(op: Operation, id: nat, a: Actor) {
    || (op.AddParticipant? && op.id == id && op.actor == a)
    || (op.HandOff? && op.id == id && op.to == a)
  }

  /** The participants an operation adds by hand or by a handoff. */
  function Admitted(op: Operation): set<(nat, Actor)> {
    match op
    case AddParticipant(id, actor, _, _) => {(id, actor)}
    case HandOff(id, _, to, _, _, _) => {(id, to)}
    case _ => {}
  }

  lemma AdmittedIs(op: Operation, id: nat, a: Actor)
    ensures (id, a) in Admitted(op) <==> Admits(op, id, a)
  {
  }

  function Admissions(run: seq<Operation>): set<(nat, Actor)> {
    if run == [] then {} else Admitted(run[0]) + Admissions(run[1..])
  }

  lemma {:induction false} AdmissionsAre(run: seq<Operation>, id: nat, a: Actor)
    requires (id, a) in Admissions(run)
    ensures exists k :: 0 <= k < |run| && Admits(run[k], id, a)
  {
    hide Admitted, Admits;
    AdmittedIs(run[0], id, a);
    if !Admits(run[0], id, a) {
      AdmissionsAre(run[1..], id, a);
      var k :| 0 <= k < |run[1..]| && Admits(run[1..][k], id, a);
      assert Admits(run[k + 1], id, a);
    }
  }

  lemma GrowingIsPrivate(c: Conversation, d: Conversation, id: nat, admitted: set<(nat, Actor)>, more: set<(nat, Actor)>,
                         newcomer: Option<Actor>)
    requires IsPrivate(c, id, admitted) && admitted <= more && GrewAs(c, d, newcomer)
    requires c.subjectType == Some("bot-widget") && newcomer.Some? ==>
               || (c.subjectId == Some(newcomer.value.id) && newcomer.value.kind == Human)
               || (id, newcomer.value) in more
    ensures IsPrivate(d, id, more)
  {
  }

  lemma StepIsPrivate(s: State, op: Operation, admitted: set<(nat, Actor)>, more: set<(nat, Actor)>)
    requires Kept(s) && AllPrivate(s.convs, admitted)
    requires admitted + Admitted(op) <= more
    ensures AllPrivate(Step(s, op).convs, more)
  {
    hide Kept, Starts, Changing, GrewAs, IsPrivate;
    forall id | id in Step(s, op).convs
      ensures IsPrivate(Step(s, op).convs[id], id, more)
    {
      OneIsPrivate(s, op, admitted, more, id);
    }
  }

  lemma OneIsPrivate(s: State, op: Operation, admitted: set<(nat, Actor)>, more: set<(nat, Actor)>, id: nat)
    requires Kept(s) && AllPrivate(s.convs, admitted) && id in Step(s, op).convs
    requires admitted + Admitted(op) <= more
    ensures IsPrivate(Step(s, op).convs[id], id, more)
  {
    hide Kept, Starts, Changing, GrewAs, Started;
    if id in s.convs && op.CreateOrOpen? {
      var c, d := s.convs[id], Step(s, op).convs[id];
      OthersStay(s, op, id);
      if d != c { GrowingIsPrivate(c, d, id, admitted, more, Some(op.initiator)); }
    } else if Starts(s, op).Some? {
      NewIsAlone(s, op);
      OldOrNew(s, op, id);
      if id in s.convs { assert IsPrivate(s.convs[id], id, admitted); }
    } else if op.CreateOrOpen? {
      assert false by { OldOrNew(s, op, id); }
    } else {
      OldOrNew(s, op, id);
      ChangingGrows(s, op, id);
      var newcomer := Newcomer(op, id);
      if newcomer.Some? { AdmittedIs(op, id, newcomer.value); }
      GrowingIsPrivate(s.convs[id], Changing(s, op).convs[id], id, admitted, more, newcomer);
    }
  }

  lemma OldOrNew(s: State, op: Operation, id: nat)
    requires Kept(s) && id in Step(s, op).convs
    ensures Starts(s, op).None? ==> id in s.convs && Step(s, op).convs == Changing(s, op).convs
    ensures Starts(s, op).Some? ==>
              if id in s.convs then Step(s, op).convs[id] == s.convs[id]
              else Step(s, op).convs[id] == Starts(s, op).value.c
  {
    hide AllSound, SubjectsUnique, Joined, Started, Distinct, Vetted, IsTaken, Exists, HandedOff, Released, Posted,
      Deleted, MarkedRead, Escalated, FindActive;
  }

  lemma {:induction false} RunIsPrivate(s: State, run: seq<Operation>, admitted: set<(nat, Actor)>)
    requires Kept(s) && Successive(s.clock, run) && AllPrivate(s.convs, admitted)
    ensures AllPrivate(Run(s, run).convs, admitted + Admissions(run))
    decreases |run|
  {
    hide Kept, AllPrivate, Changing, Starts, Admitted;
    if run == [] {
      assert admitted + Admissions(run) == admitted;
    } else {
      var more := admitted + Admitted(run[0]);
      StepKeeps(s, run[0]);
      StepIsPrivate(s, run[0], admitted, more);
      RunIsPrivate(Step(s, run[0]), run[1..], more);
      assert more + Admissions(run[1..]) == admitted + Admissions(run);
    }
  }

  /**
   In every run each assistant conversation has its own user as first participant and owner, and everyone else in it
   was added by hand or by a handoff: no one entered by opening it.
   */
  lemma NoOneEntersByOpening(run: seq<Operation>, start: int, id: nat)
    requires Successive(start, run) && id in Run(Empty(start), run).convs
    requires Run(Empty(start), run).convs[id].subjectType == Some("bot-widget")
    ensures var c := Run(Empty(start), run).convs[id];
            && c.subjectId.Some? && c.participants != []
            && c.participants[0].actor == Actor(c.subjectId.value, Human) && c.participants[0].role == Owner
            && forall k :: 0 <= k < |c.participants| && c.participants[k].actor != c.participants[0].actor ==>
                 exists i :: 0 <= i < |run| && Admits(run[i], id, c.participants[k].actor)
  {
    hide Run, Kept, Admits, Admissions;
    EmptyIsKept(start);
    RunIsPrivate(Empty(start), run, {});
    assert {} + Admissions(run) == Admissions(run);
    var c := Run(Empty(start), run).convs[id];
    assert IsPrivate(c, id, Admissions(run));
    forall k | 0 <= k < |c.participants| && c.participants[k].actor != c.participants[0].actor
      ensures exists i :: 0 <= i < |run| && Admits(run[i], id, c.participants[k].actor)
    {
      AdmissionsAre(run, id, c.participants[k].actor);
    }
  }
}
