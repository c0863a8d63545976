/**
 Mails that failed and their retries (src/mail/mail.service.ts, src/mail/mail.processor.ts,
 src/mail/mail-failed.service.ts).

 A mail is known by the number of the job it was first submitted with. `submitted`, `origin` (the mail a row was saved
 for), `savedAs` (the row of a mail) and `delivered` are history: they record what happened and decide nothing.
 */
module MailRetry {
  import opened Wrappers

  const ATTEMPTS := 3

  datatype MailType = ConfirmEmail | ResetPassword | ResetPin | ResetLink | ContactNotify | ContactAck

  /** What a job carries besides `_retriedFromId`. */
  datatype Mail = Mail(kind: MailType, to: string, content: string)

  datatype MailJob = MailJob(mail: Mail, retriedFromId: Option<nat>)

  datatype Job = Job(data: MailJob, attemptsMade: nat)

  datatype Status = Pending | Abandoned

  datatype Row = Row(kind: MailType, to: string, payload: MailJob, lastError: string, attempts: nat, status: Status)

  datatype Error = NotFound | Conflict

  datatype State = State(
    queue: map<nat, Job>,
    rows: map<nat, Row>,
    nextJob: nat,
    nextRow: nat,
    submitted: map<nat, Mail>,
    origin: map<nat, nat>,
    savedAs: map<nat, nat>,
    delivered: multiset<nat>)

  const START := State(map[], map[], 0, 0, map[], map[], map[], multiset{})

  // ---- the steps ----

  datatype Event =
    | Submit(mail: Mail)
    | Fail(job: nat, message: string)
    | Succeed(job: nat)
    | Retry(row: nat)
    | Abandon(row: nat)

  ghost predicate PointsToRow(s: State, j: nat) {
    j in s.queue && (s.queue[j].data.retriedFromId.Some? ==> s.queue[j].data.retriedFromId.value in s.origin)
  }

  /** The mail a queued job is for. */
  ghost function MailOf(s: State, j: nat): nat
    requires PointsToRow(s, j)
  {
    if s.queue[j].data.retriedFromId.None? then j else s.origin[s.queue[j].data.retriedFromId.value]
  }

  ghost function Submitted(s: State, mail: Mail): State {
    s.(queue := s.queue[s.nextJob := Job(MailJob(mail, None), 0)],
       nextJob := s.nextJob + 1,
       submitted := s.submitted[s.nextJob := mail])
  }

  function NewRow(job: Job, message: string): Row {
    Row(job.data.mail.kind, job.data.mail.to, job.data, message, job.attemptsMade, Pending)
  }

  /** Row `r` is pending again, or is gone and stays so. */
  function Updated(rows: map<nat, Row>, r: nat, message: string, attempts: nat): map<nat, Row> {
    if r !in rows then rows
    else rows[r := rows[r].(status := Pending, lastError := message, attempts := attempts)]
  }

  /** The job is out of attempts for the first time: a row takes its mail over. */
  ghost function Saved(s: State, j: nat, row: Row): State
    requires j in s.queue
  {
    s.(queue := s.queue - {j},
       rows := s.rows[s.nextRow := row],
       nextRow := s.nextRow + 1,
       origin := s.origin[s.nextRow := j],
       savedAs := s.savedAs[j := s.nextRow])
  }

  /** A failed attempt: the job waits for another one until it has made them all. */
  ghost function Failed(s: State, j: nat, message: string): State
    requires j in s.queue
  {
    var job := s.queue[j].(attemptsMade := s.queue[j].attemptsMade + 1);
    if job.attemptsMade < ATTEMPTS then s.(queue := s.queue[j := job])
    else
      match job.data.retriedFromId
      case None => Saved(s, j, NewRow(job, message))
      case Some(r) => s.(queue := s.queue - {j}, rows := Updated(s.rows, r, message, job.attemptsMade))
  }

  ghost function Succeeded(s: State, j: nat): State
    requires PointsToRow(s, j)
  {
    var from := s.queue[j].data.retriedFromId;
    s.(queue := s.queue - {j},
       rows := if from.Some? then s.rows - {from.value} else s.rows,
       delivered := s.delivered + multiset{MailOf(s, j)})
  }

  ghost function Retried(s: State, r: nat): State
    requires r in s.rows
  {
    s.(queue := s.queue[s.nextJob := Job(s.rows[r].payload.(retriedFromId := Some(r)), 0)], nextJob := s.nextJob + 1)
  }

  ghost function Step(s: State, e: Event): State
    requires Sound(s)
  {
    match e
    case Submit(mail) => Submitted(s, mail)
    case Fail(j, message) => if j in s.queue then Failed(s, j, message) else s
    case Succeed(j) => if j in s.queue then QueuedPointsToRow(s, j); Succeeded(s, j) else s
    case Retry(r) => if r in s.rows && s.rows[r].status == Pending then Retried(s, r) else s
    case Abandon(r) => if r in s.rows then s.(rows := s.rows[r := s.rows[r].(status := Abandoned)]) else s
  }

  // ---- what every step keeps ----

  /** A queued job carries its mail; a retry points to the row its mail had. */
  ghost predicate JobSound(s: State, j: nat)
    requires j in s.queue
  {
    var job := s.queue[j];
    && j < s.nextJob && job.attemptsMade < ATTEMPTS
    && (job.data.retriedFromId.None? <==> j in s.submitted)
    && (job.data.retriedFromId.Some? ==> job.data.retriedFromId.value in s.origin)
    && MailOf(s, j) in s.submitted && job.data.mail == s.submitted[MailOf(s, j)]
  }

  /** A row exists from the day its mail failed until the day it is delivered, and holds it as it was submitted. */
  ghost predicate RowSound(s: State, r: nat)
    requires r in s.origin
  {
    var m := s.origin[r];
    && r < s.nextRow && m in s.submitted && m !in s.queue
    && m in s.savedAs && s.savedAs[m] == r
    && (r in s.rows <==> m !in s.delivered)
    && (r in s.rows ==>
          && s.rows[r].payload == MailJob(s.submitted[m], None)
          && s.rows[r].kind == s.submitted[m].kind && s.rows[r].to == s.submitted[m].to
          && s.rows[r].attempts == ATTEMPTS)
  }

  /** A mail whose first job is gone was saved or delivered; while that job is queued it was neither. */
  ghost predicate MailSound(s: State, m: nat)
    requires m in s.submitted
  {
    && m < s.nextJob
    && (m in s.savedAs ==> s.savedAs[m] in s.origin && s.origin[s.savedAs[m]] == m)
    && (m in s.queue ==> m !in s.savedAs && m !in s.delivered)
    && (m !in s.queue ==> m in s.savedAs || m in s.delivered)
  }

  ghost predicate Sound(s: State) {
    && (forall j {:trigger JobSound(s, j)} :: j in s.queue ==> JobSound(s, j))
    && (forall r {:trigger RowSound(s, r)} :: r in s.origin ==> RowSound(s, r))
    && (forall m {:trigger MailSound(s, m)} :: m in s.submitted ==> MailSound(s, m))
    && (forall r :: r in s.rows ==> r in s.origin)
    && (forall m :: m in s.savedAs || m in s.delivered ==> m in s.submitted)
  }

  lemma QueuedPointsToRow(s: State, j: nat)
    requires Sound(s) && j in s.queue
    ensures PointsToRow(s, j)
  {
    assert JobSound(s, j);
  }

  lemma FewAttempts(s: State, j: nat)
    requires Sound(s) && j in s.queue
    ensures s.queue[j].attemptsMade < ATTEMPTS && s.nextRow !in s.rows
  {
    assert JobSound(s, j);
    NextIsNew(s);
  }

  /** Numbers are not used twice. */
  lemma NextIsNew(s: State)
    requires Sound(s)
    ensures s.nextJob !in s.queue && s.nextJob !in s.submitted && s.nextRow !in s.origin
  {
    forall j | j in s.queue ensures j < s.nextJob { assert JobSound(s, j); }
    forall m | m in s.submitted ensures m < s.nextJob { assert MailSound(s, m); }
    forall r | r in s.origin ensures r < s.nextRow { assert RowSound(s, r); }
  }

  lemma SubmittingKeeps(s: State, mail: Mail)
    requires Sound(s)
    ensures Sound(Submitted(s, mail))
  {
    var t := Submitted(s, mail);
    NextIsNew(s);
    forall j | j in t.queue ensures JobSound(t, j) { if j in s.queue { assert JobSound(s, j); } }
    forall r | r in t.origin ensures RowSound(t, r) { assert RowSound(s, r); }
    forall m | m in t.submitted ensures MailSound(t, m) { if m in s.submitted { assert MailSound(s, m); } }
  }

  lemma WaitingKeeps(s: State, j: nat)
    requires Sound(s) && j in s.queue && s.queue[j].attemptsMade + 1 < ATTEMPTS
    ensures Sound(s.(queue := s.queue[j := s.queue[j].(attemptsMade := s.queue[j].attemptsMade + 1)]))
  {
    var t := s.(queue := s.queue[j := s.queue[j].(attemptsMade := s.queue[j].attemptsMade + 1)]);
    assert JobSound(s, j) && MailSound(s, MailOf(s, j));
    forall i | i in t.queue ensures JobSound(t, i) { assert JobSound(s, i); }
    forall r | r in t.origin ensures RowSound(t, r) { assert RowSound(s, r); }
    forall m | m in t.submitted ensures MailSound(t, m) { assert MailSound(s, m); }
  }

  lemma SavingKeepsRows(s: State, j: nat, row: Row)
    requires Sound(s) && j in s.queue && s.queue[j].data.retriedFromId.None?
    requires row.payload == s.queue[j].data && row.kind == row.payload.mail.kind && row.to == row.payload.mail.to
    requires row.attempts == ATTEMPTS
    ensures var t := Saved(s, j, row); s.nextRow !in s.origin && forall r :: r in t.origin ==> RowSound(t, r)
  {
    var t := Saved(s, j, row);
    assert JobSound(s, j) && MailSound(s, j);
    NextIsNew(s);
    forall r | r in t.origin ensures RowSound(t, r) { if r in s.origin { assert RowSound(s, r); } }
  }

  lemma SavingKeeps(s: State, j: nat, row: Row)
    requires Sound(s) && j in s.queue && s.queue[j].data.retriedFromId.None?
    requires row.payload == s.queue[j].data && row.kind == row.payload.mail.kind && row.to == row.payload.mail.to
    requires row.attempts == ATTEMPTS
    ensures Sound(Saved(s, j, row))
  {
    hide RowSound;
    var t := Saved(s, j, row);
    SavingKeepsRows(s, j, row);
    assert JobSound(s, j) && MailSound(s, j);
    forall i | i in t.queue ensures JobSound(t, i) {
      assert JobSound(s, i);
      assert t.queue[i] == s.queue[i] && MailOf(t, i) == MailOf(s, i);
    }
    forall m | m in t.submitted ensures MailSound(t, m) {
      assert MailSound(s, m);
      assert m != j && m in s.savedAs ==> t.savedAs[m] == s.savedAs[m] != s.nextRow;
    }
  }

  /** The retries of a row leave the queue; the row, if it is still there, is rewritten. */
  lemma UpdatingKeeps(s: State, j: nat, rows: map<nat, Row>)
    requires Sound(s) && j in s.queue && s.queue[j].data.retriedFromId.Some? && rows.Keys == s.rows.Keys
    requires forall r :: r in rows ==> rows[r].payload == s.rows[r].payload && rows[r].kind == s.rows[r].kind
                                       && rows[r].to == s.rows[r].to && rows[r].attempts == ATTEMPTS
    ensures Sound(s.(queue := s.queue - {j}, rows := rows))
  {
    var t := s.(queue := s.queue - {j}, rows := rows);
    assert JobSound(s, j) && MailSound(s, MailOf(s, j));
    forall i | i in t.queue ensures JobSound(t, i) { assert JobSound(s, i); }
    forall r | r in t.origin ensures RowSound(t, r) { assert RowSound(s, r); }
    forall m | m in t.submitted ensures MailSound(t, m) { assert MailSound(s, m); }
  }

  lemma FailingKeeps(s: State, j: nat, message: string)
    requires Sound(s) && j in s.queue
    ensures Sound(Failed(s, j, message))
  {
    hide RowSound, MailSound;
    assert JobSound(s, j);
    var t := Failed(s, j, message);
    if s.queue[j].attemptsMade + 1 < ATTEMPTS {
      hide Sound;
      WaitingKeeps(s, j);
    } else if s.queue[j].data.retriedFromId.None? {
      hide Sound;
      SavingKeeps(s, j, t.rows[s.nextRow]);
    } else {
      forall r | r in s.rows ensures s.rows[r].attempts == ATTEMPTS { SavedAttempts(s, r); }
      UpdatingKeeps(s, j, t.rows);
    }
  }

  lemma SavedAttempts(s: State, r: nat)
    requires Sound(s) && r in s.rows
    ensures s.rows[r].attempts == ATTEMPTS
  {
    assert RowSound(s, r);
  }

  lemma DeliveringKeeps(s: State, j: nat)
    requires Sound(s) && j in s.queue && s.queue[j].data.retriedFromId.None?
    ensures Sound(s.(queue := s.queue - {j}, delivered := s.delivered + multiset{j}))
  {
    var t := s.(queue := s.queue - {j}, delivered := s.delivered + multiset{j});
    assert JobSound(s, j) && MailSound(s, MailOf(s, j));
    forall i | i in t.queue ensures JobSound(t, i) { assert JobSound(s, i); }
    forall r | r in t.origin ensures RowSound(t, r) { assert RowSound(s, r); }
    forall m | m in t.submitted ensures MailSound(t, m) { assert MailSound(s, m); }
  }

  lemma RedeliveringKeeps(s: State, j: nat, r: nat)
    requires Sound(s) && j in s.queue && s.queue[j].data.retriedFromId == Some(r) && r in s.origin
    ensures Sound(s.(queue := s.queue - {j}, rows := s.rows - {r}, delivered := s.delivered + multiset{s.origin[r]}))
  {
    var t := s.(queue := s.queue - {j}, rows := s.rows - {r}, delivered := s.delivered + multiset{s.origin[r]});
    assert JobSound(s, j) && RowSound(s, r);
    forall i | i in t.queue ensures JobSound(t, i) { assert JobSound(s, i); }
    forall q | q in t.origin ensures RowSound(t, q) { assert RowSound(s, q); }
    forall m | m in t.submitted ensures MailSound(t, m) { assert MailSound(s, m); }
  }

  lemma SucceedingKeeps(s: State, j: nat)
    requires Sound(s) && j in s.queue
    ensures PointsToRow(s, j) && Sound(Succeeded(s, j))
  {
    hide RowSound, MailSound;
    assert JobSound(s, j);
    hide Sound;
    match s.queue[j].data.retriedFromId
    case None => DeliveringKeeps(s, j);
    case Some(r) => RedeliveringKeeps(s, j, r);
  }

  lemma RetryingKeeps(s: State, r: nat)
    requires Sound(s) && r in s.rows
    ensures Sound(Retried(s, r))
  {
    var t := Retried(s, r);
    assert RowSound(s, r);
    NextIsNew(s);
    forall j | j in t.queue ensures JobSound(t, j) { if j in s.queue { assert JobSound(s, j); } }
    forall q | q in t.origin ensures RowSound(t, q) { assert RowSound(s, q) && MailSound(s, s.origin[q]); }
    forall m | m in t.submitted ensures MailSound(t, m) { assert MailSound(s, m); }
  }

  lemma AbandoningKeeps(s: State, r: nat)
    requires Sound(s) && r in s.rows
    ensures Sound(s.(rows := s.rows[r := s.rows[r].(status := Abandoned)]))
  {
    var t := s.(rows := s.rows[r := s.rows[r].(status := Abandoned)]);
    forall j | j in t.queue ensures JobSound(t, j) { assert JobSound(s, j); }
    forall q | q in t.origin ensures RowSound(t, q) { assert RowSound(s, q); }
    forall m | m in t.submitted ensures MailSound(t, m) { assert MailSound(s, m); }
  }

  lemma StepKeeps(s: State, e: Event)
    requires Sound(s)
    ensures Sound(Step(s, e))
  {
    hide Sound, Submitted, Failed, Succeeded, Retried;
    match e
    case Submit(mail) => SubmittingKeeps(s, mail);
    case Fail(j, message) => if j in s.queue { FailingKeeps(s, j, message); }
    case Succeed(j) => if j in s.queue { SucceedingKeeps(s, j); }
    case Retry(r) => if r in s.rows { RetryingKeeps(s, r); }
    case Abandon(r) => if r in s.rows { AbandoningKeeps(s, r); }
  }

  // ---- whole runs ----

  ghost function Run(s: State, run: seq<Event>): (t: State)
    requires Sound(s)
    ensures Sound(t)
    decreases |run|
  {
    if run == [] then s
    else
      StepKeeps(s, run[0]);
      Run(Step(s, run[0]), run[1..])
  }

  lemma {:induction false} RunSplits(s: State, run: seq<Event>, more: seq<Event>)
    requires Sound(s)
    ensures Run(s, run + more) == Run(Run(s, run), more)
    decreases |run|
  {
    hide Sound, Step;
    if run == [] {
      assert run + more == more;
    } else {
      StepKeeps(s, run[0]);
      assert (run + more)[0] == run[0] && (run + more)[1..] == run[1..] + more;
      RunSplits(Step(s, run[0]), run[1..], more);
    }
  }

  lemma StepRemembers(s: State, e: Event, m: nat)
    requires Sound(s) && m in s.submitted && m < s.nextJob
    ensures var t := Step(s, e);
            m in t.submitted && t.submitted[m] == s.submitted[m] && s.delivered[m] <= t.delivered[m]
  {
    hide Sound;
  }

  /** A mail keeps its number and content, and stays delivered. */
  lemma {:induction false} RunRemembers(s: State, run: seq<Event>, m: nat)
    requires Sound(s) && m in s.submitted
    ensures var t := Run(s, run);
            && m in t.submitted && t.submitted[m] == s.submitted[m]
            && s.delivered[m] <= t.delivered[m]
    decreases |run|
  {
    hide Step;
    if run != [] {
      assert MailSound(s, m);
      hide Sound;
      StepRemembers(s, run[0], m);
      StepKeeps(s, run[0]);
      RunRemembers(Step(s, run[0]), run[1..], m);
    }
  }

  /** Row `r` holds mail `m`, all of it. */
  ghost predicate Holds(s: State, r: nat, m: nat) {
    && r in s.rows && r in s.origin && s.origin[r] == m && m in s.submitted
    && s.rows[r].payload == MailJob(s.submitted[m], None)
  }

  /**
   No mail is lost: at every later moment each submitted mail is queued for its first delivery, or held whole by a row,
   or delivered; it is in one of these places only, and in no two rows.
   */
  lemma NoMailIsLost(s: State, run: seq<Event>, m: nat)
    requires Sound(s) && m in s.submitted
    ensures var t := Run(s, run);
            var queued := m in t.queue && t.queue[m].data == MailJob(s.submitted[m], None);
            var held := exists r :: Holds(t, r, m);
            && (queued || held || m in t.delivered)
            && !(queued && held) && !(queued && m in t.delivered) && !(held && m in t.delivered)
            && forall r, q :: Holds(t, r, m) && Holds(t, q, m) ==> r == q
  {
    var t := Run(s, run);
    RunRemembers(s, run, m);
    assert MailSound(t, m);
    if m in t.queue { assert JobSound(t, m); }
    if m !in t.queue && m !in t.delivered {
      assert RowSound(t, t.savedAs[m]) && Holds(t, t.savedAs[m], m);
    }
    forall r | Holds(t, r, m) ensures m !in t.queue && m !in t.delivered && r == t.savedAs[m] {
      assert RowSound(t, r);
    }
  }

  // ---- delivered once ----

  ghost predicate IsRetrying(s: State, r: nat) {
    exists j :: j in s.queue && s.queue[j].data.retriedFromId == Some(r)
  }

  /** A retry is the only one of its row, the row is still there, and no mail is delivered twice. */
  ghost predicate Once(s: State) {
    && (forall i, j :: i in s.queue && j in s.queue && i != j ==>
          s.queue[i].data.retriedFromId.None? || s.queue[i].data.retriedFromId != s.queue[j].data.retriedFromId)
    && (forall j :: j in s.queue && s.queue[j].data.retriedFromId.Some? ==> s.queue[j].data.retriedFromId.value in s.rows)
    && (forall m :: s.delivered[m] <= 1)
  }

  /** A second retry of a row while the first is queued, which nothing refuses. */
  ghost predicate IsHasty(s: State, e: Event) {
    e.Retry? && e.row in s.rows && s.rows[e.row].status == Pending && IsRetrying(s, e.row)
  }

  lemma FailingOnce(s: State, j: nat, message: string)
    requires Sound(s) && Once(s) && j in s.queue
    ensures Once(Failed(s, j, message))
  {
    hide Sound;
  }

  lemma SucceedingOnce(s: State, j: nat)
    requires Sound(s) && Once(s) && PointsToRow(s, j)
    ensures Once(Succeeded(s, j))
  {
    assert JobSound(s, j) && MailSound(s, MailOf(s, j));
    if s.queue[j].data.retriedFromId.Some? {
      assert RowSound(s, s.queue[j].data.retriedFromId.value);
    }
    hide Sound;
  }

  lemma RetryingOnce(s: State, r: nat)
    requires Once(s) && r in s.rows && s.nextJob !in s.queue
    ensures Once(Retried(s, r)) <==> !IsRetrying(s, r)
  {
    var t := Retried(s, r);
    if IsRetrying(s, r) {
      var j :| j in s.queue && s.queue[j].data.retriedFromId == Some(r);
      assert j in t.queue && s.nextJob in t.queue && j != s.nextJob;
    }
  }

  lemma SubmittingOnce(s: State, mail: Mail)
    requires Once(s) && s.nextJob !in s.queue
    ensures Once(Submitted(s, mail))
  {
  }

  /** Once-only delivery is kept by every step but a hasty retry, and lost by that one. */
  lemma OnceUnlessHasty(s: State, e: Event)
    requires Sound(s) && Once(s)
    ensures Once(Step(s, e)) <==> !IsHasty(s, e)
  {
    NextIsNew(s);
    hide Sound, Submitted, Failed, Succeeded, Retried, IsRetrying;
    match e
    case Submit(mail) => hide Once; SubmittingOnce(s, mail);
    case Fail(j, message) => if j in s.queue { hide Once; FailingOnce(s, j, message); }
    case Succeed(j) => if j in s.queue { hide Once; SucceedingOnce(s, j); }
    case Retry(r) => if r in s.rows { hide Once; RetryingOnce(s, r); }
    case Abandon(_) =>
  }

  /** No step of the run is a hasty retry. */
  ghost predicate Patient(s: State, run: seq<Event>)
    requires Sound(s)
    decreases |run|
  {
    run == [] || (!IsHasty(s, run[0]) && (StepKeeps(s, run[0]); Patient(Step(s, run[0]), run[1..])))
  }

  /** Without hasty retries no mail is delivered twice. */
  lemma {:induction false} PatientRunsDeliverOnce(s: State, run: seq<Event>)
    requires Sound(s) && Once(s) && Patient(s, run)
    ensures Once(Run(s, run)) && forall m :: Run(s, run).delivered[m] <= 1
    decreases |run|
  {
    if run != [] {
      hide Sound, Step, IsHasty;
      StepKeeps(s, run[0]);
      OnceUnlessHasty(s, run[0]);
      PatientRunsDeliverOnce(Step(s, run[0]), run[1..]);
    }
  }

  lemma RunOne(s: State, e: Event)
    requires Sound(s)
    ensures Run(s, [e]) == Step(s, e)
  {
    StepKeeps(s, e);
    hide Sound, Step;
    assert [e][1..] == [];
  }

  lemma TwoRetriesDeliverTwice(s: State, j: nat, k: nat, r: nat)
    requires Sound(s) && j in s.queue && k in s.queue && j != k && r in s.origin
    requires s.queue[j].data.retriedFromId == s.queue[k].data.retriedFromId == Some(r)
    ensures Run(s, [Succeed(j)] + [Succeed(k)]).delivered[s.origin[r]] == s.delivered[s.origin[r]] + 2
  {
    hide Sound, Run;
    var t := Succeeded(s, j);
    SucceedingKeeps(s, j);
    RunOne(s, Succeed(j));
    RunOne(t, Succeed(k));
    RunSplits(s, [Succeed(j)], [Succeed(k)]);
  }

  /** After a hasty retry the mail can be delivered twice: both retries may succeed. */
  lemma HastyMayDeliverTwice(s: State, r: nat) returns (run: seq<Event>)
    requires Sound(s) && IsHasty(s, Retry(r)) && r in s.origin
    ensures Sound(Step(s, Retry(r))) && Run(Step(s, Retry(r)), run).delivered[s.origin[r]] >= 2
  {
    hide Sound, Run;
    var j :| j in s.queue && s.queue[j].data.retriedFromId == Some(r);
    NextIsNew(s);
    RetryingKeeps(s, r);
    TwoRetriesDeliverTwice(Retried(s, r), j, s.nextJob, r);
    run := [Succeed(j)] + [Succeed(s.nextJob)];
  }

  // ---- abandoning ----

  ghost predicate IsAbandoned(s: State, r: nat) {
    r in s.rows && s.rows[r].status == Abandoned
  }

  lemma FailingStaysAbandoned(s: State, j: nat, message: string, r: nat)
    requires Sound(s) && IsAbandoned(s, r) && !IsRetrying(s, r) && j in s.queue && r < s.nextRow
    ensures IsAbandoned(Failed(s, j, message), r) && !IsRetrying(Failed(s, j, message), r)
  {
    hide Sound;
    assert s.queue[j].data.retriedFromId != Some(r);
  }

  lemma StepStaysAbandoned(s: State, e: Event, r: nat)
    requires Sound(s) && IsAbandoned(s, r) && !IsRetrying(s, r)
    ensures IsAbandoned(Step(s, e), r) && !IsRetrying(Step(s, e), r)
  {
    assert RowSound(s, r);
    hide Sound, Failed;
    match e
    case Fail(j, message) => if j in s.queue { FailingStaysAbandoned(s, j, message, r); }
    case Succeed(j) => if j in s.queue { assert s.queue[j].data.retriedFromId != Some(r); }
    case _ =>
  }

  lemma {:induction false} RunStaysAbandoned(s: State, run: seq<Event>, r: nat)
    requires Sound(s) && IsAbandoned(s, r) && !IsRetrying(s, r)
    ensures IsAbandoned(Run(s, run), r)
    decreases |run|
  {
    if run != [] {
      hide Sound, Step, IsRetrying, IsAbandoned;
      StepKeeps(s, run[0]);
      StepStaysAbandoned(s, run[0], r);
      RunStaysAbandoned(Step(s, run[0]), run[1..], r);
    }
  }

  /** A retry that runs out of attempts reopens its row, whatever the row's status. */
  lemma {:induction false} FailedRetryReopens(s: State, j: nat, r: nat, message: string) returns (run: seq<Event>)
    requires Sound(s) && j in s.queue && s.queue[j].data.retriedFromId == Some(r) && r in s.rows
    ensures r in Run(s, run).rows && Run(s, run).rows[r].status == Pending
    decreases ATTEMPTS - s.queue[j].attemptsMade
  {
    assert JobSound(s, j);
    var t := Failed(s, j, message);
    FailingKeeps(s, j, message);
    assert t == Step(s, Fail(j, message));
    if s.queue[j].attemptsMade + 1 < ATTEMPTS {
      var rest := FailedRetryReopens(t, j, r, message);
      run := [Fail(j, message)] + rest;
      hide Sound, Step, Failed;
      assert run[1..] == rest;
    } else {
      run := [Fail(j, message)];
      hide Sound, Step;
      assert run[1..] == [] && Run(t, []) == t;
    }
  }

  /** Abandoning a mail is final exactly when no retry of it is queued. */
  lemma AbandonedIsFinal(s: State, r: nat)
    requires Sound(s) && IsAbandoned(s, r)
    ensures (forall run :: IsAbandoned(Run(s, run), r)) <==> !IsRetrying(s, r)
  {
    hide Sound, Step, Run;
    if IsRetrying(s, r) {
      var j :| j in s.queue && s.queue[j].data.retriedFromId == Some(r);
      var run := FailedRetryReopens(s, j, r, "");
      assert !IsAbandoned(Run(s, run), r);
    } else {
      forall run ensures IsAbandoned(Run(s, run), r) { RunStaysAbandoned(s, run, r); }
    }
  }

  // ---- runs from the start ----

  lemma StartIsSound()
    ensures Sound(START) && Once(START)
  {
  }

  /** One mail whose first job has failed: a row holds it, and nothing is queued. */
  ghost function OneRow(mail: Mail, message: string): State {
    State(map[], map[0 := NewRow(Job(MailJob(mail, None), ATTEMPTS), message)], 1, 1,
          map[0 := mail], map[0 := 0], map[0 := 0], multiset{})
  }

  function ThreeFailures(mail: Mail, message: string): seq<Event> {
    [Submit(mail)] + [Fail(0, message)] + [Fail(0, message)] + [Fail(0, message)]
  }

  lemma FirstJobFails(mail: Mail, message: string)
    ensures Sound(START) && Run(START, ThreeFailures(mail, message)) == OneRow(mail, message)
  {
    StartIsSound();
    hide Sound, Run;
    var fail := Fail(0, message);
    var s1 := Step(START, Submit(mail));
    StepKeeps(START, Submit(mail));
    var s2 := Step(s1, fail);
    StepKeeps(s1, fail);
    var s3 := Step(s2, fail);
    StepKeeps(s2, fail);
    RunOne(START, Submit(mail));
    RunOne(s1, fail);
    RunOne(s2, fail);
    RunOne(s3, fail);
    RunSplits(START, [Submit(mail)], [fail]);
    RunSplits(START, [Submit(mail)] + [fail], [fail]);
    RunSplits(START, [Submit(mail)] + [fail] + [fail], [fail]);
    assert s3.queue == map[0 := Job(MailJob(mail, None), 2)] && s3.queue - {0} == map[];
    assert Step(s3, fail) == OneRow(mail, message);
  }

  /** The row retried once: a retry of it is queued, and nothing refuses a second one. */
  lemma OneRetry(mail: Mail, message: string)
    ensures Sound(OneRow(mail, message))
    ensures var s := Step(OneRow(mail, message), Retry(0));
            && Sound(s) && 1 in s.queue && s.queue[1].data.retriedFromId == Some(0) && 0 in s.origin && s.origin[0] == 0
            && IsHasty(s, Retry(0))
  {
    FirstJobFails(mail, message);
    hide Sound, Run;
    var s := Step(OneRow(mail, message), Retry(0));
    StepKeeps(OneRow(mail, message), Retry(0));
    assert 1 in s.queue && s.queue[1].data.retriedFromId == Some(0);
  }

  /** A run from the start that delivers a mail twice. */
  lemma DeliveredTwice(mail: Mail, message: string) returns (run: seq<Event>)
    ensures Sound(START) && Run(START, run).delivered[0] >= 2
  {
    FirstJobFails(mail, message);
    OneRetry(mail, message);
    hide Sound, Run, Step, IsHasty, OneRow;
    var s := OneRow(mail, message);
    var t := Step(s, Retry(0));
    StepKeeps(t, Retry(0));
    var rest := HastyMayDeliverTwice(t, 0);
    RunOne(s, Retry(0));
    RunOne(t, Retry(0));
    run := ThreeFailures(mail, message) + [Retry(0)] + [Retry(0)] + rest;
    RunSplits(START, ThreeFailures(mail, message), [Retry(0)]);
    RunSplits(START, ThreeFailures(mail, message) + [Retry(0)], [Retry(0)]);
    RunSplits(START, ThreeFailures(mail, message) + [Retry(0)] + [Retry(0)], rest);
  }

  /** A run from the start that reopens an abandoned row. */
  lemma AbandonedIsReopened(mail: Mail, message: string) returns (before: seq<Event>, after: seq<Event>)
    ensures Sound(START) && IsAbandoned(Run(START, before), 0)
    ensures 0 in Run(START, before + after).rows && Run(START, before + after).rows[0].status == Pending
  {
    FirstJobFails(mail, message);
    OneRetry(mail, message);
    hide Sound, Run;
    var s := OneRow(mail, message);
    var t := Step(s, Retry(0));
    var a := Step(t, Abandon(0));
    StepKeeps(t, Abandon(0));
    assert IsAbandoned(a, 0) && 1 in a.queue && a.queue[1].data.retriedFromId == Some(0);
    hide Step, OneRow, IsAbandoned;
    after := FailedRetryReopens(a, 1, 0, message);
    before := ThreeFailures(mail, message) + [Retry(0)] + [Abandon(0)];
    RunOne(s, Retry(0));
    RunOne(t, Abandon(0));
    RunSplits(START, ThreeFailures(mail, message), [Retry(0)]);
    RunSplits(START, ThreeFailures(mail, message) + [Retry(0)], [Abandon(0)]);
    RunSplits(START, before, after);
  }

  // ---- the services ----

  class MailModule {
    var queue: map<nat, Job>
    var rows: map<nat, Row>
    var nextJob: nat
    var nextRow: nat
    ghost var submitted: map<nat, Mail>
    ghost var origin: map<nat, nat>
    ghost var savedAs: map<nat, nat>
    ghost var delivered: multiset<nat>

    ghost function View(): State
      reads this
    {
      State(queue, rows, nextJob, nextRow, submitted, origin, savedAs, delivered)
    }

    ghost predicate Valid()
      reads this
    {
      Sound(View())
    }

    constructor ()
      ensures Valid() && View() == START
    {
      queue, rows, nextJob, nextRow := map[], map[], 0, 0;
      submitted, origin, savedAs, delivered := map[], map[], map[], multiset{};
    }

    /** The `send…` methods only add a job. */
    method Send(mail: Mail)
      requires Valid()
      modifies this
      ensures Valid() && View() == Step(old(View()), Submit(mail))
      ensures old(nextJob) !in old(queue) && queue == old(queue)[old(nextJob) := Job(MailJob(mail, None), 0)]
      ensures rows == old(rows)
    {
      hide Sound;
      SubmittingKeeps(View(), mail);
      NextIsNew(View());
      queue := queue[nextJob := Job(MailJob(mail, None), 0)];
      submitted := submitted[nextJob := mail];
      nextJob := nextJob + 1;
    }

    /** An attempt of a queued job delivers its mail. */
    method AttemptSucceeds(j: nat)
      requires Valid()
      modifies this`queue, this`rows, this`delivered
      ensures Valid() && View() == Step(old(View()), Succeed(j))
      ensures queue == old(queue) - {j}
      ensures rows == if j in old(queue) && old(queue)[j].data.retriedFromId.Some?
                      then old(rows) - {old(queue)[j].data.retriedFromId.value} else old(rows)
      ensures j in old(queue) && old(queue)[j].data.retriedFromId.None? ==> delivered == old(delivered) + multiset{j}
    {
      hide Sound;
      if j !in queue {
        assert queue - {j} == queue;
        return;
      }
      SucceedingKeeps(View(), j);
      var job := queue[j];
      delivered := delivered + multiset{MailOf(View(), j)};
      queue := queue - {j};
      OnJobCompleted(job);
    }

    /** An attempt fails: the queue keeps the job while it has attempts left, and the event is raised either way. */
    method AttemptFails(j: nat, message: string)
      requires Valid()
      modifies this`queue, this`rows, this`nextRow, this`origin, this`savedAs
      ensures Valid() && View() == Step(old(View()), Fail(j, message))
      ensures j !in old(queue) ==> queue == old(queue) && rows == old(rows)
      // the first and second attempts: the job waits for the next
      ensures j in old(queue) && old(queue)[j].attemptsMade < 2 ==>
                && rows == old(rows)
                && queue == old(queue)[j := Job(old(queue)[j].data, old(queue)[j].attemptsMade + 1)]
      // the third: a new row has the mail, or the row of a retry is pending again if it is still there
      ensures j in old(queue) && old(queue)[j].attemptsMade >= 2 ==>
                var data := old(queue)[j].data;
                && queue == old(queue) - {j}
                && match data.retriedFromId
                   case None =>
                     && old(nextRow) !in old(rows)
                     && rows == old(rows)[old(nextRow) := Row(data.mail.kind, data.mail.to, data, message, 3, Pending)]
                   case Some(r) =>
                     if r in old(rows)
                     then rows == old(rows)[r := old(rows)[r].(status := Pending, lastError := message, attempts := 3)]
                     else rows == old(rows)
    {
      hide Sound;
      if j !in queue { return; }
      FailingKeeps(View(), j, message);
      FewAttempts(View(), j);
      var job := queue[j].(attemptsMade := queue[j].attemptsMade + 1);
      queue := if job.attemptsMade < ATTEMPTS then queue[j := job] else queue - {j};
      OnJobFailed(j, job, message);
    }

    method OnJobFailed(j: nat, job: Job, message: string)
      modifies this`rows, this`nextRow, this`origin, this`savedAs
      ensures job.attemptsMade < ATTEMPTS || job.data.retriedFromId.Some? ==>
                nextRow == old(nextRow) && origin == old(origin) && savedAs == old(savedAs)
      ensures job.attemptsMade < ATTEMPTS ==> rows == old(rows)
      ensures job.attemptsMade >= ATTEMPTS && job.data.retriedFromId.Some? ==>
                rows == Updated(old(rows), job.data.retriedFromId.value, message, job.attemptsMade)
      ensures job.attemptsMade >= ATTEMPTS && job.data.retriedFromId.None? ==>
                && nextRow == old(nextRow) + 1
                && rows == old(rows)[old(nextRow) := NewRow(job, message)]
                && origin == old(origin)[old(nextRow) := j] && savedAs == old(savedAs)[j := old(nextRow)]
    {
      if job.attemptsMade < ATTEMPTS { return; }
      if job.data.retriedFromId.Some? {
        UpdateFailedJob(job.data.retriedFromId.value, message, job.attemptsMade);
      } else {
        SaveFailedJob(j, job, message);
      }
    }

    method OnJobCompleted(job: Job)
      modifies this`rows
      ensures rows == if job.data.retriedFromId.Some? then old(rows) - {job.data.retriedFromId.value} else old(rows)
    {
      if job.data.retriedFromId.Some? {
        DeleteOnSuccess(job.data.retriedFromId.value);
      }
    }

    method SaveFailedJob(j: nat, job: Job, message: string)
      modifies this`rows, this`nextRow, this`origin, this`savedAs
      ensures nextRow == old(nextRow) + 1
      ensures rows == old(rows)[old(nextRow) := NewRow(job, message)]
      ensures origin == old(origin)[old(nextRow) := j] && savedAs == old(savedAs)[j := old(nextRow)]
    {
      rows := rows[nextRow := Row(job.data.mail.kind, job.data.mail.to, job.data, message, job.attemptsMade, Pending)];
      origin, savedAs := origin[nextRow := j], savedAs[j := nextRow];
      nextRow := nextRow + 1;
    }

    /** The row may be gone: then nothing is updated. */
    method UpdateFailedJob(r: nat, message: string, attempts: nat)
      modifies this`rows
      ensures rows == Updated(old(rows), r, message, attempts)
    {
      if r in rows {
        rows := rows[r := rows[r].(status := Pending, lastError := message, attempts := attempts)];
      }
    }

    method DeleteOnSuccess(r: nat)
      modifies this`rows
      ensures rows == old(rows) - {r}
    {
      rows := rows - {r};
    }

    /** The row stays as it is: the job is only put back in the queue. */
    method Retry(r: nat) returns (result: Result<(), Error>)
      requires Valid()
      modifies this`queue, this`nextJob
      ensures Valid() && View() == Step(old(View()), Event.Retry(r))
      ensures result == if r !in rows then Failure(NotFound)
                        else if rows[r].status != Pending then Failure(Conflict)
                        else Success(())
      ensures result.Failure? ==> queue == old(queue)
      ensures result.Success? ==>
                && old(nextJob) !in old(queue)
                && queue == old(queue)[old(nextJob) := Job(MailJob(rows[r].payload.mail, Some(r)), 0)]
    {
      hide Sound;
      if r !in rows { return Failure(NotFound); }
      if rows[r].status != Pending { return Failure(Conflict); }
      RetryingKeeps(View(), r);
      NextIsNew(View());
      queue := queue[nextJob := Job(rows[r].payload.(retriedFromId := Some(r)), 0)];
      nextJob := nextJob + 1;
      return Success(());
    }

    method Abandon(r: nat) returns (result: Result<(), Error>)
      requires Valid()
      modifies this`rows
      ensures Valid() && View() == Step(old(View()), Event.Abandon(r))
      ensures result == if r !in old(rows) then Failure(NotFound) else Success(())
      ensures rows == if r in old(rows) then old(rows)[r := old(rows)[r].(status := Abandoned)] else old(rows)
    {
      hide Sound;
      if r !in rows { return Failure(NotFound); }
      AbandoningKeeps(View(), r);
      rows := rows[r := rows[r].(status := Abandoned)];
      return Success(());
    }
  }
}
