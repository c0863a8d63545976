/**
 One-time codes and attempt limiting (src/auth/services/otp.service.ts, src/utils/redis.config.ts).

 A Redis key with an expiry reads as absent from its expiry on. `Step` says what each call does to the three keys of
 one operation and identifier; the class performs the calls on the key store; the lemmas bound, over every run, how
 many attempts are counted in any window of time.
 */
module OtpLimiter {
  import opened Wrappers

  datatype Operation = Login | Confirm | Reset | Pin

  /**
   Times are in seconds. `otpTtl` is None for operations that have no code of their own; `codeTtl` is the lifetime of
   the code that is sent, which for a PIN is the one of Confirm.
   */
  datatype Conf = Conf(maxAttempts: nat, lockDuration: nat, otpTtl: Option<nat>, codeTtl: nat)

  function ConfOf(op: Operation): Conf {
    match op
    case Login => Conf(5, 900, None, 600)
    case Confirm => Conf(5, 600, Some(600), 600)
    case Reset => Conf(3, 1800, Some(600), 600)
    case Pin => Conf(3, 3600, None, 600)
  }

  /** Lifetime of the attempt counter: `conf.otpTtl ?? conf.lockDuration`. */
  function Window(conf: Conf): nat {
    match conf.otpTtl
    case Some(ttl) => ttl
    case None => conf.lockDuration
  }

  /** Something may be attempted, and a lock outlives the counter; what the bounds below rest on. */
  predicate Sensible(conf: Conf) {
    conf.maxAttempts >= 1 && conf.lockDuration >= Window(conf)
  }

  datatype Timed<+T> = Timed(value: T, expireAt: int)

  /** The keys `otp:`, `att:` and `lock:` of one operation and identifier. */
  datatype Keys = Keys(otp: Option<Timed<string>>, att: Option<Timed<nat>>, lock: Option<Timed<()>>)

  predicate Live<T>(key: Option<Timed<T>>, now: int) {
    key.Some? && now < key.value.expireAt
  }

  datatype Call =
    | Send(code: string)      // sendConfirmOtp, sendResetOtp, sendPinOtp: a request for a code
    | Verify(code: string)    // verifyOtp
    | Failed                  // a wrong password or PIN: assertNotLocked, then incrementAttempt
    | ResetAttempts           // a successful login

  datatype Outcome =
    | Locked                  // refused before anything is counted
    | NoCode                  // verifyOtp finds no code
    | NowLocked               // counted, and over the limit
    | Counted                 // counted
    | Cleared                 // the counter is deleted

  predicate IsCounted(o: Outcome) {
    o.Counted? || o.NowLocked?
  }

  function Count(keys: Keys, now: int): nat {
    if Live(keys.att, now) then keys.att.value.value else 0
  }

  /** `incrementAttempt`: INCR, EXPIRE on the first, and the lock once over the limit. */
  function Increment(conf: Conf, keys: Keys, now: int): (Keys, Outcome) {
    var count := Count(keys, now) + 1;
    var expireAt := if count == 1 then now + Window(conf) else keys.att.value.expireAt;
    if count > conf.maxAttempts
    then (keys.(att := None, lock := Some(Timed((), now + conf.lockDuration))), NowLocked)
    else (keys.(att := Some(Timed(count, expireAt))), Counted)
  }

  function Step(conf: Conf, keys: Keys, call: Call, now: int): (Keys, Outcome) {
    if call.ResetAttempts? then (keys.(att := None), Cleared)
    else if Live(keys.lock, now) then (keys, Locked)
    else match call
      case Send(code) =>
        var (k, outcome) := Increment(conf, keys, now);
        if outcome.Counted? then (k.(otp := Some(Timed(code, now + conf.codeTtl))), outcome) else (k, outcome)
      case Verify(code) =>
        if !Live(keys.otp, now) then (keys, NoCode)
        else if keys.otp.value.value != code then Increment(conf, keys, now)
        else (keys.(otp := None, att := None), Cleared)
      case _ => Increment(conf, keys, now)
  }

  // ---- the key store ----

  type Key = (Operation, string)

  class OtpService {
    var otp: map<Key, Timed<string>>
    var att: map<Key, Timed<nat>>
    var lock: map<Key, Timed<()>>

    constructor ()
      ensures forall key :: KeysOf(key) == Keys(None, None, None)
    {
      otp, att, lock := map[], map[], map[];
    }

    function KeysOf(key: Key): Keys
      reads this
    {
      Keys(if key in otp then Some(otp[key]) else None,
           if key in att then Some(att[key]) else None,
           if key in lock then Some(lock[key]) else None)
    }

    /** Nothing changes for any other operation and identifier. */
    twostate predicate OthersUnchanged(key: Key)
      reads this
    {
      otp - {key} == old(otp - {key}) && att - {key} == old(att - {key}) && lock - {key} == old(lock - {key})
    }

    method AssertNotLocked(key: Key, now: int) returns (ok: bool)
      ensures ok <==> !Live(KeysOf(key).lock, now)
    {
      ok := !(key in lock && now < lock[key].expireAt);
    }

    method IncrementAttempt(key: Key, now: int) returns (o: Outcome)
      modifies this`att, this`lock
      ensures (KeysOf(key), o) == Increment(ConfOf(key.0), old(KeysOf(key)), now)
      ensures OthersUnchanged(key)
    {
      var conf := ConfOf(key.0);
      var count := 1;
      if key in att && now < att[key].expireAt {
        count := att[key].value + 1;
      }
      if count == 1 {
        att := att[key := Timed(1, now + Window(conf))];
      } else {
        att := att[key := Timed(count, att[key].expireAt)];
      }
      if count > conf.maxAttempts {
        lock := lock[key := Timed((), now + conf.lockDuration)];
        att := att - {key};
        return NowLocked;
      }
      return Counted;
    }

    /** The three senders differ in their operation; the mail itself is not modelled. */
    method SendOtp(key: Key, code: string, now: int) returns (o: Outcome)
      modifies this
      ensures (KeysOf(key), o) == Step(ConfOf(key.0), old(KeysOf(key)), Send(code), now)
      ensures o == Locked <==> key in old(lock) && now < old(lock)[key].expireAt
      ensures o == Counted ==> key in otp && otp[key] == Timed(code, now + ConfOf(key.0).codeTtl)
      ensures o != Counted ==> otp == old(otp)
      ensures OthersUnchanged(key)
    {
      var ok := AssertNotLocked(key, now);
      if !ok { return Locked; }
      o := IncrementAttempt(key, now);
      if o == NowLocked { return; }
      otp := otp[key := Timed(code, now + ConfOf(key.0).codeTtl)];
    }

    method VerifyOtp(key: Key, code: string, now: int) returns (o: Outcome)
      modifies this
      ensures (KeysOf(key), o) == Step(ConfOf(key.0), old(KeysOf(key)), Verify(code), now)
      ensures var locked := key in old(lock) && now < old(lock)[key].expireAt;
              var alive := key in old(otp) && now < old(otp)[key].expireAt;
              && (o == Locked <==> locked)
              && (o == NoCode <==> !locked && !alive)
              && (o == Cleared <==> !locked && alive && old(otp)[key].value == code)
              && (o == Cleared ==> key !in otp && key !in att)
              && (o != Cleared ==> otp == old(otp))
      ensures OthersUnchanged(key)
    {
      var ok := AssertNotLocked(key, now);
      if !ok { return Locked; }
      if !(key in otp && now < otp[key].expireAt) { return NoCode; }
      if otp[key].value != code {
        o := IncrementAttempt(key, now);
        return;
      }
      otp := otp - {key};
      att := att - {key};
      return Cleared;
    }

    method CountFailure(key: Key, now: int) returns (o: Outcome)
      modifies this
      ensures (KeysOf(key), o) == Step(ConfOf(key.0), old(KeysOf(key)), Failed, now)
      ensures OthersUnchanged(key)
    {
      var ok := AssertNotLocked(key, now);
      if !ok { return Locked; }
      o := IncrementAttempt(key, now);
    }

    method ResetAttempts(key: Key, now: int) returns (o: Outcome)
      modifies this`att
      ensures (KeysOf(key), o) == Step(ConfOf(key.0), old(KeysOf(key)), Call.ResetAttempts, now)
      ensures OthersUnchanged(key)
    {
      att := att - {key};
      return Cleared;
    }
  }

  // ---- runs ----

  datatype Event = Event(call: Call, now: int)

  /** Times never go back. */
  predicate Chronological(run: seq<Event>) {
    forall i, j :: 0 <= i < j < |run| ==> run[i].now <= run[j].now
  }

  /** The keys after a run, from an empty store. */
  function After(conf: Conf, run: seq<Event>): Keys {
    if run == [] then Keys(None, None, None)
    else
      var e := run[|run| - 1];
      Step(conf, After(conf, run[..|run| - 1]), e.call, e.now).0
  }

  /** What the last call of a run did. */
  function LastOutcome(conf: Conf, run: seq<Event>): Outcome
    requires run != []
  {
    var e := run[|run| - 1];
    Step(conf, After(conf, run[..|run| - 1]), e.call, e.now).1
  }

  predicate Within(a: int, now: int, w: nat) {
    a <= now < a + w
  }

  /** How many calls of the run were counted as attempts at a time in `[a, a + w)`. */
  function Attempts(conf: Conf, run: seq<Event>, a: int, w: nat): (n: nat) {
    if run == [] then 0
    else Attempts(conf, run[..|run| - 1], a, w)
         + if Within(a, run[|run| - 1].now, w) && IsCounted(LastOutcome(conf, run)) then 1 else 0
  }

  /** `n` for each call of the run that deleted the counter at a time in `[a, a + w)`. */
  function PerReset(conf: Conf, run: seq<Event>, a: int, w: nat, n: nat): (total: nat) {
    if run == [] then 0
    else PerReset(conf, run[..|run| - 1], a, w, n)
         + if Within(a, run[|run| - 1].now, w) && LastOutcome(conf, run).Cleared? then n else 0
  }

  /** What call `i` of a run did. */
  function OutcomeAt(conf: Conf, run: seq<Event>, i: nat): Outcome
    requires i < |run|
  {
    LastOutcome(conf, run[..i + 1])
  }

  lemma OutcomeStays(conf: Conf, run: seq<Event>, i: nat)
    requires i < |run| - 1
    ensures OutcomeAt(conf, run[..|run| - 1], i) == OutcomeAt(conf, run, i)
  {
    assert run[..|run| - 1][..i + 1] == run[..i + 1];
  }

  lemma LastOutcomeIs(conf: Conf, run: seq<Event>)
    requires run != []
    ensures OutcomeAt(conf, run, |run| - 1) == LastOutcome(conf, run)
  {
    assert run[..|run|] == run;
  }

  // ---- when a call is refused ----

  /** Call `i` locked, and its lock would still be alive at `now`. */
  predicate LocksUntil(conf: Conf, run: seq<Event>, i: nat, now: int) {
    i < |run| && OutcomeAt(conf, run, i).NowLocked? && now < run[i].now + conf.lockDuration
  }

  /** A call of the run went over the limit less than the lock's duration before `now`. */
  ghost predicate WasLocked(conf: Conf, run: seq<Event>, now: int) {
    exists i: nat :: LocksUntil(conf, run, i, now)
  }

  lemma {:induction false} LockTracks(conf: Conf, run: seq<Event>, now: int)
    requires Chronological(run) && (run != [] ==> run[|run| - 1].now <= now)
    ensures Live(After(conf, run).lock, now) <==> WasLocked(conf, run, now)
  {
    hide Step, Increment;
    if run != [] {
      var before, e := run[..|run| - 1], run[|run| - 1];
      LockTracks(conf, before, now);
      LastOutcomeIs(conf, run);
      StepLocks(conf, After(conf, before), e.call, e.now);
      forall i: nat | i < |before| ensures LocksUntil(conf, run, i, now) <==> LocksUntil(conf, before, i, now) {
        OutcomeStays(conf, run, i);
      }
      hide After, LastOutcome, OutcomeAt;
      if LastOutcome(conf, run).NowLocked? {
        if LocksUntil(conf, run, |before|, now) {}
        forall i: nat | LocksUntil(conf, run, i, now) ensures now < e.now + conf.lockDuration {}
      } else {
        forall i: nat | LocksUntil(conf, run, i, now) ensures LocksUntil(conf, before, i, now) {}
      }
    }
  }

  lemma StepLocks(conf: Conf, keys: Keys, call: Call, now: int)
    ensures var (k, o) := Step(conf, keys, call, now);
            k.lock == if o.NowLocked? then Some(Timed((), now + conf.lockDuration)) else keys.lock
  {
  }

  /** A call is refused if and only if a call of the last `lockDuration` seconds went over the limit. */
  lemma RefusedIff(conf: Conf, run: seq<Event>)
    requires Chronological(run) && run != [] && !run[|run| - 1].call.ResetAttempts?
    ensures LastOutcome(conf, run).Locked? <==> WasLocked(conf, run[..|run| - 1], run[|run| - 1].now)
  {
    LockTracks(conf, run[..|run| - 1], run[|run| - 1].now);
  }

  // ---- which code is accepted ----

  predicate SendsCode(conf: Conf, run: seq<Event>, i: nat) {
    i < |run| && run[i].call.Send? && OutcomeAt(conf, run, i).Counted?
  }

  predicate UsesCode(conf: Conf, run: seq<Event>, i: nat) {
    i < |run| && run[i].call.Verify? && OutcomeAt(conf, run, i).Cleared?
  }

  /** Call `i` is the latest that sent a code, and no code was used since. */
  ghost predicate Outstanding(conf: Conf, run: seq<Event>, i: nat) {
    SendsCode(conf, run, i) && forall j: nat :: i < j < |run| ==> !SendsCode(conf, run, j) && !UsesCode(conf, run, j)
  }

  lemma StepSends(conf: Conf, keys: Keys, call: Call, now: int)
    ensures var (k, o) := Step(conf, keys, call, now);
            k.otp == if call.Send? && o.Counted? then Some(Timed(call.code, now + conf.codeTtl))
                     else if call.Verify? && o.Cleared? then None else keys.otp
  {
  }

  lemma OutstandingLater(conf: Conf, run: seq<Event>, i: nat)
    requires run != []
    ensures var last := |run| - 1;
            Outstanding(conf, run, i) <==>
            if SendsCode(conf, run, last) then i == last
            else !UsesCode(conf, run, last) && Outstanding(conf, run[..last], i)
  {
    var before, last := run[..|run| - 1], |run| - 1;
    forall j: nat | j < last
      ensures SendsCode(conf, run, j) == SendsCode(conf, before, j) && UsesCode(conf, run, j) == UsesCode(conf, before, j)
    {
      OutcomeStays(conf, run, j);
    }
    hide OutcomeAt, LastOutcome;
  }

  /** The stored code is the one of the outstanding call. */
  lemma {:induction false} CodeTracks(conf: Conf, run: seq<Event>)
    ensures match After(conf, run).otp
            case None => forall i: nat :: !Outstanding(conf, run, i)
            case Some(code) => exists i: nat :: Outstanding(conf, run, i)
                                              && code == Timed(run[i].call.code, run[i].now + conf.codeTtl)
  {
    hide Step;
    if run != [] {
      var before, e := run[..|run| - 1], run[|run| - 1];
      CodeTracks(conf, before);
      LastOutcomeIs(conf, run);
      StepSends(conf, After(conf, before), e.call, e.now);
      forall i: nat { OutstandingLater(conf, run, i); }
      hide OutcomeAt, LastOutcome, Outstanding;
      if SendsCode(conf, run, |before|) {
        assert Outstanding(conf, run, |before|);
      }
    }
  }

  /**
   A code is accepted if and only if the call is not refused, and the latest code sent is this one, younger than its
   lifetime and not used since.
   */
  lemma AcceptedIff(conf: Conf, run: seq<Event>)
    requires Chronological(run) && run != [] && run[|run| - 1].call.Verify?
    ensures var before, e := run[..|run| - 1], run[|run| - 1];
            LastOutcome(conf, run).Cleared? <==>
            && !WasLocked(conf, before, e.now)
            && exists i: nat :: Outstanding(conf, before, i) && before[i].call.code == e.call.code
                                && e.now < before[i].now + conf.codeTtl
  {
    var before, e := run[..|run| - 1], run[|run| - 1];
    LockTracks(conf, before, e.now);
    CodeTracks(conf, before);
    VerifyClears(conf, After(conf, before), e.call.code, e.now);
    forall i: nat, j: nat | Outstanding(conf, before, i) && Outstanding(conf, before, j) ensures i == j {}
    hide Outstanding, WasLocked, Step;
  }

  lemma VerifyClears(conf: Conf, keys: Keys, code: string, now: int)
    ensures Step(conf, keys, Verify(code), now).1.Cleared?
            <==> !Live(keys.lock, now) && Live(keys.otp, now) && keys.otp.value.value == code
  {
  }

  /** Between two codes accepted, one was sent: each sent code is accepted once at most. */
  lemma EachCodeOnce(conf: Conf, run: seq<Event>, i: nat, j: nat)
    requires Chronological(run) && i < j && UsesCode(conf, run, i) && UsesCode(conf, run, j)
    ensures exists k: nat :: i < k < j && SendsCode(conf, run, k) && run[k].call.code == run[j].call.code
  {
    var upTo := run[..j + 1];
    var before := upTo[..|upTo| - 1];
    assert before == run[..j] && upTo[|upTo| - 1] == run[j];
    AcceptedIff(conf, upTo);
    var k: nat :| Outstanding(conf, before, k) && before[k].call.code == run[j].call.code;
    SameOutcome(conf, run, j, i);
    SameOutcome(conf, run, j, k);
    assert UsesCode(conf, before, i);
    assert SendsCode(conf, run, k);
  }

  lemma SameOutcome(conf: Conf, run: seq<Event>, j: nat, i: nat)
    requires i < j <= |run|
    ensures OutcomeAt(conf, run[..j], i) == OutcomeAt(conf, run, i)
  {
    assert run[..j][..i + 1] == run[..i + 1];
  }

  /** A counter never exceeds the limit, and no counter lives while the lock does. */
  ghost predicate Sound(conf: Conf, keys: Keys, now: int) {
    && (keys.att.Some? ==> 1 <= keys.att.value.value <= conf.maxAttempts)
    && (keys.att.Some? ==> keys.att.value.expireAt <= now + Window(conf))
    && (Live(keys.lock, now) ==> keys.att.None?)
  }

  lemma {:induction false} AlwaysSound(conf: Conf, run: seq<Event>, now: int)
    requires Sensible(conf)
    requires Chronological(run) && (run != [] ==> run[|run| - 1].now <= now)
    ensures Sound(conf, After(conf, run), now)
  {
    if run != [] {
      AlwaysSound(conf, run[..|run| - 1], run[|run| - 1].now);
    }
  }

  /**
   While the window that begins at `a` is open: what the keys say about the attempts counted in it so far. `r` is
   what the resets of the window allow.
   */
  ghost predicate Accounted(conf: Conf, keys: Keys, now: int, a: int, attempts: nat, r: nat) {
    var n, w := conf.maxAttempts, Window(conf);
    if now < a then attempts == 0
    else if keys.lock.Some? && keys.lock.value.expireAt >= a + w then attempts <= 2 * n + r
    else if !Live(keys.att, now) then attempts <= n - 1 + r
    else if keys.att.value.expireAt < a + w then attempts <= keys.att.value.value - 1
    else attempts <= n - 1 + keys.att.value.value + r
  }

  lemma StepAccounted(conf: Conf, keys: Keys, call: Call, now: int, a: int, attempts: nat, r: nat)
    requires Sensible(conf)
    requires now < a + Window(conf)
    requires Sound(conf, keys, now) && Accounted(conf, keys, now, a, attempts, r)
    ensures var n := conf.maxAttempts;
            var (k, o) := Step(conf, keys, call, now);
            Accounted(conf, k, now, a,
                      attempts + (if a <= now && IsCounted(o) then 1 else 0),
                      r + if a <= now && o.Cleared? then n else 0)
  {
  }

  lemma LaterAccounted(conf: Conf, keys: Keys, now: int, later: int, a: int, attempts: nat, r: nat)
    requires Sensible(conf)
    requires now <= later < a + Window(conf)
    requires Sound(conf, keys, now) && Accounted(conf, keys, now, a, attempts, r)
    ensures Accounted(conf, keys, later, a, attempts, r)
  {
  }

  lemma {:induction false} WindowAccounted(conf: Conf, run: seq<Event>, a: int, now: int)
    requires Sensible(conf)
    requires Chronological(run) && (run != [] ==> run[|run| - 1].now <= now)
    requires now < a + Window(conf)
    ensures var n, w := conf.maxAttempts, Window(conf);
            Accounted(conf, After(conf, run), now, a, Attempts(conf, run, a, w), PerReset(conf, run, a, w, n))
  {
    if run != [] {
      var before, last := run[..|run| - 1], run[|run| - 1];
      WindowAccounted(conf, before, a, last.now);
      AlwaysSound(conf, before, last.now);
      AlwaysSound(conf, run, last.now);
      var n, w := conf.maxAttempts, Window(conf);
      StepAccounted(conf, After(conf, before), last.call, last.now, a,
                    Attempts(conf, before, a, w), PerReset(conf, before, a, w, n));
      LaterAccounted(conf, After(conf, run), last.now, now, a, Attempts(conf, run, a, w), PerReset(conf, run, a, w, n));
    }
  }

  /**
   In every run, every window of the counter's lifetime holds at most `2 * maxAttempts` counted attempts, plus
   `maxAttempts` for each time the counter is deleted in it by a success.
   */
  lemma {:induction false} AttemptsBounded(conf: Conf, run: seq<Event>, a: int)
    requires Sensible(conf)
    requires Chronological(run)
    ensures var n, w := conf.maxAttempts, Window(conf);
            Attempts(conf, run, a, w) <= 2 * n + PerReset(conf, run, a, w, n)
  {
    if run != [] {
      var last := run[|run| - 1];
      if last.now < a + Window(conf) {
        WindowAccounted(conf, run, a, last.now);
        AlwaysSound(conf, run, last.now);
      } else {
        AttemptsBounded(conf, run[..|run| - 1], a);
      }
    }
  }

  predicate NoReset(conf: Conf, run: seq<Event>) {
    run == [] || (!LastOutcome(conf, run).Cleared? && NoReset(conf, run[..|run| - 1]))
  }

  lemma {:induction false} NoResetAllowsNothing(conf: Conf, run: seq<Event>, a: int, w: nat, n: nat)
    requires NoReset(conf, run)
    ensures PerReset(conf, run, a, w, n) == 0
  {
    if run != [] {
      NoResetAllowsNothing(conf, run[..|run| - 1], a, w, n);
    }
  }

  /** Without a success, at most `2 * maxAttempts` attempts are counted in any window. */
  lemma AttemptsBoundedWithoutReset(conf: Conf, run: seq<Event>, a: int)
    requires Sensible(conf)
    requires Chronological(run) && NoReset(conf, run)
    ensures Attempts(conf, run, a, Window(conf)) <= 2 * conf.maxAttempts
  {
    AttemptsBounded(conf, run, a);
    NoResetAllowsNothing(conf, run, a, Window(conf), conf.maxAttempts);
  }

  lemma OneMoreEvent(conf: Conf, run: seq<Event>, e: Event, a: int, w: nat)
    ensures var (k, o) := Step(conf, After(conf, run), e.call, e.now);
            && After(conf, run + [e]) == k
            && LastOutcome(conf, run + [e]) == o
            && Attempts(conf, run + [e], a, w)
               == Attempts(conf, run, a, w) + (if Within(a, e.now, w) && IsCounted(o) then 1 else 0)
            && (NoReset(conf, run + [e]) <==> NoReset(conf, run) && !o.Cleared?)
  {
    assert (run + [e])[..|run|] == run;
  }

  lemma EmptyRun(conf: Conf, a: int, w: nat)
    ensures After(conf, []) == Keys(None, None, None) && Attempts(conf, [], a, w) == 0 && NoReset(conf, [])
  {
  }

  /** All four operations are sensible. */
  lemma OperationsAreSensible(op: Operation)
    ensures Sensible(ConfOf(op)) && Window(ConfOf(op)) >= 2
  {
  }

  /** The time of attempt `i` of the run that reaches the bound. */
  function TimeOf(conf: Conf, i: nat): int {
    var n, w := conf.maxAttempts, Window(conf);
    if i == 0 then 0 else if i < n then w - 1 else w
  }

  /**
   The bound is reached for every configuration whose counter lives at least two seconds, and for one second if a single
   attempt is allowed, by requests for a code or by failures: in the window that begins at second 1, `2 * maxAttempts`
   attempts are counted. (A wrong code counts only while a code that was requested is alive.)
   */
  lemma BoundIsReached(conf: Conf, call: Call) returns (run: seq<Event>)
    requires Sensible(conf) && (call.Send? || call.Failed?)
    requires Window(conf) >= 2 || (Window(conf) == 1 && conf.maxAttempts == 1)
    ensures Chronological(run) && NoReset(conf, run)
    ensures forall i :: 0 <= i < |run| ==> run[i].call == call
    ensures Attempts(conf, run, 1, Window(conf)) == 2 * conf.maxAttempts
  {
    hide After, Attempts, LastOutcome, NoReset;
    var n, w := conf.maxAttempts, Window(conf);
    run := [];
    EmptyRun(conf, 1, w);
    while |run| < 2 * n + 1
      invariant |run| <= 2 * n + 1 && Chronological(run) && NoReset(conf, run)
      invariant forall i :: 0 <= i < |run| ==> run[i] == Event(call, TimeOf(conf, i))
      invariant var k := After(conf, run);
                && k.att == (if |run| == 0 || |run| == 2 * n + 1 then None
                             else if |run| <= n then Some(Timed(|run|, w)) else Some(Timed(|run| - n, 2 * w)))
                && (|run| < 2 * n + 1 ==> k.lock == None)
      invariant Attempts(conf, run, 1, w) == if |run| == 0 then 0 else |run| - 1
      decreases 2 * n + 1 - |run|
    {
      var e := Event(call, TimeOf(conf, |run|));
      OneMoreEvent(conf, run, e, 1, w);
      run := run + [e];
    }
  }
}
