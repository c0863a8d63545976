/**
 The tool loop of the language-model engine (src/assistant/services/llm-chat-bot.service.ts).

 The model and the tools may do anything: the n-th call of each gives the n-th of arbitrary outcomes.
 */
module ToolLoop {
  import opened Wrappers
  import opened Text

  const MAX_TOOL_ROUNDS := 5
  const CALL_TIMEOUT_MS := 20000
  const TOTAL_TIMEOUT_MS := 60000
  const MIN_RETRY_BUDGET_MS := 5000

  // ---- the transcript ----

  datatype ToolCall = ToolCall(id: string, name: string, arguments: string)

  datatype Message =
    | System(content: string)
    | User(content: string)
    | Assistant(content: string, calls: seq<ToolCall>)
    | Tool(callId: string, content: string)

  predicate IsAnswered(calls: seq<ToolCall>, next: seq<Message>) {
    |calls| <= |next| && forall k :: 0 <= k < |calls| ==> next[k].Tool? && next[k].callId == calls[k].id
  }

  /** Every tool call is answered at once, in order, by the messages that follow it; no other tool message occurs. */
  predicate WellFormed(ms: seq<Message>)
    decreases |ms|
  {
    if ms == [] then true
    else
      match ms[0]
      case Tool(_, _) => false
      case Assistant(_, calls) =>
        IsAnswered(calls, ms[1..]) && WellFormed(ms[1..][|calls|..])
      case _ => WellFormed(ms[1..])
  }

  lemma StaysAnswered(calls: seq<ToolCall>, next: seq<Message>, more: seq<Message>)
    requires IsAnswered(calls, next)
    ensures IsAnswered(calls, next + more) && (next + more)[|calls|..] == next[|calls|..] + more
  {
  }

  lemma {:induction false} WellFormedConcat(a: seq<Message>, b: seq<Message>)
    requires WellFormed(a) && WellFormed(b)
    ensures WellFormed(a + b)
    decreases |a|
  {
    if a == [] {
      assert a + b == b;
    } else {
      assert (a + b)[0] == a[0] && (a + b)[1..] == a[1..] + b;
      if a[0].Assistant? {
        StaysAnswered(a[0].calls, a[1..], b);
        hide IsAnswered;
        WellFormedConcat(a[1..][|a[0].calls|..], b);
      } else {
        WellFormedConcat(a[1..], b);
      }
    }
  }

  /** The history the loop starts from. */
  predicate IsPlain(ms: seq<Message>) {
    forall i :: 0 <= i < |ms| ==> !ms[i].Tool? && (ms[i].Assistant? ==> ms[i].calls == [])
  }

  lemma {:induction false} PlainIsWellFormed(ms: seq<Message>)
    requires IsPlain(ms)
    ensures WellFormed(ms)
    decreases |ms|
  {
    if ms != [] {
      PlainIsWellFormed(ms[1..]);
      assert ms[1..][0..] == ms[1..];
    }
  }

  /** A call as it was carried out. */
  datatype Trace = Trace(call: ToolCall, result: string, effect: Effect)

  function Answers(trace: seq<Trace>): (ms: seq<Message>) {
    seq(|trace|, k requires 0 <= k < |trace| => Tool(trace[k].call.id, trace[k].result))
  }

  function CallsOf(trace: seq<Trace>): (calls: seq<ToolCall>) {
    seq(|trace|, k requires 0 <= k < |trace| => trace[k].call)
  }

  lemma RoundKeepsWellFormed(ms: seq<Message>, content: string, trace: seq<Trace>)
    requires WellFormed(ms)
    ensures WellFormed(ms + [Assistant(content, CallsOf(trace))] + Answers(trace))
  {
    var round := [Assistant(content, CallsOf(trace))] + Answers(trace);
    assert round[1..] == Answers(trace) && round[1..][|trace|..] == [];
    WellFormedConcat(ms, round);
    assert ms + [Assistant(content, CallsOf(trace))] + Answers(trace) == ms + round;
  }

  // ---- what the tools do to the run ----

  /** Buttons to offer; a link to the request form; an escalation that reached the conversation. */
  datatype Effect = Nothing | Offers(options: seq<string>) | Links(url: string) | Escalates

  datatype Run = Run(reEscalated: bool, options: Option<seq<string>>, url: Option<string>)

  function Escalations(effects: seq<Effect>): (n: nat) {
    if effects == [] then 0
    else Escalations(effects[..|effects| - 1]) + if effects[|effects| - 1].Escalates? then 1 else 0
  }

  function Closing(reaches: bool): Effect {
    if reaches then Escalates else Nothing
  }

  function Apply(run: Run, alreadyEscalated: bool, effect: Effect): Run {
    match effect
    case Nothing => run
    case Offers(options) => run.(options := Some(options))
    case Links(url) => run.(url := Some(url), options := None)
    case Escalates => run.(reEscalated := run.reEscalated || alreadyEscalated, options := None)
  }

  /** The run after `effects`, in a conversation that was escalated before, or was not. */
  function RunAfter(was: bool, effects: seq<Effect>): Run {
    if effects == [] then Run(false, None, None)
    else
      var before := effects[..|effects| - 1];
      Apply(RunAfter(was, before), was || Escalations(before) > 0, effects[|effects| - 1])
  }

  lemma AppendEffect(was: bool, effects: seq<Effect>, e: Effect)
    ensures RunAfter(was, effects + [e]) == Apply(RunAfter(was, effects), was || Escalations(effects) > 0, e)
    ensures Escalations(effects + [e]) == Escalations(effects) + if e.Escalates? then 1 else 0
  {
    assert (effects + [e])[..|effects|] == effects;
  }

  /** The run counts as escalated again once the conversation has been escalated twice, before or during it. */
  lemma {:induction false} ReEscalatedIff(was: bool, effects: seq<Effect>)
    ensures RunAfter(was, effects).reEscalated <==> Escalations(effects) + (if was then 1 else 0) >= 2
  {
    if effects != [] {
      ReEscalatedIff(was, effects[..|effects| - 1]);
    }
  }

  /** A reply that is not withheld although it ends with an escalation follows the only one there was. */
  lemma ClosedOnce(was: bool, effects: seq<Effect>, reaches: bool)
    ensures !RunAfter(was, effects + [Closing(reaches)]).reEscalated && reaches ==>
              !was && Escalations(effects + [Closing(reaches)]) == 1
  {
    ReEscalatedIff(was, effects + [Closing(reaches)]);
    AppendEffect(was, effects, Closing(reaches));
  }

  /** A link, once given, is replaced only by a later one. */
  lemma {:induction false} LinkIsTheLast(was: bool, effects: seq<Effect>, k: nat)
    requires k < |effects| && effects[k].Links? && forall i :: k < i < |effects| ==> !effects[i].Links?
    ensures RunAfter(was, effects).url == Some(effects[k].url)
  {
    if k < |effects| - 1 {
      LinkIsTheLast(was, effects[..|effects| - 1], k);
    }
  }

  /** There is a link if and only if some tool gave one. */
  lemma {:induction false} LinkIffGiven(was: bool, effects: seq<Effect>)
    ensures RunAfter(was, effects).url.Some? <==> exists k :: 0 <= k < |effects| && effects[k].Links?
  {
    if effects != [] {
      var before := effects[..|effects| - 1];
      LinkIffGiven(was, before);
      assert forall k :: 0 <= k < |before| ==> before[k] == effects[k];
      assert effects[|effects| - 1].Links? ==> RunAfter(was, effects).url.Some?;
      if k :| 0 <= k < |before| && before[k].Links? { assert effects[k].Links?; }
    }
  }

  /** The buttons are those of the last effect but for plain ones, if that offers any. */
  lemma {:induction false} ButtonsAreLast(was: bool, effects: seq<Effect>, k: nat)
    requires k < |effects| && !effects[k].Nothing? && forall i :: k < i < |effects| ==> effects[i].Nothing?
    ensures RunAfter(was, effects).options == if effects[k].Offers? then Some(effects[k].options) else None
  {
    if k < |effects| - 1 {
      ButtonsAreLast(was, effects[..|effects| - 1], k);
    }
  }

  lemma {:induction false} NoButtons(was: bool, effects: seq<Effect>)
    requires forall i :: 0 <= i < |effects| ==> !effects[i].Offers?
    ensures RunAfter(was, effects).options.None?
  {
    if effects != [] { NoButtons(was, effects[..|effects| - 1]); }
  }

  // ---- the link to the request form ----

  function Escaped(url: string): (r: string)
    ensures '(' !in r && ')' !in r
  {
    if url == "" then ""
    else (if url[0] == '(' then "%28" else if url[0] == ')' then "%29" else [url[0]]) + Escaped(url[1..])
  }

  /** The text with `%28` and `%29` read as parentheses. */
  function Unescaped(s: string): (r: string)
    decreases |s|
  {
    if s == "" then ""
    else if |s| >= 3 && s[0] == '%' && s[1] == '2' && s[2] == '8' then "(" + Unescaped(s[3..])
    else if |s| >= 3 && s[0] == '%' && s[1] == '2' && s[2] == '9' then ")" + Unescaped(s[3..])
    else [s[0]] + Unescaped(s[1..])
  }

  lemma EscapedHead(s: string)
    ensures Escaped(s) == "" <==> s == ""
    ensures s != "" && s[0] != '(' && s[0] != ')' ==> Escaped(s) == [s[0]] + Escaped(s[1..])
    ensures s != "" && (s[0] == '(' || s[0] == ')') ==> Escaped(s)[0] == '%'
  {
  }

  /** An escaped address means what the address meant: with the parentheses put back, they are the same text. */
  lemma {:induction false} EscapingKeepsMeaning(url: string)
    ensures Unescaped(Escaped(url)) == Unescaped(url)
    decreases |url|
  {
    if url != "" {
      EscapedHead(url);
      if url[0] == '(' || url[0] == ')' {
        assert Escaped(url)[3..] == Escaped(url[1..]);
        EscapingKeepsMeaning(url[1..]);
      } else if url[0] == '%' && |url| >= 3 && url[1] == '2' && (url[2] == '8' || url[2] == '9') {
        EscapedHead(url[1..]);
        EscapedHead(url[2..]);
        assert url[1..][1..] == url[2..] && url[2..][1..] == url[3..];
        assert Escaped(url) == [url[0]] + ([url[1]] + ([url[2]] + Escaped(url[3..])));
        assert Escaped(url)[3..] == Escaped(url[3..]);
        EscapingKeepsMeaning(url[3..]);
      } else {
        NoNewEscape(url);
        assert Escaped(url)[1..] == Escaped(url[1..]);
        EscapingKeepsMeaning(url[1..]);
      }
    }
  }

  /** Escaping makes no `%28` or `%29` out of characters that stay. */
  lemma NoNewEscape(url: string)
    requires url != "" && url[0] != '(' && url[0] != ')'
    requires !(url[0] == '%' && |url| >= 3 && url[1] == '2' && (url[2] == '8' || url[2] == '9'))
    ensures var e := Escaped(url); !(e[0] == '%' && |e| >= 3 && e[1] == '2' && (e[2] == '8' || e[2] == '9'))
  {
    var e, rest := Escaped(url), url[1..];
    EscapedHead(url);
    EscapedHead(rest);
    if rest != "" && rest[0] == '2' {
      EscapedHead(rest[1..]);
      assert e == [url[0]] + ([rest[0]] + Escaped(rest[1..]));
      if rest[1..] != "" { assert rest[1..][0] == url[2]; }
    }
  }

  /** Without parentheses nothing is escaped. */
  lemma {:induction false} PlainAddressStays(url: string)
    requires '(' !in url && ')' !in url
    ensures Escaped(url) == url
  {
    if url != "" { PlainAddressStays(url[1..]); }
  }

  const LINK_LABEL := "\n\n[Finaliser ma demande →]"

  function WithRequestLink(body: string, run: Run): string {
    if run.url.None? || run.url.value == "" then body
    else body + LINK_LABEL + "(" + Escaped(run.url.value) + ")"
  }

  /** Without a link the text is as it was; with one it is followed by the label and the escaped address. */
  lemma LinkedBody(body: string, run: Run)
    ensures run.url.None? || run.url.value == "" ==> WithRequestLink(body, run) == body
    ensures run.url.Some? && run.url.value != "" ==>
              WithRequestLink(body, run) == body + "\n\n[Finaliser ma demande →](" + Escaped(run.url.value) + ")"
  {
    hide Escaped;
    assert body + LINK_LABEL + "(" == body + "\n\n[Finaliser ma demande →](";
  }

  /** A reader that takes the target of a link up to the next closing parenthesis takes all of it, and nothing else. */
  lemma LinkIsWhole(body: string, run: Run)
    requires run.url.Some? && run.url.value != ""
    ensures var s := WithRequestLink(body, run);
            var start := |body + LINK_LABEL|;
            && |s| > start && s[..start] == body + LINK_LABEL && s[start] == '('
            && UpTo(s[start + 1..], ')') == Escaped(run.url.value)
            && After(s[start + 1..], ')') == ""
  {
    var s := WithRequestLink(body, run);
    var url := Escaped(run.url.value);
    UpToOf(url, ')', "");
    assert s[|body + LINK_LABEL| + 1..] == url + [')'] + "";
  }

  // ---- the loop ----

  datatype Completion =
    | Replied(content: string, calls: seq<ToolCall>, ms: nat)
    | Broken(error: string, ms: nat)

  datatype ToolOutcome = ToolOutcome(result: string, effect: Effect, ms: nat)

  datatype Request = Request(messages: seq<Message>, at: int, timeout: int)

  /** A request may take at most its share of what is left of the time for the reply. */
  predicate IsTimely(q: Request, deadline: int) {
    0 < q.timeout <= CALL_TIMEOUT_MS && q.at + q.timeout <= deadline
  }

  /** The requests of one reply, all of them well formed and on time, each transcript extending the one before. */
  ghost predicate Disciplined(requests: seq<Request>, initial: seq<Message>, last: seq<Message>, deadline: int) {
    && (forall i :: 0 <= i < |requests| ==>
          && WellFormed(requests[i].messages) && IsTimely(requests[i], deadline)
          && initial <= requests[i].messages <= last)
    && (forall i, j :: 0 <= i < j < |requests| ==> requests[i].messages <= requests[j].messages)
  }

  lemma DisciplineGrows(requests: seq<Request>, more: seq<Request>, initial: seq<Message>, last: seq<Message>,
                        deadline: int)
    requires Disciplined(requests, initial, last, deadline) && initial <= last && WellFormed(last)
    requires forall i :: 0 <= i < |more| ==> more[i].messages == last && IsTimely(more[i], deadline)
    ensures Disciplined(requests + more, initial, last, deadline)
  {
  }

  lemma DisciplineExtends(requests: seq<Request>, initial: seq<Message>, last: seq<Message>, more: seq<Message>,
                          deadline: int)
    requires Disciplined(requests, initial, last, deadline)
    ensures Disciplined(requests, initial, last + more, deadline)
  {
  }

  datatype Reply =
    | Silence
    | Answer(body: string, options: Option<seq<string>>)
    | LoopLimit
    | Fallback(error: string)

  function EffectsOf(trace: seq<Trace>): (effects: seq<Effect>)
    ensures |effects| == |trace|
  {
    seq(|trace|, k requires 0 <= k < |trace| => trace[k].effect)
  }

  lemma AnswersAre(trace: seq<Trace>)
    ensures |Answers(trace)| == |trace|
    ensures forall k :: 0 <= k < |trace| ==> Answers(trace)[k] == Tool(trace[k].call.id, trace[k].result)
  {
  }

  lemma EmptyTrace(effects: seq<Effect>, messages: seq<Message>)
    ensures CallsOf([]) == [] && messages + Answers([]) == messages && effects + EffectsOf([]) == effects
  {
  }

  lemma AppendTrace(trace: seq<Trace>, t: Trace, effects: seq<Effect>, messages: seq<Message>)
    ensures CallsOf(trace + [t]) == CallsOf(trace) + [t.call]
    ensures messages + Answers(trace + [t]) == messages + Answers(trace) + [Tool(t.call.id, t.result)]
    ensures effects + EffectsOf(trace + [t]) == effects + EffectsOf(trace) + [t.effect]
  {
    assert Answers(trace + [t]) == Answers(trace) + [Tool(t.call.id, t.result)];
    assert EffectsOf(trace + [t]) == EffectsOf(trace) + [t.effect];
  }

  /** The tool messages of a transcript. */
  function ToolMessages(ms: seq<Message>): (tools: seq<Message>) {
    if ms == [] then [] else if ms[0].Tool? then [ms[0]] + ToolMessages(ms[1..]) else ToolMessages(ms[1..])
  }

  // ---- what a reply depends on ----

  /** A call of the model or two: what came of it, and the counters of calls and time after it. */
  datatype Called = Called(reply: Completion, asked: nat, now: int)

  function TimeoutAt(now: int, deadline: int): int {
    if CALL_TIMEOUT_MS < deadline - now then CALL_TIMEOUT_MS else deadline - now
  }

  /** One call of the model: none once time is up, and broken off when its own time is up. */
  function Attempted(client: nat -> Completion, asked: nat, now: int, deadline: int): Called {
    if now >= deadline then Called(Broken("Délai total dépassé", 0), asked, now)
    else
      var c := client(asked);
      var reply := if c.ms > TimeoutAt(now, deadline) then Broken("timeout", TimeoutAt(now, deadline)) else c;
      Called(reply, asked + 1, now + reply.ms)
  }

  /** `complete`: a second attempt if the first failed and there is time for it. */
  function Completed(client: nat -> Completion, asked: nat, now: int, deadline: int): Called {
    var first := Attempted(client, asked, now, deadline);
    if first.reply.Replied? || deadline - first.now < MIN_RETRY_BUDGET_MS then first
    else Attempted(client, first.asked, first.now, deadline)
  }

  /** The model does not answer call `asked` in time. */
  predicate Fails(client: nat -> Completion, asked: nat, now: int, deadline: int) {
    now >= deadline || client(asked).Broken? || client(asked).ms > TimeoutAt(now, deadline)
  }

  /** A completion is given up if and only if the model failed twice, or once with less than five seconds left. */
  lemma GivenUpIff(client: nat -> Completion, asked: nat, now: int, deadline: int)
    ensures var first := Attempted(client, asked, now, deadline);
            Completed(client, asked, now, deadline).reply.Broken?
            <==> Fails(client, asked, now, deadline)
                 && (deadline - first.now < MIN_RETRY_BUDGET_MS || Fails(client, first.asked, first.now, deadline))
  {
  }

  /** The time of the next `k` tool calls. */
  function ToolTime(tools: nat -> ToolOutcome, ran: nat, k: nat): (ms: nat) {
    if k == 0 then 0 else ToolTime(tools, ran, k - 1) + tools(ran + k - 1).ms
  }

  /** The calls of one round, carried out in order. */
  function CarriedOut(tools: nat -> ToolOutcome, ran: nat, calls: seq<ToolCall>): (trace: seq<Trace>)
    ensures |trace| == |calls|
  {
    seq(|calls|, k requires 0 <= k < |calls| => Trace(calls[k], tools(ran + k).result, tools(ran + k).effect))
  }

  datatype Ending = Answered(content: string) | Exhausted | GaveUp(error: string)

  /** The rounds of the loop that are left, as model and tools make them: the tool calls, and how it ends. */
  function Play(client: nat -> Completion, tools: nat -> ToolOutcome, asked: nat, ran: nat, now: int, deadline: int,
                rounds: nat): (seq<Trace>, Ending)
    decreases rounds
  {
    if rounds == 0 then ([], Exhausted)
    else
      var c := Completed(client, asked, now, deadline);
      match c.reply
      case Broken(error, _) => ([], GaveUp(error))
      case Replied(content, calls, _) =>
        if calls == [] then ([], Answered(content))
        else
          var rest := Play(client, tools, c.asked, ran + |calls|, c.now + ToolTime(tools, ran, |calls|), deadline,
                           rounds - 1);
          (CarriedOut(tools, ran, calls) + rest.0, rest.1)
  }

  datatype Counters = Counters(asked: nat, ran: nat, now: int)

  /** The counters at the beginning of round `j`; None if the loop is left before it. */
  function RoundAt(client: nat -> Completion, tools: nat -> ToolOutcome, k: Counters, deadline: int, j: nat)
    : Option<Counters>
    decreases j
  {
    if j == 0 then Some(k)
    else
      var c := Completed(client, k.asked, k.now, deadline);
      if c.reply.Broken? || c.reply.calls == [] then None
      else
        var n := |c.reply.calls|;
        RoundAt(client, tools, Counters(c.asked, k.ran + n, c.now + ToolTime(tools, k.ran, n)), deadline, j - 1)
  }

  /** Round `j` is reached and its completion is given up. */
  predicate GivesUpAt(client: nat -> Completion, tools: nat -> ToolOutcome, k: Counters, deadline: int, j: nat) {
    match RoundAt(client, tools, k, deadline, j)
    case None => false
    case Some(c) => Completed(client, c.asked, c.now, deadline).reply.Broken?
  }

  /** The loop ends by giving up if and only if the completion of some round that is reached is given up. */
  lemma {:induction false} GivesUpIff(client: nat -> Completion, tools: nat -> ToolOutcome, k: Counters, deadline: int,
                                      rounds: nat)
    ensures Play(client, tools, k.asked, k.ran, k.now, deadline, rounds).1.GaveUp?
            <==> exists j: nat :: j < rounds && GivesUpAt(client, tools, k, deadline, j)
    decreases rounds
  {
    hide Completed, ToolTime;
    if rounds > 0 {
      var c := Completed(client, k.asked, k.now, deadline);
      if c.reply.Broken? {
        assert GivesUpAt(client, tools, k, deadline, 0);
      } else if c.reply.calls != [] {
        var n := |c.reply.calls|;
        var next := Counters(c.asked, k.ran + n, c.now + ToolTime(tools, k.ran, n));
        GivesUpIff(client, tools, next, deadline, rounds - 1);
        forall j: nat | j > 0
          ensures GivesUpAt(client, tools, k, deadline, j) <==> GivesUpAt(client, tools, next, deadline, j - 1) {}
        if j: nat :| j < rounds - 1 && GivesUpAt(client, tools, next, deadline, j) {
          assert GivesUpAt(client, tools, k, deadline, j + 1);
        }
        if j: nat :| j < rounds && GivesUpAt(client, tools, k, deadline, j) {
          assert j > 0 && GivesUpAt(client, tools, next, deadline, j - 1);
        }
      } else {
        forall j: nat ensures !GivesUpAt(client, tools, k, deadline, j) {}
      }
    }
  }

  /** What the caller gets from the ending and the run. */
  function ReplyOf(ending: Ending, run: Run): Reply {
    match ending
    case GaveUp(error) => Fallback(error)
    case Answered(content) => if run.reEscalated then Silence else Answer(WithRequestLink(content, run), run.options)
    case Exhausted => if run.reEscalated then Silence else LoopLimit
  }

  /** The transcript so far: well formed, sent only as it grew, with an answer for each call of the trace. */
  ghost predicate Told(requests: seq<Request>, initial: seq<Message>, messages: seq<Message>, trace: seq<Trace>,
                       deadline: int) {
    && WellFormed(messages) && initial <= messages && Disciplined(requests, initial, messages, deadline)
    && ToolMessages(messages[|initial|..]) == Answers(trace)
  }

  /** The run and the conversation are what the effects of the trace made of them. */
  ghost predicate Accounted(run: Run, escalated: bool, was: bool, trace: seq<Trace>) {
    run == RunAfter(was, EffectsOf(trace)) && escalated == (was || Escalations(EffectsOf(trace)) > 0)
  }

  /** Each call of the trace has the outcome the tools gave it, from their call `first` on. */
  ghost predicate Recorded(trace: seq<Trace>, tools: nat -> ToolOutcome, first: nat) {
    forall k :: 0 <= k < |trace| ==>
      trace[k].result == tools(first + k).result && trace[k].effect == tools(first + k).effect
  }

  class LlmChatBot {
    const client: nat -> Completion
    const tools: nat -> ToolOutcome
    var asked: nat
    var ran: nat
    var now: int
    var escalated: bool
    ghost var requests: seq<Request>

    constructor (client: nat -> Completion, tools: nat -> ToolOutcome, now: int, escalated: bool)
      ensures this.client == client && this.tools == tools && this.now == now && this.escalated == escalated
      ensures asked == 0 && ran == 0 && requests == []
    {
      this.client, this.tools := client, tools;
      asked, ran, this.now, this.escalated, requests := 0, 0, now, escalated, [];
    }

    /** One call of the model, broken off when its time is up. */
    method Attempt(messages: seq<Message>, deadline: int) returns (r: Completion)
      modifies this`asked, this`now, this`requests
      ensures old(now) <= now && (now <= deadline || now == old(now))
      ensures old(now) >= deadline ==> r.Broken? && requests == old(requests) && asked == old(asked)
      ensures old(now) < deadline ==>
                && asked == old(asked) + 1 && |requests| == |old(requests)| + 1
                && requests[..|old(requests)|] == old(requests)
                && requests[|old(requests)|].messages == messages && requests[|old(requests)|].at == old(now)
                && requests[|old(requests)|].timeout == (if 20000 < deadline - old(now) then 20000 else deadline - old(now))
                && IsTimely(requests[|old(requests)|], deadline)
                && (r.Replied? ==> r == client(old(asked)))
      ensures Called(r, asked, now) == Attempted(client, old(asked), old(now), deadline)
    {
      var remaining := deadline - now;
      if remaining <= 0 { return Broken("Délai total dépassé", 0); }
      var timeout := if CALL_TIMEOUT_MS < remaining then CALL_TIMEOUT_MS else remaining;
      requests := requests + [Request(messages, now, timeout)];
      r := client(asked);
      if r.ms > timeout { r := Broken("timeout", timeout); }
      asked, now := asked + 1, now + r.ms;
    }

    /** A call that failed is made once more, with the same transcript, if there is time. */
    method Complete(messages: seq<Message>, deadline: int) returns (r: Completion)
      modifies this`asked, this`now, this`requests
      ensures old(now) <= now && (now <= deadline || now == old(now))
      ensures |old(requests)| <= |requests| <= |old(requests)| + 2 && requests[..|old(requests)|] == old(requests)
      ensures forall i :: |old(requests)| <= i < |requests| ==>
                requests[i].messages == messages && IsTimely(requests[i], deadline)
      ensures asked - old(asked) == |requests| - |old(requests)|
      ensures r.Replied? ==> asked > 0 && r == client(asked - 1)
      ensures |requests| == |old(requests)| + 2 ==> requests[|old(requests)| + 1].at <= deadline - MIN_RETRY_BUDGET_MS
      ensures r.Broken? ==> |requests| == |old(requests)| + 2 || deadline - now < MIN_RETRY_BUDGET_MS
      ensures Called(r, asked, now) == Completed(client, old(asked), old(now), deadline)
    {
      r := Attempt(messages, deadline);
      if r.Replied? || deadline - now < MIN_RETRY_BUDGET_MS { return; }
      r := Attempt(messages, deadline);
    }

    /** One call of a tool, whose failure is a result like any other. */
    method RunTool(run: Run, ghost was: bool, ghost effects: seq<Effect>) returns (done: ToolOutcome, after: Run)
      requires run == RunAfter(was, effects) && escalated == (was || Escalations(effects) > 0)
      modifies this`ran, this`now, this`escalated
      ensures done == tools(old(ran)) && ran == old(ran) + 1
      ensures now == old(now) + done.ms
      ensures after == RunAfter(was, effects + [done.effect])
      ensures escalated == (was || Escalations(effects + [done.effect]) > 0)
    {
      AppendEffect(was, effects, tools(ran).effect);
      done := tools(ran);
      ran, now := ran + 1, now + done.ms;
      after := Apply(run, escalated, done.effect);
      escalated := escalated || done.effect.Escalates?;
    }

    /** The escalation after the last round; `reaches` tells whether it gets as far as the conversation. */
    method CloseByEscalating(run: Run, reaches: bool, ghost was: bool, ghost effects: seq<Effect>) returns (after: Run)
      requires run == RunAfter(was, effects) && escalated == (was || Escalations(effects) > 0)
      modifies this`escalated
      ensures after == RunAfter(was, effects + [Closing(reaches)])
      ensures escalated == (was || Escalations(effects + [Closing(reaches)]) > 0)
    {
      AppendEffect(was, effects, Closing(reaches));
      after := run;
      if reaches {
        after := run.(reEscalated := run.reEscalated || escalated, options := None);
        escalated := true;
      }
    }

    /** The calls of one round, in order; each is answered in the transcript and recorded in the trace. */
    method RunTools(calls: seq<ToolCall>, messages: seq<Message>, run: Run, ghost was: bool, ghost effects: seq<Effect>)
      returns (trace: seq<Trace>, transcript: seq<Message>, after: Run)
      requires run == RunAfter(was, effects) && escalated == (was || Escalations(effects) > 0)
      modifies this`ran, this`now, this`escalated
      ensures ran == old(ran) + |calls| && now == old(now) + ToolTime(tools, old(ran), |calls|)
      ensures CallsOf(trace) == calls && trace == CarriedOut(tools, old(ran), calls)
      ensures transcript == messages + Answers(trace)
      ensures forall k :: 0 <= k < |trace| ==>
                trace[k].result == tools(old(ran) + k).result && trace[k].effect == tools(old(ran) + k).effect
      ensures after == RunAfter(was, effects + EffectsOf(trace))
      ensures escalated == (was || Escalations(effects + EffectsOf(trace)) > 0)
    {
      hide RunAfter, Escalations, Answers, CallsOf, EffectsOf;
      trace, transcript, after := [], messages, run;
      EmptyTrace(effects, messages);
      for i := 0 to |calls|
        invariant |trace| == i && ran == old(ran) + i && CallsOf(trace) == calls[..i]
        invariant now == old(now) + ToolTime(tools, old(ran), i)
        invariant forall k :: 0 <= k < i ==> trace[k].call == calls[k]
        invariant transcript == messages + Answers(trace)
        invariant forall k :: 0 <= k < i ==>
                    trace[k].result == tools(old(ran) + k).result && trace[k].effect == tools(old(ran) + k).effect
        invariant after == RunAfter(was, effects + EffectsOf(trace))
        invariant escalated == (was || Escalations(effects + EffectsOf(trace)) > 0)
      {
        var done;
        done, after := RunTool(after, was, effects + EffectsOf(trace));
        AppendTrace(trace, Trace(calls[i], done.result, done.effect), effects, messages);
        assert calls[..i] + [calls[i]] == calls[..i + 1];
        trace := trace + [Trace(calls[i], done.result, done.effect)];
        transcript := transcript + [Tool(calls[i].id, done.result)];
      }
      assert calls[..|calls|] == calls;
      assert trace == CarriedOut(tools, old(ran), calls);
    }

    /** The body of the loop: a completion, and the tool calls it asks for, put in the transcript with their answers. */
    method PlayRound(messages: seq<Message>, run: Run, deadline: int, ghost initial: seq<Message>, ghost first: nat,
                     ghost was: bool, ghost trace: seq<Trace>, ghost firstTool: nat)
      returns (completion: Completion, done: seq<Trace>, transcript: seq<Message>, after: Run)
      requires first <= |requests| && Told(requests[first..], initial, messages, trace, deadline)
      requires Accounted(run, escalated, was, trace) && Recorded(trace, tools, firstTool) && ran == firstTool + |trace|
      modifies this`asked, this`ran, this`now, this`escalated, this`requests
      ensures |old(requests)| <= |requests| <= |old(requests)| + 2 && requests[..|old(requests)|] == old(requests)
      ensures Told(requests[first..], initial, transcript, trace + done, deadline)
      ensures Accounted(after, escalated, was, trace + done) && Recorded(trace + done, tools, firstTool)
      ensures var c := Completed(client, old(asked), old(now), deadline);
              && completion == c.reply && asked == c.asked
              && done == (if completion.Broken? then [] else CarriedOut(tools, old(ran), completion.calls))
              && ran == old(ran) + |done| && now == c.now + ToolTime(tools, old(ran), |done|)
      ensures completion.Replied? ==> asked > 0 && completion == client(asked - 1)
      ensures completion.Broken? ==> |requests| == |old(requests)| + 2 || deadline - now < MIN_RETRY_BUDGET_MS
    {
      hide WellFormed, Disciplined, RunAfter, Escalations, ToolMessages, IsTimely, Answers, CallsOf, EffectsOf;
      hide Completed, CarriedOut, Recorded;
      completion := Complete(messages, deadline);
      assert requests[first..] == old(requests)[first..] + requests[|old(requests)|..];
      DisciplineGrows(old(requests)[first..], requests[|old(requests)|..], initial, messages, deadline);
      if completion.Broken? || completion.calls == [] {
        NoCalls(tools, old(ran));
        assert trace + [] == trace;
        return completion, [], messages, run;
      }
      transcript := messages + [Assistant(completion.content, completion.calls)];
      done, transcript, after := RunTools(completion.calls, transcript, run, was, EffectsOf(trace));
      RoundKeeps(requests[first..], initial, messages, completion.content, done, deadline);
      AppendTraces(trace, done);
      RecordsMore(trace, tools, firstTool, completion.calls);
    }

    /** The loop of `reply`. */
    method PlayRounds(initial: seq<Message>, deadline: int)
      returns (ending: Ending, trace: seq<Trace>, messages: seq<Message>, run: Run)
      requires IsPlain(initial)
      modifies this`asked, this`ran, this`now, this`escalated, this`requests
      ensures |old(requests)| <= |requests| <= |old(requests)| + 2 * MAX_TOOL_ROUNDS
      ensures requests[..|old(requests)|] == old(requests)
      ensures Told(requests[|old(requests)|..], initial, messages, trace, deadline)
      ensures Accounted(run, escalated, old(escalated), trace)
      ensures Recorded(trace, tools, old(ran)) && ran == old(ran) + |trace|
      ensures (trace, ending) == Play(client, tools, old(asked), old(ran), old(now), deadline, MAX_TOOL_ROUNDS)
      ensures match ending
              case Answered(content) =>
                && asked > 0 && client(asked - 1).Replied?
                && client(asked - 1).calls == [] && client(asked - 1).content == content
              case Exhausted => |trace| >= MAX_TOOL_ROUNDS
              case GaveUp(_) => |requests| >= |old(requests)| + 2 || deadline - now < MIN_RETRY_BUDGET_MS
    {
      hide Told, Accounted, Recorded, Play, Completed, ToolTime, CarriedOut;
      messages, run := initial, Run(false, None, None);
      ghost var play := Play(client, tools, asked, ran, now, deadline, MAX_TOOL_ROUNDS);
      ghost var rest := play;
      trace := [];
      Start(escalated, initial, tools, ran, deadline);
      assert requests[|old(requests)|..] == [] && trace + rest.0 == rest.0;
      for round := 0 to MAX_TOOL_ROUNDS
        invariant |old(requests)| <= |requests| <= |old(requests)| + 2 * round
        invariant requests[..|old(requests)|] == old(requests)
        invariant Told(requests[|old(requests)|..], initial, messages, trace, deadline)
        invariant Accounted(run, escalated, old(escalated), trace)
        invariant Recorded(trace, tools, old(ran)) && ran == old(ran) + |trace| && |trace| >= round
        invariant rest == Play(client, tools, asked, ran, now, deadline, MAX_TOOL_ROUNDS - round)
        invariant play == (trace + rest.0, rest.1)
      {
        PlayStep(client, tools, Counters(asked, ran, now), deadline, MAX_TOOL_ROUNDS - round);
        var completion, done;
        completion, done, messages, run :=
          PlayRound(messages, run, deadline, initial, |old(requests)|, old(escalated), trace, old(ran));
        ghost var before := trace;
        trace := trace + done;
        if completion.Broken? { return GaveUp(completion.error), trace, messages, run; }
        if completion.calls == [] { return Answered(completion.content), trace, messages, run; }
        rest := Play(client, tools, asked, ran, now, deadline, MAX_TOOL_ROUNDS - round - 1);
        assert before + (done + rest.0) == trace + rest.0;
      }
      PlayStep(client, tools, Counters(asked, ran, now), deadline, 0);
      assert trace + [] == trace;
      ending := Exhausted;
    }

    /**
     `reply`. Whatever the model and the tools do, at most ten requests are made, all before the deadline, with
     transcripts that are well formed and only grow; each tool call is carried out once and answered once, in order. After
     the last round the conversation is escalated, unless that fails, which `reaches` tells. The reply is withheld exactly
     when the conversation was escalated again and no completion was given up; if one was, the fallback is sent all the
     same.
     */
    method Reply(initial: seq<Message>, reaches: bool)
      returns (reply: Reply, trace: seq<Trace>, ghost transcript: seq<Message>, ghost effects: seq<Effect>)
      requires IsPlain(initial)
      modifies this`asked, this`ran, this`now, this`escalated, this`requests
      ensures |old(requests)| <= |requests| <= |old(requests)| + 2 * MAX_TOOL_ROUNDS
      ensures requests[..|old(requests)|] == old(requests)
      ensures WellFormed(transcript)
      ensures Disciplined(requests[|old(requests)|..], initial, transcript, old(now) + TOTAL_TIMEOUT_MS)
      ensures initial <= transcript && ToolMessages(transcript[|initial|..]) == Answers(trace)
      ensures forall k :: 0 <= k < |trace| ==>
                trace[k].result == tools(old(ran) + k).result && trace[k].effect == tools(old(ran) + k).effect
      ensures ran == old(ran) + |trace| && escalated == (old(escalated) || Escalations(effects) > 0)
      ensures var play := Play(client, tools, old(asked), old(ran), old(now), old(now) + TOTAL_TIMEOUT_MS,
                               MAX_TOOL_ROUNDS);
              && trace == play.0
              && effects == EffectsOf(trace) + (if play.1.Exhausted? then [Closing(reaches)] else [])
              && reply == ReplyOf(play.1, RunAfter(old(escalated), effects))
              && (reply.Silence? <==> RunAfter(old(escalated), effects).reEscalated && !play.1.GaveUp?)
      ensures reply.Answer? ==>
                && asked > 0 && client(asked - 1).Replied? && client(asked - 1).calls == []
                && reply.body == WithRequestLink(client(asked - 1).content, RunAfter(old(escalated), effects))
                && var content, url := client(asked - 1).content, RunAfter(old(escalated), effects).url;
                   && (url.None? || url.value == "" ==> reply.body == content)
                   && (url.Some? && url.value != "" ==>
                         reply.body == content + "\n\n[Finaliser ma demande →](" + Escaped(url.value) + ")")
                   && reply.options == RunAfter(old(escalated), effects).options
      ensures forall k :: 0 <= k < |trace| ==>
                && k < |ToolMessages(transcript[|initial|..])|
                && ToolMessages(transcript[|initial|..])[k] == Tool(trace[k].call.id, trace[k].result)
      ensures reply.LoopLimit? ==> |trace| >= MAX_TOOL_ROUNDS
      ensures reply.LoopLimit? && reaches ==> escalated && !old(escalated) && Escalations(effects) == 1
      ensures reply.Fallback? ==> |requests| >= |old(requests)| + 2
                                  || old(now) + TOTAL_TIMEOUT_MS - now < MIN_RETRY_BUDGET_MS
    {
      hide WellFormed, Disciplined, RunAfter, Escalations, ToolMessages, IsTimely, Answers, CallsOf, EffectsOf, Play;
      hide WithRequestLink, Escaped;
      var ending, run;
      ending, trace, transcript, run := PlayRounds(initial, now + TOTAL_TIMEOUT_MS);
      AnswersAre(trace);
      effects := EffectsOf(trace);
      assert effects + [] == effects;
      if ending.GaveUp? { return Fallback(ending.error), trace, transcript, effects; }
      if ending.Answered? {
        reply := if run.reEscalated then Silence else Answer(WithRequestLink(ending.content, run), run.options);
        LinkedBody(ending.content, run);
        return;
      }
      run := CloseByEscalating(run, reaches, old(escalated), effects);
      ClosedOnce(old(escalated), effects, reaches);
      effects := effects + [Closing(reaches)];
      reply := if run.reEscalated then Silence else LoopLimit;
    }
  }

  lemma NoCalls(tools: nat -> ToolOutcome, ran: nat)
    ensures CarriedOut(tools, ran, []) == [] && ToolTime(tools, ran, 0) == 0
  {
  }

  /** One round of the play. */
  lemma PlayStep(client: nat -> Completion, tools: nat -> ToolOutcome, k: Counters, deadline: int, rounds: nat)
    ensures var play := Play(client, tools, k.asked, k.ran, k.now, deadline, rounds);
            if rounds == 0 then play == ([], Exhausted)
            else
              var c := Completed(client, k.asked, k.now, deadline);
              match c.reply
              case Broken(error, _) => play == ([], GaveUp(error))
              case Replied(content, calls, _) =>
                if calls == [] then play == ([], Answered(content))
                else
                  var rest := Play(client, tools, c.asked, k.ran + |calls|, c.now + ToolTime(tools, k.ran, |calls|),
                                   deadline, rounds - 1);
                  play == (CarriedOut(tools, k.ran, calls) + rest.0, rest.1)
  {
    hide Completed, ToolTime, CarriedOut;
  }

  /**
   A conversation escalated before; the model escalates it again, and then fails twice. The repository promises that
   nothing is sent after a second escalation, but the fallback is.
   */
  method SpeaksAfterReEscalation() returns (bot: LlmChatBot, reply: Reply, ghost effects: seq<Effect>)
    ensures fresh(bot) && reply == Fallback("Service Unavailable")
    ensures RunAfter(true, effects).reEscalated
  {
    var client := (n: nat) =>
      if n == 0 then Replied("", [ToolCall("1", "escalate_to_agent", "{}")], 1000)
      else Broken("Service Unavailable", 0);
    var tools := (n: nat) => ToolOutcome("", Escalates, 100);
    bot := new LlmChatBot(client, tools, 0, true);
    var trace;
    ghost var transcript;
    SecondRoundFails(client, tools);
    reply, trace, transcript, effects := bot.Reply([User("Bonjour")], true);
    ReEscalatedIff(true, effects);
    assert effects == [Escalates];
    assert Escalations(effects) == 1 by { assert effects[..0] == []; }
  }

  lemma SecondRoundFails(client: nat -> Completion, tools: nat -> ToolOutcome)
    requires client(0) == Replied("", [ToolCall("1", "escalate_to_agent", "{}")], 1000)
    requires client(1) == client(2) == Broken("Service Unavailable", 0)
    requires tools(0) == ToolOutcome("", Escalates, 100)
    ensures Play(client, tools, 0, 0, 0, TOTAL_TIMEOUT_MS, MAX_TOOL_ROUNDS)
            == ([Trace(ToolCall("1", "escalate_to_agent", "{}"), "", Escalates)], GaveUp("Service Unavailable"))
  {
    hide Play;
    PlayStep(client, tools, Counters(0, 0, 0), TOTAL_TIMEOUT_MS, 5);
    PlayStep(client, tools, Counters(1, 1, 1100), TOTAL_TIMEOUT_MS, 4);
    assert ToolTime(tools, 0, 1) == 100;
    var t := Trace(ToolCall("1", "escalate_to_agent", "{}"), "", Escalates);
    assert CarriedOut(tools, 0, [t.call]) == [t] && [t] + [] == [t];
  }

  lemma Start(was: bool, initial: seq<Message>, tools: nat -> ToolOutcome, first: nat, deadline: int)
    requires IsPlain(initial)
    ensures Told([], initial, initial, [], deadline) && Recorded([], tools, first)
    ensures Accounted(Run(false, None, None), was, was, [])
  {
    PlainIsWellFormed(initial);
    assert initial[|initial|..] == [];
  }

  lemma RecordsMore(trace: seq<Trace>, tools: nat -> ToolOutcome, first: nat, calls: seq<ToolCall>)
    requires Recorded(trace, tools, first)
    ensures Recorded(trace + CarriedOut(tools, first + |trace|, calls), tools, first)
  {
  }

  lemma {:induction false} ToolMessagesConcat(a: seq<Message>, b: seq<Message>)
    ensures ToolMessages(a + b) == ToolMessages(a) + ToolMessages(b)
    decreases |a|
  {
    if a == [] {
      assert a + b == b;
    } else {
      assert (a + b)[1..] == a[1..] + b && (a + b)[0] == a[0];
      ToolMessagesConcat(a[1..], b);
    }
  }

  lemma {:induction false} AllToolMessages(ms: seq<Message>)
    requires forall i :: 0 <= i < |ms| ==> ms[i].Tool?
    ensures ToolMessages(ms) == ms
    decreases |ms|
  {
    if ms != [] {
      AllToolMessages(ms[1..]);
    }
  }

  lemma RoundAnswers(ms: seq<Message>, content: string, trace: seq<Trace>)
    ensures ToolMessages(ms + [Assistant(content, CallsOf(trace))] + Answers(trace)) == ToolMessages(ms) + Answers(trace)
  {
    var call := [Assistant(content, CallsOf(trace))];
    assert call[1..] == [] && ToolMessages(call) == [];
    ToolMessagesConcat(ms + call, Answers(trace));
    ToolMessagesConcat(ms, call);
    AllToolMessages(Answers(trace));
  }

  lemma AppendTraces(a: seq<Trace>, b: seq<Trace>)
    ensures Answers(a + b) == Answers(a) + Answers(b) && EffectsOf(a + b) == EffectsOf(a) + EffectsOf(b)
    ensures |CallsOf(b)| == |b|
  {
  }

  /** A round of tool calls after the transcript `round`. */
  lemma RoundKeeps(requests: seq<Request>, initial: seq<Message>, round: seq<Message>, content: string,
                   done: seq<Trace>, deadline: int)
    requires WellFormed(round) && initial <= round && Disciplined(requests, initial, round, deadline)
    ensures var ms := round + [Assistant(content, CallsOf(done))] + Answers(done);
            && WellFormed(ms) && initial <= ms && Disciplined(requests, initial, ms, deadline)
            && ToolMessages(ms[|initial|..]) == ToolMessages(round[|initial|..]) + Answers(done)
  {
    hide WellFormed, Disciplined, ToolMessages, Answers, CallsOf;
    var more := [Assistant(content, CallsOf(done))] + Answers(done);
    var ms := round + [Assistant(content, CallsOf(done))] + Answers(done);
    assert ms == round + more;
    RoundKeepsWellFormed(round, content, done);
    DisciplineExtends(requests, initial, round, more, deadline);
    RoundAnswers(round[|initial|..], content, done);
    assert ms[|initial|..] == round[|initial|..] + [Assistant(content, CallsOf(done))] + Answers(done);
  }
}
