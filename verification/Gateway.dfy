/** gateway.py, GatewayProvider.complete: providers in order, retries with a deadline,
    circuit breakers, and the extractive fallback. Time passes only in provider calls and
    sleeps; the outside world is an `Env` that fixes every reply, duration and jitter draw. */
module Gateway {
  import opened Sequences
  import opened Arithmetic
  import opened Breaker
  import opened TokenBudget

  datatype Failure =
    | HttpError(code: int, retryAfter: Option<nat>)
    | UrlError
    | TimedOut
    | ConnectionLost
    | Rejected(message: string)
    | Unexpected

  datatype Reply = Answer(text: string) | Error(failure: Failure)

  /** Indexed by provider and attempt; `draw` is the jitter's random number in [0, 1]. */
  datatype Env = Env(reply: (nat, nat) -> Reply, duration: (nat, nat) -> real, draw: (nat, nat) -> real)

  datatype Settings = Settings(
    maxAttempts: int, baseDelay: real, maxDelay: real, deadline: real, contextTokens: int, historyTokens: int)

  datatype Call = Call(attempt: nat, start: real, reply: Reply, context: seq<string>, history: seq<ChatTurn>)

  datatype Note = Disabled(provider: nat) | Gave(provider: nat, failure: Failure)

  datatype Outcome = Answered(provider: nat, text: string) | Degraded(notes: seq<Note>)

  predicate IsRetryable(f: Failure) {
    match f
    case HttpError(code, _) => code == 429 || code >= 500
    case UrlError => true
    case TimedOut => true
    case ConnectionLost => true
    case _ => false
  }

  /** Doubles with every attempt up to the maximum. */
  function Backoff(cfg: Settings, n: nat): real { MinReal(cfg.maxDelay, cfg.baseDelay * Pow2(n)) }

  /** How long to wait after a failed attempt: the server's wish, or full jitter. */
  function Delay(cfg: Settings, env: Env, p: nat, attempt: nat, f: Failure): real {
    if f.HttpError? && f.retryAfter.Some? then f.retryAfter.value as real
    else PartOf(env.draw(p, attempt), Backoff(cfg, attempt))
  }

  predicate Transient(r: Reply) { r.Error? && IsRetryable(r.failure) }

  function Ended(env: Env, p: nat, c: Call): real { c.start + env.duration(p, c.attempt) }

  /** A retry follows a transient failure and its delay, strictly before the deadline. */
  predicate Retries(cfg: Settings, env: Env, p: nat, limit: real, earlier: Call, c: Call) {
    && Transient(earlier.reply) && c.start < limit
    && c.start == Ended(env, p, earlier) + Delay(cfg, env, p, earlier.attempt, earlier.reply.failure)
  }

  /** The calls made to one provider: attempts 1, 2, ... with the same prompt. */
  ghost predicate Attempts(cfg: Settings, env: Env, p: nat, limit: real, calls: seq<Call>,
                           context: seq<string>, history: seq<ChatTurn>) {
    calls == [] ||
    (&& Attempts(cfg, env, p, limit, Init(calls), context, history)
     && Last(calls) == Call(|calls|, Last(calls).start, env.reply(p, |calls|), context, history)
     && |calls| <= cfg.maxAttempts
     && (|calls| > 1 ==> Retries(cfg, env, p, limit, calls[|calls| - 2], Last(calls))))
  }

  /** The last call failed in a way that a further attempt could mend. */
  predicate MayRetry(cfg: Settings, calls: seq<Call>) {
    calls != [] && Transient(Last(calls).reply) && |calls| < cfg.maxAttempts
  }

  /** A provider that was called and did not answer ended on an error it had to end on: a
      permanent one, the last attempt, a wait past the deadline, or a breaker that opened. */
  ghost predicate GaveUp(cfg: Settings, env: Env, p: nat, limit: real, calls: seq<Call>, refused: bool) {
    calls != [] && Last(calls).reply.Error? &&
    var f := Last(calls).reply.failure;
    || !IsRetryable(f)
    || |calls| == cfg.maxAttempts
    || Ended(env, p, Last(calls)) + Delay(cfg, env, p, |calls|, f) >= limit
    || refused
  }

  /* ---- what a request leaves in a breaker's log ---- */

  /** What `allow()` answers, and logs, after `log`. */
  function Asking(breaker: Config, log: seq<Event>, at: real): Event {
    var s := Replay(log, breaker);
    if Admits(s, breaker, at) then Admitted(at, PhaseOf(s, breaker, at) == HalfOpen) else Refused(at)
  }

  function Recording(env: Env, p: nat, c: Call): Event {
    if c.reply.Answer? then Succeeded else Failed(Ended(env, p, c))
  }

  /** The log once the last of `calls` is recorded: one record per call, and one question
      to the breaker before each retry. */
  function Recorded(breaker: Config, env: Env, p: nat, log: seq<Event>, calls: seq<Call>): seq<Event>
    decreases |calls|, 0
  {
    if calls == [] then log
    else Asked(breaker, env, p, log, Init(calls)) + [Recording(env, p, Last(calls))]
  }

  /** The log once the breaker is asked for another call after `calls`. */
  function Asked(breaker: Config, env: Env, p: nat, log: seq<Event>, calls: seq<Call>): seq<Event>
    decreases |calls|, 1
  {
    if calls == [] then log else
      var done := Recorded(breaker, env, p, log, calls);
      done + [Asking(breaker, done, Ended(env, p, Last(calls)))]
  }

  predicate Allowed(log: seq<Event>) { log != [] && Last(log).Admitted? }

  /** Every retry was admitted. */
  ghost predicate Consented(breaker: Config, env: Env, p: nat, log: seq<Event>, calls: seq<Call>) {
    |calls| < 2 || (Consented(breaker, env, p, log, Init(calls)) && Allowed(Asked(breaker, env, p, log, Init(calls))))
  }

  /** Between attempts: the breaker has admitted the next one, which starts at `now`. */
  ghost predicate Underway(cfg: Settings, env: Env, breaker: Config, p: nat, limit: real, before: seq<Event>, calls: seq<Call>,
                           context: seq<string>, history: seq<ChatTurn>, log: seq<Event>, entered: real, now: real) {
    && |calls| < cfg.maxAttempts
    && Attempts(cfg, env, p, limit, calls, context, history) && Consented(breaker, env, p, before, calls)
    && log == Asked(breaker, env, p, before, calls)
    && (calls == [] ==> now == entered)
    && (calls != [] ==> calls[0].start == entered && Allowed(log)
                        && Retries(cfg, env, p, limit, Last(calls), NextCall(env, p, calls, now, context, history)))
  }

  function NextCall(env: Env, p: nat, calls: seq<Call>, now: real, context: seq<string>, history: seq<ChatTurn>): Call {
    Call(|calls| + 1, now, env.reply(p, |calls| + 1), context, history)
  }

  /** After the last attempt. */
  ghost predicate Over(cfg: Settings, env: Env, breaker: Config, p: nat, limit: real, before: seq<Event>, calls: seq<Call>,
                       context: seq<string>, history: seq<ChatTurn>, log: seq<Event>, entered: real, refused: bool) {
    && calls != [] && calls[0].start == entered
    && Attempts(cfg, env, p, limit, calls, context, history) && Consented(breaker, env, p, before, calls)
    && (Last(calls).reply.Error? ==> GaveUp(cfg, env, p, limit, calls, refused))
    && (refused ==> !Allowed(log) && MayRetry(cfg, calls))
    && log == if refused then Asked(breaker, env, p, before, calls) else Recorded(breaker, env, p, before, calls)
  }

  lemma AttemptsNext(cfg: Settings, env: Env, breaker: Config, p: nat, limit: real, before: seq<Event>, calls: seq<Call>,
                     context: seq<string>, history: seq<ChatTurn>, log: seq<Event>, entered: real, now: real)
    requires Underway(cfg, env, breaker, p, limit, before, calls, context, history, log, entered, now)
    ensures var c := NextCall(env, p, calls, now, context, history);
            && Attempts(cfg, env, p, limit, calls + [c], context, history)
            && Consented(breaker, env, p, before, calls + [c]) && (calls + [c])[0].start == entered
            && Recorded(breaker, env, p, before, calls + [c]) == log + [Recording(env, p, c)]
  {
    var c := NextCall(env, p, calls, now, context, history);
    assert Init(calls + [c]) == calls && Last(calls + [c]) == c;
  }

  /** One provider's turn: its breaker's log when first asked, the calls that followed, and
      the log afterwards. `refused` says that the breaker ended the retries. */
  datatype Visit = Visit(log: seq<Event>, at: real, calls: seq<Call>, refused: bool, after: seq<Event>)

  function Opening(breaker: Config, v: Visit): seq<Event> { v.log + [Asking(breaker, v.log, v.at)] }

  /** The breaker's log after the visit. */
  function AfterVisit(breaker: Config, env: Env, p: nat, v: Visit): seq<Event> {
    if v.refused then Asked(breaker, env, p, Opening(breaker, v), v.calls)
    else Recorded(breaker, env, p, Opening(breaker, v), v.calls)
  }

  lemma {:induction false} RecordedExtends(breaker: Config, env: Env, p: nat, log: seq<Event>, calls: seq<Call>)
    ensures log <= Recorded(breaker, env, p, log, calls) && log <= Asked(breaker, env, p, log, calls)
    decreases |calls|
  {
    if calls != [] {
      RecordedExtends(breaker, env, p, log, Init(calls));
    }
  }

  lemma VisitExtends(breaker: Config, env: Env, p: nat, v: Visit)
    ensures v.log <= AfterVisit(breaker, env, p, v)
  {
    RecordedExtends(breaker, env, p, Opening(breaker, v), v.calls);
  }

  function Left(env: Env, p: nat, v: Visit): real {
    if v.calls == [] then v.at else Ended(env, p, Last(v.calls))
  }

  /** The rules of a visit: the provider is called exactly when its breaker admits it, at
      once, retried by the rules of `Attempts`, and given up only as in `GaveUp`. */
  ghost predicate Visited(cfg: Settings, env: Env, breaker: Config, p: nat, limit: real, v: Visit,
                          context: seq<string>, history: seq<ChatTurn>) {
    && Legal(v.log, breaker)
    && (v.calls != [] <==> cfg.maxAttempts >= 1 && Allowed(Opening(breaker, v)))
    && (v.calls != [] ==> v.calls[0].start == v.at)
    && Attempts(cfg, env, p, limit, v.calls, context, history)
    && Consented(breaker, env, p, Opening(breaker, v), v.calls)
    && v.after == AfterVisit(breaker, env, p, v)
    && (v.refused ==> v.calls != [] && !Allowed(v.after) && MayRetry(cfg, v.calls))
    && (v.calls != [] && Last(v.calls).reply.Error? ==> GaveUp(cfg, env, p, limit, v.calls, v.refused))
  }

  ghost predicate LoggedIn(logs: seq<seq<Event>>, trace: seq<Visit>) {
    |trace| <= |logs| && forall p :: 0 <= p < |trace| ==> trace[p].after <= logs[p]
  }

  /** Logs that only grow keep the visits they hold. */
  lemma LoggedNext(logs: seq<seq<Event>>, logs': seq<seq<Event>>, trace: seq<Visit>, v: Visit)
    requires LoggedIn(logs, trace) && |logs| == |logs'| && |trace| < |logs|
    requires forall p :: 0 <= p < |logs| ==> logs[p] <= logs'[p]
    requires v.after <= logs'[|trace|]
    ensures LoggedIn(logs', trace + [v])
  {
    forall p | 0 <= p < |trace| ensures trace[p].after <= logs'[p] {
      assert trace[p].after <= logs[p] <= logs'[p];
    }
  }

  predicate Failing(v: Visit) { v.calls == [] || Last(v.calls).reply.Error? }

  class GatewayProvider {
    const cfg: Settings
    const env: Env
    const breakers: seq<CircuitBreaker>   // one per provider, in order; providers may share one

    ghost const Footprint: set<CircuitBreaker>
    ghost const configs: seq<Config>

    ghost predicate Valid()
      reads this, Footprint
    {
      && (forall b :: b in breakers ==> b in Footprint) && (forall b :: b in Footprint ==> b.Valid())
      && |configs| == |breakers| && forall p :: 0 <= p < |breakers| ==> breakers[p].cfg == configs[p]
    }

    constructor (cfg: Settings, env: Env, breakers: seq<CircuitBreaker>)
      requires forall b :: b in breakers ==> b.Valid()
      ensures Valid() && this.cfg == cfg && this.env == env && this.breakers == breakers
      ensures Footprint == (set b | b in breakers) && |configs| == |breakers|
      ensures forall p :: 0 <= p < |breakers| ==> breakers[p].cfg == configs[p]
    {
      this.cfg, this.env, this.breakers := cfg, env, breakers;
      this.Footprint := set b | b in breakers;
      this.configs := seq(|breakers|, p requires 0 <= p < |breakers| => breakers[p].cfg);
    }

    /** One provider call and its record. */
    method CallOnce(breaker: CircuitBreaker, p: nat, attempt: nat, start: real) returns (reply: Reply, now: real)
      requires breaker.Valid()
      modifies breaker
      ensures breaker.Valid() && reply == env.reply(p, attempt) && now == start + env.duration(p, attempt)
      ensures breaker.log == old(breaker.log) + [if reply.Answer? then Succeeded else Failed(now)]
    {
      reply := env.reply(p, attempt);
      now := start + env.duration(p, attempt);
      if reply.Answer? {
        breaker.RecordSuccess();
      } else {
        breaker.RecordFailure(now);
      }
    }

    /** allow(), as the log tells it. */
    method Ask(breaker: CircuitBreaker, now: real) returns (ok: bool)
      requires breaker.Valid()
      modifies breaker
      ensures breaker.Valid() && ok == Allowed(breaker.log)
      ensures breaker.log == old(breaker.log) + [Asking(breaker.cfg, old(breaker.log), now)]
    {
      ok := breaker.Allow(now);
    }

    /** One attempt: call, record, and on a transient failure see whether to try again. */
    method AttemptOnce(breaker: CircuitBreaker, p: nat, attempt: nat, context: seq<string>, history: seq<ChatTurn>,
                       limit: real, start: real, ghost entered: real, ghost before: seq<Event>, ghost earlier: seq<Call>)
      returns (reply: Reply, again: bool, now: real, ghost calls: seq<Call>, ghost refused: bool)
      requires breaker.Valid() && attempt == |earlier| + 1
      requires Underway(cfg, env, breaker.cfg, p, limit, before, earlier, context, history, breaker.log, entered, start)
      modifies breaker
      ensures breaker.Valid() && calls == earlier + [NextCall(env, p, earlier, start, context, history)]
      ensures reply == Last(calls).reply && (again ==> reply.Error?)
      ensures again ==> Underway(cfg, env, breaker.cfg, p, limit, before, calls, context, history, breaker.log, entered, now)
      ensures !again ==> now == Ended(env, p, Last(calls))
      ensures !again ==> Over(cfg, env, breaker.cfg, p, limit, before, calls, context, history, breaker.log, entered, refused)
    {
      AttemptsNext(cfg, env, breaker.cfg, p, limit, before, earlier, context, history, breaker.log, entered, start);
      calls, again, refused := earlier + [NextCall(env, p, earlier, start, context, history)], false, false;
      reply, now := CallOnce(breaker, p, attempt, start);
      if reply.Answer? || !IsRetryable(reply.failure) || attempt == cfg.maxAttempts {
        return;
      }
      var delay := Delay(cfg, env, p, attempt, reply.failure);
      if now + delay >= limit {
        return;
      }
      again := Ask(breaker, now);
      refused := !again;
      if again {
        now := now + delay;
      }
    }

    /** Try one provider with retries; return its answer or why it failed. */
    method Attempt(breaker: CircuitBreaker, p: nat, context: seq<string>, history: seq<ChatTurn>, limit: real, entered: real)
      returns (answer: Option<string>, failure: Option<Failure>, now: real, ghost calls: seq<Call>, ghost refused: bool)
      requires breaker.Valid()
      modifies breaker
      ensures breaker.Valid()
      ensures cfg.maxAttempts < 1 ==>
                answer.None? && failure.None? && calls == [] && !refused && now == entered && breaker.log == old(breaker.log)
      ensures cfg.maxAttempts >= 1 ==>
                && Over(cfg, env, breaker.cfg, p, limit, old(breaker.log), calls, context, history, breaker.log, entered, refused)
                && now == Ended(env, p, Last(calls))
                && match Last(calls).reply
                   case Answer(text) => answer == Some(text)
                   case Error(f) => answer.None? && failure == Some(f)
    {
      answer, failure, now, calls, refused := None, None, entered, [], false;
      ghost var before := breaker.log;
      var attempt: nat := 1;
      while attempt <= cfg.maxAttempts
        invariant breaker.Valid() && |calls| == attempt - 1
        invariant cfg.maxAttempts < 1 ==> answer.None? && failure.None? && calls == [] && !refused && now == entered && breaker.log == before
        invariant cfg.maxAttempts >= 1 ==>
                    Underway(cfg, env, breaker.cfg, p, limit, before, calls, context, history, breaker.log, entered, now)
        decreases cfg.maxAttempts - attempt
      {
        var reply, again;
        reply, again, now, calls, refused :=
          AttemptOnce(breaker, p, attempt, context, history, limit, now, entered, before, calls);
        if reply.Answer? {
          answer := Some(reply.text);
          return;
        }
        failure := Some(reply.failure);
        if !again {
          return;
        }
        attempt := attempt + 1;
      }
    }

    /** Ask the provider's breaker, then attempt it. */
    method TryProvider(p: nat, context: seq<string>, history: seq<ChatTurn>, limit: real, entered: real)
      returns (answer: Option<string>, note: Option<Note>, now: real, ghost v: Visit)
      requires Valid() && p < |breakers|
      modifies breakers[p]
      ensures Valid()
      ensures v.log == old(breakers[p].log) <= breakers[p].log && v.at == entered && now == Left(env, p, v)
      ensures breakers[p].log == v.after
      ensures Visited(cfg, env, configs[p], p, limit, v, context, history)
      ensures answer.Some? ==> v.calls != [] && Last(v.calls).reply == Answer(answer.value)
      ensures answer.None? ==> Failing(v)
      ensures answer.None? && cfg.maxAttempts >= 1 ==> note == Some(Reason(p, v))
    {
      var breaker := breakers[p];
      assert breaker in Footprint;
      ghost var log := breaker.log;
      var allowed := Ask(breaker, entered);
      if !allowed {
        answer, note, now, v := None, Some(Disabled(p)), entered, Visit(log, entered, [], false, breaker.log);
      } else {
        ghost var calls, refused;
        var failure;
        answer, failure, now, calls, refused := Attempt(breaker, p, context, history, limit, entered);
        note := if failure.Some? then Some(Gave(p, failure.value)) else None;
        v := Visit(log, entered, calls, refused, breaker.log);
      }
      VisitExtends(configs[p], env, p, v);
    }

    ghost function Logs(): (logs: seq<seq<Event>>)
      reads breakers
      ensures |logs| == |breakers| && forall p :: 0 <= p < |breakers| ==> logs[p] == breakers[p].log
    {
      seq(|breakers|, p requires 0 <= p < |breakers| reads breakers => breakers[p].log)
    }

    /** Each visit is in its breaker's log. */
    ghost predicate Logged(trace: seq<Visit>)
      reads breakers
    {
      LoggedIn(Logs(), trace)
    }

    /** Visit the next provider; `trace[p]` is the visit to provider `p`. */
    method VisitNext(p: nat, context: seq<string>, history: seq<ChatTurn>, limit: real, entered: real, now: real,
                     ghost trace: seq<Visit>)
      returns (answer: Option<string>, note: Option<Note>, left: real, ghost v: Visit)
      requires Valid() && p < |breakers| && |trace| == p && Logged(trace) && now == Reached(env, entered, trace)
      requires Visits(cfg, env, configs, limit, entered, trace, context, history)
      modifies breakers[p]
      ensures Valid() && Logged(trace + [v])
      ensures Visits(cfg, env, configs, limit, entered, trace + [v], context, history)
      ensures left == Reached(env, entered, trace + [v])
      ensures answer.Some? ==> v.calls != [] && Last(v.calls).reply == Answer(answer.value)
      ensures answer.None? ==> Failing(v)
      ensures answer.None? && cfg.maxAttempts >= 1 ==> note == Some(Reason(p, v))
    {
      ghost var logs := Logs();
      answer, note, left, v := TryProvider(p, context, history, limit, now);
      LoggedNext(logs, Logs(), trace, v);
      VisitsNext(cfg, env, configs, limit, entered, trace, context, history, v);
    }

    /** Visit the next provider and note why it gave no answer. */
    method Advance(p: nat, context: seq<string>, history: seq<ChatTurn>, limit: real, entered: real, now: real,
                   notes: seq<Note>, ghost trace: seq<Visit>)
      returns (answer: Option<string>, extended: seq<Note>, left: real, ghost longer: seq<Visit>)
      requires Valid() && p < |breakers| && |trace| == p && Logged(trace)
      requires NoAnswerYet(cfg, env, configs, limit, entered, trace, context, history, now, notes)
      modifies breakers[p]
      ensures Valid() && |longer| == p + 1 && Logged(longer)
      ensures answer.None? ==> NoAnswerYet(cfg, env, configs, limit, entered, longer, context, history, left, extended)
      ensures answer.Some? ==> Followed(cfg, env, configs, limit, entered, longer, context, history, Answered(p, answer.value))
    {
      ghost var v;
      var note;
      answer, note, left, v := VisitNext(p, context, history, limit, entered, now, trace);
      NoneAnsweredNext(trace, v);
      extended := if note.Some? then notes + [note.value] else notes;
      longer := trace + [v];
    }

    method TryAll(context: seq<string>, history: seq<ChatTurn>, limit: real, entered: real)
      returns (outcome: Outcome, ghost trace: seq<Visit>)
      requires Valid()
      modifies Footprint
      ensures Valid() && Logged(trace)
      ensures Followed(cfg, env, configs, limit, entered, trace, context, history, outcome)
    {
      var notes: seq<Note> := [];
      var now := entered;
      trace := [];
      var p := 0;
      while p < |breakers|
        invariant Valid() && 0 <= p <= |breakers| && |trace| == p && Logged(trace)
        invariant NoAnswerYet(cfg, env, configs, limit, entered, trace, context, history, now, notes)
      {
        assert breakers[p] in Footprint;
        var answer;
        answer, notes, now, trace := Advance(p, context, history, limit, entered, now, notes, trace);
        if answer.Some? {
          outcome := Answered(p, answer.value);
          return;
        }
        p := p + 1;
      }
      outcome := Degraded(notes);
    }

    method Complete(context: seq<string>, history: seq<ChatTurn>, entered: real)
      returns (outcome: Outcome, packed: seq<string>, trimmed: seq<ChatTurn>, ghost trace: seq<Visit>)
      requires Valid()
      modifies Footprint
      ensures Valid() && Logged(trace)
      ensures |packed| <= |context| && packed == Packed(context, cfg.contextTokens, |packed|)
      ensures context != [] ==> packed != []
      ensures cfg.contextTokens >= 1 ==> Cost(packed) <= cfg.contextTokens
      ensures cfg.contextTokens >= 1 ==>
                forall n :: |packed| < n <= |context| ==> Cost(Packed(context, cfg.contextTokens, n)) > cfg.contextTokens
      ensures |trimmed| <= |history| && trimmed == history[|history| - |trimmed|..]
      ensures trimmed == [] || Cost(Contents(trimmed)) <= cfg.historyTokens
      ensures forall n :: |trimmed| < n <= |history| ==> Cost(Recent(history, n)) > cfg.historyTokens
      ensures Followed(cfg, env, configs, entered + cfg.deadline, entered, trace, packed, trimmed, outcome)
    {
      packed := PackContext(context, cfg.contextTokens);
      trimmed := TrimHistory(history, cfg.historyTokens);
      outcome, trace := TryAll(packed, trimmed, entered + cfg.deadline, entered);
    }
  }

  /** Why a provider gave no answer: its breaker was open, or its last error. */
  function Reason(p: nat, v: Visit): Note {
    if v.calls == [] || !Last(v.calls).reply.Error? then Disabled(p) else Gave(p, Last(v.calls).reply.failure)
  }

  /** One reason per provider, in order. */
  function Reasons(trace: seq<Visit>): seq<Note> {
    if trace == [] then [] else Reasons(Init(trace)) + [Reason(|trace| - 1, Last(trace))]
  }

  lemma {:induction false} ReasonAt(trace: seq<Visit>, p: nat)
    requires p < |trace|
    ensures |Reasons(trace)| == |trace| && Reasons(trace)[p] == Reason(p, trace[p])
    ensures trace[p].calls == [] ==> Reasons(trace)[p] == Disabled(p)
    ensures trace[p].calls != [] && Last(trace[p].calls).reply.Error? ==>
              Reasons(trace)[p] == Gave(p, Last(trace[p].calls).reply.failure)
  {
    if p < |trace| - 1 {
      ReasonAt(Init(trace), p);
    } else if p > 0 {
      ReasonAt(Init(trace), p - 1);
    }
  }

  /** Providers are visited in order, one after the other. */
  ghost predicate Visits(cfg: Settings, env: Env, configs: seq<Config>, limit: real, entered: real, trace: seq<Visit>,
                         context: seq<string>, history: seq<ChatTurn>) {
    trace == [] ||
    (&& Visits(cfg, env, configs, limit, entered, Init(trace), context, history) && |trace| <= |configs|
     && Visited(cfg, env, configs[|trace| - 1], |trace| - 1, limit, Last(trace), context, history)
     && Last(trace).at == Reached(env, entered, Init(trace)))
  }

  /** When the providers of `trace` have been visited. */
  function Reached(env: Env, entered: real, trace: seq<Visit>): real {
    if trace == [] then entered else Left(env, |trace| - 1, Last(trace))
  }

  ghost predicate NoneAnswered(trace: seq<Visit>) {
    trace == [] || (NoneAnswered(Init(trace)) && Failing(Last(trace)))
  }

  lemma NoneAnsweredNext(trace: seq<Visit>, v: Visit)
    requires NoneAnswered(trace)
    ensures NoneAnswered(trace + [v]) <==> Failing(v)
    ensures Init(trace + [v]) == trace && Last(trace + [v]) == v
    ensures Reasons(trace + [v]) == Reasons(trace) + [Reason(|trace|, v)]
  {
    assert Init(trace + [v]) == trace && Last(trace + [v]) == v;
  }

  lemma {:induction false} NoneAnsweredAt(trace: seq<Visit>, p: nat)
    requires NoneAnswered(trace) && p < |trace|
    ensures Failing(trace[p])
  {
    if p < |trace| - 1 {
      NoneAnsweredAt(Init(trace), p);
    }
  }

  lemma VisitsNext(cfg: Settings, env: Env, configs: seq<Config>, limit: real, entered: real, trace: seq<Visit>,
                   context: seq<string>, history: seq<ChatTurn>, v: Visit)
    requires Visits(cfg, env, configs, limit, entered, trace, context, history) && |trace| < |configs|
    requires v.at == Reached(env, entered, trace)
    requires Visited(cfg, env, configs[|trace|], |trace|, limit, v, context, history)
    ensures Visits(cfg, env, configs, limit, entered, trace + [v], context, history)
    ensures Reached(env, entered, trace + [v]) == Left(env, |trace|, v)
  {
    assert Init(trace + [v]) == trace && Last(trace + [v]) == v;
  }

  /** After the providers of `trace`, at time `now`: none answered, and `notes` says why. */
  ghost predicate NoAnswerYet(cfg: Settings, env: Env, configs: seq<Config>, limit: real, entered: real, trace: seq<Visit>,
                              context: seq<string>, history: seq<ChatTurn>, now: real, notes: seq<Note>) {
    && Visits(cfg, env, configs, limit, entered, trace, context, history)
    && now == Reached(env, entered, trace)
    && NoneAnswered(trace)
    && (cfg.maxAttempts >= 1 ==> notes == Reasons(trace))
  }

  /** The protocol of one request: the answer is the first success, and without one every
      provider was visited and gives one reason. */
  ghost predicate Followed(cfg: Settings, env: Env, configs: seq<Config>, limit: real, entered: real, trace: seq<Visit>,
                           context: seq<string>, history: seq<ChatTurn>, outcome: Outcome) {
    && Visits(cfg, env, configs, limit, entered, trace, context, history)
    && match outcome
       case Answered(p, text) =>
         && |trace| == p + 1 && trace[p].calls != [] && Last(trace[p].calls).reply == Answer(text)
         && NoneAnswered(Init(trace))
       case Degraded(notes) =>
         && |trace| == |configs| && NoneAnswered(trace)
         && (cfg.maxAttempts >= 1 ==> notes == Reasons(trace))
  }

  lemma {:induction false} AttemptAt(cfg: Settings, env: Env, p: nat, limit: real, calls: seq<Call>,
                                     context: seq<string>, history: seq<ChatTurn>, i: nat)
    requires Attempts(cfg, env, p, limit, calls, context, history) && i < |calls|
    ensures |calls| <= cfg.maxAttempts
    ensures calls[i] == Call(i + 1, calls[i].start, env.reply(p, i + 1), context, history)
    ensures i > 0 ==> calls[i].start < limit && Retries(cfg, env, p, limit, calls[i - 1], calls[i])
    ensures !Transient(calls[i].reply) ==> i == |calls| - 1
  {
    if i < |calls| - 1 {
      AttemptAt(cfg, env, p, limit, Init(calls), context, history, i);
    }
  }

  lemma {:induction false} VisitAt(cfg: Settings, env: Env, configs: seq<Config>, limit: real, entered: real,
                                   trace: seq<Visit>, context: seq<string>, history: seq<ChatTurn>, p: nat)
    requires Visits(cfg, env, configs, limit, entered, trace, context, history) && p < |trace|
    ensures |trace| <= |configs| && Visited(cfg, env, configs[p], p, limit, trace[p], context, history)
  {
    if p < |trace| - 1 {
      VisitAt(cfg, env, configs, limit, entered, Init(trace), context, history, p);
    }
  }

  /** What a followed protocol guarantees to a caller, call by call: at most `maxAttempts`
      calls per provider, all with the packed prompt, nothing after a permanent failure or a
      success, every retry strictly before the deadline, and no success that is not the answer. */
  lemma CallsBounded(cfg: Settings, env: Env, configs: seq<Config>, limit: real, entered: real, trace: seq<Visit>,
                     context: seq<string>, history: seq<ChatTurn>, outcome: Outcome, p: nat, i: nat)
    requires Followed(cfg, env, configs, limit, entered, trace, context, history, outcome)
    requires p < |trace| && i < |trace[p].calls|
    ensures var calls := trace[p].calls;
            && |calls| <= cfg.maxAttempts && calls[i].attempt == i + 1
            && calls[i].context == context && calls[i].history == history
            && (i > 0 ==> calls[i].start < limit)
            && (!Transient(calls[i].reply) ==> i == |calls| - 1)
            && (calls[i].reply.Answer? <==> outcome.Answered? && outcome.provider == p && i == |calls| - 1)
  {
    VisitAt(cfg, env, configs, limit, entered, trace, context, history, p);
    AttemptAt(cfg, env, p, limit, trace[p].calls, context, history, i);
    if outcome.Degraded? {
      NoneAnsweredAt(trace, p);
    } else if outcome.provider != p {
      NoneAnsweredAt(Init(trace), p);
    }
  }

  lemma AskedLegally(breaker: Config, log: seq<Event>, at: real)
    requires Legal(log, breaker)
    ensures Legal(log + [Asking(breaker, log, at)], breaker)
    ensures Allowed(log + [Asking(breaker, log, at)]) <==> MayPass(log, breaker, at)
  {
    AdmitsIff(log, breaker, at);
    assert Init(log + [Asking(breaker, log, at)]) == log;
  }

  lemma {:induction false} RecordedLegally(breaker: Config, env: Env, p: nat, log: seq<Event>, calls: seq<Call>)
    requires Legal(log, breaker)
    ensures Legal(Recorded(breaker, env, p, log, calls), breaker)
    ensures Legal(Asked(breaker, env, p, log, calls), breaker)
    ensures calls != [] ==>
              (Allowed(Asked(breaker, env, p, log, calls))
               <==> MayPass(Recorded(breaker, env, p, log, calls), breaker, Ended(env, p, Last(calls))))
    decreases |calls|
  {
    if calls != [] {
      RecordedLegally(breaker, env, p, log, Init(calls));
      var before, done := Asked(breaker, env, p, log, Init(calls)), Recorded(breaker, env, p, log, calls);
      assert Init(done) == before && Last(done) == Recording(env, p, Last(calls));
      AskedLegally(breaker, done, Ended(env, p, Last(calls)));
    }
  }

  lemma {:induction false} ConsentedAt(breaker: Config, env: Env, p: nat, log: seq<Event>, calls: seq<Call>, i: nat)
    requires Consented(breaker, env, p, log, calls) && 1 <= i < |calls|
    ensures Allowed(Asked(breaker, env, p, log, calls[..i]))
  {
    if i < |calls| - 1 {
      ConsentedAt(breaker, env, p, log, Init(calls), i);
      assert Init(calls)[..i] == calls[..i];
    } else {
      assert Init(calls) == calls[..i];
    }
  }

  lemma RetryPasses(breaker: Config, env: Env, p: nat, log: seq<Event>, calls: seq<Call>, i: nat)
    requires Legal(log, breaker) && Consented(breaker, env, p, log, calls) && 1 <= i < |calls|
    ensures MayPass(Recorded(breaker, env, p, log, calls[..i]), breaker, Ended(env, p, calls[i - 1]))
  {
    ConsentedAt(breaker, env, p, log, calls, i);
    RecordedLegally(breaker, env, p, log, calls[..i]);
    assert Last(calls[..i]) == calls[i - 1];
  }

  /** The provider is called exactly when its breaker's log lets a request pass at that time,
      and so is each retry; it is given up as refused only when the log does not. */
  ghost predicate Passes(cfg: Settings, env: Env, breaker: Config, p: nat, v: Visit) {
    && (v.calls != [] <==> cfg.maxAttempts >= 1 && MayPass(v.log, breaker, v.at))
    && (forall i :: 1 <= i < |v.calls| ==>
          MayPass(Recorded(breaker, env, p, Opening(breaker, v), v.calls[..i]), breaker, Ended(env, p, v.calls[i - 1])))
    && (v.refused ==>
          && v.calls != []
          && !MayPass(Recorded(breaker, env, p, Opening(breaker, v), v.calls), breaker, Ended(env, p, Last(v.calls))))
  }

  lemma VisitPasses(cfg: Settings, env: Env, breaker: Config, p: nat, limit: real, v: Visit,
                    context: seq<string>, history: seq<ChatTurn>)
    requires Visited(cfg, env, breaker, p, limit, v, context, history)
    ensures Passes(cfg, env, breaker, p, v)
  {
    AskedLegally(breaker, v.log, v.at);
    RecordedLegally(breaker, env, p, Opening(breaker, v), v.calls);
    forall i | 1 <= i < |v.calls|
      ensures MayPass(Recorded(breaker, env, p, Opening(breaker, v), v.calls[..i]), breaker, Ended(env, p, v.calls[i - 1]))
    {
      RetryPasses(breaker, env, p, Opening(breaker, v), v.calls, i);
    }
  }

  /** What a followed protocol owes to the circuit breakers. */
  lemma CallsPass(cfg: Settings, env: Env, configs: seq<Config>, limit: real, entered: real, trace: seq<Visit>,
                  context: seq<string>, history: seq<ChatTurn>, outcome: Outcome, p: nat)
    requires Followed(cfg, env, configs, limit, entered, trace, context, history, outcome) && p < |trace|
    ensures |trace| <= |configs| && Passes(cfg, env, configs[p], p, trace[p])
  {
    VisitAt(cfg, env, configs, limit, entered, trace, context, history, p);
    VisitPasses(cfg, env, configs[p], p, limit, trace[p], context, history);
  }

  /** Rate limits, server errors and connection trouble are retried: such a call is the last
      one only when no attempt is left, the wait would pass the deadline, or the breaker
      refuses. After any other failure no call follows. */
  lemma RetriedExactly(cfg: Settings, env: Env, breaker: Config, p: nat, limit: real, v: Visit,
                       context: seq<string>, history: seq<ChatTurn>, i: nat, f: Failure)
    requires Visited(cfg, env, breaker, p, limit, v, context, history) && i < |v.calls| && v.calls[i].reply == Error(f)
    ensures (f.HttpError? && f.code != 429 && f.code < 500) || f.Rejected? || f.Unexpected? ==> i == |v.calls| - 1
    ensures (f.HttpError? && (f.code == 429 || f.code >= 500)) || f.UrlError? || f.TimedOut? || f.ConnectionLost? ==>
              || i < |v.calls| - 1 || |v.calls| == cfg.maxAttempts || v.refused
              || Ended(env, p, v.calls[i]) + Delay(cfg, env, p, i + 1, f) >= limit
  {
    AttemptAt(cfg, env, p, limit, v.calls, context, history, i);
  }

  /** The time that the server asked for, or else a share of the backoff, which doubles with
      every attempt up to its maximum. */
  ghost predicate WaitRule(cfg: Settings, draw: real, n: nat, f: Failure, wait: real) {
    if f.HttpError? && f.retryAfter.Some? then wait == f.retryAfter.value as real
    else
      && 0.0 <= wait <= cfg.maxDelay && wait <= cfg.baseDelay * Pow2(n)
      && (draw == 1.0 ==> wait == cfg.maxDelay || wait == cfg.baseDelay * Pow2(n))
  }

  lemma DelayRule(cfg: Settings, env: Env, p: nat, n: nat, f: Failure)
    requires 0.0 <= env.draw(p, n) <= 1.0 && 0.0 <= cfg.baseDelay && 0.0 <= cfg.maxDelay
    ensures WaitRule(cfg, env.draw(p, n), n, f, Delay(cfg, env, p, n, f))
  {
    BackoffShare(cfg, env, p, n);
  }

  /** It passes between two attempts. */
  lemma WaitBetween(cfg: Settings, env: Env, breaker: Config, p: nat, limit: real, v: Visit,
                    context: seq<string>, history: seq<ChatTurn>, i: nat, f: Failure)
    requires Visited(cfg, env, breaker, p, limit, v, context, history) && i + 1 < |v.calls| && v.calls[i].reply == Error(f)
    requires 0.0 <= env.draw(p, i + 1) <= 1.0 && 0.0 <= cfg.baseDelay && 0.0 <= cfg.maxDelay
    ensures WaitRule(cfg, env.draw(p, i + 1), i + 1, f, v.calls[i + 1].start - Ended(env, p, v.calls[i]))
  {
    assert v.calls[i + 1].start - Ended(env, p, v.calls[i]) == Delay(cfg, env, p, i + 1, f) by {
      AttemptAt(cfg, env, p, limit, v.calls, context, history, i);
      AttemptAt(cfg, env, p, limit, v.calls, context, history, i + 1);
    }
    DelayRule(cfg, env, p, i + 1, f);
  }

  lemma BackoffShare(cfg: Settings, env: Env, p: nat, n: nat)
    requires 0.0 <= env.draw(p, n) <= 1.0 && 0.0 <= cfg.baseDelay && 0.0 <= cfg.maxDelay
    ensures 0.0 <= PartOf(env.draw(p, n), Backoff(cfg, n)) <= Backoff(cfg, n)
    ensures env.draw(p, n) == 1.0 ==> PartOf(env.draw(p, n), Backoff(cfg, n)) == Backoff(cfg, n)
    ensures Backoff(cfg, n) <= cfg.maxDelay && Backoff(cfg, n) <= cfg.baseDelay * Pow2(n)
    ensures Backoff(cfg, n) == cfg.maxDelay || Backoff(cfg, n) == cfg.baseDelay * Pow2(n)
  {
    ProductNonNegative(cfg.baseDelay, Pow2(n));
    PartBounds(env.draw(p, n), Backoff(cfg, n));
  }
}
