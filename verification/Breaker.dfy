/** gateway.py, CircuitBreaker: its state is determined by the log of what happened to it. */
module Breaker {
  import opened Sequences
  import opened Arithmetic

  datatype State = State(failures: nat, openedAt: Option<real>, trialInFlight: bool)

  datatype Config = Config(threshold: int, resetAfter: real)

  datatype Phase = Closed | HalfOpen | Open

  const FRESH := State(0, None, false)

  function PhaseOf(s: State, cfg: Config, now: real): Phase {
    match s.openedAt
    case None => Closed
    case Some(at) => if now - at >= cfg.resetAfter then HalfOpen else Open
  }

  predicate Admits(s: State, cfg: Config, now: real) {
    PhaseOf(s, cfg, now) == Closed || (PhaseOf(s, cfg, now) == HalfOpen && !s.trialInFlight)
  }

  function AfterAdmission(s: State, cfg: Config, now: real): State {
    if PhaseOf(s, cfg, now) == HalfOpen then s.(trialInFlight := true) else s
  }

  function AfterFailure(s: State, cfg: Config, now: real): State {
    State(s.failures + 1,
          if s.openedAt.Some? || s.failures + 1 >= cfg.threshold then Some(now) else None,
          false)
  }

  /* ---- the event log ---- */

  datatype Event =
    | Admitted(at: real, trial: bool)
    | Refused(at: real)
    | Succeeded
    | Failed(at: real)

  predicate Timed(e: Event) { !e.Succeeded? }

  function AfterEvent(s: State, cfg: Config, e: Event): State {
    match e
    case Admitted(at, _) => AfterAdmission(s, cfg, at)
    case Refused(_) => s
    case Succeeded => FRESH
    case Failed(at) => AfterFailure(s, cfg, at)
  }

  function Replay(log: seq<Event>, cfg: Config): State {
    if log == [] then FRESH else AfterEvent(Replay(Init(log), cfg), cfg, Last(log))
  }

  /** Every admission and refusal is the one the breaker decides from what came before. */
  predicate Legal(log: seq<Event>, cfg: Config) {
    log == [] ||
    (&& Legal(Init(log), cfg)
     && match Last(log)
        case Admitted(at, trial) =>
          Admits(Replay(Init(log), cfg), cfg, at) && trial == (PhaseOf(Replay(Init(log), cfg), cfg, at) == HalfOpen)
        case Refused(at) => !Admits(Replay(Init(log), cfg), cfg, at)
        case _ => true)
  }

  /** Failures since the last success. */
  function TrailingFailures(log: seq<Event>): nat {
    if log == [] || Last(log).Succeeded? then 0
    else TrailingFailures(Init(log)) + if Last(log).Failed? then 1 else 0
  }

  function LastFailure(log: seq<Event>): Option<real> {
    if log == [] then None
    else if Last(log).Failed? then Some(Last(log).at)
    else LastFailure(Init(log))
  }

  /** The failures in a row have reached the threshold (one at least). */
  predicate Tripped(log: seq<Event>, cfg: Config) { TrailingFailures(log) >= Max(1, cfg.threshold) }

  /** Somebody was admitted since the last record. */
  predicate AdmittedSince(log: seq<Event>) {
    log != [] && (Last(log).Admitted? || (Last(log).Refused? && AdmittedSince(Init(log))))
  }

  /** The promise of a circuit breaker, told from what happened alone: everybody passes until
      failures in a row trip it; then one request per record does, a cool-down after the last failure. */
  predicate MayPass(log: seq<Event>, cfg: Config, at: real) {
    || !Tripped(log, cfg)
    || (LastFailure(log).Some? && at - LastFailure(log).value >= cfg.resetAfter && !AdmittedSince(log))
  }

  class CircuitBreaker {
    const cfg: Config
    var failures: nat
    var openedAt: Option<real>
    var trialInFlight: bool
    ghost var log: seq<Event>

    ghost function Current(): State
      reads this
    {
      State(failures, openedAt, trialInFlight)
    }

    ghost predicate Valid()
      reads this
    {
      Current() == Replay(log, cfg) && Legal(log, cfg)
    }

    constructor (threshold: int, resetAfter: real)
      ensures Valid() && log == [] && cfg == Config(threshold, resetAfter)
    {
      cfg := Config(threshold, resetAfter);
      failures, openedAt, trialInFlight, log := 0, None, false, [];
    }

    method Phase(now: real) returns (phase: Phase)
      ensures phase == PhaseOf(Current(), cfg, now)
    {
      if openedAt.None? {
        return Closed;
      }
      if now - openedAt.value >= cfg.resetAfter {
        return HalfOpen;
      }
      return Open;
    }

    method Allow(now: real) returns (ok: bool)
      requires Valid()
      modifies this
      ensures Valid()
      ensures ok == Admits(old(Current()), cfg, now) == MayPass(old(log), cfg, now)
      ensures Current() == if ok then AfterAdmission(old(Current()), cfg, now) else old(Current())
      ensures log == old(log) + [if ok then Admitted(now, PhaseOf(old(Current()), cfg, now) == HalfOpen) else Refused(now)]
    {
      AdmitsIff(log, cfg, now);
      var phase := Phase(now);
      if phase == Closed {
        ok := true;
      } else if phase == HalfOpen && !trialInFlight {
        trialInFlight := true;
        ok := true;
      } else {
        ok := false;
      }
      log := log + [if ok then Admitted(now, phase == HalfOpen) else Refused(now)];
      assert Init(log) == old(log);
    }

    method RecordSuccess()
      requires Valid()
      modifies this
      ensures Valid() && Current() == FRESH && log == old(log) + [Succeeded]
    {
      failures, openedAt, trialInFlight := 0, None, false;
      log := log + [Succeeded];
      assert Init(log) == old(log);
    }

    method RecordFailure(now: real)
      requires Valid()
      modifies this
      ensures Valid() && log == old(log) + [Failed(now)]
      ensures Current() == AfterFailure(old(Current()), cfg, now)
    {
      failures := failures + 1;
      trialInFlight := false;
      if openedAt.Some? || failures >= cfg.threshold {
        openedAt := Some(now);
      }
      assert Current() == AfterFailure(old(Current()), cfg, now);
      log := log + [Failed(now)];
      assert Init(log) == old(log) && Last(log) == Failed(now);
    }
  }

  /* ---- what the log says about the state ---- */

  /** The breaker counts the trailing failures, is open or half-open exactly when they reach
      the threshold (a threshold below one acts as one), and dates its cool-down from the
      last failure. */
  lemma {:induction false} StateFromLog(log: seq<Event>, cfg: Config)
    ensures Replay(log, cfg).failures == TrailingFailures(log)
    ensures Replay(log, cfg).openedAt.Some? <==> TrailingFailures(log) >= Max(1, cfg.threshold)
    ensures Replay(log, cfg).openedAt.Some? ==> Replay(log, cfg).openedAt == LastFailure(log)
  {
    if log != [] {
      StateFromLog(Init(log), cfg);
    }
  }

  /** A trial is in flight exactly when the breaker is tripped and has admitted somebody since
      the last record. */
  lemma {:induction false} TrialFromLog(log: seq<Event>, cfg: Config)
    requires Legal(log, cfg)
    ensures Replay(log, cfg).trialInFlight <==> Tripped(log, cfg) && AdmittedSince(log)
  {
    if log != [] {
      TrialFromLog(Init(log), cfg);
      StateFromLog(Init(log), cfg);
    }
  }

  /** The breaker keeps its promise. */
  lemma AdmitsIff(log: seq<Event>, cfg: Config, at: real)
    requires Legal(log, cfg)
    ensures Admits(Replay(log, cfg), cfg, at) <==> MayPass(log, cfg, at)
    ensures PhaseOf(Replay(log, cfg), cfg, at) == Closed <==> !Tripped(log, cfg)
  {
    StateFromLog(log, cfg);
    TrialFromLog(log, cfg);
  }

  /** Over every log: a request is admitted exactly when it may pass, and as a trial exactly
      when the breaker is tripped. */
  lemma LogKeepsPromise(log: seq<Event>, cfg: Config, j: nat)
    requires Legal(log, cfg) && j < |log|
    ensures log[j].Admitted? ==> MayPass(log[..j], cfg, log[j].at) && (log[j].trial <==> Tripped(log[..j], cfg))
    ensures log[j].Refused? ==> !MayPass(log[..j], cfg, log[j].at)
  {
    LegalPrefix(log, cfg, j + 1);
    assert Init(log[..j + 1]) == log[..j] && Last(log[..j + 1]) == log[j];
    if log[j].Admitted? || log[j].Refused? {
      AdmitsIff(log[..j], cfg, log[j].at);
    }
  }

  /** A trial stays in flight until something is recorded. */
  lemma {:induction false} TrialHeld(log: seq<Event>, cfg: Config, i: nat, j: nat)
    requires i < j <= |log| && Legal(log[..i + 1], cfg) && log[i].Admitted? && log[i].trial
    requires forall k :: i < k < j ==> !log[k].Succeeded? && !log[k].Failed?
    ensures Replay(log[..j], cfg).trialInFlight
  {
    assert Init(log[..j]) == log[..j - 1] && Last(log[..j]) == log[j - 1];
    if i + 1 < j {
      TrialHeld(log, cfg, i, j - 1);
    }
  }

  lemma {:induction false} LegalPrefix(log: seq<Event>, cfg: Config, n: nat)
    requires Legal(log, cfg) && n <= |log|
    ensures Legal(log[..n], cfg)
  {
    if n < |log| {
      LegalPrefix(Init(log), cfg, n);
      assert Init(log)[..n] == log[..n];
    } else {
      assert log[..n] == log;
    }
  }

  ghost predicate Monotone(log: seq<Event>) {
    forall i, j :: 0 <= i < j < |log| && Timed(log[i]) && Timed(log[j]) ==> log[i].at <= log[j].at
  }

  lemma {:induction false} LastFailureAfter(log: seq<Event>, i: nat, k: nat)
    requires i < k < |log| && log[k].Failed? && Timed(log[i]) && Monotone(log)
    ensures LastFailure(log).Some? && LastFailure(log).value >= log[i].at
  {
    if k < |log| - 1 && !Last(log).Failed? {
      LastFailureAfter(Init(log), i, k);
    }
  }

  /** Two half-open admissions with no success between them have a failure between them,
      and on a monotone clock they are at least the cool-down apart. */
  lemma TrialsSpacedOut(log: seq<Event>, cfg: Config, i: nat, j: nat)
    requires Legal(log, cfg) && i < j < |log|
    requires log[i].Admitted? && log[i].trial && log[j].Admitted? && log[j].trial
    requires forall k :: i < k < j ==> !log[k].Succeeded?
    ensures exists k :: i < k < j && log[k].Failed?
    ensures Monotone(log) ==> log[j].at - log[i].at >= cfg.resetAfter
  {
    TrialIsFree(log, cfg, j);
    if forall k :: i < k < j ==> !log[k].Failed? {
      LegalPrefix(log, cfg, i + 1);
      TrialHeld(log, cfg, i, j);
      assert false;
    }
    if Monotone(log) {
      var k :| i < k < j && log[k].Failed?;
      LastFailureAfter(log[..j], i, k);
    }
  }

  /** A trial is admitted only when none is in flight, a cool-down after the last failure. */
  lemma TrialIsFree(log: seq<Event>, cfg: Config, j: nat)
    requires Legal(log, cfg) && j < |log| && log[j].Admitted? && log[j].trial
    ensures !Replay(log[..j], cfg).trialInFlight
    ensures LastFailure(log[..j]).Some? && log[j].at - LastFailure(log[..j]).value >= cfg.resetAfter
  {
    LegalPrefix(log, cfg, j + 1);
    assert Init(log[..j + 1]) == log[..j] && Last(log[..j + 1]) == log[j];
    StateFromLog(log[..j], cfg);
  }
}
