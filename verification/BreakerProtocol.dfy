/** Many concurrent `complete` calls share the providers' breakers. A step is one atomic
    action of one request: a breaker call under its lock, or the start or return of a
    provider call. Runs are arbitrary interleavings of steps. */
module BreakerProtocol {
  import opened Sequences
  import opened Breaker

  /** `breakerOf[p]` is the breaker of provider `p`; providers of one name share it. Each breaker
      has its own configuration. */
  datatype Gateway = Gateway(breakerOf: seq<nat>, cfgs: seq<Config>, maxAttempts: int)

  datatype Pc =
    | Entering                       // about to ask the next provider's breaker
    | Ready(attempt: nat)            // admitted; the provider will be called, perhaps after a sleep
    | Calling(attempt: nat)
    | Returned(attempt: nat, ok: bool, retryable: bool)
    | Deciding(attempt: nat)         // a transient failure was recorded; retry or move on
    | Finished

  datatype Request = Request(provider: nat, pc: Pc, admissions: nat, calls: nat, records: nat)

  /** `setter[b]` is the request that last set the trial flag of breaker `b`. */
  datatype System = System(breakers: seq<State>, setter: seq<Option<nat>>, requests: map<nat, Request>)

  datatype Step =
    | Arrive(id: nat)
    | Enter(id: nat, now: real)
    | Call(id: nat)
    | Return(id: nat, ok: bool, retryable: bool)
    | Record(id: nat, now: real)
    | Decide(id: nat, late: bool, now: real)

  predicate WellFormed(g: Gateway) {
    forall p :: 0 <= p < |g.breakerOf| ==> g.breakerOf[p] < |g.cfgs|
  }

  /** The gateway may be given breakers with a past, as long as nobody is using them. */
  predicate Idle(g: Gateway, initial: seq<State>) {
    |initial| == |g.cfgs| && forall b :: 0 <= b < |initial| ==> !initial[b].trialInFlight
  }

  function Start(initial: seq<State>): System {
    System(initial, seq(|initial|, _ => None), map[])
  }

  predicate Shape(g: Gateway, s: System) {
    |s.breakers| == |s.setter| == |g.cfgs|
  }

  predicate Enabled(g: Gateway, s: System, step: Step) {
    match step
    case Arrive(id) => id !in s.requests
    case Enter(id, _) => id in s.requests && s.requests[id].pc.Entering?
    case Call(id) => id in s.requests && s.requests[id].pc.Ready?
    case Return(id, _, _) => id in s.requests && s.requests[id].pc.Calling?
    case Record(id, _) => id in s.requests && s.requests[id].pc.Returned? && s.requests[id].provider < |g.breakerOf|
    case Decide(id, _, _) => id in s.requests && s.requests[id].pc.Deciding? && s.requests[id].provider < |g.breakerOf|
  }

  function Skip(r: Request): Request { r.(provider := r.provider + 1, pc := Entering) }

  /** breaker.allow(): on True the request goes on to attempt `next`, else to the next provider. */
  function Ask(g: Gateway, s: System, id: nat, next: nat, now: real): System
    requires WellFormed(g) && Shape(g, s) && id in s.requests && s.requests[id].provider < |g.breakerOf|
  {
    var r := s.requests[id];
    var b := g.breakerOf[r.provider];
    if !Admits(s.breakers[b], g.cfgs[b], now) then s.(requests := s.requests[id := Skip(r)])
    else
      var r' := r.(admissions := r.admissions + 1);
      System(s.breakers[b := AfterAdmission(s.breakers[b], g.cfgs[b], now)],
             if PhaseOf(s.breakers[b], g.cfgs[b], now) == HalfOpen then s.setter[b := Some(id)] else s.setter,
             s.requests[id := if next <= g.maxAttempts then r'.(pc := Ready(next)) else Skip(r')])
  }

  function Next(g: Gateway, s: System, step: Step): System
    requires WellFormed(g) && Shape(g, s) && Enabled(g, s, step)
  {
    match step
    case Arrive(id) => s.(requests := s.requests[id := Request(0, Entering, 0, 0, 0)])
    case Enter(id, now) =>
      var r := s.requests[id];
      if r.provider >= |g.breakerOf| then s.(requests := s.requests[id := r.(pc := Finished)])
      else Ask(g, s, id, 1, now)
    case Call(id) =>
      var r := s.requests[id];
      s.(requests := s.requests[id := r.(pc := Calling(r.pc.attempt), calls := r.calls + 1)])
    case Return(id, ok, retryable) =>
      var r := s.requests[id];
      s.(requests := s.requests[id := r.(pc := Returned(r.pc.attempt, ok, retryable))])
    case Record(id, now) =>
      var r := s.requests[id];
      var b := g.breakerOf[r.provider];
      var r' := r.(records := r.records + 1);
      if r.pc.ok then
        s.(breakers := s.breakers[b := FRESH], requests := s.requests[id := r'.(pc := Finished)])
      else
        s.(breakers := s.breakers[b := AfterFailure(s.breakers[b], g.cfgs[b], now)],
           requests := s.requests[id := if !r.pc.retryable || r.pc.attempt == g.maxAttempts then Skip(r')
                                        else r'.(pc := Deciding(r.pc.attempt))])
    case Decide(id, late, now) =>
      if late then s.(requests := s.requests[id := Skip(s.requests[id])])
      else Ask(g, s, id, s.requests[id].pc.attempt + 1, now)
  }

  /** Between an admission and its record. */
  predicate Outstanding(r: Request) { r.pc.Ready? || r.pc.Calling? || r.pc.Returned? }

  predicate OutstandingOn(g: Gateway, r: Request, b: nat) {
    Outstanding(r) && r.provider < |g.breakerOf| && g.breakerOf[r.provider] == b
  }

  /** Each admission leads to one provider call, each call to one record. */
  predicate Matched(r: Request) {
    && r.admissions == r.calls + (if r.pc.Ready? then 1 else 0)
    && r.calls == r.records + (if r.pc.Calling? || r.pc.Returned? then 1 else 0)
  }

  /** A request only holds attempts and providers that exist. */
  predicate Sane(g: Gateway, r: Request) {
    && (Outstanding(r) || r.pc.Deciding? ==> r.provider < |g.breakerOf| && 1 <= r.pc.attempt <= g.maxAttempts)
    && (r.pc.Deciding? ==> r.pc.attempt < g.maxAttempts)
  }

  ghost predicate TrialOwned(g: Gateway, s: System, b: nat)
    requires Shape(g, s) && b < |g.cfgs|
  {
    s.breakers[b].trialInFlight ==>
      && s.setter[b].Some? && s.setter[b].value in s.requests
      && OutstandingOn(g, s.requests[s.setter[b].value], b)
  }

  ghost predicate Inv(g: Gateway, s: System) {
    && Shape(g, s)
    && (forall id :: id in s.requests ==> Matched(s.requests[id]) && Sane(g, s.requests[id]))
    && (forall b :: 0 <= b < |g.cfgs| ==> TrialOwned(g, s, b))
  }

  lemma AskKeepsInv(g: Gateway, s: System, id: nat, next: nat, now: real)
    requires WellFormed(g) && Inv(g, s) && id in s.requests && s.requests[id].provider < |g.breakerOf|
    requires !Outstanding(s.requests[id]) && 1 <= next <= g.maxAttempts
    ensures Inv(g, Ask(g, s, id, next, now))
  {
    var s' := Ask(g, s, id, next, now);
    forall b | 0 <= b < |g.cfgs|
      ensures TrialOwned(g, s', b)
    {
      assert TrialOwned(g, s, b);
    }
  }

  /** A call is allowed wherever a breaker can admit one. */
  predicate Sensible(g: Gateway) { g.maxAttempts >= 1 || g.breakerOf == [] }

  lemma StepKeepsInv(g: Gateway, s: System, step: Step)
    requires WellFormed(g) && Sensible(g) && Inv(g, s) && Enabled(g, s, step)
    ensures Inv(g, Next(g, s, step))
  {
    var s' := Next(g, s, step);
    match step
    case Enter(id, now) =>
      if s.requests[id].provider < |g.breakerOf| {
        AskKeepsInv(g, s, id, 1, now);
      } else {
        assert forall b :: 0 <= b < |g.cfgs| ==> TrialOwned(g, s, b) ==> TrialOwned(g, s', b);
      }
    case Decide(id, late, now) =>
      if !late {
        AskKeepsInv(g, s, id, s.requests[id].pc.attempt + 1, now);
      } else {
        assert forall b :: 0 <= b < |g.cfgs| ==> TrialOwned(g, s, b) ==> TrialOwned(g, s', b);
      }
    case _ =>
      forall b | 0 <= b < |g.cfgs|
        ensures TrialOwned(g, s', b)
      {
        assert TrialOwned(g, s, b);
      }
  }

  /** A run: steps taken one after the other, each enabled when taken. */
  ghost predicate IsRun(g: Gateway, initial: seq<State>, steps: seq<Step>, states: seq<System>)
    requires WellFormed(g)
  {
    && Idle(g, initial) && |states| == |steps| + 1 && states[0] == Start(initial)
    && forall i :: 0 <= i < |steps| ==>
         Shape(g, states[i]) && Enabled(g, states[i], steps[i]) && states[i + 1] == Next(g, states[i], steps[i])
  }

  lemma {:induction false} RunShape(g: Gateway, initial: seq<State>, steps: seq<Step>, states: seq<System>, n: nat)
    requires WellFormed(g) && IsRun(g, initial, steps, states) && n < |states|
    ensures Shape(g, states[n])
  {
    if n > 0 {
      RunShape(g, initial, steps, states, n - 1);
      assert states[n] == Next(g, states[n - 1], steps[n - 1]);
    }
  }

  /** In every interleaving, every admission is matched by exactly one provider call and one
      record, and a trial flag is set only while the request that set it is outstanding. */
  lemma {:induction false} EveryAdmissionIsRecorded(g: Gateway, initial: seq<State>, steps: seq<Step>, states: seq<System>, n: nat)
    requires WellFormed(g) && Sensible(g) && IsRun(g, initial, steps, states) && n < |states|
    ensures Inv(g, states[n])
    ensures forall id :: id in states[n].requests && states[n].requests[id].pc.Finished? ==>
              states[n].requests[id].admissions == states[n].requests[id].calls == states[n].requests[id].records
  {
    if n > 0 {
      EveryAdmissionIsRecorded(g, initial, steps, states, n - 1);
      StepKeepsInv(g, states[n - 1], steps[n - 1]);
    }
  }

  /** A half-open slot is lost: taken, with no request left that could give it back. */
  ghost predicate Lost(g: Gateway, s: System, b: nat) {
    && b < |s.breakers| && s.breakers[b].trialInFlight
    && forall id :: id in s.requests ==> !OutstandingOn(g, s.requests[id], b)
  }

  /** No half-open slot is lost: when no request is outstanding on a breaker, a request that
      finds it half-open is admitted. */
  lemma SlotIsFree(g: Gateway, initial: seq<State>, steps: seq<Step>, states: seq<System>, n: nat, b: nat, now: real)
    requires WellFormed(g) && Sensible(g) && IsRun(g, initial, steps, states) && n < |states| && b < |g.cfgs|
    requires Shape(g, states[n])
    requires forall id :: id in states[n].requests ==> !OutstandingOn(g, states[n].requests[id], b)
    ensures !states[n].breakers[b].trialInFlight
    ensures PhaseOf(states[n].breakers[b], g.cfgs[b], now) != Open ==> Admits(states[n].breakers[b], g.cfgs[b], now)
  {
    EveryAdmissionIsRecorded(g, initial, steps, states, n);
    assert TrialOwned(g, states[n], b);
  }

  /* ---- no attempt allowed ---- */

  /** Without attempts no request ever gets as far as a call. */
  ghost predicate NoCalls(s: System) {
    forall id :: id in s.requests ==> s.requests[id].pc.Entering? || s.requests[id].pc.Finished?
  }

  lemma {:induction false} NeverCalls(g: Gateway, initial: seq<State>, steps: seq<Step>, states: seq<System>, n: nat)
    requires WellFormed(g) && g.maxAttempts <= 0 && IsRun(g, initial, steps, states) && n < |states|
    ensures Shape(g, states[n]) && NoCalls(states[n])
  {
    RunShape(g, initial, steps, states, n);
    if n > 0 {
      NeverCalls(g, initial, steps, states, n - 1);
      NoCallsStep(g, states[n - 1], steps[n - 1]);
    }
  }

  lemma NoCallsStep(g: Gateway, s: System, step: Step)
    requires WellFormed(g) && g.maxAttempts <= 0 && Shape(g, s) && NoCalls(s) && Enabled(g, s, step)
    ensures NoCalls(Next(g, s, step)) && (step.Arrive? || step.Enter?)
  {
  }

  /** A lost slot stays lost: whatever happens next, the breaker does not move and admits
      nobody at any time. */
  lemma {:induction false} LostForGood(g: Gateway, initial: seq<State>, steps: seq<Step>, states: seq<System>, m: nat, n: nat, b: nat)
    requires WellFormed(g) && g.maxAttempts <= 0 && IsRun(g, initial, steps, states) && m <= n < |states|
    requires b < |g.cfgs| && Shape(g, states[m]) && states[m].breakers[b].trialInFlight && states[m].breakers[b].openedAt.Some?
    ensures Shape(g, states[n]) && states[n].breakers[b] == states[m].breakers[b]
    ensures forall now :: !Admits(states[n].breakers[b], g.cfgs[b], now)
  {
    if m < n {
      LostForGood(g, initial, steps, states, m, n - 1, b);
      NeverCalls(g, initial, steps, states, n - 1);
      NoCallsStep(g, states[n - 1], steps[n - 1]);
    }
  }

  lemma Extend(g: Gateway, initial: seq<State>, steps: seq<Step>, states: seq<System>, step: Step)
    requires WellFormed(g) && IsRun(g, initial, steps, states)
    requires Shape(g, Last(states)) && Enabled(g, Last(states), step)
    ensures IsRun(g, initial, steps + [step], states + [Next(g, Last(states), step)])
  {
  }

  /** A request that is admitted by closed breakers and never called passes provider after provider. */
  lemma {:induction false} Walk(g: Gateway, initial: seq<State>, p: nat) returns (steps: seq<Step>, states: seq<System>)
    requires WellFormed(g) && Idle(g, initial) && g.maxAttempts <= 0 && p <= |g.breakerOf|
    requires forall q :: 0 <= q < p ==> initial[g.breakerOf[q]].openedAt.None?
    ensures IsRun(g, initial, steps, states)
    ensures Last(states) == Start(initial).(requests := map[0 := Request(p, Entering, p, 0, 0)])
  {
    var step: Step;
    if p == 0 {
      steps, states, step := [], [Start(initial)], Arrive(0);
    } else {
      steps, states := Walk(g, initial, p - 1);
      step := Enter(0, 0.0);
      var s, b := Last(states), g.breakerOf[p - 1];
      assert s.breakers[b := AfterAdmission(s.breakers[b], g.cfgs[b], 0.0)] == s.breakers;
      assert s.requests[0 := Request(p, Entering, p, 0, 0)] == map[0 := Request(p, Entering, p, 0, 0)];
    }
    Extend(g, initial, steps, states, step);
    steps, states := steps + [step], states + [Next(g, Last(states), step)];
  }

  /** The first provider whose breaker is not closed. */
  lemma FirstOpen(g: Gateway, initial: seq<State>) returns (p: nat)
    requires WellFormed(g) && |initial| == |g.cfgs|
    requires exists q :: 0 <= q < |g.breakerOf| && initial[g.breakerOf[q]].openedAt.Some?
    ensures p < |g.breakerOf| && initial[g.breakerOf[p]].openedAt.Some?
    ensures forall q :: 0 <= q < p ==> initial[g.breakerOf[q]].openedAt.None?
  {
    p := 0;
    while initial[g.breakerOf[p]].openedAt.None?
      invariant p < |g.breakerOf| && forall q :: 0 <= q < p ==> initial[g.breakerOf[q]].openedAt.None?
      decreases |g.breakerOf| - p
    {
      var q :| 0 <= q < |g.breakerOf| && initial[g.breakerOf[q]].openedAt.Some?;
      p := p + 1;
    }
  }

  /** With no attempt allowed, one request that finds a breaker half-open loses its slot. */
  lemma NoAttemptsLoseTheSlot(g: Gateway, initial: seq<State>) returns (steps: seq<Step>, states: seq<System>, b: nat)
    requires WellFormed(g) && Idle(g, initial) && g.maxAttempts <= 0
    requires exists q :: 0 <= q < |g.breakerOf| && initial[g.breakerOf[q]].openedAt.Some?
    ensures IsRun(g, initial, steps, states) && Lost(g, Last(states), b) && Last(states).breakers[b].openedAt.Some?
  {
    var p := FirstOpen(g, initial);
    b := g.breakerOf[p];
    steps, states := Walk(g, initial, p);
    var step := Enter(0, initial[b].openedAt.value + g.cfgs[b].resetAfter);
    Extend(g, initial, steps, states, step);
    steps, states := steps + [step], states + [Next(g, Last(states), step)];
  }

  /** Closed breakers that nobody calls stay as they were. */
  lemma {:induction false} ClosedStayPut(g: Gateway, initial: seq<State>, steps: seq<Step>, states: seq<System>, n: nat)
    requires WellFormed(g) && g.maxAttempts <= 0 && IsRun(g, initial, steps, states) && n < |states|
    requires forall p :: 0 <= p < |g.breakerOf| ==> initial[g.breakerOf[p]].openedAt.None?
    ensures states[n].breakers == initial
  {
    if n > 0 {
      ClosedStayPut(g, initial, steps, states, n - 1);
      NeverCalls(g, initial, steps, states, n - 1);
      NoCallsStep(g, states[n - 1], steps[n - 1]);
    }
  }

  /** Every slot of every run is kept. */
  ghost predicate NeverLoses(g: Gateway, initial: seq<State>)
    requires WellFormed(g)
  {
    forall steps, states: seq<System>, n, b :: IsRun(g, initial, steps, states) && 0 <= n < |states| ==> !Lost(g, states[n], b)
  }

  /** Exactly when no slot is ever lost: at least one attempt is allowed, or no provider's
      breaker starts out open. */
  lemma SlotNeverLostIff(g: Gateway, initial: seq<State>)
    requires WellFormed(g) && Idle(g, initial)
    ensures NeverLoses(g, initial)
       <==> g.maxAttempts >= 1 || forall p :: 0 <= p < |g.breakerOf| ==> initial[g.breakerOf[p]].openedAt.None?
  {
    if g.maxAttempts >= 1 {
      forall steps, states: seq<System>, n, b | IsRun(g, initial, steps, states) && 0 <= n < |states| ensures !Lost(g, states[n], b) {
        RunShape(g, initial, steps, states, n);
        if Lost(g, states[n], b) { SlotIsFree(g, initial, steps, states, n, b, 0.0); }
      }
    } else if forall p :: 0 <= p < |g.breakerOf| ==> initial[g.breakerOf[p]].openedAt.None? {
      forall steps, states: seq<System>, n, b | IsRun(g, initial, steps, states) && 0 <= n < |states| ensures !Lost(g, states[n], b) {
        ClosedStayPut(g, initial, steps, states, n);
      }
    } else {
      var steps, states, b := NoAttemptsLoseTheSlot(g, initial);
      assert Lost(g, states[|states| - 1], b);
    }
  }

  ghost predicate AlwaysMatched(g: Gateway, initial: seq<State>)
    requires WellFormed(g)
  {
    forall steps, states: seq<System>, n, id :: IsRun(g, initial, steps, states) && 0 <= n < |states| && id in states[n].requests ==>
      Matched(states[n].requests[id])
  }

  /** Exactly when every admission of every run leads to a call and a record: at least one
      attempt is allowed, or there is no provider to ask. */
  lemma AlwaysMatchedIff(g: Gateway, initial: seq<State>)
    requires WellFormed(g) && Idle(g, initial)
    ensures AlwaysMatched(g, initial) <==> Sensible(g)
  {
    if Sensible(g) {
      forall steps, states: seq<System>, n, id | IsRun(g, initial, steps, states) && 0 <= n < |states| && id in states[n].requests
        ensures Matched(states[n].requests[id])
      {
        EveryAdmissionIsRecorded(g, initial, steps, states, n);
      }
    } else {
      var steps, states := Walk(g, initial, 0);
      var b := g.breakerOf[0];
      var step := Enter(0, if initial[b].openedAt.Some? then initial[b].openedAt.value + g.cfgs[b].resetAfter else 0.0);
      Extend(g, initial, steps, states, step);
      var states' := states + [Next(g, Last(states), step)];
      assert 0 in states'[|states'| - 1].requests && !Matched(states'[|states'| - 1].requests[0]);
    }
  }
}
