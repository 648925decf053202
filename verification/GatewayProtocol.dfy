/** One visit of GatewayProvider.complete to a provider, call by call, is a run of one request
    of the interleaving machine: what is proved of every interleaving holds of the code. */
module GatewayProtocol {
  import opened Sequences
  import opened Breaker
  import opened TokenBudget
  import G = Gateway
  import P = BreakerProtocol

  /** Steps that lead from one state of the machine to another. */
  ghost predicate Path(g: P.Gateway, s: P.System, steps: seq<P.Step>, s': P.System)
    requires P.WellFormed(g)
    decreases |steps|
  {
    if steps == [] then s' == s
    else exists m :: Path(g, s, Init(steps), m) && Takes(g, m, Last(steps), s')
  }

  ghost predicate Takes(g: P.Gateway, m: P.System, step: P.Step, s': P.System)
    requires P.WellFormed(g)
  {
    P.Shape(g, m) && P.Enabled(g, m, step) && s' == P.Next(g, m, step)
  }

  lemma PathNext(g: P.Gateway, s: P.System, steps: seq<P.Step>, m: P.System, step: P.Step, s': P.System)
    requires P.WellFormed(g) && Path(g, s, steps, m) && Takes(g, m, step, s')
    ensures Path(g, s, steps + [step], s')
  {
    assert Init(steps + [step]) == steps && Last(steps + [step]) == step;
  }

  /** Request `id` is about to ask provider `p`, whose breaker `b` has seen `log`, at time `at`. */
  datatype Scene = Scene(
    g: P.Gateway, s: P.System, id: nat, p: nat, b: nat, cfg: G.Settings, env: G.Env, limit: real,
    context: seq<string>, history: seq<ChatTurn>, log: seq<Event>, at: real)

  ghost predicate Set(x: Scene) {
    && P.WellFormed(x.g) && P.Shape(x.g, x.s) && x.g.maxAttempts == x.cfg.maxAttempts
    && x.p < |x.g.breakerOf| && x.b == x.g.breakerOf[x.p] && x.s.breakers[x.b] == Replay(x.log, x.g.cfgs[x.b])
    && x.id in x.s.requests && x.s.requests[x.id].provider == x.p && x.s.requests[x.id].pc.Entering?
  }

  function Opened(x: Scene): seq<Event>
    requires x.b < |x.g.cfgs|
  {
    x.log + [G.Asking(x.g.cfgs[x.b], x.log, x.at)]
  }

  function Asked(x: Scene, calls: seq<G.Call>): seq<Event>
    requires x.b < |x.g.cfgs|
  {
    G.Asked(x.g.cfgs[x.b], x.env, x.p, Opened(x), calls)
  }

  function Recorded(x: Scene, calls: seq<G.Call>): seq<Event>
    requires x.b < |x.g.cfgs|
  {
    G.Recorded(x.g.cfgs[x.b], x.env, x.p, Opened(x), calls)
  }

  /** The request after `asked` admissions and `n` recorded calls. */
  function Now(x: Scene, provider: nat, pc: P.Pc, asked: nat, n: nat): P.Request
    requires x.id in x.s.requests
  {
    var r := x.s.requests[x.id];
    P.Request(provider, pc, r.admissions + asked, r.calls + n, r.records + n)
  }

  /** Only the breaker and the request of the scene have moved, to `log` and `r`. */
  ghost predicate Stands(x: Scene, m: P.System, log: seq<Event>, r: P.Request)
    requires Set(x)
  {
    && P.Shape(x.g, m) && m.requests == x.s.requests[x.id := r]
    && m.breakers == x.s.breakers[x.b := Replay(log, x.g.cfgs[x.b])]
  }

  /** The calls so far follow the rules of the gateway. */
  ghost predicate Called(x: Scene, calls: seq<G.Call>)
    requires x.b < |x.g.cfgs|
  {
    && G.Allowed(Opened(x))
    && G.Attempts(x.cfg, x.env, x.p, x.limit, calls, x.context, x.history)
    && G.Consented(x.g.cfgs[x.b], x.env, x.p, Opened(x), calls)
  }

  /** A transient failure may be followed by another attempt, and the breaker agrees. */
  ghost predicate MayGoOn(x: Scene, calls: seq<G.Call>)
    requires x.b < |x.g.cfgs|
  {
    |calls| < x.cfg.maxAttempts && (calls != [] ==> G.Transient(Last(calls).reply) && G.Allowed(Asked(x, calls)))
  }

  lemma CalledInit(x: Scene, calls: seq<G.Call>)
    requires x.b < |x.g.cfgs| && calls != [] && Called(x, calls)
    ensures Called(x, Init(calls)) && MayGoOn(x, Init(calls)) && |calls| <= x.cfg.maxAttempts
    ensures Last(calls).attempt == |calls| && Last(calls).reply == x.env.reply(x.p, |calls|)
    ensures Recorded(x, calls) == Asked(x, Init(calls)) + [G.Recording(x.env, x.p, Last(calls))]
  {
    if |calls| > 1 {
      assert calls[|calls| - 2] == Last(Init(calls));
    }
  }

  /** Where a recorded call leaves the request. */
  function AfterRecord(x: Scene, c: G.Call, n: nat): P.Request
    requires x.id in x.s.requests
  {
    if c.reply.Answer? then Now(x, x.p, P.Finished, n, n)
    else if !G.IsRetryable(c.reply.failure) || n == x.cfg.maxAttempts then Now(x, x.p + 1, P.Entering, n, n)
    else Now(x, x.p, P.Deciding(n), n, n)
  }

  lemma ReplaySnoc(log: seq<Event>, e: Event, cfg: Config)
    ensures Replay(log + [e], cfg) == AfterEvent(Replay(log, cfg), cfg, e)
  {
    assert Init(log + [e]) == log;
  }

  /** breaker.allow(), on both sides. */
  lemma AskStep(x: Scene, m: P.System, log: seq<Event>, next: nat, now: real)
    requires Set(x) && x.id in m.requests && m.requests[x.id].provider == x.p && Stands(x, m, log, m.requests[x.id])
    ensures var r, asked := m.requests[x.id], log + [G.Asking(x.g.cfgs[x.b], log, now)];
            var m' := P.Ask(x.g, m, x.id, next, now);
            if !G.Allowed(asked) then Stands(x, m', asked, P.Skip(r))
            else if next <= x.g.maxAttempts then Stands(x, m', asked, r.(admissions := r.admissions + 1, pc := P.Ready(next)))
            else Stands(x, m', asked, P.Skip(r.(admissions := r.admissions + 1)))
  {
    ReplaySnoc(log, G.Asking(x.g.cfgs[x.b], log, now), x.g.cfgs[x.b]);
  }

  lemma {:induction false} PlayReady(x: Scene, calls: seq<G.Call>) returns (steps: seq<P.Step>, m: P.System)
    requires Set(x) && Called(x, calls) && MayGoOn(x, calls)
    ensures Path(x.g, x.s, steps, m)
    ensures Stands(x, m, Asked(x, calls), Now(x, x.p, P.Ready(|calls| + 1), |calls| + 1, |calls|))
    decreases |calls|, 1
  {
    if calls == [] {
      m := P.Next(x.g, x.s, P.Enter(x.id, x.at));
      AskStep(x, x.s, x.log, 1, x.at);
      PathNext(x.g, x.s, [], x.s, P.Enter(x.id, x.at), m);
      steps := [] + [P.Enter(x.id, x.at)];
    } else {
      var before, middle := PlayRecorded(x, calls);
      var step := P.Decide(x.id, false, G.Ended(x.env, x.p, Last(calls)));
      m := GoesOn(x, calls, middle, step.now);
      PathNext(x.g, x.s, before, middle, step, m);
      steps := before + [step];
    }
  }

  lemma GoesOn(x: Scene, calls: seq<G.Call>, middle: P.System, now: real) returns (m: P.System)
    requires Set(x) && calls != [] && now == G.Ended(x.env, x.p, Last(calls)) && MayGoOn(x, calls)
    requires Stands(x, middle, Recorded(x, calls), Now(x, x.p, P.Deciding(|calls|), |calls|, |calls|))
    ensures Takes(x.g, middle, P.Decide(x.id, false, now), m)
    ensures Stands(x, m, Asked(x, calls), Now(x, x.p, P.Ready(|calls| + 1), |calls| + 1, |calls|))
  {
    AskStep(x, middle, Recorded(x, calls), |calls| + 1, now);
    m := P.Next(x.g, middle, P.Decide(x.id, false, now));
  }

  /** The request called, then returned. */
  function Calls(x: Scene, m: P.System, n: nat): P.System
    requires x.id in x.s.requests
  {
    var r := Now(x, x.p, P.Calling(n + 1), n + 1, n);
    m.(requests := m.requests[x.id := r.(calls := r.calls + 1)])
  }

  function Returns(x: Scene, m: P.System, n: nat, c: G.Call): P.System
    requires x.id in x.s.requests
  {
    var r := Now(x, x.p, P.Returned(n + 1, c.reply.Answer?, c.reply.Error? && G.IsRetryable(c.reply.failure)), n + 1, n);
    m.(requests := m.requests[x.id := r.(calls := r.calls + 1)])
  }

  lemma CallAndReturn(x: Scene, m: P.System, log: seq<Event>, n: nat, c: G.Call)
    requires Set(x) && Stands(x, m, log, Now(x, x.p, P.Ready(n + 1), n + 1, n))
    ensures Takes(x.g, m, P.Call(x.id), Calls(x, m, n))
    ensures Takes(x.g, Calls(x, m, n),
                  P.Return(x.id, c.reply.Answer?, c.reply.Error? && G.IsRetryable(c.reply.failure)), Returns(x, m, n, c))
  {
  }

  lemma RecordStep(x: Scene, m: P.System, log: seq<Event>, n: nat, c: G.Call) returns (m': P.System)
    requires Set(x) && Stands(x, m, log, Now(x, x.p, P.Ready(n + 1), n + 1, n)) && n < x.cfg.maxAttempts
    ensures Takes(x.g, Returns(x, m, n, c), P.Record(x.id, G.Ended(x.env, x.p, c)), m')
    ensures Stands(x, m', log + [G.Recording(x.env, x.p, c)], AfterRecord(x, c, n + 1))
  {
    m' := P.Next(x.g, Returns(x, m, n, c), P.Record(x.id, G.Ended(x.env, x.p, c)));
    ReplaySnoc(log, G.Recording(x.env, x.p, c), x.g.cfgs[x.b]);
  }

  lemma {:induction false} PlayRecorded(x: Scene, calls: seq<G.Call>) returns (steps: seq<P.Step>, m: P.System)
    requires Set(x) && Called(x, calls) && calls != []
    ensures Path(x.g, x.s, steps, m) && Stands(x, m, Recorded(x, calls), AfterRecord(x, Last(calls), |calls|))
    decreases |calls|, 0
  {
    CalledInit(x, calls);
    var before, ready := PlayReady(x, Init(calls));
    var n, c := |calls| - 1, Last(calls);
    CallAndReturn(x, ready, Asked(x, Init(calls)), n, c);
    m := RecordStep(x, ready, Asked(x, Init(calls)), n, c);
    steps := CallPath(x, before, ready, n, c, m);
  }

  lemma CallPath(x: Scene, before: seq<P.Step>, ready: P.System, n: nat, c: G.Call, m: P.System) returns (steps: seq<P.Step>)
    requires Set(x) && Path(x.g, x.s, before, ready) && Takes(x.g, ready, P.Call(x.id), Calls(x, ready, n))
    requires Takes(x.g, Calls(x, ready, n),
                   P.Return(x.id, c.reply.Answer?, c.reply.Error? && G.IsRetryable(c.reply.failure)), Returns(x, ready, n, c))
    requires Takes(x.g, Returns(x, ready, n, c), P.Record(x.id, G.Ended(x.env, x.p, c)), m)
    ensures Path(x.g, x.s, steps, m)
  {
    var a, b, r := P.Call(x.id), P.Return(x.id, c.reply.Answer?, c.reply.Error? && G.IsRetryable(c.reply.failure)), P.Record(x.id, G.Ended(x.env, x.p, c));
    PathNext(x.g, x.s, before, ready, a, Calls(x, ready, n));
    PathNext(x.g, x.s, before + [a], Calls(x, ready, n), b, Returns(x, ready, n, c));
    PathNext(x.g, x.s, before + [a] + [b], Returns(x, ready, n, c), r, m);
    steps := before + [a] + [b] + [r];
  }

  /** The visit that the gateway makes in the scene. */
  ghost predicate Makes(x: Scene, v: G.Visit)
    requires x.b < |x.g.cfgs|
  {
    && v.log == x.log && v.at == x.at
    && G.Visited(x.cfg, x.env, x.g.cfgs[x.b], x.p, x.limit, v, x.context, x.history)
  }

  lemma NoCall(x: Scene, v: G.Visit) returns (steps: seq<P.Step>, m: P.System)
    requires Set(x) && Makes(x, v) && v.calls == []
    ensures Path(x.g, x.s, steps, m)
    ensures Stands(x, m, v.after, Now(x, x.p + 1, P.Entering, if G.Allowed(Opened(x)) then 1 else 0, 0))
  {
    var step := P.Enter(x.id, x.at);
    m := P.Next(x.g, x.s, step);
    AskStep(x, x.s, x.log, 1, x.at);
    PathNext(x.g, x.s, [], x.s, step, m);
    steps := [] + [step];
  }

  lemma GivenUp(x: Scene, v: G.Visit, before: seq<P.Step>, middle: P.System) returns (steps: seq<P.Step>, m: P.System)
    requires Set(x) && Makes(x, v) && v.calls != [] && Path(x.g, x.s, before, middle)
    requires Stands(x, middle, Recorded(x, v.calls), Now(x, x.p, P.Deciding(|v.calls|), |v.calls|, |v.calls|))
    ensures Path(x.g, x.s, steps, m)
    ensures Stands(x, m, v.after, Now(x, x.p + 1, P.Entering, |v.calls|, |v.calls|))
  {
    var now := G.Ended(x.env, x.p, Last(v.calls));
    var step := P.Decide(x.id, !v.refused, now);
    m := P.Next(x.g, middle, step);
    if v.refused {
      RefusedAgain(x, v.calls, middle, now);
    }
    assert v.after == if v.refused then Asked(x, v.calls) else Recorded(x, v.calls);
    PathNext(x.g, x.s, before, middle, step, m);
    steps := before + [step];
  }

  lemma RefusedAgain(x: Scene, calls: seq<G.Call>, middle: P.System, now: real)
    requires Set(x) && calls != [] && now == G.Ended(x.env, x.p, Last(calls)) && !G.Allowed(Asked(x, calls))
    requires Stands(x, middle, Recorded(x, calls), Now(x, x.p, P.Deciding(|calls|), |calls|, |calls|))
    ensures Stands(x, P.Ask(x.g, middle, x.id, |calls| + 1, now), Asked(x, calls), Now(x, x.p + 1, P.Entering, |calls|, |calls|))
  {
    AskStep(x, middle, Recorded(x, calls), |calls| + 1, now);
  }

  /** Every visit that follows the gateway's rules is a run of its request in the machine: as
      many calls and records as the visit has calls, the breaker as its log says, and the
      request finished on an answer and at the next provider otherwise. */
  lemma VisitIsRun(x: Scene, v: G.Visit) returns (steps: seq<P.Step>, m: P.System)
    requires Set(x) && Makes(x, v)
    ensures Path(x.g, x.s, steps, m)
    ensures m.breakers == x.s.breakers[x.b := Replay(v.after, x.g.cfgs[x.b])]
    ensures forall id :: id != x.id ==> (id in m.requests <==> id in x.s.requests)
                                        && (id in m.requests ==> m.requests[id] == x.s.requests[id])
    ensures x.id in m.requests
    ensures var r, r' := x.s.requests[x.id], m.requests[x.id];
            && r'.calls == r.calls + |v.calls| && r'.records == r.records + |v.calls|
            && (if G.Failing(v) then r'.provider == x.p + 1 && r'.pc.Entering? else r'.provider == x.p && r'.pc.Finished?)
  {
    if v.calls == [] {
      steps, m := NoCall(x, v);
    } else {
      steps, m := PlayRecorded(x, v.calls);
      if AfterRecord(x, Last(v.calls), |v.calls|).pc.Deciding? {
        steps, m := GivenUp(x, v, steps, m);
      } else {
        EndedHere(x, v);
      }
    }
  }

  /** A visit that ended on an answer, a permanent failure or the last attempt asked nothing more. */
  lemma EndedHere(x: Scene, v: G.Visit)
    requires Set(x) && Makes(x, v) && v.calls != [] && !AfterRecord(x, Last(v.calls), |v.calls|).pc.Deciding?
    ensures v.after == Recorded(x, v.calls)
  {
  }
}
