/** workers.py, IngestionWorker: request threads register and then queue jobs, one worker
    thread takes them in order, and stop() queues a sentinel. Each method is one atomic
    action; runs interleave them freely. */
module IngestionWorker {
  import opened Sequences
  import opened Arithmetic

  type JobId = nat
  type Payload = string

  datatype Status = Queued | Running | Completed | Failed

  datatype Item = Work(id: JobId, payload: Payload) | Sentinel

  /** `puts` and `handled` record, in order, the jobs queued and the jobs handed to the handler. */
  datatype State = State(
    jobs: map<JobId, Status>,
    pending: map<JobId, Payload>,   // registered, not yet queued
    queue: seq<Item>,
    hand: Option<Item>,             // taken from the queue, not yet marked running
    running: Option<JobId>,
    stopped: bool,
    puts: seq<Item>,
    handled: seq<Item>)

  datatype Action =
    | Register(id: JobId, payload: Payload)
    | Put(id: JobId)
    | Stop
    | Take
    | Begin
    | Finish(ok: bool)

  const START := State(map[], map[], [], None, None, false, [], [])

  predicate Enabled(s: State, a: Action) {
    match a
    case Register(id, _) => id !in s.jobs            // a fresh UUID
    case Put(id) => id in s.pending
    case Stop => true
    case Take => !s.stopped && s.hand.None? && s.running.None? && s.queue != []
    case Begin => s.hand.Some? && s.hand.value.Work?
    case Finish(_) => s.running.Some?
  }

  function Next(s: State, a: Action): State
    requires Enabled(s, a)
  {
    match a
    case Register(id, payload) => s.(jobs := s.jobs[id := Queued], pending := s.pending[id := payload])
    case Put(id) =>
      var item := Work(id, s.pending[id]);
      s.(queue := s.queue + [item], pending := s.pending - {id}, puts := s.puts + [item])
    case Stop => s.(queue := s.queue + [Sentinel])
    case Take =>
      if s.queue[0].Sentinel? then s.(queue := s.queue[1..], stopped := true)
      else s.(queue := s.queue[1..], hand := Some(s.queue[0]))
    case Begin =>
      var item := s.hand.value;
      s.(jobs := s.jobs[item.id := Running], hand := None, running := Some(item.id), handled := s.handled + [item])
    case Finish(ok) =>
      s.(jobs := s.jobs[s.running.value := if ok then Completed else Failed], running := None)
  }

  class IngestionWorker {
    var jobs: map<JobId, Status>
    var queue: seq<Item>
    var hand: Option<Item>
    var running: Option<JobId>
    var stopped: bool
    var pending: map<JobId, Payload>
    ghost var puts: seq<Item>
    ghost var handled: seq<Item>

    ghost function Snapshot(): State
      reads this
    {
      State(jobs, pending, queue, hand, running, stopped, puts, handled)
    }

    constructor ()
      ensures Snapshot() == START
    {
      jobs, pending, queue, hand, running, stopped := map[], map[], [], None, None, false;
      puts, handled := [], [];
    }

    /** submit(), first half: the job entry exists before the job is queued. */
    method SubmitEntry(id: JobId, payload: Payload)
      requires Enabled(Snapshot(), Register(id, payload))
      modifies this
      ensures Snapshot() == Next(old(Snapshot()), Register(id, payload))
    {
      jobs := jobs[id := Queued];
      pending := pending[id := payload];
    }

    /** submit(), second half. */
    method SubmitPut(id: JobId)
      requires Enabled(Snapshot(), Put(id))
      modifies this
      ensures Snapshot() == Next(old(Snapshot()), Put(id))
    {
      queue := queue + [Work(id, pending[id])];
      puts := puts + [Work(id, pending[id])];
      pending := pending - {id};
    }

    method RequestStop()
      modifies this
      ensures Snapshot() == Next(old(Snapshot()), Stop)
    {
      queue := queue + [Sentinel];
    }

    method TakeNext()
      requires Enabled(Snapshot(), Take)
      modifies this
      ensures Snapshot() == Next(old(Snapshot()), Take)
    {
      var item := queue[0];
      queue := queue[1..];
      if item.Sentinel? {
        stopped := true;
      } else {
        hand := Some(item);
      }
    }

    method MarkRunning()
      requires Enabled(Snapshot(), Begin)
      modifies this
      ensures Snapshot() == Next(old(Snapshot()), Begin)
    {
      var item := hand.value;
      jobs := jobs[item.id := Running];
      hand, running := None, Some(item.id);
      handled := handled + [item];
    }

    method MarkDone(ok: bool)
      requires Enabled(Snapshot(), Action.Finish(ok))
      modifies this
      ensures Snapshot() == Next(old(Snapshot()), Action.Finish(ok))
    {
      jobs := jobs[running.value := if ok then Completed else Failed];
      running := None;
    }
  }

  /* ---- invariants ---- */

  predicate IsWork(i: Item) { i.Work? }

  /** The jobs waiting in the queue, without sentinels. */
  function Waiting(s: State): seq<Item> { Filter(IsWork, s.queue) }

  function InHand(s: State): seq<Item> { if s.hand.Some? then [s.hand.value] else [] }

  ghost predicate Holds(items: seq<Item>, id: JobId) {
    exists i :: 0 <= i < |items| && items[i].Work? && items[i].id == id
  }

  /** Every job is in exactly one place, and its status says which. */
  ghost predicate Placed(s: State, id: JobId)
    requires id in s.jobs
  {
    && (id in s.pending ==> !Holds(s.puts, id) && s.jobs[id] == Queued)
    && (id !in s.pending ==> Holds(s.puts, id))
    && (Holds(s.handled, id) ==>
          if s.running == Some(id) then s.jobs[id] == Running else s.jobs[id] == Completed || s.jobs[id] == Failed)
    && (!Holds(s.handled, id) ==> s.jobs[id] == Queued)
  }

  /** Jobs reach the handler in the order they were queued, each once. */
  ghost predicate Lined(s: State) {
    && s.puts == s.handled + InHand(s) + Waiting(s)
    && (forall i :: 0 <= i < |s.puts| ==> s.puts[i].Work? && s.puts[i].id in s.jobs)
    && (forall i, j :: 0 <= i < j < |s.puts| ==> s.puts[i].id != s.puts[j].id)
    && (forall id :: id in s.pending ==> id in s.jobs)
    && (s.hand.Some? ==> s.running.None?)
    && (s.running.Some? ==> s.handled != [] && Last(s.handled).Work? && Last(s.handled).id == s.running.value)
  }

  ghost predicate Inv(s: State) {
    Lined(s) && forall id :: id in s.jobs ==> Placed(s, id)
  }

  lemma WaitingPut(s: State, item: Item)
    ensures Filter(IsWork, s.queue + [item]) == Waiting(s) + if item.Work? then [item] else []
  {
    assert Init(s.queue + [item]) == s.queue;
  }

  lemma WaitingTake(s: State)
    requires s.queue != []
    ensures Waiting(s) == (if s.queue[0].Work? then [s.queue[0]] else []) + Filter(IsWork, s.queue[1..])
  {
    assert s.queue == [s.queue[0]] + s.queue[1..];
    FilterConcat(IsWork, [s.queue[0]], s.queue[1..]);
    assert Init([s.queue[0]]) == [];
  }

  lemma HoldsSnoc(items: seq<Item>, item: Item, id: JobId)
    ensures Holds(items + [item], id) <==> Holds(items, id) || (item.Work? && item.id == id)
  {
    if item.Work? && item.id == id {
      assert (items + [item])[|items|] == item;
    }
    if Holds(items, id) {
      var i :| 0 <= i < |items| && items[i].Work? && items[i].id == id;
      assert (items + [item])[i] == items[i];
    }
  }

  lemma PutKeepsInv(s: State, id: JobId)
    requires Inv(s) && Enabled(s, Put(id))
    ensures Inv(Next(s, Put(id)))
  {
    var s' := Next(s, Put(id));
    assert Lined(s') by { PutLined(s, id); }
    forall k | k in s'.jobs ensures Placed(s', k) {
      assert Placed(s, k);
      HoldsSnoc(s.puts, Work(id, s.pending[id]), k);
    }
  }

  lemma PutLined(s: State, id: JobId)
    requires Lined(s) && Enabled(s, Put(id)) && id in s.jobs && Placed(s, id)
    ensures Lined(Next(s, Put(id)))
  {
    WaitingPut(s, Work(id, s.pending[id]));
    forall i | 0 <= i < |s.puts| ensures s.puts[i].id != id {}
  }

  lemma RegisterKeepsInv(s: State, id: JobId, payload: Payload)
    requires Inv(s) && Enabled(s, Register(id, payload))
    ensures Inv(Next(s, Register(id, payload)))
  {
    var s' := Next(s, Register(id, payload));
    forall k | k in s'.jobs ensures Placed(s', k) {
      if k != id {
        assert Placed(s, k);
      } else {
        assert !Holds(s.puts, id);
        HandledArePuts(s, id);
      }
    }
  }

  lemma HandledArePuts(s: State, id: JobId)
    requires s.puts == s.handled + InHand(s) + Waiting(s)
    ensures Holds(s.handled, id) ==> Holds(s.puts, id)
  {
    if Holds(s.handled, id) {
      var i :| 0 <= i < |s.handled| && s.handled[i].Work? && s.handled[i].id == id;
      assert s.puts[i] == s.handled[i];
    }
  }

  lemma TakeKeepsInv(s: State)
    requires Inv(s) && Enabled(s, Take)
    ensures Inv(Next(s, Take))
  {
    var s' := Next(s, Take);
    WaitingTake(s);
    forall k | k in s'.jobs ensures Placed(s', k) {
      assert Placed(s, k);
    }
  }

  lemma BeginKeepsInv(s: State)
    requires Inv(s) && Enabled(s, Begin)
    ensures Inv(Next(s, Begin))
  {
    var s' := Next(s, Begin);
    var item := s.hand.value;
    assert s.puts[|s.handled|] == item;
    assert s'.puts == s'.handled + InHand(s') + Waiting(s');
    forall k | k in s'.jobs ensures Placed(s', k) {
      assert Placed(s, k);
      HoldsSnoc(s.handled, item, k);
      if k == item.id {
        assert Holds(s.puts, k);
      }
    }
  }

  lemma FinishKeepsInv(s: State, ok: bool)
    requires Inv(s) && Enabled(s, Action.Finish(ok))
    ensures Inv(Next(s, Action.Finish(ok)))
  {
    var s' := Next(s, Action.Finish(ok));
    var id := s.running.value;
    assert s.puts[|s.handled| - 1] == Last(s.handled);
    assert s.handled[|s.handled| - 1].id == id && Holds(s.handled, id);
    forall k | k in s'.jobs ensures Placed(s', k) {
      assert Placed(s, k);
    }
  }

  lemma StopKeepsInv(s: State)
    requires Inv(s)
    ensures Inv(Next(s, Stop))
  {
    WaitingPut(s, Sentinel);
    assert Lined(Next(s, Stop));
    forall k | k in s.jobs ensures Placed(Next(s, Stop), k) {
      assert Placed(s, k);
    }
  }

  lemma StepKeepsInv(s: State, a: Action)
    requires Inv(s) && Enabled(s, a)
    ensures Inv(Next(s, a))
  {
    match a
    case Register(id, payload) => RegisterKeepsInv(s, id, payload);
    case Put(id) => PutKeepsInv(s, id);
    case Stop => StopKeepsInv(s);
    case Take => TakeKeepsInv(s);
    case Begin => BeginKeepsInv(s);
    case Finish(ok) => FinishKeepsInv(s, ok);
  }

  /** In how many of the five places a job is: pending, waiting, in hand, running, finished. */
  ghost function Places(s: State, id: JobId): nat {
    One(id in s.pending) + One(Holds(Waiting(s), id)) + One(Holds(InHand(s), id))
    + One(s.running == Some(id)) + One(Holds(s.handled, id) && s.running != Some(id))
  }

  lemma HoldsConcat(a: seq<Item>, b: seq<Item>, id: JobId)
    requires forall i, j :: 0 <= i < j < |a + b| ==> (a + b)[i].Work? && (a + b)[j].Work? && (a + b)[i].id != (a + b)[j].id
    ensures One(Holds(a + b, id)) == One(Holds(a, id)) + One(Holds(b, id))
  {
    if Holds(a, id) {
      var i :| 0 <= i < |a| && a[i].Work? && a[i].id == id;
      assert (a + b)[i] == a[i];
      forall j | 0 <= j < |b| ensures !(b[j].Work? && b[j].id == id) {
        assert (a + b)[|a| + j] == b[j];
      }
    }
    if Holds(b, id) {
      var j :| 0 <= j < |b| && b[j].Work? && b[j].id == id;
      assert (a + b)[|a| + j] == b[j];
    }
  }

  lemma OnePlace(s: State, id: JobId)
    requires Inv(s) && id in s.jobs
    ensures Places(s, id) == 1
  {
    assert Placed(s, id);
    HoldsConcat(s.handled + InHand(s), Waiting(s), id);
    assert forall i :: 0 <= i < |s.handled + InHand(s)| ==> (s.handled + InHand(s))[i] == s.puts[i];
    HoldsConcat(s.handled, InHand(s), id);
    if s.running == Some(id) {
      assert s.handled[|s.handled| - 1].id == id;
    }
  }

  predicate Forward(before: Status, after: Status) {
    || before == after
    || (before == Queued && after == Running)
    || (before == Running && (after == Completed || after == Failed))
  }

  /** Along every action, jobs are never forgotten and each status only moves forward. */
  lemma StatusMovesForward(s: State, a: Action)
    requires Inv(s) && Enabled(s, a)
    ensures forall id :: id in s.jobs ==> id in Next(s, a).jobs && Forward(s.jobs[id], Next(s, a).jobs[id])
  {
    match a
    case Begin =>
      var item := s.hand.value;
      assert s.puts[|s.handled|] == item && InHand(s)[0] == item;
      assert Placed(s, item.id);
      OnePlace(s, item.id);
    case Finish(ok) =>
      assert s.puts[|s.handled| - 1] == Last(s.handled);
      assert s.handled[|s.handled| - 1].id == s.running.value && Placed(s, s.running.value);
    case _ =>
  }

  ghost predicate IsRun(actions: seq<Action>, states: seq<State>) {
    && |states| == |actions| + 1 && states[0] == START
    && forall i :: 0 <= i < |actions| ==> Enabled(states[i], actions[i]) && states[i + 1] == Next(states[i], actions[i])
  }

  /** Over every interleaving of submitters, worker and stop: every queued job has an entry;
      jobs are handled in queue order, each at most once; at most one job is running; and
      pending, waiting, in-hand, running and finished jobs partition the submitted ones. */
  lemma {:induction false} RunKeepsInv(actions: seq<Action>, states: seq<State>, n: nat)
    requires IsRun(actions, states) && n < |states|
    ensures Inv(states[n])
    ensures states[n].handled <= states[n].puts
    ensures forall i, j :: 0 <= i < j < |states[n].handled| ==> states[n].handled[i].id != states[n].handled[j].id
    ensures forall id :: id in states[n].jobs ==> Places(states[n], id) == 1
    ensures forall id :: id in states[n].jobs && states[n].jobs[id] == Running ==> states[n].running == Some(id)
  {
    if n > 0 {
      RunKeepsInv(actions, states, n - 1);
      StepKeepsInv(states[n - 1], actions[n - 1]);
    }
    HandledOnce(states[n]);
    forall id | id in states[n].jobs
      ensures Places(states[n], id) == 1
      ensures states[n].jobs[id] == Running ==> states[n].running == Some(id)
    {
      assert Placed(states[n], id);
      OnePlace(states[n], id);
    }
  }

  lemma HandledOnce(s: State)
    requires Lined(s)
    ensures s.handled <= s.puts
    ensures forall i, j :: 0 <= i < j < |s.handled| ==> s.handled[i].id != s.handled[j].id
  {
    assert forall i :: 0 <= i < |s.handled| ==> s.handled[i] == s.puts[i];
  }

  /* ---- how jobs end ---- */

  /** Step `i` is the worker's finish of the job, with the given outcome. */
  predicate Ends(actions: seq<Action>, states: seq<State>, i: nat, id: JobId, ok: bool)
    requires i < |actions| && i < |states|
  {
    actions[i].Finish? && actions[i].ok == ok && states[i].running == Some(id)
  }

  ghost predicate Ended(actions: seq<Action>, states: seq<State>, n: nat, id: JobId, ok: bool)
    requires n <= |actions| && n <= |states|
  {
    exists i :: 0 <= i < n && Ends(actions, states, i, id, ok)
  }

  lemma EndedNext(actions: seq<Action>, states: seq<State>, n: nat, id: JobId, ok: bool)
    requires n < |actions| && n < |states|
    ensures Ended(actions, states, n + 1, id, ok) <==> Ended(actions, states, n, id, ok) || Ends(actions, states, n, id, ok)
  {
  }

  /** The running job is queued no more, and not finished yet. */
  lemma RunningIsRunning(s: State)
    requires Inv(s) && s.running.Some?
    ensures s.running.value in s.jobs && s.jobs[s.running.value] == Running
  {
    assert s.puts[|s.handled| - 1] == Last(s.handled);
    assert s.handled[|s.handled| - 1].id == s.running.value && Placed(s, s.running.value);
  }

  lemma BeginsQueued(s: State)
    requires Inv(s) && Enabled(s, Begin)
    ensures s.hand.value.id in s.jobs && s.jobs[s.hand.value.id] == Queued
  {
    assert s.puts[|s.handled|] == s.hand.value && InHand(s)[0] == s.hand.value;
    assert Placed(s, s.hand.value.id);
    OnePlace(s, s.hand.value.id);
  }

  lemma EndStep(actions: seq<Action>, states: seq<State>, i: nat, id: JobId)
    requires IsRun(actions, states) && i < |actions| && Inv(states[i]) && id in states[i + 1].jobs
    ensures states[i + 1].jobs[id] == Completed <==>
              Ends(actions, states, i, id, true) || (id in states[i].jobs && states[i].jobs[id] == Completed)
    ensures states[i + 1].jobs[id] == Failed <==>
              Ends(actions, states, i, id, false) || (id in states[i].jobs && states[i].jobs[id] == Failed)
  {
    if actions[i].Begin? { BeginsQueued(states[i]); }
    if actions[i].Finish? { RunningIsRunning(states[i]); }
  }

  lemma {:induction false} NotEndedYet(actions: seq<Action>, states: seq<State>, n: nat, id: JobId, ok: bool)
    requires IsRun(actions, states) && n < |states| && id !in states[n].jobs
    ensures !Ended(actions, states, n, id, ok)
  {
    if n > 0 {
      NotEndedYet(actions, states, n - 1, id, ok);
      EndedNext(actions, states, n - 1, id, ok);
      RunKeepsInv(actions, states, n - 1);
      if Ends(actions, states, n - 1, id, ok) {
        RunningIsRunning(states[n - 1]);
      }
    }
  }

  /** In every run a job is completed if and only if its handler succeeded, and failed if and
      only if it raised. */
  lemma {:induction false} StatusTellsOutcome(actions: seq<Action>, states: seq<State>, n: nat, id: JobId)
    requires IsRun(actions, states) && n < |states| && id in states[n].jobs
    ensures states[n].jobs[id] == Completed <==> Ended(actions, states, n, id, true)
    ensures states[n].jobs[id] == Failed <==> Ended(actions, states, n, id, false)
  {
    if n > 0 {
      RunKeepsInv(actions, states, n - 1);
      EndStep(actions, states, n - 1, id);
      EndedNext(actions, states, n - 1, id, true);
      EndedNext(actions, states, n - 1, id, false);
      if id in states[n - 1].jobs {
        StatusTellsOutcome(actions, states, n - 1, id);
      } else {
        NotEndedYet(actions, states, n - 1, id, true);
        NotEndedYet(actions, states, n - 1, id, false);
      }
    }
  }
}
