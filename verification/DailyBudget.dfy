/** observability.py, DailyTokenBudget, and how api.py uses it: a request checks the
    remaining budget, calls the model, and spends what it used, with other requests in
    between and possibly on the next day. */
module DailyBudget {
  import opened Sequences

  datatype Slot = Slot(tenant: string, day: nat)

  function Used(used: map<Slot, nat>, slot: Slot): nat { if slot in used then used[slot] else 0 }

  /** What a request may still use; None stands for an unlimited budget. */
  function Left(limit: int, used: map<Slot, nat>, slot: Slot): Option<int> {
    if limit <= 0 then None else Some(limit - Used(used, slot))
  }

  function Charge(used: map<Slot, nat>, slot: Slot, tokens: nat): map<Slot, nat> {
    used[slot := Used(used, slot) + tokens]
  }

  /** The test that lets a request call the model. */
  predicate Admits(limit: int, used: map<Slot, nat>, slot: Slot) {
    Left(limit, used, slot).Some? ==> Left(limit, used, slot).value > 0
  }

  datatype Payment = Payment(slot: Slot, tokens: nat)

  /** What was paid for one tenant on one day. */
  function Paid(payments: seq<Payment>, slot: Slot): nat {
    if payments == [] then 0
    else Paid(Init(payments), slot) + if Last(payments).slot == slot then Last(payments).tokens else 0
  }

  class DailyTokenBudget {
    const limit: int
    var used: map<Slot, nat>
    ghost var payments: seq<Payment>

    /** The counters are the sums of the payments so far. */
    ghost predicate Valid()
      reads this
    {
      limit > 0 ==> forall slot :: Used(used, slot) == Paid(payments, slot)
    }

    constructor (limit: int)
      ensures Valid() && this.limit == limit && used == map[] && payments == []
    {
      this.limit := limit;
      used, payments := map[], [];
    }

    /** The limit less everything paid for the tenant today, whatever happened in between;
        positive exactly when a request is let through. */
    method Remaining(tenant: string, today: nat) returns (left: Option<int>)
      requires Valid()
      ensures left.None? <==> limit <= 0
      ensures left.Some? ==> left.value == limit - Paid(payments, Slot(tenant, today))
      ensures Admits(limit, used, Slot(tenant, today)) <==> (left.None? || left.value > 0)
    {
      left := Left(limit, used, Slot(tenant, today));
    }

    method Spend(tenant: string, today: nat, tokens: nat)
      requires Valid()
      modifies this
      ensures Valid() && payments == old(payments) + [Payment(Slot(tenant, today), tokens)]
      ensures used == if limit > 0 then Charge(old(used), Slot(tenant, today), tokens) else old(used)
    {
      var slot := Slot(tenant, today);
      payments := payments + [Payment(slot, tokens)];
      assert Init(payments) == old(payments) && Last(payments) == Payment(slot, tokens);
      if limit > 0 {
        used := Charge(used, slot, tokens);
      }
    }
  }

  /* ---- concurrent requests ---- */

  /** At most `slots` requests of a tenant are in flight, each costing at most `cost`. */
  datatype Setting = Setting(limit: nat, slots: nat, cost: nat)

  datatype System = System(used: map<Slot, nat>, inFlight: map<nat, string>, today: nat)

  datatype Step =
    | Check(id: nat, tenant: string)    // the request goes on only if budget remains
    | Spend(id: nat, tokens: nat)
    | Abandon(id: nat)                  // the request fails before it spends
    | Midnight

  const START := System(map[], map[], 0)

  function Requests(s: System, tenant: string): set<nat> {
    set id | id in s.inFlight && s.inFlight[id] == tenant
  }

  predicate Enabled(c: Setting, s: System, step: Step) {
    match step
    case Check(id, tenant) => id !in s.inFlight && |Requests(s, tenant)| < c.slots
    case Spend(id, tokens) => id in s.inFlight && tokens <= c.cost
    case Abandon(id) => id in s.inFlight
    case Midnight => true
  }

  function Next(c: Setting, s: System, step: Step): System
    requires Enabled(c, s, step)
  {
    match step
    case Check(id, tenant) =>
      if Admits(c.limit, s.used, Slot(tenant, s.today)) then s.(inFlight := s.inFlight[id := tenant]) else s
    case Spend(id, tokens) =>
      System(Charge(s.used, Slot(s.inFlight[id], s.today), tokens), s.inFlight - {id}, s.today)
    case Abandon(id) => s.(inFlight := s.inFlight - {id})
    case Midnight => s.(today := s.today + 1)
  }

  /** The most that `n` requests in flight can still spend. */
  function Reserved(c: Setting, n: nat): nat { n * c.cost }

  function Bound(c: Setting): int { c.limit - 1 + Reserved(c, c.slots) }

  /** What is used today plus what is in flight never passes the bound; later days are untouched. */
  ghost predicate TenantInv(c: Setting, s: System, tenant: string) {
    && |Requests(s, tenant)| <= c.slots
    && Used(s.used, Slot(tenant, s.today)) + Reserved(c, |Requests(s, tenant)|) <= Bound(c)
    && (forall day :: day > s.today ==> Used(s.used, Slot(tenant, day)) == 0)
    && (forall day :: Used(s.used, Slot(tenant, day)) <= Bound(c))
  }

  ghost predicate Inv(c: Setting, s: System) {
    forall tenant :: TenantInv(c, s, tenant)
  }

  lemma RequestsAdd(s: System, id: nat, tenant: string, other: string)
    requires id !in s.inFlight
    ensures |Requests(s.(inFlight := s.inFlight[id := tenant]), other)|
         == |Requests(s, other)| + if other == tenant then 1 else 0
  {
    var s' := s.(inFlight := s.inFlight[id := tenant]);
    if other == tenant {
      assert Requests(s', other) == Requests(s, other) + {id};
    } else {
      assert Requests(s', other) == Requests(s, other);
    }
  }

  lemma RequestsRemove(s: System, id: nat, used: map<Slot, nat>, other: string)
    requires id in s.inFlight
    ensures |Requests(System(used, s.inFlight - {id}, s.today), other)|
         == |Requests(s, other)| - if other == s.inFlight[id] then 1 else 0
  {
    var s' := System(used, s.inFlight - {id}, s.today);
    if other == s.inFlight[id] {
      assert Requests(s, other) == Requests(s', other) + {id};
    } else {
      assert Requests(s', other) == Requests(s, other);
    }
  }

  lemma ReservedGrows(c: Setting, m: nat, n: nat)
    requires m <= n
    ensures Reserved(c, m) <= Reserved(c, n)
    ensures Reserved(c, m + 1) == Reserved(c, m) + c.cost
  {
    assert n * c.cost == m * c.cost + (n - m) * c.cost;
  }

  lemma TenantStep(c: Setting, s: System, step: Step, tenant: string)
    requires c.limit >= 1 && TenantInv(c, s, tenant) && Enabled(c, s, step)
    ensures TenantInv(c, Next(c, s, step), tenant)
  {
    var s' := Next(c, s, step);
    var n, n' := |Requests(s, tenant)|, |Requests(s', tenant)|;
    match step
    case Check(id, t) =>
      if s' != s {
        RequestsAdd(s, id, t, tenant);
        ReservedGrows(c, n', c.slots);
      }
    case Spend(id, tokens) =>
      RequestsRemove(s, id, s'.used, tenant);
      ReservedGrows(c, n', n);
    case Abandon(id) =>
      RequestsRemove(s, id, s.used, tenant);
      ReservedGrows(c, n', n);
    case Midnight =>
      assert Requests(s', tenant) == Requests(s, tenant);
      ReservedGrows(c, n, c.slots);
  }

  lemma StepKeepsInv(c: Setting, s: System, step: Step)
    requires c.limit >= 1 && Inv(c, s) && Enabled(c, s, step)
    ensures Inv(c, Next(c, s, step))
  {
    forall tenant ensures TenantInv(c, Next(c, s, step), tenant) {
      assert TenantInv(c, s, tenant);
      TenantStep(c, s, step, tenant);
    }
  }

  ghost predicate IsRun(c: Setting, steps: seq<Step>, states: seq<System>) {
    && |states| == |steps| + 1 && states[0] == START
    && forall i :: 0 <= i < |steps| ==> Enabled(c, states[i], steps[i]) && states[i + 1] == Next(c, states[i], steps[i])
  }

  /** In every interleaving, on every day, no tenant uses more than limit - 1 + slots * cost. */
  lemma {:induction false} UsageBounded(c: Setting, steps: seq<Step>, states: seq<System>, n: nat)
    requires c.limit >= 1 && IsRun(c, steps, states) && n < |states|
    ensures Inv(c, states[n])
    ensures forall tenant, day :: Used(states[n].used, Slot(tenant, day)) <= c.limit - 1 + c.slots * c.cost
  {
    if n > 0 {
      UsageBounded(c, steps, states, n - 1);
      StepKeepsInv(c, states[n - 1], steps[n - 1]);
      forall tenant, day ensures Used(states[n].used, Slot(tenant, day)) <= Bound(c) {
        assert TenantInv(c, states[n], tenant);
      }
    } else {
      forall tenant ensures TenantInv(c, START, tenant) {
        assert Requests(START, tenant) == {};
      }
    }
  }

  /* ---- the bound is reached ---- */

  lemma Extend(c: Setting, steps: seq<Step>, states: seq<System>, step: Step)
    requires IsRun(c, steps, states) && Enabled(c, Last(states), step)
    ensures IsRun(c, steps + [step], states + [Next(c, Last(states), step)])
  {
  }

  /** One-token requests, one at a time, use `k` tokens. */
  lemma {:induction false} UseUp(c: Setting, tenant: string, k: nat) returns (steps: seq<Step>, states: seq<System>)
    requires c.slots >= 1 && c.cost >= 1 && k < c.limit
    ensures IsRun(c, steps, states)
    ensures Last(states).inFlight == map[] && Used(Last(states).used, Slot(tenant, Last(states).today)) == k
  {
    if k == 0 {
      return [], [START];
    }
    steps, states := UseUp(c, tenant, k - 1);
    assert Requests(Last(states), tenant) == {};
    var check, spend := Check(0, tenant), Spend(0, 1);
    var middle := Next(c, Last(states), check);
    Extend(c, steps, states, check);
    Extend(c, steps + [check], states + [middle], spend);
    steps, states := steps + [check] + [spend], states + [middle] + [Next(c, middle, spend)];
  }

  /** Exactly requests 0 to n - 1 are in flight, all of one tenant. */
  ghost predicate FirstInFlight(s: System, n: nat, tenant: string) {
    forall id: nat :: (id in s.inFlight <==> id < n) && (id in s.inFlight ==> s.inFlight[id] == tenant)
  }

  /** Then `n` requests pass the check while one token is left. */
  lemma {:induction false} CheckAll(c: Setting, tenant: string, n: nat) returns (steps: seq<Step>, states: seq<System>)
    requires c.limit >= 1 && c.slots >= 1 && c.cost >= 1 && n <= c.slots
    ensures IsRun(c, steps, states)
    ensures FirstInFlight(Last(states), n, tenant)
    ensures Used(Last(states).used, Slot(tenant, Last(states).today)) == c.limit - 1
  {
    if n == 0 {
      steps, states := UseUp(c, tenant, c.limit - 1);
      return;
    }
    steps, states := CheckAll(c, tenant, n - 1);
    Numbered(Requests(Last(states), tenant), n - 1);
    var check := Check(n - 1, tenant);
    Extend(c, steps, states, check);
    steps, states := steps + [check], states + [Next(c, Last(states), check)];
  }

  lemma {:induction false} Numbered(s: set<nat>, n: nat)
    requires forall id :: id in s <==> 0 <= id < n
    ensures |s| == n
  {
    if n == 0 {
      assert s == {};
    } else {
      Numbered(s - {n - 1}, n - 1);
    }
  }

  /** Then they all spend the most they may. */
  lemma {:induction false} SpendAll(c: Setting, tenant: string, n: nat) returns (steps: seq<Step>, states: seq<System>)
    requires c.limit >= 1 && c.slots >= 1 && c.cost >= 1 && n <= c.slots
    ensures IsRun(c, steps, states)
    ensures FirstInFlight(Last(states), c.slots - n, tenant)
    ensures Used(Last(states).used, Slot(tenant, Last(states).today)) == c.limit - 1 + Reserved(c, n)
  {
    if n == 0 {
      steps, states := CheckAll(c, tenant, c.slots);
      return;
    }
    steps, states := SpendAll(c, tenant, n - 1);
    var spend := Spend(c.slots - n, c.cost);
    Extend(c, steps, states, spend);
    ReservedGrows(c, n - 1, n);
    steps, states := steps + [spend], states + [Next(c, Last(states), spend)];
  }

  /** The bound is exact: some interleaving uses all of it in one day. */
  lemma BoundIsReached(c: Setting, tenant: string)
    requires c.limit >= 1 && c.slots >= 1 && c.cost >= 1
    ensures exists steps, states :: IsRun(c, steps, states)
              && Used(Last(states).used, Slot(tenant, Last(states).today)) == c.limit - 1 + c.slots * c.cost
  {
    var steps, states := SpendAll(c, tenant, c.slots);
  }
}
