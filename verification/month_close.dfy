/**
  Closing a month: usage is stamped when it is inserted, closes read it, insert one bill per tenant and cycle
  and then mark the one-time charges on it. Closes of any tenants and cycles, the clock and new usage
  interleave, one database operation at a time.
*/
module MonthClose {
  import opened Options
  import opened Services
  import opened BillingLines
  import C = Calendar

  type Cycle = C.Cycle

  datatype Charge = Charge(tenant: nat, amount: int, billed: Option<Cycle>)

  /** A stored bill; `charges` remembers which charges its one-time lines are. */
  datatype Bill = Bill(lines: seq<Line>, subtotal: int, vat: int, total: int, charges: seq<nat>)

  /** One tenant's turn in a `closeMonth` call. */
  datatype Phase = Started | Priced(bill: Bill) | Inserted(charges: seq<nat>) | Ended

  datatype Worker = Worker(tenant: nat, cycle: Cycle, phase: Phase)

  datatype Sys = Sys(now: int, usage: seq<Usage>, charges: seq<Charge>, bills: map<(nat, Cycle), Bill>,
                     workers: seq<Worker>)

  datatype Action =
    | Tick(ms: nat)
    | Send(tenant: nat, service: Service, qty: nat)
    | AddCharge(tenant: nat, amount: int)
    | Start(tenant: nat, cycle: Cycle)
    | Price(worker: nat, tariff: Tariff, terminals: nat)
    | Insert(worker: nat)
    | Mark(worker: nat)
    | Crash(worker: nat)

  // ---------------------------------------------------------------- the steps

  function OpenCharges(charges: seq<Charge>, tenant: nat): (ids: seq<nat>)
    ensures forall k :: 0 <= k < |ids| ==>
      ids[k] < |charges| && charges[ids[k]].tenant == tenant && charges[ids[k]].billed.None?
    ensures forall i :: 0 <= i < |charges| && charges[i].tenant == tenant && charges[i].billed.None? ==> i in ids
  {
    if charges == [] then []
    else
      var n := |charges| - 1;
      OpenCharges(charges[..n], tenant)
      + if charges[n].tenant == tenant && charges[n].billed.None? then [n] else []
  }

  function Amounts(charges: seq<Charge>, ids: seq<nat>): (amounts: seq<int>)
    requires forall k :: 0 <= k < |ids| ==> ids[k] < |charges|
  {
    seq(|ids|, k requires 0 <= k < |ids| => charges[ids[k]].amount)
  }

  function CountsOf(usage: seq<Usage>, tenant: nat, cycle: Cycle, terminals: nat): Counts {
    Counts(Units(usage, tenant, ExcelSms, C.Start(cycle), C.End(cycle)),
           Units(usage, tenant, ApiSms, C.Start(cycle), C.End(cycle)), terminals)
  }

  function BillFor(usage: seq<Usage>, charges: seq<Charge>, tenant: nat, cycle: Cycle, tariff: Tariff,
                   terminals: nat): Bill
    requires tariff.tiers != []
  {
    var ids := OpenCharges(charges, tenant);
    var r := Compute(tariff, CountsOf(usage, tenant, cycle, terminals), Amounts(charges, ids));
    Bill(r.lines, r.subtotal, r.vat, r.total, ids)
  }

  /** The update by id: every listed charge gets the cycle, whatever it had. */
  function MarkAll(charges: seq<Charge>, ids: seq<nat>, cycle: Cycle): (marked: seq<Charge>)
    ensures |marked| == |charges|
    ensures forall i :: 0 <= i < |charges| ==>
      marked[i] == if i in ids then charges[i].(billed := Some(cycle)) else charges[i]
  {
    seq(|charges|, i requires 0 <= i < |charges| =>
      if i in ids then charges[i].(billed := Some(cycle)) else charges[i])
  }

  function Move(s: Sys, w: nat, phase: Phase): Sys
    requires w < |s.workers|
  {
    s.(workers := s.workers[w := s.workers[w].(phase := phase)])
  }

  function Step(s: Sys, a: Action): Sys {
    match a
    case Tick(ms) => s.(now := s.now + ms)
    case Send(tenant, service, qty) => s.(usage := s.usage + [Usage(tenant, service, qty, s.now)])
    case AddCharge(tenant, amount) => s.(charges := s.charges + [Charge(tenant, amount, None)])
    case Start(tenant, cycle) =>
      if C.End(cycle) <= s.now && (tenant, cycle) !in s.bills then
        s.(workers := s.workers + [Worker(tenant, cycle, Started)])
      else s
    case Price(w, tariff, terminals) =>
      if w < |s.workers| && s.workers[w].phase.Started? && tariff.tiers != [] then
        Move(s, w, Priced(BillFor(s.usage, s.charges, s.workers[w].tenant, s.workers[w].cycle, tariff, terminals)))
      else s
    case Insert(w) =>
      if w < |s.workers| && s.workers[w].phase.Priced? then
        var key := (s.workers[w].tenant, s.workers[w].cycle);
        var bill := s.workers[w].phase.bill;
        if key in s.bills then Move(s, w, Ended)
        else Move(s, w, Inserted(bill.charges)).(bills := s.bills[key := bill])
      else s
    case Mark(w) =>
      if w < |s.workers| && s.workers[w].phase.Inserted? then
        Move(s, w, Ended).(charges := MarkAll(s.charges, s.workers[w].phase.charges, s.workers[w].cycle))
      else s
    case Crash(w) => if w < |s.workers| then Move(s, w, Ended) else s
  }

  function Run(s: Sys, actions: seq<Action>): Sys {
    if actions == [] then s else Step(Run(s, actions[..|actions| - 1]), actions[|actions| - 1])
  }

  ghost predicate RunsTo(p: Sys, q: Sys) {
    exists actions :: Run(p, actions) == q
  }

  lemma OneMore(p: Sys, q: Sys, a: Action, r: Sys)
    requires RunsTo(p, q) && Step(q, a) == r
    ensures RunsTo(p, r)
  {
    var actions :| Run(p, actions) == q;
    assert (actions + [a])[..|actions|] == actions;
    assert Run(p, actions + [a]) == r;
  }

  ghost predicate Empty(s: Sys) {
    s.usage == [] && s.charges == [] && s.bills == map[] && s.workers == []
  }

  // ----------------------------------------------- closed windows do not change

  /** The bill's message lines are the tenant's units in the cycle's window. */
  ghost predicate Matches(lines: seq<Line>, usage: seq<Usage>, tenant: nat, cycle: Cycle) {
    forall service :: Qty(lines, Messages(service)) == Units(usage, tenant, service, C.Start(cycle), C.End(cycle))
  }

  ghost predicate Exact(s: Sys) {
    && (forall k :: k in s.bills ==> C.End(k.1) <= s.now && Matches(s.bills[k].lines, s.usage, k.0, k.1))
    && (forall w :: 0 <= w < |s.workers| ==> C.End(s.workers[w].cycle) <= s.now)
    && (forall w :: 0 <= w < |s.workers| && s.workers[w].phase.Priced? ==>
          Matches(s.workers[w].phase.bill.lines, s.usage, s.workers[w].tenant, s.workers[w].cycle))
  }

  /** Usage stamped after a window closed is not counted in it. */
  lemma LateUsage(lines: seq<Line>, usage: seq<Usage>, e: Usage, tenant: nat, cycle: Cycle)
    requires Matches(lines, usage, tenant, cycle) && C.End(cycle) <= e.at
    ensures Matches(lines, usage + [e], tenant, cycle)
  {
    assert (usage + [e])[..|usage|] == usage;
  }

  lemma BillMatches(usage: seq<Usage>, charges: seq<Charge>, tenant: nat, cycle: Cycle, tariff: Tariff, terminals: nat)
    requires tariff.tiers != []
    ensures Matches(BillFor(usage, charges, tenant, cycle, tariff, terminals).lines, usage, tenant, cycle)
  {
    var amounts := Amounts(charges, OpenCharges(charges, tenant));
    forall service
      ensures Qty(BillFor(usage, charges, tenant, cycle, tariff, terminals).lines, Messages(service))
              == Units(usage, tenant, service, C.Start(cycle), C.End(cycle)) {
      BillQuantities(tariff, CountsOf(usage, tenant, cycle, terminals), amounts, Messages(service));
    }
  }

  lemma ExactSend(s: Sys, e: Usage)
    requires Exact(s) && e.at == s.now
    ensures Exact(s.(usage := s.usage + [e]))
  {
    hide Matches, C.End;
    forall k | k in s.bills ensures Matches(s.bills[k].lines, s.usage + [e], k.0, k.1) {
      LateUsage(s.bills[k].lines, s.usage, e, k.0, k.1);
    }
    forall w | 0 <= w < |s.workers| && s.workers[w].phase.Priced?
      ensures Matches(s.workers[w].phase.bill.lines, s.usage + [e], s.workers[w].tenant, s.workers[w].cycle) {
      LateUsage(s.workers[w].phase.bill.lines, s.usage, e, s.workers[w].tenant, s.workers[w].cycle);
    }
  }

  lemma ExactStep(s: Sys, a: Action)
    requires Exact(s)
    ensures Exact(Step(s, a))
  {
    hide Matches, BillFor, C.End, C.Start;
    if a.Send? {
      hide Exact;
      ExactSend(s, Usage(a.tenant, a.service, a.qty, s.now));
    } else if a.Price? && a.worker < |s.workers| && a.tariff.tiers != [] {
      BillMatches(s.usage, s.charges, s.workers[a.worker].tenant, s.workers[a.worker].cycle, a.tariff, a.terminals);
    }
  }

  /**
    Over any run every bill on file says exactly what its tenant used in its cycle: no event ever lands in a
    window after it was billed.
  */
  lemma {:induction false} BillsStayExact(s: Sys, actions: seq<Action>)
    requires Empty(s)
    ensures Exact(Run(s, actions))
  {
    if actions != [] {
      var n := |actions| - 1;
      BillsStayExact(s, actions[..n]);
      ExactStep(Run(s, actions[..n]), actions[n]);
    }
  }

  // ------------------------------------------------------------- conservation

  /** The units a tenant was billed for over some cycles. */
  ghost function BilledUnits(s: Sys, tenant: nat, service: Service, cycles: seq<Cycle>): nat
    requires forall c <- cycles :: (tenant, c) in s.bills
  {
    if cycles == [] then 0
    else
      var n := |cycles| - 1;
      BilledUnits(s, tenant, service, cycles[..n]) + Qty(s.bills[(tenant, cycles[n])].lines, Messages(service))
  }

  /** The units of a tenant whose event falls into one of the cycles. */
  ghost function UnitsWithin(usage: seq<Usage>, tenant: nat, service: Service, cycles: seq<Cycle>): nat {
    if usage == [] then 0
    else
      var n := |usage| - 1;
      var e := usage[n];
      UnitsWithin(usage[..n], tenant, service, cycles)
      + if e.tenant == tenant && e.service == service && C.CycleKey(e.at) in cycles then e.qty else 0
  }

  lemma {:induction false} UnitsOfCycle(usage: seq<Usage>, tenant: nat, service: Service, cycles: seq<Cycle>, c: Cycle)
    requires C.Proper(c) && c !in cycles
    ensures UnitsWithin(usage, tenant, service, cycles + [c]) ==
            UnitsWithin(usage, tenant, service, cycles) + Units(usage, tenant, service, C.Start(c), C.End(c))
  {
    if usage != [] {
      var n := |usage| - 1;
      UnitsOfCycle(usage[..n], tenant, service, cycles, c);
      C.CycleWindow(usage[n].at, c);
    }
  }

  lemma {:induction false} UnitsOfNone(usage: seq<Usage>, tenant: nat, service: Service)
    ensures UnitsWithin(usage, tenant, service, []) == 0
  {
    if usage != [] { UnitsOfNone(usage[..|usage| - 1], tenant, service); }
  }

  ghost predicate Distinct(cycles: seq<Cycle>) {
    forall j, k :: 0 <= j < k < |cycles| ==> cycles[j] != cycles[k]
  }

  /**
    Conservation: over any set of billed calendar months, the units on the bills are the units of the
    events in those months, so each unit is on the bill of its own month and on no other.
  */
  lemma {:induction false} BilledOnce(s: Sys, tenant: nat, service: Service, cycles: seq<Cycle>)
    requires Exact(s) && Distinct(cycles)
    requires forall c <- cycles :: C.Proper(c) && (tenant, c) in s.bills
    ensures BilledUnits(s, tenant, service, cycles) == UnitsWithin(s.usage, tenant, service, cycles)
  {
    hide C.Start, C.End, C.CycleKey, C.Proper;
    if cycles == [] {
      UnitsOfNone(s.usage, tenant, service);
    } else {
      var n := |cycles| - 1;
      var c := cycles[n];
      BilledOnce(s, tenant, service, cycles[..n]);
      assert cycles == cycles[..n] + [c];
      UnitsOfCycle(s.usage, tenant, service, cycles[..n], c);
      assert Matches(s.bills[(tenant, c)].lines, s.usage, tenant, c);
    }
  }

  /** A tenant all of whose events lie in billed months has been billed for every unit, exactly once. */
  lemma {:induction false} AllUnitsBilled(s: Sys, actions: seq<Action>, tenant: nat, service: Service,
                                          cycles: seq<Cycle>)
    requires Empty(s) && Distinct(cycles)
    requires var t := Run(s, actions);
      && (forall c <- cycles :: C.Proper(c) && (tenant, c) in t.bills)
      && (forall e <- t.usage :: e.tenant == tenant && e.service == service ==> C.CycleKey(e.at) in cycles)
    ensures var t := Run(s, actions);
      BilledUnits(t, tenant, service, cycles) == Sent(t.usage, tenant, service)
  {
    var t := Run(s, actions);
    BillsStayExact(s, actions);
    BilledOnce(t, tenant, service, cycles);
    AllWithin(t.usage, tenant, service, cycles);
  }

  ghost function Sent(usage: seq<Usage>, tenant: nat, service: Service): nat {
    if usage == [] then 0
    else
      var n := |usage| - 1;
      Sent(usage[..n], tenant, service)
      + if usage[n].tenant == tenant && usage[n].service == service then usage[n].qty else 0
  }

  lemma {:induction false} AllWithin(usage: seq<Usage>, tenant: nat, service: Service, cycles: seq<Cycle>)
    requires forall e <- usage :: e.tenant == tenant && e.service == service ==> C.CycleKey(e.at) in cycles
    ensures UnitsWithin(usage, tenant, service, cycles) == Sent(usage, tenant, service)
  {
    if usage != [] {
      assert usage[|usage| - 1] in usage;
      AllWithin(usage[..|usage| - 1], tenant, service, cycles);
    }
  }

  /**
    Two bills of a tenant count a common time exactly when their keys mean one month, such as 2026-13 and
    2027-01; then they bill the very same units.
  */
  lemma SameMonthBilledTwice(s: Sys, tenant: nat, c: Cycle, d: Cycle, service: Service)
    requires Exact(s) && (tenant, c) in s.bills && (tenant, d) in s.bills
    ensures (exists t :: C.InWindow(t, c) && C.InWindow(t, d)) <==> C.WindowMonth(c) == C.WindowMonth(d)
    ensures C.WindowMonth(c) == C.WindowMonth(d) ==>
      Qty(s.bills[(tenant, c)].lines, Messages(service)) == Qty(s.bills[(tenant, d)].lines, Messages(service))
  {
    C.WindowsExactly(c, d);
    hide C.Start, C.End, C.WindowMonth, C.InWindow;
    assert Matches(s.bills[(tenant, c)].lines, s.usage, tenant, c);
    assert Matches(s.bills[(tenant, d)].lines, s.usage, tenant, d);
  }
}
