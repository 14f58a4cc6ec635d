/** The one-time charges on the bills: each listed once, and all of their money billed exactly once. */
module BillContents {
  import opened Options
  import opened Services
  import opened Sums
  import opened BillingLines
  import opened MonthClose
  import opened OneTimeCharges
  import C = Calendar

  ghost predicate Increasing(ids: seq<nat>) {
    forall j, k :: 0 <= j < k < |ids| ==> ids[j] < ids[k]
  }

  lemma {:induction false} OpenIncreasing(charges: seq<Charge>, tenant: nat)
    ensures Increasing(OpenCharges(charges, tenant))
  {
    if charges != [] {
      OpenIncreasing(charges[..|charges| - 1], tenant);
    }
  }

  // ------------------------------------------------------- sums over the charge table

  /** How many charges satisfy `p`. */
  ghost function CountWhere(charges: seq<Charge>, p: Charge -> bool): nat {
    if charges == [] then 0
    else
      var n := |charges| - 1;
      CountWhere(charges[..n], p) + if p(charges[n]) then 1 else 0
  }

  /** The sum of the charges that satisfy `p`. */
  ghost function SumWhere(charges: seq<Charge>, p: Charge -> bool): int {
    if charges == [] then 0
    else
      var n := |charges| - 1;
      SumWhere(charges[..n], p) + if p(charges[n]) then charges[n].amount else 0
  }

  ghost function Unmarked(tenant: nat): Charge -> bool {
    (c: Charge) => c.tenant == tenant && c.billed.None?
  }

  ghost function MarkedWithin(tenant: nat, cycles: seq<Cycle>): Charge -> bool {
    (c: Charge) => c.tenant == tenant && c.billed.Some? && c.billed.value in cycles
  }

  /** Listing exactly the charges that satisfy `p`, in order, picks up their sum. */
  lemma {:induction false} Picked(charges: seq<Charge>, ids: seq<nat>, p: Charge -> bool)
    requires Increasing(ids)
    requires forall k :: 0 <= k < |ids| ==> ids[k] < |charges|
    requires forall i :: 0 <= i < |charges| ==> (i in ids <==> p(charges[i]))
    ensures |ids| == CountWhere(charges, p)
    ensures Total(Amounts(charges, ids)) == SumWhere(charges, p)
  {
    hide Amounts, Total, Increasing;
    assert |ids| > 0 ==> ids[0] < |charges|;
    assert ids == [] ==> Total(Amounts(charges, ids)) == 0 by { NoAmounts(charges); }
    if charges != [] {
      var n, m := |charges| - 1, |ids| - 1;
      if p(charges[n]) {
        WithoutLastListed(charges, ids, p);
        Picked(charges[..n], ids[..m], p);
        AmountsLast(charges, ids);
      } else {
        assert forall k :: 0 <= k < |ids| ==> ids[k] in ids && ids[k] != n;
        Picked(charges[..n], ids, p);
        AmountsWithin(charges, ids, n);
      }
    }
  }

  lemma NoAmounts(charges: seq<Charge>)
    ensures Total(Amounts(charges, [])) == 0
  {
  }

  lemma AmountsWithin(charges: seq<Charge>, ids: seq<nat>, n: nat)
    requires n <= |charges| && forall k :: 0 <= k < |ids| ==> ids[k] < n
    ensures Amounts(charges, ids) == Amounts(charges[..n], ids)
  {
  }

  lemma AmountsLast(charges: seq<Charge>, ids: seq<nat>)
    requires ids != [] && forall k :: 0 <= k < |ids| ==> ids[k] < |charges|
    requires var m := |ids| - 1; forall k :: 0 <= k < m ==> ids[k] < ids[m]
    ensures var m := |ids| - 1;
      Total(Amounts(charges, ids)) == Total(Amounts(charges[..ids[m]], ids[..m])) + charges[ids[m]].amount
  {
    var m := |ids| - 1;
    assert Amounts(charges, ids)[..m] == Amounts(charges[..ids[m]], ids[..m]);
  }

  /** Of increasing ids the greatest comes last, so the others list the rest of the table. */
  lemma WithoutLastListed(charges: seq<Charge>, ids: seq<nat>, p: Charge -> bool)
    requires Increasing(ids) && charges != [] && p(charges[|charges| - 1])
    requires forall k :: 0 <= k < |ids| ==> ids[k] < |charges|
    requires forall i :: 0 <= i < |charges| ==> (i in ids <==> p(charges[i]))
    ensures var n, m := |charges| - 1, |ids| - 1;
      && m >= 0 && ids[m] == n && Increasing(ids[..m])
      && (forall k :: 0 <= k < m ==> ids[k] < n)
      && (forall i :: 0 <= i < n ==> (i in ids[..m] <==> p(charges[..n][i])))
  {
    var n := |charges| - 1;
    assert n in ids;
    assert ids == ids[..|ids| - 1] + [n];
  }

  // ------------------------------------------------------------------ one new bill

  /** The money on the lines of a code. */
  ghost function AmountOf(lines: seq<Line>, code: Code): int {
    if lines == [] then 0
    else
      var n := |lines| - 1;
      AmountOf(lines[..n], code) + if lines[n].code == code then lines[n].amount else 0
  }

  lemma {:induction false} AmountAppend(a: seq<Line>, b: seq<Line>, code: Code)
    ensures AmountOf(a + b, code) == AmountOf(a, code) + AmountOf(b, code)
  {
    if b == [] {
      assert a + b == a;
    } else {
      var n := |b| - 1;
      assert (a + b)[..|a| + n] == a + b[..n];
      AmountAppend(a, b[..n], code);
    }
  }

  lemma {:induction false} NoneOf(lines: seq<Line>, code: Code)
    requires forall line <- lines :: line.code != code
    ensures AmountOf(lines, code) == 0
  {
    if lines != [] { NoneOf(lines[..|lines| - 1], code); }
  }

  lemma {:induction false} ChargeMoney(amounts: seq<int>)
    ensures AmountOf(ChargeLines(amounts), OneTime) == Total(amounts)
  {
    if amounts != [] {
      var n := |amounts| - 1;
      ChargeMoney(amounts[..n]);
      assert ChargeLines(amounts)[..n] == ChargeLines(amounts[..n]);
    }
  }

  lemma OneTimeMoney(tariff: Tariff, counts: Counts, amounts: seq<int>)
    requires tariff.tiers != []
    ensures AmountOf(Compute(tariff, counts, amounts).lines, OneTime) == Total(amounts)
  {
    UsageLinesProper(tariff, counts);
    ChargeMoney(amounts);
    hide UsageLines, ChargeLines, Subtotal, VatOf, ProperLine, Total;
    NoneOf(UsageLines(tariff, counts), OneTime);
    AmountAppend(UsageLines(tariff, counts), ChargeLines(amounts), OneTime);
  }

  /**
    The one-time lines of a new bill are, in number and in money, the tenant's unmarked charges; everything
    else on it is the tenant's usage in the cycle's window at the tariff, and the tax on both.
  */
  lemma NewBillExactly(usage: seq<Usage>, charges: seq<Charge>, tenant: nat, cycle: Cycle, tariff: Tariff,
                       terminals: nat, fee: int)
    requires tariff.tiers != [] && IsTierFee(tariff, fee)
    ensures var bill := BillFor(usage, charges, tenant, cycle, tariff, terminals);
      && |bill.charges| == Qty(bill.lines, OneTime) == CountWhere(charges, Unmarked(tenant))
      && AmountOf(bill.lines, OneTime) == SumWhere(charges, Unmarked(tenant))
      && bill.subtotal == Units(usage, tenant, ExcelSms, C.Start(cycle), C.End(cycle)) * tariff.excelUnit
                          + Units(usage, tenant, ApiSms, C.Start(cycle), C.End(cycle)) * tariff.apiUnit
                          + (if tariff.ebarimtApi then fee else 0) + terminals * tariff.perDevice
                          + SumWhere(charges, Unmarked(tenant))
      && -50 <= bill.subtotal * tariff.vatPercent - 100 * bill.vat < 50
      && bill.total == bill.subtotal + bill.vat
  {
    var ids, counts := OpenCharges(charges, tenant), CountsOf(usage, tenant, cycle, terminals);
    var amounts := Amounts(charges, ids);
    OpenIncreasing(charges, tenant);
    Picked(charges, ids, Unmarked(tenant));
    hide Compute, OpenCharges, C.Start, C.End, Total, Units;
    OneTimeMoney(tariff, counts, amounts);
    BillAmounts(tariff, counts, amounts, fee);
    BillQuantities(tariff, counts, amounts, OneTime);
  }

  // ------------------------------------------------------------------ over runs

  /** The bill lists charges without repeating one, and its one-time lines carry exactly their money. */
  ghost predicate Tallies(charges: seq<Charge>, bill: Bill) {
    && Increasing(bill.charges)
    && (forall k :: 0 <= k < |bill.charges| ==> bill.charges[k] < |charges|)
    && AmountOf(bill.lines, OneTime) == Total(Amounts(charges, bill.charges))
  }

  ghost predicate Tallied(s: Sys) {
    && (forall k :: k in s.bills ==> Tallies(s.charges, s.bills[k]))
    && (forall w :: 0 <= w < |s.workers| && s.workers[w].phase.Priced? ==>
          Tallies(s.charges, s.workers[w].phase.bill))
  }

  lemma NewTallies(usage: seq<Usage>, charges: seq<Charge>, tenant: nat, cycle: Cycle, tariff: Tariff, terminals: nat)
    requires tariff.tiers != []
    ensures Tallies(charges, BillFor(usage, charges, tenant, cycle, tariff, terminals))
  {
    OpenIncreasing(charges, tenant);
    hide Compute, OpenCharges, Total, Units, AmountOf;
    OneTimeMoney(tariff, CountsOf(usage, tenant, cycle, terminals), Amounts(charges, OpenCharges(charges, tenant)));
  }

  /** Charges are only ever added and marked, so a bill goes on tallying. */
  lemma TalliesKept(charges: seq<Charge>, charges': seq<Charge>, bill: Bill)
    requires Tallies(charges, bill) && |charges| <= |charges'|
    requires forall i :: 0 <= i < |charges| ==> charges'[i].amount == charges[i].amount
    ensures Tallies(charges', bill)
  {
    assert Amounts(charges', bill.charges) == Amounts(charges, bill.charges);
  }

  lemma TalliedStep(s: Sys, a: Action)
    requires Tallied(s)
    ensures Tallied(Step(s, a))
  {
    hide Tallies, BillFor;
    var t := Step(s, a);
    forall bill: Bill | Tallies(s.charges, bill) ensures Tallies(t.charges, bill) {
      TalliesKept(s.charges, t.charges, bill);
    }
    if a.Price? && a.worker < |s.workers| && a.tariff.tiers != [] {
      NewTallies(s.usage, s.charges, s.workers[a.worker].tenant, s.workers[a.worker].cycle, a.tariff, a.terminals);
    }
  }

  /** Over any run of any schedule no bill lists a charge twice, and its one-time money is that of its charges. */
  lemma {:induction false} ListedOnce(s: Sys, actions: seq<Action>)
    requires Empty(s)
    ensures Tallied(Run(s, actions))
  {
    if actions != [] {
      var n := |actions| - 1;
      ListedOnce(s, actions[..n]);
      TalliedStep(Run(s, actions[..n]), actions[n]);
    }
  }

  // --------------------------------------------------------------- conservation

  /** The one-time money on a tenant's bills of some cycles. */
  ghost function OneTimeBilled(s: Sys, tenant: nat, cycles: seq<Cycle>): int
    requires forall c <- cycles :: (tenant, c) in s.bills
  {
    if cycles == [] then 0
    else
      var n := |cycles| - 1;
      OneTimeBilled(s, tenant, cycles[..n]) + AmountOf(s.bills[(tenant, cycles[n])].lines, OneTime)
  }

  lemma {:induction false} MarkedInNone(charges: seq<Charge>, tenant: nat)
    ensures SumWhere(charges, MarkedWithin(tenant, [])) == 0
  {
    if charges != [] { MarkedInNone(charges[..|charges| - 1], tenant); }
  }

  lemma {:induction false} MarkedInOneMore(charges: seq<Charge>, tenant: nat, cycles: seq<Cycle>, c: Cycle)
    requires c !in cycles
    ensures SumWhere(charges, MarkedWithin(tenant, cycles + [c])) ==
            SumWhere(charges, MarkedWithin(tenant, cycles)) + SumWhere(charges, MarkedWithin(tenant, [c]))
  {
    if charges != [] { MarkedInOneMore(charges[..|charges| - 1], tenant, cycles, c); }
  }

  /** Once no close is under way, a bill's one-time money is that of the charges marked with its cycle. */
  lemma SettledBill(s: Sys, actions: seq<Action>, tenant: nat, c: Cycle)
    requires Empty(s) && OrderlyRun(s, actions)
    requires var t := Run(s, actions); forall w :: 0 <= w < |t.workers| ==> !Live(t.workers[w])
    requires (tenant, c) in Run(s, actions).bills
    ensures var t := Run(s, actions);
      AmountOf(t.bills[(tenant, c)].lines, OneTime) == SumWhere(t.charges, MarkedWithin(tenant, [c]))
  {
    hide Run, OrderlyRun, AmountOf, SumWhere, Total;
    var t := Run(s, actions);
    var bill := t.bills[(tenant, c)];
    ListedOnce(s, actions);
    ChargedAtMostOnce(s, actions, 0);
    forall i | 0 <= i < |t.charges| ensures i in bill.charges <==> MarkedWithin(tenant, [c])(t.charges[i]) {
      SettledExactly(s, actions, i, c);
    }
    Picked(t.charges, bill.charges, MarkedWithin(tenant, [c]));
  }

  /**
    Conservation of one-time charges: after an orderly run with no close under way, the one-time money on a
    tenant's bills is the money of its charges marked with those cycles, each charge counted once.
  */
  lemma {:induction false} ChargesConserved(s: Sys, actions: seq<Action>, tenant: nat, cycles: seq<Cycle>)
    requires Empty(s) && OrderlyRun(s, actions) && Distinct(cycles)
    requires var t := Run(s, actions); forall w :: 0 <= w < |t.workers| ==> !Live(t.workers[w])
    requires forall c <- cycles :: (tenant, c) in Run(s, actions).bills
    ensures var t := Run(s, actions);
      OneTimeBilled(t, tenant, cycles) == SumWhere(t.charges, MarkedWithin(tenant, cycles))
  {
    hide Run, OrderlyRun, AmountOf, SumWhere;
    var t := Run(s, actions);
    if cycles == [] {
      MarkedInNone(t.charges, tenant);
    } else {
      var n := |cycles| - 1;
      ChargesConserved(s, actions, tenant, cycles[..n]);
      SettledBill(s, actions, tenant, cycles[n]);
      MarkedInOneMore(t.charges, tenant, cycles[..n], cycles[n]);
      assert cycles == cycles[..n] + [cycles[n]];
    }
  }
}
