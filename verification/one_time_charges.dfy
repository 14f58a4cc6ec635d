/**
  One-time charges: a close reads the unmarked ones, puts them on its bill and marks them afterwards, in a
  separate write. Whether a charge is billed once therefore depends on what happens between those writes.
*/
module OneTimeCharges {
  import opened Options
  import opened BillingLines
  import opened MonthClose
  import C = Calendar

  ghost predicate Live(w: Worker) {
    !w.phase.Ended?
  }

  /**
    No crash between a bill and the marking of its charges, and closes of different cycles of one tenant do
    not overlap; any number of closes of the same cycle may.
  */
  ghost predicate Orderly(s: Sys, a: Action) {
    match a
    case Start(tenant, cycle) =>
      forall w :: 0 <= w < |s.workers| && Live(s.workers[w]) && s.workers[w].tenant == tenant ==>
        s.workers[w].cycle == cycle
    case Crash(w) => w < |s.workers| ==> !s.workers[w].phase.Inserted?
    case _ => true
  }

  ghost predicate OrderlyRun(s: Sys, actions: seq<Action>) {
    actions == [] ||
    (var n := |actions| - 1; OrderlyRun(s, actions[..n]) && Orderly(Run(s, actions[..n]), actions[n]))
  }

  ghost predicate OnBill(s: Sys, tenant: nat, cycle: Cycle, i: nat) {
    (tenant, cycle) in s.bills && i in s.bills[(tenant, cycle)].charges
  }

  ghost predicate IsMarking(w: Worker, tenant: nat, cycle: Cycle, i: nat) {
    w.tenant == tenant && w.cycle == cycle && w.phase.Inserted? && i in w.phase.charges
  }

  /** A live worker is about to mark the charge. */
  ghost predicate Marking(s: Sys, tenant: nat, cycle: Cycle, i: nat) {
    exists w :: 0 <= w < |s.workers| && IsMarking(s.workers[w], tenant, cycle, i)
  }

  ghost predicate OneCycle(s: Sys) {
    forall v, w ::
      0 <= v < |s.workers| && 0 <= w < |s.workers| && Live(s.workers[v]) && Live(s.workers[w]) ==>
        s.workers[v].tenant == s.workers[w].tenant ==> s.workers[v].cycle == s.workers[w].cycle
  }

  ghost predicate Owned(charges: seq<Charge>, ids: seq<nat>, tenant: nat) {
    forall i <- ids :: i < |charges| && charges[i].tenant == tenant
  }

  /** Bills only hold charges of their own tenant, and a worker that inserted a bill carries its charges. */
  ghost predicate Known(s: Sys) {
    && (forall k :: k in s.bills ==> Owned(s.charges, s.bills[k].charges, k.0))
    && (forall w :: 0 <= w < |s.workers| && s.workers[w].phase.Priced? ==>
          Owned(s.charges, s.workers[w].phase.bill.charges, s.workers[w].tenant))
    && (forall w :: 0 <= w < |s.workers| && s.workers[w].phase.Inserted? ==>
          var key := (s.workers[w].tenant, s.workers[w].cycle);
          key in s.bills && s.workers[w].phase.charges == s.bills[key].charges)
  }

  /** What holds of one charge: at most one bill, marked with it or about to be, and claimed for no other cycle. */
  ghost predicate Once(s: Sys, i: nat) {
    i < |s.charges| ==>
      var t := s.charges[i].tenant;
      && (forall c, d :: OnBill(s, t, c, i) && OnBill(s, t, d, i) ==> c == d)
      && (forall c :: OnBill(s, t, c, i) ==> s.charges[i].billed == Some(c) || Marking(s, t, c, i))
      && (s.charges[i].billed.Some? ==> OnBill(s, t, s.charges[i].billed.value, i))
      && (forall w, d :: 0 <= w < |s.workers| && Claims(s.workers[w], i) && OnBill(s, t, d, i) ==>
            d == s.workers[w].cycle)
  }

  ghost predicate Claims(w: Worker, i: nat) {
    w.phase.Priced? && i in w.phase.bill.charges
  }

  ghost predicate ChargeInv(s: Sys, i: nat) {
    OneCycle(s) && Known(s) && Once(s, i)
  }

  lemma BillCharges(s: Sys, tenant: nat, cycle: Cycle, tariff: Tariff, terminals: nat)
    requires tariff.tiers != []
    ensures BillFor(s.usage, s.charges, tenant, cycle, tariff, terminals).charges == OpenCharges(s.charges, tenant)
    ensures Owned(s.charges, OpenCharges(s.charges, tenant), tenant)
    ensures forall i <- OpenCharges(s.charges, tenant) :: s.charges[i].billed.None?
    ensures forall i :: 0 <= i < |s.charges| && s.charges[i].tenant == tenant && s.charges[i].billed.None? ==>
      i in OpenCharges(s.charges, tenant)
  {
  }

  lemma KnownStep(s: Sys, a: Action)
    requires Known(s)
    ensures Known(Step(s, a))
  {
    hide BillFor, OpenCharges;
    if a.Price? && a.worker < |s.workers| && a.tariff.tiers != [] {
      BillCharges(s, s.workers[a.worker].tenant, s.workers[a.worker].cycle, a.tariff, a.terminals);
    }
  }

  lemma OneCycleStep(s: Sys, a: Action)
    requires OneCycle(s) && Orderly(s, a)
    ensures OneCycle(Step(s, a))
  {
    hide BillFor, OpenCharges;
  }

  /** A worker that is not about to mark anything may move on without touching the marking of any charge. */
  lemma MarkingKept(s: Sys, t: Sys, w: nat, tenant: nat, cycle: Cycle, i: nat)
    requires Marking(s, tenant, cycle, i) && w < |s.workers| == |t.workers| && !s.workers[w].phase.Inserted?
    requires forall v :: 0 <= v < |s.workers| && v != w ==> t.workers[v] == s.workers[v]
    ensures Marking(t, tenant, cycle, i)
  {
    var v :| 0 <= v < |s.workers| && IsMarking(s.workers[v], tenant, cycle, i);
    assert IsMarking(t.workers[v], tenant, cycle, i);
  }

  lemma OncePrice(s: Sys, a: Action, i: nat)
    requires ChargeInv(s, i) && a.Price? && Step(s, a) != s
    ensures Once(Step(s, a), i)
  {
    var w, t := a.worker, Step(s, a);
    BillCharges(s, s.workers[w].tenant, s.workers[w].cycle, a.tariff, a.terminals);
    hide BillFor, OpenCharges, Known;
    if i < |s.charges| {
      var o := s.charges[i].tenant;
      assert forall c :: OnBill(t, o, c, i) <==> OnBill(s, o, c, i);
      forall c | OnBill(s, o, c, i)
        ensures s.charges[i].billed == Some(c) || Marking(t, o, c, i)
        ensures Claims(t.workers[w], i) ==> c == s.workers[w].cycle {
        if Marking(s, o, c, i) {
          MarkingKept(s, t, w, o, c, i);
          var v :| 0 <= v < |s.workers| && IsMarking(s.workers[v], o, c, i);
          assert Live(s.workers[v]) && Live(s.workers[w]);
        }
      }
    }
  }

  lemma OnceLost(s: Sys, a: Action, i: nat)
    requires ChargeInv(s, i) && a.Insert? && Step(s, a) != s && Step(s, a).bills == s.bills
    ensures Once(Step(s, a), i)
  {
    hide Known, OneCycle;
    var w, t := a.worker, Step(s, a);
    if i < |s.charges| {
      var o := s.charges[i].tenant;
      assert t.workers[w].phase.Ended?;
      assert forall c :: OnBill(t, o, c, i) <==> OnBill(s, o, c, i);
      forall c | Marking(s, o, c, i) ensures Marking(t, o, c, i) { MarkingKept(s, t, w, o, c, i); }
    }
  }

  /** A new bill: it adds its own cycle for the charges it claims, and those were on no other bill. */
  lemma NewBill(s: Sys, a: Action, i: nat, c: Cycle)
    requires Known(s) && a.Insert? && Step(s, a).bills != s.bills && i < |s.charges|
    ensures var w, o := s.workers[a.worker], s.charges[i].tenant;
      && (Claims(w, i) ==> w.tenant == o)
      && (OnBill(Step(s, a), o, c, i) <==> OnBill(s, o, c, i) || (Claims(w, i) && c == w.cycle))
      && !OnBill(s, w.tenant, w.cycle, i)
  {
    var w, t := s.workers[a.worker], Step(s, a);
    var key := (w.tenant, w.cycle);
    assert key !in s.bills && t.bills == s.bills[key := w.phase.bill];
  }

  lemma OnceWon(s: Sys, a: Action, i: nat)
    requires ChargeInv(s, i) && a.Insert? && Step(s, a).bills != s.bills
    ensures Once(Step(s, a), i)
  {
    var w, t := a.worker, Step(s, a);
    if i < |s.charges| {
      var o, worker := s.charges[i].tenant, s.workers[w];
      assert worker.phase.Priced? && t.charges == s.charges;
      assert t.workers == s.workers[w := worker.(phase := Inserted(worker.phase.bill.charges))];
      forall c
        ensures OnBill(t, o, c, i) <==> OnBill(s, o, c, i) || (Claims(worker, i) && c == worker.cycle)
        ensures Claims(worker, i) ==> worker.tenant == o && !OnBill(s, o, worker.cycle, i) {
        NewBill(s, a, i, c);
      }
      if Claims(worker, i) { assert IsMarking(t.workers[w], o, worker.cycle, i); }
      forall v | 0 <= v < |s.workers| && v != w && Claims(s.workers[v], i) && Claims(worker, i)
        ensures s.workers[v].cycle == worker.cycle {
        assert Live(s.workers[v]) && Live(worker) && i in s.workers[v].phase.bill.charges;
      }
      hide Step, Known, OneCycle, OnBill;
      forall c | Marking(s, o, c, i) ensures Marking(t, o, c, i) { MarkingKept(s, t, w, o, c, i); }
    }
  }

  lemma OnceInsert(s: Sys, a: Action, i: nat)
    requires ChargeInv(s, i) && a.Insert? && Step(s, a) != s
    ensures Once(Step(s, a), i)
  {
    hide Step, Known, OneCycle, Once;
    if Step(s, a).bills == s.bills { OnceLost(s, a, i); } else { OnceWon(s, a, i); }
  }

  lemma OnceMark(s: Sys, a: Action, i: nat)
    requires ChargeInv(s, i) && a.Mark? && Step(s, a) != s
    ensures Once(Step(s, a), i)
  {
    var w, t := a.worker, Step(s, a);
    if i < |s.charges| {
      var o := s.charges[i].tenant;
      assert forall c :: OnBill(t, o, c, i) <==> OnBill(s, o, c, i);
      forall c | OnBill(s, o, c, i) && Marking(s, o, c, i)
        ensures t.charges[i].billed == Some(c) || Marking(t, o, c, i) {
        var v :| 0 <= v < |s.workers| && IsMarking(s.workers[v], o, c, i);
        if v != w { assert IsMarking(t.workers[v], o, c, i); }
      }
    }
  }

  lemma OnceOther(s: Sys, a: Action, i: nat)
    requires ChargeInv(s, i) && Orderly(s, a) && !a.Price? && !a.Insert? && !a.Mark?
    ensures Once(Step(s, a), i)
  {
    var t := Step(s, a);
    if i < |s.charges| {
      var o := s.charges[i].tenant;
      assert forall c :: OnBill(t, o, c, i) <==> OnBill(s, o, c, i);
      forall c | Marking(s, o, c, i)
        ensures Marking(t, o, c, i) {
        var v :| 0 <= v < |s.workers| && IsMarking(s.workers[v], o, c, i);
        assert IsMarking(t.workers[v], o, c, i);
      }
    }
  }

  lemma ChargeInvStep(s: Sys, a: Action, i: nat)
    requires ChargeInv(s, i) && Orderly(s, a)
    ensures ChargeInv(Step(s, a), i)
  {
    KnownStep(s, a);
    OneCycleStep(s, a);
    hide Step, Known, OneCycle, Once, Orderly;
    if Step(s, a) != s {
      if a.Price? { OncePrice(s, a, i); }
      else if a.Insert? { OnceInsert(s, a, i); }
      else if a.Mark? { OnceMark(s, a, i); }
      else { OnceOther(s, a, i); }
    }
  }

  /** Over any orderly run a one-time charge is on at most one bill, and a marked charge is on the bill it names. */
  lemma {:induction false} ChargedAtMostOnce(s: Sys, actions: seq<Action>, i: nat)
    requires Empty(s) && OrderlyRun(s, actions)
    ensures ChargeInv(Run(s, actions), i)
    ensures var t := Run(s, actions);
      i < |t.charges| ==>
        && (forall c, d :: OnBill(t, t.charges[i].tenant, c, i) && OnBill(t, t.charges[i].tenant, d, i) ==> c == d)
        && (t.charges[i].billed.Some? ==> OnBill(t, t.charges[i].tenant, t.charges[i].billed.value, i))
  {
    if actions != [] {
      var n := |actions| - 1;
      ChargedAtMostOnce(s, actions[..n], i);
      ChargeInvStep(Run(s, actions[..n]), actions[n], i);
    }
  }

  /** Once no close is under way, a charge is marked with exactly the cycle whose bill holds it. */
  lemma {:induction false} SettledExactly(s: Sys, actions: seq<Action>, i: nat, c: Cycle)
    requires Empty(s) && OrderlyRun(s, actions)
    requires i < |Run(s, actions).charges|
    requires var t := Run(s, actions); forall w :: 0 <= w < |t.workers| ==> !Live(t.workers[w])
    ensures var t := Run(s, actions);
      OnBill(t, t.charges[i].tenant, c, i) <==> t.charges[i].billed == Some(c)
  {
    ChargedAtMostOnce(s, actions, i);
    hide Run, Known, OneCycle;
  }

  // ------------------------------------------------------- exactly when it fails

  /** The charge is on at most one bill. */
  ghost predicate OneBill(s: Sys, i: nat) {
    i < |s.charges| ==>
      forall c, d :: OnBill(s, s.charges[i].tenant, c, i) && OnBill(s, s.charges[i].tenant, d, i) ==> c == d
  }

  ghost predicate Billed(s: Sys, i: nat)
    requires i < |s.charges|
  {
    exists c :: OnBill(s, s.charges[i].tenant, c, i)
  }

  /** A close inserts a new bill that claims the charge although a bill already holds it. */
  ghost predicate BillsAgain(s: Sys, a: Action, i: nat)
    requires i < |s.charges|
  {
    && a.Insert? && a.worker < |s.workers| && Claims(s.workers[a.worker], i)
    && s.workers[a.worker].tenant == s.charges[i].tenant
    && (s.workers[a.worker].tenant, s.workers[a.worker].cycle) !in s.bills
    && Billed(s, i)
  }

  /** A step of any schedule puts a charge on a second bill if and only if it is such an insert. */
  lemma BilledAgainExactly(s: Sys, a: Action, i: nat)
    requires OneBill(s, i) && i < |s.charges|
    ensures OneBill(Step(s, a), i) <==> !BillsAgain(s, a, i)
  {
    hide BillFor, OpenCharges;
    var t, o := Step(s, a), s.charges[i].tenant;
    assert t.charges[i].tenant == o;
    if a.Insert? && t.bills != s.bills {
      var key := (s.workers[a.worker].tenant, s.workers[a.worker].cycle);
      assert t.bills == s.bills[key := s.workers[a.worker].phase.bill] && key !in s.bills;
      assert forall c :: (o, c) != key ==> (OnBill(t, o, c, i) <==> OnBill(s, o, c, i));
      assert !OnBill(s, o, key.1, i) || key.0 != o;
      if BillsAgain(s, a, i) {
        var c :| OnBill(s, o, c, i);
        assert OnBill(t, o, c, i) && OnBill(t, o, key.1, i) && c != key.1;
      }
    } else {
      assert t.bills == s.bills;
      assert forall c :: OnBill(t, o, c, i) <==> OnBill(s, o, c, i);
    }
  }

  ghost predicate NeverAgain(s: Sys, actions: seq<Action>, i: nat) {
    actions == [] ||
    (var n := |actions| - 1;
     var t := Run(s, actions[..n]);
     NeverAgain(s, actions[..n], i) && (i < |t.charges| ==> !BillsAgain(t, actions[n], i)))
  }

  /** Bills are never removed, and a charge belongs to the tenant it was added for. */
  lemma BillsStay(s: Sys, a: Action, i: nat, c: Cycle)
    requires i < |s.charges| && OnBill(s, s.charges[i].tenant, c, i)
    ensures i < |Step(s, a).charges| && Step(s, a).charges[i].tenant == s.charges[i].tenant
    ensures OnBill(Step(s, a), s.charges[i].tenant, c, i)
  {
    hide BillFor, OpenCharges;
  }

  lemma OneBillStep(s: Sys, a: Action, i: nat)
    requires Known(s)
    ensures OneBill(Step(s, a), i) <==> OneBill(s, i) && (i < |s.charges| ==> !BillsAgain(s, a, i))
  {
    if i >= |s.charges| {
      hide BillFor, OpenCharges;
      if a.AddCharge? && i == |s.charges| { assert forall t, c :: !OnBill(Step(s, a), t, c, i); }
    } else if OneBill(s, i) {
      hide Step, Known, OneBill;
      BilledAgainExactly(s, a, i);
    } else {
      var o := s.charges[i].tenant;
      var c, d :| OnBill(s, o, c, i) && OnBill(s, o, d, i) && c != d;
      hide Step, OnBill;
      BillsStay(s, a, i, c);
      BillsStay(s, a, i, d);
    }
  }

  /** In every run, of whatever schedule, a charge is on at most one bill if and only if no step bills it again. */
  lemma {:induction false} ChargedOnceExactly(s: Sys, actions: seq<Action>, i: nat)
    requires Empty(s)
    ensures Known(Run(s, actions))
    ensures OneBill(Run(s, actions), i) <==> NeverAgain(s, actions, i)
  {
    if actions != [] {
      hide Step, Known, OneBill, BillsAgain;
      var n := |actions| - 1;
      ChargedOnceExactly(s, actions[..n], i);
      KnownStep(Run(s, actions[..n]), actions[n]);
      OneBillStep(Run(s, actions[..n]), actions[n], i);
    }
  }

  /** One undisturbed close of a tenant and cycle, up to its bill. */
  function Opened(s: Sys, tenant: nat, c: Cycle, tariff: Tariff): Sys {
    var w := |s.workers|;
    Step(Step(Step(s, Start(tenant, c)), Price(w, tariff, 0)), Insert(w))
  }

  lemma OpenedAt(s: Sys, tenant: nat, c: Cycle, tariff: Tariff)
    requires C.End(c) <= s.now && (tenant, c) !in s.bills && tariff.tiers != []
    ensures var b := BillFor(s.usage, s.charges, tenant, c, tariff, 0);
      Opened(s, tenant, c, tariff)
      == s.(bills := s.bills[(tenant, c) := b], workers := s.workers + [Worker(tenant, c, Inserted(b.charges))])
  {
    var b, w := BillFor(s.usage, s.charges, tenant, c, tariff, 0), |s.workers|;
    hide BillFor;
    var s1 := Step(s, Start(tenant, c));
    assert s1 == s.(workers := s.workers + [Worker(tenant, c, Started)]);
    var s2 := Step(s1, Price(w, tariff, 0));
    assert s2 == s.(workers := s.workers + [Worker(tenant, c, Priced(b))]);
  }

  /** What the next close puts on its bill: exactly the tenant's unmarked charges. */
  lemma OpenedHolds(s: Sys, c: Cycle, tariff: Tariff, i: nat, d: Cycle)
    requires i < |s.charges| && tariff.tiers != []
    requires C.End(c) <= s.now && (s.charges[i].tenant, c) !in s.bills
    ensures var o := s.charges[i].tenant; var t := Opened(s, o, c, tariff);
      && t.charges == s.charges
      && (OnBill(t, o, d, i) <==> if d == c then s.charges[i].billed.None? else OnBill(s, o, d, i))
  {
    OpenedAt(s, s.charges[i].tenant, c, tariff);
    BillCharges(s, s.charges[i].tenant, c, tariff, 0);
    hide Opened, BillFor, OpenCharges, C.End;
  }

  /**
    Between closes: the next close of the charge's tenant for another ended cycle bills the charge again if
    and only if it is on a bill and yet unmarked.
  */
  lemma NextCloseExactly(s: Sys, c: Cycle, tariff: Tariff, i: nat)
    requires OneBill(s, i) && i < |s.charges| && tariff.tiers != []
    requires C.End(c) <= s.now && (s.charges[i].tenant, c) !in s.bills
    ensures OneBill(Opened(s, s.charges[i].tenant, c, tariff), i) <==> !(Billed(s, i) && s.charges[i].billed.None?)
  {
    var o := s.charges[i].tenant;
    var t := Opened(s, o, c, tariff);
    assert !OnBill(s, o, c, i);
    hide Opened, OnBill, C.End;
    OpenedHolds(s, c, tariff, i, c);
    forall d ensures OnBill(t, o, d, i) <==> if d == c then s.charges[i].billed.None? else OnBill(s, o, d, i) {
      OpenedHolds(s, c, tariff, i, d);
    }
    if Billed(s, i) {
      var d :| OnBill(s, o, d, i);
      assert OnBill(t, o, d, i) && d != c;
    }
  }

  // -------------------------------------------------- why each hypothesis is there

  /** A new tenant with one charge, and two cycles that have ended. */
  ghost predicate Ready(s: Sys, c: Cycle, d: Cycle, tariff: Tariff) {
    Empty(s) && C.End(c) <= s.now && C.End(d) <= s.now && c != d && tariff.tiers != []
  }

  lemma OnlyCharge(charges: seq<Charge>)
    requires charges == [Charge(0, 100, None)]
    ensures OpenCharges(charges, 0) == [0]
  {
    assert charges[..0] == [];
  }

  lemma OpenedRuns(p: Sys, s: Sys, tenant: nat, c: Cycle, tariff: Tariff)
    requires RunsTo(p, s)
    ensures RunsTo(p, Opened(s, tenant, c, tariff))
  {
    hide RunsTo, Step;
    var w := |s.workers|;
    var s1 := Step(s, Start(tenant, c));
    OneMore(p, s, Start(tenant, c), s1);
    OneMore(p, s1, Price(w, tariff, 0), Step(s1, Price(w, tariff, 0)));
    OneMore(p, Step(s1, Price(w, tariff, 0)), Insert(w), Opened(s, tenant, c, tariff));
  }

  /** The run so far: the charge is added and the first cycle's bill inserted, but the charge not yet marked. */
  lemma FirstBill(s: Sys, c: Cycle, tariff: Tariff)
    requires Empty(s) && C.End(c) <= s.now && tariff.tiers != []
    ensures var t := Opened(Step(s, AddCharge(0, 100)), 0, c, tariff);
      && RunsTo(s, t) && t.charges == [Charge(0, 100, None)] && t.now == s.now && t.bills.Keys == {(0, c)}
      && OnBill(t, 0, c, 0) && |t.workers| == 1
  {
    var added := Step(s, AddCharge(0, 100));
    assert RunsTo(s, s) by { assert Run(s, []) == s; }
    OneMore(s, s, AddCharge(0, 100), added);
    OnlyCharge(added.charges);
    OpenedAt(added, 0, c, tariff);
    BillCharges(added, 0, c, tariff, 0);
    OpenedRuns(s, added, 0, c, tariff);
  }

  /** A second bill for another cycle, opened while the charge is unmarked, holds it as well. */
  lemma SecondBill(p: Sys, s: Sys, c: Cycle, d: Cycle, tariff: Tariff)
    requires RunsTo(p, s) && s.charges == [Charge(0, 100, None)] && s.bills.Keys == {(0, c)} && OnBill(s, 0, c, 0)
    requires C.End(d) <= s.now && c != d && tariff.tiers != []
    ensures var t := Opened(s, 0, d, tariff); RunsTo(p, t) && OnBill(t, 0, c, 0) && OnBill(t, 0, d, 0)
  {
    OnlyCharge(s.charges);
    OpenedAt(s, 0, d, tariff);
    BillCharges(s, 0, d, tariff, 0);
    OpenedRuns(p, s, 0, d, tariff);
  }

  /** The same, after a crash of that close before it marks the charge. */
  lemma CrashedBill(s: Sys, c: Cycle, tariff: Tariff)
    requires Empty(s) && C.End(c) <= s.now && tariff.tiers != []
    ensures var t := Step(Opened(Step(s, AddCharge(0, 100)), 0, c, tariff), Crash(0));
      && RunsTo(s, t) && t.charges == [Charge(0, 100, None)] && t.now == s.now && t.bills.Keys == {(0, c)}
      && OnBill(t, 0, c, 0)
  {
    hide Opened, RunsTo, C.End, Empty;
    FirstBill(s, c, tariff);
    var t := Opened(Step(s, AddCharge(0, 100)), 0, c, tariff);
    OneMore(s, t, Crash(0), Step(t, Crash(0)));
  }

  /** A crash between the bill and the marking: a run from empty tables puts the charge on two bills. */
  lemma CrashBillsTwice(s: Sys, c: Cycle, d: Cycle, tariff: Tariff)
    requires Ready(s, c, d, tariff)
    ensures exists t :: RunsTo(s, t) && OnBill(t, 0, c, 0) && OnBill(t, 0, d, 0)
  {
    hide Opened, RunsTo, Step, OnBill, C.End, Empty;
    CrashedBill(s, c, tariff);
    SecondBill(s, Step(Opened(Step(s, AddCharge(0, 100)), 0, c, tariff), Crash(0)), c, d, tariff);
  }

  lemma OverlappingWorkers(s: Sys, c: Cycle, d: Cycle, tariff: Tariff)
    requires Ready(s, c, d, tariff)
    ensures var t := Opened(Opened(Step(s, AddCharge(0, 100)), 0, c, tariff), 0, d, tariff);
      forall w <- t.workers :: w.phase.Inserted?
  {
    hide Opened, C.End, BillFor;
    var added := Step(s, AddCharge(0, 100));
    FirstBill(s, c, tariff);
    OpenedAt(added, 0, c, tariff);
    OpenedAt(Opened(added, 0, c, tariff), 0, d, tariff);
  }

  /** Two overlapping closes of different cycles: the same, with both workers still alive. */
  lemma OverlapBillsTwice(s: Sys, c: Cycle, d: Cycle, tariff: Tariff)
    requires Ready(s, c, d, tariff)
    ensures exists t ::
      RunsTo(s, t) && OnBill(t, 0, c, 0) && OnBill(t, 0, d, 0) && forall w <- t.workers :: w.phase.Inserted?
  {
    hide Opened, RunsTo, Step, OnBill, C.End, Empty;
    FirstBill(s, c, tariff);
    SecondBill(s, Opened(Step(s, AddCharge(0, 100)), 0, c, tariff), c, d, tariff);
    OverlappingWorkers(s, c, d, tariff);
  }
}
