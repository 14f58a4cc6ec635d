/** The loop of the month close over the active tenants: one bill each, then one invoice per bill. */
module MonthCloser {
  import opened Options
  import opened BillingLines
  import opened MonthClose
  import C = Calendar

  /** An active tenant: whether it has a contact phone, its tariff, and its terminals seen in the window. */
  datatype Tenant = Tenant(id: nat, phone: bool, tariff: Tariff, terminals: nat)

  /** An invoice the billing tenant sent for a bill. */
  datatype Invoice = Invoice(tenant: nat, cycle: Cycle, amount: int)

  /** `linked` holds the bills that carry an invoice id. */
  datatype Store = Store(usage: seq<Usage>, charges: seq<Charge>, bills: map<(nat, Cycle), Bill>,
                         invoices: seq<Invoice>, linked: set<(nat, Cycle)>)

  ghost predicate Sane(tenants: seq<Tenant>) {
    && (forall i :: 0 <= i < |tenants| ==> tenants[i].tariff.tiers != [])
    && (forall i, j :: 0 <= i < j < |tenants| ==> tenants[i].id != tenants[j].id)
  }

  function BillOne(s: Store, t: Tenant, cycle: Cycle): Store
    requires t.tariff.tiers != []
  {
    if (t.id, cycle) in s.bills then s
    else
      var bill := BillFor(s.usage, s.charges, t.id, cycle, t.tariff, t.terminals);
      s.(bills := s.bills[(t.id, cycle) := bill], charges := MarkAll(s.charges, bill.charges, cycle))
  }

  predicate Invoiceable(s: Store, t: Tenant, cycle: Cycle) {
    && (t.id, cycle) in s.bills && s.bills[(t.id, cycle)].total > 0
    && (t.id, cycle) !in s.linked && t.phone
  }

  function InvoiceOne(s: Store, t: Tenant, cycle: Cycle): Store {
    if Invoiceable(s, t, cycle) then
      s.(invoices := s.invoices + [Invoice(t.id, cycle, s.bills[(t.id, cycle)].total)],
         linked := s.linked + {(t.id, cycle)})
    else s
  }

  function CloseOne(s: Store, t: Tenant, cycle: Cycle, biller: bool): Store
    requires t.tariff.tiers != []
  {
    var billed := BillOne(s, t, cycle);
    if biller then InvoiceOne(billed, t, cycle) else billed
  }

  function CloseAll(s: Store, tenants: seq<Tenant>, cycle: Cycle, biller: bool): Store
    requires forall i :: 0 <= i < |tenants| ==> tenants[i].tariff.tiers != []
  {
    if tenants == [] then s
    else
      var n := |tenants| - 1;
      CloseOne(CloseAll(s, tenants[..n], cycle, biller), tenants[n], cycle, biller)
  }

  /** The active tenants a close goes through: all of them, or all but the billing tenant where one is configured. */
  function Payers(tenants: seq<Tenant>, biller: Option<nat>): (payers: seq<Tenant>)
    ensures forall i :: 0 <= i < |payers| ==> payers[i] in tenants && Some(payers[i].id) != biller
  {
    if tenants == [] then []
    else
      var n := |tenants| - 1;
      Payers(tenants[..n], biller) + if Some(tenants[n].id) == biller then [] else [tenants[n]]
  }

  /** A whole close of the active tenants, given the configured billing tenant. */
  function CloseFor(s: Store, tenants: seq<Tenant>, cycle: Cycle, biller: Option<nat>): Store
    requires forall i :: 0 <= i < |tenants| ==> tenants[i].tariff.tiers != []
  {
    CloseAll(s, Payers(tenants, biller), cycle, biller.Some?)
  }

  lemma {:induction false} PayersSane(tenants: seq<Tenant>, biller: Option<nat>)
    requires Sane(tenants)
    ensures Sane(Payers(tenants, biller))
  {
    if tenants != [] {
      PayersSane(tenants[..|tenants| - 1], biller);
    }
  }

  lemma StartedReached(p: Sys, t: Tenant, cycle: Cycle)
    requires C.End(cycle) <= p.now && (t.id, cycle) !in p.bills && p.workers == []
    ensures RunsTo(p, p.(workers := [Worker(t.id, cycle, Started)]))
  {
    assert Run(p, []) == p;
    assert p.workers + [Worker(t.id, cycle, Started)] == [Worker(t.id, cycle, Started)];
    OneMore(p, p, Start(t.id, cycle), p.(workers := [Worker(t.id, cycle, Started)]));
  }

  lemma PricedReached(p: Sys, t: Tenant, cycle: Cycle)
    requires t.tariff.tiers != [] && C.End(cycle) <= p.now && (t.id, cycle) !in p.bills && p.workers == []
    ensures var bill := BillFor(p.usage, p.charges, t.id, cycle, t.tariff, t.terminals);
      RunsTo(p, p.(workers := [Worker(t.id, cycle, Priced(bill))]))
  {
    hide BillFor, C.End, C.Start, RunsTo, Run;
    var bill := BillFor(p.usage, p.charges, t.id, cycle, t.tariff, t.terminals);
    var p1 := p.(workers := [Worker(t.id, cycle, Started)]);
    StartedReached(p, t, cycle);
    OneMore(p, p1, Price(0, t.tariff, t.terminals), p.(workers := [Worker(t.id, cycle, Priced(bill))]));
  }

  /** One tenant's turn is an undisturbed run of the protocol. */
  lemma CloseOneIsRun(s: Store, now: int, t: Tenant, cycle: Cycle)
    requires t.tariff.tiers != [] && C.End(cycle) <= now && (t.id, cycle) !in s.bills
    ensures var billed := BillOne(s, t, cycle);
      RunsTo(Sys(now, s.usage, s.charges, s.bills, []),
             Sys(now, s.usage, billed.charges, billed.bills, [Worker(t.id, cycle, Ended)]))
  {
    hide BillFor, MarkAll, C.End, C.Start, RunsTo, Run;
    var bill := BillFor(s.usage, s.charges, t.id, cycle, t.tariff, t.terminals);
    var p := Sys(now, s.usage, s.charges, s.bills, []);
    var p2 := p.(workers := [Worker(t.id, cycle, Priced(bill))]);
    var p3 := p.(bills := s.bills[(t.id, cycle) := bill], workers := [Worker(t.id, cycle, Inserted(bill.charges))]);
    PricedReached(p, t, cycle);
    OneMore(p, p2, Insert(0), p3);
    OneMore(p, p3, Mark(0), p3.(charges := MarkAll(s.charges, bill.charges, cycle),
                                workers := [Worker(t.id, cycle, Ended)]));
  }

  // -------------------------------------------------- closing twice, and late billers

  /** A tenant's turn is over: it is billed, and invoiced if it can be. */
  ghost predicate Done(s: Store, t: Tenant, cycle: Cycle, biller: bool) {
    (t.id, cycle) in s.bills && (biller ==> !Invoiceable(s, t, cycle))
  }

  lemma DoneAfter(s: Store, t: Tenant, cycle: Cycle, biller: bool)
    requires t.tariff.tiers != []
    ensures Done(CloseOne(s, t, cycle, biller), t, cycle, biller)
  {
    hide BillFor, MarkAll;
  }

  lemma DoneStays(s: Store, t: Tenant, u: Tenant, cycle: Cycle, biller: bool)
    requires Done(s, t, cycle, biller) && u.tariff.tiers != []
    ensures Done(CloseOne(s, u, cycle, biller), t, cycle, biller)
  {
    hide BillFor, MarkAll;
  }

  lemma {:induction false} AllDone(s: Store, tenants: seq<Tenant>, cycle: Cycle, biller: bool, i: nat)
    requires i < |tenants| && Sane(tenants)
    ensures Done(CloseAll(s, tenants, cycle, biller), tenants[i], cycle, biller)
  {
    hide BillFor, MarkAll, CloseOne, Done;
    var n := |tenants| - 1;
    var before := CloseAll(s, tenants[..n], cycle, biller);
    if i < n {
      AllDone(s, tenants[..n], cycle, biller, i);
      DoneStays(before, tenants[i], tenants[n], cycle, biller);
    } else {
      DoneAfter(before, tenants[n], cycle, biller);
    }
  }

  lemma {:induction false} NothingLeft(s: Store, tenants: seq<Tenant>, cycle: Cycle, biller: bool)
    requires Sane(tenants) && forall i :: 0 <= i < |tenants| ==> Done(s, tenants[i], cycle, biller)
    ensures CloseAll(s, tenants, cycle, biller) == s
  {
    if tenants != [] {
      NothingLeft(s, tenants[..|tenants| - 1], cycle, biller);
    }
  }

  lemma {:induction false} PayersHave(tenants: seq<Tenant>, biller: Option<nat>, t: Tenant)
    ensures t in Payers(tenants, biller) <==> t in tenants && Some(t.id) != biller
  {
    if tenants != [] {
      var n := |tenants| - 1;
      assert tenants == tenants[..n] + [tenants[n]];
      PayersHave(tenants[..n], biller, t);
    }
  }

  /**
    Closing is idempotent: a second close of the cycle, in whatever order it lists the tenants, bills nobody,
    invoices nothing and marks nothing.
  */
  lemma ClosingTwice(s: Store, first: seq<Tenant>, second: seq<Tenant>, cycle: Cycle, biller: Option<nat>)
    requires Sane(first) && Sane(second) && multiset(first) == multiset(second)
    ensures CloseFor(CloseFor(s, first, cycle, biller), second, cycle, biller) == CloseFor(s, first, cycle, biller)
  {
    hide CloseAll, Done, Payers;
    var p, q := Payers(first, biller), Payers(second, biller);
    PayersSane(first, biller);
    PayersSane(second, biller);
    var t := CloseAll(s, p, cycle, biller.Some?);
    forall i | 0 <= i < |q| ensures Done(t, q[i], cycle, biller.Some?) {
      PayersHave(second, biller, q[i]);
      assert q[i] in multiset(first);
      PayersHave(first, biller, q[i]);
      var k :| 0 <= k < |p| && p[k] == q[i];
      AllDone(s, p, cycle, biller.Some?, k);
    }
    NothingLeft(t, q, cycle, biller.Some?);
  }

  function InvoiceAll(s: Store, tenants: seq<Tenant>, cycle: Cycle): Store {
    if tenants == [] then s
    else
      var n := |tenants| - 1;
      InvoiceOne(InvoiceAll(s, tenants[..n], cycle), tenants[n], cycle)
  }

  /** Billing one tenant and invoicing another commute. */
  lemma BillPastInvoice(s: Store, t: Tenant, u: Tenant, cycle: Cycle)
    requires t.id != u.id && u.tariff.tiers != []
    ensures BillOne(InvoiceOne(s, t, cycle), u, cycle) == InvoiceOne(BillOne(s, u, cycle), t, cycle)
  {
    hide BillFor, MarkAll;
  }

  lemma {:induction false} BillPastInvoices(s: Store, tenants: seq<Tenant>, u: Tenant, cycle: Cycle)
    requires u.tariff.tiers != [] && forall i :: 0 <= i < |tenants| ==> tenants[i].id != u.id
    ensures BillOne(InvoiceAll(s, tenants, cycle), u, cycle) == InvoiceAll(BillOne(s, u, cycle), tenants, cycle)
  {
    if tenants != [] {
      var n := |tenants| - 1;
      BillPastInvoices(s, tenants[..n], u, cycle);
      BillPastInvoice(InvoiceAll(s, tenants[..n], cycle), tenants[n], u, cycle);
    }
  }

  lemma LastTurn(s: Store, tenants: seq<Tenant>, cycle: Cycle, biller: bool)
    requires tenants != [] && forall i :: 0 <= i < |tenants| ==> tenants[i].tariff.tiers != []
    ensures var n := |tenants| - 1;
      var billed := BillOne(CloseAll(s, tenants[..n], cycle, biller), tenants[n], cycle);
      CloseAll(s, tenants, cycle, biller) == if biller then InvoiceOne(billed, tenants[n], cycle) else billed
  {
  }

  lemma {:induction false} BillsFirst(s: Store, tenants: seq<Tenant>, cycle: Cycle)
    requires Sane(tenants)
    ensures CloseAll(s, tenants, cycle, true) == InvoiceAll(CloseAll(s, tenants, cycle, false), tenants, cycle)
  {
    if tenants != [] {
      var n := |tenants| - 1;
      LastTurn(s, tenants, cycle, true);
      LastTurn(s, tenants, cycle, false);
      hide BillOne, InvoiceOne, CloseAll;
      BillsFirst(s, tenants[..n], cycle);
      BillPastInvoices(CloseAll(s, tenants[..n], cycle, false), tenants[..n], tenants[n], cycle);
    }
  }

  lemma {:induction false} BilledAlready(s: Store, tenants: seq<Tenant>, cycle: Cycle)
    requires Sane(tenants) && forall i :: 0 <= i < |tenants| ==> (tenants[i].id, cycle) in s.bills
    ensures CloseAll(s, tenants, cycle, false) == s
  {
    if tenants != [] { BilledAlready(s, tenants[..|tenants| - 1], cycle); }
  }

  // ----------------------------------------------------- the order of the tenants

  /** A tenant's open charges do not depend on the marks of other tenants' charges. */
  lemma {:induction false} OpenFrame(charges: seq<Charge>, marked: seq<Charge>, tenant: nat)
    requires |charges| == |marked|
    requires forall i :: 0 <= i < |charges| ==>
      && marked[i].tenant == charges[i].tenant && marked[i].amount == charges[i].amount
      && (charges[i].tenant == tenant ==> marked[i] == charges[i])
    ensures OpenCharges(marked, tenant) == OpenCharges(charges, tenant)
    ensures Amounts(marked, OpenCharges(charges, tenant)) == Amounts(charges, OpenCharges(charges, tenant))
  {
    if charges != [] {
      var n := |charges| - 1;
      OpenFrame(charges[..n], marked[..n], tenant);
    }
  }

  lemma BillFrame(s: Store, t: Tenant, u: Tenant, cycle: Cycle)
    requires t.id != u.id && t.tariff.tiers != [] && u.tariff.tiers != []
    ensures var charges := BillOne(s, t, cycle).charges;
      BillFor(s.usage, charges, u.id, cycle, u.tariff, u.terminals)
      == BillFor(s.usage, s.charges, u.id, cycle, u.tariff, u.terminals)
  {
    hide OpenCharges, Amounts, Compute, CountsOf;
    OpenFrame(s.charges, BillOne(s, t, cycle).charges, u.id);
  }

  lemma MarksCommute(charges: seq<Charge>, a: seq<nat>, b: seq<nat>, cycle: Cycle)
    ensures MarkAll(MarkAll(charges, a, cycle), b, cycle) == MarkAll(MarkAll(charges, b, cycle), a, cycle)
  {
  }

  lemma TwoBills(s: Store, t: Tenant, u: Tenant, cycle: Cycle)
    requires t.id != u.id && t.tariff.tiers != [] && u.tariff.tiers != []
    requires (t.id, cycle) !in s.bills && (u.id, cycle) !in s.bills
    ensures var a := BillFor(s.usage, s.charges, t.id, cycle, t.tariff, t.terminals);
      var b := BillFor(s.usage, s.charges, u.id, cycle, u.tariff, u.terminals);
      BillOne(BillOne(s, t, cycle), u, cycle)
      == s.(bills := s.bills[(t.id, cycle) := a][(u.id, cycle) := b],
            charges := MarkAll(MarkAll(s.charges, a.charges, cycle), b.charges, cycle))
  {
    BillFrame(s, t, u, cycle);
    hide BillFor, MarkAll;
  }

  lemma BillsCommute(s: Store, t: Tenant, u: Tenant, cycle: Cycle)
    requires t.id != u.id && t.tariff.tiers != [] && u.tariff.tiers != []
    ensures BillOne(BillOne(s, t, cycle), u, cycle) == BillOne(BillOne(s, u, cycle), t, cycle)
  {
    hide BillFor, MarkAll;
    if (t.id, cycle) !in s.bills && (u.id, cycle) !in s.bills {
      var a := BillFor(s.usage, s.charges, t.id, cycle, t.tariff, t.terminals);
      var b := BillFor(s.usage, s.charges, u.id, cycle, u.tariff, u.terminals);
      TwoBills(s, t, u, cycle);
      TwoBills(s, u, t, cycle);
      hide BillOne;
      MarksCommute(s.charges, a.charges, b.charges, cycle);
      assert s.bills[(t.id, cycle) := a][(u.id, cycle) := b] == s.bills[(u.id, cycle) := b][(t.id, cycle) := a];
    }
  }

  function Without(tenants: seq<Tenant>, k: nat): seq<Tenant>
    requires k < |tenants|
  {
    tenants[..k] + tenants[k + 1..]
  }

  lemma WithoutLast(tenants: seq<Tenant>, k: nat)
    requires k < |tenants| - 1
    ensures var n := |tenants| - 1; Without(tenants, k) == Without(tenants[..n], k) + [tenants[n]]
  {
  }

  /** Any one tenant may be billed last. */
  lemma {:induction false} BilledLast(s: Store, tenants: seq<Tenant>, cycle: Cycle, k: nat)
    requires Sane(tenants) && k < |tenants|
    ensures Sane(Without(tenants, k))
    ensures CloseAll(s, tenants, cycle, false)
            == BillOne(CloseAll(s, Without(tenants, k), cycle, false), tenants[k], cycle)
  {
    var n := |tenants| - 1;
    hide BillOne;
    if k == n {
      assert Without(tenants, k) == tenants[..n];
    } else {
      var rest := Without(tenants[..n], k);
      WithoutLast(tenants, k);
      BilledLast(s, tenants[..n], cycle, k);
      assert (rest + [tenants[n]])[..|rest|] == rest;
      hide Without;
      BillsCommute(CloseAll(s, rest, cycle, false), tenants[k], tenants[n], cycle);
    }
  }

  lemma SplitAt(tenants: seq<Tenant>, k: nat)
    requires k < |tenants|
    ensures multiset(Without(tenants, k)) == multiset(tenants) - multiset{tenants[k]}
  {
    assert tenants == tenants[..k] + [tenants[k]] + tenants[k + 1..];
  }

  /** The bills and marks of a close do not depend on the order in which the tenants are listed. */
  lemma {:induction false} BillsInAnyOrder(s: Store, first: seq<Tenant>, second: seq<Tenant>, cycle: Cycle)
    requires Sane(first) && Sane(second) && multiset(first) == multiset(second)
    ensures CloseAll(s, first, cycle, false) == CloseAll(s, second, cycle, false)
    decreases |second|
  {
    assert |first| == |multiset(first)| == |second|;
    if second != [] {
      var n := |second| - 1;
      var u := second[n];
      assert u in multiset(first);
      var k :| 0 <= k < |first| && first[k] == u;
      SplitAt(first, k);
      SplitAt(second, n);
      assert Without(second, n) == second[..n];
      hide BillOne, Without;
      BilledLast(s, first, cycle, k);
      BilledLast(s, second, cycle, n);
      hide CloseAll;
      BillsInAnyOrder(s, Without(first, k), Without(second, n), cycle);
    }
  }

  // ------------------------------------------------------------------ late billers

  lemma {:induction false} PayersWithout(tenants: seq<Tenant>, biller: nat, k: nat)
    requires Sane(tenants) && k < |tenants| && tenants[k].id == biller
    ensures Payers(tenants, Some(biller)) == Without(tenants, k)
  {
    var n := |tenants| - 1;
    if k == n {
      PayersAll(tenants[..n], Some(biller));
      assert Without(tenants, k) == tenants[..n];
    } else {
      PayersWithout(tenants[..n], biller, k);
      WithoutLast(tenants, k);
    }
  }

  lemma {:induction false} PayersAll(tenants: seq<Tenant>, biller: Option<nat>)
    requires forall i :: 0 <= i < |tenants| ==> Some(tenants[i].id) != biller
    ensures Payers(tenants, biller) == tenants
  {
    if tenants != [] { PayersAll(tenants[..|tenants| - 1], biller); }
  }

  /** Invoicing the payers later gives what invoicing them at once gives, on top of further bills. */
  lemma InvoicedLater(s: Store, payers: seq<Tenant>, cycle: Cycle)
    requires Sane(payers)
    ensures CloseAll(CloseAll(s, payers, cycle, false), payers, cycle, true) == CloseAll(s, payers, cycle, true)
  {
    var bills := CloseAll(s, payers, cycle, false);
    forall i | 0 <= i < |payers| ensures (payers[i].id, cycle) in bills.bills {
      AllDone(s, payers, cycle, false, i);
    }
    hide CloseAll;
    BilledAlready(bills, payers, cycle);
    BillsFirst(bills, payers, cycle);
    BillsFirst(s, payers, cycle);
  }

  lemma InvoicedBesides(s: Store, payers: seq<Tenant>, b: Tenant, cycle: Cycle)
    requires Sane(payers) && b.tariff.tiers != [] && forall i :: 0 <= i < |payers| ==> payers[i].id != b.id
    ensures CloseAll(BillOne(CloseAll(s, payers, cycle, false), b, cycle), payers, cycle, true)
            == BillOne(CloseAll(s, payers, cycle, true), b, cycle)
  {
    var bills := CloseAll(s, payers, cycle, false);
    var more := BillOne(bills, b, cycle);
    forall i | 0 <= i < |payers| ensures (payers[i].id, cycle) in more.bills {
      AllDone(s, payers, cycle, false, i);
    }
    hide CloseAll, BillOne;
    BilledAlready(more, payers, cycle);
    BillsFirst(more, payers, cycle);
    BillsFirst(s, payers, cycle);
    BillPastInvoices(bills, payers, b, cycle);
  }

  lemma {:induction false} OnlyPayersBilled(s: Store, tenants: seq<Tenant>, cycle: Cycle, biller: bool, id: nat)
    requires Sane(tenants) && forall i :: 0 <= i < |tenants| ==> tenants[i].id != id
    ensures (id, cycle) in CloseAll(s, tenants, cycle, biller).bills <==> (id, cycle) in s.bills
  {
    hide BillFor, MarkAll;
    if tenants != [] { OnlyPayersBilled(s, tenants[..|tenants| - 1], cycle, biller, id); }
  }

  /**
    A biller configured after a first close of the cycle: whatever the order in which the two closes list the
    active tenants, closing again leaves what closing with it at once leaves, and besides that only the
    biller's own bill and marks, if it is active.
  */
  lemma LateBillerAddsItsOwnBill(s: Store, active: seq<Tenant>, later: seq<Tenant>, cycle: Cycle, biller: nat,
                                 b: Tenant)
    requires Sane(active) && Sane(later) && multiset(active) == multiset(later) && b in later && b.id == biller
    ensures CloseFor(CloseFor(s, active, cycle, None), later, cycle, Some(biller))
            == BillOne(CloseFor(s, later, cycle, Some(biller)), b, cycle)
  {
    var k :| 0 <= k < |later| && later[k] == b;
    PayersWithout(later, biller, k);
    PayersAll(active, None);
    PayersSane(later, Some(biller));
    hide CloseAll, BillOne, Without, Payers;
    BillsInAnyOrder(s, active, later, cycle);
    BilledLast(s, later, cycle, k);
    InvoicedBesides(s, Payers(later, Some(biller)), b, cycle);
  }

  lemma LateBillerInactive(s: Store, active: seq<Tenant>, later: seq<Tenant>, cycle: Cycle, biller: nat)
    requires Sane(active) && Sane(later) && multiset(active) == multiset(later)
    requires forall i :: 0 <= i < |later| ==> later[i].id != biller
    ensures CloseFor(CloseFor(s, active, cycle, None), later, cycle, Some(biller))
            == CloseFor(s, later, cycle, Some(biller))
  {
    PayersAll(later, Some(biller));
    PayersAll(active, None);
    hide CloseAll, Payers;
    BillsInAnyOrder(s, active, later, cycle);
    InvoicedLater(s, later, cycle);
  }

  /** So the late close is exactly the close at once, unless the biller is active and had no bill for the cycle yet. */
  lemma LateBillerExactly(s: Store, active: seq<Tenant>, later: seq<Tenant>, cycle: Cycle, biller: nat)
    requires Sane(active) && Sane(later) && multiset(active) == multiset(later)
    ensures CloseFor(CloseFor(s, active, cycle, None), later, cycle, Some(biller))
            == CloseFor(s, later, cycle, Some(biller))
            <==> (biller, cycle) in s.bills || forall t <- later :: t.id != biller
  {
    hide CloseAll, Payers, BillFor, MarkAll;
    PayersSane(later, Some(biller));
    if b :| b in later && b.id == biller {
      LateBillerAddsItsOwnBill(s, active, later, cycle, biller, b);
      OnlyPayersBilled(s, Payers(later, Some(biller)), cycle, true, biller);
    } else {
      LateBillerInactive(s, active, later, cycle, biller);
    }
  }

  // ------------------------------------------------------- the service's own loop

  datatype Outcome = Closed(created: nat, invoiced: nat) | BadKey | NotOver

  class Closer {
    var now: int
    var running: bool
    var rows: Store

    constructor (now: int, rows: Store)
      ensures this.now == now && this.rows == rows && !running
    {
      this.now, this.rows, running := now, rows, false;
    }

    method CloseTenant(t: Tenant, cycle: Cycle, biller: bool) returns (created: bool, invoiced: bool)
      requires t.tariff.tiers != []
      modifies this`rows
      ensures rows == CloseOne(old(rows), t, cycle, biller)
      ensures created <==> (t.id, cycle) !in old(rows).bills
      ensures |rows.invoices| == |old(rows).invoices| + if invoiced then 1 else 0
      ensures |rows.bills| == |old(rows).bills| + if created then 1 else 0
    {
      created, invoiced := false, false;
      if (t.id, cycle) !in rows.bills {
        var bill := BillFor(rows.usage, rows.charges, t.id, cycle, t.tariff, t.terminals);
        rows := rows.(bills := rows.bills[(t.id, cycle) := bill]);
        rows := rows.(charges := MarkAll(rows.charges, bill.charges, cycle));
        created := true;
      }
      var bill := rows.bills[(t.id, cycle)];
      if bill.total > 0 && (t.id, cycle) !in rows.linked && biller && t.phone {
        rows := rows.(invoices := rows.invoices + [Invoice(t.id, cycle, bill.total)]);
        rows := rows.(linked := rows.linked + {(t.id, cycle)});
        invoiced := true;
      }
    }

    /** `closeMonth` without interference: refused for a malformed key or an unfinished window. */
    method CloseMonth(key: string, active: seq<Tenant>, biller: Option<nat>) returns (r: Outcome)
      requires Sane(active)
      modifies this`rows
      ensures r == BadKey <==> !C.Accepted(key)
      ensures r == NotOver <==> C.Accepted(key) && C.End(C.Parse(key).value) > now
      ensures !r.Closed? ==> rows == old(rows)
      ensures r.Closed? ==>
        && rows == CloseFor(old(rows), active, C.Parse(key).value, biller)
        && |rows.bills| == |old(rows).bills| + r.created
        && |rows.invoices| == |old(rows).invoices| + r.invoiced
    {
      hide CloseOne, Payers;
      if !C.Accepted(key) { return BadKey; }
      var cycle := C.Parse(key).value;
      if C.End(cycle) > now { return NotOver; }
      hide C.End, C.Accepted, C.Parse;
      var tenants := Payers(active, biller);
      var created, invoiced := 0, 0;
      for i := 0 to |tenants|
        invariant rows == CloseAll(old(rows), tenants[..i], cycle, biller.Some?)
        invariant |rows.bills| == |old(rows).bills| + created
        invariant |rows.invoices| == |old(rows).invoices| + invoiced
      {
        assert tenants[..i + 1][..i] == tenants[..i];
        var c, v := CloseTenant(tenants[i], cycle, biller.Some?);
        if c { created := created + 1; }
        if v { invoiced := invoiced + 1; }
      }
      assert tenants[..|tenants|] == tenants;
      r := Closed(created, invoiced);
    }

    /** `sweep`: skipped while another one runs; from the year 1000 on it always closes the month before. */
    method Sweep(active: seq<Tenant>, biller: Option<nat>) returns (r: Option<Outcome>)
      requires Sane(active)
      modifies this`rows, this`running
      ensures running == old(running)
      ensures r.None? <==> old(running)
      ensures r.None? || !r.value.Closed? ==> rows == old(rows)
      ensures r.Some? && C.Proper(C.CycleKey(now)) && 1000 <= C.PreviousCycle(now).year <= 9999 ==>
        r.value.Closed? && rows == CloseFor(old(rows), active, C.PreviousCycle(now), biller)
    {
      hide C.CycleKey, C.PreviousCycle, C.Accepted, C.Parse, C.End, C.KeyText, CloseOne, CloseFor;
      if running { return None; }
      running := true;
      var cycle := C.PreviousCycle(now);
      if C.Proper(C.CycleKey(now)) { C.SweepNeverRefused(now); }
      var outcome := CloseMonth(C.KeyText(cycle), active, biller);
      running := false;
      return Some(outcome);
    }
  }
}
