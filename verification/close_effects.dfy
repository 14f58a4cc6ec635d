/** What a month close leaves behind: its bills, its marks and its invoices, each from the tables it started on. */
module CloseEffects {
  import opened Options
  import opened BillingLines
  import opened MonthClose
  import opened MonthCloser
  import C = Calendar

  // -------------------------------------------------------------------- bills

  /** The tenant is listed and has no bill for the cycle yet. */
  ghost predicate ToBill(s: Store, tenants: seq<Tenant>, cycle: Cycle, id: nat) {
    (id, cycle) !in s.bills && exists i :: 0 <= i < |tenants| && tenants[i].id == id
  }

  /** A close marks exactly the unmarked charges of the tenants it bills, and with its own cycle. */
  ghost predicate MarksExactly(s: Store, d: Store, tenants: seq<Tenant>, cycle: Cycle) {
    && |d.charges| == |s.charges|
    && forall i :: 0 <= i < |s.charges| ==>
         d.charges[i] == if s.charges[i].billed.None? && ToBill(s, tenants, cycle, s.charges[i].tenant)
                         then s.charges[i].(billed := Some(cycle)) else s.charges[i]
  }

  lemma TurnMarks(s: Store, t: Tenant, cycle: Cycle, biller: bool)
    requires t.tariff.tiers != []
    ensures MarksExactly(s, CloseOne(s, t, cycle, biller), [t], cycle)
  {
    assert [t][0].id == t.id;
    hide Compute, CountsOf, Amounts;
  }

  lemma TurnBills(s: Store, t: Tenant, cycle: Cycle, biller: bool)
    requires t.tariff.tiers != []
    ensures var d := CloseOne(s, t, cycle, biller);
      && d.usage == s.usage
      && d.bills == if (t.id, cycle) in s.bills then s.bills
                    else s.bills[(t.id, cycle) := BillFor(s.usage, s.charges, t.id, cycle, t.tariff, t.terminals)]
  {
    hide BillFor, MarkAll;
  }

  /** The last tenant is billed in its turn exactly when it had no bill at the start. */
  lemma ToBillLast(s: Store, before: Store, tenants: seq<Tenant>, cycle: Cycle, id: nat)
    requires tenants != [] && forall i :: 0 <= i < |tenants| - 1 ==> tenants[i].id != tenants[|tenants| - 1].id
    requires var last := tenants[|tenants| - 1].id; (last, cycle) in before.bills <==> (last, cycle) in s.bills
    ensures var n := |tenants| - 1;
      ToBill(s, tenants, cycle, id) <==> ToBill(s, tenants[..n], cycle, id) || ToBill(before, [tenants[n]], cycle, id)
  {
    var n := |tenants| - 1;
    assert [tenants[n]][0].id == tenants[n].id;
    if i :| 0 <= i < |tenants| && tenants[i].id == id && i < n { assert tenants[..n][i].id == id; }
  }

  lemma MarksCompose(s: Store, before: Store, d: Store, tenants: seq<Tenant>, cycle: Cycle)
    requires Sane(tenants) && tenants != []
    requires var last := tenants[|tenants| - 1].id; (last, cycle) in before.bills <==> (last, cycle) in s.bills
    requires MarksExactly(s, before, tenants[..|tenants| - 1], cycle)
    requires MarksExactly(before, d, [tenants[|tenants| - 1]], cycle)
    ensures MarksExactly(s, d, tenants, cycle)
  {
    hide ToBill;
    forall i | 0 <= i < |s.charges|
      ensures d.charges[i] == if s.charges[i].billed.None? && ToBill(s, tenants, cycle, s.charges[i].tenant)
                              then s.charges[i].(billed := Some(cycle)) else s.charges[i] {
      ToBillLast(s, before, tenants, cycle, s.charges[i].tenant);
    }
  }

  lemma SaneInit(tenants: seq<Tenant>)
    requires Sane(tenants) && tenants != []
    ensures var n := |tenants| - 1;
      && Sane(tenants[..n]) && tenants[n].tariff.tiers != []
      && (forall i :: 0 <= i < n ==> tenants[..n][i] == tenants[i] && tenants[i].id != tenants[n].id)
  {
  }

  lemma {:induction false} CloseMarks(s: Store, tenants: seq<Tenant>, cycle: Cycle, biller: bool)
    requires Sane(tenants)
    ensures MarksExactly(s, CloseAll(s, tenants, cycle, biller), tenants, cycle)
  {
    hide CloseOne;
    assert tenants == [] ==> MarksExactly(s, s, tenants, cycle);
    hide Sane, MarksExactly, ToBill;
    if tenants != [] {
      var n := |tenants| - 1;
      SaneInit(tenants);
      CloseMarks(s, tenants[..n], cycle, biller);
      TurnMarks(CloseAll(s, tenants[..n], cycle, biller), tenants[n], cycle, biller);
      OnlyPayersBilled(s, tenants[..n], cycle, biller, tenants[n].id);
      MarksCompose(s, CloseAll(s, tenants[..n], cycle, biller), CloseAll(s, tenants, cycle, biller), tenants, cycle);
    }
  }

  /** The marks of other tenants do not change a tenant's bill. */
  lemma SameBill(s: Store, d: Store, tenants: seq<Tenant>, t: Tenant, cycle: Cycle)
    requires t.tariff.tiers != [] && d.usage == s.usage && MarksExactly(s, d, tenants, cycle)
    requires forall i :: 0 <= i < |tenants| ==> tenants[i].id != t.id
    ensures BillFor(d.usage, d.charges, t.id, cycle, t.tariff, t.terminals)
            == BillFor(s.usage, s.charges, t.id, cycle, t.tariff, t.terminals)
  {
    hide OpenCharges, Amounts, Compute, CountsOf;
    OpenFrame(s.charges, d.charges, t.id);
  }

  /**
    Every listed tenant has a bill: the one it had, or else the one its usage and its unmarked charges made at
    the start. No other bill was written.
  */
  ghost predicate BillsExactly(s: Store, d: Store, tenants: seq<Tenant>, cycle: Cycle)
    requires forall i :: 0 <= i < |tenants| ==> tenants[i].tariff.tiers != []
  {
    && d.usage == s.usage
    && (forall k :: k in s.bills ==> k in d.bills && d.bills[k] == s.bills[k])
    && (forall k :: k in d.bills && k !in s.bills ==> k.1 == cycle && ToBill(s, tenants, cycle, k.0))
    && forall i :: 0 <= i < |tenants| ==>
         var t := tenants[i]; var key := (t.id, cycle);
         key in d.bills &&
         (key !in s.bills ==> d.bills[key] == BillFor(s.usage, s.charges, t.id, cycle, t.tariff, t.terminals))
  }

  lemma BillsCompose(s: Store, before: Store, d: Store, tenants: seq<Tenant>, cycle: Cycle)
    requires tenants != [] && forall i :: 0 <= i < |tenants| ==> tenants[i].tariff.tiers != []
    requires BillsExactly(s, before, tenants[..|tenants| - 1], cycle) && d.usage == before.usage
    requires var t := tenants[|tenants| - 1]; var key := (t.id, cycle);
      && (key in before.bills <==> key in s.bills)
      && d.bills == if key in before.bills then before.bills
                    else before.bills[key := BillFor(s.usage, s.charges, t.id, cycle, t.tariff, t.terminals)]
    ensures BillsExactly(s, d, tenants, cycle)
  {
    hide BillFor;
    var n := |tenants| - 1;
    assert forall i :: 0 <= i < n ==> tenants[..n][i] == tenants[i];
    assert ToBill(s, tenants, cycle, tenants[n].id) || (tenants[n].id, cycle) in s.bills;
    forall id: nat | ToBill(s, tenants[..n], cycle, id) ensures ToBill(s, tenants, cycle, id) {
      var i :| 0 <= i < n && tenants[..n][i].id == id;
      assert tenants[i].id == id;
    }
  }

  /** The bills of a close do not depend on who was billed before whom. */
  lemma {:induction false} CloseBills(s: Store, tenants: seq<Tenant>, cycle: Cycle, biller: bool)
    requires Sane(tenants)
    ensures BillsExactly(s, CloseAll(s, tenants, cycle, biller), tenants, cycle)
  {
    hide BillFor, CloseOne, MarksExactly, ToBill;
    if tenants != [] {
      var n := |tenants| - 1;
      var before, t := CloseAll(s, tenants[..n], cycle, biller), tenants[n];
      SaneInit(tenants);
      CloseBills(s, tenants[..n], cycle, biller);
      assert before.usage == s.usage;
      hide BillsExactly;
      CloseMarks(s, tenants[..n], cycle, biller);
      OnlyPayersBilled(s, tenants[..n], cycle, biller, t.id);
      TurnBills(before, t, cycle, biller);
      SameBill(s, before, tenants[..n], t, cycle);
      BillsCompose(s, before, CloseAll(s, tenants, cycle, biller), tenants, cycle);
    }
  }

  // ----------------------------------------------------------------- invoices

  /** The invoice is the one of its tenant's bill, and that bill had none before. */
  ghost predicate ForBill(s: Store, d: Store, v: Invoice, cycle: Cycle) {
    && v.cycle == cycle && (v.tenant, cycle) in d.bills
    && v.amount == d.bills[(v.tenant, cycle)].total && v.amount > 0
    && (v.tenant, cycle) in d.linked && (v.tenant, cycle) !in s.linked
  }

  /** The invoices a close adds: one each for bills that had none, of different tenants. */
  ghost predicate Adds(s: Store, d: Store, cycle: Cycle) {
    && |s.invoices| <= |d.invoices| && d.invoices[..|s.invoices|] == s.invoices
    && (forall k :: |s.invoices| <= k < |d.invoices| ==> ForBill(s, d, d.invoices[k], cycle))
    && (forall j, k :: |s.invoices| <= j < k < |d.invoices| ==> d.invoices[j].tenant != d.invoices[k].tenant)
    && (forall key :: key in s.linked ==> key in d.linked)
    && (forall key :: key in d.linked && key !in s.linked ==>
          key.1 == cycle && exists k :: |s.invoices| <= k < |d.invoices| && d.invoices[k].tenant == key.0)
  }

  lemma TurnInvoices(s: Store, d: Store, t: Tenant, cycle: Cycle, biller: bool)
    requires Adds(s, d, cycle) && t.tariff.tiers != []
    ensures Adds(s, CloseOne(d, t, cycle, biller), cycle)
  {
    hide BillFor, MarkAll;
    var e := CloseOne(d, t, cycle, biller);
    assert forall k :: k in d.bills ==> k in e.bills && e.bills[k] == d.bills[k];
    if Invoiceable(BillOne(d, t, cycle), t, cycle) && biller {
      var v := Invoice(t.id, cycle, e.bills[(t.id, cycle)].total);
      assert e.invoices == d.invoices + [v] && e.linked == d.linked + {(t.id, cycle)};
      assert e.invoices[..|s.invoices|] == d.invoices[..|s.invoices|];
      assert e.invoices[|d.invoices|].tenant == t.id;
      assert forall k :: 0 <= k < |d.invoices| ==> e.invoices[k] == d.invoices[k];
    } else {
      assert e.invoices == d.invoices && e.linked == d.linked;
    }
  }

  lemma {:induction false} CloseAdds(s: Store, tenants: seq<Tenant>, cycle: Cycle, biller: bool)
    requires Sane(tenants)
    ensures Adds(s, CloseAll(s, tenants, cycle, biller), cycle)
  {
    hide CloseOne;
    if tenants != [] {
      var n := |tenants| - 1;
      CloseAdds(s, tenants[..n], cycle, biller);
      TurnInvoices(s, CloseAll(s, tenants[..n], cycle, biller), tenants[n], cycle, biller);
    }
  }

  /** A tenant's turn links its own bill if it invoices it, and no other. */
  lemma TurnLinks(s: Store, t: Tenant, cycle: Cycle, biller: bool)
    requires t.tariff.tiers != []
    ensures var d := CloseOne(s, t, cycle, biller); var key := (t.id, cycle);
      && key in d.bills
      && (key in d.linked <==> key in s.linked || (biller && t.phone && d.bills[key].total > 0))
      && (forall k :: k != key ==> (k in d.linked <==> k in s.linked))
      && (forall k :: k in s.bills ==> k in d.bills && d.bills[k] == s.bills[k])
  {
    hide BillFor, MarkAll;
  }

  lemma {:induction false} CloseLinks(s: Store, tenants: seq<Tenant>, cycle: Cycle, biller: bool)
    requires Sane(tenants)
    ensures var d := CloseAll(s, tenants, cycle, biller);
      && (forall i :: 0 <= i < |tenants| ==>
            var key := (tenants[i].id, cycle);
            && key in d.bills
            && (key in d.linked <==> key in s.linked || (biller && tenants[i].phone && d.bills[key].total > 0)))
      && (forall id: nat :: (forall i :: 0 <= i < |tenants| ==> tenants[i].id != id) ==>
            ((id, cycle) in d.linked <==> (id, cycle) in s.linked))
  {
    hide CloseOne;
    if tenants != [] {
      var n := |tenants| - 1;
      CloseLinks(s, tenants[..n], cycle, biller);
      TurnLinks(CloseAll(s, tenants[..n], cycle, biller), tenants[n], cycle, biller);
      assert forall i :: 0 <= i < n ==> tenants[..n][i] == tenants[i];
    }
  }

  /**
    A whole close adds an invoice for exactly the bills of listed tenants that had none, are above zero and
    whose tenant has a phone, provided a billing tenant is configured; each says its bill's total.
  */
  lemma MonthInvoices(s: Store, active: seq<Tenant>, cycle: Cycle, biller: Option<nat>)
    requires Sane(active)
    ensures var d := CloseFor(s, active, cycle, biller);
      && Adds(s, d, cycle)
      && forall t <- active :: Some(t.id) != biller ==>
           var key := (t.id, cycle);
           && key in d.bills
           && (key in d.linked <==> key in s.linked || (biller.Some? && t.phone && d.bills[key].total > 0))
  {
    hide CloseAll, Payers, Adds;
    var payers := Payers(active, biller);
    PayersSane(active, biller);
    CloseAdds(s, payers, cycle, biller.Some?);
    CloseLinks(s, payers, cycle, biller.Some?);
    forall t <- active | Some(t.id) != biller ensures t in payers { PayersHave(active, biller, t); }
  }
}
