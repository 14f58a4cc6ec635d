/** What approving does to the rows: which customer each invoice bills, its number, and its message. */
module ApprovalEffects {
  import opened Options
  import opened Imports
  import opened BatchApproval
  import D = Decimal

  /** A number is the prefix, a hyphen and the sequence value, of five digits exactly up to 99999. */
  lemma NumberShape(p: string, n: nat)
    ensures var s := NumberText(p, n);
      && |s| >= |p| + 6 && s[..|p|] == p && s[|p|] == '-'
      && D.AllDigits(s[|p| + 1..]) && D.Value(s[|p| + 1..]) == n
      && (|s| == |p| + 6 <==> n <= 99999)
      && (n > 99999 ==> s[|p| + 1] != '0')
  {
    var digits := D.Pad(5, D.Text(n));
    D.ValueOfPad(5, n);
    D.FiveDigits(n);
    assert NumberText(p, n)[|p| + 1..] == digits;
  }

  /** The invoice bills a customer with the row's reference or phone, and is messaged iff that one has a phone. */
  ghost predicate BillsRow(customers: seq<Customer>, v: Invoice, row: Normalized) {
    && v.amount == row.amount
    && v.customer < |customers|
    && ((row.customerRef.Some? && customers[v.customer].ref == row.customerRef)
        || customers[v.customer].phone == Some(row.phone))
    && (v.messaged <==> customers[v.customer].phone.Some?)
  }

  /** More customers do not change whom an invoice bills. */
  lemma BillsRowKept(customers: seq<Customer>, more: seq<Customer>, v: Invoice, row: Normalized)
    requires customers <= more && BillsRow(customers, v, row)
    ensures BillsRow(more, v, row) && v.customer < |customers| && more[v.customer] == customers[v.customer]
  {
  }

  /** A reference on file decides the customer; only without one does the phone. */
  ghost predicate RefFirst(customers: seq<Customer>, billed: Customer, row: Normalized) {
    (exists j :: 0 <= j < |customers| && row.customerRef.Some? && customers[j].ref == row.customerRef) ==>
      billed.ref == row.customerRef
  }

  lemma OneRow(t: Tenancy, row: Normalized, pick: nat, batch: nat)
    ensures var d := ApproveRow(t, row, pick, batch); var n := |t.invoices|;
      && |d.invoices| == n + 1 && d.invoices[..n] == t.invoices && t.customers <= d.customers
      && d.prefix == t.prefix && d.next == t.next + 1
      && d.invoices[n].seqNo == t.next && d.invoices[n].number == NumberText(t.prefix, t.next)
      && d.invoices[n].batch == Some(batch)
      && BillsRow(d.customers, d.invoices[n], row)
      && RefFirst(t.customers, d.customers[d.invoices[n].customer], row)
  {
  }

  /**
    Approving rows appends one invoice for each, in order: with the next number under the tenant's prefix, for
    the row's amount, billed to the customer with its reference or else its phone, and messaged exactly if that
    customer has a phone.
  */
  lemma {:induction false} RowInvoiced(t: Tenancy, rows: seq<Normalized>, picks: seq<nat>, batch: nat, k: nat)
    requires |picks| == |rows| && k < |rows|
    ensures Appends(t, ApproveRows(t, rows, picks, batch), |rows|)
    ensures var d := ApproveRows(t, rows, picks, batch); var v := d.invoices[|t.invoices| + k];
      && v.seqNo == t.next + k && v.number == NumberText(t.prefix, t.next + k) && v.batch == Some(batch)
      && BillsRow(d.customers, v, rows[k])
      && RefFirst(t.customers, d.customers[v.customer], rows[k])
  {
    hide ApproveRow, RefFirst, BillsRow, NumberText;
    var n := |rows| - 1;
    var before, d := ApproveRows(t, rows[..n], picks[..n], batch), ApproveRows(t, rows, picks, batch);
    RowsAppend(t, rows[..n], picks[..n], batch);
    OneRow(before, rows[n], picks[n], batch);
    if k < n {
      RowInvoiced(t, rows[..n], picks[..n], batch, k);
      var v := before.invoices[|t.invoices| + k];
      assert d.invoices[|t.invoices| + k] == v;
      BillsRowKept(before.customers, d.customers, v, rows[k]);
    } else {
      MoreKnown(t.customers, before.customers, d.customers[d.invoices[|t.invoices| + n].customer], rows[n]);
    }
  }

  lemma MoreKnown(customers: seq<Customer>, more: seq<Customer>, billed: Customer, row: Normalized)
    requires customers <= more && RefFirst(more, billed, row)
    ensures RefFirst(customers, billed, row)
  {
    if j :| 0 <= j < |customers| && row.customerRef.Some? && customers[j].ref == row.customerRef {
      assert more[j].ref == row.customerRef;
    }
  }

  ghost predicate Appends(t: Tenancy, d: Tenancy, count: nat) {
    && |d.invoices| == |t.invoices| + count && d.invoices[..|t.invoices|] == t.invoices
    && t.customers <= d.customers
    && d.prefix == t.prefix && d.next == t.next + count
  }

  lemma {:induction false} RowsAppend(t: Tenancy, rows: seq<Normalized>, picks: seq<nat>, batch: nat)
    requires |picks| == |rows|
    ensures Appends(t, ApproveRows(t, rows, picks, batch), |rows|)
  {
    hide ApproveRow;
    if rows != [] {
      var n := |rows| - 1;
      RowsAppend(t, rows[..n], picks[..n], batch);
      OneRow(ApproveRows(t, rows[..n], picks[..n], batch), rows[n], picks[n], batch);
    }
  }

  // ------------------------------------------------------------------ over runs

  /** The invoices of a batch, in order. */
  ghost function BatchInvoices(invoices: seq<Invoice>, b: nat): seq<Invoice> {
    if invoices == [] then []
    else
      var n := |invoices| - 1;
      BatchInvoices(invoices[..n], b) + if invoices[n].batch == Some(b) then [invoices[n]] else []
  }

  lemma {:induction false} BatchAppend(a: seq<Invoice>, c: seq<Invoice>, of: Option<nat>, b: nat)
    requires forall v <- c :: v.batch == of
    ensures BatchInvoices(a + c, b) == BatchInvoices(a, b) + if of == Some(b) then c else []
  {
    if c == [] {
      assert a + c == a;
    } else {
      var n := |c| - 1;
      assert (a + c)[..|a| + n] == a + c[..n];
      BatchAppend(a, c[..n], of, b);
      assert c == c[..n] + [c[n]] && c[n] in c;
    }
  }

  /** Each invoice of the batch bills the customer of its row, and there is one for each row created so far. */
  ghost predicate Billed(s: Sys, b: nat) {
    var vs := BatchInvoices(s.tenancy.invoices, b);
    if b < |s.batches| then
      && |vs| == s.batches[b].created <= |s.batches[b].rows|
      && forall k :: 0 <= k < |vs| ==> BillsRow(s.tenancy.customers, vs[k], s.batches[b].rows[k])
    else vs == []
  }

  lemma BilledCreate(t: Tenancy, customer: nat, amount: int, messaged: bool, b: nat)
    ensures var d := CreateRow(t, customer, amount, None, messaged);
      d.customers == t.customers && BatchInvoices(d.invoices, b) == BatchInvoices(t.invoices, b)
  {
    BatchAppend(t.invoices, [Invoice(NumberText(t.prefix, t.next), t.next, customer, amount, None, messaged)], None, b);
  }

  lemma AllInvoiced(t: Tenancy, rows: seq<Normalized>, picks: seq<nat>, batch: nat)
    requires |picks| == |rows|
    ensures var d := ApproveRows(t, rows, picks, batch);
      && Appends(t, d, |rows|)
      && (forall v <- d.invoices[|t.invoices|..] :: v.batch == Some(batch))
      && forall k :: 0 <= k < |rows| ==> BillsRow(d.customers, d.invoices[|t.invoices|..][k], rows[k])
  {
    hide ApproveRows, BillsRow, RefFirst;
    var d, n := ApproveRows(t, rows, picks, batch), |t.invoices|;
    RowsAppend(t, rows, picks, batch);
    forall k: nat | k < |rows|
      ensures d.invoices[n..][k].batch == Some(batch) && BillsRow(d.customers, d.invoices[n..][k], rows[k]) {
      RowInvoiced(t, rows, picks, batch, k);
    }
  }

  /** The rows of one chunk: the batch's own invoices grow by one per row, any other batch's not at all. */
  lemma BilledRows(t: Tenancy, rows: seq<Normalized>, picks: seq<nat>, batch: nat, b: nat)
    requires |picks| == |rows|
    ensures var d := ApproveRows(t, rows, picks, batch); var vs := BatchInvoices(t.invoices, b);
      && t.customers <= d.customers
      && (batch != b ==> BatchInvoices(d.invoices, b) == vs)
      && (batch == b ==>
            var more := BatchInvoices(d.invoices, b);
            && |more| == |vs| + |rows| && more[..|vs|] == vs
            && forall k :: 0 <= k < |rows| ==> BillsRow(d.customers, more[|vs| + k], rows[k]))
  {
    hide ApproveRows, BillsRow, RefFirst;
    var d, n := ApproveRows(t, rows, picks, batch), |t.invoices|;
    AllInvoiced(t, rows, picks, batch);
    BatchAppend(t.invoices, d.invoices[n..], Some(batch), b);
    assert d.invoices == t.invoices + d.invoices[n..];
  }

  lemma BilledChunk(s: Sys, c: nat, picks: seq<nat>, b: nat)
    requires Claimed(s) && Billed(s, b)
    ensures Billed(Step(s, Chunk(c, picks)), b)
  {
    hide ApproveRows, BatchInvoices, BillsRow;
    if c < |s.callers| && s.callers[c].phase.Working? {
      var i, at := s.callers[c].batch, s.callers[c].phase.at;
      var rows := s.batches[i].rows;
      var to := ChunkEnd(at, |rows|);
      if at < |rows| && |picks| == to - at {
        var d := ApproveRows(s.tenancy, rows[at..to], picks, i);
        BilledRows(s.tenancy, rows[at..to], picks, i, b);
        if b < |s.batches| {
          var vs, more := BatchInvoices(s.tenancy.invoices, b), BatchInvoices(d.invoices, b);
          forall k | 0 <= k < |vs| ensures BillsRow(d.customers, vs[k], s.batches[b].rows[k]) {
            BillsRowKept(s.tenancy.customers, d.customers, vs[k], s.batches[b].rows[k]);
          }
          if i == b {
            assert forall k :: 0 <= k < |vs| ==> more[k] == more[..|vs|][k];
            forall k | |vs| <= k < |more| ensures BillsRow(d.customers, more[k], rows[k]) {
              assert rows[k] == rows[at..to][k - |vs|] && more[k] == more[|vs| + (k - |vs|)];
            }
          }
        }
      }
    }
  }

  lemma BilledStep(s: Sys, a: Action, b: nat)
    requires Claimed(s) && Billed(s, b) && !a.SetCustomers?
    ensures Billed(Step(s, a), b)
  {
    hide ApproveRows, CreateRow, BatchInvoices, BillsRow, Claimed;
    match a {
      case CreateOne(customer, amount, messaged) => BilledCreate(s.tenancy, customer, amount, messaged, b);
      case Chunk(c, picks) => BilledChunk(s, c, picks, b);
      case _ =>
    }
  }

  /**
    Over any run in which nobody else changes the customers, the k-th invoice of a batch is the one of its k-th
    row: for that row's amount and customer, and messaged exactly if the customer has a phone.
  */
  lemma {:induction false} RowsBilled(s: Sys, actions: seq<Action>, b: nat)
    requires Fresh(s) && forall i :: 0 <= i < |actions| ==> !actions[i].SetCustomers?
    ensures Billed(Run(s, actions), b)
  {
    if actions != [] {
      hide Step, Claimed, Billed, Conserved, Numbered;
      var n := |actions| - 1;
      RowsBilled(s, actions[..n], b);
      Kept(s, actions[..n], b);
      BilledStep(Run(s, actions[..n]), actions[n], b);
    }
  }
}
