/**
  Approving an import: one caller claims the batch, then turns its rows into invoices in transactions of
  fifty. Approvals, single invoices, prefix and customer changes of a tenant interleave, one transaction at
  a time.
*/
module BatchApproval {
  import opened Options
  import opened Imports
  import opened Sums
  import D = Decimal

  datatype Customer = Customer(ref: Option<string>, phone: Option<string>, name: string)

  /** An invoice row; `seqNo` remembers the sequence value its number was printed from. */
  datatype Invoice = Invoice(number: string, seqNo: nat, customer: nat, amount: int, batch: Option<nat>,
                             messaged: bool)

  datatype Status = Validated | Approved | Dispatched

  /** A batch with its valid rows; `winners` and `created` are histories of the claims and of the rows done. */
  datatype Batch = Batch(rows: seq<Normalized>, status: Status, winners: nat, created: nat)

  datatype Tenancy = Tenancy(prefix: string, next: nat, customers: seq<Customer>, invoices: seq<Invoice>)

  // ------------------------------------------------------------------ numbers

  function NumberText(prefix: string, n: nat): string {
    prefix + "-" + D.Pad(5, D.Text(n))
  }

  lemma NoHyphen(n: nat)
    ensures '-' !in D.Pad(5, D.Text(n))
  {
    D.ValueOfPad(5, n);
  }

  /** The last hyphen of a text followed by digits only. */
  lemma LastHyphen(p: string, s: string, q: string, t: string)
    requires p + "-" + s == q + "-" + t && '-' !in t
    ensures |p| <= |q|
  {
    assert (p + "-" + s)[|p|] == '-';
    assert forall i :: |q| < i < |q + "-" + t| ==> (q + "-" + t)[i] == t[i - |q| - 1] != '-';
  }

  /** Numbers printed from different sequence values differ, for any two prefixes and beyond five digits. */
  lemma NumbersDiffer(p: string, m: nat, q: string, n: nat)
    requires NumberText(p, m) == NumberText(q, n)
    ensures m == n && p == q
  {
    var s, t := D.Pad(5, D.Text(m)), D.Pad(5, D.Text(n));
    NoHyphen(m);
    NoHyphen(n);
    hide D.Pad, D.Text;
    LastHyphen(p, s, q, t);
    LastHyphen(q, t, p, s);
    assert p == NumberText(p, m)[..|p|] && q == NumberText(q, n)[..|q|];
    assert s == NumberText(p, m)[|p| + 1..] && t == NumberText(q, n)[|q| + 1..];
    D.PadInjective(5, m, n);
  }

  /** `createInvoiceRow`: the sequence is incremented and the number printed under the current prefix. */
  function CreateRow(t: Tenancy, customer: nat, amount: int, batch: Option<nat>, messaged: bool): Tenancy {
    t.(next := t.next + 1,
       invoices := t.invoices + [Invoice(NumberText(t.prefix, t.next), t.next, customer, amount, batch, messaged)])
  }

  ghost predicate Printed(v: Invoice) {
    exists prefix :: v.number == NumberText(prefix, v.seqNo)
  }

  ghost predicate Numbered(t: Tenancy) {
    && (forall i :: 0 <= i < |t.invoices| ==> t.invoices[i].seqNo < t.next && Printed(t.invoices[i]))
    && (forall i, j :: 0 <= i < j < |t.invoices| ==> t.invoices[i].seqNo < t.invoices[j].seqNo)
  }

  lemma NumberedCreate(t: Tenancy, customer: nat, amount: int, batch: Option<nat>, messaged: bool)
    requires Numbered(t)
    ensures Numbered(CreateRow(t, customer, amount, batch, messaged))
  {
    var v := Invoice(NumberText(t.prefix, t.next), t.next, customer, amount, batch, messaged);
    assert Printed(v);
  }

  lemma DistinctNumbers(t: Tenancy, i: nat, j: nat)
    requires Numbered(t) && i < j < |t.invoices|
    ensures t.invoices[i].number != t.invoices[j].number
  {
    var v, w := t.invoices[i], t.invoices[j];
    var p :| v.number == NumberText(p, v.seqNo);
    var q :| w.number == NumberText(q, w.seqNo);
    if v.number == w.number { NumbersDiffer(p, v.seqNo, q, w.seqNo); }
  }

  // ---------------------------------------------------------------- customers

  /** The first customer with the reference; the number of customers if there is none. */
  function FindRef(customers: seq<Customer>, ref: string): (i: nat)
    ensures i <= |customers|
    ensures i < |customers| ==> customers[i].ref == Some(ref)
    ensures forall j :: 0 <= j < i ==> customers[j].ref != Some(ref)
  {
    if customers == [] then 0
    else
      var n := |customers| - 1;
      var i := FindRef(customers[..n], ref);
      if i < n || customers[n].ref == Some(ref) then i else n + 1
  }

  function FindPhone(customers: seq<Customer>, phone: string): (i: nat)
    ensures i <= |customers|
    ensures i < |customers| ==> customers[i].phone == Some(phone)
    ensures forall j :: 0 <= j < i ==> customers[j].phone != Some(phone)
  {
    if customers == [] then 0
    else
      var n := |customers| - 1;
      var i := FindPhone(customers[..n], phone);
      if i < n || customers[n].phone == Some(phone) then i else n + 1
  }

  /** The customer with the phone that an unordered look-up happens to return: row `pick`, if it has the phone. */
  function AnyWithPhone(customers: seq<Customer>, phone: string, pick: nat): (i: nat)
    ensures i <= |customers|
    ensures i < |customers| ==> customers[i].phone == Some(phone)
    ensures i == |customers| ==> forall j :: 0 <= j < |customers| ==> customers[j].phone != Some(phone)
    ensures pick < |customers| && customers[pick].phone == Some(phone) ==> i == pick
  {
    if pick < |customers| && customers[pick].phone == Some(phone) then pick else FindPhone(customers, phone)
  }

  /** `upsertForImport`: by reference, then by phone, else a new customer. */
  function UpsertCustomer(customers: seq<Customer>, row: Normalized, pick: nat): (r: (seq<Customer>, nat))
    ensures r.1 < |r.0| && customers <= r.0 && |r.0| <= |customers| + 1
  {
    var byRef := if row.customerRef.Some? then FindRef(customers, row.customerRef.value) else |customers|;
    if byRef < |customers| then (customers, byRef)
    else
      var byPhone := AnyWithPhone(customers, row.phone, pick);
      if byPhone < |customers| then (customers, byPhone)
      else (customers + [Customer(row.customerRef, Some(row.phone), row.name)], |customers|)
  }

  ghost predicate UniqueRefs(customers: seq<Customer>) {
    forall i, j :: 0 <= i < j < |customers| && customers[i].ref.Some? ==> customers[i].ref != customers[j].ref
  }

  predicate HasRef(c: Customer, row: Normalized) {
    row.customerRef.Some? && c.ref == row.customerRef
  }

  predicate HasPhone(c: Customer, row: Normalized) {
    c.phone == Some(row.phone)
  }

  /**
    For whichever matching row the look-up by phone returns: references stay unique; a known reference wins
    over a known phone; the result has the reference or else the phone; a customer with exactly the row's
    values is added if and only if neither is known; and every customer with the phone can be the result.
  */
  lemma UpsertExactly(customers: seq<Customer>, row: Normalized, pick: nat)
    requires UniqueRefs(customers)
    ensures var (after, i) := UpsertCustomer(customers, row, pick);
      var refKnown := exists j :: 0 <= j < |customers| && HasRef(customers[j], row);
      var phoneKnown := exists j :: 0 <= j < |customers| && HasPhone(customers[j], row);
      && UniqueRefs(after)
      && (refKnown ==> after == customers && HasRef(after[i], row))
      && (!refKnown && phoneKnown ==> after == customers && HasPhone(after[i], row))
      && (!refKnown && !phoneKnown ==>
            i == |customers| && after == customers + [Customer(row.customerRef, Some(row.phone), row.name)])
      && (!refKnown && pick < |customers| && HasPhone(customers[pick], row) ==> i == pick)
  {
  }

  // -------------------------------------------------------------- one row, many

  /** One row of an approval: its customer, the invoice, and the message if the customer has a phone. */
  function ApproveRow(t: Tenancy, row: Normalized, pick: nat, batch: nat): Tenancy {
    var (customers, i) := UpsertCustomer(t.customers, row, pick);
    CreateRow(t.(customers := customers), i, row.amount, Some(batch), customers[i].phone.Some?)
  }

  /** The rows one after the other; `picks` are the look-ups' choices. */
  function ApproveRows(t: Tenancy, rows: seq<Normalized>, picks: seq<nat>, batch: nat): Tenancy
    requires |picks| == |rows|
  {
    if rows == [] then t
    else
      var n := |rows| - 1;
      ApproveRow(ApproveRows(t, rows[..n], picks[..n], batch), rows[n], picks[n], batch)
  }

  /** Whole chunks one after the other amount to all of their rows in order. */
  lemma {:induction false} ApproveAppend(t: Tenancy, a: seq<Normalized>, p: seq<nat>, b: seq<Normalized>, q: seq<nat>,
                                         batch: nat)
    requires |p| == |a| && |q| == |b|
    ensures ApproveRows(t, a + b, p + q, batch) == ApproveRows(ApproveRows(t, a, p, batch), b, q, batch)
  {
    hide ApproveRow;
    if b == [] {
      assert a + b == a && p + q == p;
    } else {
      var n := |b| - 1;
      assert (a + b)[..|a| + n] == a + b[..n] && (p + q)[..|a| + n] == p + q[..n];
      ApproveAppend(t, a, p, b[..n], q[..n], batch);
    }
  }

  /** The amounts of the invoices of a batch, in order. */
  ghost function BatchAmounts(invoices: seq<Invoice>, batch: nat): seq<int> {
    if invoices == [] then []
    else
      var n := |invoices| - 1;
      BatchAmounts(invoices[..n], batch) + if invoices[n].batch == Some(batch) then [invoices[n].amount] else []
  }

  /** The messages of a batch, each metered as one EXCEL_SMS unit. */
  ghost function BatchMessages(invoices: seq<Invoice>, batch: nat): nat {
    if invoices == [] then 0
    else
      var n := |invoices| - 1;
      BatchMessages(invoices[..n], batch) + if invoices[n].batch == Some(batch) && invoices[n].messaged then 1 else 0
  }

  ghost function RowAmounts(rows: seq<Normalized>): (amounts: seq<int>)
    ensures |amounts| == |rows|
  {
    seq(|rows|, i requires 0 <= i < |rows| => rows[i].amount)
  }

  lemma {:induction false} MessagesAtMost(invoices: seq<Invoice>, batch: nat)
    ensures BatchMessages(invoices, batch) <= |BatchAmounts(invoices, batch)|
  {
    if invoices != [] { MessagesAtMost(invoices[..|invoices| - 1], batch); }
  }

  lemma CreateAmounts(t: Tenancy, customer: nat, amount: int, batch: Option<nat>, messaged: bool, b: nat)
    ensures BatchAmounts(CreateRow(t, customer, amount, batch, messaged).invoices, b)
            == BatchAmounts(t.invoices, b) + if batch == Some(b) then [amount] else []
  {
    var v := Invoice(NumberText(t.prefix, t.next), t.next, customer, amount, batch, messaged);
    assert (t.invoices + [v])[..|t.invoices|] == t.invoices;
  }

  lemma {:induction false} ApproveAmounts(t: Tenancy, rows: seq<Normalized>, picks: seq<nat>, batch: nat, b: nat)
    requires |picks| == |rows|
    ensures BatchAmounts(ApproveRows(t, rows, picks, batch).invoices, b)
            == BatchAmounts(t.invoices, b) + if batch == b then RowAmounts(rows) else []
  {
    hide BatchAmounts, UpsertCustomer, CreateRow;
    if rows != [] {
      var n := |rows| - 1;
      var before := ApproveRows(t, rows[..n], picks[..n], batch);
      var (customers, i) := UpsertCustomer(before.customers, rows[n], picks[n]);
      ApproveAmounts(t, rows[..n], picks[..n], batch, b);
      CreateAmounts(before.(customers := customers), i, rows[n].amount, Some(batch), customers[i].phone.Some?, b);
      assert RowAmounts(rows) == RowAmounts(rows[..n]) + [rows[n].amount];
    }
  }

  lemma {:induction false} ApproveNumbered(t: Tenancy, rows: seq<Normalized>, picks: seq<nat>, batch: nat)
    requires Numbered(t) && |picks| == |rows|
    ensures Numbered(ApproveRows(t, rows, picks, batch))
  {
    hide Numbered, UpsertCustomer, CreateRow;
    if rows != [] {
      var n := |rows| - 1;
      var before := ApproveRows(t, rows[..n], picks[..n], batch);
      var (customers, i) := UpsertCustomer(before.customers, rows[n], picks[n]);
      ApproveNumbered(t, rows[..n], picks[..n], batch);
      assert Numbered(before.(customers := customers)) by { NumberedCustomers(before, customers); }
      NumberedCreate(before.(customers := customers), i, rows[n].amount, Some(batch), customers[i].phone.Some?);
    }
  }

  lemma NumberedCustomers(t: Tenancy, customers: seq<Customer>)
    requires Numbered(t)
    ensures Numbered(t.(customers := customers))
  {
  }

  // ------------------------------------------------------------- the protocol

  datatype Phase = Checked | Working(at: nat) | Stopped

  datatype Caller = Caller(batch: nat, phase: Phase)

  datatype Sys = Sys(tenancy: Tenancy, batches: seq<Batch>, callers: seq<Caller>)

  datatype Action =
    | SetPrefix(prefix: string)
    | SetCustomers(customers: seq<Customer>)
    | CreateOne(customer: nat, amount: int, messaged: bool)
    | Upload(rows: seq<Normalized>)
    | Begin(batch: nat)
    | Claim(caller: nat)
    | Chunk(caller: nat, picks: seq<nat>)
    | Finish(caller: nat)
    | Crash(caller: nat)

  const CHUNK: nat := 50

  function ChunkEnd(at: nat, length: nat): nat {
    if at + CHUNK <= length then at + CHUNK else length
  }

  function Put(s: Sys, c: nat, batch: Batch, phase: Phase): Sys
    requires c < |s.callers| && s.callers[c].batch < |s.batches|
  {
    s.(batches := s.batches[s.callers[c].batch := batch], callers := s.callers[c := s.callers[c].(phase := phase)])
  }

  function Step(s: Sys, a: Action): Sys {
    match a
    case SetPrefix(prefix) => s.(tenancy := s.tenancy.(prefix := prefix))
    case SetCustomers(customers) => s.(tenancy := s.tenancy.(customers := customers))
    case CreateOne(customer, amount, messaged) =>
      s.(tenancy := CreateRow(s.tenancy, customer, amount, None, messaged))
    case Upload(rows) => s.(batches := s.batches + [Batch(rows, Status.Validated, 0, 0)])
    case Begin(b) =>
      if b < |s.batches| && s.batches[b].status == Status.Validated && s.batches[b].rows != [] then
        s.(callers := s.callers + [Caller(b, Checked)])
      else s
    case Claim(c) =>
      if c < |s.callers| && s.callers[c].batch < |s.batches| && s.callers[c].phase.Checked? then
        var batch := s.batches[s.callers[c].batch];
        if batch.status == Status.Validated then
          Put(s, c, batch.(status := Approved, winners := batch.winners + 1), Working(0))
        else Put(s, c, batch, Stopped)
      else s
    case Chunk(c, picks) =>
      if c < |s.callers| && s.callers[c].batch < |s.batches| && s.callers[c].phase.Working? then
        var b, at := s.callers[c].batch, s.callers[c].phase.at;
        var batch := s.batches[b];
        var to := ChunkEnd(at, |batch.rows|);
        if at < |batch.rows| && |picks| == to - at then
          Put(s, c, batch.(created := to), Working(to))
            .(tenancy := ApproveRows(s.tenancy, batch.rows[at..to], picks, b))
        else s
      else s
    case Finish(c) =>
      if c < |s.callers| && s.callers[c].batch < |s.batches| && s.callers[c].phase.Working? then
        var batch := s.batches[s.callers[c].batch];
        if s.callers[c].phase.at >= |batch.rows| then Put(s, c, batch.(status := Dispatched), Stopped) else s
      else s
    case Crash(c) =>
      if c < |s.callers| then s.(callers := s.callers[c := s.callers[c].(phase := Stopped)]) else s
  }

  function Run(s: Sys, actions: seq<Action>): Sys {
    if actions == [] then s else Step(Run(s, actions[..|actions| - 1]), actions[|actions| - 1])
  }

  ghost predicate Fresh(s: Sys) {
    s.tenancy.invoices == [] && s.batches == [] && s.callers == []
  }

  // -------------------------------------------------------------- at most once

  /** A batch is claimed at most once, and created whole chunks of its rows. */
  ghost predicate BatchOk(batch: Batch) {
    && batch.winners == (if batch.status == Status.Validated then 0 else 1)
    && batch.created <= |batch.rows|
    && (batch.created % CHUNK == 0 || batch.created == |batch.rows|)
    && (batch.status == Status.Validated ==> batch.created == 0)
    && (batch.status == Dispatched ==> batch.created == |batch.rows|)
  }

  /** The worker of a batch is alone and stands where its batch does. */
  ghost predicate Claimed(s: Sys) {
    && (forall b :: 0 <= b < |s.batches| ==> BatchOk(s.batches[b]))
    && (forall c :: 0 <= c < |s.callers| ==> s.callers[c].batch < |s.batches|)
    && (forall c :: 0 <= c < |s.callers| && s.callers[c].phase.Working? ==>
          var batch := s.batches[s.callers[c].batch];
          batch.status == Approved && s.callers[c].phase.at == batch.created)
    && (forall c, d :: 0 <= c < d < |s.callers| && s.callers[c].phase.Working? && s.callers[d].phase.Working? ==>
          s.callers[c].batch != s.callers[d].batch)
  }

  lemma ClaimedStep(s: Sys, a: Action)
    requires Claimed(s)
    ensures Claimed(Step(s, a))
  {
    hide ApproveRows, CreateRow;
  }

  /** The invoices of a batch are those of the rows it has created. */
  ghost predicate Conserved(s: Sys, b: nat) {
    if b < |s.batches| then
      && s.batches[b].created <= |s.batches[b].rows|
      && BatchAmounts(s.tenancy.invoices, b) == RowAmounts(s.batches[b].rows)[..s.batches[b].created]
    else BatchAmounts(s.tenancy.invoices, b) == []
  }

  lemma ConservedStep(s: Sys, a: Action, b: nat)
    requires Claimed(s) && Conserved(s, b)
    ensures Conserved(Step(s, a), b)
  {
    hide BatchAmounts, ApproveRows, CreateRow, Numbered;
    match a {
      case CreateOne(customer, amount, messaged) =>
        CreateAmounts(s.tenancy, customer, amount, None, messaged, b);
      case Chunk(c, picks) =>
        if c < |s.callers| && s.callers[c].phase.Working? {
          var i, at := s.callers[c].batch, s.callers[c].phase.at;
          var rows := s.batches[i].rows;
          var to := ChunkEnd(at, |rows|);
          if at < |rows| && |picks| == to - at {
            ApproveAmounts(s.tenancy, rows[at..to], picks, i, b);
            assert RowAmounts(rows)[..to] == RowAmounts(rows)[..at] + RowAmounts(rows[at..to]);
          }
        }
      case _ =>
    }
  }

  lemma NumberedStep(s: Sys, a: Action)
    requires Numbered(s.tenancy)
    ensures Numbered(Step(s, a).tenancy)
  {
    hide ApproveRows, CreateRow;
    match a {
      case CreateOne(customer, amount, messaged) => NumberedCreate(s.tenancy, customer, amount, None, messaged);
      case Chunk(c, picks) =>
        if c < |s.callers| && s.callers[c].batch < |s.batches| && s.callers[c].phase.Working? {
          var b, at := s.callers[c].batch, s.callers[c].phase.at;
          var rows := s.batches[b].rows;
          if at < |rows| && |picks| == ChunkEnd(at, |rows|) - at {
            hide Numbered;
            ApproveNumbered(s.tenancy, rows[at..ChunkEnd(at, |rows|)], picks, b);
          }
        }
      case _ =>
    }
  }

  lemma {:induction false} Kept(s: Sys, actions: seq<Action>, b: nat)
    requires Fresh(s)
    ensures var t := Run(s, actions); Claimed(t) && Conserved(t, b) && Numbered(t.tenancy)
  {
    if actions != [] {
      hide Claimed, Conserved, Numbered, Step;
      var n := |actions| - 1;
      Kept(s, actions[..n], b);
      ClaimedStep(Run(s, actions[..n]), actions[n]);
      ConservedStep(Run(s, actions[..n]), actions[n], b);
      NumberedStep(Run(s, actions[..n]), actions[n]);
    }
  }

  lemma {:induction false} RowTotal(rows: seq<Normalized>)
    ensures Total(RowAmounts(rows)) == TotalAmount(rows)
  {
    if rows != [] {
      var n := |rows| - 1;
      RowTotal(rows[..n]);
      assert RowAmounts(rows)[..n] == RowAmounts(rows[..n]);
    }
  }

  /**
    Over any interleaving a batch is claimed at most once, and its invoices are exactly those of its first
    rows: whole chunks after a crash, and once dispatched every valid row, with the totals the preview
    showed and at most one metered message each.
  */
  lemma {:induction false} ApprovedOnce(s: Sys, actions: seq<Action>, b: nat)
    requires Fresh(s) && b < |Run(s, actions).batches|
    ensures var t := Run(s, actions);
      var batch := t.batches[b];
      var amounts := BatchAmounts(t.tenancy.invoices, b);
      && batch.winners <= 1 && batch.created <= |batch.rows|
      && amounts == RowAmounts(batch.rows)[..batch.created]
      && (batch.created % 50 == 0 || batch.created == |batch.rows|)
      && (batch.status == Dispatched ==> |amounts| == |batch.rows| && Total(amounts) == TotalAmount(batch.rows))
      && BatchMessages(t.tenancy.invoices, b) <= |batch.rows|
  {
    Kept(s, actions, b);
    hide Run, BatchAmounts, BatchMessages, Total, TotalAmount;
    var t := Run(s, actions);
    var rows := t.batches[b].rows;
    MessagesAtMost(t.tenancy.invoices, b);
    RowTotal(rows);
    assert RowAmounts(rows)[..|rows|] == RowAmounts(rows);
  }

  /** In every run no two invoices of the tenant have the same number, whatever created them. */
  lemma {:induction false} NumbersDistinct(s: Sys, actions: seq<Action>, i: nat, j: nat)
    requires Fresh(s) && i < j < |Run(s, actions).tenancy.invoices|
    ensures var invoices := Run(s, actions).tenancy.invoices; invoices[i].number != invoices[j].number
  {
    Kept(s, actions, 0);
    DistinctNumbers(Run(s, actions).tenancy, i, j);
  }

  // ------------------------------------------------------- the service's own loop

  datatype Outcome = Created(count: nat) | ModuleDisabled | NotFound | NotApprovable | NoValidRows

  class TenantRows {
    var tenancy: Tenancy
    var batches: seq<Batch>

    constructor (tenancy: Tenancy, batches: seq<Batch>)
      ensures this.tenancy == tenancy && this.batches == batches
    {
      this.tenancy, this.batches := tenancy, batches;
    }

    /** One row inside a chunk's transaction: customer, invoice row, then the dispatch with its message. */
    method ApproveOne(row: Normalized, pick: nat, batch: nat)
      modifies this`tenancy
      ensures tenancy == ApproveRow(old(tenancy), row, pick, batch)
    {
      var (customers, i) := UpsertCustomer(tenancy.customers, row, pick);
      tenancy := tenancy.(customers := customers);
      var n := tenancy.next;
      tenancy := tenancy.(next := n + 1);
      var invoice := Invoice(NumberText(tenancy.prefix, n), n, i, row.amount, Some(batch), false);
      if customers[i].phone.Some? { invoice := invoice.(messaged := true); }
      tenancy := tenancy.(invoices := tenancy.invoices + [invoice]);
    }

    /**
      `approve` without interference: the chunks of fifty amount to approving all valid rows in order, and
      the batch ends up dispatched; a refused call changes nothing.
    */
    method Approve(b: nat, moduleEnabled: bool, picks: seq<nat>) returns (r: Outcome)
      requires b < |batches| ==> |picks| == |batches[b].rows|
      modifies this
      ensures r == ModuleDisabled <==> !moduleEnabled
      ensures r == NotFound <==> moduleEnabled && b >= |old(batches)|
      ensures r == NotApprovable <==> moduleEnabled && b < |old(batches)| && old(batches)[b].status != Status.Validated
      ensures r == NoValidRows <==> moduleEnabled && b < |old(batches)| && old(batches)[b].status == Status.Validated
                                    && old(batches)[b].rows == []
      ensures !r.Created? ==> tenancy == old(tenancy) && batches == old(batches)
      ensures r.Created? ==>
        && r.count == |old(batches)[b].rows|
        && tenancy == ApproveRows(old(tenancy), old(batches)[b].rows, picks, b)
        && batches == old(batches)[b := old(batches)[b].(status := Dispatched, winners := old(batches)[b].winners + 1,
                                                         created := r.count)]
    {
      hide ApproveRow;
      if !moduleEnabled { return ModuleDisabled; }
      if b >= |batches| { return NotFound; }
      if batches[b].status != Status.Validated { return NotApprovable; }
      if |batches[b].rows| == 0 { return NoValidRows; }
      batches := batches[b := batches[b].(status := Approved, winners := batches[b].winners + 1)];
      var rows := batches[b].rows;
      ghost var claimed := batches;
      var created, i := 0, 0;
      while i < |rows|
        invariant created == if i <= |rows| then i else |rows|
        invariant tenancy == ApproveRows(old(tenancy), rows[..created], picks[..created], b)
        invariant batches == claimed
      {
        var chunk := rows[i..ChunkEnd(i, |rows|)];
        for k := 0 to |chunk|
          invariant created == i + k
          invariant tenancy == ApproveRows(old(tenancy), rows[..created], picks[..created], b)
          invariant batches == claimed
        {
          assert rows[..created + 1][..created] == rows[..created];
          assert picks[..created + 1][..created] == picks[..created];
          ApproveOne(chunk[k], picks[created], b);
          created := created + 1;
        }
        i := i + CHUNK;
      }
      assert rows[..|rows|] == rows && picks[..|rows|] == picks;
      batches := batches[b := batches[b].(status := Dispatched, created := created)];
      r := Created(created);
    }
  }
}
