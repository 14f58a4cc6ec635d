/** Confirming payments: independent of order and repetition, and undone by a refund. */
module Confirmation {
  import opened Options
  import opened Ledger
  import opened LedgerInvariant

  // ------------------------------------------------------ order and repetition

  ghost predicate AllConfirms(reports: seq<Action>) {
    forall a :: a in reports ==> a.Confirm?
  }

  /** Reports for one intent agree; reports for different intents carry different payment keys. */
  ghost predicate Agreeing(db: Db, reports: set<Action>) {
    forall a, b :: a in reports && b in reports && a.Confirm? && b.Confirm? ==>
      && (a.intent == b.intent ==> a == b)
      && (a.intent != b.intent && a.intent < |db.intents| && b.intent < |db.intents| ==>
            KeyOf(db, a.intent, a.payment) != KeyOf(db, b.intent, b.payment))
  }

  ghost function SetOf(reports: seq<Action>): set<Action> {
    set a | a in reports
  }

  /** The transactions a set of reports adds to the ledger of `db`. */
  ghost function Credited(db: Db, reports: set<Action>): set<Tx> {
    set a | a in reports && a.Confirm? && Effective(db, a.intent, a.payment) :: TxFor(db, a.intent, a.payment)
  }

  ghost function InvoiceOf(db: Db, t: Tx): nat {
    if t.intent < |db.intents| then db.intents[t.intent].invoice else 0
  }

  ghost function ReceiptFor(db: Db, t: Tx): Receipt {
    Receipt(t.key, db.receiptModule && InvoiceOf(db, t) < |db.invoices| && db.invoices[InvoiceOf(db, t)].receiptOptIn)
  }

  ghost function ReceiptsFor(db: Db, txs: set<Tx>): set<Receipt> {
    set t | t in txs :: ReceiptFor(db, t)
  }

  ghost function KeysFor(txs: set<Tx>): set<PaymentKey> {
    set t | t in txs :: t.key
  }

  ghost predicate PaidBy(txs: set<Tx>, i: nat) {
    exists t :: t in txs && t.intent == i
  }

  ghost predicate Touched(db: Db, txs: set<Tx>, v: nat) {
    exists t :: t in txs && InvoiceOf(db, t) == v
  }

  /** An invoice row as the ledger alone determines it. */
  ghost function WithTotal(row: Invoice, paidTotal: int): Invoice {
    var balance := Balance(row.amount, paidTotal);
    row.(balance := balance, state := if balance == 0 then Paid else PartiallyPaid)
  }

  /** `db'` is `db` with exactly the transactions `added` credited, in some order. */
  ghost predicate CreditedFrom(db: Db, added: set<Tx>, db': Db) {
    && db' == db.(intents := db'.intents, txs := db'.txs, invoices := db'.invoices, receipts := db'.receipts,
                  usage := db'.usage)
    && multiset(db'.txs) == multiset(db.txs) + multiset(added)
    && multiset(db'.receipts) == multiset(db.receipts) + multiset(ReceiptsFor(db, added))
    && multiset(db'.usage) == multiset(db.usage) + multiset(KeysFor(added))
    && |db'.intents| == |db.intents|
    && (forall i :: 0 <= i < |db.intents| ==>
          db'.intents[i] == if PaidBy(added, i) then db.intents[i].(state := Succeeded) else db.intents[i])
    && |db'.invoices| == |db.invoices|
    && (forall v :: 0 <= v < |db.invoices| ==>
          db'.invoices[v] == if Touched(db, added, v) then WithTotal(db.invoices[v], PaidTotal(db'.intents, db'.txs, v))
                             else db.invoices[v])
  }

  /** Whether a further report is effective is decided by the starting tables and what was added. */
  lemma EffectiveAfter(db: Db, done: set<Action>, db': Db, a: Action)
    requires Inv(db) && a.Confirm? && Agreeing(db, done + {a})
    requires CreditedFrom(db, Credited(db, done), db')
    ensures Effective(db', a.intent, a.payment) <==>
      Effective(db, a.intent, a.payment) && TxFor(db, a.intent, a.payment) !in Credited(db, done)
  {
    var added := Credited(db, done);
    if a.intent < |db.intents| {
      var t := TxFor(db, a.intent, a.payment);
      SameKeys(db.txs, added, db'.txs, t.key);
      if Effective(db, a.intent, a.payment) && t !in added {
        forall b | b in done && b.Confirm? && Effective(db, b.intent, b.payment)
          ensures b.intent != a.intent && TxFor(db, b.intent, b.payment).key != t.key
        {
          assert TxFor(db, b.intent, b.payment) in added;
        }
      }
    }
  }

  lemma SameKeys(txs: seq<Tx>, added: set<Tx>, txs': seq<Tx>, key: PaymentKey)
    requires multiset(txs') == multiset(txs) + multiset(added)
    ensures KeyUsed(txs', key) <==> KeyUsed(txs, key) || exists t :: t in added && t.key == key
  {
    if KeyUsed(txs', key) {
      var k :| 0 <= k < |txs'| && txs'[k].key == key;
      assert txs'[k] in multiset(txs');
      assert txs'[k] in multiset(txs) || txs'[k] in added;
    }
    if KeyUsed(txs, key) {
      var k :| 0 <= k < |txs| && txs[k].key == key;
      assert txs[k] in multiset(txs');
    }
    if t :| t in added && t.key == key {
      assert t in multiset(txs');
    }
  }

  /** One more report: credited exactly when it adds a transaction that was not there. */
  lemma {:induction false} CreditedStep(db: Db, done: set<Action>, db': Db, a: Action)
    requires Inv(db) && Inv(db') && a.Confirm? && Agreeing(db, done + {a})
    requires CreditedFrom(db, Credited(db, done), db')
    ensures CreditedFrom(db, Credited(db, done + {a}), Step(db', a))
  {
    hide Inv, Agreeing, CreditedFrom;
    EffectiveAfter(db, done, db', a);
    var added, added' := Credited(db, done), Credited(db, done + {a});
    if Effective(db', a.intent, a.payment) {
      var t := TxFor(db, a.intent, a.payment);
      assert added' == added + {t};
      AddCredit(db, added, db', a.intent, a.payment);
    } else {
      assert added' == added;
    }
  }

  /** Crediting one transaction more, table by table. */
  lemma {:induction false} AddCredit(db: Db, added: set<Tx>, db': Db, i: nat, p: Payment)
    requires Inv(db) && Inv(db') && CreditedFrom(db, added, db')
    requires Effective(db', i, p) && Effective(db, i, p) && TxFor(db, i, p) !in added
    ensures CreditedFrom(db, added + {TxFor(db, i, p)}, ConfirmStep(db', i, p))
  {
    var d, added' := ConfirmStep(db', i, p), added + {TxFor(db, i, p)};
    assert multiset(d.txs) == multiset(db.txs) + multiset(added')
      && multiset(d.receipts) == multiset(db.receipts) + multiset(ReceiptsFor(db, added'))
      && multiset(d.usage) == multiset(db.usage) + multiset(KeysFor(added')) by {
      AddedRows(db, added, db', i, p);
    }
    AddedIntents(db, added, db', i, p);
    AddedInvoices(db, added, db', i, p);
  }

  lemma {:induction false} AddedRows(db: Db, added: set<Tx>, db': Db, i: nat, p: Payment)
    requires Companions(db') && CreditedFrom(db, added, db')
    requires Effective(db', i, p) && Effective(db, i, p) && TxFor(db, i, p) !in added
    ensures var d := ConfirmStep(db', i, p); var added' := added + {TxFor(db, i, p)};
      && multiset(d.txs) == multiset(db.txs) + multiset(added')
      && multiset(d.receipts) == multiset(db.receipts) + multiset(ReceiptsFor(db, added'))
      && multiset(d.usage) == multiset(db.usage) + multiset(KeysFor(added'))
  {
    var t := TxFor(db, i, p);
    AppendedRows(db, added, db', i, p);
    AddedTables(db, added, db', t);
    assert multiset(added + {t}) == multiset(added) + multiset{t};
    assert multiset(db'.txs + [t]) == multiset(db'.txs) + multiset{t};
    assert multiset(db'.usage + [t.key]) == multiset(db'.usage) + multiset{t.key};
    assert multiset(db'.receipts + [ReceiptFor(db, t)]) == multiset(db'.receipts) + multiset{ReceiptFor(db, t)};
  }

  lemma AppendedRows(db: Db, added: set<Tx>, db': Db, i: nat, p: Payment)
    requires CreditedFrom(db, added, db') && Effective(db', i, p) && Effective(db, i, p)
    ensures var t, d := TxFor(db, i, p), ConfirmStep(db', i, p);
      && d.txs == db'.txs + [t] && d.usage == db'.usage + [t.key]
      && d.receipts == db'.receipts + [ReceiptFor(db, t)]
  {
  }

  lemma AddedIntents(db: Db, added: set<Tx>, db': Db, i: nat, p: Payment)
    requires CreditedFrom(db, added, db')
    requires Effective(db', i, p) && Effective(db, i, p)
    ensures var intents := ConfirmStep(db', i, p).intents; var added' := added + {TxFor(db, i, p)};
      && |intents| == |db.intents|
      && (forall j :: 0 <= j < |db.intents| ==>
            intents[j] == if PaidBy(added', j) then db.intents[j].(state := Succeeded) else db.intents[j])
  {
    var added' := added + {TxFor(db, i, p)};
    assert TxFor(db, i, p) in added';
    assert forall j :: PaidBy(added', j) <==> PaidBy(added, j) || j == i;
  }

  lemma AddedInvoices(db: Db, added: set<Tx>, db': Db, i: nat, p: Payment)
    requires Inv(db') && CreditedFrom(db, added, db')
    requires Effective(db', i, p) && Effective(db, i, p)
    ensures var d := ConfirmStep(db', i, p); var added' := added + {TxFor(db, i, p)};
      && |d.invoices| == |db.invoices|
      && (forall u :: 0 <= u < |db.invoices| ==>
            d.invoices[u] == if Touched(db, added', u) then WithTotal(db.invoices[u], PaidTotal(d.intents, d.txs, u))
                             else db.invoices[u])
  {
    var t, d, v := TxFor(db, i, p), ConfirmStep(db', i, p), db.intents[i].invoice;
    var added' := added + {t};
    assert t == TxFor(db', i, p) && db'.intents[i].invoice == v;
    assert t in added' && InvoiceOf(db, t) == v;
    assert forall u :: Touched(db, added', u) <==> Touched(db, added, u) || u == v;
    forall u | 0 <= u < |db.invoices| && u != v
      ensures PaidTotal(d.intents, d.txs, u) == PaidTotal(db'.intents, db'.txs, u)
    {
      PaidTotalAppend(d.intents, db'.txs, t, u);
      PaidTotalFrame(db'.intents, d.intents, db'.txs, u);
    }
  }

  lemma AddedTables(db: Db, added: set<Tx>, db': Db, t: Tx)
    requires CreditedFrom(db, added, db') && Companions(db')
    requires t !in added && !KeyUsed(db'.txs, t.key)
    ensures multiset(ReceiptsFor(db, added + {t})) == multiset(ReceiptsFor(db, added)) + multiset{ReceiptFor(db, t)}
    ensures multiset(KeysFor(added + {t})) == multiset(KeysFor(added)) + multiset{t.key}
  {
    SameKeys(db.txs, added, db'.txs, t.key);
    assert ReceiptsFor(db, added + {t}) == ReceiptsFor(db, added) + {ReceiptFor(db, t)};
    assert KeysFor(added + {t}) == KeysFor(added) + {t.key};
    assert t.key !in KeysFor(added);
    assert ReceiptFor(db, t) !in ReceiptsFor(db, added);
  }

  lemma {:induction false} CreditedRun(db: Db, reports: seq<Action>)
    requires Inv(db) && AllConfirms(reports) && Agreeing(db, SetOf(reports))
    ensures CreditedFrom(db, Credited(db, SetOf(reports)), Run(db, reports))
  {
    if reports == [] {
      assert Credited(db, SetOf(reports)) == {};
      assert ReceiptsFor(db, {}) == {} && KeysFor({}) == {};
    } else {
      var n := |reports| - 1;
      assert SetOf(reports) == SetOf(reports[..n]) + {reports[n]};
      CreditedRun(db, reports[..n]);
      RunKeeps(db, reports[..n]);
      CreditedStep(db, SetOf(reports[..n]), Run(db, reports[..n]), reports[n]);
    }
  }

  /** The ledger sum does not depend on the order of the rows. */
  lemma {:induction false} PaidTotalPermutation(intents: seq<Intent>, txs: seq<Tx>, txs': seq<Tx>, v: nat)
    requires multiset(txs) == multiset(txs')
    ensures PaidTotal(intents, txs, v) == PaidTotal(intents, txs', v)
    decreases |txs|
  {
    assert |txs| == |multiset(txs)| == |multiset(txs')| == |txs'|;
    if txs != [] {
      var t := txs[|txs| - 1];
      assert t in multiset(txs');
      var k :| 0 <= k < |txs'| && txs'[k] == t;
      assert txs == txs[..|txs| - 1] + [t];
      assert txs' == txs'[..k] + ([t] + txs'[k + 1..]);
      assert multiset(txs') == multiset(txs'[..k]) + multiset{t} + multiset(txs'[k + 1..]);
      assert multiset(txs'[..k] + txs'[k + 1..]) == multiset(txs') - multiset{t};
      PaidTotalPermutation(intents, txs[..|txs| - 1], txs'[..k] + txs'[k + 1..], v);
      PaidTotalRemove(intents, txs', k, v);
    }
  }

  lemma {:induction false} PaidTotalRemove(intents: seq<Intent>, txs: seq<Tx>, k: nat, v: nat)
    requires k < |txs|
    ensures PaidTotal(intents, txs, v) == PaidTotal(intents, txs[..k] + txs[k + 1..], v) + Credit(intents, txs[k], v)
  {
    var n := |txs| - 1;
    var rest := txs[..k] + txs[k + 1..];
    if k == n {
      assert rest == txs[..n];
    } else {
      PaidTotalRemove(intents, txs[..n], k, v);
      assert rest[..n - 1] == txs[..n][..k] + txs[..n][k + 1..];
    }
  }

  /** The same rows, with the append-only tables compared without their order. */
  ghost predicate SameUpToOrder(db: Db, db': Db) {
    && multiset(db.txs) == multiset(db'.txs)
    && multiset(db.receipts) == multiset(db'.receipts)
    && multiset(db.usage) == multiset(db'.usage)
    && db.invoices == db'.invoices
    && db.intents == db'.intents
    && db.links == db'.links
    && db.requests == db'.requests
  }

  /**
    Confirmation is independent of order and repetition: two sequences made of the same agreeing reports,
    in any order and with any duplicates, leave the same transactions, receipts, usage, balances and states.
  */
  lemma {:induction false} OrderIndependence(db: Db, reports: seq<Action>, reports': seq<Action>)
    requires Inv(db) && AllConfirms(reports) && AllConfirms(reports')
    requires SetOf(reports) == SetOf(reports') && Agreeing(db, SetOf(reports))
    ensures SameUpToOrder(Run(db, reports), Run(db, reports'))
  {
    hide Inv, Effective, TxFor, Credited;
    CreditedRun(db, reports);
    CreditedRun(db, reports');
    var d, d' := Run(db, reports), Run(db, reports');
    assert d.intents == d'.intents;
    forall v | 0 <= v < |db.invoices|
      ensures PaidTotal(d.intents, d.txs, v) == PaidTotal(d'.intents, d'.txs, v)
    {
      PaidTotalPermutation(d.intents, d.txs, d'.txs, v);
    }
    assert d.invoices == d'.invoices;
  }

  /** A replayed report changes nothing: the ledger absorbs it whether or not the first one was credited. */
  lemma ReplayAbsorbed(db: Db, i: nat, p: Payment)
    requires Inv(db)
    ensures ConfirmStep(ConfirmStep(db, i, p), i, p) == ConfirmStep(db, i, p)
  {
  }

  // ------------------------------------------------------- refund undoes confirm

  /** Confirms and refunds that do not concern intent `i` or payment key `key`. */
  ghost predicate Elsewhere(db: Db, a: Action, i: nat, key: PaymentKey) {
    match a
    case Confirm(j, p) => j != i && (j < |db.intents| ==> KeyOf(db, j, p) != key)
    case Refund(k) => k != key
    case _ => false
  }

  ghost predicate AllElsewhere(db: Db, actions: seq<Action>, i: nat, key: PaymentKey) {
    forall a :: a in actions ==> Elsewhere(db, a, i, key)
  }

  function Without(txs: seq<Tx>, key: PaymentKey): seq<Tx> {
    if txs == [] then []
    else
      var t := txs[|txs| - 1];
      Without(txs[..|txs| - 1], key) + if t.key == key then [] else [t]
  }

  /** `db` is `db'` plus one transaction, with key `key`, of intent `i`. */
  ghost predicate OneMore(db: Db, db': Db, i: nat, key: PaymentKey) {
    && |db.intents| == |db'.intents| && i < |db.intents|
    && (forall j :: 0 <= j < |db.intents| ==>
          && db.intents[j].invoice == db'.intents[j].invoice
          && db.intents[j].provider == db'.intents[j].provider
          && (j != i ==> db.intents[j] == db'.intents[j]))
    && |db.invoices| == |db'.invoices|
    && (forall v :: 0 <= v < |db.invoices| ==> db.invoices[v].amount == db'.invoices[v].amount)
    && Without(db.txs, key) == db'.txs
    && (exists k :: 0 <= k < |db.txs| && db.txs[k].key == key && db.txs[k].intent == i)
  }

  lemma {:induction false} WithoutKeys(txs: seq<Tx>, key: PaymentKey, other: PaymentKey)
    requires other != key
    ensures KeyUsed(Without(txs, key), other) <==> KeyUsed(txs, other)
  {
    if txs != [] {
      var n := |txs| - 1;
      var rest := Without(txs[..n], key);
      WithoutKeys(txs[..n], key, other);
      KeyUsedAppend(txs[..n], txs[n], other);
      KeyUsedAppend(rest, txs[n], other);
      assert txs[..n] + [txs[n]] == txs;
      assert rest + [] == rest;
    }
  }

  lemma KeyUsedAppend(txs: seq<Tx>, t: Tx, key: PaymentKey)
    ensures KeyUsed(txs + [t], key) <==> KeyUsed(txs, key) || t.key == key
  {
    assert (txs + [t])[|txs|] == t;
    assert forall k :: 0 <= k < |txs| ==> (txs + [t])[k] == txs[k];
  }

  lemma {:induction false} WithoutMark(txs: seq<Tx>, key: PaymentKey, other: PaymentKey)
    requires other != key
    ensures Without(MarkRefunded(txs, other), key) == MarkRefunded(Without(txs, key), other)
  {
    if txs != [] {
      var n := |txs| - 1;
      WithoutMark(txs[..n], key, other);
      assert MarkRefunded(txs, other)[..n] == MarkRefunded(txs[..n], other);
    }
  }

  /** The row of a key contributes its own credit and nothing else. */
  lemma {:induction false} PaidTotalWithout(intents: seq<Intent>, txs: seq<Tx>, k: nat, v: nat)
    requires k < |txs| && KeysDistinct(txs)
    ensures PaidTotal(intents, txs, v) == PaidTotal(intents, Without(txs, txs[k].key), v) + Credit(intents, txs[k], v)
  {
    var n := |txs| - 1;
    if k == n {
      NothingWithout(txs[..n], txs[k].key);
      assert Without(txs, txs[k].key) == txs[..n];
    } else {
      PaidTotalWithout(intents, txs[..n], k, v);
      PaidTotalAppend(intents, Without(txs[..n], txs[k].key), txs[n], v);
    }
  }

  lemma {:induction false} NothingWithout(txs: seq<Tx>, key: PaymentKey)
    requires !KeyUsed(txs, key)
    ensures Without(txs, key) == txs
  {
    if txs != [] {
      assert !KeyUsed(txs[..|txs| - 1], key);
      NothingWithout(txs[..|txs| - 1], key);
    }
  }

  lemma OneMoreConfirm(db: Db, db': Db, j: nat, p: Payment, i: nat, key: PaymentKey)
    requires References(db) && References(db') && OneMore(db, db', i, key)
    requires Elsewhere(db, Confirm(j, p), i, key)
    ensures OneMore(ConfirmStep(db, j, p), ConfirmStep(db', j, p), i, key)
  {
    hide PaidTotal, Balance;
    if j < |db.intents| {
      WithoutKeys(db.txs, key, KeyOf(db, j, p));
      if Effective(db, j, p) {
        var k :| 0 <= k < |db.txs| && db.txs[k].key == key && db.txs[k].intent == i;
        var txs := db.txs + [TxFor(db, j, p)];
        assert txs[..|db.txs|] == db.txs && txs[k] == db.txs[k];
      }
    }
  }

  lemma {:induction false} OneMoreRefund(db: Db, db': Db, other: PaymentKey, i: nat, key: PaymentKey)
    requires Inv(db) && Inv(db') && OneMore(db, db', i, key) && other != key
    ensures OneMore(RefundStep(db, other), RefundStep(db', other), i, key)
  {
    var d, d' := RefundStep(db, other), RefundStep(db', other);
    assert RefundedTables(db, d, other) && RefundedTables(db', d', other) by {
      RefundTables(db, other);
      RefundTables(db', other);
    }
    OneMoreMarked(db, db', d, d', other, i, key);
  }

  lemma OneMoreMarked(db: Db, db': Db, d: Db, d': Db, other: PaymentKey, i: nat, key: PaymentKey)
    requires OneMore(db, db', i, key) && other != key
    requires RefundedTables(db, d, other) && RefundedTables(db', d', other)
    ensures OneMore(d, d', i, key)
  {
    WithoutMark(db.txs, key, other);
    var k :| 0 <= k < |db.txs| && db.txs[k].key == key && db.txs[k].intent == i;
    assert d.txs[k] == db.txs[k];
  }

  lemma {:induction false} OneMoreRun(db: Db, db': Db, actions: seq<Action>, i: nat, key: PaymentKey)
    requires Inv(db) && Inv(db') && OneMore(db, db', i, key) && AllElsewhere(db, actions, i, key)
    ensures OneMore(Run(db, actions), Run(db', actions), i, key)
  {
    hide Balances, OneTxPerIntent, KeysDistinct, Companions, Outstanding, ConfirmStep, RefundStep, OneMore;
    if actions != [] {
      var n := |actions| - 1;
      var d, d' := Run(db, actions[..n]), Run(db', actions[..n]);
      OneMoreRun(db, db', actions[..n], i, key);
      RunKeeps(db, actions[..n]);
      RunKeeps(db', actions[..n]);
      ProvidersKept(db, actions[..n], i, key);
      assert Elsewhere(db, actions[n], i, key);
      match actions[n] {
        case Confirm(j, p) => OneMoreConfirm(d, d', j, p, i, key);
        case Refund(other) => OneMoreRefund(d, d', other, i, key);
        case _ =>
      }
    }
  }

  /** The provider an intent was cut with never changes. */
  lemma {:induction false} ProvidersKept(db: Db, actions: seq<Action>, i: nat, key: PaymentKey)
    requires AllElsewhere(db, actions, i, key)
    ensures |Run(db, actions).intents| == |db.intents|
    ensures forall j :: 0 <= j < |db.intents| ==> Run(db, actions).intents[j].provider == db.intents[j].provider
  {
    if actions != [] {
      var n := |actions| - 1;
      ProvidersKept(db, actions[..n], i, key);
      assert Elsewhere(db, actions[n], i, key);
      match actions[n] {
        case Confirm(j, p) => assert Run(db, actions) == ConfirmStep(Run(db, actions[..n]), j, p);
        case Refund(other) => assert Run(db, actions) == RefundStep(Run(db, actions[..n]), other);
        case _ =>
      }
    }
  }

  /**
    Refund undoes confirm: whatever other confirms and refunds happen in between, confirming a payment
    and refunding it later leaves every balance where the run without that payment leaves it.
  */
  lemma {:induction false} RefundUndoesConfirm(db: Db, i: nat, p: Payment, between: seq<Action>)
    requires Inv(db) && Effective(db, i, p)
    requires AllElsewhere(db, between, i, KeyOf(db, i, p))
    ensures var d := RefundStep(Run(ConfirmStep(db, i, p), between), KeyOf(db, i, p));
      var d' := Run(db, between);
      && |d.invoices| == |d'.invoices|
      && (forall v :: 0 <= v < |d.invoices| ==> d.invoices[v].balance == d'.invoices[v].balance)
  {
    hide RefundStep, PaidTotal, Balances, OneTxPerIntent, Companions;
    var key := KeyOf(db, i, p);
    var start := ConfirmStep(db, i, p);
    ConfirmKeeps(db, i, p);
    NothingWithout(db.txs, key);
    assert start.txs[..|db.txs|] == db.txs && start.txs[|db.txs|].intent == i;
    OneMoreRun(start, db, between, i, key);
    RunKeeps(start, between);
    RunKeeps(db, between);
    RefundRemoves(Run(start, between), Run(db, between), i, key);
  }

  lemma RefundRemoves(m: Db, d': Db, i: nat, key: PaymentKey)
    requires Inv(m) && Inv(d') && OneMore(m, d', i, key)
    ensures var d := RefundStep(m, key);
      && |d.invoices| == |d'.invoices|
      && (forall v :: 0 <= v < |d.invoices| ==> d.invoices[v].balance == d'.invoices[v].balance)
  {
    hide RefundStep, Without, PaidTotal;
    var d := RefundStep(m, key);
    RefundTables(m, key);
    RefundBalances(m, key);
    forall v | 0 <= v < |m.invoices|
      ensures PaidTotal(m.intents, MarkRefunded(m.txs, key), v) == PaidTotal(d'.intents, d'.txs, v)
    {
      var k :| 0 <= k < |m.txs| && m.txs[k].key == key && m.txs[k].intent == i;
      PaidTotalRefund(m.intents, m.txs, k, v);
      PaidTotalWithout(m.intents, m.txs, k, v);
      PaidTotalFrame(d'.intents, m.intents, d'.txs, v);
    }
  }

  // ------------------------------------------------------------ monotone balances

  /** The provider reports no negative gross. */
  ghost predicate NonNegative(db: Db, a: Action) {
    a.Confirm? && a.intent < |db.intents| ==> TxFor(db, a.intent, a.payment).gross >= 0
  }

  /** Only a refund can raise a balance. */
  lemma {:induction false} BalancesNeverRise(db: Db, a: Action, v: nat)
    requires Inv(db) && !a.Refund? && NonNegative(db, a) && v < |db.invoices|
    ensures v < |Step(db, a).invoices| && Step(db, a).invoices[v].balance <= db.invoices[v].balance
  {
    if a.Confirm? && Effective(db, a.intent, a.payment) {
      var t := TxFor(db, a.intent, a.payment);
      var intents := Step(db, a).intents;
      PaidTotalAppend(intents, db.txs, t, v);
      PaidTotalFrame(db.intents, intents, db.txs, v);
    } else if !a.Confirm? && !a.Create? {
      QuietStep(db, a);
    }
  }

  ghost predicate NeverRefunds(db: Db, actions: seq<Action>) {
    actions == [] ||
    (var n := |actions| - 1;
     NeverRefunds(db, actions[..n]) && !actions[n].Refund? && NonNegative(Run(db, actions[..n]), actions[n]))
  }

  /** Over a run without refunds every balance only falls. */
  lemma {:induction false} BalancesFallOverRuns(db: Db, actions: seq<Action>, v: nat)
    requires Inv(db) && NeverRefunds(db, actions) && v < |db.invoices|
    ensures v < |Run(db, actions).invoices| && Run(db, actions).invoices[v].balance <= db.invoices[v].balance
  {
    if actions != [] {
      var n := |actions| - 1;
      BalancesFallOverRuns(db, actions[..n], v);
      RunKeeps(db, actions[..n]);
      BalancesNeverRise(Run(db, actions[..n]), actions[n], v);
    }
  }
}
