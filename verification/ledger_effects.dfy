/** What the money steps do to the rows, in the terms of the provider's report and the rows alone. */
module LedgerEffects {
  import opened Options
  import opened Ledger
  import opened LedgerInvariant
  import opened Lifecycle

  /** The intent can still be paid and the provider's payment id is new. */
  ghost predicate Payable(db: Db, i: nat, p: Payment) {
    && i < |db.intents|
    && (db.intents[i].state == Pending || db.intents[i].state == Processing)
    && db.intents[i].providerInvoice != None
    && forall k :: 0 <= k < |db.txs| ==>
         db.txs[k].key.provider != db.intents[i].provider || db.txs[k].key.paymentId != p.paymentId
  }

  lemma PayableIsEffective(db: Db, i: nat, p: Payment)
    requires References(db)
    ensures Payable(db, i, p) <==> Effective(db, i, p)
  {
    if i < |db.intents| {
      assert forall k :: 0 <= k < |db.txs| ==>
        (db.txs[k].key == KeyOf(db, i, p) <==>
         db.txs[k].key.provider == db.intents[i].provider && db.txs[k].key.paymentId == p.paymentId);
    }
  }

  /** What a report credits: the reported gross, or the intent's amount when none is reported. */
  ghost predicate IsGross(db: Db, i: nat, p: Payment, g: int)
    requires i < |db.intents|
  {
    (p.gross.Some? ==> g == p.gross.value) && (p.gross.None? ==> g == db.intents[i].amount)
  }

  /**
    Confirming a payable intent appends one transaction with the reported gross and fee and marks the intent;
    the invoice's total grows by that gross, its balance is what is left of its amount, never below zero, and
    it is PAID exactly when nothing is left, else PARTIALLY_PAID.
  */
  lemma ConfirmCredits(db: Db, i: nat, p: Payment, g: int)
    requires Inv(db) && Payable(db, i, p) && IsGross(db, i, p, g)
    ensures var d, v := ConfirmStep(db, i, p), db.intents[i].invoice;
      var total, row := PaidTotal(db.intents, db.txs, v), db.invoices[v];
      && PaidTotal(d.intents, d.txs, v) == total + g
      && |d.invoices| == |db.invoices|
      && (row.amount > total + g ==>
            d.invoices[v] == row.(balance := row.amount - total - g, state := PartiallyPaid))
      && (row.amount <= total + g ==> d.invoices[v] == row.(balance := 0, state := Paid))
  {
    PayableIsEffective(db, i, p);
    var d, v := ConfirmStep(db, i, p), db.intents[i].invoice;
    PaidTotalAppend(d.intents, db.txs, TxFor(db, i, p), v);
    PaidTotalFrame(db.intents, d.intents, db.txs, v);
  }

  /** The rows a confirmation writes besides the invoice's, and that it leaves all others as they were. */
  lemma ConfirmWrites(db: Db, i: nat, p: Payment, g: int)
    requires References(db) && Payable(db, i, p) && IsGross(db, i, p, g)
    ensures var d, v := ConfirmStep(db, i, p), db.intents[i].invoice;
      && |d.txs| == |db.txs| + 1 && d.txs[..|db.txs|] == db.txs
      && (var t := d.txs[|db.txs|];
          && t.intent == i && t.key.provider == db.intents[i].provider && t.key.paymentId == p.paymentId
          && t.gross == g && t.status == Credited
          && (p.fee.Some? ==> t.fee == p.fee.value) && (p.fee.None? ==> t.fee == 0)
          && t.net + t.fee == t.gross
          && d.usage == db.usage + [t.key]
          && |d.receipts| == |db.receipts| + 1 && d.receipts[..|db.receipts|] == db.receipts
          && d.receipts[|db.receipts|].tx == t.key
          && (d.receipts[|db.receipts|].wanted <==> db.receiptModule && db.invoices[v].receiptOptIn))
      && d.intents == db.intents[i := db.intents[i].(state := Succeeded)]
      && d.links == db.links && d.requests == db.requests && d.receiptModule == db.receiptModule
      && (forall u :: 0 <= u < |db.invoices| && u != v ==> d.invoices[u] == db.invoices[u])
  {
    PayableIsEffective(db, i, p);
    hide PaidTotal;
  }

  /** A report on an intent that cannot be paid, or with a known payment id, changes nothing. */
  lemma ConfirmRefused(db: Db, i: nat, p: Payment)
    requires References(db) && !Payable(db, i, p)
    ensures ConfirmStep(db, i, p) == db
  {
    PayableIsEffective(db, i, p);
  }

  // ------------------------------------------------------------------ refunds

  /** Some transaction of the invoice is still SUCCEEDED. */
  ghost predicate SomeCredited(db: Db, v: nat) {
    exists k :: 0 <= k < |db.txs| && db.txs[k].status == Credited && db.txs[k].intent < |db.intents|
                && db.intents[db.txs[k].intent].invoice == v
  }

  /** A refund marks the row of its key and no other, and changes no other field. */
  lemma RefundMarks(db: Db, k: nat)
    requires Inv(db) && k < |db.txs|
    ensures var d := RefundStep(db, db.txs[k].key);
      && d.txs == db.txs[k := db.txs[k].(status := Refunded)]
      && d.intents == db.intents && d.links == db.links && d.requests == db.requests
      && d.receipts == db.receipts && d.usage == db.usage && d.receiptModule == db.receiptModule
      && |d.invoices| == |db.invoices|
      && (forall u :: 0 <= u < |db.invoices| && u != db.intents[db.txs[k].intent].invoice ==>
            d.invoices[u] == db.invoices[u])
  {
    hide PaidTotal;
    assert KeyUsed(db.txs, db.txs[k].key);
  }

  /** The balance after a refund is the amount less what is still credited, never below zero. */
  lemma RefundBalance(db: Db, k: nat)
    requires Inv(db) && k < |db.txs|
    ensures var d, v := RefundStep(db, db.txs[k].key), db.intents[db.txs[k].intent].invoice;
      var gross := if db.txs[k].status == Credited then db.txs[k].gross else 0;
      var left := db.invoices[v].amount - (PaidTotal(db.intents, db.txs, v) - gross);
      && PaidTotal(d.intents, d.txs, v) == PaidTotal(db.intents, db.txs, v) - gross
      && d.invoices[v].balance == (if left > 0 then left else 0)
      && d.invoices[v].amount == db.invoices[v].amount
  {
    assert KeyUsed(db.txs, db.txs[k].key);
    PaidTotalRefund(db.intents, db.txs, k, db.intents[db.txs[k].intent].invoice);
    hide PaidTotal;
  }

  /** With positive payments an invoice's total is positive exactly when it has a SUCCEEDED transaction. */
  lemma CreditedExactly(db: Db, v: nat)
    requires CreditsPositive(db)
    ensures PaidTotal(db.intents, db.txs, v) >= 0
    ensures PaidTotal(db.intents, db.txs, v) > 0 <==> SomeCredited(db, v)
  {
    PositiveTotal(db.intents, db.txs, v);
    if SomeCredited(db, v) {
      var k :| 0 <= k < |db.txs| && db.txs[k].status == Credited && db.txs[k].intent < |db.intents|
               && db.intents[db.txs[k].intent].invoice == v;
      assert Credit(db.intents, db.txs[k], v) > 0;
    }
  }

  lemma RefundState(db: Db, k: nat)
    requires Inv(db) && k < |db.txs|
    ensures var d, v := RefundStep(db, db.txs[k].key), db.intents[db.txs[k].intent].invoice;
      d.invoices[v].state ==
      if d.invoices[v].balance == 0 then Paid
      else if PaidTotal(d.intents, d.txs, v) > 0 then PartiallyPaid else Sent
  {
    hide PaidTotal, Balance;
    assert KeyUsed(db.txs, db.txs[k].key);
  }

  /**
    With positive payments the state after a refund is read off the rows: PAID if nothing is left to pay, else
    PARTIALLY_PAID if some transaction of the invoice is still SUCCEEDED, else SENT.
  */
  lemma RefundStates(db: Db, k: nat)
    requires Inv(db) && CreditsPositive(db) && k < |db.txs|
    ensures var d, v := RefundStep(db, db.txs[k].key), db.intents[db.txs[k].intent].invoice;
      var row := d.invoices[v];
      && (row.state == Paid <==> row.balance == 0)
      && (row.state == PartiallyPaid <==> row.balance != 0 && SomeCredited(d, v))
      && (row.state == Sent <==> row.balance != 0 && !SomeCredited(d, v))
  {
    hide PaidTotal, RefundStep, Balances, Companions, Outstanding, KeysDistinct, SomeCredited;
    RefundMarks(db, k);
    RefundState(db, k);
    CreditedExactly(RefundStep(db, db.txs[k].key), db.intents[db.txs[k].intent].invoice);
  }

  // ---------------------------------------------------------------- reminders

  /** Over every run an invoice gets at most three reminders. */
  lemma {:induction false} RemindersAtMost(actions: seq<Action>)
    ensures forall v :: 0 <= v < |Run(EMPTY, actions).invoices| ==> Run(EMPTY, actions).invoices[v].reminders <= 3
  {
    if actions != [] {
      var n := |actions| - 1;
      RemindersAtMost(actions[..n]);
      ReminderStep(Run(EMPTY, actions[..n]), actions[n]);
    }
  }

  lemma ReminderStep(db: Db, a: Action)
    requires forall v :: 0 <= v < |db.invoices| ==> db.invoices[v].reminders <= 3
    ensures forall v :: 0 <= v < |Step(db, a).invoices| ==> Step(db, a).invoices[v].reminders <= 3
  {
    hide PaidTotal, FindTx, KeyUsed, Balance;
  }
}
