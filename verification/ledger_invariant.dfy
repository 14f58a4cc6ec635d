/** What every atomic step keeps, in every interleaving and with no hypothesis on the schedule. */
module LedgerInvariant {
  import opened Options
  import opened Ledger

  /** Foreign keys point at rows. */
  ghost predicate References(db: Db) {
    && (forall l :: 0 <= l < |db.links| ==> db.links[l].invoice < |db.invoices|)
    && (forall i :: 0 <= i < |db.intents| ==> db.intents[i].invoice < |db.invoices|)
    && (forall r :: 0 <= r < |db.requests| && db.requests[r].Reading? ==> db.requests[r].invoice < |db.invoices|)
  }

  /** The stored balance is the amount less the ledger sum, never below zero. */
  ghost predicate Balances(db: Db) {
    forall v :: 0 <= v < |db.invoices| ==>
      && db.invoices[v].amount >= 1
      && db.invoices[v].balance == Balance(db.invoices[v].amount, PaidTotal(db.intents, db.txs, v))
  }

  /** An intent is SUCCEEDED exactly when it has a transaction, and it never has two. */
  ghost predicate OneTxPerIntent(db: Db) {
    && (forall k :: 0 <= k < |db.txs| ==>
          && db.txs[k].intent < |db.intents|
          && db.intents[db.txs[k].intent].state == Succeeded
          && db.intents[db.txs[k].intent].provider == db.txs[k].key.provider)
    && (forall j, k :: 0 <= j < k < |db.txs| ==> db.txs[j].intent != db.txs[k].intent)
    && (forall i :: 0 <= i < |db.intents| && db.intents[i].state == Succeeded ==>
          exists k :: 0 <= k < |db.txs| && db.txs[k].intent == i)
  }

  /** No (provider, providerPaymentId) is credited twice. */
  ghost predicate KeysDistinct(txs: seq<Tx>) {
    forall j, k :: 0 <= j < k < |txs| ==> txs[j].key != txs[k].key
  }

  /** The k-th receipt row and the k-th PAYMENT_SUCCEEDED event belong to the k-th transaction. */
  ghost predicate Companions(db: Db) {
    && |db.receipts| == |db.txs| == |db.usage|
    && (forall k :: 0 <= k < |db.txs| ==> db.receipts[k].tx == db.txs[k].key)
    && (forall k :: 0 <= k < |db.txs| ==> db.usage[k] == db.txs[k].key)
  }

  /** An intent whose provider answer is outstanding was never open, and only one request waits for it. */
  ghost predicate Outstanding(db: Db) {
    && (forall r :: 0 <= r < |db.requests| && db.requests[r].Waiting? ==>
          && db.requests[r].intent < |db.intents|
          && db.intents[db.requests[r].intent].state in {Created, IntentCancelled}
          && db.intents[db.requests[r].intent].providerInvoice == None)
    && (forall q, r :: 0 <= q < r < |db.requests| && db.requests[q].Waiting? && db.requests[r].Waiting? ==>
          db.requests[q].intent != db.requests[r].intent)
  }

  ghost predicate Inv(db: Db) {
    && References(db)
    && Balances(db)
    && OneTxPerIntent(db)
    && KeysDistinct(db.txs)
    && Companions(db)
    && Outstanding(db)
  }

  // ------------------------------------------------------------- ledger sums

  /** The sum depends on the intents only through the invoice each transaction's intent belongs to. */
  lemma {:induction false} PaidTotalFrame(intents: seq<Intent>, intents': seq<Intent>, txs: seq<Tx>, v: nat)
    requires |intents| <= |intents'|
    requires forall k :: 0 <= k < |txs| ==> txs[k].intent < |intents|
    requires forall i :: 0 <= i < |intents| ==> intents'[i].invoice == intents[i].invoice
    ensures PaidTotal(intents', txs, v) == PaidTotal(intents, txs, v)
  {
    if txs != [] {
      PaidTotalFrame(intents, intents', txs[..|txs| - 1], v);
    }
  }

  lemma PaidTotalAppend(intents: seq<Intent>, txs: seq<Tx>, t: Tx, v: nat)
    ensures PaidTotal(intents, txs + [t], v) == PaidTotal(intents, txs, v) + Credit(intents, t, v)
  {
    assert (txs + [t])[..|txs|] == txs;
  }

  /** Refunding takes the row's credit out of its own invoice and leaves every other invoice alone. */
  lemma {:induction false} PaidTotalRefund(intents: seq<Intent>, txs: seq<Tx>, k: nat, v: nat)
    requires k < |txs| && KeysDistinct(txs)
    ensures PaidTotal(intents, MarkRefunded(txs, txs[k].key), v)
         == PaidTotal(intents, txs, v) - Credit(intents, txs[k], v)
  {
    var n := |txs| - 1;
    var marked := MarkRefunded(txs, txs[k].key);
    assert marked[..n] == MarkRefunded(txs[..n], txs[k].key);
    if k < n {
      PaidTotalRefund(intents, txs[..n], k, v);
      assert txs[..n][k] == txs[k];
    } else {
      assert marked[..n] == txs[..n];
    }
  }

  // ------------------------------------------------------------ preservation

  /** The step writes no ledger row, no balance, and moves no intent into or out of SUCCEEDED. */
  ghost predicate LedgerUntouched(db: Db, db': Db) {
    && db'.txs == db.txs && db'.receipts == db.receipts && db'.usage == db.usage
    && |db'.invoices| == |db.invoices| && |db.intents| <= |db'.intents|
    && (forall v :: 0 <= v < |db.invoices| ==>
          db'.invoices[v].amount == db.invoices[v].amount && db'.invoices[v].balance == db.invoices[v].balance)
    && (forall i :: 0 <= i < |db.intents| ==>
          && db'.intents[i].invoice == db.intents[i].invoice
          && db'.intents[i].provider == db.intents[i].provider
          && (db'.intents[i].state == Succeeded <==> db.intents[i].state == Succeeded))
    && (forall i :: |db.intents| <= i < |db'.intents| ==> db'.intents[i].state != Succeeded)
  }

  lemma UntouchedKeeps(db: Db, db': Db)
    requires Inv(db) && LedgerUntouched(db, db')
    ensures Balances(db') && OneTxPerIntent(db') && KeysDistinct(db'.txs) && Companions(db')
  {
    forall v: nat ensures PaidTotal(db'.intents, db'.txs, v) == PaidTotal(db.intents, db.txs, v) {
      PaidTotalFrame(db.intents, db'.intents, db.txs, v);
    }
  }

  /** A row beyond the invoices that exist has no credit yet. */
  lemma {:induction false} NoCreditBeyond(intents: seq<Intent>, txs: seq<Tx>, v: nat)
    requires forall i :: 0 <= i < |intents| ==> intents[i].invoice != v
    ensures PaidTotal(intents, txs, v) == 0
  {
    if txs != [] {
      NoCreditBeyond(intents, txs[..|txs| - 1], v);
    }
  }

  lemma CreateBalances(db: Db, amount: int, due: Option<int>, optIn: bool)
    requires References(db) && Balances(db)
    ensures Balances(Step(db, Create(amount, due, optIn)))
  {
    NoCreditBeyond(db.intents, db.txs, |db.invoices|);
    hide References;
  }

  lemma CreateKeeps(db: Db, amount: int, due: Option<int>, optIn: bool)
    requires Inv(db)
    ensures Inv(Step(db, Create(amount, due, optIn)))
  {
    CreateBalances(db, amount, due, optIn);
    hide Balances, KeysDistinct;
  }

  /** What a step outside the ledger has to establish. */
  ghost predicate Undisturbed(db: Db, db': Db) {
    LedgerUntouched(db, db') && References(db') && Outstanding(db')
  }

  lemma SendQuiet(db: Db, v: nat, now: int)
    requires References(db) && Outstanding(db)
    ensures Undisturbed(db, SendStep(db, v, now))
  {
  }

  lemma OpenQuiet(db: Db, l: nat, now: int)
    requires References(db) && Outstanding(db)
    ensures Undisturbed(db, OpenStep(db, l, now))
  {
  }

  lemma BeginQuiet(db: Db, l: nat, now: int)
    requires References(db) && Outstanding(db)
    ensures Undisturbed(db, BeginStep(db, l, now))
  {
  }

  lemma InsertQuiet(db: Db, r: nat, provider: string)
    requires References(db) && Outstanding(db)
    ensures Undisturbed(db, InsertStep(db, r, provider))
  {
  }

  lemma ReadyQuiet(db: Db, r: nat, id: string, expiresAt: int)
    requires References(db) && Outstanding(db)
    ensures Undisturbed(db, ReadyStep(db, r, id, expiresAt))
  {
  }

  lemma RefusedQuiet(db: Db, r: nat)
    requires References(db) && Outstanding(db)
    ensures Undisturbed(db, RefusedStep(db, r))
  {
  }

  lemma AbandonQuiet(db: Db, r: nat)
    requires References(db) && Outstanding(db)
    ensures Undisturbed(db, AbandonStep(db, r))
  {
  }

  lemma RetireQuiet(db: Db, i: nat)
    requires References(db) && Outstanding(db)
    ensures Undisturbed(db, RetireStep(db, i))
  {
  }

  lemma CancelQuiet(db: Db, v: nat)
    requires References(db) && Outstanding(db)
    ensures Undisturbed(db, CancelStep(db, v))
  {
  }

  lemma OverdueQuiet(db: Db, now: int)
    requires References(db) && Outstanding(db)
    ensures Undisturbed(db, OverdueStep(db, now))
  {
  }

  lemma RemindQuiet(db: Db, v: nat, seen: nat, now: int)
    requires References(db) && Outstanding(db)
    ensures Undisturbed(db, RemindStep(db, v, seen, now))
  {
  }

  lemma ConfirmBalances(db: Db, i: nat, p: Payment)
    requires Inv(db) && Effective(db, i, p)
    ensures Balances(ConfirmStep(db, i, p))
  {
    var db' := ConfirmStep(db, i, p);
    forall v | 0 <= v < |db.invoices| && v != db.intents[i].invoice
      ensures PaidTotal(db'.intents, db'.txs, v) == PaidTotal(db.intents, db.txs, v)
    {
      PaidTotalAppend(db'.intents, db.txs, TxFor(db, i, p), v);
      PaidTotalFrame(db.intents, db'.intents, db.txs, v);
    }
  }

  lemma ConfirmOneTx(db: Db, i: nat, p: Payment)
    requires Inv(db) && Effective(db, i, p)
    ensures OneTxPerIntent(ConfirmStep(db, i, p))
  {
    var db' := ConfirmStep(db, i, p);
    assert db'.txs[|db.txs|].intent == i;
    forall j | 0 <= j < |db'.intents| && db'.intents[j].state == Succeeded
      ensures exists k :: 0 <= k < |db'.txs| && db'.txs[k].intent == j
    {
      if j != i {
        var k :| 0 <= k < |db.txs| && db.txs[k].intent == j;
        assert db'.txs[k].intent == j;
      }
    }
  }

  lemma ConfirmRest(db: Db, i: nat, p: Payment)
    requires Inv(db) && Effective(db, i, p)
    ensures var db' := ConfirmStep(db, i, p);
      References(db') && KeysDistinct(db'.txs) && Companions(db') && Outstanding(db')
  {
  }

  lemma ConfirmKeeps(db: Db, i: nat, p: Payment)
    requires Inv(db)
    ensures Inv(ConfirmStep(db, i, p))
  {
    if Effective(db, i, p) {
      ConfirmBalances(db, i, p);
      ConfirmOneTx(db, i, p);
      ConfirmRest(db, i, p);
    }
  }

  lemma RefundBalances(db: Db, key: PaymentKey)
    requires Inv(db)
    ensures Balances(RefundStep(db, key))
  {
    var k := FindTx(db.txs, key);
    if HasTx(db, k, key) {
      forall v | 0 <= v < |db.invoices| && v != db.intents[db.txs[k].intent].invoice
        ensures PaidTotal(db.intents, MarkRefunded(db.txs, key), v) == PaidTotal(db.intents, db.txs, v)
      {
        PaidTotalRefund(db.intents, db.txs, k, v);
      }
    }
  }

  lemma RefundRows(db: Db, key: PaymentKey)
    requires Inv(db)
    ensures OneTxPerIntent(db.(txs := MarkRefunded(db.txs, key)))
  {
    hide KeysDistinct, Balances, Companions, Outstanding, PaidTotal;
    var txs := MarkRefunded(db.txs, key);
    forall i | 0 <= i < |db.intents| && db.intents[i].state == Succeeded
      ensures exists j :: 0 <= j < |txs| && txs[j].intent == i
    {
      var j :| 0 <= j < |db.txs| && db.txs[j].intent == i;
      assert txs[j].intent == i;
    }
  }

  lemma RefundFires(db: Db, key: PaymentKey)
    requires References(db) && OneTxPerIntent(db)
    ensures HasTx(db, FindTx(db.txs, key), key) <==> KeyUsed(db.txs, key)
  {
  }

  ghost predicate RefundedTables(db: Db, d: Db, key: PaymentKey) {
    && d == db.(txs := MarkRefunded(db.txs, key), invoices := d.invoices) && |d.invoices| == |db.invoices|
    && (forall v :: 0 <= v < |db.invoices| ==> d.invoices[v].amount == db.invoices[v].amount)
  }

  /** A refund writes the status of its row and, besides, only balances and states. */
  lemma RefundTables(db: Db, key: PaymentKey)
    requires References(db) && OneTxPerIntent(db)
    ensures RefundedTables(db, RefundStep(db, key), key)
  {
    RefundFires(db, key);
    if !KeyUsed(db.txs, key) {
      assert MarkRefunded(db.txs, key) == db.txs;
    }
  }

  lemma RefundRest(db: Db, key: PaymentKey)
    requires References(db) && KeysDistinct(db.txs) && Companions(db) && Outstanding(db)
    ensures var db' := RefundStep(db, key);
      References(db') && KeysDistinct(db'.txs) && Companions(db') && Outstanding(db')
  {
  }

  lemma RefundKeeps(db: Db, key: PaymentKey)
    requires Inv(db)
    ensures Inv(RefundStep(db, key))
  {
    RefundBalances(db, key);
    RefundRows(db, key);
    RefundRest(db, key);
  }

  lemma StepKeeps(db: Db, a: Action)
    requires Inv(db)
    ensures Inv(Step(db, a))
  {
    hide Inv, ConfirmStep, RefundStep;
    match a
    case Create(amount, due, optIn) => CreateKeeps(db, amount, due, optIn);
    case Confirm(i, p) => ConfirmKeeps(db, i, p);
    case Refund(key) => RefundKeeps(db, key);
    case _ => QuietKeeps(db, a);
  }

  lemma QuietKeeps(db: Db, a: Action)
    requires Inv(db) && !a.Create? && !a.Confirm? && !a.Refund?
    ensures Inv(Step(db, a))
  {
    hide Step, Balances, OneTxPerIntent, KeysDistinct, Companions, LedgerUntouched;
    QuietStep(db, a);
    UntouchedKeeps(db, Step(db, a));
  }

  lemma QuietStep(db: Db, a: Action)
    requires References(db) && Outstanding(db)
    requires !a.Create? && !a.Confirm? && !a.Refund?
    ensures Undisturbed(db, Step(db, a))
  {
    hide SendStep, OpenStep, BeginStep, InsertStep, ReadyStep, RefusedStep, AbandonStep, RetireStep;
    hide CancelStep, OverdueStep, RemindStep;
    match a
    case Send(v, now) => SendQuiet(db, v, now);
    case OpenLink(l, now) => OpenQuiet(db, l, now);
    case BeginPay(l, now) => BeginQuiet(db, l, now);
    case InsertIntent(r, provider) => InsertQuiet(db, r, provider);
    case ProviderReady(r, id, expiresAt) => ReadyQuiet(db, r, id, expiresAt);
    case ProviderRefused(r) => RefusedQuiet(db, r);
    case Abandon(r) => AbandonQuiet(db, r);
    case Retire(i) => RetireQuiet(db, i);
    case Cancel(v) => CancelQuiet(db, v);
    case MarkOverdue(now) => OverdueQuiet(db, now);
    case Remind(v, seen, now) => RemindQuiet(db, v, seen, now);
    case SetReceiptModule(_) =>
    case _ =>
  }

  lemma {:induction false} RunKeeps(db: Db, actions: seq<Action>)
    requires Inv(db)
    ensures Inv(Run(db, actions))
  {
    if actions != [] {
      RunKeeps(db, actions[..|actions| - 1]);
      StepKeeps(Run(db, actions[..|actions| - 1]), actions[|actions| - 1]);
    }
  }

  /** Some run from empty tables ends in `db`. */
  ghost predicate Reachable(db: Db) {
    exists actions :: Run(EMPTY, actions) == db
  }

  lemma ReachEmpty()
    ensures Reachable(EMPTY)
  {
    assert Run(EMPTY, []) == EMPTY;
  }

  lemma ReachStep(db: Db, a: Action, db': Db)
    requires Reachable(db) && Step(db, a) == db'
    ensures Reachable(db')
  {
    var actions :| Run(EMPTY, actions) == db;
    assert (actions + [a])[..|actions|] == actions;
    assert Run(EMPTY, actions + [a]) == db';
  }

  /**
    The ledger over all runs from empty tables: balances are the ledger's, an intent is SUCCEEDED iff it
    has a transaction and has at most one, no key is credited twice, and each transaction has exactly
    one receipt row and exactly one usage event.
  */
  lemma {:induction false} LedgerOverRuns(actions: seq<Action>)
    ensures var db := Run(EMPTY, actions);
      && Inv(db)
      && (forall v :: 0 <= v < |db.invoices| ==>
            db.invoices[v].balance == Balance(db.invoices[v].amount, PaidTotal(db.intents, db.txs, v)))
      && (forall i :: 0 <= i < |db.intents| ==>
            (db.intents[i].state == Succeeded <==> exists k :: 0 <= k < |db.txs| && db.txs[k].intent == i))
      && (forall j, k :: 0 <= j < k < |db.txs| ==>
            db.txs[j].intent != db.txs[k].intent && db.txs[j].key != db.txs[k].key)
      && (forall k, r :: 0 <= k < |db.txs| && 0 <= r < |db.receipts| ==>
            (db.receipts[r].tx == db.txs[k].key <==> r == k))
      && (forall k, u :: 0 <= k < |db.txs| && 0 <= u < |db.usage| ==> (db.usage[u] == db.txs[k].key <==> u == k))
  {
    RunKeeps(EMPTY, actions);
  }
}
