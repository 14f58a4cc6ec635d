/** The invoice lifecycle on all reachable states, and what each hypothesis of it is needed for. */
module Lifecycle {
  import opened Options
  import opened Ledger
  import opened LedgerInvariant
  import opened ExampleRows

  // -------------------------------------------------------------- hypotheses

  /** No payer's `createIntentForToken` on the invoice is under way. */
  ghost predicate NoRequestOn(db: Db, v: nat) {
    && (forall r :: 0 <= r < |db.requests| && db.requests[r].Reading? ==> db.requests[r].invoice != v)
    && (forall r :: 0 <= r < |db.requests| && db.requests[r].Waiting? && db.requests[r].intent < |db.intents| ==>
          db.intents[db.requests[r].intent].invoice != v)
  }

  /**
    The schedules the lifecycle holds on: payments are positive, a refund finds its row still SUCCEEDED,
    no cancel commits while a payer's request on the same invoice is under way, and the reminder does not
    claim an invoice that was closed after the sweep listed it.
  */
  ghost predicate Careful(db: Db, a: Action) {
    match a
    case Confirm(i, p) => Effective(db, i, p) ==> TxFor(db, i, p).gross > 0
    case Refund(key) => var k := FindTx(db.txs, key); k < |db.txs| ==> db.txs[k].status == Credited
    case Cancel(v) => NoRequestOn(db, v)
    case Remind(v, seen, _) => ReminderClaims(db, v, seen) ==> db.invoices[v].state !in {Paid, Cancelled, Expired}
    case _ => true
  }

  ghost predicate CarefulRun(db: Db, actions: seq<Action>) {
    actions == [] ||
    (var n := |actions| - 1;
     CarefulRun(db, actions[..n]) && Careful(Run(db, actions[..n]), actions[n]))
  }

  // --------------------------------------------------------------- invariant

  predicate OpenState(s: IntentState) {
    s in {Created, Pending, Processing}
  }

  /** Every row that hangs off an invoice belongs to one that was sent. */
  ghost predicate OnlySentInvoices(db: Db) {
    && References(db)
    && (forall l :: 0 <= l < |db.links| ==> db.invoices[db.links[l].invoice].state != Draft)
    && (forall i :: 0 <= i < |db.intents| ==> db.invoices[db.intents[i].invoice].state != Draft)
    && (forall r :: 0 <= r < |db.requests| && db.requests[r].Reading? ==>
          db.invoices[db.requests[r].invoice].state != Draft)
  }

  ghost predicate PaidMeansZero(db: Db) {
    forall v :: 0 <= v < |db.invoices| ==>
      (db.invoices[v].state == Paid <==> db.invoices[v].balance == 0) && db.invoices[v].state != Expired
  }

  ghost predicate IsCancelled(db: Db, v: nat) {
    v < |db.invoices| && db.invoices[v].state == Cancelled
  }

  /** A cancelled invoice has no open intent and no request that could open one. */
  ghost predicate CancelledClosed(db: Db) {
    && (forall i :: 0 <= i < |db.intents| && OpenState(db.intents[i].state) ==> !IsCancelled(db, db.intents[i].invoice))
    && (forall r :: 0 <= r < |db.requests| && db.requests[r].Reading? ==> !IsCancelled(db, db.requests[r].invoice))
    && (forall r :: 0 <= r < |db.requests| && db.requests[r].Waiting? && db.requests[r].intent < |db.intents| ==>
          !IsCancelled(db, db.intents[db.requests[r].intent].invoice))
  }

  ghost predicate CreditsPositive(db: Db) {
    forall k :: 0 <= k < |db.txs| && db.txs[k].status == Credited ==> db.txs[k].gross > 0
  }

  /** A cancelled invoice has no SUCCEEDED transaction. */
  ghost predicate CancelledUnpaid(db: Db) {
    forall k :: 0 <= k < |db.txs| && db.txs[k].intent < |db.intents| && db.txs[k].status == Credited ==>
      !IsCancelled(db, db.intents[db.txs[k].intent].invoice)
  }

  ghost predicate LifeInv(db: Db) {
    && Inv(db)
    && OnlySentInvoices(db)
    && PaidMeansZero(db)
    && CancelledClosed(db)
    && CreditsPositive(db)
    && CancelledUnpaid(db)
  }

  // ------------------------------------------------------------------- edges

  predicate EdgeOrLoop(from: InvoiceState, to: InvoiceState) {
    from == to || CanTransition(from, to)
  }

  ghost predicate FollowsTable(db: Db, db': Db) {
    && |db.invoices| <= |db'.invoices|
    && forall v :: 0 <= v < |db.invoices| ==> EdgeOrLoop(db.invoices[v].state, db'.invoices[v].state)
  }

  ghost predicate CancelledStays(db: Db, db': Db) {
    forall v :: IsCancelled(db, v) ==> IsCancelled(db', v)
  }

  /** With positive credits, a full balance means that nothing is credited. */
  lemma {:induction false} PositiveTotal(intents: seq<Intent>, txs: seq<Tx>, v: nat)
    requires forall k :: 0 <= k < |txs| && txs[k].status == Credited ==> txs[k].gross > 0
    ensures PaidTotal(intents, txs, v) >= 0
    ensures PaidTotal(intents, txs, v) == 0 <==> forall k :: 0 <= k < |txs| ==> Credit(intents, txs[k], v) == 0
  {
    if txs != [] {
      var n := |txs| - 1;
      PositiveTotal(intents, txs[..n], v);
      assert forall k :: 0 <= k < n ==> txs[..n][k] == txs[k];
      if forall k :: 0 <= k < n ==> Credit(intents, txs[..n][k], v) == 0 {
        assert forall k :: 0 <= k < |txs| ==> k == n || Credit(intents, txs[..n][k], v) == 0;
      }
    }
  }

  /** The lifecycle facts a step has to keep, besides the ledger invariant. */
  ghost predicate Life(db: Db) {
    OnlySentInvoices(db) && PaidMeansZero(db) && CancelledClosed(db) && CreditsPositive(db) && CancelledUnpaid(db)
  }

  ghost predicate StepLives(db: Db, db': Db) {
    Life(db') && FollowsTable(db, db') && CancelledStays(db, db')
  }

  lemma DispatchLives(db: Db, v: nat, now: int)
    requires Life(db) && v < |db.invoices| && db.invoices[v].state == Draft
    ensures StepLives(db, SendStep(db, v, now))
  {
  }

  lemma SendLives(db: Db, v: nat, now: int)
    requires Life(db)
    ensures StepLives(db, SendStep(db, v, now))
  {
    if v < |db.invoices| && db.invoices[v].state == Draft {
      hide Life, StepLives, SendStep;
      DispatchLives(db, v, now);
    }
  }

  lemma OpenLives(db: Db, l: nat, now: int)
    requires Life(db)
    ensures StepLives(db, OpenStep(db, l, now))
  {
  }

  lemma BeginLives(db: Db, l: nat, now: int)
    requires Life(db)
    ensures StepLives(db, BeginStep(db, l, now))
  {
  }

  lemma InsertLives(db: Db, r: nat, provider: string)
    requires Life(db)
    ensures StepLives(db, InsertStep(db, r, provider))
  {
  }

  lemma ReadyClosed(db: Db, r: nat, id: string, expiresAt: int)
    requires CancelledClosed(db)
    ensures CancelledClosed(ReadyStep(db, r, id, expiresAt))
  {
    hide ProviderInvoiceUsed;
    if IsWaiting(db, r) {
      assert !IsCancelled(db, db.intents[db.requests[r].intent].invoice);
    }
  }

  lemma ReadyLives(db: Db, r: nat, id: string, expiresAt: int)
    requires Life(db)
    ensures StepLives(db, ReadyStep(db, r, id, expiresAt))
  {
    hide ProviderInvoiceUsed, Transitions, CancelledClosed;
    ReadyClosed(db, r, id, expiresAt);
  }

  lemma RefusedLives(db: Db, r: nat)
    requires Life(db)
    ensures StepLives(db, RefusedStep(db, r))
  {
  }

  lemma AbandonLives(db: Db, r: nat)
    requires Life(db)
    ensures StepLives(db, AbandonStep(db, r))
  {
  }

  lemma RetireLives(db: Db, i: nat)
    requires Life(db)
    ensures StepLives(db, RetireStep(db, i))
  {
  }

  lemma OverdueLives(db: Db, now: int)
    requires Life(db)
    ensures StepLives(db, OverdueStep(db, now))
  {
  }

  lemma RemindLives(db: Db, v: nat, seen: nat, now: int)
    requires Life(db) && Careful(db, Remind(v, seen, now))
    ensures StepLives(db, RemindStep(db, v, seen, now))
  {
  }

  lemma CancelLives(db: Db, v: nat)
    requires LifeInv(db) && Careful(db, Cancel(v))
    ensures StepLives(db, CancelStep(db, v))
  {
    if v < |db.invoices| && Cancellable(db.invoices[v]) {
      assert forall k :: 0 <= k < |db.txs| ==> Credit(db.intents, db.txs[k], v) == 0 by {
        PositiveTotal(db.intents, db.txs, v);
      }
      CancelCloses(db, v);
    }
  }

  lemma CancelCloses(db: Db, v: nat)
    requires Life(db) && Careful(db, Cancel(v))
    requires v < |db.invoices| && db.invoices[v].state != Paid
    requires forall k :: 0 <= k < |db.txs| ==> Credit(db.intents, db.txs[k], v) == 0
    ensures StepLives(db, CancelStep(db, v))
  {
    hide PaidTotal;
  }

  lemma ConfirmLives(db: Db, i: nat, p: Payment)
    requires LifeInv(db) && Careful(db, Confirm(i, p))
    ensures StepLives(db, ConfirmStep(db, i, p))
  {
    if Effective(db, i, p) {
      var v := db.intents[i].invoice;
      assert db.invoices[v].balance == 0 ==> ConfirmStep(db, i, p).invoices[v].balance == 0 by {
        var intents := ConfirmStep(db, i, p).intents;
        PaidTotalAppend(intents, db.txs, TxFor(db, i, p), v);
        PaidTotalFrame(db.intents, intents, db.txs, v);
      }
      ConfirmPays(db, i, p);
    }
  }

  lemma ConfirmPays(db: Db, i: nat, p: Payment)
    requires Life(db) && Effective(db, i, p) && TxFor(db, i, p).gross > 0
    requires forall k :: 0 <= k < |db.txs| ==> db.txs[k].intent < |db.intents|
    requires db.invoices[db.intents[i].invoice].balance == 0 ==>
      ConfirmStep(db, i, p).invoices[db.intents[i].invoice].balance == 0
    ensures StepLives(db, ConfirmStep(db, i, p))
  {
  }

  lemma RefundLives(db: Db, key: PaymentKey)
    requires LifeInv(db) && Careful(db, Refund(key))
    ensures Life(RefundStep(db, key)) && CancelledStays(db, RefundStep(db, key))
  {
    hide Balances, OneTxPerIntent, Companions, Outstanding;
    var k := FindTx(db.txs, key);
    if HasTx(db, k, key) {
      var d := RefundStep(db, key);
      assert !IsCancelled(db, db.intents[db.txs[k].intent].invoice);
    }
  }

  /** One careful step: the lifecycle facts are kept, and every move but a refund's is in the table. */
  lemma CarefulStep(db: Db, a: Action)
    requires LifeInv(db) && Careful(db, a)
    ensures LifeInv(Step(db, a))
    ensures CancelledStays(db, Step(db, a))
    ensures !a.Refund? ==> FollowsTable(db, Step(db, a))
  {
    hide Inv, OnlySentInvoices, PaidMeansZero, CancelledClosed, CreditsPositive, CancelledUnpaid, FollowsTable;
    hide CancelledStays, ConfirmStep, RefundStep, CancelStep, RemindStep, SendStep, OpenStep, BeginStep;
    hide InsertStep, ReadyStep, RefusedStep, AbandonStep, RetireStep, OverdueStep;
    StepKeeps(db, a);
    match a
    case Send(v, now) => SendLives(db, v, now);
    case OpenLink(l, now) => OpenLives(db, l, now);
    case BeginPay(l, now) => BeginLives(db, l, now);
    case InsertIntent(r, provider) => InsertLives(db, r, provider);
    case ProviderReady(r, id, expiresAt) => ReadyLives(db, r, id, expiresAt);
    case ProviderRefused(r) => RefusedLives(db, r);
    case Abandon(r) => AbandonLives(db, r);
    case Retire(i) => RetireLives(db, i);
    case Confirm(i, p) => ConfirmLives(db, i, p);
    case Refund(key) => RefundLives(db, key);
    case Cancel(v) => CancelLives(db, v);
    case MarkOverdue(now) => OverdueLives(db, now);
    case Remind(v, seen, now) => RemindLives(db, v, seen, now);
    case Create(_, _, _) => CreateLives(db, a);
    case SetReceiptModule(_) => CreateLives(db, a);
  }

  lemma CreateLives(db: Db, a: Action)
    requires Life(db) && (a.Create? || a.SetReceiptModule?)
    ensures StepLives(db, Step(db, a))
  {
  }

  lemma {:induction false} CarefulRunLives(actions: seq<Action>)
    requires CarefulRun(EMPTY, actions)
    ensures LifeInv(Run(EMPTY, actions))
  {
    hide Careful, Step, CancelledStays, FollowsTable;
    if actions != [] {
      var n := |actions| - 1;
      CarefulRunLives(actions[..n]);
      CarefulStep(Run(EMPTY, actions[..n]), actions[n]);
    }
  }

  /** `db` is a state that some careful run from empty tables ends in. */
  ghost predicate CarefullyReached(db: Db) {
    exists actions :: CarefulRun(EMPTY, actions) && Run(EMPTY, actions) == db
  }

  /**
    On every state a careful run reaches: a short link implies not DRAFT, PAID iff the balance is zero, and
    a CANCELLED invoice has no SUCCEEDED transaction.
  */
  lemma {:induction false} LifecycleOverRuns(db: Db)
    requires CarefullyReached(db)
    ensures forall l :: 0 <= l < |db.links| ==>
      db.links[l].invoice < |db.invoices| && db.invoices[db.links[l].invoice].state != Draft
    ensures forall v :: 0 <= v < |db.invoices| ==> (db.invoices[v].state == Paid <==> db.invoices[v].balance == 0)
    ensures CancelledUnpaid(db)
  {
    var actions :| CarefulRun(EMPTY, actions) && Run(EMPTY, actions) == db;
    CarefulRunLives(actions);
  }

  /** From every such state a careful step leaves CANCELLED alone and, unless it is a refund, follows the table. */
  lemma {:induction false} EdgesOverRuns(db: Db, a: Action)
    requires CarefullyReached(db) && Careful(db, a)
    ensures CarefullyReached(Step(db, a)) && CancelledStays(db, Step(db, a))
    ensures !a.Refund? ==> FollowsTable(db, Step(db, a))
  {
    hide Careful, Step, CancelledStays, FollowsTable;
    var actions :| CarefulRun(EMPTY, actions) && Run(EMPTY, actions) == db;
    CarefulRunLives(actions);
    CarefulStep(db, a);
    assert (actions + [a])[..|actions|] == actions;
    assert CarefulRun(EMPTY, actions + [a]) && Run(EMPTY, actions + [a]) == Step(db, a);
  }

  // --------------------------------------------------------- the exact guards

  /**
    When a step follows the table, for any tables with the ledger invariant: the reminder's claim must find
    the invoice SENT, VIEWED, PARTIALLY_PAID or OVERDUE; a credited payment must find it in one of those,
    or PAID with the total still covering the amount.
  */
  ghost predicate EdgeGuard(db: Db, a: Action) {
    match a
    case Remind(v, seen, _) =>
      ReminderClaims(db, v, seen) ==> db.invoices[v].state in {Sent, Viewed, PartiallyPaid, Overdue}
    case Confirm(i, p) =>
      Effective(db, i, p) ==>
        var v := db.intents[i].invoice;
        || db.invoices[v].state in {Sent, Viewed, PartiallyPaid, Overdue}
        || (db.invoices[v].state == Paid &&
            PaidTotal(db.intents, db.txs, v) + TxFor(db, i, p).gross >= db.invoices[v].amount)
    case _ => true
  }

  lemma ConfirmEdge(db: Db, i: nat, p: Payment)
    requires Inv(db)
    ensures FollowsTable(db, ConfirmStep(db, i, p)) <==> EdgeGuard(db, Confirm(i, p))
  {
    if Effective(db, i, p) {
      var v := db.intents[i].invoice;
      var d := ConfirmStep(db, i, p);
      PaidTotalAppend(d.intents, db.txs, TxFor(db, i, p), v);
      PaidTotalFrame(db.intents, d.intents, db.txs, v);
      assert forall u :: 0 <= u < |db.invoices| && u != v ==> d.invoices[u] == db.invoices[u];
      assert FollowsTable(db, d) <==> EdgeOrLoop(db.invoices[v].state, d.invoices[v].state);
    }
  }

  lemma RemindEdge(db: Db, v: nat, seen: nat, now: int)
    ensures FollowsTable(db, RemindStep(db, v, seen, now)) <==> EdgeGuard(db, Remind(v, seen, now))
  {
    if ReminderClaims(db, v, seen) {
      var d := RemindStep(db, v, seen, now);
      assert forall u :: 0 <= u < |db.invoices| && u != v ==> d.invoices[u] == db.invoices[u];
      assert FollowsTable(db, d) <==> EdgeOrLoop(db.invoices[v].state, Overdue);
    }
  }

  /** Which step leaves the table: exactly the ones whose guard fails, in every reachable state. */
  lemma {:induction false} EdgesExactly(db: Db, a: Action)
    requires Inv(db) && !a.Refund?
    ensures FollowsTable(db, Step(db, a)) <==> EdgeGuard(db, a)
  {
    hide Inv, ConfirmStep, RemindStep;
    match a
    case Confirm(i, p) => ConfirmEdge(db, i, p);
    case Remind(v, seen, now) => RemindEdge(db, v, seen, now);
    case _ =>
  }

  /**
    When a step leaves every cancelled invoice cancelled: a credited payment, a refund of a known payment and
    a reminder's claim must each find their invoice in another state.
  */
  ghost predicate CancelGuard(db: Db, a: Action) {
    match a
    case Confirm(i, p) => Effective(db, i, p) ==> !IsCancelled(db, db.intents[i].invoice)
    case Refund(key) =>
      var k := FindTx(db.txs, key);
      HasTx(db, k, key) ==> !IsCancelled(db, db.intents[db.txs[k].intent].invoice)
    case Remind(v, seen, _) => ReminderClaims(db, v, seen) ==> !IsCancelled(db, v)
    case _ => true
  }

  lemma RefundCancels(db: Db, key: PaymentKey)
    ensures CancelledStays(db, RefundStep(db, key)) <==> CancelGuard(db, Refund(key))
  {
    hide PaidTotal, FindTx;
    var k := FindTx(db.txs, key);
    if HasTx(db, k, key) {
      var d, v := RefundStep(db, key), db.intents[db.txs[k].intent].invoice;
      assert forall u :: 0 <= u < |db.invoices| && u != v ==> d.invoices[u] == db.invoices[u];
      assert !IsCancelled(d, v);
    }
  }

  lemma ConfirmCancels(db: Db, i: nat, p: Payment)
    ensures CancelledStays(db, ConfirmStep(db, i, p)) <==> CancelGuard(db, Confirm(i, p))
  {
    hide PaidTotal, KeyUsed;
    if Effective(db, i, p) {
      var d, v := ConfirmStep(db, i, p), db.intents[i].invoice;
      assert forall u :: 0 <= u < |db.invoices| && u != v ==> d.invoices[u] == db.invoices[u];
      assert !IsCancelled(d, v);
    }
  }

  lemma RemindCancels(db: Db, v: nat, seen: nat, now: int)
    ensures CancelledStays(db, RemindStep(db, v, seen, now)) <==> CancelGuard(db, Remind(v, seen, now))
  {
    if ReminderClaims(db, v, seen) {
      var d := RemindStep(db, v, seen, now);
      assert forall u :: 0 <= u < |db.invoices| && u != v ==> d.invoices[u] == db.invoices[u];
      assert !IsCancelled(d, v);
    }
  }

  /** CANCELLED is final in a step, of whatever kind and from whatever tables, if and only if its guard holds. */
  lemma {:induction false} CancelledExactly(db: Db, a: Action)
    ensures CancelledStays(db, Step(db, a)) <==> CancelGuard(db, a)
  {
    hide ConfirmStep, RefundStep, RemindStep, CancelGuard;
    match a
    case Confirm(i, p) => ConfirmCancels(db, i, p);
    case Refund(key) => RefundCancels(db, key);
    case Remind(v, seen, now) => RemindCancels(db, v, seen, now);
    case _ => OthersKeepCancelled(db, a);
  }

  lemma OthersKeepCancelled(db: Db, a: Action)
    requires !a.Confirm? && !a.Refund? && !a.Remind?
    ensures CancelledStays(db, Step(db, a)) && CancelGuard(db, a)
  {
  }

  /** When a step keeps PAID equivalent to a zero balance: only a reminder that claims a paid invoice breaks it. */
  ghost predicate PaidGuard(db: Db, a: Action) {
    match a
    case Remind(v, seen, _) => ReminderClaims(db, v, seen) ==> db.invoices[v].state != Paid
    case _ => true
  }

  lemma LedgerKeepsPaid(db: Db, a: Action)
    requires PaidMeansZero(db) && (a.Confirm? || a.Refund?)
    ensures PaidMeansZero(Step(db, a))
  {
    hide PaidTotal, FindTx, KeyUsed, Balance;
  }

  lemma {:induction false} PaidExactly(db: Db, a: Action)
    requires PaidMeansZero(db) && forall v :: 0 <= v < |db.invoices| ==> db.invoices[v].amount >= 1
    ensures PaidMeansZero(Step(db, a)) <==> PaidGuard(db, a)
  {
    if a.Confirm? || a.Refund? {
      hide PaidMeansZero, Step;
      LedgerKeepsPaid(db, a);
    } else if a.Remind? && ReminderClaims(db, a.invoice, a.seen) {
      var d := Step(db, a);
      assert forall u :: 0 <= u < |db.invoices| && u != a.invoice ==> d.invoices[u] == db.invoices[u];
      assert d.invoices[a.invoice].state == Overdue;
    }
  }

  // --------------------------------------------- what needs only positive payments

  ghost predicate PositiveGross(db: Db, a: Action) {
    a.Confirm? && Effective(db, a.intent, a.payment) ==> TxFor(db, a.intent, a.payment).gross > 0
  }

  ghost predicate PositiveRun(db: Db, actions: seq<Action>) {
    actions == [] ||
    (var n := |actions| - 1; PositiveRun(db, actions[..n]) && PositiveGross(Run(db, actions[..n]), actions[n]))
  }

  ghost predicate Unpaid(db: Db) {
    CreditsPositive(db) && CancelledUnpaid(db)
  }

  lemma CancelUnpaid(db: Db, v: nat)
    requires Inv(db) && Unpaid(db)
    ensures Unpaid(CancelStep(db, v))
  {
    if v < |db.invoices| && Cancellable(db.invoices[v]) {
      assert forall k :: 0 <= k < |db.txs| ==> Credit(db.intents, db.txs[k], v) == 0 by {
        PositiveTotal(db.intents, db.txs, v);
      }
    }
  }

  lemma LedgerUnpaid(db: Db, a: Action)
    requires OneTxPerIntent(db) && Unpaid(db) && PositiveGross(db, a) && (a.Confirm? || a.Refund?)
    ensures Unpaid(Step(db, a))
  {
    hide PaidTotal, Balance, FindTx, KeyUsed;
  }

  lemma OthersUnpaid(db: Db, a: Action)
    requires References(db) && Unpaid(db) && !a.Confirm? && !a.Refund? && !a.Cancel?
    requires forall k :: 0 <= k < |db.txs| ==> db.txs[k].intent < |db.intents|
    ensures Unpaid(Step(db, a))
  {
    hide ProviderInvoiceUsed;
  }

  lemma UnpaidStep(db: Db, a: Action)
    requires Inv(db) && Unpaid(db) && PositiveGross(db, a)
    ensures Unpaid(Step(db, a))
  {
    hide CancelStep, ConfirmStep, RefundStep, Unpaid, PositiveGross, Balances, KeysDistinct, Companions, Outstanding;
    match a
    case Confirm(_, _) => LedgerUnpaid(db, a);
    case Refund(_) => LedgerUnpaid(db, a);
    case Cancel(v) => CancelUnpaid(db, v);
    case _ => OthersUnpaid(db, a);
  }

  /** With positive payments alone, in every interleaving, a CANCELLED invoice has no SUCCEEDED transaction. */
  lemma {:induction false} CancelledUnpaidOverRuns(actions: seq<Action>)
    requires PositiveRun(EMPTY, actions)
    ensures CreditsPositive(Run(EMPTY, actions)) && CancelledUnpaid(Run(EMPTY, actions))
  {
    if actions == [] {
      assert Run(EMPTY, actions) == EMPTY;
    } else {
      hide Step, Inv, CreditsPositive, CancelledUnpaid, PositiveGross;
      var n := |actions| - 1;
      CancelledUnpaidOverRuns(actions[..n]);
      RunKeeps(EMPTY, actions[..n]);
      UnpaidStep(Run(EMPTY, actions[..n]), actions[n]);
    }
  }

  /** The answer a request is waiting for, which sets its intent's state whatever that has become. */
  predicate AnswersFor(db: Db, a: Action, i: nat) {
    match a
    case ProviderReady(r, id, _) =>
      IsWaiting(db, r) && db.requests[r].intent == i && !ProviderInvoiceUsed(db, db.intents[i].provider, id)
    case ProviderRefused(r) => IsWaiting(db, r) && db.requests[r].intent == i
    case _ => false
  }

  /** An intent that a cancel has closed stays closed in a step if and only if the step is not that answer. */
  lemma WithdrawnExactly(db: Db, a: Action, i: nat)
    requires i < |db.intents| && db.intents[i].state == IntentCancelled
    ensures Step(db, a).intents[i].state == IntentCancelled <==> !AnswersFor(db, a, i)
  {
    hide ProviderInvoiceUsed, KeyUsed, PaidTotal, FindTx;
  }

  // ------------------------------------------------------------- witness runs

  const PAYMENT: Payment := Payment("pay-1", None, None)
  const KEY: PaymentKey := PaymentKey("qpay", "pay-1")
  const TX: Tx := Tx(0, KEY, 100, 0, 100, Credited)

  /** `db`'s only request has got its intent from the provider. */
  ghost function WithOpenIntent(db: Db): Db {
    db.(intents := [OPENED], requests := [Finished])
  }

  /** The request of `db` goes on to an open intent. */
  lemma ReachOpen(db: Db)
    requires Reachable(db) && db.intents == [] && db.requests == [Reading(0, 100)]
    ensures Reachable(WithOpenIntent(db))
  {
    var d := db.(intents := [CREATED], requests := [Waiting(0)]);
    assert db.intents + [CREATED] == [CREATED] && db.requests[0 := Waiting(0)] == [Waiting(0)];
    ReachStep(db, InsertIntent(0, "qpay"), d);
    assert d.intents[0 := OPENED] == [OPENED] && d.requests[0 := Finished] == [Finished];
    ReachStep(d, ProviderReady(0, "inv-1", 9), WithOpenIntent(db));
  }

  /** The payment of the open intent pays the invoice in full, whatever state it was in. */
  lemma PayOpen(db: Db)
    requires db.invoices == [ROW] || db.invoices == [ROW.(state := Cancelled)]
    requires db.intents == [OPENED] && db.txs == []
    ensures var d := ConfirmStep(db, 0, PAYMENT);
      && d.invoices == [ROW.(balance := 0, state := Paid)] && d.txs == [TX]
      && d.intents == [OPENED.(state := Succeeded)]
  {
    assert Effective(db, 0, PAYMENT) && TxFor(db, 0, PAYMENT) == TX;
    assert db.txs + [TX] == [TX] && [TX][..0] == [];
    var intents := [OPENED.(state := Succeeded)];
    assert PaidTotal(intents, [TX], 0) == PaidTotal(intents, [], 0) + Credit(intents, TX, 0) == 100;
    assert db.intents[0 := OPENED.(state := Succeeded)] == intents;
    assert ConfirmStep(db, 0, PAYMENT).invoices[0] == ROW.(balance := 0, state := Paid);
  }

  /** The invoice paid in full. */
  ghost function PaidDb(): Db {
    ConfirmStep(WithOpenIntent(READING), 0, PAYMENT)
  }

  lemma ReachPaid()
    ensures Reachable(PaidDb())
  {
    ReachReading();
    ReachOpen(READING);
    ReachStep(WithOpenIntent(READING), Confirm(0, PAYMENT), PaidDb());
  }

  /** A reminder that listed the invoice before it was paid marks the paid invoice OVERDUE. */
  lemma ReminderOverridesPaid()
    ensures exists db: Db ::
      && Reachable(db)
      && |db.invoices| == 1 && db.invoices[0].state == Paid
      && RemindStep(db, 0, 0, 0).invoices[0].state == Overdue && RemindStep(db, 0, 0, 0).invoices[0].balance == 0
  {
    ReachPaid();
    PayOpen(WithOpenIntent(READING));
    assert ReminderClaims(PaidDb(), 0, 0);
  }

  /** A cancel that commits while a payer's request is under way is undone by that request's payment. */
  lemma CancelDuringRequest()
    ensures exists db, db' ::
      && Reachable(db) && Reachable(db')
      && db.requests == [Reading(0, 100)] && |db.invoices| == 1 && db.invoices[0].state == Cancelled
      && db' == ConfirmStep(WithOpenIntent(db), 0, PAYMENT)
      && |db'.invoices| == 1 && db'.invoices[0].state == Paid
  {
    ReachReading();
    var db := READING.(invoices := [ROW.(state := Cancelled)], links := [LINK.(revoked := true)]);
    ReachStep(READING, Cancel(0), db);
    ReachOpen(db);
    PayOpen(WithOpenIntent(db));
    ReachStep(WithOpenIntent(db), Confirm(0, PAYMENT), ConfirmStep(WithOpenIntent(db), 0, PAYMENT));
  }

  const REFUNDED: Tx := TX.(status := Refunded)

  lemma RefundTwice(db: Db)
    requires |db.invoices| == 1 && db.invoices[0].amount > 0 && db.intents == [OPENED.(state := Succeeded)]
    requires db.txs == [TX] || db.txs == [REFUNDED]
    ensures var d := RefundStep(db, KEY); var row := db.invoices[0];
      && d.txs == [REFUNDED] && d.intents == db.intents
      && d.invoices == [row.(balance := row.amount, state := Sent)]
  {
    assert MarkRefunded(db.txs, KEY) == [REFUNDED];
    assert [REFUNDED][..0] == [];
    assert PaidTotal(db.intents, [REFUNDED], 0) == 0;
    assert KeyUsed(db.txs, KEY) by { assert db.txs[0].key == KEY; }
    assert HasTx(db, FindTx(db.txs, KEY), KEY);
  }

  /** A second refund of the same row, checked before the first one committed, revives a cancelled invoice. */
  lemma {:induction false} StaleRefundRevives()
    ensures exists db: Db, key: PaymentKey ::
      && Reachable(db)
      && |db.invoices| == 1 && db.invoices[0].state == Cancelled && KeyUsed(db.txs, key)
      && |RefundStep(db, key).invoices| == 1 && RefundStep(db, key).invoices[0].state == Sent
  {
    hide RefundStep, ConfirmStep, PaidTotal;
    ReachPaid();
    PayOpen(WithOpenIntent(READING));
    var refunded := RefundStep(PaidDb(), KEY);
    ReachStep(PaidDb(), Refund(KEY), refunded);
    RefundTwice(PaidDb());
    var db := CancelStep(refunded, 0);
    ReachStep(refunded, Cancel(0), db);
    assert db.invoices == [ROW.(state := Cancelled)] && db.txs == [REFUNDED];
    assert db.intents == [OPENED.(state := Succeeded)];
    assert db.txs[0].key == KEY;
    RefundTwice(db);
  }
}
