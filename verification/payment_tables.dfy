/** The services that write the tables, statement by statement, each proved against its ledger step. */
module PaymentTables {
  import opened Options
  import opened Ledger
  import opened LedgerInvariant
  import opened Collection

  datatype Outcome = NotFound | NotAllowed | Unpaid | Duplicate | Done | ProviderError

  /** What a Bonum webhook says about its payment, once its type is PAYMENT. */
  datatype Webhook = PaidHook(payment: Payment) | ExpiredHook | OtherHook

  /** Only a verified webhook is believed; any other one just triggers a check with the provider. */
  function BonumStep(db: Db, i: nat, verified: bool, hook: Webhook, checked: Option<Payment>): Db {
    if verified && hook.PaidHook? then ConfirmStep(db, i, hook.payment)
    else if verified && hook.ExpiredHook? then RetireStep(db, i)
    else if checked.Some? then ConfirmStep(db, i, checked.value)
    else db
  }

  /** A webhook whose checksum fails is only a trigger: whatever it says, the provider's own answer decides. */
  lemma UnverifiedIsATrigger(db: Db, i: nat, hook: Webhook, other: Webhook, checked: Option<Payment>)
    ensures BonumStep(db, i, false, hook, checked) == BonumStep(db, i, false, other, checked)
    ensures checked.None? ==> BonumStep(db, i, false, hook, checked) == db
  {
  }

  /** The payment a callback may credit: a verified webhook's own, otherwise the provider's answer. */
  function Believed(verified: bool, hook: Webhook, checked: Option<Payment>): Option<Payment> {
    match hook
    case PaidHook(payment) => if verified then Some(payment) else checked
    case ExpiredHook => if verified then None else checked
    case OtherHook => checked
  }

  /** A callback adds a transaction exactly when the believed payment is effective, and then that payment's. */
  lemma BonumCreditsExactly(db: Db, i: nat, verified: bool, hook: Webhook, checked: Option<Payment>)
    ensures var d := BonumStep(db, i, verified, hook, checked);
      var p := Believed(verified, hook, checked);
      && (d.txs != db.txs <==> p.Some? && Effective(db, i, p.value))
      && (d.txs != db.txs ==> d.txs == db.txs + [TxFor(db, i, p.value)])
  {
    hide PaidTotal;
    var p := Believed(verified, hook, checked);
    if p.Some? && Effective(db, i, p.value) {
      assert |BonumStep(db, i, verified, hook, checked).txs| == |db.txs| + 1;
    }
  }

  /** Whatever a callback carries, it is one ledger step or none, so the ledger invariant is kept. */
  lemma BonumKeeps(db: Db, i: nat, verified: bool, hook: Webhook, checked: Option<Payment>)
    requires Inv(db)
    ensures Inv(BonumStep(db, i, verified, hook, checked))
    ensures var d := BonumStep(db, i, verified, hook, checked); d == db || exists a :: d == Step(db, a)
  {
    hide Inv, ConfirmStep, RetireStep;
    var p := Believed(verified, hook, checked);
    if p.Some? {
      assert BonumStep(db, i, verified, hook, checked) == Step(db, Confirm(i, p.value));
      StepKeeps(db, Confirm(i, p.value));
    } else if verified && hook.ExpiredHook? {
      assert BonumStep(db, i, verified, hook, checked) == Step(db, Retire(i));
      StepKeeps(db, Retire(i));
    }
  }

  /** `t` is the later of two times. */
  ghost predicate IsLater(t: int, x: int, y: int) {
    t >= x && t >= y && (t == x || t == y)
  }

  /** The link's invoice is not closed for payment. */
  ghost predicate Payable(db: Db, link: nat) {
    && link < |db.links| && db.links[link].invoice < |db.invoices|
    && db.invoices[db.links[link].invoice].state !in {Paid, Cancelled, Expired}
  }

  /** Row `e` is the newest open intent of the invoice with the provider. */
  ghost predicate NewestOpen(intents: seq<Intent>, e: nat, v: nat, provider: string) {
    && e < |intents|
    && intents[e].invoice == v && intents[e].provider == provider && intents[e].state in {Pending, Processing}
    && forall i :: e < i < |intents| && intents[i].invoice == v && intents[i].provider == provider ==>
         intents[i].state !in {Pending, Processing}
  }

  lemma LatestIsNewest(intents: seq<Intent>, v: nat, provider: string, e: nat)
    ensures NewestOpen(intents, e, v, provider) <==> e < |intents| && e == Latest(intents, v, provider)
  {
  }

  /**
    A payer's request on an open invoice: a live newest intent is reused; a stale one the provider says is paid
    is confirmed; any other stale one is expired and one new row for the balance is added.
  */
  lemma RequestEffects(db: Db, link: nat, now: int, provider: string, stale: Option<Payment>, answer: Option<Hosted>)
    requires LinkValid(db, link, now)
    ensures !Payable(db, link) ==> PayStep(db, link, now, provider, stale, answer) == db
    ensures Payable(db, link) ==>
      var e, v := Latest(db.intents, db.links[link].invoice, provider), db.links[link].invoice;
      var d, open := PayStep(db, link, now, provider, stale, answer), e < |db.intents|;
      var reusable :=
        open && db.intents[e].state == Pending && db.intents[e].expiresAt.Some? && db.intents[e].expiresAt.value > now;
      var paid := open && !reusable && db.intents[e].providerInvoice.Some? && stale.Some?;
      && (reusable ==> d == db)
      && (paid ==> d == ConfirmStep(db, e, stale.value))
      && (!reusable && !paid ==>
            && d == db.(intents := d.intents, requests := d.requests)
            && |d.intents| == |db.intents| + 1
            && (forall i :: 0 <= i < |db.intents| ==>
                  d.intents[i] == if i == e then db.intents[i].(state := IntentExpired) else db.intents[i])
            && d.intents[|db.intents|].invoice == v && d.intents[|db.intents|].amount == db.invoices[v].balance)
  {
    hide CutStep, ConfirmStep;
    var e := Latest(db.intents, db.links[link].invoice, provider);
    if Payable(db, link) {
      CutTables(db, link, now, e, provider, answer);
      var d := CutStep(db, link, now, e, provider, answer);
      assert forall i :: 0 <= i < |db.intents| ==> d.intents[i] == d.intents[..|db.intents|][i];
    }
  }

  class Store {
    var invoices: seq<Invoice>
    var links: seq<Link>
    var intents: seq<Intent>
    var txs: seq<Tx>
    var receipts: seq<Receipt>
    var usage: seq<PaymentKey>
    var receiptModule: bool
    ghost var requests: seq<Request>

    ghost function Tables(): Db
      reads this
    {
      Db(invoices, links, intents, txs, receipts, usage, requests, receiptModule)
    }

    constructor ()
      ensures Tables() == EMPTY
    {
      invoices, links, intents := [], [], [];
      txs, receipts, usage := [], [], [];
      receiptModule, requests := false, [];
    }

    /** `createInvoiceRow`: the amount has passed the DTO's lower bound. */
    method CreateInvoice(amount: int, dueDate: Option<int>, receiptOptIn: bool) returns (v: nat)
      requires amount >= 1
      modifies this
      ensures Tables() == Step(old(Tables()), Create(amount, dueDate, receiptOptIn)) && v == |old(invoices)|
      ensures invoices[..v] == old(invoices) && |invoices| == v + 1
      ensures var row := invoices[v]; row.amount == row.balance == amount && row.state == Draft && row.reminders == 0
      ensures invoices[v].dueDate == dueDate && invoices[v].receiptOptIn == receiptOptIn
    {
      v := |invoices|;
      invoices := invoices + [Invoice(amount, amount, Draft, dueDate, 0, receiptOptIn)];
    }

    /** DRAFT is dispatched; a sent invoice gets a fresh link without a state change. */
    method SendInvoice(v: nat, now: int) returns (r: Outcome)
      modifies this
      ensures Tables() == SendStep(old(Tables()), v, now)
      ensures r == Done <==> |links| == |old(links)| + 1
      ensures r == NotFound <==> v >= |old(invoices)|
      ensures r in {Done, NotFound, NotAllowed}
      ensures r == Done <==>
        v < |old(invoices)| && old(invoices)[v].state in {Draft, Sent, Viewed, Overdue, PartiallyPaid}
      ensures r != Done ==> Tables() == old(Tables())
      ensures r == Done ==>
        && links[..|old(links)|] == old(links)
        && links[|old(links)|].invoice == v && !links[|old(links)|].revoked
      ensures r == Done && old(invoices)[v].state != Draft ==>
        invoices == old(invoices) && links[|old(links)|].expiresAt == now + 60 * 86_400_000
      ensures r == Done && old(invoices)[v].state == Draft ==>
        && invoices == old(invoices)[v := old(invoices)[v].(state := Sent)]
        && IsLater(links[|old(links)|].expiresAt, now + 60 * 86_400_000, invoices[v].dueDate.GetOr(0) + 30 * 86_400_000)
    {
      if v >= |invoices| { return NotFound; }
      var row := invoices[v];
      if row.state == Draft {
        var expiry, due := now + 60 * DAY, row.dueDate.GetOr(0) + 30 * DAY;
        if expiry < due { expiry := due; }
        links := links + [Link(v, expiry, false)];
        invoices := invoices[v := row.(state := Sent)];
        return Done;
      }
      if row.state in {Sent, Viewed, Overdue, PartiallyPaid} {
        links := links + [Link(v, now + 60 * DAY, false)];
        return Done;
      }
      return NotAllowed;
    }

    /** A merchant cancels: refused once anything is paid, and it closes links and open intents. */
    method CancelInvoice(v: nat) returns (r: Outcome)
      modifies this
      ensures Tables() == CancelStep(old(Tables()), v)
      ensures r == Done <==>
        && v < |old(invoices)| && old(invoices)[v].balance == old(invoices)[v].amount
        && old(invoices)[v].state in {Draft, Sent, Viewed, Overdue}
      ensures r == NotFound <==> v >= |old(invoices)|
      ensures r in {Done, NotFound, NotAllowed}
      ensures r != Done ==> Tables() == old(Tables())
      ensures r == Done ==>
        && invoices == old(invoices)[v := old(invoices)[v].(state := Cancelled)]
        && Tables() == old(Tables()).(invoices := invoices, links := links, intents := intents)
        && |links| == |old(links)| && |intents| == |old(intents)|
      ensures r == Done ==> forall l :: 0 <= l < |links| ==>
        links[l] == if old(links)[l].invoice == v then old(links)[l].(revoked := true) else old(links)[l]
      ensures r == Done ==> forall i :: 0 <= i < |intents| ==>
        var it := old(intents)[i];
        intents[i] == if it.invoice == v && it.state in {Created, Pending, Processing}
                      then it.(state := IntentCancelled) else it
    {
      if v >= |invoices| { return NotFound; }
      var row := invoices[v];
      if row.balance != row.amount { return NotAllowed; }
      if !CanTransition(row.state, Cancelled) { return NotAllowed; }
      invoices := invoices[v := row.(state := Cancelled)];
      var ls, its := links, intents;
      links := seq(|ls|, l requires 0 <= l < |ls| => Revoke(ls[l], v));
      intents := seq(|its|, i requires 0 <= i < |its| => Withdraw(its[i], v));
      assert links == CancelStep(old(Tables()), v).links && intents == CancelStep(old(Tables()), v).intents;
      return Done;
    }

    /** The confirm transaction on a confirmable intent; a unique-key violation rolls all of it back. */
    method CommitPayment(i: nat, p: Payment) returns (duplicate: bool)
      requires Confirmable(Tables(), i)
      modifies this
      ensures Tables() == ConfirmStep(old(Tables()), i, p)
      ensures duplicate == KeyUsed(old(txs), KeyOf(old(Tables()), i, p))
    {
      var it, rollback := intents[i], intents;
      intents := intents[i := it.(state := Succeeded)];
      var key := PaymentKey(it.provider, p.paymentId);
      if KeyUsed(txs, key) {
        intents := rollback;
        return true;
      }
      var gross, fee := p.gross.GetOr(it.amount), p.fee.GetOr(0);
      txs := txs + [Tx(i, key, gross, fee, gross - fee, Credited)];
      var invoice := invoices[it.invoice];
      var balance := Balance(invoice.amount, PaidTotal(intents, txs, it.invoice));
      var state := if balance == 0 then Paid else PartiallyPaid;
      invoices := invoices[it.invoice := invoice.(balance := balance, state := state)];
      usage := usage + [key];
      receipts := receipts + [Receipt(key, receiptModule && invoice.receiptOptIn)];
      return false;
    }

    /**
      `confirmIntent`, given what the provider (or a checksum-verified webhook) says. `Done` and `Duplicate`
      both reach the caller as SUCCEEDED, so the result alone does not say that money was credited.
    */
    method ConfirmIntent(i: nat, status: Option<Payment>) returns (r: Outcome)
      requires References(Tables())
      modifies this
      ensures Tables() == if status.None? then old(Tables()) else ConfirmStep(old(Tables()), i, status.value)
      ensures r == NotFound <==> i >= |old(intents)|
      ensures r == Done <==> status.Some? && Effective(old(Tables()), i, status.value)
      ensures r == Unpaid <==> Confirmable(old(Tables()), i) && status.None?
      ensures r == NotAllowed <==>
        i < |old(intents)| && old(intents)[i].state != Succeeded && !Confirmable(old(Tables()), i)
      ensures r == Duplicate <==>
        && i < |old(intents)|
        && (old(intents)[i].state == Succeeded ||
            (Confirmable(old(Tables()), i) && status.Some? && KeyUsed(old(txs), KeyOf(old(Tables()), i, status.value))))
      ensures r != ProviderError
    {
      if i >= |intents| { return NotFound; }
      var it := intents[i];
      if it.state == Succeeded { return Duplicate; }
      if it.providerInvoice.None? || it.state !in {Pending, Processing} { return NotAllowed; }
      if status.None? { return Unpaid; }
      hide ConfirmStep;
      var duplicate := CommitPayment(i, status.value);
      return if duplicate then Duplicate else Done;
    }

    /** `resolveToken`: the first opening of a sent invoice's link flips it to VIEWED and nothing else. */
    method ResolveToken(l: nat, now: int) returns (found: bool)
      requires References(Tables())
      modifies this
      ensures Tables() == OpenStep(old(Tables()), l, now)
      ensures found <==> l < |old(links)| && !old(links)[l].revoked && old(links)[l].expiresAt >= now
      ensures Tables() == old(Tables()).(invoices := invoices) && |invoices| == |old(invoices)|
      ensures forall v :: 0 <= v < |invoices| ==>
        var row := old(invoices)[v];
        invoices[v] == if found && v == old(links)[l].invoice && row.state == Sent then row.(state := Viewed) else row
    {
      if l >= |links| || links[l].revoked || links[l].expiresAt < now { return false; }
      var v := links[l].invoice;
      if invoices[v].state == Sent { invoices := invoices[v := invoices[v].(state := Viewed)]; }
      return true;
    }

    /** `handleBonumCallback` for a PAYMENT webhook of intent `i`; `checked` is the provider's own answer. */
    method HandleBonumCallback(i: nat, verified: bool, hook: Webhook, checked: Option<Payment>)
      requires References(Tables())
      modifies this
      ensures Tables() == BonumStep(old(Tables()), i, verified, hook, checked)
      ensures verified && hook.ExpiredHook? && i < |old(intents)| ==>
        && Tables() == old(Tables()).(intents := intents)
        && intents == old(intents)[i := if old(intents)[i].state in {Pending, Processing}
                                        then old(intents)[i].(state := IntentExpired) else old(intents)[i]]
    {
      if i >= |intents| { return; }
      hide ConfirmStep;
      if verified && hook.PaidHook? {
        var _ := ConfirmIntent(i, Some(hook.payment));
      } else if verified && hook.ExpiredHook? {
        if intents[i].state in {Pending, Processing} {
          intents := intents[i := intents[i].(state := IntentExpired)];
        }
      } else {
        var _ := ConfirmIntent(i, checked);
      }
    }

    /** The admin refund: provider first, then the ledger and the invoice together. */
    method RefundPayment(key: PaymentKey, providerRefunds: bool) returns (r: Outcome)
      requires References(Tables()) && OneTxPerIntent(Tables())
      modifies this
      ensures r == Done <==>
        providerRefunds && KeyUsed(old(txs), key) && old(txs)[FindTx(old(txs), key)].status == Credited
      ensures r == NotFound <==> !KeyUsed(old(txs), key)
      ensures r == NotAllowed <==> KeyUsed(old(txs), key) && old(txs)[FindTx(old(txs), key)].status != Credited
      ensures r in {Done, NotFound, NotAllowed, ProviderError}
      ensures Tables() == if r == Done then RefundStep(old(Tables()), key) else old(Tables())
    {
      var k := FindTx(txs, key);
      if k == |txs| { return NotFound; }
      if txs[k].status != Credited { return NotAllowed; }
      if !providerRefunds { return ProviderError; }
      txs := MarkRefunded(txs, key);
      var v := intents[txs[k].intent].invoice;
      var invoice := invoices[v];
      var paidTotal := PaidTotal(intents, txs, v);
      var balance := Balance(invoice.amount, paidTotal);
      var state := if balance == 0 then Paid else if paidTotal > 0 then PartiallyPaid else Sent;
      invoices := invoices[v := invoice.(balance := balance, state := state)];
      return Done;
    }

    /**
      `createIntentForToken` with nobody interfering: reuse a live intent, re-verify and retire a stale one,
      then cut a new one for the balance.
    */
    method CreateIntentForToken(link: nat, now: int, provider: string, stale: Option<Payment>, answer: Option<Hosted>)
      returns (r: Outcome, intent: Option<nat>)
      requires References(Tables())
      modifies this
      ensures Tables() == PayStep(old(Tables()), link, now, provider, stale, answer)
      ensures r == NotFound <==> !LinkValid(old(Tables()), link, now)
      ensures r in {Done, NotFound, NotAllowed, ProviderError} && (r == Done <==> intent.Some?)
      ensures r != NotFound && !Payable(old(Tables()), link) ==> r == NotAllowed
      ensures r == Done && intent.value >= |old(intents)| ==>
        && intent.value == |old(intents)| && LinkValid(old(Tables()), link, now)
        && var v := old(links)[link].invoice;
        && |intents| == |old(intents)| + 1 && answer.Some?
        && intents[intent.value] == Intent(v, old(invoices)[v].balance, provider, Some(answer.value.id), Pending,
                                           Some(answer.value.expiresAt))
      ensures r != NotFound && Payable(old(Tables()), link) ==>
        && var e := Latest(old(intents), old(links)[link].invoice, provider);
        && var open, old' := e < |old(intents)|, old(intents);
        && var reusable := open && old'[e].state == Pending && old'[e].expiresAt.Some? && old'[e].expiresAt.value > now;
        && var paid := open && !reusable && old'[e].providerInvoice.Some? && stale.Some?;
        && (reusable <==> r == Done && intent.value < |old'|) && (reusable ==> intent.value == e)
        && (paid <==> r == NotAllowed)
    {
      intent := None;
      if link >= |links| || links[link].revoked || links[link].expiresAt < now { return NotFound, None; }
      var v := links[link].invoice;
      var invoice := invoices[v];
      if invoice.state in {Paid, Cancelled, Expired} { return NotAllowed, None; }

      hide Answered, InsertStep, ConfirmStep, KeyUsed, ProviderInvoiceUsed, FindTx;
      var e := Latest(intents, v, provider);
      if e < |intents| {
        var existing := intents[e];
        if existing.state == Pending && existing.expiresAt.Some? && existing.expiresAt.value > now {
          return Done, Some(e);
        }
        if existing.providerInvoice.Some? {
          var confirmed := ConfirmIntent(e, stale);
          if confirmed in {Done, Duplicate} { return NotAllowed, None; }
        }
        if intents[e].state in {Pending, Processing} {
          intents := intents[e := intents[e].(state := IntentExpired)];
        }
      }

      assert RetireStep(BeginStep(old(Tables()), link, now), e) ==
             Tables().(requests := requests + [Reading(v, invoice.balance)]);
      r, intent := CutIntent(v, invoice.balance, provider, answer);
    }

    /** The row first, so that the provider's callback can carry its id; then the provider's answer. */
    method CutIntent(v: nat, balance: int, provider: string, answer: Option<Hosted>)
      returns (r: Outcome, intent: Option<nat>)
      modifies this
      ensures var db := old(Tables()); var n := |db.requests|;
        Tables() == Answered(InsertStep(db.(requests := db.requests + [Reading(v, balance)]), n, provider), n, answer)
      ensures r in {Done, ProviderError} && (r == Done <==> intent.Some?)
      ensures |intents| == |old(intents)| + 1 && intents[..|old(intents)|] == old(intents)
      ensures r == Done <==> answer.Some? && !ProviderInvoiceUsed(old(Tables()), provider, answer.value.id)
      ensures r == Done ==>
        && intent == Some(|old(intents)|)
        && intents[|old(intents)|] == Intent(v, balance, provider, Some(answer.value.id), Pending,
                                             Some(answer.value.expiresAt))
      ensures answer.None? ==>
        intents[|old(intents)|] == Intent(v, balance, provider, None, Failed, None)
    {
      var n := |intents|;
      intents := intents + [Intent(v, balance, provider, None, Created, None)];
      ghost var begun := old(Tables()).(requests := requests + [Reading(v, balance)]);
      ghost var cut := InsertStep(begun, |requests|, provider);
      requests := requests + [Finished];
      assert cut == Tables().(requests := old(requests) + [Waiting(n)]);
      if answer.None? {
        intents := intents[n := intents[n].(state := Failed)];
        return ProviderError, None;
      }
      var hosted := answer.value;
      if exists i :: 0 <= i < |intents| && intents[i].provider == provider
          && intents[i].providerInvoice == Some(hosted.id) {
        assert ProviderInvoiceUsed(cut, provider, hosted.id);
        return ProviderError, None;
      }
      intents := intents[n := intents[n].(providerInvoice := Some(hosted.id),
                                          expiresAt := Some(hosted.expiresAt), state := Pending)];
      return Done, Some(n);
    }

    /** `markOverdue`: one conditional update over the tenant's invoices. */
    method FlagOverdue(now: int)
      modifies this
      ensures Tables() == OverdueStep(old(Tables()), now)
      ensures Tables() == old(Tables()).(invoices := invoices) && |invoices| == |old(invoices)|
      ensures forall v :: 0 <= v < |invoices| ==>
        var row := old(invoices)[v];
        var late := row.state in {Sent, Viewed} && row.dueDate.Some? && row.dueDate.value < now;
        invoices[v] == if late then row.(state := Overdue) else row
    {
      var rows := invoices;
      invoices := seq(|rows|, v requires 0 <= v < |rows| => Flagged(rows[v], now));
      assert invoices == OverdueStep(old(Tables()), now).invoices;
    }

    /** The reminder's transaction for one listed invoice: claim by the counter, then a fresh link. */
    method RemindOne(v: nat, seen: nat, now: int) returns (claimed: bool)
      requires v < |invoices| && invoices[v].state != Draft && invoices[v].dueDate.Some? && seen < 3
      modifies this
      ensures Tables() == RemindStep(old(Tables()), v, seen, now)
      ensures claimed <==> old(invoices)[v].reminders == seen
      ensures !claimed ==> Tables() == old(Tables())
      ensures claimed ==>
        && Tables() == old(Tables()).(invoices := invoices, links := links)
        && invoices == old(invoices)[v := old(invoices)[v].(reminders := seen + 1, state := Overdue)]
        && links == old(links) + [Link(v, now + 60 * 86_400_000, false)]
    {
      var row := invoices[v];
      if row.reminders != seen { return false; }
      invoices := invoices[v := row.(reminders := row.reminders + 1, state := Overdue)];
      links := links + [Link(v, now + 60 * DAY, false)];
      return true;
    }
  }
}
