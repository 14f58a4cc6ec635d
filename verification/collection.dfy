/** No over-collection: what one provider and atomic pay-page requests guarantee, and what they are needed for. */
module Collection {
  import opened Options
  import opened Ledger
  import opened LedgerInvariant
  import opened ExampleRows

  predicate IsOpen(it: Intent) {
    it.state in {Pending, Processing}
  }

  predicate OpenFor(it: Intent, v: nat, provider: string) {
    it.invoice == v && it.provider == provider && IsOpen(it)
  }

  /** The newest open intent of an invoice with a provider, or the table length. */
  function Latest(intents: seq<Intent>, v: nat, provider: string): (e: nat)
    ensures e <= |intents|
    ensures e < |intents| ==> OpenFor(intents[e], v, provider)
    ensures e < |intents| ==> forall i :: e < i < |intents| ==> !OpenFor(intents[i], v, provider)
    ensures e == |intents| ==> forall i :: 0 <= i < |intents| ==> !OpenFor(intents[i], v, provider)
  {
    if intents == [] then 0
    else
      var n := |intents| - 1;
      if OpenFor(intents[n], v, provider) then n
      else
        var e := Latest(intents[..n], v, provider);
        if e == n then n + 1 else e
  }

  /** What the provider returns for a new invoice, when it does not fail. */
  datatype Hosted = Hosted(id: string, expiresAt: int)

  predicate Live(it: Intent, now: int) {
    it.state == Pending && it.expiresAt.Some? && it.expiresAt.value > now
  }

  /** Reads the invoice, retires the stale intent if there is one, and cuts a new one. */
  function CutStep(db: Db, link: nat, now: int, e: nat, provider: string, answer: Option<Hosted>): Db {
    var r := |db.requests|;
    Answered(InsertStep(RetireStep(BeginStep(db, link, now), e), r, provider), r, answer)
  }

  /** The provider's answer to request `r`, or its failure. */
  function Answered(db: Db, r: nat, answer: Option<Hosted>): Db {
    match answer
    case None => RefusedStep(db, r)
    case Some(hosted) => ReadyStep(db, r, hosted.id, hosted.expiresAt)
  }

  /**
    A whole `createIntentForToken` without interference. `stale` is the provider's answer when an expired
    intent is re-verified; `answer` is its answer to the new invoice.
  */
  function PayStep(db: Db, link: nat, now: int, provider: string, stale: Option<Payment>, answer: Option<Hosted>): Db {
    if !LinkValid(db, link, now) || db.invoices[db.links[link].invoice].state in {Paid, Cancelled, Expired} then db
    else
      var e := Latest(db.intents, db.links[link].invoice, provider);
      if e == |db.intents| then CutStep(db, link, now, e, provider, answer)
      else if Live(db.intents[e], now) then db
      else if db.intents[e].providerInvoice.Some? && stale.Some? then ConfirmStep(db, e, stale.value)
      else CutStep(db, link, now, e, provider, answer)
  }

  datatype Event =
    | Plain(action: Action)
    | Pay(link: nat, now: int, stale: Option<Payment>, answer: Option<Hosted>)

  function EventStep(db: Db, provider: string, e: Event): Db {
    match e
    case Plain(a) => Step(db, a)
    case Pay(link, now, stale, answer) => PayStep(db, link, now, provider, stale, answer)
  }

  function EventRun(db: Db, provider: string, events: seq<Event>): Db {
    if events == [] then db
    else EventStep(EventRun(db, provider, events[..|events| - 1]), provider, events[|events| - 1])
  }

  /** The provider reports the amount the intent was cut for. */
  ghost predicate OwnAmount(db: Db, i: nat, p: Payment) {
    i < |db.intents| ==> TxFor(db, i, p).gross == db.intents[i].amount
  }

  /** Requests run whole, and payments are reported at the intent's own amount. */
  ghost predicate Honest(db: Db, provider: string, e: Event) {
    match e
    case Plain(a) =>
      && !a.BeginPay? && !a.InsertIntent? && !a.ProviderReady? && !a.ProviderRefused?
      && (a.Confirm? ==> OwnAmount(db, a.intent, a.payment))
    case Pay(link, now, stale, answer) =>
      stale.Some? && link < |db.links| ==>
        OwnAmount(db, Latest(db.intents, db.links[link].invoice, provider), stale.value)
  }

  ghost predicate HonestRun(db: Db, provider: string, events: seq<Event>) {
    events == [] ||
    (var n := |events| - 1;
     HonestRun(db, provider, events[..n]) && Honest(EventRun(db, provider, events[..n]), provider, events[n]))
  }

  // --------------------------------------------------------------- invariant

  /** One provider serves the tenant, no amount is negative, and a row's gross is its intent's amount. */
  ghost predicate Amounts(db: Db, provider: string) {
    && (forall i :: 0 <= i < |db.intents| ==> db.intents[i].amount >= 0 && db.intents[i].provider == provider)
    && (forall k :: 0 <= k < |db.txs| && db.txs[k].intent < |db.intents| ==>
          db.txs[k].gross == db.intents[db.txs[k].intent].amount)
  }

  ghost predicate AtMostOneOpen(db: Db) {
    forall i, j :: 0 <= i < j < |db.intents| && IsOpen(db.intents[i]) && IsOpen(db.intents[j]) ==>
      db.intents[i].invoice != db.intents[j].invoice
  }

  ghost predicate OpenWithinBalance(db: Db) {
    && References(db)
    && forall i :: 0 <= i < |db.intents| && IsOpen(db.intents[i]) ==>
         db.intents[i].amount <= db.invoices[db.intents[i].invoice].balance
  }

  ghost predicate NeverOver(db: Db) {
    forall v :: 0 <= v < |db.invoices| ==> PaidTotal(db.intents, db.txs, v) <= db.invoices[v].amount
  }

  ghost predicate RequestsFinished(db: Db) {
    forall r :: 0 <= r < |db.requests| ==> db.requests[r] == Finished
  }

  ghost predicate CollectInv(db: Db, provider: string) {
    && Inv(db) && Amounts(db, provider) && AtMostOneOpen(db)
    && OpenWithinBalance(db) && NeverOver(db) && RequestsFinished(db)
  }

  /** The step changes no balance, ledger row or intent amount, and opens no intent. */
  ghost predicate OpensNothing(db: Db, db': Db) {
    && LedgerUntouched(db, db') && |db'.intents| == |db.intents| && RequestsFinished(db')
    && forall i :: 0 <= i < |db.intents| ==>
         db'.intents[i].amount == db.intents[i].amount && (IsOpen(db'.intents[i]) ==> IsOpen(db.intents[i]))
  }

  lemma OpensNothingKeeps(db: Db, db': Db, provider: string)
    requires CollectInv(db, provider) && Inv(db') && OpensNothing(db, db')
    ensures CollectInv(db', provider)
  {
    assert NeverOver(db') by {
      forall v: nat ensures PaidTotal(db'.intents, db'.txs, v) == PaidTotal(db.intents, db.txs, v) {
        PaidTotalFrame(db.intents, db'.intents, db.txs, v);
      }
    }
  }

  lemma PlainQuiet(db: Db, a: Action)
    requires References(db) && Outstanding(db) && RequestsFinished(db)
    requires a.Send? || a.OpenLink? || a.Retire? || a.Cancel? || a.MarkOverdue? || a.Remind?
             || a.SetReceiptModule? || a.Abandon?
    ensures OpensNothing(db, Step(db, a))
  {
    QuietStep(db, a);
  }

  /** A credited payment keeps the total within the amount exactly when it fits the balance. */
  lemma OverCollectsExactly(db: Db, i: nat, p: Payment)
    requires Inv(db) && Effective(db, i, p)
    requires PaidTotal(db.intents, db.txs, db.intents[i].invoice) <= db.invoices[db.intents[i].invoice].amount
    ensures var v := db.intents[i].invoice; var d := ConfirmStep(db, i, p);
      && PaidTotal(d.intents, d.txs, v) == PaidTotal(db.intents, db.txs, v) + TxFor(db, i, p).gross
      && (PaidTotal(d.intents, d.txs, v) <= d.invoices[v].amount <==> TxFor(db, i, p).gross <= db.invoices[v].balance)
  {
    var v := db.intents[i].invoice;
    var d := ConfirmStep(db, i, p);
    PaidTotalAppend(d.intents, db.txs, TxFor(db, i, p), v);
    PaidTotalFrame(db.intents, d.intents, db.txs, v);
  }

  lemma ConfirmCollects(db: Db, provider: string, i: nat, p: Payment)
    requires CollectInv(db, provider) && OwnAmount(db, i, p)
    ensures CollectInv(ConfirmStep(db, i, p), provider)
  {
    hide Balances, KeysDistinct, Companions, Outstanding;
    ConfirmKeeps(db, i, p);
    if Effective(db, i, p) {
      var d, v := ConfirmStep(db, i, p), db.intents[i].invoice;
      OverCollectsExactly(db, i, p);
      forall u | 0 <= u < |db.invoices| && u != v
        ensures PaidTotal(d.intents, d.txs, u) == PaidTotal(db.intents, db.txs, u)
      {
        PaidTotalAppend(d.intents, db.txs, TxFor(db, i, p), u);
        PaidTotalFrame(db.intents, d.intents, db.txs, u);
      }
      ConfirmRows(db, provider, i, p);
    }
  }

  lemma ConfirmRows(db: Db, provider: string, i: nat, p: Payment)
    requires References(db) && Amounts(db, provider) && AtMostOneOpen(db) && OpenWithinBalance(db)
    requires RequestsFinished(db)
    requires Effective(db, i, p) && OwnAmount(db, i, p)
    ensures var d := ConfirmStep(db, i, p);
      Amounts(d, provider) && AtMostOneOpen(d) && OpenWithinBalance(d) && RequestsFinished(d)
  {
  }

  lemma RefundCollects(db: Db, provider: string, key: PaymentKey)
    requires CollectInv(db, provider)
    ensures CollectInv(RefundStep(db, key), provider)
  {
    hide RefundStep, PaidTotal, OpenWithinBalance, NeverOver, Balances, OneTxPerIntent, KeysDistinct, Companions;
    RefundKeeps(db, key);
    RefundTables(db, key);
    SumsFall(db, provider, key);
    RefundLowers(db, RefundStep(db, key), provider);
  }

  lemma SumsFall(db: Db, provider: string, key: PaymentKey)
    requires KeysDistinct(db.txs) && Amounts(db, provider)
    ensures forall u: nat :: PaidTotal(db.intents, MarkRefunded(db.txs, key), u) <= PaidTotal(db.intents, db.txs, u)
  {
    forall u: nat ensures PaidTotal(db.intents, MarkRefunded(db.txs, key), u) <= PaidTotal(db.intents, db.txs, u) {
      var k := FindTx(db.txs, key);
      if k < |db.txs| {
        PaidTotalRefund(db.intents, db.txs, k, u);
      } else {
        assert MarkRefunded(db.txs, key) == db.txs;
      }
    }
  }

  /** Lowering the ledger sums raises the balances the open intents are compared with. */
  lemma RefundLowers(db: Db, d: Db, provider: string)
    requires CollectInv(db, provider) && Inv(d)
    requires d.intents == db.intents && d.requests == db.requests
    requires |d.invoices| == |db.invoices| && |d.txs| == |db.txs|
    requires forall k :: 0 <= k < |db.txs| ==> d.txs[k].intent == db.txs[k].intent && d.txs[k].gross == db.txs[k].gross
    requires forall u :: 0 <= u < |db.invoices| ==>
      && d.invoices[u].amount == db.invoices[u].amount
      && PaidTotal(db.intents, d.txs, u) <= PaidTotal(db.intents, db.txs, u)
    ensures CollectInv(d, provider)
  {
    assert forall u :: 0 <= u < |db.invoices| ==> d.invoices[u].balance >= db.invoices[u].balance;
  }

  /** The row a cut adds: for the invoice's balance, open only if the provider answered. */
  ghost predicate NewRow(it: Intent, v: nat, balance: int, provider: string) {
    it.invoice == v && it.amount == balance && it.provider == provider && it.state in {Created, Pending, Failed}
  }

  ghost function RetiredAt(intents: seq<Intent>, e: nat): seq<Intent> {
    if e < |intents| then intents[e := intents[e].(state := IntentExpired)] else intents
  }

  /** The tables after cutting an intent: the stale one retired, one new intent, one finished request. */
  lemma CutTables(db: Db, link: nat, now: int, e: nat, provider: string, answer: Option<Hosted>)
    requires LinkValid(db, link, now) && db.invoices[db.links[link].invoice].state !in {Paid, Cancelled, Expired}
    requires e == Latest(db.intents, db.links[link].invoice, provider)
    ensures var d := CutStep(db, link, now, e, provider, answer); var v := db.links[link].invoice;
      && d == db.(intents := d.intents, requests := db.requests + [Finished])
      && |d.intents| == |db.intents| + 1
      && d.intents[..|db.intents|] == RetiredAt(db.intents, e)
      && NewRow(d.intents[|db.intents|], v, db.invoices[v].balance, provider)
  {
    var v, r, n := db.links[link].invoice, |db.requests|, |db.intents|;
    var begun := BeginStep(db, link, now);
    assert begun == db.(requests := db.requests + [Reading(v, db.invoices[v].balance)]);
    var retired := RetireStep(begun, e);
    assert retired == begun.(intents := RetiredAt(db.intents, e));
    var cut := InsertStep(retired, r, provider);
    var row := Intent(v, db.invoices[v].balance, provider, None, Created, None);
    assert cut == retired.(intents := retired.intents + [row], requests := db.requests + [Waiting(n)]);
    AnsweredTables(cut, r, n, answer);
  }

  /** The answer finishes the request and touches its intent alone. */
  lemma AnsweredTables(db: Db, r: nat, n: nat, answer: Option<Hosted>)
    requires |db.requests| == r + 1 && |db.intents| == n + 1 && db.requests[r] == Waiting(n)
    requires db.intents[n].state == Created
    ensures var d := Answered(db, r, answer); var row, row' := db.intents[n], d.intents[n];
      && d == db.(intents := d.intents, requests := db.requests[..r] + [Finished])
      && |d.intents| == n + 1 && d.intents[..n] == db.intents[..n]
      && NewRow(row', row.invoice, row.amount, row.provider)
  {
  }

  lemma CutKeepsLedger(db: Db, link: nat, now: int, e: nat, provider: string, answer: Option<Hosted>)
    requires Inv(db)
    ensures Inv(CutStep(db, link, now, e, provider, answer))
  {
    hide Inv, BeginStep, InsertStep, RetireStep, Answered;
    var r := |db.requests|;
    var begun := BeginStep(db, link, now);
    assert Inv(begun) by { StepKeeps(db, BeginPay(link, now)); }
    InsertedKeeps(begun, e, r, provider, answer);
  }

  lemma InsertedKeeps(db: Db, e: nat, r: nat, provider: string, answer: Option<Hosted>)
    requires Inv(db)
    ensures Inv(Answered(InsertStep(RetireStep(db, e), r, provider), r, answer))
  {
    hide Inv, InsertStep, RetireStep, Answered;
    var retired := RetireStep(db, e);
    assert Inv(retired) by { StepKeeps(db, Retire(e)); }
    var cut := InsertStep(retired, r, provider);
    assert Inv(cut) by { StepKeeps(retired, InsertIntent(r, provider)); }
    AnsweredKeeps(cut, r, answer);
  }

  lemma AnsweredKeeps(db: Db, r: nat, answer: Option<Hosted>)
    requires Inv(db)
    ensures Inv(Answered(db, r, answer))
  {
    hide Inv, ReadyStep, RefusedStep;
    match answer
    case None => StepKeeps(db, ProviderRefused(r));
    case Some(h) => StepKeeps(db, ProviderReady(r, h.id, h.expiresAt));
  }

  lemma CutCollects(db: Db, link: nat, now: int, e: nat, provider: string, answer: Option<Hosted>)
    requires CollectInv(db, provider)
    requires LinkValid(db, link, now) && db.invoices[db.links[link].invoice].state !in {Paid, Cancelled, Expired}
    requires e == Latest(db.intents, db.links[link].invoice, provider)
    ensures CollectInv(CutStep(db, link, now, e, provider, answer), provider)
  {
    hide Inv, CutStep;
    CutKeepsLedger(db, link, now, e, provider, answer);
    CutTables(db, link, now, e, provider, answer);
    var d, n := CutStep(db, link, now, e, provider, answer), |db.intents|;
    assert d.intents == RetiredAt(db.intents, e) + [d.intents[n]];
    CutRows(db, d, e, db.links[link].invoice, provider, d.intents[n]);
  }

  lemma CutRows(db: Db, d: Db, e: nat, v: nat, provider: string, row: Intent)
    requires CollectInv(db, provider) && Inv(d) && v < |db.invoices|
    requires e == Latest(db.intents, v, provider)
    requires NewRow(row, v, db.invoices[v].balance, provider)
    requires d == db.(intents := RetiredAt(db.intents, e) + [row], requests := db.requests + [Finished])
    ensures CollectInv(d, provider)
  {
    assert NeverOver(d) by {
      forall u: nat ensures PaidTotal(d.intents, d.txs, u) == PaidTotal(db.intents, db.txs, u) {
        PaidTotalFrame(db.intents, d.intents, db.txs, u);
      }
    }
    NoneLeftOpen(db, e, v, provider);
    assert db.invoices[v].balance >= 0;
    RowsWithNew(db, d, e, v, provider, row);
  }

  lemma RowsWithNew(db: Db, d: Db, e: nat, v: nat, provider: string, row: Intent)
    requires Amounts(db, provider) && AtMostOneOpen(db) && OpenWithinBalance(db) && RequestsFinished(db)
    requires v < |db.invoices| && db.invoices[v].balance >= 0
    requires forall k :: 0 <= k < |db.txs| ==> db.txs[k].intent < |db.intents|
    requires NewRow(row, v, db.invoices[v].balance, provider)
    requires d == db.(intents := RetiredAt(db.intents, e) + [row], requests := db.requests + [Finished])
    requires forall i :: 0 <= i < |db.intents| && IsOpen(RetiredAt(db.intents, e)[i]) ==> db.intents[i].invoice != v
    ensures Amounts(d, provider) && AtMostOneOpen(d) && OpenWithinBalance(d) && RequestsFinished(d)
  {
  }

  /** Retiring the newest open intent leaves the invoice without one. */
  lemma NoneLeftOpen(db: Db, e: nat, v: nat, provider: string)
    requires Amounts(db, provider) && AtMostOneOpen(db)
    requires e == Latest(db.intents, v, provider)
    ensures var rows := RetiredAt(db.intents, e);
      && |rows| == |db.intents|
      && (forall i :: 0 <= i < |rows| && IsOpen(rows[i]) ==> rows[i].invoice != v)
  {
    forall i | 0 <= i < |db.intents| && i != e && IsOpen(db.intents[i]) ensures db.intents[i].invoice != v {
      if db.intents[i].invoice == v {
        assert OpenFor(db.intents[i], v, provider);
      }
    }
  }

  lemma CreateCollects(db: Db, provider: string, a: Action)
    requires CollectInv(db, provider) && a.Create?
    ensures CollectInv(Step(db, a), provider)
  {
    hide OneTxPerIntent, KeysDistinct, Companions, Outstanding;
    StepKeeps(db, a);
    NoCreditBeyond(db.intents, db.txs, |db.invoices|);
  }

  lemma PlainKeeps(db: Db, provider: string, a: Action)
    requires CollectInv(db, provider) && Honest(db, provider, Plain(a))
    ensures CollectInv(Step(db, a), provider)
  {
    hide CollectInv, ConfirmStep, RefundStep, OpensNothing;
    if a.Confirm? {
      ConfirmCollects(db, provider, a.intent, a.payment);
    } else if a.Refund? {
      RefundCollects(db, provider, a.key);
    } else if a.Create? {
      CreateCollects(db, provider, a);
    } else {
      QuietCollects(db, provider, a);
    }
  }

  lemma QuietCollects(db: Db, provider: string, a: Action)
    requires CollectInv(db, provider)
    requires a.Send? || a.OpenLink? || a.Retire? || a.Cancel? || a.MarkOverdue? || a.Remind?
             || a.SetReceiptModule? || a.Abandon?
    ensures CollectInv(Step(db, a), provider)
  {
    hide OpenWithinBalance, NeverOver, Amounts, AtMostOneOpen, OpensNothing;
    hide Balances, OneTxPerIntent, KeysDistinct, Companions;
    StepKeeps(db, a);
    PlainQuiet(db, a);
    OpensNothingKeeps(db, Step(db, a), provider);
  }

  lemma PayKeeps(db: Db, provider: string, link: nat, now: int, stale: Option<Payment>, answer: Option<Hosted>)
    requires CollectInv(db, provider) && Honest(db, provider, Pay(link, now, stale, answer))
    ensures CollectInv(PayStep(db, link, now, provider, stale, answer), provider)
  {
    hide CollectInv, ConfirmStep, CutStep;
    if LinkValid(db, link, now) && db.invoices[db.links[link].invoice].state !in {Paid, Cancelled, Expired} {
      var l := Latest(db.intents, db.links[link].invoice, provider);
      CutCollects(db, link, now, l, provider, answer);
      if stale.Some? {
        ConfirmCollects(db, provider, l, stale.value);
      }
    }
  }

  lemma EventKeeps(db: Db, provider: string, e: Event)
    requires CollectInv(db, provider) && Honest(db, provider, e)
    ensures CollectInv(EventStep(db, provider, e), provider)
  {
    hide CollectInv, Honest, PayStep, Step;
    match e
    case Plain(a) => PlainKeeps(db, provider, a);
    case Pay(link, now, stale, answer) => PayKeeps(db, provider, link, now, stale, answer);
  }

  lemma EmptyCollects(provider: string)
    ensures CollectInv(EMPTY, provider)
  {
  }

  lemma {:induction false} CollectRun(provider: string, events: seq<Event>)
    requires HonestRun(EMPTY, provider, events)
    ensures CollectInv(EventRun(EMPTY, provider, events), provider)
  {
    hide Honest, EventStep, CollectInv;
    if events == [] {
      EmptyCollects(provider);
    } else {
      var n := |events| - 1;
      CollectRun(provider, events[..n]);
      EventKeeps(EventRun(EMPTY, provider, events[..n]), provider, events[n]);
    }
  }

  /** `db` is a state that some honest run from empty tables ends in. */
  ghost predicate HonestlyReached(db: Db, provider: string) {
    exists events :: HonestRun(EMPTY, provider, events) && EventRun(EMPTY, provider, events) == db
  }

  /**
    No over-collection over all runs of whole requests with one provider: an invoice has at most one open
    intent, whose amount is within the current balance, and its SUCCEEDED gross never exceeds its amount,
    with expiry, regeneration and refunds mixed in.
  */
  lemma {:induction false} NoOverCollection(db: Db, provider: string)
    requires HonestlyReached(db, provider)
    ensures AtMostOneOpen(db) && OpenWithinBalance(db)
    ensures forall v :: 0 <= v < |db.invoices| ==> PaidTotal(db.intents, db.txs, v) <= db.invoices[v].amount
  {
    var events :| HonestRun(EMPTY, provider, events) && EventRun(EMPTY, provider, events) == db;
    CollectRun(provider, events);
  }

  // ------------------------------------------------------- exactly when it fails

  /** A provider's answer opens the intent of a request. */
  predicate Opens(db: Db, a: Action) {
    && a.ProviderReady? && IsWaiting(db, a.request)
    && !ProviderInvoiceUsed(db, db.intents[db.requests[a.request].intent].provider, a.providerInvoice)
  }

  predicate OtherOpen(db: Db, i: nat, j: nat)
    requires i < |db.intents|
  {
    j < |db.intents| && j != i && IsOpen(db.intents[j]) && db.intents[j].invoice == db.intents[i].invoice
  }

  /** The answer opens an intent although its invoice has an open one already. */
  ghost predicate OpensSecond(db: Db, a: Action) {
    Opens(db, a) && exists j: nat :: OtherOpen(db, db.requests[a.request].intent, j)
  }

  /** Of whatever schedule, a step keeps one open intent per invoice if and only if it is not such an answer. */
  lemma OneOpenExactly(db: Db, a: Action)
    requires AtMostOneOpen(db) && Outstanding(db)
    ensures AtMostOneOpen(Step(db, a)) <==> !OpensSecond(db, a)
  {
    hide ProviderInvoiceUsed, KeyUsed, PaidTotal, FindTx;
    if OpensSecond(db, a) {
      var i, d := db.requests[a.request].intent, Step(db, a);
      var j: nat :| OtherOpen(db, i, j);
      assert IsOpen(d.intents[i]) && IsOpen(d.intents[j]) && d.intents[i].invoice == d.intents[j].invoice;
    } else if Opens(db, a) {
      var i := db.requests[a.request].intent;
      forall j: nat | j < |db.intents| && j != i && IsOpen(db.intents[j])
        ensures db.intents[j].invoice != db.intents[i].invoice {
        assert !OtherOpen(db, i, j);
      }
    }
  }

  /**
    A step keeps open intents within their invoice's balance: an answer's intent has to fit it, and a credit
    has to leave room for the invoice's other open intents.
  */
  ghost predicate LeavesRoom(db: Db, a: Action)
    requires References(db)
  {
    match a
    case ProviderReady(r, _, _) =>
      Opens(db, a) ==>
        var it := db.intents[db.requests[r].intent];
        it.amount <= db.invoices[it.invoice].balance
    case Confirm(i, p) =>
      Effective(db, i, p) ==>
        var row := db.invoices[db.intents[i].invoice];
        var left := Balance(row.amount, PaidTotal(db.intents, db.txs, db.intents[i].invoice) + TxFor(db, i, p).gross);
        forall j: nat :: OtherOpen(db, i, j) ==> db.intents[j].amount <= left
    case _ => true
  }

  lemma ConfirmRoom(db: Db, i: nat, p: Payment)
    requires Inv(db) && OpenWithinBalance(db)
    ensures OpenWithinBalance(ConfirmStep(db, i, p)) <==> LeavesRoom(db, Confirm(i, p))
  {
    if Effective(db, i, p) {
      var d, v := ConfirmStep(db, i, p), db.intents[i].invoice;
      PaidTotalAppend(d.intents, db.txs, TxFor(db, i, p), v);
      PaidTotalFrame(db.intents, d.intents, db.txs, v);
      hide PaidTotal, Balances, OneTxPerIntent, Companions, Outstanding, KeyUsed;
      assert !IsOpen(d.intents[i]);
      assert forall j :: 0 <= j < |db.intents| && j != i ==> d.intents[j] == db.intents[j];
      assert forall u :: 0 <= u < |db.invoices| && u != v ==> d.invoices[u] == db.invoices[u];
      assert forall j: nat :: OtherOpen(db, i, j) ==> IsOpen(d.intents[j]) && d.intents[j].invoice == v;
    }
  }

  lemma RefundRoom(db: Db, key: PaymentKey)
    requires Inv(db) && OpenWithinBalance(db)
    requires forall k :: 0 <= k < |db.txs| ==> db.txs[k].gross >= 0
    ensures OpenWithinBalance(RefundStep(db, key))
  {
    var k := FindTx(db.txs, key);
    if HasTx(db, k, key) {
      var d, v := RefundStep(db, key), db.intents[db.txs[k].intent].invoice;
      PaidTotalRefund(db.intents, db.txs, k, v);
      hide PaidTotal, OneTxPerIntent, Companions, Outstanding;
      assert d.invoices[v].balance >= db.invoices[v].balance;
      assert forall u :: 0 <= u < |db.invoices| && u != v ==> d.invoices[u] == db.invoices[u];
    }
  }

  lemma AnswerRoom(db: Db, a: Action)
    requires OpenWithinBalance(db) && Outstanding(db) && a.ProviderReady?
    ensures OpenWithinBalance(Step(db, a)) <==> LeavesRoom(db, a)
  {
    hide ProviderInvoiceUsed, PaidTotal;
    if Opens(db, a) {
      var i, d := db.requests[a.request].intent, Step(db, a);
      assert IsOpen(d.intents[i]) && d.invoices == db.invoices;
      assert forall j :: 0 <= j < |db.intents| && j != i ==> d.intents[j] == db.intents[j];
    }
  }

  lemma OthersRoom(db: Db, a: Action)
    requires OpenWithinBalance(db) && Outstanding(db) && !a.Confirm? && !a.Refund? && !a.ProviderReady?
    ensures OpenWithinBalance(Step(db, a))
  {
    hide ProviderInvoiceUsed, PaidTotal, Transitions;
  }

  /** Of whatever schedule with non-negative payments, open intents stay within the balance exactly under that guard. */
  lemma {:induction false} WithinBalanceExactly(db: Db, a: Action)
    requires Inv(db) && OpenWithinBalance(db)
    requires forall k :: 0 <= k < |db.txs| ==> db.txs[k].gross >= 0
    ensures OpenWithinBalance(Step(db, a)) <==> LeavesRoom(db, a)
  {
    hide ConfirmStep, RefundStep, OpenWithinBalance, LeavesRoom;
    match a
    case Confirm(i, p) => ConfirmRoom(db, i, p);
    case ProviderReady(_, _, _) => AnswerRoom(db, a);
    case Refund(key) =>
      RefundRoom(db, key);
      Roomless(db, a);
    case _ =>
      OthersRoom(db, a);
      Roomless(db, a);
  }

  lemma Roomless(db: Db, a: Action)
    requires References(db) && !a.Confirm? && !a.ProviderReady?
    ensures LeavesRoom(db, a)
  {
  }

  // -------------------------------------------------------------- witness run

  const SECOND: Intent := OPENED.(providerInvoice := Some("inv-2"))
  const ONCE: Payment := Payment("pay-1", None, None)
  const TWICE: Payment := Payment("pay-2", None, None)

  /** Two requests on one invoice of 100 have both read its full balance. */
  const BOTH: Db := READING.(requests := [Reading(0, 100), Reading(0, 100)])

  lemma ReachBoth()
    ensures Reachable(BOTH)
  {
    ReachReading();
    ReachStep(READING, BeginPay(0, 0), BOTH);
  }

  const TWO_OPEN: Db := BOTH.(intents := [OPENED, SECOND], requests := [Finished, Finished])

  lemma ReachTwoOpen()
    ensures Reachable(TWO_OPEN)
  {
    ReachBoth();
    var d1 := BOTH.(intents := [CREATED], requests := [Waiting(0), Reading(0, 100)]);
    ReachStep(BOTH, InsertIntent(0, "qpay"), d1);
    var d2 := BOTH.(intents := [CREATED, CREATED], requests := [Waiting(0), Waiting(1)]);
    ReachStep(d1, InsertIntent(1, "qpay"), d2);
    var d3 := BOTH.(intents := [OPENED, CREATED], requests := [Finished, Waiting(1)]);
    ReachStep(d2, ProviderReady(0, "inv-1", 9), d3);
    ReachStep(d3, ProviderReady(1, "inv-2", 9), TWO_OPEN);
  }

  /** When two pay-page requests overlap, both payments are credited and the invoice is over-collected. */
  lemma OverlapOverCollects()
    ensures exists db ::
      && Reachable(db) && |db.invoices| == 1
      && PaidTotal(db.intents, db.txs, 0) == 2 * db.invoices[0].amount > db.invoices[0].amount
  {
    ReachTwoOpen();
    var d1 := ConfirmStep(TWO_OPEN, 0, ONCE);
    assert Inv(TWO_OPEN) && Effective(TWO_OPEN, 0, ONCE) by {
      var actions :| Run(EMPTY, actions) == TWO_OPEN;
      RunKeeps(EMPTY, actions);
    }
    ReachStep(TWO_OPEN, Confirm(0, ONCE), d1);
    OverCollectsExactly(TWO_OPEN, 0, ONCE);
    SecondCredit(d1);
    ReachStep(d1, Confirm(1, TWICE), ConfirmStep(d1, 1, TWICE));
  }

  lemma SecondCredit(db: Db)
    requires |db.intents| == 2 && db.intents[1] == SECOND && db.intents[0].invoice == 0 && |db.invoices| == 1
    requires |db.txs| == 1 && db.txs[0].key == PaymentKey("qpay", "pay-1") && db.txs[0].intent == 0
    ensures var d := ConfirmStep(db, 1, TWICE);
      && PaidTotal(d.intents, d.txs, 0) == PaidTotal(db.intents, db.txs, 0) + 100
      && |d.invoices| == 1 && d.invoices[0].amount == db.invoices[0].amount
  {
    assert "pay-2"[4] != "pay-1"[4];
    assert Effective(db, 1, TWICE);
    var d := ConfirmStep(db, 1, TWICE);
    PaidTotalAppend(d.intents, db.txs, TxFor(db, 1, TWICE), 0);
    PaidTotalFrame(db.intents, d.intents, db.txs, 0);
  }
}
