/**
  The invoice, payment-intent and ledger protocol as a state machine over table rows.

  A `Db` holds the rows that `confirmIntent`, `createIntentForToken`, the admin refund, the invoice
  service and the reminder sweep write. Every `Action` is one atomic database step (one
  `$transaction`, or one single write); provider answers and clock readings are its parameters. What a
  request has read but not yet used lives in `requests`, so a run is a full interleaving of requests.

  Rows of invoices, links, intents and requests are identified by their insertion position, which
  stands for the uuid and for the creation order; a transaction row is identified by its unique
  (provider, providerPaymentId) key.
*/
module Ledger {
  import opened Options

  datatype InvoiceState = Draft | Sent | Viewed | PartiallyPaid | Paid | Overdue | Cancelled | Expired

  datatype IntentState = Created | Pending | Processing | Succeeded | Failed | IntentExpired | IntentCancelled

  datatype TxStatus = Credited | Refunded

  datatype Invoice = Invoice(amount: int, balance: int, state: InvoiceState, dueDate: Option<int>,
                             reminders: nat, receiptOptIn: bool)

  datatype Link = Link(invoice: nat, expiresAt: int, revoked: bool)

  datatype Intent = Intent(invoice: nat, amount: int, provider: string, providerInvoice: Option<string>,
                           state: IntentState, expiresAt: Option<int>)

  datatype PaymentKey = PaymentKey(provider: string, paymentId: string)

  datatype Tx = Tx(intent: nat, key: PaymentKey, gross: int, fee: int, net: int, status: TxStatus)

  /** The tax receipt row cut with a transaction: PENDING when wanted, NOT_REQUIRED otherwise. */
  datatype Receipt = Receipt(tx: PaymentKey, wanted: bool)

  /** A running `createIntentForToken`: what it has read, or the intent it asked the provider about. */
  datatype Request = Reading(invoice: nat, balance: int) | Waiting(intent: nat) | Finished

  datatype Db = Db(invoices: seq<Invoice>, links: seq<Link>, intents: seq<Intent>, txs: seq<Tx>,
                   receipts: seq<Receipt>, usage: seq<PaymentKey>, requests: seq<Request>,
                   receiptModule: bool)

  /** A provider's answer that a payment was made. */
  datatype Payment = Payment(paymentId: string, gross: Option<int>, fee: Option<int>)

  datatype Action =
    | Create(amount: int, dueDate: Option<int>, receiptOptIn: bool)
    | Send(invoice: nat, now: int)
    | OpenLink(link: nat, now: int)
    | BeginPay(link: nat, now: int)
    | InsertIntent(request: nat, provider: string)
    | ProviderReady(request: nat, providerInvoice: string, expiresAt: int)
    | ProviderRefused(request: nat)
    | Abandon(request: nat)
    | Retire(intent: nat)
    | Confirm(intent: nat, payment: Payment)
    | Refund(key: PaymentKey)
    | Cancel(invoice: nat)
    | MarkOverdue(now: int)
    | Remind(invoice: nat, seen: nat, now: int)
    | SetReceiptModule(on: bool)

  const DAY: int := 86_400_000
  const MAX_REMINDERS: nat := 3

  const EMPTY: Db := Db([], [], [], [], [], [], [], false)

  // ---------------------------------------------------------------- tables

  /** The legal transitions of the invoice state machine. */
  function Transitions(from: InvoiceState): set<InvoiceState> {
    match from
    case Draft => {Sent, Cancelled}
    case Sent => {Viewed, PartiallyPaid, Paid, Overdue, Cancelled, Expired}
    case Viewed => {PartiallyPaid, Paid, Overdue, Cancelled, Expired}
    case PartiallyPaid => {Paid, Overdue}
    case Overdue => {Viewed, PartiallyPaid, Paid, Cancelled, Expired}
    case Paid => {}
    case Cancelled => {}
    case Expired => {}
  }

  predicate CanTransition(from: InvoiceState, to: InvoiceState) {
    to in Transitions(from)
  }

  /** What one transaction row adds to the confirmed total of an invoice. */
  function Credit(intents: seq<Intent>, t: Tx, invoice: nat): int {
    if t.status == Credited && t.intent < |intents| && intents[t.intent].invoice == invoice then t.gross else 0
  }

  /** The ledger sum: gross of the SUCCEEDED transactions whose intent belongs to the invoice. */
  function PaidTotal(intents: seq<Intent>, txs: seq<Tx>, invoice: nat): int {
    if txs == [] then 0
    else PaidTotal(intents, txs[..|txs| - 1], invoice) + Credit(intents, txs[|txs| - 1], invoice)
  }

  function Balance(amount: int, paidTotal: int): int {
    if amount - paidTotal > 0 then amount - paidTotal else 0
  }

  predicate KeyUsed(txs: seq<Tx>, key: PaymentKey) {
    exists k :: 0 <= k < |txs| && txs[k].key == key
  }

  function Marked(t: Tx, key: PaymentKey): Tx {
    if t.key == key then t.(status := Refunded) else t
  }

  /** The table with the row of a key marked REFUNDED. */
  function MarkRefunded(txs: seq<Tx>, key: PaymentKey): seq<Tx> {
    seq(|txs|, k requires 0 <= k < |txs| => Marked(txs[k], key))
  }

  /** The claim of the confirm transaction wins: the intent is still PENDING or PROCESSING. */
  predicate Confirmable(db: Db, i: nat) {
    && i < |db.intents|
    && db.intents[i].providerInvoice.Some?
    && db.intents[i].state in {Pending, Processing}
    && db.intents[i].invoice < |db.invoices|
  }

  function KeyOf(db: Db, i: nat, p: Payment): PaymentKey
    requires i < |db.intents|
  {
    PaymentKey(db.intents[i].provider, p.paymentId)
  }

  /** The payment is credited: the claim wins and no row carries its key yet. */
  predicate Effective(db: Db, i: nat, p: Payment) {
    Confirmable(db, i) && !KeyUsed(db.txs, KeyOf(db, i, p))
  }

  function TxFor(db: Db, i: nat, p: Payment): Tx
    requires i < |db.intents|
  {
    var gross := p.gross.GetOr(db.intents[i].amount);
    var fee := p.fee.GetOr(0);
    Tx(i, KeyOf(db, i, p), gross, fee, gross - fee, Credited)
  }

  predicate LinkValid(db: Db, l: nat, now: int) {
    && l < |db.links|
    && !db.links[l].revoked
    && db.links[l].expiresAt >= now
    && db.links[l].invoice < |db.invoices|
  }

  // ----------------------------------------------------------------- steps

  function SendStep(db: Db, v: nat, now: int): Db {
    if v >= |db.invoices| then db
    else
      var row := db.invoices[v];
      if row.state == Draft then
        var due := row.dueDate.GetOr(0) + 30 * DAY;
        var expiry := if now + 60 * DAY >= due then now + 60 * DAY else due;
        db.(invoices := db.invoices[v := row.(state := Sent)], links := db.links + [Link(v, expiry, false)])
      else if row.state in {Sent, Viewed, Overdue, PartiallyPaid} then
        db.(links := db.links + [Link(v, now + 60 * DAY, false)])
      else db
  }

  function OpenStep(db: Db, l: nat, now: int): Db {
    if LinkValid(db, l, now) && db.invoices[db.links[l].invoice].state == Sent then
      var v := db.links[l].invoice;
      db.(invoices := db.invoices[v := db.invoices[v].(state := Viewed)])
    else db
  }

  function BeginStep(db: Db, l: nat, now: int): Db {
    if LinkValid(db, l, now) && db.invoices[db.links[l].invoice].state !in {Paid, Cancelled, Expired} then
      var v := db.links[l].invoice;
      db.(requests := db.requests + [Reading(v, db.invoices[v].balance)])
    else db
  }

  function InsertStep(db: Db, r: nat, provider: string): Db {
    if r < |db.requests| && db.requests[r].Reading? then
      var it := Intent(db.requests[r].invoice, db.requests[r].balance, provider, None, Created, None);
      db.(intents := db.intents + [it], requests := db.requests[r := Waiting(|db.intents|)])
    else db
  }

  /** The provider invoice id is already stored for this provider. */
  predicate ProviderInvoiceUsed(db: Db, provider: string, providerInvoice: string) {
    exists i :: 0 <= i < |db.intents| && db.intents[i].provider == provider
      && db.intents[i].providerInvoice == Some(providerInvoice)
  }

  predicate IsWaiting(db: Db, r: nat) {
    r < |db.requests| && db.requests[r].Waiting? && db.requests[r].intent < |db.intents|
  }

  /** The provider answered: the intent becomes PENDING whatever its state is by now. */
  function ReadyStep(db: Db, r: nat, providerInvoice: string, expiresAt: int): Db {
    if !IsWaiting(db, r) then db
    else
      var i := db.requests[r].intent;
      var it := db.intents[i];
      var closed := db.(requests := db.requests[r := Finished]);
      if ProviderInvoiceUsed(db, it.provider, providerInvoice) then closed
      else
        closed.(intents := db.intents[i := it.(providerInvoice := Some(providerInvoice),
                                               expiresAt := Some(expiresAt), state := Pending)])
  }

  function RefusedStep(db: Db, r: nat): Db {
    if !IsWaiting(db, r) then db
    else
      var i := db.requests[r].intent;
      db.(intents := db.intents[i := db.intents[i].(state := Failed)], requests := db.requests[r := Finished])
  }

  /** The process serving the request dies; what it has written stays. */
  function AbandonStep(db: Db, r: nat): Db {
    if r < |db.requests| then db.(requests := db.requests[r := Finished]) else db
  }

  /** A stale provider link, or a checksum-verified "expired" webhook, retires an open intent. */
  function RetireStep(db: Db, i: nat): Db {
    if i < |db.intents| && db.intents[i].state in {Pending, Processing} then
      db.(intents := db.intents[i := db.intents[i].(state := IntentExpired)])
    else db
  }

  /** The confirm transaction: all of its writes, or none when the claim or the unique key fails. */
  function ConfirmStep(db: Db, i: nat, p: Payment): Db {
    if !Effective(db, i, p) then db
    else
      var intents := db.intents[i := db.intents[i].(state := Succeeded)];
      var t := TxFor(db, i, p);
      var v := db.intents[i].invoice;
      var row := db.invoices[v];
      var balance := Balance(row.amount, PaidTotal(intents, db.txs + [t], v));
      db.(intents := intents,
          txs := db.txs + [t],
          invoices := db.invoices[v := row.(balance := balance, state := if balance == 0 then Paid else PartiallyPaid)],
          usage := db.usage + [t.key],
          receipts := db.receipts + [Receipt(t.key, db.receiptModule && row.receiptOptIn)])
  }

  /** The row of a key and a refundable join to its invoice. */
  predicate HasTx(db: Db, k: nat, key: PaymentKey) {
    && k < |db.txs|
    && db.txs[k].key == key
    && db.txs[k].intent < |db.intents|
    && db.intents[db.txs[k].intent].invoice < |db.invoices|
  }

  /** The index of the row of a key, or the table length. */
  function FindTx(txs: seq<Tx>, key: PaymentKey): (k: nat)
    ensures k <= |txs|
    ensures k < |txs| ==> txs[k].key == key
    ensures k == |txs| ==> !KeyUsed(txs, key)
  {
    if txs == [] then 0
    else if txs[|txs| - 1].key == key then |txs| - 1
    else
      var k := FindTx(txs[..|txs| - 1], key);
      if k == |txs| - 1 then |txs| else k
  }

  /**
    The ledger half of a refund. The check that the row is SUCCEEDED was made before the provider call
    and is not repeated, so the step fires on any existing row.
  */
  function RefundStep(db: Db, key: PaymentKey): Db {
    var k := FindTx(db.txs, key);
    if !HasTx(db, k, key) then db
    else
      var v := db.intents[db.txs[k].intent].invoice;
      var txs := MarkRefunded(db.txs, key);
      var row := db.invoices[v];
      var paidTotal := PaidTotal(db.intents, txs, v);
      var balance := Balance(row.amount, paidTotal);
      var state := if balance == 0 then Paid else if paidTotal > 0 then PartiallyPaid else Sent;
      db.(txs := txs, invoices := db.invoices[v := row.(balance := balance, state := state)])
  }

  function Withdraw(it: Intent, v: nat): Intent {
    if it.invoice == v && it.state in {Created, Pending, Processing} then it.(state := IntentCancelled) else it
  }

  function Revoke(l: Link, v: nat): Link {
    if l.invoice == v then l.(revoked := true) else l
  }

  predicate Cancellable(row: Invoice) {
    row.balance == row.amount && CanTransition(row.state, Cancelled)
  }

  function CancelStep(db: Db, v: nat): Db {
    if v < |db.invoices| && Cancellable(db.invoices[v]) then
      db.(invoices := db.invoices[v := db.invoices[v].(state := Cancelled)],
          links := seq(|db.links|, l requires 0 <= l < |db.links| => Revoke(db.links[l], v)),
          intents := seq(|db.intents|, i requires 0 <= i < |db.intents| => Withdraw(db.intents[i], v)))
    else db
  }

  function Flagged(row: Invoice, now: int): Invoice {
    if row.state in {Sent, Viewed} && row.dueDate.Some? && row.dueDate.value < now then row.(state := Overdue) else row
  }

  function OverdueStep(db: Db, now: int): Db {
    db.(invoices := seq(|db.invoices|, v requires 0 <= v < |db.invoices| => Flagged(db.invoices[v], now)))
  }

  /** The reminder's claim succeeds: only the counter is compared, not the invoice state. */
  predicate ReminderClaims(db: Db, v: nat, seen: nat) {
    && v < |db.invoices|
    && seen < MAX_REMINDERS
    && db.invoices[v].reminders == seen
    && db.invoices[v].dueDate.Some?
    && db.invoices[v].state != Draft  // the sweep lists sent invoices, and no step returns to DRAFT
  }

  function RemindStep(db: Db, v: nat, seen: nat, now: int): Db {
    if ReminderClaims(db, v, seen) then
      var row := db.invoices[v];
      db.(invoices := db.invoices[v := row.(reminders := seen + 1, state := Overdue)],
          links := db.links + [Link(v, now + 60 * DAY, false)])
    else db
  }

  function Step(db: Db, a: Action): Db {
    match a
    case Create(amount, due, optIn) =>
      if amount >= 1 then db.(invoices := db.invoices + [Invoice(amount, amount, Draft, due, 0, optIn)]) else db
    case Send(v, now) => SendStep(db, v, now)
    case OpenLink(l, now) => OpenStep(db, l, now)
    case BeginPay(l, now) => BeginStep(db, l, now)
    case InsertIntent(r, provider) => InsertStep(db, r, provider)
    case ProviderReady(r, id, expiresAt) => ReadyStep(db, r, id, expiresAt)
    case ProviderRefused(r) => RefusedStep(db, r)
    case Abandon(r) => AbandonStep(db, r)
    case Retire(i) => RetireStep(db, i)
    case Confirm(i, p) => ConfirmStep(db, i, p)
    case Refund(key) => RefundStep(db, key)
    case Cancel(v) => CancelStep(db, v)
    case MarkOverdue(now) => OverdueStep(db, now)
    case Remind(v, seen, now) => RemindStep(db, v, seen, now)
    case SetReceiptModule(on) => db.(receiptModule := on)
  }

  function Run(db: Db, actions: seq<Action>): Db {
    if actions == [] then db else Step(Run(db, actions[..|actions| - 1]), actions[|actions| - 1])
  }
}
