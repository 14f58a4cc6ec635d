/** The rows that the witness runs start from: one invoice of 100, sent, with a payer's request reading it. */
module ExampleRows {
  import opened Options
  import opened Ledger
  import opened LedgerInvariant

  const ROW: Invoice := Invoice(100, 100, Sent, Some(0), 0, true)
  const LINK: Link := Link(0, 60 * DAY, false)
  const CREATED: Intent := Intent(0, 100, "qpay", None, Created, None)
  const OPENED: Intent := CREATED.(providerInvoice := Some("inv-1"), state := Pending, expiresAt := Some(9))

  const READING: Db := Db([ROW], [LINK], [], [], [], [], [Reading(0, 100)], false)

  lemma ReachReading()
    ensures Reachable(READING)
  {
    ReachEmpty();
    var d1 := EMPTY.(invoices := [ROW.(state := Draft)]);
    ReachStep(EMPTY, Create(100, Some(0), true), d1);
    var d2 := EMPTY.(invoices := [ROW], links := [LINK]);
    ReachStep(d1, Send(0, 0), d2);
    ReachStep(d2, BeginPay(0, 0), READING);
  }
}
