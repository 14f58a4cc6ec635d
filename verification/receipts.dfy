/**
  The tax-receipt lease. One receipt row, written by any number of `processOne` workers, retries and
  cancellations that interleave one database write at a time. A worker reads the row, takes a time-limited
  lock, calls the tax service, and then commits or records a failure.
*/
module Receipts {
  import opened Options

  const LOCK_TTL: int := 3 * 60 * 1000
  const MAX_RETRIES: nat := 5

  datatype State = NotRequired | Pending | Created | Delivered | CancelPending | Cancelled | Failed

  datatype Source = FromPayment | FromApi | FromPos | FromTest

  datatype Service = EbarimtApi | PosEbarimt

  /** `usage` holds the RECEIPT_CREATED events of this row; their sourceEventId is unique per receipt. */
  datatype Row = Row(source: Source, state: State, lockedAt: Option<int>, retries: nat, receiptNo: Option<nat>,
                     usage: seq<Option<Service>>)

  function ServiceOf(source: Source): Option<Service> {
    match source
    case FromApi => Some(EbarimtApi)
    case FromPos => Some(PosEbarimt)
    case _ => None
  }

  // -------------------------------------------------------------- row writes

  predicate Unissued(row: Row) {
    row.state in {Pending, Failed}
  }

  predicate Processable(row: Row) {
    Unissued(row) && row.retries < MAX_RETRIES
  }

  predicate LockFree(row: Row, now: int) {
    Unissued(row) && (row.lockedAt.None? || row.lockedAt.value < now - LOCK_TTL)
  }

  function LockRow(row: Row, now: int): Row {
    row.(lockedAt := Some(now))
  }

  /** The commit transaction's writes, when its claim wins and its usage event is new. */
  function IssueRow(row: Row, receiptNo: nat): Row {
    row.(state := Created, receiptNo := Some(receiptNo), lockedAt := None, usage := row.usage + [ServiceOf(row.source)])
  }

  /** The failure write does not look at the row's state. */
  function FailRow(row: Row): Row {
    row.(state := Failed, retries := row.retries + 1, lockedAt := None)
  }

  function RetryRow(row: Row): Row {
    if row.state == Failed then row.(state := Pending, lockedAt := None) else row
  }

  // ---------------------------------------------------------------- protocol

  /** A `processOne` call. `Holding` and `Failing` are between the lock and the commit or failure write. */
  datatype Worker = Reading | Holding(since: int) | Failing(since: int) | Done | Crashed

  datatype Sys = Sys(row: Row, now: int, workers: seq<Worker>)

  datatype Action =
    | Tick(ms: nat)
    | Start
    | Lock(worker: nat)
    | Commit(worker: nat, receiptNo: nat)
    | ProviderFails(worker: nat)
    | RecordFailure(worker: nat)
    | Crash(worker: nat)
    | Retry
    | AdminRetry(sawCancelPending: bool)
    | CancelLocally
    | RequestCancel
    | FinishCancel(ok: bool)

  predicate Live(w: Worker) {
    w.Holding? || w.Failing?
  }

  function CommitStep(s: Sys, w: nat, receiptNo: nat): Sys {
    if w < |s.workers| && s.workers[w].Holding? then
      if !Unissued(s.row) then s.(workers := s.workers[w := Done])
      else if s.row.usage != [] then  // unique sourceEventId: the transaction is rolled back and throws
        s.(workers := s.workers[w := Failing(s.workers[w].since)])
      else s.(row := IssueRow(s.row, receiptNo), workers := s.workers[w := Done])
    else s
  }

  function Step(s: Sys, a: Action): Sys {
    match a
    case Tick(ms) => s.(now := s.now + ms)
    case Start => if Processable(s.row) then s.(workers := s.workers + [Reading]) else s
    case Lock(w) =>
      if w < |s.workers| && s.workers[w].Reading? then
        if LockFree(s.row, s.now) then s.(row := LockRow(s.row, s.now), workers := s.workers[w := Holding(s.now)])
        else s.(workers := s.workers[w := Done])
      else s
    case Commit(w, receiptNo) => CommitStep(s, w, receiptNo)
    case ProviderFails(w) =>
      if w < |s.workers| && s.workers[w].Holding? then s.(workers := s.workers[w := Failing(s.workers[w].since)]) else s
    case RecordFailure(w) =>
      if w < |s.workers| && s.workers[w].Failing? then s.(row := FailRow(s.row), workers := s.workers[w := Done]) else s
    case Crash(w) => if w < |s.workers| then s.(workers := s.workers[w := Crashed]) else s
    case Retry => s.(row := RetryRow(s.row))
    case AdminRetry(saw) =>
      if s.row.state in {Failed, CancelPending} then
        s.(row := s.row.(state := if saw then CancelPending else Pending, retries := 0))
      else s
    case CancelLocally =>
      // the state was read earlier; the write is unconditional
      if s.row.state != NotRequired then s.(row := s.row.(state := Cancelled)) else s
    case RequestCancel =>
      if s.row.state in {Created, Delivered} then s.(row := s.row.(state := CancelPending)) else s
    case FinishCancel(ok) =>
      if s.row.receiptNo.Some? then s.(row := s.row.(state := if ok then Cancelled else CancelPending)) else s
  }

  function Run(s: Sys, actions: seq<Action>): Sys {
    if actions == [] then s else Step(Run(s, actions[..|actions| - 1]), actions[|actions| - 1])
  }

  predicate Initial(s: Sys) {
    && s.workers == []
    && s.row == Row(s.row.source, s.row.state, None, 0, None, [])
    && s.row.state in {Pending, NotRequired}
  }

  // -------------------------------------------------- at most one commit, always

  /** The usage events are exactly the commits: none, or one with the service of the row's source. */
  ghost predicate Metered(row: Row, source: Source) {
    && row.source == source
    && (row.usage == [] || row.usage == [if source == FromApi then Some(EbarimtApi)
                                         else if source == FromPos then Some(PosEbarimt) else None])
    && (row.receiptNo.Some? <==> row.usage != [])
    && (row.state in {Created, Delivered} ==> row.usage != [])
  }

  /** The row is committed to CREATED by this step. */
  ghost predicate Issues(s: Sys, a: Action) {
    |Step(s, a).row.usage| > |s.row.usage|
  }

  /** How often a run commits the row to CREATED. */
  ghost function Commits(s: Sys, actions: seq<Action>): nat {
    if actions == [] then 0
    else
      var n := |actions| - 1;
      Commits(s, actions[..n]) + if Issues(Run(s, actions[..n]), actions[n]) then 1 else 0
  }

  /**
    Over any run at all, whatever workers crash, overrun their lock or overwrite each other, the receipt
    is committed at most once and carries one RECEIPT_CREATED event per commit, with its source's service.
  */
  lemma {:induction false} CommittedAtMostOnce(s: Sys, actions: seq<Action>)
    requires Initial(s)
    ensures Metered(Run(s, actions).row, s.row.source)
    ensures Commits(s, actions) == |Run(s, actions).row.usage| <= 1
  {
    if actions != [] {
      CommittedAtMostOnce(s, actions[..|actions| - 1]);
    }
  }

  // ----------------------------------------------------------------- the lease

  /** Every worker that is alive is still within the lock's time. */
  ghost predicate Timely(s: Sys) {
    forall w :: 0 <= w < |s.workers| && Live(s.workers[w]) ==> s.now <= s.workers[w].since + LOCK_TTL
  }

  ghost predicate Unheld(s: Sys) {
    forall w :: 0 <= w < |s.workers| ==> !Live(s.workers[w])
  }

  /** The two lease hypotheses: a live worker finishes within the lock's time, and no retry hits a held FAILED row. */
  ghost predicate Respects(s: Sys, a: Action) {
    match a
    case Tick(_) => Timely(Step(s, a))
    case Retry => s.row.state == Failed ==> Unheld(s)
    case _ => true
  }

  ghost predicate LeaseRun(s: Sys, actions: seq<Action>) {
    actions == [] ||
    (var n := |actions| - 1; LeaseRun(s, actions[..n]) && Respects(Run(s, actions[..n]), actions[n]))
  }

  /** At most one live worker is between lock and commit or failure, and the row's lock is its own. */
  ghost predicate Exclusive(s: Sys) {
    && (forall w :: 0 <= w < |s.workers| && Live(s.workers[w]) ==> s.row.lockedAt == Some(s.workers[w].since))
    && (forall v, w :: 0 <= v < w < |s.workers| && Live(s.workers[v]) ==> !Live(s.workers[w]))
  }

  /** No retry clears a held lock, and no lock is taken while another worker is live. */
  ghost predicate KeepsExclusion(s: Sys, a: Action) {
    match a
    case Retry => s.row.state == Failed ==> Unheld(s)
    case Lock(w) => w < |s.workers| && s.workers[w].Reading? && LockFree(s.row, s.now) ==> Unheld(s)
    case _ => true
  }

  /** A step keeps exclusion if and only if it is no retry of a held FAILED row and no lock beside a live worker. */
  lemma ExclusionExactly(s: Sys, a: Action)
    requires Exclusive(s)
    ensures Exclusive(Step(s, a)) <==> KeepsExclusion(s, a)
  {
    match a
    case Lock(w) =>
      if w < |s.workers| && s.workers[w].Reading? && LockFree(s.row, s.now) {
        var t := Step(s, a);
        assert Live(t.workers[w]);
        assert forall v :: 0 <= v < |s.workers| && v != w ==> t.workers[v] == s.workers[v];
      }
    case _ =>
  }

  lemma TimelyStep(s: Sys, a: Action)
    requires Timely(s) && Respects(s, a)
    ensures Timely(Step(s, a))
  {
  }

  /** A timely schedule passes that guard: a lock can only run out once its holder is no longer live. */
  lemma LeaseStep(s: Sys, a: Action)
    requires Exclusive(s) && Timely(s) && Respects(s, a)
    ensures Exclusive(Step(s, a)) && Timely(Step(s, a))
  {
    assert KeepsExclusion(s, a);
    hide Exclusive, Timely, KeepsExclusion, Respects, Step;
    ExclusionExactly(s, a);
    TimelyStep(s, a);
  }

  /**
    Exclusion under the two lease hypotheses, with crashes, sweeps, cancels and every kind of retry mixed in:
    at most one live worker is between its lock and its commit or failure.
  */
  lemma {:induction false} LeaseOverRuns(s: Sys, actions: seq<Action>)
    requires Initial(s) && LeaseRun(s, actions)
    ensures var t := Run(s, actions);
      && Exclusive(t) && Timely(t)
      && forall v, w :: 0 <= v < w < |t.workers| && Live(t.workers[v]) ==> !Live(t.workers[w])
  {
    if actions != [] {
      var n := |actions| - 1;
      LeaseOverRuns(s, actions[..n]);
      LeaseStep(Run(s, actions[..n]), actions[n]);
    }
  }

  ghost predicate ExclusiveThroughout(s: Sys, actions: seq<Action>) {
    Exclusive(Run(s, actions)) && (actions == [] || ExclusiveThroughout(s, actions[..|actions| - 1]))
  }

  ghost predicate GuardedThroughout(s: Sys, actions: seq<Action>) {
    actions == [] ||
    (var n := |actions| - 1; GuardedThroughout(s, actions[..n]) && KeepsExclusion(Run(s, actions[..n]), actions[n]))
  }

  /** A run is exclusive all the way if and only if each of its steps passes that guard. */
  lemma {:induction false} ExclusionOverRunsExactly(s: Sys, actions: seq<Action>)
    requires Initial(s)
    ensures ExclusiveThroughout(s, actions) <==> GuardedThroughout(s, actions)
  {
    if actions != [] {
      var n := |actions| - 1;
      ExclusionOverRunsExactly(s, actions[..n]);
      if ExclusiveThroughout(s, actions[..n]) {
        hide Exclusive, KeepsExclusion, Step;
        ExclusionExactly(Run(s, actions[..n]), actions[n]);
      }
    }
  }

  /** While the lock is the holder's own, another worker gets it exactly when the holder's time has run out. */
  lemma SecondLockExactly(s: Sys, v: nat, w: nat)
    requires Exclusive(s) && v < |s.workers| && w < |s.workers|
    requires Live(s.workers[v]) && s.workers[w].Reading?
    ensures Live(Step(s, Lock(w)).workers[w]) <==> Unissued(s.row) && s.now > s.workers[v].since + LOCK_TTL
  {
  }

  // ----------------------------------------------------------- after the commit

  /** Once issued, the row is neither held nor back in a state that would be sent to the tax service. */
  ghost predicate IssuedRests(s: Sys) {
    s.row.usage != [] ==> Unheld(s) && !Unissued(s.row)
  }

  /** An operator's retry that read another state reopens an issued receipt whose cancellation is pending. */
  predicate Reopens(s: Sys, a: Action) {
    s.row.usage != [] && s.row.state == CancelPending && a == AdminRetry(false)
  }

  /** A step leaves an issued receipt at rest if and only if it is not that retry. */
  lemma ReopensExactly(s: Sys, a: Action)
    requires Exclusive(s) && IssuedRests(s)
    ensures IssuedRests(Step(s, a)) <==> !Reopens(s, a)
  {
  }

  ghost predicate NeverReopens(s: Sys, actions: seq<Action>) {
    actions == [] ||
    (var n := |actions| - 1; NeverReopens(s, actions[..n]) && !Reopens(Run(s, actions[..n]), actions[n]))
  }

  /**
    Under the lease hypotheses, and if no operator's retry reopens it, an issued receipt can never be locked
    again at any time, so it is never sent to the tax service a second time.
  */
  lemma {:induction false} IssuedNeverRelocked(s: Sys, actions: seq<Action>)
    requires Initial(s) && LeaseRun(s, actions) && NeverReopens(s, actions)
    ensures IssuedRests(Run(s, actions))
    ensures var t := Run(s, actions); t.row.usage != [] ==> forall now :: !LockFree(t.row, now)
  {
    if actions != [] {
      var n := |actions| - 1;
      IssuedNeverRelocked(s, actions[..n]);
      LeaseOverRuns(s, actions[..n]);
      hide Exclusive, Timely, Step;
      ReopensExactly(Run(s, actions[..n]), actions[n]);
    }
  }

  /** The steps that take a receipt out of CANCELLED: a failure being recorded, and a provider cancel that failed. */
  predicate Uncancels(s: Sys, a: Action) {
    match a
    case RecordFailure(w) => w < |s.workers| && s.workers[w].Failing?
    case FinishCancel(ok) => !ok && s.row.receiptNo.Some?
    case _ => false
  }

  /** A cancelled receipt stays cancelled if and only if the step is none of those two unconditional writes. */
  lemma CancelledExactly(s: Sys, a: Action)
    requires s.row.state == Cancelled
    ensures Step(s, a).row.state == Cancelled <==> !Uncancels(s, a)
  {
  }

  // -------------------------------------------------- why each hypothesis is there

  /** Some run of a new receipt ends in `s`. */
  ghost predicate Reachable(s: Sys) {
    exists start, actions :: Initial(start) && Run(start, actions) == s
  }

  lemma Reaches(s: Sys, a: Action, t: Sys)
    requires Reachable(s) && Step(s, a) == t
    ensures Reachable(t)
  {
    var start, actions :| Initial(start) && Run(start, actions) == s;
    assert (actions + [a])[..|actions|] == actions;
    assert Run(start, actions + [a]) == t;
  }

  const FRESH: Row := Row(FromApi, Pending, None, 0, None, [])
  const BEGUN: Sys := Sys(FRESH, 0, [])

  /** The first worker failed, a second one holds the FAILED row, and a third one has read it. */
  const HELD: Sys :=
    Sys(FRESH.(state := Failed, lockedAt := Some(0), retries := 1), 0, [Done, Holding(0), Reading])

  lemma BegunReached()
    ensures Reachable(BEGUN)
  {
    assert Initial(BEGUN) && Run(BEGUN, []) == BEGUN;
  }

  lemma HeldReached()
    ensures Reachable(HELD)
  {
    BegunReached();
    hide Reachable, Run;
    var failed := FRESH.(state := Failed, retries := 1);
    Reaches(BEGUN, Start, Sys(FRESH, 0, [Reading]));
    Reaches(Sys(FRESH, 0, [Reading]), Lock(0), Sys(FRESH.(lockedAt := Some(0)), 0, [Holding(0)]));
    Reaches(Sys(FRESH.(lockedAt := Some(0)), 0, [Holding(0)]), ProviderFails(0),
            Sys(FRESH.(lockedAt := Some(0)), 0, [Failing(0)]));
    Reaches(Sys(FRESH.(lockedAt := Some(0)), 0, [Failing(0)]), RecordFailure(0), Sys(failed, 0, [Done]));
    Reaches(Sys(failed, 0, [Done]), Start, Sys(failed, 0, [Done, Reading]));
    Reaches(Sys(failed, 0, [Done, Reading]), Start, Sys(failed, 0, [Done, Reading, Reading]));
    Reaches(Sys(failed, 0, [Done, Reading, Reading]), Lock(1), HELD);
  }

  ghost predicate TwoHolders(s: Sys) {
    |s.workers| == 3 && Live(s.workers[1]) && Live(s.workers[2])
  }

  /** Retrying a held FAILED row clears its lock, and a second worker takes it. */
  lemma RetryBreaksExclusion()
    ensures Reachable(HELD) && TwoHolders(Step(Step(HELD, Retry), Lock(2)))
  {
    HeldReached();
  }

  /** A live worker that overruns the lock's time loses it to a second worker. */
  lemma SlowWorkerBreaksExclusion()
    ensures Reachable(HELD) && TwoHolders(Step(Step(HELD, Tick(LOCK_TTL + 1)), Lock(2)))
  {
    HeldReached();
  }

  /** A local cancel of a held row is undone when its worker fails: the unconditional failure write revives it. */
  lemma FailureRevivesCancelled()
    ensures Reachable(HELD)
    ensures Step(HELD, CancelLocally).row.state == Cancelled
    ensures var t := Step(Step(Step(HELD, CancelLocally), ProviderFails(1)), RecordFailure(1));
      t.row.state == Failed && LockFree(t.row, t.now)
  {
    HeldReached();
  }

  /** An issued receipt whose cancellation was requested. */
  const CANCELLING: Sys :=
    Sys(FRESH.(state := CancelPending, receiptNo := Some(7), usage := [Some(EbarimtApi)]), 0, [Done])

  /** An operator's retry that read the row before the cancel request makes an issued receipt lockable again. */
  lemma StaleRetryReopens()
    ensures Reachable(CANCELLING)
    ensures var t := Step(CANCELLING, AdminRetry(false)); t.row.usage != [] && LockFree(t.row, t.now)
  {
    BegunReached();
    hide Reachable, Run;
    var issued := FRESH.(state := Created, receiptNo := Some(7), usage := [Some(EbarimtApi)]);
    Reaches(BEGUN, Start, Sys(FRESH, 0, [Reading]));
    Reaches(Sys(FRESH, 0, [Reading]), Lock(0), Sys(FRESH.(lockedAt := Some(0)), 0, [Holding(0)]));
    Reaches(Sys(FRESH.(lockedAt := Some(0)), 0, [Holding(0)]), Commit(0, 7), Sys(issued, 0, [Done]));
    Reaches(Sys(issued, 0, [Done]), RequestCancel, CANCELLING);
  }

  // ------------------------------------------------------- the service's own loop

  /** What one undisturbed `processOne` does to a row, given the tax service's answer. */
  function ProcessedRow(row: Row, now: int, answer: Option<nat>): Row {
    if !Processable(row) || !LockFree(row, now) then row
    else if answer.Some? && row.usage == [] then IssueRow(row, answer.value)
    else FailRow(row)
  }

  predicate IssuesRow(row: Row, now: int, answer: Option<nat>) {
    Processable(row) && LockFree(row, now) && answer.Some? && row.usage == []
  }

  /** The undisturbed call is a run of the protocol by one worker. */
  lemma ProcessedIsRun(row: Row, now: int, answer: Option<nat>)
    ensures exists actions :: Run(Sys(row, now, []), actions).row == ProcessedRow(row, now, answer)
  {
    var s := Sys(row, now, []);
    if Processable(row) && LockFree(row, now) {
      var locked := Sys(LockRow(row, now), now, [Holding(now)]);
      assert Step(Step(s, Start), Lock(0)) == locked;
      Runs3(s, Start, Lock(0), if answer.Some? then Commit(0, answer.value) else ProviderFails(0));
      if !IssuesRow(row, now, answer) {
        var t := Step(locked, if answer.Some? then Commit(0, answer.value) else ProviderFails(0));
        assert t == locked.(workers := [Failing(now)]);
        Runs4(s, Start, Lock(0), if answer.Some? then Commit(0, answer.value) else ProviderFails(0), RecordFailure(0));
      }
    } else {
      assert Run(s, []) == s;
    }
  }

  lemma Runs3(s: Sys, a: Action, b: Action, c: Action)
    ensures Run(s, [a, b, c]) == Step(Step(Step(s, a), b), c)
  {
    assert [a, b, c][..2] == [a, b];
    assert [a, b][..1] == [a];
    assert [a][..0] == [];
    assert Run(s, [a]) == Step(Run(s, []), a);
    assert Run(s, [a, b]) == Step(Run(s, [a]), b);
  }

  lemma Runs4(s: Sys, a: Action, b: Action, c: Action, d: Action)
    ensures Run(s, [a, b, c, d]) == Step(Step(Step(Step(s, a), b), c), d)
  {
    assert [a, b, c, d][..3] == [a, b, c];
    Runs3(s, a, b, c);
  }

  const BATCH: nat := 20

  /** What an unordered query for twenty rows may return: distinct processable rows, all of them if fewer. */
  ghost predicate Listing(rows: seq<Row>, ids: seq<nat>) {
    && |ids| <= BATCH
    && (forall k :: 0 <= k < |ids| ==> ids[k] < |rows| && Processable(rows[ids[k]]))
    && (forall j, k :: 0 <= j < k < |ids| ==> ids[j] != ids[k])
    && (|ids| < BATCH ==> forall i :: 0 <= i < |rows| && Processable(rows[i]) ==> i in ids)
  }

  function IssuedCount(rows: seq<Row>, ids: seq<nat>, clock: seq<int>, answers: seq<Option<nat>>): nat
    requires |answers| == |clock| == |rows|
    requires forall k :: 0 <= k < |ids| ==> ids[k] < |rows|
  {
    if ids == [] then 0
    else
      var n := |ids| - 1;
      IssuedCount(rows, ids[..n], clock, answers)
      + if IssuesRow(rows[ids[n]], clock[ids[n]], answers[ids[n]]) then 1 else 0
  }

  /** The table after the listed rows were processed one after the other, each by the clock when its turn came. */
  function Swept(rows: seq<Row>, ids: seq<nat>, clock: seq<int>, answers: seq<Option<nat>>): (swept: seq<Row>)
    requires |answers| == |clock| == |rows|
    requires forall k :: 0 <= k < |ids| ==> ids[k] < |rows|
    ensures |swept| == |rows|
  {
    if ids == [] then rows
    else
      var n := |ids| - 1;
      var before := Swept(rows, ids[..n], clock, answers);
      before[ids[n] := ProcessedRow(before[ids[n]], clock[ids[n]], answers[ids[n]])]
  }

  /** Each listed row is processed exactly once and every other row is left alone. */
  lemma {:induction false} SweptAt(rows: seq<Row>, ids: seq<nat>, clock: seq<int>, answers: seq<Option<nat>>, i: nat)
    requires |answers| == |clock| == |rows| && i < |rows|
    requires forall k :: 0 <= k < |ids| ==> ids[k] < |rows|
    requires forall j, k :: 0 <= j < k < |ids| ==> ids[j] != ids[k]
    ensures Swept(rows, ids, clock, answers)[i] ==
            if i in ids then ProcessedRow(rows[i], clock[i], answers[i]) else rows[i]
  {
    if ids != [] {
      var n := |ids| - 1;
      assert ids == ids[..n] + [ids[n]];
      SweptAt(rows, ids[..n], clock, answers, i);
    }
  }

  datatype CancelOutcome = CancelAccepted | NotCancellable

  class ReceiptTable {
    var rows: seq<Row>

    constructor (rows: seq<Row>)
      ensures this.rows == rows
    {
      this.rows := rows;
    }

    /** `processOne` without interference: lock, ask the tax service, then commit or record the failure. */
    method ProcessOne(i: nat, now: int, answer: Option<nat>) returns (issued: bool)
      requires i < |rows|
      modifies this
      ensures rows == old(rows)[i := ProcessedRow(old(rows)[i], now, answer)]
      ensures issued == IssuesRow(old(rows)[i], now, answer)
      ensures var row := old(rows)[i];
        var taken := row.state in {Pending, Failed} && row.retries < 5
                     && (row.lockedAt.None? || row.lockedAt.value < now - 180_000);
        && (issued <==> taken && answer.Some? && row.usage == [])
        && (!taken ==> rows[i] == row)
        && (taken && !issued ==> rows[i] == row.(state := Failed, retries := row.retries + 1, lockedAt := None))
        && (issued ==>
              && rows[i] == row.(state := Created, receiptNo := answer, lockedAt := None, usage := rows[i].usage)
              && |rows[i].usage| == 1)
    {
      var receipt := rows[i];
      if receipt.state !in {Pending, Failed} || receipt.retries >= MAX_RETRIES { return false; }
      if !LockFree(rows[i], now) { return false; }
      rows := rows[i := rows[i].(lockedAt := Some(now))];
      if answer.Some? && rows[i].usage == [] {
        rows := rows[i := rows[i].(state := Created, receiptNo := Some(answer.value), lockedAt := None,
                                   usage := rows[i].usage + [ServiceOf(receipt.source)])];
        return true;
      }
      rows := rows[i := rows[i].(state := Failed, retries := rows[i].retries + 1, lockedAt := None)];
      return false;
    }

    /** The loop over whatever rows the query listed; `processed` counts the issued ones. */
    method ProcessPending(pending: seq<nat>, clock: seq<int>, answers: seq<Option<nat>>) returns (processed: nat)
      requires |answers| == |clock| == |rows| && Listing(rows, pending)
      modifies this
      ensures rows == Swept(old(rows), pending, clock, answers)
      ensures processed == IssuedCount(old(rows), pending, clock, answers)
    {
      hide ProcessedRow, IssuesRow, Processable;
      ghost var before := rows;
      processed := 0;
      for k := 0 to |pending|
        invariant rows == Swept(before, pending[..k], clock, answers)
        invariant processed == IssuedCount(before, pending[..k], clock, answers)
      {
        var i := pending[k];
        assert pending[..k + 1][..k] == pending[..k];
        assert rows[i] == before[i] by { SweptAt(before, pending[..k], clock, answers, i); }
        var issued := ProcessOne(i, clock[i], answers[i]);
        if issued { processed := processed + 1; }
      }
      assert pending[..|pending|] == pending;
    }

    /** `retry`: a FAILED row goes back to PENDING with its lock cleared. */
    method RetryOne(i: nat)
      requires i < |rows|
      modifies this
      ensures rows == old(rows)[i := RetryRow(old(rows)[i])]
      ensures rows == old(rows)[i := if old(rows)[i].state == Failed
                                     then old(rows)[i].(state := Pending, lockedAt := None) else old(rows)[i]]
    {
      if rows[i].state == Failed {
        rows := rows[i := rows[i].(state := Pending, lockedAt := None)];
      }
    }

    /**
      `cancel` without interference: an unissued receipt is cancelled at once, an issued one through the
      provider, which leaves it CANCEL_PENDING when it fails.
    */
    method Cancel(i: nat, providerCancels: bool) returns (r: CancelOutcome)
      requires i < |rows|
      modifies this
      ensures |rows| == |old(rows)| && rows == old(rows)[i := rows[i]]
      ensures var row := old(rows)[i];
        && (r == NotCancellable <==>
              row.state == NotRequired || (row.state in {Created, Delivered, CancelPending} && row.receiptNo.None?))
        && (r == NotCancellable || row.state == Cancelled ==> rows[i] == row)
        && (row.state in {Pending, Failed} ==>
              rows[i] == row.(state := Cancelled) == Step(Sys(row, 0, []), CancelLocally).row)
        && (r == CancelAccepted && row.state in {Created, Delivered, CancelPending} ==>
              && rows[i] == row.(state := if providerCancels then Cancelled else CancelPending)
              && rows[i] == Step(Step(Sys(row, 0, []), RequestCancel), FinishCancel(providerCancels)).row)
    {
      var receipt := rows[i];
      if receipt.state == Cancelled { return CancelAccepted; }
      if receipt.state == NotRequired { return NotCancellable; }
      if receipt.state in {Pending, Failed} {
        rows := rows[i := rows[i].(state := Cancelled)];
        return CancelAccepted;
      }
      if receipt.receiptNo.None? { return NotCancellable; }
      if rows[i].state in {Created, Delivered} { rows := rows[i := rows[i].(state := CancelPending)]; }
      rows := rows[i := rows[i].(state := if providerCancels then Cancelled else CancelPending)];
      return CancelAccepted;
    }

    /** The operator's retry: a failed receipt or a pending cancellation gets all its attempts back. */
    method AdminRetryOne(i: nat)
      requires i < |rows|
      modifies this
      ensures var row := old(rows)[i]; var saw := row.state == CancelPending;
        && |rows| == |old(rows)| && rows == old(rows)[i := rows[i]]
        && rows[i] == Step(Sys(row, 0, []), AdminRetry(saw)).row
        && (row.state !in {Failed, CancelPending} ==> rows[i] == row)
        && (row.state == Failed ==> rows[i] == row.(state := Pending, retries := 0))
        && (row.state == CancelPending ==> rows[i] == row.(retries := 0))
    {
      var saw := rows[i].state;
      if rows[i].state in {Failed, CancelPending} {
        rows := rows[i := rows[i].(state := if saw == CancelPending then CancelPending else Pending, retries := 0)];
      }
    }
  }
}
