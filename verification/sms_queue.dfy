/**
  The SMS queue: jobs are metered when queued, dispatchers claim and send, pollers record the delivery
  outcome, operators requeue failed jobs. Any number of each interleave, one database write at a time.
*/
module SmsQueue {
  import opened Options
  import opened Services

  datatype Status = Queued | Submitted | Delivered | Failed

  /** A job; `sends` and `retries` are histories of the provider calls and of the successful requeues. */
  datatype Job = Job(status: Status, ref: bool, segments: nat, service: Option<Service>, sends: nat, retries: nat)

  datatype Meter = SmsSegmentSent | InvoiceMsgSent

  datatype Usage = Usage(meter: Meter, qty: nat, service: Option<Service>, job: nat)

  /** What the provider call returned, or that it (or the write after it) threw. */
  datatype Outcome = Accepted(delivered: bool, ref: bool) | Threw

  datatype Phase = Listing | Claimed | Sent(outcome: Outcome) | Polling | Finished

  datatype Worker = Worker(job: nat, phase: Phase)

  datatype Sys = Sys(jobs: seq<Job>, usage: seq<Usage>, workers: seq<Worker>)

  datatype Action =
    | SendSms(segments: nat, service: Option<Service>)
    | List(job: nat)
    | Claim(worker: nat)
    | CallProvider(worker: nat, outcome: Outcome)
    | Record(worker: nat, written: bool)
    | StartPoll(job: nat)
    | RecordPoll(worker: nat, delivered: bool)
    | Retry(job: nat)
    | Stop(worker: nat)

  const EMPTY: Sys := Sys([], [], [])

  // ---------------------------------------------------------------- the steps

  function MeteredAt(job: nat, segments: nat, service: Option<Service>): seq<Usage> {
    [Usage(SmsSegmentSent, segments, service, job)] +
    if service.Some? then [Usage(InvoiceMsgSent, 1, service, job)] else []
  }

  function SendSmsStep(s: Sys, segments: nat, service: Option<Service>): Sys {
    s.(jobs := s.jobs + [Job(Queued, false, segments, service, 0, 0)],
       usage := s.usage + MeteredAt(|s.jobs|, segments, service))
  }

  predicate Valid(s: Sys, w: nat) {
    w < |s.workers| && s.workers[w].job < |s.jobs|
  }

  function Go(s: Sys, w: nat, job: Job, phase: Phase): Sys
    requires Valid(s, w)
  {
    var i := s.workers[w].job;
    s.(jobs := s.jobs[i := job], workers := s.workers[w := Worker(i, phase)])
  }

  /** The unconditional write after the provider call. */
  function RecordJob(job: Job, outcome: Outcome): Job {
    match outcome
    case Accepted(delivered, ref) => job.(status := if delivered then Delivered else Submitted, ref := ref)
    case Threw => job.(status := Failed)
  }

  function Step(s: Sys, a: Action): Sys {
    match a
    case SendSms(segments, service) => SendSmsStep(s, segments, service)
    case List(i) =>
      if i < |s.jobs| && s.jobs[i].status == Queued then s.(workers := s.workers + [Worker(i, Listing)]) else s
    case Claim(w) =>
      if Valid(s, w) && s.workers[w].phase == Listing then
        var job := s.jobs[s.workers[w].job];
        if job.status == Queued then Go(s, w, job.(status := Submitted), Claimed) else Go(s, w, job, Finished)
      else s
    case CallProvider(w, outcome) =>
      if Valid(s, w) && s.workers[w].phase == Claimed then
        var job := s.jobs[s.workers[w].job];
        Go(s, w, job.(sends := job.sends + 1), Sent(outcome))
      else s
    case Record(w, written) =>
      if Valid(s, w) && s.workers[w].phase.Sent? then
        var job := s.jobs[s.workers[w].job];
        var outcome := s.workers[w].phase.outcome;
        if written then Go(s, w, RecordJob(job, outcome), Finished)
        else Go(s, w, job, if outcome.Accepted? then Sent(Threw) else Finished)
      else s
    case StartPoll(i) =>
      if i < |s.jobs| && s.jobs[i].status == Submitted && s.jobs[i].ref then
        s.(workers := s.workers + [Worker(i, Polling)])
      else s
    case RecordPoll(w, delivered) =>
      if Valid(s, w) && s.workers[w].phase == Polling then
        var job := s.jobs[s.workers[w].job];
        var outcome := if delivered then Delivered else Failed;
        Go(s, w, if job.status == Submitted then job.(status := outcome) else job, Finished)
      else s
    case Retry(i) =>
      if i < |s.jobs| && s.jobs[i].status == Failed then
        s.(jobs := s.jobs[i := s.jobs[i].(status := Queued, retries := s.jobs[i].retries + 1)])
      else s
    case Stop(w) =>
      if Valid(s, w) then s.(workers := s.workers[w := Worker(s.workers[w].job, Finished)]) else s
  }

  function Run(s: Sys, actions: seq<Action>): Sys {
    if actions == [] then s else Step(Run(s, actions[..|actions| - 1]), actions[|actions| - 1])
  }

  // ------------------------------------------------------- sends against retries

  /** The workers that have claimed job `i` and not called the provider yet. */
  ghost function Unsent(workers: seq<Worker>, i: nat): nat {
    if workers == [] then 0
    else
      var n := |workers| - 1;
      Unsent(workers[..n], i) + if workers[n] == Worker(i, Claimed) then 1 else 0
  }

  lemma {:induction false} UnsentUpdate(workers: seq<Worker>, w: nat, worker: Worker, i: nat)
    requires w < |workers|
    ensures Unsent(workers[w := worker], i) ==
            Unsent(workers, i) - (if workers[w] == Worker(i, Claimed) then 1 else 0)
            + (if worker == Worker(i, Claimed) then 1 else 0)
  {
    var n := |workers| - 1;
    if w < n {
      assert workers[w := worker][..n] == workers[..n][w := worker];
      UnsentUpdate(workers[..n], w, worker, i);
    } else {
      assert workers[w := worker][..n] == workers[..n];
    }
  }

  lemma UnsentAppend(workers: seq<Worker>, worker: Worker, i: nat)
    ensures Unsent(workers + [worker], i) == Unsent(workers, i) + if worker == Worker(i, Claimed) then 1 else 0
  {
    assert (workers + [worker])[..|workers|] == workers;
  }

  /** Each claim uses up one queueing: the first or a successful retry. */
  ghost predicate Bounded(s: Sys, i: nat) {
    i < |s.jobs| ==>
      var job := s.jobs[i];
      job.sends + Unsent(s.workers, i) + (if job.status == Queued then 1 else 0) <= 1 + job.retries
  }

  ghost predicate InRange(s: Sys) {
    forall w :: 0 <= w < |s.workers| ==> s.workers[w].job < |s.jobs|
  }

  lemma NoneUnsent(workers: seq<Worker>, i: nat)
    requires forall w :: 0 <= w < |workers| ==> workers[w].job < i
    ensures Unsent(workers, i) == 0
  {
  }

  ghost function Cost(job: Job, phase: Phase): int {
    job.sends - job.retries + (if phase == Claimed then 1 else 0) + (if job.status == Queued then 1 else 0)
  }

  lemma BoundedGo(s: Sys, w: nat, job: Job, phase: Phase, i: nat)
    requires InRange(s) && Bounded(s, i) && Valid(s, w)
    requires Cost(job, phase) <= Cost(s.jobs[s.workers[w].job], s.workers[w].phase)
    ensures InRange(Go(s, w, job, phase)) && Bounded(Go(s, w, job, phase), i)
  {
    UnsentUpdate(s.workers, w, Worker(s.workers[w].job, phase), i);
  }

  lemma BoundedJoin(s: Sys, i: nat, worker: Worker)
    requires InRange(s) && Bounded(s, i) && worker.job < |s.jobs| && worker.phase != Claimed
    ensures InRange(s.(workers := s.workers + [worker])) && Bounded(s.(workers := s.workers + [worker]), i)
  {
    UnsentAppend(s.workers, worker, i);
  }

  lemma BoundedStep(s: Sys, a: Action, i: nat)
    requires InRange(s) && Bounded(s, i)
    ensures InRange(Step(s, a)) && Bounded(Step(s, a), i)
  {
    if a.SendSms? {
      if i == |s.jobs| { NoneUnsent(s.workers, i); }
    } else if a.List? || a.StartPoll? {
      var worker := Worker(a.job, if a.List? then Listing else Polling);
      if a.job < |s.jobs| { BoundedJoin(s, i, worker); }
    } else if !a.Retry? && Valid(s, a.worker) {
      var t := Step(s, a);
      hide Unsent, InRange, Bounded;
      if t != s {
        var j := s.workers[a.worker].job;
        assert t == Go(s, a.worker, t.jobs[j], t.workers[a.worker].phase);
        BoundedGo(s, a.worker, t.jobs[j], t.workers[a.worker].phase, i);
      }
    }
  }

  lemma {:induction false} BoundedRun(actions: seq<Action>, i: nat)
    ensures InRange(Run(EMPTY, actions)) && Bounded(Run(EMPTY, actions), i)
  {
    if actions != [] {
      var n := |actions| - 1;
      BoundedRun(actions[..n], i);
      BoundedStep(Run(EMPTY, actions[..n]), actions[n], i);
    }
  }

  /** Over any interleaving a job is sent at most once, plus once for each successful retry of it. */
  lemma {:induction false} SendsBounded(actions: seq<Action>, i: nat)
    requires i < |Run(EMPTY, actions).jobs|
    ensures var job := Run(EMPTY, actions).jobs[i]; job.sends <= 1 + job.retries
  {
    BoundedRun(actions, i);
  }

  // ----------------------------------------------------------------- metering

  /** The units of a meter booked for job `i`. */
  ghost function Booked(usage: seq<Usage>, meter: Meter, i: nat): nat {
    if usage == [] then 0
    else
      var n := |usage| - 1;
      Booked(usage[..n], meter, i) + if usage[n].meter == meter && usage[n].job == i then usage[n].qty else 0
  }

  lemma {:induction false} BookedAppend(u: seq<Usage>, v: seq<Usage>, meter: Meter, i: nat)
    ensures Booked(u + v, meter, i) == Booked(u, meter, i) + Booked(v, meter, i)
  {
    if v == [] {
      assert u + v == u;
    } else {
      var n := |v| - 1;
      assert (u + v)[..|u + v| - 1] == u + v[..n];
      BookedAppend(u, v[..n], meter, i);
    }
  }

  lemma MeteredBooks(job: nat, segments: nat, service: Option<Service>, i: nat)
    ensures Booked(MeteredAt(job, segments, service), SmsSegmentSent, i) == if i == job then segments else 0
    ensures Booked(MeteredAt(job, segments, service), InvoiceMsgSent, i) ==
            if i == job && service.Some? then 1 else 0
  {
    var a, b := Usage(SmsSegmentSent, segments, service, job), Usage(InvoiceMsgSent, 1, service, job);
    BookedAppend([a], [b], SmsSegmentSent, i);
    BookedAppend([a], [b], InvoiceMsgSent, i);
    assert [a] + [] == [a] && forall u: Usage :: [u][..0] == [];
  }

  ghost predicate MeteredRight(s: Sys, i: nat) {
    && (i < |s.jobs| ==>
          && Booked(s.usage, SmsSegmentSent, i) == s.jobs[i].segments
          && Booked(s.usage, InvoiceMsgSent, i) == if s.jobs[i].service.Some? then 1 else 0)
    && (i >= |s.jobs| ==> Booked(s.usage, SmsSegmentSent, i) == Booked(s.usage, InvoiceMsgSent, i) == 0)
  }

  /** Every usage row is of a queued job and names its service. */
  ghost predicate UsageOwned(s: Sys) {
    forall k :: 0 <= k < |s.usage| ==>
      s.usage[k].job < |s.jobs| && s.usage[k].service == s.jobs[s.usage[k].job].service
  }

  lemma OwnedStep(s: Sys, a: Action)
    requires UsageOwned(s)
    ensures UsageOwned(Step(s, a))
  {
  }

  lemma MeteredStep(s: Sys, a: Action, i: nat)
    requires MeteredRight(s, i)
    ensures MeteredRight(Step(s, a), i)
  {
    if a.SendSms? {
      var v := MeteredAt(|s.jobs|, a.segments, a.service);
      BookedAppend(s.usage, v, SmsSegmentSent, i);
      BookedAppend(s.usage, v, InvoiceMsgSent, i);
      MeteredBooks(|s.jobs|, a.segments, a.service, i);
    }
  }

  /**
    A job is charged once, when it is queued, and never again however often it is claimed, sent, polled or
    retried: its segments for the cost statistics and one message unit exactly when a paid service sent it.
    Every usage row names the service of its job.
  */
  lemma {:induction false} MeteredOnce(actions: seq<Action>, i: nat)
    ensures var s := Run(EMPTY, actions);
      && (i < |s.jobs| ==>
            && Booked(s.usage, SmsSegmentSent, i) == s.jobs[i].segments
            && Booked(s.usage, InvoiceMsgSent, i) == if s.jobs[i].service.Some? then 1 else 0)
      && (i >= |s.jobs| ==> Booked(s.usage, SmsSegmentSent, i) == Booked(s.usage, InvoiceMsgSent, i) == 0)
      && UsageOwned(s)
  {
    hide Step, UsageOwned, Booked;
    assert UsageOwned(EMPTY) && MeteredRight(EMPTY, i) by { MeteredEmpty(i); }
    if actions != [] {
      var n := |actions| - 1;
      MeteredOnce(actions[..n], i);
      MeteredStep(Run(EMPTY, actions[..n]), actions[n], i);
      OwnedStep(Run(EMPTY, actions[..n]), actions[n]);
    }
  }

  lemma MeteredEmpty(i: nat)
    ensures UsageOwned(EMPTY) && MeteredRight(EMPTY, i)
  {
  }

  // ------------------------------------------------------ when delivery is final

  predicate InFlight(worker: Worker, i: nat) {
    worker.job == i && (worker.phase == Claimed || worker.phase.Sent?)
  }

  /** A job never requeued has at most one worker in flight, and only while it is SUBMITTED without a reference. */
  ghost predicate Single(s: Sys, i: nat) {
    i < |s.jobs| && s.jobs[i].retries == 0 ==>
      && (forall w :: 0 <= w < |s.workers| && InFlight(s.workers[w], i) ==>
            s.jobs[i].status == Submitted && !s.jobs[i].ref)
      && (forall v, w :: 0 <= v < w < |s.workers| && InFlight(s.workers[v], i) ==> !InFlight(s.workers[w], i))
      && (forall w :: 0 <= w < |s.workers| && s.workers[w] == Worker(i, Polling) ==> s.jobs[i].ref)
      && (s.jobs[i].status == Queued ==> !s.jobs[i].ref)
  }

  lemma SingleSend(s: Sys, a: Action, i: nat)
    requires InRange(s) && Single(s, i) && (a.Claim? || a.CallProvider? || a.Record?)
    ensures Single(Step(s, a), i)
  {
  }

  lemma SingleStep(s: Sys, a: Action, i: nat)
    requires InRange(s) && Single(s, i)
    ensures Single(Step(s, a), i)
  {
    if a.Claim? || a.CallProvider? || a.Record? {
      hide Single, Step;
      SingleSend(s, a, i);
    }
  }

  lemma {:induction false} SingleRun(actions: seq<Action>, i: nat)
    ensures Single(Run(EMPTY, actions), i)
  {
    if actions != [] {
      var n := |actions| - 1;
      SingleRun(actions[..n], i);
      BoundedRun(actions[..n], i);
      SingleStep(Run(EMPTY, actions[..n]), actions[n], i);
    }
  }

  /** A dispatcher's write, after its provider call, of anything but a delivery of the job. */
  predicate Overwrites(s: Sys, a: Action, i: nat) {
    && a.Record? && a.written && Valid(s, a.worker) && s.workers[a.worker].job == i
    && s.workers[a.worker].phase.Sent?
    && !(s.workers[a.worker].phase.outcome.Accepted? && s.workers[a.worker].phase.outcome.delivered)
  }

  /** A delivered job stays delivered in a step if and only if it is not such a write. */
  lemma DeliveredExactly(s: Sys, a: Action, i: nat)
    requires InRange(s) && i < |s.jobs| && s.jobs[i].status == Delivered
    ensures Step(s, a).jobs[i].status == Delivered <==> !Overwrites(s, a, i)
  {
  }

  predicate IsDelivered(s: Sys, i: nat) {
    i < |s.jobs| && s.jobs[i].status == Delivered
  }

  /** No dispatcher is between its claim of the job and its write. */
  ghost predicate Quiet(s: Sys, i: nat) {
    forall w :: 0 <= w < |s.workers| ==> !InFlight(s.workers[w], i)
  }

  lemma QuietStep(s: Sys, a: Action, i: nat)
    requires InRange(s) && IsDelivered(s, i) && Quiet(s, i)
    ensures var t := Step(s, a);
      InRange(t) && IsDelivered(t, i) && Quiet(t, i) && t.jobs[i].sends == s.jobs[i].sends
  {
  }

  /** A delivered job with no dispatcher in flight stays delivered in every continuation and is not sent again. */
  lemma {:induction false} QuietIsFinal(s: Sys, more: seq<Action>, i: nat)
    requires InRange(s) && IsDelivered(s, i) && Quiet(s, i)
    ensures var t := Run(s, more);
      InRange(t) && IsDelivered(t, i) && Quiet(t, i) && t.jobs[i].sends == s.jobs[i].sends
  {
    hide Step, Quiet, InRange, IsDelivered;
    if more != [] {
      var n := |more| - 1;
      QuietIsFinal(s, more[..n], i);
      QuietStep(Run(s, more[..n]), more[n], i);
    }
  }

  lemma ThrewOverwrites(s: Sys, w: nat, i: nat)
    requires Valid(s, w) && s.workers[w] == Worker(i, Sent(Threw))
    ensures !IsDelivered(Step(s, Record(w, true)), i)
  {
  }

  lemma OneStep(s: Sys, a: Action)
    ensures Run(s, [a]) == Step(s, a)
  {
    assert [a][..0] == [];
  }

  /** A dispatcher in flight may still fail, or have its write fail, and then record the job as FAILED. */
  lemma InFlightCanOverwrite(s: Sys, w: nat, i: nat)
    requires Valid(s, w) && InFlight(s.workers[w], i)
    ensures exists more :: !IsDelivered(Run(s, more), i)
  {
    var last := Record(w, true);
    if s.workers[w].phase == Sent(Threw) {
      OneStep(s, last);
      ThrewOverwrites(s, w, i);
      assert !IsDelivered(Run(s, [last]), i);
    } else {
      var a := if s.workers[w].phase == Claimed then CallProvider(w, Threw) else Record(w, false);
      assert Valid(Step(s, a), w) && Step(s, a).workers[w] == Worker(i, Sent(Threw));
      hide Step, IsDelivered;
      ThrewOverwrites(Step(s, a), w, i);
      OneStep(s, a);
      Last(s, [a], last);
      hide Run;
      assert !IsDelivered(Run(s, [a] + [last]), i);
    }
  }

  /** A delivery is final, over every continuation, if and only if no dispatcher of the job is in flight. */
  lemma {:induction false} DeliveryFinalExactly(s: Sys, i: nat)
    requires InRange(s) && IsDelivered(s, i)
    ensures (forall more :: IsDelivered(Run(s, more), i)) <==> Quiet(s, i)
  {
    hide Run, IsDelivered;
    if Quiet(s, i) {
      forall more ensures IsDelivered(Run(s, more), i) { QuietIsFinal(s, more, i); }
    } else {
      var w :| 0 <= w < |s.workers| && InFlight(s.workers[w], i);
      InFlightCanOverwrite(s, w, i);
    }
  }

  ghost predicate DeliveredUnretried(s: Sys, i: nat) {
    i < |s.jobs| && s.jobs[i].status == Delivered && s.jobs[i].retries == 0
  }

  lemma DeliveredStep(s: Sys, a: Action, i: nat)
    requires InRange(s) && Single(s, i) && DeliveredUnretried(s, i)
    ensures DeliveredUnretried(Step(s, a), i) && Step(s, a).jobs[i].sends == s.jobs[i].sends
  {
  }

  /** Once delivered, a job that was never requeued stays delivered in every continuation and is not sent again. */
  lemma {:induction false} DeliveredIsFinal(actions: seq<Action>, more: seq<Action>, i: nat)
    requires DeliveredUnretried(Run(EMPTY, actions), i)
    ensures var t := Run(EMPTY, actions + more);
      DeliveredUnretried(t, i) && t.jobs[i].sends == Run(EMPTY, actions).jobs[i].sends
  {
    if more == [] {
      assert actions + more == actions;
    } else {
      var n := |more| - 1;
      var before := actions + more[..n];
      assert actions + more == before + [more[n]];
      Last(EMPTY, before, more[n]);
      hide Step, Single, InRange, Run;
      DeliveredIsFinal(actions, more[..n], i);
      SingleRun(before, i);
      BoundedRun(before, i);
      DeliveredStep(Run(EMPTY, before), more[n], i);
    }
  }

  /** A job submitted once, reported undelivered and requeued: its old provider reference is kept. */
  const STALE: Sys := Sys(
    [Job(Submitted, true, 1, None, 1, 1)], MeteredAt(0, 1, None),
    [Worker(0, Finished), Worker(0, Finished), Worker(0, Claimed), Worker(0, Polling)])

  ghost predicate Reachable(s: Sys) {
    exists actions :: Run(EMPTY, actions) == s
  }

  lemma Reaches(s: Sys, a: Action, t: Sys)
    requires Reachable(s) && Step(s, a) == t
    ensures Reachable(t)
  {
    var actions :| Run(EMPTY, actions) == s;
    Last(EMPTY, actions, a);
    assert Run(EMPTY, actions + [a]) == t;
  }

  lemma Last(s: Sys, actions: seq<Action>, a: Action)
    ensures Run(s, actions + [a]) == Step(Run(s, actions), a)
  {
    assert (actions + [a])[..|actions|] == actions;
  }

  const JOB: Job := Job(Queued, false, 1, None, 0, 0)
  const FIRST: Sys := Sys([JOB], MeteredAt(0, 1, None), [])
  const CLAIMED: Sys := Sys([JOB.(status := Submitted)], FIRST.usage, [Worker(0, Claimed)])
  const ONCE: Sys := Sys([JOB.(status := Submitted, ref := true, sends := 1)], FIRST.usage, [Worker(0, Finished)])

  lemma FirstReached()
    ensures Reachable(FIRST)
  {
    assert Run(EMPTY, []) == EMPTY;
    Reaches(EMPTY, SendSms(1, None), FIRST);
  }

  lemma ClaimedReached()
    ensures Reachable(CLAIMED)
  {
    FirstReached();
    hide Reachable, Run, MeteredAt, SendSmsStep;
    Reaches(FIRST, List(0), FIRST.(workers := [Worker(0, Listing)]));
    Reaches(FIRST.(workers := [Worker(0, Listing)]), Claim(0), CLAIMED);
  }

  lemma OnceReached()
    ensures Reachable(ONCE)
  {
    ClaimedReached();
    hide Reachable, Run, MeteredAt, SendSmsStep;
    var answer := Accepted(false, true);
    var sent := Sys([JOB.(status := Submitted, sends := 1)], FIRST.usage, [Worker(0, Sent(answer))]);
    Reaches(CLAIMED, CallProvider(0, answer), sent);
    Reaches(sent, Record(0, true), ONCE);
  }

  lemma StaleReached()
    ensures Reachable(STALE)
  {
    OnceReached();
    var sent, usage, done := ONCE.jobs[0], ONCE.usage, Worker(0, Finished);
    var again := sent.(status := Queued, retries := 1);
    var s5 := Sys([sent], usage, [done, Worker(0, Polling)]);
    var s6 := Sys([sent.(status := Failed)], usage, [done, done]);
    var s7 := Sys([again], usage, [done, done]);
    var s8 := Sys([again], usage, [done, done, Worker(0, Listing)]);
    var s9 := Sys(STALE.jobs, usage, [done, done, Worker(0, Claimed)]);
    hide Reachable, Run, MeteredAt, SendSmsStep;
    Reaches(ONCE, StartPoll(0), s5);
    Reaches(s5, RecordPoll(1, false), s6);
    Reaches(s6, Retry(0), s7);
    Reaches(s7, List(0), s8);
    Reaches(s8, Claim(2), s9);
    Reaches(s9, StartPoll(0), STALE);
  }

  /**
    After a requeue delivery is not final: a poll on the stale reference marks the job DELIVERED while the
    second send is under way, and that send's failure overwrites it.
  */
  lemma StaleReferenceRevivesDelivered()
    ensures Reachable(STALE)
    ensures var polled := Step(STALE, RecordPoll(3, true));
      && polled.jobs[0].status == Delivered
      && Step(Step(polled, CallProvider(2, Threw)), Record(2, true)).jobs[0].status == Failed
  {
    StaleReached();
  }

  // ------------------------------------------------------- the service's own loops

  /** What one undisturbed dispatch does to a queued job. */
  function SentJob(job: Job, outcome: Outcome): Job {
    RecordJob(job.(status := Submitted, sends := job.sends + 1), outcome)
  }

  /** The undisturbed dispatch of a queued job is a run of the protocol by one worker. */
  lemma DispatchIsRun(s: Sys, i: nat, outcome: Outcome)
    requires i < |s.jobs| && s.jobs[i].status == Queued
    ensures var w := |s.workers|;
      Run(s, [] + [List(i)] + [Claim(w)] + [CallProvider(w, outcome)] + [Record(w, true)]).jobs
      == s.jobs[i := SentJob(s.jobs[i], outcome)]
  {
    var w, job := |s.workers|, s.jobs[i];
    Last(s, [], List(i));
    Last(s, [] + [List(i)], Claim(w));
    Last(s, [] + [List(i)] + [Claim(w)], CallProvider(w, outcome));
    Last(s, [] + [List(i)] + [Claim(w)] + [CallProvider(w, outcome)], Record(w, true));
    assert Run(s, []) == s;
    hide Run, RecordJob;
    var s1 := s.(workers := s.workers + [Worker(i, Listing)]);
    assert Step(s, List(i)) == s1;
    var s2 := Go(s1, w, job.(status := Submitted), Claimed);
    assert Step(s1, Claim(w)) == s2;
    var s3 := Go(s2, w, job.(status := Submitted, sends := job.sends + 1), Sent(outcome));
    assert Step(s2, CallProvider(w, outcome)) == s3;
  }

  const TAKE: nat := 500

  /** The jobs a dispatch lists, oldest first. */
  function QueuedIds(jobs: seq<Job>): (ids: seq<nat>)
    ensures forall k :: 0 <= k < |ids| ==> ids[k] < |jobs| && jobs[ids[k]].status == Queued
    ensures forall j, k :: 0 <= j < k < |ids| ==> ids[j] < ids[k]
    ensures forall i :: 0 <= i < |jobs| && jobs[i].status == Queued ==> i in ids
  {
    if jobs == [] then []
    else
      var n := |jobs| - 1;
      QueuedIds(jobs[..n]) + if jobs[n].status == Queued then [n] else []
  }

  /** The oldest 500 queued jobs, or all of them if there are fewer. */
  function Listed(jobs: seq<Job>): (ids: seq<nat>)
    ensures forall k :: 0 <= k < |ids| ==> ids[k] < |jobs| && jobs[ids[k]].status == Queued
    ensures forall j, k :: 0 <= j < k < |ids| ==> ids[j] < ids[k]
    ensures |ids| <= 500
    ensures forall i :: 0 <= i < |jobs| && jobs[i].status == Queued && i !in ids ==>
      |ids| == 500 && forall k :: 0 <= k < |ids| ==> ids[k] < i
  {
    var ids := QueuedIds(jobs);
    if |ids| <= TAKE then ids else ids[..TAKE]
  }

  ghost function AcceptedCount(ids: seq<nat>, answers: seq<Outcome>): nat
    requires forall k :: 0 <= k < |ids| ==> ids[k] < |answers|
  {
    if ids == [] then 0
    else
      var n := |ids| - 1;
      AcceptedCount(ids[..n], answers) + if answers[ids[n]].Accepted? then 1 else 0
  }

  ghost predicate Dispatched(jobs: seq<Job>, before: seq<Job>, ids: seq<nat>, answers: seq<Outcome>) {
    && |jobs| == |before| == |answers|
    && forall i :: 0 <= i < |jobs| ==> jobs[i] == if i in ids then SentJob(before[i], answers[i]) else before[i]
  }

  lemma DispatchedNext(jobs: seq<Job>, before: seq<Job>, ids: seq<nat>, k: nat, answers: seq<Outcome>)
    requires k < |ids| && Dispatched(jobs, before, ids[..k], answers)
    requires ids[k] < |jobs| && forall j :: 0 <= j < k ==> ids[j] < ids[k]
    ensures jobs[ids[k]] == before[ids[k]]
    ensures Dispatched(jobs[ids[k] := SentJob(before[ids[k]], answers[ids[k]])], before, ids[..k + 1], answers)
  {
    assert ids[..k + 1] == ids[..k] + [ids[k]];
  }

  lemma AcceptedNext(ids: seq<nat>, k: nat, answers: seq<Outcome>)
    requires k < |ids| && forall j :: 0 <= j < |ids| ==> ids[j] < |answers|
    ensures AcceptedCount(ids[..k + 1], answers) ==
            AcceptedCount(ids[..k], answers) + if answers[ids[k]].Accepted? then 1 else 0
  {
    assert ids[..k + 1][..k] == ids[..k];
  }

  class JobTable {
    var jobs: seq<Job>
    var usage: seq<Usage>

    constructor ()
      ensures jobs == [] && usage == []
    {
      jobs, usage := [], [];
    }

    /** `sendSms`: queue the job and meter it in the same transaction. */
    method Queue(segments: nat, service: Option<Service>)
      modifies this
      ensures Sys(jobs, usage, []) == SendSmsStep(Sys(old(jobs), old(usage), []), segments, service)
      ensures jobs == old(jobs) + [Job(Queued, false, segments, service, 0, 0)]
    {
      var id := |jobs|;
      jobs := jobs + [Job(Queued, false, segments, service, 0, 0)];
      usage := usage + [Usage(SmsSegmentSent, segments, service, id)];
      if service == Some(ExcelSms) || service == Some(ApiSms) {
        usage := usage + [Usage(InvoiceMsgSent, 1, service, id)];
      }
      assert service.Some? ==> service.value == ExcelSms || service.value == ApiSms;
      assert usage == old(usage) + MeteredAt(id, segments, service);
    }

    /** One round of the loop: claim, call the provider, record the answer. */
    method DispatchOne(id: nat, answer: Outcome) returns (sent: bool)
      requires id < |jobs|
      modifies this`jobs
      ensures sent <==> old(jobs)[id].status == Queued
      ensures jobs == if sent then old(jobs)[id := SentJob(old(jobs)[id], answer)] else old(jobs)
      ensures sent ==>
        && jobs[id].sends == old(jobs)[id].sends + 1 && jobs[id].retries == old(jobs)[id].retries
        && jobs[id].segments == old(jobs)[id].segments && jobs[id].service == old(jobs)[id].service
        && (answer.Threw? ==> jobs[id].status == Failed && jobs[id].ref == old(jobs)[id].ref)
        && (answer.Accepted? ==> jobs[id].ref == answer.ref)
        && (answer.Accepted? && answer.delivered ==> jobs[id].status == Delivered)
        && (answer.Accepted? && !answer.delivered ==> jobs[id].status == Submitted)
    {
      if jobs[id].status != Queued { return false; }
      jobs := jobs[id := jobs[id].(status := Submitted)];
      jobs := jobs[id := jobs[id].(sends := jobs[id].sends + 1)];
      jobs := jobs[id := RecordJob(jobs[id], answer)];
      return true;
    }

    /**
      `dispatchQueued` without interference: each of the oldest 500 queued jobs is sent exactly once and
      recorded with the provider's answer, the others are untouched, and every listed job is counted.
    */
    method DispatchQueued(answers: seq<Outcome>) returns (submitted: nat, failed: nat)
      requires |answers| == |jobs|
      modifies this`jobs
      ensures Dispatched(jobs, old(jobs), Listed(old(jobs)), answers)
      ensures submitted == AcceptedCount(Listed(old(jobs)), answers)
      ensures submitted + failed == |Listed(old(jobs))|
    {
      var ids := Listed(jobs);
      ghost var before := jobs;
      submitted, failed := 0, 0;
      assert Dispatched(jobs, before, ids[..0], answers) && AcceptedCount(ids[..0], answers) == 0;
      hide Listed, QueuedIds, SentJob, Dispatched, AcceptedCount;
      for k := 0 to |ids|
        invariant |jobs| == |before| && Dispatched(jobs, before, ids[..k], answers)
        invariant submitted == AcceptedCount(ids[..k], answers) && submitted + failed == k
      {
        var id := ids[k];
        DispatchedNext(jobs, before, ids, k, answers);
        AcceptedNext(ids, k, answers);
        var sent := DispatchOne(id, answers[id]);
        if sent {
          if answers[id].Accepted? { submitted := submitted + 1; } else { failed := failed + 1; }
        }
      }
      assert ids[..|ids|] == ids;
    }

    /** One answer of `refreshDeliveryStatus`; none, or one still pending, changes nothing. */
    method PollOne(id: nat, delivered: Option<bool>)
      requires id < |jobs|
      modifies this`jobs
      ensures delivered.Some? ==>
        jobs == Step(Sys(old(jobs), usage, [Worker(id, Polling)]), RecordPoll(0, delivered.value)).jobs
      ensures delivered.None? || old(jobs)[id].status != Submitted ==> jobs == old(jobs)
      ensures delivered.Some? && old(jobs)[id].status == Submitted ==>
        jobs == old(jobs)[id := old(jobs)[id].(status := if delivered.value then Delivered else Failed)]
    {
      if delivered.Some? && jobs[id].status == Submitted {
        jobs := jobs[id := jobs[id].(status := if delivered.value then Delivered else Failed)];
      }
    }

    /** `retryMessage`: only a FAILED job is requeued. */
    method RetryMessage(id: nat)
      requires id < |jobs|
      modifies this`jobs
      ensures jobs == Step(Sys(old(jobs), usage, []), Retry(id)).jobs
      ensures old(jobs)[id].status != Failed ==> jobs == old(jobs)
      ensures old(jobs)[id].status == Failed ==>
        jobs == old(jobs)[id := old(jobs)[id].(status := Queued, retries := old(jobs)[id].retries + 1)]
    {
      if jobs[id].status == Failed {
        jobs := jobs[id := jobs[id].(status := Queued, retries := jobs[id].retries + 1)];
      }
    }
  }
}
