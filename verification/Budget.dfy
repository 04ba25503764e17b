/**
  An amortised bound on the work a job can cause, over every run: with
  MAX_ATTEMPTS == 3, both the process starts and the finished deliveries of a job
  stay below two per insert or reset, plus one per publish, plus one per fault.
 */
module Budget {
  import opened Models
  import opened TableModel
  import opened Protocol
  import opened Invariants
  import opened Attempts

  /** The two quantities that are bounded. */
  datatype Meter = Starts | Finishes

  /** A worker begins to process job k. */
  ghost predicate StartsProcess(s: Sys, e: Event, k: JobKey) {
    Claims(s, e, k) && e.reply.Done?
  }

  /** A delivery of job k ends: settled, or given back by a crash or a broken connection. */
  ghost predicate EndsDelivery(s: Sys, e: Event, k: JobKey) {
    (e.Settle? || e.Crash? || e.Detach?) && e.worker in s.workers &&
    s.workers[e.worker].attached && s.workers[e.worker].Handles(k)
  }

  ghost predicate Counts(m: Meter, s: Sys, e: Event, k: JobKey) {
    match m
    case Starts => StartsProcess(s, e, k)
    case Finishes => EndsDelivery(s, e, k)
  }

  /**
    A fault on a delivery of job k: a crash or a broken connection that gives it back,
    or a claim or completion whose database call failed while it was held.
   */
  ghost predicate Fault(s: Sys, e: Event, k: JobKey) {
    (e.Claim? || e.RecordCompletion? || e.Crash? || e.Detach?) &&
    e.worker in s.workers && s.workers[e.worker].Handles(k) && s.workers[e.worker].attached &&
    (e.Claim? || e.RecordCompletion? ==> e.reply.Error?)
  }

  ghost predicate Publishes(e: Event, k: JobKey) {
    e.Publish? && e.body.About(k.video)
  }

  /** What one event adds to the budget of job k. */
  ghost function Allowance(s: Sys, e: Event, k: JobKey): nat {
    (if Grants(s, e, k) then MAX_ATTEMPTS - 1 else 0) +
    (if Publishes(e, k) then 1 else 0) +
    (if Fault(s, e, k) then 1 else 0)
  }

  /** Retries that the attempt count still allows. */
  function Remaining(t: Tables, k: JobKey): nat {
    if k in t.jobs && t.jobs[k].attempts < MAX_ATTEMPTS - 1 then MAX_ATTEMPTS - 1 - t.jobs[k].attempts else 0
  }

  /** The work one copy can still cause without drawing on the budget again. */
  function PcWeight(m: Meter, pc: Pc): nat {
    var told := Told(pc);
    match m
    case Starts => if pc == Acking || (told.Some? && told.value >= MAX_ATTEMPTS) then 0 else 1
    case Finishes => if pc == Requeueing || (told.Some? && told.value < MAX_ATTEMPTS) then 2 else 1
  }

  function Weight(m: Meter, s: Sys, id: CopyId, k: JobKey): nat
    requires id < |s.copies|
  {
    var copy := s.copies[id];
    if !copy.IsFor(k) || copy.Settled() then 0
    else if copy.location.Unacked? && copy.location.consumer in s.workers then
      PcWeight(m, s.workers[copy.location.consumer].pc)
    else 1
  }

  function TotalWeight(m: Meter, s: Sys, n: nat, k: JobKey): nat
    requires n <= |s.copies|
  {
    if n == 0 then 0 else TotalWeight(m, s, n - 1, k) + Weight(m, s, n - 1, k)
  }

  /** Workers that lost their connection after receiving a message about job k and may still claim it. */
  ghost function Strays(s: Sys, k: JobKey): set<WorkerId> {
    set w | w in s.workers && !s.workers[w].attached && s.workers[w].Handles(k) && s.workers[w].pc == Received
  }

  ghost function StrayWeight(m: Meter, s: Sys, k: JobKey): nat {
    if m == Starts then |Strays(s, k)| else 0
  }

  ghost function Potential(m: Meter, s: Sys, k: JobKey): nat {
    Remaining(s.tables, k) + TotalWeight(m, s, |s.copies|, k) + StrayWeight(m, s, k)
  }

  lemma {:induction false} SubsetSize<T>(a: set<T>, b: set<T>)
    requires a <= b
    ensures |a| <= |b|
  {
    if a != {} {
      var x :| x in a;
      SubsetSize(a - {x}, b - {x});
    }
  }

  ghost predicate MakesStray(s: Sys, e: Event, k: JobKey) {
    e.Detach? && e.worker in s.workers && s.workers[e.worker].Handles(k) && s.workers[e.worker].pc == Received
  }

  lemma StrayBefore(s: Sys, e: Event, k: JobKey, w: WorkerId)
    requires Enabled(s, e) && w in Strays(Step(s, e), k)
    ensures w in Strays(s, k) || (e == Detach(w) && MakesStray(s, e, k))
    ensures !(e.Claim? && e.worker == w)
  {
  }

  /** Only a broken connection makes a stray, and its claim ends it. */
  lemma StraysStep(s: Sys, e: Event, k: JobKey)
    requires Enabled(s, e)
    ensures |Strays(Step(s, e), k)| <= |Strays(s, k)| + (if MakesStray(s, e, k) then 1 else 0)
    ensures e.Claim? && !s.workers[e.worker].attached && s.workers[e.worker].Handles(k) ==>
              |Strays(Step(s, e), k)| <= |Strays(s, k)| - 1
  {
    var before, after := Strays(s, k), Strays(Step(s, e), k);
    var made := if MakesStray(s, e, k) then {e.worker} else {};
    var ended := if e.Claim? && e.worker in before then {e.worker} else {};
    forall w | w in after
      ensures w in before - ended + made
    {
      StrayBefore(s, e, k, w);
    }
    SubsetSize(after, before - ended + made);
  }

  /** Totals differ by as much as the weight of the only copy that changed. */
  lemma {:induction false} TotalChanges(m: Meter, s: Sys, s': Sys, n: nat, k: JobKey, x: CopyId)
    requires n <= |s.copies| && n <= |s'.copies| && x < |s.copies| && x < |s'.copies|
    requires forall i :: 0 <= i < n && i != x ==> Weight(m, s, i, k) == Weight(m, s', i, k)
    ensures TotalWeight(m, s', n, k) ==
              TotalWeight(m, s, n, k) + if x < n then Weight(m, s', x, k) - Weight(m, s, x, k) else 0
  {
    if n > 0 {
      TotalChanges(m, s, s', n - 1, k, x);
    }
  }

  lemma {:induction false} TotalSame(m: Meter, s: Sys, s': Sys, n: nat, k: JobKey)
    requires n <= |s.copies| && n <= |s'.copies|
    requires forall i :: 0 <= i < n ==> Weight(m, s, i, k) == Weight(m, s', i, k)
    ensures TotalWeight(m, s', n, k) == TotalWeight(m, s, n, k)
  {
    if n > 0 {
      TotalSame(m, s, s', n - 1, k);
    }
  }

  /** The step stays within the budget it brings. */
  ghost predicate WithinAllowance(m: Meter, s: Sys, e: Event, k: JobKey)
    requires Enabled(s, e)
  {
    Potential(m, Step(s, e), k) + (if Counts(m, s, e, k) then 1 else 0) <= Potential(m, s, k) + Allowance(s, e, k)
  }

  lemma ClaimWeightStep(m: Meter, s: Sys, w: WorkerId, reply: Reply, k: JobKey)
    requires Wired(s) && WorkerEnabled(s, Claim(w, reply)) && s.workers[w].attached
    ensures var x, s' := s.workers[w].copy, ClaimStep(s, w, reply);
            x < |s.copies| && |s'.copies| == |s.copies| &&
            Remaining(s'.tables, k) + Weight(m, s', x, k) + (if Counts(m, s, Claim(w, reply), k) then 1 else 0)
              <= Remaining(s.tables, k) + Weight(m, s, x, k) + Allowance(s, Claim(w, reply), k)
  {
    assert k == JobKey(k.video, k.jobType);
  }

  lemma SettleWeightStep(m: Meter, s: Sys, w: WorkerId, k: JobKey)
    requires Wired(s) && WorkerEnabled(s, Settle(w)) && s.workers[w].attached
    ensures var x, s' := s.workers[w].copy, SettleStep(s, w);
            x < |s.copies| && |s'.copies| == |s.copies| && s'.tables == s.tables &&
            Weight(m, s', x, k) + (if Counts(m, s, Settle(w), k) then 1 else 0) <= Weight(m, s, x, k)
  {
  }

  lemma RecordWeightStep(m: Meter, s: Sys, e: Event, k: JobKey)
    requires Wired(s) && (e.RecordFailure? || e.RecordCompletion?) && WorkerEnabled(s, e)
    requires s.workers[e.worker].attached
    ensures var x, s' := s.workers[e.worker].copy, WorkerStep(s, e);
            x < |s.copies| && |s'.copies| == |s.copies| && Remaining(s'.tables, k) == Remaining(s.tables, k) &&
            Weight(m, s', x, k) <= Weight(m, s, x, k) + Allowance(s, e, k) && !Counts(m, s, e, k)
  {
    assert k == JobKey(k.video, k.jobType);
  }

  /** What a step of worker w does to the weight of the copy it holds. */
  lemma WorkerWeightStep(m: Meter, s: Sys, e: Event, k: JobKey)
    requires Wired(s) && e.OfWorker() && WorkerEnabled(s, e) && s.workers[e.worker].attached
    ensures var x, s' := s.workers[e.worker].copy, WorkerStep(s, e);
            x < |s.copies| && |s'.copies| == |s.copies| &&
            Remaining(s'.tables, k) + Weight(m, s', x, k) + (if Counts(m, s, e, k) then 1 else 0)
              <= Remaining(s.tables, k) + Weight(m, s, x, k) + Allowance(s, e, k)
  {
    if e.Claim? {
      ClaimWeightStep(m, s, e.worker, e.reply, k);
    } else if e.Settle? {
      SettleWeightStep(m, s, e.worker, k);
    } else if e.RecordFailure? || e.RecordCompletion? {
      RecordWeightStep(m, s, e, k);
    }
  }

  lemma WorkerFrame(m: Meter, s: Sys, e: Event, k: JobKey, i: CopyId)
    requires Wired(s) && e.OfWorker() && WorkerEnabled(s, e) && i < |s.copies|
    requires s.workers[e.worker].attached ==> i != s.workers[e.worker].copy
    ensures i < |WorkerStep(s, e).copies| && Weight(m, WorkerStep(s, e), i, k) == Weight(m, s, i, k)
  {
  }

  lemma AttachedWorkerBudget(m: Meter, s: Sys, e: Event, k: JobKey)
    requires Wired(s) && Enabled(s, e) && e.OfWorker() && s.workers[e.worker].attached
    ensures WithinAllowance(m, s, e, k)
  {
    var s' := Step(s, e);
    var x := s.workers[e.worker].copy;
    forall i | 0 <= i < |s.copies| && i != x
      ensures i < |s'.copies| && Weight(m, s', i, k) == Weight(m, s, i, k)
    {
      WorkerFrame(m, s, e, k, i);
    }
    WorkerWeightStep(m, s, e, k);
    TotalChanges(m, s, s', |s.copies|, k, x);
    StraysStep(s, e, k);
  }

  /** The steps of a worker without a connection move no copy. */
  lemma DetachedWorkerBudget(m: Meter, s: Sys, e: Event, k: JobKey)
    requires Wired(s) && Enabled(s, e) && e.OfWorker() && !s.workers[e.worker].attached
    ensures WithinAllowance(m, s, e, k)
  {
    var s' := Step(s, e);
    forall i | 0 <= i < |s.copies|
      ensures i < |s'.copies| && Weight(m, s', i, k) == Weight(m, s, i, k)
    {
      WorkerFrame(m, s, e, k, i);
    }
    TotalSame(m, s, s', |s.copies|, k);
    StraysStep(s, e, k);
    DetachedRemaining(s, e, k);
  }

  lemma DetachedRemaining(s: Sys, e: Event, k: JobKey)
    requires Enabled(s, e) && e.OfWorker() && !s.workers[e.worker].attached
    ensures Remaining(Step(s, e).tables, k) <= Remaining(s.tables, k)
    ensures |Step(s, e).copies| == |s.copies| && !EndsDelivery(s, e, k)
    ensures StartsProcess(s, e, k) ==> e.Claim? && s.workers[e.worker].Handles(k)
  {
    assert k == JobKey(k.video, k.jobType);
  }

  lemma DeliverBudget(m: Meter, s: Sys, e: Event, k: JobKey)
    requires Wired(s) && Enabled(s, e) && e.Deliver?
    ensures WithinAllowance(m, s, e, k)
  {
    StraysStep(s, e, k);
    TotalChanges(m, s, Step(s, e), |s.copies|, k, e.copy);
  }

  /** A crash or a broken connection makes the copy that the worker held ready again. */
  lemma GiveBackWeights(m: Meter, s: Sys, e: Event, k: JobKey)
    requires Wired(s) && Enabled(s, e) && (e.Crash? || e.Detach?)
    requires s.workers[e.worker].attached && s.workers[e.worker].pc != Idle
    ensures var x, s' := s.workers[e.worker].copy, Step(s, e);
            && x < |s.copies| == |s'.copies| && s'.tables == s.tables
            && Weight(m, s', x, k) <= 1 && (Weight(m, s, x, k) >= 1 || Fault(s, e, k) || Weight(m, s', x, k) == 0)
            && ((m == Finishes && EndsDelivery(s, e, k)) || MakesStray(s, e, k) ==> Weight(m, s, x, k) >= 1)
            && forall i :: 0 <= i < |s.copies| && i != x ==> Weight(m, s', i, k) == Weight(m, s, i, k)
  {
    forall i | 0 <= i < |s.copies| && i != s.workers[e.worker].copy
      ensures Weight(m, Step(s, e), i, k) == Weight(m, s, i, k)
    {
      assert Step(s, e).copies[i] == s.copies[i];
    }
  }

  lemma GiveBackBudget(m: Meter, s: Sys, e: Event, k: JobKey)
    requires Wired(s) && Enabled(s, e) && (e.Crash? || e.Detach?)
    requires s.workers[e.worker].attached && s.workers[e.worker].pc != Idle
    ensures WithinAllowance(m, s, e, k)
  {
    StraysStep(s, e, k);
    GiveBackWeights(m, s, e, k);
    TotalChanges(m, s, Step(s, e), |s.copies|, k, s.workers[e.worker].copy);
  }

  /** A worker that holds no delivery has nothing to give back. */
  lemma GoneBudget(m: Meter, s: Sys, w: WorkerId, k: JobKey)
    requires Wired(s) && Enabled(s, Crash(w)) && !(s.workers[w].attached && s.workers[w].pc != Idle)
    ensures WithinAllowance(m, s, Crash(w), k)
  {
    StraysStep(s, Crash(w), k);
    TotalSame(m, s, Step(s, Crash(w)), |s.copies|, k);
  }

  lemma PublishBudget(m: Meter, s: Sys, body: Message, k: JobKey)
    requires Enabled(s, Publish(body))
    ensures WithinAllowance(m, s, Publish(body), k)
  {
    var s' := Step(s, Publish(body));
    var n := |s.copies|;
    StraysStep(s, Publish(body), k);
    TotalSame(m, s, s', n, k);
    assert TotalWeight(m, s', n + 1, k) == TotalWeight(m, s', n, k) + Weight(m, s', n, k);
    assert TotalWeight(m, s', n + 2, k) == TotalWeight(m, s', n + 1, k) + Weight(m, s', n + 1, k);
    assert TotalWeight(m, s', n + 3, k) == TotalWeight(m, s', n + 2, k) + Weight(m, s', n + 2, k);
  }

  lemma BudgetStep(m: Meter, s: Sys, e: Event, k: JobKey)
    requires Wired(s) && Agreement(s.tables) && Enabled(s, e)
    ensures WithinAllowance(m, s, e, k)
  {
    if e.OfWorker() {
      if s.workers[e.worker].attached {
        AttachedWorkerBudget(m, s, e, k);
      } else {
        DetachedWorkerBudget(m, s, e, k);
      }
    } else if e.Deliver? {
      DeliverBudget(m, s, e, k);
    } else if e.Crash? || e.Detach? {
      if s.workers[e.worker].attached && s.workers[e.worker].pc != Idle {
        GiveBackBudget(m, s, e, k);
      } else {
        GoneBudget(m, s, e.worker, k);
      }
    } else if e.Publish? {
      PublishBudget(m, s, e.body, k);
    } else {
      RequestBudget(m, s, e, k);
    }
  }

  lemma RemainingStep(s: Sys, e: Event, k: JobKey)
    requires Agreement(s.tables) && Enabled(s, e)
    requires !e.OfWorker() && !e.Deliver? && !e.Crash? && !e.Detach? && !e.Publish?
    ensures Remaining(Step(s, e).tables, k) <= Remaining(s.tables, k) + if Grants(s, e, k) then MAX_ATTEMPTS - 1 else 0
    ensures Step(s, e).copies == s.copies
  {
    assert k == JobKey(k.video, k.jobType);
  }

  lemma RequestBudget(m: Meter, s: Sys, e: Event, k: JobKey)
    requires Agreement(s.tables) && Wired(s) && Enabled(s, e)
    requires !e.OfWorker() && !e.Deliver? && !e.Crash? && !e.Detach? && !e.Publish?
    ensures WithinAllowance(m, s, e, k)
  {
    StraysStep(s, e, k);
    RemainingStep(s, e, k);
    TotalSame(m, s, Step(s, e), |s.copies|, k);
  }

  /** How often a metered event of job k occurs in a run. */
  ghost function Tally(m: Meter, s: Sys, es: seq<Event>, k: JobKey): nat
    requires IsRun(s, es)
  {
    if es == [] then 0
    else
      var prefix, e := es[..|es| - 1], es[|es| - 1];
      Tally(m, s, prefix, k) + if Counts(m, Exec(s, prefix), e, k) then 1 else 0
  }

  ghost function PublishCount(es: seq<Event>, k: JobKey): nat {
    if es == [] then 0 else PublishCount(es[..|es| - 1], k) + if Publishes(es[|es| - 1], k) then 1 else 0
  }

  ghost function FaultCount(s: Sys, es: seq<Event>, k: JobKey): nat
    requires IsRun(s, es)
  {
    if es == [] then 0
    else
      var prefix, e := es[..|es| - 1], es[|es| - 1];
      FaultCount(s, prefix, k) + if Fault(Exec(s, prefix), e, k) then 1 else 0
  }

  /** The bound over the continuations of any state that the invariants describe. */
  lemma {:induction false} BoundedContinuation(m: Meter, s: Sys, es: seq<Event>, k: JobKey)
    requires Inv(s) && IsRun(s, es)
    ensures Tally(m, s, es, k) + Potential(m, Exec(s, es), k) <=
            Potential(m, s, k) + 2 * GrantCount(s, es, k) + PublishCount(es, k) + FaultCount(s, es, k)
  {
    if es != [] {
      var prefix := es[..|es| - 1];
      BoundedContinuation(m, s, prefix, k);
      InvRun(s, prefix);
      BudgetStep(m, Exec(s, prefix), es[|es| - 1], k);
    }
  }

  /**
    Amortised termination: whatever the interleaving, the process starts of job k and
    its finished deliveries each stay within two per insert or reset of k, one per
    publish of its video and one per fault on it, less what is still pending.
   */
  lemma BoundedWork(m: Meter, es: seq<Event>, k: JobKey)
    requires IsRun(INIT, es)
    ensures Tally(m, INIT, es, k) + Potential(m, Exec(INIT, es), k) <=
            2 * GrantCount(INIT, es, k) + PublishCount(es, k) + FaultCount(INIT, es, k)
  {
    BoundedContinuation(m, INIT, es, k);
    assert Strays(INIT, k) == {};
  }

  /** A video is inserted at most once, ever. */
  lemma InsertedStep(s: Sys, e: Event, k: JobKey)
    requires Grounded(s) && Enabled(s, e)
    ensures k.video in s.inserted ==> k.video in Step(s, e).inserted
    ensures Grants(s, e, k) && e.Insert? ==> k.video !in s.inserted && k.video in Step(s, e).inserted
  {
  }

  /** Without a retry of it, a job is granted its attempts once. */
  lemma {:induction false} GrantedOnce(es: seq<Event>, k: JobKey)
    requires IsRun(INIT, es) && forall i :: 0 <= i < |es| ==> !(es[i].Reset? && es[i].job == k)
    ensures GrantCount(INIT, es, k) <= if k.video in Exec(INIT, es).inserted then 1 else 0
  {
    if es != [] {
      var n := |es| - 1;
      GrantedOnce(es[..n], k);
      InvAlways(es[..n]);
      InsertedStep(Exec(INIT, es[..n]), es[n], k);
    }
  }

  /** An upload that is never retried and meets no fault is processed at most three times per job type. */
  lemma AtMostThreeAttempts(es: seq<Event>, k: JobKey)
    requires IsRun(INIT, es) && FaultCount(INIT, es, k) == 0 && PublishCount(es, k) <= 1
    requires forall i :: 0 <= i < |es| ==> !(es[i].Reset? && es[i].job == k)
    ensures Tally(Starts, INIT, es, k) <= 3 && Tally(Finishes, INIT, es, k) <= 3
  {
    BoundedWork(Starts, es, k);
    BoundedWork(Finishes, es, k);
    GrantedOnce(es, k);
  }
}
