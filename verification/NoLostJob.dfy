/**
  "Never a silently lost job": a job that is not completed is still announced
  somewhere, unless a worker that has lost its delivery records a failure over a
  completed job. That one step is the exact condition, and it cannot happen when
  workers stop with their connection or when every queue has one consumer.
 */
module NoLostJob {
  import opened Models
  import opened TableModel
  import opened Protocol
  import opened Invariants

  /** Copy id of job k is ready, or held by a worker that will not acknowledge it next. */
  ghost predicate Live(s: Sys, id: int, k: JobKey) {
    0 <= id < |s.copies| && s.copies[id].IsFor(k) &&
    var location := s.copies[id].location;
    || location.Ready?
    || (location.Unacked? && location.consumer in s.workers && s.workers[location.consumer].pc != Acking)
  }

  /** The next publish, a live copy or the dead-letter queue still accounts for job k. */
  ghost predicate Covered(s: Sys, k: JobKey) {
    k in s.unpublished || k in s.dead || exists id :: Live(s, id, k)
  }

  ghost predicate NotStranded(s: Sys, k: JobKey) {
    s.tables.JobOpen(k) ==> Covered(s, k)
  }

  /** A worker whose delivery was given away records a failure over a completed, otherwise unannounced job. */
  ghost predicate StaleFailure(s: Sys, e: Event, k: JobKey) {
    && e.RecordFailure? && e.reply.Applied()
    && e.worker in s.workers && !s.workers[e.worker].attached && s.workers[e.worker].Handles(k)
    && s.tables.JobCompleted(k) && !Covered(s, k)
  }

  /** A copy that stays live through a step, or is accounted for after it. */
  lemma LiveWorkerStep(s: Sys, e: Event, k: JobKey, id: int)
    requires Wired(s) && e.OfWorker() && WorkerEnabled(s, e) && Live(s, id, k)
    requires WorkerStep(s, e).tables.JobOpen(k)
    ensures Live(WorkerStep(s, e), id, k) || k in WorkerStep(s, e).dead
  {
  }

  lemma LiveStep(s: Sys, e: Event, k: JobKey, id: int)
    requires Wired(s) && Enabled(s, e) && Live(s, id, k)
    requires Step(s, e).tables.JobOpen(k)
    ensures Live(Step(s, e), id, k) || k in Step(s, e).dead || k in Step(s, e).unpublished
  {
    if e.OfWorker() {
      LiveWorkerStep(s, e, k, id);
    }
  }

  /** A publish puts a ready copy into the queue of every job type. */
  lemma PublishCovers(s: Sys, body: Message, k: JobKey)
    requires body.About(k.video)
    ensures exists id :: Live(PublishStep(s, body), id, k)
  {
    var n := |s.copies|;
    match k.jobType
    case HLS => assert Live(PublishStep(s, body), n, k);
    case Thumbnail => assert Live(PublishStep(s, body), n + 1, k);
    case Caption => assert Live(PublishStep(s, body), n + 2, k);
  }

  lemma CoverStep(s: Sys, e: Event, k: JobKey)
    requires Wired(s) && Enabled(s, e) && Covered(s, k)
    ensures NotStranded(Step(s, e), k)
  {
    if id :| Live(s, id, k) {
      if Step(s, e).tables.JobOpen(k) {
        LiveStep(s, e, k, id);
      }
    } else if e.Publish? && e.body.About(k.video) {
      PublishCovers(s, e.body, k);
    }
  }

  /** While an attached worker has a job claimed, its copy covers the job. */
  lemma ClaimCovers(s: Sys, k: JobKey)
    requires Wired(s)
    ensures forall w :: w in s.workers && s.workers[w].attached && s.workers[w].HasClaimed(k) ==> Covered(s, k)
  {
    forall w | w in s.workers && s.workers[w].attached && s.workers[w].HasClaimed(k)
      ensures Covered(s, k)
    {
      assert Live(s, s.workers[w].copy, k);
    }
  }

  /** An uncovered job is not open; the only step that reopens one and leaves it uncovered is the stale failure. */
  lemma UncoveredStep(s: Sys, e: Event, k: JobKey)
    requires Wired(s) && Enabled(s, e) && !Covered(s, k) && !s.tables.JobOpen(k)
    ensures NotStranded(Step(s, e), k) <==> !StaleFailure(s, e, k)
  {
    var s' := Step(s, e);
    ClaimCovers(s, k);
    if e.RecordFailure? && s'.tables.JobOpen(k) {
      assert forall id :: Live(s', id, k) ==> Live(s, id, k);
    }
  }

  /** Safety of one step, exactly: a job gets lost if and only if the step is a stale failure. */
  lemma NotStrandedStep(s: Sys, e: Event, k: JobKey)
    requires Wired(s) && Enabled(s, e) && NotStranded(s, k)
    ensures NotStranded(Step(s, e), k) <==> !StaleFailure(s, e, k)
  {
    if Covered(s, k) {
      CoverStep(s, e, k);
    } else {
      UncoveredStep(s, e, k);
    }
  }

  /** Safety of whole runs, exactly: job k is never stranded if and only if no stale failure of k occurs. */
  lemma NoStrandedJob(es: seq<Event>, k: JobKey)
    requires IsRun(INIT, es)
    ensures (forall n :: 0 <= n <= |es| ==> NotStranded(At(es, n), k)) <==>
            (forall i :: 0 <= i < |es| ==> !StaleFailure(At(es, i), es[i], k))
  {
    if forall i :: 0 <= i < |es| ==> !StaleFailure(At(es, i), es[i], k) {
      forall n | 0 <= n <= |es|
        ensures NotStranded(At(es, n), k)
      {
        NotStrandedUpTo(es, k, n);
      }
    } else {
      var i :| 0 <= i < |es| && StaleFailure(At(es, i), es[i], k);
      InvAt(es, i);
      AtStep(es, i);
      if NotStranded(At(es, i), k) {
        NotStrandedStep(At(es, i), es[i], k);
        assert !NotStranded(At(es, i + 1), k);
      }
    }
  }

  lemma {:induction false} NotStrandedUpTo(es: seq<Event>, k: JobKey, n: nat)
    requires IsRun(INIT, es) && n <= |es|
    requires forall i :: 0 <= i < n ==> !StaleFailure(At(es, i), es[i], k)
    ensures NotStranded(At(es, n), k)
  {
    if n > 0 {
      NotStrandedUpTo(es, k, n - 1);
      InvAt(es, n - 1);
      AtStep(es, n - 1);
      NotStrandedStep(At(es, n - 1), es[n - 1], k);
    }
  }

  /** Workers that stop together with their connection: nothing is ever detached. */
  ghost predicate FailStop(es: seq<Event>) {
    forall i :: 0 <= i < |es| ==> !es[i].Detach?
  }

  lemma {:induction false} FailStopStaysAttached(es: seq<Event>, n: nat)
    requires IsRun(INIT, es) && n <= |es| && FailStop(es)
    ensures forall w :: w in At(es, n).workers ==> At(es, n).workers[w].attached
  {
    if n > 0 {
      FailStopStaysAttached(es, n - 1);
      AtStep(es, n - 1);
      AttachedStep(At(es, n - 1), es[n - 1]);
    }
  }

  lemma AttachedStep(s: Sys, e: Event)
    requires Enabled(s, e) && !e.Detach?
    requires forall w :: w in s.workers ==> s.workers[w].attached
    ensures forall w :: w in Step(s, e).workers ==> Step(s, e).workers[w].attached
  {
  }

  /** With any number of fail-stop workers per queue, no job is ever stranded. */
  lemma NoStrandedJobFailStop(es: seq<Event>, k: JobKey)
    requires IsRun(INIT, es) && FailStop(es)
    ensures NotStranded(Exec(INIT, es), k)
  {
    forall i | 0 <= i < |es|
      ensures !StaleFailure(At(es, i), es[i], k)
    {
      FailStopStaysAttached(es, i);
    }
    NoStrandedJob(es, k);
    assert es[..|es|] == es;
    assert NotStranded(At(es, |es|), k);
  }

  /** At most one worker process per job type is running. */
  ghost predicate OneConsumer(s: Sys) {
    forall a, b :: a in s.workers && b in s.workers && s.workers[a].jobType == s.workers[b].jobType ==> a == b
  }

  ghost predicate OneConsumerRun(es: seq<Event>) {
    IsRun(INIT, es) && forall i :: 0 <= i <= |es| ==> OneConsumer(At(es, i))
  }

  /** A worker between claim and record holds a job that is not completed. */
  ghost predicate ClaimsAreOpen(s: Sys) {
    forall w, k :: w in s.workers && s.workers[w].HasClaimed(k) ==> !s.tables.JobCompleted(k)
  }

  lemma ClaimedBefore(s: Sys, e: Event, w: WorkerId, k: JobKey)
    requires Enabled(s, e) && w in Step(s, e).workers && Step(s, e).workers[w].HasClaimed(k)
    requires !(e.Claim? && e.worker == w)
    ensures w in s.workers && s.workers[w].HasClaimed(k) && !(e.RecordCompletion? && e.worker == w)
  {
  }

  lemma NewClaimIsOpen(s: Sys, w: WorkerId, reply: Reply, k: JobKey)
    requires WorkerEnabled(s, Claim(w, reply)) && ClaimStep(s, w, reply).workers[w].HasClaimed(k)
    ensures !ClaimStep(s, w, reply).tables.JobCompleted(k)
  {
    assert k == JobKey(k.video, k.jobType);
  }

  lemma NewlyCompleted(s: Sys, e: Event, k: JobKey)
    requires Enabled(s, e) && Agreement(s.tables) && !s.tables.JobCompleted(k) && Step(s, e).tables.JobCompleted(k)
    ensures e.RecordCompletion? && s.workers[e.worker].jobType == k.jobType
  {
    assert k == JobKey(k.video, k.jobType);
  }

  lemma ClaimsAreOpenStep(s: Sys, e: Event)
    requires OneConsumer(s) && ClaimsAreOpen(s) && Agreement(s.tables) && Enabled(s, e)
    ensures ClaimsAreOpen(Step(s, e))
  {
    forall w, k | w in Step(s, e).workers && Step(s, e).workers[w].HasClaimed(k)
      ensures !Step(s, e).tables.JobCompleted(k)
    {
      if e.Claim? && e.worker == w {
        NewClaimIsOpen(s, w, e.reply, k);
      } else {
        ClaimedBefore(s, e, w, k);
        if Step(s, e).tables.JobCompleted(k) {
          NewlyCompleted(s, e, k);
        }
      }
    }
  }

  lemma {:induction false} ClaimsAreOpenAt(es: seq<Event>, n: nat)
    requires OneConsumerRun(es) && n <= |es|
    ensures ClaimsAreOpen(At(es, n))
  {
    if n > 0 {
      ClaimsAreOpenAt(es, n - 1);
      InvAt(es, n - 1);
      AtStep(es, n - 1);
      ClaimsAreOpenStep(At(es, n - 1), es[n - 1]);
    }
  }

  /** With one consumer per queue, no job is ever stranded even when connections break. */
  lemma NoStrandedJobOneConsumer(es: seq<Event>, k: JobKey)
    requires OneConsumerRun(es)
    ensures NotStranded(Exec(INIT, es), k)
  {
    forall i | 0 <= i < |es|
      ensures !StaleFailure(At(es, i), es[i], k)
    {
      ClaimsAreOpenAt(es, i);
      AtStep(es, i);
    }
    NoStrandedJob(es, k);
    assert es[..|es|] == es;
    assert NotStranded(At(es, |es|), k);
  }

  /** The history flag `dead` never lies: such a job has a copy in the dead-letter queue. */
  ghost predicate DeadLetterExists(s: Sys, k: JobKey) {
    exists id :: 0 <= id < |s.copies| && s.copies[id].IsFor(k) && s.copies[id].location == DeadLettered
  }

  lemma DeadLetterStep(s: Sys, e: Event, k: JobKey)
    requires Wired(s) && Enabled(s, e) && (k in s.dead ==> DeadLetterExists(s, k))
    ensures k in Step(s, e).dead ==> DeadLetterExists(Step(s, e), k)
  {
    var s' := Step(s, e);
    if k in s'.dead {
      if k in s.dead {
        var id :| 0 <= id < |s.copies| && s.copies[id].IsFor(k) && s.copies[id].location == DeadLettered;
        assert s'.copies[id].IsFor(k) && s'.copies[id].location == DeadLettered;
      } else {
        var id := s.workers[e.worker].copy;
        assert s'.copies[id].IsFor(k) && s'.copies[id].location == DeadLettered;
      }
    }
  }

  lemma {:induction false} DeadLetterAlways(es: seq<Event>, k: JobKey)
    requires IsRun(INIT, es)
    ensures k in Exec(INIT, es).dead ==> DeadLetterExists(Exec(INIT, es), k)
  {
    if es != [] {
      var n := |es| - 1;
      DeadLetterAlways(es[..n], k);
      InvAlways(es[..n]);
      DeadLetterStep(Exec(INIT, es[..n]), es[n], k);
    }
  }

  /** Nothing queued, nothing in flight, nothing left to publish. */
  ghost predicate Quiescent(s: Sys) {
    s.unpublished == {} && forall id :: 0 <= id < |s.copies| ==> s.copies[id].Settled()
  }

  /**
    At rest, every job is completed or was dead-lettered after its last insert
    or reset, and a copy of its message sits in the dead-letter queue.
   */
  lemma QuiescentJobsAccountedFor(es: seq<Event>, k: JobKey)
    requires IsRun(INIT, es) && (FailStop(es) || OneConsumerRun(es))
    requires Quiescent(Exec(INIT, es)) && Exec(INIT, es).tables.HasJob(k)
    ensures var s := Exec(INIT, es);
            s.tables.JobCompleted(k) || (k in s.dead && DeadLetterExists(s, k))
  {
    if FailStop(es) {
      NoStrandedJobFailStop(es, k);
    } else {
      NoStrandedJobOneConsumer(es, k);
    }
    DeadLetterAlways(es, k);
  }
}
