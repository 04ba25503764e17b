/**
  The positive side of "never a lost job": a job that is open and not stranded can be
  brought to its end without a retry. Nothing needs to go wrong or be repaired on the
  way; one more worker and, if it is still due, the publish are enough.
 */
module Progress {
  import opened Models
  import opened Keys
  import opened Protocol
  import opened Invariants
  import opened NoLostJob

  /**
    Safe redelivery: a worker that stops, or loses its connection, in the middle of a
    delivery leaves everything as it is but for the message, which is ready again.
   */
  lemma InterruptedIsRedelivered(s: Sys, e: Event)
    requires Wired(s) && (e.Crash? || e.Detach?) && e.worker in s.workers
    requires s.workers[e.worker].attached && s.workers[e.worker].pc != Idle
    ensures Enabled(s, e)
    ensures var s', id := Step(s, e), s.workers[e.worker].copy;
            && id < |s.copies| && s'.copies == s.copies[id := s.copies[id].(location := Ready)]
            && s'.tables == s.tables && s'.store == s.store && s'.dead == s.dead && s'.unpublished == s.unpublished
            && (e.Crash? ==> s'.workers == s.workers - {e.worker})
            && (e.Detach? ==> s'.workers.Keys == s.workers.Keys && !s'.workers[e.worker].attached &&
                              s'.workers[e.worker].pc == s.workers[e.worker].pc)
  {
  }

  /** No crash, broken connection or failing call, and no request but a publish. */
  predicate Undisturbed(e: Event) {
    match e
    case Claim(_, reply) => reply.Done?
    case RecordFailure(_, reply) => reply.Done?
    case RecordCompletion(_, reply) => reply.Done?
    case _ =>
      e.Start? || e.Deliver? || e.Publish? || e.PutArtifact? || e.ProcessOk? || e.ProcessErr? || e.Settle?
  }

  ghost predicate Ended(s: Sys, k: JobKey) {
    s.tables.JobCompleted(k) || k in s.dead
  }

  /** An undisturbed run from s, with at most `publishes` publishes, that ends job k. */
  ghost predicate Ends(s: Sys, more: seq<Event>, publishes: nat, k: JobKey) {
    && IsRun(s, more) && Ended(Exec(s, more), k)
    && (forall i :: 0 <= i < |more| ==> Undisturbed(more[i]) && (more[i].Publish? ==> i < publishes))
  }

  lemma EndedAlready(s: Sys, k: JobKey)
    requires Ended(s, k)
    ensures Ends(s, [], 0, k)
  {
  }

  /** One undisturbed step towards such a run. */
  lemma Before(s: Sys, e: Event, more: seq<Event>, k: JobKey) returns (longer: seq<Event>)
    requires Enabled(s, e) && Undisturbed(e) && Ends(Step(s, e), more, 0, k)
    ensures Ends(s, longer, if e.Publish? then 1 else 0, k)
  {
    RunSnoc(s, [], e);
    assert [] + [e] == [e];
    RunConcat(s, [e], more);
    longer := [e] + more;
  }

  /** Worker w is handling a delivery about job k, which is open. */
  ghost predicate Works(s: Sys, w: WorkerId, k: JobKey) {
    w in s.workers && s.workers[w].Handles(k) && s.tables.JobOpen(k)
  }

  lemma SucceededCanEnd(s: Sys, w: WorkerId, k: JobKey) returns (more: seq<Event>)
    requires Works(s, w, k) && s.workers[w].pc.Succeeded?
    ensures Ends(s, more, 0, k)
  {
    var e := RecordCompletion(w, Done);
    assert KeyOf(s.workers[w]) == k;
    EndedAlready(Step(s, e), k);
    more := Before(s, e, [], k);
  }

  /** What the process of worker w has not written yet. */
  function Unwritten(worker: Worker): set<Key>
    requires worker.body.Uploaded? && worker.pc.InProcess?
  {
    RequiredArtifacts(worker.body.spelling, worker.jobType) - worker.pc.put
  }

  /** A running process can write what is missing and succeed. */
  lemma {:induction false} RunningCanEnd(s: Sys, w: WorkerId, k: JobKey) returns (more: seq<Event>)
    requires Works(s, w, k) && s.workers[w].pc.InProcess?
    ensures Ends(s, more, 0, k)
    decreases Unwritten(s.workers[w])
  {
    var worker := s.workers[w];
    if artifact :| artifact in Unwritten(worker) {
      var e := PutArtifact(w, artifact);
      RequiredAreBelow(worker.body.spelling, worker.jobType, artifact);
      assert Unwritten(Step(s, e).workers[w]) == Unwritten(worker) - {artifact};
      more := RunningCanEnd(Step(s, e), w, k);
      more := Before(s, e, more, k);
    } else {
      assert forall a :: a in RequiredArtifacts(worker.body.spelling, worker.jobType) && a !in worker.pc.put ==>
          a in Unwritten(worker);
      more := SucceededCanEnd(Step(s, ProcessOk(w)), w, k);
      more := Before(s, ProcessOk(w), more, k);
    }
  }

  lemma ReceivedCanEnd(s: Sys, w: WorkerId, k: JobKey) returns (more: seq<Event>)
    requires Works(s, w, k) && s.workers[w].pc == Received
    ensures Ends(s, more, 0, k)
  {
    var e := Claim(w, Done);
    assert KeyOf(s.workers[w]) == k;
    more := RunningCanEnd(Step(s, e), w, k);
    more := Before(s, e, more, k);
  }

  /** Copy id of job k waits in its queue while the job is open. */
  ghost predicate Waits(s: Sys, id: CopyId, k: JobKey) {
    id < |s.copies| && s.copies[id].IsFor(k) && s.copies[id].location.Ready? && s.tables.JobOpen(k)
  }

  /** A new worker can take a waiting copy and process it. */
  lemma WaitingCanEnd(s: Sys, id: CopyId, k: JobKey, spare: WorkerId) returns (more: seq<Event>)
    requires Waits(s, id, k) && spare !in s.workers
    ensures Ends(s, more, 0, k)
  {
    var started := Step(s, Start(spare, k.jobType));
    var received := Step(started, Deliver(spare, id));
    more := ReceivedCanEnd(received, spare, k);
    more := Before(started, Deliver(spare, id), more, k);
    more := Before(s, Start(spare, k.jobType), more, k);
  }

  /** An attached worker that gives its delivery back or rejects it. */
  lemma SettlingCanEnd(s: Sys, w: WorkerId, k: JobKey, spare: WorkerId) returns (more: seq<Event>)
    requires Wired(s) && Works(s, w, k) && s.workers[w].attached && spare !in s.workers
    requires s.workers[w].pc.FailureNoted? || s.workers[w].pc.Requeueing?
    ensures Ends(s, more, 0, k)
  {
    var id, s' := s.workers[w].copy, Step(s, Settle(w));
    if s.workers[w].Verdict() == Some(Ready) {
      assert Waits(s', id, k);
      more := WaitingCanEnd(s', id, k, spare);
    } else {
      assert KeyOf(s.workers[w]) == k;
      EndedAlready(s', k);
      more := [];
    }
    more := Before(s, Settle(w), more, k);
  }

  lemma BrokenCanEnd(s: Sys, w: WorkerId, k: JobKey, spare: WorkerId) returns (more: seq<Event>)
    requires Wired(s) && Works(s, w, k) && s.workers[w].attached && spare !in s.workers && s.workers[w].pc.Broken?
    ensures Ends(s, more, 0, k)
  {
    var e := RecordFailure(w, Done);
    assert KeyOf(s.workers[w]) == k;
    WiredStep(s, e);
    more := SettlingCanEnd(Step(s, e), w, k, spare);
    more := Before(s, e, more, k);
  }

  /** Every live copy can bring its job to an end. */
  lemma LiveCanEnd(s: Sys, id: int, k: JobKey, spare: WorkerId) returns (more: seq<Event>)
    requires Wired(s) && Live(s, id, k) && s.tables.JobOpen(k) && spare !in s.workers
    ensures Ends(s, more, 0, k)
  {
    if s.copies[id].location.Ready? {
      more := WaitingCanEnd(s, id, k, spare);
    } else {
      var w := s.copies[id].location.consumer;
      assert Works(s, w, k);
      match s.workers[w].pc
      case Received => more := ReceivedCanEnd(s, w, k);
      case InProcess(_, _) => more := RunningCanEnd(s, w, k);
      case Succeeded(_) => more := SucceededCanEnd(s, w, k);
      case Broken(_, _) => more := BrokenCanEnd(s, w, k, spare);
      case _ => more := SettlingCanEnd(s, w, k, spare);
    }
  }

  /** A publish that is still due puts a ready copy into the job's queue. */
  lemma UnpublishedCanEnd(s: Sys, k: JobKey, spare: WorkerId) returns (more: seq<Event>)
    requires Inv(s) && s.tables.JobOpen(k) && spare !in s.workers
    ensures Ends(s, more, 1, k)
  {
    assert k == JobKey(k.video, k.jobType);
    CanonicalNames(k.video);
    var body := Uploaded(k.video, Canonical(k.video));
    var s' := Step(s, Publish(body));
    PublishCovers(s, body, k);
    var id :| Live(s', id, k);
    InvStep(s, Publish(body));
    more := LiveCanEnd(s', id, k, spare);
    more := Before(s, Publish(body), more, k);
  }

  /**
    From every state in which a job is not stranded, an undisturbed continuation without
    a retry brings it to completed or dead-lettered; with a publish only if none has
    followed its last insert or reset.
   */
  lemma NotStrandedCanEnd(s: Sys, k: JobKey, spare: WorkerId) returns (more: seq<Event>)
    requires Inv(s) && s.tables.HasJob(k) && NotStranded(s, k) && spare !in s.workers
    ensures Ends(s, more, if k in s.unpublished then 1 else 0, k)
  {
    if Ended(s, k) {
      EndedAlready(s, k);
      more := [];
    } else if id :| Live(s, id, k) {
      more := LiveCanEnd(s, id, k, spare);
    } else {
      more := UnpublishedCanEnd(s, k, spare);
    }
  }

  /** After every run with fail-stop workers, or with one consumer per queue, every job can still come to its end. */
  lemma EveryJobCanEnd(es: seq<Event>, k: JobKey, spare: WorkerId) returns (more: seq<Event>)
    requires IsRun(INIT, es) && (FailStop(es) || OneConsumerRun(es))
    requires Exec(INIT, es).tables.HasJob(k) && spare !in Exec(INIT, es).workers
    ensures Ends(Exec(INIT, es), more, if k in Exec(INIT, es).unpublished then 1 else 0, k)
  {
    if FailStop(es) {
      NoStrandedJobFailStop(es, k);
    } else {
      NoStrandedJobOneConsumer(es, k);
    }
    InvAlways(es);
    more := NotStrandedCanEnd(Exec(INIT, es), k, spare);
  }
}
