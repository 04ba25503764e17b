/**
  When "completed" is final. Recording a failure has no guard on the job's
  status, so a completed job stays completed for good exactly when no other
  worker is still processing it; one consumer per queue guarantees that.
 */
module Stability {
  import opened Models
  import opened TableModel
  import opened Protocol
  import opened Invariants
  import opened NoLostJob

  /** Worker w's process for job k is running, or has failed and is about to be recorded. */
  predicate Processes(s: Sys, w: WorkerId, k: JobKey) {
    w in s.workers && s.workers[w].Handles(k) && (s.workers[w].pc.InProcess? || s.workers[w].pc.Broken?)
  }

  ghost predicate CanStillFail(s: Sys, k: JobKey) {
    exists w :: Processes(s, w, k)
  }

  /** No retry and no delete of job k. */
  ghost predicate Untouched(es: seq<Event>, k: JobKey) {
    forall i :: 0 <= i < |es| ==>
      !(es[i].Reset? && es[i].job == k) && !(es[i].Delete? && es[i].video == k.video)
  }

  lemma NoNewProcess(s: Sys, e: Event, k: JobKey)
    requires Enabled(s, e) && s.tables.JobCompleted(k) && CanStillFail(Step(s, e), k)
    ensures CanStillFail(s, k)
  {
    var s' := Step(s, e);
    var w :| Processes(s', w, k);
    assert KeyOf(s'.workers[w]) == k;
    assert Processes(s, w, k);
  }

  lemma SettledStep(s: Sys, e: Event, k: JobKey)
    requires Enabled(s, e) && Agreement(s.tables)
    requires s.tables.JobCompleted(k) && !CanStillFail(s, k)
    requires !(e.Reset? && e.job == k) && !(e.Delete? && e.video == k.video)
    ensures Step(s, e).tables.JobCompleted(k) && !CanStillFail(Step(s, e), k)
  {
    assert k == JobKey(k.video, k.jobType);
    assert e.RecordFailure? ==> !Processes(s, e.worker, k);
    if CanStillFail(Step(s, e), k) {
      NoNewProcess(s, e, k);
    }
  }

  lemma {:induction false} SettledRun(s: Sys, es: seq<Event>, k: JobKey)
    requires IsRun(s, es) && Agreement(s.tables) && Untouched(es, k)
    requires s.tables.JobCompleted(k) && !CanStillFail(s, k)
    ensures Agreement(Exec(s, es).tables)
    ensures Exec(s, es).tables.JobCompleted(k) && !CanStillFail(Exec(s, es), k)
  {
    if es != [] {
      var n := |es| - 1;
      SettledRun(s, es[..n], k);
      SettledStep(Exec(s, es[..n]), es[n], k);
      AgreementStep(Exec(s, es[..n]), es[n]);
    }
  }

  lemma RecordingOverwrites(s: Sys, w: WorkerId, k: JobKey)
    requires w in s.workers && s.workers[w].Handles(k) && s.workers[w].pc.Broken? && s.tables.JobCompleted(k)
    ensures var es := [RecordFailure(w, Done)]; IsRun(s, es) && !Exec(s, es).tables.JobCompleted(k)
  {
    RunSnoc(s, [], RecordFailure(w, Done));
    assert [] + [RecordFailure(w, Done)] == [RecordFailure(w, Done)];
    assert KeyOf(s.workers[w]) == k;
  }

  /** The run in which worker w's process fails and the failure is recorded. */
  lemma FailureOverwrites(s: Sys, w: WorkerId, k: JobKey)
    requires Processes(s, w, k)
    requires s.tables.JobCompleted(k)
    ensures exists es :: IsRun(s, es) && Untouched(es, k) && !Exec(s, es).tables.JobCompleted(k)
  {
    var record := [RecordFailure(w, Done)];
    if s.workers[w].pc.Broken? {
      RecordingOverwrites(s, w, k);
      assert Untouched(record, k);
    } else {
      var broken := Step(s, ProcessErr(w, ""));
      RunSnoc(s, [], ProcessErr(w, ""));
      assert [] + [ProcessErr(w, "")] == [ProcessErr(w, "")];
      RecordingOverwrites(broken, w, k);
      RunConcat(s, [ProcessErr(w, "")], record);
      assert Untouched([ProcessErr(w, "")] + record, k);
    }
  }

  /**
    A completed job stays completed over every continuation without a retry or
    delete of it if and only if no worker is still processing it at that point.
   */
  lemma CompletedForGood(s: Sys, k: JobKey)
    requires Agreement(s.tables) && s.tables.JobCompleted(k)
    ensures (forall es :: IsRun(s, es) && Untouched(es, k) ==> Exec(s, es).tables.JobCompleted(k)) <==>
            !CanStillFail(s, k)
  {
    if CanStillFail(s, k) {
      var w :| Processes(s, w, k);
      FailureOverwrites(s, w, k);
    } else {
      forall es | IsRun(s, es) && Untouched(es, k)
        ensures Exec(s, es).tables.JobCompleted(k)
      {
        SettledRun(s, es, k);
      }
    }
  }

  /**
    With one consumer per queue, once a job is completed no continuation of any
    kind changes that or starts its process again until it is retried or deleted.
   */
  lemma CompletedIsFinalWithOneConsumer(es: seq<Event>, more: seq<Event>, k: JobKey)
    requires OneConsumerRun(es) && Exec(INIT, es).tables.JobCompleted(k)
    requires IsRun(Exec(INIT, es), more) && Untouched(more, k)
    ensures Exec(Exec(INIT, es), more).tables.JobCompleted(k)
    ensures !CanStillFail(Exec(Exec(INIT, es), more), k)
  {
    ClaimsAreOpenAt(es, |es|);
    assert es[..|es|] == es;
    InvAlways(es);
    SettledRun(Exec(INIT, es), more, k);
  }
}
