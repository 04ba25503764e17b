/**
  "Never a double-counted job": how often the completion of a job is recorded. With
  one consumer per queue it is at most once per insert or reset; with several, a
  worker that still holds a claim of a completed job can record it again.
 */
module Counting {
  import opened Models
  import opened TableModel
  import opened Protocol
  import opened Invariants
  import opened NoLostJob
  import opened Stability
  import opened Attempts

  /** A worker's call that records job k as completed takes effect, whatever its reply. */
  ghost predicate Completes(s: Sys, e: Event, k: JobKey) {
    e.RecordCompletion? && e.reply.Applied() && e.worker in s.workers && s.workers[e.worker].Handles(k)
  }

  /** How often job k is recorded as completed in a run from s. */
  ghost function Completions(s: Sys, es: seq<Event>, k: JobKey): nat
    requires IsRun(s, es)
  {
    if es == [] then 0
    else
      var prefix, e := es[..|es| - 1], es[|es| - 1];
      Completions(s, prefix, k) + if Completes(Exec(s, prefix), e, k) then 1 else 0
  }

  /** How often job k has been recorded as completed since its last insert or reset. */
  ghost function CompletionsSinceGrant(es: seq<Event>, k: JobKey): nat
    requires IsRun(INIT, es)
  {
    if es == [] then 0
    else
      var prefix, e := es[..|es| - 1], es[|es| - 1];
      if Grants(Exec(INIT, prefix), e, k) then 0
      else CompletionsSinceGrant(prefix, k) + if Completes(Exec(INIT, prefix), e, k) then 1 else 0
  }

  ghost predicate HasClaimant(s: Sys, k: JobKey) {
    exists w :: w in s.workers && s.workers[w].HasClaimed(k)
  }

  /** One more completion may come without a new insert or reset. */
  ghost predicate Pending(s: Sys, k: JobKey) {
    s.tables.JobOpen(k) || HasClaimant(s, k)
  }

  /** A claim is made only of an open job. */
  lemma ClaimantStep(s: Sys, e: Event, k: JobKey)
    requires Enabled(s, e) && HasClaimant(Step(s, e), k) && !s.tables.JobOpen(k)
    ensures HasClaimant(s, k)
  {
    var s' := Step(s, e);
    var w :| w in s'.workers && s'.workers[w].HasClaimed(k);
    assert KeyOf(s'.workers[w]) == k;
    assert s.workers[w].HasClaimed(k);
  }

  lemma OpenStep(s: Sys, e: Event, k: JobKey)
    requires Enabled(s, e) && Agreement(s.tables) && Step(s, e).tables.JobOpen(k)
    ensures Pending(s, k) || Grants(s, e, k)
    ensures s.tables.JobOpen(k) || Grants(s, e, k) || Overwrites(s, e, k)
    ensures !Completes(s, e, k)
  {
    assert k == JobKey(k.video, k.jobType);
    if e.RecordFailure? && !s.tables.JobOpen(k) {
      assert s.workers[e.worker].HasClaimed(k);
    }
  }

  /** The only consumer of a queue, once it has recorded a completion, leaves no claim of the job behind. */
  lemma CompletionStep(s: Sys, e: Event, k: JobKey)
    requires OneConsumer(s) && Enabled(s, e) && Completes(s, e, k)
    ensures Pending(s, k) && !HasClaimant(Step(s, e), k)
  {
    var s' := Step(s, e);
    assert s.workers[e.worker].HasClaimed(k);
    forall w | w in s'.workers && s.workers[w].jobType == s.workers[e.worker].jobType
      ensures !s'.workers[w].pc.Claimed()
    {
      assert w == e.worker;
    }
  }

  lemma PendingStep(s: Sys, e: Event, k: JobKey)
    requires OneConsumer(s) && Agreement(s.tables) && Enabled(s, e)
    ensures Completes(s, e, k) ==> Pending(s, k) && !Pending(Step(s, e), k) && !Grants(s, e, k)
    ensures Pending(Step(s, e), k) ==> Pending(s, k) || Grants(s, e, k)
  {
    if Completes(s, e, k) {
      CompletionStep(s, e, k);
    }
    if Step(s, e).tables.JobOpen(k) {
      OpenStep(s, e, k);
    } else if HasClaimant(Step(s, e), k) && !s.tables.JobOpen(k) {
      ClaimantStep(s, e, k);
    }
  }

  /**
    With one consumer per queue no job is double counted: its completion is recorded at
    most once for each insert or reset of it, whatever is delivered twice, crashes or fails.
   */
  lemma {:induction false} NoDoubleCount(es: seq<Event>, k: JobKey)
    requires OneConsumerRun(es)
    ensures CompletionsSinceGrant(es, k) + (if Pending(Exec(INIT, es), k) then 1 else 0) <= 1
    ensures Completions(INIT, es, k) + (if Pending(Exec(INIT, es), k) then 1 else 0) <= GrantCount(INIT, es, k)
  {
    if es != [] {
      var n := |es| - 1;
      OneConsumerPrefix(es, n);
      NoDoubleCount(es[..n], k);
      InvAlways(es[..n]);
      PendingStep(Exec(INIT, es[..n]), es[n], k);
    }
  }

  lemma OneConsumerPrefix(es: seq<Event>, n: nat)
    requires OneConsumerRun(es) && n <= |es|
    ensures OneConsumerRun(es[..n]) && OneConsumer(Exec(INIT, es[..n]))
  {
    PrefixIsRun(INIT, es, n);
    forall i | 0 <= i <= n
      ensures At(es[..n], i) == At(es, i)
    {
      assert es[..n][..i] == es[..i];
    }
    assert OneConsumer(At(es, n));
  }

  /** An outcome recorded for a job that its worker no longer finds open. */
  ghost predicate Overwrites(s: Sys, e: Event, k: JobKey) {
    || (Completes(s, e, k) && !s.tables.JobOpen(k))
    || (e.RecordFailure? && e.reply.Applied() && e.worker in s.workers && s.workers[e.worker].Handles(k) &&
        s.tables.JobCompleted(k))
  }

  ghost function OverwriteCount(es: seq<Event>, k: JobKey): nat
    requires IsRun(INIT, es)
  {
    if es == [] then 0
    else
      var prefix, e := es[..|es| - 1], es[|es| - 1];
      OverwriteCount(prefix, k) + if Overwrites(Exec(INIT, prefix), e, k) then 1 else 0
  }

  lemma OpenCountStep(s: Sys, e: Event, k: JobKey)
    requires Agreement(s.tables) && Enabled(s, e)
    ensures (if Completes(s, e, k) then 1 else 0) + (if Step(s, e).tables.JobOpen(k) then 1 else 0) <=
            (if s.tables.JobOpen(k) then 1 else 0) +
            (if Grants(s, e, k) then 1 else 0) + (if Overwrites(s, e, k) then 1 else 0)
  {
    if Step(s, e).tables.JobOpen(k) {
      OpenStep(s, e, k);
    }
  }

  /** With any number of workers, each completion beyond the inserts and resets needs an overwriting record. */
  lemma {:induction false} DoubleCountsAreOverwrites(es: seq<Event>, k: JobKey)
    requires IsRun(INIT, es)
    ensures Completions(INIT, es, k) + (if Exec(INIT, es).tables.JobOpen(k) then 1 else 0) <=
            GrantCount(INIT, es, k) + OverwriteCount(es, k)
  {
    if es != [] {
      var prefix := es[..|es| - 1];
      DoubleCountsAreOverwrites(prefix, k);
      InvAlways(prefix);
      OpenCountStep(Exec(INIT, prefix), es[|es| - 1], k);
    }
  }

  /** What reads completed has been recorded so since its last insert or reset. */
  lemma {:induction false} CompletedWasCounted(es: seq<Event>, k: JobKey)
    requires IsRun(INIT, es) && Exec(INIT, es).tables.JobCompleted(k)
    ensures CompletionsSinceGrant(es, k) >= 1
  {
    var n := |es| - 1;
    var s := Exec(INIT, es[..n]);
    InvAlways(es[..n]);
    CompletedStep(s, es[n], k);
    if s.tables.JobCompleted(k) {
      CompletedWasCounted(es[..n], k);
    }
  }

  lemma CompletedStep(s: Sys, e: Event, k: JobKey)
    requires Agreement(s.tables) && Enabled(s, e) && Step(s, e).tables.JobCompleted(k)
    ensures !Grants(s, e, k) && (s.tables.JobCompleted(k) || Completes(s, e, k))
  {
    assert k == JobKey(k.video, k.jobType);
  }

  lemma CountedStep(s: Sys, e: Event, k: JobKey)
    requires Agreement(s.tables) && Enabled(s, e) && s.tables.JobCompleted(k) && !HasClaimant(s, k)
    requires !(e.Reset? && e.job == k) && !(e.Delete? && e.video == k.video)
    ensures Step(s, e).tables.JobCompleted(k) && !HasClaimant(Step(s, e), k) && !Completes(s, e, k)
  {
    assert e.RecordCompletion? && Completes(s, e, k) ==> s.workers[e.worker].HasClaimed(k);
    assert forall w :: Processes(s, w, k) ==> s.workers[w].HasClaimed(k);
    SettledStep(s, e, k);
    if HasClaimant(Step(s, e), k) {
      ClaimantStep(s, e, k);
    }
  }

  lemma {:induction false} CountedRun(s: Sys, es: seq<Event>, k: JobKey)
    requires IsRun(s, es) && Agreement(s.tables) && Untouched(es, k)
    requires s.tables.JobCompleted(k) && !HasClaimant(s, k)
    ensures Agreement(Exec(s, es).tables) && !HasClaimant(Exec(s, es), k)
    ensures Exec(s, es).tables.JobCompleted(k) && Completions(s, es, k) == 0
  {
    if es != [] {
      var n := |es| - 1;
      CountedRun(s, es[..n], k);
      CountedStep(Exec(s, es[..n]), es[n], k);
      AgreementStep(Exec(s, es[..n]), es[n]);
    }
  }

  /** A worker that has processed a job successfully records its completion, completed or not. */
  lemma SuccessIsCounted(s: Sys, w: WorkerId, k: JobKey)
    requires w in s.workers && s.workers[w].Handles(k) && s.workers[w].pc.Succeeded?
    ensures exists es :: IsRun(s, es) && Untouched(es, k) && Completions(s, es, k) == 1
  {
    var es := [] + [RecordCompletion(w, Done)];
    RunSnoc(s, [], RecordCompletion(w, Done));
    assert es[..0] == [];
    assert Untouched(es, k) && Completions(s, es, k) == 1;
  }

  /**
    A completed job stays completed and is not counted again, over every continuation
    without a retry or delete of it, if and only if no worker holds a claim of it.
   */
  lemma CountedOnce(s: Sys, k: JobKey)
    requires Agreement(s.tables) && s.tables.JobCompleted(k)
    ensures (forall es :: IsRun(s, es) && Untouched(es, k) ==>
               Exec(s, es).tables.JobCompleted(k) && Completions(s, es, k) == 0) <==>
            !HasClaimant(s, k)
  {
    if HasClaimant(s, k) {
      var w :| w in s.workers && s.workers[w].HasClaimed(k);
      if s.workers[w].pc.Succeeded? {
        SuccessIsCounted(s, w, k);
      } else {
        FailureOverwrites(s, w, k);
      }
    } else {
      forall es | IsRun(s, es) && Untouched(es, k)
        ensures Exec(s, es).tables.JobCompleted(k) && Completions(s, es, k) == 0
      {
        CountedRun(s, es, k);
      }
    }
  }
}
