/**
  Concrete runs that show the conditions of NoLostJob, Stability, Counting and
  Invariants are needed: all can be reached from the empty system for every video.
 */
module Scenarios {
  import opened Models
  import opened Keys
  import opened TableModel
  import opened Protocol
  import opened Invariants
  import opened NoLostJob
  import opened Stability
  import opened Counting

  const A: WorkerId := "a"
  const B: WorkerId := "b"
  const WAITING: Worker := Worker(Caption, 0, Malformed, true, Idle)
  const BOTH: map<WorkerId, Worker> := map[A := WAITING, B := WAITING]

  /** es is a run from the empty system that ends in s. */
  ghost predicate Reaches(es: seq<Event>, s: Sys) {
    IsRun(INIT, es) && Exec(INIT, es) == s
  }

  lemma Then(es: seq<Event>, s: Sys, e: Event) returns (longer: seq<Event>, s': Sys)
    requires Reaches(es, s) && Enabled(s, e)
    ensures Reaches(longer, s') && s' == Step(s, e)
    ensures longer == es + [e]
  {
    RunSnoc(INIT, es, e);
    longer, s' := es + [e], Step(s, e);
  }

  /** No connection breaks, and all messages about m's video are spelled as m is. */
  ghost predicate Plain(es: seq<Event>, m: Message)
    requires m.Uploaded?
  {
    FailStop(es) && SpelledRun(es, m.video, m.spelling)
  }

  /** What goes for a run goes for its continuation. */
  ghost predicate AsPlain(es: seq<Event>, longer: seq<Event>, m: Message)
    requires m.Uploaded?
  {
    (FailStop(es) ==> FailStop(longer)) && (Plain(es, m) ==> Plain(longer, m))
  }

  function CaptionJob(m: Message): JobKey
    requires m.Uploaded?
  {
    JobKey(m.video, Caption)
  }

  /** Message m is published, with two caption workers started. */
  ghost predicate Published(s: Sys, m: Message)
    requires m.Uploaded?
  {
    && m.video in s.inserted && CaptionJob(m) in s.tables.jobs && s.tables.jobs[CaptionJob(m)] == FRESH_JOB
    && m.video in s.tables.videos && s.store == {RawFile(m.video)}
    && s.copies == Fanout(m) && s.workers == BOTH
    && CaptionJob(m) !in s.unpublished && CaptionJob(m) !in s.dead
  }

  lemma ReachInserted(v: VideoId) returns (es: seq<Event>, s: Sys)
    ensures Reaches(es, s) && es == [CompleteStorage(v), Insert(v, "", Done)]
    ensures s == Sys(InsertTx(EMPTY, v, "", RawFile(v)), [], map[], {RawFile(v)}, {v}, {}, {v}, {}, JobKeys(v), {})
  {
    es, s := Then([], INIT, CompleteStorage(v));
    es, s := Then(es, s, Insert(v, "", Done));
  }

  lemma StartBoth(es: seq<Event>, s: Sys, m: Message) returns (longer: seq<Event>, s': Sys)
    requires Reaches(es, s) && m.Uploaded? && Plain(es, m)
    requires s.workers == map[] && Published(s.(workers := BOTH), m)
    ensures Reaches(longer, s') && Plain(longer, m) && Published(s', m)
  {
    longer, s' := Then(es, s, Start(A, Caption));
    longer, s' := Then(longer, s', Start(B, Caption));
  }

  lemma ReachPublished(v: VideoId) returns (es: seq<Event>, s: Sys, m: Message)
    ensures m == Uploaded(v, Canonical(v)) && m.WellSpelled()
    ensures Reaches(es, s) && Plain(es, m) && Published(s, m)
  {
    CanonicalNames(v);
    m := Uploaded(v, Canonical(v));
    es, s := ReachInserted(v);
    es, s := Then(es, s, Publish(m));
    es, s := StartBoth(es, s, m);
  }

  /** The first publish failed, and a retry request with its own spelling of the id got through. */
  lemma ReachRetried(m: Message) returns (es: seq<Event>, s: Sys)
    requires m.Uploaded? && m.WellSpelled()
    ensures Reaches(es, s) && Plain(es, m) && Published(s, m)
  {
    es, s := ReachReset(m.video);
    es, s := Then(es, s, Publish(m));
    es, s := StartBoth(es, s, m);
  }

  lemma ReachReset(v: VideoId) returns (es: seq<Event>, s: Sys)
    ensures Reaches(es, s) && FailStop(es) && forall i :: 0 <= i < |es| ==> !es[i].Publish?
    ensures v in s.inserted && v in s.tables.videos && s.store == {RawFile(v)}
    ensures JobKey(v, Caption) in s.tables.jobs && s.tables.jobs[JobKey(v, Caption)] == FRESH_JOB
    ensures s.copies == [] && s.workers == map[] && s.dead == {}
  {
    es, s := ReachInserted(v);
    es, s := Then(es, s, Reset(JobKey(v, Caption), Done));
  }

  /** Worker w is running the caption process for message m. */
  ghost predicate Runs(s: Sys, w: WorkerId, m: Message) {
    && w in s.workers && s.workers[w].jobType == Caption && s.workers[w].pc.InProcess?
    && s.workers[w].body == m && m.Uploaded?
  }

  /** Worker w takes copy id of message m and claims the caption job. */
  lemma Take(es: seq<Event>, s: Sys, w: WorkerId, id: CopyId, m: Message) returns (longer: seq<Event>, s': Sys)
    requires Reaches(es, s) && m.Uploaded? && s.tables.JobOpen(CaptionJob(m))
    requires w in s.workers && s.workers[w] == WAITING
    requires id < |s.copies| && s.copies[id] == Copy(Caption, m, Ready)
    ensures Reaches(longer, s') && AsPlain(es, longer, m)
    ensures Runs(s', w, m) && s'.workers[w].copy == id && s'.workers[w].attached && s'.workers[w].pc.put == {}
    ensures s'.workers == s.workers[w := s'.workers[w]] && s'.copies == MoveCopy(s.copies, id, Unacked(w))
    ensures s'.tables.JobOpen(CaptionJob(m)) && s'.tables.videos == s.tables.videos && s'.store == s.store
    ensures s'.unpublished == s.unpublished && s'.dead == s.dead && s'.inserted == s.inserted
  {
    longer, s' := Then(es, s, Deliver(w, id));
    longer, s' := Then(longer, s', Claim(w, Done));
  }

  function CaptionFile(m: Message): Key
    requires m.Uploaded?
  {
    ArtifactKey(m.spelling, Caption, "captions.vtt")
  }

  lemma CaptionIsRequired(spelling: string)
    ensures RequiredArtifacts(spelling, Caption) == {ArtifactKey(spelling, Caption, "captions.vtt")}
  {
    assert RequiredNames(Caption)[0] in RequiredNames(Caption);
  }

  /** From there w can run its process to success, while everyone else stands still. */
  lemma Produce(es: seq<Event>, s: Sys, w: WorkerId, m: Message) returns (longer: seq<Event>, s': Sys)
    requires Reaches(es, s) && Runs(s, w, m)
    ensures Reaches(longer, s') && AsPlain(es, longer, m)
    ensures s' == WithPc(s, w, Succeeded(s.workers[w].pc.attempt)).(store := s.store + {CaptionFile(m)})
  {
    longer, s' := Then(es, s, PutArtifact(w, CaptionFile(m)));
    CaptionIsRequired(m.spelling);
    longer, s' := Then(longer, s', ProcessOk(w));
  }

  /** And on to the point where it acknowledges the completed job. */
  lemma Finish(es: seq<Event>, s: Sys, w: WorkerId, m: Message) returns (longer: seq<Event>, s': Sys)
    requires Reaches(es, s) && Runs(s, w, m) && CaptionJob(m) in s.tables.jobs
    ensures Reaches(longer, s') && AsPlain(es, longer, m)
    ensures s'.tables == CompleteTx(s.tables, CaptionJob(m)) && s'.store == s.store + {CaptionFile(m)}
    ensures s'.workers == s.workers[w := s.workers[w].(pc := Acking)]
    ensures s'.copies == s.copies && s'.unpublished == s.unpublished && s'.dead == s.dead
  {
    longer, s' := Produce(es, s, w, m);
    longer, s' := Then(longer, s', RecordCompletion(w, Done));
  }

  /** Two workers on one queue and a second publish of the video: both run its caption job. */
  lemma ReachBothRunning(v: VideoId) returns (es: seq<Event>, s: Sys, m: Message)
    ensures m == Uploaded(v, Canonical(v)) && Reaches(es, s) && FailStop(es)
    ensures Runs(s, A, m) && Runs(s, B, m) && CaptionJob(m) in s.tables.jobs
  {
    es, s, m := ReachPublished(v);
    es, s := Then(es, s, Publish(m));
    assert s.copies == Fanout(m) + Fanout(m);
    assert s.copies[2] == s.copies[5] == Copy(Caption, m, Ready);
    es, s := Take(es, s, A, 2, m);
    es, s := Take(es, s, B, 5, m);
  }

  /** B completes the job that A still runs. */
  lemma ReachOvertaken(v: VideoId) returns (es: seq<Event>, s: Sys, m: Message)
    ensures m == Uploaded(v, Canonical(v)) && Reaches(es, s) && FailStop(es)
    ensures s.tables.JobCompleted(CaptionJob(m)) && Runs(s, A, m)
  {
    es, s, m := ReachBothRunning(v);
    es, s := Finish(es, s, B, m);
  }

  /**
    Two workers on one queue and a second publish of the same video, as a retry of
    another job type causes: the job is completed while the other worker still runs it.
   */
  lemma CompletedWhileStillProcessed(v: VideoId) returns (es: seq<Event>)
    ensures IsRun(INIT, es) && FailStop(es)
    ensures Exec(INIT, es).tables.JobCompleted(JobKey(v, Caption)) && CanStillFail(Exec(INIT, es), JobKey(v, Caption))
  {
    var s, m;
    es, s, m := ReachOvertaken(v);
    assert Processes(s, A, JobKey(v, Caption));
  }

  /** From there A succeeds as well: with fail-stop workers, one insert is counted as two completed jobs. */
  lemma CompletedTwice(v: VideoId) returns (es: seq<Event>)
    ensures IsRun(INIT, es) && FailStop(es)
    ensures CompletionsSinceGrant(es, JobKey(v, Caption)) >= 2
  {
    var s, m;
    es, s, m := ReachOvertaken(v);
    es, s := Produce(es, s, A, m);
    es := CountAgain(es, s, A, JobKey(v, Caption));
  }

  lemma CountAgain(es: seq<Event>, s: Sys, w: WorkerId, k: JobKey) returns (longer: seq<Event>)
    requires Reaches(es, s) && s.tables.JobCompleted(k)
    requires w in s.workers && s.workers[w].Handles(k) && s.workers[w].pc.Succeeded?
    ensures IsRun(INIT, longer) && longer == es + [RecordCompletion(w, Done)]
    ensures CompletionsSinceGrant(longer, k) >= 2
  {
    CompletedWasCounted(es, k);
    var s';
    longer, s' := Then(es, s, RecordCompletion(w, Done));
    assert longer[..|longer| - 1] == es;
  }

  /** Worker A, without a connection, and the job k of message m while nothing of it is queued or announced. */
  ghost predicate Abandoned(s: Sys, m: Message) {
    && Runs(s, A, m) && !s.workers[A].attached
    && CaptionJob(m) !in s.unpublished && CaptionJob(m) !in s.dead
  }

  /** A loses its delivery to B while both run it, and nothing else of the job is queued. */
  lemma ReachGivenAway(v: VideoId) returns (es: seq<Event>, s: Sys, m: Message)
    ensures m == Uploaded(v, Canonical(v)) && Reaches(es, s) && Abandoned(s, m)
    ensures Runs(s, B, m) && s.workers[B].attached && s.workers[B].copy == 2
    ensures s.copies == MoveCopy(Fanout(m), 2, Unacked(B)) && CaptionJob(m) in s.tables.jobs
  {
    es, s, m := ReachPublished(v);
    es, s := Take(es, s, A, 2, m);
    es, s := Then(es, s, Detach(A));
    es, s := Take(es, s, B, 2, m);
  }

  /** B completes the job and acknowledges it, which settles the job's last copy. */
  lemma ReachForgotten(v: VideoId) returns (es: seq<Event>, s: Sys, m: Message)
    ensures m == Uploaded(v, Canonical(v)) && Reaches(es, s) && Abandoned(s, m)
    ensures s.tables.JobCompleted(CaptionJob(m))
    ensures forall id :: 0 <= id < |s.copies| && s.copies[id].IsFor(CaptionJob(m)) ==> s.copies[id].Settled()
  {
    es, s, m := ReachGivenAway(v);
    es, s := Finish(es, s, B, m);
    es, s := Then(es, s, Settle(B));
  }

  /** A job lost without a trace: after that, A records a failure. */
  lemma StrandedJob(v: VideoId) returns (es: seq<Event>)
    ensures IsRun(INIT, es) && !NotStranded(Exec(INIT, es), JobKey(v, Caption))
  {
    var s, m;
    es, s, m := ReachForgotten(v);
    es, s := Then(es, s, ProcessErr(A, ""));
    es, s := Then(es, s, RecordFailure(A, Done));
  }

  /** A retry request that spells the id in another way: completed, with its captions elsewhere. */
  lemma CompletedElsewhere(m: Message) returns (es: seq<Event>, s: Sys)
    requires m.Uploaded? && m.WellSpelled() && m.spelling != Canonical(m.video)
    ensures Reaches(es, s) && SpelledRun(es, m.video, m.spelling)
    ensures !FoundIfCompleted(s, m.video, Caption)
  {
    es, s := ReachRetried(m);
    es, s := Take(es, s, A, 2, m);
    es, s := Finish(es, s, A, m);
    var wanted := ArtifactKey(Canonical(m.video), Caption, "captions.vtt");
    CaptionIsRequired(Canonical(m.video));
    assert wanted[0] != RawFile(m.video)[0];
    assert wanted != CaptionFile(m) by {
      CanonicalNames(m.video);
      SweptArtifact(m.spelling, m.spelling, Caption, "captions.vtt");
      SweptArtifact(m.spelling, Canonical(m.video), Caption, "captions.vtt");
    }
  }

  /**
    When the requests about a video spell its id in one way, completed always means
    that the artifacts are where the page looks if and only if that way is canonical.
   */
  lemma CanonicalRequestsNeeded(v: VideoId, spelling: string)
    requires Names(spelling, v)
    ensures (forall es, t :: IsRun(INIT, es) && SpelledRun(es, v, spelling) ==>
               FoundIfCompleted(Exec(INIT, es), v, t)) <==>
            spelling == Canonical(v)
  {
    if spelling == Canonical(v) {
      forall es, t | IsRun(INIT, es) && SpelledRun(es, v, spelling)
        ensures FoundIfCompleted(Exec(INIT, es), v, t)
      {
        if v in Exec(INIT, es).tables.videos {
          CompletedMeansStored(es, v, t);
        }
      }
    } else {
      var es, s := CompletedElsewhere(Uploaded(v, spelling));
      assert !FoundIfCompleted(Exec(INIT, es), v, Caption);
    }
  }

  /** If the column of type t is completed, its artifacts are where the page looks. */
  ghost predicate FoundIfCompleted(s: Sys, v: VideoId, t: JobType) {
    v in s.tables.videos && s.tables.videos[v].Column(t) == Completed ==> RequiredArtifacts(Canonical(v), t) <= s.store
  }
}
