/**
  What every step of the job protocol keeps, and what therefore holds after
  every run from the empty system: the broker and the workers agree on who
  holds what, the two tables agree, and what is marked completed exists.
 */
module Invariants {
  import opened Models
  import opened Keys
  import opened TableModel
  import opened Protocol

  /** The broker's unacked deliveries are exactly the ones attached workers hold. */
  ghost predicate Wired(s: Sys) {
    && (forall w :: w in s.workers && s.workers[w].attached && s.workers[w].pc != Idle ==>
          s.workers[w].copy < |s.copies| &&
          s.copies[s.workers[w].copy] == Copy(s.workers[w].jobType, s.workers[w].body, Unacked(w)))
    && (forall id :: 0 <= id < |s.copies| && s.copies[id].location.Unacked? ==>
          var w := s.copies[id].location.consumer;
          w in s.workers && s.workers[w].attached && s.workers[w].pc != Idle && s.workers[w].copy == id)
    && (forall w :: w in s.workers && s.workers[w].pc != Idle && s.workers[w].pc != Received ==>
          s.workers[w].body.Uploaded?)
    && (forall w :: w in s.workers && s.workers[w].pc == Idle ==> s.workers[w].attached)
  }

  /** Rows and messages exist only for videos that were inserted, each after its upload completed. */
  ghost predicate Grounded(s: Sys) {
    && (forall v :: v in s.tables.videos ==> v in s.inserted && s.tables.videos[v].storageKey == RawFile(v))
    && s.inserted <= s.stored && s.inserting <= s.stored && s.inserted !! s.inserting
    && (forall id :: 0 <= id < |s.copies| ==> s.copies[id].body in s.published)
    && (forall w :: w in s.workers && s.workers[w].pc != Idle ==> s.workers[w].body in s.published)
    && (forall m :: m in s.published && m.Uploaded? ==> m.video in s.inserted)
  }

  /** Whoever published a message, the database reads the spelling in it as the message's video. */
  ghost predicate WellSpelled(s: Sys) {
    forall m :: m in s.published ==> m.WellSpelled()
  }

  /** The artifacts of job k are stored, in the directory that some message about it spelled. */
  ghost predicate HasArtifacts(s: Sys, k: JobKey) {
    exists m :: m in s.published && m.About(k.video) && RequiredArtifacts(m.spelling, k.jobType) <= s.store
  }

  /** The raw file of every video, and the artifacts of every completed column, are stored. */
  ghost predicate ArtifactsStored(s: Sys) {
    && (forall v :: v in s.tables.videos || v in s.inserting ==> RawFile(v) in s.store)
    && (forall v, t :: v in s.tables.videos && s.tables.videos[v].Column(t) == Completed ==>
          HasArtifacts(s, JobKey(v, t)))
  }

  /** What a running worker has written is still there, unless its video is gone. */
  ghost predicate WorkStored(s: Sys) {
    forall w :: w in s.workers && s.workers[w].body.Uploaded? && s.workers[w].body.video in s.tables.videos ==>
      var worker := s.workers[w];
      && (worker.pc.InProcess? ==>
            worker.pc.put <= s.store && forall k :: k in worker.pc.put ==> Wrote(worker, k))
      && (worker.pc.Succeeded? ==> RequiredArtifacts(worker.body.spelling, worker.jobType) <= s.store)
  }

  ghost predicate Wrote(worker: Worker, k: Key)
    requires worker.body.Uploaded?
  {
    Directory(worker.body.spelling, worker.jobType) + "/" <= k
  }

  lemma WiredSettleStep(s: Sys, id: WorkerId)
    requires Wired(s) && WorkerEnabled(s, Settle(id))
    ensures Wired(SettleStep(s, id))
  {
  }

  lemma WiredClaimStep(s: Sys, id: WorkerId, reply: Reply)
    requires Wired(s) && WorkerEnabled(s, Claim(id, reply))
    ensures Wired(ClaimStep(s, id, reply))
  {
  }

  lemma WiredWorkerStep(s: Sys, e: Event)
    requires Wired(s) && e.OfWorker() && WorkerEnabled(s, e)
    ensures Wired(WorkerStep(s, e))
  {
    if e.Settle? {
      WiredSettleStep(s, e.worker);
    } else if e.Claim? {
      WiredClaimStep(s, e.worker, e.reply);
    }
  }

  lemma WiredBrokerStep(s: Sys, e: Event)
    requires Wired(s) && Enabled(s, e) && (e.Deliver? || e.Crash? || e.Detach?)
    ensures Wired(Step(s, e))
  {
  }

  lemma WiredStep(s: Sys, e: Event)
    requires Wired(s) && Enabled(s, e)
    ensures Wired(Step(s, e))
  {
    if e.OfWorker() {
      WiredWorkerStep(s, e);
    } else if e.Deliver? || e.Crash? || e.Detach? {
      WiredBrokerStep(s, e);
    }
  }

  lemma GroundedSettleStep(s: Sys, id: WorkerId)
    requires Wired(s) && Grounded(s) && WorkerEnabled(s, Settle(id))
    ensures Grounded(SettleStep(s, id))
  {
  }

  lemma GroundedClaimStep(s: Sys, id: WorkerId, reply: Reply)
    requires Wired(s) && Grounded(s) && WorkerEnabled(s, Claim(id, reply))
    ensures Grounded(ClaimStep(s, id, reply))
  {
  }

  lemma GroundedRecordStep(s: Sys, e: Event)
    requires Wired(s) && Grounded(s) && (e.RecordFailure? || e.RecordCompletion?) && WorkerEnabled(s, e)
    ensures Grounded(WorkerStep(s, e))
  {
  }

  lemma GroundedWorkerStep(s: Sys, e: Event)
    requires Wired(s) && Grounded(s) && e.OfWorker() && WorkerEnabled(s, e)
    ensures Grounded(WorkerStep(s, e))
  {
    if e.Settle? {
      GroundedSettleStep(s, e.worker);
    } else if e.Claim? {
      GroundedClaimStep(s, e.worker, e.reply);
    } else if e.RecordFailure? || e.RecordCompletion? {
      GroundedRecordStep(s, e);
    }
  }

  lemma GroundedBrokerStep(s: Sys, e: Event)
    requires Wired(s) && Grounded(s) && Enabled(s, e) && (e.Deliver? || e.Crash? || e.Detach?)
    ensures Grounded(Step(s, e))
  {
  }

  lemma GroundedInsertStep(s: Sys, v: VideoId, title: string, reply: Reply)
    requires Grounded(s) && v in s.inserting
    ensures Grounded(InsertStep(s, v, title, reply))
  {
  }

  lemma GroundedStep(s: Sys, e: Event)
    requires Wired(s) && Grounded(s) && Enabled(s, e)
    ensures Grounded(Step(s, e))
  {
    if e.OfWorker() {
      GroundedWorkerStep(s, e);
    } else if e.Deliver? || e.Crash? || e.Detach? {
      GroundedBrokerStep(s, e);
    } else if e.Insert? {
      GroundedInsertStep(s, e.video, e.title, e.reply);
    }
  }

  lemma WellSpelledStep(s: Sys, e: Event)
    requires WellSpelled(s) && Enabled(s, e)
    ensures WellSpelled(Step(s, e))
  {
  }

  lemma AgreementStep(s: Sys, e: Event)
    requires Agreement(s.tables) && Enabled(s, e)
    ensures Agreement(Step(s, e).tables)
  {
    var t := s.tables;
    match e
    case Claim(w, _) => ClaimAgrees(t, KeyOf(s.workers[w]), w);
    case RecordFailure(w, _) => FailAgrees(t, KeyOf(s.workers[w]), s.workers[w].pc.message);
    case RecordCompletion(w, _) => CompleteAgrees(t, KeyOf(s.workers[w]));
    case Reset(k, _) => StatusAgrees(t, k, FRESH_JOB);
    case Delete(v, _) => DeleteAgrees(t, v);
    case Insert(v, title, _) =>
      if v !in t.videos {
        InsertAgrees(t, v, title, RawFile(v));
      }
    case _ =>
  }

  /** A sweep, however its request spells the id, leaves everything that other videos need. */
  lemma SweepSparesLiveVideos(id: VideoId, request: string, target: Key)
    requires Names(request, id) && Swept(request, target)
    ensures forall v: VideoId :: v != id ==> target != RawFile(v)
    ensures forall v: VideoId, spelling, k :: v != id && Names(spelling, v) && Owned(Canonical(v), spelling, k) ==>
              target != k
  {
    forall v: VideoId, spelling, k | v != id && Names(spelling, v) && Owned(Canonical(v), spelling, k)
      ensures target != k
    {
      SweepIsExact(request, v, spelling, k);
    }
    forall v: VideoId | v != id
      ensures target != RawFile(v)
    {
      CanonicalNames(v);
      assert Owned(Canonical(v), Canonical(v), RawFile(v));
    }
  }

  lemma SweepSparesDirectories(id: VideoId, request: string, target: Key, m: Message, t: JobType)
    requires Names(request, id) && Swept(request, target) && m.Uploaded? && m.WellSpelled() && m.video != id
    ensures !(Directory(m.spelling, t) + "/" <= target) && target !in RequiredArtifacts(m.spelling, t)
  {
    if Directory(m.spelling, t) + "/" <= target {
      BelowDirectoryIsOwned(m.spelling, t, target);
      assert Owned(Canonical(m.video), m.spelling, target);
      SweepIsExact(request, m.video, m.spelling, target);
      assert false;
    }
    if target in RequiredArtifacts(m.spelling, t) {
      RequiredAreBelow(m.spelling, t, target);
      assert false;
    }
  }

  lemma WorkWorkerStep(s: Sys, e: Event)
    requires Wired(s) && WorkStored(s) && e.OfWorker() && WorkerEnabled(s, e)
    ensures WorkStored(WorkerStep(s, e))
  {
  }

  lemma WorkSweepStep(s: Sys, e: Event)
    requires Wired(s) && Grounded(s) && WellSpelled(s) && WorkStored(s) && Enabled(s, e) && e.SweepObject?
    ensures WorkStored(Step(s, e))
  {
    forall w, t | w in s.workers && s.workers[w].pc != Idle && s.workers[w].body.Uploaded? &&
                  s.workers[w].body.video in s.tables.videos
      ensures !(Directory(s.workers[w].body.spelling, t) + "/" <= e.target)
      ensures e.target !in RequiredArtifacts(s.workers[w].body.spelling, t)
    {
      SweepSparesDirectories(e.video, e.request, e.target, s.workers[w].body, t);
    }
  }

  lemma WorkOtherStep(s: Sys, e: Event)
    requires Grounded(s) && WorkStored(s) && Enabled(s, e) && !e.OfWorker() && !e.SweepObject?
    ensures WorkStored(Step(s, e))
  {
  }

  lemma WorkStep(s: Sys, e: Event)
    requires Wired(s) && Grounded(s) && WellSpelled(s) && WorkStored(s) && Enabled(s, e)
    ensures WorkStored(Step(s, e))
  {
    if e.OfWorker() {
      WorkWorkerStep(s, e);
    } else if e.SweepObject? {
      WorkSweepStep(s, e);
    } else {
      WorkOtherStep(s, e);
    }
  }

  /** A step that keeps the messages and the stored objects keeps the artifacts of every job. */
  lemma HasArtifactsStays(s: Sys, s': Sys, k: JobKey)
    requires HasArtifacts(s, k) && s.published <= s'.published && s.store <= s'.store
    ensures HasArtifacts(s', k)
  {
  }

  lemma ArtifactsCompletionStep(s: Sys, w: WorkerId, reply: Reply)
    requires Grounded(s) && ArtifactsStored(s) && WorkStored(s) && WorkerEnabled(s, RecordCompletion(w, reply))
    ensures ArtifactsStored(WorkerStep(s, RecordCompletion(w, reply)))
  {
    var s' := WorkerStep(s, RecordCompletion(w, reply));
    var k := KeyOf(s.workers[w]);
    forall v, t | v in s'.tables.videos && s'.tables.videos[v].Column(t) == Completed
      ensures HasArtifacts(s', JobKey(v, t))
    {
      if JobKey(v, t) == k {
        assert s.workers[w].body in s.published && s.workers[w].body.About(v);
      } else {
        HasArtifactsStays(s, s', JobKey(v, t));
      }
    }
  }

  lemma WorkerStepFrame(s: Sys, e: Event)
    requires e.OfWorker() && WorkerEnabled(s, e) && !e.RecordCompletion?
    ensures s.published == WorkerStep(s, e).published && s.store <= WorkerStep(s, e).store
    ensures s.inserting == WorkerStep(s, e).inserting && s.tables.videos.Keys == WorkerStep(s, e).tables.videos.Keys
    ensures forall v, t :: v in s.tables.videos && WorkerStep(s, e).tables.videos[v].Column(t) == Completed ==>
              s.tables.videos[v].Column(t) == Completed
  {
  }

  /** Any other step removes no object, makes no column completed and adds no video without its raw file. */
  lemma OtherStepFrame(s: Sys, e: Event)
    requires Grounded(s) && Enabled(s, e) && !e.RecordCompletion? && !e.SweepObject?
    ensures s.published <= Step(s, e).published && s.store <= Step(s, e).store
    ensures forall v, t :: v in Step(s, e).tables.videos && Step(s, e).tables.videos[v].Column(t) == Completed ==>
              v in s.tables.videos && s.tables.videos[v].Column(t) == Completed
    ensures forall v :: v in Step(s, e).tables.videos || v in Step(s, e).inserting ==>
              v in s.tables.videos || v in s.inserting || RawFile(v) in Step(s, e).store
  {
    if e.OfWorker() {
      WorkerStepFrame(s, e);
    }
  }

  lemma ArtifactsOtherStep(s: Sys, e: Event)
    requires Grounded(s) && ArtifactsStored(s) && Enabled(s, e) && !e.RecordCompletion? && !e.SweepObject?
    ensures ArtifactsStored(Step(s, e))
  {
    OtherStepFrame(s, e);
    var s' := Step(s, e);
    forall v, t | v in s'.tables.videos && s'.tables.videos[v].Column(t) == Completed
      ensures HasArtifacts(s', JobKey(v, t))
    {
      HasArtifactsStays(s, s', JobKey(v, t));
    }
  }

  lemma ArtifactsSweepStep(s: Sys, e: Event)
    requires Grounded(s) && WellSpelled(s) && ArtifactsStored(s) && Enabled(s, e) && e.SweepObject?
    ensures ArtifactsStored(Step(s, e))
  {
    var s' := Step(s, e);
    SweepSparesLiveVideos(e.video, e.request, e.target);
    forall v, t | v in s'.tables.videos && s'.tables.videos[v].Column(t) == Completed
      ensures HasArtifacts(s', JobKey(v, t))
    {
      var m :| m in s.published && m.About(v) && RequiredArtifacts(m.spelling, t) <= s.store;
      SweepSparesDirectories(e.video, e.request, e.target, m, t);
    }
  }

  lemma ArtifactsStep(s: Sys, e: Event)
    requires Wired(s) && Grounded(s) && WellSpelled(s) && ArtifactsStored(s) && WorkStored(s) && Enabled(s, e)
    ensures ArtifactsStored(Step(s, e))
  {
    if e.RecordCompletion? {
      ArtifactsCompletionStep(s, e.worker, e.reply);
    } else if e.SweepObject? {
      ArtifactsSweepStep(s, e);
    } else {
      ArtifactsOtherStep(s, e);
    }
  }

  ghost predicate Inv(s: Sys) {
    Wired(s) && Grounded(s) && WellSpelled(s) && Agreement(s.tables) && ArtifactsStored(s) && WorkStored(s)
  }

  lemma InvStep(s: Sys, e: Event)
    requires Inv(s) && Enabled(s, e)
    ensures Inv(Step(s, e))
  {
    WiredStep(s, e);
    GroundedStep(s, e);
    WellSpelledStep(s, e);
    AgreementStep(s, e);
    ArtifactsStep(s, e);
    WorkStep(s, e);
  }

  lemma {:induction false} InvRun(s: Sys, es: seq<Event>)
    requires Inv(s) && IsRun(s, es)
    ensures Inv(Exec(s, es))
  {
    if es != [] {
      InvRun(s, es[..|es| - 1]);
      InvStep(Exec(s, es[..|es| - 1]), es[|es| - 1]);
    }
  }

  lemma InvAlways(es: seq<Event>)
    requires IsRun(INIT, es)
    ensures Inv(Exec(INIT, es))
  {
    InvRun(INIT, es);
  }

  lemma InvAt(es: seq<Event>, i: nat)
    requires IsRun(INIT, es) && i <= |es|
    ensures Inv(At(es, i))
  {
    PrefixIsRun(INIT, es, i);
    InvAlways(es[..i]);
  }

  /**
    Table agreement, with any number of workers, crashed and detached ones
    included: a video has a row exactly when all three of its jobs do, a column
    never reads processing, reads completed exactly when its job does, and
    otherwise equals a job status that is not processing.
   */
  lemma TablesAgreeAlways(es: seq<Event>, v: VideoId, t: JobType)
    requires IsRun(INIT, es)
    ensures var tables, k := Exec(INIT, es).tables, JobKey(v, t);
            && (v in tables.videos <==> k in tables.jobs)
            && (v in tables.videos ==>
                  var column, status := tables.videos[v].Column(t), tables.jobs[k].status;
                  && column != Processing
                  && (column == Completed <==> status == Completed)
                  && (status != Processing ==> status == column))
  {
    InvAlways(es);
  }

  /** Whoever publishes about video v spells its id in this way. */
  ghost predicate SpelledRun(es: seq<Event>, v: VideoId, spelling: string) {
    forall i :: 0 <= i < |es| && es[i].Publish? && es[i].body.About(v) ==> es[i].body.spelling == spelling
  }

  lemma {:induction false} PublishedIn(es: seq<Event>, m: Message)
    requires IsRun(INIT, es) && m in Exec(INIT, es).published
    ensures Publish(m) in es
  {
    var n := |es| - 1;
    if m in Exec(INIT, es[..n]).published {
      PublishedIn(es[..n], m);
    } else {
      assert es[n] == Publish(m);
    }
  }

  /**
    A video that the API shows has its raw file, and a completed column has its
    artifacts, in the directory that some published message spelled: the one the page
    looks in, if every request about the video spelled its id canonically.
   */
  lemma CompletedMeansStored(es: seq<Event>, v: VideoId, t: JobType)
    requires IsRun(INIT, es)
    requires v in Exec(INIT, es).tables.videos
    ensures var s := Exec(INIT, es);
            RawFile(v) in s.store && s.tables.videos[v].storageKey == RawFile(v)
    ensures Exec(INIT, es).tables.videos[v].Column(t) == Completed ==>
              exists m :: Publish(m) in es && m.About(v) && m.WellSpelled() &&
                          RequiredArtifacts(m.spelling, t) <= Exec(INIT, es).store
    ensures Exec(INIT, es).tables.videos[v].Column(t) == Completed && SpelledRun(es, v, Canonical(v)) ==>
              RequiredArtifacts(Canonical(v), t) <= Exec(INIT, es).store
  {
    InvAlways(es);
    var s := Exec(INIT, es);
    if s.tables.videos[v].Column(t) == Completed {
      assert HasArtifacts(s, JobKey(v, t));
      var m :| m in s.published && m.About(v) && RequiredArtifacts(m.spelling, t) <= s.store;
      PublishedIn(es, m);
      assert m.WellSpelled();
    }
  }

  /**
    In the page's own terms: if every request about a video spelled its id canonically,
    a completed column means that each file the page loads for it is stored.
   */
  lemma CompletedIsPlayable(es: seq<Event>, v: VideoId)
    requires IsRun(INIT, es) && SpelledRun(es, v, Canonical(v)) && v in Exec(INIT, es).tables.videos
    ensures var row, store, id := Exec(INIT, es).tables.videos[v], Exec(INIT, es).store, Canonical(v);
            && "raw/" + id + ".mp4" in store
            && (row.encoding == Completed ==>
                  && "renditions/" + id + "/master.m3u8" in store
                  && "renditions/" + id + "/1080p/index.m3u8" in store
                  && "renditions/" + id + "/720p/index.m3u8" in store
                  && "renditions/" + id + "/480p/index.m3u8" in store)
            && (row.thumbnail == Completed ==>
                  && "thumbnails/" + id + "/thumb_0.jpg" in store && "thumbnails/" + id + "/thumb_1.jpg" in store
                  && "thumbnails/" + id + "/thumb_2.jpg" in store)
            && (row.caption == Completed ==> "captions/" + id + "/captions.vtt" in store)
  {
    CompletedMeansStored(es, v, HLS);
    CompletedMeansStored(es, v, Thumbnail);
    CompletedMeansStored(es, v, Caption);
    HlsFiles(Canonical(v));
    ThumbnailFiles(Canonical(v));
    CaptionFiles(Canonical(v));
  }

  /** Where each worker puts the files that the page loads. */
  lemma HlsFiles(id: string)
    ensures "renditions/" + id + "/master.m3u8" in RequiredArtifacts(id, HLS)
    ensures "renditions/" + id + "/1080p/index.m3u8" in RequiredArtifacts(id, HLS)
    ensures "renditions/" + id + "/720p/index.m3u8" in RequiredArtifacts(id, HLS)
    ensures "renditions/" + id + "/480p/index.m3u8" in RequiredArtifacts(id, HLS)
  {
    FileOf(id, HLS, 0, "renditions/", "/master.m3u8");
    FileOf(id, HLS, 1, "renditions/", "/1080p/index.m3u8");
    FileOf(id, HLS, 2, "renditions/", "/720p/index.m3u8");
    FileOf(id, HLS, 3, "renditions/", "/480p/index.m3u8");
  }

  lemma ThumbnailFiles(id: string)
    ensures "thumbnails/" + id + "/thumb_0.jpg" in RequiredArtifacts(id, Thumbnail)
    ensures "thumbnails/" + id + "/thumb_1.jpg" in RequiredArtifacts(id, Thumbnail)
    ensures "thumbnails/" + id + "/thumb_2.jpg" in RequiredArtifacts(id, Thumbnail)
  {
    FileOf(id, Thumbnail, 0, "thumbnails/", "/thumb_0.jpg");
    FileOf(id, Thumbnail, 1, "thumbnails/", "/thumb_1.jpg");
    FileOf(id, Thumbnail, 2, "thumbnails/", "/thumb_2.jpg");
  }

  lemma CaptionFiles(id: string)
    ensures "captions/" + id + "/captions.vtt" in RequiredArtifacts(id, Caption)
  {
    FileOf(id, Caption, 0, "captions/", "/captions.vtt");
  }

  lemma FileOf(id: string, t: JobType, i: nat, root: string, rest: string)
    requires i < |RequiredNames(t)| && Directory(id, t) == root + id && rest == "/" + RequiredNames(t)[i]
    ensures root + id + rest in RequiredArtifacts(id, t)
  {
    var name := RequiredNames(t)[i];
    assert root + id + rest == ArtifactKey(id, t, name);
  }
}
