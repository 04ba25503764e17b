/**
  What the two tables hold, told from the events of a run alone: every row and every
  column is what the last event that concerns it has made it.
 */
module History {
  import opened Models
  import opened Keys
  import opened TableModel
  import opened Protocol
  import opened Invariants
  import opened Attempts
  import opened Counting

  /** The failure of a process of job k is recorded. */
  ghost predicate NotesFailure(s: Sys, e: Event, k: JobKey) {
    e.RecordFailure? && e.reply.Applied() && e.worker in s.workers && s.workers[e.worker].Handles(k)
  }

  predicate Inserts(e: Event, v: VideoId) {
    e.Insert? && e.video == v && e.reply.Applied()
  }

  predicate Deletes(e: Event, v: VideoId) {
    e.Delete? && e.video == v && e.reply.Applied()
  }

  /** Video v was inserted and not deleted since. */
  predicate Present(es: seq<Event>, v: VideoId) {
    es != [] &&
    var prefix, e := es[..|es| - 1], es[|es| - 1];
    Inserts(e, v) || (!Deletes(e, v) && Present(prefix, v))
  }

  /** The title of the last insert of v. */
  function TitleOf(es: seq<Event>, v: VideoId): string {
    if es == [] then "" else if Inserts(es[|es| - 1], v) then es[|es| - 1].title else TitleOf(es[..|es| - 1], v)
  }

  /** The last thing that happened to job k: granted, claimed, completed or failed. */
  ghost function LastOutcome(es: seq<Event>, k: JobKey): Status
    requires IsRun(INIT, es)
  {
    if es == [] then Pending
    else
      var prefix, e := es[..|es| - 1], es[|es| - 1];
      var s := Exec(INIT, prefix);
      if Grants(s, e, k) then Pending
      else if Claims(s, e, k) then Processing
      else if Completes(s, e, k) then Completed
      else if NotesFailure(s, e, k) then Failed
      else LastOutcome(prefix, k)
  }

  /** The same without claims, which the columns do not show. */
  ghost function LastRecorded(es: seq<Event>, k: JobKey): Status
    requires IsRun(INIT, es)
  {
    if es == [] then Pending
    else
      var prefix, e := es[..|es| - 1], es[|es| - 1];
      var s := Exec(INIT, prefix);
      if Grants(s, e, k) then Pending
      else if Completes(s, e, k) then Completed
      else if NotesFailure(s, e, k) then Failed
      else LastRecorded(prefix, k)
  }

  /** Who made the last claim of job k since it was granted. */
  ghost function LastClaimant(es: seq<Event>, k: JobKey): Option<WorkerId>
    requires IsRun(INIT, es)
  {
    if es == [] then None
    else
      var prefix, e := es[..|es| - 1], es[|es| - 1];
      if Grants(Exec(INIT, prefix), e, k) then None
      else if Claims(Exec(INIT, prefix), e, k) then Some(e.worker)
      else LastClaimant(prefix, k)
  }

  /** What the last failed process of worker w reported. */
  function ErrorOf(es: seq<Event>, w: WorkerId): string {
    if es == [] then ""
    else if es[|es| - 1].ProcessErr? && es[|es| - 1].worker == w then es[|es| - 1].message
    else ErrorOf(es[..|es| - 1], w)
  }

  /** The error of the last failure recorded for job k since it was granted. */
  ghost function LastError(es: seq<Event>, k: JobKey): Option<string>
    requires IsRun(INIT, es)
  {
    if es == [] then None
    else
      var prefix, e := es[..|es| - 1], es[|es| - 1];
      if Grants(Exec(INIT, prefix), e, k) then None
      else if NotesFailure(Exec(INIT, prefix), e, k) then Some(ErrorOf(prefix, e.worker))
      else LastError(prefix, k)
  }

  lemma RawFilesDiffer(v: VideoId, w: VideoId)
    requires RawFile(v) == RawFile(w)
    ensures v == w
  {
    CanonicalNames(v);
    CanonicalNames(w);
    SweepIsExact(Canonical(v), w, Canonical(w), RawFile(w));
    SweepIsExact(Canonical(v), v, Canonical(v), RawFile(v));
  }

  /** The insert of a new video never meets a row with its id or its storage key. */
  lemma InsertsNeverConflict(s: Sys, v: VideoId)
    requires Grounded(s) && v in s.inserting
    ensures !InsertConflicts(s.tables, v, RawFile(v))
  {
    forall w | w in s.tables.videos && s.tables.videos[w].storageKey == RawFile(v)
      ensures w == v
    {
      RawFilesDiffer(w, v);
    }
  }

  lemma PresenceWorkerStep(s: Sys, e: Event, v: VideoId)
    requires e.OfWorker() && WorkerEnabled(s, e)
    ensures v in WorkerStep(s, e).tables.videos <==> v in s.tables.videos
    ensures v in s.tables.videos ==> WorkerStep(s, e).tables.videos[v].title == s.tables.videos[v].title
  {
  }

  lemma PresenceStep(s: Sys, e: Event, v: VideoId)
    requires Grounded(s) && Enabled(s, e)
    ensures v in Step(s, e).tables.videos <==> Inserts(e, v) || (!Deletes(e, v) && v in s.tables.videos)
    ensures v in Step(s, e).tables.videos ==>
              Step(s, e).tables.videos[v].title == if Inserts(e, v) then e.title else s.tables.videos[v].title
  {
    if e.OfWorker() {
      PresenceWorkerStep(s, e, v);
    } else if e.Insert? {
      InsertsNeverConflict(s, e.video);
    }
  }

  /** What one event makes of the row of job k. */
  ghost predicate JobFollows(s: Sys, e: Event, k: JobKey, after: Tables)
    requires Enabled(s, e)
  {
    && (Grants(s, e, k) || k in s.tables.jobs) && k in after.jobs
    && after.jobs[k].status == (if Grants(s, e, k) then Pending
                                else if Claims(s, e, k) then Processing
                                else if Completes(s, e, k) then Completed
                                else if NotesFailure(s, e, k) then Failed
                                else s.tables.jobs[k].status)
    && after.jobs[k].worker == (if Grants(s, e, k) then None
                                else if Claims(s, e, k) then Some(e.worker)
                                else s.tables.jobs[k].worker)
    && after.jobs[k].lastError == (if Grants(s, e, k) then None
                                   else if NotesFailure(s, e, k) then Some(s.workers[e.worker].pc.message)
                                   else s.tables.jobs[k].lastError)
  }

  lemma JobWorkerStep(s: Sys, e: Event, k: JobKey)
    requires e.OfWorker() && WorkerEnabled(s, e) && k in WorkerStep(s, e).tables.jobs
    ensures JobFollows(s, e, k, WorkerStep(s, e).tables)
  {
    assert k == JobKey(k.video, k.jobType);
  }

  lemma JobStep(s: Sys, e: Event, k: JobKey)
    requires Agreement(s.tables) && Enabled(s, e) && k in Step(s, e).tables.jobs
    ensures JobFollows(s, e, k, Step(s, e).tables)
  {
    assert k == JobKey(k.video, k.jobType);
    if e.OfWorker() {
      JobWorkerStep(s, e, k);
    }
  }

  /** What one event makes of the column of job k. */
  ghost predicate ColumnFollows(s: Sys, e: Event, k: JobKey, after: Tables) {
    && (Grants(s, e, k) || k.video in s.tables.videos) && k.video in after.videos
    && after.videos[k.video].Column(k.jobType) ==
         if Grants(s, e, k) then Pending
         else if Completes(s, e, k) then Completed
         else if NotesFailure(s, e, k) then Failed
         else s.tables.videos[k.video].Column(k.jobType)
  }

  lemma ColumnWorkerStep(s: Sys, e: Event, k: JobKey)
    requires e.OfWorker() && WorkerEnabled(s, e) && k.video in WorkerStep(s, e).tables.videos
    ensures ColumnFollows(s, e, k, WorkerStep(s, e).tables)
  {
    assert k == JobKey(k.video, k.jobType);
  }

  lemma ColumnStep(s: Sys, e: Event, k: JobKey)
    requires Agreement(s.tables) && Enabled(s, e) && k.video in Step(s, e).tables.videos
    ensures ColumnFollows(s, e, k, Step(s, e).tables)
  {
    assert k == JobKey(k.video, k.jobType);
    if e.OfWorker() {
      ColumnWorkerStep(s, e, k);
    }
  }

  lemma ErrorStep(s: Sys, e: Event, w: WorkerId)
    requires Enabled(s, e) && w in Step(s, e).workers && Step(s, e).workers[w].pc.Broken?
    ensures if e.ProcessErr? && e.worker == w then Step(s, e).workers[w].pc.message == e.message
            else w in s.workers && s.workers[w].pc == Step(s, e).workers[w].pc
  {
  }

  /** What a worker is about to record is what its own process reported. */
  lemma {:induction false} BrokenTellsError(es: seq<Event>, w: WorkerId)
    requires IsRun(INIT, es) && w in Exec(INIT, es).workers && Exec(INIT, es).workers[w].pc.Broken?
    ensures Exec(INIT, es).workers[w].pc.message == ErrorOf(es, w)
  {
    var prefix, e := es[..|es| - 1], es[|es| - 1];
    ErrorStep(Exec(INIT, prefix), e, w);
    if !(e.ProcessErr? && e.worker == w) {
      BrokenTellsError(prefix, w);
    }
  }

  /** A video has a row from its insert to its delete, with the title of the insert and the key of the upload. */
  lemma {:induction false} VideosAreHistory(es: seq<Event>, v: VideoId)
    requires IsRun(INIT, es)
    ensures v in Exec(INIT, es).tables.videos <==> Present(es, v)
    ensures v in Exec(INIT, es).tables.videos ==>
              var row := Exec(INIT, es).tables.videos[v];
              row.title == TitleOf(es, v) && row.storageKey == "raw/" + Canonical(v) + ".mp4"
  {
    InvAlways(es);
    if es != [] {
      var prefix, e := es[..|es| - 1], es[|es| - 1];
      VideosAreHistory(prefix, v);
      InvAlways(prefix);
      PresenceStep(Exec(INIT, prefix), e, v);
    }
  }

  /** A job row tells the last outcome, and the claims, the last error and the last claimant since the grant. */
  lemma {:induction false} JobsAreHistory(es: seq<Event>, k: JobKey)
    requires IsRun(INIT, es)
    ensures k in Exec(INIT, es).tables.jobs <==> Present(es, k.video)
    ensures k in Exec(INIT, es).tables.jobs ==>
              Exec(INIT, es).tables.jobs[k] ==
                Job(LastOutcome(es, k), ClaimsSinceGrant(es, k), LastError(es, k), LastClaimant(es, k))
  {
    VideosAreHistory(es, k.video);
    TablesAgreeAlways(es, k.video, k.jobType);
    assert k == JobKey(k.video, k.jobType);
    AttemptCountIsExact(es, k);
    if es != [] && k in Exec(INIT, es).tables.jobs {
      var prefix, e := es[..|es| - 1], es[|es| - 1];
      JobsAreHistory(prefix, k);
      InvAlways(prefix);
      JobStep(Exec(INIT, prefix), e, k);
      if NotesFailure(Exec(INIT, prefix), e, k) {
        BrokenTellsError(prefix, e.worker);
      }
    }
  }

  /** A status column tells the last outcome but for claims. */
  lemma {:induction false} ColumnsAreHistory(es: seq<Event>, v: VideoId)
    requires IsRun(INIT, es) && v in Exec(INIT, es).tables.videos
    ensures Exec(INIT, es).tables.videos[v].encoding == LastRecorded(es, JobKey(v, HLS))
    ensures Exec(INIT, es).tables.videos[v].thumbnail == LastRecorded(es, JobKey(v, Thumbnail))
    ensures Exec(INIT, es).tables.videos[v].caption == LastRecorded(es, JobKey(v, Caption))
  {
    ColumnIsHistory(es, JobKey(v, HLS));
    ColumnIsHistory(es, JobKey(v, Thumbnail));
    ColumnIsHistory(es, JobKey(v, Caption));
  }

  lemma {:induction false} ColumnIsHistory(es: seq<Event>, k: JobKey)
    requires IsRun(INIT, es) && k.video in Exec(INIT, es).tables.videos
    ensures Exec(INIT, es).tables.videos[k.video].Column(k.jobType) == LastRecorded(es, k)
  {
    if es != [] {
      var prefix, e := es[..|es| - 1], es[|es| - 1];
      InvAlways(prefix);
      ColumnStep(Exec(INIT, prefix), e, k);
      if !Grants(Exec(INIT, prefix), e, k) {
        ColumnIsHistory(prefix, k);
      }
    }
  }

  /** Job k was inserted or reset, and its video not published since. */
  ghost predicate Unannounced(es: seq<Event>, k: JobKey)
    requires IsRun(INIT, es)
  {
    es != [] &&
    var prefix, e := es[..|es| - 1], es[|es| - 1];
    Grants(Exec(INIT, prefix), e, k) || (!(e.Publish? && e.body.About(k.video)) && Unannounced(prefix, k))
  }

  /** An attached worker rejects a delivery of job k for good. */
  ghost predicate Rejects(s: Sys, e: Event, k: JobKey) {
    e.Settle? && e.worker in s.workers && s.workers[e.worker].attached && s.workers[e.worker].Handles(k) &&
    s.workers[e.worker].Verdict() == Some(DeadLettered)
  }

  /** A delivery of job k has been dead-lettered since its last insert or reset. */
  ghost predicate RejectedSinceGrant(es: seq<Event>, k: JobKey)
    requires IsRun(INIT, es)
  {
    es != [] &&
    var prefix, e := es[..|es| - 1], es[|es| - 1];
    Rejects(Exec(INIT, prefix), e, k) || (!Grants(Exec(INIT, prefix), e, k) && RejectedSinceGrant(prefix, k))
  }

  lemma FlagsStep(s: Sys, e: Event, k: JobKey)
    requires Wired(s) && Enabled(s, e)
    ensures k in Step(s, e).unpublished <==>
            Grants(s, e, k) || (!(e.Publish? && e.body.About(k.video)) && k in s.unpublished)
    ensures k in Step(s, e).dead <==> Rejects(s, e, k) || (!Grants(s, e, k) && k in s.dead)
  {
    assert k == JobKey(k.video, k.jobType);
  }

  /** What the protocol's state remembers of a job beside its row is what has happened to it. */
  lemma {:induction false} FlagsAreHistory(es: seq<Event>, k: JobKey)
    requires IsRun(INIT, es)
    ensures k in Exec(INIT, es).unpublished <==> Unannounced(es, k)
    ensures k in Exec(INIT, es).dead <==> RejectedSinceGrant(es, k)
  {
    if es != [] {
      var prefix := es[..|es| - 1];
      FlagsAreHistory(prefix, k);
      InvAlways(prefix);
      FlagsStep(Exec(INIT, prefix), es[|es| - 1], k);
    }
  }
}
