/**
  The database handle. Each method is one transaction; a statement or the commit
  may fail, and a failed commit may nevertheless have been applied.
 */
module DatabaseAccess {
  import opened Models
  import opened Keys
  import opened TableModel
  import opened Protocol
  import opened Tracing

  /** The transactions, by what they are for. */
  datatype Purpose = Inserting | Loading | Deleting | Claiming | Completing | Failing | Resetting

  class Database {
    const reliable: bool         // no call fails but those that are down
    const down: set<Purpose>     // these fail without effect whenever they are tried
    var videos: map<VideoId, Video>
    var jobs: map<JobKey, Job>

    constructor (reliable: bool, down: set<Purpose>)
      ensures Contents() == EMPTY && this.reliable == reliable && this.down == down
    {
      this.reliable, this.down, videos, jobs := reliable, down, map[], map[];
    }

    ghost function Contents(): Tables
      reads this
    {
      Tables(videos, jobs)
    }

    /** This transaction cannot fail. */
    predicate Works(purpose: Purpose) {
      reliable && purpose !in down
    }

    /** Makes a transaction's tables the current ones, unless the commit fails before it is applied. */
    method Commit(newVideos: map<VideoId, Video>, newJobs: map<JobKey, Job>) returns (reply: Reply)
      modifies this
      ensures Contents() == if reply.Applied() then Tables(newVideos, newJobs) else old(Contents())
      ensures reliable ==> reply == Done
    {
      var notApplied := Fails(reliable);
      if notApplied {
        return Error(false);
      }
      videos, jobs := newVideos, newJobs;
      var replyLost := Fails(reliable);
      return if replyLost then Error(true) else Done;
    }

    method InsertVideo(id: VideoId, title: string, storageKey: Key) returns (reply: Reply)
      modifies this
      ensures reply.Applied() ==> !InsertConflicts(old(Contents()), id, storageKey)
      ensures Contents() == If(reply.Applied(), InsertTx(old(Contents()), id, title, storageKey), old(Contents()))
      ensures Works(Inserting) && !InsertConflicts(old(Contents()), id, storageKey) ==> reply == Done
      ensures Inserting in down ==> reply == Error(false)
    {
      var fault := Fails(reliable, Inserting in down);
      if fault || InsertConflicts(Tables(videos, jobs), id, storageKey) {
        return Error(false);
      }
      var txVideos := videos[id := Video(title, storageKey, Pending, Pending, Pending)];
      var txJobs := jobs;
      for i := 0 to 3
        invariant forall k :: k in txJobs <==> k in jobs || (exists j :: 0 <= j < i && k == JobKey(id, JOB_TYPES[j]))
        invariant forall k :: k in txJobs ==> txJobs[k] == if k in jobs then jobs[k] else FRESH_JOB
        invariant Contents() == old(Contents())
      {
        fault := Fails(reliable);
        if fault {
          return Error(false);
        }
        var k := JobKey(id, JOB_TYPES[i]);
        if k !in txJobs {
          txJobs := txJobs[k := FRESH_JOB];
        }
      }
      EveryJobType(id);
      forall k | k in txJobs
        ensures k in jobs || k in JobKeys(id)
      {
      }
      assert JobKey(id, JOB_TYPES[0]) in txJobs && JobKey(id, JOB_TYPES[1]) in txJobs;
      assert JobKey(id, JOB_TYPES[2]) in txJobs;
      assert txJobs == (map k | k in JobKeys(id) :: FRESH_JOB) + jobs;
      reply := Commit(txVideos, txJobs);
    }

    /** Reports `notFound`, and changes nothing, when there is no such video. */
    method DeleteVideo(id: VideoId) returns (reply: Reply, notFound: bool)
      modifies this
      ensures notFound ==> id !in old(videos) && reply == Error(false)
      ensures Works(Deleting) ==> if id in old(videos) then reply == Done else notFound
      ensures Deleting in down ==> !notFound && reply == Error(false)
      ensures reply.Applied() ==> id in old(videos)
      ensures Contents() == If(reply.Applied(), DeleteTx(old(Contents()), id), old(Contents()))
    {
      var fault := Fails(reliable, Deleting in down);
      if fault {
        return Error(false), false;
      }
      if id !in videos {
        return Error(false), true;
      }
      reply := Commit(videos - {id}, jobs - JobKeys(id));
      notFound := false;
    }

    /** Claims a job that is not completed; without such a row nothing is claimed. */
    method ClaimJob(id: VideoId, t: JobType, worker: WorkerId, ghost trace: Trace)
      returns (reply: Reply, claimed: bool, attempt: nat)
      modifies this, trace
      ensures trace.events == old(trace.events) + [Claim(worker, reply)]
      ensures Contents() == If(reply.Applied(), ClaimTx(old(Contents()), JobKey(id, t), worker), old(Contents()))
      ensures reply.Done? ==> (claimed <==> old(Contents()).JobOpen(JobKey(id, t)))
      ensures reply.Done? && claimed ==> attempt == Contents().Attempts(JobKey(id, t))
      ensures reply.Error? || !claimed ==> attempt == 0
      ensures Works(Claiming) ==> reply == Done
      ensures Claiming in down ==> reply == Error(false)
    {
      var k := JobKey(id, t);
      claimed, attempt := false, 0;
      var fault := Fails(reliable, Claiming in down);
      if fault {
        reply := Error(false);
      } else if k in jobs && jobs[k].status != Completed {
        var row := jobs[k].(status := Processing, attempts := jobs[k].attempts + 1, worker := Some(worker));
        reply := Commit(videos, jobs[k := row]);
        if reply.Done? {
          claimed, attempt := true, row.attempts;
        }
      } else {
        reply := Commit(videos, jobs);
      }
      trace.events := trace.events + [Claim(worker, reply)];
    }

    /** The two updates that every status change makes, in one transaction. */
    method RecordStatus(purpose: Purpose, k: JobKey, row: Job) returns (reply: Reply)
      modifies this
      ensures Contents() == If(reply.Applied(), old(Contents()).WithStatus(k, row), old(Contents()))
      ensures Works(purpose) ==> reply == Done
      ensures purpose in down ==> reply == Error(false)
    {
      var fault := Fails(reliable, purpose in down);
      if fault {
        return Error(false);
      }
      var txJobs := if k in jobs then jobs[k := row] else jobs;
      fault := Fails(reliable);
      if fault {
        return Error(false);
      }
      var txVideos := if k.video in videos
      then videos[k.video := videos[k.video].WithColumn(k.jobType, row.status)]
      else videos;
      reply := Commit(txVideos, txJobs);
    }

    method CompleteJob(id: VideoId, t: JobType, ghost worker: WorkerId, ghost trace: Trace) returns (reply: Reply)
      modifies this, trace
      ensures trace.events == old(trace.events) + [RecordCompletion(worker, reply)]
      ensures Contents() == If(reply.Applied(), CompleteTx(old(Contents()), JobKey(id, t)), old(Contents()))
      ensures Works(Completing) ==> reply == Done
      ensures Completing in down ==> reply == Error(false)
    {
      var k := JobKey(id, t);
      var row := if k in jobs then jobs[k] else FRESH_JOB;
      reply := RecordStatus(Completing, k, row.(status := Completed));
      trace.events := trace.events + [RecordCompletion(worker, reply)];
    }

    method FailJob(id: VideoId, t: JobType, message: string, ghost worker: WorkerId, ghost trace: Trace)
      returns (reply: Reply)
      modifies this, trace
      ensures trace.events == old(trace.events) + [RecordFailure(worker, reply)]
      ensures Contents() == If(reply.Applied(), FailTx(old(Contents()), JobKey(id, t), message), old(Contents()))
      ensures Works(Failing) ==> reply == Done
      ensures Failing in down ==> reply == Error(false)
    {
      var k := JobKey(id, t);
      var row := if k in jobs then jobs[k].(lastError := Some(message)) else FRESH_JOB;
      reply := RecordStatus(Failing, k, row.(status := Failed));
      trace.events := trace.events + [RecordFailure(worker, reply)];
    }

    /** Makes the job, and its column, as if it had just been inserted; reports `notFound` without such a job. */
    method ResetJobForRetry(id: VideoId, t: JobType) returns (reply: Reply, notFound: bool)
      modifies this
      ensures notFound ==> !old(Contents()).HasJob(JobKey(id, t)) && reply == Error(false)
      ensures Works(Resetting) ==> if old(Contents()).HasJob(JobKey(id, t)) then reply == Done else notFound
      ensures Resetting in down ==> !notFound && reply == Error(false)
      ensures reply.Applied() ==> old(Contents()).HasJob(JobKey(id, t))
      ensures Contents() == If(reply.Applied(), ResetTx(old(Contents()), JobKey(id, t)), old(Contents()))
    {
      var k := JobKey(id, t);
      if k in jobs {
        notFound := false;
        reply := RecordStatus(Resetting, k, FRESH_JOB);
      } else {
        var fault := Fails(reliable, Resetting in down);
        notFound, reply := !fault, Error(false);
      }
    }

    /** Whether the call got through, and whether the video has a row. */
    method GetVideo(id: VideoId) returns (ok: bool, found: bool)
      ensures ok ==> (found <==> id in videos)
      ensures Works(Loading) ==> ok
      ensures Loading in down ==> !ok
    {
      var fault := Fails(reliable, Loading in down);
      ok, found := !fault, id in videos;
    }
  }
}
