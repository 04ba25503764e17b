/**
  The durable job protocol as a state machine: any number of workers, a broker
  that delivers at least once, the two tables, the object store, and the
  requests that insert, retry and delete videos. Every database transaction and
  every line of the worker at which it can be interrupted is one step.
 */
module Protocol {
  import opened Models
  import opened Keys
  import opened TableModel

  /** A failed attempt with this number, or a higher one, is not requeued. */
  const MAX_ATTEMPTS: nat := 3

  type WorkerId = string
  type CopyId = nat

  /** Where one queued copy of a message is. */
  datatype Location = Ready | Unacked(consumer: WorkerId) | Acked | DeadLettered

  /** A message is copied to the queue of every job type when it is published. */
  datatype Copy = Copy(queue: JobType, body: Message, location: Location) {
    predicate Settled() {
      location.Acked? || location.DeadLettered?
    }

    predicate IsFor(k: JobKey) {
      queue == k.jobType && body.About(k.video)
    }
  }

  /** Where a worker stands inside the handling of its delivery. */
  datatype Pc =
    | Idle
    | Received                                  // nothing done yet
    | InProcess(attempt: nat, put: set<Key>)    // claimed, running; `put` are the artifacts written so far
    | Succeeded(attempt: nat)                   // process returned without an error
    | Broken(attempt: nat, message: string)     // process returned an error
    | FailureNoted(attempt: nat)                // the call that records the failure has returned
    | Requeueing                                // a database call failed
    | Acking                                    // skipped or completed
  {
    /** Between the claim and the call that records its outcome. */
    predicate Claimed() {
      InProcess? || Succeeded? || Broken?
    }
  }

  /** One run of a worker process. It is detached once the broker has given its delivery away. */
  datatype Worker = Worker(jobType: JobType, copy: CopyId, body: Message, attached: bool, pc: Pc) {
    predicate Handles(k: JobKey) {
      pc != Idle && jobType == k.jobType && body.About(k.video)
    }

    predicate HasClaimed(k: JobKey) {
      Handles(k) && pc.Claimed()
    }

    /** What the worker does with its delivery next, if it is about to settle it. */
    function Verdict(): Option<Location> {
      match pc
      case Received => if body.Malformed? then Some(DeadLettered) else None
      case FailureNoted(attempt) => Some(if attempt < MAX_ATTEMPTS then Ready else DeadLettered)
      case Requeueing => Some(Ready)
      case Acking => Some(Acked)
      case _ => None
    }
  }

  datatype Sys = Sys(
    tables: Tables,
    copies: seq<Copy>,
    workers: map<WorkerId, Worker>,
    store: set<Key>,
    stored: set<VideoId>,        // multipart uploads that storage has completed
    inserting: set<VideoId>,     // requests between that completion and their insert
    inserted: set<VideoId>,      // videos that ever had a row
    published: set<Message>,     // messages that were ever published
    unpublished: set<JobKey>,    // inserted or reset, and nothing published since
    dead: set<JobKey>)           // dead-lettered since the last insert or reset
  {
    predicate Deleted(v: VideoId) {
      v in inserted && v !in tables.videos
    }
  }

  const INIT := Sys(EMPTY, [], map[], {}, {}, {}, {}, {}, {}, {})

  datatype Event =
    // requests to the upload service
    | CompleteStorage(video: VideoId)
    | Insert(video: VideoId, title: string, reply: Reply)
    | Publish(body: Message)
    | Reset(job: JobKey, reply: Reply)
    | Delete(video: VideoId, reply: Reply)
    | SweepObject(video: VideoId, request: string, target: Key)   // `request` spells the id
    // broker and processes
    | Start(worker: WorkerId, jobType: JobType)
    | Deliver(worker: WorkerId, copy: CopyId)
    | Crash(worker: WorkerId)
    | Detach(worker: WorkerId)
    // lines of handleDelivery
    | Claim(worker: WorkerId, reply: Reply)
    | PutArtifact(worker: WorkerId, artifact: Key)
    | ProcessOk(worker: WorkerId)
    | ProcessErr(worker: WorkerId, message: string)
    | RecordFailure(worker: WorkerId, reply: Reply)
    | RecordCompletion(worker: WorkerId, reply: Reply)
    | Settle(worker: WorkerId)
  {
    predicate OfWorker() {
      Claim? || PutArtifact? || ProcessOk? || ProcessErr? || RecordFailure? || RecordCompletion? || Settle?
    }
  }

  /** The job a worker's delivery is about. */
  function KeyOf(w: Worker): JobKey
    requires w.body.Uploaded?
  {
    JobKey(w.body.video, w.jobType)
  }

  predicate WorkerEnabled(s: Sys, e: Event)
    requires e.OfWorker()
  {
    e.worker in s.workers &&
    var w := s.workers[e.worker];
    match e
    case Claim(_, _) => w.pc == Received && w.body.Uploaded?
    case PutArtifact(_, artifact) =>
      w.pc.InProcess? && w.body.Uploaded? && Directory(w.body.spelling, w.jobType) + "/" <= artifact
    case ProcessOk(_) =>
      w.pc.InProcess? && w.body.Uploaded? && RequiredArtifacts(w.body.spelling, w.jobType) <= w.pc.put
    case ProcessErr(_, _) => w.pc.InProcess?
    case RecordFailure(_, _) => w.pc.Broken? && w.body.Uploaded?
    case RecordCompletion(_, _) => w.pc.Succeeded? && w.body.Uploaded?
    case Settle(_) => w.Verdict().Some?
    case _ => false
  }

  ghost predicate Enabled(s: Sys, e: Event) {
    match e
    case CompleteStorage(v) => v !in s.stored
    case Insert(v, _, _) => v in s.inserting
    case Publish(body) => body.Uploaded? ==> body.video in s.inserted && body.WellSpelled()
    case Reset(_, _) => true
    case Delete(_, _) => true
    case SweepObject(v, request, target) => s.Deleted(v) && Names(request, v) && Swept(request, target)
    case Start(w, _) => w !in s.workers
    case Deliver(w, id) =>
      && w in s.workers && s.workers[w].pc == Idle && s.workers[w].attached
      && id < |s.copies| && s.copies[id].location == Ready && s.copies[id].queue == s.workers[w].jobType
    case Crash(w) => w in s.workers
    case Detach(w) => w in s.workers && s.workers[w].attached && s.workers[w].pc != Idle
    case _ => e.OfWorker() && WorkerEnabled(s, e)
  }

  function MoveCopy(copies: seq<Copy>, id: CopyId, location: Location): seq<Copy> {
    if id < |copies| then copies[id := copies[id].(location := location)] else copies
  }

  /** The delivery of worker w goes back to its queue, if the broker still counts it as w's. */
  function GiveBack(s: Sys, w: WorkerId): seq<Copy>
    requires w in s.workers
  {
    if s.workers[w].attached && s.workers[w].pc != Idle then MoveCopy(s.copies, s.workers[w].copy, Ready) else s.copies
  }

  function Fanout(body: Message): seq<Copy> {
    [Copy(HLS, body, Ready), Copy(Thumbnail, body, Ready), Copy(Caption, body, Ready)]
  }

  function WithPc(s: Sys, w: WorkerId, pc: Pc): Sys
    requires w in s.workers
  {
    s.(workers := s.workers[w := s.workers[w].(pc := pc)])
  }

  function ClaimStep(s: Sys, id: WorkerId, reply: Reply): Sys
    requires WorkerEnabled(s, Claim(id, reply))
  {
    var k := KeyOf(s.workers[id]);
    var after := ClaimTx(s.tables, k, id);
    var pc := if reply.Error? then Requeueing
              else if s.tables.JobOpen(k) then InProcess(after.Attempts(k), {})
              else Acking;
    WithPc(s, id, pc).(tables := If(reply.Applied(), after, s.tables))
  }

  /** A detached worker's ack or nack has no effect, and its consumer loop ends. */
  function SettleStep(s: Sys, id: WorkerId): Sys
    requires WorkerEnabled(s, Settle(id))
  {
    var w := s.workers[id];
    var verdict := w.Verdict().value;
    if w.attached then
      WithPc(s, id, Idle).(
        copies := MoveCopy(s.copies, w.copy, verdict),
        dead := if verdict.DeadLettered? && w.body.Uploaded? then s.dead + {KeyOf(w)} else s.dead)
    else
      s.(workers := s.workers - {id})
  }

  function WorkerStep(s: Sys, e: Event): Sys
    requires e.OfWorker() && WorkerEnabled(s, e)
  {
    var w := s.workers[e.worker];
    match e
    case Claim(id, reply) => ClaimStep(s, id, reply)
    case PutArtifact(id, artifact) =>
      WithPc(s, id, w.pc.(put := w.pc.put + {artifact})).(store := s.store + {artifact})
    case ProcessOk(id) => WithPc(s, id, Succeeded(w.pc.attempt))
    case ProcessErr(id, message) => WithPc(s, id, Broken(w.pc.attempt, message))
    case RecordFailure(id, reply) =>
      WithPc(s, id, FailureNoted(w.pc.attempt)).(
        tables := If(reply.Applied(), FailTx(s.tables, KeyOf(w), w.pc.message), s.tables))
    case RecordCompletion(id, reply) =>
      WithPc(s, id, if reply.Done? then Acking else Requeueing).(
        tables := If(reply.Applied(), CompleteTx(s.tables, KeyOf(w)), s.tables))
    case Settle(id) => SettleStep(s, id)
    case _ => s
  }

  function InsertStep(s: Sys, v: VideoId, title: string, reply: Reply): Sys {
    var rest := s.(inserting := s.inserting - {v});
    if reply.Applied() && !InsertConflicts(s.tables, v, RawFile(v)) then
      rest.(tables := InsertTx(s.tables, v, title, RawFile(v)), inserted := s.inserted + {v},
            unpublished := s.unpublished + JobKeys(v), dead := s.dead - JobKeys(v))
    else rest
  }

  function PublishStep(s: Sys, body: Message): Sys {
    s.(copies := s.copies + Fanout(body), published := s.published + {body},
       unpublished := if body.Uploaded? then s.unpublished - JobKeys(body.video) else s.unpublished)
  }

  function ResetStep(s: Sys, k: JobKey, reply: Reply): Sys {
    if reply.Applied() && k in s.tables.jobs then
      s.(tables := ResetTx(s.tables, k), unpublished := s.unpublished + {k}, dead := s.dead - {k})
    else s
  }

  ghost function Step(s: Sys, e: Event): Sys
    requires Enabled(s, e)
  {
    match e
    case CompleteStorage(v) =>
      s.(stored := s.stored + {v}, store := s.store + {RawFile(v)}, inserting := s.inserting + {v})
    case Insert(v, title, reply) => InsertStep(s, v, title, reply)
    case Publish(body) => PublishStep(s, body)
    case Reset(k, reply) => ResetStep(s, k, reply)
    case Delete(v, reply) => s.(tables := If(reply.Applied(), DeleteTx(s.tables, v), s.tables))
    case SweepObject(_, _, target) => s.(store := s.store - {target})
    case Start(w, t) => s.(workers := s.workers[w := Worker(t, 0, Malformed, true, Idle)])
    case Deliver(w, id) =>
      s.(copies := MoveCopy(s.copies, id, Unacked(w)),
         workers := s.workers[w := s.workers[w].(copy := id, body := s.copies[id].body, pc := Received)])
    case Crash(w) => s.(copies := GiveBack(s, w), workers := s.workers - {w})
    case Detach(w) => s.(copies := GiveBack(s, w), workers := s.workers[w := s.workers[w].(attached := false)])
    case _ => WorkerStep(s, e)
  }

  /** es is a run of enabled events from s, ending in Exec(s, es). */
  ghost predicate IsRun(s: Sys, es: seq<Event>)
    decreases |es|, 0
  {
    es == [] || (IsRun(s, es[..|es| - 1]) && Enabled(Exec(s, es[..|es| - 1]), es[|es| - 1]))
  }

  ghost function Exec(s: Sys, es: seq<Event>): Sys
    requires IsRun(s, es)
    decreases |es|, 1
  {
    if es == [] then s else Step(Exec(s, es[..|es| - 1]), es[|es| - 1])
  }

  lemma {:induction false} PrefixIsRun(s: Sys, es: seq<Event>, i: nat)
    requires IsRun(s, es) && i <= |es|
    ensures IsRun(s, es[..i])
  {
    if i == |es| {
      assert es[..i] == es;
    } else {
      PrefixIsRun(s, es[..|es| - 1], i);
      assert es[..|es| - 1][..i] == es[..i];
    }
  }

  /** The state of a run from the empty system before its event i. */
  ghost function At(es: seq<Event>, i: nat): Sys
    requires IsRun(INIT, es) && i <= |es|
  {
    PrefixIsRun(INIT, es, i);
    Exec(INIT, es[..i])
  }

  lemma AtStep(es: seq<Event>, i: nat)
    requires IsRun(INIT, es) && i < |es|
    ensures Enabled(At(es, i), es[i]) && At(es, i + 1) == Step(At(es, i), es[i])
  {
    PrefixIsRun(INIT, es, i + 1);
    assert es[..i + 1][..i] == es[..i];
  }

  lemma RunSnoc(s: Sys, es: seq<Event>, e: Event)
    requires IsRun(s, es) && Enabled(Exec(s, es), e)
    ensures IsRun(s, es + [e]) && Exec(s, es + [e]) == Step(Exec(s, es), e)
  {
    assert (es + [e])[..|es|] == es;
  }

  lemma RunParts(s: Sys, es: seq<Event>)
    requires IsRun(s, es) && es != []
    ensures var n := |es| - 1;
            IsRun(s, es[..n]) && Enabled(Exec(s, es[..n]), es[n]) && Exec(s, es) == Step(Exec(s, es[..n]), es[n])
  {
  }

  lemma {:induction false} RunConcat(s: Sys, es: seq<Event>, fs: seq<Event>)
    requires IsRun(s, es) && IsRun(Exec(s, es), fs)
    ensures IsRun(s, es + fs) && Exec(s, es + fs) == Exec(Exec(s, es), fs)
  {
    if fs == [] {
      assert es + fs == es;
    } else {
      var rest, last := fs[..|fs| - 1], fs[|fs| - 1];
      RunParts(Exec(s, es), fs);
      RunConcat(s, es, rest);
      RunSnoc(s, es + rest, last);
      assert es + fs == es + rest + [last];
    }
  }
}
