/**
  Message conservation and the life of messages after a delete: a publish makes
  one copy per queue, a settled copy never comes back, a worker only ever touches
  the rows of the video its delivery names, a deleted video stays deleted, and the
  messages left over from it drain.
 */
module Conservation {
  import opened Models
  import opened TableModel
  import opened Protocol
  import opened Invariants
  import opened Attempts
  import opened Budget

  /** The bodies published in a run, in order. */
  ghost function Published(es: seq<Event>): seq<Message> {
    if es == [] then []
    else Published(es[..|es| - 1]) + if es[|es| - 1].Publish? then [es[|es| - 1].body] else []
  }

  /** Copies [3 * i .. 3 * i + 3] are the i-th publish, one in the queue of each job type. */
  ghost predicate FannedOut(copies: seq<Copy>, bodies: seq<Message>) {
    |copies| == 3 * |bodies| &&
    forall i :: 0 <= i < |copies| ==> copies[i].queue == JOB_TYPES[i % 3] && copies[i].body == bodies[i / 3]
  }

  lemma CopiesKeepIdentity(s: Sys, e: Event)
    requires Enabled(s, e)
    ensures |s.copies| <= |Step(s, e).copies|
    ensures forall i :: 0 <= i < |s.copies| ==>
              Step(s, e).copies[i].queue == s.copies[i].queue && Step(s, e).copies[i].body == s.copies[i].body
    ensures !e.Publish? ==> |Step(s, e).copies| == |s.copies|
  {
  }

  /**
    Conservation: after every run an unacked copy is held by one attached worker, which
    holds no other, and a worker that is busy with a delivery holds that copy; the
    copies are exactly the published messages, three per publish, in their queues.
   */
  lemma {:induction false} MessagesAreConserved(es: seq<Event>)
    requires IsRun(INIT, es)
    ensures FannedOut(Exec(INIT, es).copies, Published(es))
    ensures Wired(Exec(INIT, es))
  {
    InvAlways(es);
    if es != [] {
      var prefix, e := es[..|es| - 1], es[|es| - 1];
      MessagesAreConserved(prefix);
      var s, s' := Exec(INIT, prefix), Exec(INIT, es);
      CopiesKeepIdentity(s, e);
      if e.Publish? {
        var n := |Published(prefix)|;
        assert s'.copies == s.copies + Fanout(e.body);
        forall i | 0 <= i < |s'.copies|
          ensures s'.copies[i].queue == JOB_TYPES[i % 3] && s'.copies[i].body == Published(es)[i / 3]
        {
          if i >= 3 * n {
            assert i / 3 == n && i % 3 == i - 3 * n;
          }
        }
      }
    }
  }

  lemma SettledStays(s: Sys, e: Event, id: CopyId)
    requires Wired(s) && Enabled(s, e) && id < |s.copies| && s.copies[id].Settled()
    ensures id < |Step(s, e).copies| && Step(s, e).copies[id] == s.copies[id]
  {
  }

  /** An acknowledged or dead-lettered copy is never delivered again. */
  lemma {:induction false} SettledForGood(s: Sys, more: seq<Event>, id: CopyId)
    requires Wired(s) && IsRun(s, more) && id < |s.copies| && s.copies[id].Settled()
    ensures Wired(Exec(s, more))
    ensures id < |Exec(s, more).copies| && Exec(s, more).copies[id] == s.copies[id]
  {
    if more != [] {
      var n := |more| - 1;
      SettledForGood(s, more[..n], id);
      WiredStep(Exec(s, more[..n]), more[n]);
      SettledStays(Exec(s, more[..n]), more[n], id);
    }
  }

  /** A worker's step leaves the rows of every other job alone, and all rows once its own video is deleted. */
  lemma WorkerTouchesOwnRows(s: Sys, e: Event, k: JobKey)
    requires Agreement(s.tables) && e.OfWorker() && WorkerEnabled(s, e) && s.workers[e.worker].pc != Idle
    requires s.workers[e.worker].Handles(k) ==> s.Deleted(k.video)
    ensures var t, t' := s.tables, WorkerStep(s, e).tables;
            && (k in t.jobs <==> k in t'.jobs) && (k in t.jobs ==> t.jobs[k] == t'.jobs[k])
            && (k.video in t.videos <==> k.video in t'.videos)
            && (k.video in t.videos ==> t.videos[k.video].Column(k.jobType) == t'.videos[k.video].Column(k.jobType))
  {
    assert k == JobKey(k.video, k.jobType);
  }

  lemma DeletedStep(s: Sys, e: Event, v: VideoId)
    requires Grounded(s) && Enabled(s, e) && s.Deleted(v)
    ensures Step(s, e).Deleted(v)
  {
  }

  lemma {:induction false} StaysDeleted(s: Sys, more: seq<Event>, v: VideoId)
    requires Inv(s) && s.Deleted(v) && IsRun(s, more)
    ensures Inv(Exec(s, more)) && Exec(s, more).Deleted(v)
  {
    if more != [] {
      var n := |more| - 1;
      StaysDeleted(s, more[..n], v);
      InvStep(Exec(s, more[..n]), more[n]);
      DeletedStep(Exec(s, more[..n]), more[n], v);
    }
  }

  /** No step of any kind brings a deleted video or one of its jobs back. */
  lemma NoResurrection(es: seq<Event>, more: seq<Event>, v: VideoId, t: JobType)
    requires IsRun(INIT, es) && IsRun(Exec(INIT, es), more) && Exec(INIT, es).Deleted(v)
    ensures Inv(Exec(Exec(INIT, es), more)) && Exec(Exec(INIT, es), more).Deleted(v)
    ensures JobKey(v, t) !in Exec(Exec(INIT, es), more).tables.jobs
  {
    InvAlways(es);
    StaysDeleted(Exec(INIT, es), more, v);
  }

  /** The next claim of a leftover message of a deleted video, if it gets through, ends in an acknowledgement. */
  lemma LeftoverIsSkipped(s: Sys, w: WorkerId)
    requires Agreement(s.tables) && WorkerEnabled(s, Claim(w, Done)) && s.Deleted(s.workers[w].body.video)
    ensures WorkerStep(s, Claim(w, Done)).workers[w].Verdict() == Some(Acked)
    ensures WorkerStep(s, Claim(w, Done)).tables == s.tables
  {
  }

  /** Event e is a step of a worker on a delivery about video v. */
  ghost predicate IsAbout(s: Sys, e: Event, v: VideoId) {
    e.OfWorker() && e.worker in s.workers && s.workers[e.worker].body.About(v)
  }

  /**
    Whatever else goes on, the steps that workers make on the leftover messages of a
    deleted video change no row of any video or job.
   */
  lemma LeftoversChangeNoRow(s: Sys, more: seq<Event>, v: VideoId, i: nat)
    requires Inv(s) && s.Deleted(v) && IsRun(s, more) && i < |more|
    requires IsRun(s, more[..i]) && IsAbout(Exec(s, more[..i]), more[i], v)
    ensures IsRun(s, more[..i + 1]) && Exec(s, more[..i + 1]).tables == Exec(s, more[..i]).tables
  {
    PrefixIsRun(s, more, i + 1);
    assert more[..i + 1][..i] == more[..i];
    StaysDeleted(s, more[..i], v);
    LeftoverStep(Exec(s, more[..i]), more[i], v);
  }

  lemma LeftoverStep(s: Sys, e: Event, v: VideoId)
    requires Agreement(s.tables) && s.Deleted(v) && e.OfWorker() && WorkerEnabled(s, e) && IsAbout(s, e, v)
    ensures WorkerStep(s, e).tables == s.tables && WorkerStep(s, e).inserted == s.inserted
  {
  }

  /**
    Leftovers drain, over every continuation after a delete: no process of the job ever
    starts again, and its finished deliveries and what is then still unsettled stay within
    what was unsettled at the delete, one per later publish and one per fault.
   */
  lemma {:induction false} LeftoversDrain(s: Sys, more: seq<Event>, k: JobKey)
    requires Inv(s) && s.Deleted(k.video) && IsRun(s, more)
    ensures Tally(Starts, s, more, k) == 0
    ensures Tally(Finishes, s, more, k) + Potential(Finishes, Exec(s, more), k) <=
            Potential(Finishes, s, k) + PublishCount(more, k) + FaultCount(s, more, k)
  {
    NothingGranted(s, more, k);
    BoundedContinuation(Finishes, s, more, k);
  }

  lemma {:induction false} NothingGranted(s: Sys, more: seq<Event>, k: JobKey)
    requires Inv(s) && s.Deleted(k.video) && IsRun(s, more)
    ensures GrantCount(s, more, k) == 0 && Tally(Starts, s, more, k) == 0
  {
    if more != [] {
      var n := |more| - 1;
      NothingGranted(s, more[..n], k);
      StaysDeleted(s, more[..n], k.video);
      assert k == JobKey(k.video, k.jobType);
    }
  }

  /** What the bound of LeftoversDrain counts: nothing exactly when every copy is settled, else at most two per copy. */
  lemma PotentialOfLeftovers(s: Sys, k: JobKey)
    requires Inv(s) && s.Deleted(k.video)
    ensures Potential(Finishes, s, k) == 0 <==>
            forall id :: 0 <= id < |s.copies| && s.copies[id].IsFor(k) ==> s.copies[id].Settled()
    ensures Potential(Finishes, s, k) <= 2 * Unsettled(s, |s.copies|, k)
  {
    assert k == JobKey(k.video, k.jobType);
    WeightOfLeftovers(s, |s.copies|, k);
  }

  function Unsettled(s: Sys, n: nat, k: JobKey): nat
    requires n <= |s.copies|
  {
    if n == 0 then 0
    else Unsettled(s, n - 1, k) + if s.copies[n - 1].IsFor(k) && !s.copies[n - 1].Settled() then 1 else 0
  }

  lemma {:induction false} WeightOfLeftovers(s: Sys, n: nat, k: JobKey)
    requires n <= |s.copies|
    ensures TotalWeight(Finishes, s, n, k) == 0 <==>
            forall id :: 0 <= id < n && s.copies[id].IsFor(k) ==> s.copies[id].Settled()
    ensures TotalWeight(Finishes, s, n, k) <= 2 * Unsettled(s, n, k)
  {
    if n > 0 {
      WeightOfLeftovers(s, n - 1, k);
    }
  }

  /** The next thing worker w does with a leftover delivery when no call fails. */
  function NextStep(w: WorkerId, pc: Pc): Event {
    match pc
    case Received => Claim(w, Done)
    case InProcess(_, _) => ProcessErr(w, "")
    case Succeeded(_) => RecordCompletion(w, Done)
    case Broken(_, _) => RecordFailure(w, Done)
    case _ => Settle(w)
  }

  /** How many more such steps settle copy id; from its queue, a new worker needs three. */
  function StepsLeft(s: Sys, id: CopyId): nat
    requires id < |s.copies|
  {
    match s.copies[id].location
    case Acked => 0
    case DeadLettered => 0
    case Ready => 3
    case Unacked(w) => if w in s.workers then PcSteps(s.workers[w].pc) else 0
  }

  function PcSteps(pc: Pc): nat {
    match pc
    case Idle => 0
    case Acking => 1
    case Received => 2
    case Succeeded(_) => 2
    case Requeueing => 4
    case FailureNoted(_) => 4
    case Broken(_, _) => 5
    case InProcess(_, _) => 6
  }

  /** A leftover in the hands of an attached worker moves on. */
  ghost predicate MovesOn(s: Sys, e: Event, id: CopyId, k: JobKey)
    requires id < |s.copies|
  {
    && Enabled(s, e) && !Fault(s, e, k)
    && var s' := Step(s, e);
    && s'.workers.Keys == s.workers.Keys && id < |s'.copies| && s'.copies[id].IsFor(k)
    && StepsLeft(s', id) < StepsLeft(s, id)
  }

  lemma LeftoverMoves(s: Sys, id: CopyId, k: JobKey)
    requires Inv(s) && s.Deleted(k.video) && id < |s.copies| && s.copies[id].IsFor(k) && s.copies[id].location.Unacked?
    ensures var w := s.copies[id].location.consumer;
            w in s.workers && MovesOn(s, NextStep(w, s.workers[w].pc), id, k)
  {
    var w := s.copies[id].location.consumer;
    if s.workers[w].Verdict().Some? {
      LeftoverSettles(s, w, k);
    } else {
      LeftoverAdvances(s, w, k);
    }
  }

  lemma LeftoverSettles(s: Sys, w: WorkerId, k: JobKey)
    requires Wired(s)
    requires w in s.workers && s.workers[w].attached && s.workers[w].Handles(k) && s.workers[w].Verdict().Some?
    ensures MovesOn(s, Settle(w), s.workers[w].copy, k)
    ensures NextStep(w, s.workers[w].pc) == Settle(w)
  {
  }

  lemma LeftoverAdvances(s: Sys, w: WorkerId, k: JobKey)
    requires Wired(s) && Agreement(s.tables) && s.Deleted(k.video)
    requires w in s.workers && s.workers[w].attached && s.workers[w].Handles(k) && s.workers[w].Verdict().None?
    ensures MovesOn(s, NextStep(w, s.workers[w].pc), s.workers[w].copy, k)
  {
    assert k == JobKey(k.video, k.jobType) == KeyOf(s.workers[w]);
  }

  /** Whether copy id is settled after the run `more`, in which no call fails and no process stops. */
  ghost predicate SettledBy(s: Sys, more: seq<Event>, id: CopyId, k: JobKey) {
    && IsRun(s, more) && FaultCount(s, more, k) == 0
    && id < |Exec(s, more).copies| && Exec(s, more).copies[id].IsFor(k) && Exec(s, more).copies[id].Settled()
  }

  lemma PrependEvent(s: Sys, e: Event, more: seq<Event>, id: CopyId, k: JobKey)
    requires Enabled(s, e) && !Fault(s, e, k) && SettledBy(Step(s, e), more, id, k)
    ensures SettledBy(s, [e] + more, id, k)
  {
    RunSnoc(s, [], e);
    assert [] + [e] == [e];
    assert [e][..0] == [];
    RunConcat(s, [e], more);
    FaultsConcat(s, [e], more, k);
  }

  lemma {:induction false} FaultsConcat(s: Sys, es: seq<Event>, fs: seq<Event>, k: JobKey)
    requires IsRun(s, es) && IsRun(Exec(s, es), fs) && IsRun(s, es + fs)
    ensures FaultCount(s, es + fs, k) == FaultCount(s, es, k) + FaultCount(Exec(s, es), fs, k)
  {
    if fs == [] {
      assert es + fs == es;
    } else {
      var n := |fs| - 1;
      assert (es + fs)[..|es + fs| - 1] == es + fs[..n];
      RunConcat(s, es, fs[..n]);
      FaultsConcat(s, es, fs[..n], k);
    }
  }

  /** A worker that has just received a leftover finds no row to claim and acknowledges it. */
  lemma ReceivedCanSettle(s: Sys, id: CopyId, k: JobKey, w: WorkerId) returns (more: seq<Event>)
    requires Agreement(s.tables) && s.Deleted(k.video) && id < |s.copies| && s.copies[id].IsFor(k)
    requires w in s.workers && s.workers[w] == Worker(k.jobType, id, s.copies[id].body, true, Received)
    ensures SettledBy(s, more, id, k)
  {
    LeftoverIsSkipped(s, w);
    var claimed := Step(s, Claim(w, Done));
    PrependEvent(claimed, Settle(w), [], id, k);
    PrependEvent(s, Claim(w, Done), [Settle(w)] + [], id, k);
    more := [Claim(w, Done)] + ([Settle(w)] + []);
  }

  lemma ReadyCanSettle(s: Sys, id: CopyId, k: JobKey, spare: WorkerId) returns (more: seq<Event>)
    requires Agreement(s.tables) && s.Deleted(k.video) && id < |s.copies| && s.copies[id].IsFor(k)
    requires s.copies[id].location.Ready? && spare !in s.workers
    ensures SettledBy(s, more, id, k)
  {
    var started := Step(s, Start(spare, k.jobType));
    var received := Step(started, Deliver(spare, id));
    more := ReceivedCanSettle(received, id, k, spare);
    PrependEvent(started, Deliver(spare, id), more, id, k);
    more := [Deliver(spare, id)] + more;
    PrependEvent(s, Start(spare, k.jobType), more, id, k);
    more := [Start(spare, k.jobType)] + more;
  }

  /** In every state after a delete, each leftover can still be settled, with no fault and at most one new worker. */
  lemma {:induction false} LeftoverCanSettle(s: Sys, id: CopyId, k: JobKey, spare: WorkerId) returns (more: seq<Event>)
    requires Inv(s) && s.Deleted(k.video) && id < |s.copies| && s.copies[id].IsFor(k)
    requires spare !in s.workers
    ensures SettledBy(s, more, id, k)
    decreases StepsLeft(s, id)
  {
    if s.copies[id].Settled() {
      more := [];
    } else if s.copies[id].location.Ready? {
      more := ReadyCanSettle(s, id, k, spare);
    } else {
      var w := s.copies[id].location.consumer;
      var e := NextStep(w, s.workers[w].pc);
      LeftoverMoves(s, id, k);
      InvStep(s, e);
      DeletedStep(s, e, k.video);
      more := LeftoverCanSettle(Step(s, e), id, k, spare);
      PrependEvent(s, e, more, id, k);
      more := [e] + more;
    }
  }
}
