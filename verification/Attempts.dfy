/**
  Attempt numbering and what justifies a dead letter: the attempt a worker is
  told is the number of claims committed since the last insert or reset, and a
  message is dead-lettered only by a worker whose own claim was the third or
  later.
 */
module Attempts {
  import opened Models
  import opened Keys
  import opened TableModel
  import opened Protocol
  import opened Invariants

  /** Event e gives job k a fresh attempt count: its insert or a reset of it takes effect. */
  ghost predicate Grants(s: Sys, e: Event, k: JobKey) {
    || (e.Insert? && e.video == k.video && e.reply.Applied() && !InsertConflicts(s.tables, e.video, RawFile(e.video)))
    || (e.Reset? && e.job == k && e.reply.Applied() && k in s.tables.jobs)
  }

  /** How often job k is inserted or reset in a run from s. */
  ghost function GrantCount(s: Sys, es: seq<Event>, k: JobKey): nat
    requires IsRun(s, es)
  {
    if es == [] then 0
    else
      var prefix, e := es[..|es| - 1], es[|es| - 1];
      GrantCount(s, prefix, k) + if Grants(Exec(s, prefix), e, k) then 1 else 0
  }

  /** Event e commits a claim of job k. */
  ghost predicate Claims(s: Sys, e: Event, k: JobKey) {
    e.Claim? && e.reply.Applied() && e.worker in s.workers && s.workers[e.worker].Handles(k) && s.tables.JobOpen(k)
  }

  /** The number of claims of job k committed since its last grant. */
  ghost function ClaimsSinceGrant(es: seq<Event>, k: JobKey): nat
    requires IsRun(INIT, es)
  {
    if es == [] then 0
    else
      var prefix, e := es[..|es| - 1], es[|es| - 1];
      if Grants(Exec(INIT, prefix), e, k) then 0
      else ClaimsSinceGrant(prefix, k) + if Claims(Exec(INIT, prefix), e, k) then 1 else 0
  }

  lemma AttemptsStep(s: Sys, e: Event, k: JobKey)
    requires Enabled(s, e) && Agreement(s.tables)
    ensures k in Step(s, e).tables.jobs ==>
              Step(s, e).tables.jobs[k].attempts ==
                if Grants(s, e, k) then 0 else s.tables.Attempts(k) + if Claims(s, e, k) then 1 else 0
    ensures k in Step(s, e).tables.jobs && !Grants(s, e, k) ==> k in s.tables.jobs
  {
    assert k == JobKey(k.video, k.jobType);
  }

  /** The durable attempt_count is exactly the number of claims since the last grant. */
  lemma {:induction false} AttemptCountIsExact(es: seq<Event>, k: JobKey)
    requires IsRun(INIT, es)
    ensures k in Exec(INIT, es).tables.jobs ==> Exec(INIT, es).tables.jobs[k].attempts == ClaimsSinceGrant(es, k)
  {
    if es != [] {
      var prefix := es[..|es| - 1];
      AttemptCountIsExact(prefix, k);
      InvAlways(prefix);
      AttemptsStep(Exec(INIT, prefix), es[|es| - 1], k);
    }
  }

  /** The attempt numbers that the claims of job k since its last grant were given, in order. */
  ghost function NumbersSinceGrant(es: seq<Event>, k: JobKey): seq<nat>
    requires IsRun(INIT, es)
  {
    if es == [] then []
    else
      var prefix, e := es[..|es| - 1], es[|es| - 1];
      if Grants(Exec(INIT, prefix), e, k) then []
      else NumbersSinceGrant(prefix, k) +
           if Claims(Exec(INIT, prefix), e, k) then [Exec(INIT, es).tables.Attempts(k)] else []
  }

  /** Claims are numbered 1, 2, 3, ... without gap or repeat, under any interleaving, crash or lost reply. */
  lemma {:induction false} AttemptsAreConsecutive(es: seq<Event>, k: JobKey)
    requires IsRun(INIT, es)
    ensures |NumbersSinceGrant(es, k)| == ClaimsSinceGrant(es, k)
    ensures forall i :: 0 <= i < |NumbersSinceGrant(es, k)| ==> NumbersSinceGrant(es, k)[i] == i + 1
  {
    if es != [] {
      var prefix, e := es[..|es| - 1], es[|es| - 1];
      AttemptsAreConsecutive(prefix, k);
      AttemptCountIsExact(es, k);
      if Claims(Exec(INIT, prefix), e, k) {
        ClaimedJobExists(Exec(INIT, prefix), e, k);
      }
    }
  }

  lemma ClaimedJobExists(s: Sys, e: Event, k: JobKey)
    requires Enabled(s, e) && Claims(s, e, k)
    ensures k in Step(s, e).tables.jobs
  {
  }

  /** The attempt number a worker carries, from its claim until it settles. */
  function Told(pc: Pc): Option<nat> {
    match pc
    case InProcess(attempt, _) => Some(attempt)
    case Succeeded(attempt) => Some(attempt)
    case Broken(attempt, _) => Some(attempt)
    case FailureNoted(attempt) => Some(attempt)
    case _ => None
  }

  /** Worker w gets a new delivery, or a new life. */
  predicate Interrupts(e: Event, w: WorkerId) {
    (e.Deliver? || e.Crash? || e.Start?) && e.worker == w
  }

  /**
    Going back from the end of the run, before w's delivery or process changed, there
    is a claim of job k by w that was the a-th since k's grant.
   */
  ghost predicate HoldsClaim(es: seq<Event>, w: WorkerId, k: JobKey, a: nat)
    requires IsRun(INIT, es)
  {
    es != [] &&
    var prefix, e := es[..|es| - 1], es[|es| - 1];
    || (e == Claim(w, Done) && Claims(Exec(INIT, prefix), e, k) && ClaimsSinceGrant(es, k) == a)
    || (!Interrupts(e, w) && HoldsClaim(prefix, w, k, a))
  }

  lemma ToldStep(s: Sys, e: Event, w: WorkerId)
    requires Enabled(s, e) && w in Step(s, e).workers && Told(Step(s, e).workers[w].pc).Some?
    ensures var worker := Step(s, e).workers[w];
            || (e == Claim(w, Done) && worker.body.Uploaded? && Claims(s, e, KeyOf(worker)) &&
                Told(worker.pc).value == Step(s, e).tables.Attempts(KeyOf(worker)) &&
                KeyOf(worker) in Step(s, e).tables.jobs)
            || (w in s.workers && Told(s.workers[w].pc) == Told(worker.pc) && s.workers[w].body == worker.body &&
                s.workers[w].jobType == worker.jobType &&
                !Interrupts(e, w))
  {
  }

  /** Whatever attempt number a worker carries is the rank of its own claim, made in its current delivery. */
  lemma {:induction false} AttemptIsRankOfClaim(es: seq<Event>, w: WorkerId)
    requires IsRun(INIT, es) && w in Exec(INIT, es).workers
    requires Told(Exec(INIT, es).workers[w].pc).Some? && Exec(INIT, es).workers[w].body.Uploaded?
    ensures var worker := Exec(INIT, es).workers[w];
            HoldsClaim(es, w, KeyOf(worker), Told(worker.pc).value)
  {
    var prefix, e := es[..|es| - 1], es[|es| - 1];
    var worker := Exec(INIT, es).workers[w];
    ToldStep(Exec(INIT, prefix), e, w);
    if e == Claim(w, Done) && Claims(Exec(INIT, prefix), e, KeyOf(worker)) {
      AttemptCountIsExact(es, KeyOf(worker));
    } else {
      AttemptIsRankOfClaim(prefix, w);
    }
  }

  /**
    A well-formed message is dead-lettered only by a worker whose own claim of the job,
    in this delivery, was at least the third since the insert or reset before it.
   */
  lemma DeadLetterIsJustified(es: seq<Event>, w: WorkerId)
    requires IsRun(INIT, es) && w in Exec(INIT, es).workers
    requires Exec(INIT, es).workers[w].body.Uploaded? && Exec(INIT, es).workers[w].Verdict() == Some(DeadLettered)
    ensures exists a: nat :: a >= 3 && HoldsClaim(es, w, KeyOf(Exec(INIT, es).workers[w]), a)
  {
    AttemptIsRankOfClaim(es, w);
  }
}
