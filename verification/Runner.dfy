/**
  The worker's handling of one delivery, as the program performs it on the
  database, the broker and the object store. Each execution, whatever fails in it,
  is a run of the protocol's steps of that worker, so everything proved about
  protocol runs applies to it.
 */
module Runner {
  import opened Models
  import opened Keys
  import opened TableModel
  import opened Protocol
  import opened DatabaseAccess
  import opened BrokerAccess
  import opened Storage
  import opened Refinement
  import opened Tracing

  ghost function PutEvents(w: WorkerId, keys: seq<Key>): seq<Event> {
    if keys == [] then [] else PutEvents(w, keys[..|keys| - 1]) + [PutArtifact(w, keys[|keys| - 1])]
  }

  /** The keys of the first n files, each its path below the output directory under keyPrefix. */
  ghost predicate AreKeys(stored: seq<Key>, files: seq<string>, keyPrefix: string) {
    |stored| <= |files| && forall i :: 0 <= i < |stored| ==> stored[i] == keyPrefix + "/" + files[i]
  }

  /**
    Puts every file of an output directory under keyPrefix, in order, up to the first
    one whose put reports an error. `stored` lists the keys that reached storage.
   */
  method UploadDir(store: ObjectStore, files: seq<string>, keyPrefix: string, ghost w: WorkerId, ghost trace: Trace)
    returns (ok: bool, ghost stored: seq<Key>)
    modifies store, trace
    ensures trace.events == old(trace.events) + PutEvents(w, stored)
    ensures store.keys == old(store.keys) + Range(stored) && AreKeys(stored, files, keyPrefix)
    ensures ok ==> |stored| == |files|
    ensures store.reliable ==> forall i :: 0 <= i < |stored| ==> stored[i] !in store.refused
    ensures store.reliable && !ok ==> |stored| < |files| && keyPrefix + "/" + files[|stored|] in store.refused
  {
    stored := [];
    for i := 0 to |files|
      invariant |stored| == i && AreKeys(stored, files, keyPrefix)
      invariant store.keys == old(store.keys) + Range(stored)
      invariant trace.events == old(trace.events) + PutEvents(w, stored)
      invariant store.reliable ==> forall j :: 0 <= j < i ==> stored[j] !in store.refused
    {
      var key := keyPrefix + "/" + files[i];
      ghost var kept;
      var done;
      done, kept := store.PutObject(key, w, trace);
      if kept {
        assert (stored + [key])[..|stored|] == stored;
        stored := stored + [key];
      }
      if !done {
        return false, stored;
      }
    }
    ok := true;
  }

  /** The files that a successful encoder leaves: the ones with fixed names and, but for captions, segments. */
  function OutputFiles(t: JobType, segments: seq<string>): seq<string> {
    if t == Caption then RequiredNames(t) else RequiredNames(t) + segments
  }

  /** Nothing stands in the way of the process: the encoder succeeds and storage refuses none of its files. */
  predicate Succeeds(store: ObjectStore, spelling: string, t: JobType, output: Option<seq<string>>) {
    output.Some? &&
    forall name :: name in OutputFiles(t, output.value) ==> ArtifactKey(spelling, t, name) !in store.refused
  }

  /**
    The work of one worker type: nothing is written if the download or the encoder
    fails; otherwise the fixed artifacts and the segments of the `output` are put.
   */
  method Process(store: ObjectStore, spelling: string, t: JobType, output: Option<seq<string>>,
                 ghost w: WorkerId, ghost trace: Trace)
    returns (ok: bool, message: string, ghost stored: seq<Key>)
    modifies store, trace
    ensures trace.events ==
              old(trace.events) + PutEvents(w, stored) + [if ok then ProcessOk(w) else ProcessErr(w, message)]
    ensures store.keys == old(store.keys) + Range(stored)
    ensures forall k :: k in stored ==> Directory(spelling, t) + "/" <= k
    ensures ok ==> output.Some? && RequiredArtifacts(spelling, t) <= Range(stored)
    ensures ok ==> forall name :: name in OutputFiles(t, output.value) ==> ArtifactKey(spelling, t, name) in stored
    ensures if output.None? then stored == [] else AreKeys(stored, OutputFiles(t, output.value), Directory(spelling, t))
    ensures t == Caption ==> forall k :: k in stored ==> k == "captions/" + spelling + "/captions.vtt"
    ensures store.reliable ==> (ok <==> Succeeds(store, spelling, t, output))
  {
    message, stored := "", [];
    if output.None? {
      message := *;
      trace.events := trace.events + [ProcessErr(w, message)];
      return false, message, stored;
    }
    var files := OutputFiles(t, output.value);
    ok, stored := UploadDir(store, files, Directory(spelling, t), w, trace);
    trace.events := trace.events + [if ok then ProcessOk(w) else ProcessErr(w, message)];
    if ok {
      forall name | name in files
        ensures ArtifactKey(spelling, t, name) in stored
      {
        var i :| 0 <= i < |files| && files[i] == name;
        assert stored[i] in stored;
      }
    } else if store.reliable {
      assert files[|stored|] in files && ArtifactKey(spelling, t, files[|stored|]) in store.refused;
    }
  }

  ghost function AfterPuts(s: Sys, w: WorkerId, keys: seq<Key>): Sys
    requires w in s.workers && s.workers[w].pc.InProcess?
  {
    WithPc(s, w, s.workers[w].pc.(put := s.workers[w].pc.put + Range(keys))).(store := s.store + Range(keys))
  }

  lemma OneMorePut(s: Sys, w: WorkerId, keys: seq<Key>, last: Key)
    requires w in s.workers && s.workers[w].pc.InProcess? && s.workers[w].body.Uploaded?
    requires Directory(s.workers[w].body.spelling, s.workers[w].jobType) + "/" <= last
    ensures Enabled(AfterPuts(s, w, keys), PutArtifact(w, last))
    ensures Step(AfterPuts(s, w, keys), PutArtifact(w, last)) == AfterPuts(s, w, keys + [last])
  {
    assert Range(keys + [last]) == Range(keys) + {last};
    assert s.store + Range(keys) + {last} == s.store + Range(keys + [last]);
    assert s.workers[w].pc.put + Range(keys) + {last} == s.workers[w].pc.put + Range(keys + [last]);
  }

  /** Writing artifacts one by one is a run of the protocol. */
  lemma {:induction false} PutsAreSteps(s: Sys, w: WorkerId, keys: seq<Key>)
    requires w in s.workers && s.workers[w].pc.InProcess? && s.workers[w].body.Uploaded?
    requires forall k :: k in keys ==> Directory(s.workers[w].body.spelling, s.workers[w].jobType) + "/" <= k
    ensures IsRun(s, PutEvents(w, keys)) && Exec(s, PutEvents(w, keys)) == AfterPuts(s, w, keys)
  {
    if keys == [] {
      assert s.workers[w].pc.put + Range([]) == s.workers[w].pc.put && s.store + Range([]) == s.store;
      assert s.workers[w := s.workers[w]] == s.workers;
    } else {
      var rest, last := keys[..|keys| - 1], keys[|keys| - 1];
      assert keys == rest + [last];
      assert last in keys && forall k :: k in rest ==> k in keys;
      PutsAreSteps(s, w, rest);
      OneMorePut(s, w, rest, last);
      RunSnoc(s, PutEvents(w, rest), PutArtifact(w, last));
    }
  }

  /** The state in the middle of worker w's delivery, everything else being as in s0. */
  ghost function Mid(s0: Sys, w: WorkerId, pc: Pc, tables: Tables, store: set<Key>): Sys
    requires w in s0.workers
  {
    WithPc(s0, w, pc).(tables := tables, store := store)
  }

  /** es is a run from s0 that has taken worker w's delivery to pc. */
  ghost predicate Reached(s0: Sys, es: seq<Event>, w: WorkerId, pc: Pc, tables: Tables, store: set<Key>)
    requires w in s0.workers
  {
    IsRun(s0, es) && Exec(s0, es) == Mid(s0, w, pc, tables, store)
  }

  lemma AfterClaim(s0: Sys, w: WorkerId, reply: Reply) returns (es: seq<Event>)
    requires w in s0.workers && s0.workers[w].pc == Received && s0.workers[w].body.Uploaded?
    ensures var k := KeyOf(s0.workers[w]);
            var after := ClaimTx(s0.tables, k, w);
            Reached(s0, es, w,
              if reply.Error? then Requeueing
              else if s0.tables.JobOpen(k) then InProcess(after.Attempts(k), {})
              else Acking,
              If(reply.Applied(), after, s0.tables), s0.store)
    ensures es == [Claim(w, reply)]
  {
    RunSnoc(s0, [], Claim(w, reply));
    es := [] + [Claim(w, reply)];
  }

  lemma AfterWriting(s0: Sys, es: seq<Event>, w: WorkerId, attempt: nat, tables: Tables, keys: seq<Key>)
    returns (longer: seq<Event>)
    requires w in s0.workers && s0.workers[w].body.Uploaded?
    requires Reached(s0, es, w, InProcess(attempt, {}), tables, s0.store)
    requires forall k :: k in keys ==> Directory(s0.workers[w].body.spelling, s0.workers[w].jobType) + "/" <= k
    ensures Reached(s0, longer, w, InProcess(attempt, Range(keys)), tables, s0.store + Range(keys))
    ensures longer == es + PutEvents(w, keys)
  {
    PutsAreSteps(Exec(s0, es), w, keys);
    RunConcat(s0, es, PutEvents(w, keys));
    assert {} + Range(keys) == Range(keys);
    longer := es + PutEvents(w, keys);
  }

  lemma AfterProcess(s0: Sys, es: seq<Event>, w: WorkerId, attempt: nat, tables: Tables, keys: seq<Key>, e: Event)
    returns (longer: seq<Event>)
    requires w in s0.workers && s0.workers[w].body.Uploaded?
    requires Reached(s0, es, w, InProcess(attempt, {}), tables, s0.store)
    requires forall k :: k in keys ==> Directory(s0.workers[w].body.spelling, s0.workers[w].jobType) + "/" <= k
    requires e == ProcessOk(w) || (e.ProcessErr? && e.worker == w)
    requires e.ProcessOk? ==> RequiredArtifacts(s0.workers[w].body.spelling, s0.workers[w].jobType) <= Range(keys)
    ensures Reached(s0, longer, w, if e.ProcessOk? then Succeeded(attempt) else Broken(attempt, e.message),
                    tables, s0.store + Range(keys))
    ensures longer == es + PutEvents(w, keys) + [e]
  {
    longer := AfterWriting(s0, es, w, attempt, tables, keys);
    RunSnoc(s0, longer, e);
    longer := longer + [e];
  }

  lemma AfterFailure(s0: Sys, es: seq<Event>, w: WorkerId, attempt: nat, message: string, tables: Tables,
                     store: set<Key>, reply: Reply)
    returns (longer: seq<Event>)
    requires w in s0.workers && s0.workers[w].body.Uploaded?
    requires Reached(s0, es, w, Broken(attempt, message), tables, store)
    ensures Reached(s0, longer, w, FailureNoted(attempt),
                    If(reply.Applied(), FailTx(tables, KeyOf(s0.workers[w]), message), tables), store)
    ensures longer == es + [RecordFailure(w, reply)]
  {
    RunSnoc(s0, es, RecordFailure(w, reply));
    longer := es + [RecordFailure(w, reply)];
  }

  lemma AfterCompletion(s0: Sys, es: seq<Event>, w: WorkerId, attempt: nat, tables: Tables, store: set<Key>,
                        reply: Reply)
    returns (longer: seq<Event>)
    requires w in s0.workers && s0.workers[w].body.Uploaded? && Reached(s0, es, w, Succeeded(attempt), tables, store)
    ensures Reached(s0, longer, w, if reply.Done? then Acking else Requeueing,
              If(reply.Applied(), CompleteTx(tables, KeyOf(s0.workers[w])), tables), store)
    ensures longer == es + [RecordCompletion(w, reply)]
  {
    RunSnoc(s0, es, RecordCompletion(w, reply));
    longer := es + [RecordCompletion(w, reply)];
  }

  /** The delivery is over: w is idle, its copy is at `location`, and the rest is as given. */
  ghost predicate Over(s0: Sys, es: seq<Event>, w: WorkerId, location: Location, tables: Tables, store: set<Key>)
    requires w in s0.workers
  {
    && IsRun(s0, es)
    && Exec(s0, es).workers == s0.workers[w := s0.workers[w].(pc := Idle)]
    && Exec(s0, es).copies == MoveCopy(s0.copies, s0.workers[w].copy, location)
    && Exec(s0, es).tables == tables && Exec(s0, es).store == store
  }

  lemma AfterSettle(s0: Sys, es: seq<Event>, w: WorkerId, pc: Pc, tables: Tables, store: set<Key>)
    returns (longer: seq<Event>)
    requires w in s0.workers && s0.workers[w].attached && Reached(s0, es, w, pc, tables, store)
    requires s0.workers[w].(pc := pc).Verdict().Some?
    ensures Over(s0, longer, w, s0.workers[w].(pc := pc).Verdict().value, tables, store)
    ensures longer == es + [Settle(w)]
  {
    RunSnoc(s0, es, Settle(w));
    longer := es + [Settle(w)];
  }

  /** The outcome of an event for job k when every call that fails does so for a known reason. */
  ghost predicate EventOutcome(before: Tables, down: set<Purpose>, k: JobKey, w: WorkerId, succeeds: bool,
                               verdict: Location, after: Tables)
  {
    if Claiming in down then verdict == Ready && after == before
    else if !before.JobOpen(k) then verdict == Acked && after == before
    else ClaimedOutcome(ClaimTx(before, k, w), down, k, succeeds, verdict, after)
  }

  ghost predicate ClaimedOutcome(claimed: Tables, down: set<Purpose>, k: JobKey, succeeds: bool, verdict: Location,
                                 after: Tables)
  {
    if succeeds then
      if Completing in down then verdict == Ready && after == claimed
      else verdict == Acked && after == CompleteTx(claimed, k)
    else
      && verdict == (if claimed.Attempts(k) < 3 then Ready else DeadLettered)
      && if Failing in down then after == claimed else exists message :: after == FailTx(claimed, k, message)
  }

  /** What follows a failed process: the failure is recorded, and the delivery requeued or dead-lettered. */
  method HandleFailure(database: Database, broker: Broker, t: JobType, w: WorkerId, id: CopyId, body: Message,
                       attempt: nat, message: string, ghost s0: Sys, ghost broken: seq<Event>, ghost store: set<Key>,
                       ghost trace: Trace)
    returns (ghost es: seq<Event>, ghost verdict: Location)
    requires s0.copies == broker.copies && id < |broker.copies| && broker.copies[id].location == Unacked(w)
    requires w in s0.workers && body.Uploaded? && s0.workers[w] == Worker(t, id, body, true, Received)
    requires trace.events == broken && Reached(s0, broken, w, Broken(attempt, message), database.Contents(), store)
    modifies database, broker`copies, trace
    ensures trace.events == es
    ensures Over(s0, es, w, verdict, database.Contents(), store) && Exec(s0, es).copies == broker.copies
    ensures verdict == if attempt < MAX_ATTEMPTS then Ready else DeadLettered
    ensures database.Contents() == old(database.Contents()) ||
            database.Contents() == FailTx(old(database.Contents()), JobKey(body.video, t), message)
    ensures database.Works(Failing) ==>
              database.Contents() == FailTx(old(database.Contents()), JobKey(body.video, t), message)
    ensures Failing in database.down ==> database.Contents() == old(database.Contents())
  {
    ghost var tables := database.Contents();
    var recorded := database.FailJob(body.video, t, message, w, trace);
    es := AfterFailure(s0, broken, w, attempt, message, tables, store, recorded);
    es := AfterSettle(s0, es, w, FailureNoted(attempt), database.Contents(), store);
    if attempt < MAX_ATTEMPTS {
      verdict := Ready;
      broker.Nack(id, true, w, trace);
    } else {
      verdict := DeadLettered;
      broker.Nack(id, false, w, trace);
    }
  }

  /** What follows a successful process: the completion is recorded before the delivery is acknowledged. */
  method HandleSuccess(database: Database, broker: Broker, t: JobType, w: WorkerId, id: CopyId, body: Message,
                       ghost attempt: nat, ghost s0: Sys, ghost processed: seq<Event>, ghost store: set<Key>,
                       ghost trace: Trace)
    returns (ghost es: seq<Event>, ghost verdict: Location)
    requires s0.copies == broker.copies && id < |broker.copies| && broker.copies[id].location == Unacked(w)
    requires w in s0.workers && body.Uploaded? && s0.workers[w] == Worker(t, id, body, true, Received)
    requires trace.events == processed && Reached(s0, processed, w, Succeeded(attempt), database.Contents(), store)
    modifies database, broker`copies, trace
    ensures trace.events == es
    ensures Over(s0, es, w, verdict, database.Contents(), store) && Exec(s0, es).copies == broker.copies
    ensures verdict == Acked || verdict == Ready
    ensures verdict == Acked ==> database.Contents() == CompleteTx(old(database.Contents()), JobKey(body.video, t))
    ensures database.Contents() == old(database.Contents()) ||
            database.Contents() == CompleteTx(old(database.Contents()), JobKey(body.video, t))
    ensures database.Works(Completing) ==> verdict == Acked
    ensures Completing in database.down ==> verdict == Ready && database.Contents() == old(database.Contents())
  {
    ghost var tables := database.Contents();
    var committed := database.CompleteJob(body.video, t, w, trace);
    es := AfterCompletion(s0, processed, w, attempt, tables, store, committed);
    if committed.Error? {
      es := AfterSettle(s0, es, w, Requeueing, database.Contents(), store);
      verdict := Ready;
      broker.Nack(id, true, w, trace);
      return;
    }
    es := AfterSettle(s0, es, w, Acking, database.Contents(), store);
    verdict := Acked;
    broker.Ack(id, w, trace);
  }

  /** The part of the handling after a successful claim: process, record, ack or nack. */
  method ProcessClaimed(database: Database, broker: Broker, store: ObjectStore, t: JobType, w: WorkerId, id: CopyId,
                        body: Message, attempt: nat, output: Option<seq<string>>, ghost s0: Sys,
                        ghost claimed: seq<Event>, ghost trace: Trace)
    returns (ghost es: seq<Event>, ghost verdict: Location)
    requires s0.copies == broker.copies && s0.store == store.keys
    requires id < |broker.copies| && broker.copies[id].location == Unacked(w)
    requires w in s0.workers && body.Uploaded? && s0.workers[w] == Worker(t, id, body, true, Received)
    requires trace.events == claimed && Reached(s0, claimed, w, InProcess(attempt, {}), database.Contents(), s0.store)
    modifies database, broker`copies, store, trace
    ensures trace.events == es
    ensures Over(s0, es, w, verdict, database.Contents(), store.keys) && Exec(s0, es).copies == broker.copies
    ensures verdict == Acked ==> database.Contents() == CompleteTx(old(database.Contents()), JobKey(body.video, t))
    ensures verdict == DeadLettered ==> attempt >= MAX_ATTEMPTS
    ensures database.Contents() == old(database.Contents()) ||
            database.Contents() == CompleteTx(old(database.Contents()), JobKey(body.video, t)) ||
            exists message :: database.Contents() == FailTx(old(database.Contents()), JobKey(body.video, t), message)
    ensures database.reliable && store.reliable &&
            attempt == old(database.Contents()).Attempts(JobKey(body.video, t)) ==>
              ClaimedOutcome(old(database.Contents()), database.down, JobKey(body.video, t),
                             Succeeds(store, body.spelling, t, output), verdict, database.Contents())
  {
    ghost var claimedTables := database.Contents();
    var ok, message, stored := Process(store, body.spelling, t, output, w, trace);
    if !ok {
      es := AfterProcess(s0, claimed, w, attempt, claimedTables, stored, ProcessErr(w, message));
      es, verdict := HandleFailure(database, broker, t, w, id, body, attempt, message, s0, es, store.keys,
                                   trace);
      return;
    }

    es := AfterProcess(s0, claimed, w, attempt, claimedTables, stored, ProcessOk(w));
    es, verdict := HandleSuccess(database, broker, t, w, id, body, attempt, s0, es, store.keys, trace);
  }

  /** The handling of an event, from the claim on. */
  method HandleEvent(database: Database, broker: Broker, store: ObjectStore, t: JobType, w: WorkerId,
                     id: CopyId, body: Message, output: Option<seq<string>>, ghost s0: Sys, ghost trace: Trace)
    returns (ghost es: seq<Event>, ghost verdict: Location)
    requires body.Uploaded? && Represents(s0, database, broker, store) && trace.events == []
    requires id < |broker.copies| && broker.copies[id].location == Unacked(w)
    requires w in s0.workers && s0.workers[w] == Worker(t, id, body, true, Received)
    modifies database, broker`copies, store, trace
    ensures trace.events == es && Over(s0, es, w, verdict, database.Contents(), store.keys)
    ensures Exec(s0, es).copies == broker.copies
    ensures verdict == Acked ==> !database.Contents().JobOpen(JobKey(body.video, t))
    ensures verdict == DeadLettered ==> database.Contents().Attempts(JobKey(body.video, t)) >= MAX_ATTEMPTS
    ensures database.reliable && store.reliable ==>
              EventOutcome(s0.tables, database.down, JobKey(body.video, t), w,
                           Succeeds(store, body.spelling, t, output), verdict, database.Contents())
  {
    var reply, claimed, attempt := database.ClaimJob(body.video, t, w, trace);
    es := AfterClaim(s0, w, reply);
    if reply.Error? {
      es := AfterSettle(s0, es, w, Requeueing, database.Contents(), store.keys);
      verdict := Ready;
      broker.Nack(id, true, w, trace);
      return;
    }
    if !claimed {
      es := AfterSettle(s0, es, w, Acking, database.Contents(), store.keys);
      verdict := Acked;
      broker.Ack(id, w, trace);
      return;
    }
    es, verdict := ProcessClaimed(database, broker, store, t, w, id, body, attempt, output, s0, es, trace);
  }

  /**
    One delivery, from its receipt to the ack or nack. Whatever the database and the
    process do, the calls are, in their order, a run of worker w in the protocol. Taken
    alone: an acknowledgement means the job is completed or has no row, a dead letter
    means the message is malformed or this was at least the MAX_ATTEMPTS-th attempt.
   */
  method HandleDelivery(database: Database, broker: Broker, store: ObjectStore, t: JobType, w: WorkerId,
                        id: CopyId, body: Message, output: Option<seq<string>>, ghost s0: Sys, ghost trace: Trace)
    returns (ghost es: seq<Event>, ghost verdict: Location)
    requires Represents(s0, database, broker, store) && trace.events == []
    requires id < |broker.copies| && broker.copies[id].location == Unacked(w)
    requires w in s0.workers && s0.workers[w] == Worker(t, id, body, true, Received)
    modifies database, broker`copies, store, trace
    ensures trace.events == es && Over(s0, es, w, verdict, database.Contents(), store.keys)
    ensures Represents(Exec(s0, es), database, broker, store)
    ensures body.Malformed? ==> verdict == DeadLettered && database.Contents() == s0.tables && store.keys == s0.store
    ensures verdict == Acked ==> body.Uploaded? && !database.Contents().JobOpen(JobKey(body.video, t))
    ensures verdict == DeadLettered && body.Uploaded? ==>
              database.Contents().Attempts(JobKey(body.video, t)) >= MAX_ATTEMPTS
    ensures body.Uploaded? && database.reliable && store.reliable ==>
              EventOutcome(s0.tables, database.down, JobKey(body.video, t), w,
                           Succeeds(store, body.spelling, t, output), verdict, database.Contents())
  {
    if body.Malformed? {
      assert Reached(s0, [], w, Received, s0.tables, s0.store) by {
        assert s0.workers[w := s0.workers[w]] == s0.workers;
      }
      es := AfterSettle(s0, [], w, Received, s0.tables, s0.store);
      verdict := DeadLettered;
      broker.Nack(id, false, w, trace);
      return;
    }
    es, verdict := HandleEvent(database, broker, store, t, w, id, body, output, s0, trace);
  }
}
