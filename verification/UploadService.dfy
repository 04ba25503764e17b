/**
  The requests of the upload service: creating an upload, presigning and reporting
  its parts, completing it, and retrying or deleting a video.
 */
module UploadService {
  import opened Models
  import opened Keys
  import opened TableModel
  import opened Parts
  import opened Multipart
  import opened UploadStorage
  import opened Protocol
  import opened DatabaseAccess
  import opened BrokerAccess
  import opened Storage
  import opened Refinement

  /** The HTTP status classes a handler answers with. */
  datatype Response = Success | NotFound | Conflict | ServerError

  /** The parts in 1..count that a list does not name. */
  ghost predicate IsMissing(list: seq<Part>, count: int, n: int) {
    1 <= n <= count && !Lists(list, n)
  }

  /**
    The status report. `missing` is, in order, exactly what the list lacks of 1..count.
    When the list is sorted and within range the two partition 1..count, so counting
    the parts, as completion does, is the same as checking that none is missing. The
    loop variable is an int32, so for the largest count there is no report at all
    (Parts.LoopEnds and Parts.StatusAnswers).
   */
  method HandleStatus(list: seq<Part>, count: int) returns (received: seq<int>, missing: seq<int>)
    requires -MAX_INT32 - 1 <= count < MAX_INT32
    ensures |received| == |list| && forall i :: 0 <= i < |list| ==> received[i] == list[i].number
    ensures Ascending(missing) && forall n :: n in missing <==> IsMissing(list, count, n)
    ensures InRange(list, count) && count >= 0 ==> |received| + |missing| == count
    ensures InRange(list, count) && count >= 0 ==> (|list| == count <==> missing == [])
  {
    received, missing := [], [];
    var got: set<int> := {};
    for i := 0 to |list|
      invariant |received| == i && forall j :: 0 <= j < i ==> received[j] == list[j].number
      invariant forall n :: n in got <==> exists j :: 0 <= j < i && list[j].number == n
    {
      received := received + [list[i].number];
      got := got + {list[i].number};
    }
    ghost var below: nat := 0;    // how many listed numbers are less than n
    var n := 1;
    while n <= count
      invariant 1 <= n && (n == 1 || n <= count + 1)
      invariant Ascending(missing)
      invariant forall m :: m in missing <==> 1 <= m < n && !Lists(list, m)
      invariant InRange(list, count) ==> below <= |list| && below + |missing| == n - 1
      invariant InRange(list, count) ==> forall j :: 0 <= j < |list| ==> (j < below <==> list[j].number < n)
    {
      assert n in got <==> Lists(list, n);
      if n !in got {
        assert forall i :: 0 <= i < |missing| ==> missing[i] in missing;
        missing := missing + [n];
      } else {
        if InRange(list, count) {
          RankOf(list, n, below);
        }
        below := below + 1;
      }
      n := Int32(n + 1);
    }
    assert InRange(list, count) && list != [] ==> list[|list| - 1].number <= count;
  }

  /** Counting the listed parts is enough: what storage then assembles are all slices of the file. */
  lemma CountedListIsComplete(upload: MultipartUpload, list: seq<Part>)
    requires upload.Valid() && Sorted(list) && |list| == upload.count
    requires forall i :: 0 <= i < |list| ==> list[i].number in upload.parts
    ensures Assembled(upload.parts, list) == Joined(upload.file, upload.count)
  {
    FullListIsEverything(list, upload.count);
    AssembledIsJoined(upload.parts, list, upload.file, |list|);
  }

  lemma StorageStep(s0: Sys, id: VideoId)
    requires id !in s0.stored
    ensures IsRun(s0, [CompleteStorage(id)])
    ensures var s := Exec(s0, [CompleteStorage(id)]);
            s.tables == s0.tables && s.copies == s0.copies && s.store == s0.store + {RawFile(id)} && id in s.inserting
  {
    RunSnoc(s0, [], CompleteStorage(id));
    assert [] + [CompleteStorage(id)] == [CompleteStorage(id)];
  }

  lemma InsertedStep(s0: Sys, es: seq<Event>, id: VideoId, title: string, reply: Reply)
    requires IsRun(s0, es) && id in Exec(s0, es).inserting
    requires reply.Applied() ==> !InsertConflicts(Exec(s0, es).tables, id, RawFile(id))
    ensures var s, longer := Exec(s0, es), es + [Insert(id, title, reply)];
            && IsRun(s0, longer)
            && Exec(s0, longer).tables == If(reply.Applied(), InsertTx(s.tables, id, title, RawFile(id)), s.tables)
            && Exec(s0, longer).copies == s.copies && Exec(s0, longer).store == s.store
            && (reply.Applied() ==> id in Exec(s0, longer).inserted)
  {
    RunSnoc(s0, es, Insert(id, title, reply));
  }

  lemma PublishedStep(s0: Sys, es: seq<Event>, body: Message)
    requires IsRun(s0, es) && body.Uploaded? && body.WellSpelled() && body.video in Exec(s0, es).inserted
    ensures var s, longer := Exec(s0, es), es + [Publish(body)];
            && IsRun(s0, longer)
            && Exec(s0, longer).tables == s.tables && Exec(s0, longer).store == s.store
            && Exec(s0, longer).copies == s.copies + Fanout(body)
  {
    RunSnoc(s0, es, Publish(body));
  }

  /** The publish that ends a completion or a retry. */
  method Announce(body: Message, database: Database, broker: Broker, store: ObjectStore, ghost s0: Sys,
                  ghost es: seq<Event>)
    returns (ok: bool, ghost longer: seq<Event>)
    requires broker.Valid() && broker.bound == JOB_TYPES && body.Uploaded? && body.WellSpelled()
    requires RunTo(s0, es, database, broker, store) && body.video in Exec(s0, es).inserted
    modifies broker`copies
    ensures RunTo(s0, longer, database, broker, store)
    ensures longer == es || longer == es + [Publish(body)]
    ensures ok ==> longer == es + [Publish(body)]
    ensures broker.reliable && !broker.down ==> ok
    ensures broker.down ==> !ok && longer == es
  {
    ok := broker.Publish(body);
    longer := es;
    if |broker.copies| != |Exec(s0, es).copies| {
      PublishedStep(s0, es, body);
      longer := es + [Publish(body)];
    }
  }

  /** What a completion request has done: nothing, or its steps in order up to some point. */
  ghost predicate CompletionSteps(es: seq<Event>, id: VideoId, title: string) {
    || es == []
    || es == [CompleteStorage(id)]
    || (2 <= |es| <= 3 && es[0] == CompleteStorage(id) && es[1].Insert? && es[1] == Insert(id, title, es[1].reply) &&
        (|es| == 3 ==> es[1].reply.Done? && es[2] == Publish(Uploaded(id, Canonical(id)))))
  }

  /**
    The first half of a completion: the parts are listed, counted and assembled under
    the key. Nothing is assembled but all slices of the file. Without concurrent part
    uploads and failing calls, it succeeds exactly when no part is missing.
   */
  method AssembleParts(upload: MultipartUpload, store: ObjectStore, key: Key, quiet: bool) returns (response: Response)
    requires upload.Valid() && upload.count != 0
    modifies upload, store
    ensures response != NotFound
    ensures (upload.assembled == old(upload.assembled) && store.keys == old(store.keys)) ||
            (old(upload.assembled).None? && upload.count > 0 &&
             upload.assembled == Some(Joined(upload.file, upload.count)) && store.keys == old(store.keys) + {key})
    ensures response == Success ==> old(upload.assembled).None? && upload.assembled.Some?
    ensures response == Conflict ==> upload.assembled == old(upload.assembled)
    ensures quiet && upload.reliable && upload.count > 0 && old(upload.assembled).None? ==>
              response == if upload.outage.listing then ServerError
                          else if exists n :: 1 <= n <= upload.count && n !in old(upload.parts) then Conflict
                          else if upload.outage.completing then ServerError
                          else Success
    ensures upload.outage.listing || upload.outage.completing ==>
              response != Success && upload.assembled == old(upload.assembled)
  {
    var ok, list := upload.ListParts(quiet);
    if !ok {
      return ServerError;
    }
    ListFits(list, upload.count);
    if upload.count > 0 {
      CountDecides(list, upload.count);
      assert quiet ==> forall n :: n in old(upload.parts) <==> Lists(list, n);
    }
    if Int32(|list|) != upload.count {
      return Conflict;
    }
    CountedListIsComplete(upload, list);
    var completed := upload.Complete(list, store, key);
    return if completed then Success else ServerError;
  }

  /**
    Completing an upload. The steps happen in this order or stop early: the object is
    assembled, always from all slices of the file; the rows are inserted; the event
    is published. Success only needs the first two.
   */
  method HandleComplete(id: VideoId, title: string, session: bool, upload: MultipartUpload,
                        database: Database, broker: Broker, store: ObjectStore, quiet: bool, ghost s0: Sys)
    returns (response: Response, ghost es: seq<Event>)
    requires upload.Valid() && upload.count != 0 && broker.Valid() && broker.bound == JOB_TYPES
    requires Represents(s0, database, broker, store) && (upload.assembled.None? ==> id !in s0.stored)
    modifies upload, database, broker`copies, store
    ensures RunTo(s0, es, database, broker, store) && CompletionSteps(es, id, title)
    ensures es == [] ==> upload.assembled == old(upload.assembled)
    ensures es != [] ==> upload.count > 0 && upload.assembled == Some(Joined(upload.file, upload.count))
    ensures response == Success ==> |es| >= 2 && es[1].reply.Done? && id in database.videos
    ensures response == NotFound || response == Conflict ==> es == []
    ensures response == NotFound <==> !session
    ensures quiet && session && upload.reliable && database.reliable && upload.count > 0 &&
            old(upload.assembled).None? ==>
              if upload.outage.listing then response == ServerError && es == []
              else if exists n :: 1 <= n <= upload.count && n !in old(upload.parts) then response == Conflict
              else if upload.outage.completing then response == ServerError && es == []
              else if InsertConflicts(old(database.Contents()), id, RawFile(id)) || Inserting in database.down then
                response == ServerError && |es| == 2
              else
                && response == (if Loading in database.down then ServerError else Success)
                && 2 <= |es| && es[1] == Insert(id, title, Done)
                && (broker.reliable ==> |es| == if broker.down then 2 else 3)
  {
    es := [];
    if !session {
      return NotFound, es;
    }
    ghost var was := upload.assembled;
    response := AssembleParts(upload, store, RawFile(id), quiet);
    if upload.assembled != was {
      es := [CompleteStorage(id)];
      StorageStep(s0, id);
    }
    if response != Success {
      return;
    }
    var reply := database.InsertVideo(id, title, RawFile(id));
    InsertedStep(s0, es, id, title, reply);
    es := es + [Insert(id, title, reply)];
    if reply.Error? {
      return ServerError, es;
    }
    CanonicalNames(id);
    var published;
    published, es := Announce(Uploaded(id, Canonical(id)), database, broker, store, s0, es);
    var loaded, found := database.GetVideo(id);
    return if loaded && found then Success else ServerError, es;
  }

  /**
    A retry: found, reset, published, in this order or stopped early. The event carries
    the id as the request spells it. A reset whose publish fails leaves the job pending
    and unannounced, and the caller is told.
   */
  method HandleRetryJob(request: string, t: JobType, database: Database, broker: Broker, store: ObjectStore,
                        ghost s0: Sys)
    returns (response: Response, ghost es: seq<Event>)
    requires broker.Valid() && broker.bound == JOB_TYPES && Represents(s0, database, broker, store)
    requires database.videos.Keys <= s0.inserted
    modifies database, broker`copies
    ensures RunTo(s0, es, database, broker, store)
    ensures es != [] ==> ReadUuid(request).Some? && RetrySteps(es, request, ReadUuid(request).value, t)
    ensures response == Success ==> |es| == 2 && var k := JobKey(ReadUuid(request).value, t);
                                                 k in database.jobs && database.jobs[k] == FRESH_JOB
    ensures response == NotFound ==>
              database.Contents() == old(database.Contents()) && broker.copies == old(broker.copies)
    ensures ReadUuid(request).None? ==> response == ServerError
    ensures database.reliable && broker.reliable && ReadUuid(request).Some? ==>
              var id := ReadUuid(request).value;
              if Loading in database.down then response == ServerError && es == []
              else if id !in old(database.videos) then response == NotFound && es == []
              else if Resetting in database.down then
                response == ServerError && es == [Reset(JobKey(id, t), Error(false))]
              else if JobKey(id, t) !in old(database.jobs) then response == NotFound
              else
                && |es| == (if broker.down then 1 else 2) && es[0] == Reset(JobKey(id, t), Done)
                && response == if broker.down then ServerError else Success
  {
    es := [];
    var named := ReadUuid(request);
    if named.None? {
      return ServerError, es;
    }
    var id := named.value;
    var loaded, found := database.GetVideo(id);
    if !loaded {
      return ServerError, es;
    }
    if !found {
      return NotFound, es;
    }
    response, es := ResetAndPublish(request, id, t, database, broker, store, s0);
  }

  lemma ResetRun(s0: Sys, k: JobKey, reply: Reply)
    requires reply.Applied() ==> k in s0.tables.jobs
    ensures IsRun(s0, [Reset(k, reply)])
    ensures var s := Exec(s0, [Reset(k, reply)]);
            && s.tables == If(reply.Applied(), ResetTx(s0.tables, k), s0.tables)
            && s.copies == s0.copies && s.store == s0.store && s.inserted == s0.inserted
  {
    RunSnoc(s0, [], Reset(k, reply));
    assert [] + [Reset(k, reply)] == [Reset(k, reply)];
  }

  /** The part of a retry once the video has been found. */
  method ResetAndPublish(request: string, id: VideoId, t: JobType, database: Database, broker: Broker,
                         store: ObjectStore, ghost s0: Sys)
    returns (response: Response, ghost es: seq<Event>)
    requires broker.Valid() && broker.bound == JOB_TYPES && Represents(s0, database, broker, store)
    requires Names(request, id) && id in s0.inserted
    modifies database, broker`copies
    ensures RunTo(s0, es, database, broker, store) && RetrySteps(es, request, id, t)
    ensures response == Success ==> |es| == 2 && JobKey(id, t) in database.jobs &&
                                    database.jobs[JobKey(id, t)] == FRESH_JOB
    ensures response == NotFound ==>
              database.Contents() == old(database.Contents()) && broker.copies == old(broker.copies)
    ensures database.reliable && broker.reliable ==>
              if Resetting in database.down then
                response == ServerError && es == [Reset(JobKey(id, t), Error(false))]
              else if JobKey(id, t) !in old(database.jobs) then response == NotFound
              else
                && |es| == (if broker.down then 1 else 2) && es[0] == Reset(JobKey(id, t), Done)
                && response == if broker.down then ServerError else Success
  {
    var reply, notFound := database.ResetJobForRetry(id, t);
    ResetRun(s0, JobKey(id, t), reply);
    es := [Reset(JobKey(id, t), reply)];
    if notFound {
      return NotFound, es;
    }
    if reply.Error? {
      return ServerError, es;
    }
    var published;
    published, es := Announce(Uploaded(id, request), database, broker, store, s0, es);
    return if published then Success else ServerError, es;
  }

  /** What a retry request has done: reset the job and, if that succeeded, published. */
  ghost predicate RetrySteps(es: seq<Event>, request: string, id: VideoId, t: JobType) {
    1 <= |es| <= 2 && es[0].Reset? && es[0] == Reset(JobKey(id, t), es[0].reply) &&
    (|es| == 2 ==> es[0].reply.Done? && es[1] == Publish(Uploaded(id, request)))
  }

  /** A set of swept objects, removed one at a time, is a run of the protocol. */
  lemma {:induction false} SweepsAreSteps(s0: Sys, es: seq<Event>, id: VideoId, request: string, removed: set<Key>)
    returns (longer: seq<Event>)
    requires IsRun(s0, es) && Exec(s0, es).Deleted(id) && Names(request, id)
    requires forall k :: k in removed ==> Swept(request, k)
    ensures IsRun(s0, longer) && Exec(s0, longer) == Exec(s0, es).(store := Exec(s0, es).store - removed)
    decreases removed
  {
    if removed == {} {
      assert Exec(s0, es).store - removed == Exec(s0, es).store;
      longer := es;
    } else {
      var k :| k in removed;
      longer := SweepsAreSteps(s0, es, id, request, removed - {k});
      RunSnoc(s0, longer, SweepObject(id, request, k));
      assert Exec(s0, es).store - (removed - {k}) - {k} == Exec(s0, es).store - removed;
      longer := longer + [SweepObject(id, request, k)];
    }
  }

  /**
    A delete: the row goes first, and then the objects under each of the four prefixes
    that the request spells. The answer is success even when a sweep failed; `clean`
    says that no call did, and then the swept keys that storage reported as failed are
    exactly the ones left. Whatever happens, no key of any other video is touched.
   */
  method HandleDeleteVideo(request: string, database: Database, broker: Broker, store: ObjectStore, ghost s0: Sys)
    returns (response: Response, clean: bool, ghost failed: set<Key>, ghost es: seq<Event>)
    requires Represents(s0, database, broker, store) && database.videos.Keys <= s0.inserted
    modifies database, store
    ensures RunTo(s0, es, database, broker, store)
    ensures response == Success ==> ReadUuid(request).Some? && ReadUuid(request).value !in database.videos
    ensures response != Success ==> store.keys == old(store.keys)
    ensures ReadUuid(request).None? ==> response == ServerError
    ensures database.reliable && ReadUuid(request).Some? ==>
              response == if Deleting in database.down then ServerError
                          else if ReadUuid(request).value in old(database.videos) then Success
                          else NotFound
    ensures response == Success && store.reliable ==> PlannedSweep(request, store, old(store.keys), clean)
    ensures response == Success && clean ==>
              store.keys == set k | k in old(store.keys) && (Swept(request, k) ==> k in failed)
    ensures forall other: VideoId, spelling, k ::
              !Names(request, other) && Names(spelling, other) && Owned(Canonical(other), spelling, k) ==>
              (k in store.keys <==> k in old(store.keys))
  {
    clean, failed, es := true, {}, [];
    var named := ReadUuid(request);
    if named.None? {
      return ServerError, clean, failed, es;
    }
    var id := named.value;
    var reply, notFound := database.DeleteVideo(id);
    RunSnoc(s0, [], Delete(id, reply));
    es := [] + [Delete(id, reply)];
    if notFound {
      return NotFound, clean, failed, es;
    }
    if reply.Error? {
      return ServerError, clean, failed, es;
    }
    clean, failed := SweepAll(request, store);
    es := SweepsAreSteps(s0, es, id, request, old(store.keys) - store.keys);
    assert s0.store - (old(store.keys) - store.keys) == store.keys;
    forall other: VideoId, spelling, k |
      !Names(request, other) && Names(spelling, other) && Owned(Canonical(other), spelling, k)
      ensures !Swept(request, k)
    {
      SweepIsExact(request, other, spelling, k);
    }
    response := Success;
  }

  /** A prefix of the request that can be listed matches key k. */
  predicate Removable(request: string, hidden: set<Key>, k: Key) {
    exists i | 0 <= i < 4 :: StoragePrefixesForVideo(request)[i] !in hidden && StoragePrefixesForVideo(request)[i] <= k
  }

  /** What a sweep removes when storage only fails for known reasons: a prefix that fails does not stop the next. */
  ghost predicate PlannedSweep(request: string, store: ObjectStore, before: set<Key>, clean: bool)
    reads store
  {
    && store.keys == (set k | k in before && (Removable(request, store.hidden, k) ==> k in store.refused))
    && (clean <==> forall i :: 0 <= i < 4 ==> StoragePrefixesForVideo(request)[i] !in store.hidden)
  }

  /** The sweeps of the four prefixes; a failed one does not stop the next. */
  method SweepAll(request: string, store: ObjectStore) returns (clean: bool, ghost failed: set<Key>)
    modifies store
    ensures store.keys <= old(store.keys) && forall k :: k in old(store.keys) && k !in store.keys ==> Swept(request, k)
    ensures store.reliable ==> PlannedSweep(request, store, old(store.keys), clean)
    ensures clean ==> store.keys == set k | k in old(store.keys) && (Swept(request, k) ==> k in failed)
  {
    clean, failed := true, {};
    var prefixes := StoragePrefixesForVideo(request);
    for i := 0 to 4
      invariant store.keys <= old(store.keys)
      invariant forall k :: k in old(store.keys) && k !in store.keys ==> Swept(request, k)
      invariant store.reliable ==> (clean <==> forall j :: 0 <= j < i ==> prefixes[j] !in store.hidden)
      invariant store.reliable ==>
                  store.keys == set k | k in old(store.keys) &&
                    ((exists j | 0 <= j < i :: prefixes[j] !in store.hidden && prefixes[j] <= k) ==> k in store.refused)
      invariant clean ==> failed <= store.keys
      invariant clean ==> forall j, k :: 0 <= j < i && k in store.keys && prefixes[j] <= k ==> k in failed
    {
      var ok;
      ghost var errors;
      ok, errors := store.DeleteObjectsByPrefix(prefixes[i]);
      clean, failed := clean && ok, failed * store.keys + errors;
    }
  }
}
