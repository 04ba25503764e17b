/**
  The browser's upload loop against the service: it resumes a pending upload from
  the parts storage reports, and puts every other part once.
 */
module UploadClient {
  import opened Models
  import opened Parts
  import opened Multipart
  import opened UploadStorage
  import UploadService

  /** What the browser learns from a status request: the parts, an error response, or nothing. */
  datatype Answer = Received(parts: set<int>) | Refused | Lost

  /** No part of 1..count that is still to be put before part n is blocked. */
  ghost predicate Reaches(outage: Outage, count: int, n: int, received: set<int>) {
    forall m :: 1 <= m < n && m <= count && m !in received ==> !outage.Blocks(m)
  }

  /** The loop gets exactly to the first part that is blocked, or to its end; `stored` are the parts then in storage. */
  ghost predicate StopsAtOutage(outage: Outage, count: int, stored: set<int>, done: bool, puts: seq<int>,
                                received: set<int>)
  {
    && (done <==> Reaches(outage, count, count + 1, received))
    && (forall n :: 1 <= n <= count && n !in received ==>
          && (n in puts <==> Reaches(outage, count, n, received) && n !in outage.presigning)
          && (n in stored <==> n in puts && n !in outage.putting))
  }

  /** In ascending order, the parts below n and within 1..count that are not yet received. */
  ghost predicate ArePuts(puts: seq<int>, n: int, count: int, received: set<int>) {
    Ascending(puts) && forall m :: m in puts <==> 1 <= m < n && m <= count && m !in received
  }

  /** `before` has put every missing part up to n, which is blocked or past the end. */
  lemma StopIsExact(outage: Outage, count: int, stored: set<int>, done: bool, before: seq<int>, puts: seq<int>,
                    received: set<int>, n: int)
    requires 1 <= n && Reaches(outage, count, n, received) && (done <==> n > count)
    requires !done ==> n !in received && outage.Blocks(n)
    requires ArePuts(before, n, count, received)
    requires puts == if done || n in outage.presigning then before else before + [n]
    requires stored == received + Range(before)
    ensures StopsAtOutage(outage, count, stored, done, puts, received)
  {
    if !done {
      assert !Reaches(outage, count, count + 1, received);
      forall m | n < m <= count
        ensures !Reaches(outage, count, m, received)
      {
      }
    }
  }

  /** The service as one client sees it: its current upload and whether its session is alive. */
  class Service {
    var upload: MultipartUpload
    var session: bool

    constructor (upload: MultipartUpload, session: bool)
      ensures this.upload == upload && this.session == session
    {
      this.upload, this.session := upload, session;
    }

    /** The parts of the current upload that storage does not have yet. */
    ghost function Missing(): set<int>
      reads this, upload
    {
      set n | 1 <= n <= upload.count && n !in upload.parts
    }

    /** A status request will be answered with the parts, or at least not refused. */
    predicate Resumable()
      reads this, upload
    {
      session && !upload.outage.listing && upload.assembled.None?
    }

    /** Rejects an empty title or file, and any if `closed`; otherwise starts an upload with the computed part count. */
    method CreateUpload(title: string, file: seq<Byte>, reliable: bool, closed: bool, outage: Outage)
      returns (ok: bool)
      requires |file| <= MAX_INT64
      modifies this
      ensures ok ==> title != "" && file != [] && fresh(upload) && session && upload.Valid()
      ensures ok ==> upload.file == file && upload.count == PartCount(|file|)
      ensures ok ==> upload.parts == map[] && upload.assembled == None
      ensures ok ==> upload.reliable == reliable && upload.outage == outage
      ensures !ok ==> upload == old(upload) && session == old(session)
      ensures reliable && !closed && title != "" && file != [] ==> ok
      ensures closed ==> !ok
    {
      if title == "" || file == [] {
        return false;
      }
      var fault := Fails(reliable, closed);
      if fault {
        return false;
      }
      upload := new MultipartUpload(file, PartCount(|file|), reliable, outage);
      session := true;
      ok := true;
    }

    /**
      The received parts, as storage lists them. A request may be lost, and for the
      largest part count it never answers, unless the session or the listing fails first.
     */
    method Status() returns (answer: Answer)
      requires upload.Valid()
      modifies upload`parts
      ensures upload.parts == old(upload.parts) && upload.Valid()
      ensures upload.assembled.Some? ==> answer == Refused
      ensures answer.Received? ==> session && upload.count < MAX_INT32 && answer.parts == upload.parts.Keys
      ensures !session ==> answer == Refused
      ensures session && upload.outage.listing ==> answer == Refused
      ensures session && upload.reliable && !upload.outage.listing && upload.assembled == None ==>
                if upload.count < MAX_INT32 then answer.Received? else answer == Lost
      ensures upload.reliable && upload.count < MAX_INT32 ==> answer != Lost
    {
      if !session {
        return Refused;
      }
      var listed, list := upload.ListParts(true);
      if !listed {
        return Refused;
      }
      if upload.count == MAX_INT32 {
        return Lost;
      }
      var received, missing := UploadService.HandleStatus(list, upload.count);
      var lost := Fails(upload.reliable);
      if lost {
        return Lost;
      }
      answer := Received(Range(received));
      forall n | n in upload.parts
        ensures n in received
      {
        var i :| 0 <= i < |list| && list[i].number == n;
        assert received[i] == n;
      }
    }

    /** Only a part of the session's range gets a URL. */
    method PresignPart(n: int) returns (ok: bool)
      ensures ok ==> session && 1 <= n <= upload.count
      ensures session && upload.reliable && 1 <= n <= upload.count && n !in upload.outage.presigning ==> ok
      ensures n in upload.outage.presigning ==> !ok
    {
      var fault := Fails(upload.reliable, n in upload.outage.presigning);
      ok := !fault && n >= 1 && session && n <= upload.count;
    }

    /** A put that reports an error may still have arrived. */
    method PutPart(n: int, chunk: seq<Byte>) returns (ok: bool)
      requires upload.Valid() && 1 <= n <= upload.count && chunk == Slice(upload.file, n)
      modifies upload`parts
      ensures upload.Valid()
      ensures upload.parts.Keys == old(upload.parts).Keys || upload.parts.Keys == old(upload.parts).Keys + {n}
      ensures ok ==> upload.parts.Keys == old(upload.parts).Keys + {n}
      ensures upload.reliable && n !in upload.outage.putting ==> ok
      ensures n in upload.outage.putting ==> !ok && upload.parts == old(upload.parts)
    {
      var lost := Fails(upload.reliable, n in upload.outage.putting);
      if lost {
        return false;
      }
      var etag: string := *;
      upload.parts := upload.parts[n := StoredPart(etag, chunk)];
      var replyLost := Fails(upload.reliable);
      ok := !replyLost;
    }

    /** One part: its URL is presigned, and if that succeeds it is put. */
    method PutSlice(n: int, file: seq<Byte>) returns (tried: bool, stored: bool)
      requires upload.Valid() && upload.file == file && 1 <= n <= upload.count
      modifies upload`parts
      ensures upload.Valid()
      ensures stored ==> tried && upload.parts.Keys == old(upload.parts).Keys + {n}
      ensures !stored && tried ==> upload.parts.Keys == old(upload.parts).Keys ||
                                   upload.parts.Keys == old(upload.parts).Keys + {n}
      ensures !tried ==> upload.parts == old(upload.parts)
      ensures session && upload.reliable ==>
                tried == (n !in upload.outage.presigning) && stored == !upload.outage.Blocks(n)
      ensures upload.outage.Blocks(n) ==> upload.parts == old(upload.parts)
    {
      tried := PresignPart(n);
      if !tried {
        return false, false;
      }
      stored := PutPart(n, Slice(file, n));
    }

    /** Puts part n, after the puts before it. */
    method PutNext(file: seq<Byte>, n: int, received: set<int>, puts: seq<int>) returns (more: seq<int>, stored: bool)
      requires upload.Valid() && upload.file == file && 1 <= n <= upload.count && n !in received
      requires ArePuts(puts, n, upload.count, received) && upload.parts.Keys == received + Range(puts)
      modifies upload`parts
      ensures upload.Valid() && (more == puts || more == puts + [n])
      ensures more != puts ==> ArePuts(more, n + 1, upload.count, received)
      ensures stored ==> more != puts && upload.parts.Keys == received + Range(more)
      ensures more == puts ==> upload.parts.Keys == received + Range(puts)
      ensures upload.parts.Keys == received + Range(puts) || upload.parts.Keys == received + Range(puts) + {n}
      ensures session && upload.reliable ==>
                && stored == !upload.outage.Blocks(n) && (more == puts <==> n in upload.outage.presigning)
                && (!stored ==> upload.parts.Keys == received + Range(puts))
    {
      more := puts;
      var tried;
      tried, stored := PutSlice(n, file);
      if tried {
        more := AddPut(puts, n);
      }
    }

    /**
      The loop over the parts: every part not yet received is put once, in ascending
      order, and wherever the loop stops, the parts already stored stay. It stops at part
      n, after the puts `before`, of which all have arrived.
     */
    method PutLoop(file: seq<Byte>, received: set<int>)
      returns (done: bool, puts: seq<int>, ghost before: seq<int>, n: int)
      requires upload.Valid() && upload.file == file && received == upload.parts.Keys
      modifies upload`parts
      ensures upload.Valid() && 1 <= n && (done <==> n > upload.count) && (!done ==> n !in received)
      ensures ArePuts(before, n, upload.count, received)
      ensures puts == before || (!done && puts == before + [n])
      ensures upload.parts.Keys == received + Range(before) || upload.parts.Keys == received + Range(before) + {n}
      ensures puts == before ==> upload.parts.Keys == received + Range(before)
      ensures session && upload.reliable ==>
                && Reaches(upload.outage, upload.count, n, received)
                && upload.parts.Keys == received + Range(before)
                && (!done ==> upload.outage.Blocks(n) && (puts == before <==> n in upload.outage.presigning))
    {
      done, puts, before, n := false, [], [], 1;
      while n <= upload.count
        invariant upload.Valid() && 1 <= n && puts == before
        invariant ArePuts(before, n, upload.count, received)
        invariant upload.parts.Keys == received + Range(before)
        invariant session && upload.reliable ==> Reaches(upload.outage, upload.count, n, received)
      {
        if n !in received {
          var stored;
          puts, stored := PutNext(file, n, received, puts);
          if !stored {
            return;
          }
          before := puts;
        }
        n := n + 1;
      }
      done := true;
    }

    /** The loop, and where it stops if nothing but the outage gets in its way. */
    method PutMissing(file: seq<Byte>, received: set<int>) returns (done: bool, puts: seq<int>)
      requires upload.Valid() && upload.file == file && received == upload.parts.Keys
      modifies upload`parts
      ensures upload.Valid()
      ensures Ascending(puts) && forall n :: n in puts ==> 1 <= n <= upload.count && n !in received
      ensures done ==> forall n :: 1 <= n <= upload.count ==> (n in puts <==> n !in received)
      ensures upload.parts.Keys == received + Range(puts) ||
              (!done && puts != [] && upload.parts.Keys == received + Range(puts[..|puts| - 1]))
      ensures session && upload.reliable ==>
                StopsAtOutage(upload.outage, upload.count, upload.parts.Keys, done, puts, received)
    {
      ghost var before;
      var n;
      done, puts, before, n := PutLoop(file, received);
      LastPut(before, puts, n);
      if session && upload.reliable {
        StopIsExact(upload.outage, upload.count, upload.parts.Keys, done, before, puts, received, n);
      }
    }

    /** Resumes the pending upload, or starts a new one if there is none or its status request is refused. */
    method Begin(title: string, file: seq<Byte>, pending: bool, reliable: bool, closed: bool, outage: Outage)
      returns (going: bool, received: set<int>)
      requires |file| <= MAX_INT64
      requires upload.Valid() && (pending ==> upload.file == file && (reliable ==> upload.reliable))
      modifies this, upload`parts
      ensures upload.Valid() && (upload == old(upload) || fresh(upload))
      ensures upload == old(upload) ==> upload.parts == old(upload.parts)
      ensures going ==> session && upload.file == file && received == upload.parts.Keys
      ensures !going ==> upload == old(upload)
      ensures going && reliable ==> upload.reliable
      ensures reliable && pending && old(Resumable()) ==>
                upload == old(upload) && (going <==> upload.count < MAX_INT32)
      ensures reliable && file != [] && !(pending && old(Resumable())) ==>
                (going <==> !closed && title != "") && (going ==> received == {} && upload.outage == outage)
    {
      going, received := false, {};
      if pending {
        var answer := Status();
        if answer.Lost? {
          return;
        }
        if answer.Received? {
          return true, answer.parts;
        }
      }
      going := CreateUpload(title, file, reliable, closed, outage);
    }

    /**
      One press of the upload button. A `reliable` press meets no failing call; any
      other may stop anywhere, but a part it stored need not be put again, so the
      missing parts shrink from one press to the next. `received` is what the loop starts from: the
      parts already stored when a pending upload is resumed, none otherwise. When
      the loop runs to its end every part of 1..count is stored, and each part that
      was not yet received has been put exactly once. A reliable press runs to its end or
      to the first part that is blocked, unless it resumes an upload of the largest count.
     */
    method DoUpload(title: string, file: seq<Byte>, pending: bool, reliable: bool, closed: bool, outage: Outage)
      returns (done: bool, puts: seq<int>, received: set<int>)
      requires |file| <= MAX_INT64
      requires upload.Valid() && (pending ==> upload.file == file && (reliable ==> upload.reliable))
      modifies this, upload`parts
      ensures upload.Valid()
      ensures upload == old(upload) ==> old(upload.parts).Keys <= upload.parts.Keys
      ensures upload == old(upload) && puts != [] ==> received == old(upload.parts).Keys
      ensures Ascending(puts) && forall n :: n in puts ==> 1 <= n <= upload.count && n !in received
      ensures done ==> upload.file == file
      ensures done ==> forall n :: 1 <= n <= upload.count ==> (n in puts <==> n !in received) && n in upload.parts
      ensures puts != [] ==> upload.parts.Keys == received + Range(puts) ||
                             upload.parts.Keys == received + Range(puts[..|puts| - 1])
      ensures reliable && pending && old(Resumable()) ==>
                if old(upload).count == MAX_INT32 then !done && puts == []
                else upload == old(upload) && received == old(upload.parts).Keys &&
                     StopsAtOutage(upload.outage, upload.count, upload.parts.Keys, done, puts, received)
      ensures reliable && file != [] && !(pending && old(Resumable())) ==>
                if closed || title == "" then !done && puts == []
                else received == {} && upload.outage == outage &&
                     StopsAtOutage(upload.outage, upload.count, upload.parts.Keys, done, puts, received)
      ensures upload == old(upload) && (|puts| > 1 || (done && puts != [])) ==> Missing() < old(Missing())
    {
      done, puts, received := false, [], {};
      var going;
      going, received := Begin(title, file, pending, reliable, closed, outage);
      if !going {
        return;
      }
      done, puts := PutMissing(file, received);
      if puts != [] {
        FirstPut(puts);
        assert upload == old(upload) ==> puts[0] in old(Missing());
      }
    }
  }

  lemma LastPut(before: seq<int>, puts: seq<int>, n: int)
    requires Ascending(before) && forall m :: m in before ==> m < n
    requires puts == before || puts == before + [n]
    ensures Ascending(puts) && Range(before + [n]) == Range(before) + {n}
    ensures puts == before + [n] ==> puts[..|puts| - 1] == before
  {
    assert forall i :: 0 <= i < |before| ==> before[i] in before;
  }

  lemma FirstPut(puts: seq<int>)
    requires puts != []
    ensures puts[0] in puts && (|puts| > 1 ==> puts[0] in puts[..|puts| - 1])
  {
    assert |puts| > 1 ==> puts[..|puts| - 1][0] == puts[0];
  }

  method AddPut(puts: seq<int>, n: int) returns (longer: seq<int>)
    requires Ascending(puts) && forall m :: m in puts ==> m < n
    ensures longer == puts + [n] && Ascending(longer) && Range(longer) == Range(puts) + {n}
    ensures longer[..|longer| - 1] == puts
  {
    assert forall i :: 0 <= i < |puts| ==> puts[i] in puts;
    longer := puts + [n];
  }
}
