/**
  One resumable multipart upload as a state machine: presigned part uploads and
  their repetition, sessions that expire, and any number of completion requests
  that list the parts page by page while parts still arrive.
 */
module Multipart {
  import opened Models
  import opened Parts

  datatype StoredPart = StoredPart(etag: string, data: seq<Byte>)

  /** An entry of a part listing. */
  datatype Part = Part(number: int, etag: string, size: int)

  function Entry(parts: map<int, StoredPart>, n: int): Part
    requires n in parts
  {
    Part(n, parts[n].etag, |parts[n].data|)
  }

  ghost predicate Sorted(list: seq<Part>) {
    forall i, j :: 0 <= i < j < |list| ==> list[i].number < list[j].number
  }

  ghost predicate Lists(list: seq<Part>, n: int) {
    exists i :: 0 <= i < |list| && list[i].number == n
  }

  function Marker(list: seq<Part>): int {
    if list == [] then 0 else list[|list| - 1].number
  }

  /** A page of the parts after the marker, in order; only a truncated page may leave later parts out. */
  ghost predicate IsPartPage(page: seq<Part>, parts: map<int, StoredPart>, marker: int, truncated: bool) {
    && Sorted(page) && (truncated ==> page != [])
    && (forall i :: 0 <= i < |page| ==>
          marker < page[i].number && page[i].number in parts && page[i] == Entry(parts, page[i].number))
    && (forall n :: n in parts && marker < n && (truncated ==> n <= Marker(page)) ==> Lists(page, n))
  }

  /** What storage assembles from the first n entries of a list: their current data, in list order. */
  function AssembledFrom(parts: map<int, StoredPart>, list: seq<Part>, n: nat): seq<Byte>
    requires n <= |list|
  {
    if n == 0 then []
    else
      var number := list[n - 1].number;
      AssembledFrom(parts, list, n - 1) + if number in parts then parts[number].data else []
  }

  function Assembled(parts: map<int, StoredPart>, list: seq<Part>): seq<Byte> {
    AssembledFrom(parts, list, |list|)
  }

  /** Every listed part still has the entity tag it was listed with. */
  ghost predicate Current(parts: map<int, StoredPart>, list: seq<Part>) {
    forall i :: 0 <= i < |list| ==> list[i].number in parts && parts[list[i].number].etag == list[i].etag
  }

  /** A completion request: collecting pages, or done listing. */
  datatype Request = Listing(list: seq<Part>) | Listed(list: seq<Part>)

  datatype Upload = Upload(
    session: bool,
    presigned: set<int>,
    parts: map<int, StoredPart>,
    requests: map<nat, Request>,
    assembled: Option<seq<Byte>>)

  const CREATED := Upload(true, {}, map[], map[], None)

  datatype UploadEvent =
    | Presign(number: int)
    | PutPart(number: int, etag: string)
    | ExpireSession
    | BeginComplete(request: nat)
    | ListPage(request: nat, page: seq<Part>, truncated: bool)
    | Assemble(request: nat)

  ghost predicate Possible(u: Upload, e: UploadEvent, count: int) {
    match e
    case Presign(n) => u.session && 1 <= n <= count
    case PutPart(n, _) => n in u.presigned && u.assembled.None?
    case ExpireSession => true
    case BeginComplete(h) => u.session
    case ListPage(h, page, truncated) =>
      && h in u.requests && u.requests[h].Listing? && u.assembled.None?
      && IsPartPage(page, u.parts, Marker(u.requests[h].list), truncated)
    case Assemble(h) =>
      && h in u.requests && u.requests[h].Listed? && u.assembled.None?
      && Int32(|u.requests[h].list|) == count
      && Current(u.parts, u.requests[h].list)
  }

  function Next(u: Upload, e: UploadEvent, file: seq<Byte>): Upload {
    match e
    case Presign(n) => u.(presigned := u.presigned + {n})
    case PutPart(n, etag) => if n >= 1 then u.(parts := u.parts[n := StoredPart(etag, Slice(file, n))]) else u
    case ExpireSession => u.(session := false)
    case BeginComplete(h) => u.(requests := u.requests[h := Listing([])])
    case ListPage(h, page, truncated) =>
      if h in u.requests then
        var list := u.requests[h].list + page;
        u.(requests := u.requests[h := if truncated then Listing(list) else Listed(list)])
      else u
    case Assemble(h) =>
      if h in u.requests then u.(assembled := Some(Assembled(u.parts, u.requests[h].list))) else u
  }

  ghost predicate IsUploadRun(es: seq<UploadEvent>, file: seq<Byte>, count: int) {
    es == [] || (IsUploadRun(es[..|es| - 1], file, count) &&
                 Possible(After(es[..|es| - 1], file), es[|es| - 1], count))
  }

  function After(es: seq<UploadEvent>, file: seq<Byte>): Upload {
    if es == [] then CREATED else Next(After(es[..|es| - 1], file), es[|es| - 1], file)
  }

  /** Every list a request holds is sorted and names parts that have arrived. */
  ghost predicate GoodList(u: Upload, list: seq<Part>) {
    Sorted(list) && forall i :: 0 <= i < |list| ==> list[i].number in u.parts
  }

  ghost predicate UploadInv(u: Upload, file: seq<Byte>, count: int) {
    && (forall n :: n in u.presigned ==> 1 <= n <= count)
    && (forall n :: n in u.parts ==> 1 <= n <= count && u.parts[n].data == Slice(file, n))
    && (forall h :: h in u.requests ==> GoodList(u, u.requests[h].list))
    && (u.assembled.Some? ==> count > 0 && u.assembled.value == Joined(file, count))
  }

  /** A sorted list within 1..count has at most count entries, so its length survives int32. */
  lemma ListFits(list: seq<Part>, count: int)
    requires Sorted(list) && count <= MAX_INT32
    requires forall i :: 0 <= i < |list| ==> 1 <= list[i].number <= count
    ensures |list| <= MAX_INT32 && (list != [] ==> |list| <= count)
  {
    var numbers := seq(|list|, i requires 0 <= i < |list| => list[i].number);
    if list != [] {
      RankBounds(numbers, count, |list| - 1);
    }
  }

  /** Pigeonhole: `count` sorted entries with numbers in 1..count are exactly 1, 2, ..., count. */
  lemma FullListIsEverything(list: seq<Part>, count: int)
    requires Sorted(list) && |list| == count
    requires forall i :: 0 <= i < |list| ==> 1 <= list[i].number <= count
    ensures forall i :: 0 <= i < |list| ==> list[i].number == i + 1
  {
    var numbers := seq(|list|, i requires 0 <= i < |list| => list[i].number);
    forall i | 0 <= i < |list|
      ensures list[i].number == i + 1
    {
      RankBounds(numbers, count, i);
    }
  }

  lemma OneMorePart(parts: map<int, StoredPart>, list: seq<Part>, file: seq<Byte>, n: nat)
    requires 0 < n <= |list| && list[n - 1].number == n && n in parts && parts[n].data == Slice(file, n)
    requires AssembledFrom(parts, list, n - 1) == Joined(file, n - 1)
    ensures AssembledFrom(parts, list, n) == Joined(file, n)
  {
  }

  lemma {:induction false} AssembledIsJoined(parts: map<int, StoredPart>, list: seq<Part>, file: seq<Byte>, n: nat)
    requires n <= |list| && forall i :: 0 <= i < |list| ==> list[i].number == i + 1 && list[i].number in parts
    requires forall m :: m in parts ==> m >= 1 && parts[m].data == Slice(file, m)
    ensures AssembledFrom(parts, list, n) == Joined(file, n)
  {
    if n > 0 {
      AssembledIsJoined(parts, list, file, n - 1);
      OneMorePart(parts, list, file, n);
    }
  }

  /** Sorted, with numbers in 1..count only. */
  ghost predicate InRange(list: seq<Part>, count: int) {
    Sorted(list) && forall i :: 0 <= i < |list| ==> 1 <= list[i].number <= count
  }

  /** A listed number with `below` listed numbers before it stands at position `below`. */
  lemma RankOf(list: seq<Part>, n: int, below: nat)
    requires Sorted(list) && Lists(list, n)
    requires forall j :: 0 <= j < |list| ==> (j < below <==> list[j].number < n)
    ensures below < |list| && list[below].number == n
    ensures forall j :: 0 <= j < |list| ==> (j < below + 1 <==> list[j].number < n + 1)
  {
    var j :| 0 <= j < |list| && list[j].number == n;
    assert !(j < below);
    assert list[below].number <= list[j].number;
  }

  /** The listed numbers up to n, if all of 1..n are listed, are the first n entries. */
  lemma {:induction false} ListedFirst(list: seq<Part>, count: int, n: nat)
    requires InRange(list, count) && forall m :: 1 <= m <= n ==> Lists(list, m)
    ensures n <= |list| && (n > 0 ==> list[n - 1].number == n)
  {
    if n > 0 {
      ListedFirst(list, count, n - 1);
      RankOf(list, n, n - 1);
    }
  }

  /** A sorted list within 1..count has count entries exactly when it misses none. */
  lemma CountDecides(list: seq<Part>, count: nat)
    requires InRange(list, count) && count <= MAX_INT32
    ensures |list| == count <==> forall n :: 1 <= n <= count ==> Lists(list, n)
  {
    if |list| == count {
      FullListIsEverything(list, count);
      forall n | 1 <= n <= count
        ensures Lists(list, n)
      {
        assert list[n - 1].number == n;
      }
    } else if forall n :: 1 <= n <= count ==> Lists(list, n) {
      ListedFirst(list, count, count);
      ListFits(list, count);
    }
  }

  lemma PageExtends(u: Upload, list: seq<Part>, page: seq<Part>, truncated: bool)
    requires GoodList(u, list) && IsPartPage(page, u.parts, Marker(list), truncated)
    ensures GoodList(u, list + page)
  {
  }

  lemma UploadStep(u: Upload, e: UploadEvent, file: seq<Byte>, count: int)
    requires UploadInv(u, file, count) && Possible(u, e, count) && 0 != count <= MAX_INT32
    ensures UploadInv(Next(u, e, file), file, count)
  {
    if e.ListPage? {
      PageExtends(u, u.requests[e.request].list, e.page, e.truncated);
    } else if e.Assemble? {
      var list := u.requests[e.request].list;
      ListFits(list, count);
      FullListIsEverything(list, count);
      AssembledIsJoined(u.parts, list, file, |list|);
    }
  }

  lemma {:induction false} UploadAlways(es: seq<UploadEvent>, file: seq<Byte>, count: int)
    requires IsUploadRun(es, file, count) && 0 != count <= MAX_INT32
    ensures UploadInv(After(es, file), file, count)
  {
    if es != [] {
      UploadAlways(es[..|es| - 1], file, count);
      UploadStep(After(es[..|es| - 1], file), es[|es| - 1], file, count);
    }
  }

  /** Once its session has expired, an upload gets no new URLs and no new completion request. */
  lemma {:induction false} ExpiryCloses(es: seq<UploadEvent>, file: seq<Byte>, count: int, i: nat, j: nat)
    requires IsUploadRun(es, file, count) && i < j < |es| && es[i].ExpireSession?
    ensures !es[j].Presign? && !es[j].BeginComplete?
  {
    var n := |es| - 1;
    if j < n {
      ExpiryCloses(es[..n], file, count, i, j);
    } else {
      StaysExpired(es[..n], file, count, i);
    }
  }

  lemma {:induction false} StaysExpired(es: seq<UploadEvent>, file: seq<Byte>, count: int, i: nat)
    requires IsUploadRun(es, file, count) && i < |es| && es[i].ExpireSession?
    ensures !After(es, file).session
  {
    var n := |es| - 1;
    if i < n {
      StaysExpired(es[..n], file, count, i);
    }
  }

  /**
    In every reachable state, counting a finished listing, as completion does, is the
    same as checking that no part of 1..count is missing from it.
   */
  lemma CountCheckIsExact(es: seq<UploadEvent>, file: seq<Byte>, count: nat, h: nat)
    requires IsUploadRun(es, file, count) && 0 < count <= MAX_INT32
    requires h in After(es, file).requests
    ensures var list := After(es, file).requests[h].list;
            InRange(list, count) && (Int32(|list|) == count <==> forall n :: 1 <= n <= count ==> Lists(list, n))
  {
    UploadAlways(es, file, count);
    var list := After(es, file).requests[h].list;
    ListFits(list, count);
    CountDecides(list, count);
  }

  /**
    End to end: over every run of part uploads, repetitions, interruptions, session
    expiry and competing completion requests, an object that storage assembled is
    the first PartCount slices of the client's file. That is the file itself, byte
    for byte, if and only if the file has at most MAX_SIZE bytes.
   */
  lemma UploadIsCorrect(es: seq<UploadEvent>, file: seq<Byte>)
    requires 0 < |file| <= MAX_INT64 && IsUploadRun(es, file, PartCount(|file|))
    requires After(es, file).assembled.Some?
    ensures var count, bytes := PartCount(|file|), After(es, file).assembled.value;
            && count > 0 && bytes == file[..Covered(|file|, count)]
            && (bytes == file <==> |file| <= MAX_SIZE)
  {
    var count := PartCount(|file|);
    PartCountExact(|file|);
    UploadAlways(es, file, count);
    JoinedIsPrefix(file, count);
    JoinedIsFile(file, count);
  }

  lemma ExtendUpload(es: seq<UploadEvent>, e: UploadEvent, file: seq<Byte>, count: int)
    returns (longer: seq<UploadEvent>)
    requires IsUploadRun(es, file, count) && Possible(After(es, file), e, count)
    ensures IsUploadRun(longer, file, count) && After(longer, file) == Next(After(es, file), e, file)
  {
    longer := es + [e];
    assert longer[..|longer| - 1] == es;
  }

  /** The first part is presigned, put and listed. */
  lemma FirstSliceIsListed(file: seq<Byte>, part: Part) returns (es: seq<UploadEvent>)
    requires part == Part(1, "", |Slice(file, 1)|)
    ensures IsUploadRun(es, file, 1)
    ensures var u := After(es, file);
            && u.parts == map[1 := StoredPart("", Slice(file, 1))]
            && u.requests == map[0 := Listed([part])] && u.assembled.None?
  {
    es := ExtendUpload([], Presign(1), file, 1);
    es := ExtendUpload(es, PutPart(1, ""), file, 1);
    es := ExtendUpload(es, BeginComplete(0), file, 1);
    assert [part][0].number == 1;
    assert [] + [part] == [part];
    es := ExtendUpload(es, ListPage(0, [part], false), file, 1);
  }

  lemma OneEntryAssembles(parts: map<int, StoredPart>, part: Part)
    requires part.number in parts
    ensures Assembled(parts, [part]) == parts[part.number].data
  {
    assert AssembledFrom(parts, [part], 0) == [];
    assert [] + parts[part.number].data == parts[part.number].data;
  }

  /**
    A run that loses data without any fault: a file for which a part count of one is
    computed is accepted after its first slice, however long it is. PartCountCanWrap
    names such a length above MAX_SIZE.
   */
  lemma FirstSliceIsAccepted(file: seq<Byte>) returns (es: seq<UploadEvent>)
    requires 0 < |file| <= MAX_INT64 && PartCount(|file|) == 1
    ensures IsUploadRun(es, file, 1) && After(es, file).assembled == Some(Slice(file, 1))
  {
    var part := Part(1, "", |Slice(file, 1)|);
    es := FirstSliceIsListed(file, part);
    OneEntryAssembles(After(es, file).parts, part);
    es := ExtendUpload(es, Assemble(0), file, 1);
  }

  /** Such a file exists, so UploadIsCorrect cannot hold without its size condition. */
  lemma UploadCanLoseData() returns (file: seq<Byte>, es: seq<UploadEvent>)
    ensures 0 < |file| <= MAX_INT64 && IsUploadRun(es, file, PartCount(|file|))
    ensures After(es, file).assembled.Some? && After(es, file).assembled.value != file
  {
    PartCountCanWrap();
    var size := DEFAULT_PART_SIZE * 0x1_0000_0000 + 1;
    file := seq(size, i => 0);
    es := FirstSliceIsAccepted(file);
    UploadIsCorrect(es, file);
  }
}
