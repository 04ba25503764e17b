/**
  A multipart upload inside storage and the paged listing of its parts, while other
  part uploads keep arriving between two pages.
 */
module UploadStorage {
  import opened Models
  import opened Parts
  import opened Multipart
  import opened Keys
  import opened Storage

  /** Calls on one upload that fail without effect whenever they are tried. */
  datatype Outage = Outage(listing: bool, completing: bool, presigning: set<int>, putting: set<int>) {
    /** Part n cannot be presigned, or not be put. */
    predicate Blocks(n: int) {
      n in presigning || n in putting
    }
  }

  class MultipartUpload {
    const reliable: bool       // no call fails while the upload is in use, but for the outage
    const outage: Outage
    const file: seq<Byte>      // what the client uploads
    const count: int           // the part count of its session
    var parts: map<int, StoredPart>
    var assembled: Option<seq<Byte>>

    constructor (file: seq<Byte>, count: int, reliable: bool, outage: Outage)
      requires -MAX_INT32 - 1 <= count <= MAX_INT32
      ensures Valid() && this.file == file && this.count == count
      ensures this.reliable == reliable && this.outage == outage
      ensures parts == map[] && assembled == None
    {
      this.file, this.count, this.reliable, this.outage := file, count, reliable, outage;
      parts, assembled := map[], None;
    }

    /** The count is an int32; only parts of its range arrive, each with its slice of the file. */
    ghost predicate Valid()
      reads this
    {
      -MAX_INT32 - 1 <= count <= MAX_INT32 &&
      forall n :: n in parts ==> 1 <= n <= count && parts[n].data == Slice(file, n)
    }

    /** Any number of part uploads and repetitions by other clients of the same session. */
    method Arrivals()
      requires Valid()
      modifies this`parts
      ensures Valid() && old(parts).Keys <= parts.Keys
    {
      var rounds :| 0 <= rounds;
      for i := 0 to rounds
        invariant Valid() && old(parts).Keys <= parts.Keys
      {
        var n: int := *;
        var etag: string := *;
        if 1 <= n <= count {
          parts := parts[n := StoredPart(etag, Slice(file, n))];
        }
      }
    }

    /** One page: the parts after the marker in order, cut off anywhere but before the first. */
    method ListPage(marker: int) returns (ok: bool, page: seq<Part>, truncated: bool)
      requires Valid()
      ensures ok ==> assembled.None? && IsPartPage(page, parts, marker, truncated)
      ensures reliable && !outage.listing && assembled.None? ==> ok
      ensures outage.listing ==> !ok
    {
      var fault := Fails(reliable, outage.listing);
      ok := !fault && assembled.None?;
      page, truncated := [], false;
      var start := if marker < 0 then 1 else marker + 1;
      for n := start to if start <= count then count + 1 else start
        invariant !truncated && ListsUpTo(page, parts, marker, n)
      {
        if n in parts {
          var full: bool := *;
          if full && page != [] {
            truncated := true;
            return;
          }
          page := AddEntry(page, parts, marker, n);
        }
      }
    }

    /** Exactly the parts after the marker and before n, in order. */
    static ghost predicate ListsUpTo(page: seq<Part>, parts: map<int, StoredPart>, marker: int, n: int) {
      && Sorted(page)
      && (forall i :: 0 <= i < |page| ==> marker < page[i].number < n && page[i].number in parts)
      && (forall i :: 0 <= i < |page| ==> page[i] == Entry(parts, page[i].number))
      && (forall m :: m in parts && marker < m < n ==> Lists(page, m))
    }

    /** Appending the entry of part n. */
    static method AddEntry(page: seq<Part>, parts: map<int, StoredPart>, ghost marker: int, n: int)
      returns (longer: seq<Part>)
      requires ListsUpTo(page, parts, marker, n) && n in parts && marker < n
      ensures longer == page + [Entry(parts, n)] && ListsUpTo(longer, parts, marker, n + 1)
    {
      longer := page + [Entry(parts, n)];
      forall m | m in parts && marker < m < n + 1
        ensures Lists(longer, m)
      {
        if m == n {
          assert longer[|page|].number == n;
        } else {
          var i :| 0 <= i < |page| && page[i].number == m;
          assert longer[i].number == m;
        }
      }
    }

    /** A list collected so far: sorted, of parts that arrived, and complete up to its last number for the old ones. */
    ghost predicate Collected(list: seq<Part>, initial: set<int>)
      reads this
    {
      && Sorted(list)
      && (forall i :: 0 <= i < |list| ==> 1 <= list[i].number && list[i].number in parts)
      && (forall n :: n in initial && n <= Marker(list) ==> Lists(list, n))
    }

    /** Every entry of the list is as the parts are now. */
    ghost predicate UpToDate(list: seq<Part>)
      reads this
    {
      forall i :: 0 <= i < |list| ==> list[i].number in parts && list[i] == Entry(parts, list[i].number)
    }

    /**
      The whole listing, page by page. Sorted, it names every part that was there at the
      start and only parts that are there at the end; without arrivals it is exact.
     */
    method ListParts(quiet: bool) returns (ok: bool, list: seq<Part>)
      requires Valid()
      modifies this`parts
      ensures Valid() && old(parts).Keys <= parts.Keys
      ensures quiet ==> parts == old(parts)
      ensures reliable && !outage.listing && assembled.None? ==> ok
      ensures outage.listing ==> !ok
      ensures ok ==> assembled.None? && Sorted(list)
      ensures ok ==> forall n :: n in old(parts) ==> Lists(list, n)
      ensures ok ==> forall i :: 0 <= i < |list| ==> list[i].number in parts
      ensures ok && quiet ==> UpToDate(list)
    {
      ghost var initial := parts.Keys;
      list := [];
      var marker := 0;
      while true
        invariant Valid() && initial <= parts.Keys && (quiet ==> parts == old(parts))
        invariant Collected(list, initial) && marker == Marker(list) && (quiet ==> UpToDate(list))
        decreases count - marker
      {
        var fetched, page, truncated := ListPage(marker);
        if !fetched {
          return false, [];
        }
        list := Concatenate(list, page, initial, truncated);
        if !truncated {
          return true, list;
        }
        marker := Marker(page);
        if !quiet {
          Arrivals();
        }
      }
    }

    /** Adds the next page to the list; a last page completes it. */
    method Concatenate(list: seq<Part>, page: seq<Part>, ghost initial: set<int>, ghost truncated: bool)
      returns (longer: seq<Part>)
      requires Valid() && Collected(list, initial) && initial <= parts.Keys
      requires IsPartPage(page, parts, Marker(list), truncated)
      ensures longer == list + page && Collected(longer, initial)
      ensures truncated ==> Marker(longer) == Marker(page) > Marker(list)
      ensures !truncated ==> forall n :: n in initial ==> Lists(longer, n)
      ensures UpToDate(list) ==> UpToDate(longer)
    {
      longer := list + page;
      forall n | n in initial && (truncated ==> n <= Marker(longer))
        ensures Lists(longer, n)
      {
        if n <= Marker(list) {
          var i :| 0 <= i < |list| && list[i].number == n;
          assert longer[i].number == n;
        } else {
          var i :| 0 <= i < |page| && page[i].number == n;
          assert longer[|list| + i].number == n;
        }
      }
    }

    /**
      Storage assembles the listed parts into one object under the key, unless a part is
      missing, its entity tag is stale, or the upload has been completed before.
     */
    method Complete(list: seq<Part>, store: ObjectStore, key: Key) returns (ok: bool)
      modifies this`assembled, store
      ensures (assembled == old(assembled) && store.keys == old(store.keys)) ||
              (old(assembled) == None && Current(parts, list) && assembled == Some(Assembled(parts, list)) &&
               store.keys == old(store.keys) + {key})
      ensures ok ==> old(assembled) == None && assembled.Some?
      ensures reliable && !outage.completing && old(assembled) == None && Current(parts, list) ==> ok
      ensures outage.completing ==> !ok && assembled == old(assembled) && store.keys == old(store.keys)
    {
      if assembled.Some? ||
         exists i :: 0 <= i < |list| && !(list[i].number in parts && parts[list[i].number].etag == list[i].etag)
      {
        return false;
      }
      var notApplied := Fails(reliable, outage.completing);
      if notApplied {
        return false;
      }
      assembled := Some(Assembled(parts, list));
      store.keys := store.keys + {key};
      var replyLost := Fails(reliable);
      ok := !replyLost;
    }
  }
}
