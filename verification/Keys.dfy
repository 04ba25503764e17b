/**
  Object-storage keys: which keys a video's upload and its workers can write,
  and which keys the prefix sweep of a deleted video removes.
 */
module Keys {
  import opened Models

  type Key = string

  /** The key the upload service gives to the raw file. */
  function RawKey(id: string): Key {
    "raw/" + id + ".mp4"
  }

  /** The raw file of a video, named when its id is made. */
  function RawFile(v: VideoId): Key {
    RawKey(Canonical(v))
  }

  /** The directory a worker of the given type writes below, without a final '/'. */
  function Directory(id: string, t: JobType): Key {
    match t
    case HLS => "renditions/" + id
    case Thumbnail => "thumbnails/" + id
    case Caption => "captions/" + id
  }

  /** The key of one artifact, `relative` being its path inside the output directory. */
  function ArtifactKey(id: string, t: JobType, relative: string): Key {
    Directory(id, t) + "/" + relative
  }

  /** k is a key that the upload of an id, or a worker whose message spells the id so, can write. */
  ghost predicate Owned(id: string, spelling: string, k: Key) {
    k == RawKey(id) || exists t, relative :: k == ArtifactKey(spelling, t, relative)
  }

  /** The artifacts whose names do not depend on the length of the video. */
  function RequiredNames(t: JobType): seq<string> {
    match t
    case HLS => ["master.m3u8", "1080p/index.m3u8", "720p/index.m3u8", "480p/index.m3u8"]
    case Thumbnail => ["thumb_0.jpg", "thumb_1.jpg", "thumb_2.jpg"]
    case Caption => ["captions.vtt"]
  }

  function RequiredArtifacts(id: string, t: JobType): set<Key> {
    set name | name in RequiredNames(t) :: ArtifactKey(id, t, name)
  }

  function StoragePrefixesForVideo(id: string): seq<Key> {
    ["raw/" + id, "renditions/" + id + "/", "thumbnails/" + id + "/", "captions/" + id + "/"]
  }

  /** The sweep of video id removes key k. */
  predicate Swept(id: string, k: Key) {
    exists i | 0 <= i < 4 :: StoragePrefixesForVideo(id)[i] <= k
  }

  /** Every key written for a video is removed by its own sweep. */
  lemma SweepCoversOwned(id: string, k: Key)
    requires Owned(id, id, k)
    ensures Swept(id, k)
  {
    var prefixes := StoragePrefixesForVideo(id);
    if k == RawKey(id) {
      assert prefixes[0] <= k;
    } else {
      var t, relative :| k == ArtifactKey(id, t, relative);
      match t
      case HLS => assert prefixes[1] <= k;
      case Thumbnail => assert prefixes[2] <= k;
      case Caption => assert prefixes[3] <= k;
    }
  }

  /** A directory prefix with its final '/' matches only the directory of the same id. */
  lemma DirectoryPrefix(root: string, id: string, other: string, relative: string)
    requires '/' !in id && '/' !in other
    requires root + id + "/" <= root + other + "/" + relative
    ensures id == other
  {
    var p, k := root + id + "/", root + other + "/" + relative;
    assert |id| < |other| ==> (other + "/" + relative)[|id|] == other[|id|];
    assert |other| < |id| ==> (id + "/")[|other|] == id[|other|];
    assert (id + "/")[|id|] == (other + "/" + relative)[|other|] == '/';
    forall i | 0 <= i <= |id|
      ensures (id + "/")[i] == (other + "/" + relative)[i]
    {
      assert p[|root| + i] == k[|root| + i];
    }
    forall i | 0 <= i < |id|
      ensures id[i] == other[i]
    {
      assert (id + "/")[i] == (other + "/" + relative)[i];
    }
  }

  /** The prefixes of different roots never match, by their first two characters. */
  lemma SweptArtifact(id: string, other: string, t: JobType, relative: string)
    requires '/' !in id && '/' !in other
    ensures Swept(id, ArtifactKey(other, t, relative)) <==> id == other
  {
    var k := ArtifactKey(other, t, relative);
    var prefixes := StoragePrefixesForVideo(id);
    if id == other {
      SweepCoversOwned(id, k);
    }
    if Swept(id, k) {
      var i :| 0 <= i < 4 && prefixes[i] <= k;
      assert prefixes[i][0] == k[0] && prefixes[i][1] == k[1];
      match t
      case HLS => DirectoryPrefix("renditions/", id, other, relative);
      case Thumbnail => DirectoryPrefix("thumbnails/", id, other, relative);
      case Caption => DirectoryPrefix("captions/", id, other, relative);
    }
  }

  /** "raw/<id>" has no terminator, so it also matches longer names that start with id. */
  lemma SweptRaw(id: string, other: string)
    ensures Swept(id, RawKey(other)) <==> id <= other + ".mp4"
  {
    var k := RawKey(other);
    var prefixes := StoragePrefixesForVideo(id);
    assert k == "raw/" + (other + ".mp4");
    if id <= other + ".mp4" {
      assert prefixes[0] <= k;
    }
    if Swept(id, k) {
      var i :| 0 <= i < 4 && prefixes[i] <= k;
      assert prefixes[i][0] == k[0] && prefixes[i][1] == k[1];
      assert i == 0;
      forall j | 0 <= j < |id|
        ensures id[j] == (other + ".mp4")[j]
      {
        assert prefixes[0][4 + j] == k[4 + j];
      }
    }
  }

  /**
    The sweep of one id reaches a key of another exactly when the first id is a
    prefix of the other's raw file name: the missing terminator after
    "raw/<id>" is the only leak, whatever the lengths of the ids.
   */
  lemma SweepReaches(id: string, other: string)
    requires '/' !in id && '/' !in other
    ensures (exists k :: Owned(other, other, k) && Swept(id, k)) <==> id <= other + ".mp4"
  {
    if id <= other + ".mp4" {
      SweptRaw(id, other);
      assert Owned(other, other, RawKey(other)) && Swept(id, RawKey(other));
    }
    if k :| Owned(other, other, k) && Swept(id, k) {
      if k == RawKey(other) {
        SweptRaw(id, other);
      } else {
        var t, relative :| k == ArtifactKey(other, t, relative);
        SweptArtifact(id, other, t, relative);
      }
    }
  }

  /** No accepted spelling of an id is an initial piece of another, even with an extension after it. */
  lemma {:induction false} DigitsAreWhole(a: string, b: string, tail: string, n: nat)
    requires ReadDigits(a, n).Some? && ReadDigits(b, n).Some?
    requires a <= b + tail
    ensures a == b
    decreases n
  {
    if n > 0 {
      var skip := if n % 4 == 1 && n > 1 && |a| > 1 && a[1] == '-' then 2 else 1;
      assert (b + tail)[0] == b[0];
      if n > 1 {
        assert |a| > 1 && |b| > 1;
        assert (b + tail)[1] == b[1];
      }
      assert (b + tail)[skip..] == b[skip..] + tail;
      DigitsAreWhole(a[skip..], b[skip..], tail, n - 1);
      assert a == a[..skip] + a[skip..] && b == b[..skip] + b[skip..];
    }
  }

  lemma SpellingIsWhole(spelling: string, v: VideoId)
    requires ReadUuid(spelling).Some? && spelling <= Canonical(v) + ".mp4"
    ensures spelling == Canonical(v)
  {
    HyphenatedReads(v.digits);
    assert Canonical(v)[0] == (Canonical(v) + ".mp4")[0];
    DigitsAreWhole(spelling, Canonical(v), ".mp4", 32);
  }

  /**
    Sweep isolation and coverage for video ids: a delete request removes the raw file
    exactly if it spells the id canonically, and a worker's artifacts exactly if it
    spells the id as the worker's message did. It never reaches another video.
   */
  lemma SweepIsExact(request: string, v: VideoId, spelling: string, k: Key)
    requires ReadUuid(request).Some? && Names(spelling, v) && Owned(Canonical(v), spelling, k)
    ensures Swept(request, k) <==> request == if k == RawFile(v) then Canonical(v) else spelling
    ensures Swept(request, k) ==> Names(request, v)
  {
    CanonicalNames(v);
    if k == RawFile(v) {
      SweptRaw(request, Canonical(v));
      if request <= Canonical(v) + ".mp4" {
        SpellingIsWhole(request, v);
      }
    } else {
      var t, relative :| k == ArtifactKey(spelling, t, relative);
      SweptArtifact(request, spelling, t, relative);
    }
  }

  /** A delete removes all that was written exactly if every request spelled the id canonically. */
  lemma SweepIsComplete(request: string, v: VideoId, spelling: string)
    requires ReadUuid(request).Some? && Names(spelling, v)
    ensures (forall k :: Owned(Canonical(v), spelling, k) ==> Swept(request, k)) <==>
            request == spelling == Canonical(v)
  {
    var raw, caption := RawFile(v), ArtifactKey(spelling, Caption, "captions.vtt");
    assert caption[0] != raw[0];
    assert Owned(Canonical(v), spelling, raw) && Owned(Canonical(v), spelling, caption);
    SweepIsExact(request, v, spelling, raw);
    SweepIsExact(request, v, spelling, caption);
    if request == spelling == Canonical(v) {
      forall k | Owned(Canonical(v), spelling, k)
        ensures Swept(request, k)
      {
        SweepCoversOwned(request, k);
      }
    }
  }

  lemma BelowDirectoryIsOwned(id: string, t: JobType, k: Key)
    requires Directory(id, t) + "/" <= k
    ensures exists relative :: k == ArtifactKey(id, t, relative)
  {
    assert k == ArtifactKey(id, t, k[|Directory(id, t) + "/"|..]);
  }

  lemma RequiredAreBelow(id: string, t: JobType, k: Key)
    requires k in RequiredArtifacts(id, t)
    ensures Directory(id, t) + "/" <= k
  {
  }
}
