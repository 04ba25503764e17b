/**
  The vocabulary shared by every component: job types, job states, video ids and
  how requests may spell them, messages, and the reply of a database call.
 */
module Models {

  datatype Option<+T> = None | Some(value: T)

  datatype JobType = HLS | Thumbnail | Caption

  datatype Status = Pending | Processing | Completed | Failed

  predicate IsHex(c: char) {
    '0' <= c <= '9' || 'a' <= c <= 'f' || 'A' <= c <= 'F'
  }

  function LowerCase(c: char): char {
    if 'A' <= c <= 'F' then c - 'A' + 'a' else c
  }

  predicate AreDigits(s: string) {
    forall i :: 0 <= i < |s| ==> IsHex(s[i]) && LowerCase(s[i]) == s[i]
  }

  type UuidDigits = s: string | |s| == 32 && AreDigits(s)
    witness seq(32, i => '0')

  /** A video id is a UUID: its 32 hexadecimal digits, however they are spelled in text. */
  datatype VideoId = VideoId(digits: UuidDigits)

  /** The n digits that make up src, in lower case; a '-' may follow every fourth but the last. */
  function ReadDigits(src: string, n: nat): (digits: Option<string>)
    ensures digits.Some? ==> |digits.value| == n && AreDigits(digits.value) && '/' !in src
  {
    if n == 0 then
      if src == "" then Some("") else None
    else if src == "" || !IsHex(src[0]) then None
    else
      var dash := n % 4 == 1 && n > 1 && |src| > 1 && src[1] == '-';
      match ReadDigits(src[if dash then 2 else 1..], n - 1)
      case None => None
      case Some(rest) => Some([LowerCase(src[0])] + rest)
  }

  /** The id that the database reads from a string, possibly in braces. */
  function ReadUuid(src: string): (id: Option<VideoId>)
    ensures id.Some? ==> '/' !in src
  {
    var braces := |src| >= 2 && src[0] == '{' && src[|src| - 1] == '}';
    match ReadDigits(if braces then src[1..|src| - 1] else src, 32)
    case None => None
    case Some(digits) => Some(VideoId(digits))
  }

  predicate Names(spelling: string, id: VideoId) {
    ReadUuid(spelling) == Some(id)
  }

  /** The last digits of a UUID, with a '-' before the last 24, 20, 16 and 12. */
  function Hyphenated(digits: string): string {
    if digits == "" then ""
    else
      var n := |digits| - 1;
      [digits[0]] + (if n == 24 || n == 20 || n == 16 || n == 12 then "-" else "") + Hyphenated(digits[1..])
  }

  /** The canonical spelling, which the upload service gives to a new id. */
  function Canonical(id: VideoId): string {
    Hyphenated(id.digits)
  }

  lemma {:induction false} HyphenatedReads(digits: string)
    requires AreDigits(digits)
    ensures ReadDigits(Hyphenated(digits), |digits|) == Some(digits)
    ensures digits != "" ==> Hyphenated(digits) != "" && Hyphenated(digits)[0] == digits[0]
  {
    if digits != "" {
      var text, rest, n := Hyphenated(digits), digits[1..], |digits| - 1;
      HyphenatedReads(rest);
      assert digits == [digits[0]] + rest;
      if n == 24 || n == 20 || n == 16 || n == 12 {
        assert text == [digits[0], '-'] + Hyphenated(rest);
        assert text[1] == '-' && text[2..] == Hyphenated(rest);
        assert ReadDigits(text[2..], n) == Some(rest);
      } else {
        assert text == [digits[0]] + Hyphenated(rest);
        assert text[1..] == Hyphenated(rest);
        assert n > 0 ==> text[1] == rest[0] != '-';
      }
    }
  }

  function UpperCase(s: string): (upper: string)
    ensures |upper| == |s|
    ensures forall i :: 0 <= i < |s| ==> upper[i] == if 'a' <= s[i] <= 'f' then s[i] - 'a' + 'A' else s[i]
  {
    seq(|s|, i requires 0 <= i < |s| => if 'a' <= s[i] <= 'f' then s[i] - 'a' + 'A' else s[i])
  }

  lemma {:induction false} DigitsInAnyCase(src: string, upper: string, n: nat)
    requires upper == UpperCase(src)
    ensures ReadDigits(upper, n) == ReadDigits(src, n)
    decreases n
  {
    if n > 0 && src != "" && IsHex(src[0]) {
      assert IsHex(upper[0]) && LowerCase(upper[0]) == LowerCase(src[0]);
      var skip := if n % 4 == 1 && n > 1 && |src| > 1 && src[1] == '-' then 2 else 1;
      DigitsInAnyCase(src[skip..], upper[skip..], n - 1);
    }
  }

  lemma {:induction false} BareDigits(digits: string)
    requires AreDigits(digits)
    ensures ReadDigits(digits, |digits|) == Some(digits)
  {
    if digits != "" {
      BareDigits(digits[1..]);
      assert digits == [digits[0]] + digits[1..];
    }
  }

  lemma SpelledInUpperCase(spelling: string, id: VideoId)
    requires Names(spelling, id)
    ensures Names(UpperCase(spelling), id)
  {
    var upper := UpperCase(spelling);
    if |spelling| >= 2 && spelling[0] == '{' && spelling[|spelling| - 1] == '}' {
      DigitsInAnyCase(spelling[1..|spelling| - 1], upper[1..|upper| - 1], 32);
    } else {
      DigitsInAnyCase(spelling, upper, 32);
    }
  }

  lemma SpelledInBraces(spelling: string, id: VideoId)
    requires Names(spelling, id) && spelling != "" && spelling[0] != '{'
    ensures Names("{" + spelling + "}", id)
  {
    assert ("{" + spelling + "}")[1..|spelling| + 1] == spelling;
  }

  lemma SpelledBare(id: VideoId)
    ensures Names(id.digits, id)
  {
    BareDigits(id.digits);
    assert id.digits[0] != '{';
  }

  /** Besides the canonical one: letters of any case, no hyphens, and any of these in braces. */
  lemma OtherSpellings(spelling: string, id: VideoId)
    requires Names(spelling, id)
    ensures Names(UpperCase(spelling), id) && Names(id.digits, id)
    ensures spelling != "" && spelling[0] != '{' ==> Names("{" + spelling + "}", id)
  {
    SpelledInUpperCase(spelling, id);
    SpelledBare(id);
    if spelling != "" && spelling[0] != '{' {
      SpelledInBraces(spelling, id);
    }
  }

  /** Eight, four, four, four and twelve digits. */
  lemma CanonicalShape(id: VideoId)
    ensures var d := id.digits;
            Canonical(id) == d[..8] + ("-" + (d[8..12] + ("-" + (d[12..16] + ("-" + (d[16..20] + ("-" + d[20..])))))))
  {
    var d := id.digits;
    GroupFirst(d, 8);
    assert d[8..][..4] == d[8..12] && d[8..][4..] == d[12..];
    GroupFirst(d[8..], 4);
    assert d[12..][..4] == d[12..16] && d[12..][4..] == d[16..];
    GroupFirst(d[12..], 4);
    assert d[16..][..4] == d[16..20] && d[16..][4..] == d[20..];
    GroupFirst(d[16..], 4);
    NoHyphen(d[20..]);
  }

  /** The first n digits and the '-' after them, when 24, 20, 16 or 12 digits follow. */
  lemma {:induction false} GroupFirst(digits: string, n: nat)
    requires 1 <= n <= |digits|
    requires var rest := |digits| - n; rest == 24 || ((rest == 20 || rest == 16 || rest == 12) && n <= 4)
    ensures Hyphenated(digits) == digits[..n] + ("-" + Hyphenated(digits[n..]))
    decreases n
  {
    if n > 1 {
      var rest := digits[1..];
      GroupFirst(rest, n - 1);
      assert rest[n - 1..] == digits[n..];
      assert digits[..n] == [digits[0]] + rest[..n - 1];
    }
  }

  lemma {:induction false} NoHyphen(digits: string)
    requires |digits| <= 12
    ensures Hyphenated(digits) == digits
  {
    if digits != "" {
      NoHyphen(digits[1..]);
      assert digits == [digits[0]] + digits[1..];
    }
  }

  /** The database reads the canonical spelling of an id as that id. */
  lemma CanonicalNames(id: VideoId)
    ensures Names(Canonical(id), id) && '/' !in Canonical(id)
  {
    HyphenatedReads(id.digits);
  }

  datatype JobKey = JobKey(video: VideoId, jobType: JobType)

  /**
    The body of a delivery: not JSON at all, or a VideoUploadedEvent. The event holds
    the id as its publisher spelled it; `video` is the row that the database finds for it.
   */
  datatype Message = Malformed | Uploaded(video: VideoId, spelling: string) {
    predicate About(v: VideoId) {
      Uploaded? && video == v
    }

    predicate WellSpelled() {
      Uploaded? ==> Names(spelling, video)
    }
  }

  /**
    What a caller learns from one database transaction. A connection that
    breaks around the commit reports an error whether or not the transaction
    was applied, so an error carries what really happened.
   */
  datatype Reply = Done | Error(applied: bool) {
    predicate Applied() {
      Done? || applied
    }
  }

  /**
    Whether one external call fails: always if it is down, otherwise only through a
    handle that is not reliable.
   */
  method Fails(reliable: bool, down: bool := false) returns (fault: bool)
    ensures down ==> fault
    ensures reliable && !down ==> !fault
  {
    fault := *;
    fault := down || (fault && !reliable);
  }

  function If<T>(applied: bool, after: T, before: T): T {
    if applied then after else before
  }

  /** The elements of a sequence. */
  function Range<T>(s: seq<T>): set<T> {
    set x | x in s
  }

  const JOB_TYPES: seq<JobType> := [HLS, Thumbnail, Caption]
}
