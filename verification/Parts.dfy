/**
  Part arithmetic: how the service counts the parts of a file with machine
  integers, how the client slices the file, and what a list of that many distinct
  part numbers must be.
 */
module Parts {

  newtype Byte = x: int | 0 <= x < 256

  const MIN_PART_SIZE: int := 5 * 1024 * 1024
  const DEFAULT_PART_SIZE: int := 8 * 1024 * 1024

  const MAX_INT32: int := 0x7FFF_FFFF
  const MAX_INT64: int := 0x7FFF_FFFF_FFFF_FFFF

  /** The conversion of x to int32, which keeps its low 32 bits. */
  function Int32(x: int): (y: int)
    ensures -MAX_INT32 - 1 <= y <= MAX_INT32
    ensures -MAX_INT32 - 1 <= x <= MAX_INT32 ==> y == x
  {
    (x + MAX_INT32 + 1) % 0x1_0000_0000 - MAX_INT32 - 1
  }

  /** The result of an int64 operation whose exact value is x. */
  function Int64(x: int): (y: int)
    ensures -MAX_INT64 - 1 <= y <= MAX_INT64
    ensures -MAX_INT64 - 1 <= x <= MAX_INT64 ==> y == x
  {
    (x + MAX_INT64 + 1) % 0x1_0000_0000_0000_0000 - MAX_INT64 - 1
  }

  /** Division that truncates toward zero. */
  function Quotient(x: int, y: int): int
    requires y > 0
  {
    if x >= 0 then x / y else -(-x / y)
  }

  /** The number of parts of partSize bytes that hold size bytes. */
  function Ceiling(size: int): int {
    (size + DEFAULT_PART_SIZE - 1) / DEFAULT_PART_SIZE
  }

  /** The part count the service computes, in int64 and then int32. */
  function PartCount(size: int): (count: int)
    requires 0 < size <= MAX_INT64
    ensures -MAX_INT32 - 1 <= count <= MAX_INT32
  {
    var count := Int32(Quotient(Int64(size + DEFAULT_PART_SIZE - 1), DEFAULT_PART_SIZE));
    if count == 0 then 1 else count
  }

  /** The largest size whose parts int32 can count. */
  const MAX_SIZE: int := DEFAULT_PART_SIZE * MAX_INT32

  /** Up to MAX_SIZE bytes there are at most MAX_INT32 parts, beyond it more. */
  lemma CeilingFits(size: int)
    requires size > 0
    ensures 1 <= Ceiling(size)
    ensures Ceiling(size) <= MAX_INT32 <==> size <= MAX_SIZE
  {
    var rounded := size + DEFAULT_PART_SIZE - 1;
    assert rounded == DEFAULT_PART_SIZE * Ceiling(size) + rounded % DEFAULT_PART_SIZE;
  }

  /** Within that size nothing wraps: neither the addition in int64 nor the conversion to int32. */
  lemma NothingWraps(size: int)
    requires 0 < size <= MAX_SIZE
    ensures PartCount(size) == Ceiling(size)
  {
    CeilingFits(size);
    assert Int64(size + DEFAULT_PART_SIZE - 1) == size + DEFAULT_PART_SIZE - 1;
    assert Int32(Ceiling(size)) == Ceiling(size);
  }

  /**
    The computed count is right exactly up to MAX_SIZE bytes. Beyond that the
    conversion to int32, or the addition in int64, wraps, and the count is too small.
   */
  lemma PartCountExact(size: int)
    requires 0 < size <= MAX_INT64
    ensures PartCount(size) == Ceiling(size) <==> size <= MAX_SIZE
    ensures PartCount(size) <= Ceiling(size)
    ensures PartCount(size) != 0
  {
    CeilingFits(size);
    if size <= MAX_SIZE {
      NothingWraps(size);
    } else {
      assert PartCount(size) <= MAX_INT32 < Ceiling(size);
    }
  }

  /** A file large enough that a part count of one is computed for 2^32 + 1 parts. */
  lemma PartCountCanWrap()
    ensures var size := DEFAULT_PART_SIZE * 0x1_0000_0000 + 1; PartCount(size) == 1 && Ceiling(size) == 0x1_0000_0001
  {
  }

  /** The value of an int32 loop variable that starts at 1, after i increments. */
  function LoopVariable(i: nat): int {
    Int32(1 + i)
  }

  /** A loop up to an int32 count ends for every count but the largest, where the variable wraps instead. */
  lemma LoopEnds(count: int)
    requires -MAX_INT32 - 1 <= count <= MAX_INT32
    ensures (exists i: nat :: LoopVariable(i) > count) <==> count < MAX_INT32
  {
    if count < MAX_INT32 {
      assert LoopVariable(if count < 0 then 0 else count) > count;
    }
  }

  /** The count is the largest int32 exactly when the true number of parts is, modulo 2^32. */
  lemma LargestCount(size: int)
    requires 0 < size <= MAX_INT64
    ensures PartCount(size) == MAX_INT32 <==> Ceiling(size) % 0x1_0000_0000 == MAX_INT32
  {
    var sum := size + DEFAULT_PART_SIZE - 1;
    if sum <= MAX_INT64 {
      assert Quotient(Int64(sum), DEFAULT_PART_SIZE) == Ceiling(size);
      Int32Residue(Ceiling(size));
    } else {
      WrappedSum(size);
    }
  }

  lemma Int32Residue(x: int)
    requires x >= 0
    ensures Int32(x) == MAX_INT32 <==> x % 0x1_0000_0000 == MAX_INT32
  {
    var q, r := x / 0x1_0000_0000, x % 0x1_0000_0000;
    assert x == 0x1_0000_0000 * q + r;
    assert x + MAX_INT32 + 1 == 0x1_0000_0000 * q + (r + MAX_INT32 + 1);
  }

  /** Where the sum wraps in int64, the count is 1 and the true number of parts is 2^40. */
  lemma WrappedSum(size: int)
    requires size <= MAX_INT64 < size + DEFAULT_PART_SIZE - 1
    ensures PartCount(size) == 1 && Ceiling(size) == 0x100_0000_0000
  {
    var sum := size + DEFAULT_PART_SIZE - 1;
    assert Int64(sum) == sum - 0x1_0000_0000_0000_0000;
  }

  /**
    A status request for an upload of this size answers if and only if the true number
    of parts is not 2^31 - 1 modulo 2^32. Among the sizes that are counted right, those
    of the last part_size bytes fail: MAX_SIZE itself, for one.
   */
  lemma StatusAnswers(size: int)
    requires 0 < size <= MAX_INT64
    ensures (exists i: nat :: LoopVariable(i) > PartCount(size)) <==> Ceiling(size) % 0x1_0000_0000 != MAX_INT32
    ensures MAX_SIZE == 18_014_398_501_093_376
    ensures size <= MAX_SIZE ==>
              ((exists i: nat :: LoopVariable(i) > PartCount(size)) <==> size <= MAX_SIZE - DEFAULT_PART_SIZE)
  {
    LoopEnds(PartCount(size));
    LargestCount(size);
    if size <= MAX_SIZE {
      NothingWraps(size);
      assert Ceiling(size) == MAX_INT32 <==> size > MAX_SIZE - DEFAULT_PART_SIZE;
    }
  }

  function SliceStart(n: int): int {
    (n - 1) * DEFAULT_PART_SIZE
  }

  function SliceEnd(n: int, size: int): int {
    var end := SliceStart(n) + DEFAULT_PART_SIZE;
    if end < size then end else size
  }

  /** The client's slice for part n; bounds past the end of the file are clamped. */
  function Slice(file: seq<Byte>, n: int): seq<Byte>
    requires n >= 1
  {
    var size := |file|;
    if SliceStart(n) <= size then file[SliceStart(n)..SliceEnd(n, size)] else []
  }

  /**
    The slices 1..Ceiling(size) are adjacent, start at 0 and end at size; all but the
    last are full, hence at least the storage minimum, and the last is not empty.
   */
  lemma SlicePartition(size: int, n: int)
    requires 0 < size && 1 <= n <= Ceiling(size)
    ensures SliceStart(1) == 0 && SliceEnd(Ceiling(size), size) == size
    ensures n < Ceiling(size) ==> SliceEnd(n, size) == SliceStart(n + 1)
    ensures n < Ceiling(size) ==> SliceEnd(n, size) - SliceStart(n) == DEFAULT_PART_SIZE >= MIN_PART_SIZE
    ensures n == Ceiling(size) ==> 1 <= SliceEnd(n, size) - SliceStart(n) <= DEFAULT_PART_SIZE
  {
  }

  /** Every byte of the file lies in exactly one of the slices 1..Ceiling(size). */
  lemma ByteInOneSlice(size: int, b: int) returns (n: int)
    requires 0 <= b < size
    ensures 1 <= n <= Ceiling(size) && SliceStart(n) <= b < SliceEnd(n, size)
    ensures forall m :: 1 <= m <= Ceiling(size) && SliceStart(m) <= b < SliceEnd(m, size) ==> m == n
  {
    n := b / DEFAULT_PART_SIZE + 1;
  }

  /** The slices 1..count, one after another. */
  function Joined(file: seq<Byte>, count: nat): seq<Byte> {
    if count == 0 then [] else Joined(file, count - 1) + Slice(file, count)
  }

  function Covered(size: nat, count: nat): nat {
    if count * DEFAULT_PART_SIZE < size then count * DEFAULT_PART_SIZE else size
  }

  /** The first `count` slices are the first count * DEFAULT_PART_SIZE bytes, or the whole file. */
  lemma {:induction false} JoinedIsPrefix(file: seq<Byte>, count: nat)
    ensures Joined(file, count) == file[..Covered(|file|, count)]
  {
    if count > 0 {
      JoinedIsPrefix(file, count - 1);
      assert SliceStart(count) == (count - 1) * DEFAULT_PART_SIZE;
    }
  }

  lemma JoinedIsWhole(file: seq<Byte>, count: nat)
    requires file != [] && count <= Ceiling(|file|)
    ensures Joined(file, count) == file <==> count == Ceiling(|file|)
  {
    JoinedIsPrefix(file, count);
    assert file[..|file|] == file;
    assert count < Ceiling(|file|) ==> count * DEFAULT_PART_SIZE < |file|;
  }

  /** What the service's count of slices amounts to: the file itself exactly up to MAX_SIZE bytes. */
  lemma JoinedIsFile(file: seq<Byte>, count: nat)
    requires 0 < |file| <= MAX_INT64 && count == PartCount(|file|)
    ensures Joined(file, count) == file <==> |file| <= MAX_SIZE
  {
    PartCountExact(|file|);
    JoinedIsWhole(file, count);
  }

  ghost predicate Ascending(numbers: seq<int>) {
    forall i, j :: 0 <= i < j < |numbers| ==> numbers[i] < numbers[j]
  }

  /** Ascending numbers within 1..count are at least their rank, and at most count less what follows. */
  lemma {:induction false} RankBounds(numbers: seq<int>, count: int, i: nat)
    requires Ascending(numbers) && i < |numbers|
    requires forall j :: 0 <= j < |numbers| ==> 1 <= numbers[j] <= count
    ensures i + 1 <= numbers[i] <= count - (|numbers| - 1 - i)
    decreases |numbers|
  {
    if i > 0 {
      RankBounds(numbers[..|numbers| - 1], count - 1, i - 1) by {
        assert numbers[|numbers| - 1] <= count;
      }
      assert numbers[i - 1] < numbers[i];
    }
    if i < |numbers| - 1 {
      RankBounds(numbers[..|numbers| - 1], count - 1, i) by {
        assert numbers[|numbers| - 1] <= count;
      }
    }
  }
}
