/**
  The WebVTT timestamp printer, and the "collect a WebVTT timestamp" algorithm of
  the W3C WebVTT recommendation (section 6.3) as its reader.
 */
module Vtt {
  import opened Models
  import opened Floats

  predicate IsDigit(c: char) {
    '0' <= c <= '9'
  }

  function Digit(n: nat): char
    requires n < 10
  {
    '0' + n as char
  }

  function DigitValue(c: char): nat
    requires IsDigit(c)
  {
    c as nat - '0' as nat
  }

  /** The decimal digits of n, without leading zeros. */
  function Decimal(n: nat): string {
    if n < 10 then [Digit(n)] else Decimal(n / 10) + [Digit(n % 10)]
  }

  function Zeros(count: nat): string {
    seq(count, i => '0')
  }

  /** n in decimal with zeros in front up to the given width; longer numbers keep all their digits. */
  function Padded(n: nat, width: nat): string {
    var digits := Decimal(n);
    if |digits| < width then Zeros(width - |digits|) + digits else digits
  }

  /** The time that is printed: negative times count as zero. */
  function Clamped(seconds: real): (time: real)
    ensures time >= 0.0
  {
    if seconds < 0.0 then 0.0 else seconds
  }

  /** What is left of a time above its whole seconds, in milliseconds, before any rounding. */
  function ExactMs(seconds: real): (ms: real)
    ensures 0.0 <= ms < 1000.0
  {
    (Clamped(seconds) - Clamped(seconds).Floor as real) * 1000.0
  }

  /** The printer. `product` is what the machine's multiplication makes of ExactMs(seconds). */
  function FormatVTTTimestamp(seconds: real, product: real): string
    requires product >= 0.0
  {
    ClockOf(Clamped(seconds).Floor, product.Floor)
  }

  function ClockOf(whole: nat, ms: nat): string {
    Clock(whole / 3600, whole % 3600 / 60, whole % 60, ms)
  }

  function Clock(h: nat, m: nat, s: nat, ms: nat): string {
    Padded(h, 2) + ":" + Padded(m, 2) + ":" + Padded(s, 2) + "." + Padded(ms, 3)
  }

  ghost predicate AllDigits(s: string) {
    forall i :: 0 <= i < |s| ==> IsDigit(s[i])
  }

  /** The base-ten value of a string of digits. */
  function Number(digits: string): nat
    requires AllDigits(digits)
  {
    if digits == "" then 0 else Number(digits[..|digits| - 1]) * 10 + DigitValue(digits[|digits| - 1])
  }

  /** Where the run of digits that starts at `position` ends. */
  function DigitsEnd(input: string, position: nat): (end: nat)
    requires position <= |input|
    ensures position <= end <= |input| && AllDigits(input[position..end])
    ensures end < |input| ==> !IsDigit(input[end])
    decreases |input| - position
  {
    if position < |input| && IsDigit(input[position]) then
      var end := DigitsEnd(input, position + 1);
      assert input[position..end] == [input[position]] + input[position + 1..end];
      end
    else position
  }

  /** The last steps of the algorithm: the fraction, the range checks and the result, in milliseconds. */
  function CollectFraction(input: string, position: nat, h: nat, m: nat, s: nat): Option<nat>
    requires position <= |input|
  {
    if position == |input| || input[position] != '.' then None
    else
      var end := DigitsEnd(input, position + 1);
      if end - (position + 1) != 3 || m > 59 || s > 59 then None
      else Some(((h * 60 + m) * 60 + s) * 1000 + Number(input[position + 1..end]))
  }

  /** Collect a WebVTT timestamp, starting at position 0. */
  function CollectTimestamp(input: string): Option<nat> {
    var end1 := DigitsEnd(input, 0);
    if end1 == 0 || end1 == |input| || input[end1] != ':' then None
    else
      var value1 := Number(input[..end1]);
      var hours := end1 != 2 || value1 > 59;
      var end2 := DigitsEnd(input, end1 + 1);
      if end2 - (end1 + 1) != 2 then None
      else
        var value2 := Number(input[end1 + 1..end2]);
        var more := end2 < |input| && input[end2] == ':';
        if !hours && !more then CollectFraction(input, end2, 0, value1, value2)
        else if !more then None
        else
          var end3 := DigitsEnd(input, end2 + 1);
          if end3 - (end2 + 1) != 2 then None
          else CollectFraction(input, end3, value1, value2, Number(input[end2 + 1..end3]))
  }

  /**
    The syntax of a WebVTT timestamp (section 4.1): at least two digits of hours, no
    more than are needed, two digits of minutes and of seconds, three of the fraction.
   */
  ghost predicate HasSyntax(text: string, h: string, m: string, s: string, f: string) {
    && HasFields(text, h, m, s, f) && AllDigits(h) && AllDigits(m) && AllDigits(s) && AllDigits(f)
    && |h| >= 2 && (|h| > 2 ==> h[0] != '0') && Number(m) < 60 && Number(s) < 60
  }

  /** The input is collected as a timestamp, of this many milliseconds. */
  predicate ReadsAs(input: string, ms: int) {
    CollectTimestamp(input).Some? && CollectTimestamp(input).value == ms
  }

  lemma {:induction false} DecimalRoundTrip(n: nat)
    ensures AllDigits(Decimal(n)) && Number(Decimal(n)) == n && |Decimal(n)| >= 1
    ensures n < 100 ==> |Decimal(n)| <= 2
    ensures n < 1000 ==> |Decimal(n)| <= 3
  {
    if n >= 10 {
      DecimalRoundTrip(n / 10);
      assert Decimal(n)[..|Decimal(n)| - 1] == Decimal(n / 10);
    } else {
      assert Decimal(n)[..0] == "";
    }
  }

  /** Without leading zeros: only the number zero starts with one. */
  lemma {:induction false} DecimalLeads(n: nat)
    requires n >= 1
    ensures Decimal(n) != "" && Decimal(n)[0] != '0'
  {
    if n >= 10 {
      DecimalLeads(n / 10);
    }
  }

  lemma {:induction false} LeadingZeros(count: nat, digits: string)
    requires AllDigits(digits)
    ensures AllDigits(Zeros(count) + digits) && Number(Zeros(count) + digits) == Number(digits)
    decreases count + |digits|
  {
    var all := Zeros(count) + digits;
    if digits != "" {
      LeadingZeros(count, digits[..|digits| - 1]);
      assert all[..|all| - 1] == Zeros(count) + digits[..|digits| - 1];
    } else if count > 0 {
      LeadingZeros(count - 1, "");
      assert all[..|all| - 1] == Zeros(count - 1) + "";
    }
  }

  lemma PaddedRoundTrip(n: nat, width: nat)
    ensures AllDigits(Padded(n, width)) && Number(Padded(n, width)) == n && |Padded(n, width)| >= 1
    ensures width == 2 && n < 100 ==> |Padded(n, width)| == 2
    ensures width == 3 && n < 1000 ==> |Padded(n, width)| == 3
    ensures width == 2 && |Padded(n, width)| == 2 ==> n < 100
  {
    DecimalRoundTrip(n);
    var digits := Decimal(n);
    if |digits| < width {
      LeadingZeros(width - |digits|, digits);
    }
    TwoDigits(Padded(n, width));
  }

  lemma TwoDigits(digits: string)
    requires AllDigits(digits)
    ensures |digits| == 2 ==> Number(digits) < 100
  {
    if |digits| == 2 {
      assert digits[..1][..0] == "";
      assert Number(digits[..1]) < 10;
    }
  }

  /** A run of digits that starts at a known place ends where its first non-digit is. */
  lemma {:induction false} DigitsEndAt(input: string, position: nat, end: nat)
    requires position <= end <= |input| && AllDigits(input[position..end])
    requires end < |input| ==> !IsDigit(input[end])
    ensures DigitsEnd(input, position) == end
    decreases end - position
  {
    if position < end {
      assert input[position] == input[position..end][0];
      assert input[position + 1..end] == input[position..end][1..];
      DigitsEndAt(input, position + 1, end);
    }
  }

  /** The four fields of a printed timestamp are where the printer put them. */
  ghost predicate HasFields(input: string, h: string, m: string, s: string, f: string) {
    var n := |h|;
    && |input| == n + 10 && |m| == 2 && |s| == 2 && |f| == 3
    && input[0..n] == h && input[n] == ':' && input[n + 1..n + 3] == m && input[n + 3] == ':'
    && input[n + 4..n + 6] == s && input[n + 6] == '.' && input[n + 7..n + 10] == f
  }

  lemma FieldPositions(h: string, m: string, s: string, f: string)
    requires |m| == 2 && |s| == 2 && |f| == 3
    ensures HasFields(h + ":" + m + ":" + s + "." + f, h, m, s, f)
  {
  }

  /** An input with fields at the printed places is collected from exactly those fields. */
  lemma CollectsAt(input: string, h: string, m: string, s: string, f: string)
    requires HasFields(input, h, m, s, f) && |h| >= 1
    requires AllDigits(h) && AllDigits(m) && AllDigits(s) && AllDigits(f) && Number(m) < 60 && Number(s) < 60
    ensures ReadsAs(input, ((Number(h) * 60 + Number(m)) * 60 + Number(s)) * 1000 + Number(f))
  {
    var n := |h|;
    DigitsEndAt(input, 0, n);
    DigitsEndAt(input, n + 1, n + 3);
    DigitsEndAt(input, n + 4, n + 6);
    DigitsEndAt(input, n + 7, n + 10);
    assert input[..n] == input[0..n];
  }

  /** What is printed for a clock reading is read back, for any number of hours. */
  lemma ClockRoundTrip(h: nat, m: nat, s: nat, ms: nat)
    requires m < 60 && s < 60 && ms < 1000
    ensures ReadsAs(Clock(h, m, s, ms), ((h * 60 + m) * 60 + s) * 1000 + ms)
  {
    PaddedRoundTrip(h, 2);
    PaddedRoundTrip(m, 2);
    PaddedRoundTrip(s, 2);
    PaddedRoundTrip(ms, 3);
    FieldPositions(Padded(h, 2), Padded(m, 2), Padded(s, 2), Padded(ms, 3));
    CollectsAt(Clock(h, m, s, ms), Padded(h, 2), Padded(m, 2), Padded(s, 2), Padded(ms, 3));
  }

  /** What is printed for a clock reading is a WebVTT timestamp. */
  lemma ClockSyntax(h: nat, m: nat, s: nat, ms: nat)
    requires m < 60 && s < 60 && ms < 1000
    ensures HasSyntax(Clock(h, m, s, ms), Padded(h, 2), Padded(m, 2), Padded(s, 2), Padded(ms, 3))
  {
    PaddedRoundTrip(h, 2);
    PaddedRoundTrip(m, 2);
    PaddedRoundTrip(s, 2);
    PaddedRoundTrip(ms, 3);
    if h >= 1 {
      DecimalLeads(h);
    }
    FieldPositions(Padded(h, 2), Padded(m, 2), Padded(s, 2), Padded(ms, 3));
  }

  lemma ClockIsTime(whole: nat, h: nat, m: nat, s: nat)
    requires h == whole / 3600 && m == whole % 3600 / 60 && s == whole % 60
    ensures m < 60 && s < 60 && (h * 60 + m) * 60 + s == whole
  {
  }

  /** The same for a time given as whole seconds and milliseconds. */
  lemma TimeRoundTrip(whole: nat, ms: nat)
    requires ms < 1000
    ensures ReadsAs(ClockOf(whole, ms), whole * 1000 + ms)
  {
    var h, m, s := whole / 3600, whole % 3600 / 60, whole % 60;
    ClockIsTime(whole, h, m, s);
    ClockRoundTrip(h, m, s, ms);
    assert ClockOf(whole, ms) == Clock(h, m, s, ms);
  }

  /** The next whole millisecond after a time. */
  function NextMs(seconds: real): (n: nat)
    ensures 1 <= n <= 1000 && (n - 1) as real <= ExactMs(seconds) < n as real
  {
    ExactMs(seconds).Floor + 1
  }

  /** The time lies within half a float64 step below its next whole millisecond. */
  predicate RoundsUp(seconds: real) {
    NextMs(seconds) as real - ExactMs(seconds) <= GapBelow(NextMs(seconds)) / 2.0
  }

  /** That never happens at the end of a second: 1000 milliseconds are not printed. */
  lemma NeverThousand(seconds: real)
    requires IsFloat(Clamped(seconds)) && NextMs(seconds) == 1000
    ensures !RoundsUp(seconds)
  {
    FractionOfFloat(Clamped(seconds));
    GapAbove512(1000);
  }

  /** The rounded product is the next whole millisecond exactly if the time rounds up, and never 1000. */
  lemma ProductBounds(seconds: real, product: real)
    requires IsFloat(Clamped(seconds)) && RoundsTo(ExactMs(seconds), product)
    ensures 0.0 <= product < 1000.0
    ensures product.Floor == if RoundsUp(seconds) then NextMs(seconds) else NextMs(seconds) - 1
  {
    RoundsToWhole(ExactMs(seconds), product, NextMs(seconds));
    if NextMs(seconds) == 1000 {
      NeverThousand(seconds);
    }
  }

  /** The time of a timestamp: whole milliseconds, rounded down; negative times count as zero. */
  function Milliseconds(seconds: real): int {
    (Clamped(seconds) * 1000.0).Floor
  }

  lemma SplitSeconds(seconds: real)
    ensures Milliseconds(seconds) == Clamped(seconds).Floor * 1000 + ExactMs(seconds).Floor
  {
    var whole := Clamped(seconds).Floor;
    assert Clamped(seconds) * 1000.0 == ExactMs(seconds) + (whole * 1000) as real;
  }

  /**
    Reading a printed timestamp gives the time back, truncated to the millisecond,
    unless the time lies within half a float64 step below the next millisecond; then
    it gives that one.
   */
  lemma TimestampRoundTrip(seconds: real, product: real)
    requires IsFloat(Clamped(seconds)) && RoundsTo(ExactMs(seconds), product)
    ensures Milliseconds(seconds) >= 0 && product >= 0.0
    ensures ReadsAs(FormatVTTTimestamp(seconds, product),
                    if RoundsUp(seconds) then Milliseconds(seconds) + 1 else Milliseconds(seconds))
  {
    var whole, ms := PrintedTime(seconds, product);
    PrintsBack(seconds, product, whole, ms);
  }

  lemma PrintsBack(seconds: real, product: real, whole: nat, ms: nat)
    requires product >= 0.0 && whole == Clamped(seconds).Floor && ms == product.Floor < 1000
    ensures ReadsAs(FormatVTTTimestamp(seconds, product), whole * 1000 + ms)
  {
    var text := FormatVTTTimestamp(seconds, product);
    ReadsTime(text, whole, ms) by {
      assert text == ClockOf(whole, ms);
    }
  }

  lemma ReadsTime(text: string, whole: nat, ms: nat)
    requires text == ClockOf(whole, ms) && ms < 1000
    ensures ReadsAs(text, whole * 1000 + ms)
  {
    TimeRoundTrip(whole, ms);
  }

  lemma PrintedTime(seconds: real, product: real) returns (whole: nat, ms: nat)
    requires IsFloat(Clamped(seconds)) && RoundsTo(ExactMs(seconds), product)
    ensures product >= 0.0 && Milliseconds(seconds) >= 0
    ensures whole == Clamped(seconds).Floor && ms == product.Floor < 1000
    ensures whole * 1000 + ms == if RoundsUp(seconds) then Milliseconds(seconds) + 1 else Milliseconds(seconds)
  {
    SplitSeconds(seconds);
    ProductBounds(seconds, product);
    whole, ms := Clamped(seconds).Floor, product.Floor;
  }

  /** Whatever the time and its rounding, the printed text is a WebVTT timestamp. */
  lemma TimestampSyntax(seconds: real, product: real)
    requires IsFloat(Clamped(seconds)) && RoundsTo(ExactMs(seconds), product)
    ensures product >= 0.0
    ensures exists h, m, s, f :: HasSyntax(FormatVTTTimestamp(seconds, product), h, m, s, f)
  {
    ProductBounds(seconds, product);
    var whole, ms := Clamped(seconds).Floor, product.Floor;
    var h, m, s := whole / 3600, whole % 3600 / 60, whole % 60;
    ClockIsTime(whole, h, m, s);
    ClockSyntax(h, m, s, ms);
    var text := FormatVTTTimestamp(seconds, product);
    assert text == ClockOf(whole, ms) == Clock(h, m, s, ms);
  }

  /** Printing is monotone in time: a later time never reads back as an earlier one. */
  lemma TimestampsAreMonotone(earlier: real, later: real, product: real, product': real)
    requires earlier <= later && IsFloat(Clamped(earlier)) && IsFloat(Clamped(later))
    requires RoundsTo(ExactMs(earlier), product) && RoundsTo(ExactMs(later), product')
    requires ExactMs(earlier) == ExactMs(later) ==> product == product'
    ensures product >= 0.0 && product' >= 0.0
    ensures exists e, l :: ReadsAs(FormatVTTTimestamp(earlier, product), e) &&
                           ReadsAs(FormatVTTTimestamp(later, product'), l) && e <= l
  {
    ProductBounds(earlier, product);
    ProductBounds(later, product');
    PrintsBack(earlier, product, Clamped(earlier).Floor, product.Floor);
    PrintsBack(later, product', Clamped(later).Floor, product'.Floor);
    if Clamped(earlier).Floor == Clamped(later).Floor {
      if ExactMs(earlier) < ExactMs(later) {
        RoundingIsMonotone(ExactMs(earlier), product, ExactMs(later), product');
      }
      assert product <= product';
    }
  }

  /** The float64 that 0.57 is read as; it lies just below 0.57. */
  const POINT_57: real := 5134103575202365.0 / MANTISSA as real

  /** A time that is rounded up: 0.57 seconds are printed, and read, as 570 milliseconds instead of 569. */
  lemma RoundedUp()
    ensures IsFloat(POINT_57) && RoundsTo(ExactMs(POINT_57), 570.0) && Milliseconds(POINT_57) == 569
    ensures ReadsAs(FormatVTTTimestamp(POINT_57, 570.0), 570)
  {
    Powers();
    Scaled(POINT_57, 5134103575202365, 53);
    assert IsScaled(POINT_57, 5134103575202365, 53);
    Point57RoundsUp();
    RoundsToWhole(ExactMs(POINT_57), 570.0, 570);
    TimestampRoundTrip(POINT_57, 570.0);
  }

  lemma Point57RoundsUp()
    ensures NextMs(POINT_57) == 570 && Milliseconds(POINT_57) == 569 && RoundsUp(POINT_57)
  {
    assert 0.0 <= POINT_57 < 1.0;
    var exact := POINT_57 * 1000.0;
    assert ExactMs(POINT_57) == exact;
    assert exact.Floor == 569 && 570.0 - exact <= 512.0 / MANTISSA as real;
    StepBelow570(POINT_57);
  }

  lemma StepBelow570(seconds: real)
    requires ExactMs(seconds).Floor == 569 && 570.0 - ExactMs(seconds) <= 512.0 / MANTISSA as real
    ensures NextMs(seconds) == 570 && RoundsUp(seconds)
  {
    GapAbove512(570);
  }
}
