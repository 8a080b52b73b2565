/** Where a block lives on disk: computed from its number, never looked up. */
module Layout {
  import opened LittleEndian
  import opened Decimal
  import opened Wrappers

  function SegmentIndex(number: nat, size: nat): nat
    requires size > 0
  {
    number / size
  }

  function SegmentStart(index: nat, size: nat): nat {
    index * size
  }

  /** Last number of a segment, inclusive. */
  function SegmentEnd(index: nat, size: nat): nat
    requires size > 0
  {
    SegmentStart(index, size) + size - 1
  }

  function SegmentStem(index: nat, size: nat): string
    requires size > 0
  {
    Padded(ToDecimal(SegmentStart(index, size)), 9) + "-" + Padded(ToDecimal(SegmentEnd(index, size)), 9)
  }

  function StripSuffix(s: string, suffix: string): Option<string> {
    if |suffix| <= |s| && s[|s| - |suffix|..] == suffix then Some(s[..|s| - |suffix|]) else None
  }

  /** The part before the first dash, when there is one. */
  function BeforeDash(s: string): Option<string> {
    if s == [] then None
    else if s[0] == '-' then Some([])
    else match BeforeDash(s[1..])
      case Some(rest) => Some([s[0]] + rest)
      case None => None
  }

  /** The first block a segment file name covers, or `None` for a name that is not one. */
  function StemStart(fileName: string): Option<nat> {
    var stem := match StripSuffix(fileName, ".seg")
      case Some(stem) => Some(stem)
      case None => StripSuffix(fileName, ".idx");
    match stem
    case None => None
    case Some(stem) =>
      match BeforeDash(stem)
      case None => None
      case Some(start) => ParseU64(start)
  }

  lemma {:induction false} BeforeDashOf(digits: string, rest: string)
    requires '-' !in digits
    ensures BeforeDash(digits + "-" + rest) == Some(digits)
  {
    var s := digits + "-" + rest;
    if digits == [] {
      assert s[0] == '-';
    } else {
      assert digits[0] in digits;
      BeforeDashOf(digits[1..], rest);
      assert s[1..] == digits[1..] + "-" + rest;
      assert [digits[0]] + digits[1..] == digits;
    }
  }

  lemma StripsSuffix(s: string, suffix: string)
    ensures StripSuffix(s + suffix, suffix) == Some(s)
  {
    assert (s + suffix)[|s|..] == suffix && (s + suffix)[..|s|] == s;
  }

  /** A segment's file name gives back where the segment starts, for every segment there can be. */
  lemma StemRoundTrip(index: nat, size: nat, suffix: string)
    requires size > 0 && SegmentStart(index, size) < U64_LIMIT
    requires suffix == ".seg" || suffix == ".idx"
    ensures StemStart(SegmentStem(index, size) + suffix) == Some(SegmentStart(index, size))
    ensures Ends(SegmentStem(index, size), index, size)
  {
    var stem := SegmentStem(index, size);
    StemEnds(index, size);
    StripsSuffix(stem, suffix);
    if suffix == ".idx" {
      assert (stem + suffix)[|stem|..] == ".idx";
      assert StripSuffix(stem + suffix, ".seg") == None;
    }
    PaddedRoundTrip(SegmentStart(index, size), 9);
    BeforeDashOf(Padded(ToDecimal(SegmentStart(index, size)), 9), Padded(ToDecimal(SegmentEnd(index, size)), 9));
  }

  /** What follows the dash is the segment's last block, in nine digits or more. */
  ghost predicate Ends(stem: string, index: nat, size: nat)
    requires size > 0
  {
    exists k :: 9 <= k < |stem| && stem[k] == '-' && |stem| - k - 1 >= 9
                && Value(stem[..k]) == Some(index * size) && Value(stem[k + 1..]) == Some((index + 1) * size - 1)
  }

  lemma StemEnds(index: nat, size: nat)
    requires size > 0
    ensures Ends(SegmentStem(index, size), index, size)
  {
    var start, end := Padded(ToDecimal(SegmentStart(index, size)), 9), Padded(ToDecimal(SegmentEnd(index, size)), 9);
    var stem := SegmentStem(index, size);
    DecimalValue(SegmentStart(index, size));
    DecimalValue(SegmentEnd(index, size));
    PaddedValue(ToDecimal(SegmentStart(index, size)), 9);
    PaddedValue(ToDecimal(SegmentEnd(index, size)), 9);
    PaddedLength(ToDecimal(SegmentStart(index, size)), 9);
    PaddedLength(ToDecimal(SegmentEnd(index, size)), 9);
    hide Padded, ToDecimal, Value;
    assert stem[..|start|] == start && stem[|start| + 1..] == end && stem[|start|] == '-';
    assert (index + 1) * size == index * size + size;
  }

  lemma Multiply(a: nat, b: nat, size: nat)
    requires a <= b
    ensures a * size <= b * size
  {
  }

  /** A number lies in exactly one segment: the one its index names. */
  lemma InSegment(number: nat, index: nat, size: nat)
    requires size > 0
    ensures SegmentStart(index, size) <= number <= SegmentEnd(index, size) <==> SegmentIndex(number, size) == index
  {
    var q := number / size;
    assert number == q * size + number % size;
    if q < index {
      Multiply(q + 1, index, size);
      assert (q + 1) * size == q * size + size;
    } else if index < q {
      Multiply(index + 1, q, size);
      assert (index + 1) * size == index * size + size;
    }
  }

  /** The stem's start falls back into the segment it came from. */
  lemma StartInSegment(index: nat, size: nat)
    requires size > 0
    ensures SegmentIndex(SegmentStart(index, size), size) == index <= SegmentStart(index, size)
  {
    Multiply(1, size, index);
    InSegment(SegmentStart(index, size), index, size);
  }

  // ----- the order of file names -------------------------------------------------------------------

  lemma {:induction false} PaddedLength(s: string, width: nat)
    ensures |Padded(s, width)| == if |s| < width then width else |s|
    decreases if |s| < width then width - |s| else 0
  {
    if |s| < width {
      PaddedLength("0" + s, width);
    }
  }

  lemma {:induction false} DecimalLength(n: nat, width: nat, limit: nat)
    requires width > 0 && limit == PowerOfTen(width)
    ensures |ToDecimal(n)| <= width <==> n < limit
    decreases width
  {
    if width > 1 && n >= 10 {
      DecimalLength(n / 10, width - 1, PowerOfTen(width - 1));
    } else if width > 1 {
      PowerIsLarge(width);
    }
  }

  function PowerOfTen(width: nat): nat {
    if width == 0 then 1 else 10 * PowerOfTen(width - 1)
  }

  lemma {:induction false} PowerIsLarge(width: nat)
    requires width > 0
    ensures PowerOfTen(width) >= 10
  {
    if width > 1 {
      PowerIsLarge(width - 1);
    }
  }

  const BILLION := 1000000000

  lemma Billion()
    ensures PowerOfTen(9) == BILLION
  {
    assert PowerOfTen(3) == 10 * PowerOfTen(2) == 1000;
    assert PowerOfTen(6) == 10 * (10 * (10 * PowerOfTen(3)));
    assert PowerOfTen(9) == 10 * (10 * (10 * PowerOfTen(6)));
  }

  /** How the first number of a segment is written in its name. */
  function StartName(number: nat): string {
    Padded(ToDecimal(number), 9)
  }

  /** Nine digits if and only if the number is below a billion; more from there on. */
  lemma StartNameLength(number: nat)
    ensures |StartName(number)| >= 9
    ensures |StartName(number)| == 9 <==> number < BILLION
  {
    Billion();
    DecimalLength(number, 9, PowerOfTen(9));
    PaddedLength(ToDecimal(number), 9);
  }

  /** Below a billion, files are listed in block order. */
  lemma NameOrderIsBlockOrder(a: nat, b: nat)
    requires a < BILLION && b < BILLION
    ensures ListedBefore(StartName(a), StartName(b)) <==> a < b
  {
    NameValue(a);
    NameValue(b);
    if ListedBefore(StartName(a), StartName(b)) {
      ListingIsNumeric(StartName(a), StartName(b));
    } else if a < b {
      var k := DifferSomewhere(StartName(a), StartName(b));
      ListingIsNumeric(StartName(b), StartName(a));
    }
  }

  /** So are whole file names, whichever of the two files they are of. */
  lemma FilesListInBlockOrder(a: nat, b: nat, size: nat, suffix: string, suffix': string)
    requires size > 0 && a != b && SegmentStart(a, size) < BILLION && SegmentStart(b, size) < BILLION
    ensures ListedBefore(SegmentStem(a, size) + suffix, SegmentStem(b, size) + suffix') <==> a < b
  {
    var s, t := StartName(SegmentStart(a, size)), StartName(SegmentStart(b, size));
    var u := "-" + Padded(ToDecimal(SegmentEnd(a, size)), 9) + suffix;
    var v := "-" + Padded(ToDecimal(SegmentEnd(b, size)), 9) + suffix';
    assert SegmentStem(a, size) + suffix == s + u && SegmentStem(b, size) + suffix' == t + v;
    StartsInOrder(a, b, size);
    NameOrderIsBlockOrder(SegmentStart(a, size), SegmentStart(b, size));
    NameValue(SegmentStart(a, size));
    NameValue(SegmentStart(b, size));
    ListedByStart(s, t, u, v);
    ListedByStart(t, s, v, u);
  }

  lemma StartsInOrder(a: nat, b: nat, size: nat)
    requires size > 0 && a != b
    ensures SegmentStart(a, size) < SegmentStart(b, size) <==> a < b
    ensures SegmentStart(a, size) != SegmentStart(b, size)
  {
    StartInSegment(a, size);
    StartInSegment(b, size);
    if a < b {
      Multiply(a, b, size);
    } else {
      Multiply(b, a, size);
    }
  }

  /** Names of which the first parts differ are listed by those. */
  lemma ListedByStart(s: string, t: string, u: string, v: string)
    requires |s| == |t| && s != t
    ensures ListedBefore(s, t) <==> ListedBefore(s + u, t + v)
  {
    var k := DifferSomewhere(s, t);
    assert (s + u)[..k] == s[..k] && (t + v)[..k] == t[..k];
    assert FirstDifference(s + u, t + v, k);
    forall j: nat | FirstDifference(s + u, t + v, j)
      ensures j == k
    {
      OneDifference(s + u, t + v, j, k);
    }
    forall j: nat | FirstDifference(s, t, j)
      ensures j == k
    {
      OneDifference(s, t, j, k);
    }
  }

  lemma NameValue(n: nat)
    ensures AllDigits(StartName(n)) && Value(StartName(n)) == Some(n)
    ensures n < BILLION ==> |StartName(n)| == 9
  {
    DecimalValue(n);
    PaddedValue(ToDecimal(n), 9);
    assert forall i :: 0 <= i < |StartName(n)| ==> StartName(n)[i] in StartName(n);
    StartNameLength(n);
  }

  lemma {:induction false} FirstDigit(n: nat, d: nat, zeros: nat)
    requires 0 < d < 10 && d * PowerOfTen(zeros) <= n < (d + 1) * PowerOfTen(zeros)
    ensures ToDecimal(n)[0] == Digit(d)
  {
    if zeros > 0 {
      var p := PowerOfTen(zeros - 1);
      PowerPositive(zeros - 1);
      DividedByTen(n, d, p);
      FirstDigit(n / 10, d, zeros - 1);
    }
  }

  lemma DividedByTen(n: nat, d: nat, p: nat)
    requires 0 < d && 0 < p && d * (10 * p) <= n < (d + 1) * (10 * p)
    ensures d * p <= n / 10 < (d + 1) * p && n >= 10
  {
    var low, high := d * p, (d + 1) * p;
    assert d * (10 * p) == 10 * low && (d + 1) * (10 * p) == 10 * high;
    Multiply(1, d, p);
  }

  lemma {:induction false} PowerPositive(width: nat)
    ensures PowerOfTen(width) >= 1
  {
    if width > 0 {
      PowerPositive(width - 1);
    }
  }

  /** The first segment beyond a billion is listed before the last one below it. */
  lemma OrderEndsAtABillion()
    ensures ListedBefore(StartName(BILLION), StartName(BILLION - 1))
  {
    NameValue(BILLION);
    NameValue(BILLION - 1);
    Billion();
    FirstDigit(BILLION, 1, 9);
    FirstDigit(BILLION - 1, 9, 8);
    DecimalLength(BILLION, 9, BILLION);
    DecimalLength(BILLION - 1, 8, PowerOfTen(8));
    assert FirstDifference(StartName(BILLION), StartName(BILLION - 1), 0);
  }
}
