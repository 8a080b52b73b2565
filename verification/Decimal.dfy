/** Decimal text of unsigned integers, and its parsing. */
module Decimal {
  import opened LittleEndian
  import opened Wrappers

  function Digit(d: nat): (c: char)
    requires d < 10
    ensures '0' <= c <= '9'
  {
    '0' + d as char
  }

  function ToDecimal(n: nat): (s: string)
    ensures s != [] && forall c <- s :: '0' <= c <= '9'
  {
    if n < 10 then [Digit(n)] else ToDecimal(n / 10) + [Digit(n % 10)]
  }

  /** The value of a run of digits, read left to right. */
  function Value(s: string): Option<nat> {
    if s == [] then Some(0) else
    var c := s[|s| - 1];
    match Value(s[..|s| - 1])
    case Some(v) => if '0' <= c <= '9' then Some(10 * v + (c - '0') as nat) else None
    case None => None
  }

  /** `str::parse::<u64>`: an optional plus sign, at least one digit, no overflow. */
  function ParseU64(s: string): Option<nat> {
    var digits := if s != [] && s[0] == '+' then s[1..] else s;
    if digits == [] then None else
    match Value(digits)
    case Some(v) => if v < U64_LIMIT then Some(v) else None
    case None => None
  }

  /** `{:0width}`: leading zeros up to `width` characters. */
  function Padded(s: string, width: nat): string
    decreases if |s| < width then width - |s| else 0
  {
    if |s| >= width then s else Padded("0" + s, width)
  }

  lemma {:induction false} DecimalValue(n: nat)
    ensures Value(ToDecimal(n)) == Some(n)
  {
    if n < 10 {
      assert Value([Digit(n)][..0]) == Some(0);
    } else {
      DecimalValue(n / 10);
      assert ToDecimal(n)[..|ToDecimal(n)| - 1] == ToDecimal(n / 10);
    }
  }

  lemma {:induction false} LeadingZero(s: string)
    ensures Value("0" + s) == Value(s)
  {
    if s == [] {
      assert ("0" + s)[..0] == [] && Value([]) == Some(0);
    } else {
      LeadingZero(s[..|s| - 1]);
      assert ("0" + s)[..|s|] == "0" + s[..|s| - 1];
    }
  }

  lemma {:induction false} PaddedValue(s: string, width: nat)
    requires s != [] && forall c <- s :: '0' <= c <= '9'
    ensures Padded(s, width) != [] && Value(Padded(s, width)) == Value(s)
    ensures forall c <- Padded(s, width) :: '0' <= c <= '9'
    decreases if |s| < width then width - |s| else 0
  {
    if |s| < width {
      LeadingZero(s);
      PaddedValue("0" + s, width);
    }
  }

  /** Parsing a padded rendering gives the number back. */
  lemma PaddedRoundTrip(n: nat, width: nat)
    requires n < U64_LIMIT
    ensures ParseU64(Padded(ToDecimal(n), width)) == Some(n)
    ensures forall c <- Padded(ToDecimal(n), width) :: '0' <= c <= '9'
  {
    DecimalValue(n);
    PaddedValue(ToDecimal(n), width);
    assert Padded(ToDecimal(n), width)[0] in Padded(ToDecimal(n), width);
  }

  // ----- the order of renderings -----------------------------------------------------------------

  predicate AllDigits(s: string) {
    forall i :: 0 <= i < |s| ==> '0' <= s[i] <= '9'
  }

  /** Before in a directory listing: smaller at the first character where the two differ. */
  ghost predicate ListedBefore(s: string, t: string) {
    exists k: nat :: FirstDifference(s, t, k) && s[k] < t[k]
  }

  ghost predicate FirstDifference(s: string, t: string, k: nat) {
    k < |s| && k < |t| && s[..k] == t[..k] && s[k] != t[k]
  }

  lemma {:induction false} DifferSomewhere(s: string, t: string) returns (k: nat)
    requires |s| == |t| && s != t
    ensures FirstDifference(s, t, k) && (if s[k] < t[k] then ListedBefore(s, t) else ListedBefore(t, s))
  {
    var n := |s| - 1;
    if s[..n] == t[..n] {
      assert s == s[..n] + [s[n]] && t == t[..n] + [t[n]];
      k := n;
    } else {
      k := DifferSomewhere(s[..n], t[..n]);
      assert s[..n][..k] == s[..k] && t[..n][..k] == t[..k];
    }
    assert FirstDifference(s, t, k) && FirstDifference(t, s, k);
  }

  lemma OneDifference(s: string, t: string, j: nat, k: nat)
    requires FirstDifference(s, t, j) && FirstDifference(s, t, k)
    ensures j == k
  {
    assert forall i :: 0 <= i < j ==> s[..j][i] == t[..j][i];
    assert forall i :: 0 <= i < k ==> s[..k][i] == t[..k][i];
  }

  lemma {:induction false} DigitsHaveValue(s: string)
    requires AllDigits(s)
    ensures Value(s).Some?
  {
    if s != [] {
      DigitsHaveValue(s[..|s| - 1]);
    }
  }

  /** Among renderings of one length, the listing order is the order of the numbers. */
  lemma {:induction false} ListingIsNumeric(s: string, t: string)
    requires |s| == |t| && AllDigits(s) && AllDigits(t) && ListedBefore(s, t)
    ensures Value(s).Some? && Value(t).Some? && Value(s).value < Value(t).value
    decreases |s|
  {
    var k: nat :| FirstDifference(s, t, k) && s[k] < t[k];
    var n := |s| - 1;
    DigitsHaveValue(s);
    DigitsHaveValue(t);
    if k < n {
      assert s[..n][..k] == s[..k] && t[..n][..k] == t[..k];
      assert FirstDifference(s[..n], t[..n], k);
      ListingIsNumeric(s[..n], t[..n]);
    } else {
      assert s[..n] == t[..n];
    }
  }
}
