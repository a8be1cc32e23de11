/** Strings: case folding, splitting, and decimal numbers. */
module Text {

  datatype Option<T> = None | Some(value: T)

  function Lower(c: char): (d: char) {
    if 'A' <= c <= 'Z' then (c as int - 'A' as int + 'a' as int) as char else c
  }

  function Fold(s: string): (t: string) {
    seq(|s|, i requires 0 <= i < |s| => Lower(s[i]))
  }

  predicate EqualFold(s: string, t: string) {
    Fold(s) == Fold(t)
  }

  // ---------------------------------------------------------------- splitting at dashes

  function Split(s: string): (parts: seq<string>)
    ensures |parts| > 0
  {
    if s == "" then [""]
    else
      var rest := Split(s[1..]);
      if s[0] == '-' then [""] + rest else [[s[0]] + rest[0]] + rest[1..]
  }

  lemma {:induction false} SplitWhole(s: string)
    requires '-' !in s
    ensures Split(s) == [s]
  {
    if s != "" {
      SplitWhole(s[1..]);
      assert [s[0]] + s[1..] == s;
    }
  }

  lemma {:induction false} SplitJoined(s: string, t: string)
    requires '-' !in s && '-' !in t
    ensures Split(s + "-" + t) == [s, t]
  {
    var joined := s + "-" + t;
    if s == "" {
      assert joined[1..] == t;
      SplitWhole(t);
    } else {
      assert joined[1..] == s[1..] + "-" + t;
      SplitJoined(s[1..], t);
      assert [s[0]] + s[1..] == s;
    }
  }

  // ---------------------------------------------------------------- decimal numbers

  const MaxInt: int := 0x7FFF_FFFF_FFFF_FFFF

  predicate IsDigit(c: char) {
    '0' <= c <= '9'
  }

  predicate AllDigits(s: string) {
    forall i | 0 <= i < |s| :: IsDigit(s[i])
  }

  function Digit(d: nat): (c: char)
    requires d < 10
    ensures IsDigit(c) && c as int - '0' as int == d
  {
    (d + '0' as int) as char
  }

  /** Decimal without leading zeros, as %d prints it. */
  function Itoa(n: nat): (s: string)
    ensures |s| > 0 && AllDigits(s)
  {
    if n < 10 then [Digit(n)] else Itoa(n / 10) + [Digit(n % 10)]
  }

  function DigitsValue(s: string): (n: nat)
    requires AllDigits(s)
  {
    if s == "" then 0 else 10 * DigitsValue(s[..|s| - 1]) + (s[|s| - 1] as int - '0' as int)
  }

  /** A sign and at least one digit, within 64 bits. */
  function Atoi(s: string): (r: Option<int>) {
    var signed := s != "" && (s[0] == '+' || s[0] == '-');
    var digits := if signed then s[1..] else s;
    if digits == "" || !AllDigits(digits) then None
    else
      var n: int := DigitsValue(digits);
      if signed && s[0] == '-' then if n <= MaxInt + 1 then Some(-n) else None
      else if n <= MaxInt then Some(n) else None
  }

  lemma {:induction false} ItoaValue(n: nat)
    ensures DigitsValue(Itoa(n)) == n
  {
    var s := Itoa(n);
    if n < 10 {
      assert s[..|s| - 1] == "";
    } else {
      ItoaValue(n / 10);
      assert s[..|s| - 1] == Itoa(n / 10);
    }
  }

  /** Printing and parsing a number gives the number. */
  lemma AtoiItoa(n: nat)
    requires n <= MaxInt
    ensures Atoi(Itoa(n)) == Some(n)
  {
    ItoaValue(n);
    assert IsDigit(Itoa(n)[0]);
  }

  /** Zero-padded to four places, as %04d prints it. */
  function Padded(n: nat): (s: string)
    ensures AllDigits(s)
  {
    var s := Itoa(n);
    if |s| >= 4 then s else seq(4 - |s|, _ => '0') + s
  }

  lemma {:induction false} LeadingZeros(k: nat, s: string)
    requires AllDigits(s)
    ensures AllDigits(seq(k, _ => '0') + s) && DigitsValue(seq(k, _ => '0') + s) == DigitsValue(s)
    decreases k + |s|
  {
    var z := seq(k, _ => '0');
    if s == "" {
      if k > 0 {
        assert (z + s)[..|z + s| - 1] == seq(k - 1, _ => '0') + s;
        LeadingZeros(k - 1, s);
      }
    } else {
      assert (z + s)[..|z + s| - 1] == z + s[..|s| - 1];
      LeadingZeros(k, s[..|s| - 1]);
    }
  }

  /** Different numbers are printed differently. */
  lemma PaddedInjective(m: nat, n: nat)
    requires Padded(m) == Padded(n)
    ensures m == n
  {
    PaddedValue(m);
    PaddedValue(n);
  }

  lemma PaddedValue(n: nat)
    ensures DigitsValue(Padded(n)) == n
  {
    ItoaValue(n);
    if |Itoa(n)| < 4 {
      LeadingZeros(4 - |Itoa(n)|, Itoa(n));
    }
  }

  // ---------------------------------------------------------------- order

  /** Byte-wise comparison: -1, 0 or 1. */
  function CompareStrings(s: string, t: string): (c: int) {
    if s == "" then if t == "" then 0 else -1
    else if t == "" then 1
    else if s[0] < t[0] then -1
    else if s[0] > t[0] then 1
    else CompareStrings(s[1..], t[1..])
  }

  lemma {:induction false} CompareAntisymmetric(s: string, t: string)
    ensures CompareStrings(s, t) == -CompareStrings(t, s)
  {
    if s != "" && t != "" {
      CompareAntisymmetric(s[1..], t[1..]);
    }
  }

  lemma {:induction false} CompareTransitive(s: string, t: string, u: string)
    requires CompareStrings(s, t) <= 0 && CompareStrings(t, u) <= 0
    ensures CompareStrings(s, u) <= 0
  {
    if s != "" && t != "" && u != "" && s[0] == t[0] == u[0] {
      CompareTransitive(s[1..], t[1..], u[1..]);
    }
  }

  lemma {:induction false} CompareEqual(s: string, t: string)
    requires CompareStrings(s, t) == 0
    ensures s == t
  {
    if s != "" && t != "" {
      CompareEqual(s[1..], t[1..]);
      assert s == [s[0]] + s[1..] && t == [t[0]] + t[1..];
    }
  }
}
