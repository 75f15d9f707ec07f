/** Strings the car descriptions are built from: the decimal numeral that
    JavaScript writes when an integral number is concatenated to a string,
    and Array.prototype.join. */
module Text {

  predicate IsDigit(c: char) {
    '0' <= c <= '9'
  }

  predicate AllDigits(s: string) {
    forall i :: 0 <= i < |s| ==> IsDigit(s[i])
  }

  /** The character of decimal digit `d`. */
  function DigitChar(d: nat): (c: char)
    requires d < 10
    ensures IsDigit(c) && c as int - '0' as int == d
  {
    (d + '0' as int) as char
  }

  /** The value of a string of decimal digits, most significant digit first. */
  function DigitsValue(s: string): nat
    requires AllDigits(s)
  {
    if s == [] then 0
    else DigitsValue(s[..|s| - 1]) * 10 + (s[|s| - 1] as int - '0' as int)
  }

  /** The decimal numeral of a natural number. */
  function NatToString(n: nat): string
    decreases n
  {
    if n < 10 then [DigitChar(n)] else NatToString(n / 10) + [DigitChar(n % 10)]
  }

  /** The numeral JavaScript produces for an integral number: a minus sign
      for a negative value, then the digits of its magnitude. */
  function IntToString(i: int): (r: string)
    ensures CanonicalNumeral(r)
    ensures r[0] == '-' <==> i < 0
  {
    if i < 0 then
      NatToStringRoundTrip(-i);
      var r := "-" + NatToString(-i);
      assert r[1..] == NatToString(-i);
      r
    else
      NatToStringRoundTrip(i);
      NatToString(i)
  }

  /** An optional minus sign followed by at least one digit. */
  predicate IsNumeral(t: string) {
    if |t| > 0 && t[0] == '-' then |t| > 1 && AllDigits(t[1..])
    else |t| > 0 && AllDigits(t)
  }

  /** The digits of a numeral, after its optional minus sign. */
  function Magnitude(t: string): (m: string)
    requires IsNumeral(t)
    ensures |m| > 0 && AllDigits(m)
  {
    if t[0] == '-' then t[1..] else t
  }

  /** A numeral as it is written for an integer: no leading zero unless
      the digits are exactly "0", and no "-0". */
  predicate CanonicalNumeral(t: string) {
    IsNumeral(t) &&
    (Magnitude(t)[0] == '0' ==> t == "0")
  }

  /** The integer a numeral denotes. */
  function NumeralValue(t: string): int
    requires IsNumeral(t)
  {
    if t[0] == '-' then -(DigitsValue(t[1..]) as int) else DigitsValue(t)
  }

  /** The numeral of `n` is a non-empty digit string, without a leading
      zero, that denotes `n`. */
  lemma {:induction false} NatToStringRoundTrip(n: nat)
    ensures |NatToString(n)| > 0 && AllDigits(NatToString(n))
    ensures DigitsValue(NatToString(n)) == n
    ensures NatToString(n)[0] == '0' ==> n == 0
    decreases n
  {
    var r := NatToString(n);
    if n >= 10 {
      var p := NatToString(n / 10);
      NatToStringRoundTrip(n / 10);
      assert r == p + [DigitChar(n % 10)];
      assert r[..|r| - 1] == p;
      assert r[0] == p[0];
    }
  }

  /** Reading back the numeral of `i` gives `i`, and that numeral is
      canonical. */
  lemma IntToStringRoundTrip(i: int)
    ensures CanonicalNumeral(IntToString(i))
    ensures NumeralValue(IntToString(i)) == i
  {
    if i < 0 {
      NatToStringRoundTrip(-i);
      assert IntToString(i)[1..] == NatToString(-i);
    } else {
      NatToStringRoundTrip(i);
    }
  }

  /** A non-empty digit string without a leading zero denotes a positive
      number. */
  lemma {:induction false} LeadingDigitPositive(s: string)
    requires |s| > 0 && AllDigits(s) && s[0] != '0'
    ensures DigitsValue(s) > 0
    decreases |s|
  {
    if |s| > 1 {
      LeadingDigitPositive(s[..|s| - 1]);
    }
  }

  /** A digit string without a leading zero (other than "0" itself) is the
      numeral of the number it denotes. */
  lemma {:induction false} DigitsAreWritten(s: string)
    requires |s| > 0 && AllDigits(s) && (s[0] == '0' ==> s == "0")
    ensures NatToString(DigitsValue(s)) == s
    decreases |s|
  {
    if |s| > 1 {
      var p := s[..|s| - 1];
      var v := DigitsValue(s);
      assert p[0] == s[0];
      LeadingDigitPositive(p);
      DigitsAreWritten(p);
      assert v / 10 == DigitsValue(p) && v % 10 == s[|s| - 1] as int - '0' as int;
      assert s == p + [s[|s| - 1]];
    }
  }

  /** Every canonical numeral is the one written for the integer it denotes,
      so two canonical numerals with the same value are the same string. */
  lemma CanonicalIsWritten(t: string)
    requires CanonicalNumeral(t)
    ensures IntToString(NumeralValue(t)) == t
  {
    var m := Magnitude(t);
    DigitsAreWritten(m);
    if t[0] == '-' {
      LeadingDigitPositive(m);
      assert t == "-" + m;
    }
  }

  /** Total length of `parts`. */
  function TotalLength(parts: seq<string>): nat {
    if parts == [] then 0 else |parts[0]| + TotalLength(parts[1..])
  }

  /** `parts[0] + sep + parts[1] + sep + ... `, the empty string for no parts. */
  function Join(parts: seq<string>, sep: string): (r: string)
    ensures |r| == TotalLength(parts) + (if parts == [] then 0 else (|parts| - 1) * |sep|)
    ensures |parts| > 0 ==> r[..|parts[0]|] == parts[0]
  {
    if |parts| == 0 then ""
    else if |parts| == 1 then parts[0]
    else parts[0] + sep + Join(parts[1..], sep)
  }

  /** Joining two non-empty runs of parts is joining each run and putting
      one separator between them. */
  lemma {:induction false} JoinConcat(a: seq<string>, b: seq<string>, sep: string)
    requires a != [] && b != []
    ensures Join(a + b, sep) == Join(a, sep) + sep + Join(b, sep)
    decreases |a|
  {
    if |a| == 1 {
      assert (a + b)[1..] == b;
    } else {
      JoinConcat(a[1..], b, sep);
      assert (a + b)[1..] == a[1..] + b;
    }
  }

  /** Joining one more part extends the joined string by a separator and
      that part (or gives just that part when there was nothing before). */
  lemma JoinAppend(parts: seq<string>, p: string, sep: string)
    ensures Join(parts + [p], sep) == if parts == [] then p else Join(parts, sep) + sep + p
  {
    if parts == [] {
      assert parts + [p] == [p];
    } else {
      JoinConcat(parts, [p], sep);
    }
  }

  /** When no part is empty, the joined string is empty exactly when there
      are no parts. */
  lemma JoinEmptyIff(parts: seq<string>, sep: string)
    requires forall i :: 0 <= i < |parts| ==> parts[i] != ""
    ensures Join(parts, sep) == "" <==> parts == []
  {
  }
}
