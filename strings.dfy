/**
  * Text helpers shared by the video assembler and the filename sanitiser:
  * decimal rendering of naturals (Python's `str(n)` and the `:03d` format),
  * `sep.join(parts)`, `s.split(sep)` for a one-character separator, and
  * the path join that `pathlib.Path`'s `/` operator performs.
  */
module Strings {

  predicate IsDigit(c: char) { '0' <= c <= '9' }

  predicate AllDigits(s: string) { forall i :: 0 <= i < |s| ==> IsDigit(s[i]) }

  function DigitChar(d: nat): (c: char)
    requires d < 10
    ensures IsDigit(c) && c as int - '0' as int == d
  {
    ('0' as int + d) as char
  }

  /** The shortest decimal spelling of `n`, as Python's `str(n)`. */
  function NatToString(n: nat): (s: string)
    ensures |s| >= 1 && AllDigits(s)
    ensures (s[0] == '0') <==> (n == 0)
    decreases n
  {
    if n < 10 then [DigitChar(n)] else NatToString(n / 10) + [DigitChar(n % 10)]
  }

  /** The number a string of decimal digits spells (leading zeros allowed). */
  function DecimalValue(s: string): nat
    requires AllDigits(s)
  {
    if s == [] then 0
    else DecimalValue(s[..|s| - 1]) * 10 + (s[|s| - 1] as int - '0' as int)
  }

  function Pow10(k: nat): nat
  {
    if k == 0 then 1 else 10 * Pow10(k - 1)
  }

  function Zeros(k: nat): (s: string)
    ensures |s| == k && AllDigits(s)
  {
    if k == 0 then "" else "0" + Zeros(k - 1)
  }

  /** Python's `f"{n:03d}"`: at least three digits, zero-padded on the left. */
  function Pad3(n: nat): (s: string)
    ensures AllDigits(s) && |s| >= 3
    ensures n < 1000 ==> |s| == 3
    ensures n >= 1000 ==> s == NatToString(n)
  {
    var d := NatToString(n);
    NatToStringShort(n);
    if |d| >= 3 then d else Zeros(3 - |d|) + d
  }

  lemma NatToStringShort(n: nat)
    ensures n < 1000 ==> |NatToString(n)| <= 3
  {
    if 10 <= n < 1000 {
      assert NatToString(n) == NatToString(n / 10) + [DigitChar(n % 10)];
      if n / 10 >= 10 {
        assert NatToString(n / 10) == NatToString(n / 100) + [DigitChar(n / 10 % 10)];
      }
    }
  }

  /** Reading back the decimal spelling gives the number. */
  lemma {:induction false} NatToStringRoundTrip(n: nat)
    ensures DecimalValue(NatToString(n)) == n
    decreases n
  {
    if n >= 10 {
      var s := NatToString(n);
      assert s[..|s| - 1] == NatToString(n / 10);
      NatToStringRoundTrip(n / 10);
    }
  }

  lemma {:induction false} DecimalValueZeros(k: nat)
    ensures DecimalValue(Zeros(k)) == 0
  {
    if k > 0 {
      assert Zeros(k)[..k - 1] == Zeros(k - 1) by {
        assert Zeros(k) == Zeros(k - 1) + "0" by { ZerosSnoc(k - 1); }
      }
      DecimalValueZeros(k - 1);
    }
  }

  lemma {:induction false} ZerosSnoc(k: nat)
    ensures Zeros(k + 1) == Zeros(k) + "0"
  {
    if k > 0 {
      ZerosSnoc(k - 1);
    }
  }

  /** Leading zeros do not change the value a digit string spells. */
  lemma {:induction false} DecimalValueLeadingZeros(k: nat, s: string)
    requires AllDigits(s)
    ensures AllDigits(Zeros(k) + s) && DecimalValue(Zeros(k) + s) == DecimalValue(s)
    decreases |s|
  {
    var z := Zeros(k) + s;
    if s == [] {
      assert z == Zeros(k);
      DecimalValueZeros(k);
    } else {
      assert z[..|z| - 1] == Zeros(k) + s[..|s| - 1];
      DecimalValueLeadingZeros(k, s[..|s| - 1]);
    }
  }

  /** A digit string of length k spells a number below 10^k. */
  lemma {:induction false} DecimalValueBound(s: string)
    requires AllDigits(s)
    ensures DecimalValue(s) < Pow10(|s|)
    decreases |s|
  {
    if s != [] {
      DecimalValueBound(s[..|s| - 1]);
    }
  }

  /** `:03d` loses nothing: the padded spelling reads back as the number. */
  lemma Pad3RoundTrip(n: nat)
    ensures DecimalValue(Pad3(n)) == n
  {
    var d := NatToString(n);
    NatToStringRoundTrip(n);
    if |d| < 3 {
      DecimalValueLeadingZeros(3 - |d|, d);
    }
  }

  /** Numbers of 1000 and above keep all their digits (more than three). */
  lemma Pad3Wide(n: nat)
    requires n >= 1000
    ensures |Pad3(n)| > 3
  {
    Pad3RoundTrip(n);
    DecimalValueBound(Pad3(n));
    assert Pow10(3) == 1000;
  }

  /** Distinct numbers get distinct padded spellings. */
  lemma Pad3Injective(m: nat, n: nat)
    requires Pad3(m) == Pad3(n)
    ensures m == n
  {
    Pad3RoundTrip(m);
    Pad3RoundTrip(n);
  }

  /** Python's `sep.join(parts)`. */
  function Join(sep: string, parts: seq<string>): string
    decreases |parts|
  {
    if |parts| == 0 then ""
    else if |parts| == 1 then parts[0]
    else parts[0] + sep + Join(sep, parts[1..])
  }

  /** The joined text is empty for no parts; otherwise it starts with the
      first part (followed by `sep` when there is a second) and ends with
      the last part. */
  lemma {:induction false} JoinEnds(sep: string, parts: seq<string>)
    ensures parts == [] ==> Join(sep, parts) == ""
    ensures |parts| >= 1 ==> |Join(sep, parts)| >= |parts[0]| && Join(sep, parts)[..|parts[0]|] == parts[0]
    ensures |parts| >= 2 ==>
              |Join(sep, parts)| >= |parts[0]| + |sep| &&
              Join(sep, parts)[|parts[0]|..|parts[0]| + |sep|] == sep
    ensures |parts| >= 1 ==>
              |Join(sep, parts)| >= |parts[|parts| - 1]| &&
              Join(sep, parts)[|Join(sep, parts)| - |parts[|parts| - 1]|..] == parts[|parts| - 1]
    decreases |parts|
  {
    if |parts| >= 2 {
      var rest := Join(sep, parts[1..]);
      JoinEnds(sep, parts[1..]);
      assert parts[1..][|parts[1..]| - 1] == parts[|parts| - 1];
      assert Join(sep, parts) == parts[0] + sep + rest;
    }
  }

  /** Python's `s.split(c)` for a one-character separator `c`. */
  function SplitOn(c: char, s: string): (r: seq<string>)
    ensures |r| >= 1
    decreases |s|
  {
    if s == [] then [""]
    else
      var rest := SplitOn(c, s[1..]);
      if s[0] == c then [""] + rest else [[s[0]] + rest[0]] + rest[1..]
  }

  /** Splitting a string free of `c`, then more text after a `c`. */
  lemma {:induction false} SplitOnPrefix(c: char, p: string, t: string)
    requires c !in p
    ensures SplitOn(c, p + [c] + t) == [p] + SplitOn(c, t)
    decreases |p|
  {
    if p != [] {
      assert (p + [c] + t)[1..] == p[1..] + [c] + t;
      assert p[0] == (p + [c] + t)[0] && p[0] != c;
      SplitOnPrefix(c, p[1..], t);
      assert [p[0]] + p[1..] == p;
    } else {
      assert (p + [c] + t)[1..] == t;
    }
  }

  lemma {:induction false} SplitOnFree(c: char, p: string)
    requires c !in p
    ensures SplitOn(c, p) == [p]
    decreases |p|
  {
    if p != [] {
      SplitOnFree(c, p[1..]);
      assert [p[0]] + p[1..] == p;
    }
  }

  /** Splitting undoes joining, when no part holds the separator. */
  lemma {:induction false} SplitJoin(c: char, parts: seq<string>)
    requires |parts| >= 1
    requires forall i :: 0 <= i < |parts| ==> c !in parts[i]
    ensures SplitOn(c, Join([c], parts)) == parts
    decreases |parts|
  {
    if |parts| == 1 {
      SplitOnFree(c, parts[0]);
    } else {
      SplitOnPrefix(c, parts[0], Join([c], parts[1..]));
      SplitJoin(c, parts[1..]);
      assert [parts[0]] + parts[1..] == parts;
    }
  }

  /** `str(Path(base) / rel)` for a plain relative `rel`. */
  function PathJoin(base: string, rel: string): string
  {
    base + "/" + rel
  }
}
