/** `strconv.ParseUint(s, 10, 64)` and `strconv.ParseInt(s, 10, 64)` from Go's
    standard library, as their digit loop behaves, together with the grammar
    of a signed decimal numeral that they are proved against. */
module Strconv {
  import opened Go

  /** The sentinel errors `strconv.ErrSyntax` and `strconv.ErrRange`. */
  datatype ErrKind = ErrSyntax | ErrRange

  /** `*strconv.NumError`: the failing function, the input and the cause. */
  datatype NumError = NumError(func: string, num: string, err: ErrKind)

  /** `(*NumError).Error()`; the input is quoted without `strconv.Quote`'s escapes. */
  function ErrorText(e: NumError): (r: string)
    ensures |r| >= 8 && r[..8] == "strconv."
    ensures var at := |"strconv." + e.func + ": parsing \""|;
      at + |e.num| <= |r| && r[at..at + |e.num|] == e.num
    ensures |r| >= |KindText(e.err)| && r[|r| - |KindText(e.err)|..] == KindText(e.err)
  {
    "strconv." + e.func + ": parsing \"" + e.num + "\": " + KindText(e.err)
  }

  /** `ErrSyntax.Error()` and `ErrRange.Error()` */
  function KindText(k: ErrKind): string {
    if k == ErrSyntax then "invalid syntax" else "value out of range"
  }

  // ---- The grammar of a signed decimal numeral ----

  predicate IsDigit(c: char) {
    '0' <= c <= '9'
  }

  predicate AllDigits(s: string) {
    forall i | 0 <= i < |s| :: IsDigit(s[i])
  }

  function DigitValue(c: char): (d: nat)
    requires IsDigit(c)
    ensures d <= 9
  {
    c as int - '0' as int
  }

  /** The positional value of a digit string, most significant digit first. */
  function DigitsValue(ds: string): nat
    requires AllDigits(ds)
  {
    if ds == [] then 0 else DigitsValue(ds[..|ds| - 1]) * 10 + DigitValue(ds[|ds| - 1])
  }

  /** The longest prefix of `s` made of digits. */
  function LeadingDigits(s: string): (p: string)
    ensures |p| <= |s| && p == s[..|p|] && AllDigits(p)
    ensures p == s || !IsDigit(s[|p|])
  {
    if s == [] || !IsDigit(s[0]) then [] else [s[0]] + LeadingDigits(s[1..])
  }

  predicate Negative(s: string) {
    |s| > 0 && s[0] == '-'
  }

  /** `s` without one leading '+' or '-', if it has one. */
  function Unsigned(s: string): (u: string)
    ensures |s| > 0 && (s[0] == '+' || s[0] == '-') ==> u == s[1..]
    ensures !(|s| > 0 && (s[0] == '+' || s[0] == '-')) ==> u == s
  {
    if |s| > 0 && (s[0] == '+' || s[0] == '-') then s[1..] else s
  }

  /** An optional single sign followed by one or more ASCII digits, and nothing else. */
  predicate IsNumeral(s: string) {
    |Unsigned(s)| > 0 && AllDigits(Unsigned(s))
  }

  /** The integer a numeral denotes. */
  function NumeralValue(s: string): int
    requires IsNumeral(s)
  {
    var v: int := DigitsValue(Unsigned(s));
    if Negative(s) then -v else v
  }

  /** The digits that follow the sign already exceed 64 bits: the digit loop
      reports a range error there, before it looks at the rest of the input. */
  predicate DigitsOverflow(s: string) {
    DigitsValue(LeadingDigits(Unsigned(s))) > MaxUint64
  }

  /** `strconv.FormatUint(n, 10)`: the decimal digits of `n`, no leading zero. */
  function FormatDigits(n: nat): string {
    var c := ('0' as int + n % 10) as char;
    if n < 10 then [c] else FormatDigits(n / 10) + [c]
  }

  /** `strconv.FormatInt(x, 10)`: a '-' before the digits of a negative `x`. */
  function FormatInt(x: int): string {
    if x < 0 then "-" + FormatDigits(-x) else FormatDigits(x)
  }

  // ---- The digit loop of strconv.ParseUint ----

  datatype Scan = Done(n: nat) | BadDigit | Overflow

  /** One pass of the loop over the characters of `s`, with accumulator `n`:
      a non-digit is a syntax error, and a step past 2^64 - 1 a range error. */
  function ScanDigits(s: string, n: nat): (r: Scan)
    requires n <= MaxUint64
    ensures r.Done? ==> n <= r.n <= MaxUint64
  {
    if s == [] then Done(n)
    else if !IsDigit(s[0]) then BadDigit
    else if n * 10 + DigitValue(s[0]) > MaxUint64 then Overflow
    else ScanDigits(s[1..], n * 10 + DigitValue(s[0]))
  }

  /** `strconv.ParseUint(s, 10, 64)`. On a range error it returns the largest uint64. */
  function ParseUint(s: string): (r: Returns<uint64, NumError>)
    ensures r.err.None? <==> |s| > 0 && AllDigits(s) && DigitsValue(s) <= MaxUint64
    ensures r.err.None? ==> AllDigits(s) && r.value as int == DigitsValue(s)
    ensures r.err.Some? ==> r.err.value.func == "ParseUint" && r.err.value.num == s
    ensures (r.err.Some? && r.err.value.err == ErrRange) <==> DigitsValue(LeadingDigits(s)) > MaxUint64
    ensures r.err.Some? && r.err.value.err == ErrRange ==> r.value as int == MaxUint64
    ensures r.err.Some? && r.err.value.err == ErrSyntax ==> r.value == 0
  {
    ScanDigitsSpec([], s);
    LeadingDigitsWhole(s);
    assert [] + s == s && [] + LeadingDigits(s) == LeadingDigits(s);
    if s == [] then Returns(0, Some(NumError("ParseUint", s, ErrSyntax)))
    else match ScanDigits(s, 0)
      case Done(n) => Returns(n as uint64, None)
      case BadDigit => Returns(0, Some(NumError("ParseUint", s, ErrSyntax)))
      case Overflow => Returns(MaxUint64 as uint64, Some(NumError("ParseUint", s, ErrRange)))
  }

  /** `strconv.ParseInt(s, 10, 64)`: strip one sign, convert the rest with
      ParseUint, then check the magnitude against 2^63. On a range error it
      returns the int64 bound on the side of the sign. */
  function ParseInt(s: string): (r: Returns<int64, NumError>)
    ensures r.err.None? <==> IsNumeral(s) && InInt64(NumeralValue(s))
    ensures r.err.None? ==> IsNumeral(s) && r.value as int == NumeralValue(s)
    ensures r.err.Some? ==> r.err.value.func == "ParseInt" && r.err.value.num == s
    ensures (r.err.Some? && r.err.value.err == ErrRange)
              <==> (DigitsOverflow(s) || (IsNumeral(s) && !InInt64(NumeralValue(s))))
    ensures (r.err.Some? && r.err.value.err == ErrRange)
              ==> r.value as int == (if Negative(s) then MinInt64 else MaxInt64)
    ensures r.err.Some? && r.err.value.err == ErrSyntax ==> r.value == 0
  {
    LeadingDigitsWhole(Unsigned(s));
    if s == [] then Returns(0, Some(NumError("ParseInt", s, ErrSyntax)))
    else
      var neg := s[0] == '-';
      var u := if s[0] == '+' || s[0] == '-' then s[1..] else s;
      assert u == Unsigned(s);
      var un := ParseUint(u);
      var cutoff: int := 0x8000_0000_0000_0000;
      if un.err.Some? && un.err.value.err != ErrRange then
        Returns(0, Some(NumError("ParseInt", s, un.err.value.err)))
      else if !neg && un.value as int >= cutoff then
        Returns((cutoff - 1) as int64, Some(NumError("ParseInt", s, ErrRange)))
      else if neg && un.value as int > cutoff then
        Returns((-cutoff) as int64, Some(NumError("ParseInt", s, ErrRange)))
      else
        // int64(un), then n = -n: both wrap around, which matters for -2^63
        var n := Wrap64(un.value as int);
        Returns(if neg then Wrap64(-(n as int)) else n, None)
  }

  // ---- Lemmas ----

  lemma {:induction false} AllDigitsAppend(p: string, q: string)
    requires AllDigits(p) && AllDigits(q)
    ensures AllDigits(p + q)
  {
    forall i | 0 <= i < |p + q| ensures IsDigit((p + q)[i]) {
      if i >= |p| {
        assert (p + q)[i] == q[i - |p|];
      }
    }
  }

  /** The leading digits are the whole string exactly when it is all digits. */
  lemma LeadingDigitsWhole(s: string)
    ensures LeadingDigits(s) == s <==> AllDigits(s)
  {
  }

  /** Appending a digit shifts the value one decimal place. */
  lemma DigitsValueSnoc(p: string, c: char)
    requires AllDigits(p) && IsDigit(c)
    ensures AllDigits(p + [c]) && DigitsValue(p + [c]) == DigitsValue(p) * 10 + DigitValue(c)
  {
    assert (p + [c])[..|p|] == p;
  }

  /** Appending digits never lowers the value. */
  lemma {:induction false} DigitsValueMonotone(p: string, q: string)
    requires AllDigits(p) && AllDigits(q)
    ensures AllDigits(p + q) && DigitsValue(p) <= DigitsValue(p + q)
    decreases |q|
  {
    AllDigitsAppend(p, q);
    if q != [] {
      var q' := q[..|q| - 1];
      DigitsValueMonotone(p, q');
      assert (p + q)[..|p + q| - 1] == p + q';
      assert DigitsValue(p + q) == DigitsValue(p + q') * 10 + DigitValue(q[|q| - 1]);
    } else {
      assert p + q == p;
    }
  }

  /** Solver hint: associativity of `+`, proved apart from the digit facts
      that make it costly in context. */
  lemma AppendAssoc<T>(a: seq<T>, b: seq<T>, c: seq<T>)
    ensures a + (b + c) == (a + b) + c
  {
  }

  /** Moving the first digit of `ds` onto the prefix `p`: the new prefix is
      all digits, worth ten times `p` plus that digit, and followed by the
      rest of `ds` it makes the same string `p + ds`. */
  lemma ShiftDigit(p: string, ds: string, tail: string)
    requires AllDigits(p) && AllDigits(ds) && ds != []
    ensures AllDigits(p + [ds[0]])
    ensures DigitsValue(p + [ds[0]]) == DigitsValue(p) * 10 + DigitValue(ds[0])
    ensures p + ds == (p + [ds[0]]) + ds[1..]
    ensures (ds + tail)[0] == ds[0] && (ds + tail)[1..] == ds[1..] + tail
  {
    DigitsValueSnoc(p, ds[0]);
    assert ds == [ds[0]] + ds[1..];
    AppendAssoc(p, [ds[0]], ds[1..]);
  }

  /** The loop, resumed after a digit prefix `p`, reports a range error once
      `p` with the digits `ds` that follow it exceeds 2^64 - 1, whatever
      comes after them. */
  lemma {:induction false} ScanOverflows(p: string, ds: string, tail: string)
    requires AllDigits(p) && AllDigits(ds) && DigitsValue(p) <= MaxUint64
    requires AllDigits(p + ds) && DigitsValue(p + ds) > MaxUint64
    ensures ScanDigits(ds + tail, DigitsValue(p)) == Overflow
    decreases |ds|
  {
    assert ds == [] ==> p + ds == p;
    if ds != [] {
      var p' := p + [ds[0]];
      ShiftDigit(p, ds, tail);
      if DigitsValue(p') <= MaxUint64 {
        ScanOverflows(p', ds[1..], tail);
      }
    } else {
      assert false;
    }
  }

  /** The loop, resumed after a digit prefix `p`, ends with the value of `p`
      and `ds` when only the digits `ds` follow and that value fits 64 bits. */
  lemma {:induction false} ScanFinishes(p: string, ds: string)
    requires AllDigits(p) && AllDigits(ds)
    requires AllDigits(p + ds) && DigitsValue(p + ds) <= MaxUint64
    ensures DigitsValue(p) <= MaxUint64
    ensures ScanDigits(ds, DigitsValue(p)) == Done(DigitsValue(p + ds))
    decreases |ds|
  {
    DigitsValueMonotone(p, ds);
    if ds == [] {
      assert p + ds == p;
    } else {
      var p' := p + [ds[0]];
      ShiftDigit(p, ds, []);
      ScanFinishes(p', ds[1..]);
    }
  }

  /** The loop, resumed after a digit prefix `p`, reports a syntax error when
      the digits `ds` are followed by a non-digit and `p` with `ds` fits 64 bits. */
  lemma {:induction false} ScanStopsAtNonDigit(p: string, ds: string, tail: string)
    requires AllDigits(p) && AllDigits(ds) && DigitsValue(p) <= MaxUint64
    requires AllDigits(p + ds) && DigitsValue(p + ds) <= MaxUint64
    requires tail != [] && !IsDigit(tail[0])
    ensures ScanDigits(ds + tail, DigitsValue(p)) == BadDigit
    decreases |ds|
  {
    if ds == [] {
      assert ds + tail == tail;
    } else {
      var p' := p + [ds[0]];
      ShiftDigit(p, ds, tail);
      DigitsValueMonotone(p', ds[1..]);
      ScanStopsAtNonDigit(p', ds[1..], tail);
    }
  }

  /** What the digit loop computes, resumed after a digit prefix `p`: a range
      error exactly when `p` with the digits that follow it exceeds 2^64 - 1,
      otherwise the value when only digits follow, otherwise a syntax error. */
  lemma ScanDigitsSpec(p: string, rest: string)
    requires AllDigits(p) && DigitsValue(p) <= MaxUint64
    ensures AllDigits(p + LeadingDigits(rest))
    ensures ScanDigits(rest, DigitsValue(p)) ==
      if DigitsValue(p + LeadingDigits(rest)) > MaxUint64 then Overflow
      else if LeadingDigits(rest) == rest then Done(DigitsValue(p + LeadingDigits(rest)))
      else BadDigit
  {
    var ds := LeadingDigits(rest);
    var tail := rest[|ds|..];
    assert rest == ds + tail;
    AllDigitsAppend(p, ds);
    if DigitsValue(p + ds) > MaxUint64 {
      ScanOverflows(p, ds, tail);
    } else if ds == rest {
      ScanFinishes(p, rest);
    } else {
      ScanStopsAtNonDigit(p, ds, tail);
    }
  }

  /** Formatting then parsing gives back every int64. */
  lemma ParseIntFormatInt(x: int)
    requires InInt64(x)
    ensures ParseInt(FormatInt(x)) == Returns(x as int64, None)
  {
    FormatIntSpec(x);
  }

  /** The digits FormatDigits writes denote the number it was given, and
      start with '0' only for 0. */
  lemma {:induction false} FormatDigitsSpec(n: nat)
    ensures var ds := FormatDigits(n);
      |ds| > 0 && AllDigits(ds) && DigitsValue(ds) == n && (ds[0] != '0' || n == 0)
  {
    if n >= 10 {
      FormatDigitsSpec(n / 10);
      var init := FormatDigits(n / 10);
      var c := ('0' as int + n % 10) as char;
      DigitsValueSnoc(init, c);
      assert FormatDigits(n)[0] == init[0];
    }
  }

  /** FormatInt writes a numeral that denotes its argument. */
  lemma FormatIntSpec(x: int)
    ensures IsNumeral(FormatInt(x)) && NumeralValue(FormatInt(x)) == x
  {
    FormatDigitsSpec(if x < 0 then -x else x);
    if x < 0 {
      assert Unsigned(FormatInt(x)) == FormatDigits(-x);
    }
  }
}
