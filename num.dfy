/** Package num (components/common-go/num/parse.go): decimal parsing of a
    string into int64, and its narrowing to int32 and uint32, with the errors
    "empty input", "invalid input value", strconv's range error passed through,
    and "input value out of range (int32|uint32)". Every error comes with the
    value 0. */
module Num {
  import opened Go
  import opened Strings
  import opened Strconv

  /** The 32-bit type a narrowing wrapper names in its range error. */
  datatype IntKind = Int32 | Uint32

  /** The errors the package returns. NumErr is strconv's error passed on unchanged. */
  datatype Error = EmptyInput | InvalidInput | NumErr(cause: NumError) | OutOfRange(kind: IntKind)

  /** `err.Error()`: the four texts of package num, or strconv's text for
      its own error. Only strconv's texts start with "strconv.". */
  function Message(e: Error): (r: string)
    ensures e.NumErr? <==> |r| >= 8 && r[..8] == "strconv."
  {
    match e
    case EmptyInput => assert "empty input"[0] != 's'; "empty input"
    case InvalidInput => assert "invalid input value"[0] != 's'; "invalid input value"
    case NumErr(cause) => ErrorText(cause)
    case OutOfRange(Int32) =>
      assert "input value out of range (int32)"[0] != 's';
      "input value out of range (int32)"
    case OutOfRange(Uint32) =>
      assert "input value out of range (uint32)"[0] != 's';
      "input value out of range (uint32)"
  }

  /** The errors ParseInt, ParseInt32 and ParseUint32 can return: strconv's
      errors reach the caller only as range errors of ParseInt. */
  predicate Returnable(e: Error) {
    e.NumErr? ==> e.cause.func == "ParseInt" && e.cause.err == ErrRange
  }

  /** parseInt: blank input (after trimming) is "empty input"; otherwise the
      UNTRIMMED input is handed to strconv.ParseInt, whose syntax error becomes
      "invalid input value" and whose range error is returned as it is. */
  function ParseInt(input: string): (r: Returns<int64, Error>)
    ensures r.err.Some? ==> r.value == 0 && Returnable(r.err.value) && !r.err.value.OutOfRange?
    ensures r.err == Some(EmptyInput) <==> Blank(input)
    ensures r.err == Some(InvalidInput) <==>
        (!Blank(input) && !IsNumeral(input) && !DigitsOverflow(input))
    ensures (r.err.Some? && r.err.value.NumErr?) <==>
        (DigitsOverflow(input) || (IsNumeral(input) && !InInt64(NumeralValue(input))))
    ensures (r.err.Some? && r.err.value.NumErr?) ==> r.err.value.cause.num == input
    ensures r.err.None? <==> (IsNumeral(input) && InInt64(NumeralValue(input)))
    ensures r.err.None? ==> IsNumeral(input) && r.value as int == NumeralValue(input)
  {
    TrimSpaceEmptyIff(input);
    BlankIsNoNumber(input);
    var s := TrimSpace(input);
    if |s| == 0 then Returns(0, Some(EmptyInput))
    else
      var p := Strconv.ParseInt(input);
      if p.err.Some? then
        if p.err.value.err == ErrSyntax then Returns(0, Some(InvalidInput))
        else Returns(0, Some(NumErr(p.err.value)))
      else Returns(p.value, None)
  }

  /** ParseInt32: parseInt's error unchanged, or a value outside [0, MaxInt32]
      rejected (negatives included), or the value narrowed to int32. */
  function ParseInt32(input: string): (r: Returns<int32, Error>)
    ensures r.err.Some? ==> r.value == 0 && Returnable(r.err.value)
    ensures ParseInt(input).err.Some? ==> r.err == ParseInt(input).err
    ensures r.err == Some(OutOfRange(Int32)) <==>
        (IsNumeral(input) && InInt64(NumeralValue(input))
         && !(0 <= NumeralValue(input) <= MaxInt32))
    ensures r.err.None? <==> (IsNumeral(input) && 0 <= NumeralValue(input) <= MaxInt32)
    ensures r.err.None? ==> IsNumeral(input) && r.value as int == NumeralValue(input)
    ensures r.err.Some? ==> r.err.value != OutOfRange(Uint32)
  {
    var parsed := ParseInt(input);
    if parsed.err.Some? then Returns(0, parsed.err)
    else if parsed.value < 0 || parsed.value as int > MaxInt32 then
      Returns(0, Some(OutOfRange(Int32)))
    else Returns(parsed.value as int32, None)
  }

  /** ParseUint32: as ParseInt32, with the bound MaxInt32 (not MaxUint32), so
      values in (MaxInt32, MaxUint32] are rejected although they fit a uint32. */
  function ParseUint32(input: string): (r: Returns<uint32, Error>)
    ensures r.err.Some? ==> r.value == 0 && Returnable(r.err.value)
    ensures ParseInt(input).err.Some? ==> r.err == ParseInt(input).err
    ensures r.err == Some(OutOfRange(Uint32)) <==>
        (IsNumeral(input) && InInt64(NumeralValue(input))
         && !(0 <= NumeralValue(input) <= MaxInt32))
    ensures r.err.None? <==> (IsNumeral(input) && 0 <= NumeralValue(input) <= MaxInt32)
    ensures r.err.None? ==> IsNumeral(input) && r.value as int == NumeralValue(input)
    ensures r.err.Some? ==> r.err.value != OutOfRange(Int32)
  {
    var parsed := ParseInt(input);
    if parsed.err.Some? then Returns(0, parsed.err)
    else if parsed.value < 0 || parsed.value as int > MaxInt32 then
      Returns(0, Some(OutOfRange(Uint32)))
    else Returns(parsed.value as uint32, None)
  }

  // ---- Lemmas ----

  /** White space is neither a numeral nor a run of digits. */
  lemma BlankIsNoNumber(s: string)
    ensures Blank(s) ==> !IsNumeral(s) && !DigitsOverflow(s)
  {
    if Blank(s) && s != [] {
      assert IsSpace(s[0]);
      assert Unsigned(s) == s;
      assert LeadingDigits(s) == [];
    }
  }

  /** Input that starts with white space but is not blank is converted
      untrimmed, so it is always "invalid input value", never a number. */
  lemma LeadingSpaceIsInvalid(input: string)
    requires |input| > 0 && IsSpace(input[0]) && !Blank(input)
    ensures ParseInt(input) == Returns(0, Some(InvalidInput))
  {
    assert Unsigned(input) == input;
    assert LeadingDigits(input) == [];
  }

  /** Input that ends with white space but is not blank is never accepted:
      it is "invalid input value", or strconv's range error when the digits
      before it already exceed 64 bits. */
  lemma TrailingSpaceIsRejected(input: string)
    requires |input| > 0 && IsSpace(input[|input| - 1]) && !Blank(input)
    ensures ParseInt(input).err.Some?
    ensures ParseInt(input).err.value == InvalidInput || ParseInt(input).err.value.NumErr?
  {
    var u := Unsigned(input);
    if |u| > 0 {
      assert u[|u| - 1] == input[|input| - 1];
    }
  }

  /** A numeral outside the int64 range is strconv's range error, passed on
      with the input it was given, and never "invalid input value". */
  lemma Int64RangeErrorPassesThrough(input: string)
    requires IsNumeral(input) && !InInt64(NumeralValue(input))
    ensures ParseInt(input) == Returns(0, Some(NumErr(NumError("ParseInt", input, ErrRange))))
  {
    BlankIsNoNumber(input);
  }

  /** Once the leading digits pass 2^64 - 1, strconv reports a range error
      before it reaches a later bad character: such input is not a numeral,
      yet it gives the range error and not "invalid input value". */
  lemma OverflowBeforeSyntax(ds: string, rest: string)
    requires AllDigits(ds) && DigitsValue(ds) > MaxUint64
    requires |rest| > 0 && !IsDigit(rest[0])
    ensures !IsNumeral(ds + rest)
    ensures ParseInt(ds + rest) == Returns(0, Some(NumErr(NumError("ParseInt", ds + rest, ErrRange))))
  {
    var s := ds + rest;
    assert ds != [] && s[0] == ds[0];
    assert Unsigned(s) == s;
    assert !IsDigit(s[|ds|]);
    LeadingDigitsOfDigitsThen(ds, rest);
  }

  /** The leading digits of `ds + rest`, when `rest` starts with a non-digit, are `ds`. */
  lemma {:induction false} LeadingDigitsOfDigitsThen(ds: string, rest: string)
    requires AllDigits(ds) && |rest| > 0 && !IsDigit(rest[0])
    ensures LeadingDigits(ds + rest) == ds
    decreases |ds|
  {
    if ds == [] {
      assert ds + rest == rest;
    } else {
      LeadingDigitsOfDigitsThen(ds[1..], rest);
      assert (ds + rest)[1..] == ds[1..] + rest;
      assert ds == [ds[0]] + ds[1..];
    }
  }

  /** The decimal form of an int64 is parsed back to it by ParseInt, and by
      the wrappers when it lies in [0, MaxInt32]; otherwise the wrappers
      report it out of range. */
  lemma FormatIntRoundTrip(s: string, x: int)
    requires InInt64(x) && s == FormatInt(x)
    ensures ParseInt(s) == Returns(x as int64, None)
    ensures ParseInt32(s) ==
      if 0 <= x <= MaxInt32 then Returns(x as int32, None) else Returns(0, Some(OutOfRange(Int32)))
    ensures ParseUint32(s) ==
      if 0 <= x <= MaxInt32 then Returns(x as uint32, None) else Returns(0, Some(OutOfRange(Uint32)))
  {
    FormatIntSpec(x);
  }

  /** ParseUint32's upper bound is MaxInt32: every numeral in
      (MaxInt32, MaxUint32], although it fits a uint32, is out of range. */
  lemma Uint32BoundIsMaxInt32(input: string)
    requires IsNumeral(input) && MaxInt32 < NumeralValue(input) <= MaxUint32
    ensures ParseUint32(input) == Returns(0, Some(OutOfRange(Uint32)))
  {
  }

  /** The wrappers accept the same inputs, with the same value, and differ
      only in the type named by the range error. */
  lemma WrappersAgree(input: string)
    ensures ParseInt32(input).err.None? <==> ParseUint32(input).err.None?
    ensures ParseInt32(input).value as int == ParseUint32(input).value as int
    ensures ParseInt32(input).err == Some(OutOfRange(Int32)) <==>
        ParseUint32(input).err == Some(OutOfRange(Uint32))
    ensures ParseInt32(input).err.Some? && !ParseInt32(input).err.value.OutOfRange? ==>
        ParseInt32(input).err == ParseUint32(input).err
  {
  }

  /** The message of strconv's range error for `num`. */
  lemma RangeMessage(num: string)
    ensures Message(NumErr(NumError("ParseInt", num, ErrRange)))
              == "strconv.ParseInt: parsing \"" + num + "\": value out of range"
  {
    var lead, quote, kind := "strconv." + "ParseInt" + ": parsing \"", "\": ", "value out of range";
    assert lead == "strconv.ParseInt: parsing \"";
    assert quote + kind == "\": value out of range";
    assert ErrorText(NumError("ParseInt", num, ErrRange)) == lead + num + quote + kind;
    AppendAssoc(lead + num, quote, kind);
  }

  /** The message of an error tells which error it is. */
  lemma MessageIdentifiesError(e1: Error, e2: Error)
    requires Returnable(e1) && Returnable(e2)
    requires Message(e1) == Message(e2)
    ensures e1 == e2
  {
    var prefix := "strconv.ParseInt: parsing \"";
    var suffix := "\": value out of range";
    if e1.NumErr? {
      RangeMessage(e1.cause.num);
    }
    if e2.NumErr? {
      RangeMessage(e2.cause.num);
    }
    var m := Message(e1);
    if e1.NumErr? && e2.NumErr? {
      assert e1.cause.num == m[|prefix|..|m| - |suffix|];
      assert e2.cause.num == m[|prefix|..|m| - |suffix|];
    } else if !e1.NumErr? && !e2.NumErr? {
      assert |Message(e1)| == |Message(e2)|;
    }
  }
}
