/** The table of components/common-go/num/parse_test.go, and a few more
    inputs that show the edges of package num, as lemmas about the model. */
module ParseTest {
  import opened Go
  import opened Strings
  import opened Strconv
  import opened Num

  /** What TestParseUint32 checks of one row, given the row's result: when
      an error is expected, one is returned and its message is the expected
      one; the value is always the expected one. */
  predicate Passes(r: Returns<uint32, Error>, expected: uint32, error: string) {
    && (error != "" ==> r.err.Some? && Message(r.err.value) == error)
    && r.value == expected
  }

  /** Solver hint: a row that expects the message of `e` passes when `e` is
      returned. */
  lemma ErrorPasses(r: Returns<uint32, Error>, e: Error, message: string)
    requires r == Returns(0, Some(e)) && Message(e) == message
    ensures Passes(r, 0, message)
  {
  }

  /** A numeral with a value in [0, MaxInt32] passes with that value and
      no error. */
  lemma AcceptedRow(input: string, x: int)
    requires IsNumeral(input) && NumeralValue(input) == x && 0 <= x <= MaxInt32
    ensures Passes(ParseUint32(input), x as uint32, "") && ParseUint32(input).err.None?
  {
  }

  /** Solver hint: a row that expects the uint32 range error passes when it
      is returned (cheaper to prove apart than through `Message`). */
  lemma RangeErrorPasses(r: Returns<uint32, Error>)
    requires r == Returns(0, Some(OutOfRange(Uint32)))
    ensures Passes(r, 0, "input value out of range (uint32)")
  {
  }

  /** A numeral with an int64 value outside [0, MaxInt32] is rejected with
      the uint32 range error. */
  lemma RejectedOutOfRange(input: string, x: int)
    requires IsNumeral(input) && NumeralValue(input) == x
    requires InInt64(x) && !(0 <= x <= MaxInt32)
    ensures ParseUint32(input) == Returns(0, Some(OutOfRange(Uint32)))
  {
  }

  /** ... and so passes with "input value out of range (uint32)". */
  lemma OutOfRangeRow(input: string, x: int)
    requires IsNumeral(input) && NumeralValue(input) == x
    requires InInt64(x) && !(0 <= x <= MaxInt32)
    ensures Passes(ParseUint32(input), 0, "input value out of range (uint32)")
  {
    RejectedOutOfRange(input, x);
    RangeErrorPasses(ParseUint32(input));
  }

  /** Blank input passes with "empty input". */
  lemma BlankRow(input: string)
    requires Blank(input)
    ensures Passes(ParseUint32(input), 0, "empty input")
  {
    ErrorPasses(ParseUint32(input), EmptyInput, "empty input");
  }

  /** Input that is not blank and starts with neither a sign nor a digit
      passes with "invalid input value". */
  lemma InvalidRow(input: string)
    requires !Blank(input) && |input| > 0 && !IsDigit(input[0])
    requires input[0] != '+' && input[0] != '-'
    ensures Passes(ParseUint32(input), 0, "invalid input value")
  {
    assert Unsigned(input) == input && LeadingDigits(input) == [];
    ErrorPasses(ParseUint32(input), InvalidInput, "invalid input value");
  }

  /** One entry of the test table: the input, the expected value and the
      expected error message ("" for none). */
  datatype Row = Row(input: string, expected: uint32, error: string)

  const Table: seq<Row> := [
    Row("", 0, "empty input"),
    Row(" ", 0, "empty input"),
    Row("0", 0, ""),
    Row("-1", 0, "input value out of range (uint32)"),
    Row("-100", 0, "input value out of range (uint32)"),
    Row("100000000000", 0, "input value out of range (uint32)"),
    Row("1123", 1123, ""),
    Row("31000", 31000, ""),
    Row("not a number", 0, "invalid input value")
  ]

  /** What the test asserts of row `i`. */
  predicate RowPasses(i: nat)
    requires i < |Table|
  {
    var row := Table[i];
    && Passes(ParseUint32(row.input), row.expected, row.error)
    && (row.error == "" ==> ParseUint32(row.input).err.None?)
  }

  /** `x` is written `s` by FormatInt, so `s` is a numeral denoting `x`. */
  lemma Denotes(s: string, x: int)
    requires FormatInt(x) == s
    ensures IsNumeral(s) && NumeralValue(s) == x
  {
    FormatIntSpec(x);
  }

  lemma TestRow0() ensures RowPasses(0) { BlankRow(Table[0].input); }

  lemma TestRow1()
    ensures RowPasses(1)
  {
    var s := Table[1].input;
    assert |s| == 1 && IsSpace(s[0]);
    assert Blank(s);
    BlankRow(s);
  }

  lemma TestRow2()
    ensures RowPasses(2)
  {
    Denotes(Table[2].input, 0);
    AcceptedRow(Table[2].input, 0);
  }

  lemma TestRow3()
    ensures RowPasses(3)
  {
    Denotes(Table[3].input, -1);
    OutOfRangeRow(Table[3].input, -1);
  }

  lemma TestRow4()
    ensures RowPasses(4)
  {
    Denotes(Table[4].input, -100);
    OutOfRangeRow(Table[4].input, -100);
  }

  lemma TestRow5()
    ensures RowPasses(5)
  {
    Format100000000000();
    Denotes(Table[5].input, 100000000000);
    OutOfRangeRow(Table[5].input, 100000000000);
  }

  lemma TestRow6()
    ensures RowPasses(6)
  {
    Denotes(Table[6].input, 1123);
    AcceptedRow(Table[6].input, 1123);
  }

  lemma TestRow7()
    ensures RowPasses(7)
  {
    Denotes(Table[7].input, 31000);
    AcceptedRow(Table[7].input, 31000);
  }

  lemma TestRow8()
    ensures RowPasses(8)
  {
    var s := Table[8].input;
    assert s == "not a number" && !IsSpace(s[0]);
    InvalidRow(s);
  }

  /** TestParseUint32: every row of the table passes, and the rows that
      expect no error get none. */
  lemma TestParseUint32()
    ensures forall i | 0 <= i < |Table| :: RowPasses(i)
  {
    forall i | 0 <= i < |Table| ensures RowPasses(i) {
      if i == 0 { TestRow0(); }
      else if i == 1 { TestRow1(); }
      else if i == 2 { TestRow2(); }
      else if i == 3 { TestRow3(); }
      else if i == 4 { TestRow4(); }
      else if i == 5 { TestRow5(); }
      else if i == 6 { TestRow6(); }
      else if i == 7 { TestRow7(); }
      else { TestRow8(); }
    }
  }

  lemma Format1000()
    ensures FormatDigits(1000) == "1000"
  {
  }

  lemma Format1000000()
    ensures FormatDigits(1000000) == "1000000"
  {
    Format1000();
  }

  lemma Format1000000000()
    ensures FormatDigits(1000000000) == "1000000000"
  {
    Format1000000();
  }

  lemma Format100000000000()
    ensures FormatInt(100000000000) == "100000000000"
  {
    Format1000000000();
  }

  /** A number without surrounding white space is accepted. */
  lemma UntrimmedNumber()
    ensures Num.ParseInt("12") == Returns(12, None)
  {
    assert FormatInt(12) == "12";
    FormatIntRoundTrip("12", 12);
  }

  /** Leading white space is not trimmed before conversion. */
  lemma UntrimmedLeadingSpace()
    ensures Num.ParseInt(" 12") == Returns(0, Some(InvalidInput))
  {
    assert !IsSpace(" 12"[1]);
    LeadingSpaceIsInvalid(" 12");
  }

  /** Trailing white space is not trimmed before conversion. */
  lemma UntrimmedTrailingSpace()
    ensures Num.ParseInt("12 ") == Returns(0, Some(InvalidInput))
  {
    var ds, t := "12", "12 ";
    assert t == ds + " " && !IsSpace(t[0]) && !IsDigit(t[2]);
    assert Unsigned(t) == t;
    assert AllDigits(ds);
    LeadingDigitsOfDigitsThen(ds, " ");
    FormatDigitsSpec(12);
    assert FormatDigits(12) == ds;
  }
}
