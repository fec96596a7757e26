# Package num: decimal parsing into int64, int32 and uint32

This project models Go package `num` (components/common-go/num/parse.go) and
proves properties of that model in Dafny. The package has three functions:

- `parseInt` classifies its input as follows:
  - input that `strings.TrimSpace` reduces to nothing gives "empty input";
  - otherwise the untrimmed input goes to `strconv.ParseInt(input, 10, 64)`;
  - strconv's syntax error becomes "invalid input value";
  - any other strconv error, in practice the range error, is returned unchanged.
- `ParseInt32` and `ParseUint32` return `parseInt`'s error unchanged.
  - They reject a value outside [0, MaxInt32] with "input value out of range (int32)" or "(uint32)".
  - Otherwise they narrow the value to 32 bits.

Every error comes with the value 0.

The model has five modules:

- `Go` holds Go's integer types and bounds. It also holds the (value, error) pair `Returns`, where `err == None` stands for a nil error.
- `Strings` holds `unicode.IsSpace` and `strings.TrimSpace`. Strings are taken as sequences of Unicode code points.
  - White space is the Latin-1 set plus the other White_Space code points.
- `Strconv` holds `strconv.ParseUint(s, 10, 64)` and `strconv.ParseInt(s, 10, 64)`, written the way Go's digit loop runs. They are proved against an independent grammar:
  - `IsNumeral`: one optional sign, then one or more ASCII digits;
  - `NumeralValue`: the value of such a numeral.
- `Num` holds `parseInt` (here `Num.ParseInt`), `ParseInt32` and `ParseUint32`. Their contracts classify every input by that grammar.
- `ParseTest` restates the table of `TestParseUint32` (components/common-go/num/parse_test.go) row by row.

The model keeps three features of the code:

- **Untrimmed conversion.** Only the emptiness test sees the trimmed string. So non-blank input with leading or trailing white space is never accepted, for example `" 12"` or `"12 "`.
- **The uint32 bound is MaxInt32.** `ParseUint32` rejects the values in (MaxInt32, MaxUint32] although they fit a uint32.
- **A range error can come before a syntax error.** Go's digit loop reports a range error as soon as the leading digits exceed 2^64 - 1, before it reaches a later non-digit.
  - So input such as `"18446744073709551616x"` gives strconv's range error rather than "invalid input value", although it is not a numeral.
  - Put abstractly, "anything that is not a numeral is invalid input value" holds only when the leading digits stay within 64 bits (`DigitsOverflow` is false). The contracts say exactly that.
  - `Num.OverflowBeforeSyntax` states the exception.

## Model

| member | source | states |
|---|---|---|
| Num.ParseInt | components/common-go/num/parse.go:41-58 | Exactly one outcome holds, and every error comes with 0: "empty input" iff the input is blank; "invalid input value" iff it is not blank, not a numeral and its leading digits fit 64 bits; strconv's range error (carrying the untrimmed input) iff the leading digits overflow 64 bits or the numeral lies outside int64; success iff the input is a numeral within int64, with its value |
| Num.ParseInt32 | components/common-go/num/parse.go:15-26 | ParseInt's error is returned unchanged with 0; "out of range (int32)" iff the input is an int64 numeral outside [0, MaxInt32]; success iff it is a numeral in [0, MaxInt32], with its value; never the uint32 error |
| Num.ParseUint32 | components/common-go/num/parse.go:28-39 | The same with "out of range (uint32)", and upper bound MaxInt32; never the int32 error |
| Num.BlankIsNoNumber | components/common-go/num/parse.go:42-45 | Blank input is neither a numeral nor overflowing digits, so the emptiness test takes every blank input away from strconv |
| Num.LeadingSpaceIsInvalid | components/common-go/num/parse.go:42-52 | Non-blank input that starts with white space is "invalid input value" with 0 |
| Num.TrailingSpaceIsRejected | components/common-go/num/parse.go:42-55 | Non-blank input that ends with white space is always an error: "invalid input value", or strconv's error |
| Num.Int64RangeErrorPassesThrough | components/common-go/num/parse.go:53-55 | A numeral outside int64 gives value 0 and strconv's NumError("ParseInt", input, ErrRange) unchanged |
| Num.OverflowBeforeSyntax | components/common-go/num/parse.go:47-55 | Digits past 2^64 - 1 followed by a non-digit are not a numeral, yet they give strconv's range error and not "invalid input value" |
| Num.FormatIntRoundTrip | components/common-go/num/parse.go:15-58 | The decimal form of every int64 is parsed back to it by ParseInt; ParseInt32 and ParseUint32 return it when it lies in [0, MaxInt32] and their range error otherwise |
| Num.Uint32BoundIsMaxInt32 | components/common-go/num/parse.go:34-36 | Every numeral in (MaxInt32, MaxUint32] is rejected by ParseUint32 with its range error |
| Num.WrappersAgree | components/common-go/num/parse.go:15-39 | ParseInt32 and ParseUint32 accept the same inputs with the same value, reject the same ones as out of range, and otherwise return the same error |
| Num.Message | components/common-go/num/parse.go:22-54 | The text of each error: the texts of lines 22, 35, 44 and 51, and strconv's own text for the error returned at line 54; the contract states that exactly strconv's texts start with "strconv.", so they never collide with the package's own |
| Num.RangeMessage | components/common-go/num/parse.go:54 | The text of the passed-through error is `strconv.ParseInt: parsing "<input>": value out of range` |
| Num.MessageIdentifiesError | components/common-go/num/parse.go:44-54 | Two errors the package can return with the same message are the same error, so the test's message comparison identifies the error |
| Strings.IsSpace | components/common-go/num/parse.go:42 | The white space `strings.TrimSpace` cuts away, as `unicode.IsSpace` defines it (the body lists the Unicode White_Space code points); the contract states that among ASCII it is exactly '\t', '\n', '\v', '\f', '\r' and ' ', and that it is never a digit or a sign |
| Strings.TrimSpace | components/common-go/num/parse.go:42 | The result is a contiguous slice of the input with only white space cut away on both sides, and it neither starts nor ends with white space |
| Strings.TrimSpaceEmptyIff | components/common-go/num/parse.go:42-43 | Trimming leaves nothing exactly when the input is empty or all white space |
| Strings.TrimSpaceIdempotent | components/common-go/num/parse.go:42 | Trimming a trimmed string changes nothing |
| Strconv.ParseUint | components/common-go/num/parse.go:47 | Success iff the string is one or more digits worth at most 2^64 - 1, with their value; a range error (value MaxUint64) iff the leading digits exceed 2^64 - 1; otherwise a syntax error with 0 |
| Strconv.ParseInt | components/common-go/num/parse.go:47 | Success iff the input is a numeral within int64, with its value; a range error iff the leading digits overflow 64 bits or the numeral is outside int64 (value MinInt64 or MaxInt64 by sign); otherwise a syntax error with 0; the error names "ParseInt" and the input |
| Strconv.ScanDigits | components/common-go/num/parse.go:47 | The digit loop of strconv.ParseUint over the input, from an accumulator n: Done with the value, BadDigit at a non-digit, or Overflow as soon as a step passes 2^64 - 1; a Done value lies in [n, 2^64 - 1] |
| Go.Wrap64 | components/common-go/num/parse.go:47 | Go's two's-complement conversion to int64, used for `int64(un)` and `-n` inside strconv.ParseInt: the result is congruent to its argument modulo 2^64 and equal to it inside the int64 range |
| Strconv.ErrorText | components/common-go/num/parse.go:54 | The text of strconv's error: it starts with "strconv.", holds the input right after the function's name and `: parsing "`, and ends with "invalid syntax" or "value out of range" |
| Strconv.ScanOverflows | components/common-go/num/parse.go:47 | Once a digit prefix and the digits after it exceed 2^64 - 1, the loop reports Overflow, whatever follows those digits |
| Strconv.ScanFinishes | components/common-go/num/parse.go:47 | When only digits follow and the whole value fits 64 bits, the loop ends with that value |
| Strconv.ScanStopsAtNonDigit | components/common-go/num/parse.go:47 | When the digits before a non-digit fit 64 bits, the loop reports BadDigit |
| Strconv.ScanDigitsSpec | components/common-go/num/parse.go:47 | The digit loop, resumed after a digit prefix, overflows iff the prefix with the following digits exceeds 2^64 - 1; otherwise it ends with their value iff only digits follow, and with a syntax error if not |
| Strconv.ParseIntFormatInt | components/common-go/num/parse.go:47 | strconv.ParseInt reads back the decimal form of every int64 |
| ParseTest.BlankRow | components/common-go/num/parse_test.go:18-19 | A blank row passes with value 0 and "empty input" |
| ParseTest.AcceptedRow | components/common-go/num/parse_test.go:20 | A numeral in [0, MaxInt32] passes with its value and no error |
| ParseTest.RejectedOutOfRange | components/common-go/num/parse.go:34-36 | A numeral within int64 but outside [0, MaxInt32] gives value 0 and the uint32 range error |
| ParseTest.OutOfRangeRow | components/common-go/num/parse_test.go:21-23 | Such a row passes with value 0 and "input value out of range (uint32)" |
| ParseTest.InvalidRow | components/common-go/num/parse_test.go:26 | A non-blank row that starts with neither a sign nor a digit passes with value 0 and "invalid input value" |
| ParseTest.TestRow0 | components/common-go/num/parse_test.go:18 | "" gives 0 and "empty input" |
| ParseTest.TestRow1 | components/common-go/num/parse_test.go:19 | " " gives 0 and "empty input" |
| ParseTest.TestRow2 | components/common-go/num/parse_test.go:20 | "0" gives 0 and no error |
| ParseTest.TestRow3 | components/common-go/num/parse_test.go:21 | "-1" gives 0 and the uint32 range error |
| ParseTest.TestRow4 | components/common-go/num/parse_test.go:22 | "-100" gives 0 and the uint32 range error |
| ParseTest.TestRow5 | components/common-go/num/parse_test.go:23 | "100000000000" gives 0 and the uint32 range error |
| ParseTest.TestRow6 | components/common-go/num/parse_test.go:24 | "1123" gives 1123 and no error |
| ParseTest.TestRow7 | components/common-go/num/parse_test.go:25 | "31000" gives 31000 and no error |
| ParseTest.TestRow8 | components/common-go/num/parse_test.go:26 | "not a number" gives 0 and "invalid input value" |
| ParseTest.TestParseUint32 | components/common-go/num/parse_test.go:12-47 | Every row of the table passes: the value is the expected one, an expected error is returned with the expected message, and a row expecting no error gets none |
| ParseTest.UntrimmedNumber | components/common-go/num/parse.go:47 | "12" is parsed to 12 |
| ParseTest.UntrimmedLeadingSpace | components/common-go/num/parse.go:42-51 | " 12" is "invalid input value", because the untrimmed input is converted |
| ParseTest.UntrimmedTrailingSpace | components/common-go/num/parse.go:42-51 | "12 " is "invalid input value" for the same reason |

## Left out

- Go strings are bytes, and invalid UTF-8 is not modelled. The model takes strings as sequences of code points.
  - `TrimSpace` decodes UTF-8 in Go too, so it sees the same code points.
  - Go's digit loop runs over bytes, not code points. Every byte of a non-ASCII code point is 0x80 or above, so it is a non-digit. The loop therefore meets its first non-digit where the model meets its non-digit code point, and the outcome is the same.
- `strconv.Quote` escaping is not modelled. In the error text (`Strconv.ErrorText`) the input is quoted as it is, so it differs from Go's for inputs with quotes, backslashes or non-printable characters.
- The rest of `strconv` is not modelled:
  - bases other than 10;
  - underscores, which base 10 refuses anyway;
  - the errors for a bad base or bit size, which base 10 and bit size 64 cannot reach.
- `err.(*strconv.NumError)` and `errors.Is` are modelled as a comparison of the error's kind. Every error `strconv.ParseInt` returns is a `*NumError`, so the type assertion cannot fail.
- `fmt.Errorf` values are modelled by their message (`Num.Message`). Their identity as distinct pointer values is not modelled.
- The test's reporting (`t.Run`, `t.Error`, `t.Fatalf`) is not modelled; its table is restated as lemmas.
- The other files of the repository are not part of this model: the UI components, the headless log controller, the database migration and the generated protobuf declarations.
