/** The diagnostic message formatters of src/utils.rs. Each is a single `format!`.
    `flineerror` can be read back into its file, line and message when the file name holds no
    `]`, and `fmissing`'s token is found by its position. `finvalid` and `finvalidkind` are not
    injective, so they have no reader; their found token is located by its length. */
module Messages {
  import opened Results

  /** One decimal digit. */
  function DigitChar(d: nat): (c: char)
    requires d < 10
    ensures '0' <= c <= '9' && (c as int) - ('0' as int) == d
  {
    (('0' as int) + d) as char
  }

  predicate IsDigit(c: char)
  {
    '0' <= c <= '9'
  }

  /** `{}` of a `usize`: decimal, most significant digit first, no leading zeros. */
  function NatToString(n: nat): (r: string)
    ensures |r| >= 1
    ensures forall k :: 0 <= k < |r| ==> IsDigit(r[k])
    ensures |r| > 1 ==> r[0] != '0'
    decreases n
  {
    if n < 10 then [DigitChar(n)] else NatToString(n / 10) + [DigitChar(n % 10)]
  }

  /** The value of a string of decimal digits. */
  function ParseDecimal(s: string): nat
    requires forall k :: 0 <= k < |s| ==> IsDigit(s[k])
  {
    if |s| == 0 then 0
    else
      assert IsDigit(s[|s| - 1]);
      ParseDecimal(s[..|s| - 1]) * 10 + ((s[|s| - 1] as int) - ('0' as int))
  }

  /** Reading a printed number gives the number back. */
  lemma {:induction false} DecimalRoundTrip(n: nat)
    ensures ParseDecimal(NatToString(n)) == n
    decreases n
  {
    if n >= 10 {
      DecimalRoundTrip(n / 10);
      var s := NatToString(n);
      assert s[..|s| - 1] == NatToString(n / 10);
    }
  }

  /** The first position of `c` in `s`, if any. */
  function IndexOf(s: string, c: char): (r: Option<nat>)
    ensures r.None? ==> c !in s
    ensures r.Some? ==> r.value < |s| && s[r.value] == c && c !in s[..r.value]
  {
    if |s| == 0 then None
    else if s[0] == c then Some(0)
    else match IndexOf(s[1..], c)
      case None => None
      case Some(i) =>
        assert s[..i + 1] == [s[0]] + s[1..][..i];
        Some(i + 1)
  }

  /** The first `c` of `a + b` is the first of `b` when `a` holds none. */
  lemma IndexOfAfter(a: string, b: string, c: char)
    requires c !in a && |b| > 0 && b[0] == c
    ensures IndexOf(a + b, c) == Some(|a|)
  {
    assert (a + b)[|a|] == c;
  }

  /** `flineerror`: the file right after the opening bracket, the message at the end. */
  function FLineError(file: string, line: nat, error: string): (r: string)
    ensures |r| > |file| + |error| + 18
    ensures r[..1 + |file|] == "[" + file && r[|r| - |error|..] == error
  {
    "[" + file + "] Error on line " + NatToString(line) + ": " + error
  }

  const LineMarker: string := "] Error on line "

  /** Reads a line error back into its file, line number and message. */
  function ReadLineError(s: string): Option<(string, nat, string)>
  {
    if |s| == 0 || s[0] != '[' then None
    else match IndexOf(s, ']')
      case None => None
      case Some(close) =>
        var after := s[close..];
        if |after| < |LineMarker| || after[..|LineMarker|] != LineMarker then None
        else match ReadNumbered(after[|LineMarker|..])
          case None => None
          case Some((line, error)) => Some((s[1..close], line, error))
  }

  /** Reads `<digits>: <message>` back into the number and the message. */
  function ReadNumbered(tail: string): Option<(nat, string)>
  {
    match IndexOf(tail, ':')
    case None => None
    case Some(colon) =>
      var digits := tail[..colon];
      if |digits| == 0 || !(forall k :: 0 <= k < |digits| ==> IsDigit(digits[k])) then None
      else if colon + 1 >= |tail| || tail[colon + 1] != ' ' then None
      else Some((ParseDecimal(digits), tail[colon + 2..]))
  }

  lemma NumberedRoundTrip(line: nat, error: string)
    ensures ReadNumbered(NatToString(line) + ": " + error) == Some((line, error))
  {
    var digits := NatToString(line);
    var tail := digits + ": " + error;
    assert ':' !in digits by {
      forall k | 0 <= k < |digits| ensures digits[k] != ':' {
        assert IsDigit(digits[k]);
      }
    }
    assert tail == digits + (": " + error);
    IndexOfAfter(digits, ": " + error, ':');
    assert tail[..|digits|] == digits;
    assert tail[|digits| + 2..] == error;
    DecimalRoundTrip(line);
  }

  /** File, line and message come back out of a line error unchanged, whatever the message
      holds, as long as the file name has no `]`. */
  lemma LineErrorRoundTrip(file: string, line: nat, error: string)
    requires ']' !in file
    ensures ReadLineError(FLineError(file, line, error)) == Some((file, line, error))
  {
    var tail := NatToString(line) + ": " + error;
    var s := FLineError(file, line, error);
    assert s == "[" + file + (LineMarker + tail);
    assert s == ("[" + file) + (LineMarker + tail);
    assert ']' !in "[" + file;
    IndexOfAfter("[" + file, LineMarker + tail, ']');
    assert s[1..1 + |file|] == file;
    assert s[1 + |file|..] == LineMarker + tail;
    assert (LineMarker + tail)[|LineMarker|..] == tail;
    NumberedRoundTrip(line, error);
  }

  /** `fmissing`. */
  function FMissing(expected: string): string
  {
    "Missing '" + expected + "'"
  }

  /** `finvalid`. */
  function FInvalid(expected: string, actual: string): string
  {
    "Invalid " + expected + ", found '" + actual + "'"
  }

  /** `finvalidkind`. */
  function FInvalidKind(kind: string, expected: string, actual: string): string
  {
    "Invalid " + kind + ", expected " + expected + ", found '" + actual + "'"
  }

  /** The missing token's name sits between the quotes, verbatim. */
  lemma MissingNamesToken(expected: string)
    ensures var m := FMissing(expected);
      |m| == |expected| + 10 && m[..9] == "Missing '" && m[9..|m| - 1] == expected && m[|m| - 1] == '\''
  {
  }

  /** In both invalid-token messages, the last |actual| characters before the final quote
      are the token found, verbatim and after an opening quote, with no escaping of quotes
      inside it; `finvalid` names the expected token right after "Invalid ". */
  lemma InvalidQuotesActual(kind: string, expected: string, actual: string)
    ensures var m := FInvalid(expected, actual);
      && |m| == |expected| + |actual| + 18
      && m[..8] == "Invalid " && m[8..8 + |expected|] == expected
      && m[|m| - |actual| - 2] == '\''
      && m[|m| - |actual| - 1..|m| - 1] == actual && m[|m| - 1] == '\''
    ensures var m := FInvalidKind(kind, expected, actual);
      && m[..8] == "Invalid "
      && m[|m| - |actual| - 2] == '\''
      && m[|m| - |actual| - 1..|m| - 1] == actual && m[|m| - 1] == '\''
  {
    var m := FInvalid(expected, actual);
    assert m == ("Invalid " + expected + ", found '") + actual + "'";
    var n := FInvalidKind(kind, expected, actual);
    assert n == ("Invalid " + kind + ", expected " + expected + ", found '") + actual + "'";
  }

  /** Different arguments can give the same invalid-token message, so neither formatter can
      be read back in general. */
  lemma FInvalidAmbiguous(e1: string, e2: string, k1: string, k2: string, actual: string)
    ensures e1 + ", found '" + e2 != e1
    ensures FInvalid(e1 + ", found '" + e2, actual) == FInvalid(e1, e2 + ", found '" + actual)
    ensures k1 + ", expected " + k2 != k1
    ensures FInvalidKind(k1 + ", expected " + k2, e1, actual) == FInvalidKind(k1, k2 + ", expected " + e1, actual)
  {
    assert |e1 + ", found '" + e2| > |e1|;
    assert |k1 + ", expected " + k2| > |k1|;
  }

  /** A missing-token message is never an invalid-token message. */
  lemma MissingIsNotInvalid(e: string, kind: string, expected: string, actual: string)
    ensures FMissing(e) != FInvalid(expected, actual)
    ensures FMissing(e) != FInvalidKind(kind, expected, actual)
  {
    assert FMissing(e)[0] == 'M';
    assert FInvalid(expected, actual)[0] == 'I';
    assert FInvalidKind(kind, expected, actual)[0] == 'I';
  }

  /** The messages as they appear, quote included. */
  lemma MessageExamples()
    ensures FInvalid("connector", "it's") == "Invalid connector, found 'it's'"
    ensures NatToString(12) == "12" && NatToString(0) == "0"
  {
    assert DigitChar(1) == '1' && DigitChar(2) == '2';
    assert NatToString(12) == NatToString(1) + [DigitChar(2)];
  }
}
