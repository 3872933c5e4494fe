/** The older, lenient instruction parser of src/instructions.rs. Its builders never fail:
    a missing token reads as "" (or as the empty list), connector positions are never
    looked at, type and expression stay raw strings, and VALIDATE is not known. Lines it
    cannot read or does not recognise are dropped without a trace. Its private
    `parse_token` and `parse_token_list` are the tokenizer's own functions. */
module Legacy {
  import opened Results
  import opened Enums
  import opened Tokenizer
  import Validation
  import Executables
  import Parser

  datatype Executable =
    | Distinct(fields: seq<string>)
    | Ignore(fields: seq<string>)
    | Alias(field: string, to: string)
    | Rename(field: string, to: string)
    | Merge(fields: seq<string>, to: string)
    | Filter(fields: seq<string>, expression: string, value: string)
    | Coerce(fields: seq<string>, typed: string, rescue: string)
    | Add(fields: seq<string>, typed: string, default: string)

  /** The eight `from_tokens`, selected by keyword; every one of them succeeds. */
  function FromTokens(keyword: string, tokens: seq<string>): (r: Option<Executable>)
    ensures r.Some? <==> Known(keyword)
  {
    var fields := ParseTokenList(Get(tokens, 1));
    var field := ParseToken(Get(tokens, 1));
    var third := ParseToken(Get(tokens, 3));
    if keyword == "DISTINCT" then Some(Distinct(fields))
    else if keyword == "IGNORE" then Some(Ignore(fields))
    else if keyword == "ALIAS" then Some(Alias(field, third))
    else if keyword == "RENAME" then Some(Rename(field, third))
    else if keyword == "MERGE" then Some(Merge(fields, third))
    else if keyword == "FILTER" then Some(Filter(fields, third, ParseToken(Get(tokens, 4))))
    else if keyword == "COERCE" then Some(Coerce(fields, third, ParseToken(Get(tokens, 5))))
    else if keyword == "ADD" then Some(Add(fields, third, ParseToken(Get(tokens, 5))))
    else None
  }

  /** `InstructionParser::from_line`: the line's first space-separated token decides. */
  function FromLine(line: string): (r: Option<Executable>)
    ensures r.Some? <==> Known(Split(line, ' ')[0])
  {
    var tokens := Split(line, ' ');
    FromTokens(tokens[0], tokens)
  }

  /** The keywords this parser knows: the strict parser's, less VALIDATE. */
  predicate Known(keyword: string)
  {
    keyword in {"DISTINCT", "IGNORE", "ALIAS", "RENAME", "MERGE", "FILTER", "COERCE", "ADD"}
  }

  /** A line is dropped exactly when its first token is not one of the eight keywords;
      otherwise the builder succeeds whatever the other tokens are. */
  lemma FromLineNoneIffUnknown(line: string)
    ensures FromLine(line).None? <==> !Known(Split(line, ' ')[0])
    ensures Known(Split(line, ' ')[0]) <==>
      Parser.KeywordFromName(Split(line, ' ')[0]).Some? && Split(line, ' ')[0] != "VALIDATE"
  {
  }

  /** Only tokens 0, 1, 3, 4 and 5 are read: the connector positions 2 and 4 of ALIAS,
      RENAME, MERGE, COERCE and ADD, and position 2 of FILTER, may hold anything. */
  lemma ConnectorsNeverInspected(t1: seq<string>, t2: seq<string>)
    requires |t1| >= 1 && |t2| >= 1 && t1[0] == t2[0]
    requires Get(t1, 1) == Get(t2, 1) && Get(t1, 3) == Get(t2, 3) && Get(t1, 5) == Get(t2, 5)
    requires t1[0] == "FILTER" ==> Get(t1, 4) == Get(t2, 4)
    ensures FromTokens(t1[0], t1) == FromTokens(t2[0], t2)
  {
  }

  /** `ALIAS a FOO b` is accepted as an alias of a to b. */
  lemma AliasWithAnyConnector()
    ensures FromLine("ALIAS a FOO b") == Some(Alias("a", "b"))
  {
    var words := ["ALIAS", "a", "FOO", "b"];
    assert "ALIAS a FOO b" == Join(words, " ") by {
      assert Join(words[3..], " ") == "b";
      assert Join(words[2..], " ") == "FOO b";
      assert Join(words[1..], " ") == "a FOO b";
    }
    JoinSplit(words, ' ');
  }

  /** A missing token becomes "" or the empty list instead of an error. */
  lemma MissingTokensBecomeEmpty()
    ensures FromTokens("ADD", ["ADD"]) == Some(Add([], "", ""))
    ensures FromTokens("ALIAS", ["ALIAS", "a"]) == Some(Alias("a", ""))
  {
  }

  /** The lenient parse of `lines`: recognised lines in order, everything else dropped. */
  function Kept(lines: seq<Parser.LineRead>): seq<Executable>
  {
    if |lines| == 0 then []
    else
      var rest := Kept(lines[1..]);
      match lines[0]
      case ReadError => rest
      case Line(text) =>
        match FromLine(text)
        case Some(e) => [e] + rest
        case None => rest
  }

  /** The lenient parse of a concatenation is the concatenation of the lenient parses:
      lines are kept in order and each is kept or dropped on its own. */
  lemma {:induction false} KeptDistributes(a: seq<Parser.LineRead>, b: seq<Parser.LineRead>)
    ensures Kept(a + b) == Kept(a) + Kept(b)
    decreases |a|
  {
    if |a| > 0 {
      assert (a + b)[0] == a[0];
      assert (a + b)[1..] == a[1..] + b;
      KeptDistributes(a[1..], b);
    } else {
      assert a + b == b;
    }
  }

  /** One line contributes its instruction when recognised and nothing otherwise. */
  lemma KeptOne(l: Parser.LineRead)
    ensures Kept([l]) == if l.Line? && FromLine(l.text).Some? then [FromLine(l.text).value] else []
  {
  }

  /** Never more instructions than lines; exactly one per line when every line is read
      and recognised. */
  lemma {:induction false} KeptLength(lines: seq<Parser.LineRead>)
    ensures |Kept(lines)| <= |lines|
    ensures (forall k :: 0 <= k < |lines| ==> lines[k].Line? && FromLine(lines[k].text).Some?) ==>
      |Kept(lines)| == |lines|
    decreases |lines|
  {
    if |lines| > 0 {
      KeptLength(lines[1..]);
      if forall k :: 0 <= k < |lines| ==> lines[k].Line? && FromLine(lines[k].text).Some? {
        assert forall k :: 0 <= k < |lines[1..]| ==> lines[1..][k] == lines[k + 1];
      }
    }
  }

  /** `InstructionParser::from_instructor`: without a reader, nothing; otherwise the loop
      keeps each recognised line's instruction and skips the rest. */
  method FromInstructor(instructor: Option<seq<Parser.LineRead>>) returns (result: seq<Executable>)
    ensures instructor.None? ==> result == []
    ensures instructor.Some? ==> result == Kept(instructor.value)
  {
    if instructor.None? {
      return [];
    }
    var lines := instructor.value;
    result := [];
    var i := 0;
    while i < |lines|
      invariant 0 <= i <= |lines|
      invariant result == Kept(lines[..i])
    {
      KeptDistributes(lines[..i], [lines[i]]);
      assert lines[..i + 1] == lines[..i] + [lines[i]];
      match lines[i] {
        case Line(text) =>
          match FromLine(text) {
            case Some(executable) => result := result + [executable];
            case None =>
          }
        case ReadError =>
      }
      i := i + 1;
    }
    assert lines[..i] == lines;
  }

  /** The strict parser's instruction, with type and expression written back as text. */
  function Lenient(i: Executables.Instruction): Option<Executable>
  {
    match i
    case Distinct(fields) => Some(Distinct(fields))
    case Ignore(fields) => Some(Ignore(fields))
    case Alias(field, to) => Some(Alias(field, to))
    case Rename(field, to) => Some(Rename(field, to))
    case Merge(fields, to) => Some(Merge(fields, to))
    case Filter(fields, expression, value) => Some(Filter(fields, ExpressionName(expression), value))
    case Validate(_, _, _) => None
    case Coerce(fields, typed, rescue) => Some(Coerce(fields, TypeName(typed), rescue))
    case Add(fields, typed, default) => Some(Add(fields, TypeName(typed), default))
  }

  /** Every line the strict parser (with the reference validators) builds, other than a
      VALIDATE, the lenient parser builds to the same operands. */
  lemma StrictLineIsLenientLine(line: string, n: nat)
    requires Parser.ParseLine(line, n, Validation.Reference).Ok?
    requires !Parser.ParseLine(line, n, Validation.Reference).value.Validate?
    ensures FromLine(line) == Lenient(Parser.ParseLine(line, n, Validation.Reference).value)
  {
    var tokens := Split(line, ' ');
    var k := Parser.KeywordFromName(tokens[0]).value;
    Executables.OperandsFromSlots(k, tokens, n, Validation.Reference);
  }
}
