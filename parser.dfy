/** The line-numbered instruction parser of src/instructions/parser.rs: each line is split
    on single spaces, its first token picks the builder, and the builder receives the
    1-based line number. The first failing line aborts the whole parse. */
module Parser {
  import opened Results
  import opened Tokenizer
  import opened Validation
  import opened Executables

  /** One item of `reader.lines()`: a line, or the I/O error reading it. */
  datatype LineRead = Line(text: string) | ReadError

  function KeywordName(k: Keyword): string
  {
    match k
    case DISTINCT => "DISTINCT"
    case IGNORE => "IGNORE"
    case ALIAS => "ALIAS"
    case RENAME => "RENAME"
    case MERGE => "MERGE"
    case VALIDATE => "VALIDATE"
    case FILTER => "FILTER"
    case COERCE => "COERCE"
    case ADD => "ADD"
  }

  /** The dispatch table: exact, case-sensitive comparison with the nine keywords. */
  function KeywordFromName(s: string): (r: Option<Keyword>)
    ensures r.Some? ==> KeywordName(r.value) == s
  {
    if s == "DISTINCT" then Some(DISTINCT)
    else if s == "IGNORE" then Some(IGNORE)
    else if s == "ALIAS" then Some(ALIAS)
    else if s == "RENAME" then Some(RENAME)
    else if s == "MERGE" then Some(MERGE)
    else if s == "VALIDATE" then Some(VALIDATE)
    else if s == "FILTER" then Some(FILTER)
    else if s == "COERCE" then Some(COERCE)
    else if s == "ADD" then Some(ADD)
    else None
  }

  /** A token selects builder `k` exactly when it is `k`'s keyword, spelled exactly. */
  lemma DispatchIsExact(s: string, k: Keyword)
    ensures KeywordFromName(s) == Some(k) <==> s == KeywordName(k)
  {
  }

  /** One line, parsed as line number `n`: an instruction of the kind its first token
      names, or an unknown-instruction error for that line when the token is no keyword. */
  function ParseLine(text: string, n: nat, v: Validators): (r: Result<Instruction, ParseError>)
    ensures r.Ok? ==> KeywordName(KindOf(r.value)) == Split(text, ' ')[0]
    ensures KeywordFromName(Split(text, ' ')[0]).None? ==> r == Err(UnknownInstruction(n))
  {
    var tokens := Split(text, ' ');
    match KeywordFromName(tokens[0])
    case Some(k) => Build(k, tokens, n, v)
    case None => Err(UnknownInstruction(n))
  }

  function LineResult(l: LineRead, n: nat, v: Validators): Result<Instruction, ParseError>
  {
    match l
    case Line(text) => ParseLine(text, n, v)
    case ReadError => Err(ReadFailure)
  }

  /** The line loop, for any per-line parser `f`: the parse of `lines`, the first of
      which is line number `first`. */
  function ParseLines(lines: seq<LineRead>, first: nat, f: (LineRead, nat) -> Result<Instruction, ParseError>)
    : Result<seq<Instruction>, ParseError>
    decreases |lines|
  {
    if |lines| == 0 then Ok([])
    else
      var i :- f(lines[0], first);
      var rest :- ParseLines(lines[1..], first + 1, f);
      Ok([i] + rest)
  }

  /** The parse of a whole instruction file, whose first line is line 1. */
  function ParseAll(lines: seq<LineRead>, v: Validators): Result<seq<Instruction>, ParseError>
  {
    ParseLines(lines, 1, LineParser(v))
  }

  function LineParser(v: Validators): (LineRead, nat) -> Result<Instruction, ParseError>
  {
    (l: LineRead, n: nat) => LineResult(l, n, v)
  }

  /** A parse succeeds exactly when every line builds, and then holds one instruction per
      line, in order, the k-th built with line number first + k. */
  lemma {:induction false} ParseLinesSucceeds(lines: seq<LineRead>, first: nat, f: (LineRead, nat) -> Result<Instruction, ParseError>)
    ensures ParseLines(lines, first, f).Ok? <==>
      forall k :: 0 <= k < |lines| ==> f(lines[k], first + k).Ok?
    ensures ParseLines(lines, first, f).Ok? ==>
      |ParseLines(lines, first, f).value| == |lines| &&
      forall k :: 0 <= k < |lines| ==> f(lines[k], first + k) == Ok(ParseLines(lines, first, f).value[k])
    decreases |lines|
  {
    if |lines| > 0 {
      ParseLinesSucceeds(lines[1..], first + 1, f);
      if ParseLines(lines, first, f).Ok? {
        var r := ParseLines(lines, first, f).value;
        forall k | 0 <= k < |lines|
          ensures f(lines[k], first + k) == Ok(r[k])
        {
          if k > 0 {
            assert lines[k] == lines[1..][k - 1];
          }
        }
      } else if f(lines[0], first).Ok? {
        var k :| 0 <= k < |lines[1..]| && !f(lines[1..][k], first + 1 + k).Ok?;
        assert lines[1..][k] == lines[k + 1];
      }
    }
  }

  /** When lines before index i build and line i does not, the parse fails with line i's
      error: no later line is looked at. */
  lemma {:induction false} ParseLinesFailsAt(lines: seq<LineRead>, first: nat, f: (LineRead, nat) -> Result<Instruction, ParseError>, i: nat)
    requires i < |lines|
    requires forall k :: 0 <= k < i ==> f(lines[k], first + k).Ok?
    requires f(lines[i], first + i).Err?
    ensures ParseLines(lines, first, f) == Err(f(lines[i], first + i).error)
    decreases i
  {
    if i > 0 {
      forall k | 0 <= k < i - 1 ensures f(lines[1..][k], first + 1 + k).Ok? {
        assert lines[1..][k] == lines[k + 1];
      }
      assert lines[1..][i - 1] == lines[i];
      ParseLinesFailsAt(lines[1..], first + 1, f, i - 1);
    }
  }

  /** A failed parse carries the error of its first failing line. */
  lemma {:induction false} FirstFailingLine(lines: seq<LineRead>, first: nat, f: (LineRead, nat) -> Result<Instruction, ParseError>)
    returns (k: nat)
    requires ParseLines(lines, first, f).Err?
    ensures k < |lines| && f(lines[k], first + k).Err?
    ensures forall j :: 0 <= j < k ==> f(lines[j], first + j).Ok?
    ensures ParseLines(lines, first, f).error == f(lines[k], first + k).error
    decreases |lines|
  {
    if f(lines[0], first).Err? {
      k := 0;
    } else {
      var rest := FirstFailingLine(lines[1..], first + 1, f);
      k := rest + 1;
      assert lines[1..][rest] == lines[k];
      forall j | 0 <= j < k ensures f(lines[j], first + j).Ok? {
        if j > 0 { assert lines[j] == lines[1..][j - 1]; }
      }
    }
  }

  /** `InstructionParser::parse`: the line loop, with its own 1-based line counter. */
  method Parse(lines: seq<LineRead>, v: Validators) returns (r: Result<seq<Instruction>, ParseError>)
    ensures r == ParseAll(lines, v)
  {
    ghost var f := LineParser(v);
    var result: seq<Instruction> := [];
    var nline := 1;
    var i := 0;
    while i < |lines|
      invariant 0 <= i <= |lines|
      invariant nline == i + 1
      invariant |result| == i
      invariant forall k :: 0 <= k < i ==> f(lines[k], k + 1) == Ok(result[k])
    {
      var executable := LineResult(lines[i], nline, v);
      if executable.Err? {
        ParseLinesFailsAt(lines, 1, f, i);
        return Err(executable.error);
      }
      result := result + [executable.value];
      nline := nline + 1;
      i := i + 1;
    }
    ParseLinesSucceeds(lines, 1, f);
    var parsed := ParseLines(lines, 1, f).value;
    assert forall k :: 0 <= k < |lines| ==> parsed[k] == result[k];
    assert parsed == result;
    r := Ok(result);
  }

  /** Under sound validators a line that fails to build reports its own line number. */
  lemma LineErrorNamesLine(text: string, n: nat, v: Validators)
    requires Sound(v)
    requires ParseLine(text, n, v).Err?
    ensures !ParseLine(text, n, v).error.ReadFailure? && ParseLine(text, n, v).error.line == n
  {
    var tokens := Split(text, ' ');
    match KeywordFromName(tokens[0]) {
      case Some(kw) => ConnectorsRequired(kw, tokens, n, v);
      case None =>
    }
  }

  /** A failed parse reports the first failing line k (0-based): with line number k + 1
      under sound validators, or as a read failure when reading that line failed. */
  lemma ParseErrorNamesLine(lines: seq<LineRead>, v: Validators) returns (k: nat)
    requires Sound(v)
    requires ParseAll(lines, v).Err?
    ensures k < |lines| && LineResult(lines[k], k + 1, v).Err?
    ensures forall j :: 0 <= j < k ==> LineResult(lines[j], j + 1, v).Ok?
    ensures ParseAll(lines, v).error == LineResult(lines[k], k + 1, v).error
    ensures lines[k].Line? ==> !ParseAll(lines, v).error.ReadFailure? && ParseAll(lines, v).error.line == k + 1
    ensures lines[k].ReadError? ==> ParseAll(lines, v).error == ReadFailure
  {
    k := FirstFailingLine(lines, 1, LineParser(v));
    if lines[k].Line? {
      LineErrorNamesLine(lines[k].text, k + 1, v);
    }
  }

  /** `split(" ")` never yields zero tokens, so an empty line is not skipped: it has the
      keyword "" and fails as an unknown instruction on its own line. */
  lemma EmptyLineIsUnknown(n: nat, v: Validators)
    ensures ParseLine("", n, v) == Err(UnknownInstruction(n))
  {
  }

  /** A line whose first token is no keyword fails with its own line number. */
  lemma UnknownKeywordFails(text: string, n: nat, v: Validators)
    requires KeywordFromName(Split(text, ' ')[0]).None?
    ensures ParseLine(text, n, v) == Err(UnknownInstruction(n))
  {
  }

  /** Lower-case keywords are not recognised. */
  lemma KeywordsAreCaseSensitive(n: nat, v: Validators)
    ensures ParseLine("alias", n, v) == Err(UnknownInstruction(n))
  {
    SplitWithoutSeparator("alias", ' ');
  }
}
