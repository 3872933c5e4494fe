/** The SQL output adapter of src/adapters/output/sql.rs: one INSERT statement per row that
    is not discarded, written line by line. */
module Sql {
  import opened Results
  import opened Enums
  import opened Types
  import opened Tokenizer
  import opened Output

  /** `parse_value`: a STRING value is put between single quotes as it is (quotes inside it
      are not escaped); any other value is written bare. */
  function ParseValue(typed: Type, value: string): (r: string)
    ensures typed == STRING ==> |r| == |value| + 2 && r[0] == '\'' && r[|r| - 1] == '\''
    ensures typed == STRING ==> r[1..|r| - 1] == value
    ensures typed != STRING ==> r == value
  {
    match typed
    case STRING => "'" + value + "'"
    case _ => value
  }

  /** Strips one pair of enclosing single quotes, if there is one. */
  function Unquote(s: string): string
  {
    if |s| >= 2 && s[0] == '\'' && s[|s| - 1] == '\'' then s[1..|s| - 1] else s
  }

  /** Every STRING value is recovered from its literal, whatever quotes it holds. */
  lemma QuotedValueRecoverable(value: string)
    ensures Unquote(ParseValue(STRING, value)) == value
  {
  }

  /** An embedded quote passes through unescaped and ends the SQL literal early. */
  lemma QuotesNotEscaped()
    ensures ParseValue(STRING, "it's") == "'it's'"
    ensures ParseValue(NUMBER, "4") == "4"
  {
  }

  /** `build_statement`. */
  function BuildStatement(tname: string, fields: seq<string>, values: seq<string>): string
  {
    "INSERT INTO " + tname + " (" + Join(fields, ", ") + ") VALUES (" + Join(values, ", ") + ");"
  }

  /** The first three space-separated words of `a b c rest`, when a, b and c hold no space. */
  lemma {:induction false} FirstThreeWords(a: string, b: string, c: string, rest: string)
    requires ' ' !in a && ' ' !in b && ' ' !in c
    ensures var words := Split(a + [' '] + (b + [' '] + (c + [' '] + rest)), ' ');
      |words| >= 3 && words[..3] == [a, b, c]
  {
    SplitAround(a, ' ', b + [' '] + (c + [' '] + rest));
    SplitAround(b, ' ', c + [' '] + rest);
    SplitAround(c, ' ', rest);
    SplitWithoutSeparator(a, ' ');
    SplitWithoutSeparator(b, ' ');
    SplitWithoutSeparator(c, ' ');
  }

  /** The statement starts with `INSERT INTO ` followed by the table name exactly as given,
      whatever characters it holds, and it ends in `);`. */
  lemma TableNameVerbatim(tname: string, fields: seq<string>, values: seq<string>)
    ensures var s := BuildStatement(tname, fields, values);
      |s| >= 12 + |tname| && s[..12 + |tname|] == "INSERT INTO " + tname
    ensures var s := BuildStatement(tname, fields, values);
      s[|s| - 2..] == ");"
  {
  }

  /** The column list sits verbatim after `INSERT INTO <tname> (`, and the value list just
      before the closing `);`, both joined with ", "; nothing else is added but 26 characters
      of fixed text. */
  lemma ListsVerbatim(tname: string, fields: seq<string>, values: seq<string>)
    ensures |BuildStatement(tname, fields, values)| == 26 + |tname| + |Join(fields, ", ")| + |Join(values, ", ")|
    ensures var s := BuildStatement(tname, fields, values);
      var names := Join(fields, ", ");
      s[14 + |tname|..14 + |tname| + |names|] == names
    ensures var s := BuildStatement(tname, fields, values);
      var vals := Join(values, ", ");
      s[|s| - |vals| - 2..] == vals + ");"
  {
    var s := BuildStatement(tname, fields, values);
    var names := Join(fields, ", ");
    var vals := Join(values, ", ");
    assert s == ("INSERT INTO " + tname + " (") + names + (") VALUES (" + vals + ");");
  }

  /** A table name without spaces is the statement's third space-separated word. */
  lemma TableNameThirdWord(tname: string, fields: seq<string>, values: seq<string>)
    requires ' ' !in tname
    ensures var words := Split(BuildStatement(tname, fields, values), ' ');
      |words| >= 3 && words[0] == "INSERT" && words[1] == "INTO" && words[2] == tname
  {
    var rest := "(" + Join(fields, ", ") + ") VALUES (" + Join(values, ", ") + ");";
    var s := BuildStatement(tname, fields, values);
    assert "INSERT INTO " == "INSERT" + [' '] + "INTO" + [' '];
    assert s == "INSERT" + [' '] + ("INTO" + [' '] + (tname + [' '] + rest));
    FirstThreeWords("INSERT", "INTO", tname, rest);
  }

  function Min(a: nat, b: nat): nat
  {
    if a <= b then a else b
  }

  /** The values of one row, paired with the fields by position up to the shorter of the two
      (`zip`), each formatted by its field's type. */
  function Formatted(fields: seq<Field>, values: seq<string>): (r: seq<string>)
    ensures |r| == Min(|fields|, |values|)
    ensures forall k :: 0 <= k < |r| ==> r[k] == ParseValue(fields[k].typed, values[k])
  {
    if |fields| == 0 || |values| == 0 then []
    else [ParseValue(fields[0].typed, values[0])] + Formatted(fields[1..], values[1..])
  }

  /** The column list: every field's name, in order. */
  function Names(fields: seq<Field>): (r: seq<string>)
    ensures |r| == |fields|
    ensures forall k :: 0 <= k < |r| ==> r[k] == fields[k].name
  {
    if |fields| == 0 then [] else [fields[0].name] + Names(fields[1..])
  }

  /** The statement for one row. */
  function Statement(fields: seq<Field>, record: Record, tname: string): string
  {
    BuildStatement(tname, Names(fields), Formatted(fields, record.values))
  }

  /** The rows that are written: those not discarded, in order. */
  function Live(records: seq<Record>): seq<Record>
  {
    if |records| == 0 then []
    else if records[0].discarded then Live(records[1..])
    else [records[0]] + Live(records[1..])
  }

  /** The lines the adapter writes when every write succeeds: the statement of each row
      that is not discarded. */
  function Statements(fields: seq<Field>, records: seq<Record>, tname: string): seq<string>
  {
    var live := Live(records);
    seq(|live|, k requires 0 <= k < |live| => Statement(fields, live[k], tname))
  }

  /** No discarded row is written, every other row is, and the rows keep their order:
      filtering a concatenation concatenates the filtered parts. */
  lemma {:induction false} LiveKeepsUndiscarded(records: seq<Record>)
    ensures forall r :: r in Live(records) ==> r in records && !r.discarded
    ensures forall r :: r in records && !r.discarded ==> r in Live(records)
    ensures |Live(records)| <= |records|
    decreases |records|
  {
    if |records| > 0 {
      LiveKeepsUndiscarded(records[1..]);
      forall r | r in records && !r.discarded ensures r in Live(records) {
        if r != records[0] {
          var k :| 0 <= k < |records| && records[k] == r;
          assert records[1..][k - 1] == r;
        }
      }
    }
  }

  lemma {:induction false} LiveDistributes(a: seq<Record>, b: seq<Record>)
    ensures Live(a + b) == Live(a) + Live(b)
    decreases |a|
  {
    if |a| == 0 {
      assert a + b == b;
    } else {
      assert (a + b)[0] == a[0];
      assert (a + b)[1..] == a[1..] + b;
      LiveDistributes(a[1..], b);
    }
  }

  /** One statement per written row, in row order. */
  lemma StatementsFollowLive(fields: seq<Field>, records: seq<Record>, tname: string)
    ensures |Statements(fields, records, tname)| == |Live(records)|
    ensures forall k :: 0 <= k < |Live(records)| ==>
      Statements(fields, records, tname)[k] == Statement(fields, Live(records)[k], tname)
  {
  }

  lemma StatementsDistribute(fields: seq<Field>, a: seq<Record>, b: seq<Record>, tname: string)
    ensures Statements(fields, a + b, tname) == Statements(fields, a, tname) + Statements(fields, b, tname)
  {
    LiveDistributes(a, b);
  }

  /** The inner loop of `write`: one row's values, formatted. */
  method FormatRow(fields: seq<Field>, values: seq<string>) returns (formatted: seq<string>)
    ensures formatted == Formatted(fields, values)
  {
    formatted := [];
    var j := 0;
    while j < |fields| && j < |values|
      invariant 0 <= j <= Min(|fields|, |values|)
      invariant |formatted| == j
      invariant forall k :: 0 <= k < j ==> formatted[k] == ParseValue(fields[k].typed, values[k])
    {
      formatted := formatted + [ParseValue(fields[j].typed, values[j])];
      j := j + 1;
    }
  }

  /** When the write of row i's statement fails, the lines before it are those of the rows
      before it. */
  lemma WriteFailsAtRow(fields: seq<Field>, records: seq<Record>, i: nat, tname: string)
    requires i < |records| && !records[i].discarded
    ensures WriteAll(Statements(fields, records, tname), Some(|Statements(fields, records[..i], tname)|))
      == (Statements(fields, records[..i], tname), Err(WriteFailed))
  {
    assert records == records[..i] + [records[i]] + records[i + 1..];
    StatementsDistribute(fields, records[..i] + [records[i]], records[i + 1..], tname);
    StatementsDistribute(fields, records[..i], [records[i]], tname);
    var before := Statements(fields, records[..i], tname);
    assert Statements(fields, records, tname)[..|before|] == before;
  }

  /** `write`: for each row not discarded, format its values, build the statement and
      write it as one line; the number of lines written is returned unless a write fails. */
  method Write(fields: seq<Field>, records: seq<Record>, optionals: Optionals, failsAt: Option<nat>)
    returns (emitted: seq<string>, r: Result<nat, WriteError>)
    ensures (emitted, r) == WriteAll(Statements(fields, records, optionals.tname), failsAt)
  {
    ghost var all := Statements(fields, records, optionals.tname);
    var written := 0;
    emitted := [];
    var i := 0;
    while i < |records|
      invariant 0 <= i <= |records|
      invariant emitted == Statements(fields, records[..i], optionals.tname)
      invariant written == |emitted|
      invariant failsAt.Some? ==> written <= failsAt.value
    {
      var record := records[i];
      StatementsDistribute(fields, records[..i], [record], optionals.tname);
      assert records[..i + 1] == records[..i] + [record];
      assert [record][1..] == [];
      assert Live([record]) == if record.discarded then [] else [record];
      assert Statements(fields, [record], optionals.tname) ==
        if record.discarded then [] else [Statement(fields, record, optionals.tname)];
      if !record.discarded {
        var formatted := FormatRow(fields, record.values);
        var names := Names(fields);
        var statement := BuildStatement(optionals.tname, names, formatted);
        if FailsAt(failsAt, written) {
          WriteFailsAtRow(fields, records, i, optionals.tname);
          return emitted, Err(WriteFailed);
        }
        emitted := emitted + [statement];
        written := written + 1;
      }
      i := i + 1;
    }
    assert records[..i] == records;
    r := Ok(written);
  }

  /** Without a failing write, exactly the rows not discarded are written, one statement
      each and in order, and their number is returned. */
  lemma WriteCountsLiveRows(fields: seq<Field>, records: seq<Record>, tname: string)
    ensures var (emitted, r) := WriteAll(Statements(fields, records, tname), None);
      && r == Ok(|Live(records)|)
      && |emitted| == |Live(records)|
      && forall k :: 0 <= k < |emitted| ==> emitted[k] == Statement(fields, Live(records)[k], tname)
  {
    StatementsFollowLive(fields, records, tname);
  }

  /** The column list names every field even when a row has fewer values than fields. */
  lemma ShortRowKeepsAllColumns()
    ensures Statement([Field("a", NUMBER), Field("b", STRING)], Record(0, false, ["1"]), "t")
      == "INSERT INTO t (a, b) VALUES (1);"
  {
    var fields := [Field("a", NUMBER), Field("b", STRING)];
    assert Names(fields) == ["a", "b"];
    assert Formatted(fields, ["1"]) == ["1"];
  }
}
