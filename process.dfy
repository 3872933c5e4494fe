/** The `Process` of src/process.rs: it owns the parsed instructions, the loaded table and
    the log, and runs the instructions. Instruction execution in the source is a stub
    that returns the text "Executing..." (src/definitions/traits.rs:19-21); `Run` takes
    `execute` as a parameter and `Stub` is that default. */
module Processes {
  import opened Results
  import opened Types
  import opened Validation
  import opened Executables
  import opened Parser
  import opened Output
  import opened Tokenizer

  /** What the input adapter reports when it cannot read the table. */
  datatype AdapterError = AdapterError(message: string)

  /** The default `execute` of every instruction. */
  function Stub(i: Instruction): Result<string, string>
  {
    Ok("Executing...")
  }

  /** Executing `instructions` in order, stopping at the first failure: the logs produced
      and the failure, if any. */
  function RunLogs(instructions: seq<Instruction>, execute: Instruction -> Result<string, string>)
    : (seq<string>, Option<string>)
  {
    if |instructions| == 0 then ([], None)
    else match execute(instructions[0])
      case Err(e) => ([], Some(e))
      case Ok(log) =>
        var (rest, failure) := RunLogs(instructions[1..], execute);
        ([log] + rest, failure)
  }

  /** The logs are the results of a prefix of the instructions, in order; the run fails
      exactly when it stopped short, and then with the error of the instruction it stopped at. */
  lemma {:induction false} RunStopsAtFirstFailure(instructions: seq<Instruction>, execute: Instruction -> Result<string, string>)
    ensures var (logs, failure) := RunLogs(instructions, execute);
      && |logs| <= |instructions|
      && (forall k :: 0 <= k < |logs| ==> execute(instructions[k]) == Ok(logs[k]))
      && (failure.None? <==> |logs| == |instructions|)
      && (failure.Some? ==> execute(instructions[|logs|]) == Err(failure.value))
    decreases |instructions|
  {
    if |instructions| > 0 && execute(instructions[0]).Ok? {
      RunStopsAtFirstFailure(instructions[1..], execute);
      var (logs, failure) := RunLogs(instructions, execute);
      forall k | 0 <= k < |logs| ensures execute(instructions[k]) == Ok(logs[k]) {
        if k > 0 { assert instructions[k] == instructions[1..][k - 1]; }
      }
      if failure.Some? {
        assert instructions[|logs|] == instructions[1..][|logs| - 1];
      }
    }
  }

  /** With the default `execute`, every instruction appends exactly one "Executing..." log. */
  lemma {:induction false} StubLogsEveryInstruction(instructions: seq<Instruction>)
    ensures RunLogs(instructions, Stub).1.None?
    ensures RunLogs(instructions, Stub).0 == seq(|instructions|, _ => "Executing...")
    decreases |instructions|
  {
    if |instructions| > 0 {
      StubLogsEveryInstruction(instructions[1..]);
    }
  }

  /** Running one more instruction extends the logs by its result. */
  lemma {:induction false} RunLogsSnoc(instructions: seq<Instruction>, x: Instruction, execute: Instruction -> Result<string, string>)
    requires RunLogs(instructions, execute).1.None?
    ensures RunLogs(instructions + [x], execute) ==
      match execute(x)
      case Ok(log) => (RunLogs(instructions, execute).0 + [log], None)
      case Err(e) => (RunLogs(instructions, execute).0, Some(e))
    decreases |instructions|
  {
    if |instructions| == 0 {
      assert instructions + [x] == [x];
      assert [x][1..] == [];
      assert RunLogs([x][1..], execute) == ([], None);
      match execute(x) {
        case Ok(log) => assert [log] + [] == [] + [log];
        case Err(e) =>
      }
    } else {
      assert (instructions + [x])[0] == instructions[0];
      assert (instructions + [x])[1..] == instructions[1..] + [x];
      RunLogsSnoc(instructions[1..], x, execute);
      var head := execute(instructions[0]).value;
      assert RunLogs(instructions, execute).0 == [head] + RunLogs(instructions[1..], execute).0;
      match execute(x) {
        case Ok(log) =>
          assert [head] + (RunLogs(instructions[1..], execute).0 + [log])
              == ([head] + RunLogs(instructions[1..], execute).0) + [log];
        case Err(e) =>
      }
    }
  }

  class Process {
    var instructions: seq<Instruction>
    var records: seq<Record>
    var fields: seq<Field>
    var logs: seq<string>

    /** `Process::new`: nothing parsed, loaded or logged yet. */
    constructor ()
      ensures instructions == [] && records == [] && fields == [] && logs == []
    {
      logs := [];
      fields := [];
      records := [];
      instructions := [];
    }

    /** `read_instructions`: on success the parsed instructions are appended in order.
        `Vec::append` empties its argument, so the count returned is always 0. A failed
        parse changes nothing. */
    method ReadInstructions(lines: seq<LineRead>, v: Validators) returns (r: Result<nat, ParseError>)
      modifies this
      ensures ParseAll(lines, v).Ok? ==>
        instructions == old(instructions) + ParseAll(lines, v).value && r == Ok(0)
      ensures ParseAll(lines, v).Err? ==>
        instructions == old(instructions) && r == Err(ParseAll(lines, v).error)
      ensures records == old(records) && fields == old(fields) && logs == old(logs)
    {
      var parsed := Parse(lines, v);
      if parsed.Err? {
        return Err(parsed.error);
      }
      var executables := parsed.value;
      instructions, executables := instructions + executables, [];
      r := Ok(|executables|);
    }

    /** `read_instructions` as evidently intended: the count returned is the number of
        instructions appended, one per line read. */
    method ReadInstructionsCounted(lines: seq<LineRead>, v: Validators) returns (r: Result<nat, ParseError>)
      modifies this
      ensures ParseAll(lines, v).Ok? ==>
        instructions == old(instructions) + ParseAll(lines, v).value && r == Ok(|lines|)
      ensures ParseAll(lines, v).Err? ==>
        instructions == old(instructions) && r == Err(ParseAll(lines, v).error)
      ensures r.Ok? ==> r.value == |instructions| - |old(instructions)|
      ensures records == old(records) && fields == old(fields) && logs == old(logs)
    {
      var parsed := Parse(lines, v);
      if parsed.Err? {
        return Err(parsed.error);
      }
      ParseLinesSucceeds(lines, 1, LineParser(v));
      var executables := parsed.value;
      var appended := |executables|;
      instructions, executables := instructions + executables, [];
      r := Ok(appended);
    }

    /** `read_records`: the adapter's fields and records are appended after the existing
        ones, and the total number of records is returned. */
    method ReadRecords(loaded: Result<(seq<Field>, seq<Record>), AdapterError>) returns (r: Result<nat, AdapterError>)
      modifies this
      ensures loaded.Ok? ==> fields == old(fields) + loaded.value.0 && records == old(records) + loaded.value.1
      ensures loaded.Ok? ==> r == Ok(|old(records)| + |loaded.value.1|)
      ensures loaded.Err? ==> fields == old(fields) && records == old(records) && r == Err(loaded.error)
      ensures instructions == old(instructions) && logs == old(logs)
    {
      if loaded.Err? {
        return Err(loaded.error);
      }
      var (newFields, newRecords) := loaded.value;
      fields := fields + newFields;
      records := records + newRecords;
      r := Ok(|records|);
    }

    /** `run`: each instruction's log is pushed in order; the first failing `execute`
        stops the run and keeps the logs pushed so far. */
    method Run(execute: Instruction -> Result<string, string>) returns (r: Result<nat, string>)
      modifies this
      ensures logs == old(logs) + RunLogs(instructions, execute).0
      ensures RunLogs(instructions, execute).1.None? ==> r == Ok(|logs|)
      ensures RunLogs(instructions, execute).1.Some? ==> r == Err(RunLogs(instructions, execute).1.value)
      ensures instructions == old(instructions) && records == old(records) && fields == old(fields)
    {
      var i := 0;
      while i < |instructions|
        invariant 0 <= i <= |instructions|
        invariant instructions == old(instructions) && records == old(records) && fields == old(fields)
        invariant RunLogs(instructions[..i], execute).1.None?
        invariant logs == old(logs) + RunLogs(instructions[..i], execute).0
      {
        RunLogsSnoc(instructions[..i], instructions[i], execute);
        assert instructions[..i + 1] == instructions[..i] + [instructions[i]];
        var executed := execute(instructions[i]);
        if executed.Err? {
          RunTail(instructions, i, execute);
          return Err(executed.error);
        }
        logs := logs + [executed.value];
        i := i + 1;
      }
      assert instructions[..i] == instructions;
      r := Ok(|logs|);
    }

    /** `log`: the logs are written in order, and counted while no write fails. */
    method Log(failsAt: Option<nat>) returns (written: seq<string>, r: Result<nat, WriteError>)
      ensures (written, r) == WriteAll(logs, failsAt)
    {
      var logged := 0;
      written := [];
      while logged < |logs|
        invariant 0 <= logged <= |logs|
        invariant written == logs[..logged]
        invariant failsAt.Some? ==> logged <= failsAt.value
      {
        if FailsAt(failsAt, logged) {
          return written, Err(WriteFailed);
        }
        written := written + [logs[logged]];
        logged := logged + 1;
      }
      assert written == logs;
      r := Ok(logged);
    }
  }

  /** A failure at instruction i of a run that reached it is the run's failure. */
  lemma RunTail(instructions: seq<Instruction>, i: nat, execute: Instruction -> Result<string, string>)
    requires i < |instructions|
    requires RunLogs(instructions[..i], execute).1.None?
    requires execute(instructions[i]).Err?
    ensures RunLogs(instructions, execute) == (RunLogs(instructions[..i], execute).0, Some(execute(instructions[i]).error))
  {
    RunStopsAtFirstFailure(instructions, execute);
    RunStopsAtFirstFailure(instructions[..i], execute);
    RunLogsSnoc(instructions[..i], instructions[i], execute);
    assert instructions[..i + 1] == instructions[..i] + [instructions[i]];
    RunPrefixFailure(instructions, i + 1, execute);
  }

  /** Once a prefix of the instructions fails, further instructions change nothing. */
  lemma {:induction false} RunPrefixFailure(instructions: seq<Instruction>, j: nat, execute: Instruction -> Result<string, string>)
    requires j <= |instructions|
    requires RunLogs(instructions[..j], execute).1.Some?
    ensures RunLogs(instructions, execute) == RunLogs(instructions[..j], execute)
    decreases j
  {
    assert j > 0;
    assert instructions[..j][0] == instructions[0];
    if execute(instructions[0]).Ok? {
      assert instructions[..j][1..] == instructions[1..][..j - 1];
      RunPrefixFailure(instructions[1..], j - 1, execute);
    }
  }

  lemma DistinctTokens()
    ensures Split("DISTINCT a", ' ') == ["DISTINCT", "a"]
  {
    assert "DISTINCT a" == "DISTINCT" + [' '] + "a";
    SplitAround("DISTINCT", ' ', "a");
    SplitWithoutSeparator("DISTINCT", ' ');
    SplitWithoutSeparator("a", ' ');
  }

  lemma DistinctBuild(n: nat)
    ensures Build(DISTINCT, ["DISTINCT", "a"], n, Reference) == Ok(Distinct(["a"]))
  {
    SplitWithoutSeparator("a", ',');
  }

  /** The line `DISTINCT a` builds a DISTINCT of the one field `a`. */
  lemma DistinctLine(n: nat)
    ensures ParseLine("DISTINCT a", n, Reference) == Ok(Distinct(["a"]))
  {
    DistinctTokens();
    DistinctBuild(n);
  }

  /** The one-line file `DISTINCT a` parses to one instruction. */
  lemma OneLineAppendsOne()
    ensures ParseAll([Line("DISTINCT a")], Reference) == Ok([Distinct(["a"])])
  {
    DistinctLine(1);
    var lines := [Line("DISTINCT a")];
    var f := LineParser(Reference);
    assert f(lines[0], 1) == Ok(Distinct(["a"]));
    ParseLinesSucceeds(lines, 1, f);
    var parsed := ParseLines(lines, 1, f).value;
    assert parsed == [Distinct(["a"])];
  }

  /** Reading the one-line file `DISTINCT a` into a new process appends one instruction,
      while `read_instructions` as written reports 0. */
  method OneLineReadReturnsZero() returns (p: Process, r: Result<nat, ParseError>)
    ensures p.instructions == [Distinct(["a"])] && r == Ok(0)
  {
    p := new Process();
    OneLineAppendsOne();
    r := p.ReadInstructions([Line("DISTINCT a")], Reference);
  }
}
