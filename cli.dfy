/** Format resolution of src/cli.rs (`iformat`, `oformat`): an explicit `--format` wins,
    then `--from` (or `--to`), then the extension of the file's name, and otherwise the
    empty name, which no format accepts. The source panics on an unknown format; here that
    is an error result. The command line itself is given as a value. */
module Cli {
  import opened Results
  import opened Enums
  import opened Tokenizer

  /** The options that take part in format resolution. */
  datatype Cli = Cli(
    input: Option<string>,
    output: Option<string>,
    from: Option<string>,
    to: Option<string>,
    format: Option<string>)

  datatype FormatError = InvalidInputFormat | InvalidOutputFormat

  /** The components of a path: split on '/', with empty and "." components dropped. */
  function Components(parts: seq<string>): (r: seq<string>)
    ensures forall k :: 0 <= k < |r| ==> r[k] != "" && r[k] != "."
  {
    if |parts| == 0 then []
    else if parts[0] == "" || parts[0] == "." then Components(parts[1..])
    else [parts[0]] + Components(parts[1..])
  }

  lemma {:induction false} ComponentsDistribute(a: seq<string>, b: seq<string>)
    ensures Components(a + b) == Components(a) + Components(b)
    decreases |a|
  {
    if |a| == 0 {
      assert a + b == b;
    } else {
      assert (a + b)[0] == a[0];
      assert (a + b)[1..] == a[1..] + b;
      ComponentsDistribute(a[1..], b);
    }
  }

  /** `Path::file_name`: the last component, unless there is none or it is "..". */
  function FileName(path: string): (r: Option<string>)
    ensures r.Some? ==> r.value != "" && r.value != "." && r.value != ".." && '/' !in r.value
  {
    var parts := Split(path, '/');
    SplitPiecesAvoidSeparator(path, '/');
    var components := Components(parts);
    ComponentsAvoid(parts, '/');
    if |components| == 0 || components[|components| - 1] == ".." then None
    else Some(components[|components| - 1])
  }

  lemma {:induction false} ComponentsAvoid(parts: seq<string>, c: char)
    requires forall k :: 0 <= k < |parts| ==> c !in parts[k]
    ensures forall k :: 0 <= k < |Components(parts)| ==> c !in Components(parts)[k]
    decreases |parts|
  {
    if |parts| > 0 {
      ComponentsAvoid(parts[1..], c);
    }
  }

  /** A name that is a plain file name is the file name of any path ending in it. */
  lemma FileNameOfPath(dir: string, name: string)
    requires '/' !in name && name != "" && name != "." && name != ".."
    ensures FileName(dir + "/" + name) == Some(name)
    ensures FileName(name) == Some(name)
  {
    SplitAround(dir, '/', name);
    SplitWithoutSeparator(name, '/');
    ComponentsDistribute(Split(dir, '/'), [name]);
  }

  /** The extension: the last '.'-separated piece of a file name. */
  function Extension(name: string): (r: string)
    ensures '.' !in r
  {
    var pieces := Split(name, '.');
    SplitPiecesAvoidSeparator(name, '.');
    pieces[|pieces| - 1]
  }

  /** The piece after the last '.' is the extension; a name without '.' is its own extension. */
  lemma ExtensionOfName(stem: string, ext: string)
    requires '.' !in ext
    ensures Extension(stem + "." + ext) == ext
    ensures Extension(ext) == ext
  {
    SplitAround(stem, '.', ext);
    SplitWithoutSeparator(ext, '.');
  }

  /** The format name a command line selects, by precedence: the explicit format, then
      the direction-specific option, then the extension of the path's file name, else "". */
  function Selected(format: Option<string>, direct: Option<string>, path: Option<string>): string
  {
    match format
    case Some(f) => f
    case None =>
      match direct
      case Some(d) => d
      case None =>
        match path
        case None => ""
        case Some(p) =>
          match FileName(p)
          case None => ""
          case Some(name) => Extension(name)
  }

  /** `iformat`. */
  function IFormat(cli: Cli): Result<InputFormat, FormatError>
  {
    if Selected(cli.format, cli.from, cli.input) == "csv" then Ok(InputFormat.CSV)
    else Err(InvalidInputFormat)
  }

  function OutputFormatName(f: OutputFormat): string
  {
    match f
    case CSV => "csv"
    case JSON => "json"
    case SQL => "sql"
  }

  /** `oformat`. */
  function OFormat(cli: Cli): Result<OutputFormat, FormatError>
  {
    var name := Selected(cli.format, cli.to, cli.output);
    if name == "csv" then Ok(OutputFormat.CSV)
    else if name == "json" then Ok(OutputFormat.JSON)
    else if name == "sql" then Ok(OutputFormat.SQL)
    else Err(InvalidOutputFormat)
  }

  /** `--format` decides alone: two command lines with the same explicit format resolve to
      the same formats, whatever their other options. */
  lemma FormatFlagWins(a: Cli, b: Cli)
    requires a.format.Some? && a.format == b.format
    ensures IFormat(a) == IFormat(b) && OFormat(a) == OFormat(b)
  {
  }

  /** Without `--format`, `--from` decides the input format whatever the input path, and
      `--to` the output format whatever the output path. */
  lemma DirectionFlagBeatsPath(a: Cli, b: Cli)
    requires a.format.None? && b.format.None?
    ensures a.from.Some? && a.from == b.from ==> IFormat(a) == IFormat(b)
    ensures a.to.Some? && a.to == b.to ==> OFormat(a) == OFormat(b)
  {
  }

  /** Only the extension of the path takes part, not the directory or the stem, whether the
      file is named on its own (`people.csv`) or under a directory (`data/people.csv`). */
  lemma PathExtensionSelected(dir: string, stem: string, ext: string, path: string)
    requires '/' !in stem && '/' !in ext && '.' !in ext && ext != ""
    requires path == dir + "/" + stem + "." + ext || path == stem + "." + ext
    ensures Selected(None, None, Some(path)) == ext
  {
    var name := stem + "." + ext;
    assert dir + "/" + stem + "." + ext == dir + "/" + name;
    assert '/' !in name;
    assert name[|stem|] == '.';
    assert name[|name| - 1] == ext[|ext| - 1] != '.';
    FileNameOfPath(dir, name);
    ExtensionOfName(stem, ext);
  }

  /** With only an input path, the input format is accepted exactly for a `csv` extension. */
  lemma PathExtensionDecides(dir: string, stem: string, ext: string, cli: Cli)
    requires cli.format.None? && cli.from.None?
    requires '/' !in stem && '/' !in ext && '.' !in ext && ext != ""
    requires cli.input == Some(dir + "/" + stem + "." + ext) || cli.input == Some(stem + "." + ext)
    ensures IFormat(cli).Ok? <==> ext == "csv"
  {
    PathExtensionSelected(dir, stem, ext, cli.input.value);
  }

  /** With only an output path, the output format is accepted exactly for a `csv`, `json` or
      `sql` extension, and is then the format of that name. */
  lemma OutputPathExtensionDecides(dir: string, stem: string, ext: string, cli: Cli)
    requires cli.format.None? && cli.to.None?
    requires '/' !in stem && '/' !in ext && '.' !in ext && ext != ""
    requires cli.output == Some(dir + "/" + stem + "." + ext) || cli.output == Some(stem + "." + ext)
    ensures OFormat(cli).Ok? <==> ext == "csv" || ext == "json" || ext == "sql"
    ensures OFormat(cli).Ok? ==> OutputFormatName(OFormat(cli).value) == ext
  {
    PathExtensionSelected(dir, stem, ext, cli.output.value);
  }

  /** The input format is accepted exactly when the selected name is "csv", spelled in
      lower case. */
  lemma InputAcceptsOnlyCsv(cli: Cli)
    ensures IFormat(cli).Ok? <==> Selected(cli.format, cli.from, cli.input) == "csv"
    ensures IFormat(cli).Ok? ==> IFormat(cli).value == InputFormat.CSV
  {
  }

  /** An output format is accepted exactly when the selected name is one of the format
      names, and then it is the format so named. */
  lemma OutputAcceptsFormatNames(cli: Cli)
    ensures OFormat(cli).Ok? <==>
      exists f: OutputFormat :: OutputFormatName(f) == Selected(cli.format, cli.to, cli.output)
    ensures OFormat(cli).Ok? ==> OutputFormatName(OFormat(cli).value) == Selected(cli.format, cli.to, cli.output)
  {
    var name := Selected(cli.format, cli.to, cli.output);
    if OFormat(cli).Ok? {
      assert OutputFormatName(OFormat(cli).value) == name;
    }
  }

  /** With no format, no direction option and no path, nothing is accepted. */
  lemma NoSourceRejected(cli: Cli)
    requires cli.format.None? && cli.from.None? && cli.to.None?
    requires cli.input.None? && cli.output.None?
    ensures IFormat(cli) == Err(InvalidInputFormat)
    ensures OFormat(cli) == Err(InvalidOutputFormat)
  {
  }

  /** An upper-case extension is rejected. */
  lemma UpperCaseExtensionRejected()
    ensures IFormat(Cli(Some("data/people.CSV"), None, None, None, None)) == Err(InvalidInputFormat)
  {
    assert "data/people.CSV" == "data" + "/" + "people" + "." + "CSV";
    PathExtensionDecides("data", "people", "CSV", Cli(Some("data/people.CSV"), None, None, None, None));
  }

  /** A file literally named "csv", without any '.', is read as CSV. */
  lemma BareNameIsExtension()
    ensures IFormat(Cli(Some("data/csv"), None, None, None, None)) == Ok(InputFormat.CSV)
  {
    assert "data/csv" == "data" + "/" + "csv";
    FileNameOfPath("data", "csv");
    ExtensionOfName("", "csv");
  }

  /** A path ending in ".." has no file name, so it selects nothing. */
  lemma ParentPathRejected()
    ensures IFormat(Cli(Some("data/.."), None, None, None, None)) == Err(InvalidInputFormat)
  {
    SplitAround("data", '/', "..");
    SplitWithoutSeparator("data", '/');
    SplitWithoutSeparator("..", '/');
    assert Split("data/..", '/') == ["data", ".."];
    assert Components(["data", ".."]) == ["data", ".."];
  }

  /** `--to` wins over the output path's extension. */
  lemma ToBeatsOutputPath()
    ensures OFormat(Cli(None, Some("out.json"), None, Some("sql"), None)) == Ok(OutputFormat.SQL)
  {
  }
}
