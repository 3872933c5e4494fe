# dft instruction front end, in Dafny

dft is a command-line data-file transformer. It reads a table, for example a CSV file. It
reads an instruction file in a small keyword language (`DISTINCT`, `IGNORE`, `ALIAS`,
`RENAME`, `MERGE`, `VALIDATE`, `FILTER`, `COERCE`, `ADD`). It logs one entry per instruction
and writes the table back out. This project models the parts of the program that have exact,
checkable outcomes, and proves properties of them.

- `tokenizer.dfy` (`Tokenizer`): the instruction tokenizer, `parse_token` and
  `parse_token_list`, together with the `str::split` / `join` pair they rely on.
- `enums.dfy` (`Enums`): the closed enumerations. Each name-carrying enumeration has its
  name table and a name reader.
- `types.dfy` (`Types`): the `Field`, `Record` and `Optionals` records and their constructors.
- `validation.dfy` (`Validation`): the slot validators the builders call. Their bodies are
  not part of this model, so the builders receive them as a `Validators` value. `Sound`
  states what the model assumes of them: every error names the line it was given, and the
  connector check is equality with the expected connector. `Reference` is one concrete set of
  validators, proved to be sound. `Slot`, `SlotError` and `FirstSlotError` form a grammar
  table, an independent description of the builders.
- `executables.dfy` (`Executables`): the nine strict builders. Each is proved against its
  row of the grammar table.
- `parser.dfy` (`Parser`): the line-numbered dispatcher, as the line loop it is in the source
  (`Parse`), proved against the specification function `ParseAll`.
- `legacy.dfy` (`Legacy`): the older lenient parser. Its `from_instructor` loop is proved
  against the filter `Kept`.
- `output.dfy` (`Output`): a line writer, described by the index of the first write that
  fails, if any.
- `process.dfy` (`Processes`): the `Process` container, as a class whose methods append to
  its fields.
- `sql.dfy` (`Sql`): the SQL INSERT output adapter. Its `write` loop is proved against the
  statements of the rows that are not discarded.
- `messages.dfy` (`Messages`): the diagnostic message formatters. `flineerror` has a reader
  that recovers the file, line and message, provided the file name holds no `]`. The token of
  `fmissing` is read back by its position. `finvalid` and `finvalidkind` cannot be read back:
  different arguments can give the same message. Their found token is located by its length,
  between an opening quote and the final quote, without escaping.
- `cli.dfy` (`Cli`): input and output format resolution by precedence.

Some behaviour is modelled after the code where it differs from a reading of the
instruction language's description:

- An empty instruction line is not skipped by the strict parser. `split(" ")` yields the
  single token `""`, which is no keyword, so the parse fails on that line.
- Instruction execution does nothing but return "Executing...". `run` is modelled as
  appending that log, not as a table transformation.
- `oformat` returns an SQL output format, so `OutputFormat` has an `SQL` variant in this
  model, although src/definitions/enums.rs declares only CSV and JSON.
- Every `panic!` is an error result:
  - the unknown instruction becomes `UnknownInstruction(line)`;
  - an unknown format becomes `InvalidInputFormat` / `InvalidOutputFormat`.

`Field::new` and `Record::new` are declared twice, identically, in src/definitions/types.rs
and in src/definitions/structs.rs. The private `parse_token` and `parse_token_list` of
src/instructions.rs are copies of those in src/instructions/utils.rs. Each pair is modelled by
one member.

## Model

| member | source | states |
|---|---|---|
| Tokenizer.Split | src/instructions/parser.rs:18 | splitting on a separator always yields at least one piece, so the keyword lookup always has a first token |
| Tokenizer.Get | src/definitions/executables.rs:58-60 | `tokens.get(i)` is present exactly when i is inside the line, and is then token i |
| Tokenizer.ParseToken | src/instructions/utils.rs:1-6 | a missing token reads as the empty string; a present one is kept verbatim (also the copy at src/instructions.rs:271-276) |
| Tokenizer.ParseTokenList | src/instructions/utils.rs:8-17 | a missing token is the empty list. A present token gives a list that rejoins with "," to the token, has one element more than the token has commas, and has no element holding a comma (also the copy at src/instructions.rs:278-287) |
| Tokenizer.SplitJoin | src/instructions/utils.rs:11-13 | joining the pieces with the separator gives back the split string |
| Tokenizer.SplitCount | src/instructions/utils.rs:11 | there is one piece more than there are separators |
| Tokenizer.SplitPiecesAvoidSeparator | src/instructions/utils.rs:11 | no piece contains the separator |
| Tokenizer.SplitWithoutSeparator | src/instructions/utils.rs:11 | a string without the separator splits into itself alone |
| Tokenizer.SplitAround | src/instructions/parser.rs:18 | splitting `a + sep + b` gives the pieces of a followed by the pieces of b |
| Tokenizer.JoinSplit | src/instructions/utils.rs:11-13 | splitting undoes joining, for every non-empty list of pieces free of the separator |
| Tokenizer.TokenListRoundTrip | src/instructions/utils.rs:8-17 | `parse_token_list` of a comma-joined non-empty comma-free list gives back that list |
| Tokenizer.TokenListExamples | src/instructions/utils.rs:11-13 | `""` gives `[""]` and `"a,,b"` gives `["a", "", "b"]` |
| Enums.ConnectorFromName | src/definitions/enums.rs:46-54 | a connector read from a name is the connector of that name; enums.rs declares only the enumeration, and this reader stands for the validator (`validate_connector`) that is not part of this model |
| Enums.ConnectorNameRoundTrip | src/definitions/enums.rs:46-54 | every one of the six connectors is read back from its own name, so connector equality is equality of names |
| Enums.TypeFromName | src/definitions/enums.rs:12-17 | a type read from a name is the type of that name; enums.rs declares only the enumeration, and this reader stands for the validator (`parse_typed`) that is not part of this model |
| Enums.TypeNameRoundTrip | src/definitions/enums.rs:12-17 | each of NUMBER, BOOLEAN, STRING is read back from its name |
| Enums.ExpressionFromName | src/definitions/enums.rs:19-27 | an expression read from a name is the expression of that name; enums.rs declares only the enumeration, and this reader stands for the validator (`parse_expression`) that is not part of this model |
| Enums.ExpressionNameRoundTrip | src/definitions/enums.rs:19-27 | each of the six expressions is read back from its name |
| Enums.FormatFromName | src/definitions/enums.rs:29-37 | a format read from a name is the format of that name; enums.rs declares only the enumeration, and this reader stands for the validator (`parse_format`) that is not part of this model |
| Enums.FormatNameRoundTrip | src/definitions/enums.rs:29-37 | each of the six formats is read back from its name |
| Enums.ActionFromName | src/definitions/enums.rs:39-44 | an action read from a name is the action of that name; enums.rs declares only the enumeration, and this reader stands for the validator (`parse_action`) that is not part of this model |
| Enums.ActionNameRoundTrip | src/definitions/enums.rs:39-44 | each of DISCARD, NOTIFY, HALT is read back from its name |
| Types.NewField | src/definitions/types.rs:13-20 | `Field::new` keeps the name and types the field STRING (also the duplicate at src/definitions/structs.rs:12-19) |
| Types.NewRecord | src/definitions/types.rs:29-37 | `Record::new` keeps the id and the values, in order, and starts not discarded (also the duplicate at src/definitions/structs.rs:28-36) |
| Validation.ReferenceIsSound | src/definitions/executables.rs:58-60 | the reference validators meet the assumed contract: every failure names its line, and the connector check passes exactly on the expected connector's keyword |
| Validation.FirstSlotErrorIsLeftmost | src/definitions/executables.rs:161-165 | a chain of slot checks fails exactly when some slot fails, and then with the error of the leftmost failing slot |
| Validation.LaterSlotsIgnored | src/definitions/executables.rs:161-165 | once a slot fails, slots after it do not change the outcome |
| Validation.FirstSlotErrorTagsLine | src/definitions/executables.rs:58-60 | under sound validators a slot failure is a diagnostic naming the line passed to the builder |
| Executables.LastSlot | src/definitions/executables.rs:13-235 | every slot of a builder's grammar lies between token 1 and the last slot |
| Executables.LastSlotIsRead | src/definitions/executables.rs:13-235 | the grammar's final slot reads exactly token LastSlot(k), so the bound is the highest token a builder reads and `TrailingTokensIgnored`'s threshold is exact |
| Executables.BuildDistinct | src/definitions/executables.rs:13-19 | `Distinct::from_tokens`: a success is a DISTINCT instruction; slot order, errors and operands are characterised by `BuildFollowsGrammar`, `BuildSucceedsIffAllSlotsPass` and `OperandsFromSlots` |
| Executables.BuildIgnore | src/definitions/executables.rs:34-40 | `Ignore::from_tokens`: a success is a IGNORE instruction; slot order, errors and operands are characterised by `BuildFollowsGrammar`, `BuildSucceedsIffAllSlotsPass` and `OperandsFromSlots` |
| Executables.BuildAlias | src/definitions/executables.rs:56-64 | `Alias::from_tokens`: a success is a ALIAS instruction, and only after the connector validator accepted TO at token 2; slot order, errors and operands are characterised by `BuildFollowsGrammar`, `BuildSucceedsIffAllSlotsPass` and `OperandsFromSlots`; examples in `AliasWithoutConnector` and `AliasWrongConnector` |
| Executables.BuildRename | src/definitions/executables.rs:80-88 | `Rename::from_tokens`: a success is a RENAME instruction, and only after the connector validator accepted TO at token 2; slot order, errors and operands are characterised by `BuildFollowsGrammar`, `BuildSucceedsIffAllSlotsPass` and `OperandsFromSlots` |
| Executables.BuildMerge | src/definitions/executables.rs:104-112 | `Merge::from_tokens`: a success is a MERGE instruction, and only after the connector validator accepted TO at token 2; slot order, errors and operands are characterised by `BuildFollowsGrammar`, `BuildSucceedsIffAllSlotsPass` and `OperandsFromSlots` |
| Executables.BuildFilter | src/definitions/executables.rs:129-142 | `Filter::from_tokens`: a success is a FILTER instruction, and only after the connector validator accepted MATCHING at token 2; slot order, errors and operands are characterised by `BuildFollowsGrammar`, `BuildSucceedsIffAllSlotsPass` and `OperandsFromSlots` |
| Executables.BuildValidate | src/definitions/executables.rs:159-173 | `Validate::from_tokens`: a success is a VALIDATE instruction, and only after the connector validator accepted MATCHING at token 2 and OR at token 4; slot order, errors and operands are characterised by `BuildFollowsGrammar`, `BuildSucceedsIffAllSlotsPass` and `OperandsFromSlots` |
| Executables.BuildCoerce | src/definitions/executables.rs:190-204 | `Coerce::from_tokens`: a success is a COERCE instruction, and only after the connector validator accepted TYPED at token 2 and RESCUE at token 4; slot order, errors and operands are characterised by `BuildFollowsGrammar`, `BuildSucceedsIffAllSlotsPass` and `OperandsFromSlots` |
| Executables.BuildAdd | src/definitions/executables.rs:221-235 | `Add::from_tokens`: a success is a ADD instruction, and only after the connector validator accepted TYPED at token 2 and DEFAULT at token 4; slot order, errors and operands are characterised by `BuildFollowsGrammar`, `BuildSucceedsIffAllSlotsPass` and `OperandsFromSlots` |
| Executables.Build | src/instructions/parser.rs:23-31 | the builder a keyword selects makes instructions of that keyword's kind only; characterised by `BuildFollowsGrammar`, `ConnectorsRequired`, `BuildReadsOnlySlots` and `TrailingTokensIgnored` |
| Executables.BuildFollowsGrammar | src/definitions/executables.rs:13-235 | each of the nine builders fails exactly when its grammar table has a failing slot, and then with the leftmost failing slot's error |
| Executables.BuildSucceedsIffAllSlotsPass | src/definitions/executables.rs:13-235 | a builder succeeds exactly when every slot of its grammar passes |
| Executables.ConnectorsRequired | src/definitions/executables.rs:56-235 | under sound validators a built ALIAS, RENAME or MERGE had TO at token 2. A built FILTER had MATCHING at 2; a built VALIDATE had MATCHING at 2 and OR at 4. A built COERCE had TYPED at 2 and RESCUE at 4; a built ADD had TYPED at 2 and DEFAULT at 4. A failure names the builder's line |
| Executables.OperandsFromSlots | src/definitions/executables.rs:13-235 | which validator fills which operand from which token. ALIAS and RENAME take the field from token 1 and the `to` field from token 3. FILTER takes the expression from 3 and the value from 4, and VALIDATE the format from 3 and the action from 5. COERCE reads its rescue at token 5 with the field validator; ADD reads its default at token 5 with the value validator |
| Executables.BuildReadsOnlySlots | src/definitions/executables.rs:14-18 | a builder reads only tokens 1 up to its last slot: lines that agree there build alike, whatever the keyword token and later tokens |
| Executables.TrailingTokensIgnored | src/definitions/executables.rs:35-39 | tokens after a builder's last slot are ignored |
| Executables.AliasWithoutConnector | src/definitions/executables.rs:57-63 | with the reference validators, `ALIAS f` fails on the missing TO of its own line |
| Executables.AliasWrongConnector | src/definitions/executables.rs:57-63 | with the reference validators, `ALIAS a FOO b` and `ALIAS a MATCHING b` are refused and `ALIAS a TO b` builds `Alias(a, b)` |
| Parser.DispatchIsExact | src/instructions/parser.rs:22-33 | a first token selects a builder exactly when it is that builder's keyword, spelled exactly |
| Parser.KeywordFromName | src/instructions/parser.rs:22-33 | a token that selects a keyword is exactly that keyword's name; `DispatchIsExact` gives the converse |
| Parser.ParseLine | src/instructions/parser.rs:18-33 | a line's instruction is of the kind its first space-separated token names, and a first token that is no keyword gives `UnknownInstruction` for that line; see also `EmptyLineIsUnknown`, `UnknownKeywordFails` and `KeywordsAreCaseSensitive` |
| Parser.ParseLinesSucceeds | src/instructions/parser.rs:11-44 | a parse succeeds exactly when every line builds. It then holds one instruction per line, in order, and the k-th was built with line number first + k |
| Parser.ParseLinesFailsAt | src/instructions/parser.rs:15-41 | when the lines before line i build and line i does not, the whole parse fails with line i's error; no partial list is returned |
| Parser.FirstFailingLine | src/instructions/parser.rs:15-41 | a failed parse carries the error of its first failing line |
| Parser.Parse | src/instructions/parser.rs:11-44 | the loop, with its line counter starting at 1 and advanced once per line, computes the parse of the whole file |
| Parser.LineErrorNamesLine | src/instructions/parser.rs:22-32 | under sound validators a line that fails reports the line number it was given |
| Parser.ParseErrorNamesLine | src/instructions/parser.rs:14-40 | a failed parse reports its first failing line k (0-based). That error carries line number k + 1 under sound validators, or is the read failure when reading line k failed |
| Parser.EmptyLineIsUnknown | src/instructions/parser.rs:18-37 | an empty line is not skipped: it fails as an unknown instruction on its own line |
| Parser.UnknownKeywordFails | src/instructions/parser.rs:32 | a line whose first token is no keyword fails with its own line number |
| Parser.KeywordsAreCaseSensitive | src/instructions/parser.rs:22-32 | a lower-case keyword is not recognised |
| Legacy.FromLineNoneIffUnknown | src/instructions.rs:252-268 | a line is dropped exactly when its first token is not one of the eight keywords, which are the strict parser's less VALIDATE |
| Legacy.FromTokens | src/instructions.rs:26-213 | the eight lenient `from_tokens`, selected by keyword, give an executable exactly for the eight known keywords; `ConnectorsNeverInspected` and `MissingTokensBecomeEmpty` say what they read |
| Legacy.FromLine | src/instructions.rs:252-268 | a line gives an executable exactly when its first space-separated token is a known keyword; `StrictLineIsLenientLine` relates it to the strict parser |
| Legacy.ConnectorsNeverInspected | src/instructions.rs:69-74 | only tokens 1, 3, 5 (and 4 for FILTER) are read; connector tokens may hold anything |
| Legacy.AliasWithAnyConnector | src/instructions.rs:69-74 | `ALIAS a FOO b` builds `Alias(a, b)` |
| Legacy.MissingTokensBecomeEmpty | src/instructions.rs:203-214 | a missing token becomes "" or the empty list instead of an error |
| Legacy.KeptDistributes | src/instructions.rs:236-246 | lines are kept in order, and each is kept or dropped on its own |
| Legacy.KeptOne | src/instructions.rs:236-246 | one line contributes its instruction when it was read and recognised, and nothing otherwise |
| Legacy.KeptLength | src/instructions.rs:236-246 | never more instructions than lines, and exactly one per line when every line is read and recognised |
| Legacy.FromInstructor | src/instructions.rs:231-250 | without a reader, nothing; otherwise the loop keeps the recognised lines' instructions in order and silently drops unreadable and unrecognised lines |
| Legacy.StrictLineIsLenientLine | src/instructions.rs:252-268 | every line the strict parser builds with the reference validators, other than a VALIDATE, the lenient parser builds to the same operands |
| Processes.RunStopsAtFirstFailure | src/process.rs:55-61 | the logs are the results of a prefix of the instructions, in order. The run fails exactly when it stopped short, and then with the error of the instruction it stopped at |
| Processes.StubLogsEveryInstruction | src/definitions/traits.rs:19-21 | with the default `execute`, the run succeeds and logs "Executing..." once per instruction |
| Processes.RunLogsSnoc | src/process.rs:56-58 | one more instruction adds its log, or ends the run with its error |
| Processes.RunTail | src/process.rs:57 | a failure at an instruction that the run reached is the run's failure, with the logs before it |
| Processes.RunPrefixFailure | src/process.rs:57 | after a failure, later instructions change nothing |
| Processes.Process.constructor | src/process.rs:21-28 | a new process has no instructions, records, fields or logs |
| Processes.Process.ReadInstructions | src/process.rs:30-36 | on success the parsed instructions are appended in order and 0 is returned; on failure nothing changes and the parse error is returned; records, fields and logs are untouched |
| Processes.Process.ReadInstructionsCounted | src/process.rs:30-36 | the corrected count: the number of instructions appended, which is the number of lines |
| Processes.OneLineAppendsOne | src/process.rs:31-35 | the one-line file `DISTINCT a` parses, with the reference validators, to the single instruction `Distinct(["a"])` |
| Processes.OneLineReadReturnsZero | src/process.rs:31-35 | reading the one-line file `DISTINCT a` into a new process leaves exactly one instruction in it, while the count returned is `Ok(0)` |
| Processes.Process.ReadRecords | src/process.rs:38-53 | the adapter's fields and records are appended after the existing ones, in order, and the total number of records is returned; an adapter failure changes nothing |
| Processes.Process.Run | src/process.rs:55-61 | the logs grow by the run's logs, in instruction order. The count is the total number of logs, or the run returns the first failure's error; instructions, fields and records are unchanged |
| Processes.Process.Log | src/process.rs:63-73 | the logs are written in order; if no write fails, the count is the number of logs; otherwise the lines before the failing one were written |
| Output.WriteAll | src/process.rs:63-73 | line-by-line writing with `writeln!(...)?`: the lines written are a prefix of the lines; all are written, with their count, exactly when no write in range fails, and otherwise the written prefix ends at the failing write (also the write loop of src/adapters/output/sql.rs:27-59) |
| Sql.ParseValue | src/adapters/output/sql.rs:11-16 | a STRING value is put between single quotes verbatim; any other value is written unchanged |
| Sql.QuotedValueRecoverable | src/adapters/output/sql.rs:13 | every STRING value is recovered from its literal by stripping the outer quotes |
| Sql.QuotesNotEscaped | src/adapters/output/sql.rs:13-14 | an embedded quote is not escaped: `it's` becomes `'it's'`; a NUMBER value stays bare |
| Sql.BuildStatement | src/adapters/output/sql.rs:18-23 | `build_statement`; no contract of its own, its layout is characterised by `TableNameVerbatim`, `TableNameThirdWord` and `ListsVerbatim` |
| Sql.TableNameVerbatim | src/adapters/output/sql.rs:18-23 | for every table name, spaces and quotes included, a statement starts with `INSERT INTO ` followed by the table name verbatim, and ends in `);` |
| Sql.TableNameThirdWord | src/adapters/output/sql.rs:18-23 | a table name without spaces is the third space-separated word of the statement, after INSERT and INTO |
| Sql.ListsVerbatim | src/adapters/output/sql.rs:18-23 | the column list, joined with ", ", follows `INSERT INTO <tname> (` verbatim, the value list sits verbatim just before the closing `);`, and the statement is 26 characters longer than the table name and the two joined lists |
| Sql.Formatted | src/adapters/output/sql.rs:43-45 | values are paired with fields by position up to the shorter of the two, each formatted by its field's type |
| Sql.Names | src/adapters/output/sql.rs:47 | the column list names every field, in order |
| Sql.LiveKeepsUndiscarded | src/adapters/output/sql.rs:36-39 | no discarded row is written, and every row not discarded is |
| Sql.LiveDistributes | src/adapters/output/sql.rs:36-39 | rows keep their order: filtering a concatenation concatenates the filtered parts |
| Sql.StatementsFollowLive | src/adapters/output/sql.rs:36-56 | one statement per row not discarded, in row order |
| Sql.StatementsDistribute | src/adapters/output/sql.rs:36-56 | the statements of a concatenation of rows are the concatenated statements, so each row contributes its statement, or none, on its own |
| Sql.FormatRow | src/adapters/output/sql.rs:41-45 | the inner loop builds exactly the formatted values of the row |
| Sql.WriteFailsAtRow | src/adapters/output/sql.rs:49-53 | when the write for a row fails, exactly the statements of the rows before it were written |
| Sql.Write | src/adapters/output/sql.rs:27-59 | the loop writes the statements of the rows not discarded, in order, up to the first failing write |
| Sql.WriteCountsLiveRows | src/adapters/output/sql.rs:34-58 | without a failing write, one statement per row not discarded is written, in order, and their number is returned |
| Sql.ShortRowKeepsAllColumns | src/adapters/output/sql.rs:43-47 | a row shorter than the field list still names every column: `INSERT INTO t (a, b) VALUES (1);` |
| Messages.NatToString | src/utils.rs:4 | a line number prints as decimal digits without leading zeros |
| Messages.DecimalRoundTrip | src/utils.rs:4 | reading a printed line number gives the number back |
| Messages.FLineError | src/utils.rs:3-5 | `flineerror`: the file follows the opening bracket and the message ends the text; `LineErrorRoundTrip` reads all three parts back |
| Messages.NumberedRoundTrip | src/utils.rs:4 | the line number and message are read back from the text after the marker |
| Messages.LineErrorRoundTrip | src/utils.rs:3-5 | file, line and message come back out of a line error unchanged, whatever the message holds, when the file name has no `]` |
| Messages.FMissing | src/utils.rs:7-9 | `fmissing`; no contract of its own, characterised by `MissingNamesToken` and `MissingIsNotInvalid` |
| Messages.FInvalid | src/utils.rs:11-13 | `finvalid`; no contract of its own, characterised by `InvalidQuotesActual`, `FInvalidAmbiguous` and `MessageExamples` |
| Messages.FInvalidKind | src/utils.rs:15-24 | `finvalidkind`; no contract of its own, characterised by `InvalidQuotesActual` and `FInvalidAmbiguous` |
| Messages.MissingNamesToken | src/utils.rs:7-9 | the missing token's name sits verbatim between the quotes |
| Messages.InvalidQuotesActual | src/utils.rs:11-24 | in both invalid-token messages the token found sits verbatim between an opening quote and the closing last character, without escaping; `finvalid` names the expected token right after `Invalid ` and has exactly 18 characters besides the two tokens |
| Messages.FInvalidAmbiguous | src/utils.rs:11-24 | `finvalid` and `finvalidkind` are not injective: for all strings, moving a `, found '` from the end of the expected token into the found token, or a `, expected ` from the end of the kind into the expected token, gives the same message from different arguments, so no reader of them exists |
| Messages.MissingIsNotInvalid | src/utils.rs:7-13 | a missing-token message is never an invalid-token message |
| Messages.MessageExamples | src/utils.rs:11-13 | `Invalid connector, found 'it's'`; the numbers 12 and 0 print as `12` and `0` |
| Cli.Components | src/cli.rs:77 | path components are never empty and never "." |
| Cli.FileName | src/cli.rs:77 | a file name is a non-empty component other than "." and "..", with no '/' |
| Cli.FileNameOfPath | src/cli.rs:77 | a plain name is the file name of every path that ends in it |
| Cli.Extension | src/cli.rs:80-85 | the extension holds no '.' |
| Cli.ExtensionOfName | src/cli.rs:80-85 | the text after the last '.' is the extension, and a name without '.' is its own extension |
| Cli.Selected | src/cli.rs:72-95 | the precedence chain shared by `iformat` and `oformat` (also src/cli.rs:105-128); no contract of its own, characterised by `FormatFlagWins`, `DirectionFlagBeatsPath` and `PathExtensionSelected` |
| Cli.IFormat | src/cli.rs:69-99 | `iformat`; no contract of its own, characterised by `InputAcceptsOnlyCsv`, `PathExtensionDecides` and `NoSourceRejected` |
| Cli.OFormat | src/cli.rs:102-135 | `oformat`; no contract of its own, characterised by `OutputAcceptsFormatNames`, `OutputPathExtensionDecides` and `ToBeatsOutputPath` |
| Cli.FormatFlagWins | src/cli.rs:72-73 | command lines with the same `--format` resolve to the same formats, whatever else they say |
| Cli.DirectionFlagBeatsPath | src/cli.rs:74-75 | without `--format`, `--from` (`--to`) decides the input (output) format whatever the path |
| Cli.PathExtensionDecides | src/cli.rs:76-99 | with only an input path, bare (`people.csv`) or under a directory (`data/people.csv`), the input format is accepted exactly when the file name's extension is `csv` |
| Cli.PathExtensionSelected | src/cli.rs:76-99 | with neither `--format` nor a direction option, the name selected for a path, bare or under a directory, is the extension of its file name; `iformat` and `oformat` both go through it |
| Cli.OutputPathExtensionDecides | src/cli.rs:101-125 | with only an output path, bare or under a directory, the output format is accepted exactly when the extension is `csv`, `json` or `sql`, and is then the format so named |
| Cli.InputAcceptsOnlyCsv | src/cli.rs:96-99 | the input format is accepted exactly when the selected name is `csv`, and is then CSV |
| Cli.OutputAcceptsFormatNames | src/cli.rs:129-134 | an output format is accepted exactly when the selected name is `csv`, `json` or `sql`, and is then the format of that name |
| Cli.NoSourceRejected | src/cli.rs:70-99 | with no format, no direction option and no path, both resolutions fail |
| Cli.UpperCaseExtensionRejected | src/cli.rs:96-99 | `data/people.CSV` is rejected: the comparison is case-sensitive |
| Cli.BareNameIsExtension | src/cli.rs:80-85 | a file named `csv`, without any '.', is read as CSV |
| Cli.ParentPathRejected | src/cli.rs:77 | a path ending in `..` has no file name and selects nothing |
| Cli.ToBeatsOutputPath | src/cli.rs:107-108 | `--to sql` wins over an output path ending in `.json` |

## Left out

- File and stream I/O is not modelled. This covers the readers, writers and loggers of
  `Cli`, structopt argument parsing, and the wiring in src/main.rs. Input is a sequence of
  `LineRead` values (a line, or a read error). A writer is described by the index of its
  first failing write.
- The validators `parse_field`, `parse_fields`, `validate_connector`, `parse_expression`,
  `parse_value`, `parse_typed`, `parse_format` and `parse_action` are not in the source
  files modelled here. Their contract is the assumption `Sound`, and `Reference` is a
  concrete instance of it.
- `write_result` (src/process.rs:75-86) is left out. It selects the CSV or JSON adapter,
  and both are thin wrappers over outside crates. The CSV adapters wrap the `csv` crate; note
  that the CSV writer does not skip discarded records. The JSON adapter works on `f64` and on
  types that src/definitions/enums.rs does not declare.
- Processes.Process.ReadRecords: takes the input adapter's result as a parameter, so the
  sequential ids 0..N-1 that the CSV reader assigns are not stated.
- Processes.Process.Run: `execute` is a parameter. The only implementation in the source is
  the stub `Stub`, so no instruction's effect on the table is modelled.
- The `Display` and `Debug` implementations of the instructions are left out. The `Display`
  ones recurse into themselves.
- `Tokenizer.Split` stands for `str::split` with a one-character pattern.
- Cli.Extension: the unseen `tokenize_str(".")` is modelled as a plain split on '.', keeping
  empty pieces. If that function drops empty pieces, names ending in '.' resolve differently.
- Cli.FileName: `PathBuf::file_name` is modelled as the last path component, after dropping
  empty and "." components, and as absent when that component is "..". `to_str` never fails,
  because strings here are sequences of characters.
- Record ids are `u64`; no arithmetic is done on them. Line numbers and counts are unbounded
  naturals, so `usize` overflow is not modelled.

## Findings

| source | as written | input that shows it | evidently intended | confidence | as-written member | corrected member |
|---|---|---|---|---|---|---|
| src/process.rs:31-35 | `read_instructions` returns `executables.len()` after `append` has moved every element out of `executables`, so the count is always 0 | an instruction file holding the one line `DISTINCT a`: one instruction is appended, 0 is returned | the number of instructions appended | high; not executed | Processes.OneLineReadReturnsZero | Processes.Process.ReadInstructionsCounted |
