/** The nine instruction builders of src/definitions/executables.rs. Each reads fixed
    token slots left to right, checks the connector keyword expected in each connector
    slot, and stops at the first slot that fails. Token 0 is the keyword itself and is
    never read by a builder. */
module Executables {
  import opened Results
  import opened Enums
  import opened Tokenizer
  import opened Validation

  /** The instruction keywords the dispatcher recognises. */
  datatype Keyword = DISTINCT | IGNORE | ALIAS | RENAME | MERGE | VALIDATE | FILTER | COERCE | ADD

  /** One built instruction; its operands, and nothing of the connectors, are kept. */
  datatype Instruction =
    | Distinct(fields: seq<string>)
    | Ignore(fields: seq<string>)
    | Alias(field: string, to: string)
    | Rename(field: string, to: string)
    | Merge(fields: seq<string>, to: string)
    | Filter(fields: seq<string>, expression: Expression, value: string)
    | Validate(field: string, format: Format, action: Action)
    | Coerce(fields: seq<string>, typed: Type, rescue: string)
    | Add(fields: seq<string>, typed: Type, default: string)

  function BuildDistinct(tokens: seq<string>, n: nat, v: Validators): (r: Result<Instruction, ParseError>)
    ensures r.Ok? ==> KindOf(r.value) == DISTINCT
  {
    var fields :- v.fields(Get(tokens, 1), n);
    Ok(Distinct(fields))
  }

  function BuildIgnore(tokens: seq<string>, n: nat, v: Validators): (r: Result<Instruction, ParseError>)
    ensures r.Ok? ==> KindOf(r.value) == IGNORE
  {
    var fields :- v.fields(Get(tokens, 1), n);
    Ok(Ignore(fields))
  }

  function BuildAlias(tokens: seq<string>, n: nat, v: Validators): (r: Result<Instruction, ParseError>)
    ensures r.Ok? ==> KindOf(r.value) == ALIAS
    ensures r.Ok? ==> v.connector(Get(tokens, 2), TO, n).Ok?
  {
    var field :- v.field(Get(tokens, 1), n);
    var _ :- v.connector(Get(tokens, 2), TO, n);
    var to :- v.field(Get(tokens, 3), n);
    Ok(Alias(field, to))
  }

  function BuildRename(tokens: seq<string>, n: nat, v: Validators): (r: Result<Instruction, ParseError>)
    ensures r.Ok? ==> KindOf(r.value) == RENAME
    ensures r.Ok? ==> v.connector(Get(tokens, 2), TO, n).Ok?
  {
    var field :- v.field(Get(tokens, 1), n);
    var _ :- v.connector(Get(tokens, 2), TO, n);
    var to :- v.field(Get(tokens, 3), n);
    Ok(Rename(field, to))
  }

  function BuildMerge(tokens: seq<string>, n: nat, v: Validators): (r: Result<Instruction, ParseError>)
    ensures r.Ok? ==> KindOf(r.value) == MERGE
    ensures r.Ok? ==> v.connector(Get(tokens, 2), TO, n).Ok?
  {
    var fields :- v.fields(Get(tokens, 1), n);
    var _ :- v.connector(Get(tokens, 2), TO, n);
    var to :- v.field(Get(tokens, 3), n);
    Ok(Merge(fields, to))
  }

  function BuildFilter(tokens: seq<string>, n: nat, v: Validators): (r: Result<Instruction, ParseError>)
    ensures r.Ok? ==> KindOf(r.value) == FILTER
    ensures r.Ok? ==> v.connector(Get(tokens, 2), MATCHING, n).Ok?
  {
    var fields :- v.fields(Get(tokens, 1), n);
    var _ :- v.connector(Get(tokens, 2), MATCHING, n);
    var expression :- v.expression(Get(tokens, 3), n);
    var value :- v.value(Get(tokens, 4), n);
    Ok(Filter(fields, expression, value))
  }

  function BuildValidate(tokens: seq<string>, n: nat, v: Validators): (r: Result<Instruction, ParseError>)
    ensures r.Ok? ==> KindOf(r.value) == VALIDATE
    ensures r.Ok? ==> v.connector(Get(tokens, 2), MATCHING, n).Ok?
    ensures r.Ok? ==> v.connector(Get(tokens, 4), OR, n).Ok?
  {
    var field :- v.field(Get(tokens, 1), n);
    var _ :- v.connector(Get(tokens, 2), MATCHING, n);
    var format :- v.format(Get(tokens, 3), n);
    var _ :- v.connector(Get(tokens, 4), OR, n);
    var action :- v.action(Get(tokens, 5), n);
    Ok(Validate(field, format, action))
  }

  /** The rescue literal is read by the field validator, not the value validator. */
  function BuildCoerce(tokens: seq<string>, n: nat, v: Validators): (r: Result<Instruction, ParseError>)
    ensures r.Ok? ==> KindOf(r.value) == COERCE
    ensures r.Ok? ==> v.connector(Get(tokens, 2), TYPED, n).Ok?
    ensures r.Ok? ==> v.connector(Get(tokens, 4), RESCUE, n).Ok?
  {
    var fields :- v.fields(Get(tokens, 1), n);
    var _ :- v.connector(Get(tokens, 2), TYPED, n);
    var typed :- v.typed(Get(tokens, 3), n);
    var _ :- v.connector(Get(tokens, 4), RESCUE, n);
    var rescue :- v.field(Get(tokens, 5), n);
    Ok(Coerce(fields, typed, rescue))
  }

  function BuildAdd(tokens: seq<string>, n: nat, v: Validators): (r: Result<Instruction, ParseError>)
    ensures r.Ok? ==> KindOf(r.value) == ADD
    ensures r.Ok? ==> v.connector(Get(tokens, 2), TYPED, n).Ok?
    ensures r.Ok? ==> v.connector(Get(tokens, 4), DEFAULT, n).Ok?
  {
    var fields :- v.fields(Get(tokens, 1), n);
    var _ :- v.connector(Get(tokens, 2), TYPED, n);
    var typed :- v.typed(Get(tokens, 3), n);
    var _ :- v.connector(Get(tokens, 4), DEFAULT, n);
    var default :- v.value(Get(tokens, 5), n);
    Ok(Add(fields, typed, default))
  }

  /** The keyword whose builder makes instructions of this kind. */
  function KindOf(i: Instruction): Keyword
  {
    match i
    case Distinct(_) => DISTINCT
    case Ignore(_) => IGNORE
    case Alias(_, _) => ALIAS
    case Rename(_, _) => RENAME
    case Merge(_, _) => MERGE
    case Filter(_, _, _) => FILTER
    case Validate(_, _, _) => VALIDATE
    case Coerce(_, _, _) => COERCE
    case Add(_, _, _) => ADD
  }

  /** `<Kind>::from_tokens` for the builder the keyword names: it builds an instruction of
      that kind, or fails. */
  function Build(k: Keyword, tokens: seq<string>, n: nat, v: Validators): (r: Result<Instruction, ParseError>)
    ensures r.Ok? ==> KindOf(r.value) == k
  {
    match k
    case DISTINCT => BuildDistinct(tokens, n, v)
    case IGNORE => BuildIgnore(tokens, n, v)
    case ALIAS => BuildAlias(tokens, n, v)
    case RENAME => BuildRename(tokens, n, v)
    case MERGE => BuildMerge(tokens, n, v)
    case VALIDATE => BuildValidate(tokens, n, v)
    case FILTER => BuildFilter(tokens, n, v)
    case COERCE => BuildCoerce(tokens, n, v)
    case ADD => BuildAdd(tokens, n, v)
  }

  /** The grammar of each instruction, slot by slot, as an independent table. */
  function Grammar(k: Keyword): seq<Slot>
  {
    match k
    case DISTINCT => [FieldsAt(1)]
    case IGNORE => [FieldsAt(1)]
    case ALIAS => [FieldAt(1), ConnectorAt(2, TO), FieldAt(3)]
    case RENAME => [FieldAt(1), ConnectorAt(2, TO), FieldAt(3)]
    case MERGE => [FieldsAt(1), ConnectorAt(2, TO), FieldAt(3)]
    case VALIDATE => [FieldAt(1), ConnectorAt(2, MATCHING), FormatAt(3), ConnectorAt(4, OR), ActionAt(5)]
    case FILTER => [FieldsAt(1), ConnectorAt(2, MATCHING), ExpressionAt(3), ValueAt(4)]
    case COERCE => [FieldsAt(1), ConnectorAt(2, TYPED), TypeAt(3), ConnectorAt(4, RESCUE), FieldAt(5)]
    case ADD => [FieldsAt(1), ConnectorAt(2, TYPED), TypeAt(3), ConnectorAt(4, DEFAULT), ValueAt(5)]
  }

  /** The last token position the builder reads. */
  function LastSlot(k: Keyword): (p: nat)
    ensures forall s :: s in Grammar(k) ==> 1 <= s.pos <= p
  {
    match k
    case DISTINCT => 1
    case IGNORE => 1
    case ALIAS => 3
    case RENAME => 3
    case MERGE => 3
    case VALIDATE => 5
    case FILTER => 4
    case COERCE => 5
    case ADD => 5
  }

  /** The bound is exact: the grammar's final slot reads token LastSlot(k). */
  lemma LastSlotIsRead(k: Keyword)
    ensures |Grammar(k)| > 0 && Grammar(k)[|Grammar(k)| - 1].pos == LastSlot(k)
  {
  }

  /** A builder fails exactly when some grammar slot fails, and then with the error of the
      leftmost failing slot. */
  lemma BuildFollowsGrammar(k: Keyword, tokens: seq<string>, n: nat, v: Validators)
    ensures Build(k, tokens, n, v).Err? <==> FirstSlotError(Grammar(k), tokens, n, v).Some?
    ensures Build(k, tokens, n, v).Err? ==> Some(Build(k, tokens, n, v).error) == FirstSlotError(Grammar(k), tokens, n, v)
  {
    var g := Grammar(k);
    FirstSlotErrorUnfold(g, tokens, n, v);
    if |g| >= 1 { FirstSlotErrorUnfold(g[1..], tokens, n, v); }
    if |g| >= 2 { assert g[1..][1..] == g[2..]; FirstSlotErrorUnfold(g[2..], tokens, n, v); }
    if |g| >= 3 { assert g[2..][1..] == g[3..]; FirstSlotErrorUnfold(g[3..], tokens, n, v); }
    if |g| >= 4 { assert g[3..][1..] == g[4..]; FirstSlotErrorUnfold(g[4..], tokens, n, v); }
    if |g| >= 5 { assert g[4..][1..] == g[5..]; FirstSlotErrorUnfold(g[5..], tokens, n, v); }
  }

  /** One step of the slot chain, on a suffix of a grammar. */
  lemma FirstSlotErrorUnfold(g: seq<Slot>, tokens: seq<string>, n: nat, v: Validators)
    ensures |g| == 0 ==> FirstSlotError(g, tokens, n, v).None?
    ensures |g| > 0 ==> (FirstSlotError(g, tokens, n, v) ==
      if SlotError(g[0], tokens, n, v).Some? then SlotError(g[0], tokens, n, v)
      else FirstSlotError(g[1..], tokens, n, v))
  {
  }

  /** A builder succeeds exactly when every slot's validator accepts its token. */
  lemma BuildSucceedsIffAllSlotsPass(k: Keyword, tokens: seq<string>, n: nat, v: Validators)
    ensures Build(k, tokens, n, v).Ok? <==>
      forall i :: 0 <= i < |Grammar(k)| ==> SlotError(Grammar(k)[i], tokens, n, v).None?
  {
    BuildFollowsGrammar(k, tokens, n, v);
    FirstSlotErrorIsLeftmost(Grammar(k), tokens, n, v);
  }

  /** Under sound validators a built instruction's line had the expected connector keyword
      at every connector slot, and a failure is a diagnostic for that line. */
  lemma ConnectorsRequired(k: Keyword, tokens: seq<string>, n: nat, v: Validators)
    requires Sound(v)
    ensures Build(k, tokens, n, v).Ok? ==>
      forall i :: 0 <= i < |Grammar(k)| && Grammar(k)[i].ConnectorAt? ==>
        Get(tokens, Grammar(k)[i].pos) == Some(ConnectorName(Grammar(k)[i].expected))
    ensures Build(k, tokens, n, v).Err? ==> SlotDiagnostic(Build(k, tokens, n, v).error, n)
  {
    BuildSucceedsIffAllSlotsPass(k, tokens, n, v);
    BuildFollowsGrammar(k, tokens, n, v);
    if Build(k, tokens, n, v).Err? {
      FirstSlotErrorTagsLine(Grammar(k), tokens, n, v);
    }
  }

  /** Which validator fills which operand, and from which token. */
  lemma OperandsFromSlots(k: Keyword, tokens: seq<string>, n: nat, v: Validators)
    requires Build(k, tokens, n, v).Ok?
    ensures var i := Build(k, tokens, n, v).value;
      match k
      case DISTINCT => i == Distinct(v.fields(Get(tokens, 1), n).value)
      case IGNORE => i == Ignore(v.fields(Get(tokens, 1), n).value)
      case ALIAS => i == Alias(v.field(Get(tokens, 1), n).value, v.field(Get(tokens, 3), n).value)
      case RENAME => i == Rename(v.field(Get(tokens, 1), n).value, v.field(Get(tokens, 3), n).value)
      case MERGE => i == Merge(v.fields(Get(tokens, 1), n).value, v.field(Get(tokens, 3), n).value)
      case FILTER => i == Filter(v.fields(Get(tokens, 1), n).value,
        v.expression(Get(tokens, 3), n).value, v.value(Get(tokens, 4), n).value)
      case VALIDATE => i == Validate(v.field(Get(tokens, 1), n).value,
        v.format(Get(tokens, 3), n).value, v.action(Get(tokens, 5), n).value)
      case COERCE => i == Coerce(v.fields(Get(tokens, 1), n).value,
        v.typed(Get(tokens, 3), n).value, v.field(Get(tokens, 5), n).value)
      case ADD => i == Add(v.fields(Get(tokens, 1), n).value,
        v.typed(Get(tokens, 3), n).value, v.value(Get(tokens, 5), n).value)
  {
  }

  /** A builder reads only tokens 1 to LastSlot(k): lines that agree there build alike,
      so the keyword token and any trailing tokens are never inspected. */
  lemma BuildReadsOnlySlots(k: Keyword, t1: seq<string>, t2: seq<string>, n: nat, v: Validators)
    requires forall p :: 1 <= p <= LastSlot(k) ==> Get(t1, p) == Get(t2, p)
    ensures Build(k, t1, n, v) == Build(k, t2, n, v)
  {
    assert Get(t1, 1) == Get(t2, 1);
    match k {
      case DISTINCT =>
      case IGNORE =>
      case ALIAS | RENAME | MERGE =>
        assert Get(t1, 2) == Get(t2, 2) && Get(t1, 3) == Get(t2, 3);
      case FILTER =>
        assert Get(t1, 2) == Get(t2, 2) && Get(t1, 3) == Get(t2, 3) && Get(t1, 4) == Get(t2, 4);
      case VALIDATE | COERCE | ADD =>
        assert Get(t1, 2) == Get(t2, 2) && Get(t1, 3) == Get(t2, 3);
        assert Get(t1, 4) == Get(t2, 4) && Get(t1, 5) == Get(t2, 5);
    }
  }

  /** Trailing tokens after the last slot are ignored. */
  lemma TrailingTokensIgnored(k: Keyword, tokens: seq<string>, extra: seq<string>, n: nat, v: Validators)
    requires |tokens| > LastSlot(k)
    ensures Build(k, tokens + extra, n, v) == Build(k, tokens, n, v)
  {
    forall p | 1 <= p <= LastSlot(k) ensures Get(tokens + extra, p) == Get(tokens, p) {
    }
    BuildReadsOnlySlots(k, tokens + extra, tokens, n, v);
  }

  /** `ALIAS field` without its connector fails on the missing TO, naming the line. */
  lemma AliasWithoutConnector(field: string, n: nat)
    ensures Build(ALIAS, ["ALIAS", field], n, Reference) == Err(MissingToken("TO", n))
  {
  }

  /** `ALIAS a FOO b` is refused by the strict builder. */
  lemma AliasWrongConnector(n: nat)
    ensures Build(ALIAS, ["ALIAS", "a", "FOO", "b"], n, Reference) == Err(InvalidToken("connector", "FOO", n))
    ensures Build(ALIAS, ["ALIAS", "a", "TO", "b"], n, Reference) == Ok(Alias("a", "b"))
    ensures Build(ALIAS, ["ALIAS", "a", "MATCHING", "b"], n, Reference) == Err(WrongConnector(TO, "MATCHING", n))
  {
  }
}
