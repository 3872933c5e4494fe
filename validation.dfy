/** The slot validators the builders of src/definitions/executables.rs call
    (`parse_field`, `parse_fields`, `validate_connector`, `parse_expression`, `parse_value`,
    `parse_typed`, `parse_format`, `parse_action`). Their bodies are not part of this model:
    the builders receive them as a `Validators` record, `Sound` states what the model
    assumes of them, and `Reference` is one concrete set of validators that meets it. */
module Validation {
  import opened Results
  import opened Enums
  import opened Tokenizer

  /** Line-tagged diagnostics. `ReadFailure` is an I/O error, which carries no line. */
  datatype ParseError =
    | MissingToken(kind: string, line: nat)
    | InvalidToken(kind: string, found: string, line: nat)
    | WrongConnector(expected: Connector, found: string, line: nat)
    | UnknownInstruction(line: nat)
    | ReadFailure

  /** Each validator takes the token at its slot (`tokens.get(i)`) and the line number. */
  datatype Validators = Validators(
    field: (Option<string>, nat) -> Result<string, ParseError>,
    fields: (Option<string>, nat) -> Result<seq<string>, ParseError>,
    connector: (Option<string>, Connector, nat) -> Result<(), ParseError>,
    expression: (Option<string>, nat) -> Result<Expression, ParseError>,
    value: (Option<string>, nat) -> Result<string, ParseError>,
    typed: (Option<string>, nat) -> Result<Type, ParseError>,
    format: (Option<string>, nat) -> Result<Format, ParseError>,
    action: (Option<string>, nat) -> Result<Action, ParseError>)

  /** A slot-level diagnostic for line `n`. */
  predicate SlotDiagnostic(e: ParseError, n: nat)
  {
    (e.MissingToken? || e.InvalidToken? || e.WrongConnector?) && e.line == n
  }

  predicate TagsLine<T>(r: Result<T, ParseError>, n: nat)
  {
    r.Err? ==> SlotDiagnostic(r.error, n)
  }

  /** What the builders rely on: every failure is a slot diagnostic for the line it was
      given, and the connector check is equality with the expected connector's keyword. */
  ghost predicate Sound(v: Validators)
  {
    && (forall t, n :: TagsLine(v.field(t, n), n))
    && (forall t, n :: TagsLine(v.fields(t, n), n))
    && (forall t, c, n :: TagsLine(v.connector(t, c, n), n))
    && (forall t, n :: TagsLine(v.expression(t, n), n))
    && (forall t, n :: TagsLine(v.value(t, n), n))
    && (forall t, n :: TagsLine(v.typed(t, n), n))
    && (forall t, n :: TagsLine(v.format(t, n), n))
    && (forall t, n :: TagsLine(v.action(t, n), n))
    && (forall t, c, n :: v.connector(t, c, n).Ok? <==> t == Some(ConnectorName(c)))
  }

  function ReferenceField(t: Option<string>, n: nat): Result<string, ParseError>
  {
    match t
    case None => Err(MissingToken("field", n))
    case Some(s) => Ok(s)
  }

  function ReferenceFields(t: Option<string>, n: nat): Result<seq<string>, ParseError>
  {
    match t
    case None => Err(MissingToken("fields", n))
    case Some(s) => Ok(ParseTokenList(Some(s)))
  }

  function ReferenceConnector(t: Option<string>, c: Connector, n: nat): Result<(), ParseError>
  {
    match t
    case None => Err(MissingToken(ConnectorName(c), n))
    case Some(s) =>
      match ConnectorFromName(s)
      case None => Err(InvalidToken("connector", s, n))
      case Some(found) => if found == c then Ok(()) else Err(WrongConnector(c, s, n))
  }

  function ReferenceExpression(t: Option<string>, n: nat): Result<Expression, ParseError>
  {
    match t
    case None => Err(MissingToken("expression", n))
    case Some(s) =>
      match ExpressionFromName(s)
      case None => Err(InvalidToken("expression", s, n))
      case Some(e) => Ok(e)
  }

  function ReferenceValue(t: Option<string>, n: nat): Result<string, ParseError>
  {
    match t
    case None => Err(MissingToken("value", n))
    case Some(s) => Ok(s)
  }

  function ReferenceTyped(t: Option<string>, n: nat): Result<Type, ParseError>
  {
    match t
    case None => Err(MissingToken("type", n))
    case Some(s) =>
      match TypeFromName(s)
      case None => Err(InvalidToken("type", s, n))
      case Some(ty) => Ok(ty)
  }

  function ReferenceFormat(t: Option<string>, n: nat): Result<Format, ParseError>
  {
    match t
    case None => Err(MissingToken("format", n))
    case Some(s) =>
      match FormatFromName(s)
      case None => Err(InvalidToken("format", s, n))
      case Some(f) => Ok(f)
  }

  function ReferenceAction(t: Option<string>, n: nat): Result<Action, ParseError>
  {
    match t
    case None => Err(MissingToken("action", n))
    case Some(s) =>
      match ActionFromName(s)
      case None => Err(InvalidToken("action", s, n))
      case Some(a) => Ok(a)
  }

  /** Validators as the instruction language describes them: a missing token is
      `MissingToken`, an unreadable one `InvalidToken`, a connector other than the
      expected one `WrongConnector`. */
  const Reference := Validators(ReferenceField, ReferenceFields, ReferenceConnector,
    ReferenceExpression, ReferenceValue, ReferenceTyped, ReferenceFormat, ReferenceAction)

  lemma ReferenceIsSound()
    ensures Sound(Reference)
  {
    forall t, c, n ensures Reference.connector(t, c, n).Ok? <==> t == Some(ConnectorName(c)) {
      if t.Some? && ConnectorFromName(t.value).Some? {
        ConnectorNameRoundTrip(c);
      }
    }
  }

  /** One grammar slot: a token position and the validator that reads it. */
  datatype Slot =
    | FieldAt(pos: nat)
    | FieldsAt(pos: nat)
    | ConnectorAt(pos: nat, expected: Connector)
    | ExpressionAt(pos: nat)
    | ValueAt(pos: nat)
    | TypeAt(pos: nat)
    | FormatAt(pos: nat)
    | ActionAt(pos: nat)

  /** The diagnostic the slot's validator raises on `tokens`, if any. */
  function SlotError(s: Slot, tokens: seq<string>, n: nat, v: Validators): Option<ParseError>
  {
    var t := Get(tokens, s.pos);
    var failed := match s
      case FieldAt(_) => v.field(t, n).Err?
      case FieldsAt(_) => v.fields(t, n).Err?
      case ConnectorAt(_, c) => v.connector(t, c, n).Err?
      case ExpressionAt(_) => v.expression(t, n).Err?
      case ValueAt(_) => v.value(t, n).Err?
      case TypeAt(_) => v.typed(t, n).Err?
      case FormatAt(_) => v.format(t, n).Err?
      case ActionAt(_) => v.action(t, n).Err?;
    if !failed then None
    else Some(match s
      case FieldAt(_) => v.field(t, n).error
      case FieldsAt(_) => v.fields(t, n).error
      case ConnectorAt(_, c) => v.connector(t, c, n).error
      case ExpressionAt(_) => v.expression(t, n).error
      case ValueAt(_) => v.value(t, n).error
      case TypeAt(_) => v.typed(t, n).error
      case FormatAt(_) => v.format(t, n).error
      case ActionAt(_) => v.action(t, n).error)
  }

  /** Slots checked left to right; the first failing one decides. */
  function FirstSlotError(slots: seq<Slot>, tokens: seq<string>, n: nat, v: Validators): Option<ParseError>
  {
    if |slots| == 0 then None
    else match SlotError(slots[0], tokens, n, v)
      case Some(e) => Some(e)
      case None => FirstSlotError(slots[1..], tokens, n, v)
  }

  /** `FirstSlotError` reports exactly the error of the leftmost failing slot. */
  lemma {:induction false} FirstSlotErrorIsLeftmost(slots: seq<Slot>, tokens: seq<string>, n: nat, v: Validators)
    ensures FirstSlotError(slots, tokens, n, v).None? <==>
      forall k :: 0 <= k < |slots| ==> SlotError(slots[k], tokens, n, v).None?
    ensures FirstSlotError(slots, tokens, n, v).Some? ==>
      exists k :: 0 <= k < |slots| && SlotError(slots[k], tokens, n, v) == FirstSlotError(slots, tokens, n, v)
        && forall j :: 0 <= j < k ==> SlotError(slots[j], tokens, n, v).None?
    decreases |slots|
  {
    if |slots| > 0 {
      FirstSlotErrorIsLeftmost(slots[1..], tokens, n, v);
      if SlotError(slots[0], tokens, n, v).None? {
        if FirstSlotError(slots, tokens, n, v).Some? {
          var k :| 0 <= k < |slots[1..]| && SlotError(slots[1..][k], tokens, n, v) == FirstSlotError(slots[1..], tokens, n, v)
            && forall j :: 0 <= j < k ==> SlotError(slots[1..][j], tokens, n, v).None?;
          assert SlotError(slots[k + 1], tokens, n, v) == FirstSlotError(slots, tokens, n, v);
          forall j | 0 <= j < k + 1 ensures SlotError(slots[j], tokens, n, v).None? {
            if j > 0 { assert slots[j] == slots[1..][j - 1]; }
          }
        } else {
          forall k | 0 <= k < |slots| ensures SlotError(slots[k], tokens, n, v).None? {
            if k > 0 { assert slots[k] == slots[1..][k - 1]; }
          }
        }
      }
    }
  }

  /** Slots after the first failing one are never examined. */
  lemma {:induction false} LaterSlotsIgnored(slots: seq<Slot>, later: seq<Slot>, tokens: seq<string>, n: nat, v: Validators)
    requires FirstSlotError(slots, tokens, n, v).Some?
    ensures FirstSlotError(slots + later, tokens, n, v) == FirstSlotError(slots, tokens, n, v)
    decreases |slots|
  {
    assert (slots + later)[0] == slots[0];
    if SlotError(slots[0], tokens, n, v).None? {
      assert (slots + later)[1..] == slots[1..] + later;
      LaterSlotsIgnored(slots[1..], later, tokens, n, v);
    }
  }

  /** Under sound validators, the first slot error is a diagnostic for the line given. */
  lemma {:induction false} FirstSlotErrorTagsLine(slots: seq<Slot>, tokens: seq<string>, n: nat, v: Validators)
    requires Sound(v)
    requires FirstSlotError(slots, tokens, n, v).Some?
    ensures SlotDiagnostic(FirstSlotError(slots, tokens, n, v).value, n)
    decreases |slots|
  {
    var t := Get(tokens, slots[0].pos);
    match slots[0] {
      case FieldAt(_) => assert TagsLine(v.field(t, n), n);
      case FieldsAt(_) => assert TagsLine(v.fields(t, n), n);
      case ConnectorAt(_, c) => assert TagsLine(v.connector(t, c, n), n);
      case ExpressionAt(_) => assert TagsLine(v.expression(t, n), n);
      case ValueAt(_) => assert TagsLine(v.value(t, n), n);
      case TypeAt(_) => assert TagsLine(v.typed(t, n), n);
      case FormatAt(_) => assert TagsLine(v.format(t, n), n);
      case ActionAt(_) => assert TagsLine(v.action(t, n), n);
    }
    if SlotError(slots[0], tokens, n, v).None? {
      FirstSlotErrorTagsLine(slots[1..], tokens, n, v);
    }
  }
}
