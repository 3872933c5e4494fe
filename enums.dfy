/** The closed enumerations of src/definitions/enums.rs. Each variant is written in the
    instruction language by its own upper-case name; `…Name` gives that spelling and
    `…FromName` reads it back. */
module Enums {
  import opened Results

  datatype InputFormat = CSV

  /** enums.rs declares CSV and JSON only; src/cli.rs:132 also returns SQL, so the variant is kept. */
  datatype OutputFormat = CSV | JSON | SQL

  datatype Type = NUMBER | BOOLEAN | STRING

  datatype Expression = EQUALS | GREATER | EQGREATER | LESSER | EQLESSER | DIFFERS

  datatype Format = DATE | TIME | DATETIME | URI | EMAIL | UUID

  datatype Action = DISCARD | NOTIFY | HALT

  /** Connector keywords; the only enumeration that derives equality in the source. */
  datatype Connector = TO | MATCHING | TYPED | OR | RESCUE | DEFAULT

  function ConnectorName(c: Connector): string
  {
    match c
    case TO => "TO"
    case MATCHING => "MATCHING"
    case TYPED => "TYPED"
    case OR => "OR"
    case RESCUE => "RESCUE"
    case DEFAULT => "DEFAULT"
  }

  function ConnectorFromName(s: string): (r: Option<Connector>)
    ensures r.Some? ==> ConnectorName(r.value) == s
  {
    if s == "TO" then Some(TO)
    else if s == "MATCHING" then Some(MATCHING)
    else if s == "TYPED" then Some(TYPED)
    else if s == "OR" then Some(OR)
    else if s == "RESCUE" then Some(RESCUE)
    else if s == "DEFAULT" then Some(DEFAULT)
    else None
  }

  lemma ConnectorNameRoundTrip(c: Connector)
    ensures ConnectorFromName(ConnectorName(c)) == Some(c)
  {
  }

  function TypeName(t: Type): string
  {
    match t
    case NUMBER => "NUMBER"
    case BOOLEAN => "BOOLEAN"
    case STRING => "STRING"
  }

  function TypeFromName(s: string): (r: Option<Type>)
    ensures r.Some? ==> TypeName(r.value) == s
  {
    if s == "NUMBER" then Some(NUMBER)
    else if s == "BOOLEAN" then Some(BOOLEAN)
    else if s == "STRING" then Some(STRING)
    else None
  }

  lemma TypeNameRoundTrip(t: Type)
    ensures TypeFromName(TypeName(t)) == Some(t)
  {
  }

  function ExpressionName(e: Expression): string
  {
    match e
    case EQUALS => "EQUALS"
    case GREATER => "GREATER"
    case EQGREATER => "EQGREATER"
    case LESSER => "LESSER"
    case EQLESSER => "EQLESSER"
    case DIFFERS => "DIFFERS"
  }

  function ExpressionFromName(s: string): (r: Option<Expression>)
    ensures r.Some? ==> ExpressionName(r.value) == s
  {
    if s == "EQUALS" then Some(EQUALS)
    else if s == "GREATER" then Some(GREATER)
    else if s == "EQGREATER" then Some(EQGREATER)
    else if s == "LESSER" then Some(LESSER)
    else if s == "EQLESSER" then Some(EQLESSER)
    else if s == "DIFFERS" then Some(DIFFERS)
    else None
  }

  lemma ExpressionNameRoundTrip(e: Expression)
    ensures ExpressionFromName(ExpressionName(e)) == Some(e)
  {
  }

  function FormatName(f: Format): string
  {
    match f
    case DATE => "DATE"
    case TIME => "TIME"
    case DATETIME => "DATETIME"
    case URI => "URI"
    case EMAIL => "EMAIL"
    case UUID => "UUID"
  }

  function FormatFromName(s: string): (r: Option<Format>)
    ensures r.Some? ==> FormatName(r.value) == s
  {
    if s == "DATE" then Some(DATE)
    else if s == "TIME" then Some(TIME)
    else if s == "DATETIME" then Some(DATETIME)
    else if s == "URI" then Some(URI)
    else if s == "EMAIL" then Some(EMAIL)
    else if s == "UUID" then Some(UUID)
    else None
  }

  lemma FormatNameRoundTrip(f: Format)
    ensures FormatFromName(FormatName(f)) == Some(f)
  {
  }

  function ActionName(a: Action): string
  {
    match a
    case DISCARD => "DISCARD"
    case NOTIFY => "NOTIFY"
    case HALT => "HALT"
  }

  function ActionFromName(s: string): (r: Option<Action>)
    ensures r.Some? ==> ActionName(r.value) == s
  {
    if s == "DISCARD" then Some(DISCARD)
    else if s == "NOTIFY" then Some(NOTIFY)
    else if s == "HALT" then Some(HALT)
    else None
  }

  lemma ActionNameRoundTrip(a: Action)
    ensures ActionFromName(ActionName(a)) == Some(a)
  {
  }
}
