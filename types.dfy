/** The records of src/definitions/types.rs (declared a second time, identically, in
    src/definitions/structs.rs): a column of the table and a row of it. */
module Types {
  import opened Enums

  /** Rust's u64, the width of a record id. */
  newtype u64 = x: int | 0 <= x < 0x1_0000_0000_0000_0000

  /** Rust's u16, the width of the JSON indent. */
  newtype u16 = x: int | 0 <= x < 0x1_0000

  datatype Field = Field(name: string, typed: Type)

  datatype Record = Record(id: u64, discarded: bool, values: seq<string>)

  /** Options forwarded to the output adapters: the SQL table name and the JSON indent width. */
  datatype Optionals = Optionals(tname: string, ispaces: u16)

  /** `Field::new`: every ingested column starts out string-typed. */
  function NewField(name: string): (f: Field)
    ensures f.name == name
    ensures f.typed == STRING
  {
    Field(name, STRING)
  }

  /** `Record::new`: a fresh row is never discarded. */
  function NewRecord(id: u64, values: seq<string>): (r: Record)
    ensures r.id == id
    ensures r.values == values
    ensures !r.discarded
  {
    Record(id, false, values)
  }
}
