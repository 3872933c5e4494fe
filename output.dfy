/** A line writer (`writeln!` on a `Box<dyn Write>`), abstracted by the index of the first
    write that fails, if any. */
module Output {
  import opened Results

  datatype WriteError = WriteFailed

  /** Whether the write with index `i` is the one that fails. */
  predicate FailsAt(failsAt: Option<nat>, i: nat)
  {
    failsAt == Some(i)
  }

  /** Writing `lines` one by one, stopping at the first failure: the lines that reached
      the writer, and the count of lines written or the error. */
  function WriteAll(lines: seq<string>, failsAt: Option<nat>): (r: (seq<string>, Result<nat, WriteError>))
    ensures r.0 <= lines
    ensures r.1.Ok? <==> r.0 == lines && !(failsAt.Some? && failsAt.value < |lines|)
    ensures r.1.Ok? ==> r.1.value == |lines|
    ensures r.1.Err? ==> Some(|r.0|) == failsAt
  {
    if failsAt.Some? && failsAt.value < |lines| then (lines[..failsAt.value], Err(WriteFailed))
    else (lines, Ok(|lines|))
  }
}
