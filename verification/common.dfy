/** Shared vocabulary: Java's nullable references and the exceptions that abort a parse. */
module Common {

  /** A nullable Java reference: `None` stands for `null`. */
  datatype Option<+T> = None | Some(value: T)

  /** The exceptions that escape the parser and abort the whole report. */
  datatype Fault =
    | Structural    // ScanParsingException raised by the structural checks
    | Malformed     // the token stream ended or broke the JSON grammar (a Jackson parse error)
    | BadNumber     // NumberFormatException from Float.parseFloat of a cvssScore
    | CweIndex      // ArrayIndexOutOfBoundsException inside setCWE
    | NullPriority  // NullPointerException: a record is emitted while its priority is still null
    | NullField     // NullPointerException: `fieldName.equals` on a null `getCurrentName()`

  /** A value or the exception that was thrown instead. */
  datatype Result<+T> = Ok(value: T) | Err(fault: Fault)

  /** How Java renders a nullable string inside a `+` concatenation. */
  function Show(s: Option<string>): string
  {
    if s.None? then "null" else s.value
  }
}
