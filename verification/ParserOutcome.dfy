/** How a reply parser's dispatch ends: protocol/json/parser.cpp:209-212 and its two siblings. */
module ParserOutcome {
  datatype Outcome = Returned(result: bool) | Threw | Fatal

  function Conclude(allow: bool, result: bool, thrown: bool): Outcome {
    if thrown then Threw else if result || allow then Returned(result) else Fatal
  }
}
