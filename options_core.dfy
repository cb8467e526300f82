/** `Right`, the side of an option, as IB writes it. */
module OptionsCore {
  import opened Results

  datatype Right = Call | Put
  {
    /** The enum's value: `CALL = "C"`, `PUT = "P"`. */
    function Code(): string {
      match this
      case Call => "C"
      case Put => "P"
    }
  }

  /** `Right(code)`: the right whose value is `code`, if any. */
  function RightOfCode(code: string): (r: Option<Right>)
    ensures r.Some? ==> r.value.Code() == code
  {
    if code == "C" then Some(Call)
    else if code == "P" then Some(Put)
    else None
  }

  /** Each right is looked up by its own code, and only the two codes name a right. */
  lemma CodeRoundTrip(r: Right, code: string)
    ensures RightOfCode(r.Code()) == Some(r)
    ensures RightOfCode(code).Some? <==> code == "C" || code == "P"
  {
  }
}
