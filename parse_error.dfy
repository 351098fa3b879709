/** `ParseError`: an accumulator of the errors found while parsing. */
module ParseErrors {

  class ParseError<E> {
    /** The errors added so far, oldest first. */
    var errors: seq<E>

    /** A new accumulator holds no errors. */
    constructor ()
      ensures errors == []
    {
      errors := [];
    }

    /** `add(error:)`: appends the error after the earlier ones, which keep their order. */
    method Add(error: E)
      modifies this
      ensures errors == old(errors) + [error]
      ensures |errors| == |old(errors)| + 1
    {
      errors := errors + [error];
    }

    /** `hasNoErrors`. */
    function HasNoErrors(): (r: bool)
      reads this
      ensures r <==> |errors| == 0
    {
      errors == []
    }
  }
}
