/** Outcomes of the grammar rules. */
module Results {

  /** Result of a rule that only recognises input, or of a lexical helper: the
      position after the match (or a value and that position), or no match. */
  datatype Option<T> = None | Some(value: T) {
    predicate IsFailure() { None? }

    function PropagateFailure<U>(): Option<U>
      requires None?
    {
      None
    }

    function Extract(): T
      requires Some?
    {
      value
    }
  }

  /** Result of a value-building rule. `Failure` is an ordinary PEG mismatch:
      ordered choice tries its next alternative and repetition stops. `Panic`
      is a semantic action that aborted (an `unwrap` on an error): nothing
      recovers from it, so every rule passes it straight up. */
  datatype ParseResult<T> = Success(value: T, pos: nat) | Failure | Panic {

    /** The same outcome with the value replaced by `f` of it. */
    function Map<U>(f: T -> U): (r: ParseResult<U>)
      ensures r.Success? <==> Success?
      ensures r.Failure? <==> Failure?
      ensures Success? ==> r.value == f(value) && r.pos == pos
    {
      match this
      case Success(v, p) => Success(f(v), p)
      case Failure => Failure
      case Panic => Panic
    }

    /** An unsuccessful outcome at another value type. */
    function Propagate<U>(): (r: ParseResult<U>)
      requires !Success?
      ensures r.Failure? <==> Failure?
      ensures !r.Success?
    {
      if Failure? then Failure else Panic
    }
  }
}
