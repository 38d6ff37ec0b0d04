/** Failure-compatible wrappers shared by the whole model.

    The converter signals its error cases with Kotlin exceptions: `TODO()`
    (NotImplementedError), `error(..)`/`RuntimeException` for unsupported input,
    failing `as` casts, `!!` on null, reading an uninitialised `lateinit`
    property, and (in one place) unbounded self-recursion. Each becomes a
    `Failure` value here, so every operation is total.
 */
module Results {

  /** Why a computation of the converter stops. */
  datatype Failure =
    | NotImplemented   // `TODO()` reached
    | Unsupported      // `error(..)`, `RuntimeException("Not supported")`, `throw Exception(..)`
    | CastFailed       // an `as` cast whose operand has another class
    | NullValue        // `!!` or an `as` cast applied to null
    | Uninitialized    // a `lateinit` property read before assignment
    | Diverges         // a call that re-enters itself on the same argument without end

  datatype Option<+T> = None | Some(value: T) {
    function GetOr(default: T): T {
      match this
      case Some(v) => v
      case None => default
    }
  }

  datatype Result<+T> = Ok(value: T) | Fail(failure: Failure) {
    predicate IsFailure() {
      Fail?
    }

    function PropagateFailure<U>(): Result<U>
      requires Fail?
    {
      Fail(failure)
    }

    function Extract(): T
      requires Ok?
    {
      value
    }
  }

  /** `x!!`: the value, or a null failure. */
  function NotNull<T>(x: Option<T>): (r: Result<T>)
    ensures r.Ok? <==> x.Some?
    ensures r.Ok? ==> r.value == x.value
    ensures r.Fail? ==> r.failure == NullValue
  {
    match x
    case Some(v) => Ok(v)
    case None => Fail(NullValue)
  }

  /** `x ?: TODO()`: the value, or a not-implemented failure. */
  function OrTodo<T>(x: Option<T>): (r: Result<T>)
    ensures r.Ok? <==> x.Some?
    ensures r.Ok? ==> r.value == x.value
    ensures r.Fail? ==> r.failure == NotImplemented
  {
    match x
    case Some(v) => Ok(v)
    case None => Fail(NotImplemented)
  }
}
