/** Optional values, and results that are either a value or a C++ exception. */
module Wrappers {

  datatype Option<T> = None | Some(value: T)

  /** The exception classes that the core throws or catches, by kind. */
  datatype Exception =
    | ConvertError      // Variant::ConvertError: a Variant value cannot be viewed as the requested type
    | InvalidArgument   // std::invalid_argument from std::stoll / std::stoull / std::stod: no digits
    | OutOfRange        // std::out_of_range from the same: the number does not fit
    | SyntaxError       // PyWrapper::SyntaxError: code does not compile
    | EvalError         // PyWrapper::EvalError: compiled code raised while running
    | RuntimeError      // std::runtime_error: statement failed, or unsupported array type
    | DomainError       // std::domain_error: Python interpreter not initialized
    | UnknownType       // std::exception thrown for a result of type NONE

  /** The outcome of a C++ call that returns a value or throws. */
  datatype Result<T> = Ok(value: T) | Throw(error: Exception)

  /**
   * Applies `f` to every element; the first element whose conversion throws
   * makes the whole conversion throw with that element's exception.
   * This is the push_back loop that builds an array accessor's vector.
   */
  function MapAll<A, B>(f: A -> Result<B>, s: seq<A>): (r: Result<seq<B>>)
    ensures r.Ok? <==> forall i :: 0 <= i < |s| ==> f(s[i]).Ok?
    ensures r.Ok? ==> |r.value| == |s| && forall i :: 0 <= i < |s| ==> r.value[i] == f(s[i]).value
    ensures r.Throw? ==> exists i :: 0 <= i < |s| && f(s[i]) == Throw(r.error) && forall j :: 0 <= j < i ==> f(s[j]).Ok?
  {
    if s == [] then Ok([])
    else
      match f(s[0])
      case Throw(e) => Throw(e)
      case Ok(x) =>
        var rest := MapAll(f, s[1..]);
        if rest.Throw? then
          var i :| 0 <= i < |s[1..]| && f(s[1..][i]) == Throw(rest.error) && forall j :: 0 <= j < i ==> f(s[1..][j]).Ok?;
          assert forall j :: 0 <= j < i + 1 ==> f(s[j]).Ok? by {
            forall j | 0 <= j < i + 1 ensures f(s[j]).Ok? {
              if j > 0 { assert s[j] == s[1..][j - 1]; }
            }
          }
          assert f(s[i + 1]) == Throw(rest.error);
          Throw(rest.error)
        else Ok([x] + rest.value)
  }
}
