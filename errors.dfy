/**
 * `PylonError`: the error type every fallible Pylon operation returns.
 * Two variants carry a locally written message, one wraps an error of the
 * wormhole library.
 */
module Errors {
  import opened Wrappers
  import opened Wormhole

  datatype PylonError =
    | /** Code generation refused; the message says why. */
      CodegenError(message: string)
    | /** An error of the wormhole library that is not matched explicitly. */
      InternalError(cause: WormholeError)
    | /** A generic error with a message. */
      Error(message: string)

  const CodegenPrefix: string := "Error generating wormhole code: "
  const InternalText: string := "An internal error occured"
  const ErrorPrefix: string := "An error occured: "

  /** The `Display` text of an error, as its `#[error(...)]` attributes format it. */
  function Message(e: PylonError): string
  {
    match e
    case CodegenError(msg) => CodegenPrefix + msg
    case InternalError(_) => InternalText
    case Error(msg) => ErrorPrefix + msg
  }

  /**
   * The `#[from]` conversion that `?` applies to a `WormholeError`; the
   * wrapped error is what `source()` then yields.
   */
  function FromWormhole(w: WormholeError): (e: PylonError)
    ensures Source(e) == Some(w)
  {
    InternalError(w)
  }

  /** `std::error::Error::source`: only `InternalError` has a source (`#[source]`). */
  function Source(e: PylonError): (r: Option<WormholeError>)
    ensures r.Some? <==> e.InternalError?
    ensures e.InternalError? ==> r == Some(e.cause)
  {
    if e.InternalError? then Some(e.cause) else None
  }

  /**
   * `source()` and the `#[from]` conversion are inverse: an error has the
   * library error `w` as its source exactly when it is `w` converted.
   */
  lemma SourceInvertsFrom(e: PylonError, w: WormholeError)
    ensures Source(e) == Some(w) <==> e == FromWormhole(w)
  {
  }

  /**
   * The displayed text tells the variants apart, and for the two variants
   * that carry a message it also gives the message back. (Two internal
   * errors display alike: the wrapped cause is reached through `Source`.)
   */
  lemma MessageDeterminesError(e1: PylonError, e2: PylonError)
    requires Message(e1) == Message(e2)
    ensures e1.CodegenError? <==> e2.CodegenError?
    ensures e1.InternalError? <==> e2.InternalError?
    ensures e1.Error? <==> e2.Error?
    ensures !e1.InternalError? ==> e1.message == e2.message
  {
    var m := Message(e1);
    // The three texts differ in their first or fourth character.
    assert CodegenPrefix[0] == 'E' && InternalText[0] == 'A' && ErrorPrefix[0] == 'A';
    assert InternalText[3] == 'i' && ErrorPrefix[3] == 'e';
    match e1
    case CodegenError(a) =>
      assert m[0] == 'E';
      if e2.CodegenError? {
        assert a == m[|CodegenPrefix|..] == e2.message;
      }
    case InternalError(_) =>
      assert m[0] == 'A' && m[3] == 'i';
    case Error(a) =>
      assert m[0] == 'A' && m[3] == 'e';
      if e2.Error? {
        assert a == m[|ErrorPrefix|..] == e2.message;
      }
  }
}
