/** The result of a call to the hosted text-completion service, as the pages see it.
    The call itself (prompt text, network, API key) is outside the model: each handler
    receives the call's outcome as a parameter. */
module Gateway {

  datatype Outcome =
    | Success(text: string)   // the promise resolved with a text
    | Empty                   // the promise resolved with no text (undefined)
    | Failure                 // the promise rejected; the handler's catch block runs

  /** `response || fallback` on a resolved call: the response text unless it is falsy
      (undefined or the empty string). */
  function TextOr(o: Outcome, fallback: string): (r: string)
    requires !o.Failure?
    ensures o.Success? && o.text != "" ==> r == o.text
    ensures o.Empty? || o == Success("") ==> r == fallback
    ensures fallback != "" ==> r != ""
  {
    if o.Success? && o.text != "" then o.text else fallback
  }
}
