/** What the browser scripts see of a `fetch`: a rejected promise, or a status and a JSON body. */
module Http {
  import opened Wrappers

  /**
   * `NetworkError`: `fetch` itself threw. `body == None`: `res.json()` threw
   * (the body is not JSON).
   */
  datatype Response<T> = NetworkError | Response(status: int, body: Option<T>)

  /** `res.ok`. */
  predicate IsOk(status: int) {
    200 <= status <= 299
  }

  /** The statuses the scripts answer with the login modal. */
  predicate IsAuthError(status: int) {
    status == 401 || status == 403
  }

  /** JavaScript truthiness of an optional string: present and non-empty. */
  predicate Truthy(s: Option<string>) {
    s.Some? && s.value != ""
  }

  /** `s || fallback` on an optional string. */
  function OrElse(s: Option<string>, fallback: string): (r: string)
    ensures Truthy(s) ==> r == s.value
    ensures !Truthy(s) ==> r == fallback
  {
    if Truthy(s) then s.value else fallback
  }
}
