/** Small shared vocabulary: optional values, JavaScript truthiness of
    optional strings, HTTP status classes and the backend's HTTP errors. */
module Common {

  datatype Option<+T> = None | Some(value: T)

  /** The truthiness JavaScript gives a value that is a string or null/undefined:
      null, undefined and "" are falsy, every other string is truthy. */
  predicate Truthy(s: Option<string>) {
    s.Some? && s.value != ""
  }

  /** `response.ok` of the Fetch API: the status lies in 200..299. */
  predicate IsOk(status: int) {
    200 <= status <= 299
  }

  /** `localStorage.getItem(key)` / `dict.get(key)`: the stored value, or null. */
  function Lookup<K, V>(m: map<K, V>, key: K): (r: Option<V>)
    ensures r.Some? <==> key in m
    ensures r.Some? ==> r.value == m[key]
  {
    if key in m then Some(m[key]) else None
  }

  /** FastAPI's `HTTPException(status_code, detail)`. */
  datatype HttpError = HttpError(status: int, detail: string)

  /** A handler's reply: its JSON body, or the exception it raised. */
  datatype Result<+T> = Ok(value: T) | Err(error: HttpError)
}
