/** URL query parameters, as `URLSearchParams` presents them to the handlers. */
module QueryString {
  import opened Wrappers

  /** One value per key; `URLSearchParams.get` returns the first value of a key. */
  type Query = map<string, string>

  /** `params.get(key)`: the value, or `null` when the key is absent. */
  function Get(q: Query, key: string): (r: Option<string>)
    ensures r.Some? <==> key in q
    ensures r.Some? ==> r.value == q[key]
  {
    if key in q then Some(q[key]) else None
  }

  /** `params.get(key) || default`: a missing key and an empty value both fall back. */
  function GetOr(q: Query, key: string, default: string): (r: string)
    ensures r == default || (key in q && r == q[key] != "")
    ensures key in q && q[key] != "" ==> r == q[key]
  {
    if key in q && q[key] != "" then q[key] else default
  }
}
