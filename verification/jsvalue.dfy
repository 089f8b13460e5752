/** The values that node data holds on the JavaScript side and that travel as
    JSON to the backend and back. Only three shapes ever occur in this
    program: `undefined` (an absent property), `null`, and a string. */
module JsValue {

  datatype JsVal = Undefined | Null | Str(s: string)

  /** The open record a node carries as `data`; a missing key reads as `undefined`. */
  type Data = map<string, JsVal>

  /** Truthiness, which JavaScript and Python agree on for these values:
      only a non-empty string is truthy. */
  predicate Truthy(v: JsVal) {
    v.Str? && v.s != ""
  }

  /** JavaScript `a || b`. */
  function Or(a: JsVal, b: JsVal): JsVal {
    if Truthy(a) then a else b
  }

  /** Property access `data.k`. */
  function Get(d: Data, k: string): JsVal {
    if k in d then d[k] else Undefined
  }

  /** `s.substring(0, n)`: the first `n` characters, or all of `s` when shorter. */
  function Prefix(s: string, n: nat): (p: string)
    ensures |p| <= n && |p| <= |s| && p == s[..|p|]
    ensures |s| <= n ==> p == s
  {
    if |s| <= n then s else s[..n]
  }
}
