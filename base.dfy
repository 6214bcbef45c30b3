/** Small value types shared by the rest of the model. */
module Base {

  /** Python's `None` next to a present value; also a scalar key of a JSON object that is absent or present. */
  datatype Option<T> = None | Some(value: T) {

    /** `d.get(key, default)` on the key this option stands for: its value when present, `default` when absent. */
    function GetOr(default: T): T {
      match this
      case Some(v) => v
      case None => default
    }
  }

  /** One key of a decoded JSON object: absent, present with the value `null`, or present with a value. */
  datatype Field<T> = Missing | Null | Present(value: T)

  function Min(a: int, b: int): int {
    if a <= b then a else b
  }

  /** Python's slice `s[:n]` for `n >= 0`: the first `n` elements, or all of `s` when it is shorter. */
  function Take<T>(s: seq<T>, n: nat): (r: seq<T>)
    ensures |r| == Min(n, |s|)
    ensures r <= s
  {
    if |s| <= n then s else s[..n]
  }
}
