/** Values shared by every part of the model: optional values, the two
    facility statuses, and the JavaScript truthiness of optional strings. */
module Common {

  /** `undefined`/`null` versus a present value. */
  datatype Option<T> = None | Some(value: T) {
    /** JavaScript's `x ?? d`. */
    function GetOr(d: T): T {
      if Some? then value else d
    }
  }

  /** The `"Available" | "Busy"` union of the hospital records. */
  datatype Status = Available | Busy

  /** A real number that is not zero (the result of `Math.cos` on a double
      argument is never exactly zero). */
  type NonZero = r: real | r != 0.0 witness 1.0

  /** JavaScript truthiness of a value typed `string | undefined`: present and
      not the empty string. */
  predicate Truthy(s: Option<string>) {
    s.Some? && s.value != ""
  }

  /** JavaScript's `a || b` on optional strings. */
  function Or(a: Option<string>, b: Option<string>): (r: Option<string>)
    ensures Truthy(a) ==> r == a
    ensures !Truthy(a) ==> r == b
  {
    if Truthy(a) then a else b
  }

  /** The value of key `k` (a tag, a document field), `undefined` when absent. */
  function Lookup<V>(m: map<string, V>, k: string): (r: Option<V>)
    ensures r.Some? <==> k in m
    ensures r.Some? ==> r.value == m[k]
  {
    if k in m then Some(m[k]) else None
  }

  /** The first key of `keys` whose value in `m` is truthy, with that value:
      the value of the chain `m[keys[0]] || m[keys[1]] || ... || null`. */
  function FirstTruthy(m: map<string, string>, keys: seq<string>): (r: Option<string>)
    ensures r.Some? <==> exists i :: 0 <= i < |keys| && Truthy(Lookup(m, keys[i]))
    ensures r.Some? ==> exists i :: 0 <= i < |keys| && Lookup(m, keys[i]) == r
                           && forall j :: 0 <= j < i ==> !Truthy(Lookup(m, keys[j]))
    ensures r.Some? ==> r.value != ""
  {
    if keys == [] then None
    else if Truthy(Lookup(m, keys[0])) then Lookup(m, keys[0])
    else
      var rest := FirstTruthy(m, keys[1..]);
      assert forall i :: 1 <= i < |keys| ==> keys[i] == keys[1..][i - 1];
      rest
  }
}
