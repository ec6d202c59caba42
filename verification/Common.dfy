/** Datatypes shared by every component of the model. */
module Common {

  datatype Option<+T> = None | Some(value: T)

  /** The two authorization results every plane of the controller produces. */
  datatype Verdict = Allow | Deny

  type Byte = x: int | 0 <= x < 256

  const IPPROTO_TCP := 6
  const IPPROTO_UDP := 17

  /** From this instant on the controller trusts the wall clock. */
  const CLOCK_VALID_AFTER: int := 1577836800

  /** The smaller of two optional instants; an absent one never wins. */
  function MinInstant(a: Option<int>, b: Option<int>): (r: Option<int>)
    ensures r.None? <==> a.None? && b.None?
    ensures r.Some? ==> r == a || r == b
    ensures r.Some? && a.Some? ==> r.value <= a.value
    ensures r.Some? && b.Some? ==> r.value <= b.value
  {
    match (a, b)
    case (None, _) => b
    case (_, None) => a
    case (Some(x), Some(y)) => if x < y then a else b
  }

  function Max(a: nat, b: nat): nat {
    if a > b then a else b
  }
}
