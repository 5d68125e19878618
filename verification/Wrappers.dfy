/** Optional values and results shared by every module. */
module Wrappers {
  datatype Option<+T> = None | Some(value: T)

  datatype Result<+T, +E> = Ok(value: T) | Err(error: E)

  // A number above all of a set, so one that is not in it.
  ghost function Unused(s: set<nat>): (n: nat)
    ensures forall x :: x in s ==> x < n
  {
    if s == {} then 0
    else
      var one :| one in s;
      var n := Unused(s - {one});
      assert forall x :: x in s ==> x == one || x in s - {one};
      if one < n then n else one + 1
  }
}
