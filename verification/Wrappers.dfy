/** The optional value used for map look-ups, absent metadata and failed parses, and mapping over a list. */
module Wrappers {

  datatype Option<+T> = None | Some(value: T) {

    /** Go's reading of an absent map entry: the zero value given as `default`. */
    function GetOr(default: T): T {
      if Some? then value else default
    }
  }

  function Mapped<T, U>(f: T -> U, s: seq<T>): (r: seq<U>)
    ensures |r| == |s| && forall i | 0 <= i < |s| :: r[i] == f(s[i])
  {
    seq(|s|, i requires 0 <= i < |s| => f(s[i]))
  }
}
