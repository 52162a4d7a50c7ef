/** The failure-carrying datatypes and the sequence facts the other modules share. */
module Wrappers {

  datatype Option<+T> = None | Some(value: T) {
    function GetOr(default: T): T {
      if Some? then value else default
    }
  }

  datatype Result<+T, +E> = Success(value: T) | Failure(error: E)

  /** The last `n` elements, or everything when there are fewer. */
  function Last<T>(s: seq<T>, n: nat): seq<T> {
    if |s| <= n then s else s[|s| - n..]
  }

  /** A bounded record drops its oldest element to make room for a new one. */
  lemma LastOfAppended<T>(s: seq<T>, x: T, n: nat)
    requires n > 0
    ensures Last(s + [x], n) == (if |Last(s, n)| == n then Last(s, n)[1..] else Last(s, n)) + [x]
  {
    if |s| < n {
      assert Last(s + [x], n) == s + [x];
    } else {
      assert Last(s, n) == s[|s| - n..];
    }
  }
}
