/** First positions in sequences. */
module Search {
  /** The first position where `f` holds, or the length. */
  function FirstWhere<T>(s: seq<T>, f: T -> bool): (n: nat)
    ensures n <= |s|
    ensures n < |s| ==> f(s[n])
    ensures forall i :: 0 <= i < n ==> !f(s[i])
  {
    if s == [] then 0 else
      var n := FirstWhere(s[..|s| - 1], f);
      if n < |s| - 1 || f(s[|s| - 1]) then n else |s|
  }
}
