// Sequences without one of their elements.

module Sequences {
  function Skip<T>(s: seq<T>, k: nat): (rest: seq<T>)
    requires k < |s|
    ensures |rest| == |s| - 1
    ensures forall i :: 0 <= i < |rest| ==> rest[i] == s[if i < k then i else i + 1]
  {
    s[..k] + s[k + 1..]
  }
}
