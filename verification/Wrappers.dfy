/** Small types and functions every module shares. */
module Wrappers {
  datatype Option<T> = None | Some(value: T)

  function Max(a: int, b: int): int { if a > b then a else b }

  /** The first occurrence of every element. */
  function Firsts<T(==,!new)>(s: seq<T>): (r: seq<T>)
    ensures forall x :: x in r <==> x in s
    ensures forall i, j :: 0 <= i < j < |r| ==> r[i] != r[j]
  {
    if s == [] then []
    else
      var rest, last := Firsts(s[..|s| - 1]), s[|s| - 1];
      assert s == s[..|s| - 1] + [last];
      if last in rest then rest else rest + [last]
  }
}
