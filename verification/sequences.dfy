/** Small sequence helpers shared by the animation models: Python's
    `range`, `list.reverse`, and repetition of one loop pass. */
module Sequences {

  /** `list(range(lo, hi))`: empty when `hi <= lo`. */
  function Range(lo: int, hi: int): (r: seq<int>)
    ensures |r| == if hi <= lo then 0 else hi - lo
    ensures forall j :: 0 <= j < |r| ==> r[j] == lo + j
    decreases hi - lo
  {
    if hi <= lo then [] else [lo] + Range(lo + 1, hi)
  }

  /** The in-place `list.reverse()`, as a value. */
  function Reversed<T>(s: seq<T>): (r: seq<T>)
    ensures |r| == |s|
    ensures forall j :: 0 <= j < |s| ==> r[j] == s[|s| - 1 - j]
  {
    if s == [] then [] else Reversed(s[1..]) + [s[0]]
  }

  /** `m` copies of `pass`, one after another. */
  function Repeat<T>(pass: seq<T>, m: nat): seq<T> {
    if m == 0 then [] else pass + Repeat(pass, m - 1)
  }
}
