/** Small shared vocabulary: optional values and the three bands of the risk gate. */
module Basics {

  datatype Option<+T> = None | Some(value: T)

  /** A band outside the gate's vocabulary; an empty one reads as no band at all. */
  type ForeignWord = w: string | w !in {"", "clear", "review", "blocked"} witness "amber"

  /** The verdict of the risk gate, in increasing severity, and any other word a stored block may hold. */
  datatype Band = Clear | Review | Blocked | Foreign(word: ForeignWord)

  function Severity(b: Band): nat
  {
    match b
    case Clear => 0
    case Review => 1
    case Blocked => 2
    case Foreign(_) => 2
  }

  /** Removes later repetitions and keeps first occurrences in order, as an insertion-ordered dict does. */
  function Dedupe<T(==,!new)>(s: seq<T>): (r: seq<T>)
    ensures forall x :: x in r <==> x in s
    ensures forall i, j :: 0 <= i < j < |r| ==> r[i] != r[j]
  {
    if s == [] then []
    else
      var init := Dedupe(s[..|s| - 1]);
      var last := s[|s| - 1];
      assert s == s[..|s| - 1] + [last];
      if last in init then init else init + [last]
  }

  lemma {:induction false} SubsetIsSmaller<T>(a: set<T>, b: set<T>)
    requires a <= b
    ensures |a| <= |b|
    decreases |a|
  {
    if x :| x in a {
      SubsetIsSmaller(a - {x}, b - {x});
    }
  }
}
