/**
  First-match search over an ordered sequence: the model of JavaScript's
  `Array.prototype.find` and `some`, which visit elements in index order and
  stop at the first one the callback accepts.
 */
module Search {
  import opened Wrappers

  /** `i` is the first position whose element satisfies `p`. */
  predicate IsFirst<T>(s: seq<T>, p: T -> bool, i: int) {
    0 <= i < |s| && p(s[i]) && forall j | 0 <= j < i :: !p(s[j])
  }

  predicate NoneSatisfy<T>(s: seq<T>, p: T -> bool) {
    forall j | 0 <= j < |s| :: !p(s[j])
  }

  /** `s.findIndex(p)`, with `None` for -1. */
  function FindIndex<T>(s: seq<T>, p: T -> bool): (r: Option<nat>)
    ensures r.Some? ==> IsFirst(s, p, r.value)
    ensures r.None? <==> NoneSatisfy(s, p)
  {
    if |s| == 0 then None
    else if p(s[0]) then Some(0)
    else
      match FindIndex(s[1..], p)
      case None => None
      case Some(i) => Some(i + 1)
  }

  /** `s.find(p)`: the first element accepted by `p`, `None` for `undefined`. */
  function Find<T>(s: seq<T>, p: T -> bool): (r: Option<T>)
    ensures r.None? <==> NoneSatisfy(s, p)
    ensures forall i | IsFirst(s, p, i) :: r == Some(s[i])
  {
    match FindIndex(s, p)
    case None => None
    case Some(i) => Some(s[i])
  }

  /** Searching a sequence with one more element in front. */
  lemma FindCons<T>(x: T, s: seq<T>, p: T -> bool)
    ensures Find([x] + s, p) == if p(x) then Some(x) else Find(s, p)
  {
    var t := [x] + s;
    if p(x) {
      assert IsFirst(t, p, 0);
    } else {
      match Find(s, p)
      case None =>
        assert NoneSatisfy(t, p) by {
          forall j | 0 <= j < |t| ensures !p(t[j]) {
            if j > 0 { assert t[j] == s[j - 1]; }
          }
        }
      case Some(y) =>
        var i := FindIndex(s, p).value;
        assert IsFirst(t, p, i + 1) by {
          forall j | 0 <= j < i + 1 ensures !p(t[j]) {
            if j > 0 { assert t[j] == s[j - 1]; }
          }
        }
        assert t[i + 1] == s[i];
    }
  }
}
