/** Python's built-in `sorted` on a set of integer keys. */
module Sorting {

  lemma EmptyOrInhabited(s: set<int>)
    ensures s == {} || exists x :: x in s
  {
    if forall x :: x !in s {
      assert s == {};
    }
  }

  predicate IsMin(m: int, s: set<int>) {
    m in s && forall x | x in s :: m <= x
  }

  lemma MinExists(s: set<int>)
    requires s != {}
    ensures exists m :: IsMin(m, s)
  {
    EmptyOrInhabited(s);
    var a :| a in s;
    var rest := s - {a};
    assert s == rest + {a};
    if rest == {} {
      assert IsMin(a, s);
    } else {
      MinExists(rest);
      var b :| IsMin(b, rest);
      assert IsMin(if a <= b then a else b, s);
    }
  }

  function Min(s: set<int>): (m: int)
    requires s != {}
    ensures IsMin(m, s)
  {
    MinExists(s);
    var m :| IsMin(m, s);
    m
  }

  /** The elements of `s`, each once, in ascending order. */
  function Sorted(s: set<int>): (r: seq<int>)
    ensures forall x :: x in r <==> x in s
    ensures forall i, j | 0 <= i < j < |r| :: r[i] < r[j]
  {
    if s == {} then [] else
      var m := Min(s);
      [m] + Sorted(s - {m})
  }
}
