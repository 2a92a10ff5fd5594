/** Concatenations. */
module Sequences {
  /** All parts, one after the other. */
  function Flatten<T>(parts: seq<seq<T>>): seq<T> {
    if parts == [] then [] else Flatten(parts[..|parts| - 1]) + parts[|parts| - 1]
  }

  /** The positions whose elements have property `p`. */
  function Where<T>(s: seq<T>, p: T -> bool): set<nat> {
    set i: nat | i < |s| && p(s[i])
  }

  lemma WhereNone<T>(p: T -> bool)
    ensures |Where([], p)| == 0
  {
    assert Where([], p) == {};
  }

  lemma WhereOneMore<T>(s: seq<T>, p: T -> bool)
    requires s != []
    ensures |Where(s, p)| == |Where(s[..|s| - 1], p)| + if p(s[|s| - 1]) then 1 else 0
  {
    var n := |s| - 1;
    var before, all := Where(s[..n], p), Where(s, p);
    assert n !in before;
    forall i | i in all ensures i in before || (i == n && p(s[n])) {
      assert i < n ==> s[..n][i] == s[i];
    }
    forall i | i in before ensures i in all {
      assert s[..n][i] == s[i];
    }
    if p(s[n]) {
      assert n in all && all == before + {n};
    } else {
      assert all == before;
    }
  }

  lemma Reassociate<T>(a: seq<T>, b: seq<T>, c: seq<T>)
    ensures (a + b) + c == a + (b + c)
  {
  }
}
