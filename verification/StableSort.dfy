/** Python's `sorted`: a stable sort by a total order. */
module StableSort {
  /** Insertion into a sorted list, after equals. */
  function Insert<T>(sorted: seq<T>, x: T, le: (T, T) -> bool): seq<T> {
    if sorted == [] || le(sorted[|sorted| - 1], x) then sorted + [x]
    else Insert(sorted[..|sorted| - 1], x, le) + [sorted[|sorted| - 1]]
  }

  function Sort<T>(s: seq<T>, le: (T, T) -> bool): seq<T> {
    if s == [] then [] else Insert(Sort(s[..|s| - 1], le), s[|s| - 1], le)
  }

  ghost predicate Ordered<T>(s: seq<T>, le: (T, T) -> bool) {
    forall i, j | 0 <= i < j < |s| :: le(s[i], s[j])
  }

  ghost predicate IsOrder<T(!new)>(le: (T, T) -> bool) {
    (forall a, b :: le(a, b) || le(b, a)) && (forall a, b, c :: le(a, b) && le(b, c) ==> le(a, c))
  }

  lemma {:induction false} InsertContents<T>(sorted: seq<T>, x: T, le: (T, T) -> bool)
    ensures multiset(Insert(sorted, x, le)) == multiset(sorted) + multiset{x}
    ensures |Insert(sorted, x, le)| == |sorted| + 1
  {
    if sorted != [] && !le(sorted[|sorted| - 1], x) {
      var n := |sorted| - 1;
      InsertContents(sorted[..n], x, le);
      assert sorted == sorted[..n] + [sorted[n]];
    }
  }

  lemma InsertMembers<T>(sorted: seq<T>, x: T, le: (T, T) -> bool, i: nat)
    requires i < |Insert(sorted, x, le)|
    ensures Insert(sorted, x, le)[i] in sorted || Insert(sorted, x, le)[i] == x
  {
    InsertContents(sorted, x, le);
    assert Insert(sorted, x, le)[i] in multiset(Insert(sorted, x, le));
  }

  lemma OrderedSnoc<T(!new)>(s: seq<T>, x: T, le: (T, T) -> bool)
    requires Ordered(s, le) && forall i | 0 <= i < |s| :: le(s[i], x)
    ensures Ordered(s + [x], le)
  {
  }

  lemma {:induction false} InsertOrders<T(!new)>(sorted: seq<T>, x: T, le: (T, T) -> bool)
    requires IsOrder(le) && Ordered(sorted, le)
    ensures Ordered(Insert(sorted, x, le), le)
  {
    if sorted != [] {
      var n := |sorted| - 1;
      var front, last := sorted[..n], sorted[n];
      if le(last, x) {
        forall i | 0 <= i < |sorted| ensures le(sorted[i], x) {
          assert i < n ==> le(sorted[i], last);
        }
        OrderedSnoc(sorted, x, le);
      } else {
        InsertOrders(front, x, le);
        forall i | 0 <= i < |Insert(front, x, le)| ensures le(Insert(front, x, le)[i], last) {
          InsertMembers(front, x, le, i);
        }
        OrderedSnoc(Insert(front, x, le), last, le);
      }
    }
  }

  /** The sorted list holds the same elements, in order. */
  lemma {:induction false} SortContents<T>(s: seq<T>, le: (T, T) -> bool)
    ensures multiset(Sort(s, le)) == multiset(s) && |Sort(s, le)| == |s|
  {
    if s != [] {
      var n := |s| - 1;
      SortContents(s[..n], le);
      InsertContents(Sort(s[..n], le), s[n], le);
      assert s == s[..n] + [s[n]];
    }
  }

  lemma {:induction false} SortOrders<T(!new)>(s: seq<T>, le: (T, T) -> bool)
    requires IsOrder(le)
    ensures Ordered(Sort(s, le), le)
  {
    if s != [] {
      SortOrders(s[..|s| - 1], le);
      InsertOrders(Sort(s[..|s| - 1], le), s[|s| - 1], le);
    }
  }

  lemma SortMember<T>(s: seq<T>, le: (T, T) -> bool, i: nat)
    requires i < |Sort(s, le)|
    ensures Sort(s, le)[i] in s
  {
    SortContents(s, le);
    assert Sort(s, le)[i] in multiset(Sort(s, le));
  }

  lemma MemberSorted<T>(s: seq<T>, le: (T, T) -> bool, x: T)
    requires x in s
    ensures x in Sort(s, le)
  {
    SortContents(s, le);
    assert x in multiset(s);
  }
}
