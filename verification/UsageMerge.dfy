/**
 The merged per-user counts of the usage audit (`merge_user_counts`, scripts/usage_audit_by_user.py), and the way from
 them through the allocation to the samples drawn from each database. User data, tokens and dates are left out.
 */
module UsageMerge {
  import opened Sorting
  import opened Allocation
  import opened AllocationLaws

  type Counts = map<int, nat>

  function CountIn(counts: Counts, id: int): nat {
    if id in counts then counts[id] else 0
  }

  function EntryOf(id: int, main: Counts, archive: Counts): User {
    User(id, CountIn(main, id) + CountIn(archive, id), CountIn(main, id), CountIn(archive, id))
  }

  /** One entry for each user of either database, largest first. */
  ghost predicate IsMerge(merged: seq<User>, main: Counts, archive: Counts) {
    && DistinctIds(merged) && Ids(merged) == main.Keys + archive.Keys && Descending(merged)
    && forall u | u in merged :: u == EntryOf(u.id, main, archive)
  }

  /** The sum of `f` over a set. */
  ghost function SumSet(s: set<int>, f: int -> nat): nat {
    if s == {} then 0 else
      var x := Sorting.Min(s);
      f(x) + SumSet(s - {x}, f)
  }

  lemma {:induction false} SumSetAny(s: set<int>, f: int -> nat, x: int)
    requires x in s
    ensures SumSet(s, f) == f(x) + SumSet(s - {x}, f)
  {
    var m := Sorting.Min(s);
    if x != m {
      SumSetAny(s - {m}, f, x);
      SumSetAny(s - {x}, f, m);
      assert s - {m} - {x} == s - {x} - {m};
    }
  }

  lemma {:induction false} SumSetUnion(s: set<int>, t: set<int>, f: int -> nat)
    requires forall x | x in t && x !in s :: f(x) == 0
    ensures SumSet(s + t, f) == SumSet(s, f)
    decreases |t|
  {
    EmptyOrInhabited(t);
    if t == {} {
      assert s + t == s;
    } else {
      var x :| x in t;
      SumSetUnion(s, t - {x}, f);
      if x in s {
        assert s + t == s + (t - {x});
      } else {
        SumSetAny(s + t, f, x);
        assert s + t - {x} == s + (t - {x});
      }
    }
  }

  lemma {:induction false} SumSetPlus(s: set<int>, f: int -> nat, g: int -> nat, h: int -> nat)
    requires forall x | x in s :: h(x) == f(x) + g(x)
    ensures SumSet(s, h) == SumSet(s, f) + SumSet(s, g)
  {
    if s != {} {
      SumSetPlus(s - {Sorting.Min(s)}, f, g, h);
    }
  }

  function InCounts(counts: Counts): int -> nat {
    (id: int) => CountIn(counts, id)
  }

  function InBoth(main: Counts, archive: Counts): int -> nat {
    (id: int) => CountIn(main, id) + CountIn(archive, id)
  }

  /** The entries found so far, with `rest` still to come. */
  ghost predicate Collected(found: seq<User>, rest: set<int>, main: Counts, archive: Counts) {
    && DistinctIds(found) && Ids(found) !! rest && Ids(found) + rest == main.Keys + archive.Keys
    && (forall u | u in found :: u == EntryOf(u.id, main, archive))
    && Sum(found, Requested) + SumSet(rest, InBoth(main, archive))
       == SumSet(main.Keys + archive.Keys, InBoth(main, archive))
  }

  lemma CollectOne(found: seq<User>, rest: set<int>, main: Counts, archive: Counts, id: int)
    requires Collected(found, rest, main, archive) && id in rest
    ensures Collected(found + [EntryOf(id, main, archive)], rest - {id}, main, archive)
  {
    SumSetAny(rest, InBoth(main, archive), id);
    AddEntry(found, EntryOf(id, main, archive));
    assert Ids(found) + {id} + (rest - {id}) == Ids(found) + rest;
  }

  /** The loop goes over the ids in the arbitrary order of a set; the sort is stable. */
  method MergeUserCounts(main: Counts, archive: Counts) returns (merged: seq<User>)
    ensures IsMerge(merged, main, archive)
    ensures Sum(merged, Requested) == SumSet(main.Keys, InCounts(main)) + SumSet(archive.Keys, InCounts(archive))
  {
    var rest := main.Keys + archive.Keys;
    var found: seq<User> := [];
    while rest != {}
      invariant Collected(found, rest, main, archive)
      decreases |rest|
    {
      EmptyOrInhabited(rest);
      var id :| id in rest;
      CollectOne(found, rest, main, archive, id);
      found, rest := found + [EntryOf(id, main, archive)], rest - {id};
    }
    merged := BySize(found);
    MergeSorted(found, main, archive);
    TotalsAdd(main, archive);
  }

  lemma AddEntry(found: seq<User>, u: User)
    requires DistinctIds(found) && u.id !in Ids(found)
    ensures DistinctIds(found + [u]) && Ids(found + [u]) == Ids(found) + {u.id}
    ensures Sum(found + [u], Requested) == Sum(found, Requested) + u.requests
  {
    assert (found + [u])[..|found|] == found;
    assert forall i | 0 <= i < |found| :: found[i].id in Ids(found);
    var both := found + [u];
    forall x | x in Ids(found) + {u.id} ensures x in Ids(both) {
      if x == u.id {
        assert both[|found|] == u;
      } else {
        var i :| 0 <= i < |found| && found[i].id == x;
        assert both[i] == found[i];
      }
    }
  }

  lemma MergeSorted(found: seq<User>, main: Counts, archive: Counts)
    requires DistinctIds(found) && Ids(found) == main.Keys + archive.Keys
    requires forall u | u in found :: u == EntryOf(u.id, main, archive)
    ensures IsMerge(BySize(found), main, archive) && Sum(BySize(found), Requested) == Sum(found, Requested)
  {
    BySizeSorts(found);
    BySizeDistinct(found);
    BySizeIds(found);
    SumBySize(found, Requested);
    forall u | u in BySize(found) ensures u == EntryOf(u.id, main, archive) {
      assert u in multiset(BySize(found));
      assert u in found;
    }
  }

  lemma TotalsAdd(main: Counts, archive: Counts)
    ensures SumSet(main.Keys + archive.Keys, InBoth(main, archive))
            == SumSet(main.Keys, InCounts(main)) + SumSet(archive.Keys, InCounts(archive))
  {
    var all := main.Keys + archive.Keys;
    SumSetPlus(all, InCounts(main), InCounts(archive), InBoth(main, archive));
    SumSetUnion(main.Keys, archive.Keys, InCounts(main));
    SumSetUnion(archive.Keys, main.Keys, InCounts(archive));
    assert archive.Keys + main.Keys == all;
  }

  /**
   The whole audit: whatever the two databases count, every user of either gets a number of samples, and neither
   database is asked for more of a user's requests than it holds.
   */
  lemma AuditFits(merged: seq<User>, main: Counts, archive: Counts, allocation: map<int, int>, totalBudget: int,
                  minPerUser: int, id: int)
    requires IsMerge(merged, main, archive) && IsAllocation(allocation, merged, totalBudget, minPerUser)
    requires id in main.Keys + archive.Keys
    ensures id in allocation
    ensures allocation[id] > 0 ==>
              var fromMain := FromMain(allocation[id], CountIn(main, id), CountIn(archive, id));
              fromMain <= CountIn(main, id) && 0 <= allocation[id] - fromMain <= CountIn(archive, id)
  {
    assert id in Ids(merged);
    var i :| 0 <= i < |merged| && merged[i].id == id;
    assert merged[i] in merged;
    SourcesSuffice(allocation, merged, totalBudget, minPerUser, i, CountIn(main, id), CountIn(archive, id));
  }
}
