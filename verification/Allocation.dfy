/**
 Proportional sample allocation (`allocate_samples`, scripts/usage_audit_by_user.py), in exact arithmetic.
 */
module Allocation {
  import opened StableSort

  /** A user with the number of requests, in all and by database. */
  datatype User = User(id: int, requests: int, mainCount: int, archiveCount: int)

  ghost predicate DistinctIds(users: seq<User>) {
    forall i, j | 0 <= i < j < |users| :: users[i].id != users[j].id
  }

  function Sum(users: seq<User>, f: User -> int): int {
    if users == [] then 0 else Sum(users[..|users| - 1], f) + f(users[|users| - 1])
  }

  function Min(a: int, b: int): int {
    if a <= b then a else b
  }

  function Max(a: int, b: int): int {
    if a >= b then a else b
  }

  // ---- What each user is owed --------------------------------------------------------------------------------------

  function Guaranteed(u: User, minPerUser: int): int {
    Min(minPerUser, u.requests)
  }

  function GuaranteeOf(minPerUser: int): User -> int {
    u => Guaranteed(u, minPerUser)
  }

  /** What a user could still be given. */
  function Eligible(u: User, minPerUser: int): int {
    u.requests - Guaranteed(u, minPerUser)
  }

  function EligibleOf(minPerUser: int): User -> int {
    u => Eligible(u, minPerUser)
  }

  function SumGuaranteed(users: seq<User>, minPerUser: int): int {
    Sum(users, GuaranteeOf(minPerUser))
  }

  function SumEligible(users: seq<User>, minPerUser: int): int {
    Sum(users, EligibleOf(minPerUser))
  }

  /** The share of `budget` that `eligible` out of `total` is due, as a rational. */
  function Share(budget: int, eligible: int, total: int): real
    requires total > 0
  {
    budget as real * (eligible as real / total as real)
  }

  function Extra(budget: int, eligible: int, total: int): int {
    if budget <= 0 || total <= 0 || eligible <= 0 then 0 else Min(Share(budget, eligible, total).Floor, eligible)
  }

  /** The allocation after the proportional phase, `budget` being what the guarantees leave and `total` the sum of what
      is still eligible. */
  function Base(u: User, minPerUser: int, budget: int, total: int): int {
    Guaranteed(u, minPerUser) + Extra(budget, Eligible(u, minPerUser), total)
  }

  function BaseOf(minPerUser: int, budget: int, total: int): User -> int {
    u => Base(u, minPerUser, budget, total)
  }

  // ---- Rounding leftovers ------------------------------------------------------------------------------------------

  predicate NotSmaller(a: User, b: User) {
    a.requests >= b.requests
  }

  /** `sorted(users, key=requests, reverse=True)` */
  function BySize(users: seq<User>): seq<User> {
    Sort(users, NotSmaller)
  }

  /** How many of `users` have room left when each holds what `base` says. */
  function Roomy(users: seq<User>, base: User -> int): nat {
    if users == [] then 0 else
      Roomy(users[..|users| - 1], base)
      + if base(users[|users| - 1]) < users[|users| - 1].requests then 1 else 0
  }

  /** One more for each of the first `leftover` users with room, largest first. */
  function Bonus(bySize: seq<User>, p: nat, base: User -> int, leftover: int): int
    requires p < |bySize|
  {
    if base(bySize[p]) < bySize[p].requests && Roomy(bySize[..p], base) < leftover then 1 else 0
  }

  ghost predicate Descending(users: seq<User>) {
    forall i, j | 0 <= i < j < |users| :: users[i].requests >= users[j].requests
  }

  /** The sorted list holds the same users, largest first. */
  lemma BySizeSorts(users: seq<User>)
    ensures multiset(BySize(users)) == multiset(users) && Descending(BySize(users)) && |BySize(users)| == |users|
  {
    SortContents(users, NotSmaller);
    SortOrders(users, NotSmaller);
    var sorted := BySize(users);
    forall i, j | 0 <= i < j < |sorted| ensures sorted[i].requests >= sorted[j].requests {
      assert NotSmaller(sorted[i], sorted[j]);
    }
  }

  lemma {:induction false} SumInsert(sorted: seq<User>, u: User, f: User -> int)
    ensures Sum(Insert(sorted, u, NotSmaller), f) == Sum(sorted, f) + f(u)
  {
    if sorted == [] || NotSmaller(sorted[|sorted| - 1], u) {
      assert (sorted + [u])[..|sorted|] == sorted;
    } else {
      var n := |sorted| - 1;
      var front := Insert(sorted[..n], u, NotSmaller);
      SumInsert(sorted[..n], u, f);
      assert (front + [sorted[n]])[..|front|] == front;
    }
  }

  lemma {:induction false} SumBySize(users: seq<User>, f: User -> int)
    ensures Sum(BySize(users), f) == Sum(users, f)
  {
    if users != [] {
      SumBySize(users[..|users| - 1], f);
      SumInsert(BySize(users[..|users| - 1]), users[|users| - 1], f);
    }
  }

  lemma DistinctSnoc(users: seq<User>, u: User)
    requires DistinctIds(users) && forall i | 0 <= i < |users| :: users[i].id != u.id
    ensures DistinctIds(users + [u])
  {
  }

  lemma {:induction false} InsertDistinct(sorted: seq<User>, u: User)
    requires DistinctIds(sorted) && forall i | 0 <= i < |sorted| :: sorted[i].id != u.id
    ensures DistinctIds(Insert(sorted, u, NotSmaller))
  {
    if sorted == [] || NotSmaller(sorted[|sorted| - 1], u) {
      DistinctSnoc(sorted, u);
    } else {
      var n := |sorted| - 1;
      InsertDistinct(sorted[..n], u);
      var front := Insert(sorted[..n], u, NotSmaller);
      forall i | 0 <= i < |front| ensures front[i].id != sorted[n].id {
        InsertMembers(sorted[..n], u, NotSmaller, i);
      }
      DistinctSnoc(front, sorted[n]);
    }
  }

  lemma {:induction false} BySizeDistinct(users: seq<User>)
    requires DistinctIds(users)
    ensures DistinctIds(BySize(users))
  {
    if users != [] {
      var n := |users| - 1;
      BySizeDistinct(users[..n]);
      var sorted := BySize(users[..n]);
      forall i | 0 <= i < |sorted| ensures sorted[i].id != users[n].id {
        SortMember(users[..n], NotSmaller, i);
      }
      InsertDistinct(sorted, users[n]);
    }
  }

  function Ids(users: seq<User>): set<int> {
    set i | 0 <= i < |users| :: users[i].id
  }

  lemma BySizeIds(users: seq<User>)
    ensures Ids(BySize(users)) == Ids(users)
  {
    BySizeSorts(users);
    var sorted := BySize(users);
    forall x | x in Ids(sorted) ensures x in Ids(users) {
      var i :| 0 <= i < |sorted| && sorted[i].id == x;
      assert sorted[i] in multiset(sorted);
      assert sorted[i] in users;
    }
    forall x | x in Ids(users) ensures x in Ids(sorted) {
      var i :| 0 <= i < |users| && users[i].id == x;
      assert users[i] in multiset(users);
      assert users[i] in sorted;
    }
  }

  // ---- The allocation ----------------------------------------------------------------------------------------------

  /** The figures all users share: what the guarantees leave of the budget, what is still eligible, and what rounding
      leaves over. */
  datatype Figures = Figures(budget: int, total: int, leftover: int)

  function FiguresOf(users: seq<User>, totalBudget: int, minPerUser: int): Figures {
    var budget, total := totalBudget - SumGuaranteed(users, minPerUser), SumEligible(users, minPerUser);
    Figures(budget, total, totalBudget - Sum(users, BaseOf(minPerUser, budget, total)))
  }

  /** What the `p`-th largest user gets. */
  function Samples(users: seq<User>, totalBudget: int, minPerUser: int, p: nat): int
    requires p < |BySize(users)|
  {
    var f := FiguresOf(users, totalBudget, minPerUser);
    var base := BaseOf(minPerUser, f.budget, f.total);
    base(BySize(users)[p]) + Bonus(BySize(users), p, base, f.leftover)
  }

  ghost predicate Has(allocation: map<int, int>, u: User, amount: int) {
    u.id in allocation && allocation[u.id] == amount
  }

  /** The users' entries hold what `f` says. */
  ghost predicate Holds(allocation: map<int, int>, users: seq<User>, f: User -> int) {
    allocation.Keys == Ids(users) && forall i | 0 <= i < |users| :: Has(allocation, users[i], f(users[i]))
  }

  ghost predicate IsAllocation(allocation: map<int, int>, users: seq<User>, totalBudget: int, minPerUser: int) {
    && allocation.Keys == Ids(users)
    && forall p | 0 <= p < |BySize(users)| ::
         Has(allocation, BySize(users)[p], Samples(users, totalBudget, minPerUser, p))
  }

  lemma IdsOneMore(users: seq<User>, n: nat)
    requires n < |users|
    ensures Ids(users[..n + 1]) == Ids(users[..n]) + {users[n].id}
  {
    assert forall i | 0 <= i < n :: users[..n + 1][i] == users[..n][i];
    assert users[..n + 1][n] == users[n];
    forall x | x in Ids(users[..n]) ensures x in Ids(users[..n + 1]) {
      var i :| 0 <= i < |users[..n]| && users[..n][i].id == x;
      assert users[..n + 1][i].id == x;
    }
  }

  /** The first loop: everyone's guarantee. */
  method Guarantee(users: seq<User>, totalBudget: int, minPerUser: int)
    returns (allocation: map<int, int>, remaining: int)
    requires DistinctIds(users)
    ensures Holds(allocation, users, GuaranteeOf(minPerUser))
    ensures remaining == totalBudget - SumGuaranteed(users, minPerUser)
  {
    allocation, remaining := map[], totalBudget;
    for i := 0 to |users|
      invariant allocation.Keys == Ids(users[..i])
      invariant forall j | 0 <= j < i :: Has(allocation, users[j], Guaranteed(users[j], minPerUser))
      invariant remaining == totalBudget - SumGuaranteed(users[..i], minPerUser)
    {
      IdsOneMore(users, i);
      assert users[..i + 1][..i] == users[..i];
      var guaranteed := Guaranteed(users[i], minPerUser);
      allocation := allocation[users[i].id := guaranteed];
      remaining := remaining - guaranteed;
    }
    assert users[..|users|] == users;
  }

  /** The sum of what is still eligible. */
  method TotalEligible(users: seq<User>, ghost minPerUser: int, guarantees: map<int, int>) returns (total: int)
    requires Holds(guarantees, users, GuaranteeOf(minPerUser))
    ensures total == SumEligible(users, minPerUser)
  {
    total := 0;
    for i := 0 to |users|
      invariant total == SumEligible(users[..i], minPerUser)
    {
      assert users[..i + 1][..i] == users[..i];
      assert Has(guarantees, users[i], Guaranteed(users[i], minPerUser));
      total := total + Max(0, users[i].requests - guarantees[users[i].id]);
    }
    assert users[..|users|] == users;
  }

  /** The second loop: everyone's share of the rest. */
  method Proportion(users: seq<User>, ghost minPerUser: int, guarantees: map<int, int>, remaining: int)
    returns (allocation: map<int, int>)
    requires DistinctIds(users) && Holds(guarantees, users, GuaranteeOf(minPerUser))
    ensures Holds(allocation, users, BaseOf(minPerUser, remaining, SumEligible(users, minPerUser)))
  {
    allocation := guarantees;
    var total := TotalEligible(users, minPerUser, guarantees);
    if remaining > 0 && total > 0 {
      for i := 0 to |users|
        invariant allocation.Keys == Ids(users)
        invariant forall j | 0 <= j < i :: Has(allocation, users[j], Base(users[j], minPerUser, remaining, total))
        invariant forall j | i <= j < |users| :: Has(allocation, users[j], Guaranteed(users[j], minPerUser))
      {
        var eligible := users[i].requests - allocation[users[i].id];
        if eligible > 0 {
          var extra := Min(Share(remaining, eligible, total).Floor, eligible);
          allocation := allocation[users[i].id := allocation[users[i].id] + extra];
        }
      }
    }
  }

  method SumValues(users: seq<User>, allocation: map<int, int>, ghost f: User -> int) returns (used: int)
    requires Holds(allocation, users, f)
    ensures used == Sum(users, f)
  {
    used := 0;
    for i := 0 to |users|
      invariant used == Sum(users[..i], f)
    {
      assert users[..i + 1][..i] == users[..i];
      assert Has(allocation, users[i], f(users[i]));
      used := used + allocation[users[i].id];
    }
    assert users[..|users|] == users;
  }

  lemma {:induction false} RoomyGrows(users: seq<User>, i: nat, j: nat, base: User -> int)
    requires i <= j <= |users|
    ensures Roomy(users[..i], base) <= Roomy(users[..j], base)
    decreases j
  {
    if i < j {
      RoomyGrows(users, i, j - 1, base);
      assert users[..j][..j - 1] == users[..j - 1];
    }
  }

  /** The first `p` entries hold base and bonus, the others the base. */
  ghost predicate Handed(allocation: map<int, int>, bySize: seq<User>, base: User -> int, left: int, p: nat)
    requires p <= |bySize|
  {
    && (forall q | 0 <= q < p :: Has(allocation, bySize[q], base(bySize[q]) + Bonus(bySize, q, base, left)))
    && (forall q | p <= q < |bySize| :: Has(allocation, bySize[q], base(bySize[q])))
  }

  lemma HandOne(allocation: map<int, int>, bySize: seq<User>, base: User -> int, left: int, p: nat)
    requires DistinctIds(bySize) && p < |bySize| && Handed(allocation, bySize, base, left, p)
    ensures Handed(allocation[bySize[p].id := base(bySize[p]) + Bonus(bySize, p, base, left)], bySize, base, left,
                   p + 1)
  {
  }

  lemma SameUpdate(m: map<int, int>, k: int)
    requires k in m
    ensures m[k := m[k]] == m
  {
  }

  lemma HandedAll(allocation: map<int, int>, bySize: seq<User>, base: User -> int, left: int, p: nat)
    requires p <= |bySize| && Handed(allocation, bySize, base, left, p)
    requires left <= Roomy(bySize[..p], base) || left <= 0
    ensures Handed(allocation, bySize, base, left, |bySize|)
  {
    forall q | p <= q < |bySize| ensures Bonus(bySize, q, base, left) == 0 {
      RoomyGrows(bySize, p, q, base);
    }
  }

  /** What is left once the first `p` users have had their turn. */
  function StillLeft(bySize: seq<User>, p: nat, base: User -> int, left: int): int
    requires p <= |bySize|
  {
    if left > 0 then left - Roomy(bySize[..p], base) else left
  }

  /** The turn of user `p`. */
  method HandNext(bySize: seq<User>, ghost base: User -> int, held: map<int, int>, ghost left: int, p: nat,
                  leftover0: int)
    returns (allocation: map<int, int>, leftover: int)
    requires DistinctIds(bySize) && p < |bySize| && Handed(held, bySize, base, left, p)
    requires leftover0 == StillLeft(bySize, p, base, left) > 0
    ensures allocation.Keys == held.Keys && Handed(allocation, bySize, base, left, p + 1)
    ensures leftover == StillLeft(bySize, p + 1, base, left)
  {
    assert bySize[..p + 1][..p] == bySize[..p];
    var u := bySize[p];
    assert Has(held, u, base(u));
    HandOne(held, bySize, base, left, p);
    SameUpdate(held, u.id);
    allocation, leftover := held, leftover0;
    if u.requests - allocation[u.id] > 0 {
      allocation := allocation[u.id := allocation[u.id] + 1];
      leftover := leftover - 1;
    }
  }

  /** The third loop: one each for the largest users with room, while there is anything left. */
  method DistributeLeftover(bySize: seq<User>, ghost base: User -> int, held: map<int, int>, left: int)
    returns (allocation: map<int, int>)
    requires DistinctIds(bySize) && Holds(held, bySize, base)
    ensures allocation.Keys == Ids(bySize) && Handed(allocation, bySize, base, left, |bySize|)
  {
    allocation := held;
    var leftover, p := left, 0;
    while p < |bySize| && leftover > 0
      invariant p <= |bySize| && allocation.Keys == Ids(bySize)
      invariant leftover == StillLeft(bySize, p, base, left) && (left > 0 ==> leftover >= 0)
      invariant Handed(allocation, bySize, base, left, p)
    {
      assert bySize[..p + 1][..p] == bySize[..p];
      allocation, leftover := HandNext(bySize, base, allocation, left, p, leftover);
      p := p + 1;
    }
    if p < |bySize| {
      HandedAll(allocation, bySize, base, left, p);
    }
  }

  lemma HoldsBySize(allocation: map<int, int>, users: seq<User>, f: User -> int)
    requires Holds(allocation, users, f)
    ensures Holds(allocation, BySize(users), f)
  {
    BySizeIds(users);
    BySizeSorts(users);
    var sorted := BySize(users);
    forall i | 0 <= i < |sorted| ensures Has(allocation, sorted[i], f(sorted[i])) {
      assert sorted[i] in multiset(sorted);
      assert sorted[i] in users;
      var j :| 0 <= j < |users| && users[j] == sorted[i];
    }
  }

  lemma IsAllocated(allocation: map<int, int>, users: seq<User>, totalBudget: int, minPerUser: int)
    requires allocation.Keys == Ids(users)
    requires
      var f := FiguresOf(users, totalBudget, minPerUser);
      Handed(allocation, BySize(users), BaseOf(minPerUser, f.budget, f.total), f.leftover, |BySize(users)|)
    ensures IsAllocation(allocation, users, totalBudget, minPerUser)
  {
  }

  lemma SortedHolds(allocation: map<int, int>, users: seq<User>, f: User -> int)
    requires Holds(allocation, users, f) && DistinctIds(users)
    ensures Holds(allocation, BySize(users), f) && DistinctIds(BySize(users)) && Ids(BySize(users)) == Ids(users)
  {
    HoldsBySize(allocation, users, f);
    BySizeDistinct(users);
    BySizeIds(users);
  }

  /** The first two loops, and what they use up. */
  method AllocateBase(users: seq<User>, totalBudget: int, minPerUser: int)
    returns (held: map<int, int>, used: int)
    requires DistinctIds(users)
    ensures var f := FiguresOf(users, totalBudget, minPerUser);
            Holds(held, users, BaseOf(minPerUser, f.budget, f.total)) && totalBudget - used == f.leftover
  {
    var guarantees, remaining := Guarantee(users, totalBudget, minPerUser);
    held := Proportion(users, minPerUser, guarantees, remaining);
    ghost var f := FiguresOf(users, totalBudget, minPerUser);
    used := SumValues(users, held, BaseOf(minPerUser, remaining, f.total));
  }

  /** `allocate_samples`. */
  method AllocateSamples(users: seq<User>, totalBudget: int, minPerUser: int) returns (allocation: map<int, int>)
    requires DistinctIds(users)
    ensures IsAllocation(allocation, users, totalBudget, minPerUser)
  {
    ghost var f := FiguresOf(users, totalBudget, minPerUser);
    var held, used := AllocateBase(users, totalBudget, minPerUser);
    ghost var base := BaseOf(minPerUser, f.budget, f.total);
    SortedHolds(held, users, base);
    var bySize := BySize(users);
    allocation := DistributeLeftover(bySize, base, held, totalBudget - used);
    assert Handed(allocation, bySize, base, f.leftover, |bySize|);
    IsAllocated(allocation, users, totalBudget, minPerUser);
  }
}
