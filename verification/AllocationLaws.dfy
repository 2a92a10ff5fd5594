/**
 What the sample allocation promises: the exact total, bounds for everyone, proportional shares up to one, and no user
 behind a smaller one.
 */
module AllocationLaws {
  import opened Allocation
  import opened Arithmetic

  /** What `allocation` gives a user. */
  function Given(allocation: map<int, int>): User -> int {
    (u: User) => if u.id in allocation then allocation[u.id] else 0
  }

  const Requested: User -> int := (u: User) => u.requests

  function RoomOf(base: User -> int): User -> int {
    (u: User) => if base(u) < u.requests then 1 else 0
  }

  // ---- One user ----------------------------------------------------------------------------------------------------

  lemma MulOrder(a: real, b: real, c: real)
    requires c > 0.0
    ensures a <= b ==> a * c <= b * c
    ensures a < b ==> a * c < b * c
  {
  }

  lemma MulCast(a: int, b: int)
    ensures a as real * b as real == (a * b) as real
  {
  }

  lemma ShareTimesTotal(budget: int, eligible: int, total: int)
    requires total > 0
    ensures Share(budget, eligible, total) * total as real == (budget * eligible) as real
  {
    var x, t, b := eligible as real / total as real, total as real, budget as real;
    assert x * t == eligible as real;
    assert (b * x) * t == b * (x * t);
    MulCast(budget, eligible);
  }

  /** The floor of a share, without division. */
  lemma ShareFloor(budget: int, eligible: int, total: int)
    requires total > 0
    ensures
      var q := Share(budget, eligible, total).Floor;
      q * total <= budget * eligible < (q + 1) * total
  {
    var share := Share(budget, eligible, total);
    ShareTimesTotal(budget, eligible, total);
    FloorTimes(share, share.Floor, total, budget * eligible);
  }

  lemma FloorTimes(share: real, q: int, total: int, product: int)
    requires total > 0 && q as real <= share < (q + 1) as real && share * total as real == product as real
    ensures q * total <= product < (q + 1) * total
  {
    MulOrder(q as real, share, total as real);
    MulOrder(share, (q + 1) as real, total as real);
    MulCast(q, total);
    MulCast(q + 1, total);
  }

  /** Of a budget that covers everything, each share covers its user. */
  lemma ExtraCovers(budget: int, eligible: int, total: int)
    requires 0 < total <= budget && eligible > 0
    ensures Extra(budget, eligible, total) == eligible
  {
    ShareFloor(budget, eligible, total);
    var q := Share(budget, eligible, total).Floor;
    assert q < eligible ==> (q + 1) * total <= eligible * total;
    assert eligible * total <= eligible * budget;
  }

  /** Of a budget that does not, each share leaves its user room, and is rounded down by less than one. */
  lemma ExtraLeaves(budget: int, eligible: int, total: int)
    requires 0 < budget < total && eligible > 0
    ensures
      var x := Extra(budget, eligible, total);
      0 <= x < eligible && x * total <= budget * eligible <= x * total + total - 1
  {
    ShareFloor(budget, eligible, total);
    var q := Share(budget, eligible, total).Floor;
    assert q < 0 ==> (q + 1) * total <= 0;
    assert budget * eligible > 0;
    assert q >= eligible ==> q * total >= eligible * total;
    assert eligible * total > eligible * budget;
  }

  lemma EligibleBounds(u: User, minPerUser: int)
    ensures Eligible(u, minPerUser) >= 0
    ensures Guaranteed(u, minPerUser) + Eligible(u, minPerUser) == u.requests
  {
  }

  lemma ExtraBounds(budget: int, eligible: int, total: int)
    requires eligible >= 0
    ensures 0 <= Extra(budget, eligible, total) <= eligible
  {
    if budget > 0 && total > 0 && eligible > 0 {
      if budget >= total {
        ExtraCovers(budget, eligible, total);
      } else {
        ExtraLeaves(budget, eligible, total);
      }
    }
  }

  // ---- Sums --------------------------------------------------------------------------------------------------------

  lemma {:induction false} SumRequests(users: seq<User>, minPerUser: int)
    ensures Sum(users, Requested) == SumGuaranteed(users, minPerUser) + SumEligible(users, minPerUser)
    ensures SumEligible(users, minPerUser) >= 0
    ensures forall i | 0 <= i < |users| :: Eligible(users[i], minPerUser) <= SumEligible(users, minPerUser)
  {
    if users != [] {
      SumRequests(users[..|users| - 1], minPerUser);
    }
  }

  lemma {:induction false} RoomyIsSum(users: seq<User>, base: User -> int)
    ensures Roomy(users, base) == Sum(users, RoomOf(base))
  {
    if users != [] {
      RoomyIsSum(users[..|users| - 1], base);
    }
  }

  /** When nothing extra is given, the base is the guarantee. */
  lemma {:induction false} NothingExtra(users: seq<User>, minPerUser: int, budget: int, total: int)
    requires budget <= 0 || total <= 0
    ensures Sum(users, BaseOf(minPerUser, budget, total)) == SumGuaranteed(users, minPerUser)
  {
    if users != [] {
      NothingExtra(users[..|users| - 1], minPerUser, budget, total);
    }
  }

  /** When the budget covers everything, everyone is served in full. */
  lemma {:induction false} AllServed(users: seq<User>, minPerUser: int, budget: int, total: int)
    requires 0 < total <= budget
    ensures Sum(users, BaseOf(minPerUser, budget, total)) == Sum(users, Requested)
    ensures Roomy(users, BaseOf(minPerUser, budget, total)) == 0
  {
    if users != [] {
      AllServed(users[..|users| - 1], minPerUser, budget, total);
      var e := Eligible(users[|users| - 1], minPerUser);
      if e > 0 {
        ExtraCovers(budget, e, total);
      }
    }
  }

  /** When it does not, rounding loses less than one unit for each user with room. */
  lemma {:induction false} RoundingLoss(users: seq<User>, minPerUser: int, budget: int, total: int)
    requires 0 < budget < total
    ensures
      var x := Sum(users, BaseOf(minPerUser, budget, total)) - SumGuaranteed(users, minPerUser);
      var room := Roomy(users, BaseOf(minPerUser, budget, total));
      x * total <= budget * SumEligible(users, minPerUser) <= x * total + room * (total - 1)
  {
    if users != [] {
      var init, u := users[..|users| - 1], users[|users| - 1];
      RoundingLoss(init, minPerUser, budget, total);
      var base := BaseOf(minPerUser, budget, total);
      UserLoss(u, minPerUser, budget, total);
      AddLosses(Sum(init, base) - SumGuaranteed(init, minPerUser), base(u) - Guaranteed(u, minPerUser),
                SumEligible(init, minPerUser), Eligible(u, minPerUser),
                Roomy(init, base), if base(u) < u.requests then 1 else 0, budget, total);
    }
  }

  lemma UserLoss(u: User, minPerUser: int, budget: int, total: int)
    requires 0 < budget < total
    ensures
      var e, base := Eligible(u, minPerUser), Base(u, minPerUser, budget, total);
      var x, room := base - Guaranteed(u, minPerUser), if base < u.requests then 1 else 0;
      x * total <= budget * e <= x * total + room * (total - 1)
  {
    EligibleBounds(u, minPerUser);
    if Eligible(u, minPerUser) > 0 {
      ExtraLeaves(budget, Eligible(u, minPerUser), total);
    }
  }

  lemma AddLosses(x0: int, x1: int, e0: int, e1: int, room0: int, room1: int, budget: int, total: int)
    requires x0 * total <= budget * e0 <= x0 * total + room0 * (total - 1)
    requires x1 * total <= budget * e1 <= x1 * total + room1 * (total - 1)
    ensures (x0 + x1) * total <= budget * (e0 + e1) <= (x0 + x1) * total + (room0 + room1) * (total - 1)
  {
    Distribute(x0, x1, total);
    Distribute(room0, room1, total - 1);
    assert budget * (e0 + e1) == budget * e0 + budget * e1;
  }

  lemma Distribute(a: int, b: int, c: int)
    ensures (a + b) * c == a * c + b * c
  {
  }

  /** A quantity squeezed below a whole number of units. */
  lemma Squeeze(x: int, budget: int, total: int, room: nat)
    requires 0 < total && x * total <= budget * total <= x * total + room * (total - 1)
    ensures 0 <= budget - x <= room
  {
    var d := budget - x;
    assert d * total == budget * total - x * total;
    TimesOrder(d, -1, total);
    TimesOrder(room + 1, d, total);
    Distribute(room, 1, total);
    assert room * (total - 1) == room * total - room;
  }

  // ---- The total ---------------------------------------------------------------------------------------------------

  lemma {:induction false} SumWithBonus(bySize: seq<User>, n: nat, base: User -> int, left: int,
                                        allocation: map<int, int>)
    requires n <= |bySize| && Handed(allocation, bySize, base, left, |bySize|)
    ensures Sum(bySize[..n], Given(allocation))
         == Sum(bySize[..n], base) + Min(Max(left, 0), Roomy(bySize[..n], base))
  {
    if n > 0 {
      SumWithBonus(bySize, n - 1, base, left, allocation);
      assert bySize[..n][..n - 1] == bySize[..n - 1];
      assert Has(allocation, bySize[n - 1], base(bySize[n - 1]) + Bonus(bySize, n - 1, base, left));
    }
  }

  /** The base total and the leftover that goes with it add up to what is promised. */
  lemma BaseTotal(users: seq<User>, totalBudget: int, minPerUser: int)
    ensures
      var f := FiguresOf(users, totalBudget, minPerUser);
      var base := BaseOf(minPerUser, f.budget, f.total);
      Sum(users, base) + Min(Max(f.leftover, 0), Roomy(users, base))
        == Min(Max(totalBudget, SumGuaranteed(users, minPerUser)), Sum(users, Requested))
  {
    var f := FiguresOf(users, totalBudget, minPerUser);
    var base := BaseOf(minPerUser, f.budget, f.total);
    SumRequests(users, minPerUser);
    if f.budget <= 0 {
      NothingExtra(users, minPerUser, f.budget, f.total);
    } else if f.total == 0 {
      NothingExtra(users, minPerUser, f.budget, f.total);
      NobodyEligible(users, minPerUser, f.budget);
    } else if f.total <= f.budget {
      AllServed(users, minPerUser, f.budget, f.total);
    } else {
      RoundingLoss(users, minPerUser, f.budget, f.total);
      Squeeze(Sum(users, base) - SumGuaranteed(users, minPerUser), f.budget, f.total, Roomy(users, base));
    }
  }

  lemma {:induction false} NobodyEligible(users: seq<User>, minPerUser: int, budget: int)
    requires forall i | 0 <= i < |users| :: Eligible(users[i], minPerUser) <= 0
    ensures Roomy(users, BaseOf(minPerUser, budget, 0)) == 0
  {
    if users != [] {
      NobodyEligible(users[..|users| - 1], minPerUser, budget);
    }
  }

  lemma RoomyBySize(users: seq<User>, base: User -> int)
    ensures Roomy(BySize(users), base) == Roomy(users, base)
  {
    RoomyIsSum(BySize(users), base);
    RoomyIsSum(users, base);
    SumBySize(users, RoomOf(base));
  }

  /**
   The allocation is exact: it adds up to the budget, or to the guarantees where these exceed it, or to all requests
   where there are fewer.
   */
  lemma TotalIsExact(allocation: map<int, int>, users: seq<User>, totalBudget: int, minPerUser: int)
    requires IsAllocation(allocation, users, totalBudget, minPerUser)
    ensures Sum(users, Given(allocation))
         == Min(Max(totalBudget, SumGuaranteed(users, minPerUser)), Sum(users, Requested))
  {
    var f := FiguresOf(users, totalBudget, minPerUser);
    var base := BaseOf(minPerUser, f.budget, f.total);
    var bySize := BySize(users);
    assert forall p | 0 <= p < |bySize| ::
      Samples(users, totalBudget, minPerUser, p) == base(bySize[p]) + Bonus(bySize, p, base, f.leftover);
    assert Handed(allocation, bySize, base, f.leftover, |bySize|);
    SumWithBonus(bySize, |bySize|, base, f.leftover, allocation);
    assert bySize[..|bySize|] == bySize;
    SumBySize(users, Given(allocation));
    SumBySize(users, base);
    RoomyBySize(users, base);
    BaseTotal(users, totalBudget, minPerUser);
  }

  // ---- Every user --------------------------------------------------------------------------------------------------

  lemma WhichOne(users: seq<User>, i: nat) returns (p: nat)
    requires i < |users|
    ensures p < |BySize(users)| && BySize(users)[p] == users[i]
  {
    BySizeSorts(users);
    assert users[i] in multiset(users);
    assert users[i] in BySize(users);
    p :| 0 <= p < |BySize(users)| && BySize(users)[p] == users[i];
  }

  /** The proportional share of a user, capped at what the user can use. */
  function CappedShare(u: User, minPerUser: int, f: Figures): real {
    var e := Eligible(u, minPerUser);
    if f.budget <= 0 || f.total <= 0 then 0.0
    else if Share(f.budget, e, f.total) <= e as real then Share(f.budget, e, f.total) else e as real
  }

  lemma CappedFloor(u: User, minPerUser: int, f: Figures)
    ensures CappedShare(u, minPerUser, f).Floor == Extra(f.budget, Eligible(u, minPerUser), f.total)
  {
    EligibleBounds(u, minPerUser);
    if f.budget > 0 && f.total > 0 {
      var share, e := Share(f.budget, Eligible(u, minPerUser), f.total), Eligible(u, minPerUser);
      if e == 0 {
        assert share == 0.0;
      }
    }
  }

  /** Everyone gets at least the guarantee and at most what was requested; beyond the guarantee, the floor of the capped
      proportional share or one more. */
  lemma SharesAreProportional(allocation: map<int, int>, users: seq<User>, totalBudget: int, minPerUser: int, i: nat)
    requires IsAllocation(allocation, users, totalBudget, minPerUser) && i < |users|
    ensures users[i].id in allocation
    ensures
      var given, f := allocation[users[i].id], FiguresOf(users, totalBudget, minPerUser);
      var floor := CappedShare(users[i], minPerUser, f).Floor;
      && Min(minPerUser, users[i].requests) <= given <= users[i].requests
      && floor <= given - Min(minPerUser, users[i].requests) <= floor + 1
  {
    var p := WhichOne(users, i);
    var f := FiguresOf(users, totalBudget, minPerUser);
    assert Has(allocation, BySize(users)[p], Samples(users, totalBudget, minPerUser, p));
    EligibleBounds(users[i], minPerUser);
    ExtraBounds(f.budget, Eligible(users[i], minPerUser), f.total);
    CappedFloor(users[i], minPerUser, f);
  }

  lemma ExtraMonotone(budget: int, a: int, b: int, total: int)
    requires 0 <= a <= b
    ensures Extra(budget, a, total) <= Extra(budget, b, total)
  {
    ExtraBounds(budget, b, total);
    if budget > 0 && total > 0 && a > 0 {
      ShareFloor(budget, a, total);
      ShareFloor(budget, b, total);
      var p, q := Share(budget, a, total).Floor, Share(budget, b, total).Floor;
      TimesOrder(a, b, budget);
      TimesOrder(q + 1, p, total);
    }
  }

  /** A user with strictly more requests never gets fewer samples. */
  lemma LargerNeverGetsFewer(allocation: map<int, int>, users: seq<User>, totalBudget: int, minPerUser: int, i: nat,
                             j: nat)
    requires IsAllocation(allocation, users, totalBudget, minPerUser) && i < |users| && j < |users|
    requires users[i].requests > users[j].requests
    ensures users[i].id in allocation && users[j].id in allocation
    ensures allocation[users[i].id] >= allocation[users[j].id]
  {
    var p := WhichOne(users, i);
    var q := WhichOne(users, j);
    var f := FiguresOf(users, totalBudget, minPerUser);
    var base, bySize := BaseOf(minPerUser, f.budget, f.total), BySize(users);
    assert Has(allocation, bySize[p], Samples(users, totalBudget, minPerUser, p));
    assert Has(allocation, bySize[q], Samples(users, totalBudget, minPerUser, q));
    BySizeSorts(users);
    assert p < q;
    RoomyGrows(bySize, p, q, base);
    EligibleBounds(users[i], minPerUser);
    EligibleBounds(users[j], minPerUser);
    ExtraMonotone(f.budget, Eligible(users[j], minPerUser), Eligible(users[i], minPerUser), f.total);
    ExtraBounds(f.budget, Eligible(users[i], minPerUser), f.total);
    ExtraBounds(f.budget, Eligible(users[j], minPerUser), f.total);
  }

  // ---- Main and archive --------------------------------------------------------------------------------------------

  /** Python's `round(num / den)`: to the nearest integer, halves to the even one. */
  function RoundHalfEven(num: nat, den: nat): nat
    requires den > 0
  {
    var q, r := num / den, num % den;
    if 2 * r < den then q else if 2 * r > den then q + 1 else if q % 2 == 0 then q else q + 1
  }

  /** How many of a user's `n` samples come from the main database, when the archive is open. */
  function FromMain(n: nat, mainCount: nat, archiveCount: nat): nat {
    if mainCount + archiveCount > 0 && archiveCount > 0 then RoundHalfEven(n * mainCount, mainCount + archiveCount)
    else n
  }

  lemma RoundBetween(num: nat, den: nat, lo: nat, hi: nat)
    requires den > 0 && lo * den <= num <= hi * den
    ensures lo <= RoundHalfEven(num, den) <= hi
  {
    var q, r := num / den, num % den;
    assert num == q * den + r;
    TimesOrder(q + 1, lo, den);
    TimesOrder(hi + 1, q, den);
    assert (q + 1) * den == q * den + den && (hi + 1) * den == hi * den + den;
    assert q == hi ==> r == 0;
  }

  /**
   The split is proportional up to rounding: with an archive, the part from the main database differs from the exact
   share by at most one half, and is even where both neighbours are as near; without one everything comes from there.
   */
  lemma SplitIsProportional(n: nat, mainCount: nat, archiveCount: nat)
    ensures
      var total, fromMain := mainCount + archiveCount, FromMain(n, mainCount, archiveCount);
      if archiveCount == 0 then fromMain == n
      else
        var given, share := 2 * (fromMain * total), 2 * (n * mainCount);
        && share <= given + total && given <= share + total
        && (share == given + total || given == share + total ==> fromMain % 2 == 0)
  {
    var total := mainCount + archiveCount;
    if archiveCount > 0 {
      RoundNearest(n * mainCount, total);
    }
  }

  lemma RoundNearest(num: nat, den: nat)
    requires den > 0
    ensures
      var given, share := 2 * (RoundHalfEven(num, den) * den), 2 * num;
      && share <= given + den && given <= share + den
      && (share == given + den || given == share + den ==> RoundHalfEven(num, den) % 2 == 0)
  {
    var q, r := num / den, num % den;
    assert num == q * den + r;
    assert (q + 1) * den == q * den + den;
  }

  lemma FromMainFits(n: nat, mainCount: nat, archiveCount: nat)
    requires 0 < archiveCount && n <= mainCount + archiveCount
    ensures var fromMain := FromMain(n, mainCount, archiveCount);
            fromMain <= mainCount && 0 <= n - fromMain <= archiveCount
  {
    var total := mainCount + archiveCount;
    TimesOrder(n, total, mainCount);
    TimesOrder(mainCount, total, n);
    RoundBetween(n * mainCount, total, 0, mainCount);
    RoundBetween(n * mainCount, total, 0, n);
    if n > archiveCount {
      ArchiveGap(n, mainCount, archiveCount);
      RoundBetween(n * mainCount, total, n - archiveCount, n);
    }
  }

  lemma ArchiveGap(n: nat, mainCount: nat, archiveCount: nat)
    requires archiveCount <= n <= mainCount + archiveCount
    ensures (n - archiveCount) * (mainCount + archiveCount) <= n * mainCount
  {
    var total := mainCount + archiveCount;
    assert n * mainCount - (n - archiveCount) * total == archiveCount * (total - n);
    TimesOrder(0, total - n, archiveCount);
  }

  /** No user is asked for more samples from a database than it holds requests of that user. */
  lemma SourcesSuffice(allocation: map<int, int>, users: seq<User>, totalBudget: int, minPerUser: int, i: nat,
                       mainCount: nat, archiveCount: nat)
    requires IsAllocation(allocation, users, totalBudget, minPerUser) && i < |users|
    requires users[i].requests == mainCount + archiveCount
    ensures users[i].id in allocation
    ensures allocation[users[i].id] > 0 ==>
              var n := allocation[users[i].id];
              var fromMain := FromMain(n, mainCount, archiveCount);
              fromMain <= mainCount && 0 <= n - fromMain <= archiveCount
  {
    SharesAreProportional(allocation, users, totalBudget, minPerUser, i);
    if allocation[users[i].id] > 0 && archiveCount > 0 {
      FromMainFits(allocation[users[i].id], mainCount, archiveCount);
    }
  }
}
