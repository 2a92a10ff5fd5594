/**
 Check digits of generated card, routing and article numbers (dlp_harness/generators.py): the Luhn formula of Annex B of
 ISO/IEC 7812-1, the ABA checksum and the EAN checksum, all as sums of weighted digits modulo 10.
 */
module CheckDigits {
  import opened Options

  predicate IsDigit(c: char) {
    '0' <= c <= '9'
  }

  predicate Digits(s: string) {
    forall i | 0 <= i < |s| :: IsDigit(s[i])
  }

  function Val(c: char): (d: int)
    requires IsDigit(c)
    ensures 0 <= d <= 9
  {
    c as int - '0' as int
  }

  function Digit(d: int): (c: char)
    requires 0 <= d <= 9
    ensures IsDigit(c) && Val(c) == d
  {
    d as char + '0'
  }

  /** What digit `d` contributes at position `i`, counted from the left. */
  type Weights = (int, int) -> int

  function Sum(s: string, w: Weights): int
    requires Digits(s)
  {
    if s == "" then 0 else Sum(s[..|s| - 1], w) + w(|s| - 1, Val(s[|s| - 1]))
  }

  function Doubled(d: int): int {
    if 2 * d > 9 then 2 * d - 9 else 2 * d
  }

  /** Doubles the positions whose distance from the right end of `n` digits has the given parity. */
  function LuhnWeights(n: nat, parity: nat): Weights {
    (i: int, d: int) => if (n - 1 - i) % 2 == parity then Doubled(d) else d
  }

  function AbaWeights(): Weights {
    (i: int, d: int) => d * (if i % 3 == 0 then 3 else if i % 3 == 1 then 7 else 1)
  }

  function EanWeights(): Weights {
    (i: int, d: int) => d * (if i % 2 == 0 then 1 else 3)
  }

  /** The digit that brings a sum to a multiple of ten. */
  function Completing(total: int): char {
    Digit((10 - total % 10) % 10)
  }

  predicate LuhnValid(s: string) {
    Digits(s) && |s| >= 2 && Sum(s, LuhnWeights(|s|, 1)) % 10 == 0
  }

  predicate AbaValid(s: string) {
    |s| == 9 && Digits(s) && Sum(s, AbaWeights()) % 10 == 0
  }

  predicate EanValid(s: string) {
    Digits(s) && Sum(s, EanWeights()) % 10 == 0
  }

  // ---- The operations ----------------------------------------------------------------------------------------------

  /** The common loop of `luhn_check_digit` and `luhn_valid`, over the reversed digits. */
  method LuhnTotal(s: string, parity: nat) returns (total: int)
    requires Digits(s)
    ensures total == Sum(s, LuhnWeights(|s|, parity))
  {
    total := 0;
    assert s[..|s|] == s;
    for i := 0 to |s|
      invariant total + Sum(s[..|s| - i], LuhnWeights(|s|, parity)) == Sum(s, LuhnWeights(|s|, parity))
    {
      var n := |s| - i;
      assert s[..n][..n - 1] == s[..n - 1] && |s| - 1 - (n - 1) == i;
      var d := Val(s[n - 1]);
      assert LuhnWeights(|s|, parity)(n - 1, d) == if i % 2 == parity then Doubled(d) else d;
      if i % 2 == parity {
        d := d * 2;
        if d > 9 {
          d := d - 9;
        }
      }
      total := total + d;
    }
  }

  /** Whether a string has digits only; `int` raises on any other character. */
  method AllDigits(s: string) returns (all: bool)
    ensures all == Digits(s)
  {
    for i := 0 to |s|
      invariant Digits(s[..i])
    {
      if !IsDigit(s[i]) {
        return false;
      }
    }
    all := true;
  }

  /** `None` stands for the error on a character that is no digit. */
  method LuhnCheckDigit(partial: string) returns (r: Option<char>)
    ensures r.Some? <==> Digits(partial)
    ensures r.Some? ==>
              forall c: char | IsDigit(c) ::
                Sum(partial + [c], LuhnWeights(|partial| + 1, 1)) % 10 == 0 <==> c == r.value
  {
    var all := AllDigits(partial);
    if !all {
      return None;
    }
    var total := LuhnTotal(partial, 0);
    forall c: char | IsDigit(c)
      ensures Sum(partial + [c], LuhnWeights(|partial| + 1, 1)) % 10 == 0 <==> c == Completing(total)
    {
      LuhnSnoc(partial, c);
      CompletingUnique(total, c);
    }
    r := Some(Completing(total));
  }

  method CheckLuhn(digits: string) returns (valid: bool)
    ensures valid == LuhnValid(digits)
  {
    var all := AllDigits(digits);
    if !all || |digits| < 2 {
      return false;
    }
    var total := LuhnTotal(digits, 1);
    valid := total % 10 == 0;
  }

  /** The check digit of `partial`. */
  function LuhnDigit(partial: string): char
    requires Digits(partial)
  {
    Completing(Sum(partial, LuhnWeights(|partial|, 0)))
  }

  /** Further characters than eight are ignored. */
  function AbaDigit(eight: string): char
    requires Digits(eight)
  {
    Completing(Sum(if |eight| > 8 then eight[..8] else eight, AbaWeights()))
  }

  function EanDigit(body: string): char
    requires Digits(body)
  {
    Completing(Sum(body, EanWeights()))
  }

  // ---- The sums in closed form -------------------------------------------------------------------------------------

  function DigitSum(x: nat): nat {
    x / 10 + x % 10
  }

  /** From the right, every second digit counts as the digit sum of its double. */
  function LuhnPairs(s: string): int
    requires Digits(s)
  {
    if |s| == 0 then 0
    else if |s| == 1 then Val(s[0])
    else LuhnPairs(s[..|s| - 2]) + DigitSum(2 * Val(s[|s| - 2])) + Val(s[|s| - 1])
  }

  lemma DoubledIs(d: nat)
    requires d <= 9
    ensures Doubled(d) == DigitSum(2 * d)
  {
  }

  lemma {:induction false} LuhnMeans(s: string)
    requires Digits(s)
    ensures Sum(s, LuhnWeights(|s|, 1)) == LuhnPairs(s)
  {
    var n, w := |s|, LuhnWeights(|s|, 1);
    if n == 1 {
      assert s[..0] == "" && w(0, Val(s[0])) == Val(s[0]);
    } else if n > 1 {
      LuhnMeans(s[..n - 2]);
      assert s[..n - 1][..n - 2] == s[..n - 2];
      LuhnLast(n - 1, Val(s[n - 1]));
      LuhnBeforeLast(n, Val(s[n - 2]));
      forall i, d | 0 <= i < n - 2 ensures w(i, d) == LuhnWeights(n - 2, 1)(i, d) {
        LuhnTwoShorter(n - 2, i, d);
      }
      SumAgrees(s[..n - 2], w, LuhnWeights(n - 2, 1));
    }
  }

  lemma LuhnBeforeLast(n: nat, d: int)
    requires n >= 2 && 0 <= d <= 9
    ensures LuhnWeights(n, 1)(n - 2, d) == DigitSum(2 * d)
  {
    DoubledIs(d);
    assert n - 1 - (n - 2) == 1;
  }

  lemma LuhnTwoShorter(n: nat, i: int, d: int)
    ensures LuhnWeights(n + 2, 1)(i, d) == LuhnWeights(n, 1)(i, d)
  {
    assert n + 2 - 1 - i == (n - 1 - i) + 2;
    TwoMore(n - 1 - i);
  }

  lemma TwoMore(m: int)
    ensures (m + 2) % 2 == m % 2
  {
  }

  /** A sum of three more digits, and of two more. */
  lemma SumThree(s: string, k: nat, w: Weights)
    requires Digits(s) && k + 3 <= |s|
    ensures Sum(s[..k + 3], w)
            == Sum(s[..k], w) + w(k, Val(s[k])) + w(k + 1, Val(s[k + 1])) + w(k + 2, Val(s[k + 2]))
  {
    SumTwo(s, k, w);
    SumOne(s, k + 2, w);
  }

  lemma SumTwo(s: string, k: nat, w: Weights)
    requires Digits(s) && k + 2 <= |s|
    ensures Sum(s[..k + 2], w) == Sum(s[..k], w) + w(k, Val(s[k])) + w(k + 1, Val(s[k + 1]))
  {
    SumOne(s, k, w);
    SumOne(s, k + 1, w);
  }

  lemma SumOne(s: string, k: nat, w: Weights)
    requires Digits(s) && k + 1 <= |s|
    ensures Sum(s[..k + 1], w) == Sum(s[..k], w) + w(k, Val(s[k]))
  {
    assert s[..k + 1][..k] == s[..k];
  }

  /** A routing number is valid if three times the first, seven times the second and the third of each three add up. */
  lemma AbaMeans(s: string)
    requires |s| == 9 && Digits(s)
    ensures AbaValid(s)
            <==> (3 * (Val(s[0]) + Val(s[3]) + Val(s[6])) + 7 * (Val(s[1]) + Val(s[4]) + Val(s[7]))
                  + Val(s[2]) + Val(s[5]) + Val(s[8])) % 10 == 0
  {
    SumThree(s, 0, AbaWeights());
    SumThree(s, 3, AbaWeights());
    SumThree(s, 6, AbaWeights());
    assert s[..9] == s && s[..0] == "";
  }

  /** The digits at even positions count once, those at odd positions three times. */
  function EanPairs(s: string, k: nat): int
    requires Digits(s) && 2 * k <= |s|
  {
    if k == 0 then 0 else EanPairs(s, k - 1) + Val(s[2 * k - 2]) + 3 * Val(s[2 * k - 1])
  }

  lemma {:induction false} EanMeans(s: string, k: nat)
    requires Digits(s) && 2 * k <= |s|
    ensures Sum(s[..2 * k], EanWeights()) == EanPairs(s, k)
    ensures 2 * k < |s| ==> Sum(s[..2 * k + 1], EanWeights()) == EanPairs(s, k) + Val(s[2 * k])
  {
    if k > 0 {
      EanMeans(s, k - 1);
      SumTwo(s, 2 * k - 2, EanWeights());
      EanWeightsAt(k - 1, Val(s[2 * k - 2]), Val(s[2 * k - 1]));
    }
    if 2 * k < |s| {
      SumOne(s, 2 * k, EanWeights());
      EanWeightsAt(k, Val(s[2 * k]), 0);
    }
  }

  lemma EanWeightsAt(k: nat, d: int, d1: int)
    ensures EanWeights()(2 * k, d) == d && EanWeights()(2 * k + 1, d1) == 3 * d1
  {
  }

  // ---- The check digit is the only one -----------------------------------------------------------------------------

  lemma CompletingUnique(total: int, c: char)
    requires IsDigit(c)
    ensures (total + Val(c)) % 10 == 0 <==> c == Completing(total)
  {
    assert Digit(Val(c)) == c;
  }

  lemma SumSnoc(s: string, c: char, w: Weights)
    requires Digits(s) && IsDigit(c)
    ensures Digits(s + [c]) && Sum(s + [c], w) == Sum(s, w) + w(|s|, Val(c))
  {
    assert (s + [c])[..|s|] == s;
  }

  /** Weights that agree give the same sum. */
  lemma {:induction false} SumAgrees(s: string, w: Weights, w1: Weights)
    requires Digits(s) && forall i, d | 0 <= i < |s| :: w(i, d) == w1(i, d)
    ensures Sum(s, w) == Sum(s, w1)
  {
    if s != "" {
      SumAgrees(s[..|s| - 1], w, w1);
    }
  }

  lemma OtherParity(m: int)
    ensures (m + 1) % 2 == 1 <==> m % 2 == 0
    ensures (m + 1) % 2 != 1 <==> m % 2 == 1
  {
  }

  lemma LuhnSnoc(partial: string, c: char)
    requires Digits(partial) && IsDigit(c)
    ensures Digits(partial + [c])
    ensures Sum(partial + [c], LuhnWeights(|partial| + 1, 1)) == Sum(partial, LuhnWeights(|partial|, 0)) + Val(c)
  {
    var n := |partial|;
    var w, w0 := LuhnWeights(n + 1, 1), LuhnWeights(n, 0);
    SumSnoc(partial, c, w);
    LuhnLast(n, Val(c));
    forall i, d | 0 <= i < n ensures w(i, d) == w0(i, d) {
      LuhnShift(n, i, d);
    }
    SumAgrees(partial, w, w0);
  }

  lemma LuhnLast(n: nat, d: int)
    ensures LuhnWeights(n + 1, 1)(n, d) == d
  {
    assert n + 1 - 1 - n == 0;
  }

  lemma LuhnShift(n: nat, i: int, d: int)
    ensures LuhnWeights(n + 1, 1)(i, d) == LuhnWeights(n, 0)(i, d)
  {
    OtherParity(n - 1 - i);
    assert n + 1 - 1 - i == (n - 1 - i) + 1;
  }

  /** Appending the Luhn check digit gives a valid number, and appending any other digit does not. */
  lemma LuhnDigitUnique(partial: string, c: char)
    requires partial != "" && Digits(partial) && IsDigit(c)
    ensures LuhnValid(partial + [c]) <==> c == LuhnDigit(partial)
  {
    LuhnSnoc(partial, c);
    CompletingUnique(Sum(partial, LuhnWeights(|partial|, 0)), c);
  }

  /** A routing number is valid exactly with its own check digit. */
  lemma AbaDigitUnique(eight: string, c: char)
    requires |eight| == 8 && Digits(eight) && IsDigit(c)
    ensures AbaValid(eight + [c]) <==> c == AbaDigit(eight)
  {
    SumSnoc(eight, c, AbaWeights());
    CompletingUnique(Sum(eight, AbaWeights()), c);
  }

  /** What weighs three at the end must be seven times the completing digit. */
  lemma CompletingThreefold(total: int, d: int)
    requires 0 <= d <= 9
    ensures (total + 3 * d) % 10 == 0 <==> d == 7 * Val(Completing(total)) % 10
  {
    WholeTens(total / 10, total % 10 + 3 * d);
    ThreefoldOf(total % 10, d);
  }

  lemma ThreefoldOf(r: int, d: int)
    requires 0 <= r <= 9 && 0 <= d <= 9
    ensures (r + 3 * d) % 10 == 0 <==> d == 7 * ((10 - r) % 10) % 10
  {
    Multiple(r, d);
    assert r == 0 || r == 1 || r == 2 || r == 3 || r == 4 || r == 5 || r == 6 || r == 7 || r == 8 || r == 9;
  }

  lemma Multiple(r: int, d: int)
    requires 0 <= r <= 9 && 0 <= d <= 9
    ensures (r + 3 * d) % 10 == 0 <==> r + 3 * d in {0, 10, 20, 30}
  {
  }

  /**
   The same for article numbers whose body has an even number of digits, as the twelve of an EAN-13. A body of an odd
   length, which the function accepts too, has one valid last digit as well, but it is seven times the one computed:
   that one is right only if it is 0 or 5.
   */
  lemma EanDigitUnique(body: string, c: char)
    requires Digits(body) && IsDigit(c)
    ensures EanValid(body + [c])
            <==> if |body| % 2 == 0 then c == EanDigit(body) else Val(c) == 7 * Val(EanDigit(body)) % 10
    ensures EanValid(body + [EanDigit(body)]) <==> |body| % 2 == 0 || Val(EanDigit(body)) in {0, 5}
  {
    EanSnoc(body, c);
    EanSnoc(body, EanDigit(body));
  }

  lemma EanSnoc(body: string, c: char)
    requires Digits(body) && IsDigit(c)
    ensures EanValid(body + [c])
            <==> if |body| % 2 == 0 then c == EanDigit(body) else Val(c) == 7 * Val(EanDigit(body)) % 10
  {
    SumSnoc(body, c, EanWeights());
    CompletingUnique(Sum(body, EanWeights()), c);
    CompletingThreefold(Sum(body, EanWeights()), Val(c));
  }

  /** `neg_luhn_invalid_16`: the check digit moved by 1 to 9 never makes a valid number. */
  lemma ShiftedCheckDigitInvalid(body: string, r: int)
    requires body != "" && Digits(body) && 1 <= r <= 9
    ensures !LuhnValid(body + [Digit((Val(LuhnDigit(body)) + r) % 10)])
  {
    LuhnDigitUnique(body, Digit((Val(LuhnDigit(body)) + r) % 10));
  }

  // ---- What the checksums detect -----------------------------------------------------------------------------------

  lemma {:induction false} SumUpdate(s: string, w: Weights, k: nat, c: char)
    requires Digits(s) && k < |s| && IsDigit(c)
    ensures Digits(s[k := c]) && Sum(s[k := c], w) == Sum(s, w) - w(k, Val(s[k])) + w(k, Val(c))
  {
    var n := |s| - 1;
    if k < n {
      SumUpdate(s[..n], w, k, c);
      assert s[k := c][..n] == s[..n][k := c];
    } else {
      assert s[k := c][..n] == s[..n];
    }
  }

  /** At position `k` different digits contribute differently, modulo 10. */
  ghost predicate Separates(w: Weights, k: int) {
    forall a, b | 0 <= a <= 9 && 0 <= b <= 9 && w(k, a) % 10 == w(k, b) % 10 :: a == b
  }

  lemma ChangeShows(s: string, w: Weights, k: nat, c: char)
    requires Digits(s) && k < |s| && IsDigit(c) && c != s[k] && Separates(w, k) && Sum(s, w) % 10 == 0
    ensures Digits(s[k := c]) && Sum(s[k := c], w) % 10 != 0
  {
    SumUpdate(s, w, k, c);
    var a, b := Val(s[k]), Val(c);
    assert a != b by {
      assert Digit(a) == s[k] && Digit(b) == c;
    }
    Shift(Sum(s, w), w(k, a), w(k, b));
  }

  lemma Shift(total: int, x: int, y: int)
    requires total % 10 == 0
    ensures (total - x + y) % 10 == 0 <==> x % 10 == y % 10
  {
  }

  lemma DoublingSeparates(a: int, b: int)
    requires 0 <= a <= 9 && 0 <= b <= 9 && Doubled(a) % 10 == Doubled(b) % 10
    ensures a == b
  {
  }

  lemma ThreefoldSeparates(a: int, b: int)
    requires 0 <= a <= 9 && 0 <= b <= 9 && (a * 3) % 10 == (b * 3) % 10
    ensures a == b
  {
  }

  lemma SevenfoldSeparates(a: int, b: int)
    requires 0 <= a <= 9 && 0 <= b <= 9 && (a * 7) % 10 == (b * 7) % 10
    ensures a == b
  {
  }

  lemma LuhnSeparates(n: nat, k: int)
    ensures Separates(LuhnWeights(n, 1), k)
  {
    var w := LuhnWeights(n, 1);
    forall a, b | 0 <= a <= 9 && 0 <= b <= 9 && w(k, a) % 10 == w(k, b) % 10 ensures a == b {
      if (n - 1 - k) % 2 == 1 {
        DoublingSeparates(a, b);
      }
    }
  }

  lemma AbaSeparates(k: int)
    ensures Separates(AbaWeights(), k)
  {
    var w := AbaWeights();
    forall a, b | 0 <= a <= 9 && 0 <= b <= 9 && w(k, a) % 10 == w(k, b) % 10 ensures a == b {
      if k % 3 == 0 {
        ThreefoldSeparates(a, b);
      } else if k % 3 == 1 {
        SevenfoldSeparates(a, b);
      }
    }
  }

  lemma EanSeparates(k: int)
    ensures Separates(EanWeights(), k)
  {
    var w := EanWeights();
    forall a, b | 0 <= a <= 9 && 0 <= b <= 9 && w(k, a) % 10 == w(k, b) % 10 ensures a == b {
      if k % 2 != 0 {
        ThreefoldSeparates(a, b);
      }
    }
  }

  /** Any change of a single digit of a valid number is rejected. */
  lemma SingleChangeDetected(s: string, k: nat, c: char)
    requires k < |s| && IsDigit(c) && c != s[k]
    ensures LuhnValid(s) ==> !LuhnValid(s[k := c])
    ensures AbaValid(s) ==> !AbaValid(s[k := c])
    ensures EanValid(s) ==> !EanValid(s[k := c])
  {
    LuhnSeparates(|s|, k);
    AbaSeparates(k);
    EanSeparates(k);
    if LuhnValid(s) {
      ChangeShows(s, LuhnWeights(|s|, 1), k, c);
    }
    if AbaValid(s) {
      ChangeShows(s, AbaWeights(), k, c);
    }
    if EanValid(s) {
      ChangeShows(s, EanWeights(), k, c);
    }
  }

  /** `s` with the digits at `k` and `k + 1` exchanged. */
  function Swap(s: string, k: nat): string
    requires k + 1 < |s|
  {
    s[k := s[k + 1]][k + 1 := s[k]]
  }

  lemma SumSwap(s: string, w: Weights, k: nat)
    requires Digits(s) && k + 1 < |s|
    ensures Digits(Swap(s, k))
    ensures Sum(Swap(s, k), w) == Sum(s, w) - (w(k, Val(s[k])) + w(k + 1, Val(s[k + 1])))
                                  + (w(k, Val(s[k + 1])) + w(k + 1, Val(s[k])))
  {
    SumUpdate(s, w, k, s[k + 1]);
    SumUpdate(s[k := s[k + 1]], w, k + 1, s[k]);
  }

  /** The exchanges that the Luhn formula cannot see. */
  lemma LuhnExchange(a: int, b: int)
    requires 0 <= a <= 9 && 0 <= b <= 9
    ensures (Doubled(a) + b) % 10 == (Doubled(b) + a) % 10 <==> a == b || (a == 0 && b == 9) || (a == 9 && b == 0)
  {
  }

  /** Exchanging neighbours in a valid Luhn number goes unnoticed exactly when they are equal, or are 0 and 9. */
  lemma LuhnSwap(s: string, k: nat)
    requires k + 1 < |s| && LuhnValid(s)
    ensures LuhnValid(Swap(s, k))
            <==> s[k] == s[k + 1] || (s[k] == '0' && s[k + 1] == '9') || (s[k] == '9' && s[k + 1] == '0')
  {
    var n, w := |s|, LuhnWeights(|s|, 1);
    SumSwap(s, w, k);
    var a, b := Val(s[k]), Val(s[k + 1]);
    Shift(Sum(s, w), w(k, a) + w(k + 1, b), w(k, b) + w(k + 1, a));
    LuhnExchange(a, b);
    OtherParity(n - 1 - (k + 1));
  }

  /** The exchanges that neighbouring weights differing by an even number not divisible by ten cannot see. */
  lemma WeightedExchange(a: int, b: int, v: int, v1: int)
    requires (v == 3 && v1 == 7) || (v == 7 && v1 == 1) || (v == 1 && v1 == 3) || (v == 3 && v1 == 1)
    ensures (a * v + b * v1) % 10 == (b * v + a * v1) % 10 <==> (a - b) % 5 == 0
  {
    if v == 3 && v1 == 7 {
      EvenMultiple(a, b, a * 3 + b * 7, b * 3 + a * 7, -4);
    } else if v == 7 && v1 == 1 {
      EvenMultiple(a, b, a * 7 + b, b * 7 + a, 6);
    } else if v == 1 && v1 == 3 {
      EvenMultiple(a, b, a + b * 3, b + a * 3, -2);
    } else {
      EvenMultiple(a, b, a * 3 + b, b * 3 + a, 2);
    }
  }

  lemma SameRemainder(x: int, y: int)
    ensures x % 10 == y % 10 <==> (x - y) % 10 == 0
  {
  }

  lemma EvenMultiple(a: int, b: int, x: int, y: int, m: int)
    requires m in {-4, -2, 2, 6} && x - y == m * (a - b)
    ensures x % 10 == y % 10 <==> (a - b) % 5 == 0
  {
    SameRemainder(x, y);
    DivisibleByFive(a - b, m);
  }

  lemma WholeTens(k: int, t: int)
    ensures (10 * k + t) % 10 == t % 10
  {
  }

  lemma DivisibleByFive(d: int, m: int)
    requires m in {-4, -2, 2, 6}
    ensures (m * d) % 10 == 0 <==> d % 5 == 0
  {
    var q, r := d / 5, d % 5;
    assert d == 5 * q + r;
    if m == -4 {
      WholeTens(-2 * q, -4 * r);
    } else if m == -2 {
      WholeTens(-q, -2 * r);
    } else if m == 2 {
      WholeTens(q, 2 * r);
    } else {
      WholeTens(3 * q, 6 * r);
    }
  }

  /** Exchanging neighbours in a valid routing number goes unnoticed exactly when they are equal or five apart. */
  lemma AbaSwap(s: string, k: nat)
    requires k + 1 < |s| && AbaValid(s)
    ensures AbaValid(Swap(s, k)) <==> (Val(s[k]) - Val(s[k + 1])) % 5 == 0
  {
    var w, a, b := AbaWeights(), Val(s[k]), Val(s[k + 1]);
    SumSwap(s, w, k);
    Shift(Sum(s, w), w(k, a) + w(k + 1, b), w(k, b) + w(k + 1, a));
    WeightedExchange(a, b, w(k, 1), w(k + 1, 1));
  }

  /** The same for article numbers. */
  lemma EanSwap(s: string, k: nat)
    requires k + 1 < |s| && EanValid(s)
    ensures EanValid(Swap(s, k)) <==> (Val(s[k]) - Val(s[k + 1])) % 5 == 0
  {
    var w, a, b := EanWeights(), Val(s[k]), Val(s[k + 1]);
    SumSwap(s, w, k);
    Shift(Sum(s, w), w(k, a) + w(k + 1, b), w(k, b) + w(k + 1, a));
    var v, v1 := w(k, 1), w(k + 1, 1);
    WeightedExchange(a, b, v, v1);
  }
}
