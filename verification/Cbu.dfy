/** CBU check digits: two blocks of weighted digits, each closed by its own check digit. */
module Cbu {
  import opened Arithmetic
  import opened DigitText

  const BLOCK1_WEIGHTS: seq<nat> := [7, 1, 3, 9, 7, 1, 3]
  const BLOCK2_WEIGHTS: seq<nat> := [3, 9, 7, 1, 3, 9, 7, 1, 3, 9, 7, 1, 3]
  const CBU_LENGTH := 22

  function WeightedSum(digits: seq<Digit>, weights: seq<nat>): int
    requires |digits| == |weights|
  {
    if digits == [] then 0 else digits[0] * weights[0] + WeightedSum(digits[1..], weights[1..])
  }

  function CheckDigit(digits: seq<Digit>, weights: seq<nat>): Digit
    requires |digits| == |weights|
  {
    (10 - WeightedSum(digits, weights) % 10) % 10
  }

  predicate BlockOk(block: seq<Digit>, weights: seq<nat>)
    requires |block| == |weights| + 1
  {
    CheckDigit(block[..|weights|], weights) == block[|weights|]
  }

  predicate ValidDigits(digits: seq<Digit>) {
    && |digits| == CBU_LENGTH
    && BlockOk(digits[..8], BLOCK1_WEIGHTS)
    && BlockOk(digits[8..], BLOCK2_WEIGHTS)
  }

  predicate ValidateCbu(cbu: string) {
    ValidDigits(Digits(cbu))
  }

  lemma {:induction false} WeightedSumUpdate(digits: seq<Digit>, weights: seq<nat>, i: nat, d: Digit)
    requires |digits| == |weights| && i < |digits|
    ensures WeightedSum(digits[i := d], weights) == WeightedSum(digits, weights) + Minus(d, digits[i]) * weights[i]
  {
    if i == 0 {
      assert digits[i := d][1..] == digits[1..];
      assert d * weights[0] == digits[0] * weights[0] + (d - digits[0]) * weights[0];
    } else {
      assert digits[i := d][1..] == digits[1..][i - 1 := d];
      WeightedSumUpdate(digits[1..], weights[1..], i - 1, d);
    }
  }

  lemma {:induction false} WeightedSumAppend(digits: seq<Digit>, weights: seq<nat>, d: Digit, w: nat)
    requires |digits| == |weights|
    ensures WeightedSum(digits + [d], weights + [w]) == WeightedSum(digits, weights) + d * w
  {
    if digits == [] {
      assert (digits + [d])[1..] == [] && (weights + [w])[1..] == [];
    } else {
      assert (digits + [d])[1..] == digits[1..] + [d];
      assert (weights + [w])[1..] == weights[1..] + [w];
      WeightedSumAppend(digits[1..], weights[1..], d, w);
    }
  }

  /** A block is accepted exactly when its weighted sum, the check digit weighing one, is a multiple of ten. */
  lemma BlockOkIff(block: seq<Digit>, weights: seq<nat>)
    requires |block| == |weights| + 1
    ensures BlockOk(block, weights) <==> WeightedSum(block, weights + [1]) % 10 == 0
  {
    var n := |weights|;
    assert block == block[..n] + [block[n]];
    WeightedSumAppend(block[..n], weights, block[n], 1);
    ComplementIff(WeightedSum(block[..n], weights), block[n]);
  }

  lemma ComplementIff(s: int, d: Digit)
    ensures (10 - s % 10) % 10 == d <==> (s + d) % 10 == 0
  {
    var r := s % 10;
    SumRemainder(s, d);
    assert r == 0 || (10 - r) % 10 == 10 - r;
  }

  lemma SumRemainder(s: int, d: Digit)
    ensures (s + d) % 10 == (s % 10 + d) % 10
  {
  }

  predicate Completes(prefix: seq<Digit>, weights: seq<nat>, d: Digit)
    requires |prefix| == |weights|
  {
    WeightedSum(prefix + [d], weights + [1]) % 10 == 0
  }

  /** Of the ten digits exactly one completes a prefix to a multiple of ten, and it is the one accepted. */
  lemma UniqueCheckDigit(prefix: seq<Digit>, weights: seq<nat>)
    requires |prefix| == |weights|
    ensures exists d :: Completes(prefix, weights, d) && forall e :: Completes(prefix, weights, e) ==> e == d
    ensures forall d :: BlockOk(prefix + [d], weights) <==> Completes(prefix, weights, d)
  {
    var s := WeightedSum(prefix, weights);
    forall d: Digit
      ensures Completes(prefix, weights, d) <==> d == CheckDigit(prefix, weights)
      ensures BlockOk(prefix + [d], weights) <==> Completes(prefix, weights, d)
    {
      WeightedSumAppend(prefix, weights, d, 1);
      ComplementIff(s, d);
      BlockOkIff(prefix + [d], weights);
    }
    assert Completes(prefix, weights, CheckDigit(prefix, weights));
  }

  function Times(w: int, x: int): int {
    w * x
  }

  /** The two conditions written out, digit by digit. */
  lemma CbuFormula(d: seq<Digit>)
    requires |d| == CBU_LENGTH
    ensures ValidDigits(d) <==>
              && (Times(7, d[0]) + Times(1, d[1]) + Times(3, d[2]) + Times(9, d[3]) + Times(7, d[4])
                  + Times(1, d[5]) + Times(3, d[6]) + Times(1, d[7])) % 10 == 0
              && (Times(3, d[8]) + Times(9, d[9]) + Times(7, d[10]) + Times(1, d[11]) + Times(3, d[12])
                  + Times(9, d[13]) + Times(7, d[14]) + Times(1, d[15]) + Times(3, d[16]) + Times(9, d[17])
                  + Times(7, d[18]) + Times(1, d[19]) + Times(3, d[20]) + Times(1, d[21])) % 10 == 0
  {
    FirstSum(d[..8]);
    SecondSum(d[8..]);
    BlockOkIff(d[..8], BLOCK1_WEIGHTS);
    BlockOkIff(d[8..], BLOCK2_WEIGHTS);
  }

  lemma SumFrom(digits: seq<Digit>, weights: seq<nat>, k: nat, w: nat)
    requires |digits| == |weights| && k < |digits| && weights[k] == w
    ensures WeightedSum(digits[k..], weights[k..])
         == Times(w, digits[k]) + WeightedSum(digits[k + 1..], weights[k + 1..])
  {
    assert digits[k..][1..] == digits[k + 1..] && weights[k..][1..] == weights[k + 1..];
  }

  lemma SumFour(digits: seq<Digit>, weights: seq<nat>, k: nat, a: nat, b: nat, c: nat, d: nat)
    requires |digits| == |weights| && k + 4 <= |digits|
    requires weights[k] == a && weights[k + 1] == b && weights[k + 2] == c && weights[k + 3] == d
    ensures WeightedSum(digits[k..], weights[k..])
         == Times(a, digits[k]) + Times(b, digits[k + 1]) + Times(c, digits[k + 2]) + Times(d, digits[k + 3])
            + WeightedSum(digits[k + 4..], weights[k + 4..])
  {
    SumFrom(digits, weights, k, a);
    SumFrom(digits, weights, k + 1, b);
    SumFrom(digits, weights, k + 2, c);
    SumFrom(digits, weights, k + 3, d);
  }

  lemma FirstSum(b: seq<Digit>)
    requires |b| == 8
    ensures WeightedSum(b, BLOCK1_WEIGHTS + [1])
         == Times(7, b[0]) + Times(1, b[1]) + Times(3, b[2]) + Times(9, b[3]) + Times(7, b[4])
            + Times(1, b[5]) + Times(3, b[6]) + Times(1, b[7])
  {
    var ws := BLOCK1_WEIGHTS + [1];
    SumFour(b, ws, 0, 7, 1, 3, 9);
    SumFour(b, ws, 4, 7, 1, 3, 1);
    assert b[0..] == b && ws[0..] == ws && b[8..] == [];
  }

  lemma SecondSum(b: seq<Digit>)
    requires |b| == 14
    ensures WeightedSum(b, BLOCK2_WEIGHTS + [1])
         == Times(3, b[0]) + Times(9, b[1]) + Times(7, b[2]) + Times(1, b[3]) + Times(3, b[4])
            + Times(9, b[5]) + Times(7, b[6]) + Times(1, b[7]) + Times(3, b[8]) + Times(9, b[9])
            + Times(7, b[10]) + Times(1, b[11]) + Times(3, b[12]) + Times(1, b[13])
  {
    var ws := BLOCK2_WEIGHTS + [1];
    SumFour(b, ws, 0, 3, 9, 7, 1);
    SumFour(b, ws, 4, 3, 9, 7, 1);
    SumFour(b, ws, 8, 3, 9, 7, 1);
    SumFrom(b, ws, 12, 3);
    SumFrom(b, ws, 13, 1);
    assert b[0..] == b && ws[0..] == ws && b[14..] == [];
  }

  /** The weights of a block that detect every single-digit error. */
  predicate Units(weights: seq<nat>) {
    forall i :: 0 <= i < |weights| ==> weights[i] in {1, 3, 7, 9}
  }

  function Minus(a: int, b: int): int {
    a - b
  }

  /** Neighbouring weights (the check digit's included) differ by 2 or 6, so a swap shows modulo 5 only. */
  predicate EvenSteps(weights: seq<nat>) {
    forall i :: 0 <= i < |weights| - 1 ==> Minus(weights[i], weights[i + 1]) in {-6, -2, 2, 6}
  }

  lemma BlockSubstitutionDetected(block: seq<Digit>, weights: seq<nat>, i: nat, d: Digit)
    requires |block| == |weights| + 1 && Units(weights + [1])
    requires BlockOk(block, weights) && i < |block| && d != block[i]
    ensures !BlockOk(block[i := d], weights)
  {
    BlockOkIff(block, weights);
    BlockOkIff(block[i := d], weights);
    WeightedSumUpdate(block, weights + [1], i, d);
    var ws := weights + [1];
    var delta := Minus(d, block[i]) * ws[i];
    assert WeightedSum(block[i := d], ws) == WeightedSum(block, ws) + delta;
    SameRemainder(WeightedSum(block, ws), WeightedSum(block, ws) + delta);
    UnitTimesNonzero(Minus(d, block[i]), ws[i]);
  }

  lemma UnitTimesNonzero(delta: int, w: int)
    requires -9 <= delta <= 9 && delta != 0 && w in {1, 3, 7, 9}
    ensures (delta * w) % 10 != 0
  {
    assert w == 1 || w == 3 || w == 7 || w == 9;
  }

  lemma EvenTimesZeroIff(delta: int, step: int)
    requires -9 <= delta <= 9 && step in {-6, -2, 2, 6}
    ensures (delta * step) % 10 == 0 <==> delta in {-5, 0, 5}
  {
    assert step == -6 || step == -2 || step == 2 || step == 6;
  }

  function Swap(digits: seq<Digit>, i: nat): seq<Digit>
    requires i + 1 < |digits|
  {
    digits[i := digits[i + 1]][i + 1 := digits[i]]
  }

  lemma WeightedSumSwap(digits: seq<Digit>, weights: seq<nat>, i: nat)
    requires |digits| == |weights| && i + 1 < |digits|
    ensures WeightedSum(Swap(digits, i), weights)
         == WeightedSum(digits, weights) + Minus(digits[i + 1], digits[i]) * Minus(weights[i], weights[i + 1])
  {
    var swappedOnce := digits[i := digits[i + 1]];
    WeightedSumUpdate(digits, weights, i, digits[i + 1]);
    WeightedSumUpdate(swappedOnce, weights, i + 1, digits[i]);
    assert swappedOnce[i + 1] == digits[i + 1];
    Distribute(digits[i], digits[i + 1], weights[i], weights[i + 1]);
  }

  lemma Distribute(a: int, b: int, u: int, v: int)
    ensures Minus(b, a) * u + Minus(a, b) * v == Minus(b, a) * Minus(u, v)
  {
    var d := b - a;
    assert (-d) * v == -(d * v) && d * (u - v) == d * u - d * v;
  }

  lemma BlockSwapUndetectedIff(block: seq<Digit>, weights: seq<nat>, i: nat)
    requires |block| == |weights| + 1 && EvenSteps(weights + [1])
    requires BlockOk(block, weights) && i + 1 < |block|
    ensures BlockOk(Swap(block, i), weights) <==> Minus(block[i + 1], block[i]) in {-5, 0, 5}
  {
    BlockOkIff(block, weights);
    BlockOkIff(Swap(block, i), weights);
    var ws := weights + [1];
    var delta, step := Minus(block[i + 1], block[i]), Minus(ws[i], ws[i + 1]);
    WeightedSumSwap(block, ws, i);
    SameRemainder(WeightedSum(block, ws), WeightedSum(block, ws) + delta * step);
    EvenTimesZeroIff(delta, step);
  }

  lemma DigitSubstitutionDetected(digits: seq<Digit>, k: nat, d: Digit)
    requires ValidDigits(digits) && k < CBU_LENGTH && d != digits[k]
    ensures !ValidDigits(digits[k := d])
  {
    CbuWeights();
    if k < 8 {
      assert digits[k := d][..8] == digits[..8][k := d];
      BlockSubstitutionDetected(digits[..8], BLOCK1_WEIGHTS, k, d);
    } else {
      assert digits[k := d][8..] == digits[8..][k - 8 := d];
      BlockSubstitutionDetected(digits[8..], BLOCK2_WEIGHTS, k - 8, d);
    }
  }

  lemma CbuWeights()
    ensures EvenSteps(BLOCK1_WEIGHTS + [1]) && EvenSteps(BLOCK2_WEIGHTS + [1])
    ensures Units(BLOCK1_WEIGHTS + [1]) && Units(BLOCK2_WEIGHTS + [1])
  {
  }

  lemma FirstBlockSwap(digits: seq<Digit>, k: nat)
    requires ValidDigits(digits) && k < 7
    ensures ValidDigits(Swap(digits, k)) <==> Minus(digits[k + 1], digits[k]) in {-5, 0, 5}
  {
    CbuWeights();
    assert Swap(digits, k)[..8] == Swap(digits[..8], k) && Swap(digits, k)[8..] == digits[8..];
    BlockSwapUndetectedIff(digits[..8], BLOCK1_WEIGHTS, k);
  }

  lemma SecondBlockSwap(digits: seq<Digit>, k: nat)
    requires ValidDigits(digits) && 7 < k && k + 1 < CBU_LENGTH
    ensures ValidDigits(Swap(digits, k)) <==> Minus(digits[k + 1], digits[k]) in {-5, 0, 5}
  {
    CbuWeights();
    assert Swap(digits, k)[..8] == digits[..8] && Swap(digits, k)[8..] == Swap(digits[8..], k - 8);
    BlockSwapUndetectedIff(digits[8..], BLOCK2_WEIGHTS, k - 8);
  }

  /** A swap across the blocks gives both another digit, and the first one shows it. */
  lemma AcrossBlocksSwap(digits: seq<Digit>)
    requires ValidDigits(digits)
    ensures ValidDigits(Swap(digits, 7)) <==> digits[7] == digits[8]
  {
    CbuWeights();
    if digits[7] == digits[8] {
      assert Swap(digits, 7) == digits;
    } else {
      assert Swap(digits, 7)[..8] == digits[..8][7 := digits[8]];
      BlockSubstitutionDetected(digits[..8], BLOCK1_WEIGHTS, 7, digits[8]);
    }
  }

  lemma DigitSwapUndetectedIff(digits: seq<Digit>, k: nat)
    requires ValidDigits(digits) && k + 1 < CBU_LENGTH
    ensures ValidDigits(Swap(digits, k)) <==> Hidden(k, digits[k], digits[k + 1])
  {
    if k < 7 {
      FirstBlockSwap(digits, k);
    } else if 7 < k {
      SecondBlockSwap(digits, k);
    } else {
      AcrossBlocksSwap(digits);
    }
  }

  /** The swaps that pass: of equal digits, and inside one block of digits five apart. */
  predicate Hidden(k: nat, a: Digit, b: Digit) {
    a == b || (k != 7 && Minus(b, a) in {-5, 5})
  }

  /** Replacing one character of a valid CBU, however it is punctuated, passes exactly between separators. */
  lemma CbuSubstitutionUndetectedIff(cbu: string, i: nat, c: char)
    requires ValidateCbu(cbu) && i < |cbu| && c != cbu[i]
    ensures ValidateCbu(cbu[i := c]) <==> !IsDigit(cbu[i]) && !IsDigit(c)
  {
    if IsDigit(cbu[i]) && IsDigit(c) {
      DigitsUpdate(cbu, i, c);
      DigitSubstitutionDetected(Digits(cbu), |Digits(cbu[..i])|, Value(c));
    } else {
      DigitsAround(cbu, i);
      DigitsAround(cbu[i := c], i);
      assert cbu[i := c][..i] == cbu[..i] && cbu[i := c][i + 1..] == cbu[i + 1..];
    }
  }

  /**
   * Swapping two digits with no digit in between goes unnoticed exactly when they are equal, or five apart and
   * in one block.
   */
  lemma CbuSwapUndetectedIff(cbu: string, i: nat, j: nat)
    requires ValidateCbu(cbu) && i < j < |cbu| && IsDigit(cbu[i]) && IsDigit(cbu[j])
    requires forall k :: i < k < j ==> !IsDigit(cbu[k])
    ensures ValidateCbu(cbu[i := cbu[j]][j := cbu[i]])
       <==> Hidden(|Digits(cbu[..i])|, Value(cbu[i]), Value(cbu[j]))
  {
    var k := |Digits(cbu[..i])|;
    SwappedDigits(cbu, i, j);
    DigitSwapUndetectedIff(Digits(cbu), k);
  }

  lemma SwappedDigits(s: string, i: nat, j: nat)
    requires i < j < |s| && IsDigit(s[i]) && IsDigit(s[j]) && forall k :: i < k < j ==> !IsDigit(s[k])
    ensures var k, ds := |Digits(s[..i])|, Digits(s);
            && k + 1 < |ds| && ds[k] == Value(s[i]) && ds[k + 1] == Value(s[j])
            && Digits(s[i := s[j]][j := s[i]]) == Swap(ds, k)
  {
    var once := s[i := s[j]];
    DigitsBetween(s, i, j);
    DigitsBetween(once, i, j);
    assert once[..i] == s[..i];
    DigitsUpdate(s, i, s[j]);
    DigitsUpdate(s, j, s[i]);
    DigitsUpdate(once, j, s[i]);
  }
}
