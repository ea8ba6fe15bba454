/** The card check of the anonymiser: a left-to-right loop whose parity depends on the length. */
module Luhn {
  import opened Arithmetic
  import opened DigitText

  const MIN_DIGITS := 13

  /** A digit in a doubled position. */
  function Doubled(d: Digit): Digit {
    if 2 * d > 9 then 2 * d - 9 else 2 * d
  }

  function Term(d: Digit, double: bool): Digit {
    if double then Doubled(d) else d
  }

  /**
   * The sum of Annex B of ISO/IEC 7812-1: start at the rightmost digit, and double every second
   * one on the way to the left. `double` says whether the rightmost digit itself is doubled.
   */
  function FromRight(nums: seq<Digit>, double: bool): nat {
    if nums == [] then 0
    else
      var last := |nums| - 1;
      Term(nums[last], double) + FromRight(nums[..last], !double)
  }

  /** The specification: at least 13 digits, and the standard's sum is a multiple of ten. */
  predicate Valid(nums: seq<Digit>) {
    |nums| >= MIN_DIGITS && FromRight(nums, false) % 10 == 0
  }

  /** One more digit on the right: the positions so far change their parity. */
  lemma OneMoreDigit(nums: seq<Digit>, i: nat, parity: nat)
    requires i < |nums| && parity < 2
    ensures FromRight(nums[..i + 1], (i + 2) % 2 == parity)
         == Term(nums[i], i % 2 == parity) + FromRight(nums[..i], (i + 1) % 2 == parity)
  {
    assert nums[..i + 1][..i] == nums[..i];
  }

  method LuhnCheck(text: string) returns (ok: bool)
    ensures ok <==> Valid(Digits(text))
  {
    var nums := Digits(text);
    if |nums| < MIN_DIGITS {
      return false;
    }
    var checksum := 0;
    var parity := |nums| % 2;
    for i := 0 to |nums|
      invariant checksum == FromRight(nums[..i], (i + 1) % 2 == parity)
    {
      var n: int := nums[i];
      if i % 2 == parity {
        n := n * 2;
        if n > 9 {
          n := n - 9;
        }
      }
      checksum := checksum + n;
      OneMoreDigit(nums, i, parity);
    }
    assert nums[..|nums|] == nums;
    ok := checksum % 10 == 0;
  }

  /** Whether position `i` of a string of length `n` is doubled when the last one is `double`. */
  predicate DoubledAt(n: nat, i: int, double: bool) {
    ((n - 1 - i) % 2 == 0) == double
  }

  lemma {:induction false} FromRightUpdate(nums: seq<Digit>, double: bool, i: nat, d: Digit)
    requires i < |nums|
    ensures FromRight(nums[i := d], double) - FromRight(nums, double)
         == Term(d, DoubledAt(|nums|, i, double)) - Term(nums[i], DoubledAt(|nums|, i, double))
  {
    var last := |nums| - 1;
    if i == last {
      assert nums[i := d][..last] == nums[..last];
    } else {
      assert nums[i := d][..last] == nums[..last][i := d];
      FromRightUpdate(nums[..last], !double, i, d);
      ParityShift(last, i, double);
    }
  }

  lemma ParityShift(n: nat, i: int, double: bool)
    ensures DoubledAt(n, i, !double) == DoubledAt(n + 1, i, double)
  {
    var k := n - 1 - i;
    assert n + 1 - 1 - i == k + 1;
  }

  lemma TermsDiffer(a: Digit, b: Digit, double: bool)
    requires a != b
    ensures (Term(a, double) as int - Term(b, double) as int) % 10 != 0
  {
  }

  /** Every single-digit substitution in a valid number is rejected. */
  lemma SingleSubstitutionDetected(nums: seq<Digit>, i: nat, d: Digit)
    requires Valid(nums) && i < |nums| && d != nums[i]
    ensures !Valid(nums[i := d])
  {
    FromRightUpdate(nums, false, i, d);
    SameRemainder(FromRight(nums, false), FromRight(nums[i := d], false));
    TermsDiffer(d, nums[i], DoubledAt(|nums|, i, false));
  }

  function Swap(nums: seq<Digit>, i: nat): seq<Digit>
    requires i + 1 < |nums|
  {
    nums[i := nums[i + 1]][i + 1 := nums[i]]
  }

  predicate ZeroNine(a: Digit, b: Digit) {
    (a == 0 && b == 9) || (a == 9 && b == 0)
  }

  /** Swapping two neighbours of a valid number goes unnoticed exactly for equal digits and for 0 with 9. */
  lemma AdjacentSwapUndetectedIff(nums: seq<Digit>, i: nat)
    requires Valid(nums) && i + 1 < |nums|
    ensures Valid(Swap(nums, i)) <==> nums[i] == nums[i + 1] || ZeroNine(nums[i], nums[i + 1])
  {
    FromRightSwap(nums, i);
    SameRemainder(FromRight(nums, false), FromRight(Swap(nums, i), false));
    SwapDifference(nums[i], nums[i + 1]);
  }

  lemma FromRightSwap(nums: seq<Digit>, i: nat)
    requires i + 1 < |nums|
    ensures FromRight(Swap(nums, i), false) - FromRight(nums, false)
         == if DoubledAt(|nums|, i, false) then Gain(nums[i + 1]) - Gain(nums[i]) else Gain(nums[i]) - Gain(nums[i + 1])
  {
    var a, b, n := nums[i], nums[i + 1], |nums|;
    var once := nums[i := b];
    assert once[i + 1] == b;
    assert FromRight(once, false) - FromRight(nums, false)
        == Term(b, DoubledAt(n, i, false)) - Term(a, DoubledAt(n, i, false)) by {
      FromRightUpdate(nums, false, i, b);
    }
    assert FromRight(once[i + 1 := a], false) - FromRight(once, false)
        == Term(a, DoubledAt(n, i + 1, false)) - Term(b, DoubledAt(n, i + 1, false)) by {
      FromRightUpdate(once, false, i + 1, a);
    }
    NeighbourNotDoubled(n, i);
  }

  lemma NeighbourNotDoubled(n: nat, i: int)
    ensures DoubledAt(n, i + 1, false) == !DoubledAt(n, i, false)
  {
    assert n - 1 - i == (n - 1 - (i + 1)) + 1;
  }

  /** What doubling adds to the sum. */
  function Gain(d: Digit): int {
    var doubled: int := Doubled(d);
    doubled - d
  }

  lemma SwapDifference(a: Digit, b: Digit)
    ensures (Gain(b) - Gain(a)) % 10 == 0 <==> a == b || ZeroNine(a, b)
    ensures (Gain(a) - Gain(b)) % 10 == 0 <==> a == b || ZeroNine(a, b)
  {
  }

  // ----- A known number -------------------------------------------------------------------------

  function Ones(n: nat): (r: seq<Digit>)
    ensures |r| == n
  {
    if n == 0 then [] else Ones(n - 1) + [1]
  }

  /** How many of the last `n` positions are doubled. */
  function DoubledAmong(n: nat, double: bool): nat {
    if double then (n + 1) / 2 else n / 2
  }

  lemma DoubledStep(n: nat, double: bool)
    requires n > 0
    ensures DoubledAmong(n, double) == DoubledAmong(n - 1, !double) + if double then 1 else 0
  {
  }

  lemma OnesStep(d: Digit, n: nat, double: bool)
    requires n > 0
    ensures FromRight([d] + Ones(n), double)
         == FromRight([d] + Ones(n - 1), !double) + 1 + if double then 1 else 0
  {
    var all := [d] + Ones(n);
    assert all[..n] == [d] + Ones(n - 1) && all[n] == 1;
  }

  lemma OneDigit(d: Digit, double: bool)
    ensures FromRight([d] + Ones(0), double) == Term(d, double)
  {
    assert [d] + Ones(0) == [d] && [d][..0] == [];
  }

  /** A digit followed by ones: every second one, from the right, counts twice. */
  lemma {:induction false} OnesAfter(d: Digit, n: nat, double: bool)
    ensures FromRight([d] + Ones(n), double)
         == n + DoubledAmong(n, double) + Term(d, if n % 2 == 0 then double else !double)
  {
    if n == 0 {
      OneDigit(d, double);
    } else {
      OnesStep(d, n, double);
      OnesAfter(d, n - 1, !double);
      DoubledStep(n, double);
    }
  }

  /** A four and fifteen ones pass, as card 4111 1111 1111 1111 should; four and seventeen do not. */
  lemma KnownCard()
    ensures Valid([4] + Ones(15)) && !Valid([4] + Ones(17)) && !Valid([8] + Ones(11))
  {
    OnesAfter(4, 15, false);
    OnesAfter(4, 17, false);
  }
}
