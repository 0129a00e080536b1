/** Rounding of a vendor's share of a partial payment. The source multiplies by a float ratio
    and calls Python's `round`; here the ratio is the exact rational amount / total, rounded to
    the nearest integer with ties to even. */
module Rounding {
  import opened Sums

  lemma ScaleMonotone(x: int, y: int, d: int)
    requires d > 0 && x >= y
    ensures x * d >= y * d
  {
    assert (x - y) * d >= 0;
  }

  /** round(n / d): within half a unit of n / d, and even when exactly half-way. */
  function RoundHalfEven(n: int, d: int): (r: int)
    requires d > 0
    ensures -d <= 2 * (r * d - n) <= d
    ensures 2 * (r * d - n) == d || 2 * (r * d - n) == -d ==> r % 2 == 0
  {
    var q, m := n / d, n % d;
    assert q * d + m == n;
    assert (q + 1) * d == q * d + d;
    if 2 * m < d then q
    else if 2 * m > d then q + 1
    else if q % 2 == 0 then q else q + 1
  }

  /** The two clauses of RoundHalfEven leave no choice: it is the rounding function. */
  lemma RoundHalfEvenUnique(n: int, d: int, r: int)
    requires d > 0
    requires -d <= 2 * (r * d - n) <= d
    requires 2 * (r * d - n) == d || 2 * (r * d - n) == -d ==> r % 2 == 0
    ensures r == RoundHalfEven(n, d)
  {
    var s := RoundHalfEven(n, d);
    RoundedAtMostOneApart(n, d, r, s);
    Successor(r, d);
    Successor(s, d);
    if r == s + 1 {
      AdjacentRoundingsAreTies(n, d, s * d);
    } else if s == r + 1 {
      AdjacentRoundingsAreTies(n, d, r * d);
    }
  }

  lemma Successor(x: int, d: int)
    ensures (x + 1) * d == x * d + d
  {
  }

  /** Two adjacent integers can both be nearest to n / d only when both are ties. */
  lemma AdjacentRoundingsAreTies(n: int, d: int, product: int)
    requires -d <= 2 * (product - n) && 2 * (product + d - n) <= d
    ensures 2 * (product - n) == -d && 2 * (product + d - n) == d
  {
  }

  lemma RoundedAtMostOneApart(n: int, d: int, r: int, s: int)
    requires d > 0
    requires -d <= 2 * (r * d - n) <= d
    requires -d <= 2 * (s * d - n) <= d
    ensures -1 <= r - s <= 1
  {
    assert (s + 2) * d == s * d + 2 * d;
    assert (r + 2) * d == r * d + 2 * d;
    if r >= s + 2 {
      ScaleMonotone(r, s + 2, d);
    } else if s >= r + 2 {
      ScaleMonotone(s, r + 2, d);
    }
  }

  /** A whole number of units is not changed by rounding. */
  lemma RoundExact(q: int, d: int)
    requires d > 0
    ensures RoundHalfEven(q * d, d) == q
  {
    RoundHalfEvenUnique(q * d, d, q);
  }

  lemma RoundNonNegative(n: nat, d: int)
    requires d > 0
    ensures RoundHalfEven(n, d) >= 0
  {
    var r := RoundHalfEven(n, d);
    if r < 0 {
      ScaleMonotone(-1, r, d);
    }
  }

  /** What rounding n / d adds, in units of 1 / d: read off the residue of n. */
  function Gain(n: int, d: int): (g: int)
    requires d > 0
    ensures -d <= 2 * g <= d
  {
    var m := n % d;
    if 2 * m < d || (2 * m == d && (n / d) % 2 == 0) then -m else d - m
  }

  lemma GainIsRoundingError(n: int, d: int)
    requires d > 0
    ensures d * RoundHalfEven(n, d) == n + Gain(n, d)
  {
    var q, m := n / d, n % d;
    assert q * d + m == n;
    Successor(q, d);
    SameProduct(d, q);
    SameProduct(d, q + 1);
  }

  lemma SameProduct(x: int, y: int)
    ensures x * y == y * x
  {
  }

  /** The part of `due` that a payment of `amount` on an order of `total` allocates:
      due * min(1, amount / max(1, total)), rounded. */
  function Share(due: int, amount: int, total: int): (r: int)
    ensures due >= 0 && amount >= 0 ==> r >= 0
  {
    var whole := if total > 1 then total else 1;
    if amount >= whole then due
    else
      assert due >= 0 && amount >= 0 ==> RoundHalfEven(due * amount, whole) >= 0 by {
        if due >= 0 && amount >= 0 {
          RoundNonNegative(due * amount, whole);
        }
      }
      RoundHalfEven(due * amount, whole)
  }

  function Accumulated(due: int, amounts: seq<int>, total: int): int {
    if amounts == [] then 0
    else Accumulated(due, amounts[..|amounts| - 1], total) + Share(due, amounts[|amounts| - 1], total)
  }

  function Total(amounts: seq<int>): int {
    if amounts == [] then 0 else Total(amounts[..|amounts| - 1]) + amounts[|amounts| - 1]
  }

  lemma {:induction false} TotalNonNegative(amounts: seq<int>)
    requires forall a :: a in amounts ==> a > 0
    ensures Total(amounts) >= |amounts|
  {
    if amounts != [] {
      var init := amounts[..|amounts| - 1];
      assert forall a :: a in init ==> a in amounts;
      assert amounts[|amounts| - 1] in amounts;
      TotalNonNegative(init);
    }
  }

  /** One payment, scaled by the total: rounding costs at most half a unit. */
  lemma ShareError(due: int, amount: int, total: int)
    requires 0 < amount <= total
    ensures -total <= 2 * (total * Share(due, amount, total) - due * amount) <= total
  {
    if amount < total {
      var r := RoundHalfEven(due * amount, total);
      assert total * r == r * total;
    } else {
      assert total * due == due * amount;
    }
  }

  /** The scaled error after some payments: 2 * (total * accumulated share - due * paid). */
  function ScaledError(due: int, amounts: seq<int>, total: int): int {
    2 * (total * Accumulated(due, amounts, total) - due * Total(amounts))
  }

  lemma ScaledErrorStep(due: int, amounts: seq<int>, total: int)
    requires amounts != []
    ensures var a := amounts[|amounts| - 1];
      ScaledError(due, amounts, total)
      == ScaledError(due, amounts[..|amounts| - 1], total) + 2 * (total * Share(due, a, total) - due * a)
  {
    var init, a := amounts[..|amounts| - 1], amounts[|amounts| - 1];
    var s := Share(due, a, total);
    Distribute(total, Accumulated(due, init, total), s);
    Distribute(due, Total(init), a);
  }

  lemma Distribute(x: int, y: int, z: int)
    ensures x * (y + z) == x * y + x * z
  {
  }

  /** After any payments that do not exceed the order total, the accumulated share is within
      half a unit per payment of the exactly proportional one. */
  lemma {:induction false} AccumulatedShareError(due: int, amounts: seq<int>, total: int)
    requires forall a :: a in amounts ==> a > 0
    requires Total(amounts) <= total
    ensures -(|amounts| * total) <= ScaledError(due, amounts, total) <= |amounts| * total
  {
    if amounts != [] {
      var init, a := amounts[..|amounts| - 1], amounts[|amounts| - 1];
      assert forall x :: x in init ==> x in amounts;
      assert a in amounts;
      TotalNonNegative(init);
      AccumulatedShareError(due, init, total);
      ShareError(due, a, total);
      ScaledErrorStep(due, amounts, total);
      Successor(|init|, total);
    }
  }

  /** k partial payments that add up to the order total leave every vendor (and the commission)
      within k / 2 minor units of what is due in full. */
  lemma PartialPaymentsWithinHalfPerPayment(due: int, amounts: seq<int>, total: int)
    requires forall a :: a in amounts ==> a > 0
    requires total >= 1 && Total(amounts) == total
    ensures -|amounts| <= 2 * (Accumulated(due, amounts, total) - due) <= |amounts|
  {
    AccumulatedShareError(due, amounts, total);
    var acc := Accumulated(due, amounts, total);
    assert ScaledError(due, amounts, total) == (2 * (acc - due)) * total;
    CancelScale(2 * (acc - due), |amounts|, total);
  }

  lemma CancelScale(x: int, k: int, d: int)
    requires d > 0
    requires -(k * d) <= x * d <= k * d
    ensures -k <= x <= k
  {
    assert (k + 1) * d == k * d + d;
    assert (-k - 1) * d == -(k * d) - d;
    if x > k {
      ScaleMonotone(x, k + 1, d);
    } else if x < -k {
      ScaleMonotone(-k - 1, x, d);
    }
  }

  function Ones(n: nat): (s: seq<int>)
    ensures |s| == n && forall i :: 0 <= i < n ==> s[i] == 1
  {
    seq(n, _ => 1)
  }

  lemma {:induction false} OnesAllocateNothing(n: nat, half: nat)
    requires half >= 1
    ensures Total(Ones(n)) == n
    ensures Accumulated(half, Ones(n), 2 * half) == 0
  {
    if n > 0 {
      assert Ones(n)[..n - 1] == Ones(n - 1);
      OnesAllocateNothing(n - 1, half);
      RoundHalfEvenUnique(half, 2 * half, 0);
    }
  }

  /** The bound is the best possible: for every even k = 2 * half there are k payments, adding up
      to the total, after which the accumulated share is off by exactly k / 2. */
  lemma HalfPerPaymentIsAttained(half: nat)
    requires half >= 1
    ensures Total(Ones(2 * half)) == 2 * half
    ensures 2 * (half - Accumulated(half, Ones(2 * half), 2 * half)) == |Ones(2 * half)|
  {
    OnesAllocateNothing(2 * half, half);
  }
}
