/** The allocation waterfall of the repayment ledger (_take and the fold of apply_events in
    services/api/src/creditops/domain/repayments.py), over the demands in their order: the fee, the
    interest and the principal of each installment, oldest installment first. */
module Waterfall {
  import opened Money

  /** The cash that a demand absorbs from what remains. */
  function Take(remaining: real, demand: real): real {
    if remaining <= 0.0 || demand <= 0.0 then 0.0 else Quantized(if remaining <= demand then remaining else demand)
  }

  /** How a demand takes cash from what remains: Take, unless said otherwise. */
  type Rule = (real, real) -> real

  /** What remains of the net cash after the first k demands. */
  function Left(take: Rule, net: real, demands: seq<real>, k: nat): real
    requires k <= |demands|
    decreases k, 0
  {
    if k == 0 then net else Left(take, net, demands, k - 1) - Absorbed(take, net, demands, k - 1)
  }

  /** What demand k absorbs. */
  function Absorbed(take: Rule, net: real, demands: seq<real>, k: nat): real
    requires k < |demands|
    decreases k, 1
  {
    take(Left(take, net, demands, k), demands[k])
  }

  function Positive(demand: real): real { if demand > 0.0 then demand else 0.0 }

  /** All that the first k demands ask for; a negative demand counts as none. */
  function Owed(demands: seq<real>, k: nat): real
    requires k <= |demands|
  {
    if k == 0 then 0.0 else Owed(demands, k - 1) + Positive(demands[k - 1])
  }

  ghost predicate AllWhole(demands: seq<real>) { forall k :: 0 <= k < |demands| ==> Whole(demands[k]) }

  /** The net cash that is allocated in the end: all of it, rounded to whole cents, up to what is owed. */
  function Covered(net: real, owed: real): real {
    if net <= 0.0 then 0.0 else if net >= owed then owed else Quantized(net)
  }

  lemma {:induction false} OwedIsWhole(demands: seq<real>, k: nat)
    requires AllWhole(demands) && k <= |demands|
    ensures Whole(Owed(demands, k)) && Owed(demands, k) >= 0.0
  {
    CentsAreWhole(0);
    if k > 0 {
      OwedIsWhole(demands, k - 1);
      WholeSum(Owed(demands, k - 1), Positive(demands[k - 1]));
    }
  }

  /** One more demand: the closed form goes on. */
  lemma CoveredStep(net: real, owed: real, demand: real)
    requires Whole(owed) && Whole(demand) && owed >= 0.0
    ensures Take(net - Covered(net, owed), demand) == Covered(net, owed + Positive(demand)) - Covered(net, owed)
  {
    QuantizedIsNearest(net);
    if net > 0.0 && demand > 0.0 {
      if net >= owed {
        QuantizedIsNearest(demand);
        QuantizedShifts(net, owed);
        QuantizedIsNearest(owed);
      } else {
        LessThanHalf(net - Quantized(net), demand);
      }
    }
  }

  /** Once the cash has run out, what is left is less than half a cent, and nothing takes it. */
  lemma LessThanHalf(left: real, demand: real)
    requires left < 0.005 && Whole(demand) && demand > 0.0
    ensures Take(left, demand) == 0.0
  {
    var n := WholeCents(demand);
    assert n >= 1;
    if left > 0.0 { assert HalfUp(left * 100.0) == 0; }
  }

  /** The closed form of the waterfall, for demands in whole cents and any net cash. */
  lemma {:induction false} LeftIs(net: real, demands: seq<real>, k: nat)
    requires AllWhole(demands) && k <= |demands|
    ensures Left(Take, net, demands, k) == net - Covered(net, Owed(demands, k))
  {
    if k > 0 {
      LeftIs(net, demands, k - 1);
      OwedIsWhole(demands, k - 1);
      CoveredStep(net, Owed(demands, k - 1), demands[k - 1]);
    } else {
      QuantizedIsNearest(net);
    }
  }

  lemma {:induction false} OwedGrows(demands: seq<real>, j: nat, k: nat)
    requires j <= k <= |demands|
    ensures Owed(demands, j) <= Owed(demands, k)
  {
    if j < k { OwedGrows(demands, j, k - 1); }
  }

  lemma OwedByThree(demands: seq<real>, k: nat)
    requires k + 3 <= |demands|
    ensures Owed(demands, k + 3)
            == Owed(demands, k) + Positive(demands[k]) + Positive(demands[k + 1]) + Positive(demands[k + 2])
  {
    assert Owed(demands, k + 1) == Owed(demands, k) + Positive(demands[k]);
    assert Owed(demands, k + 2) == Owed(demands, k + 1) + Positive(demands[k + 1]);
  }

  /** Each demand absorbs between nothing and all of it. */
  lemma AbsorbedWithin(net: real, demands: seq<real>, k: nat)
    requires AllWhole(demands) && k < |demands|
    ensures 0.0 <= Absorbed(Take, net, demands, k) <= Positive(demands[k])
  {
    TakeWithin(Left(Take, net, demands, k), demands[k]);
  }

  lemma TakeWithin(remaining: real, demand: real)
    requires Whole(demand)
    ensures 0.0 <= Take(remaining, demand) <= Positive(demand)
  {
    if remaining > 0.0 && demand > 0.0 {
      QuantizedIsNearest(if remaining <= demand then remaining else demand);
      QuantizedBelow(if remaining <= demand then remaining else demand, demand);
    }
  }

  /** Oldest first: no demand absorbs anything before all earlier ones are met in full. */
  lemma OldestFirst(net: real, demands: seq<real>, i: nat, j: nat)
    requires AllWhole(demands) && i < j < |demands| && Absorbed(Take, net, demands, j) > 0.0
    ensures Absorbed(Take, net, demands, i) == Positive(demands[i])
  {
    LeftIs(net, demands, j);
    QuantizedIsNearest(net);
    if net < Owed(demands, j) { LessThanHalf(Left(Take, net, demands, j), demands[j]); }
    OwedGrows(demands, i + 1, j);
    OwedIsWhole(demands, i);
    LeftIs(net, demands, i);
    EnoughForAll(net, Owed(demands, i), demands[i]);
  }

  lemma EnoughForAll(net: real, owed: real, demand: real)
    requires Whole(demand) && owed >= 0.0 && net >= owed + Positive(demand)
    ensures Take(net - Covered(net, owed), demand) == Positive(demand)
  {
    if demand > 0.0 { QuantizedIsNearest(demand); }
  }

  /** Every demand is met in full. */
  ghost predicate AllMet(net: real, demands: seq<real>) {
    forall j :: 0 <= j < |demands| ==> Absorbed(Take, net, demands, j) == Positive(demands[j])
  }

  lemma {:induction false} LeftOfMet(net: real, demands: seq<real>, k: nat)
    requires AllMet(net, demands) && k <= |demands|
    ensures Left(Take, net, demands, k) == net - Owed(demands, k)
  {
    if k > 0 { LeftOfMet(net, demands, k - 1); }
  }

  /** Cash that covers what is owed covers every part of it. */
  lemma PartsCovered(net: real, owed: real, part: real)
    requires net >= 0.0 && Covered(net, owed) == owed && 0.0 <= part <= owed && Whole(part)
    ensures Covered(net, part) == part
  {
    if 0.0 < net < part { QuantizedBelow(net, part); }
  }

  /** Every demand is met in full exactly if the allocated cash is all that is owed. */
  lemma AllMetIff(net: real, demands: seq<real>)
    requires AllWhole(demands) && net >= 0.0
    ensures AllMet(net, demands) <==> Covered(net, Owed(demands, |demands|)) == Owed(demands, |demands|)
  {
    var n := |demands|;
    LeftIs(net, demands, n);
    if AllMet(net, demands) { LeftOfMet(net, demands, n); }
    if Covered(net, Owed(demands, n)) == Owed(demands, n) {
      forall j | 0 <= j < n ensures Absorbed(Take, net, demands, j) == Positive(demands[j]) {
        MetAt(net, demands, j);
      }
    }
  }

  lemma MetAt(net: real, demands: seq<real>, j: nat)
    requires AllWhole(demands) && net >= 0.0 && j < |demands|
    requires Covered(net, Owed(demands, |demands|)) == Owed(demands, |demands|)
    ensures Absorbed(Take, net, demands, j) == Positive(demands[j])
  {
    var n := |demands|;
    OwedIsWhole(demands, j);
    OwedIsWhole(demands, j + 1);
    OwedGrows(demands, j, n);
    OwedGrows(demands, j + 1, n);
    PartsCovered(net, Owed(demands, n), Owed(demands, j));
    PartsCovered(net, Owed(demands, n), Owed(demands, j + 1));
    LeftIs(net, demands, j);
    LeftIs(net, demands, j + 1);
  }
}
