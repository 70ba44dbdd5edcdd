/** The reward generator: a weighted draw over the four reward categories,
    the category-to-points table, and the construction of a new coupon.
    The random sample and the clock are parameters. */
module GameLogic {
  import opened Types

  /** The weight table, in the order the draw walks it. */
  const RewardWeights: seq<(RewardType, nat)> :=
    [(BetterLuck, 50), (Points10, 30), (Points50, 15), (Points100, 5)]

  /** Left-to-right sum of the weights of a table. */
  function WeightSum(ws: seq<(RewardType, nat)>): nat
  {
    if ws == [] then 0 else WeightSum(ws[..|ws| - 1]) + ws[|ws| - 1].1
  }

  /** The total weight: the scale of the sample. */
  function TotalWeight(): (total: nat)
    ensures total == 100
  {
    CumulativeValues();
    assert RewardWeights[..4] == RewardWeights;
    WeightSum(RewardWeights)
  }

  /** The sum of the first `k` weights of the table. */
  function Cumulative(k: nat): nat
    requires k <= |RewardWeights|
  {
    WeightSum(RewardWeights[..k])
  }

  lemma CumulativeValues()
    ensures Cumulative(0) == 0 && Cumulative(1) == 50 && Cumulative(2) == 80
    ensures Cumulative(3) == 95 && Cumulative(4) == 100
  {
    assert RewardWeights[..4] == RewardWeights;
    assert RewardWeights[..4][..3] == RewardWeights[..3];
    assert RewardWeights[..3][..2] == RewardWeights[..2];
    assert RewardWeights[..2][..1] == RewardWeights[..1];
    assert RewardWeights[..1][..0] == RewardWeights[..0] == [];
  }

  /** The position of a category in the weight table. */
  function Index(t: RewardType): (i: nat)
    ensures i < |RewardWeights| && RewardWeights[i].0 == t
  {
    match t
    case BetterLuck => 0
    case Points10 => 1
    case Points50 => 2
    case Points100 => 3
  }

  /** The weight of a category. */
  function Weight(t: RewardType): nat
  {
    RewardWeights[Index(t)].1
  }

  /** Reference definition of the draw for a sample `r` already scaled to
      the total weight: samples up to 50 give better_luck, up to 80
      points_10, up to 95 points_50, up to 100 points_100; a boundary goes to
      the earlier category. Anything above 100 falls through the table to
      better_luck. */
  function DrawCategory(r: real): RewardType
  {
    if r <= 50.0 then BetterLuck
    else if r <= 80.0 then Points10
    else if r <= 95.0 then Points50
    else if r <= 100.0 then Points100
    else BetterLuck
  }

  /** The category at table position `i` is drawn by every sample in the
      half-open interval (Cumulative(i), Cumulative(i + 1)]. */
  lemma DrawCategoryAt(r: real, i: nat)
    requires i < |RewardWeights|
    requires i == 0 || Cumulative(i) as real < r
    requires r <= Cumulative(i + 1) as real
    ensures DrawCategory(r) == RewardWeights[i].0
  {
    CumulativeValues();
  }

  /** `getRandomRewardType`: `u` stands for `Math.random()`. The loop
      subtracts each weight in table order and stops at the first category
      where the remainder is at most zero; `fellThrough` records that the
      final `return 'better_luck'` was reached instead. */
  method GetRandomRewardType(u: real) returns (t: RewardType, ghost fellThrough: bool)
    ensures t == DrawCategory(u * TotalWeight() as real)
    ensures fellThrough <==> u * TotalWeight() as real > TotalWeight() as real
    ensures 0.0 <= u < 1.0 ==> !fellThrough
  {
    var random := u * TotalWeight() as real;
    ghost var r := random;
    CumulativeValues();
    for i := 0 to |RewardWeights|
      invariant random == r - Cumulative(i) as real
      invariant i > 0 ==> random > 0.0
    {
      var (rewardType, weight) := RewardWeights[i];
      assert RewardWeights[..i + 1][..i] == RewardWeights[..i];
      random := random - weight as real;
      if random <= 0.0 {
        DrawCategoryAt(r, i);
        return rewardType, false;
      }
    }
    return BetterLuck, true;
  }

  /** The interval of scaled samples that selects `t` lies between the
      cumulative weights before and after `t`'s entry; only better_luck, the
      first entry, also takes its lower end (the sample 0). */
  lemma DrawInterval(r: real, t: RewardType)
    requires 0.0 <= r < TotalWeight() as real
    ensures DrawCategory(r) == t <==>
              (Index(t) == 0 || Cumulative(Index(t)) as real < r) && r <= Cumulative(Index(t) + 1) as real
  {
    CumulativeValues();
  }

  /** Each category's interval is exactly as long as its weight. */
  lemma IntervalLength(t: RewardType)
    ensures Cumulative(Index(t) + 1) - Cumulative(Index(t)) == Weight(t)
    ensures Cumulative(|RewardWeights|) == TotalWeight()
  {
    CumulativeValues();
  }

  /** A larger sample never selects an earlier category. */
  lemma DrawMonotone(r1: real, r2: real)
    requires r1 <= r2 <= TotalWeight() as real
    ensures Index(DrawCategory(r1)) <= Index(DrawCategory(r2))
  {
  }

  /** `getPointsValue`. */
  function PointsValue(t: RewardType): (p: int)
    ensures p == 0 <==> t == BetterLuck
    ensures p in {0, 10, 50, 100}
  {
    match t
    case Points10 => 10
    case Points50 => 50
    case Points100 => 100
    case _ => 0
  }

  /** Distinct categories are worth distinct points, and a category drawn
      with a larger weight is worth fewer points. */
  lemma PointsOrder(a: RewardType, b: RewardType)
    ensures PointsValue(a) == PointsValue(b) <==> a == b
    ensures Weight(a) > Weight(b) <==> PointsValue(a) < PointsValue(b)
  {
  }

  predicate IsDigits(s: string)
  {
    forall i :: 0 <= i < |s| ==> '0' <= s[i] <= '9'
  }

  /** Decimal rendering of a natural number, as a template literal does. */
  function NatToString(n: nat): (s: string)
    ensures |s| >= 1 && IsDigits(s)
    ensures |s| > 1 ==> s[0] != '0'
  {
    if n < 10 then ["0123456789"[n]]
    else NatToString(n / 10) + ["0123456789"[n % 10]]
  }

  /** The value of a string of decimal digits. */
  function ParseNat(s: string): nat
    requires IsDigits(s)
  {
    if s == [] then 0
    else ParseNat(s[..|s| - 1]) * 10 + (s[|s| - 1] - '0') as nat
  }

  lemma {:induction false} ParseNatToString(n: nat)
    ensures ParseNat(NatToString(n)) == n
  {
    var s := NatToString(n);
    if n >= 10 {
      ParseNatToString(n / 10);
      assert s[..|s| - 1] == NatToString(n / 10);
    }
  }

  /** The id `coupon-<now>` of a coupon created at millisecond `now`. */
  function CouponId(now: nat): string
  {
    "coupon-" + NatToString(now)
  }

  /** Two coupons get the same id exactly when they are created in the same
      millisecond, so ids are not unique within one millisecond. */
  lemma CouponIdCollision(a: nat, b: nat)
    ensures CouponId(a) == CouponId(b) <==> a == b
  {
    if CouponId(a) == CouponId(b) {
      assert NatToString(a) == CouponId(a)[7..] == CouponId(b)[7..] == NatToString(b);
      ParseNatToString(a);
      ParseNatToString(b);
    }
  }

  /** A coupon as `generateCoupon` builds it: its points match its category
      and it is not revealed. */
  predicate WellFormed(c: Coupon)
  {
    c.pointsValue == PointsValue(c.rewardType) && !c.isRevealed
  }

  /** `generateCoupon`: `now` stands for `Date.now()`, `u` for
      `Math.random()`. */
  method GenerateCoupon(now: nat, u: real) returns (c: Coupon)
    ensures c.id == CouponId(now)
    ensures c.rewardType == DrawCategory(u * TotalWeight() as real)
    ensures c.pointsValue == PointsValue(c.rewardType) && !c.isRevealed
    ensures WellFormed(c)
  {
    var rewardType, _ := GetRandomRewardType(u);
    c := Coupon(CouponId(now), rewardType, PointsValue(rewardType), false);
  }
}
