/** The billing ledger: saturating token and call counts, per model and in
    total, and a cost that stays absent until some call reports one. */
module Usage {
  import opened Wrappers
  import opened Sequences

  const U64_MAX: int := 0xffff_ffff_ffff_ffff
  const I64_MIN: int := -0x8000_0000_0000_0000
  const I64_MAX: int := 0x7fff_ffff_ffff_ffff

  function Min(a: int, b: int): int {
    if a < b then a else b
  }

  function Max(a: int, b: int): int {
    if a < b then b else a
  }

  function SatAdd(a: nat, b: nat): nat {
    Min(a + b, U64_MAX)
  }

  function Clamp(a: int): int {
    Max(I64_MIN, Min(a, I64_MAX))
  }

  function SatAddSigned(a: int, b: int): int {
    Clamp(a + b)
  }

  // ------------------------------------------------------ totals

  datatype Totals = Totals(
    input: nat, output: nat, cachedRead: nat, reasoning: nat,
    calls: nat, duration: nat, cost: Option<int>, missing: nat)

  const ZERO: Totals := Totals(0, 0, 0, 0, 0, 0, None, 0)

  /** The saturating counters of `Totals`. */
  datatype Counter = Input | Output | CachedRead | Reasoning | Calls | Duration | Missing

  function Get(t: Totals, c: Counter): nat {
    match c
    case Input => t.input
    case Output => t.output
    case CachedRead => t.cachedRead
    case Reasoning => t.reasoning
    case Calls => t.calls
    case Duration => t.duration
    case Missing => t.missing
  }

  /** Within the widths of the fields. */
  ghost predicate Fits(t: Totals) {
    (forall c :: Get(t, c) <= U64_MAX) && (t.cost.Some? ==> I64_MIN <= t.cost.value <= I64_MAX)
  }

  datatype TokenUsage = TokenUsage(prompt: nat, completion: nat, reasoning: nat, cachedPrompt: nat)

  /** Only a positive cost is a reported one. */
  function ReportedCost(ticks: Option<int>): Option<int> {
    if ticks.Some? && ticks.value > 0 then ticks else None
  }

  function FromCall(usage: TokenUsage, duration: Option<nat>, ticks: Option<int>): Totals {
    var cost := ReportedCost(ticks);
    Totals(usage.prompt, usage.completion, usage.cachedPrompt, usage.reasoning, 1,
           if duration.Some? then duration.value else 0, cost, if cost.None? then 1 else 0)
  }

  function OrZero(cost: Option<int>): int {
    if cost.Some? then cost.value else 0
  }

  function MergeCost(a: Option<int>, b: Option<int>): Option<int> {
    if a.None? && b.None? then None else Some(SatAddSigned(OrZero(a), OrZero(b)))
  }

  function FoldTotals(a: Totals, b: Totals): Totals {
    Totals(SatAdd(a.input, b.input), SatAdd(a.output, b.output), SatAdd(a.cachedRead, b.cachedRead),
           SatAdd(a.reasoning, b.reasoning), SatAdd(a.calls, b.calls), SatAdd(a.duration, b.duration),
           MergeCost(a.cost, b.cost), SatAdd(a.missing, b.missing))
  }

  // ------------------------------------------------------ histories

  /** One fold: a model and what was folded for it. */
  datatype Fold = Fold(model: string, totals: Totals)

  /** Folding a history into zero, one after another. */
  function Folded(h: seq<Fold>): Totals {
    if h == [] then ZERO else FoldTotals(Folded(h[..|h| - 1]), h[|h| - 1].totals)
  }

  function OfModel(h: seq<Fold>, model: string): seq<Fold> {
    if h == [] then []
    else
      var last := h[|h| - 1];
      OfModel(h[..|h| - 1], model) + if last.model == model then [last] else []
  }

  /** The models in the order they first appear. */
  function FirstSeen(h: seq<Fold>): (models: seq<string>)
    ensures forall m :: m in models <==> exists f :: f in h && f.model == m
  {
    if h == [] then []
    else
      var seen, last := FirstSeen(h[..|h| - 1]), h[|h| - 1];
      if last.model in seen then seen else seen + [last.model]
  }

  /** Exact sums, without a bound. */
  function Sum(h: seq<Fold>, c: Counter): nat {
    if h == [] then 0 else Sum(h[..|h| - 1], c) + Get(h[|h| - 1].totals, c)
  }

  function CostSum(h: seq<Fold>): int {
    if h == [] then 0 else CostSum(h[..|h| - 1]) + OrZero(h[|h| - 1].totals.cost)
  }

  /** The positive costs alone, and the negative ones alone. */
  function Gains(h: seq<Fold>): nat {
    if h == [] then 0 else Gains(h[..|h| - 1]) + Max(OrZero(h[|h| - 1].totals.cost), 0)
  }

  function Refunds(h: seq<Fold>): (r: int)
    ensures r <= 0
  {
    if h == [] then 0 else Refunds(h[..|h| - 1]) + Min(OrZero(h[|h| - 1].totals.cost), 0)
  }

  /** No cost is below zero, or none is above it. */
  ghost predicate OneSided(h: seq<Fold>, negative: bool) {
    forall f :: f in h ==> if negative then OrZero(f.totals.cost) <= 0 else OrZero(f.totals.cost) >= 0
  }

  ghost predicate CostsNotNegative(h: seq<Fold>) {
    OneSided(h, false)
  }

  ghost predicate CostsNotPositive(h: seq<Fold>) {
    OneSided(h, true)
  }

  /** Neither the positive costs alone nor the negative ones alone saturate. */
  predicate InRange(h: seq<Fold>) {
    Gains(h) <= I64_MAX && Refunds(h) >= I64_MIN
  }

  /** When the order of folds cannot matter to the cost. */
  ghost predicate CostOrderFree(h: seq<Fold>) {
    CostsNotNegative(h) || CostsNotPositive(h) || InRange(h)
  }

  /** The least and the greatest cost any order can give: all refunds last, or
      all refunds first. */
  function Lowest(h: seq<Fold>): int {
    Max(Min(Gains(h), I64_MAX) + Refunds(h), I64_MIN)
  }

  function Highest(h: seq<Fold>): int {
    Min(Max(Refunds(h), I64_MIN) + Gains(h), I64_MAX)
  }

  /** No fold leaves the widths of the fields. */
  lemma {:induction false} FoldedFits(h: seq<Fold>)
    ensures Fits(Folded(h))
  {
    if h != [] {
      FoldedFits(h[..|h| - 1]);
    }
  }

  lemma FoldCounter(a: Totals, b: Totals, c: Counter)
    ensures Get(FoldTotals(a, b), c) == SatAdd(Get(a, c), Get(b, c))
  {}

  /** Saturating step by step gives the exact sum, saturated once. */
  lemma {:induction false} FoldedIsSaturatedSum(h: seq<Fold>, c: Counter)
    ensures Get(Folded(h), c) == Min(Sum(h, c), U64_MAX)
  {
    if h != [] {
      var init := h[..|h| - 1];
      FoldedIsSaturatedSum(init, c);
      FoldCounter(Folded(init), h[|h| - 1].totals, c);
    }
  }

  lemma BoundsStep(gains: nat, refunds: int, cost: int, v: int)
    requires refunds <= 0
    requires Max(Min(gains, I64_MAX) + refunds, I64_MIN) <= cost <= Min(Max(refunds, I64_MIN) + gains, I64_MAX)
    ensures var g, r := gains + Max(v, 0), refunds + Min(v, 0);
            Max(Min(g, I64_MAX) + r, I64_MIN) <= SatAddSigned(cost, v) <= Min(Max(r, I64_MIN) + g, I64_MAX)
  {}

  lemma MergedCost(a: Option<int>, b: Option<int>)
    requires I64_MIN <= OrZero(a) <= I64_MAX
    ensures OrZero(MergeCost(a, b)) == SatAddSigned(OrZero(a), OrZero(b))
  {}

  /** A cost is absent exactly when no fold reported one, and always lies between
      the least and the greatest that any order gives. */
  lemma {:induction false} FoldedCost(h: seq<Fold>)
    ensures Folded(h).cost == None <==> forall f :: f in h ==> f.totals.cost == None
    ensures Lowest(h) <= OrZero(Folded(h).cost) <= Highest(h)
  {
    if h != [] {
      var init, last := h[..|h| - 1], h[|h| - 1];
      FoldedCost(init);
      MergedCost(Folded(init).cost, last.totals.cost);
      BoundsStep(Gains(init), Refunds(init), OrZero(Folded(init).cost), OrZero(last.totals.cost));
      assert forall f :: f in h <==> f in init || f == last;
    }
  }

  lemma {:induction false} SignsBySum(h: seq<Fold>)
    ensures CostsNotNegative(h) <==> Refunds(h) == 0
    ensures CostsNotPositive(h) <==> Gains(h) == 0
    ensures CostSum(h) == Gains(h) + Refunds(h)
  {
    if h != [] {
      var init, last := h[..|h| - 1], h[|h| - 1];
      SignsBySum(init);
      assert forall f :: f in h <==> f in init || f == last;
    }
  }

  /** The least and the greatest cost coincide exactly when the order is free, and
      are then the exact sum, cut to 64 bits once. */
  lemma OneCostIff(h: seq<Fold>)
    ensures Lowest(h) == Highest(h) <==> CostOrderFree(h)
    ensures CostOrderFree(h) ==> Lowest(h) == Clamp(CostSum(h))
  {
    SignsBySum(h);
  }

  /** With a negative cost among them the order matters: after saturating, a
      refund is taken from the cap. */
  lemma CostOrderCanMatter()
    ensures var max, one, minus := Fold("m", ZERO.(cost := Some(I64_MAX))), Fold("m", ZERO.(cost := Some(1))),
                Fold("m", ZERO.(cost := Some(-1)));
            && Folded([max, one, minus]).cost == Some(I64_MAX - 1)
            && Folded([max, minus, one]).cost == Some(I64_MAX)
  {
    var max, one, minus := Fold("m", ZERO.(cost := Some(I64_MAX))), Fold("m", ZERO.(cost := Some(1))),
        Fold("m", ZERO.(cost := Some(-1)));
    FoldedStep([], max);
    FoldedStep([max], one);
    FoldedStep([max, one], minus);
    FoldedStep([max], minus);
    FoldedStep([max, minus], one);
    assert [max] + [one] == [max, one] && [max, one] + [minus] == [max, one, minus];
    assert [max] + [minus] == [max, minus] && [max, minus] + [one] == [max, minus, one];
  }

  lemma FoldedStep(h: seq<Fold>, f: Fold)
    ensures Folded(h + [f]) == FoldTotals(Folded(h), f.totals)
  {
    SnocLast(h, f);
  }

  // ------------------------------------------------------ order

  lemma {:induction false} SumOfJoin(a: seq<Fold>, b: seq<Fold>, c: Counter)
    ensures Sum(a + b, c) == Sum(a, c) + Sum(b, c) && CostSum(a + b) == CostSum(a) + CostSum(b)
    ensures Gains(a + b) == Gains(a) + Gains(b) && Refunds(a + b) == Refunds(a) + Refunds(b)
  {
    if b == [] {
      EmptyRight(a);
    } else {
      ConcatLast(a, b);
      SumOfJoin(a, b[..|b| - 1], c);
    }
  }

  /** Where `f` stands in `h`, the rest on both sides. */
  lemma SumAround(h: seq<Fold>, k: nat, c: Counter)
    requires k < |h|
    ensures Sum(h, c) == Sum(h[..k] + h[k + 1..], c) + Get(h[k].totals, c)
    ensures CostSum(h) == CostSum(h[..k] + h[k + 1..]) + OrZero(h[k].totals.cost)
    ensures Gains(h) == Gains(h[..k] + h[k + 1..]) + Max(OrZero(h[k].totals.cost), 0)
    ensures Refunds(h) == Refunds(h[..k] + h[k + 1..]) + Min(OrZero(h[k].totals.cost), 0)
    ensures multiset(h) == multiset(h[..k] + h[k + 1..]) + multiset{h[k]}
  {
    var before, after := h[..k], h[k + 1..];
    assert h == (before + [h[k]]) + after;
    SumOfJoin(before, after, c);
    SumOfJoin(before + [h[k]], after, c);
    SumOfOneMore(before, h[k], c);
    JoinKeepsFolds(before, h[k], after);
  }

  lemma JoinKeepsFolds(before: seq<Fold>, f: Fold, after: seq<Fold>)
    ensures multiset((before + [f]) + after) == multiset(before + after) + multiset{f}
  {}

  lemma SumOfOneMore(before: seq<Fold>, f: Fold, c: Counter)
    ensures Sum(before + [f], c) == Sum(before, c) + Get(f.totals, c)
    ensures CostSum(before + [f]) == CostSum(before) + OrZero(f.totals.cost)
    ensures Gains(before + [f]) == Gains(before) + Max(OrZero(f.totals.cost), 0)
    ensures Refunds(before + [f]) == Refunds(before) + Min(OrZero(f.totals.cost), 0)
  {
    SnocLast(before, f);
  }

  lemma Cancel(a: multiset<Fold>, b: multiset<Fold>, f: Fold)
    requires a + multiset{f} == b + multiset{f}
    ensures a == b
  {
    assert a == (a + multiset{f}) - multiset{f};
    assert b == (b + multiset{f}) - multiset{f};
  }

  lemma {:induction false} SumIgnoresOrder(a: seq<Fold>, b: seq<Fold>, c: Counter)
    requires multiset(a) == multiset(b)
    ensures Sum(a, c) == Sum(b, c) && CostSum(a) == CostSum(b)
    ensures Gains(a) == Gains(b) && Refunds(a) == Refunds(b)
    decreases |a|
  {
    if a == [] {
      assert multiset(b) == multiset{};
      assert b == [];
    } else {
      var last := |a| - 1;
      assert a[last] in multiset(b);
      var k :| 0 <= k < |b| && b[k] == a[last];
      SumAround(a, last, c);
      SumAround(b, k, c);
      var fewer, others := a[..last] + a[last + 1..], b[..k] + b[k + 1..];
      Cancel(multiset(fewer), multiset(others), a[last]);
      SumIgnoresOrder(fewer, others, c);
    }
  }

  lemma SameMembers(a: seq<Fold>, b: seq<Fold>)
    requires multiset(a) == multiset(b)
    ensures forall f :: f in a <==> f in b
  {
    assert forall f :: f in a <==> f in multiset(a);
    assert forall f :: f in b <==> f in multiset(b);
  }

  lemma CostAgrees(a: seq<Fold>, b: seq<Fold>)
    requires multiset(a) == multiset(b)
    ensures Folded(a).cost.None? <==> Folded(b).cost.None?
    ensures CostOrderFree(a) ==> Folded(a).cost == Folded(b).cost
  {
    SumIgnoresOrder(a, b, Input);
    SameMembers(a, b);
    FoldedCost(a);
    FoldedCost(b);
    OneCostIff(a);
  }

  /** Folding is independent of order: every counter always, the cost when the
      order is free. */
  lemma OrderDoesNotMatter(a: seq<Fold>, b: seq<Fold>)
    requires multiset(a) == multiset(b)
    ensures forall c :: Get(Folded(a), c) == Get(Folded(b), c)
    ensures Folded(a).cost.None? <==> Folded(b).cost.None?
    ensures CostOrderFree(a) ==> Folded(a).cost == Folded(b).cost
  {
    forall c
      ensures Get(Folded(a), c) == Get(Folded(b), c)
    {
      FoldedIsSaturatedSum(a, c);
      FoldedIsSaturatedSum(b, c);
      SumIgnoresOrder(a, b, c);
    }
    CostAgrees(a, b);
  }

  /** The folds with a negative cost, or all the others. */
  function Signed(h: seq<Fold>, negative: bool): seq<Fold> {
    if h == [] then []
    else
      var last := h[|h| - 1];
      Signed(h[..|h| - 1], negative) + if (OrZero(last.totals.cost) < 0) == negative then [last] else []
  }

  lemma SplitsMore(a: seq<Fold>, b: seq<Fold>, init: seq<Fold>, last: Fold, toB: bool)
    requires multiset(a) + multiset(b) == multiset(init)
    ensures multiset(a + if toB then [] else [last]) + multiset(b + if toB then [last] else []) == multiset(init + [last])
  {
    if toB {
      EmptyRight(a);
    } else {
      EmptyRight(b);
    }
  }

  lemma {:induction false} SignedSplits(h: seq<Fold>)
    ensures multiset(Signed(h, false)) + multiset(Signed(h, true)) == multiset(h)
  {
    if h != [] {
      var init, last := h[..|h| - 1], h[|h| - 1];
      SignedSplits(init);
      SplitsMore(Signed(init, false), Signed(init, true), init, last, OrZero(last.totals.cost) < 0);
      assert h == init + [last];
    }
  }

  lemma {:induction false} SignedIsSided(h: seq<Fold>, negative: bool)
    ensures OneSided(Signed(h, negative), negative)
  {
    if h != [] {
      SignedIsSided(h[..|h| - 1], negative);
      SidedGrows(Signed(h[..|h| - 1], negative), h[|h| - 1], negative);
    }
  }

  lemma SidedGrows(h: seq<Fold>, last: Fold, negative: bool)
    requires OneSided(h, negative)
    ensures (OrZero(last.totals.cost) < 0) == negative ==> OneSided(h + [last], negative)
    ensures OneSided(h + [], negative)
  {
    EmptyRight(h);
  }

  /** Folding `h` on top of a cost. */
  function CostFrom(cost: int, h: seq<Fold>): int {
    if h == [] then cost else SatAddSigned(CostFrom(cost, h[..|h| - 1]), OrZero(h[|h| - 1].totals.cost))
  }

  lemma {:induction false} CostOfJoin(a: seq<Fold>, b: seq<Fold>)
    ensures OrZero(Folded(a + b).cost) == CostFrom(OrZero(Folded(a).cost), b)
    ensures I64_MIN <= CostFrom(OrZero(Folded(a).cost), b) <= I64_MAX
  {
    if b == [] {
      EmptyRight(a);
      FoldedFits(a);
    } else {
      ConcatLast(a, b);
      CostOfJoin(a, b[..|b| - 1]);
      MergedCost(Folded(a + b[..|b| - 1]).cost, b[|b| - 1].totals.cost);
    }
  }

  lemma {:induction false} CostFromSided(cost: int, h: seq<Fold>)
    requires I64_MIN <= cost <= I64_MAX
    ensures CostsNotNegative(h) ==> CostFrom(cost, h) == Min(cost + Gains(h), I64_MAX)
    ensures CostsNotPositive(h) ==> CostFrom(cost, h) == Max(cost + Refunds(h), I64_MIN)
  {
    if h != [] {
      var init, last := h[..|h| - 1], h[|h| - 1];
      CostFromSided(cost, init);
      assert forall f :: f in h <==> f in init || f == last;
    }
  }

  lemma FoldedSided(h: seq<Fold>)
    ensures I64_MIN <= OrZero(Folded(h).cost) <= I64_MAX
    ensures CostsNotNegative(h) ==> OrZero(Folded(h).cost) == Min(Gains(h), I64_MAX)
    ensures CostsNotPositive(h) ==> OrZero(Folded(h).cost) == Max(Refunds(h), I64_MIN)
  {
    FoldedCost(h);
    SignsBySum(h);
  }

  lemma RefundsLast(gains: seq<Fold>, refunds: seq<Fold>, all: seq<Fold>)
    requires CostsNotNegative(gains) && CostsNotPositive(refunds) && all == gains + refunds
    ensures OrZero(Folded(all).cost) == Max(Min(Gains(gains), I64_MAX) + Refunds(refunds), I64_MIN)
  {
    FoldedSided(gains);
    CostOfJoin(gains, refunds);
    CostFromSided(OrZero(Folded(gains).cost), refunds);
  }

  lemma RefundsFirst(gains: seq<Fold>, refunds: seq<Fold>, all: seq<Fold>)
    requires CostsNotNegative(gains) && CostsNotPositive(refunds) && all == refunds + gains
    ensures OrZero(Folded(all).cost) == Min(Max(Refunds(refunds), I64_MIN) + Gains(gains), I64_MAX)
  {
    FoldedSided(refunds);
    CostOfJoin(refunds, gains);
    CostFromSided(OrZero(Folded(refunds).cost), gains);
  }

  /** All refunds last, and all refunds first. */
  function LeastOrder(h: seq<Fold>): seq<Fold> {
    Signed(h, false) + Signed(h, true)
  }

  function GreatestOrder(h: seq<Fold>): seq<Fold> {
    Signed(h, true) + Signed(h, false)
  }

  lemma Reordered(h: seq<Fold>)
    ensures multiset(LeastOrder(h)) == multiset(h) && multiset(GreatestOrder(h)) == multiset(h)
  {
    SignedSplits(h);
  }

  /** Each side holds all there is of its sign. */
  lemma SidesSum(h: seq<Fold>)
    ensures Gains(Signed(h, false)) == Gains(h) && Refunds(Signed(h, true)) == Refunds(h)
  {
    var gains, refunds := Signed(h, false), Signed(h, true);
    Reordered(h);
    SignedIsSided(h, false);
    SignedIsSided(h, true);
    SumOfJoin(gains, refunds, Input);
    SumIgnoresOrder(gains + refunds, h, Input);
    SignsBySum(gains);
    SignsBySum(refunds);
  }

  /** The two sides of a history. */
  ghost predicate Sides(h: seq<Fold>, gains: seq<Fold>, refunds: seq<Fold>) {
    && CostsNotNegative(gains) && CostsNotPositive(refunds)
    && Gains(gains) == Gains(h) && Refunds(refunds) == Refunds(h)
  }

  lemma SignedSides(h: seq<Fold>)
    ensures Sides(h, Signed(h, false), Signed(h, true))
  {
    SidesSum(h);
    SignedIsSided(h, false);
    SignedIsSided(h, true);
  }

  lemma LeastReached(h: seq<Fold>, gains: seq<Fold>, refunds: seq<Fold>, all: seq<Fold>)
    requires Sides(h, gains, refunds) && all == gains + refunds
    ensures OrZero(Folded(all).cost) == Lowest(h)
  {
    RefundsLast(gains, refunds, all);
  }

  lemma GreatestReached(h: seq<Fold>, gains: seq<Fold>, refunds: seq<Fold>, all: seq<Fold>)
    requires Sides(h, gains, refunds) && all == refunds + gains
    ensures OrZero(Folded(all).cost) == Highest(h)
  {
    RefundsFirst(gains, refunds, all);
  }

  /** Both bounds are reached, each by an order of the history. */
  lemma BoundsReached(h: seq<Fold>)
    ensures OrZero(Folded(LeastOrder(h)).cost) == Lowest(h) && multiset(LeastOrder(h)) == multiset(h)
    ensures OrZero(Folded(GreatestOrder(h)).cost) == Highest(h) && multiset(GreatestOrder(h)) == multiset(h)
  {
    SignedSides(h);
    LeastReached(h, Signed(h, false), Signed(h, true), LeastOrder(h));
    GreatestReached(h, Signed(h, false), Signed(h, true), GreatestOrder(h));
    Reordered(h);
  }

  /** Every reordering gives the same cost exactly when no cost is negative, none
      is positive, or neither side saturates by itself. */
  lemma CostOrderFreeIff(h: seq<Fold>)
    ensures (forall b: seq<Fold> :: multiset(b) == multiset(h) ==> Folded(b).cost == Folded(h).cost) <==> CostOrderFree(h)
  {
    if CostOrderFree(h) {
      forall b: seq<Fold> | multiset(b) == multiset(h)
        ensures Folded(b).cost == Folded(h).cost
      {
        CostAgrees(h, b);
      }
    } else {
      Reordered(h);
      BoundsReached(h);
      OneCostIff(h);
      assert Folded(LeastOrder(h)).cost != Folded(GreatestOrder(h)).cost;
    }
  }

  // ------------------------------------------------------ the ledger

  /** The first entry of a model at or after `i`. */
  function IndexFrom(entries: seq<Fold>, model: string, i: nat): (r: Option<nat>)
    requires i <= |entries|
    ensures r.Some? ==> i <= r.value < |entries| && entries[r.value].model == model
    ensures r.Some? ==> forall k :: i <= k < r.value ==> entries[k].model != model
    ensures r.None? ==> forall k :: i <= k < |entries| ==> entries[k].model != model
    decreases |entries| - i
  {
    if i == |entries| then None else if entries[i].model == model then Some(i) else IndexFrom(entries, model, i + 1)
  }

  function IndexOf(entries: seq<Fold>, model: string): (r: Option<nat>)
    ensures r.Some? ==> r.value < |entries| && entries[r.value].model == model
    ensures r.None? ==> forall k :: 0 <= k < |entries| ==> entries[k].model != model
  {
    IndexFrom(entries, model, 0)
  }

  /** Fold into the model's entry, made at the end if there is none. */
  function Upsert(entries: seq<Fold>, f: Fold): seq<Fold> {
    match IndexOf(entries, f.model)
    case Some(k) => entries[k := Fold(f.model, FoldTotals(entries[k].totals, f.totals))]
    case None => entries + [Fold(f.model, FoldTotals(ZERO, f.totals))]
  }

  function Entries(h: seq<Fold>): seq<Fold> {
    if h == [] then [] else Upsert(Entries(h[..|h| - 1]), h[|h| - 1])
  }

  function EntryOf(h: seq<Fold>, model: string): Fold {
    Fold(model, Folded(OfModel(h, model)))
  }

  lemma EntryAfter(h: seq<Fold>, f: Fold, model: string)
    ensures EntryOf(h + [f], model) ==
            if model == f.model then Fold(model, FoldTotals(EntryOf(h, model).totals, f.totals)) else EntryOf(h, model)
  {
    SnocLast(h, f);
    if model == f.model {
      FoldedStep(OfModel(h, model), f);
    } else {
      EmptyRight(OfModel(h, model));
    }
  }

  lemma {:induction false} FirstSeenOnce(h: seq<Fold>)
    ensures forall i, j :: 0 <= i < j < |FirstSeen(h)| ==> FirstSeen(h)[i] != FirstSeen(h)[j]
  {
    if h != [] {
      FirstSeenOnce(h[..|h| - 1]);
    }
  }

  lemma {:induction false} UnseenIsEmpty(h: seq<Fold>, model: string)
    requires forall f :: f in h ==> f.model != model
    ensures OfModel(h, model) == []
  {
    if h != [] {
      assert h[|h| - 1] in h;
      UnseenIsEmpty(h[..|h| - 1], model);
    }
  }

  ghost predicate EntriesAreOf(entries: seq<Fold>, h: seq<Fold>) {
    && |entries| == |FirstSeen(h)|
    && forall k :: 0 <= k < |entries| ==> entries[k] == EntryOf(h, FirstSeen(h)[k])
  }

  lemma UpsertLength(entries: seq<Fold>, h: seq<Fold>, f: Fold)
    requires EntriesAreOf(entries, h)
    ensures IndexOf(entries, f.model).Some? <==> f.model in FirstSeen(h)
    ensures FirstSeen(h + [f]) == FirstSeen(h) + if f.model in FirstSeen(h) then [] else [f.model]
    ensures |Upsert(entries, f)| == |FirstSeen(h + [f])|
  {
    SnocLast(h, f);
    assert forall k :: 0 <= k < |entries| ==> entries[k].model == FirstSeen(h)[k];
  }

  lemma FirstSeenAt(h: seq<Fold>, i: nat, j: nat)
    requires i < |FirstSeen(h)| && j < |FirstSeen(h)| && FirstSeen(h)[i] == FirstSeen(h)[j]
    ensures i == j
  {
    FirstSeenOnce(h);
  }

  lemma UpsertAt(entries: seq<Fold>, h: seq<Fold>, f: Fold, i: nat)
    requires EntriesAreOf(entries, h) && i < |FirstSeen(h + [f])|
    ensures i < |Upsert(entries, f)| && Upsert(entries, f)[i] == EntryOf(h + [f], FirstSeen(h + [f])[i])
  {
    UpsertLength(entries, h, f);
    EntryAfter(h, f, FirstSeen(h + [f])[i]);
    match IndexOf(entries, f.model) {
      case Some(k) =>
        assert entries[k].model == FirstSeen(h)[k];
        if FirstSeen(h)[i] == f.model {
          FirstSeenAt(h, i, k);
        }
      case None =>
        if i == |FirstSeen(h)| {
          UnseenIsEmpty(h, f.model);
        }
    }
  }

  lemma UpsertEntry(entries: seq<Fold>, h: seq<Fold>, f: Fold)
    requires EntriesAreOf(entries, h)
    ensures EntriesAreOf(Upsert(entries, f), h + [f])
  {
    UpsertLength(entries, h, f);
    forall i | 0 <= i < |FirstSeen(h + [f])|
      ensures EntryOf(h + [f], FirstSeen(h + [f])[i]) == Upsert(entries, f)[i]
    {
      UpsertAt(entries, h, f, i);
    }
  }

  /** `by_model` has one entry per model, in order of first appearance, each the
      fold of that model's own history. */
  lemma {:induction false} EntriesByModel(h: seq<Fold>)
    ensures EntriesAreOf(Entries(h), h)
    ensures forall i, j :: 0 <= i < j < |Entries(h)| ==> Entries(h)[i].model != Entries(h)[j].model
  {
    FirstSeenOnce(h);
    if h != [] {
      var init, f := h[..|h| - 1], h[|h| - 1];
      assert h == init + [f];
      EntriesByModel(init);
      UpsertEntry(Entries(init), init, f);
    }
  }

  lemma SumUpdate(entries: seq<Fold>, k: nat, x: Fold, c: Counter)
    requires k < |entries|
    ensures Sum(entries[k := x], c) == Sum(entries, c) - Get(entries[k].totals, c) + Get(x.totals, c)
    ensures Get(entries[k].totals, c) <= Sum(entries, c)
  {
    SumAround(entries, k, c);
    SumAround(entries[k := x], k, c);
    assert entries[k := x][..k] == entries[..k] && entries[k := x][k + 1..] == entries[k + 1..];
  }

  lemma AddSaturated(s: nat, a: nat, v: nat)
    requires a <= s
    ensures Min(s - a + SatAdd(a, v), U64_MAX) == Min(s + v, U64_MAX)
  {}

  lemma UpsertSum(entries: seq<Fold>, f: Fold, c: Counter)
    ensures Min(Sum(Upsert(entries, f), c), U64_MAX) == Min(Sum(entries, c) + Get(f.totals, c), U64_MAX)
  {
    match IndexOf(entries, f.model) {
      case Some(k) =>
        SumUpdate(entries, k, Fold(f.model, FoldTotals(entries[k].totals, f.totals)), c);
        FoldCounter(entries[k].totals, f.totals, c);
        AddSaturated(Sum(entries, c), Get(entries[k].totals, c), Get(f.totals, c));
      case None =>
        SnocLast(entries, Fold(f.model, FoldTotals(ZERO, f.totals)));
        FoldCounter(ZERO, f.totals, c);
    }
  }

  /** The entries sum to `total`, both saturated. */
  ghost predicate SumsTo(entries: seq<Fold>, c: Counter, total: nat) {
    forall e {:trigger Is(e, entries)} :: Is(e, entries) ==> Min(Sum(e, c), U64_MAX) == Min(total, U64_MAX)
  }

  lemma OpenSumsTo(entries: seq<Fold>, c: Counter, total: nat)
    ensures SumsTo(entries, c, total) <==> Min(Sum(entries, c), U64_MAX) == Min(total, U64_MAX)
  {
    assert Is(entries, entries);
  }

  lemma NextSum(entries: seq<Fold>, total: nat, f: Fold, c: Counter)
    requires SumsTo(entries, c, total)
    ensures SumsTo(Upsert(entries, f), c, total + Get(f.totals, c))
  {
    OpenSumsTo(entries, c, total);
    UpsertSum(entries, f, c);
    OpenSumsTo(Upsert(entries, f), c, total + Get(f.totals, c));
  }

  lemma {:induction false} EntriesSumTo(h: seq<Fold>, c: Counter)
    ensures SumsTo(Entries(h), c, Sum(h, c))
  {
    if h == [] {
      OpenSumsTo([], c, 0);
    } else {
      var init := h[..|h| - 1];
      EntriesSumTo(init, c);
      NextSum(Entries(init), Sum(init, c), h[|h| - 1], c);
    }
  }

  /** Summing the models' counters, saturated, is summing every fold. */
  lemma ModelsSumToTotal(h: seq<Fold>, c: Counter)
    ensures Min(Sum(Entries(h), c), U64_MAX) == Min(Sum(h, c), U64_MAX)
  {
    EntriesSumTo(h, c);
    OpenSumsTo(Entries(h), c, Sum(h, c));
  }

  // ------------------------------------------------------ costs over models

  lemma AddClamped(s: int, a: int, v: int)
    requires (0 <= a <= s && 0 <= v) || (s <= a <= 0 && v <= 0)
    ensures Clamp(s - a + SatAddSigned(a, v)) == Clamp(s + v)
  {}

  lemma {:induction false} SidedSum(h: seq<Fold>, negative: bool)
    requires OneSided(h, negative)
    ensures if negative then CostSum(h) <= 0 else CostSum(h) >= 0
  {
    SignsBySum(h);
  }

  lemma CostUpdate(entries: seq<Fold>, k: nat, x: Fold)
    requires k < |entries|
    ensures CostSum(entries[k := x]) == CostSum(entries) - OrZero(entries[k].totals.cost) + OrZero(x.totals.cost)
  {
    SumAround(entries, k, Input);
    SumAround(entries[k := x], k, Input);
    assert entries[k := x][..k] == entries[..k] && entries[k := x][k + 1..] == entries[k + 1..];
  }

  lemma SidedAt(entries: seq<Fold>, negative: bool, k: nat)
    requires k < |entries| && OneSided(entries, negative)
    ensures var a := OrZero(entries[k].totals.cost);
            if negative then CostSum(entries) <= a <= 0 else 0 <= a <= CostSum(entries)
  {
    var others := entries[..k] + entries[k + 1..];
    SumAround(entries, k, Input);
    assert entries[k] in entries;
    assert forall f :: f in others ==> f in entries;
    SidedSum(others, negative);
  }

  lemma SidedReplaced(entries: seq<Fold>, k: nat, f: Fold, negative: bool)
    requires k < |entries| && OneSided(entries, negative) && OneSided([f], negative)
    ensures var x := Fold(f.model, FoldTotals(entries[k].totals, f.totals));
            && OneSided(entries[k := x], negative)
            && Clamp(CostSum(entries[k := x])) == Clamp(CostSum(entries) + OrZero(f.totals.cost))
  {
    assert f in [f];
    SidedAt(entries, negative, k);
    CostUpdate(entries, k, Fold(f.model, FoldTotals(entries[k].totals, f.totals)));
    AddClamped(CostSum(entries), OrZero(entries[k].totals.cost), OrZero(f.totals.cost));
  }

  lemma SidedAppended(entries: seq<Fold>, f: Fold, negative: bool)
    requires OneSided(entries, negative) && OneSided([f], negative)
    ensures var x := Fold(f.model, FoldTotals(ZERO, f.totals));
            && OneSided(entries + [x], negative)
            && Clamp(CostSum(entries + [x])) == Clamp(CostSum(entries) + OrZero(f.totals.cost))
  {
    assert f in [f];
    SidedSum(entries, negative);
    SnocLast(entries, Fold(f.model, FoldTotals(ZERO, f.totals)));
    AddClamped(CostSum(entries), 0, OrZero(f.totals.cost));
  }

  lemma UpsertSided(entries: seq<Fold>, f: Fold, negative: bool)
    requires OneSided(entries, negative) && OneSided([f], negative)
    ensures OneSided(Upsert(entries, f), negative)
    ensures Clamp(CostSum(Upsert(entries, f))) == Clamp(CostSum(entries) + OrZero(f.totals.cost))
  {
    match IndexOf(entries, f.model) {
      case Some(k) => SidedReplaced(entries, k, f, negative);
      case None => SidedAppended(entries, f, negative);
    }
  }

  lemma SidedParts(entries: seq<Fold>, f: Fold, negative: bool)
    requires OneSided(entries + [f], negative)
    ensures OneSided(entries, negative) && OneSided([f], negative)
    ensures if negative then OrZero(f.totals.cost) <= 0 else OrZero(f.totals.cost) >= 0
  {
    assert f in entries + [f];
    assert forall e :: e in entries ==> e in entries + [f];
  }

  lemma NextSided(entries: seq<Fold>, total: Option<int>, f: Fold, negative: bool)
    requires OneSided(entries, negative) && OneSided([f], negative)
    requires OrZero(total) == Clamp(CostSum(entries))
    ensures OneSided(Upsert(entries, f), negative)
    ensures OrZero(MergeCost(total, f.totals.cost)) == Clamp(CostSum(Upsert(entries, f)))
  {
    assert f in [f];
    SidedSum(entries, negative);
    UpsertSided(entries, f, negative);
    MergedCost(total, f.totals.cost);
  }

  lemma {:induction false} SidedCosts(h: seq<Fold>, negative: bool)
    requires OneSided(h, negative)
    ensures OneSided(Entries(h), negative) && OrZero(Folded(h).cost) == Clamp(CostSum(Entries(h)))
  {
    if h != [] {
      var init, f := h[..|h| - 1], h[|h| - 1];
      assert h == init + [f];
      SidedParts(init, f, negative);
      SidedCosts(init, negative);
      NextSided(Entries(init), Folded(init).cost, f, negative);
    }
  }

  lemma {:induction false} OfModelWithin(h: seq<Fold>, model: string)
    ensures Gains(OfModel(h, model)) <= Gains(h) && Refunds(OfModel(h, model)) >= Refunds(h)
  {
    if h != [] {
      OfModelWithin(h[..|h| - 1], model);
      if h[|h| - 1].model == model {
        SnocLast(OfModel(h[..|h| - 1], model), h[|h| - 1]);
      } else {
        EmptyRight(OfModel(h[..|h| - 1], model));
      }
    }
  }

  lemma ExactCost(h: seq<Fold>)
    requires InRange(h)
    ensures OrZero(Folded(h).cost) == CostSum(h) && I64_MIN <= CostSum(h) <= I64_MAX
  {
    FoldedCost(h);
    OneCostIff(h);
    SignsBySum(h);
  }

  /** The entry of the model of `f` after it, when nothing saturates. */
  lemma ExactEntry(h: seq<Fold>, f: Fold)
    requires InRange(h + [f])
    ensures OrZero(FoldTotals(EntryOf(h, f.model).totals, f.totals).cost) ==
            OrZero(EntryOf(h, f.model).totals.cost) + OrZero(f.totals.cost)
  {
    var m := OfModel(h, f.model);
    SnocLast(h, f);
    SnocLast(m, f);
    OfModelWithin(h, f.model);
    OfModelWithin(h + [f], f.model);
    assert OfModel(h + [f], f.model) == m + [f];
    ExactCost(m);
    ExactCost(m + [f]);
    FoldedStep(m, f);
  }

  lemma {:induction false} ExactCosts(h: seq<Fold>)
    requires InRange(h)
    ensures CostSum(Entries(h)) == CostSum(h)
  {
    if h != [] {
      var init, f := h[..|h| - 1], h[|h| - 1];
      assert h == init + [f];
      ExactCosts(init);
      ExactEntry(init, f);
      EntriesByModel(init);
      ExactUpsert(init, f);
    }
  }

  lemma ExactUpsert(h: seq<Fold>, f: Fold)
    requires EntriesAreOf(Entries(h), h)
    requires OrZero(FoldTotals(EntryOf(h, f.model).totals, f.totals).cost) ==
             OrZero(EntryOf(h, f.model).totals.cost) + OrZero(f.totals.cost)
    ensures CostSum(Upsert(Entries(h), f)) == CostSum(Entries(h)) + OrZero(f.totals.cost)
  {
    var entries := Entries(h);
    UpsertLength(entries, h, f);
    match IndexOf(entries, f.model) {
      case Some(k) =>
        assert entries[k] == EntryOf(h, f.model);
        CostUpdate(entries, k, Fold(f.model, FoldTotals(entries[k].totals, f.totals)));
      case None =>
        UnseenIsEmpty(h, f.model);
        SnocLast(entries, Fold(f.model, FoldTotals(ZERO, f.totals)));
    }
  }

  /** Where the order is free, the total cost is the models' costs, cut to 64 bits
      once. */
  lemma CostIsSumOverModels(h: seq<Fold>)
    requires CostOrderFree(h)
    ensures OrZero(Folded(h).cost) == Clamp(CostSum(Entries(h)))
  {
    if CostsNotNegative(h) {
      SidedCosts(h, false);
    } else if CostsNotPositive(h) {
      SidedCosts(h, true);
    } else {
      ExactCosts(h);
      ExactCost(h);
    }
  }

  /** The law between the two halves of a ledger: each counter of the totals is
      the saturated sum of that counter over the models. */
  lemma TotalsAreSumOverModels(h: seq<Fold>, c: Counter)
    ensures Get(Folded(h), c) == Min(Sum(Entries(h), c), U64_MAX)
  {
    FoldedIsSaturatedSum(h, c);
    ModelsSumToTotal(h, c);
  }

  lemma {:induction false} OfModelFrom(h: seq<Fold>, model: string)
    ensures forall f :: f in OfModel(h, model) <==> f in h && f.model == model
    ensures forall f :: multiset(OfModel(h, model))[f] == if f.model == model then multiset(h)[f] else 0
  {
    if h != [] {
      var init, last := h[..|h| - 1], h[|h| - 1];
      OfModelFrom(init, model);
      assert h == init + [last];
    }
  }

  /** A model's entry has no cost exactly when no fold for it reported one, lies
      between the bounds of that model's folds, and is their exact sum, cut to 64
      bits once, where their order is free. */
  lemma EntryCost(h: seq<Fold>, model: string)
    ensures var m, cost := OfModel(h, model), EntryOf(h, model).totals.cost;
            && (cost == None <==> forall f :: f in h && f.model == model ==> f.totals.cost == None)
            && Lowest(m) <= OrZero(cost) <= Highest(m)
            && (CostOrderFree(m) ==> OrZero(cost) == Clamp(CostSum(m)))
  {
    OfModelFrom(h, model);
    FoldedCost(OfModel(h, model));
    OneCostIff(OfModel(h, model));
  }

  lemma OfModelIgnoresOrder(a: seq<Fold>, b: seq<Fold>, model: string)
    requires multiset(a) == multiset(b)
    ensures multiset(OfModel(a, model)) == multiset(OfModel(b, model))
  {
    OfModelFrom(a, model);
    OfModelFrom(b, model);
  }

  /** Whatever order folds arrive in, the same models have entries, and every
      model's entry agrees on the counters, and on the cost when the order of that
      model's folds is free. */
  lemma HistoriesAgree(a: seq<Fold>, b: seq<Fold>, model: string)
    requires multiset(a) == multiset(b)
    ensures model in FirstSeen(a) <==> model in FirstSeen(b)
    ensures forall c :: Get(EntryOf(a, model).totals, c) == Get(EntryOf(b, model).totals, c)
    ensures CostOrderFree(OfModel(a, model)) ==> EntryOf(a, model).totals.cost == EntryOf(b, model).totals.cost
  {
    SameMembers(a, b);
    OfModelIgnoresOrder(a, b, model);
    OrderDoesNotMatter(OfModel(a, model), OfModel(b, model));
  }

  function OfOthers(h: seq<Fold>, model: string): seq<Fold> {
    if h == [] then []
    else
      var last := h[|h| - 1];
      OfOthers(h[..|h| - 1], model) + if last.model == model then [] else [last]
  }

  lemma {:induction false} OthersSplit(h: seq<Fold>, model: string)
    ensures multiset(OfModel(h, model)) + multiset(OfOthers(h, model)) == multiset(h)
    ensures forall f :: f in OfOthers(h, model) ==> f.model != model
  {
    if h != [] {
      var init, last := h[..|h| - 1], h[|h| - 1];
      OthersSplit(init, model);
      assert h == init + [last];
    }
  }

  lemma {:induction false} OfModelOwn(own: seq<Fold>, model: string)
    requires forall f :: f in own ==> f.model == model
    ensures OfModel(own, model) == own
  {
    if own != [] {
      var init, last := own[..|own| - 1], own[|own| - 1];
      assert own == init + [last];
      assert last in own && forall f :: f in init ==> f in own;
      OfModelOwn(init, model);
    }
  }

  lemma {:induction false} OfModelJoin(own: seq<Fold>, others: seq<Fold>, model: string)
    requires forall f :: f in others ==> f.model != model
    ensures OfModel(own + others, model) == OfModel(own, model)
  {
    if others == [] {
      EmptyRight(own);
    } else {
      var init, last := others[..|others| - 1], others[|others| - 1];
      assert last in others && forall f :: f in init ==> f in others;
      OfModelJoin(own, init, model);
      ConcatLast(own, others);
      EmptyRight(OfModel(own, model));
    }
  }

  lemma OwnOrder(h: seq<Fold>, model: string, own: seq<Fold>)
    requires multiset(own) == multiset(OfModel(h, model))
    ensures multiset(own + OfOthers(h, model)) == multiset(h)
    ensures EntryOf(own + OfOthers(h, model), model) == Fold(model, Folded(own))
  {
    OthersSplit(h, model);
    OfModelFrom(h, model);
    SameMembers(own, OfModel(h, model));
    OfModelOwn(own, model);
    OfModelJoin(own, OfOthers(h, model), model);
  }

  /** Every reordering of a history gives a model's entry the same cost exactly
      when the order of that model's folds is free. */
  lemma EntryOrderFreeIff(h: seq<Fold>, model: string)
    ensures (forall b: seq<Fold> :: multiset(b) == multiset(h) ==>
               EntryOf(b, model).totals.cost == EntryOf(h, model).totals.cost)
            <==> CostOrderFree(OfModel(h, model))
  {
    var m := OfModel(h, model);
    CostOrderFreeIff(m);
    if CostOrderFree(m) {
      forall b: seq<Fold> | multiset(b) == multiset(h)
        ensures EntryOf(b, model).totals.cost == EntryOf(h, model).totals.cost
      {
        HistoriesAgree(h, b, model);
      }
    } else {
      var own: seq<Fold> :| multiset(own) == multiset(m) && Folded(own).cost != Folded(m).cost;
      OwnOrder(h, model, own);
      assert EntryOf(own + OfOthers(h, model), model).totals.cost != EntryOf(h, model).totals.cost;
    }
  }

  lemma FoundAt(entries: seq<Fold>, model: string, k: nat)
    requires k <= |entries| && forall i :: 0 <= i < k ==> entries[i].model != model
    requires k < |entries| ==> entries[k].model == model
    ensures IndexOf(entries, model) == if k < |entries| then Some(k) else None
  {}

  class UsageLedger {
    var totals: Totals
    var byModel: seq<Fold>
    var mainLoopCalls: nat
    var incomplete: bool
    ghost var history: seq<Fold>
    ghost var mainCalls: nat

    constructor ()
      ensures Valid() && history == [] && mainCalls == 0 && !incomplete
    {
      totals, byModel, mainLoopCalls, incomplete := ZERO, [], 0, false;
      history, mainCalls := [], 0;
    }

    /** The ledger says exactly what its history says. */
    ghost predicate Valid()
      reads this
    {
      && totals == Folded(history)
      && byModel == Entries(history)
      && mainLoopCalls == Min(mainCalls, U64_MAX)
      && mainCalls <= Sum(history, Calls)
    }

    method FoldEntry(model: string, t: Totals)
      requires totals == Folded(history) && byModel == Entries(history)
      modifies this`totals, this`byModel, this`history
      ensures history == old(history) + [Fold(model, t)]
      ensures totals == Folded(history) && byModel == Entries(history)
    {
      SnocLast(history, Fold(model, t));
      totals := FoldTotals(totals, t);
      history := history + [Fold(model, t)];
      var k := FindEntry(model);
      if k == |byModel| {
        byModel := byModel + [Fold(model, FoldTotals(ZERO, t))];
      } else {
        byModel := byModel[k := Fold(model, FoldTotals(byModel[k].totals, t))];
      }
    }

    /** Index of the model's entry, or one past the last when it has none. */
    method FindEntry(model: string) returns (k: nat)
      ensures k <= |byModel|
      ensures IndexOf(byModel, model) == if k < |byModel| then Some(k) else None
    {
      k := 0;
      while k < |byModel| && byModel[k].model != model
        invariant k <= |byModel|
        invariant forall i :: 0 <= i < k ==> byModel[i].model != model
      {
        k := k + 1;
      }
      FoundAt(byModel, model, k);
    }

    method RecordMainLoopCall(model: string, usage: TokenUsage, duration: Option<nat>, ticks: Option<int>)
      requires Valid()
      modifies this
      ensures Valid() && incomplete == old(incomplete)
      ensures history == old(history) + [Fold(model, FromCall(usage, duration, ticks))]
      ensures mainCalls == old(mainCalls) + 1
    {
      var call := FromCall(usage, duration, ticks);
      SumOfOneMore(history, Fold(model, call), Calls);
      mainLoopCalls := SatAdd(mainLoopCalls, 1);
      mainCalls := mainCalls + 1;
      FoldEntry(model, call);
    }

    method RecordSubagent(entries: seq<Fold>, partial: bool)
      requires Valid()
      modifies this
      ensures Valid() && incomplete == (old(incomplete) || partial)
      ensures history == old(history) + entries
      ensures mainCalls == old(mainCalls)
    {
      EmptyRight(history);
      for n := 0 to |entries|
        invariant Valid() && incomplete == old(incomplete)
        invariant history == old(history) + entries[..n]
        invariant mainCalls == old(mainCalls)
      {
        Grow(entries, n);
        Assoc(old(history), entries[..n], [entries[n]]);
        SumOfJoin(history, [entries[n]], Calls);
        FoldEntry(entries[n].model, entries[n].totals);
      }
      assert entries[..|entries|] == entries;
      if partial {
        incomplete := true;
      }
    }

    method MarkIncomplete()
      requires Valid()
      modifies this`incomplete
      ensures Valid() && incomplete
    {
      incomplete := true;
    }
  }

  /** In every ledger that is reached, each counter of the totals is the
      saturated sum of the models', and the main loop's calls are among all. */
  lemma LedgerLaws(ledger: UsageLedger, c: Counter)
    requires ledger.Valid()
    ensures Get(ledger.totals, c) == Min(Sum(ledger.byModel, c), U64_MAX)
    ensures ledger.mainLoopCalls <= ledger.totals.calls
    ensures Fits(ledger.totals)
  {
    TotalsAreSumOverModels(ledger.history, c);
    FoldedIsSaturatedSum(ledger.history, Calls);
    FoldedFits(ledger.history);
  }

  // ------------------------------------------------------ nested ledgers

  /** No cost that a ledger can come to hold is zero or negative. */
  ghost predicate Billed(h: seq<Fold>) {
    forall f :: f in h ==> f.totals.cost.Some? ==> f.totals.cost.value > 0
  }

  lemma {:induction false} FoldedIsBilled(h: seq<Fold>)
    requires Billed(h)
    ensures Folded(h).cost.Some? ==> Folded(h).cost.value > 0
  {
    if h != [] {
      FoldedIsBilled(h[..|h| - 1]);
    }
  }

  lemma EntriesBilled(h: seq<Fold>)
    requires Billed(h)
    ensures Billed(Entries(h))
  {
    EntriesByModel(h);
    forall e | e in Entries(h)
      ensures e.totals.cost.Some? ==> e.totals.cost.value > 0
    {
      assert e == EntryOf(h, e.model);
      OfModelFrom(h, e.model);
      FoldedIsBilled(OfModel(h, e.model));
    }
  }

  /** Where a ledger's folds come from: its own calls, and ledgers nested in it. */
  datatype Source =
    | Call(model: string, usage: TokenUsage, duration: Option<nat>, ticks: Option<int>)
    | Nested(sources: seq<Source>)

  /** The folds that the sources make, one after another. */
  function History(sources: seq<Source>): seq<Fold>
    decreases sources, 1
  {
    if sources == [] then [] else History(sources[..|sources| - 1]) + FoldsOf(sources[|sources| - 1])
  }

  function FoldsOf(source: Source): seq<Fold>
    decreases source, 0
  {
    match source
    case Call(model, usage, duration, ticks) => [Fold(model, FromCall(usage, duration, ticks))]
    case Nested(sources) => Entries(History(sources))
  }

  /** However ledgers are nested, the history of one fed by recorded calls and by
      such ledgers holds no cost at or below zero, and a call leaves one exactly
      when it reports a positive cost: there, the order of folds is free. */
  lemma {:induction false} NestedIsBilled(sources: seq<Source>)
    ensures Billed(History(sources)) && CostOrderFree(History(sources))
    decreases sources, 1
  {
    if sources != [] {
      NestedIsBilled(sources[..|sources| - 1]);
      FoldsBilled(sources[|sources| - 1]);
    }
  }

  lemma {:induction false} FoldsBilled(source: Source)
    ensures Billed(FoldsOf(source))
    ensures source.Call? ==> (FoldsOf(source)[0].totals.cost.Some? <==> source.ticks.Some? && source.ticks.value > 0)
    decreases source, 0
  {
    match source {
      case Call(_, _, _, _) =>
      case Nested(sources) =>
        NestedIsBilled(sources);
        EntriesBilled(History(sources));
    }
  }

  // ------------------------------------------------------ what was used

  /** What one call adds to a counter, in terms of what it reported. */
  function Reported(source: Source, c: Counter): nat
    requires source.Call?
  {
    match c
    case Input => source.usage.prompt
    case Output => source.usage.completion
    case CachedRead => source.usage.cachedPrompt
    case Reasoning => source.usage.reasoning
    case Calls => 1
    case Duration => if source.duration.Some? then source.duration.value else 0
    case Missing => if source.ticks.Some? && source.ticks.value > 0 then 0 else 1
  }

  /** The sum over all calls, those of nested ledgers included. */
  function UsedBy(sources: seq<Source>, c: Counter): nat
    decreases sources, 1
  {
    if sources == [] then 0 else UsedBy(sources[..|sources| - 1], c) + UsedIn(sources[|sources| - 1], c)
  }

  function UsedIn(source: Source, c: Counter): nat
    decreases source, 0
  {
    match source
    case Call(_, _, _, _) => Reported(source, c)
    case Nested(sources) => UsedBy(sources, c)
  }

  lemma SumOfOne(f: Fold, c: Counter)
    ensures Sum([f], c) == Get(f.totals, c) && CostSum([f]) == OrZero(f.totals.cost)
  {
    assert [f][..0] == [];
  }

  lemma {:induction false} SourceSum(source: Source, c: Counter)
    ensures Min(Sum(FoldsOf(source), c), U64_MAX) == Min(UsedIn(source, c), U64_MAX)
    decreases source, 0
  {
    match source {
      case Call(model, usage, duration, ticks) =>
        SumOfOne(Fold(model, FromCall(usage, duration, ticks)), c);
      case Nested(sources) =>
        TotalsAreSumOverModels(History(sources), c);
        HistorySum(sources, c);
        FoldedIsSaturatedSum(History(sources), c);
    }
  }

  lemma {:induction false} HistorySum(sources: seq<Source>, c: Counter)
    ensures Min(Sum(History(sources), c), U64_MAX) == Min(UsedBy(sources, c), U64_MAX)
    decreases sources, 1
  {
    if sources != [] {
      var init, last := sources[..|sources| - 1], sources[|sources| - 1];
      HistorySum(init, c);
      SourceSum(last, c);
      SumOfJoin(History(init), FoldsOf(last), c);
    }
  }

  /** A ledger's counters: each is the sum of what its calls reported, and the calls
      of the ledgers nested in it, saturated once. */
  lemma LedgerCountsCalls(sources: seq<Source>, c: Counter)
    ensures Get(Folded(History(sources)), c) == Min(UsedBy(sources, c), U64_MAX)
  {
    FoldedIsSaturatedSum(History(sources), c);
    HistorySum(sources, c);
  }

  /** The sum of the positive costs that the calls reported. */
  function CostBy(sources: seq<Source>): nat
    decreases sources, 1
  {
    if sources == [] then 0 else CostBy(sources[..|sources| - 1]) + CostIn(sources[|sources| - 1])
  }

  function CostIn(source: Source): nat
    decreases source, 0
  {
    match source
    case Call(_, _, _, ticks) => if ticks.Some? && ticks.value > 0 then ticks.value else 0
    case Nested(sources) => CostBy(sources)
  }

  lemma {:induction false} BilledSum(h: seq<Fold>)
    requires Billed(h)
    ensures CostSum(h) >= 0
  {
    if h != [] {
      assert h[|h| - 1] in h;
      BilledSum(h[..|h| - 1]);
    }
  }

  lemma {:induction false} SourceCost(source: Source)
    ensures CostSum(FoldsOf(source)) >= 0 && Min(CostSum(FoldsOf(source)), I64_MAX) == Min(CostIn(source), I64_MAX)
    decreases source, 0
  {
    FoldsBilled(source);
    BilledSum(FoldsOf(source));
    match source {
      case Call(model, usage, duration, ticks) =>
        SumOfOne(Fold(model, FromCall(usage, duration, ticks)), Calls);
      case Nested(sources) =>
        NestedIsBilled(sources);
        HistoryCost(sources);
        CostIsSumOverModels(History(sources));
        FoldedCost(History(sources));
        OneCostIff(History(sources));
    }
  }

  lemma {:induction false} HistoryCost(sources: seq<Source>)
    ensures CostSum(History(sources)) >= 0
    ensures Min(CostSum(History(sources)), I64_MAX) == Min(CostBy(sources), I64_MAX)
    decreases sources, 1
  {
    if sources != [] {
      var init, last := sources[..|sources| - 1], sources[|sources| - 1];
      HistoryCost(init);
      SourceCost(last);
      SumOfJoin(History(init), FoldsOf(last), Calls);
    }
  }

  /** And its cost is the sum of the positive costs reported, saturated once. */
  lemma LedgerCostsCalls(sources: seq<Source>)
    ensures OrZero(Folded(History(sources)).cost) == Min(CostBy(sources), I64_MAX)
  {
    NestedIsBilled(sources);
    HistoryCost(sources);
    FoldedCost(History(sources));
    OneCostIff(History(sources));
  }
}
