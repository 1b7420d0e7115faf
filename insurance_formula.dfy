/** The pricing and risk engine of the price-insurance product
    (class InsuranceFormula, src/InsuranceFormula.ts). The class only holds
    configuration copied in by its constructor, so it is modelled as an
    immutable `Config` value passed to pure functions. Decimal arithmetic is
    exact `real` arithmetic. */
module InsuranceFormula {
  import opened Constants
  import opened Sequences

  datatype Option<T> = None | Some(value: T)

  /** The fields of an engine instance: risk ceiling, refund ratio, smallest
      insurable claim-price gap and the base claim factor. */
  datatype Config = Config(
    riskConfig: real,
    refundRatio: real,
    ratioDifferentPriceClaim: real,
    constantClaim: real)

  /** The configuration the constructor sets up. */
  const Initial: Config :=
    Config(RISK_CONFIG, REFUND_RATIO, RATIO_DIFFERENT_PRICE_CLAIM, 1.0)

  datatype Side = Bull | Bear | OtherSide
  datatype Signal = Buy | Sell | OtherSignal
  datatype PeriodUnit = Hour | Day | OtherUnit

  /** One historical volatility sample. */
  datatype RatioChange = RatioChange(period: int, periodUnit: PeriodUnit, periodChangeRatio: real)

  datatype ClaimPriceRange = ClaimPriceRange(claimPriceMin: real, claimPriceMax: real)

  const MS_PER_HOUR: int := 3600000
  const MS_PER_DAY: int := 86400000

  function Abs(x: real): real {
    if x < 0.0 then -x else x
  }

  /* ---------------------------------------------------------------------
     Ratio and tier lookups
     --------------------------------------------------------------------- */

  /** Relative size of the move from the open price to the claim price. */
  function RatioPredict(pOpen: real, pClaim: real): (r: real)
    requires pOpen != 0.0
    ensures r * pOpen == Abs(pClaim - pOpen)
    ensures pOpen > 0.0 ==> r >= 0.0 && (r == 0.0 <==> pClaim == pOpen)
  {
    Abs(pClaim - pOpen) / pOpen
  }

  /** The stop multiplier tier selected by the move ratio. */
  function DiffStop(ratioProfit: real): (d: real)
    ensures d == 1.5 || d == 1.48 || d == 1.45 || d == 1.0
    ensures d == 1.5 <==> ratioProfit <= 0.04
    ensures d == 1.48 <==> 0.04 < ratioProfit <= 0.1
    ensures d == 1.45 <==> 0.1 < ratioProfit < 0.5
    ensures d == 1.0 <==> 0.5 <= ratioProfit
  {
    if ratioProfit <= 0.04 then 1.5
    else if ratioProfit <= 0.1 && ratioProfit > 0.04 then 1.48
    else if ratioProfit < 0.5 && ratioProfit > 0.1 then 1.45
    else 1.0
  }

  /** A larger move never selects a larger tier. */
  lemma DiffStopMonotone(a: real, b: real)
    requires a <= b
    ensures DiffStop(b) <= DiffStop(a)
  {
  }

  /** The band edges: 0.04 and 0.1 belong to the lower band, 0.5 to the last. */
  lemma DiffStopBoundaries()
    ensures DiffStop(0.04) == 1.5
    ensures DiffStop(0.1) == 1.48
    ensures DiffStop(0.5) == 1.0
    ensures DiffStop(0.0) == 1.5
  {
  }

  /** The payout discount selected by the move ratio. */
  function DiffClaim(ratioProfit: real): (d: real)
    ensures d == 0.25 || d == 0.2
    ensures d == 0.25 <==> ratioProfit <= 0.04
  {
    if ratioProfit <= 0.04 then 0.25 else 0.2
  }

  /** The larger payout discount goes with exactly the largest stop tier. */
  lemma DiffClaimFollowsDiffStop(ratioProfit: real)
    ensures DiffClaim(ratioProfit) == 0.25 <==> DiffStop(ratioProfit) == 1.5
  {
  }

  /* ---------------------------------------------------------------------
     Stop price
     --------------------------------------------------------------------- */

  /** The stop price: opposite the claim price, at the move's distance times
      the tier multiplier. */
  function PStop(pOpen: real, pClaim: real): (p: real)
    requires pOpen != 0.0
    ensures var d := DiffStop(RatioPredict(pOpen, pClaim));
      && (pClaim > pOpen ==> p == pOpen - (pClaim - pOpen) * d && p < pOpen)
      && (pClaim <= pOpen ==> p == pOpen + (pOpen - pClaim) * d && p >= pOpen)
      && Abs(pOpen - p) == Abs(pClaim - pOpen) * d
    ensures p == pOpen <==> pClaim == pOpen
  {
    var ratioProfit := RatioPredict(pOpen, pClaim);
    var diffStop := DiffStop(ratioProfit);
    assert pOpen * ratioProfit * diffStop == Abs(pClaim - pOpen) * diffStop;
    if pClaim > pOpen then
      pOpen - pOpen * ratioProfit * diffStop
    else
      pOpen + pOpen * ratioProfit * diffStop
  }

  /** The value checked in the repository's tests. */
  lemma PStopExample()
    ensures PStop(64493.9, 70000.0) == 56344.872
  {
  }

  /* ---------------------------------------------------------------------
     Risk and capital
     --------------------------------------------------------------------- */

  /** Implied risk: the daily funding proxy over the stop distance ratio.
      `pStop` and `pOpen` are accepted but not read. */
  function SystemRisk(pStop: real, pOpen: real, dayChangeToken: real, ratioProfit: real): (s: real)
    requires ratioProfit != 0.0
    ensures s * (ratioProfit * DiffStop(ratioProfit)) == dayChangeToken
    ensures s == 0.0 <==> dayChangeToken == 0.0
  {
    var diffStop := DiffStop(ratioProfit);
    var percentPExpired := ratioProfit * diffStop;
    dayChangeToken / percentPExpired
  }

  /** Capital the insurer puts beside the user's margin. The division by the
      system risk only happens when it exceeds the ceiling, so a zero risk is
      divided by only for a negative ceiling. */
  function SystemCapital(c: Config, margin: real, pStop: real, pOpen: real,
                         dayChangeToken: real, ratioProfit: real): (k: real)
    requires ratioProfit != 0.0
    requires dayChangeToken == 0.0 ==> c.riskConfig >= 0.0
    ensures var s := SystemRisk(pStop, pOpen, dayChangeToken, ratioProfit);
      && (s > c.riskConfig ==>
            k * s == margin * c.riskConfig
            && (margin > 0.0 && c.riskConfig > 0.0 ==> 0.0 < k < margin))
      && (s <= c.riskConfig ==>
            k == margin * (1.0 + c.riskConfig - s)
            && (margin >= 0.0 ==> k >= margin))
  {
    var systemRisk := SystemRisk(pStop, pOpen, dayChangeToken, ratioProfit);
    if systemRisk > c.riskConfig then
      margin * c.riskConfig / systemRisk
    else
      margin + (c.riskConfig - systemRisk) * margin
  }

  /** The capital does not depend on the stop and open prices passed in. */
  lemma SystemCapitalIgnoresPrices(c: Config, margin: real, pStop1: real, pOpen1: real,
                                   pStop2: real, pOpen2: real, dayChangeToken: real, ratioProfit: real)
    requires ratioProfit != 0.0
    requires dayChangeToken == 0.0 ==> c.riskConfig >= 0.0
    ensures SystemCapital(c, margin, pStop1, pOpen1, dayChangeToken, ratioProfit)
         == SystemCapital(c, margin, pStop2, pOpen2, dayChangeToken, ratioProfit)
  {
  }

  /** With a positive margin and ceiling the capital is positive. */
  lemma SystemCapitalPositive(c: Config, margin: real, pStop: real, pOpen: real,
                              dayChangeToken: real, ratioProfit: real)
    requires ratioProfit != 0.0
    requires margin > 0.0 && c.riskConfig > 0.0
    ensures SystemCapital(c, margin, pStop, pOpen, dayChangeToken, ratioProfit) > 0.0
  {
    var s := SystemRisk(pStop, pOpen, dayChangeToken, ratioProfit);
    if s <= c.riskConfig {
      assert 1.0 + c.riskConfig - s >= 1.0;
    }
  }

  /* ---------------------------------------------------------------------
     Leverage
     --------------------------------------------------------------------- */

  /** Leverage in ratio form: the integer part of one over the stop ratio. */
  function Leverage(ratioProfit: real): (l: int)
    requires ratioProfit != 0.0
    ensures l as real <= 1.0 / (ratioProfit * DiffStop(ratioProfit)) < l as real + 1.0
    ensures ratioProfit > 0.0 ==> l >= 0
  {
    var diffStop := DiffStop(ratioProfit);
    var percentPExpired := ratioProfit * diffStop;
    (1.0 / percentPExpired).Floor
  }

  /** Leverage in stop-distance form, used by the future-quantity path. */
  function StopDistanceLeverage(pOpen: real, pStop: real): (l: int)
    requires pStop != pOpen
    ensures l as real <= pOpen / Abs(pOpen - pStop) < l as real + 1.0
  {
    (pOpen / Abs(pOpen - pStop)).Floor
  }

  /** For a positive open price the two leverage forms agree: the stop
      distance is exactly the open price times the stop ratio. */
  lemma StopDistanceLeverageAgrees(pOpen: real, pClaim: real)
    requires pOpen > 0.0 && pClaim != pOpen
    ensures StopDistanceLeverage(pOpen, PStop(pOpen, pClaim)) == Leverage(RatioPredict(pOpen, pClaim))
  {
    var r := RatioPredict(pOpen, pClaim);
    var d := DiffStop(r);
    var pStop := PStop(pOpen, pClaim);
    assert Abs(pOpen - pStop) == pOpen * (r * d);
    assert r * d != 0.0;
    assert pOpen / (pOpen * (r * d)) == 1.0 / (r * d);
  }

  /* ---------------------------------------------------------------------
     Hedge-row selection and payout
     --------------------------------------------------------------------- */

  /** Distance of a table row's hedge key from the requested hedge. */
  function HedgeDistance(row: QClaimRow, hedge: real): real {
    Abs(row.hedge - hedge)
  }

  /** The seedless left reduction over a table that keeps the current row
      only when it is strictly nearer than the one kept so far; given as the
      index of the row it ends with. It is the first row of least distance. */
  function NearestRowIndex(rows: seq<QClaimRow>, hedge: real): (k: nat)
    requires |rows| > 0
    ensures k < |rows|
    ensures forall j :: 0 <= j < |rows| ==> HedgeDistance(rows[k], hedge) <= HedgeDistance(rows[j], hedge)
    ensures forall j :: 0 <= j < k ==> HedgeDistance(rows[k], hedge) < HedgeDistance(rows[j], hedge)
    decreases |rows|
  {
    if |rows| == 1 then 0
    else
      var prev := NearestRowIndex(rows[..|rows| - 1], hedge);
      assert rows[..|rows| - 1][prev] == rows[prev];
      if HedgeDistance(rows[|rows| - 1], hedge) < HedgeDistance(rows[prev], hedge)
      then |rows| - 1
      else prev
  }

  /** The two properties of the reduction determine its result. */
  lemma NearestRowIndexUnique(rows: seq<QClaimRow>, hedge: real, k: nat)
    requires k < |rows|
    requires forall j :: 0 <= j < |rows| ==> HedgeDistance(rows[k], hedge) <= HedgeDistance(rows[j], hedge)
    requires forall j :: 0 <= j < k ==> HedgeDistance(rows[k], hedge) < HedgeDistance(rows[j], hedge)
    ensures NearestRowIndex(rows, hedge) == k
  {
  }

  /** In a table with strictly rising keys, asking for a key selects its row. */
  lemma KeySelectsItsRow(rows: seq<QClaimRow>, i: nat)
    requires i < |rows| && HedgesStrictlyIncreasing(rows)
    ensures NearestRowIndex(rows, rows[i].hedge) == i
  {
    var k := NearestRowIndex(rows, rows[i].hedge);
    assert HedgeDistance(rows[k], rows[i].hedge) <= HedgeDistance(rows[i], rows[i].hedge);
    assert rows[k].hedge == rows[i].hedge;
  }

  /** A hedge of 0.05 selects the fourth row of either table. */
  lemma HedgeFiveHundredthsSelectsFourthRow()
    ensures NearestRowIndex(Q_CLAIM_CONFIG_HOUR, 0.05) == 3
    ensures NearestRowIndex(Q_CLAIM_CONFIG_DAY, 0.05) == 3
  {
    TablesShape();
    KeySelectsItsRow(Q_CLAIM_CONFIG_HOUR, 3);
    KeySelectsItsRow(Q_CLAIM_CONFIG_DAY, 3);
  }

  /** The table for a period unit: hours use the hour table, anything else the day table. */
  function QClaimTable(periodUnit: PeriodUnit): (t: seq<QClaimRow>)
    ensures |t| == 9 && NoReduction(t)
  {
    TablesShape();
    if periodUnit == Hour then Q_CLAIM_CONFIG_HOUR else Q_CLAIM_CONFIG_DAY
  }

  /** What the payout needs of its inputs: a non-zero move from a non-zero
      open price, and a capital that is defined. */
  predicate QuantityInputsDefined(c: Config, pOpen: real, pClaim: real, dayChangeToken: real) {
    && pOpen != 0.0
    && pClaim != pOpen
    && (dayChangeToken == 0.0 ==> c.riskConfig >= 0.0)
  }

  /** The claim payout. With the shipped tables the row factor is 1, so the
      payout is the margin plus the discounted leveraged profit on margin
      and capital, whatever the hedge and the period unit. */
  function QClaim(c: Config, margin: real, pOpen: real, pClaim: real, hedge: real,
                  dayChangeToken: real, periodUnit: PeriodUnit): (q: real)
    requires QuantityInputsDefined(c, pOpen, pClaim, dayChangeToken)
    ensures var r := RatioPredict(pOpen, pClaim);
      q == r * (margin + SystemCapital(c, margin, PStop(pOpen, pClaim), pOpen, dayChangeToken, r))
             * Leverage(r) as real * (1.0 - DiffClaim(r)) + margin
  {
    var pStop := PStop(pOpen, pClaim);
    var ratioProfit := RatioPredict(pOpen, pClaim);
    var systemCapital := SystemCapital(c, margin, pStop, pOpen, dayChangeToken, ratioProfit);
    var hedgeCapital := margin + systemCapital;
    var leverage := Leverage(ratioProfit);
    var profit := ratioProfit * hedgeCapital * leverage as real;
    var table := QClaimTable(periodUnit);
    var row := table[NearestRowIndex(table, hedge)];
    assert row.x == 0.0;
    var diffClaim := DiffClaim(ratioProfit);
    profit * (1.0 - diffClaim) * (1.0 - row.x) + margin
  }

  /** The period unit cannot change the payout, the two tables being equal. */
  lemma QClaimIgnoresPeriodUnit(c: Config, margin: real, pOpen: real, pClaim: real, hedge: real,
                                dayChangeToken: real, u1: PeriodUnit, u2: PeriodUnit)
    requires QuantityInputsDefined(c, pOpen, pClaim, dayChangeToken)
    ensures QClaim(c, margin, pOpen, pClaim, hedge, dayChangeToken, u1)
         == QClaim(c, margin, pOpen, pClaim, hedge, dayChangeToken, u2)
  {
    TablesIdentical();
  }

  /** The payout is never below the margin for a real move from a positive
      open price with positive margin and ceiling. */
  lemma QClaimAtLeastMargin(c: Config, margin: real, pOpen: real, pClaim: real, hedge: real,
                            dayChangeToken: real, periodUnit: PeriodUnit)
    requires QuantityInputsDefined(c, pOpen, pClaim, dayChangeToken)
    requires pOpen > 0.0 && margin > 0.0 && c.riskConfig > 0.0
    ensures QClaim(c, margin, pOpen, pClaim, hedge, dayChangeToken, periodUnit) >= margin
  {
    var r := RatioPredict(pOpen, pClaim);
    var pStop := PStop(pOpen, pClaim);
    var k := SystemCapital(c, margin, pStop, pOpen, dayChangeToken, r);
    SystemCapitalPositive(c, margin, pStop, pOpen, dayChangeToken, r);
    var l := Leverage(r);
    assert r > 0.0 && l >= 0;
    var profit := r * (margin + k) * l as real;
    assert r * (margin + k) > 0.0;
    assert profit >= 0.0;
    assert profit * (1.0 - DiffClaim(r)) >= 0.0;
  }

  /** The value checked in the repository's tests (8.149644128113879 there). */
  lemma QClaimExample()
    ensures QClaim(Initial, 3.75, 562.0, 580.0, 0.05, 0.022, Hour) == 45801.0 / 5620.0
  {
    var r := RatioPredict(562.0, 580.0);
    assert r == 18.0 / 562.0;
    assert DiffStop(r) == 1.5;
    var s := SystemRisk(PStop(562.0, 580.0), 562.0, 0.022, r);
    assert s == 12.364 / 27.0;
    var k := SystemCapital(Initial, 3.75, PStop(562.0, 580.0), 562.0, 0.022, r);
    assert k == 3.75 * (1.9 - 12.364 / 27.0);
    assert 1.0 / (r * 1.5) == 562.0 / 27.0;
    assert Leverage(r) == 20;
    assert DiffClaim(r) == 0.25;
  }

  /** Insurable quantity on the futures side. `hedge` is accepted but not read. */
  function QuantityFuture(c: Config, pOpen: real, pClaim: real, hedge: real, margin: real,
                          dayChangeToken: real): (q: real)
    requires QuantityInputsDefined(c, pOpen, pClaim, dayChangeToken)
    ensures pOpen > 0.0 ==>
      var r := RatioPredict(pOpen, pClaim);
      q * pOpen == (margin + SystemCapital(c, margin, PStop(pOpen, pClaim), pOpen, dayChangeToken, r))
                   * Leverage(r) as real
  {
    var pStop := PStop(pOpen, pClaim);
    var leverage := StopDistanceLeverage(pOpen, pStop);
    var ratioProfit := RatioPredict(pOpen, pClaim);
    var systemCapital := SystemCapital(c, margin, pStop, pOpen, dayChangeToken, ratioProfit);
    var hedgeCapital := margin + systemCapital;
    assert pOpen > 0.0 ==> leverage == Leverage(ratioProfit) by {
      if pOpen > 0.0 { StopDistanceLeverageAgrees(pOpen, pClaim); }
    }
    hedgeCapital * leverage as real / pOpen
  }

  /* ---------------------------------------------------------------------
     Small helpers
     --------------------------------------------------------------------- */

  /** Refund price: the open price moved by the refund ratio in the
      direction of the claim. */
  function PRefund(c: Config, pOpen: real, pClaim: real): (r: real)
    ensures Abs(r - pOpen) == Abs(pOpen * c.refundRatio)
    ensures pOpen > 0.0 && c.refundRatio > 0.0 ==> (r > pOpen <==> pClaim > pOpen)
  {
    var isBull := pClaim > pOpen;
    pOpen * (if isBull then 1.0 + c.refundRatio else 1.0 - c.refundRatio)
  }

  /** Quotient of two quantities. */
  function Hedge(number1: real, number2: real): (h: real)
    requires number2 != 0.0
    ensures h * number2 == number1
  {
    number1 / number2
  }

  /* ---------------------------------------------------------------------
     Expiry
     --------------------------------------------------------------------- */

  /** Expiry time in milliseconds, `period` hours or days after `now`; no
      value for any other unit. */
  function Expired(now: int, period: int, periodUnit: PeriodUnit): (e: Option<int>)
    ensures e.None? <==> periodUnit == OtherUnit
    ensures periodUnit == Day ==> e == Some(now + period * MS_PER_DAY)
    ensures periodUnit == Hour ==> e == Some(now + period * MS_PER_HOUR)
  {
    match periodUnit
    case Day => Some(now + period * 60 * 60 * 1000 * 24)
    case Hour => Some(now + period * 60 * 60 * 1000)
    case OtherUnit => None
  }

  /** A period of n days expires with a period of 24 n hours, and a longer
      period never expires earlier. */
  lemma ExpiredRelations(now: int, p1: int, p2: int, u: PeriodUnit)
    requires u != OtherUnit && p1 <= p2
    ensures Expired(now, p1, Day) == Expired(now, 24 * p1, Hour)
    ensures Expired(now, p1, u).value <= Expired(now, p2, u).value
    ensures p1 > 0 ==> Expired(now, p1, u).value > now
  {
  }

  /* ---------------------------------------------------------------------
     Claim-price range
     --------------------------------------------------------------------- */

  /** Samples small enough to bound a bear-side claim price. */
  function IsBelowOne(item: RatioChange): bool {
    item.periodChangeRatio < 1.0
  }

  /** Samples usable for a side: on the bear side those with ratio below 1,
      in their original order; on any other side all of them. */
  function AvailablePeriod(side: Side, listRatioChange: seq<RatioChange>): (r: seq<RatioChange>)
    ensures side != Bear ==> r == listRatioChange
    ensures side == Bear ==>
      && (forall x :: x in r <==> x in listRatioChange && x.periodChangeRatio < 1.0)
      && (forall x :: multiset(r)[x] == if x.periodChangeRatio < 1.0 then multiset(listRatioChange)[x] else 0)
  {
    if side == Bear then
      assert forall x :: multiset(Filter(listRatioChange, IsBelowOne))[x]
                         == if x.periodChangeRatio < 1.0 then multiset(listRatioChange)[x] else 0 by {
        forall x { FilterCount(listRatioChange, IsBelowOne, x); }
      }
      Filter(listRatioChange, IsBelowOne)
    else listRatioChange
  }

  /** Selecting available samples twice is selecting them once. */
  lemma AvailablePeriodIdempotent(side: Side, listRatioChange: seq<RatioChange>)
    ensures AvailablePeriod(side, AvailablePeriod(side, listRatioChange)) == AvailablePeriod(side, listRatioChange)
  {
    if side == Bear {
      FilterIdempotent(listRatioChange, IsBelowOne);
    }
  }

  /** The selection keeps the relative order of the samples. */
  lemma AvailablePeriodKeepsOrder(side: Side, a: seq<RatioChange>, b: seq<RatioChange>)
    ensures AvailablePeriod(side, a + b) == AvailablePeriod(side, a) + AvailablePeriod(side, b)
  {
    if side == Bear {
      FilterConcat(a, b, IsBelowOne);
    }
  }

  /** The ratio of every sample, in order. */
  function Ratios(listRatioChange: seq<RatioChange>): (r: seq<real>)
    ensures |r| == |listRatioChange|
    ensures forall i :: 0 <= i < |r| ==> r[i] == listRatioChange[i].periodChangeRatio
  {
    seq(|listRatioChange|, i requires 0 <= i < |listRatioChange| => listRatioChange[i].periodChangeRatio)
  }

  /** Some sample ratio equals `v`. */
  ghost predicate IsSampleRatio(listRatioChange: seq<RatioChange>, v: real) {
    exists i :: 0 <= i < |listRatioChange| && listRatioChange[i].periodChangeRatio == v
  }

  /** The sample ratios sorted ascending and cut to those at or above the threshold. */
  function SortListAvg(listRatioChange: seq<RatioChange>, periodChangeRatio: real): (s: seq<real>)
    ensures Sorted(s)
    ensures forall v :: v in s <==> v >= periodChangeRatio && IsSampleRatio(listRatioChange, v)
    ensures forall v ::
              multiset(s)[v] == if v >= periodChangeRatio then multiset(Ratios(listRatioChange))[v] else 0
  {
    var sorted := Sort(Ratios(listRatioChange));
    var s := Filter(sorted, v => v >= periodChangeRatio);
    FilterSorted(sorted, v => v >= periodChangeRatio);
    assert forall v ::
             multiset(s)[v] == if v >= periodChangeRatio then multiset(Ratios(listRatioChange))[v] else 0 by {
      forall v ensures multiset(s)[v] ==
        (if v >= periodChangeRatio then multiset(Ratios(listRatioChange))[v] else 0) {
        FilterCount(sorted, v => v >= periodChangeRatio, v);
      }
    }
    assert forall v :: v in sorted <==> v in Ratios(listRatioChange) by {
      forall v ensures v in sorted <==> v in Ratios(listRatioChange) {
        assert v in sorted <==> v in multiset(sorted);
        assert v in Ratios(listRatioChange) <==> v in multiset(Ratios(listRatioChange));
      }
    }
    assert forall v :: v in Ratios(listRatioChange) <==> IsSampleRatio(listRatioChange, v) by {
      forall v ensures v in Ratios(listRatioChange) <==> IsSampleRatio(listRatioChange, v) {
        if IsSampleRatio(listRatioChange, v) {
          var i :| 0 <= i < |listRatioChange| && listRatioChange[i].periodChangeRatio == v;
          assert Ratios(listRatioChange)[i] == v;
        }
      }
    }
    s
  }

  /** Cut values at or above 1 from the bear-side lower bound. */
  function IsBelowOneRatio(v: real): bool {
    v < 1.0
  }

  /** `v` is the greatest element of `s` below 1. */
  ghost predicate IsGreatestBelowOne(s: seq<real>, v: real) {
    v in s && v < 1.0 && forall k :: 0 <= k < |s| && s[k] < 1.0 ==> s[k] <= v
  }

  /** The gap factor of a bound: the scaled sample ratio, but never less than
      the smallest insurable claim-price gap. */
  function FilterRatioDifferentPriceClaim(c: Config, avgChange: real, time: real): (g: real)
    ensures g >= c.ratioDifferentPriceClaim && g >= avgChange * time
    ensures g == c.ratioDifferentPriceClaim || g == avgChange * time
  {
    var scaled := avgChange * time;
    if c.ratioDifferentPriceClaim > scaled then c.ratioDifferentPriceClaim else scaled
  }

  /** A larger sample ratio never gives a smaller gap factor. */
  lemma GapMonotone(c: Config, a: real, b: real, time: real)
    requires a <= b && time >= 0.0
    ensures FilterRatioDifferentPriceClaim(c, a, time) <= FilterRatioDifferentPriceClaim(c, b, time)
  {
    assert a * time <= b * time;
  }

  /** The scale applied to sample ratios for a signal and side: a signal
      that agrees with the insured side (a buy on the bull side, a sell on
      the bear side) halves the ratio, one that goes against it takes three
      quarters of it, and no signal keeps it whole. */
  function SkewTime(signal: Signal, side: Side): (t: real)
    ensures t == 0.5 || t == 0.75 || t == 1.0
    ensures (signal == Buy && side == Bull) || (signal == Sell && side == Bear) ==> t == 0.5
    ensures (signal == Buy && side == Bear) || (signal == Sell && side == Bull) ==> t == 0.75
    ensures signal == OtherSignal ==> t == 1.0
  {
    match signal
    case Buy => if side == Bull then 0.5 else 0.75
    case Sell => if side == Bull then 0.75 else 0.5
    case OtherSignal => 1.0
  }

  /** What the range needs: on the bull and bear sides some sample reaches the threshold. */
  predicate DistanceInputsDefined(listRatioChange: seq<RatioChange>, side: Side, periodChangeRatio: real) {
    side != OtherSide ==>
      exists i :: 0 <= i < |listRatioChange| && listRatioChange[i].periodChangeRatio >= periodChangeRatio
  }

  lemma SortListAvgNonEmpty(listRatioChange: seq<RatioChange>, periodChangeRatio: real)
    requires exists i :: 0 <= i < |listRatioChange| && listRatioChange[i].periodChangeRatio >= periodChangeRatio
    ensures |SortListAvg(listRatioChange, periodChangeRatio)| > 0
  {
    var i :| 0 <= i < |listRatioChange| && listRatioChange[i].periodChangeRatio >= periodChangeRatio;
    assert IsSampleRatio(listRatioChange, listRatioChange[i].periodChangeRatio);
    assert listRatioChange[i].periodChangeRatio in SortListAvg(listRatioChange, periodChangeRatio);
  }

  /** A bull-side bound: the market price raised by a gap factor. */
  function BullBound(c: Config, gap: real, pMarket: real): real {
    (c.constantClaim + gap) * pMarket
  }

  /** A bear-side bound: the market price lowered by a gap factor. */
  function BearBound(c: Config, gap: real, pMarket: real): real {
    (c.constantClaim - gap) * pMarket
  }

  /** For a non-negative market price a wider gap moves a bound further
      from the market price. */
  lemma BoundsMonotone(c: Config, g0: real, g1: real, pMarket: real)
    requires g0 <= g1 && pMarket >= 0.0
    ensures BullBound(c, g0, pMarket) <= BullBound(c, g1, pMarket)
    ensures BearBound(c, g1, pMarket) <= BearBound(c, g0, pMarket)
  {
    assert (g1 - g0) * pMarket >= 0.0;
  }

  /** Bull-side bounds from the ascending cut list `s`: above the market
      price by the gaps of its first and last element. */
  function BullRange(c: Config, pMarket: real, s: seq<real>, time: real): (r: ClaimPriceRange)
    requires |s| > 0
    ensures r.claimPriceMin == BullBound(c, FilterRatioDifferentPriceClaim(c, s[0], time), pMarket)
    ensures r.claimPriceMax == BullBound(c, FilterRatioDifferentPriceClaim(c, s[|s| - 1], time), pMarket)
    ensures Sorted(s) ==> forall lo :: IsLeast(s, lo) ==>
      r.claimPriceMin == BullBound(c, FilterRatioDifferentPriceClaim(c, lo, time), pMarket)
    ensures Sorted(s) ==> forall hi :: IsGreatest(s, hi) ==>
      r.claimPriceMax == BullBound(c, FilterRatioDifferentPriceClaim(c, hi, time), pMarket)
  {
    assert Sorted(s) ==> forall lo, hi :: IsLeast(s, lo) && IsGreatest(s, hi) ==>
      lo == s[0] && hi == s[|s| - 1] by {
      if Sorted(s) {
        forall lo, hi | IsLeast(s, lo) && IsGreatest(s, hi) ensures lo == s[0] && hi == s[|s| - 1] {
          SortedExtremes(s, lo, hi);
        }
      }
    }
    ClaimPriceRange(
      BullBound(c, FilterRatioDifferentPriceClaim(c, s[0], time), pMarket),
      BullBound(c, FilterRatioDifferentPriceClaim(c, s[|s| - 1], time), pMarket))
  }

  /** On a sorted list the bull-side lower bound is at most the upper one,
      and both lie at least the smallest insurable gap above the market. */
  lemma BullRangeOrdered(c: Config, pMarket: real, s: seq<real>, time: real)
    requires |s| > 0 && Sorted(s) && pMarket >= 0.0 && time >= 0.0
    ensures var r := BullRange(c, pMarket, s, time);
      && r.claimPriceMin <= r.claimPriceMax
      && BullBound(c, c.ratioDifferentPriceClaim, pMarket) <= r.claimPriceMin
  {
    var g0 := FilterRatioDifferentPriceClaim(c, s[0], time);
    var g1 := FilterRatioDifferentPriceClaim(c, s[|s| - 1], time);
    assert g0 <= g1 by {
      GapMonotone(c, s[0], s[|s| - 1], time);
    }
    BoundsMonotone(c, g0, g1, pMarket);
    BoundsMonotone(c, c.ratioDifferentPriceClaim, g0, pMarket);
  }

  /** Bear-side bounds from the ascending cut list `s`: below the market
      price, the upper one by the gap of the first element, the lower one by
      the gap of the last element under 1, or 0 when there is none. */
  function BearRange(c: Config, pMarket: real, s: seq<real>, time: real): (r: ClaimPriceRange)
    requires |s| > 0
    ensures r.claimPriceMax == BearBound(c, FilterRatioDifferentPriceClaim(c, s[0], time), pMarket)
    ensures (forall v :: v in s ==> v >= 1.0) ==> r.claimPriceMin == 0.0
    ensures (exists v :: v in s && v < 1.0) ==>
      exists last :: last in s && last < 1.0 && (Sorted(s) ==> IsGreatestBelowOne(s, last)) &&
        r.claimPriceMin == BearBound(c, FilterRatioDifferentPriceClaim(c, last, time), pMarket)
    ensures Sorted(s) ==> forall lo :: IsLeast(s, lo) ==>
      r.claimPriceMax == BearBound(c, FilterRatioDifferentPriceClaim(c, lo, time), pMarket)
    ensures Sorted(s) ==> forall hb :: IsGreatestBelowOne(s, hb) ==>
      r.claimPriceMin == BearBound(c, FilterRatioDifferentPriceClaim(c, hb, time), pMarket)
  {
    var filterSortListAvg := Filter(s, IsBelowOneRatio);
    assert forall v :: v in s && v < 1.0 ==> v in filterSortListAvg;
    assert Sorted(s) ==> forall lo :: IsLeast(s, lo) ==> lo == s[0] by {
      if Sorted(s) {
        forall lo | IsLeast(s, lo) ensures lo == s[0] {
          SortedExtremes(s, lo, lo);
        }
      }
    }
    var claimPriceMax := BearBound(c, FilterRatioDifferentPriceClaim(c, s[0], time), pMarket);
    if |filterSortListAvg| > 0 then
      var last := filterSortListAvg[|filterSortListAvg| - 1];
      assert last in filterSortListAvg;
      assert Sorted(s) ==> IsGreatestBelowOne(s, last) && forall hb :: IsGreatestBelowOne(s, hb) ==> hb == last by {
        if Sorted(s) {
          FilterSorted(s, IsBelowOneRatio);
          forall k | 0 <= k < |s| && s[k] < 1.0 ensures s[k] <= last {
            SortedEnds(filterSortListAvg, s[k]);
          }
          forall hb | IsGreatestBelowOne(s, hb) ensures hb == last {
            SortedEnds(filterSortListAvg, hb);
            var k :| 0 <= k < |s| && s[k] == last;
          }
        }
      }
      ClaimPriceRange(BearBound(c, FilterRatioDifferentPriceClaim(c, last, time), pMarket), claimPriceMax)
    else
      ClaimPriceRange(0.0, claimPriceMax)
  }

  /** The bear-side upper bound lies at least the smallest insurable gap
      below the market price. */
  lemma BearRangeMaxBound(c: Config, pMarket: real, s: seq<real>, time: real)
    requires |s| > 0 && pMarket >= 0.0
    ensures BearRange(c, pMarket, s, time).claimPriceMax
            <= BearBound(c, c.ratioDifferentPriceClaim, pMarket)
  {
    var g0 := FilterRatioDifferentPriceClaim(c, s[0], time);
    BoundsMonotone(c, c.ratioDifferentPriceClaim, g0, pMarket);
  }

  /** When some element of the sorted cut list is under 1, the bear-side
      lower bound is at most the upper one. */
  lemma BearRangeOrdered(c: Config, pMarket: real, s: seq<real>, time: real)
    requires |s| > 0 && Sorted(s) && pMarket >= 0.0 && time >= 0.0
    requires exists v :: v in s && v < 1.0
    ensures var r := BearRange(c, pMarket, s, time);
      r.claimPriceMin <= r.claimPriceMax
  {
    var r := BearRange(c, pMarket, s, time);
    var last :| last in s && last < 1.0 &&
      r.claimPriceMin == BearBound(c, FilterRatioDifferentPriceClaim(c, last, time), pMarket);
    var g0 := FilterRatioDifferentPriceClaim(c, s[0], time);
    var g1 := FilterRatioDifferentPriceClaim(c, last, time);
    assert g0 <= g1 by {
      SortedEnds(s, last);
      GapMonotone(c, s[0], last, time);
    }
    BoundsMonotone(c, g0, g1, pMarket);
  }

  /** The admissible claim-price range around the market price, from the
      samples at or above the threshold; on a side other than bull or bear
      both bounds are 0. */
  function DistancePClaim(c: Config, pMarket: real, listRatioChange: seq<RatioChange>, side: Side,
                          signal: Signal, periodChangeRatio: real): (r: ClaimPriceRange)
    requires DistanceInputsDefined(listRatioChange, side, periodChangeRatio)
    ensures side == OtherSide ==> r == ClaimPriceRange(0.0, 0.0)
  {
    var sortListAvg := SortListAvg(listRatioChange, periodChangeRatio);
    var time := SkewTime(signal, side);
    match side
    case Bull =>
      SortListAvgNonEmpty(listRatioChange, periodChangeRatio);
      BullRange(c, pMarket, sortListAvg, time)
    case Bear =>
      SortListAvgNonEmpty(listRatioChange, periodChangeRatio);
      BearRange(c, pMarket, sortListAvg, time)
    case OtherSide =>
      ClaimPriceRange(0.0, 0.0)
  }

  /** The cut list's ends are the least and greatest sample ratios at or
      above the threshold. */
  lemma SortListAvgEnds(listRatioChange: seq<RatioChange>, periodChangeRatio: real, i: nat)
    requires i < |listRatioChange| && listRatioChange[i].periodChangeRatio >= periodChangeRatio
    ensures var s := SortListAvg(listRatioChange, periodChangeRatio);
      |s| > 0 && s[0] <= listRatioChange[i].periodChangeRatio <= s[|s| - 1]
  {
    var s := SortListAvg(listRatioChange, periodChangeRatio);
    assert IsSampleRatio(listRatioChange, listRatioChange[i].periodChangeRatio);
    SortedEnds(s, listRatioChange[i].periodChangeRatio);
  }

  /** Bull side: the lower bound is at most the upper bound, and both lie at
      least the smallest insurable gap above the market price. */
  lemma DistancePClaimBull(c: Config, pMarket: real, listRatioChange: seq<RatioChange>,
                           signal: Signal, periodChangeRatio: real)
    requires DistanceInputsDefined(listRatioChange, Bull, periodChangeRatio)
    requires pMarket >= 0.0
    ensures var r := DistancePClaim(c, pMarket, listRatioChange, Bull, signal, periodChangeRatio);
      && r.claimPriceMin <= r.claimPriceMax
      && BullBound(c, c.ratioDifferentPriceClaim, pMarket) <= r.claimPriceMin
  {
    SortListAvgNonEmpty(listRatioChange, periodChangeRatio);
    BullRangeOrdered(c, pMarket, SortListAvg(listRatioChange, periodChangeRatio), SkewTime(signal, Bull));
  }

  /** Bear side: the upper bound lies at least the smallest insurable gap
      below the market price; the lower bound is 0 when no sample lies in
      [threshold, 1), and otherwise it is at most the upper bound. */
  lemma DistancePClaimBear(c: Config, pMarket: real, listRatioChange: seq<RatioChange>,
                           signal: Signal, periodChangeRatio: real)
    requires DistanceInputsDefined(listRatioChange, Bear, periodChangeRatio)
    requires pMarket >= 0.0
    ensures var r := DistancePClaim(c, pMarket, listRatioChange, Bear, signal, periodChangeRatio);
      && r.claimPriceMax <= BearBound(c, c.ratioDifferentPriceClaim, pMarket)
      && ((forall i :: 0 <= i < |listRatioChange| ==>
             !(periodChangeRatio <= listRatioChange[i].periodChangeRatio < 1.0))
          ==> r.claimPriceMin == 0.0)
      && ((exists i :: 0 <= i < |listRatioChange| &&
             periodChangeRatio <= listRatioChange[i].periodChangeRatio < 1.0)
          ==> r.claimPriceMin <= r.claimPriceMax
              && r.claimPriceMin <= BearBound(c, c.ratioDifferentPriceClaim, pMarket))
  {
    var s := SortListAvg(listRatioChange, periodChangeRatio);
    SortListAvgNonEmpty(listRatioChange, periodChangeRatio);
    var time := SkewTime(signal, Bear);
    BearRangeMaxBound(c, pMarket, s, time);
    if exists i :: 0 <= i < |listRatioChange| &&
         periodChangeRatio <= listRatioChange[i].periodChangeRatio < 1.0 {
      var i :| 0 <= i < |listRatioChange| &&
         periodChangeRatio <= listRatioChange[i].periodChangeRatio < 1.0;
      assert IsSampleRatio(listRatioChange, listRatioChange[i].periodChangeRatio);
      assert listRatioChange[i].periodChangeRatio in s;
      BearRangeOrdered(c, pMarket, s, time);
    } else {
      forall v | v in s ensures v >= 1.0 {
        assert IsSampleRatio(listRatioChange, v);
      }
    }
  }

  /** `v` is the least sample ratio at or above the threshold. */
  ghost predicate LeastQualifying(listRatioChange: seq<RatioChange>, periodChangeRatio: real, v: real) {
    && v >= periodChangeRatio && IsSampleRatio(listRatioChange, v)
    && forall i :: 0 <= i < |listRatioChange| && listRatioChange[i].periodChangeRatio >= periodChangeRatio ==>
         v <= listRatioChange[i].periodChangeRatio
  }

  /** `v` is the greatest sample ratio at or above the threshold. */
  ghost predicate GreatestQualifying(listRatioChange: seq<RatioChange>, periodChangeRatio: real, v: real) {
    && v >= periodChangeRatio && IsSampleRatio(listRatioChange, v)
    && forall i :: 0 <= i < |listRatioChange| && listRatioChange[i].periodChangeRatio >= periodChangeRatio ==>
         listRatioChange[i].periodChangeRatio <= v
  }

  /** `v` is the greatest sample ratio in [threshold, 1). */
  ghost predicate GreatestQualifyingBelowOne(listRatioChange: seq<RatioChange>, periodChangeRatio: real, v: real) {
    && periodChangeRatio <= v < 1.0 && IsSampleRatio(listRatioChange, v)
    && forall i :: 0 <= i < |listRatioChange| && periodChangeRatio <= listRatioChange[i].periodChangeRatio < 1.0 ==>
         listRatioChange[i].periodChangeRatio <= v
  }

  /** The extremes of the cut list are the extremes of the qualifying samples. */
  lemma SortListAvgExtremes(listRatioChange: seq<RatioChange>, periodChangeRatio: real, v: real)
    ensures var s := SortListAvg(listRatioChange, periodChangeRatio);
      && (LeastQualifying(listRatioChange, periodChangeRatio, v) <==> IsLeast(s, v))
      && (GreatestQualifying(listRatioChange, periodChangeRatio, v) <==> IsGreatest(s, v))
      && (GreatestQualifyingBelowOne(listRatioChange, periodChangeRatio, v) <==> IsGreatestBelowOne(s, v))
  {
    var s := SortListAvg(listRatioChange, periodChangeRatio);
    forall k | 0 <= k < |s| ensures s[k] >= periodChangeRatio && IsSampleRatio(listRatioChange, s[k]) {
      assert s[k] in s;
    }
    forall i | 0 <= i < |listRatioChange| && listRatioChange[i].periodChangeRatio >= periodChangeRatio
      ensures listRatioChange[i].periodChangeRatio in s
    {
      assert IsSampleRatio(listRatioChange, listRatioChange[i].periodChangeRatio);
    }
  }

  /** With a qualifying sample the least and greatest qualifying ratios
      exist, and with a qualifying sample below 1 so does the greatest of
      those. */
  lemma QualifyingExtremesExist(listRatioChange: seq<RatioChange>, periodChangeRatio: real)
    requires exists i :: 0 <= i < |listRatioChange| && listRatioChange[i].periodChangeRatio >= periodChangeRatio
    ensures exists lo :: LeastQualifying(listRatioChange, periodChangeRatio, lo)
    ensures exists hi :: GreatestQualifying(listRatioChange, periodChangeRatio, hi)
    ensures (exists i :: 0 <= i < |listRatioChange| &&
               periodChangeRatio <= listRatioChange[i].periodChangeRatio < 1.0) ==>
            exists hb :: GreatestQualifyingBelowOne(listRatioChange, periodChangeRatio, hb)
  {
    var s := SortListAvg(listRatioChange, periodChangeRatio);
    SortListAvgNonEmpty(listRatioChange, periodChangeRatio);
    forall k | 0 <= k < |s| ensures s[0] <= s[k] <= s[|s| - 1] {
      SortedEnds(s, s[k]);
    }
    SortListAvgExtremes(listRatioChange, periodChangeRatio, s[0]);
    SortListAvgExtremes(listRatioChange, periodChangeRatio, s[|s| - 1]);
    if exists i :: 0 <= i < |listRatioChange| &&
         periodChangeRatio <= listRatioChange[i].periodChangeRatio < 1.0 {
      var i :| 0 <= i < |listRatioChange| &&
         periodChangeRatio <= listRatioChange[i].periodChangeRatio < 1.0;
      assert IsSampleRatio(listRatioChange, listRatioChange[i].periodChangeRatio);
      var f := Filter(s, IsBelowOneRatio);
      assert listRatioChange[i].periodChangeRatio in f;
      FilterSorted(s, IsBelowOneRatio);
      var last := f[|f| - 1];
      assert last in f;
      forall k | 0 <= k < |s| && s[k] < 1.0 ensures s[k] <= last {
        SortedEnds(f, s[k]);
      }
      SortListAvgExtremes(listRatioChange, periodChangeRatio, last);
    }
  }

  /** Bull side: the lower bound comes from the least qualifying sample ratio
      and the upper bound from the greatest, each scaled by the skew of the
      signal and floored at the smallest insurable gap. */
  lemma DistancePClaimBullValues(c: Config, pMarket: real, listRatioChange: seq<RatioChange>,
                                 signal: Signal, periodChangeRatio: real)
    requires DistanceInputsDefined(listRatioChange, Bull, periodChangeRatio)
    ensures var r := DistancePClaim(c, pMarket, listRatioChange, Bull, signal, periodChangeRatio);
      var t := SkewTime(signal, Bull);
      && (forall lo :: LeastQualifying(listRatioChange, periodChangeRatio, lo) ==>
            r.claimPriceMin == BullBound(c, FilterRatioDifferentPriceClaim(c, lo, t), pMarket))
      && (forall hi :: GreatestQualifying(listRatioChange, periodChangeRatio, hi) ==>
            r.claimPriceMax == BullBound(c, FilterRatioDifferentPriceClaim(c, hi, t), pMarket))
  {
    forall v {
      SortListAvgExtremes(listRatioChange, periodChangeRatio, v);
    }
  }

  /** Bear side: the upper bound comes from the least qualifying sample ratio
      and the lower bound from the greatest one below 1, each scaled by the
      skew of the signal and floored at the smallest insurable gap. */
  lemma DistancePClaimBearValues(c: Config, pMarket: real, listRatioChange: seq<RatioChange>,
                                 signal: Signal, periodChangeRatio: real)
    requires DistanceInputsDefined(listRatioChange, Bear, periodChangeRatio)
    ensures var r := DistancePClaim(c, pMarket, listRatioChange, Bear, signal, periodChangeRatio);
      var t := SkewTime(signal, Bear);
      && (forall lo :: LeastQualifying(listRatioChange, periodChangeRatio, lo) ==>
            r.claimPriceMax == BearBound(c, FilterRatioDifferentPriceClaim(c, lo, t), pMarket))
      && (forall hb :: GreatestQualifyingBelowOne(listRatioChange, periodChangeRatio, hb) ==>
            r.claimPriceMin == BearBound(c, FilterRatioDifferentPriceClaim(c, hb, t), pMarket))
  {
    forall v {
      SortListAvgExtremes(listRatioChange, periodChangeRatio, v);
    }
  }
}
