/** The configuration tables and numeric constants read by the insurance
    pricing engine (src/constants.ts). Decimal literals are exact reals. */
module Constants {

  /** One row of a payout table: a hedge key and the payout reduction `x`. */
  datatype QClaimRow = QClaimRow(hedge: real, x: real)

  /** Table used for day periods (src/constants.ts:1-38). */
  const Q_CLAIM_CONFIG_DAY: seq<QClaimRow> := [
    QClaimRow(0.02, 0.0), QClaimRow(0.03, 0.0), QClaimRow(0.04, 0.0),
    QClaimRow(0.05, 0.0), QClaimRow(0.06, 0.0), QClaimRow(0.07, 0.0),
    QClaimRow(0.08, 0.0), QClaimRow(0.09, 0.0), QClaimRow(0.1, 0.0)
  ]

  /** Table used for hour periods (src/constants.ts:39-76). */
  const Q_CLAIM_CONFIG_HOUR: seq<QClaimRow> := [
    QClaimRow(0.02, 0.0), QClaimRow(0.03, 0.0), QClaimRow(0.04, 0.0),
    QClaimRow(0.05, 0.0), QClaimRow(0.06, 0.0), QClaimRow(0.07, 0.0),
    QClaimRow(0.08, 0.0), QClaimRow(0.09, 0.0), QClaimRow(0.1, 0.0)
  ]

  const RISK_CONFIG: real := 0.9
  const REFUND_RATIO: real := 0.005
  const MIN_PERIOD: int := 1
  const MAX_PERIOD: int := 15
  /** The smallest claim-price gap, as a fraction of the market price, that
      the product is willing to insure. */
  const RATIO_DIFFERENT_PRICE_CLAIM: real := 0.022

  /** The hedge keys of a table rise strictly from row to row. */
  ghost predicate HedgesStrictlyIncreasing(t: seq<QClaimRow>) {
    forall i, j :: 0 <= i < j < |t| ==> t[i].hedge < t[j].hedge
  }

  /** Every row of a table leaves the payout unreduced. */
  ghost predicate NoReduction(t: seq<QClaimRow>) {
    forall i :: 0 <= i < |t| ==> t[i].x == 0.0
  }

  /** The keys of a table are 0.02, 0.03, ... in steps of 0.01. */
  ghost predicate HedgeStepsOfOneHundredth(t: seq<QClaimRow>) {
    forall i :: 0 <= i < |t| ==> t[i].hedge == 0.02 + 0.01 * i as real
  }

  lemma {:induction false} StepsImplyIncreasing(t: seq<QClaimRow>)
    requires HedgeStepsOfOneHundredth(t)
    ensures HedgesStrictlyIncreasing(t)
  {
    forall i, j | 0 <= i < j < |t| ensures t[i].hedge < t[j].hedge {
      assert t[i].hedge == 0.02 + 0.01 * i as real;
      assert t[j].hedge == 0.02 + 0.01 * j as real;
    }
  }

  /** Both tables have nine rows (so the seedless reduction over them never
      meets an empty array), keys 0.02 to 0.1 in steps of 0.01, and x = 0. */
  lemma TablesShape()
    ensures |Q_CLAIM_CONFIG_HOUR| == 9 && |Q_CLAIM_CONFIG_DAY| == 9
    ensures HedgeStepsOfOneHundredth(Q_CLAIM_CONFIG_HOUR)
    ensures HedgeStepsOfOneHundredth(Q_CLAIM_CONFIG_DAY)
    ensures HedgesStrictlyIncreasing(Q_CLAIM_CONFIG_HOUR)
    ensures HedgesStrictlyIncreasing(Q_CLAIM_CONFIG_DAY)
    ensures NoReduction(Q_CLAIM_CONFIG_HOUR) && NoReduction(Q_CLAIM_CONFIG_DAY)
    ensures Q_CLAIM_CONFIG_HOUR[0].hedge == 0.02 && Q_CLAIM_CONFIG_HOUR[8].hedge == 0.1
  {
    StepsImplyIncreasing(Q_CLAIM_CONFIG_HOUR);
    StepsImplyIncreasing(Q_CLAIM_CONFIG_DAY);
  }

  /** The hour and day tables are the same table. */
  lemma TablesIdentical()
    ensures Q_CLAIM_CONFIG_HOUR == Q_CLAIM_CONFIG_DAY
  {
  }

  /** Ranges of the scalar constants. */
  lemma ScalarConstants()
    ensures 0.0 < RISK_CONFIG < 1.0
    ensures 0.0 < REFUND_RATIO < 1.0
    ensures 0.0 < RATIO_DIFFERENT_PRICE_CLAIM < 1.0
    ensures 1 <= MIN_PERIOD <= MAX_PERIOD
  {
  }
}
