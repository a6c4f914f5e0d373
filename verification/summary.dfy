/** The arithmetic main.py derives from the engine's output: the initial
    withdrawal from the withdrawal rate, the terminal nominal and real
    values of every path, and the success rate. */
module Summary {
  import opened Draws
  import C = ClampedEngine

  /** A float64 outcome: a finite number, or the infinity or NaN that numpy
      yields for a division by zero or the mean of an empty vector. */
  datatype Float = Finite(value: real) | NonFinite

  /** The initial annual withdrawal: the investment times the withdrawal
      rate (a fraction). Dividing it back by the investment recovers the
      rate, as the report of monte-carlo-simulation.py does. */
  function WithdrawalValue(investment: real, rate: real): (w: real)
    ensures investment != 0.0 ==> w / investment == rate
    ensures investment >= 0.0 && 0.0 <= rate <= 1.0 ==> 0.0 <= w <= investment
  {
    RateRoundTrip(investment, rate);
    RateBound(investment, rate);
    investment * rate
  }

  /** Dividing the withdrawal by a non-zero investment gives back the rate. */
  lemma RateRoundTrip(investment: real, rate: real)
    ensures investment != 0.0 ==> (investment * rate) / investment == rate
  {
    if investment != 0.0 {
      var q := (investment * rate) / investment;
      assert q * investment == rate * investment;
      assert (q - rate) * investment == 0.0;
    }
  }

  /** A rate in [0, 1] of a non-negative investment lies between 0 and the
      investment. */
  lemma RateBound(investment: real, rate: real)
    ensures investment >= 0.0 && 0.0 <= rate <= 1.0 ==> 0.0 <= investment * rate <= investment
  {
    if investment >= 0.0 && 0.0 <= rate <= 1.0 {
      assert investment * (1.0 - rate) >= 0.0;
      assert investment * rate >= 0.0;
    }
  }

  /** The last row of the value matrix: one terminal value per path. */
  function TerminalNominal(values: seq<seq<real>>): seq<real>
    requires |values| >= 1
  {
    values[|values| - 1]
  }

  /** Terminal real values: each path's nominal value deflated by that
      path's own cumulative inflation factor. Re-inflating a finite real
      value gives back the nominal one; a zero factor gives a non-finite
      value. */
  function TerminalReal(nominal: seq<real>, factors: seq<real>): (deflated: seq<Float>)
    requires |nominal| == |factors|
    ensures |deflated| == |nominal|
    ensures forall p :: 0 <= p < |nominal| ==> (deflated[p].Finite? <==> factors[p] != 0.0)
    ensures forall p :: 0 <= p < |nominal| && deflated[p].Finite? ==> deflated[p].value * factors[p] == nominal[p]
  {
    seq(|nominal|, p requires 0 <= p < |nominal| =>
      if factors[p] == 0.0 then NonFinite else Finite(nominal[p] / factors[p]))
  }

  /** The paths whose terminal value is strictly positive. */
  ghost function PositivePaths(final: seq<real>): set<nat> {
    set p: nat | p < |final| && final[p] > 0.0
  }

  /** The number of strictly positive entries: the sum of `final > 0`. */
  function CountPositive(final: seq<real>): (n: nat)
    ensures n <= |final|
  {
    if |final| == 0 then 0
    else CountPositive(final[..|final| - 1]) + (if final[|final| - 1] > 0.0 then 1 else 0)
  }

  /** The count agrees with the set of positive paths. */
  lemma {:induction false} CountIsCardinality(final: seq<real>)
    ensures CountPositive(final) == |PositivePaths(final)|
  {
    if |final| > 0 {
      var n := |final| - 1;
      var prefix := final[..n];
      CountIsCardinality(prefix);
      assert PositivePaths(prefix) == set p: nat | p < n && final[p] > 0.0;
      if final[n] > 0.0 {
        assert PositivePaths(final) == PositivePaths(prefix) + {n};
        assert n !in PositivePaths(prefix);
      } else {
        assert PositivePaths(final) == PositivePaths(prefix);
      }
    }
  }

  /** Every path counts exactly when every path is positive; no path counts
      exactly when no path is positive. */
  lemma {:induction false} CountExtremes(final: seq<real>)
    ensures CountPositive(final) == |final| <==> forall p :: 0 <= p < |final| ==> final[p] > 0.0
    ensures CountPositive(final) == 0 <==> forall p :: 0 <= p < |final| ==> final[p] <= 0.0
  {
    if |final| > 0 {
      var n := |final| - 1;
      CountExtremes(final[..n]);
      assert forall p :: 0 <= p < n ==> final[..n][p] == final[p];
    }
  }

  /** The success rate in percent: the mean of `final > 0` times 100. The
      mean of an empty vector is NaN. */
  function SuccessRate(final: seq<real>): (rate: Float)
    ensures rate.NonFinite? <==> |final| == 0
    ensures rate.Finite? ==> 0.0 <= rate.value <= 100.0
    ensures rate.Finite? ==> rate.value * (|final| as real) == 100.0 * (|PositivePaths(final)| as real)
    ensures rate.Finite? ==> (rate.value == 100.0 <==> forall p :: 0 <= p < |final| ==> final[p] > 0.0)
    ensures rate.Finite? ==> (rate.value == 0.0 <==> forall p :: 0 <= p < |final| ==> final[p] <= 0.0)
  {
    if |final| == 0 then NonFinite
    else
      var count, total := CountPositive(final) as real, |final| as real;
      CountIsCardinality(final);
      CountExtremes(final);
      RateBounds(count, total);
      Finite(100.0 * count / total)
  }

  /** 100 * count / total lies in [0, 100], is 100 exactly when count is
      total and 0 exactly when count is 0, and times total gives back
      100 * count. */
  lemma RateBounds(count: real, total: real)
    requires 0.0 <= count <= total && total > 0.0
    ensures 0.0 <= 100.0 * count / total <= 100.0
    ensures (100.0 * count / total) * total == 100.0 * count
    ensures 100.0 * count / total == 100.0 <==> count == total
    ensures 100.0 * count / total == 0.0 <==> count == 0.0
  {
  }

  // ---------------------------------------------------------------------
  // The summary of a simulation of the engine main.py uses

  /** On the floored engine, with a non-negative investment and every
      growth draw above -1, every terminal real value is finite and
      non-negative, and re-inflating it gives the terminal nominal value. */
  lemma RealValuesDeflate(investment: real, returnDraws: seq<seq<real>>, growthDraws: seq<seq<real>>,
                          numYears: nat, numSims: nat, withdrawal: real)
    requires numYears >= 1 && DrawsFit(returnDraws, growthDraws, numYears, numSims)
    requires investment >= 0.0
    requires forall t, p :: 1 <= t < numYears && 0 <= p < numSims ==> 1.0 + growthDraws[t][p] > 0.0
    ensures var sim := C.Simulate(investment, returnDraws, growthDraws, numYears, numSims, withdrawal);
            var nominal := TerminalNominal(sim.values);
            var deflated := TerminalReal(nominal, sim.factors);
            forall p :: 0 <= p < numSims ==>
              deflated[p].Finite? && deflated[p].value >= 0.0 && deflated[p].value * sim.factors[p] == nominal[p]
  {
    var sim := C.Simulate(investment, returnDraws, growthDraws, numYears, numSims, withdrawal);
    var nominal := TerminalNominal(sim.values);
    C.ValuesNonNegative(investment, returnDraws, growthDraws, numYears, numSims, withdrawal);
    forall p | 0 <= p < numSims
      ensures sim.factors[p] > 0.0 && nominal[p] >= 0.0
    {
      C.FactorPositive(investment, returnDraws, growthDraws, numYears, numSims, withdrawal, p);
    }
  }

  /** On the floored engine with a non-negative investment, a path counts
      as a success exactly when its terminal value is not zero, and the
      success rate is the share of such paths. */
  lemma SuccessMeansNotDepleted(investment: real, returnDraws: seq<seq<real>>, growthDraws: seq<seq<real>>,
                                numYears: nat, numSims: nat, withdrawal: real)
    requires numYears >= 1 && numSims >= 1 && DrawsFit(returnDraws, growthDraws, numYears, numSims)
    requires investment >= 0.0
    ensures var final := TerminalNominal(C.Simulate(investment, returnDraws, growthDraws, numYears, numSims, withdrawal).values);
            PositivePaths(final) == (set p: nat | p < numSims && final[p] != 0.0) &&
            SuccessRate(final).Finite? &&
            SuccessRate(final).value * (numSims as real)
              == 100.0 * (|set p: nat | p < numSims && final[p] != 0.0| as real)
  {
    C.ValuesNonNegative(investment, returnDraws, growthDraws, numYears, numSims, withdrawal);
  }
}
