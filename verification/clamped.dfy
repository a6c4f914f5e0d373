/** The engine the application uses (main.py, `monte_carlo_simulation`):
    every path starts at the initial investment; each year its value grows
    by a drawn return, loses the current withdrawal and is floored at zero,
    and then one inflation draw scales both the path's withdrawal and its
    cumulative inflation factor.

    The random draws are inputs: `returnDraws[t][p]` and `growthDraws[t][p]` are the
    return and the withdrawal-growth rate drawn for year t on path p (row 0
    of each table is never read). Arithmetic is exact (`real`). */
module ClampedEngine {
  import opened Draws

  /** What one path carries from year to year. */
  datatype PathState = PathState(value: real, withdrawal: real, factor: real)

  /** Year 0: the initial investment, the initial withdrawal and a factor of 1. */
  function Start(investment: real, withdrawal: real): PathState {
    PathState(investment, withdrawal, 1.0)
  }

  /** One year on one path. The return and the withdrawal are applied with
      the withdrawal of the previous year; only afterwards does the growth
      draw scale the withdrawal and the factor, both by the same multiplier. */
  function Step(s: PathState, ret: real, growth: real): (n: PathState)
    ensures n.value >= 0.0
    ensures n.value >= Compound(s.value, ret) - s.withdrawal
    ensures n.value == 0.0 || n.value == Compound(s.value, ret) - s.withdrawal
  {
    PathState(Max(Compound(s.value, ret) - s.withdrawal, 0.0), Compound(s.withdrawal, growth), Compound(s.factor, growth))
  }

  /** The state of one path after year t, given that path's draws. */
  function After(investment: real, withdrawal: real, ret: seq<real>, grow: seq<real>, t: nat): PathState
    requires t < |ret| && t < |grow|
  {
    if t == 0 then Start(investment, withdrawal)
    else Step(After(investment, withdrawal, ret, grow, t - 1), ret[t], grow[t])
  }

  /** The state of path p after year t, read from column p of the draw tables. */
  function PathAt(investment: real, withdrawal: real, returnDraws: seq<seq<real>>, growthDraws: seq<seq<real>>,
                  p: nat, t: nat): PathState
    requires HasColumn(returnDraws, p) && HasColumn(growthDraws, p)
    requires t < |returnDraws| && t < |growthDraws|
  {
    After(investment, withdrawal, Column(returnDraws, p), Column(growthDraws, p), t)
  }

  /** The result of the engine: the year × path value matrix and the final
      cumulative inflation factor of each path. */
  datatype Simulation = Simulation(values: seq<seq<real>>, factors: seq<real>)

  /** The reference definition: entry [t][p] is the value of path p after
      year t, computed from column p of the draws alone. */
  function Simulate(investment: real, returnDraws: seq<seq<real>>, growthDraws: seq<seq<real>>,
                    numYears: nat, numSims: nat, withdrawal: real): (sim: Simulation)
    requires numYears >= 1
    requires DrawsFit(returnDraws, growthDraws, numYears, numSims)
    ensures IsTable(sim.values, numYears, numSims) && |sim.factors| == numSims
    ensures forall p :: 0 <= p < numSims ==> sim.values[0][p] == investment
  {
    Simulation(
      seq(numYears, t requires 0 <= t < numYears =>
        seq(numSims, p requires 0 <= p < numSims =>
          PathAt(investment, withdrawal, returnDraws, growthDraws, p, t).value)),
      seq(numSims, p requires 0 <= p < numSims =>
        PathAt(investment, withdrawal, returnDraws, growthDraws, p, numYears - 1).factor))
  }

  /** The engine as called: `np.zeros` raises for a negative dimension and
      the assignment to row 0 raises when there are no years. */
  function Run(investment: real, returnDraws: seq<seq<real>>, growthDraws: seq<seq<real>>,
               numYears: int, numSims: int, withdrawal: real): (r: Result<Simulation>)
    requires numYears >= 1 && numSims >= 0 ==> DrawsFit(returnDraws, growthDraws, numYears, numSims)
    ensures r.Ok? <==> numYears >= 1 && numSims >= 0
    ensures r == Err(EmptyHorizon) <==> numYears == 0 && numSims >= 0
    ensures r.Ok? ==> r.value == Simulate(investment, returnDraws, growthDraws, numYears, numSims, withdrawal)
  {
    match ShapeCheck(numYears, numSims)
    case Err(e) => Err(e)
    case Ok(_) => Ok(Simulate(investment, returnDraws, growthDraws, numYears, numSims, withdrawal))
  }

  // ---------------------------------------------------------------------
  // Properties of one path

  /** Coupling: because one draw feeds both updates, the withdrawal of a
      path is always the initial withdrawal times its cumulative factor,
      and that factor is the product of the path's growth multipliers. */
  lemma {:induction false} Coupling(investment: real, withdrawal: real, ret: seq<real>, grow: seq<real>, t: nat)
    requires t < |ret| && t < |grow|
    ensures After(investment, withdrawal, ret, grow, t).factor == Growth(grow, t)
    ensures After(investment, withdrawal, ret, grow, t).withdrawal == Indexed(withdrawal, grow, t)
  {
    if t > 0 {
      Coupling(investment, withdrawal, ret, grow, t - 1);
      IndexedStep(withdrawal, grow, t);
    }
  }

  /** Year t of one path in closed form: the previous value grows by the
      year's return and loses the withdrawal in force BEFORE this year's
      growth update, i.e. the initial withdrawal times the multipliers of
      years 1..t-1; the result is floored at zero. */
  lemma PathRecurrence(investment: real, withdrawal: real, ret: seq<real>, grow: seq<real>, t: nat)
    requires 1 <= t < |ret| && t < |grow|
    ensures After(investment, withdrawal, ret, grow, t).value
         == Max(Compound(After(investment, withdrawal, ret, grow, t - 1).value, ret[t])
                - Indexed(withdrawal, grow, t - 1), 0.0)
  {
    Coupling(investment, withdrawal, ret, grow, t - 1);
    YearWithWithdrawal(investment, withdrawal, ret, grow, t, Indexed(withdrawal, grow, t - 1));
  }

  /** Year t subtracts whatever withdrawal the path carried out of year t-1. */
  lemma YearWithWithdrawal(investment: real, withdrawal: real, ret: seq<real>, grow: seq<real>, t: nat, w: real)
    requires 1 <= t < |ret| && t < |grow|
    requires After(investment, withdrawal, ret, grow, t - 1).withdrawal == w
    ensures After(investment, withdrawal, ret, grow, t).value
         == Max(Compound(After(investment, withdrawal, ret, grow, t - 1).value, ret[t]) - w, 0.0)
  {
    var prev := After(investment, withdrawal, ret, grow, t - 1);
    assert After(investment, withdrawal, ret, grow, t) == Step(prev, ret[t], grow[t]);
  }

  /** A path's value is non-negative in every year when the investment is,
      whatever the draws (withdrawals driven negative included). */
  lemma PathNonNegative(investment: real, withdrawal: real, ret: seq<real>, grow: seq<real>, t: nat)
    requires t < |ret| && t < |grow|
    requires investment >= 0.0
    ensures After(investment, withdrawal, ret, grow, t).value >= 0.0
  {
  }

  /** A path's state after year t depends only on that path's draws for
      years 1..t. */
  lemma {:induction false} PathOnlyReadsItsDraws(investment: real, withdrawal: real,
                                               r1: seq<real>, g1: seq<real>, r2: seq<real>, g2: seq<real>, t: nat)
    requires t < |r1| && t < |g1| && t < |r2| && t < |g2|
    requires forall s :: 1 <= s <= t ==> r1[s] == r2[s] && g1[s] == g2[s]
    ensures After(investment, withdrawal, r1, g1, t) == After(investment, withdrawal, r2, g2, t)
  {
    if t > 0 {
      PathOnlyReadsItsDraws(investment, withdrawal, r1, g1, r2, g2, t - 1);
    }
  }

  // ---------------------------------------------------------------------
  // Properties of the whole simulation

  /** Year t of path p is one Step from year t-1 with that year's draws. */
  lemma PathAtStep(investment: real, withdrawal: real, returnDraws: seq<seq<real>>, growthDraws: seq<seq<real>>,
                   p: nat, t: nat)
    requires HasColumn(returnDraws, p) && HasColumn(growthDraws, p)
    requires 1 <= t < |returnDraws| && t < |growthDraws|
    ensures PathAt(investment, withdrawal, returnDraws, growthDraws, p, t)
         == Step(PathAt(investment, withdrawal, returnDraws, growthDraws, p, t - 1),
                 returnDraws[t][p], growthDraws[t][p])
  {
    var ret, grow := Column(returnDraws, p), Column(growthDraws, p);
    assert After(investment, withdrawal, ret, grow, t)
        == Step(After(investment, withdrawal, ret, grow, t - 1), ret[t], grow[t]);
  }

  /** Every entry of the value matrix is non-negative when the investment is. */
  lemma ValuesNonNegative(investment: real, returnDraws: seq<seq<real>>, growthDraws: seq<seq<real>>,
                          numYears: nat, numSims: nat, withdrawal: real)
    requires numYears >= 1 && DrawsFit(returnDraws, growthDraws, numYears, numSims)
    requires investment >= 0.0
    ensures var sim := Simulate(investment, returnDraws, growthDraws, numYears, numSims, withdrawal);
            forall t, p :: 0 <= t < numYears && 0 <= p < numSims ==> sim.values[t][p] >= 0.0
  {
  }

  /** The matrix obeys the yearly recurrence: entry [t][p] is entry [t-1][p]
      grown by returnDraws[t][p], less the initial withdrawal compounded by the
      growth draws of years 1..t-1 on path p, floored at zero. */
  lemma Recurrence(investment: real, returnDraws: seq<seq<real>>, growthDraws: seq<seq<real>>,
                   numYears: nat, numSims: nat, withdrawal: real)
    requires numYears >= 1 && DrawsFit(returnDraws, growthDraws, numYears, numSims)
    ensures var sim := Simulate(investment, returnDraws, growthDraws, numYears, numSims, withdrawal);
            forall t, p :: 1 <= t < numYears && 0 <= p < numSims ==>
              sim.values[t][p] == Max(Compound(sim.values[t - 1][p], returnDraws[t][p])
                                      - Indexed(withdrawal, Column(growthDraws, p), t - 1), 0.0)
  {
    forall t, p | 1 <= t < numYears && 0 <= p < numSims {
      PathRecurrence(investment, withdrawal, Column(returnDraws, p), Column(growthDraws, p), t);
    }
  }

  /** The returned factor of path p is the product of (1 + growthDraws[t][p])
      over t in 1..numYears-1; with a single year it is exactly 1. */
  lemma FactorIsProduct(investment: real, returnDraws: seq<seq<real>>, growthDraws: seq<seq<real>>,
                        numYears: nat, numSims: nat, withdrawal: real)
    requires numYears >= 1 && DrawsFit(returnDraws, growthDraws, numYears, numSims)
    ensures var sim := Simulate(investment, returnDraws, growthDraws, numYears, numSims, withdrawal);
            forall p :: 0 <= p < numSims ==> sim.factors[p] == Growth(Column(growthDraws, p), numYears - 1)
    ensures numYears == 1 ==>
            forall p :: 0 <= p < numSims ==> Simulate(investment, returnDraws, growthDraws, numYears, numSims, withdrawal).factors[p] == 1.0
  {
    forall p | 0 <= p < numSims {
      Coupling(investment, withdrawal, Column(returnDraws, p), Column(growthDraws, p), numYears - 1);
    }
  }

  /** With a single year the loop never runs: the matrix is the initial row. */
  lemma SingleYear(investment: real, returnDraws: seq<seq<real>>, growthDraws: seq<seq<real>>,
                   numSims: nat, withdrawal: real)
    requires DrawsFit(returnDraws, growthDraws, 1, numSims)
    ensures Simulate(investment, returnDraws, growthDraws, 1, numSims, withdrawal)
         == Simulation([seq(numSims, _ => investment)], seq(numSims, _ => 1.0))
  {
    var sim := Simulate(investment, returnDraws, growthDraws, 1, numSims, withdrawal);
    assert sim.values[0] == seq(numSims, _ => investment);
    assert sim.factors == seq(numSims, _ => 1.0);
  }

  /** When every growth draw of a path exceeds -1 its factor is positive. */
  lemma FactorPositive(investment: real, returnDraws: seq<seq<real>>, growthDraws: seq<seq<real>>,
                       numYears: nat, numSims: nat, withdrawal: real, p: nat)
    requires numYears >= 1 && DrawsFit(returnDraws, growthDraws, numYears, numSims)
    requires p < numSims
    requires forall t :: 1 <= t < numYears ==> 1.0 + growthDraws[t][p] > 0.0
    ensures Simulate(investment, returnDraws, growthDraws, numYears, numSims, withdrawal).factors[p] > 0.0
  {
    var grow := Column(growthDraws, p);
    Coupling(investment, withdrawal, Column(returnDraws, p), grow, numYears - 1);
    GrowthPositive(grow, numYears - 1);
  }

  /** Path independence: column p of the matrix and factor p depend only on
      column p of the two draw tables. */
  lemma PathIndependence(investment: real, withdrawal: real, numYears: nat, numSims: nat,
                         r1: seq<seq<real>>, g1: seq<seq<real>>, r2: seq<seq<real>>, g2: seq<seq<real>>, p: nat)
    requires numYears >= 1 && p < numSims
    requires DrawsFit(r1, g1, numYears, numSims) && DrawsFit(r2, g2, numYears, numSims)
    requires forall t :: 1 <= t < numYears ==> r1[t][p] == r2[t][p] && g1[t][p] == g2[t][p]
    ensures var s1 := Simulate(investment, r1, g1, numYears, numSims, withdrawal);
            var s2 := Simulate(investment, r2, g2, numYears, numSims, withdrawal);
            s1.factors[p] == s2.factors[p] &&
            forall t :: 0 <= t < numYears ==> s1.values[t][p] == s2.values[t][p]
  {
    forall t | 0 <= t < numYears {
      PathOnlyReadsItsDraws(investment, withdrawal, Column(r1, p), Column(g1, p), Column(r2, p), Column(g2, p), t);
    }
  }

  /** Worked scenario: 100000 invested, no return, a 10000 withdrawal, no
      inflation, three years on one path. */
  lemma FlatScenario()
    ensures Simulate(100000.0, [[0.0], [0.0], [0.0]], [[0.0], [0.0], [0.0]], 3, 1, 10000.0)
         == Simulation([[100000.0], [90000.0], [80000.0]], [1.0])
  {
    var r, g := [[0.0], [0.0], [0.0]], [[0.0], [0.0], [0.0]];
    PathAtStep(100000.0, 10000.0, r, g, 0, 1);
    PathAtStep(100000.0, 10000.0, r, g, 0, 2);
    assert PathAt(100000.0, 10000.0, r, g, 0, 1) == PathState(90000.0, 10000.0, 1.0);
    assert PathAt(100000.0, 10000.0, r, g, 0, 2) == PathState(80000.0, 10000.0, 1.0);
    var sim := Simulate(100000.0, r, g, 3, 1, 10000.0);
    assert sim.values[0] == [100000.0];
    assert sim.values[1] == [90000.0];
    assert sim.values[2] == [80000.0];
  }

  /** The same scenario with 10% withdrawal growth: year 1 withdraws 10000,
      year 2 withdraws 11000, and the factor ends at 1.21. */
  lemma InflationScenario()
    ensures Simulate(100000.0, [[0.0], [0.0], [0.0]], [[0.1], [0.1], [0.1]], 3, 1, 10000.0)
         == Simulation([[100000.0], [90000.0], [79000.0]], [1.21])
  {
    var r, g := [[0.0], [0.0], [0.0]], [[0.1], [0.1], [0.1]];
    PathAtStep(100000.0, 10000.0, r, g, 0, 1);
    PathAtStep(100000.0, 10000.0, r, g, 0, 2);
    assert PathAt(100000.0, 10000.0, r, g, 0, 1) == PathState(90000.0, 11000.0, 1.1);
    assert PathAt(100000.0, 10000.0, r, g, 0, 2) == PathState(79000.0, 12100.0, 1.21);
    var sim := Simulate(100000.0, r, g, 3, 1, 10000.0);
    assert sim.values[0] == [100000.0];
    assert sim.values[1] == [90000.0];
    assert sim.values[2] == [79000.0];
  }

  /** Two paths that receive the same draws in every year have the same
      values and factor; with zero volatility every path receives the
      same draws, so all paths coincide. */
  lemma SameDrawsSamePath(investment: real, returnDraws: seq<seq<real>>, growthDraws: seq<seq<real>>,
                          numYears: nat, numSims: nat, withdrawal: real, p: nat, q: nat)
    requires numYears >= 1 && DrawsFit(returnDraws, growthDraws, numYears, numSims)
    requires p < numSims && q < numSims
    requires forall t :: 1 <= t < numYears ==>
               returnDraws[t][p] == returnDraws[t][q] && growthDraws[t][p] == growthDraws[t][q]
    ensures var sim := Simulate(investment, returnDraws, growthDraws, numYears, numSims, withdrawal);
            sim.factors[p] == sim.factors[q] &&
            forall t :: 0 <= t < numYears ==> sim.values[t][p] == sim.values[t][q]
  {
    forall t | 0 <= t < numYears {
      PathOnlyReadsItsDraws(investment, withdrawal, Column(returnDraws, p), Column(growthDraws, p),
                            Column(returnDraws, q), Column(growthDraws, q), t);
    }
  }

  // ---------------------------------------------------------------------
  // The year loop as the source writes it

  /** The coupling invariant of the year loop, for path p after year t. */
  lemma PathCoupled(investment: real, withdrawal: real, returnDraws: seq<seq<real>>, growthDraws: seq<seq<real>>,
                    p: nat, t: nat)
    requires HasColumn(returnDraws, p) && HasColumn(growthDraws, p)
    requires t < |returnDraws| && t < |growthDraws|
    ensures var s := PathAt(investment, withdrawal, returnDraws, growthDraws, p, t);
            s.withdrawal == withdrawal * s.factor
  {
    Coupling(investment, withdrawal, Column(returnDraws, p), Column(growthDraws, p), t);
  }

  /** One pass of the loop body over all paths at once: the new row of
      values and the grown withdrawal and factor vectors. Path p of each
      output reads only entry p of each input. The new row is floored at
      zero and otherwise the grown value less the withdrawal, and the pass
      keeps the coupling: a path whose withdrawal was `w0` times its factor
      before the pass still has a withdrawal of `w0` times its factor after
      it, because one growth draw scales both. */
  method AdvanceYear(ghost w0: real, previous: seq<real>, withdrawals: seq<real>, factors: seq<real>,
                     rets: seq<real>, rates: seq<real>)
    returns (row: seq<real>, grownWithdrawals: seq<real>, grownFactors: seq<real>)
    requires |withdrawals| == |factors| == |rets| == |rates| == |previous|
    ensures |row| == |grownWithdrawals| == |grownFactors| == |previous|
    ensures forall p :: 0 <= p < |previous| ==>
              row[p] >= 0.0 && row[p] >= Compound(previous[p], rets[p]) - withdrawals[p] &&
              (row[p] == 0.0 || row[p] == Compound(previous[p], rets[p]) - withdrawals[p])
    ensures forall p :: 0 <= p < |previous| && withdrawals[p] == w0 * factors[p] ==>
              grownWithdrawals[p] == w0 * grownFactors[p]
    ensures forall p :: 0 <= p < |previous| ==>
              Step(PathState(previous[p], withdrawals[p], factors[p]), rets[p], rates[p])
                == PathState(row[p], grownWithdrawals[p], grownFactors[p])
  {
    row := seq(|previous|, p requires 0 <= p < |previous| =>
                 Max(Compound(previous[p], rets[p]) - withdrawals[p], 0.0));
    grownWithdrawals := seq(|previous|, p requires 0 <= p < |previous| => Compound(withdrawals[p], rates[p]));
    grownFactors := seq(|previous|, p requires 0 <= p < |previous| => Compound(factors[p], rates[p]));
    forall p | 0 <= p < |previous| && withdrawals[p] == w0 * factors[p]
      ensures grownWithdrawals[p] == w0 * grownFactors[p]
    {
      var f, m := factors[p], 1.0 + rates[p];
      assert (w0 * f) * m == w0 * (f * m);
    }
  }

  /** The vectorised year loop: a row of values, a withdrawal vector and a
      factor vector, each updated elementwise once per year, in the order
      return-and-withdrawal, floor, withdrawal growth, factor growth. */
  method MonteCarlo(investment: real, returnDraws: seq<seq<real>>, growthDraws: seq<seq<real>>,
                    numYears: nat, numSims: nat, withdrawal: real)
    returns (values: seq<seq<real>>, factors: seq<real>)
    requires numYears >= 1 && DrawsFit(returnDraws, growthDraws, numYears, numSims)
    ensures Simulation(values, factors) == Simulate(investment, returnDraws, growthDraws, numYears, numSims, withdrawal)
    ensures investment >= 0.0 ==>
            forall t, p :: 0 <= t < numYears && 0 <= p < numSims ==> values[t][p] >= 0.0
  {
    ghost var sim := Simulate(investment, returnDraws, growthDraws, numYears, numSims, withdrawal);
    values := [seq(numSims, _ => investment)];
    var withdrawals := seq(numSims, _ => withdrawal);
    factors := seq(numSims, _ => 1.0);
    var i := 1;
    while i < numYears
      invariant 1 <= i <= numYears
      invariant |values| == i && |withdrawals| == numSims && |factors| == numSims
      invariant forall t :: 0 <= t < i ==> |values[t]| == numSims
      invariant forall t, p :: 0 <= t < i && 0 <= p < numSims ==>
                  values[t][p] == PathAt(investment, withdrawal, returnDraws, growthDraws, p, t).value
      invariant forall p :: 0 <= p < numSims ==>
                  PathAt(investment, withdrawal, returnDraws, growthDraws, p, i - 1)
                    == PathState(values[i - 1][p], withdrawals[p], factors[p])
      invariant forall p :: 0 <= p < numSims ==> withdrawals[p] == withdrawal * factors[p]
    {
      var row;
      ghost var previous := values[i - 1];
      row, withdrawals, factors := AdvanceYear(withdrawal, values[i - 1], withdrawals, factors, returnDraws[i], growthDraws[i]);
      forall p | 0 <= p < numSims
        ensures PathAt(investment, withdrawal, returnDraws, growthDraws, p, i)
             == PathState(row[p], withdrawals[p], factors[p])
      {
        PathAtStep(investment, withdrawal, returnDraws, growthDraws, p, i);
      }
      values := values + [row];
      i := i + 1;
    }
    assert values == sim.values by {
      forall t | 0 <= t < numYears
        ensures values[t] == sim.values[t]
      {
      }
    }
    if investment >= 0.0 {
      ValuesNonNegative(investment, returnDraws, growthDraws, numYears, numSims, withdrawal);
    }
  }
}
