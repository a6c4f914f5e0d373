/** The earlier stand-alone engine (monte-carlo-simulation.py,
    `monte_carlo_simulation`): the same yearly recurrence without the floor
    at zero and without tracking the cumulative inflation factor. It returns
    only the year × path value matrix.

    The script starts with a scalar withdrawal that the first `*=` turns
    into one withdrawal per path; the model keeps one withdrawal per path
    from the start, which holds the same numbers. */
module UnclampedEngine {
  import opened Draws

  /** What one path carries from year to year. */
  datatype PathState = PathState(value: real, withdrawal: real)

  /** One year on one path: grow, subtract the current withdrawal (no
      floor), then grow the withdrawal by the year's growth draw. */
  function Step(s: PathState, ret: real, growth: real): PathState {
    PathState(Compound(s.value, ret) - s.withdrawal, Compound(s.withdrawal, growth))
  }

  /** The state of one path after year t, given that path's draws. */
  function After(investment: real, withdrawal: real, ret: seq<real>, grow: seq<real>, t: nat): PathState
    requires t < |ret| && t < |grow|
  {
    if t == 0 then PathState(investment, withdrawal)
    else Step(After(investment, withdrawal, ret, grow, t - 1), ret[t], grow[t])
  }

  /** The state of path p after year t, read from column p of the draw tables. */
  function PathAt(investment: real, withdrawal: real, returnDraws: seq<seq<real>>, growthDraws: seq<seq<real>>,
                  p: nat, t: nat): PathState
    requires HasColumn(returnDraws, p) && HasColumn(growthDraws, p)
    requires t < |returnDraws| && t < |growthDraws|
  {
    After(investment, withdrawal, Column(returnDraws, p), Column(growthDraws, p), t)
  }

  /** The reference definition of the value matrix. */
  function Simulate(investment: real, returnDraws: seq<seq<real>>, growthDraws: seq<seq<real>>,
                    numYears: nat, numSims: nat, withdrawal: real): (values: seq<seq<real>>)
    requires numYears >= 1
    requires DrawsFit(returnDraws, growthDraws, numYears, numSims)
    ensures IsTable(values, numYears, numSims)
    ensures forall p :: 0 <= p < numSims ==> values[0][p] == investment
  {
    seq(numYears, t requires 0 <= t < numYears =>
      seq(numSims, p requires 0 <= p < numSims =>
        PathAt(investment, withdrawal, returnDraws, growthDraws, p, t).value))
  }

  /** The engine as called: `np.zeros` raises for a negative dimension and
      the assignment to row 0 raises when there are no years. */
  function Run(investment: real, returnDraws: seq<seq<real>>, growthDraws: seq<seq<real>>,
               numYears: int, numSims: int, withdrawal: real): (r: Result<seq<seq<real>>>)
    requires numYears >= 1 && numSims >= 0 ==> DrawsFit(returnDraws, growthDraws, numYears, numSims)
    ensures r.Ok? <==> numYears >= 1 && numSims >= 0
    ensures r == Err(EmptyHorizon) <==> numYears == 0 && numSims >= 0
    ensures r.Ok? ==> r.value == Simulate(investment, returnDraws, growthDraws, numYears, numSims, withdrawal)
  {
    match ShapeCheck(numYears, numSims)
    case Err(e) => Err(e)
    case Ok(_) => Ok(Simulate(investment, returnDraws, growthDraws, numYears, numSims, withdrawal))
  }

  // ---------------------------------------------------------------------
  // Properties

  /** The withdrawal a path carries out of year t is the initial withdrawal
      indexed by that path's growth draws of years 1..t. */
  lemma {:induction false} WithdrawalIndexed(investment: real, withdrawal: real, ret: seq<real>, grow: seq<real>, t: nat)
    requires t < |ret| && t < |grow|
    ensures After(investment, withdrawal, ret, grow, t).withdrawal == Indexed(withdrawal, grow, t)
  {
    if t > 0 {
      WithdrawalIndexed(investment, withdrawal, ret, grow, t - 1);
      IndexedStep(withdrawal, grow, t);
    }
  }

  /** Year t of path p is one Step from year t-1 with that year's draws. */
  lemma PathAtStep(investment: real, withdrawal: real, returnDraws: seq<seq<real>>, growthDraws: seq<seq<real>>,
                   p: nat, t: nat)
    requires HasColumn(returnDraws, p) && HasColumn(growthDraws, p)
    requires 1 <= t < |returnDraws| && t < |growthDraws|
    ensures PathAt(investment, withdrawal, returnDraws, growthDraws, p, t)
         == Step(PathAt(investment, withdrawal, returnDraws, growthDraws, p, t - 1),
                 returnDraws[t][p], growthDraws[t][p])
  {
    var ret, grow := Column(returnDraws, p), Column(growthDraws, p);
    assert After(investment, withdrawal, ret, grow, t)
        == Step(After(investment, withdrawal, ret, grow, t - 1), ret[t], grow[t]);
  }

  /** No floor: entry [t][p] is exactly entry [t-1][p] grown by
      returnDraws[t][p], less the initial withdrawal indexed by the growth
      draws of years 1..t-1 (growth is applied after the year's
      subtraction), so entries may be negative. */
  lemma Recurrence(investment: real, returnDraws: seq<seq<real>>, growthDraws: seq<seq<real>>,
                   numYears: nat, numSims: nat, withdrawal: real)
    requires numYears >= 1
    requires DrawsFit(returnDraws, growthDraws, numYears, numSims)
    ensures var values := Simulate(investment, returnDraws, growthDraws, numYears, numSims, withdrawal);
            forall t, p :: 1 <= t < numYears && 0 <= p < numSims ==>
              values[t][p] == Compound(values[t - 1][p], returnDraws[t][p])
                              - Indexed(withdrawal, Column(growthDraws, p), t - 1)
  {
    var values := Simulate(investment, returnDraws, growthDraws, numYears, numSims, withdrawal);
    forall t, p | 1 <= t < numYears && 0 <= p < numSims
      ensures values[t][p] == Compound(values[t - 1][p], returnDraws[t][p])
                              - Indexed(withdrawal, Column(growthDraws, p), t - 1)
    {
      PathAtStep(investment, withdrawal, returnDraws, growthDraws, p, t);
      WithdrawalIndexed(investment, withdrawal, Column(returnDraws, p), Column(growthDraws, p), t - 1);
    }
  }

  /** With a single year the loop never runs: the result is the initial row. */
  lemma SingleYear(investment: real, returnDraws: seq<seq<real>>, growthDraws: seq<seq<real>>,
                   numSims: nat, withdrawal: real)
    requires DrawsFit(returnDraws, growthDraws, 1, numSims)
    ensures Simulate(investment, returnDraws, growthDraws, 1, numSims, withdrawal)
         == [seq(numSims, _ => investment)]
  {
    var values := Simulate(investment, returnDraws, growthDraws, 1, numSims, withdrawal);
    assert values[0] == seq(numSims, _ => investment);
  }

  /** Without the floor a path can end below zero: 100 invested, no return,
      a withdrawal of 150 leaves -50 after one year. */
  lemma MayGoNegative()
    ensures Simulate(100.0, [[0.0], [0.0]], [[0.0], [0.0]], 2, 1, 150.0)[1][0] == -50.0
  {
    PathAtStep(100.0, 150.0, [[0.0], [0.0]], [[0.0], [0.0]], 0, 1);
  }

  // ---------------------------------------------------------------------
  // The year loop as the script writes it

  /** One pass of the loop body over all paths at once. */
  method AdvanceYear(previous: seq<real>, withdrawals: seq<real>, rets: seq<real>, rates: seq<real>)
    returns (row: seq<real>, grownWithdrawals: seq<real>)
    requires |withdrawals| == |rets| == |rates| == |previous|
    ensures |row| == |grownWithdrawals| == |previous|
    ensures forall p :: 0 <= p < |previous| ==>
              Step(PathState(previous[p], withdrawals[p]), rets[p], rates[p])
                == PathState(row[p], grownWithdrawals[p])
  {
    row := seq(|previous|, p requires 0 <= p < |previous| => Compound(previous[p], rets[p]) - withdrawals[p]);
    grownWithdrawals := seq(|previous|, p requires 0 <= p < |previous| => Compound(withdrawals[p], rates[p]));
  }

  /** The vectorised year loop of the script; the withdrawal it grows is a
      local copy, so the caller's `withdrawal` is never changed. */
  method MonteCarlo(investment: real, returnDraws: seq<seq<real>>, growthDraws: seq<seq<real>>,
                    numYears: nat, numSims: nat, withdrawal: real)
    returns (values: seq<seq<real>>)
    requires numYears >= 1
    requires DrawsFit(returnDraws, growthDraws, numYears, numSims)
    ensures values == Simulate(investment, returnDraws, growthDraws, numYears, numSims, withdrawal)
  {
    ghost var sim := Simulate(investment, returnDraws, growthDraws, numYears, numSims, withdrawal);
    values := [seq(numSims, _ => investment)];
    var withdrawals := seq(numSims, _ => withdrawal);
    var i := 1;
    while i < numYears
      invariant 1 <= i <= numYears
      invariant |values| == i && |withdrawals| == numSims
      invariant forall t :: 0 <= t < i ==> |values[t]| == numSims
      invariant forall t, p :: 0 <= t < i && 0 <= p < numSims ==>
                  values[t][p] == PathAt(investment, withdrawal, returnDraws, growthDraws, p, t).value
      invariant forall p :: 0 <= p < numSims ==>
                  withdrawals[p] == PathAt(investment, withdrawal, returnDraws, growthDraws, p, i - 1).withdrawal
    {
      var row;
      row, withdrawals := AdvanceYear(values[i - 1], withdrawals, returnDraws[i], growthDraws[i]);
      forall p | 0 <= p < numSims
        ensures PathAt(investment, withdrawal, returnDraws, growthDraws, p, i)
             == PathState(row[p], withdrawals[p])
      {
        PathAtStep(investment, withdrawal, returnDraws, growthDraws, p, i);
      }
      values := values + [row];
      i := i + 1;
    }
    assert values == sim by {
      forall t | 0 <= t < numYears
        ensures values[t] == sim[t]
      {
      }
    }
  }
}
