/** How the engine of main.py relates to the earlier engine of
    monte-carlo-simulation.py on the same draws: the floor at zero is the
    only difference in the values, and the withdrawals are the same. */
module EngineComparison {
  import opened Draws
  import C = ClampedEngine
  import U = UnclampedEngine

  /** Both engines carry the same withdrawal on every path in every year. */
  lemma {:induction false} SameWithdrawals(investment: real, withdrawal: real, ret: seq<real>, grow: seq<real>, t: nat)
    requires t < |ret| && t < |grow|
    ensures C.After(investment, withdrawal, ret, grow, t).withdrawal
         == U.After(investment, withdrawal, ret, grow, t).withdrawal
  {
    C.Coupling(investment, withdrawal, ret, grow, t);
    U.WithdrawalIndexed(investment, withdrawal, ret, grow, t);
  }

  /** As long as the unfloored path has stayed non-negative, the floor has
      never acted and the two engines agree on the value. */
  lemma {:induction false} SolventPathsAgree(investment: real, withdrawal: real, ret: seq<real>, grow: seq<real>, t: nat)
    requires t < |ret| && t < |grow|
    requires forall s :: 0 <= s <= t ==> U.After(investment, withdrawal, ret, grow, s).value >= 0.0
    ensures C.After(investment, withdrawal, ret, grow, t).value
         == U.After(investment, withdrawal, ret, grow, t).value
  {
    if t > 0 {
      SolventPathsAgree(investment, withdrawal, ret, grow, t - 1);
      SameWithdrawals(investment, withdrawal, ret, grow, t - 1);
      var c := C.After(investment, withdrawal, ret, grow, t - 1);
      var u := U.After(investment, withdrawal, ret, grow, t - 1);
      assert C.After(investment, withdrawal, ret, grow, t) == C.Step(c, ret[t], grow[t]);
      assert U.After(investment, withdrawal, ret, grow, t) == U.Step(u, ret[t], grow[t]);
    }
  }

  /** Growing by a non-negative multiplier keeps the order of two values. */
  lemma CompoundMonotone(a: real, b: real, rate: real)
    requires a >= b && 1.0 + rate >= 0.0
    ensures Compound(a, rate) >= Compound(b, rate)
  {
    var d, m := a - b, 1.0 + rate;
    assert d * m >= 0.0;
    assert a * m == b * m + d * m;
  }

  /** When no drawn return falls below -100%, the floored path is never
      below the unfloored one. */
  lemma {:induction false} FloorNeverLowers(investment: real, withdrawal: real, ret: seq<real>, grow: seq<real>, t: nat)
    requires t < |ret| && t < |grow|
    requires forall s :: 1 <= s <= t ==> 1.0 + ret[s] >= 0.0
    ensures C.After(investment, withdrawal, ret, grow, t).value
         >= U.After(investment, withdrawal, ret, grow, t).value
  {
    if t > 0 {
      FloorNeverLowers(investment, withdrawal, ret, grow, t - 1);
      SameWithdrawals(investment, withdrawal, ret, grow, t - 1);
      var c := C.After(investment, withdrawal, ret, grow, t - 1);
      var u := U.After(investment, withdrawal, ret, grow, t - 1);
      assert C.After(investment, withdrawal, ret, grow, t) == C.Step(c, ret[t], grow[t]);
      assert U.After(investment, withdrawal, ret, grow, t) == U.Step(u, ret[t], grow[t]);
      CompoundMonotone(c.value, u.value, ret[t]);
    }
  }

  /** On the matrices: a path whose unfloored values are all non-negative
      has the same column in both engines. */
  lemma FloorIsTheOnlyDifference(investment: real, returnDraws: seq<seq<real>>, growthDraws: seq<seq<real>>,
                                 numYears: nat, numSims: nat, withdrawal: real, p: nat)
    requires numYears >= 1 && p < numSims
    requires DrawsFit(returnDraws, growthDraws, numYears, numSims)
    requires forall t :: 0 <= t < numYears ==>
               U.Simulate(investment, returnDraws, growthDraws, numYears, numSims, withdrawal)[t][p] >= 0.0
    ensures forall t :: 0 <= t < numYears ==>
              C.Simulate(investment, returnDraws, growthDraws, numYears, numSims, withdrawal).values[t][p]
              == U.Simulate(investment, returnDraws, growthDraws, numYears, numSims, withdrawal)[t][p]
  {
    var ret, grow := Column(returnDraws, p), Column(growthDraws, p);
    var unfloored := U.Simulate(investment, returnDraws, growthDraws, numYears, numSims, withdrawal);
    assert forall s :: 0 <= s < numYears ==> U.After(investment, withdrawal, ret, grow, s).value == unfloored[s][p];
    forall t | 0 <= t < numYears
      ensures C.After(investment, withdrawal, ret, grow, t).value == U.After(investment, withdrawal, ret, grow, t).value
    {
      SolventPathsAgree(investment, withdrawal, ret, grow, t);
    }
  }
}
