/** The simulation horizon main.py derives from the sidebar: the number of
    years is the life expectancy minus the current age. The current age
    ranges over 18..90; the life expectancy input starts AT the current age,
    so a horizon of zero years is admitted, and the engine's assignment to
    row 0 then fails. */
module Horizon {
  import opened Draws
  import C = ClampedEngine

  /** The sidebar bounds as written: the life expectancy may equal the age. */
  predicate AgesAdmittedAsWritten(age: int, lifeExpectancy: int) {
    18 <= age <= 90 && age <= lifeExpectancy <= 150
  }

  /** The sidebar bounds with the life expectancy starting one year above
      the current age. */
  predicate AgesAdmitted(age: int, lifeExpectancy: int) {
    18 <= age <= 90 && age + 1 <= lifeExpectancy <= 150
  }

  /** The number of simulated years. */
  function Years(age: int, lifeExpectancy: int): int {
    lifeExpectancy - age
  }

  /** As written: the default investment and withdrawal rate, current age 50
      and life expectancy 50 pass the sidebar, give zero years, and the
      engine fails on the missing row 0 instead of producing a result. */
  lemma EmptyHorizonAdmitted()
    ensures AgesAdmittedAsWritten(50, 50)
    ensures Years(50, 50) == 0
    ensures C.Run(2200000.0, [], [], Years(50, 50), 100000, 2200000.0 * 0.027) == Err(EmptyHorizon)
  {
  }

  /** Corrected: every pair of ages the corrected sidebar admits gives a
      horizon of 1..132 years, on which the engine produces a result. */
  lemma CorrectedHorizonRuns(age: int, lifeExpectancy: int, investment: real,
                             returnDraws: seq<seq<real>>, growthDraws: seq<seq<real>>,
                             numSims: nat, withdrawal: real)
    requires AgesAdmitted(age, lifeExpectancy)
    requires DrawsFit(returnDraws, growthDraws, Years(age, lifeExpectancy), numSims)
    ensures 1 <= Years(age, lifeExpectancy) <= 132
    ensures C.Run(investment, returnDraws, growthDraws, Years(age, lifeExpectancy), numSims, withdrawal).Ok?
  {
  }
}
