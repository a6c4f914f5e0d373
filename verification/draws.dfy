/** Shared vocabulary of both simulation engines: year × path tables of
    draws or values, single columns of those tables, the compounded growth
    product, and the failures raised before any year is simulated. */
module Draws {

  /** `m` has `rows` rows (years) of `cols` entries (paths) each. */
  predicate IsTable(m: seq<seq<real>>, rows: nat, cols: nat) {
    |m| == rows && forall t :: 0 <= t < rows ==> |m[t]| == cols
  }

  /** The return and growth draw tables fit a run of `numYears` years over `numSims` paths. */
  predicate DrawsFit(returnDraws: seq<seq<real>>, growthDraws: seq<seq<real>>, numYears: nat, numSims: nat) {
    IsTable(returnDraws, numYears, numSims) && IsTable(growthDraws, numYears, numSims)
  }

  /** Every row of `m` has an entry for path `p`. */
  predicate HasColumn(m: seq<seq<real>>, p: nat) {
    forall t :: 0 <= t < |m| ==> p < |m[t]|
  }

  /** The draws (or values) of path `p` across all years. */
  function Column(m: seq<seq<real>>, p: nat): (c: seq<real>)
    requires HasColumn(m, p)
    ensures |c| == |m|
    ensures forall t :: 0 <= t < |m| ==> c[t] == m[t][p]
  {
    seq(|m|, t requires 0 <= t < |m| => m[t][p])
  }

  function Max(a: real, b: real): (m: real)
    ensures m >= a && m >= b
    ensures m == a || m == b
  {
    if a >= b then a else b
  }

  /** `x` grown by `rate` over one year: the elementwise `x * (1 + rate)`
      of the source, used for returns, withdrawals and inflation factors. */
  function Compound(x: real, rate: real): real {
    x * (1.0 + rate)
  }

  /** The product of the yearly multipliers (1 + grow[s]) for s in 1..t.
      Entry 0 of `grow` is never used: the year loop starts at year 1. */
  function Growth(grow: seq<real>, t: nat): real
    requires t < |grow|
  {
    if t == 0 then 1.0 else Compound(Growth(grow, t - 1), grow[t])
  }

  /** `amount` indexed by the growth draws of years 1..t: the initial
      withdrawal as it stands after year t's growth update. */
  function Indexed(amount: real, grow: seq<real>, t: nat): real
    requires t < |grow|
  {
    amount * Growth(grow, t)
  }

  /** Indexing one more year compounds the amount indexed so far. */
  lemma IndexedStep(amount: real, grow: seq<real>, t: nat)
    requires 1 <= t < |grow|
    ensures Indexed(amount, grow, t) == Compound(Indexed(amount, grow, t - 1), grow[t])
  {
    var g := Growth(grow, t - 1);
    assert amount * (g * (1.0 + grow[t])) == (amount * g) * (1.0 + grow[t]);
  }

  /** Every drawn multiplier of years 1..t is positive (every growth draw
      exceeds -1). */
  predicate MultipliersPositive(grow: seq<real>, t: nat)
    requires t < |grow|
  {
    forall s :: 1 <= s <= t ==> 1.0 + grow[s] > 0.0
  }

  /** A product of positive multipliers is positive. */
  lemma {:induction false} GrowthPositive(grow: seq<real>, t: nat)
    requires t < |grow|
    requires MultipliersPositive(grow, t)
    ensures Growth(grow, t) > 0.0
  {
    if t > 0 {
      GrowthPositive(grow, t - 1);
      var a := Growth(grow, t - 1);
      var b := 1.0 + grow[t];
      assert a * b > 0.0;
    }
  }

  /** Why a simulation cannot start: numpy refuses a negative dimension in
      `np.zeros`, and a horizon of zero years has no row 0 to assign. */
  datatype Failure = NegativeDimension | EmptyHorizon

  datatype Result<T> = Ok(value: T) | Err(error: Failure)

  /** The failure, if any, that the allocation of the value matrix and the
      assignment of its row 0 raise for the given shape. */
  function ShapeCheck(numYears: int, numSims: int): (r: Result<(nat, nat)>)
    ensures r.Ok? <==> numYears >= 1 && numSims >= 0
    ensures r.Ok? ==> r.value == (numYears as nat, numSims as nat)
    ensures r == Err(NegativeDimension) <==> numYears < 0 || numSims < 0
  {
    if numYears < 0 || numSims < 0 then Err(NegativeDimension)
    else if numYears == 0 then Err(EmptyHorizon)
    else Ok((numYears as nat, numSims as nat))
  }
}
