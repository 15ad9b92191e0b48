/** Equation and variable counting with the squareness check of
    Network.solve_determination, and the starting values of Network.init_val0
    together with their conversion in Network.init_properties
    (src/tespy/networks/network.py). */
module Counting {
  import opened Wrappers
  import opened Units

  /** Variables per connection: mass flow, pressure, enthalpy and one mass
      fraction per network fluid. */
  function NumConnVars(numFluids: nat): nat
  {
    numFluids + 3
  }

  /** The size of the state vector: every connection's block, then the
      components' custom variables. */
  function NumVars(numFluids: nat, numConns: nat, numCompVars: nat): nat
  {
    NumConnVars(numFluids) * numConns + numCompVars
  }

  /** The connections' part of the state vector, counted block by block:
      `ncv` variables for each of `numConns` connections. */
  function ConnPart(numConns: nat, ncv: nat): nat
  {
    if numConns == 0 then 0 else ConnPart(numConns - 1, ncv) + ncv
  }

  /** The connections' part holds numConns * ncv variables. */
  lemma {:induction false} ConnPartProduct(numConns: nat, ncv: nat)
    ensures ConnPart(numConns, ncv) == numConns * ncv
  {
    if numConns > 0 {
      ConnPartProduct(numConns - 1, ncv);
      assert numConns * ncv == (numConns - 1) * ncv + ncv;
    }
  }

  datatype DeterminationError =
    | TooMany(required: nat, supplied: nat)
    | NotEnough(required: nat, supplied: nat)

  /** Network.solve_determination: the system must be square. */
  function Determination(numFluids: nat, numConns: nat, numCompVars: nat,
                         numCompEq: nat, numConnEq: nat, numBusEq: nat): (r: Outcome<DeterminationError>)
    ensures var required := (numFluids + 3) * numConns + numCompVars;
            var supplied := numCompEq + numConnEq + numBusEq;
            && (r.Pass? <==> supplied == required)
            && (r.Fail? && r.error.TooMany? <==> supplied > required)
            && (r.Fail? && r.error.NotEnough? <==> supplied < required)
            && (r.Fail? ==> r.error.required == required && r.error.supplied == supplied)
  {
    var n := numCompEq + numConnEq + numBusEq;
    var required := NumVars(numFluids, numConns, numCompVars);
    if n > required then Fail(TooMany(required, n))
    else if n < required then Fail(NotEnough(required, n))
    else Pass
  }

  /** The generic SI starting value of init_val0 for pressure or enthalpy,
      from the guesses of the source and the target component. */
  function StartSI(key: Prop, guessSource: real, guessTarget: real): (v: real)
    requires key == P || key == H
    ensures guessSource == 0.0 && guessTarget == 0.0 ==> v == (if key == P then 100000.0 else 1000000.0)
    ensures guessSource == 0.0 && guessTarget != 0.0 ==> v == guessTarget
    ensures guessSource != 0.0 && guessTarget == 0.0 ==> v == guessSource
    ensures guessSource != 0.0 && guessTarget != 0.0 ==> v - guessSource == guessTarget - v
  {
    if guessSource == 0.0 && guessTarget == 0.0 then (if key == P then 100000.0 else 1000000.0)
    else if guessSource == 0.0 then guessTarget
    else if guessTarget == 0.0 then guessSource
    else (guessSource + guessTarget) / 2.0
  }

  /** Non-negative guesses give a positive starting value that lies between
      the non-zero guesses. */
  lemma {:induction false} StartSIPositive(key: Prop, guessSource: real, guessTarget: real)
    requires key == P || key == H
    requires guessSource >= 0.0 && guessTarget >= 0.0
    ensures StartSI(key, guessSource, guessTarget) > 0.0
    ensures guessSource > 0.0 && guessTarget > 0.0 ==>
      (guessSource <= StartSI(key, guessSource, guessTarget) <= guessTarget) ||
      (guessTarget <= StartSI(key, guessSource, guessTarget) <= guessSource)
  {
  }

  /** Network.init_val0: a starting value that is not NaN (`Some`) stays;
      otherwise the mass flow starts at 1 and pressure and enthalpy at the
      generic SI value, converted into the network's unit. */
  function InitVal0(key: Prop, val0: Option<real>, guessSource: real, guessTarget: real, netUnit: string): (r: real)
    requires key == M || ((key == P || key == H) && KnownUnit(key, netUnit))
    ensures val0.Some? ==> r == val0.value
    ensures val0.None? && key == M ==> r == 1.0
    ensures val0.None? && key != M ==> ToSI(key, r, netUnit) == StartSI(key, guessSource, guessTarget)
  {
    if val0.Some? then val0.value
    else if key == M then 1.0
    else
      var v := FromSI(key, StartSI(key, guessSource, guessTarget), netUnit);
      FromSIToSI(key, StartSI(key, guessSource, guessTarget), netUnit);
      v
  }

  /** The SI value init_properties derives for a free property, as written:
      the generic start value is converted out of SI with the network's unit
      and back in with the connection's own unit. */
  function StartValueSIAsWritten(key: Prop, guessSource: real, guessTarget: real, netUnit: string, connUnit: string): real
    requires (key == P || key == H) && KnownUnit(key, netUnit) && KnownUnit(key, connUnit)
  {
    ToSI(key, InitVal0(key, None, guessSource, guessTarget, netUnit), connUnit)
  }

  /** A connection whose pressure unit is Pa in a network working in bar
      starts at 1 Pa instead of the generic 1 bar. */
  lemma {:induction false} StartValueAsWrittenMisScaled()
    ensures StartValueSIAsWritten(P, 0.0, 0.0, "bar", "Pa") == 1.0
    ensures StartSI(P, 0.0, 0.0) == 100000.0
  {
    var v := InitVal0(P, None, 0.0, 0.0, "bar");
    assert ToSI(P, v, "bar") == 100000.0;
    assert v * 100000.0 == 100000.0;
  }

  /** The starting value in the connection's own unit, the unit in which
      init_properties converts it back to SI. */
  function StartValue(key: Prop, val0: Option<real>, guessSource: real, guessTarget: real, connUnit: string): (r: real)
    requires key == M || ((key == P || key == H) && KnownUnit(key, connUnit))
    ensures val0.Some? ==> r == val0.value
    ensures val0.None? && key == M ==> r == 1.0
  {
    InitVal0(key, val0, guessSource, guessTarget, connUnit)
  }

  /** With the connection's unit used on both sides the SI starting value is
      the generic one, whatever the units. */
  lemma {:induction false} StartValueSIExact(key: Prop, guessSource: real, guessTarget: real, connUnit: string)
    requires (key == P || key == H) && KnownUnit(key, connUnit)
    ensures ToSI(key, StartValue(key, None, guessSource, guessTarget, connUnit), connUnit) == StartSI(key, guessSource, guessTarget)
  {
  }
}
