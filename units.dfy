/** The network's unit system: the conversion tables of
    Network.set_defaults and the conversions convert_to_SI / convert_from_SI
    (src/tespy/networks/network.py), plus the unit and range handling of
    Network.set_attr. */
module Units {
  import opened Wrappers

  /** The fluid properties of a connection that carry a unit. */
  datatype Prop = M | V | P | H | T | Vol | X | S | TdBp

  /** Physical magnitudes used to state what a unit factor must be. */
  const Tonne: real := 1000.0   // kg
  const Hour: real := 3600.0    // s
  const Litre: real := 0.001    // m3

  /** The scale tables exactly as Network.set_defaults writes them. */
  function ScaleTableAsWritten(prop: Prop): map<string, real>
    requires prop != T && prop != TdBp
  {
    match prop
    case M => map["kg / s" := 1.0, "t / h" := 3.6]
    case P => map["Pa" := 1.0, "psi" := 6894.8, "bar" := 100000.0, "MPa" := 1000000.0]
    case H => map["J / kg" := 1.0, "kJ / kg" := 1000.0, "MJ / kg" := 1000000.0]
    case Vol => map["m3 / kg" := 1.0, "l / kg" := 0.001]
    case S => map["J / kgK" := 1.0, "kJ / kgK" := 1000.0, "MJ / kgK" := 1000000.0]
    case V => map["m3 / s" := 1.0, "l / s" := 0.001, "m3 / h" := 1.0 / 3600.0, "l / h" := 1.0 / 3.6]
    case X => map["-" := 1.0, "%" := 0.01]
  }

  /** The scale tables with the two mis-scaled entries corrected: one tonne
      per hour and one litre per hour expressed in SI units. Every other
      entry is the one written in the source. */
  function ScaleTable(prop: Prop): (table: map<string, real>)
    requires prop != T && prop != TdBp
    ensures table.Keys == ScaleTableAsWritten(prop).Keys
    ensures forall u :: u in table && u != "t / h" && u != "l / h" ==> table[u] == ScaleTableAsWritten(prop)[u]
  {
    match prop
    case M => map["kg / s" := 1.0, "t / h" := 1.0 / 3.6]
    case V => map["m3 / s" := 1.0, "l / s" := 0.001, "m3 / h" := 1.0 / 3600.0, "l / h" := 1.0 / 3600000.0]
    case P => ScaleTableAsWritten(P)
    case H => ScaleTableAsWritten(H)
    case Vol => ScaleTableAsWritten(Vol)
    case S => ScaleTableAsWritten(S)
    case X => ScaleTableAsWritten(X)
  }

  /** Offset and factor of the temperature units: SI = (value + offset) * factor. */
  function TempTable(): map<string, (real, real)>
  {
    map["C" := (273.15, 1.0), "F" := (459.67, 5.0 / 9.0), "K" := (0.0, 1.0), "R" := (0.0, 5.0 / 9.0)]
  }

  /** The units a property may be given in. Td_bp shares the temperature table. */
  predicate KnownUnit(prop: Prop, unit: string)
  {
    if prop == T || prop == TdBp then unit in TempTable() else unit in ScaleTable(prop)
  }

  /** The multiplicative part of a conversion; never zero. */
  function Factor(prop: Prop, unit: string): (f: real)
    requires KnownUnit(prop, unit)
    ensures f > 0.0
  {
    if prop == T || prop == TdBp then TempTable()[unit].1 else ScaleTable(prop)[unit]
  }

  /** Scaling by a positive factor is undone by dividing by it. */
  lemma ScaleInverse(v: real, f: real)
    requires f > 0.0
    ensures (v * f) / f == v
  {
  }

  /** Scaling by a positive factor keeps strict order. */
  lemma ScaleOrder(a: real, b: real, f: real)
    requires f > 0.0 && a < b
    ensures a * f < b * f
  {
    assert b * f - a * f == (b - a) * f;
  }

  /** convert_to_SI: temperatures are affine, a boiling-point difference
      uses only the temperature factor, everything else is scaled. */
  function ToSI(prop: Prop, value: real, unit: string): (si: real)
    requires KnownUnit(prop, unit)
    ensures FromSI(prop, si, unit) == value
    ensures prop != T ==> si == value * Factor(prop, unit)
    ensures prop == T ==> si == (value + TempTable()[unit].0) * Factor(prop, unit)
  {
    var f := Factor(prop, unit);
    var v := if prop == T then value + TempTable()[unit].0 else value;
    ScaleInverse(v, f);
    v * f
  }

  /** convert_from_SI, the inverse of ToSI for every known unit. */
  function FromSI(prop: Prop, si: real, unit: string): real
    requires KnownUnit(prop, unit)
  {
    var f := Factor(prop, unit);
    if prop == T then si / f - TempTable()[unit].0 else si / f
  }

  /** Converting a network value to SI and back restores it, and converting
      an SI value out and back restores it too. */
  lemma {:induction false} FromSIToSI(prop: Prop, si: real, unit: string)
    requires KnownUnit(prop, unit)
    ensures ToSI(prop, FromSI(prop, si, unit), unit) == si
  {
    var f := Factor(prop, unit);
    if prop == T {
      var o := TempTable()[unit].0;
      calc {
        ToSI(prop, FromSI(prop, si, unit), unit);
        (si / f - o + o) * f;
      }
    }
  }

  /** Conversion to SI is strictly increasing in the value (every factor is
      positive), so it preserves the order of range bounds. */
  lemma {:induction false} ToSIMonotone(prop: Prop, a: real, b: real, unit: string)
    requires KnownUnit(prop, unit) && a < b
    ensures ToSI(prop, a, unit) < ToSI(prop, b, unit)
  {
    var o := if prop == T then TempTable()[unit].0 else 0.0;
    ScaleOrder(a + o, b + o, Factor(prop, unit));
  }

  /** With the tables as written, one tonne per hour converts to 3.6 kg/s,
      although it is 1000/3600 kg/s, and one litre per hour converts to
      1/3.6 m3/s, although it is 0.001/3600 m3/s. */
  lemma {:induction false} AsWrittenFlowUnitsMisScaled()
    ensures ScaleTableAsWritten(M)["t / h"] == 3.6 && 3.6 != Tonne / Hour
    ensures ScaleTableAsWritten(V)["l / h"] == 1.0 / 3.6 && 1.0 / 3.6 != Litre / Hour
    ensures 3.6 * ScaleTableAsWritten(M)["t / h"] != 1.0
  {
  }

  /** The corrected factors are the SI magnitudes of the units: 3.6 t/h is
      exactly 1 kg/s and 3600 l/h is exactly 1 l/s. */
  lemma {:induction false} FlowUnitsAreSIMagnitudes()
    ensures ScaleTable(M)["t / h"] == Tonne / Hour
    ensures ScaleTable(V)["l / h"] == Litre / Hour
    ensures ScaleTable(V)["m3 / h"] == 1.0 / Hour && ScaleTable(V)["l / s"] == Litre
    ensures ToSI(M, 3.6, "t / h") == ToSI(M, 1.0, "kg / s")
    ensures ToSI(V, 3600.0, "l / h") == ToSI(V, 1.0, "l / s")
  {
  }

  /** Temperature scales agree on the same physical temperature: 0 C, 32 F,
      273.15 K and 491.67 R are all 273.15 K. */
  lemma {:induction false} TemperatureScalesAgree()
    ensures ToSI(T, 0.0, "C") == 273.15
    ensures ToSI(T, 32.0, "F") == 273.15
    ensures ToSI(T, 273.15, "K") == 273.15
    ensures ToSI(T, 491.67, "R") == 273.15
  {
  }

  /** The properties whose unit Network.set_attr accepts (SI_units keys). */
  predicate NetworkProp(prop: Prop)
  {
    prop != TdBp
  }

  datatype UnitError = UnknownUnit(prop: Prop, unit: string)

  /** Network.set_attr unit validation: a unit outside the property's table
      is refused with a ValueError, otherwise it becomes the network unit. */
  function SetUnit(prop: Prop, unit: string): (r: Result<string, UnitError>)
    requires NetworkProp(prop)
    ensures r.Ok? <==> KnownUnit(prop, unit)
    ensures r.Ok? ==> r.value == unit
    ensures r.Err? ==> r.error == UnknownUnit(prop, unit)
  {
    if KnownUnit(prop, unit) then Ok(unit) else Err(UnknownUnit(prop, unit))
  }

  /** A value range, [min, max]. */
  datatype Range = Range(lo: real, hi: real)

  /** Network.set_attr on m_range, p_range, h_range: the user range is scaled
      by the network unit to give the SI range. */
  function RangeToSI(prop: Prop, range: Range, unit: string): (si: Range)
    requires prop in {M, P, H} && KnownUnit(prop, unit)
    ensures si == Range(ToSI(prop, range.lo, unit), ToSI(prop, range.hi, unit))
  {
    Range(range.lo * ScaleTable(prop)[unit], range.hi * ScaleTable(prop)[unit])
  }

  /** A well-formed user range stays well-formed in SI units. */
  lemma {:induction false} RangeToSIKeepsOrder(prop: Prop, range: Range, unit: string)
    requires prop in {M, P, H} && KnownUnit(prop, unit) && range.lo < range.hi
    ensures RangeToSI(prop, range, unit).lo < RangeToSI(prop, range, unit).hi
  {
    ToSIMonotone(prop, range.lo, range.hi, unit);
  }

  /** The non-SI range that set_attr stores next to the SI range gives back
      the user's range. */
  function RangeFromSI(prop: Prop, si: Range, unit: string): (r: Range)
    requires prop in {M, P, H} && KnownUnit(prop, unit)
    ensures RangeToSI(prop, r, unit) == si
  {
    FromSIToSI(prop, si.lo, unit);
    FromSIToSI(prop, si.hi, unit);
    Range(FromSI(prop, si.lo, unit), FromSI(prop, si.hi, unit))
  }

  /** The generic SI value ranges set by Network.set_defaults. */
  const DefaultMassRange: Range := Range(-1000000000000.0, 1000000000000.0)
  const DefaultPressureRange: Range := Range(200.0, 30000000.0)
  const DefaultEnthalpyRange: Range := Range(1000.0, 7000000.0)
}
