# A verified model of the TESPy network solver core

TESPy (Thermal Engineering Systems in Python) solves a thermal plant as a
square system of nonlinear equations. Connections carry mass flow,
pressure, enthalpy and a vector of fluid mass fractions. Components and
busses add equations over those variables. `Network` checks the topology,
converts user values to SI units, switches parameters between design and
offdesign mode and counts the equations. It then runs a Newton loop:
the residual vector and Jacobian are assembled from components, busses and
connections, a linear system is solved, and each connection takes its
increment and is range-checked.

This project models that core in Dafny, one module per concern:

| module | file | what it holds |
|---|---|---|
| `Globals` | globals.dfy | `err`, the staleness rule for throttled rows, counting and sum helpers |
| `Wrappers` | wrappers.dfy | `Option`, `Result`, `Outcome` |
| `Units` | units.dfy | unit tables, `convert_to_SI` / `convert_from_SI`, unit and range handling of `set_attr` |
| `Connections` | connections.dfy | the connection record, the fluid vector of `init_set_properties`, the equation count of a connection |
| `Setup` | setup.dfy | one connection through `init_set_properties`, component totals, the per-element mode switches |
| `Modes` | modes.dfy | the flag switches of `init_design` / `init_offdesign` on connections and components |
| `Topology` | topology.dfy | `check_conns`, `check_network`, the label check of `init_components` |
| `Counting` | counting.dfy | variable counts, `solve_determination`, `init_val0` starting values |
| `Slots` | slots.dfy | residual slots written at a running row index under the staleness rule |
| `Assembly` | assembly.dfy | equation rows (value, write mode, Jacobian entries) and their writing into arrays |
| `ConnEquations` | conn_equations.dfy | the rows of `solve_connections` and `solve_busses` |
| `Step` | step.dfy | the per-connection step of `solve_control` and `solve_check_props` |
| `Newton` | newton.dfy | one Newton iteration: assembly, `matrix_inversion`, the step, residual norms and stop tests |
| `Solver` | network.dfy | the `Network` class: setup, counting, `solve_determination`, `solve_loop` |
| `HeatExchanger` | heat_exchanger.dfy | the `HeatExchanger` component |
| `ParabolicTrough` | parabolic_trough.dfy | the `ParabolicTrough` component |
| `Separator` | separator.dfy | the `Separator` component |

`Network`, `HeatExchanger`, `ParabolicTrough` and `Separator` are classes.
Their methods update fields, and the residual and Jacobian are arrays written
in place. Connections and component records are datatype values, held in
sequence fields of `Network`.

Some things lie outside the model and are passed in as parameters:
- the fluid-property library (temperatures, vapour fractions, volumes);
- the linear solver (`np.linalg.inv`);
- characteristic lines and the natural logarithm;
- the residuals and derivatives of the rows that need those calls, and the
  increment filter that skips Jacobian cells whose last increment was
  below err squared.
Each of these is stated as a value or a function argument, and the model
states what it assumes of it. For example, `LinearSolver` must only return
solutions of the system it is given and, on a square system, fail exactly
when the matrix is singular (`Newton.SolverSound`); the logarithm must satisfy
`1 - 1/x < ln x < x - 1`.

The fluid balance row of `solve_connections` writes its Jacobian entries at
column `conn_loc + 3 + j`. The connection's own fraction block starts at
`conn_loc * num_conn_vars + 3`. These columns are modelled as written, and
`ConnEquations.BalanceColumnsBeforeOwnBlock` states where they fall.

The tolerance `err` comes from `tespy.tools.global_vars`, which is not part
of this model. `Globals.Err` fixes it at 1e-6 as an assumption; the proofs
use only `0 < err < 0.5` (`Globals.ConstantsAgree`).

## Model

| member | source | states |
|---|---|---|
| Globals.ConstantsAgree | src/tespy/networks/network.py:1579-1586 | the tolerance err**2 is err times err, err**0.5 squared is err, and 0 < err < 0.5 |
| Globals.KeptOnlyWhenSettled | src/tespy/components/heat_exchangers/heat_exchanger.py:286-289 | a throttled row keeps its old residual exactly when that residual lies within ±err**2, the iteration is not a multiple of the period and always_all_equations is off |
| Globals.Count | src/tespy/networks/network.py:1327-1333 | the number of true flags is at most the list length and is zero when no flag is set |
| Globals.CountPrefixMonotone | src/tespy/components/heat_exchangers/heat_exchanger.py:232-235 | the count of set flags grows along the list, strictly past a set flag, so the set parameters get distinct rows in counting order |
| Globals.Max | src/tespy/networks/network.py:1758-1759 | max(a, b) is at least both arguments and equals one of them |
| Units.ScaleTable | src/tespy/networks/network.py:196-216 | same units as the as-written tables; the factor differs only for 't / h' and 'l / h' |
| Units.Factor | src/tespy/networks/network.py:196-216 | every known unit has a positive factor |
| Units.ToSI | src/tespy/networks/network.py:392-399 | converting to SI is undone by converting back; non-temperatures scale by the factor; temperatures add the offset, then scale |
| Units.FromSIToSI | src/tespy/networks/network.py:421-428 | converting an SI value out to a unit and back restores it |
| Units.ToSIMonotone | src/tespy/networks/network.py:392-399 | conversion to SI is strictly increasing in the value |
| Units.AsWrittenFlowUnitsMisScaled | src/tespy/networks/network.py:197 | as written, 't / h' has factor 3.6, not 1000/3600 kg/s, and 'l / h' has 1/3.6, not 0.001/3600 m³/s |
| Units.FlowUnitsAreSIMagnitudes | src/tespy/networks/network.py:213-215 | the corrected factors are the SI magnitudes, so 3.6 t/h equals 1 kg/s and 3600 l/h equals 1 l/s |
| Units.TemperatureScalesAgree | src/tespy/networks/network.py:207-210 | 0 °C, 32 °F, 273.15 K and 491.67 °R all convert to 273.15 K |
| Units.SetUnit | src/tespy/networks/network.py:321-333 | set_attr accepts a unit exactly when it is in the property's table; otherwise it raises an unknown-unit error naming the property and the unit |
| Units.RangeToSI | src/tespy/networks/network.py:335-347 | a user range turns into the SI range given by converting both bounds |
| Units.RangeToSIKeepsOrder | src/tespy/networks/network.py:335-347 | a well-formed range stays well-formed in SI |
| Units.RangeFromSI | src/tespy/networks/network.py:357-363 | the stored non-SI range converts back to the SI range it came from |
| Connections.With | src/tespy/networks/network.py:778-788 | replacing one property changes only that property |
| Connections.SameProperties | src/tespy/networks/network.py:778-788 | two connections that agree on the nine properties and on every other field are equal |
| Connections.InitQuantity | src/tespy/networks/network.py:778-788 | a property without a unit takes the network's unit; a fixed value gets the SI value that converts back to the user value; nothing else changes |
| Connections.AllPropsComplete | src/tespy/networks/network.py:778-788 | init_set_properties visits every property |
| Connections.InitFluid | src/tespy/networks/network.py:791-833 | a fluid the network does not know is an error naming exactly the unknown fluids. A single-fluid network fixes that fluid at 1. In a multi-fluid network each network fluid takes the user fraction, else the starting fraction, else 0; its flag is kept only with a user fraction. Balance and design are kept |
| Connections.InitFluidKeepsUserValues | src/tespy/networks/network.py:817-833 | a user-fixed fraction keeps its value and flag; a fluid with neither a fraction nor a starting value gets 0, unfixed |
| Connections.InitFluidCoversNetworkFluids | src/tespy/networks/network.py:806-833 | when every fixed flag comes with a fraction, every network fluid ends with a fraction and a flag |
| Connections.InitFluidDropsFlagWithoutFraction | src/tespy/networks/network.py:820-826 | a fixed flag with only a starting value does not produce a fraction entry |
| Connections.FluidSetCount | src/tespy/networks/network.py:1332 | at most one fixed fraction per network fluid |
| Connections.ConnEquationCount | src/tespy/networks/network.py:1327-1333 | a connection adds at most 12 + \|fluids\| equations, and none exactly when no value, reference, fraction or balance is set |
| Connections.TotalConnEquationsStep | src/tespy/networks/network.py:1285 | num_conn_eq grows by each connection's count in turn |
| Setup.ConnToSI | src/tespy/networks/network.py:778-788 | the SI pass changes only the nine properties |
| Setup.ConnToSIRoundTrip | src/tespy/networks/network.py:778-788 | after the SI pass each property equals its InitQuantity, and a fixed value converts back to the user value |
| Setup.ConnWithSI | src/tespy/networks/network.py:773-788 | good_starting_values survives only when init from the previous solution is requested; fluids are untouched |
| Setup.PrepareConn | src/tespy/networks/network.py:767-838 | a connection fails exactly when it names an unknown fluid, and the error names those fluids; otherwise it is the SI pass with the InitFluid vector |
| Setup.TotalCompStep | src/tespy/networks/network.py:965-968 | num_comp_eq and num_comp_vars grow by each component's counts in turn |
| Setup.CompVarsBlockWithin | src/tespy/networks/network.py:1788-1804 | a component's custom variables lie inside the total custom-variable block |
| Modes.UnsetConnProps | src/tespy/networks/network.py:1147-1150 | the listed properties become unfixed (and unreferenced when asked); values and every other property stay |
| Modes.SetConnProps | src/tespy/networks/network.py:1151-1154 | the listed properties become fixed, taking their design value when asked; every other property stays |
| Modes.ConnToOffdesign | src/tespy/networks/network.py:1145-1156 | design properties are unfixed with their references, offdesign properties are fixed, and new_design is cleared |
| Modes.ClearDesign | src/tespy/networks/network.py:881-887 | the design values of m, p, h and the fluid are cleared, and nothing else changes |
| Modes.Redesign | src/tespy/networks/network.py:888-896 | offdesign properties are unfixed, design properties not in the offdesign list are fixed, and only fixed flags change |
| Modes.ConnToDesign | src/tespy/networks/network.py:881-896 | without local_offdesign: the design values are cleared, redesign flags are switched when asked, and new_design is set |
| Modes.ConnLocalOffdesign | src/tespy/networks/network.py:854-879 | with local_offdesign: fails exactly when no design_path is given, else the connection switches to offdesign |
| Modes.SetCompFlags | src/tespy/networks/network.py:918-931 | the listed parameters take the flag (and their design value when asked for a property); the other parameters stay |
| Modes.CompToOffdesign | src/tespy/networks/network.py:912-951 | design parameters are unfixed, offdesign parameters are fixed (component properties at their design values), and nothing but the parameters changes |
| Modes.CompToDesign | src/tespy/networks/network.py:953-962 | with redesign: offdesign parameters are unfixed and design parameters are fixed |
| Topology.FirstDuplicate | src/tespy/networks/network.py:520-551 | finds the first key that occurred before, and none exactly when the keys are distinct |
| Topology.RepeatedNotDistinct | src/tespy/networks/network.py:520-551 | a repeated key means the keys are not distinct |
| Topology.Unique | src/tespy/networks/network.py:619 | pd.unique gives distinct elements, exactly those of the input |
| Topology.UniqueKeepsFirstAppearanceOrder | src/tespy/networks/network.py:619 | pd.unique orders elements by first appearance |
| Topology.Endpoints | src/tespy/networks/network.py:619 | every connection's source and target, in ravel order |
| Topology.EndpointsMember | src/tespy/networks/network.py:619 | a component is an endpoint exactly when some connection touches it |
| Topology.OutCount | src/tespy/networks/network.py:624-632 | outgoing connections are counted, zero exactly when none leaves the component |
| Topology.InCount | src/tespy/networks/network.py:633-642 | incoming connections are counted, zero exactly when none enters the component |
| Topology.CheckConns | src/tespy/networks/network.py:518-551 | passes exactly when no source port and no target port is used twice; a failure names the first reused port |
| Topology.NetworkComponents | src/tespy/networks/network.py:619 | the component table holds each component of a connection exactly once |
| Topology.NetworkComponentsWithin | src/tespy/networks/network.py:619 | the component table only names components of the list |
| Topology.CountsFromStart | src/tespy/networks/network.py:624-642 | the count check passes exactly when every component has as many connections as ports, and otherwise reports a mismatching component |
| Topology.Labels | src/tespy/networks/network.py:695-701 | the labels of the component table, in its order |
| Topology.UniqueLabelsDistinct | src/tespy/networks/network.py:695-701 | labels are unique exactly when the label list is distinct; otherwise the duplicates are not empty |
| Topology.CheckCountsFrom | src/tespy/networks/network.py:624-642 | the count check from a position passes exactly when every later component's counts match |
| Topology.FirstMismatch | src/tespy/networks/network.py:624-642 | the position of the first component from a given position whose inlet or outlet count does not match, every component before it matching; the end of the list when all match |
| Topology.CheckNetwork | src/tespy/networks/network.py:615-645 | passes exactly when ports are used once, labels are unique and counts match; each error implies that the earlier checks passed; a label error carries exactly the labels that occur more than once (the check of network.py:694-701); a count error is the one of the first component, in network order, whose in- or outlet count differs from its declared number |
| Counting.ConnPartProduct | src/tespy/networks/network.py:1617-1618 | the connection part of the state vector is num_conns * num_conn_vars |
| Counting.Determination | src/tespy/networks/network.py:1609-1644 | passes exactly when the equations supplied equal the variables required; too many or too few raise the matching error carrying both numbers |
| Counting.StartSI | src/tespy/networks/network.py:1380-1394 | without guesses, 1e5 Pa and 1e6 J/kg; with one guess, that guess; with two, their midpoint |
| Counting.StartSIPositive | src/tespy/networks/network.py:1380-1394 | non-negative guesses give a positive start, between the two guesses when both are positive |
| Counting.InitVal0 | src/tespy/networks/network.py:1372-1398 | a given val0 stays; m starts at 1; p and h start at the StartSI value converted out with the network unit |
| Counting.StartValueAsWrittenMisScaled | src/tespy/networks/network.py:1278-1283 | as written, a Pa connection in a bar network starts at 1 Pa instead of 1e5 Pa |
| Counting.StartValue | src/tespy/networks/network.py:1372-1398 | the corrected start: val0 converted out with the connection's own unit |
| Counting.StartValueSIExact | src/tespy/networks/network.py:1281-1283 | with the corrected start, init_properties recovers the StartSI value exactly |
| Slots.Fill | src/tespy/components/heat_exchangers/heat_exchanger.py:277-345 | the slots written from row k: the vector keeps its length |
| Slots.FillOutside | src/tespy/components/heat_exchangers/heat_exchanger.py:277-345 | rows outside the written block keep their values |
| Slots.FillAt | src/tespy/components/heat_exchangers/heat_exchanger.py:277-345 | the i-th set slot lands at row k plus the number of set slots before it |
| Slots.FillValue | src/tespy/components/heat_exchangers/heat_exchanger.py:285-289 | that row holds the slot's value, or under throttling the value or the old residual as the staleness rule says |
| Slots.RowsIncrease | src/tespy/components/heat_exchangers/heat_exchanger.py:277-345 | later set slots get strictly later rows |
| Slots.WriteSlots | src/tespy/components/heat_exchangers/heat_exchanger.py:277-345 | the loop writes exactly Fill and returns the row after the last set slot |
| Assembly.RowAfter | src/tespy/networks/network.py:2171-2172 | a Jacobian row after its entries are written in order keeps its width |
| Assembly.RowAfterOutside | src/tespy/networks/network.py:2171-2172 | columns no entry names keep their values |
| Assembly.RowAfterAt | src/tespy/networks/network.py:2171-2172 | a column some entry names holds the value of the last entry naming it |
| Assembly.ResidualAfter | src/tespy/networks/network.py:2157-2296 | rows written from row k change only the rows k.. k + n |
| Assembly.JacobianAfter | src/tespy/networks/network.py:2157-2296 | the same for the Jacobian rows |
| Assembly.ResidualAfterAt | src/tespy/networks/network.py:2168-2170 | a row of mode Always holds its value |
| Assembly.WriteEntries | src/tespy/networks/network.py:2171-2172 | the loop leaves exactly RowAfter in the row and no other row changes |
| Assembly.WriteRows | src/tespy/networks/network.py:2157-2296 | the loop leaves exactly ResidualAfter and JacobianAfter and returns the row after the last |
| ConnEquations.RefRowShape | src/tespy/networks/network.py:2164-2173 | a reference row vanishes exactly when val = ref.val * f + d, and its entries are 1 at its own column and -f at the referenced one |
| ConnEquations.Fractions | src/tespy/networks/network.py:2267-2276 | the fractions of the network fluids, in order |
| ConnEquations.RemainderIsOneMinusSum | src/tespy/networks/network.py:2267-2276 | the balance residual is 1 minus the sum of fractions, so it vanishes exactly when they sum to 1 |
| ConnEquations.BalanceColumnsBeforeOwnBlock | src/tespy/networks/network.py:2272 | the balance entries sit at conn_loc + 3 + j: inside the own fraction block only for the first connection, before it for every other |
| ConnEquations.FluidFixedRowsCount | src/tespy/networks/network.py:2290-2296 | one fixed-fraction row per fixed network fluid |
| ConnEquations.RefRowsCount | src/tespy/networks/network.py:2164-2173 | one reference row per referenced m, p or h |
| ConnEquations.TempRowShape | src/tespy/networks/network.py:2176-2190 | the temperature row puts -dT/dp and -dT/dh in the connection's p and h columns and -dT/dfluid in its fluid columns, the last only with several fluids and not all of those columns filtered; every other column keeps its entry |
| ConnEquations.TempRefRowShape | src/tespy/networks/network.py:2192-2223 | the referenced temperature row puts +dT/dp and +dT/dh of the own flow, -f times those of the referenced flow, then +dT/dfluid of the own flow and -dT/dfluid of the referenced one (without f), each fluid block only when not all filtered; a later write wins where columns coincide, every other column keeps its entry |
| ConnEquations.QualityRowShape | src/tespy/networks/network.py:2225-2235 | the vapour fraction row puts 1 in the h column and -dh/dp at saturation in the p column unless that column is filtered; every other column keeps its entry |
| ConnEquations.VolumeRowShape | src/tespy/networks/network.py:2237-2249 | the volumetric flow row puts -v in the m column and -dv/dp * m and -dv/dh * m in the p and h columns; every other column keeps its entry |
| ConnEquations.BoilingRowShape | src/tespy/networks/network.py:2251-2264 | the boiling point row puts dT/dp - dT_bp/dp in the p column and dT/dh in the h column, each unless its column is filtered; every other column keeps its entry |
| ConnEquations.PropRowsCount | src/tespy/networks/network.py:2176-2264 | one row per fixed T, referenced T, fixed x, fixed v and fixed Td_bp |
| ConnEquations.DynamicRowsCount | src/tespy/networks/network.py:2164-2276 | the per-iteration rows: references, property rows and the balance row |
| ConnEquations.FixedRowsCount | src/tespy/networks/network.py:2279-2296 | the first-iteration rows: fixed m, p, h and fixed fractions |
| ConnEquations.ConnRowsCount | src/tespy/networks/network.py:2157-2296 | a connection writes exactly the number of equations init_count_connections_parameters counted for it |
| ConnEquations.AllRowsCount | src/tespy/networks/network.py:2157-2296 | the per-iteration and first-iteration rows of the first n connections add up to their counted equations |
| ConnEquations.ConnectionRowsCount | src/tespy/networks/network.py:2157-2296 | in iteration 0 solve_connections fills exactly num_conn_eq rows, and never more |
| ConnEquations.DynamicRowsPlace | src/tespy/networks/network.py:2157-2276 | a connection's per-iteration rows follow those of the connections before it |
| ConnEquations.ConnectionRowsWithin | src/tespy/networks/network.py:2157-2296 | every connection row's Jacobian entry addresses a column of the connection part |
| ConnEquations.BusResidualZero | src/tespy/networks/network.py:2306-2325 | a bus row is P minus the sum of the component bus values, so it vanishes exactly when they add up to P |
| ConnEquations.BusFlags | src/tespy/networks/network.py:898-904 | the fixed-power flags of the busses |
| ConnEquations.BusRowsCount | src/tespy/networks/network.py:2306-2325 | solve_busses writes exactly num_bus_eq rows |
| ConnEquations.BusRowsWithin | src/tespy/networks/network.py:2306-2325 | every bus row's entry addresses a connection column |
| Step.RelaxedPressurePositive | src/tespy/networks/network.py:1756-1761 | from a positive pressure the step takes the full increment unless that falls below half the pressure, and then lands on half; the result stays ≥ p/2 |
| Step.RelaxedPressureNonNegative | src/tespy/networks/network.py:1756-1761 | the step never leaves the non-negative pressures; from 0 it gives max(0, inc) |
| Step.ClampFraction | src/tespy/networks/network.py:1766-1781 | fractions below err snap to 0 and those above 1 - err to 1; the result lies in [0, 1] |
| Step.ClampFractionIdempotent | src/tespy/networks/network.py:1766-1781 | clamping twice is clamping once |
| Step.StepFraction | src/tespy/networks/network.py:1766-1781 | a free fraction takes its increment and the clamp; a fixed fraction inside (err, 1 - err) stays |
| Step.StepFluids | src/tespy/networks/network.py:1766-1781 | after the step every network fluid's fraction lies in [0, 1]; other entries stay |
| Step.StepConn | src/tespy/networks/network.py:1751-1785 | free m and h take their increments, fixed ones stay; a free positive pressure stays ≥ half; only state changes |
| Step.ClampsInRange | src/tespy/networks/network.py:1904-1934 | both bound checks land in the range, leave interior values alone and are idempotent |
| Step.CheckProps | src/tespy/networks/network.py:1904-1934 | fixed values stay; a free m lands in its range; p and h are checked only in the first four iterations without good starting values |
| Step.CheckPropsIdempotent | src/tespy/networks/network.py:1806-1812 | applying the check again changes nothing |
| Step.PressureStaysPositive | src/tespy/networks/network.py:1756-1761 | a positive pressure stays positive through the step and the check when the pressure range is positive |
| Step.StepVar | src/tespy/networks/network.py:1788-1804 | a custom variable takes its increment and is clamped into [min_val, max_val] |
| Newton.SteppedConn | src/tespy/networks/network.py:1751-1785 | the stepped and checked connection differs only in its state |
| Newton.SteppedConnKeepsFixed | src/tespy/networks/network.py:1751-1785 | the step never touches a fixed m, p or h |
| Newton.SteppedConnInRange | src/tespy/networks/network.py:1751-1785 | after the step a free m is in range, a positive p stays positive, and every mixture fraction is in [0, 1] |
| Newton.SecondCheckKeeps | src/tespy/networks/network.py:1806-1812 | the second check of the first three iterations changes nothing |
| Newton.SteppedVars | src/tespy/networks/network.py:1788-1804 | each custom variable changes only its value, stays within its bounds, and takes the full increment when that stays within them |
| Newton.SteppedConns | src/tespy/networks/network.py:1751-1785 | connection i takes increment block i |
| Newton.SteppedConnsReady | src/tespy/networks/network.py:1751-1785 | the stepped connections stay ready for assembly and keep num_conn_eq |
| Newton.StepConns | src/tespy/networks/network.py:1751-1785 | the loop computes exactly SteppedConns |
| Newton.RecheckConns | src/tespy/networks/network.py:1806-1812 | the second check loop returns the connections unchanged |
| Newton.StepAndCheckConns | src/tespy/networks/network.py:1751-1812 | the whole connection step equals SteppedConns |
| Newton.ConnEquationCountKept | src/tespy/networks/network.py:1327-1333 | a connection that changed only its state counts the same equations |
| Newton.StepKeepsReady | src/tespy/networks/network.py:1751-1785 | connections that changed only state and keep their fraction keys stay ready for assembly and keep num_conn_eq |
| Newton.TotalConnEquationsKept | src/tespy/networks/network.py:1327-1333 | connections that changed only state count the same equations |
| Newton.SteppedAllVars | src/tespy/networks/network.py:1788-1804 | every component's variables are stepped at their offset and stay within their bounds |
| Newton.StepVars | src/tespy/networks/network.py:1792-1804 | the loop computes exactly SteppedVars |
| Newton.StepAllVars | src/tespy/networks/network.py:1788-1804 | the loop computes exactly SteppedAllVars, offset by sum_c_var |
| Newton.NoCustomVarsUnchanged | src/tespy/networks/network.py:1788 | without custom variables the variables stay as they are |
| Newton.MatrixInversion | src/tespy/networks/network.py:1714-1729 | lin_dep exactly when the solver fails, then a zero increment; otherwise the increment solves J x = -r; for a sound solver on a square system lin_dep holds exactly when J is singular |
| Newton.NormBelowTolerance | src/tespy/networks/network.py:1586 | a norm is below err**0.5 exactly when its square is below err |
| Newton.NormRatioSquared | src/tespy/networks/network.py:1591-1592 | a norm is ≥ 0.95 times another exactly when its square is ≥ 0.9025 times the other's square |
| Newton.RunningExtended | src/tespy/networks/network.py:1577-1594 | a history that met no stop test stays so when the new norm meets none |
| Newton.AssembledResidual | src/tespy/networks/network.py:1741-1749 | components from row 0, busses from num_comp_eq + num_conn_eq, connections from num_comp_eq; the length is kept |
| Newton.AssembledJacobian | src/tespy/networks/network.py:1741-1749 | the same layout for the Jacobian, which keeps its shape |
| Newton.AssembleRows | src/tespy/networks/network.py:1741-1749 | the writes leave exactly AssembledResidual and AssembledJacobian |
| Newton.AssembledRows | src/tespy/networks/network.py:1741-1749 | the three row groups do not overlap: each holds its own values |
| Solver.StepKeepsNetReady | src/tespy/networks/network.py:1751-1804 | the step keeps the network ready for the next iteration |
| Solver.SolveAndStep | src/tespy/networks/network.py:1714-1804 | when the solver fails (lin_dep): zero increment and nothing changes; otherwise the increment solves the system and connections and variables take their steps |
| Solver.IterPolicy | src/tespy/networks/network.py:2226-2255 | the staleness policy of the connection rows: it carries the iteration number, recomputes every second iteration (`self.iter % 2 == 0`) and always when always_all_equations is set |
| Solver.BusRowsIn | src/tespy/networks/network.py:2306-2325 | num_bus_eq bus rows, all inside the matrix |
| Solver.ConnRowsIn | src/tespy/networks/network.py:2157-2296 | at most num_conn_eq connection rows, exactly that many in iteration 0, all inside the matrix |
| Solver.PropsOf | src/tespy/networks/network.py:1579 | a column is filtered exactly when it has an increment whose absolute value is below err squared |
| Solver.SolveControl | src/tespy/networks/network.py:1741-1812 | the arrays hold the assembled system, whose connection rows carry the fluid property derivatives under the increment filter of the previous increment; lin_dep exactly when it is singular; otherwise the increment solves it and the state is stepped; the network stays ready |
| Solver.Iteration | src/tespy/networks/network.py:1741-1812 | one iteration as a function of the state: the arrays hold the assembled system, filtered by the state's increment; the solver fails exactly when it is singular, and then the increment is zero and connections and variables stay; otherwise the increment solves it; the network stays ready |
| Solver.LinkedKept | src/tespy/networks/network.py:1577-1580 | a step of a trace stays a step when the trace grows |
| Solver.LinkedLast | src/tespy/networks/network.py:1577-1580 | the iteration of a trace's last state links it to the appended state |
| Solver.TraceExtended | src/tespy/networks/network.py:1577-1580 | appending the next iteration's state to a trace gives a trace |
| Solver.TraceFollows | src/tespy/networks/network.py:1577-1580 | in a trace each state is the one the iteration leads to from the state before |
| Solver.TraceAfter | src/tespy/networks/network.py:1577-1580 | state n of a sequence in which each state follows from the one before is the state after n iterations from its first: the loop is deterministic |
| Solver.NewtonIteration | src/tespy/networks/network.py:1577-1580 | the state it leaves (connections, variables, arrays, increment) is Iteration of the state it was given; the squared norm of the new residual joins the history; lin_dep exactly when the solver fails |
| Solver.NewtonPass | src/tespy/networks/network.py:1577-1580 | one pass extends the trace by the state it reaches and its norms by that state's residual norm |
| Solver.NormsExtended | src/tespy/networks/network.py:1580 | the norm of a new state's residual extends the norms of a trace |
| Solver.EndsAfter | src/tespy/networks/network.py:1577-1594 | the state solve_loop ends in is the state after its iterations from the start |
| Solver.LoopEndedHere | src/tespy/networks/network.py:1582-1594 | where the loop breaks or runs out of iterations, the trace, its norms and the held state make up its end |
| Solver.NewtonLoop | src/tespy/networks/network.py:1563-1604 | the states visited form a trace from the given arrays and increments 1, the stored norms are those of its residuals, and the loop ends in its last state; at most max_iter iterations; every earlier norm met no stop test; stopping early means convergence, lin_dep or stagnation; progress is false exactly on stagnation |
| Solver.SetSIValues | src/tespy/networks/network.py:778-788 | the loop over the properties computes exactly ConnToSI |
| Solver.InitSetConnection | src/tespy/networks/network.py:773-833 | one connection through init_set_properties gives exactly PrepareConn |
| Solver.PrepareConns | src/tespy/networks/network.py:767-838 | passes exactly when no connection has an unknown fluid; on failure earlier connections are prepared, the failing one has its SI values, later ones are untouched |
| Solver.CountBusEquations | src/tespy/networks/network.py:898-904 | counts num_bus_eq |
| Solver.DesignConns | src/tespy/networks/network.py:851-896 | passes exactly when every local_offdesign connection has a design path; on failure earlier connections are switched and later ones untouched |
| Solver.DesignComponents | src/tespy/networks/network.py:907-968 | every component is switched for design (offdesign for local_offdesign, redesign flags otherwise); then comp_init recounts it from the switched parameters, and the totals are the sums of those new counts |
| Solver.OffdesignConns | src/tespy/networks/network.py:1145-1156 | every connection is switched for offdesign |
| Solver.OffdesignComponents | src/tespy/networks/network.py:1161-1192 | every component without local_design is switched for offdesign; comp_init recounts each from its switched parameters before new_design is cleared, and the totals are the sums of those new counts |
| Solver.Network.constructor | src/tespy/networks/network.py:154-168 | a network with its fluids, units, ranges, busses, connections and components, all counts zero |
| Solver.Network.InitSetProperties | src/tespy/networks/network.py:767-838 | the connection list after init_set_properties, as PrepareConns |
| Solver.Network.InitCountConnectionsParameters | src/tespy/networks/network.py:1327-1333 | num_conn_eq grows by the connection's count |
| Solver.Network.CountConnections | src/tespy/networks/network.py:1285 | num_conn_eq grows by the total over all connections |
| Solver.Network.InitDesign | src/tespy/networks/network.py:840-968 | fails exactly when a local_offdesign connection lacks a design path, then components and counts stay; otherwise connections and components are switched for design, busses are counted, and num_comp_eq and num_comp_vars grow by the counts comp_init gives the switched components |
| Solver.Network.InitOffdesign | src/tespy/networks/network.py:1123-1200 | connections and components are switched for offdesign; busses are counted, and num_comp_eq and num_comp_vars grow by the counts comp_init gives the switched components |
| Solver.Network.SolveDetermination | src/tespy/networks/network.py:1609-1644 | sets num_conn_vars and num_vars and returns Determination of the counts |
| Solver.Network.Alloc | src/tespy/networks/network.py:1566-1569 | fresh zeroed residual and Jacobian arrays of size num_vars |
| Solver.Network.SolveLoop | src/tespy/networks/network.py:1563-1604 | from zeroed arrays and increments 1, the loop ends as Solver.NewtonLoop states (trace, norms, stop tests), and its final connections, variables, arrays and solver state are stored in the network, which stays ready |
| Solver.Network.Store | src/tespy/networks/network.py:1577-1580 | the network holds the given connections, variables, solver state and arrays, and stays ready |
| HeatExchanger.NumEq | src/tespy/components/heat_exchangers/heat_exchanger.py:231-235 | num_eq is 2 nf + 3 plus one per set optional parameter |
| HeatExchanger.MassFlowResidual | src/tespy/components/heat_exchangers/heat_exchanger.py:498-515 | two mass balance residuals, one per side |
| HeatExchanger.MassFlowDerivExact | src/tespy/components/heat_exchangers/heat_exchanger.py:517-532 | the static mass flow entries are the exact partial derivatives |
| HeatExchanger.EnergyDerivExact | src/tespy/components/heat_exchangers/heat_exchanger.py:366-373 | the energy row's entries are its exact partial derivatives |
| HeatExchanger.EnergyZeroWhenBalanced | src/tespy/components/heat_exchangers/heat_exchanger.py:534-552 | the energy residual vanishes exactly when the heat lost by side 1 is gained by side 2 |
| HeatExchanger.QDerivExact | src/tespy/components/heat_exchangers/heat_exchanger.py:377-382 | the Q row's entries are its exact partial derivatives |
| HeatExchanger.PrDerivExact | src/tespy/components/heat_exchangers/heat_exchanger.py:436-446 | the pressure-ratio rows' entries are their exact partial derivatives |
| HeatExchanger.PrResidualZero | src/tespy/components/heat_exchangers/heat_exchanger.py:313-324 | the pressure-ratio residual vanishes exactly when p_out = pr p_in |
| HeatExchanger.TtdResidualsZero | src/tespy/components/heat_exchangers/heat_exchanger.py:668-701 | the ttd residuals vanish exactly when the terminal differences equal the set values |
| HeatExchanger.ClampTemps | src/tespy/components/heat_exchangers/heat_exchanger.py:589-596 | the clamped temperatures are feasible at both ends, and feasible temperatures are kept |
| HeatExchanger.ClampSecondAndThirdGuardsDead | src/tespy/components/heat_exchangers/heat_exchanger.py:589-596 | once the first guard has run, the second and third guards never fire: only T_i1 rises or T_i2 falls |
| HeatExchanger.TdLogAsWrittenUndefined | src/tespy/components/heat_exchangers/heat_exchanger.py:598-599 | as written, equal terminal differences make td_log 0/0 |
| HeatExchanger.TdLog | src/tespy/components/heat_exchangers/heat_exchanger.py:598-599 | the corrected mean equals the difference at equal differences and the as-written formula otherwise |
| HeatExchanger.TdLogBetween | src/tespy/components/heat_exchangers/heat_exchanger.py:598-599 | the logarithmic mean lies between the two terminal differences and is positive |
| HeatExchanger.TdLogClamped | src/tespy/components/heat_exchangers/heat_exchanger.py:589-599 | after the clamp the mean is positive |
| HeatExchanger.KADerivMassExact | src/tespy/components/heat_exchangers/heat_exchanger.py:386-389 | the kA row's mass flow entry is its exact partial derivative |
| HeatExchanger.FkABetween | src/tespy/components/heat_exchangers/heat_exchanger.py:662 | the harmonic mean of two positive factors lies between them, is symmetric, and is the factor itself when both agree |
| HeatExchanger.FkANeutral | src/tespy/components/heat_exchangers/heat_exchanger.py:656-662 | without mass-flow characteristics the factor is 1 |
| HeatExchanger.PostGuardAdmitsUndefined | src/tespy/components/heat_exchangers/heat_exchanger.py:843-849 | the as-written guard lets through ttd_u = 0 (division by zero) and equal differences (0/0) |
| HeatExchanger.PostTdLog | src/tespy/components/heat_exchangers/heat_exchanger.py:843-849 | the corrected td_log is defined exactly when both differences are positive, is then positive, and agrees with the formula where it is defined |
| HeatExchanger.CalcResults | src/tespy/components/heat_exchangers/heat_exchanger.py:824-849 | Q, the ttd values and the pressure ratios as defined; kA is defined exactly with td_log, and then kA * td_log = -Q |
| HeatExchanger.CalcResultsPositiveKA | src/tespy/components/heat_exchangers/heat_exchanger.py:843-849 | feasible temperatures with heat flowing from side 1 give a positive kA |
| HeatExchanger.HeatExchanger.Optional | src/tespy/components/heat_exchangers/heat_exchanger.py:232-233 | the nine optional parameters in counting order |
| HeatExchanger.HeatExchanger.constructor | src/tespy/components/heat_exchangers/heat_exchanger.py:203-214 | a heat exchanger holding the given parameters, with no results and at iteration 0 |
| HeatExchanger.HeatExchanger.CompInit | src/tespy/components/heat_exchangers/heat_exchanger.py:223-255 | num_eq counts the set parameters; the residual is zeroed and the static mass flow rows are written |
| HeatExchanger.HeatExchanger.CountEquations | src/tespy/components/heat_exchangers/heat_exchanger.py:231-235 | the counting loop gives 2 nf + 3 plus the set flags |
| HeatExchanger.HeatExchanger.NewJacobian | src/tespy/components/heat_exchangers/heat_exchanger.py:247-255 | a zeroed Jacobian holding mass_flow_deriv at rows 2 nf and 2 nf + 1 |
| HeatExchanger.HeatExchanger.OptionalSlots | src/tespy/components/heat_exchangers/heat_exchanger.py:275-345 | one slot per optional parameter, in counting order, set exactly when that parameter is set |
| HeatExchanger.HeatExchanger.ResidualAfter | src/tespy/components/heat_exchangers/heat_exchanger.py:257-345 | fluid, mass and energy rows, then the optional slots from row 2 nf + 3; the kA and kA_char rows use the corrected TdLog, not the 0/0 of heat_exchanger.py:598-601 (see Findings) |
| HeatExchanger.HeatExchanger.Equations | src/tespy/components/heat_exchangers/heat_exchanger.py:257-345 | the residual afterwards is ResidualAfter, with the kA and kA_char rows on the corrected TdLog, and the returned row is num_eq |
| HeatExchanger.HeatExchanger.WriteFixedRows | src/tespy/components/heat_exchangers/heat_exchanger.py:257-273 | the fluid rows, the two mass flow rows and the energy row hold their residuals in that order; the rows after them keep their values |
| HeatExchanger.NumericCells | src/tespy/components/heat_exchangers/heat_exchanger.py:386-488 | the cells numeric_deriv fills in the kA, kA_char, ttd_u, ttd_l, zeta1 and zeta2 rows lie in the four ports' m, p and h columns, and only kA_char and the zeta rows have mass flow cells |
| HeatExchanger.HeatExchanger.OptionalEntriesBelow | src/tespy/components/heat_exchangers/heat_exchanger.py:376-488 | the rows of the optional parameters before n lie between row 2 nf + 3 and the row of parameter n, because each set parameter advances k by one |
| HeatExchanger.HeatExchanger.OptionalEntriesAt | src/tespy/components/heat_exchangers/heat_exchanger.py:376-488 | the row of a set optional parameter holds that parameter's entries and no other parameter's |
| HeatExchanger.HeatExchanger.DerivEntryRows | src/tespy/components/heat_exchangers/heat_exchanger.py:351-488 | derivatives writes the energy row with EnergyDeriv and the row of each set optional parameter, below num_eq, with that parameter's entries; the fluid and mass flow rows and the rows past num_eq are not written |
| HeatExchanger.HeatExchanger.WriteEnergyRow | src/tespy/components/heat_exchangers/heat_exchanger.py:366-373 | each of the six cells the source writes holds its EnergyDeriv value, zero or not, and every other cell of the Jacobian keeps its entry |
| HeatExchanger.HeatExchanger.WriteQRow | src/tespy/components/heat_exchangers/heat_exchanger.py:377-382 | each of the three cells the source writes holds its QDeriv value, and every other cell keeps its entry |
| HeatExchanger.HeatExchanger.WriteKAEntry | src/tespy/components/heat_exchangers/heat_exchanger.py:386-389 | the kA row's mass flow entry is h_out1 - h_in1, and every other cell keeps its entry |
| HeatExchanger.HeatExchanger.WritePrRow | src/tespy/components/heat_exchangers/heat_exchanger.py:436-446 | the inlet pressure cell holds pr and the outlet pressure cell -1 (PrDeriv), and every other cell keeps its entry |
| HeatExchanger.HeatExchanger.WriteNumericCells | src/tespy/components/heat_exchangers/heat_exchanger.py:386-488 | each cell of NumericCells that the increment filter does not skip holds the numeric_deriv value; every other cell, skipped ones included, keeps its entry |
| HeatExchanger.HeatExchanger.WriteOptionalRow | src/tespy/components/heat_exchangers/heat_exchanger.py:376-488 | the row of one optional parameter holds exactly its OptionalEntry cells: the hand-written Q, kA and pr entries and the unfiltered numeric ones; every other cell keeps its entry |
| HeatExchanger.HeatExchanger.WriteOptionalStep | src/tespy/components/heat_exchangers/heat_exchanger.py:376-488 | one parameter's turn: the row of a set parameter is written at its counted row and the running row advances by one; an unset parameter changes nothing |
| HeatExchanger.HeatExchanger.WriteOptionalRows | src/tespy/components/heat_exchangers/heat_exchanger.py:376-488 | the Q, kA, kA_char, ttd_u, ttd_l, pr1, pr2, zeta1 and zeta2 rows, one per set parameter in counting order from row 2 nf + 3: each cell holds its OptionalEntries value or keeps its entry |
| HeatExchanger.HeatExchanger.Derivatives | src/tespy/components/heat_exchangers/heat_exchanger.py:351-488 | every cell of the Jacobian holds its DerivEntry value (energy row, then the optional rows) or keeps its entry; DerivEntryRows says which rows those are |
| HeatExchanger.HeatExchanger.CalcParameters | src/tespy/components/heat_exchangers/heat_exchanger.py:824-849 | stores Q, ttd_u, ttd_l, pr1, pr2 and, where defined, kA from CalcResults; nothing else changes |
| ParabolicTrough.ActivateGroup | src/tespy/components/heat_exchangers/parabolic_trough.py:262-277 | a group is set exactly when all its elements are, with a warning exactly when a set group is incomplete |
| ParabolicTrough.IamProperties | src/tespy/components/heat_exchangers/parabolic_trough.py:396-398 | the incidence angle modifier is even in aoi, is 1 at aoi = 0, and is at most 1 for non-negative coefficients |
| ParabolicTrough.EnergyResidualZero | src/tespy/components/heat_exchangers/parabolic_trough.py:400-404 | the energy residual vanishes exactly when the heat gained equals the collected radiation minus the losses |
| ParabolicTrough.EnergyDerivMassExact | src/tespy/components/heat_exchangers/parabolic_trough.py:345-346 | the energy row's mass flow entry is its exact partial derivative |
| ParabolicTrough.TambSI | src/tespy/components/heat_exchangers/parabolic_trough.py:256-257 | Tamb is converted as the network converts temperatures, and converts back |
| ParabolicTrough.ParabolicTrough.constructor | src/tespy/components/heat_exchangers/parabolic_trough.py:233-250 | a parabolic trough holding the given parameters and groups, at iteration 0 |
| ParabolicTrough.ParabolicTrough.CompInit | src/tespy/components/heat_exchangers/parabolic_trough.py:252-320 | Tamb in SI, both groups activated, num_eq = nf + 1 plus the set flags, the residual zeroed |
| ParabolicTrough.ParabolicTrough.InitGroups | src/tespy/components/heat_exchangers/parabolic_trough.py:259-301 | the hydro and energy groups are set exactly when complete, with their warnings |
| ParabolicTrough.ParabolicTrough.CountEquations | src/tespy/components/heat_exchangers/parabolic_trough.py:306-310 | the counting loop gives nf + 1 plus the set flags |
| ParabolicTrough.ParabolicTrough.AdditionalEquations | src/tespy/components/heat_exchangers/parabolic_trough.py:322-337 | the energy row is recomputed under the staleness rule when the group is set, else kept; other rows stay |
| ParabolicTrough.ParabolicTrough.WriteNumericCells | src/tespy/components/heat_exchangers/parabolic_trough.py:347-354 | each of the four p and h cells of inlet and outlet in row k holds its numeric derivative unless the increment filter skips it, when it keeps its entry; every other cell keeps its entry |
| ParabolicTrough.ParabolicTrough.WriteVarColumns | src/tespy/components/heat_exchangers/parabolic_trough.py:355-361 | the column of each custom variable of the energy group other than Tamb holds its derivative; every other cell keeps its entry |
| ParabolicTrough.ParabolicTrough.AdditionalDerivatives | src/tespy/components/heat_exchangers/parabolic_trough.py:339-362 | with the energy group set: h_out - h_in in the mass flow cell, the unfiltered numeric p and h cells of inlet and outlet, the custom-variable columns; every other cell, filtered ones included, keeps its entry |
| ParabolicTrough.ParabolicTrough.CalcParameters | src/tespy/components/heat_exchangers/parabolic_trough.py:406-417 | Q = m (h_out - h_in), pr p_in = p_out, and Q_loss = E A - Q when the energy group is set |
| Separator.NatToStringInjective | src/tespy/components/nodes/separator.py:155 | distinct numbers have distinct decimal strings |
| Separator.OutletNames | src/tespy/components/nodes/separator.py:155 | the names out1 .. outN |
| Separator.Outlets | src/tespy/components/nodes/separator.py:153-158 | the set number of outlets, or 2 when unset, with their names |
| Separator.OutletNamesDistinct | src/tespy/components/nodes/separator.py:155 | outlet names are pairwise distinct |
| Separator.DefaultOutlets | src/tespy/components/nodes/separator.py:156-158 | the default outlets are out1 and out2 |
| Separator.FluidResidualZero | src/tespy/components/nodes/separator.py:200-205 | a fluid row vanishes exactly when the fluid's inlet mass equals the sum over the outlets |
| Separator.SplitExample | src/tespy/components/nodes/separator.py:200-205 | a worked split in which the oxygen balance closes |
| Separator.FluidDerivInletExact | src/tespy/components/nodes/separator.py:226-227 | the inlet entries are the exact partials x_in and m_in |
| Separator.FluidDerivOutletMassExact | src/tespy/components/nodes/separator.py:223 | the outlet mass flow entry is the exact partial -x_o |
| Separator.FluidDerivOutletFractionExact | src/tespy/components/nodes/separator.py:224 | the outlet fraction entry is the exact partial -m_o |
| Separator.Separator.constructor | src/tespy/components/nodes/separator.py:146-148 | a separator with the given number of outlets and custom variables |
| Separator.Separator.CompInit | src/tespy/components/nodes/separator.py:160-180 | num_eq = 1 + 2 n_out + nf, zeroed residual, the static rows written |
| Separator.Separator.BalanceOf | src/tespy/components/nodes/separator.py:200-204 | the accumulation loop computes exactly FluidResidual |
| Separator.Separator.WriteBalances | src/tespy/components/nodes/separator.py:199-205 | one balance row per fluid from k; other rows stay |
| Separator.Separator.WriteTemperatureRows | src/tespy/components/nodes/separator.py:208-213 | one temperature row per outlet from k; other rows stay |
| Separator.Separator.AdditionalEquations | src/tespy/components/nodes/separator.py:182-213 | fluid balances, then temperature rows; other rows stay |
| Separator.Separator.WriteFluidRow | src/tespy/components/nodes/separator.py:220-229 | one fluid row holds -x_o and -m_o in every outlet's m and fluid columns and x_in and m_in in the inlet's; every other cell, of this row or another, keeps its entry |
| Separator.Separator.WriteFluidRows | src/tespy/components/nodes/separator.py:218-229 | the fluid rows from k hold their entries, one row per fluid; only the m and own-fluid columns of those rows change, and every other cell keeps its entry |
| Separator.Separator.WriteTempRow | src/tespy/components/nodes/separator.py:237-242 | one temperature row holds the inlet's dT/dp, dT/dh and dT/dfluid in the inlet's columns and minus the outlet's in the outlet's; only the p, h and fluid cells of those two ports change |
| Separator.Separator.WriteTempRows | src/tespy/components/nodes/separator.py:231-244 | one temperature row per outlet from k, each against its outlet; only the inlet's and that outlet's p, h and fluid cells of those rows change |
| Separator.Separator.AdditionalDerivatives | src/tespy/components/nodes/separator.py:215-244 | the fluid rows, then one temperature row per outlet; rows outside them keep every cell, and in each row only the cells the source writes change |

## Left out

- Reading design and offdesign values from CSV files (`init_offdesign_params`, `init_comp_design_params`, `init_conn_design_params`, `init_read_connections`) is file I/O and is not modelled. `Modes.ConnLocalOffdesign` keeps the SI values where the source loads them from the file.
- `Component.comp_init` and `set_parameters` of the other components are not modelled, nor the fluid and zeta residuals of the heat exchanger. They are inputs.
- `convergence_check` is not modelled, because it calls the fluid-property library. The increment filter is a predicate on the cells in the component models (`HeatExchanger.HeatExchanger.Derivatives`, `ParabolicTrough.ParabolicTrough.AdditionalDerivatives`); the network computes it from the last increment (`Solver.PropsOf`), and its connection rows skip the cells it filters: the pressure entry of the vapour fraction row, the pressure and enthalpy entries of the boiling point row, and a temperature row's fluid block when every column of that block is filtered. The fluid-property values and derivatives themselves are inputs of each iteration.
- The reset of `P_ref` on busses with a base (line 904) is not modelled, because it calls the bus characteristic.
- Fluid-property calls are not modelled: temperatures, vapour fraction, volume and Td_bp. The residuals of the T, x, v and Td_bp rows are inputs. `solve_check_temperature` and the single-fluid branch of `solve_check_props` are left out; `Step.CheckProps` leaves p and h unchanged for a single fluid.
- The internals of `solve_components` are not modelled. Component rows reach the network as rows, and the code that writes them is not part of this model.
- `init_properties` beyond the starting values of m, p and h is not modelled (reference starting values, `init_precalc_properties`). `init_fluids` propagation is not modelled either.
- Bus values and their derivatives are inputs. `solve_busses` is modelled through its rows.
- Logging, timing, iteration printing and the CUDA path are not modelled. `np.linalg.inv` is an abstract `LinearSolver` that is only assumed to return true solutions.
- Python floats are not modelled. The NaN of `init_val0` is an `Option`, and NaN results of post-processing are `None`. At p = 0 the source's pressure step divides by zero, which the model does not reproduce.
- The Newton state (`iter`, `progress`, `lin_dep`, `res`, `increment`) is one `NewtonState` record rather than five attributes.
- Whether a connection holds a single fluid (`hlp.single_fluid`, network.py:1847) is an input of each iteration (`single` in `Solver.IterInputs`). It is not computed from the stepped fractions.
- HeatExchanger.HeatExchanger.Derivatives: the values numeric_deriv computes for the kA, kA_char, ttd_u, ttd_l, zeta1 and zeta2 rows are an input (`numDeriv`), because they evaluate the fluid-property library; the model writes them in the cells and order of the source.
- HeatExchanger.HeatExchanger.CalcParameters: zeta1, zeta2 and the characteristic-line bound warnings are not computed, because they need specific volumes and external characteristics.
- ParabolicTrough.ParabolicTrough.CalcParameters: zeta is not computed, because it needs specific volumes.
- Separator.Separator.CompInit: the static mass and pressure rows come from a function argument, because `mass_flow_deriv` and `pressure_deriv` belong to the component base class, which is not part of this model.
- `Network.__init__` sorts the fluid list; `Solver.Network.constructor` takes the list as given.
- The heat exchanger's `bus_func` and `bus_deriv`, `initialise_source` and `initialise_target`, `entropy_balance`, `exergy_balance` and `get_plotting_data` are not modelled, nor the separator's `initialise_fluids`, `entropy_balance`, `exergy_balance` and `get_plotting_data`. They are post-processing or starting-value hints outside the solver core.
- Solver.Network.SolveLoop: the warning at the maximum iteration count is logging and is left out.
- SetUnit: the unknown-unit error carries the property and the rejected unit; the source's message lists the property's allowed units instead. The message text is not modelled.
- InitFluid: an unknown fluid fails with the set of all unknown fluids of the connection, where the source raises on the first one in its dictionary order. The model does not fix an order on the fluid dictionary.
- PrepareConn: fails with the set of all unknown fluids, as InitFluid does, where the source names the first one.
- ConnsReady and FluidsCovered: the assembly and the step require every network fluid to have a fraction and a flag. A connection with a fixed flag, no fraction and a starting value gets no entry (network.py:824-828, see Connections.InitFluidDropsFlagWithoutFraction). On such a connection the source fails later with a KeyError at `c.fluid.val_set[fluid]` (network.py:1770). The model excludes that input by these requires and does not reproduce the KeyError.
- HeatExchanger.HeatExchanger.CalcParameters: requires both inlet pressures to be nonzero, where the source divides p_out / p_in regardless. A zero inlet pressure, which the source turns into inf or NaN, is not modelled.
- ParabolicTrough.ParabolicTrough.CalcParameters: requires a nonzero inlet pressure, for the same division p_out / p_in.
- HeatExchanger.HeatExchanger.CompInit: writes the static mass flow rows but not the static `fluid_deriv` rows 0 .. 2 nf (heat_exchanger.py:254), because `fluid_deriv` belongs to the component base class, which is not part of this model.
- ParabolicTrough.ParabolicTrough.CompInit: writes neither the static `fluid_deriv` rows nor the `mass_flow_deriv` row (parabolic_trough.py:319-320), for the same reason.

## Findings

| source | as written | input that shows it | evidently intended | confidence | as-written member | corrected member |
|---|---|---|---|---|---|---|
| src/tespy/networks/network.py:197 | `'t / h': 3.6` | 3.6 t/h converts to 12.96 kg/s instead of 1 kg/s | factor 1/3.6 (1000 kg per 3600 s) | not executed | Units.AsWrittenFlowUnitsMisScaled | Units.FlowUnitsAreSIMagnitudes |
| src/tespy/networks/network.py:213 | `'l / h': 1 / 3.6` | 1 l/h converts to 0.2778 m³/s instead of 2.78e-7 m³/s | factor 1/3.6e6 (0.001 m³ per 3600 s) | not executed | Units.AsWrittenFlowUnitsMisScaled | Units.FlowUnitsAreSIMagnitudes |
| src/tespy/networks/network.py:1396-1398 | init_val0 converts the start out with the network unit, but init_properties (1282-1283) converts it back with the connection's unit | p_unit 'bar', connection unit 'Pa', no guesses: start 1 Pa instead of 1e5 Pa | the same unit on both sides | not executed | Counting.StartValueAsWrittenMisScaled | Counting.StartValueSIExact |
| src/tespy/components/heat_exchangers/heat_exchanger.py:598-599 | td_log = (dCold - dHot) / ln(dCold / dHot) | equal terminal differences (10 K and 10 K) give 0/0 | the limit, td_log = the common difference | not executed | HeatExchanger.TdLogAsWrittenUndefined | HeatExchanger.TdLogBetween |
| src/tespy/components/heat_exchangers/heat_exchanger.py:843-849 | the guard rejects only negative ttd_u or ttd_l | ttd_u = 0 divides by zero; ttd_u = ttd_l = 5 K gives 0/0 | td_log only for positive differences, with the limit at equal ones | not executed | HeatExchanger.PostGuardAdmitsUndefined | HeatExchanger.PostTdLog |
