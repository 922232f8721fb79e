# ccp, modelled in Dafny

This project models the logic of ccp, a library for the performance of
centrifugal compressors, and of its prototype prf2. The thermodynamics and
numerics of both live in CoolProp/REFPROP and scipy. What remains is
sequential logic: parsers, name-based dispatch, test-data filters, curve and
impeller bookkeeping, and the closed-form algebra of seals, orifices and
similarity limits. Each source file is one Dafny module, and every module
states what the source promises and proves it.

Numbers are Dafny `real`s: the model reasons about exact arithmetic, not about
IEEE doubles. Foreign operations are function-valued parameters. These include
`sqrt`, non-integer powers, pint's unit conversion, Python's `float` on a text,
JSON decoding, CoolProp's property calls and REFPROP's name lookup. Wherever a
proof needs one of their properties, the lemma requires that property. Python
exceptions are the `Exc` values of a `Result` (module `Wrappers`), and a Python
dictionary is an association list kept in insertion order (module `Dicts`).

| module | file | what it covers |
|---|---|---|
| `CurvesCsv` | ccp/app/download.js | the `curves.csv` text built row by row |
| `EngaugeCsv` | ccp/io.py, ccp/data_io/read_csv.py | the Engauge Digitizer row loop, which both files hold |
| `Processing` | ccp/data_io/processing.py | fluctuation, rolling windows, the threshold filter |
| `Quantities`, `CcpUnits`, `Prf2Units` | ccp/config/units.py, prf2/config/units.py | unit resolution by argument name |
| `AttrPath` | ccp/config/utilities.py | dotted attribute paths over a heap of objects |
| `Fluids` | ccp/config/fluids.py, prf2/config/fluids.py | alias resolution and in-place normalisation of a mixture |
| `CcpState`, `Prf2State` | ccp/state.py, prf2/state.py | input-pair dispatch, `define`, `__repr__` |
| `Point` | ccp/point.py | routine selection, coefficients, power, PTC 10 limits, `convert_from` |
| `Curve` | ccp/curve.py | sorting, size and speed checks, parameter arrays |
| `Impeller`, `ImpellerLoad` | ccp/impeller.py | grouping by speed, closest speeds, curve choice, the loaders' checks |
| `Compressor` | ccp/compressor.py | seal constants, Mach/Reynolds interpolation, leakage balances |
| `Similarity` | ccp/similarity.py | the PTC 10 similarity report |
| `Orifice` | ccp/fo.py | ISO 5167-2 tappings, expansibility, discharge coefficient, constructor |
| `Session` | ccp/app/common.py | session-file migration, gas composition lookup |
| `Monitoring` | ccp/app/pages/4_online_monitoring.py | PI tag queries, unit conversion, cleaning of PI data |
| `Marimo` | docs/_extensions/marimo-team/marimo/extract.py | quarto option lines, the render table, the app configuration |
| `Text`, `Dicts`, `Sorting`, `Reals`, `Wrappers` | (shared) | Python's `str` operations, dicts, stable `sorted`, sums, exceptions |

Where the source mutates state, the model does too. The CSV text, the Engauge
reader, the unit decorators' loops, `normalize_mix`, the back-to-back seal
arrays, session migration and the monitoring frame are methods with loop
invariants. `r_setattr` (`AttrPath.Heap`) and the orifice's constructor
(`Orifice.NewFlowOrifice`, which may update the caller's state) change objects
in place without a loop. Each method is proved against a function, and the
function's properties are lemmas.

Two places where the documentation and the code disagree. The model follows
the code in both.

- The docstring of `fluctuation` gives 80.0 for `[1, 2, 3, 4, 5]` at
  ccp/data_io/processing.py:24-25. The code computes `100·(5 − 1)/3 = 133.33…`,
  which `Processing.FluctuationOneToFive` proves.
- `get_name` reassigns `name` inside its loop over the alias lists. After the
  first list that holds the name, `name` is that list's canonical key, so later
  lists are checked against the key and not the alias. In effect the first
  matching list decides (`Fluids.FirstMatchWins`), and an alias of an alias
  chains (`Fluids.ChainedAliases`).


## Model

| member | source | states |
|---|---|---|
| AttrPath.GetAttr | ccp/config/utilities.py:15-16 | an attribute an object has is returned; otherwise the default when one is given, else AttributeError naming the attribute |
| AttrPath.GetPath | ccp/config/utilities.py:15-18 | the reduce over no names is the object itself; with a default every step falls back to it and the walk never fails; without one it fails only with AttributeError naming one of the names |
| AttrPath.RGetAttr | ccp/config/utilities.py:12-18 | `r_getattr` fails only when no default is given, and then with AttributeError naming one of the dotted parts of the path |
| AttrPath.SingleName | ccp/config/utilities.py:12-18 | a name without dots is one `getattr` |
| AttrPath.GetPathAppend | ccp/config/utilities.py:18 | the reduce over `p + q` is the walk over `q` started where the walk over `p` ended |
| AttrPath.DottedPath | ccp/config/utilities.py:12-18 | `r_getattr(obj, "a.b")` equals `r_getattr(r_getattr(obj, "a"), "b")` |
| AttrPath.RPartition | ccp/config/utilities.py:8 | `rpartition(".")`: the text around the last dot, which the tail does not contain, or `("", s)` when there is no dot |
| AttrPath.SetAttr | ccp/config/utilities.py:9 | `setattr` succeeds exactly on an object and then changes only that attribute |
| AttrPath.Heap.RSetAttr | ccp/config/utilities.py:4-9 | succeeds exactly when the prefix path reaches an object; then only the attribute after the last dot of that object changes, and on failure nothing changes |
| AttrPath.GetPathFrame | ccp/config/utilities.py:12-18 | a walk that does not read an attribute gives the same result after that attribute is set |
| AttrPath.SetThenGet | ccp/config/utilities.py:4-18 | after a successful `r_setattr(obj, attr, val)` that the path does not pass through, `r_getattr(obj, attr)` gives `val` |
| AttrPath.SelfReferenceCaveat | ccp/config/utilities.py:4-18 | when `obj.a` is `obj` itself, `r_setattr(obj, "a.a", v)` replaces `obj.a` by `v`, so `r_getattr(obj, "a.a")` afterwards fails with AttributeError |
| CcpUnits.AddAxisUnits | ccp/config/units.py:116-119 | the nested loops leave the literal table updated with the 18 stiffness and damping entries in loop order |
| CcpUnits.AxisKeys | ccp/config/units.py:116-119 | the 18 added keys are three letters long and pairwise distinct |
| CcpUnits.AxisUnits | ccp/config/units.py:116-119 | every key "kxx" to "kzz" maps to N/m and every key "cxx" to "czz" to N*s/m |
| CcpUnits.NotAxisKey | ccp/config/units.py:53-119 | a name that is not three letters long keeps its unit from the literal table |
| CcpUnits.Candidates | ccp/config/units.py:155-168 | the pieces of the name between underscores are always the last names tried |
| CcpUnits.CandidateNames | ccp/config/units.py:155-168 | the list built with `insert(0, ...)` is the candidate list: whole name, then "flow_m" and "flow_v" when contained, then the pieces |
| CcpUnits.CandidatesFirst | ccp/config/units.py:166-168 | the whole argument name is always the first name tried |
| CcpUnits.FirstKnown | ccp/config/units.py:169-170 | the index of the first candidate in the table: none before it is, and it is (or no candidate is) |
| CcpUnits.UnitFor | ccp/config/units.py:169-175 | no unit exactly when no candidate name is in the table |
| CcpUnits.UnitForWholeName | ccp/config/units.py:166-170 | a name that is itself in the table takes its own entry, whatever its pieces are |
| CcpUnits.Converted | ccp/config/units.py:154-184 | None and booleans pass unchanged; only an unconvertible quantity raises; a changed value is a quantity in the unit of the first known candidate; a number becomes a quantity of that unit |
| CcpUnits.ConvertTo | ccp/config/units.py:174-181 | only a quantity whose `.to` conversion fails raises; anything `Q_` rejects is kept |
| CcpUnits.ConvertArgument | ccp/config/units.py:154-184 | the loop with its `break` and `for`-`else` computes the conversion of one argument |
| CcpUnits.Zip | ccp/config/units.py:154 | `zip` pairs elements position by position up to the shorter length |
| CcpUnits.ConvertPositional | ccp/config/units.py:151-184 | the loop over the positional arguments converts each matched argument in order and stops at the first error |
| CcpUnits.ConvertKeywords | ccp/config/units.py:186-214 | the loop over the keyword arguments converts each under its own name and stops at the first error |
| CcpUnits.CheckUnits | ccp/config/units.py:150-216 | the wrapper computes the converted positional and keyword arguments it passes on |
| CcpUnits.CandidatesWithoutFlow | ccp/config/units.py:155-168 | a name with an underscore and no letter "f" is tried whole and then piece by piece |
| CcpUnits.FlowUnit | ccp/config/units.py:160-164 | a name containing "flow_m" takes the flow_m unit, and otherwise one containing "flow_v" the flow_v unit, before its pieces |
| CcpUnits.SecondPieceUnit | ccp/config/units.py:127-131 | a two-piece name whose whole and first piece are unknown but whose second piece is known takes the second piece's unit |
| CcpUnits.InletPressure | ccp/config/units.py:127-131 | "inlet_pressure" takes the unit of "pressure", as the docstring says |
| CcpUnits.LengthInMeters | ccp/config/units.py:133-146 | the docstring example: with the table {"L": "meter"}, 0.5 inches becomes 0.0127 meter |
| CcpUnits.CheckedCallShape | ccp/config/units.py:150-216 | the call receives one converted value per matched parameter name, and the keyword arguments in order under their own names |
| CcpUnits.NoQuantityNoError | ccp/config/units.py:170-184 | a call with no quantity among its arguments never raises |
| Quantities.QuantityTo | ccp/config/units.py:175 | a successful `.to(unit)` gives a quantity in that unit; a failed conversion raises |
| Quantities.MakeQuantity | ccp/config/units.py:178 | `Q_(v, unit)` succeeds exactly for a number and gives that number in the unit |
| Prf2Units.Converted | prf2/config/units.py:10-17 | a name not in the table keeps its value; a converted value is a quantity in the table's unit; a number becomes a quantity of that unit |
| Prf2Units.CheckUnits | prf2/config/units.py:8-19 | the loop succeeds exactly when every keyword converts, and then passes the positional arguments unchanged with the converted keywords; otherwise it raises the first error |
| Prf2Units.NoneRaises | prf2/config/units.py:11-15 | None for "p", "T" or "speed" raises TypeError, since `Q_(None, unit)` is not caught |
| Prf2Units.PressureInPascal | prf2/config/units.py:3-15 | a number passed as `p` becomes a quantity in pascal |
| Prf2Units.SuffixNotConverted | prf2/config/units.py:11 | a name that only contains a key, such as "suc_p", is not converted |
| Prf2Units.KeywordsKept | prf2/config/units.py:9-17 | the keyword arguments keep their names and order, each converted on its own |
| CurvesCsv.BuildCsv | ccp/app/download.js:1-14 | the loop builds exactly the header line and one comma-joined, newline-terminated line per flow value, and names the file `curves.csv` |
| CurvesCsv.RowFields | ccp/app/download.js:4-10 | each data line splits back into flow, head, 100 times the efficiency, and speed, in that order |
| CurvesCsv.HeaderFieldsRoundTrip | ccp/app/download.js:2 | the header line splits back into its four column titles |
| CurvesCsv.Document | ccp/app/download.js:2-12 | split at newlines, the file is the header, the data lines in input order, and an empty tail |
| CurvesCsv.EmptyCurve | ccp/app/download.js:2-4 | a curve without points exports only the header line |
| CurvesCsv.ExampleOneRow | ccp/app/download.js:4-12 | one point at 1.5 m³/s, 9.81 J/kg, 0.85 efficiency and 1500 RPM gives the line `1.5,9.81,85,1500` |
| EngaugeCsv.ReadEngaugeCsv | ccp/io.py:5-19 | the loop over the rows returns what the row-by-row specification gives, including the first exception: IndexError for a short row, NameError for a point before any header, ValueError for a field `float` refuses |
| EngaugeCsv.RunConsistent | ccp/data_io/read_csv.py:29-35 | while reading, the current curve is always in the dictionary, curve names stay distinct and every curve keeps as many x values as y values, so the KeyError branch never fires |
| EngaugeCsv.StepNoKeyError | ccp/data_io/read_csv.py:34 | a single row never raises KeyError on a consistent reader |
| EngaugeCsv.PointBeforeHeader | ccp/data_io/read_csv.py:33-34 | a point row before any `x,<name>` row raises NameError for `current_curve` |
| EngaugeCsv.StepPoint | ccp/data_io/read_csv.py:33-35 | a point row appends its x and its y to the current curve and changes nothing else |
| EngaugeCsv.RunAppend | ccp/data_io/read_csv.py:29 | reading two stretches of rows one after the other is reading them together; the first exception stops the loop |
| EngaugeCsv.ReadCurve | ccp/data_io/read_csv.py:30-35 | a header row followed by the rows of a curve's points stores exactly those points under that name |
| EngaugeCsv.LoadExport | ccp/data_io/read_csv.py:23-37 | reading an export of several curves gives every curve its points under its name, in the order the names first appear; a repeated name starts over |
| EngaugeCsv.SetTwice | ccp/data_io/read_csv.py:32 | re-declaring a curve name replaces its points in place |
| Processing.Max | ccp/data_io/processing.py:32 | `x.max()` is a reading of `x` no smaller than any reading |
| Processing.Min | ccp/data_io/processing.py:32 | `x.min()` is a reading of `x` no larger than any reading |
| Processing.Fluctuation | ccp/data_io/processing.py:29-32 | a zero mean gives 100; otherwise the fluctuation has the sign of the mean, since the spread between the largest and smallest reading is never negative |
| Processing.FluctuationConstant | ccp/data_io/processing.py:29-32 | constant readings around a nonzero mean give zero |
| Processing.FluctuationOneToFive | ccp/data_io/processing.py:24-32 | the readings 1 to 5 fluctuate by 100 × 4 / 3, not the 80 the docstring shows |
| Processing.ThreeReadings | ccp/data_io/processing.py:29-32 | for three ordered readings, the mean is their sum over three and the fluctuation is 100 × (largest − smallest) over that mean |
| Processing.Windows | ccp/data_io/processing.py:69-75 | one window of `window` readings per complete window, each of that length |
| Processing.WindowsAt | ccp/data_io/processing.py:69-75 | after slicing off the first `window - 1` rows, row `i` is the window of readings `i` to `i + window - 1` |
| Processing.RollingAt | ccp/data_io/processing.py:67-76 | row `i` of a rolling column is the statistic of readings `i` to `i + window - 1` |
| Processing.RollingFrame | ccp/data_io/processing.py:67-123 | every column keeps its name and gets its own rolling values |
| Processing.RollingShape | ccp/data_io/processing.py:35-123 | the fluctuation and mean frames keep the column names and hold `n - window + 1` rows each |
| Processing.RollingCell | ccp/data_io/processing.py:67-123 | a cell of the fluctuation frame and of the mean frame is the fluctuation and the mean of the same window of readings |
| Processing.RollingExample | ccp/data_io/processing.py:35-123 | over 1, 2, 3, 4 with windows of three the fluctuations are 100 and 200/3 and the means 2 and 3 |
| Processing.ColumnLimitCases | ccp/data_io/processing.py:177-187 | the lookup gives the pressure, temperature or speed limit for those three data types; any other type raises ValueError; a column missing from `data_type` raises KeyError; no `data_type` at all raises TypeError |
| Processing.ColumnLimitsAt | ccp/data_io/processing.py:176-187 | when every lookup succeeds, each column gets the limit of its own data type |
| Processing.LimitsFailFrom | ccp/data_io/processing.py:176-187 | the first column whose lookup fails decides the exception |
| Processing.KeptRowsSteady | ccp/data_io/processing.py:188-189 | the kept rows are exactly the rows where no column fluctuates more than its limit, each listed once, in increasing order |
| Processing.MaskAt | ccp/data_io/processing.py:188 | a mean is blanked exactly when its window's fluctuation is strictly greater than the column's limit |
| Processing.NoBlankSteady | ccp/data_io/processing.py:188-189 | after masking, a row has no blank cell exactly when it is steady |
| Processing.DropNaKept | ccp/data_io/processing.py:189 | dropping rows with a blank gives the means of the steady rows, labelled by their row numbers |
| Processing.MaskColumns | ccp/data_io/processing.py:176-188 | the loop fails exactly when some column's lookup fails, with that first exception; otherwise every column is masked by its own limit |
| Processing.FilterData | ccp/data_io/processing.py:126-190 | `filter_data` returns the rolling means of the steady rows, or the first lookup exception |
| Fluids.Lookup | ccp/config/fluids.py:46-58 | `get_name` succeeds exactly when REFPROP knows the name after alias resolution, and returns REFPROP's name; otherwise it raises ValueError naming the resolved name |
| Fluids.GetName | ccp/config/fluids.py:49-58 | the alias loop followed by the REFPROP lookup gives what `Lookup` specifies |
| Fluids.NotAnAlias | ccp/config/fluids.py:49-51 | a name listed by no entry reaches REFPROP unchanged |
| Fluids.FirstMatchWins | ccp/config/fluids.py:49-51 | the first entry listing the name decides, as long as no later entry lists that entry's own name |
| Fluids.AliasResolves | ccp/config/fluids.py:19-51 | in a table whose aliases are distinct and are never canonical names, an alias resolves to its own entry |
| Fluids.ChainedAliases | ccp/config/fluids.py:49-51 | because the loop rebinds `name`, an alias of an alias resolves through both entries |
| Fluids.IButane | ccp/config/fluids.py:20-22 | "i-butane" resolves to IsoButane |
| Fluids.HydrogenSulfideAlias | ccp/config/fluids.py:34-36 | "h2s" resolves to HydrogenSulfide |
| Fluids.CarbonMonoxideAlias | ccp/config/fluids.py:37-39 | "co" resolves to CarbonMonoxide |
| Fluids.NitrogenAlias | ccp/config/fluids.py:41 | "n2" resolves to Nitrogen |
| Fluids.Prf2IButane | prf2/config/fluids.py:20 | the prototype resolves "ibutane" to IsoButane |
| Fluids.Prf2CarbonDioxide | prf2/config/fluids.py:41-42 | the prototype resolves "carbon dioxide" to CarbonDioxide |
| Fluids.Prf2Nitrogen | prf2/config/fluids.py:43-44 | the prototype resolves "n2" to Nitrogen |
| Fluids.PercentTotals | ccp/config/fluids.py:81 | fractions that total between 95 and 105 warn in the prototype but not in ccp |
| Fluids.WarningsAgree | prf2/config/fluids.py:82 | away from percentages and the two boundary values, the prototype and ccp warn for the same totals |
| Fluids.Normalised | ccp/config/fluids.py:80-95 | `normalize_mix` fails exactly for an empty list (NameError on the unbound `i`) or a zero total (ZeroDivisionError); otherwise each fraction is divided by the total and the fractions sum to one |
| Fluids.NormalizeMix | ccp/config/fluids.py:66-95 | the list is changed in place to the normalised fractions, and the result says whether the total was near neither 1 nor 100; a failure leaves the list as it was |
| Fluids.Prf2Normalised | prf2/config/fluids.py:81-86 | the prototype leaves an empty list empty and otherwise normalises as ccp does |
| Fluids.Prf2NormalizeMix | prf2/config/fluids.py:67-86 | the prototype changes the list in place to its normalised fractions and reports whether the total was more than 0.05 from 1 |
| Fluids.DivideInPlace | ccp/config/fluids.py:84-85 | every fraction of the list is replaced, in place, by itself over the total |
| CcpState.Update | ccp/state.py:156-180 | `update` succeeds exactly when some known pair of arguments is given, and then calls CoolProp with the first such pair in the order (p, T), (rho, p), (h, p), (p, s), (rho, s), (h, s), with its values in CoolProp's order; otherwise it raises KeyError listing the given arguments |
| CcpState.ExtraArgumentsIgnored | ccp/state.py:156-158 | with p and T given, rho, h and s make no difference |
| CcpState.OneArgumentFails | ccp/state.py:174-180 | a single argument never determines a state |
| CcpState.TemperatureDensityFails | ccp/state.py:174-180 | T with rho is not a known pair and raises KeyError for `['T', 'rho']` |
| CcpState.RefpropNames | ccp/state.py:110-112 | each constituent becomes REFPROP's name for its resolved alias, in order |
| CcpState.Composition | ccp/state.py:105-118 | a pure fluid keeps its name with the single fraction 1; a mixture succeeds exactly when every constituent is known, and then gives the names joined with "&" and the fractions in the same order |
| CcpState.FirstUnknownConstituent | ccp/state.py:110-111 | the first unknown constituent raises its ValueError |
| CcpState.Constituents | ccp/state.py:105-118 | the loop over the constituents gives what `Composition` specifies |
| CcpState.MoleFractions | ccp/state.py:126 | normalising the list `define` built gives ccp's normalised fractions or its exception |
| CcpState.Define | ccp/state.py:62-134 | `define` resolves the fluid, has the backend construct it (re-raising the backend's refusal), normalises the fractions, records the arguments and updates the state, failing at the first step that raises |
| CcpState.DefinedState | ccp/state.py:120-132 | a defined state's fluid was accepted by the backend, its fractions sum to one and it was updated from its own construction arguments |
| CcpState.PureFluid | ccp/state.py:116-123 | a pure fluid the backend accepts keeps its name and has the single fraction 1 |
| CcpState.PureFluidRefused | ccp/state.py:116-123 | a pure fluid the backend refuses makes `define` raise the backend's own error |
| CcpState.MixtureOrder | ccp/state.py:110-126 | the constituents keep their order in the fluid string, and each fraction is divided by the total |
| CcpState.ShownArguments | ccp/state.py:182-184 | `__repr__` shows exactly the construction arguments that are not None, with their values |
| CcpState.FluidOrderDescending | ccp/state.py:187-189 | `__repr__` lists every component once, by descending fraction |
| CcpState.Repr | ccp/state.py:182-192 | the text is a call of `State.define` in which every construction argument that is not None appears as `k=Q_("…")` in `p, T, h, s, rho` order, followed by every component as `"name": fraction`, by descending fraction |
| Prf2State.Normalise | prf2/state.py:122-129 | `order_dict` keeps the key's length and leaves keys it does not list unchanged |
| Prf2State.Update | prf2/state.py:102-144 | with no keyword arguments the positional ones go to CoolProp unchanged; otherwise a success uses the pair `cp_update_dict` gives for the normalised key, and a key it does not list raises KeyError naming it |
| Prf2State.InputsKeyOfTwo | prf2/state.py:120 | two given arguments make the key of their two names, in order |
| Prf2State.TwoQuantities | prf2/state.py:142-144 | the magnitudes are looked up by the letters of the key, in the key's order |
| Prf2State.OtherLengthsRefused | prf2/state.py:120-140 | a key that is not two letters long raises KeyError |
| Prf2State.TemperatureFirst | prf2/state.py:120-144 | T and p in either order reach CoolProp as the PT pair with pressure first |
| Prf2State.EnthalpyPressure | prf2/state.py:120-144 | h and p in either order reach CoolProp as the HmassP pair with enthalpy first |
| Prf2State.DensityRefused | prf2/state.py:131-140 | pressure with density raises KeyError for `pd` |
| Prf2State.NoneSkipped | prf2/state.py:120 | an argument given as None does not enter the key |
| Prf2State.PairNamedKeyword | prf2/state.py:120-144 | a single keyword named `pT` passes the key check and then raises KeyError for `p` |
| Prf2State.MoleFractions | prf2/state.py:93 | normalising the list `define` built gives the prototype's normalised fractions or its exception |
| Prf2State.UpdateFromSetup | prf2/state.py:95-98 | the closing update receives all five construction arguments through the unit decorator |
| Prf2State.Define | prf2/state.py:72-100 | `define` resolves the fluid, has the backend construct it (re-raising its refusal), normalises the fractions and updates from its arguments, failing at the first step that raises |
| Prf2State.PureFluidRefused | prf2/state.py:83-91 | a pure fluid the backend refuses makes `define` raise the backend's own error |
| Prf2State.SetupNeedsPressureAndTemperature | prf2/state.py:95-98 | without a pressure or a temperature the closing update raises TypeError, since the decorator converts None |
| Prf2State.PressureEnthalpyRaises | prf2/state.py:30-98 | a state defined from pressure and enthalpy, which the docstring allows, raises TypeError |
| Prf2State.CorrectedPressureEnthalpy | prf2/state.py:95-144 | with a decorator that passes None through, pressure and enthalpy reach CoolProp as the HmassP pair |
| Point.Kwargs | ccp/point.py:144-161 | the collected names are a sub-list of the inspected names, in their order |
| Point.KwargsMembers | ccp/point.py:146-161 | a name is collected exactly when its value is true |
| Point.KwargsDistinct | ccp/point.py:146-161 | each name is collected at most once |
| Point.StringOrder | ccp/point.py:163 | the order `sorted` uses on names is total, transitive and antisymmetric |
| Point.OrderIndependent | ccp/point.py:163 | the routine name depends on which arguments were given, not on their order |
| Point.RoutineNamed | ccp/point.py:165 | `getattr` on a routine name finds the routine of exactly that name |
| Point.RoutineNamedInverse | ccp/point.py:222-331 | every `_calc_from_*` routine is found under its own name |
| Point.NamesDiffer | ccp/point.py:222-331 | two different routines have different names |
| Point.Selection | ccp/point.py:116-165 | the constructor raises ValueError exactly when b or D is missing; otherwise KeyError for `head_pol_<method>` exactly when the method is unknown; otherwise AttributeError naming the routine built from the sorted names of the true arguments when there is none; and it succeeds exactly when all three checks pass, with the routine of that name |
| Point.Select | ccp/point.py:116-165 | the constructor's checks, its name-collecting loop and the routine lookup give what `Selection` specifies |
| Point.PartsSorted | ccp/point.py:163 | sorting any permutation of a routine's names gives that routine's sorted names |
| Point.DischargeRoutine | ccp/point.py:163-165 | suction, discharge, volume flow and speed, given in any order, select `_calc_from_disch_flow_v_speed_suc` (see also line 222) |
| Point.KwargsOfRoutine | ccp/point.py:146-163 | when the true arguments are exactly a routine's names, the collected names are a permutation of them |
| Point.ConvertOptions | ccp/point.py:341-364 | `find` must be "speed" or "volume_ratio", otherwise KeyError; the new point gets the new suction and the original's efficiency, coefficients and geometry, plus the original's volume ratio when finding the speed or the given speed (else the original's) when finding the volume ratio |
| Point.ConvertFindingSpeed | ccp/point.py:335-364 | converting to find the speed calls `_calc_from_eff_phi_psi_suc_volume_ratio` (see also line 240) |
| Point.ConvertFindingVolumeRatio | ccp/point.py:335-364 | converting at a known speed calls `_calc_from_eff_phi_psi_speed_suc` (see also line 301) |
| Point.TipSpeed | ccp/point.py:1523-1540 | twice the tip speed is speed times diameter, and it is positive for a positive speed and diameter |
| Point.PhiOfFlow | ccp/point.py:1612-1643 | the flow `flow_from_phi` gives has that flow coefficient |
| Point.FlowOfPhi | ccp/point.py:1612-1643 | `flow_from_phi` of a flow's coefficient gives that flow back |
| Point.PsiOfHead | ccp/point.py:1543-1666 | the head `head_from_psi` gives has that head coefficient |
| Point.HeadOfPsi | ccp/point.py:1543-1666 | `head_from_psi` of a head's coefficient gives that head back |
| Point.PowerCalc | ccp/point.py:1500-1520 | the power times the efficiency is the mass flow times the head |
| Point.PowerAtLeastGasPower | ccp/point.py:1500-1520 | with positive flow and head and an efficiency in (0, 1], the shaft power is at least the gas power |
| Point.Point.constructor | ccp/point.py:124-139 | the point stores its speed, efficiency, coefficients and geometry |
| Point.Point.CalcFromEffPhiPsiSpeed | ccp/point.py:301-306 | head and volume flow come from the coefficients, mass flow and power follow, the given fields are unchanged, and the results have the given coefficients |
| Point.Point.CalcFromDischFlowVSpeed | ccp/point.py:222-229 | mass flow, power and both coefficients follow from the flow, head and efficiency, and the coefficients give the flow and head back |
| Point.MachLimits | ccp/point.py:425-455 | `mach_limits` raises ValueError exactly for a negative Mach number; otherwise the band is non-empty and `within` holds exactly when `mach_diff` lies strictly inside it |
| Point.SameMachWithin | ccp/point.py:440-455 | a test at the specified Mach number is within the limits, except at Mach 0, whose band excludes 0 (see also line 174) |
| Point.ReynoldsLimits | ccp/point.py:513-547 | `reynolds_limits` raises ValueError exactly below 9e4; the upper limit is 100 from 1e7 on and 100 to the power x below; the lower limit is 0.1 from 1e6 on and 0.01 to the power x below; `within` holds exactly for a ratio strictly inside |
| Point.SameReynoldsWithin | ccp/point.py:526-547 | a test at the specified Reynolds number (ratio 1) is within the limits wherever they are defined (see also line 172) |
| Curve.FlowOrder | ccp/curve.py:259 | comparing points by volume flow is a total preorder, so `sorted` is well defined |
| Curve.ColumnOf | ccp/curve.py:277-283 | an array has at most one value per point, and one per point exactly when every point has the parameter |
| Curve.Columns | ccp/curve.py:276-285 | the parameter loop gives one array per parameter or raises NameError for `units` |
| Curve.CurveOf | ccp/curve.py:256-285 | fewer than two points raise TypeError; a curve holds a permutation of its points sorted by flow, their flows in that order, one common speed and five parameter arrays |
| Curve.MakeCurve | ccp/curve.py:256-285 | the constructor gives what `CurveOf` specifies |
| Curve.CheckSpeed | ccp/curve.py:267-269 | the check passes exactly when every point runs at the first point's speed |
| Curve.CollectColumns | ccp/curve.py:276-285 | the outer parameter loop gives the arrays `Columns` specifies |
| Curve.CollectParam | ccp/curve.py:277-283 | the inner loop collects the magnitudes of the points that have the parameter, skipping the others, and leaves `units` as the last unit seen |
| Curve.ColumnsStopped | ccp/curve.py:276-285 | once collecting the arrays raises, the constructor does not get further |
| Curve.SpeedMismatch | ccp/curve.py:265-269 | with two or more points, the constructor raises its speed ValueError exactly when two points differ in speed |
| Curve.UnitsCarried | ccp/curve.py:281 | once `units` is bound it stays bound for the later parameters |
| Curve.UnitsUnbound | ccp/curve.py:276-285 | `units` stays unbound exactly when no point has the parameter |
| Curve.ColumnsFail | ccp/curve.py:276-285 | collecting the arrays raises NameError exactly when no point has a head |
| Curve.ColumnFull | ccp/curve.py:277-285 | when every point has the parameter, the array holds each point's magnitude in curve order |
| Curve.ColumnsEntry | ccp/curve.py:276-285 | each array is the column of its own parameter |
| Curve.Degree | ccp/curve.py:175-178 | the interpolation is linear below three values and cubic from three on |
| Curve.CurveDegree | ccp/curve.py:167-182 | on a curve whose points all have the parameter, its interpolation is linear for two points and cubic for more (see also lines 276-288) |
| Curve.At | ccp/curve.py:299-300 | `curve[item]` succeeds exactly for Python's valid indices, negative ones counting from the end, and gives a point of the curve |
| Curve.EndsOfSorted | ccp/curve.py:259 | in points sorted by flow, indexing from the front or the back, the first point has the least flow and the last the greatest |
| Curve.EndsOfCurve | ccp/curve.py:259 | `curve[0]` has the least flow of the curve and `curve[-1]` the greatest (see also lines 299-300) |
| Impeller.ArgMin | ccp/impeller.py:1326 | `argmin` gives the first index of a least distance |
| Impeller.FindClosestSpeeds | ccp/impeller.py:1324-1338 | an empty array raises ValueError; otherwise the result is two consecutive indices, inside the array when it holds two speeds or more |
| Impeller.ClosestSpeedsBracket | ccp/impeller.py:1324-1338 | for ascending speeds and a value inside their range, the two speeds found bracket the value |
| Impeller.ClosestSpeedsAtStored | ccp/impeller.py:1328-1336 | at a stored speed, the pair starts there, or ends there when it is the last speed |
| Impeller.ResidualsRoot | ccp/impeller.py:1354-1359 | both residuals vanish at the point at fraction `fac` of the segment |
| Impeller.InterpolatedValues | ccp/impeller.py:1341-1351 | the values returned are a root of the interpolation system |
| Impeller.StartNearer | ccp/impeller.py:1342-1344 | the solver starts from the end of the segment nearer the root in flow |
| Impeller.PowerLosses | ccp/impeller.py:1362-1363 | the scaled losses raise ZeroDivisionError exactly for a zero reference speed |
| Impeller.PowerLossesAtReference | ccp/impeller.py:1362-1363 | at the reference speed the losses are the reference losses |
| Impeller.MaxLosses | ccp/impeller.py:345 | the largest losses are those of some point and no point has more |
| Impeller.LossesSpeed | ccp/impeller.py:344-346 | the speed stored for a losses value is the speed of a point with those losses, and there is one exactly when some point has them |
| Impeller.GroupBySpeed | ccp/impeller.py:349-352 | grouping gives no groups for no points, no empty group, and a first group that starts with the first point |
| Impeller.Adjusted | ccp/impeller.py:353-371 | a point keeps its curve data; it is unchanged when the largest losses are not positive or it has losses of its own |
| Impeller.ImpellerOf | ccp/impeller.py:341-375 | the impeller keeps its points |
| Impeller.MakeImpeller | ccp/impeller.py:341-375 | the constructor's loop over the groups gives what `ImpellerOf` specifies |
| Impeller.GroupsPartition | ccp/impeller.py:349-352 | the groups hold the points in order, each group at one speed, and neighbouring groups differ in speed |
| Impeller.SortedGroupsAscending | ccp/impeller.py:349-352 | groups of points sorted by speed come in strictly ascending speed |
| Impeller.GroupCurveSpeed | ccp/impeller.py:353-372 | the curve of a group has the group's speed and one point per point of the group |
| Impeller.ImpellerCurves | ccp/impeller.py:341-375 | the impeller has one curve per distinct speed, in strictly ascending order of speed, and every point's speed has its curve |
| Impeller.CurveChoice | ccp/impeller.py:539-565 | with one curve, any speed close to its own (or none) selects it and others raise ValueError; with more, a speed is required and selects two consecutive curves |
| Impeller.FactorWithin | ccp/impeller.py:557-565 | inside the range of speeds, the two curves bracket the speed and the factor lies in [0, 1] |
| Impeller.FactorAtStored | ccp/impeller.py:557-565 | at a stored speed the factor is 0 from that curve, or 1 towards it when it is the last |
| Impeller.PointRequest | ccp/impeller.py:443-451 | `point` raises ValueError without a speed, and without any flow; it uses the curve `curve(speed)` chooses; a nonzero mass flow sets the volume flow from the suction specific volume, otherwise the given volume flow is used |
| Impeller.ZeroMassFlow | ccp/impeller.py:446-462 | a zero mass flow is false and is ignored, so without a volume flow the comparison with None raises TypeError |
| ImpellerLoad.CurveNameOf | ccp/impeller.py:831-833 | the argument `<param>_curves` is stored under `<param>` |
| ImpellerLoad.Collected | ccp/impeller.py:828-836 | the collected dictionary has no more entries than there are keyword arguments |
| ImpellerLoad.CollectedGet | ccp/impeller.py:829-836 | each curve name maps to the last non-None argument with that name |
| ImpellerLoad.CollectCurves | ccp/impeller.py:828-836 | the loop over the keyword arguments builds the dictionary `Collected` specifies |
| ImpellerLoad.InPercent | ccp/impeller.py:839-856 | no speeds raise IndexError, a first speed missing from the efficiency curves raises KeyError, and the efficiencies count as percentages exactly when some value of the first speed exceeds 1 |
| ImpellerLoad.Percent | ccp/impeller.py:858-860 | the efficiencies are divided by 100, flows and losses unchanged |
| ImpellerLoad.Rescaled | ccp/impeller.py:857-860 | no speeds leave the efficiencies as they are; a failure is the KeyError of a listed speed the efficiencies lack |
| ImpellerLoad.RescaledCurves | ccp/impeller.py:857-860 | rescaling succeeds exactly when every speed has an efficiency curve; then the speeds are kept, each listed speed is divided by 100 once and the others are unchanged |
| ImpellerLoad.RescaledGet | ccp/impeller.py:857-860 | each listed speed is rescaled once and the other curves are kept |
| ImpellerLoad.RescaleEff | ccp/impeller.py:857-860 | the rescaling loop gives what `Rescaled` specifies |
| ImpellerLoad.RangeOf | ccp/impeller.py:867-910 | with no curves the range is the starting one, [0, 1e20] with zero losses; a failure is KeyError for the speed, IndexError for a curve without flows, or the AttributeError of a loss mismatch |
| ImpellerLoad.Narrow | ccp/impeller.py:871-910 | one step of the loop over the curves: a later curve whose power losses differ from the first raises AttributeError from building the message (exactly then), a curve without flows raises IndexError, and otherwise the range lies around the curve's flows, is never wider than before and keeps the agreed losses |
| ImpellerLoad.RangeCommon | ccp/impeller.py:867-910 | a successful pass gives a range inside [0, 1e20] that lies within the flows of every curve at that speed and carries their common losses |
| ImpellerLoad.RangeLosses | ccp/impeller.py:871-881 | the pass fails exactly when two curves give different power losses at that speed, and then with the AttributeError that `speed.to` raises on a text speed while the ValueError's message is built |
| ImpellerLoad.SpeedRange | ccp/impeller.py:867-910 | the loop over the curves for one speed gives what `RangeOf` specifies, the loss mismatch included |
| ImpellerLoad.PrepareRanges | ccp/impeller.py:826-910 | a successful load has a range for every speed of the first parameter, built from all the curves and lying within each of them |
| ImpellerLoad.PrepareFractions | ccp/impeller.py:855-860 | efficiencies in percent are brought to fractions for every speed and the other parameters are untouched |
| ImpellerLoad.WithFractions | ccp/impeller.py:855-860 | without efficiency curves the curves are kept; a failure is IndexError for no speeds, ValueError for an empty efficiency list, or KeyError naming a listed speed |
| ImpellerLoad.Fractions | ccp/impeller.py:855-860 | the percent check and the rescaling loop give what `WithFractions` specifies |
| ImpellerLoad.Prepare | ccp/impeller.py:826-910 | no curve arguments raise IndexError at `parameters[0]`; a successful load has one range per speed of the first parameter |
| ImpellerLoad.LoadFromDict | ccp/impeller.py:826-910 | `load_from_dict`'s loops give what `Prepare` specifies, including the first exception (AttributeError for a loss mismatch) |
| ImpellerLoad.FoundKeys | ccp/impeller.py:1170-1182 | no more keys are found than there are parameters |
| ImpellerLoad.FoundKeysExact | ccp/impeller.py:1170-1182 | every key found names a parameter whose file exists, and every existing file is found |
| ImpellerLoad.EngaugeCurves | ccp/impeller.py:1184-1189 | loading from Engauge files fails with ValueError exactly when the number of files found is not two |
| ImpellerLoad.FindCurveFiles | ccp/impeller.py:1168-1182 | the loop over the six parameters gives the keys `FoundKeys` specifies |
| ImpellerLoad.HeadAndEff | ccp/impeller.py:1170-1189 | with only the head and efficiency files present, the curves loaded are head and efficiency |
| ImpellerLoad.IsisEntries | ccp/impeller.py:1035-1046 | each isis curve becomes, in order, an entry under its speed text with its flows, values and zero losses |
| ImpellerLoad.Coordinates | ccp/impeller.py:1037-1041 | the inner loop collects the x and the y of each point, in order |
| ImpellerLoad.IsisToCcp | ccp/impeller.py:1034-1046 | the outer loop builds the dictionary of those entries, later curves overwriting equal speeds |
| ImpellerLoad.IsisLookup | ccp/impeller.py:1034-1046 | a curve whose speed no later curve repeats is found under its speed with its own points; a speed no curve has is absent |
| Compressor.KSeal | ccp/compressor.py:1354-1383 | the seal constant fails with ZeroDivisionError exactly when the molar mass or the upstream pressure is zero (Python floats), or when the root of `1 − (p_down/p_up)²` is zero, where numpy would give inf or nan instead |
| Compressor.FlowMSeal | ccp/compressor.py:1387-1417 | the seal flow fails with ZeroDivisionError exactly when the molar mass or the upstream pressure is zero (Python floats), or when the root of `z·T/MW` is zero, where numpy would give inf or nan instead |
| Compressor.SealRoots | ccp/compressor.py:1379-1381 | for a seal with positive pressures, molar mass, `z·T` and downstream pressure below upstream, both roots the formulas divide by are positive |
| Compressor.KSealOf | ccp/compressor.py:1379-1381 | for a flowing seal, `k = flow·√(zT/MW) / (p_up·√(1 − (p_down/p_up)²))` |
| Compressor.FlowMSealOf | ccp/compressor.py:1410-1415 | for a flowing seal, `flow = k·p_up·√(1 − (p_down/p_up)²) / √(zT/MW)` |
| Compressor.SealRoundTrip | ccp/compressor.py:1354-1417 | the flow computed from the seal constant of a flow is that flow |
| Compressor.SealRoundTripBack | ccp/compressor.py:1354-1417 | the seal constant computed from the flow of a constant is that constant |
| Compressor.NonZero | ccp/compressor.py:796-797 | the constants kept for the mean are all non-zero and no more than given |
| Compressor.SealMeanZero | ccp/compressor.py:791-794 | when every constant is zero the mean is zero |
| Compressor.NonZeroNone | ccp/compressor.py:791 | all-zero constants keep nothing |
| Compressor.NonZeroKeeps | ccp/compressor.py:796-797 | one non-zero constant is enough for something to be kept |
| Compressor.NonZeroWithin | ccp/compressor.py:796-797 | the kept constants keep any bounds the non-zero constants have |
| Compressor.SealMeanBetween | ccp/compressor.py:791-806 | with at least one non-zero constant, the mean lies between the least and the greatest non-zero constant |
| Compressor.Below | ccp/compressor.py:1440 | every flow coefficient kept lies below `phi` |
| Compressor.Above | ccp/compressor.py:1441 | every flow coefficient kept lies above `phi` |
| Compressor.BelowKeeps | ccp/compressor.py:1440 | one coefficient below `phi` is enough for the list to be non-empty |
| Compressor.AboveKeeps | ccp/compressor.py:1441 | one coefficient above `phi` is enough for the list to be non-empty |
| Compressor.BelowIn | ccp/compressor.py:1440 | every kept coefficient is one of the test coefficients |
| Compressor.AboveIn | ccp/compressor.py:1441 | every kept coefficient is one of the test coefficients |
| Compressor.Index | ccp/compressor.py:1444-1445 | `list.index` gives a position holding the value |
| Compressor.Lerp | ccp/compressor.py:1450 | the result lies on the straight line through the two points |
| Compressor.LerpEnds | ccp/compressor.py:1450 | the line takes the given value at each of its two points |
| Compressor.LerpBetween | ccp/compressor.py:1450 | between its two points the line stays between their values |
| Compressor.Neighbours | ccp/compressor.py:1433-1441 | the two coefficients the line is drawn through are test coefficients |
| Compressor.ParameterInterpolation | ccp/compressor.py:1420-1452 | as written: an empty curve raises the ValueError of `min`; any other failure is IndexError or ZeroDivisionError; a result lies, at `phi`, on the line through two of the curve's points with distinct coefficients |
| Compressor.LineThrough | ccp/compressor.py:1443-1450 | the line through two test points fails only with IndexError or ZeroDivisionError, and otherwise passes through two of the curve's points |
| Compressor.InterpolationAtExtremes | ccp/compressor.py:1433-1441 | at the least or the greatest test coefficient the written code finds no neighbour on one side and raises IndexError |
| Compressor.BelowNone | ccp/compressor.py:1440 | no coefficient below `phi` leaves the list empty |
| Compressor.AboveNone | ccp/compressor.py:1441 | no coefficient above `phi` leaves the list empty |
| Compressor.InterpolationBelow | ccp/compressor.py:1433-1450 | below the range the result is the line through the first two test points |
| Compressor.InterpolationAbove | ccp/compressor.py:1436-1450 | above the range, with distinct coefficients, the result is the line through the last two test points |
| Compressor.InterpolationInside | ccp/compressor.py:1439-1450 | strictly inside the range the neighbours bracket `phi` and the result lies between their parameters |
| Compressor.NeighboursInside | ccp/compressor.py:1439-1441 | strictly inside the range there is a neighbour strictly below and one strictly above |
| Compressor.InterpolationLine | ccp/compressor.py:1443-1450 | once found, the result is the line through the neighbours' parameters |
| Compressor.InsideLists | ccp/compressor.py:1439-1441 | strictly inside the range none of the filtered lists is empty |
| Compressor.IndexDistinct | ccp/compressor.py:1444-1445 | among distinct coefficients `index` finds a coefficient's own position |
| Compressor.InterpolationSkipsPoint | ccp/compressor.py:1439-1441 | at `phi = 2` with coefficients `[1, 2, 3]` and parameters `[0, 1, 0]` the written code gives 0, not the parameter 1 measured there |
| Compressor.SkipsNeighbours | ccp/compressor.py:1439-1441 | at a test coefficient the written code draws the line through the points on either side, skipping the point itself |
| Compressor.NeighboursCorrected | ccp/compressor.py:1433-1441 | the corrected neighbours are test coefficients |
| Compressor.AtMost | ccp/compressor.py:1440 | the corrected filter keeps coefficients at or below `phi` |
| Compressor.AtMostKeeps | ccp/compressor.py:1440 | one coefficient at or below `phi` is enough for the list to be non-empty |
| Compressor.AtMostIn | ccp/compressor.py:1440 | every kept coefficient is one of the test coefficients |
| Compressor.AboveAscending | ccp/compressor.py:1441 | for ascending coefficients, those above the k-th are the ones after it |
| Compressor.AboveAll | ccp/compressor.py:1441 | when all coefficients exceed `phi` all are kept |
| Compressor.AtMostAscending | ccp/compressor.py:1440 | for ascending coefficients, those at or below the k-th are the ones up to it |
| Compressor.AtMostNone | ccp/compressor.py:1440 | when all coefficients exceed `phi` none is kept |
| Compressor.AscendingExtremes | ccp/compressor.py:1433-1438 | for ascending coefficients `min` and `max` are the first and last |
| Compressor.LineThroughAt | ccp/compressor.py:1443-1450 | through two distinct test points the line gives each point's parameter there |
| Compressor.LineThroughOk | ccp/compressor.py:1443-1450 | through two distinct test points the line is defined everywhere |
| Compressor.CorrectedLow | ccp/compressor.py:1433-1435 | at or below the range the corrected result is the line through the first two points |
| Compressor.CorrectedHigh | ccp/compressor.py:1436-1438 | at or above the greatest coefficient the corrected result is the line through the last two points |
| Compressor.CorrectedInside | ccp/compressor.py:1439-1450 | strictly inside the range the corrected interpolation succeeds |
| Compressor.NeighboursCorrectedInside | ccp/compressor.py:1439-1441 | strictly inside the range the corrected neighbours satisfy `lo <= phi < hi` |
| Compressor.CorrectedLine | ccp/compressor.py:1443-1450 | once found, the corrected result is the line through the corrected neighbours |
| Compressor.NeighboursAgree | ccp/compressor.py:1439-1441 | away from the test coefficients the corrected neighbours are the written ones |
| Compressor.InterpolationAgrees | ccp/compressor.py:1420-1452 | away from the test coefficients the corrected interpolation is the written one |
| Compressor.InterpolationThroughPoints | ccp/compressor.py:1420-1452 | for ascending coefficients, two or more, the corrected interpolation at the k-th coefficient is the k-th parameter |
| Compressor.ThroughLast | ccp/compressor.py:1436-1438 | at a greatest last coefficient the corrected result is the last parameter |
| Compressor.ThroughNeighbours | ccp/compressor.py:1443-1450 | when the corrected neighbours of the k-th coefficient are it and the next, the result is the k-th parameter |
| Compressor.NeighboursAtPoint | ccp/compressor.py:1439-1441 | for ascending coefficients, an inner test coefficient is paired with the next one |
| Compressor.InterpolationCorrectedTotal | ccp/compressor.py:1420-1452 | for ascending coefficients, two or more, the corrected interpolation succeeds at every `phi` |
| Compressor.AtMostBelow | ccp/compressor.py:1440 | away from the test coefficients the corrected filter is the written one |
| Compressor.MixedTemperature | ccp/compressor.py:229-231 | the mixed rotor suction temperature fails exactly when `ms1f + mend + 0.95·mseal` is zero (see also lines 767-769) |
| Compressor.MixedBetween | ccp/compressor.py:229-231 | streams with non-negative flows mix to a temperature between their least and greatest temperatures (see also lines 767-769) |
| Compressor.RotorTemperatures | ccp/compressor.py:765-770 | a missing seal-gas temperature raises the TypeError of `*`; otherwise the rotor temperatures fail with ZeroDivisionError exactly when the rotor suction flow `ms1f + mend + 0.95·mseal` or `md1f − mdiv` is zero, and the rotor discharge temperature mixes the discharge and division-wall streams (see also lines 868-872) |
| Compressor.RotorNoFlow | ccp/compressor.py:767-770 | for a balanced section the two divisors vanish together, so the rotor temperatures fail exactly when the rotor suction flow is zero |
| Compressor.BearingLossesSign | ccp/compressor.py:238-254 | losses are zero when the oil leaves at its inlet temperature and non-negative when it leaves warmer |
| Compressor.StraightFlows | ccp/compressor.py:210-219 | `ms1r − ms1f + 0.95·mseal/2` equals the balance-line flow, missing flows counting as zero; with neither, the rotor flow is the suction flow |
| Compressor.StraightSealRecovered | ccp/compressor.py:218-233 | the end-seal flow recovered from a point's seal constant is the end-seal flow it was computed from |
| Compressor.StraightThroughRotor | ccp/compressor.py:207-235 | the loop yields the rotor conditions of every point in order, or the first point's error |
| Compressor.MeasuredBalance | ccp/compressor.py:731-740 | the measured branch keeps the given discharge, balance-line and seal-gas flows and satisfies the section's mass balance |
| Compressor.EstimatedBalance | ccp/compressor.py:842-859 | the estimated branch keeps the given end-seal, division-wall and seal-gas flows and satisfies the section's mass balance |
| Compressor.BalanceRoundTrip | ccp/compressor.py:731-740 | fed the end-seal and division-wall flows the measured branch found, the estimated branch gives back the whole measured balance (see also lines 842-859) |
| Compressor.DerivedDischarge | ccp/compressor.py:700-738 | the first-section discharge derived from the division-wall flow is the measured discharge |
| Compressor.DerivedDischargeFlow | ccp/compressor.py:700-707 | a point given a non-zero division-wall flow derives a discharge flow, raising the TypeError of `+` without a balance-line flow and of `*` without a seal-gas flow; the derived flow is the one whose measured balance has that division-wall flow; a point without one derives nothing |
| Compressor.DeriveDischargeFlows | ccp/compressor.py:700-707 | the loop derives every point's discharge flow in order, or stops with the first point's TypeError |
| Compressor.MeasuredLeak | ccp/compressor.py:731-770 | a point without a discharge flow yields nothing; with one, a missing seal-gas flow raises the TypeError of `*` and a missing balance-line flow that of `-`; otherwise the balance is the measured branch's `MeasuredBalance` of the given flows, both seal constants are `k_seal` of its end-seal and division-wall flows, the balance is balanced and its rotor suction flow non-zero, the rotor temperatures failing with ZeroDivisionError otherwise |
| Compressor.MeasuredNoRotorFlow | ccp/compressor.py:731-770 | a measured point whose balance has no rotor suction flow raises ZeroDivisionError |
| Compressor.EstimatedLeak | ccp/compressor.py:827-872 | the balance is the estimated branch's `EstimatedBalance` of the seal flows `flow_m_seal` gives for the two mean constants (a missing seal-gas flow counting as zero); it is balanced with a non-zero rotor suction flow, the rotor temperatures failing with ZeroDivisionError otherwise, and a missing seal-gas temperature raises the TypeError of `*` |
| Compressor.Filled | ccp/compressor.py:693-698 | each point's constant is its own when measured and the fallback otherwise (see also lines 758-765, 828-835) |
| Compressor.BalancesFailFrom | ccp/compressor.py:808-859 | the second loop stops at the first point that fails, with its error |
| Compressor.BalancesBalanced | ccp/compressor.py:808-859 | the second loop yields one balanced balance per point, a measured point keeping its first-loop balance |
| Compressor.LeakageOf | ccp/compressor.py:700-894 | a failure of the division-wall loop before the passes is the result's failure; with no first-section point the mean constant is never bound, and storing it raises NameError (an UnboundLocalError) |
| Compressor.LeakageBalanced | ccp/compressor.py:693-859 | after both loops every point is balanced with a non-zero rotor suction flow and a seal-gas temperature; a measured point's balance is `MeasuredBalance` of its flows and its own constants are `k_seal` of that balance's end-seal and division-wall flows; an estimated point's balance is `EstimatedBalance` of the flows `flow_m_seal` gives for the two mean constants |
| Compressor.LeakageLengths | ccp/compressor.py:693-698 | both arrays and the balances hold one entry per point |
| Compressor.LeakageParts | ccp/compressor.py:700-859 | the division-wall loop succeeded, and the result is made of the first loop's leaks, the means of their non-zero constants and the second loop's balances |
| Compressor.LeakageAt | ccp/compressor.py:700-859 | at each point the guarantees of `LeakageBalanced` hold, and a point given a division-wall flow had balance-line and seal-gas flows |
| Compressor.BalancesEntry | ccp/compressor.py:808-859 | entry `i` of the second loop is the second pass at point `i` |
| Compressor.SealArrays.constructor | ccp/compressor.py:693-698 | two fresh, distinct arrays of `n` zeros |
| Compressor.SealArrays.Store | ccp/compressor.py:758 | only entry `i` of each array changes, to the given constant (see also lines 765, 828, 835) |
| Compressor.SealArrays.MeasurePass | ccp/compressor.py:708-787 | the loop yields every point's first-pass leak, and the arrays then hold the measured constants with zeros elsewhere |
| Compressor.SealArrays.EstimatePass | ccp/compressor.py:789-859 | the loop yields every point's balance with the means of the non-zero constants, and the arrays then hold the means at the estimated points |
| Compressor.Padded | ccp/compressor.py:693-698 | the array during the first loop: the constants so far, then zeros |
| Compressor.PaddedStep | ccp/compressor.py:758-765 | one more point changes only its own entry, and only when it was measured |
| Compressor.RefilledEnds | ccp/compressor.py:808-835 | before the second loop the arrays hold the first-loop constants; after it, the means at the estimated points |
| Compressor.RefilledStep | ccp/compressor.py:827-835 | one more point of the second loop changes only its own entry, and only when it was estimated |
| Compressor.BackToBackLeakage | ccp/compressor.py:693-894 | the division-wall loop and both passes over the first-section points give the leakage `LeakageOf` describes, whose properties `LeakageBalanced` states; with no first-section point the mean is unbound and the loops end with that error |
| Similarity.MachBand | ccp/similarity.py:24-31 | as written, the message is reported exactly for a specified Mach of 0 or less, in [0.214, 0.215], or equal to 0.86; any band reported has its lower limit below its upper |
| Similarity.MachGap | ccp/similarity.py:24-31 | at Mach 0.2145 the written comparison reports the message while the point's own Mach limits give a band |
| Similarity.MachBandCorrected | ccp/similarity.py:24-31 | the band over the point's own ranges: the message exactly for a negative Mach, and otherwise a band with lower below upper |
| Similarity.MachBandAgrees | ccp/similarity.py:24-31 | the corrected band is the point's Mach band wherever that is defined, and the written band wherever the written one is a band |
| Similarity.ReynoldsUpper | ccp/similarity.py:33-39 | as written, the upper limit is the message exactly at or below 9e4 and at 1e7 itself; above 1e7 it is 100 |
| Similarity.ReynoldsLower | ccp/similarity.py:33-46 | as written, the lower limit is the message exactly at or below 9e4 and at 1e6 itself; above 1e6 it is 0.1 |
| Similarity.ReynoldsBoundary | ccp/similarity.py:34-39 | at Reynolds 1e7 the written comparison reports the message while the point's own Reynolds limits give the upper limit 100 |
| Similarity.ReynoldsCorrected | ccp/similarity.py:33-48 | the corrected limits are the message exactly below 9e4 |
| Similarity.ReynoldsAgrees | ccp/similarity.py:33-48 | the corrected limits agree with the written ones wherever those are numbers |
| Similarity.CheckSimilarityAsWritten | ccp/similarity.py:1-57 | as written: the test-to-specified ratios of flow coefficient, volume ratio and Reynolds number and the Mach difference, the fixed bands, and limits that are the message exactly for a Mach of 0 or less, in [0.214, 0.215] or at 0.86, and for a Reynolds number at or below 9e4 or at 1e7 (upper) and 1e6 (lower) |
| Similarity.CheckSimilarity | ccp/similarity.py:1-57 | the corrected report: the ratios of `CheckSimilarityAsWritten`, with the Mach and Reynolds limits computed over the point's own ranges, so that Mach 0.2145 and Reynolds 1e7 get a band |
| Similarity.ReportAgrees | ccp/similarity.py:1-57 | the corrected report differs from the written one only in its limits, and equals it wherever the written limits are a band |
| Similarity.SelfSimilar | ccp/similarity.py:16-48 | a point compared with itself gives unit ratios and no Mach difference, each inside its band wherever the band is defined |
| Orifice.ParseTappings | ccp/fo.py:68-71 | exactly the names "corner", "D D/2" and "flange" are accepted, each as its own arrangement; any other raises ValueError with the source's message |
| Orifice.ParseTappingsName | ccp/fo.py:68-71 | every arrangement is accepted under its own name |
| Orifice.TappingSpacing | ccp/fo.py:97-104 | corner tappings have no spacing, D and D/2 tappings L1 = 1 and L2 = 0.47, flange tappings L1 = L2 = 25.4 mm / D; `M2·(1 − beta) = 2·L2`; a zero pipe diameter with flange tappings or `beta = 1` raises ZeroDivisionError |
| Orifice.Expansibility | ccp/fo.py:88-96 | epsilon is `1 − weight·(1 − (p2/p1)^(1/kappa))` with `p2 = p1 − delta_p`, and fails exactly on a zero upstream pressure or a zero isentropic exponent |
| Orifice.ExpansibilityWeight | ccp/fo.py:94 | the weight of the pressure-ratio term is at least 0.351 |
| Orifice.NoDropNoExpansion | ccp/fo.py:94-96 | with no pressure drop epsilon is 1 |
| Orifice.DropExpands | ccp/fo.py:94-96 | a drop that lowers the ratio term below one makes epsilon smaller than one |
| Orifice.SmallPipeTerm | ccp/fo.py:122-123 | no correction for pipes of 71.12 mm or more; below, the correction is positive for `beta < 0.75` and negative for `beta > 0.75` |
| Orifice.SmallPipeTermContinuous | ccp/fo.py:122-123 | the correction vanishes at 71.12 mm, so the coefficient does not jump at the threshold |
| Orifice.DischargeCoefficient | ccp/fo.py:106-123 | the coefficient is the base Reader-Harris/Gallagher expression plus the small-pipe correction, and fails exactly on a zero Reynolds number or `beta^4 = 1` |
| Orifice.MassFlow | ccp/fo.py:124-131 | `flow·√(1 − beta^4) = C·epsilon·(pi/4)·d²·√(2·delta_p·rho)`, failing exactly when `√(1 − beta^4)` is zero |
| Orifice.NoDropNoFlow | ccp/fo.py:124-131 | with no pressure drop nothing flows |
| Orifice.FlowReynolds | ccp/fo.py:132 | the Reynolds number of a flow satisfies `Re·(mu·pi·D) = 4·flow`, failing exactly on a zero viscosity or diameter |
| Orifice.CalcFlow | ccp/fo.py:82-136 | the flow at a settled Reynolds number fails, with ZeroDivisionError, exactly on a zero pipe diameter, upstream pressure, exponent or Reynolds number, `beta = 1`, `beta^4 = 1` or a zero `√(1 − beta^4)` |
| Orifice.Residual | ccp/fo.py:106-135 | the residual is non-negative and vanishes exactly when the Reynolds number of the computed flow is the one assumed |
| Orifice.FlowOrifice.constructor | ccp/fo.py:58-80 | the orifice holds the given state, pressure drop, diameters, tappings and flows |
| Orifice.NewFlowOrifice | ccp/fo.py:58-80 | a downstream state is moved upstream in the caller's object by adding the drop, even when the tappings are then refused; unknown tappings raise ValueError; with no flow given both mass flows are the computed flow and the volume flow is it times the specific volume, or the computation's error is raised; otherwise the given flows are kept |
| Session.SessionDict.constructor | ccp/app/common.py:161 | the dictionary holds the given entries |
| Session.RenameSpeed | ccp/app/common.py:167-172 | the loop builds the file's entries in order, "speed" stored under "speed_operational" |
| Session.RenamedGet | ccp/app/common.py:167-172 | in a file without "speed_operational", the value of "speed" moves to "speed_operational", "speed" disappears and every other key keeps its value |
| Session.ParseInt | ccp/app/common.py:182 | `int` of a text parses only when, after surrounding blanks are stripped, something is left; a negative value comes from a leading minus |
| Session.ParseIntOfString | ccp/app/common.py:182 | `int(str(n)) == n` for every integer, so every gas number written by `str` is read back |
| Session.GasOfKey | ccp/app/common.py:179-184 | a key that starts with "gas" and has no second "_" field raises IndexError; a gas found is named "gas_" followed by the number |
| Session.GasListOk | ccp/app/common.py:179-184 | the gas list fails exactly when some key's second field is missing |
| Session.GasListHas | ccp/app/common.py:179-184 | the gas list holds the gas of every key that names one, and nothing else |
| Session.CollectGases | ccp/app/common.py:178-184 | the loop yields the gas list of the keys in order, or stops at the first IndexError |
| Session.GasListFailFrom | ccp/app/common.py:179-184 | the first key that raises ends the loop with its error |
| Session.GasOfField | ccp/app/common.py:180-184 | a key "gas_<f>" followed by nothing or by "_…" names gas `int(f)` when `f` is a number, and nothing otherwise |
| Session.TableKeyNotAGas | ccp/app/common.py:180-206 | the key of the new table names no gas |
| Session.GasZero | ccp/app/common.py:182 | an item key of gas 0 names gas 0 |
| Session.GasWithoutField | ccp/app/common.py:180-182 | a key such as "gasflow" raises IndexError |
| Session.StringLeOrder | ccp/app/common.py:187 | Python's string order is a total order |
| Session.StringLeTotal | ccp/app/common.py:187 | any two strings are ordered one way or the other |
| Session.StringLeTransitive | ccp/app/common.py:187 | the string order is transitive |
| Session.StringLeAntisymmetric | ccp/app/common.py:187 | strings ordered both ways are equal |
| Session.StringLePrefix | ccp/app/common.py:187 | a text sorts before its extensions |
| Session.Dedup | ccp/app/common.py:186 | the result has no repetitions and holds exactly the elements of the input |
| Session.GasOrderSpec | ccp/app/common.py:186-187 | the gas order holds each gas of the list exactly once, in ascending string order |
| Session.MoveEntriesCollected | ccp/app/common.py:192-201 | a completed inner loop has filled the gas's table with every claimed item under its component or molar-fraction key, a later item overriding an earlier one |
| Session.MoveEntriesGet | ccp/app/common.py:193-201 | a completed inner loop has deleted exactly the claimed keys and left every other value alone |
| Session.MoveEntriesOk | ccp/app/common.py:193-201 | on distinct keys the inner loop raises KeyError exactly when a claimed item is no longer in the file |
| Session.MoveEntriesFailFrom | ccp/app/common.py:193-201 | an exception in the inner loop ends it |
| Session.MoveGasesGet | ccp/app/common.py:191-201 | a completed outer loop has deleted exactly the keys some gas claims |
| Session.MoveGasesOk | ccp/app/common.py:189-201 | the outer loop raises exactly when some key is claimed by two gases |
| Session.MoveGasesTable | ccp/app/common.py:191-201 | on distinct gases the completed loop has one table per gas, in order, holding what the gas collects from the copy |
| Session.MoveGasesFailFrom | ccp/app/common.py:191-201 | an exception in the outer loop ends it |
| Session.TableValueEmpty | ccp/app/common.py:206 | no gases give an empty table |
| Session.MoveGasItems | ccp/app/common.py:192-201 | the inner loop changes the dictionary in place as the items of the copy dictate and returns the gas's table or the exception |
| Session.MoveGasTables | ccp/app/common.py:190-201 | the outer loop takes the gases in order, changes the dictionary in place and builds the table as `MoveGases` describes, ending at the first exception |
| Session.MigrateGases | ccp/app/common.py:176-206 | the second step changes the dictionary in place to what `Migrate` describes, stopping at the first exception |
| Session.Migrate | ccp/app/common.py:176-206 | the second step stops only with the IndexError of a gas key without a second field, which leaves the file untouched, or with a KeyError from a deletion |
| Session.BeforeOrder | ccp/app/common.py:164 | the version order is a strict total order |
| Session.StagesAroundFinal | ccp/app/common.py:175 | a release's development and pre-releases come before it, its post-releases after it |
| Session.PreReleasesMigrate | ccp/app/common.py:175 | 0.3.7.dev0 and 0.3.7rc1 are older than 0.3.7, and 0.3.7.post1 is not |
| Session.Convert | ccp/app/common.py:161-208 | the version text is parsed first, and a text `Version` refuses raises InvalidVersion with the file unchanged; then a TOML file older than 0.3.6 has "speed" renamed; a dictionary older than 0.3.7 (its development and pre-releases included) is migrated in place and returned itself, or the migration's exception is raised; anything else comes back unchanged |
| Session.MigrateOk | ccp/app/common.py:176-206 | on distinct keys whose gas keys all have a second field, the migration succeeds exactly when no key is claimed by two gases |
| Session.MigrateGet | ccp/app/common.py:189-201 | after a migration the claimed keys are gone and every other key keeps its value |
| Session.MigrateTable | ccp/app/common.py:186-206 | after a migration the table holds one entry per gas in ascending order with what it collected, attached exactly when every gas found something |
| Session.NoGasKeys | ccp/app/common.py:179-184 | keys none of which starts with "gas" name no gas |
| Session.NoGasEmptyTable | ccp/app/common.py:176-206 | a file with no gas key gets an empty table and keeps everything else |
| Session.NoGasMigrate | ccp/app/common.py:186-206 | an empty gas list attaches an empty table |
| Session.GasOne | ccp/app/common.py:182 | an item key of gas 1 names gas 1 |
| Session.GasTen | ccp/app/common.py:182 | an item key of gas 10 names gas 10 |
| Session.ClashGases | ccp/app/common.py:179-187 | the item keys of gases 1 and 10 give the gas list "gas_1", "gas_10" |
| Session.ClashClaims | ccp/app/common.py:187-194 | gas 1 sorts before gas 10 and both claim the component key of gas 10 |
| Session.PrefixClash | ccp/app/common.py:191-201 | with items of gases 1 and 10 the migration raises: gas 1 deletes the item of gas 10 and gas 10 then finds it missing |
| Session.ToFloat | ccp/app/common.py:236 | a number converts to itself, and None or a table raises TypeError |
| Session.Fraction | ccp/app/common.py:234-236 | the empty text counts as zero and anything else is converted by `float` |
| Session.Pairing | ccp/app/common.py:228-238 | a column whose name does not contain "component" contributes nothing, and a contributed fraction is never zero |
| Session.AddGasColumns | ccp/app/common.py:227-238 | the inner loop adds the pairs of a gas's columns in order, or stops at the first exception |
| Session.GetGasComposition | ccp/app/common.py:224-240 | the outer loop yields the composition of every gas of that name in table order, or the first exception |
| Session.Composition | ccp/app/common.py:224-240 | an empty table gives an empty composition, and a composition is found only when every gas of the table has a "name" column |
| Session.GasColumnsFailFrom | ccp/app/common.py:227-238 | the first column that raises ends the inner loop with its error |
| Session.CompositionFailFrom | ccp/app/common.py:225-238 | an exception at some gas ends the outer loop |
| Session.GasColumnsFrom | ccp/app/common.py:227-238 | every entry after the inner loop was there before or comes from a column |
| Session.CompositionFrom | ccp/app/common.py:224-240 | every entry of the composition comes from a column of a gas of that name, with a non-zero fraction |
| Session.GasColumnsKeeps | ccp/app/common.py:238 | the inner loop keeps the components it was given |
| Session.GasColumnsHas | ccp/app/common.py:227-238 | the inner loop adds the component of every column that pairs to one |
| Session.CompositionKeeps | ccp/app/common.py:225-238 | later gases keep the components found so far |
| Session.CompositionHas | ccp/app/common.py:224-240 | each component a matching gas's column pairs to is in the composition |
| Session.CompositionPrefixOk | ccp/app/common.py:225-238 | a composition that succeeds succeeds on every prefix of the table |
| Session.CompositionNoMatch | ccp/app/common.py:224-240 | with no gas of that name the composition is empty |
| Monitoring.FluidColumn | ccp/app/pages/4_online_monitoring.py:95-135 | the column of a component is "fluid_" followed by the component's name |
| Monitoring.FluidColumnInjective | ccp/app/pages/4_online_monitoring.py:95-135 | distinct components have distinct columns |
| Monitoring.Candidates | ccp/app/pages/4_online_monitoring.py:70-95 | the loops visit the eight fixed keys in order, each with its tag (empty when absent) and column, then the fluid components with their tags and "fluid_" columns |
| Monitoring.Emitted | ccp/app/pages/4_online_monitoring.py:86-93 | no more pairs are emitted than visited |
| Monitoring.BuildPiQuery | ccp/app/pages/4_online_monitoring.py:54-97 | the tag list is the non-empty tags in visiting order, and the rename map is built by setting each of them to its column in that order |
| Monitoring.EmitStep | ccp/app/pages/4_online_monitoring.py:85-95 | one visit appends the tag and sets its column exactly when the tag is not empty |
| Monitoring.EmittedHas | ccp/app/pages/4_online_monitoring.py:86-93 | a pair is emitted exactly when it is visited with a non-empty tag |
| Monitoring.EmittedAppend | ccp/app/pages/4_online_monitoring.py:84-95 | the fixed keys' tags come before the fluid components' tags |
| Monitoring.EmittedCount | ccp/app/pages/4_online_monitoring.py:86-94 | as many tags are queried as there are visits with a non-empty tag |
| Monitoring.RenameMapSpec | ccp/app/pages/4_online_monitoring.py:88-95 | the rename map has a key for exactly the queried tags, and a tag maps to the column of its last setting |
| Monitoring.QueryTags | ccp/app/pages/4_online_monitoring.py:244-246 | outside testing, the tags queried are those of the query |
| Monitoring.QueryTagsFail | ccp/app/pages/4_online_monitoring.py:244-246 | the fetch raises ValueError before any request exactly when every fixed key and every fluid component has an empty tag |
| Monitoring.Frame.constructor | ccp/app/pages/4_online_monitoring.py:141 | the frame holds the given index and columns |
| Monitoring.Hundredth | ccp/app/pages/4_online_monitoring.py:137 | dividing a column by 100 keeps its length and succeeds exactly when every cell is a number or NaN |
| Monitoring.ApplyFluidUnitConversions | ccp/app/pages/4_online_monitoring.py:116-138 | the frame is changed in place to the converted columns and returned, or the division's TypeError is raised; the index is kept |
| Monitoring.ConvertedFailFrom | ccp/app/pages/4_online_monitoring.py:134-137 | the first division that raises ends the loop |
| Monitoring.ConvertedKeys | ccp/app/pages/4_online_monitoring.py:134-137 | the conversion keeps the columns, in order |
| Monitoring.ConvertedOther | ccp/app/pages/4_online_monitoring.py:136 | a column that is not the column of a component in percent is untouched |
| Monitoring.ConvertedPercent | ccp/app/pages/4_online_monitoring.py:136-137 | the existing column of a component in percent is divided by 100, once |
| Monitoring.FluidColumnDiffers | ccp/app/pages/4_online_monitoring.py:134-135 | distinct components of the units map have distinct columns |
| Monitoring.RecordsAll | ccp/app/pages/4_online_monitoring.py:176-184 | the dict count never exceeds the rows, and equals them exactly when every cell is a dict |
| Monitoring.Detect | ccp/app/pages/4_online_monitoring.py:171-189 | the first loop can only raise ValueError, and records at most one name per column |
| Monitoring.DetectFails | ccp/app/pages/4_online_monitoring.py:172-189 | the first loop raises ValueError exactly when some column with rows holds a dict in every row |
| Monitoring.DetectNames | ccp/app/pages/4_online_monitoring.py:172-183 | the columns the first loop records are exactly those holding a dict |
| Monitoring.Where | ccp/app/pages/4_online_monitoring.py:203 | every row kept is a row whose mask entry is false |
| Monitoring.WhereSpec | ccp/app/pages/4_online_monitoring.py:203 | every unmasked row is kept, and the kept rows stay in order |
| Monitoring.WhereNone | ccp/app/pages/4_online_monitoring.py:203 | with no row masked every row is kept |
| Monitoring.Coerce | ccp/app/pages/4_online_monitoring.py:211 | a coerced cell is a number or NaN, and numbers and NaN are kept as they are |
| Monitoring.Pick | ccp/app/pages/4_online_monitoring.py:203 | one entry per kept position |
| Monitoring.PickColumns | ccp/app/pages/4_online_monitoring.py:203 | selecting rows keeps the columns |
| Monitoring.Sanitized | ccp/app/pages/4_online_monitoring.py:141-213 | cleaning raises exactly when the first loop does; otherwise the columns keep their names and order and each is as long as the new index |
| Monitoring.SanitizedSpec | ccp/app/pages/4_online_monitoring.py:141-213 | after cleaning, the rows kept are exactly the rows without a dict in any column, in order, and every cell is a number or NaN |
| Monitoring.DetectNoRecords | ccp/app/pages/4_online_monitoring.py:172-189 | columns without a dict pass the first loop with nothing recorded |
| Monitoring.SanitizedNoRecords | ccp/app/pages/4_online_monitoring.py:191-213 | a frame without dicts keeps all its rows and only has its cells coerced |
| Monitoring.DetectColumns | ccp/app/pages/4_online_monitoring.py:171-189 | the first loop records the dict-holding columns in order, or raises at the first holding dicts only |
| Monitoring.DetectFailFrom | ccp/app/pages/4_online_monitoring.py:184-189 | the first column that raises ends the loop |
| Monitoring.DictRowMask | ccp/app/pages/4_online_monitoring.py:200-202 | the mask marks exactly the rows holding a dict in one of the recorded columns |
| Monitoring.MaskedBySnoc | ccp/app/pages/4_online_monitoring.py:202 | one more column marks the rows it has a dict in |
| Monitoring.MaskedRow | ccp/app/pages/4_online_monitoring.py:199-202 | with the recorded columns, a row is marked exactly when it holds a dict in any column |
| Monitoring.KeptRows | ccp/app/pages/4_online_monitoring.py:199-203 | the rows kept are the unmarked ones, in order |
| Monitoring.SanitizePiDataframe | ccp/app/pages/4_online_monitoring.py:141-213 | the cleaned frame is the one `Sanitized` describes, with a naive index; a dict anywhere makes it a new frame and leaves the given one untouched, otherwise the given frame is cleaned in place and returned; the first loop's ValueError leaves it untouched |
| Monitoring.CoerceColumns | ccp/app/pages/4_online_monitoring.py:210-211 | the last loop coerces every column in place and keeps the index |
| Marimo.OptionLineShape | docs/_extensions/marimo-team/marimo/extract.py:59-74 | a matched line starts with the option mark (a hash and a bar); its key is free of blanks at either end and holds no colon, and its value starts with no blank |
| Marimo.OptionLineFormat | docs/_extensions/marimo-team/marimo/extract.py:59-74 | a line written as the option mark, a blank and `key: value`, is matched back to that key and value, for every bare key without colons and every value without leading blanks |
| Marimo.BodyFormat | docs/_extensions/marimo-team/marimo/extract.py:59 | the text after the mark, `key: value`, splits back into the key and the value |
| Marimo.MarkedBody | docs/_extensions/marimo-team/marimo/extract.py:59 | the mark followed by a blank leads to the key and value after it |
| Marimo.CodeStart | docs/_extensions/marimo-team/marimo/extract.py:66-73 | the scan stops at the first line that is neither blank nor an option line, or runs past the last line |
| Marimo.Options | docs/_extensions/marimo-team/marimo/extract.py:71-74 | there are no more options than lines |
| Marimo.QuartoConfig | docs/_extensions/marimo-team/marimo/extract.py:58-76 | the text returned is the block from one of its lines on |
| Marimo.ExtractAndStripQuartoConfig | docs/_extensions/marimo-team/marimo/extract.py:58-76 | the loop returns the options of the lines before the first code line and the text from that line on (from the last line when there is none), or the first decoding error |
| Marimo.NotCode | docs/_extensions/marimo-team/marimo/extract.py:69-73 | blank lines and option lines do not stop the scan |
| Marimo.CodeAt | docs/_extensions/marimo-team/marimo/extract.py:69-73 | the first line that is neither blank nor an option line is where the scan stops |
| Marimo.ScanStep | docs/_extensions/marimo-team/marimo/extract.py:68-75 | one more line adds its decoded option, raises its decoding error, or adds nothing |
| Marimo.DecodedSnoc | docs/_extensions/marimo-team/marimo/extract.py:75 | one more option is set to its decoded value, or raises its decoding error |
| Marimo.OptionsPrefix | docs/_extensions/marimo-team/marimo/extract.py:66-75 | the options of fewer lines are a prefix of the options of more |
| Marimo.DecodedFailFrom | docs/_extensions/marimo-team/marimo/extract.py:75 | a decoding error among the first options is the error of all of them |
| Marimo.FirstLineCode | docs/_extensions/marimo-team/marimo/extract.py:58-76 | a block whose first line is code comes back whole, with no options |
| Marimo.StrippedFromCode | docs/_extensions/marimo-team/marimo/extract.py:66-76 | the text returned starts at the first code line, and every line before it is blank or an option line |
| Marimo.TrailingText | docs/_extensions/marimo-team/marimo/extract.py:65-76 | without a code line the text returned is the last line |
| Marimo.TrailingOptionKept | docs/_extensions/marimo-team/marimo/extract.py:65-76 | so a final option line is both read as an option and kept as the code |
| Marimo.DecodedLast | docs/_extensions/marimo-team/marimo/extract.py:75 | a repeated option keeps the value of its last line |
| Marimo.DecodedAbsent | docs/_extensions/marimo-team/marimo/extract.py:75 | a key no option line names is not in the result |
| Marimo.DecodedFails | docs/_extensions/marimo-team/marimo/extract.py:75 | the options fail exactly when one of their values does not decode |
| Marimo.Setting | docs/_extensions/marimo-team/marimo/extract.py:87-107 | reading an option fails with KeyError for it exactly when it is absent |
| Marimo.CellOptionsWin | docs/_extensions/marimo-team/marimo/extract.py:86 | a cell's own option takes precedence over the global one |
| Marimo.Excluded | docs/_extensions/marimo-team/marimo/extract.py:87-88 | a cell with `include` off, or without a stub, renders as empty HTML |
| Marimo.RenderOptionsOf | docs/_extensions/marimo-team/marimo/extract.py:91-95 | every non-empty render shows the code per `echo`, is reactive exactly when `eval` is on and the export is not mime-sensitive, and carries the cell's code |
| Marimo.SensitiveImage | docs/_extensions/marimo-team/marimo/extract.py:99-101 | in a mime-sensitive export an image output becomes a figure of its data |
| Marimo.SensitiveText | docs/_extensions/marimo-team/marimo/extract.py:102-105 | in a mime-sensitive export a plain-text or markdown output becomes a paragraph of its data |
| Marimo.ErrorMimeKind | docs/_extensions/marimo-team/marimo/extract.py:100-106 | the marimo error mimetype is neither an image nor text |
| Marimo.SensitiveError | docs/_extensions/marimo-team/marimo/extract.py:106-114 | in a mime-sensitive export a marimo error becomes a block quote, or an empty paragraph when errors are off |
| Marimo.SensitiveOther | docs/_extensions/marimo-team/marimo/extract.py:126-136 | in a mime-sensitive export any other output falls through to the stub's raw HTML |
| Marimo.ErrorSuppressed | docs/_extensions/marimo-team/marimo/extract.py:116-124 | outside the mime-sensitive branch, a marimo error with errors off is dropped as empty HTML |
| Marimo.MimeRender | docs/_extensions/marimo-team/marimo/extract.py:79-136 | the render never fails when every option it reads is present, a failure is always a KeyError for one of them, and only a mime-sensitive export of a cell with a stub gives a figure, paragraph or block quote rather than HTML |
| Marimo.DefaultsComplete | docs/_extensions/marimo-team/marimo/extract.py:46-55 | global options built over the defaults hold every option the render reads (see also line 156) |
| Marimo.RenamedGet | docs/_extensions/marimo-team/marimo/extract.py:141-144 | the renamed part holds `title` as `app_title` and `marimo-layout` as `layout_file`, and nothing else |
| Marimo.OtherGet | docs/_extensions/marimo-team/marimo/extract.py:146 | the update copies every other attribute as it is |
| Marimo.AppConfig | docs/_extensions/marimo-team/marimo/extract.py:139-149 | the app configuration has distinct keys and never holds `marimo-version` |
| Marimo.AppConfigGet | docs/_extensions/marimo-team/marimo/extract.py:139-149 | `title` and `marimo-layout` appear only under their new names, where an attribute already named `app_title` or `layout_file` wins; the other attributes pass as they are, except `marimo-version`, which is dropped |

## Left out

- The browser download at ccp/app/download.js:15-27 (Blob, object URL, the click on a link) is I/O; the model stops at the text and the file name.
- CoolProp and REFPROP property evaluation. `update`, `define` and the unit converter end in a foreign call, which is a parameter; the head, efficiency and polytropic routines of ccp/point.py build on it and are not part of this model.
- The scipy numerics: `newton`, `fsolve`, `interp1d`, PCHIP and `UnivariateSpline`, the choke extrapolation of curves, the compressor's convergence loops, `calculate_speed_to_match_discharge_pressure` and the Reynolds iteration of `calc_flow`. The orifice model takes the settled Reynolds number as a parameter and proves what the residual says about it.
- The fix-up loop at ccp/config/fluids.py:87-95 only corrects floating-point rounding of the normalised fractions, which exact reals never need. The one visible effect it has, the `NameError` on an empty mixture, is modelled.
- The `multiprocessing.Pool` use in ccp/impeller.py is parallelism only; the model evaluates the same calls one after another.
- The Streamlit pages, plotting, Excel automation and file or network I/O: toml, parquet and zip sessions, the PI `SessionWeb` fetch, `to_excel` and the file writes of `save_isis_txt`.
- The splitting of a CSV line into fields by `csv.reader`: the readers receive rows already split.
- pint's unit arithmetic is a converter parameter that returns a number or fails.
- Number formatting is a parameter assumed never to produce a comma or a newline.
- JSON decoding of a quarto option value and the render of an island stub are parameters.
- Python's truthiness is reduced to the cases the source meets (None, empty text, `False`), and `strip` removes ASCII whitespace only.
- The formatting inside `__repr__`: pint's rendering of a quantity and the five-decimal rendering of a fraction are parameters. The similarity report is a record of values, not the strings the program prints.
- The second `raise` of `reynolds_limits` at ccp/point.py:541-542 cannot be reached after the first, so it is not modelled as a separate path.
- CurvesCsv.BuildCsv: requires the head, efficiency and speed columns to be at least as long as the flow column; JavaScript would write "undefined" or "NaN" past their end.
- Point.ReynoldsLimits: `sqrt` and the non-integer power are parameters, so the closed forms are proved up to those functions; the same holds for the Orifice and Compressor seal formulas.
- Fluids.FirstMatchWins: holds only for alias tables in which no later list names the canonical key of an earlier one, and the shipped table is not checked against that condition as a whole; without it `get_name` can chain (`Fluids.ChainedAliases`).
- Curve.CurveDegree: the choice of a cubic fit with three points, which scipy refuses, is stated as the source chooses it; the refusal inside scipy is not modelled.
- Compressor.KSeal: a vanishing root of `1 − (p_down/p_up)²` is modelled as ZeroDivisionError; numpy divides to inf (nan at zero flow) with a warning instead, which real numbers cannot hold.
- Compressor.FlowMSeal: a vanishing root of `z·T/MW` is modelled as ZeroDivisionError; numpy divides to inf (nan at zero seal constant) with a warning instead, which real numbers cannot hold.
- Similarity.CheckSimilarity: requires a non-zero specified flow coefficient, volume ratio and Reynolds number, and so does CheckSimilarityAsWritten; the source divides by them (ccp/similarity.py:16-19), and what a zero gives depends on the magnitude type (a Python float raises, a numpy value gives inf).
- Compressor.LeakageOf: the unbound `k_end_seal_mean` of an empty first section is modelled as NameError, of which Python's UnboundLocalError is a subclass.
- Session.ParseInt: Python's `int` also accepts underscores between digits and non-ASCII decimal digits; the model does not. The texts it reads are pieces of `split("_")`, which never hold an underscore.
- Monitoring.Detect: the ValueError's message is modelled up to "(instrument error)."; the sample dict's text and the closing request to check the instrument are left out, because a PI dict is modelled as a cell without contents.
- Compressor.MeasuredLeak: the TypeError of a missing flow is modelled by its operator only ("unsupported operand type(s) for *" for the seal-gas flow, "… for -" for the balance-line flow, "… for +" in the derived discharge flow); Python's message goes on to name the two operand types, which depend on whether the other operand is a float or a pint quantity. The same holds for Compressor.EstimatedLeak, Compressor.RotorTemperatures and Compressor.DerivedDischargeFlow.
- The flow-unit conversion of `load_from_dict` (ccp/impeller.py:882-906), which turns mass flows into volume flows through the suction density and converts units with pint, is not modelled: the curve dictionaries arrive with their flows already in the common units.
- ImpellerLoad.EngaugeCurves: the ValueError's message is modelled up to "There should be 2 curves, currently we have: "; the list of curve names found and the closing request to check the file names are left out, because the model counts the files without naming them.
- Quantities.Value: a value is None, a number, a flag or a quantity with a real magnitude; pint quantities whose magnitude is a string or a numpy array are not modelled, so the array forms of `Q_` and `.to` are left out.
- Marimo.DefaultsComplete: the global options are taken as booleans, but the root's attributes that `app_config_from_root` merges over the defaults are strings, and Python reads any non-empty string, "false" included, as true; the model does not follow an attribute that overrides an execution option (Marimo.AppConfig keeps the strings, Marimo.MimeRender reads booleans).
- Session.Convert: the parsing of the version text by `packaging.version.Version` is a parameter; a parsed version is a three-part release number with at most one stage (a development release, an `a`, `b` or `rc` pre-release, or a post-release), so epochs, local labels, release numbers of other lengths and combined stages such as `1.0rc1.dev2` are not modelled.

## Findings

| source | as written | input that shows it | evidently intended | confidence | as-written member | corrected member |
|---|---|---|---|---|---|---|
| prf2/state.py:95-98 | `define` passes all five setup arguments, the unset ones as None, to `update`, whose unit decorator converts pressure and temperature even when they are None | `State.define(p=..., h=..., fluid=...)` raises TypeError | any two properties define the state, as the docstring at line 34 says | not executed | Prf2State.PressureEnthalpyRaises | Prf2State.CorrectedPressureEnthalpy |
| ccp/similarity.py:24-31 | every comparison of the specified Mach number is strict, so 0, the interval [0.214, 0.215] and 0.86 fall between the bands | a specified Mach number of 0.2145 gives the message instead of a band | the bands of `mach_limits` in ccp/point.py, which cover every non-negative Mach number | not executed | Similarity.MachGap | Similarity.MachBandAgrees |
| ccp/similarity.py:34-39 | the upper Reynolds limit tests `9e4 < Re < 1e7` and `1e7 < Re`, leaving 1e7 itself out | a specified Reynolds number of 1e7 gives the message | the upper limit 100, as `reynolds_limits` in ccp/point.py gives it | not executed | Similarity.ReynoldsBoundary | Similarity.ReynoldsAgrees |
| ccp/compressor.py:1439-1441 | the neighbours of `phi` are taken from coefficients strictly below and strictly above it | at `phi = 2` with coefficients `[1, 2, 3]` and parameters `[0, 1, 0]` the result is 0, not 1; at the least or greatest coefficient the call raises IndexError | the interpolation passes through the test points and is defined over the whole range | not executed | Compressor.InterpolationSkipsPoint | Compressor.InterpolationThroughPoints |
