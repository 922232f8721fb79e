/** The online-monitoring page (ccp/app/pages/4_online_monitoring.py): the PI tag
    query built from the session's tag settings, the conversion of fluid columns
    given in percent, and the cleaning of the data PI returns. */
module Monitoring {
  import opened Wrappers
  import opened Dicts

  // ---------------------------------------------------------------------------
  // `_build_pi_query`

  /** The tag settings of the session: the tag of each fixed key (an absent key
      has no tag), the tag of each fluid component and the unit of each fluid
      component, each in the order of its dictionary. */
  datatype TagMappings = TagMappings(tags: Dict<string, string>, fluidTags: Dict<string, string>, fluidUnits: Dict<string, string>)

  /** The fixed keys in the order they are queried, each with its column name. */
  const KeyToColumn: seq<(string, string)> := [
    ("suc_p_tag", "ps"), ("suc_T_tag", "Ts"), ("disch_p_tag", "pd"), ("disch_T_tag", "Td"),
    ("speed_tag", "speed"), ("flow_tag", "flow_v"), ("delta_p_tag", "delta_p"), ("p_downstream_tag", "p_downstream")]

  const FluidPrefix := "fluid_"

  /** The column of a fluid component: "fluid_<component>". */
  function FluidColumn(component: string): (c: string)
    ensures |c| == |FluidPrefix| + |component| && c[|FluidPrefix|..] == component
  {
    FluidPrefix + component
  }

  lemma FluidColumnInjective(a: string, b: string)
    requires FluidColumn(a) == FluidColumn(b)
    ensures a == b
  {
  }

  /** `tag_mappings.get(key, "")`. */
  function TagOf(tm: TagMappings, key: string): string
  {
    if Get(tm.tags, key).Some? then Get(tm.tags, key).value else ""
  }

  /** Every candidate pair (tag, column) in the order the two loops visit them:
      the fixed keys, then the fluid components. */
  function Candidates(tm: TagMappings): (cands: seq<(string, string)>)
    ensures |cands| == |KeyToColumn| + |tm.fluidTags|
    ensures forall i :: 0 <= i < |KeyToColumn| ==> cands[i] == (TagOf(tm, KeyToColumn[i].0), KeyToColumn[i].1)
    ensures forall j :: 0 <= j < |tm.fluidTags| ==>
      cands[|KeyToColumn| + j] == (tm.fluidTags[j].1, FluidColumn(tm.fluidTags[j].0))
  {
    seq(|KeyToColumn|, i requires 0 <= i < |KeyToColumn| => (TagOf(tm, KeyToColumn[i].0), KeyToColumn[i].1)) +
    seq(|tm.fluidTags|, j requires 0 <= j < |tm.fluidTags| => (tm.fluidTags[j].1, FluidColumn(tm.fluidTags[j].0)))
  }

  /** The candidates whose tag is not empty, in order. */
  function Emitted(cands: seq<(string, string)>): (r: seq<(string, string)>)
    ensures |r| <= |cands|
  {
    if cands == [] then []
    else
      var n := |cands| - 1;
      var init := Emitted(cands[..n]);
      if cands[n].0 != "" then init + [cands[n]] else init
  }

  /** `_build_pi_query(tag_mappings)`: the tags to query and the rename map from
      tag to column. */
  method BuildPiQuery(tm: TagMappings) returns (tags: seq<string>, rename: Dict<string, string>)
    ensures tags == Keys(Emitted(Candidates(tm)))
    ensures rename == SetAll([], Emitted(Candidates(tm)))
  {
    ghost var cands := Candidates(tm);
    tags, rename := [], [];
    for i := 0 to |KeyToColumn|
      invariant tags == Keys(Emitted(cands[..i])) && rename == SetAll([], Emitted(cands[..i]))
    {
      var tagName := TagOf(tm, KeyToColumn[i].0);
      if tagName != "" {
        tags := tags + [tagName];
        rename := Set(rename, tagName, KeyToColumn[i].1);
      }
      EmitStep(cands, i, tags, rename);
    }
    for j := 0 to |tm.fluidTags|
      invariant tags == Keys(Emitted(cands[..|KeyToColumn| + j])) && rename == SetAll([], Emitted(cands[..|KeyToColumn| + j]))
    {
      var tagName := tm.fluidTags[j].1;
      if tagName != "" {
        tags := tags + [tagName];
        rename := Set(rename, tagName, FluidColumn(tm.fluidTags[j].0));
      }
      EmitStep(cands, |KeyToColumn| + j, tags, rename);
    }
    assert cands[..|cands|] == cands;
  }

  /** One visit of a loop of `BuildPiQuery`. */
  lemma EmitStep(cands: seq<(string, string)>, i: nat, tags: seq<string>, rename: Dict<string, string>)
    requires i < |cands|
    requires tags == Keys(Emitted(cands[..i])) + (if cands[i].0 != "" then [cands[i].0] else [])
    requires rename == if cands[i].0 != "" then Set(SetAll([], Emitted(cands[..i])), cands[i].0, cands[i].1)
                       else SetAll([], Emitted(cands[..i]))
    ensures tags == Keys(Emitted(cands[..i + 1])) && rename == SetAll([], Emitted(cands[..i + 1]))
  {
    assert cands[..i + 1][..i] == cands[..i];
    var e := Emitted(cands[..i]);
    if cands[i].0 != "" {
      assert (e + [cands[i]])[..|e|] == e;
    }
  }

  /** A candidate is emitted exactly when its tag is not empty. */
  lemma {:induction false} EmittedHas(cands: seq<(string, string)>, x: (string, string))
    ensures x in Emitted(cands) <==> x in cands && x.0 != ""
  {
    if cands != [] {
      var n := |cands| - 1;
      EmittedHas(cands[..n], x);
      assert cands == cands[..n] + [cands[n]];
    }
  }

  /** The emitted candidates of two runs in a row are those of the first run, then
      those of the second: the fixed keys come before the fluid components. */
  lemma {:induction false} EmittedAppend(a: seq<(string, string)>, b: seq<(string, string)>)
    ensures Emitted(a + b) == Emitted(a) + Emitted(b)
  {
    if b != [] {
      var n := |b| - 1;
      assert (a + b)[..|a| + n] == a + b[..n];
      EmittedAppend(a, b[..n]);
    } else {
      assert a + b == a;
    }
  }

  /** The positions of the candidates with a tag. */
  function TaggedAt(cands: seq<(string, string)>): set<nat>
  {
    set i: nat | i < |cands| && cands[i].0 != ""
  }

  /** As many tags are queried as there are candidates with a tag. */
  lemma {:induction false} EmittedCount(cands: seq<(string, string)>)
    ensures |Emitted(cands)| == |TaggedAt(cands)|
  {
    if cands == [] {
      assert TaggedAt(cands) == {};
    } else {
      var n := |cands| - 1;
      EmittedCount(cands[..n]);
      var before := TaggedAt(cands[..n]);
      assert n !in before;
      if cands[n].0 != "" {
        assert TaggedAt(cands) == before + {n};
      } else {
        assert TaggedAt(cands) == before;
      }
    }
  }

  /** The rename map has a key for exactly the queried tags, and maps each tag to
      the column of its last candidate. */
  lemma RenameMapSpec(tm: TagMappings, t: string, j: nat)
    ensures var e := Emitted(Candidates(tm));
      && (t in Keys(SetAll([], e)) <==> t in Keys(e))
      && (LastSetting(e, j) ==> Get(SetAll([], e), e[j].0) == Some(e[j].1))
  {
    var e := Emitted(Candidates(tm));
    SetAllKeys([], e, t);
    if LastSetting(e, j) {
      GetSetAllLast([], e, j);
    }
  }

  const NoTagsMessage := "No PI tags configured. Please fill in the tag names."

  /** The tags `fetch_pi_data` queries, outside testing: `ValueError` before any
      request when there is none. */
  function QueryTags(tm: TagMappings): (r: Result<seq<string>>)
    ensures r.Ok? ==> r.value == Keys(Emitted(Candidates(tm)))
  {
    var tags := Keys(Emitted(Candidates(tm)));
    if tags == [] then Fail(ValueError(NoTagsMessage)) else Ok(tags)
  }

  /** The query fails exactly when every fixed key and every fluid component has
      an empty tag. */
  lemma QueryTagsFail(tm: TagMappings)
    ensures QueryTags(tm).Fail? <==>
      (forall i :: 0 <= i < |KeyToColumn| ==> TagOf(tm, KeyToColumn[i].0) == "") &&
      (forall j :: 0 <= j < |tm.fluidTags| ==> tm.fluidTags[j].1 == "")
  {
    var cands := Candidates(tm);
    var e := Emitted(cands);
    if e != [] {
      EmittedHas(cands, e[0]);
      var k :| 0 <= k < |cands| && cands[k] == e[0];
      if k >= |KeyToColumn| {
        assert tm.fluidTags[k - |KeyToColumn|].1 != "";
      }
    } else {
      forall i | 0 <= i < |cands|
        ensures cands[i].0 == ""
      {
        EmittedHas(cands, cands[i]);
      }
      forall j | 0 <= j < |tm.fluidTags|
        ensures tm.fluidTags[j].1 == ""
      {
        assert cands[|KeyToColumn| + j].0 == "";
      }
    }
  }

  // ---------------------------------------------------------------------------
  // The data frame

  /** A cell of a data frame: a number, NaN, a text, or a dict (a PI system value). */
  datatype Cell = Num(x: real) | NaN | Text(s: string) | Record

  /** A pandas data frame: its time index (whether time-zone aware), and its
      columns, each as many cells long as the index. */
  class Frame {
    var index: seq<int>
    var tzAware: bool
    var columns: Dict<string, seq<Cell>>

    constructor (index: seq<int>, tzAware: bool, columns: Dict<string, seq<Cell>>)
      ensures this.index == index && this.tzAware == tzAware && this.columns == columns
    {
      this.index := index;
      this.tzAware := tzAware;
      this.columns := columns;
    }

    /** Column labels are distinct and every column has a cell per row. */
    predicate Valid()
      reads this
    {
      UniqueKeys(columns) && forall c :: 0 <= c < |columns| ==> |columns[c].1| == |index|
    }
  }

  // ---------------------------------------------------------------------------
  // `_apply_fluid_unit_conversions`

  const Percent := "percent"

  /** A column divided by 100: dividing a text or a dict raises `TypeError`. */
  function Hundredth(cells: seq<Cell>): (r: Result<seq<Cell>>)
    ensures r.Ok? ==> |r.value| == |cells|
    ensures r.Ok? <==> forall i :: 0 <= i < |cells| ==> cells[i].Num? || cells[i].NaN?
  {
    if forall i :: 0 <= i < |cells| ==> cells[i].Num? || cells[i].NaN? then
      Ok(seq(|cells|, i requires 0 <= i < |cells| => if cells[i].Num? then Num(cells[i].x / 100.0) else NaN))
    else Fail(TypeError("unsupported operand type(s) for /"))
  }

  /** The loop over the fluid units: a component in percent whose column exists has
      that column divided by 100. */
  function Converted(columns: Dict<string, seq<Cell>>, units: Dict<string, string>): Result<Dict<string, seq<Cell>>>
  {
    if units == [] then Ok(columns)
    else
      var n := |units| - 1;
      var prev :- Converted(columns, units[..n]);
      var col := FluidColumn(units[n].0);
      if Get(prev, col).Some? && units[n].1 == Percent then
        var cells :- Hundredth(Get(prev, col).value);
        Ok(Set(prev, col, cells))
      else Ok(prev)
  }

  /** `_apply_fluid_unit_conversions(df, tag_mappings)`: the frame is changed in
      place (and returned). */
  method ApplyFluidUnitConversions(df: Frame, tm: TagMappings) returns (r: Result<Frame>)
    modifies df
    ensures Converted(old(df.columns), tm.fluidUnits).Fail? ==> r == Fail(Converted(old(df.columns), tm.fluidUnits).exc)
    ensures Converted(old(df.columns), tm.fluidUnits).Ok? ==> r == Ok(df) && df.columns == Converted(old(df.columns), tm.fluidUnits).value
    ensures df.index == old(df.index) && df.tzAware == old(df.tzAware)
  {
    var units := tm.fluidUnits;
    for k := 0 to |units|
      invariant Converted(old(df.columns), units[..k]) == Ok(df.columns)
      invariant df.index == old(df.index) && df.tzAware == old(df.tzAware)
    {
      assert units[..k + 1][..k] == units[..k];
      var col := FluidColumn(units[k].0);
      if Get(df.columns, col).Some? && units[k].1 == Percent {
        var cells := Hundredth(Get(df.columns, col).value);
        if cells.Fail? {
          ConvertedFailFrom(old(df.columns), units, k);
          return Fail(cells.exc);
        }
        df.columns := Set(df.columns, col, cells.value);
      }
    }
    assert units[..|units|] == units;
    return Ok(df);
  }

  lemma {:induction false} ConvertedFailFrom(columns: Dict<string, seq<Cell>>, units: Dict<string, string>, k: nat)
    requires k < |units| && Converted(columns, units[..k + 1]).Fail?
    ensures Converted(columns, units) == Converted(columns, units[..k + 1])
    decreases |units|
  {
    if k + 1 < |units| {
      var n := |units| - 1;
      assert units[..n][..k + 1] == units[..k + 1];
      ConvertedFailFrom(columns, units[..n], k);
    } else {
      assert units[..k + 1] == units;
    }
  }

  /** The conversion keeps the columns, in order. */
  lemma {:induction false} ConvertedKeys(columns: Dict<string, seq<Cell>>, units: Dict<string, string>)
    requires Converted(columns, units).Ok?
    ensures Keys(Converted(columns, units).value) == Keys(columns)
  {
    if units != [] {
      var n := |units| - 1;
      ConvertedKeys(columns, units[..n]);
      var prev := Converted(columns, units[..n]).value;
      var col := FluidColumn(units[n].0);
      if Get(prev, col).Some? && units[n].1 == Percent {
        GetKeys(prev, col);
        SetKeys(prev, col, Hundredth(Get(prev, col).value).value);
      }
    }
  }

  /** A column that is not the column of a component in percent is untouched. */
  lemma {:induction false} ConvertedOther(columns: Dict<string, seq<Cell>>, units: Dict<string, string>, c: string)
    requires Converted(columns, units).Ok?
    requires forall k :: 0 <= k < |units| && units[k].1 == Percent ==> FluidColumn(units[k].0) != c
    ensures Get(Converted(columns, units).value, c) == Get(columns, c)
  {
    if units != [] {
      var n := |units| - 1;
      assert forall k :: 0 <= k < n ==> units[..n][k] == units[k];
      ConvertedOther(columns, units[..n], c);
      var prev := Converted(columns, units[..n]).value;
      var col := FluidColumn(units[n].0);
      if Get(prev, col).Some? && units[n].1 == Percent {
        GetSet(prev, col, Hundredth(Get(prev, col).value).value, c);
      }
    }
  }

  /** The column of a component in percent is divided by 100, once. */
  lemma {:induction false} ConvertedPercent(columns: Dict<string, seq<Cell>>, units: Dict<string, string>, k: nat)
    requires UniqueKeys(units) && Converted(columns, units).Ok?
    requires k < |units| && units[k].1 == Percent && Get(columns, FluidColumn(units[k].0)).Some?
    ensures var c := FluidColumn(units[k].0);
      Hundredth(Get(columns, c).value).Ok? && Get(Converted(columns, units).value, c) == Some(Hundredth(Get(columns, c).value).value)
  {
    var n := |units| - 1;
    var c := FluidColumn(units[k].0);
    var prev := Converted(columns, units[..n]).value;
    assert UniqueKeys(units[..n]) by {
      assert forall a :: 0 <= a < n ==> units[..n][a] == units[a];
    }
    GetKeys(columns, c);
    if k < n {
      assert units[..n][k] == units[k];
      ConvertedPercent(columns, units[..n], k);
      FluidColumnDiffers(units, k, n);
      GetSet(prev, FluidColumn(units[n].0), [], c);
      if Get(prev, FluidColumn(units[n].0)).Some? && units[n].1 == Percent {
        GetSet(prev, FluidColumn(units[n].0), Hundredth(Get(prev, FluidColumn(units[n].0)).value).value, c);
      }
    } else {
      forall a | 0 <= a < n && units[..n][a].1 == Percent
        ensures FluidColumn(units[..n][a].0) != c
      {
        assert units[..n][a] == units[a];
        FluidColumnDiffers(units, a, k);
      }
      ConvertedOther(columns, units[..n], c);
      ConvertedKeys(columns, units[..n]);
      GetKeys(prev, c);
      GetSet(prev, c, Hundredth(Get(prev, c).value).value, c);
    }
  }

  lemma FluidColumnDiffers(units: Dict<string, string>, a: nat, b: nat)
    requires UniqueKeys(units) && a < b < |units|
    ensures FluidColumn(units[a].0) != FluidColumn(units[b].0)
  {
    if FluidColumn(units[a].0) == FluidColumn(units[b].0) {
      FluidColumnInjective(units[a].0, units[b].0);
    }
  }

  // ---------------------------------------------------------------------------
  // `_sanitize_pi_dataframe`

  /** A column of dtype `object`: one holding a text or a dict. */
  predicate IsObject(cells: seq<Cell>)
  {
    exists i :: 0 <= i < |cells| && (cells[i].Text? || cells[i].Record?)
  }

  /** `is_dict_mask.sum()`. */
  function Records(cells: seq<Cell>): nat
  {
    multiset(cells)[Record]
  }

  predicate AllRecords(cells: seq<Cell>)
  {
    forall i :: 0 <= i < |cells| ==> cells[i] == Record
  }

  function OnlySystemValues(column: string): string
  {
    "Tag mapped to column '" + column + "' returned only PI system values (instrument error)."
  }

  /** The first loop: the labels of the columns of dtype `object` holding a dict,
      in order, or the `ValueError` of the first one holding a dict in every row. */
  function Detect(columns: Dict<string, seq<Cell>>, rows: nat): (r: Result<seq<string>>)
    ensures r.Fail? ==> r.exc.ValueError?
    ensures r.Ok? ==> |r.value| <= |columns|
  {
    if columns == [] then Ok([])
    else
      var n := |columns| - 1;
      var names :- Detect(columns[..n], rows);
      var cells := columns[n].1;
      if IsObject(cells) && Record in cells then
        if Records(cells) == rows then Fail(ValueError(OnlySystemValues(columns[n].0)))
        else Ok(names + [columns[n].0])
      else Ok(names)
  }

  /** `n_dicts == len(df)`: every cell is a dict. */
  lemma {:induction false} RecordsAll(cells: seq<Cell>)
    ensures Records(cells) == |cells| <==> AllRecords(cells)
    ensures Records(cells) <= |cells|
  {
    if cells != [] {
      var n := |cells| - 1;
      RecordsAll(cells[..n]);
      assert cells == cells[..n] + [cells[n]];
      assert multiset(cells) == multiset(cells[..n]) + multiset{cells[n]};
      if AllRecords(cells[..n]) && cells[n] == Record {
        assert AllRecords(cells);
      }
    }
  }

  /** Some row has a dict in the column. */
  predicate HasRecordAt(cells: seq<Cell>, r: nat)
  {
    r < |cells| && cells[r] == Record
  }

  /** Row `r` has a dict in some column. */
  ghost predicate RowHasRecord(columns: Dict<string, seq<Cell>>, r: nat)
  {
    exists c :: 0 <= c < |columns| && HasRecordAt(columns[c].1, r)
  }

  /** The first loop raises exactly when some column holds a dict in every one of
      its rows (and has rows). */
  lemma {:induction false} DetectFails(columns: Dict<string, seq<Cell>>, rows: nat)
    requires forall c :: 0 <= c < |columns| ==> |columns[c].1| == rows
    ensures Detect(columns, rows).Fail? <==> exists c :: 0 <= c < |columns| && rows > 0 && AllRecords(columns[c].1)
  {
    if columns != [] {
      var n := |columns| - 1;
      assert forall c :: 0 <= c < n ==> columns[..n][c] == columns[c];
      DetectFails(columns[..n], rows);
      var cells := columns[n].1;
      RecordsAll(cells);
      if rows > 0 && AllRecords(cells) {
        assert cells[0] == Record;
      }
    }
  }

  /** The columns the first loop names are exactly those holding a dict. */
  lemma {:induction false} DetectNames(columns: Dict<string, seq<Cell>>, rows: nat, name: string)
    requires Detect(columns, rows).Ok?
    ensures name in Detect(columns, rows).value <==> exists c :: 0 <= c < |columns| && columns[c].0 == name && Record in columns[c].1
  {
    if columns != [] {
      var n := |columns| - 1;
      assert forall c :: 0 <= c < n ==> columns[..n][c] == columns[c];
      DetectNames(columns[..n], rows, name);
      var cells := columns[n].1;
      if Record in cells {
        var i :| 0 <= i < |cells| && cells[i] == Record;
        assert IsObject(cells);
      }
    }
  }

  /** The positions of the false entries of a mask, in order. */
  function Where(mask: seq<bool>): (rows: seq<nat>)
    ensures forall j :: 0 <= j < |rows| ==> rows[j] < |mask| && !mask[rows[j]]
  {
    if mask == [] then []
    else
      var n := |mask| - 1;
      if mask[n] then Where(mask[..n]) else Where(mask[..n]) + [n]
  }

  /** A row is kept exactly when its mask entry is false, and the kept rows stay in
      order. */
  lemma {:induction false} WhereSpec(mask: seq<bool>)
    ensures forall r :: 0 <= r < |mask| && !mask[r] ==> r in Where(mask)
    ensures forall j, k :: 0 <= j < k < |Where(mask)| ==> Where(mask)[j] < Where(mask)[k]
  {
    if mask != [] {
      var n := |mask| - 1;
      WhereSpec(mask[..n]);
    }
  }

  /** No row masked: every row is kept. */
  lemma {:induction false} WhereNone(mask: seq<bool>)
    requires forall r :: 0 <= r < |mask| ==> !mask[r]
    ensures Where(mask) == seq(|mask|, r requires 0 <= r < |mask| => r)
  {
    if mask != [] {
      var n := |mask| - 1;
      WhereNone(mask[..n]);
    }
  }

  /** `pd.to_numeric(..., errors="coerce")` on a cell; `parse` is pandas' reading
      of a text as a number, `None` where it fails. */
  function Coerce(cell: Cell, parse: string -> Option<real>): (r: Cell)
    ensures r.Num? || r.NaN?
    ensures cell.Num? || cell.NaN? ==> r == cell
  {
    match cell
    case Num(_) => cell
    case NaN => NaN
    case Text(s) => if parse(s).Some? then Num(parse(s).value) else NaN
    case Record => NaN
  }

  /** Every column coerced to numbers. */
  function CoercedColumns(columns: Dict<string, seq<Cell>>, parse: string -> Option<real>): Dict<string, seq<Cell>>
  {
    seq(|columns|, c requires 0 <= c < |columns| =>
      (columns[c].0, seq(|columns[c].1|, i requires 0 <= i < |columns[c].1| => Coerce(columns[c].1[i], parse))))
  }

  /** The mask of the rows with a dict in some column. */
  function DictRows(columns: Dict<string, seq<Cell>>, rows: nat): seq<bool>
  {
    seq(rows, r requires 0 <= r < rows => exists c :: 0 <= c < |columns| && HasRecordAt(columns[c].1, r))
  }

  /** The entries of `xs` at the positions `kept`. */
  function Pick<T>(xs: seq<T>, kept: seq<nat>): (r: seq<T>)
    requires forall j :: 0 <= j < |kept| ==> kept[j] < |xs|
    ensures |r| == |kept|
  {
    seq(|kept|, j requires 0 <= j < |kept| => xs[kept[j]])
  }

  /** `df[~mask]`: the rows at the positions `kept` of every column. */
  function PickColumns(columns: Dict<string, seq<Cell>>, kept: seq<nat>, rows: nat): (r: Dict<string, seq<Cell>>)
    requires forall c :: 0 <= c < |columns| ==> |columns[c].1| == rows
    requires forall j :: 0 <= j < |kept| ==> kept[j] < rows
    ensures Keys(r) == Keys(columns)
  {
    seq(|columns|, c requires 0 <= c < |columns| => (columns[c].0, Pick(columns[c].1, kept)))
  }

  /** What `_sanitize_pi_dataframe` returns: the index and the columns of the rows
      without a dict, coerced to numbers, or the `ValueError` of the first loop. */
  function Sanitized(index: seq<int>, columns: Dict<string, seq<Cell>>, parse: string -> Option<real>): (r: Result<(seq<int>, Dict<string, seq<Cell>>)>)
    requires forall c :: 0 <= c < |columns| ==> |columns[c].1| == |index|
    ensures r.Fail? <==> Detect(columns, |index|).Fail?
    ensures r.Ok? ==> Keys(r.value.1) == Keys(columns)
    ensures r.Ok? ==> forall c :: 0 <= c < |r.value.1| ==> |r.value.1[c].1| == |r.value.0|
  {
    var names :- Detect(columns, |index|);
    var kept := Where(DictRows(columns, |index|));
    var picked := PickColumns(columns, kept, |index|);
    var out := CoercedColumns(picked, parse);
    assert Keys(out) == Keys(picked);
    Ok((Pick(index, kept), out))
  }

  /** After cleaning, the rows kept are exactly the rows without a dict, in order,
      and every cell is a number or NaN. */
  lemma SanitizedSpec(index: seq<int>, columns: Dict<string, seq<Cell>>, parse: string -> Option<real>)
    requires forall c :: 0 <= c < |columns| ==> |columns[c].1| == |index|
    requires Sanitized(index, columns, parse).Ok?
    ensures var kept := Where(DictRows(columns, |index|));
      && (forall r :: 0 <= r < |index| ==> (r in kept <==> !RowHasRecord(columns, r)))
      && (forall j, k :: 0 <= j < k < |kept| ==> kept[j] < kept[k])
    ensures var out := Sanitized(index, columns, parse).value.1;
      forall c, i :: 0 <= c < |out| && 0 <= i < |out[c].1| ==> out[c].1[i].Num? || out[c].1[i].NaN?
  {
    var mask := DictRows(columns, |index|);
    WhereSpec(mask);
  }

  /** Columns without a dict pass the first loop with no name. */
  lemma {:induction false} DetectNoRecords(columns: Dict<string, seq<Cell>>, rows: nat)
    requires forall c :: 0 <= c < |columns| ==> Record !in columns[c].1
    ensures Detect(columns, rows) == Ok([])
  {
    if columns != [] {
      var n := |columns| - 1;
      assert forall c :: 0 <= c < n ==> columns[..n][c] == columns[c];
      DetectNoRecords(columns[..n], rows);
    }
  }

  /** A frame without dicts keeps all its rows. */
  lemma SanitizedNoRecords(index: seq<int>, columns: Dict<string, seq<Cell>>, parse: string -> Option<real>)
    requires forall c :: 0 <= c < |columns| ==> |columns[c].1| == |index|
    requires forall c :: 0 <= c < |columns| ==> Record !in columns[c].1
    ensures Sanitized(index, columns, parse) == Ok((index, CoercedColumns(columns, parse)))
  {
    DetectNoRecords(columns, |index|);
    var mask := DictRows(columns, |index|);
    assert forall r :: 0 <= r < |mask| ==> !mask[r];
    WhereNone(mask);
    var kept := Where(mask);
    assert Pick(index, kept) == index;
    assert PickColumns(columns, kept, |index|) == columns by {
      forall c | 0 <= c < |columns|
        ensures Pick(columns[c].1, kept) == columns[c].1
      {
      }
    }
  }

  /** The first loop as the source runs it. */
  method DetectColumns(columns: Dict<string, seq<Cell>>, rows: nat) returns (r: Result<seq<string>>)
    ensures r == Detect(columns, rows)
  {
    var names: seq<string> := [];
    for c := 0 to |columns|
      invariant Detect(columns[..c], rows) == Ok(names)
    {
      assert columns[..c + 1][..c] == columns[..c];
      var cells := columns[c].1;
      if IsObject(cells) && Record in cells {
        if Records(cells) == rows {
          DetectFailFrom(columns, rows, c);
          return Fail(ValueError(OnlySystemValues(columns[c].0)));
        }
        names := names + [columns[c].0];
      }
    }
    assert columns[..|columns|] == columns;
    return Ok(names);
  }

  lemma {:induction false} DetectFailFrom(columns: Dict<string, seq<Cell>>, rows: nat, c: nat)
    requires c < |columns| && Detect(columns[..c + 1], rows).Fail?
    ensures Detect(columns, rows) == Detect(columns[..c + 1], rows)
    decreases |columns|
  {
    if c + 1 < |columns| {
      var n := |columns| - 1;
      assert columns[..n][..c + 1] == columns[..c + 1];
      DetectFailFrom(columns[..n], rows, c);
    } else {
      assert columns[..c + 1] == columns;
    }
  }

  /** `df[col]`. */
  function ColumnOf(columns: Dict<string, seq<Cell>>, name: string): seq<Cell>
  {
    if Get(columns, name).Some? then Get(columns, name).value else []
  }

  /** Row `r` has a dict in one of the named columns. */
  ghost predicate MaskedBy(columns: Dict<string, seq<Cell>>, names: seq<string>, r: nat)
  {
    exists m :: 0 <= m < |names| && HasRecordAt(ColumnOf(columns, names[m]), r)
  }

  /** The mask loop: `dict_row_mask |= ...` for each named column. */
  method DictRowMask(columns: Dict<string, seq<Cell>>, names: seq<string>, rows: nat) returns (mask: seq<bool>)
    ensures |mask| == rows && forall r :: 0 <= r < rows ==> (mask[r] <==> MaskedBy(columns, names, r))
  {
    mask := seq(rows, r => false);
    for k := 0 to |names|
      invariant |mask| == rows && forall r :: 0 <= r < rows ==> (mask[r] <==> MaskedBy(columns, names[..k], r))
    {
      var cells := ColumnOf(columns, names[k]);
      mask := seq(rows, r requires 0 <= r < rows => mask[r] || HasRecordAt(cells, r));
      forall r | 0 <= r < rows
        ensures mask[r] <==> MaskedBy(columns, names[..k + 1], r)
      {
        MaskedBySnoc(columns, names, k, r);
      }
    }
    assert names[..|names|] == names;
  }

  lemma MaskedBySnoc(columns: Dict<string, seq<Cell>>, names: seq<string>, k: nat, r: nat)
    requires k < |names|
    ensures MaskedBy(columns, names[..k + 1], r) <==>
      MaskedBy(columns, names[..k], r) || HasRecordAt(ColumnOf(columns, names[k]), r)
  {
    var pre := names[..k + 1];
    assert forall m :: 0 <= m < k ==> pre[m] == names[..k][m];
    if MaskedBy(columns, pre, r) {
      var m :| 0 <= m < k + 1 && HasRecordAt(ColumnOf(columns, pre[m]), r);
      if m < k {
        assert HasRecordAt(ColumnOf(columns, names[..k][m]), r);
      }
    }
    if HasRecordAt(ColumnOf(columns, names[k]), r) {
      assert HasRecordAt(ColumnOf(columns, pre[k]), r);
    }
  }

  /** When the names are those of the columns holding a dict, a row has a dict in
      a named column exactly when it has one in any column. */
  lemma MaskedRow(columns: Dict<string, seq<Cell>>, rows: nat, names: seq<string>, r: nat)
    requires UniqueKeys(columns) && Detect(columns, rows) == Ok(names)
    ensures MaskedBy(columns, names, r) <==> RowHasRecord(columns, r)
  {
    if MaskedBy(columns, names, r) {
      var m :| 0 <= m < |names| && HasRecordAt(ColumnOf(columns, names[m]), r);
      GetKeys(columns, names[m]);
      var c :| 0 <= c < |columns| && columns[c] == (names[m], Get(columns, names[m]).value);
      assert HasRecordAt(columns[c].1, r);
    }
    if RowHasRecord(columns, r) {
      var c :| 0 <= c < |columns| && HasRecordAt(columns[c].1, r);
      assert Record in columns[c].1 by { assert columns[c].1[r] == Record; }
      DetectNames(columns, rows, columns[c].0);
      var m :| 0 <= m < |names| && names[m] == columns[c].0;
      GetAt(columns, c);
      assert HasRecordAt(ColumnOf(columns, names[m]), r);
    }
  }

  /** The rows `df[~dict_row_mask]` keeps. */
  method KeptRows(columns: Dict<string, seq<Cell>>, names: seq<string>, rows: nat) returns (kept: seq<nat>)
    requires UniqueKeys(columns) && Detect(columns, rows) == Ok(names)
    ensures kept == Where(DictRows(columns, rows))
  {
    var mask := DictRowMask(columns, names, rows);
    forall r | 0 <= r < rows
      ensures mask[r] == DictRows(columns, rows)[r]
    {
      MaskedRow(columns, rows, names, r);
    }
    assert mask == DictRows(columns, rows);
    kept := Where(mask);
  }

  /** `_sanitize_pi_dataframe(df)`. With a dict somewhere the cleaned frame is a
      new one and `df` is untouched; without, `df` itself is cleaned in place and
      returned. */
  method SanitizePiDataframe(df: Frame, parse: string -> Option<real>) returns (r: Result<Frame>)
    requires df.Valid()
    modifies df
    ensures var s := Sanitized(old(df.index), old(df.columns), parse);
      && (r.Ok? <==> s.Ok?)
      && (r.Fail? ==> r.exc == s.exc && unchanged(df))
      && (r.Ok? ==> (r.value.index, r.value.columns) == s.value && !r.value.tzAware)
    ensures r.Ok? && Detect(old(df.columns), |old(df.index)|) == Ok([]) ==> r.value == df
    ensures r.Ok? && Detect(old(df.columns), |old(df.index)|) != Ok([]) ==> fresh(r.value) && unchanged(df)
  {
    var index, columns := df.index, df.columns;
    var names := DetectColumns(columns, |index|);
    if names.Fail? {
      return Fail(names.exc);
    }
    var frame := df;
    if names.value != [] {
      var kept := KeptRows(columns, names.value, |index|);
      frame := new Frame(Pick(index, kept), df.tzAware, PickColumns(columns, kept, |index|));
    } else {
      forall c | 0 <= c < |columns|
        ensures Record !in columns[c].1
      {
        DetectNames(columns, |index|, columns[c].0);
      }
      SanitizedNoRecords(index, columns, parse);
    }
    frame.tzAware := false;
    CoerceColumns(frame, parse);
    return Ok(frame);
  }

  /** The last loop: every column coerced to numbers, in place. */
  method CoerceColumns(frame: Frame, parse: string -> Option<real>)
    requires UniqueKeys(frame.columns)
    modifies frame
    ensures frame.index == old(frame.index) && frame.tzAware == old(frame.tzAware)
    ensures frame.columns == CoercedColumns(old(frame.columns), parse)
  {
    ghost var start := frame.columns;
    ghost var target := CoercedColumns(start, parse);
    var n := |frame.columns|;
    for c := 0 to n
      invariant |frame.columns| == n && frame.index == old(frame.index) && frame.tzAware == old(frame.tzAware)
      invariant forall k :: 0 <= k < n ==> frame.columns[k] == (if k < c then target[k] else start[k])
    {
      var cells := frame.columns[c].1;
      var coerced := seq(|cells|, i requires 0 <= i < |cells| => Coerce(cells[i], parse));
      assert (frame.columns[c].0, coerced) == target[c] by {
        assert frame.columns[c] == start[c];
        assert |coerced| == |target[c].1|;
        assert forall i :: 0 <= i < |cells| ==> coerced[i] == target[c].1[i];
        assert coerced == target[c].1;
        assert target[c].0 == start[c].0;
      }
      assert UniqueKeys(frame.columns) by {
        assert forall k :: 0 <= k < n ==> frame.columns[k].0 == start[k].0;
      }
      SetAt(frame.columns, c, coerced);
      frame.columns := Set(frame.columns, frame.columns[c].0, coerced);
    }
  }
}
