/** Test-data filtering (ccp/data_io/processing.py): the fluctuation of a reading
    over a rolling window (highest minus lowest over the mean, in percent, as in ASME
    PTC 10-1997), rolling means, and the filter that keeps only the windows whose
    every column fluctuates no more than its limit. A data frame is a sequence of
    named columns of equal length. */
module Processing {
  import opened Wrappers
  import opened Dicts
  import opened Reals

  datatype Column = Column(name: string, values: seq<real>)

  type Frame = seq<Column>

  /** Every column holds `n` values. */
  predicate Rectangular(df: Frame, n: nat)
  {
    forall j :: 0 <= j < |df| ==> |df[j].values| == n
  }

  function Mean(x: seq<real>): real
    requires x != []
  {
    Sum(x) / (|x| as real)
  }

  function Max(x: seq<real>): (m: real)
    requires x != []
    ensures m in x
    ensures forall i :: 0 <= i < |x| ==> x[i] <= m
  {
    if |x| == 1 then x[0]
    else
      var rest := Max(x[1..]);
      assert forall i :: 1 <= i < |x| ==> x[i] == x[1..][i - 1];
      if x[0] > rest then x[0] else rest
  }

  function Min(x: seq<real>): (m: real)
    requires x != []
    ensures m in x
    ensures forall i :: 0 <= i < |x| ==> m <= x[i]
  {
    if |x| == 1 then x[0]
    else
      var rest := Min(x[1..]);
      assert forall i :: 1 <= i < |x| ==> x[i] == x[1..][i - 1];
      if x[0] < rest then x[0] else rest
  }

  /** `fluctuation(x)`: 100 when the mean is zero, otherwise the spread over the mean
      in percent. */
  function Fluctuation(x: seq<real>): (r: real)
    requires x != []
    ensures Mean(x) == 0.0 ==> r == 100.0
    ensures Mean(x) > 0.0 ==> r >= 0.0
    ensures Mean(x) < 0.0 ==> r <= 0.0
  {
    if Mean(x) == 0.0 then 100.0
    else
      assert Min(x) <= x[0] <= Max(x);
      QuotientSign(100.0 * (Max(x) - Min(x)), Mean(x));
      100.0 * (Max(x) - Min(x)) / Mean(x)
  }

  /** The statistic a rolling window computes. */
  datatype Stat = FluctuationStat | MeanStat

  function Apply(stat: Stat, x: seq<real>): real
    requires x != []
  {
    match stat
    case FluctuationStat => Fluctuation(x)
    case MeanStat => Mean(x)
  }

  /** Number of complete windows of `window` readings among `n`. */
  function Rows(n: nat, window: nat): nat
  {
    if window <= n then n - window + 1 else 0
  }

  /** Every complete window of `window` readings, oldest first: the rows pandas'
      rolling result keeps once its first `window - 1` incomplete rows are sliced
      off. */
  function Windows(x: seq<real>, window: nat): (ws: seq<seq<real>>)
    requires 1 <= window
    ensures |ws| == Rows(|x|, window)
    ensures forall i :: 0 <= i < |ws| ==> |ws[i]| == window
  {
    if |x| < window then [] else [x[..window]] + Windows(x[1..], window)
  }

  lemma TailSlice(x: seq<real>, i: nat, window: nat)
    requires 1 <= i && i + window <= |x|
    ensures x[1..][i - 1..i - 1 + window] == x[i..i + window]
  {
  }

  /** Window `i` holds readings `i` to `i + window - 1`. */
  lemma {:induction false} WindowsAt(x: seq<real>, window: nat, i: nat)
    requires 1 <= window && i < Rows(|x|, window)
    ensures Windows(x, window)[i] == x[i..i + window]
    decreases i
  {
    if i > 0 {
      WindowsAt(x[1..], window, i - 1);
      TailSlice(x, i, window);
    }
  }

  /** The statistic of each window. */
  function ApplyAll(ws: seq<seq<real>>, stat: Stat): (r: seq<real>)
    requires forall i :: 0 <= i < |ws| ==> ws[i] != []
    ensures |r| == |ws|
    ensures forall i :: 0 <= i < |ws| ==> r[i] == Apply(stat, ws[i])
  {
    if ws == [] then []
    else
      var rest := ApplyAll(ws[1..], stat);
      assert forall i :: 1 <= i < |ws| ==> ws[i] == ws[1..][i - 1];
      [Apply(stat, ws[0])] + rest
  }

  function Rolling(x: seq<real>, window: nat, stat: Stat): (r: seq<real>)
    requires 1 <= window
  {
    ApplyAll(Windows(x, window), stat)
  }

  /** Row `i` of the rolling result is the statistic of readings `i` to
      `i + window - 1`. */
  lemma RollingAt(x: seq<real>, window: nat, stat: Stat, i: nat)
    requires 1 <= window && i < Rows(|x|, window)
    ensures |Rolling(x, window, stat)| == Rows(|x|, window)
    ensures Rolling(x, window, stat)[i] == Apply(stat, x[i..i + window])
  {
    WindowsAt(x, window, i);
  }

  function RollingFrame(df: Frame, window: nat, stat: Stat): (r: Frame)
    requires 1 <= window
    ensures |r| == |df|
    ensures forall j :: 0 <= j < |df| ==> r[j] == Column(df[j].name, Rolling(df[j].values, window, stat))
  {
    if df == [] then []
    else [Column(df[0].name, Rolling(df[0].values, window, stat))] + RollingFrame(df[1..], window, stat)
  }

  /** `fluctuation_data(df, window)`: the fluctuation of every complete window of
      every column. */
  function FluctuationData(df: Frame, window: nat): Frame
    requires 1 <= window
  {
    RollingFrame(df, window, FluctuationStat)
  }

  /** `mean_data(df, window)`: the mean of every complete window of every column. */
  function MeanData(df: Frame, window: nat): Frame
    requires 1 <= window
  {
    RollingFrame(df, window, MeanStat)
  }

  /** Both rolling frames keep the column names and hold one row per complete
      window. */
  lemma RollingShape(df: Frame, n: nat, window: nat)
    requires Rectangular(df, n) && 1 <= window
    ensures Rectangular(FluctuationData(df, window), Rows(n, window))
    ensures Rectangular(MeanData(df, window), Rows(n, window))
    ensures forall j :: 0 <= j < |df| ==> FluctuationData(df, window)[j].name == MeanData(df, window)[j].name == df[j].name
  {
  }

  /** Row `i` of the rolling frames holds the fluctuation and the mean of readings
      `i` to `i + window - 1` of the column. */
  lemma RollingCell(df: Frame, n: nat, window: nat, j: nat, i: nat)
    requires Rectangular(df, n) && 1 <= window && j < |df| && i < Rows(n, window)
    ensures FluctuationData(df, window)[j].values[i] == Fluctuation(df[j].values[i..i + window])
    ensures MeanData(df, window)[j].values[i] == Mean(df[j].values[i..i + window])
  {
    RollingAt(df[j].values, window, FluctuationStat, i);
    RollingAt(df[j].values, window, MeanStat, i);
  }

  /** The three fluctuation limits, in percent. */
  datatype Limits = Limits(temperature: real, pressure: real, speed: real)

  const DefaultLimits := Limits(0.5, 2.0, 0.5)

  /** The limit that applies to one column, or the exception the lookup raises:
      `data_type` left as `None` is not subscriptable, a column missing from it is a
      `KeyError`, and a type other than the three is a `ValueError`. */
  function ColumnLimit(dataType: Option<Dict<string, string>>, column: string, limits: Limits): Result<real>
  {
    if dataType.None? then Fail(TypeError(NotSubscriptable))
    else
      match Get(dataType.value, column)
      case None => Fail(KeyError(column))
      case Some(kind) =>
        if kind == Pressure then Ok(limits.pressure)
        else if kind == Temperature then Ok(limits.temperature)
        else if kind == Speed then Ok(limits.speed)
        else Fail(ValueError(InvalidDataType(column)))
  }

  /** The three data types a column can have. */
  const Pressure := "pressure"
  const Temperature := "temperature"
  const Speed := "speed"

  function InvalidDataType(column: string): string
  {
    "Invalid data type for column " + column + ". Valid data types are: pressure, temperature and speed."
  }

  const NotSubscriptable := "'NoneType' object is not subscriptable"

  /** The lookup succeeds exactly for the three data types, with that type's limit;
      otherwise it names the exception. */
  lemma ColumnLimitCases(dataType: Option<Dict<string, string>>, column: string, limits: Limits)
    ensures dataType.None? ==> ColumnLimit(dataType, column, limits).Fail?
                               && ColumnLimit(dataType, column, limits).exc.TypeError?
    ensures dataType.Some? && column !in Keys(dataType.value) ==>
              ColumnLimit(dataType, column, limits) == Fail(KeyError(column))
    ensures dataType.Some? && Get(dataType.value, column) == Some(Pressure) ==>
              ColumnLimit(dataType, column, limits) == Ok(limits.pressure)
    ensures dataType.Some? && Get(dataType.value, column) == Some(Temperature) ==>
              ColumnLimit(dataType, column, limits) == Ok(limits.temperature)
    ensures dataType.Some? && Get(dataType.value, column) == Some(Speed) ==>
              ColumnLimit(dataType, column, limits) == Ok(limits.speed)
    ensures dataType.Some? && Get(dataType.value, column).Some?
            && Get(dataType.value, column).value !in [Pressure, Temperature, Speed] ==>
              ColumnLimit(dataType, column, limits).Fail?
              && ColumnLimit(dataType, column, limits).exc.ValueError?
  {
    if dataType.Some? {
      GetKeys(dataType.value, column);
    }
  }

  /** The column names in order. */
  function Names(df: Frame): (names: seq<string>)
    ensures |names| == |df| && forall j :: 0 <= j < |df| ==> names[j] == df[j].name
  {
    if df == [] then [] else [df[0].name] + Names(df[1..])
  }

  /** The limits of the columns in order; the first column whose lookup fails
      decides the exception. */
  function ColumnLimits(names: seq<string>, dataType: Option<Dict<string, string>>, limits: Limits): (r: Result<seq<real>>)
    ensures r.Ok? ==> |r.value| == |names|
  {
    if names == [] then Ok([])
    else
      var first :- ColumnLimits(names[..|names| - 1], dataType, limits);
      var last :- ColumnLimit(dataType, names[|names| - 1], limits);
      Ok(first + [last])
  }

  /** Each column's limit is the one its own lookup gives. */
  lemma {:induction false} ColumnLimitsAt(names: seq<string>, dataType: Option<Dict<string, string>>, limits: Limits, j: nat)
    requires ColumnLimits(names, dataType, limits).Ok? && j < |names|
    ensures ColumnLimit(dataType, names[j], limits) == Ok(ColumnLimits(names, dataType, limits).value[j])
    decreases |names|
  {
    var n := |names| - 1;
    var first := ColumnLimits(names[..n], dataType, limits);
    var last := ColumnLimit(dataType, names[n], limits);
    assert first.Ok? && last.Ok? && ColumnLimits(names, dataType, limits).value == first.value + [last.value];
    if j < n {
      ColumnLimitsAt(names[..n], dataType, limits, j);
      assert names[..n][j] == names[j];
    }
  }

  /** Extending the successful lookups by one column. */
  lemma LimitsSnoc(names: seq<string>, dataType: Option<Dict<string, string>>, limits: Limits, j: nat, lims: seq<real>, lim: real)
    requires j < |names|
    requires ColumnLimits(names[..j], dataType, limits) == Ok(lims)
    requires ColumnLimit(dataType, names[j], limits) == Ok(lim)
    ensures ColumnLimits(names[..j + 1], dataType, limits) == Ok(lims + [lim])
  {
    assert names[..j + 1][..j] == names[..j];
  }

  /** A failing lookup at column `j`, after all earlier columns succeeded, is the
      failure of the whole sequence of lookups. */
  lemma {:induction false} LimitsFailFrom(names: seq<string>, dataType: Option<Dict<string, string>>, limits: Limits, j: nat)
    requires j < |names|
    requires ColumnLimits(names[..j], dataType, limits).Ok?
    requires ColumnLimit(dataType, names[j], limits).Fail?
    ensures ColumnLimits(names, dataType, limits) == Fail(ColumnLimit(dataType, names[j], limits).exc)
    decreases |names|
  {
    if j < |names| - 1 {
      assert names[..|names| - 1][..j] == names[..j];
      LimitsFailFrom(names[..|names| - 1], dataType, limits, j);
    } else {
      assert names[..|names| - 1] == names[..j];
    }
  }

  /** Row `i` is steady when no column's fluctuation exceeds that column's limit. */
  predicate Steady(fl: Frame, lims: seq<real>, m: nat, i: nat)
    requires Rectangular(fl, m) && |lims| == |fl| && i < m
  {
    forall j :: 0 <= j < |fl| ==> fl[j].values[i] <= lims[j]
  }

  /** The labels of the steady rows from row `i` on. */
  function KeptRows(fl: Frame, lims: seq<real>, m: nat, i: nat): (rows: seq<nat>)
    requires Rectangular(fl, m) && |lims| == |fl| && i <= m
    decreases m - i
  {
    if i == m then []
    else if Steady(fl, lims, m, i) then [i] + KeptRows(fl, lims, m, i + 1)
    else KeptRows(fl, lims, m, i + 1)
  }

  /** The kept rows are exactly the steady rows, listed once each in increasing
      order. */
  lemma {:induction false} KeptRowsSteady(fl: Frame, lims: seq<real>, m: nat, i: nat)
    requires Rectangular(fl, m) && |lims| == |fl| && i <= m
    ensures forall k :: 0 <= k < |KeptRows(fl, lims, m, i)| ==>
      i <= KeptRows(fl, lims, m, i)[k] < m && Steady(fl, lims, m, KeptRows(fl, lims, m, i)[k])
    ensures forall r :: i <= r < m && Steady(fl, lims, m, r) ==> r in KeptRows(fl, lims, m, i)
    ensures forall a, b :: 0 <= a < b < |KeptRows(fl, lims, m, i)| ==>
      KeptRows(fl, lims, m, i)[a] < KeptRows(fl, lims, m, i)[b]
    decreases m - i
  {
    if i < m {
      KeptRowsSteady(fl, lims, m, i + 1);
    }
  }

  /** The cells of `values` at the rows `rows`. */
  function Pick(values: seq<real>, rows: seq<nat>): (r: seq<real>)
    requires forall k :: 0 <= k < |rows| ==> rows[k] < |values|
    ensures |r| == |rows|
  {
    if rows == [] then [] else [values[rows[0]]] + Pick(values, rows[1..])
  }

  function PickFrame(df: Frame, rows: seq<nat>, m: nat): (r: Frame)
    requires Rectangular(df, m) && forall k :: 0 <= k < |rows| ==> rows[k] < m
    ensures |r| == |df|
    ensures forall j :: 0 <= j < |df| ==> r[j] == Column(df[j].name, Pick(df[j].values, rows))
  {
    if df == [] then [] else [Column(df[0].name, Pick(df[0].values, rows))] + PickFrame(df[1..], rows, m)
  }

  /** The filtered data: the labels of the rows kept (the rolling rows are numbered
      from 0 after `reset_index`; `dropna` keeps the labels) and, per column, the
      means of those rows. */
  datatype Filtered = Filtered(index: seq<nat>, frame: Frame)

  /** What `filter_data` returns: the rolling means of the steady rows, or the
      exception of the first column whose limit cannot be looked up. */
  function FilterSpec(df: Frame, n: nat, window: nat, dataType: Option<Dict<string, string>>, limits: Limits): Result<Filtered>
    requires Rectangular(df, n) && 1 <= window
  {
    var lims :- ColumnLimits(Names(df), dataType, limits);
    var m := Rows(n, window);
    var fl := FluctuationData(df, window);
    RollingShape(df, n, window);
    KeptRowsSteady(fl, lims, m, 0);
    var rows := KeptRows(fl, lims, m, 0);
    Ok(Filtered(rows, PickFrame(MeanData(df, window), rows, m)))
  }

  // The masking and `dropna` steps of the filter.

  /** `mean_df.loc[fluct > limit, column] = None` for one column. */
  function Mask(fluct: seq<real>, mean: seq<real>, limit: real): (r: seq<Option<real>>)
    requires |fluct| == |mean|
    ensures |r| == |mean|
  {
    if mean == [] then []
    else [if fluct[0] > limit then None else Some(mean[0])] + Mask(fluct[1..], mean[1..], limit)
  }

  /** A reading is blanked exactly when its window fluctuates more than the limit. */
  lemma {:induction false} MaskAt(fluct: seq<real>, mean: seq<real>, limit: real, i: nat)
    requires |fluct| == |mean| && i < |mean|
    ensures Mask(fluct, mean, limit)[i] == if fluct[i] > limit then None else Some(mean[i])
  {
    if i > 0 {
      MaskAt(fluct[1..], mean[1..], limit, i - 1);
    }
  }

  function Unmasked(mean: seq<real>): (r: seq<Option<real>>)
    ensures |r| == |mean|
  {
    if mean == [] then [] else [Some(mean[0])] + Unmasked(mean[1..])
  }

  function UnmaskedAll(mean: Frame): (r: seq<seq<Option<real>>>)
    ensures |r| == |mean| && forall j :: 0 <= j < |mean| ==> r[j] == Unmasked(mean[j].values)
  {
    if mean == [] then [] else [Unmasked(mean[0].values)] + UnmaskedAll(mean[1..])
  }

  predicate NoBlank(masked: seq<seq<Option<real>>>, i: nat)
    requires forall j :: 0 <= j < |masked| ==> i < |masked[j]|
  {
    forall j :: 0 <= j < |masked| ==> masked[j][i].Some?
  }

  /** The rows of `masked` from row `i` on with no blank cell. */
  function NonBlankRows(masked: seq<seq<Option<real>>>, m: nat, i: nat): (rows: seq<nat>)
    requires forall j :: 0 <= j < |masked| ==> |masked[j]| == m
    requires i <= m
    ensures forall k :: 0 <= k < |rows| ==> i <= rows[k] < m && NoBlank(masked, rows[k])
    decreases m - i
  {
    if i == m then []
    else if NoBlank(masked, i) then [i] + NonBlankRows(masked, m, i + 1)
    else NonBlankRows(masked, m, i + 1)
  }

  function Present(cells: seq<Option<real>>, rows: seq<nat>): (r: seq<real>)
    requires forall k :: 0 <= k < |rows| ==> rows[k] < |cells| && cells[rows[k]].Some?
    ensures |r| == |rows|
  {
    if rows == [] then [] else [cells[rows[0]].value] + Present(cells, rows[1..])
  }

  /** `mean_df.dropna()`: the rows with no blank cell, with their labels. */
  function DropNa(masked: seq<seq<Option<real>>>, names: seq<string>, m: nat): (r: Filtered)
    requires |names| == |masked| && forall j :: 0 <= j < |masked| ==> |masked[j]| == m
  {
    var rows := NonBlankRows(masked, m, 0);
    Filtered(rows, seq(|masked|, j requires 0 <= j < |masked| => Column(names[j], Present(masked[j], rows))))
  }

  /** `masked` is the rolling means with every cell blanked whose fluctuation is over
      its column's limit. */
  predicate MaskedBy(masked: seq<seq<Option<real>>>, fl: Frame, mean: Frame, lims: seq<real>, m: nat)
  {
    && Rectangular(fl, m) && Rectangular(mean, m)
    && |masked| == |fl| == |mean| == |lims|
    && forall j :: 0 <= j < |masked| ==> masked[j] == Mask(fl[j].values, mean[j].values, lims[j])
  }

  /** After masking, the rows with no blank are the steady rows. */
  lemma NoBlankSteady(masked: seq<seq<Option<real>>>, fl: Frame, mean: Frame, lims: seq<real>, m: nat, i: nat)
    requires MaskedBy(masked, fl, mean, lims, m) && i < m
    ensures NoBlank(masked, i) <==> Steady(fl, lims, m, i)
  {
    forall j | 0 <= j < |masked| ensures masked[j][i].Some? <==> fl[j].values[i] <= lims[j] {
      MaskAt(fl[j].values, mean[j].values, lims[j], i);
    }
  }

  lemma {:induction false} NonBlankKept(masked: seq<seq<Option<real>>>, fl: Frame, mean: Frame, lims: seq<real>, m: nat, i: nat)
    requires MaskedBy(masked, fl, mean, lims, m) && i <= m
    ensures NonBlankRows(masked, m, i) == KeptRows(fl, lims, m, i)
    decreases m - i
  {
    if i < m {
      NonBlankKept(masked, fl, mean, lims, m, i + 1);
      NoBlankSteady(masked, fl, mean, lims, m, i);
    }
  }

  lemma {:induction false} PresentPick(cells: seq<Option<real>>, values: seq<real>, rows: seq<nat>)
    requires |cells| == |values|
    requires forall k :: 0 <= k < |rows| ==> rows[k] < |cells| && cells[rows[k]] == Some(values[rows[k]])
    ensures Present(cells, rows) == Pick(values, rows)
  {
    if rows != [] {
      PresentPick(cells, values, rows[1..]);
    }
  }

  /** Dropping the blanked rows of the masked means gives the means of the steady
      rows. */
  lemma DropNaKept(masked: seq<seq<Option<real>>>, names: seq<string>, fl: Frame, mean: Frame, lims: seq<real>, m: nat)
    requires MaskedBy(masked, fl, mean, lims, m)
    requires |names| == |mean| && forall j :: 0 <= j < |mean| ==> names[j] == mean[j].name
    ensures forall k :: 0 <= k < |KeptRows(fl, lims, m, 0)| ==> KeptRows(fl, lims, m, 0)[k] < m
    ensures DropNa(masked, names, m) == Filtered(KeptRows(fl, lims, m, 0), PickFrame(mean, KeptRows(fl, lims, m, 0), m))
  {
    NonBlankKept(masked, fl, mean, lims, m, 0);
    var rows := KeptRows(fl, lims, m, 0);
    var r := DropNa(masked, names, m);
    forall j | 0 <= j < |mean| ensures r.frame[j] == PickFrame(mean, rows, m)[j] {
      forall k | 0 <= k < |rows| ensures masked[j][rows[k]] == Some(mean[j].values[rows[k]]) {
        MaskAt(fl[j].values, mean[j].values, lims[j], rows[k]);
      }
      PresentPick(masked[j], mean[j].values, rows);
    }
  }

  /** The first `j` columns of `masked` are masked by their limits `lims`; the rest
      still hold the rolling means. */
  predicate MaskedUpTo(masked: seq<seq<Option<real>>>, fl: Frame, mean: Frame, lims: seq<real>, m: nat, j: nat)
  {
    && Rectangular(fl, m) && Rectangular(mean, m)
    && |masked| == |fl| == |mean| && |lims| == j <= |fl|
    && (forall k :: 0 <= k < j ==> masked[k] == Mask(fl[k].values, mean[k].values, lims[k]))
    && (forall k :: j <= k < |fl| ==> masked[k] == Unmasked(mean[k].values))
  }

  /** One turn of the masking loop keeps both of its invariants. */
  lemma MaskStep(names: seq<string>, dataType: Option<Dict<string, string>>, limits: Limits,
                 masked: seq<seq<Option<real>>>, fl: Frame, mean: Frame, lims: seq<real>, m: nat, j: nat, lim: real)
    requires MaskedUpTo(masked, fl, mean, lims, m, j) && j < |fl| == |names|
    requires ColumnLimits(names[..j], dataType, limits) == Ok(lims)
    requires ColumnLimit(dataType, names[j], limits) == Ok(lim)
    ensures ColumnLimits(names[..j + 1], dataType, limits) == Ok(lims + [lim])
    ensures MaskedUpTo(masked[j := Mask(fl[j].values, mean[j].values, lim)], fl, mean, lims + [lim], m, j + 1)
  {
    LimitsSnoc(names, dataType, limits, j, lims, lim);
  }

  lemma MaskedAll(masked: seq<seq<Option<real>>>, fl: Frame, mean: Frame, lims: seq<real>, m: nat)
    requires MaskedUpTo(masked, fl, mean, lims, m, |fl|)
    ensures MaskedBy(masked, fl, mean, lims, m)
  {
  }

  /** The loop of `filter_data`: for each column in turn, looks up its limit and
      blanks the rolling means whose window fluctuates more than that limit. */
  method MaskColumns(fl: Frame, mean: Frame, m: nat, dataType: Option<Dict<string, string>>, limits: Limits)
    returns (r: Result<seq<seq<Option<real>>>>)
    requires Rectangular(fl, m) && Rectangular(mean, m) && |fl| == |mean|
    ensures r.Fail? <==> ColumnLimits(Names(fl), dataType, limits).Fail?
    ensures r.Fail? ==> r.exc == ColumnLimits(Names(fl), dataType, limits).exc
    ensures r.Ok? ==> MaskedBy(r.value, fl, mean, ColumnLimits(Names(fl), dataType, limits).value, m)
  {
    var names := Names(fl);
    var masked := UnmaskedAll(mean);
    ghost var lims: seq<real> := [];
    var j := 0;
    while j < |fl|
      invariant j <= |fl| && ColumnLimits(names[..j], dataType, limits) == Ok(lims)
      invariant MaskedUpTo(masked, fl, mean, lims, m, j)
    {
      var lim := ColumnLimit(dataType, names[j], limits);
      if lim.Fail? {
        LimitsFailFrom(names, dataType, limits, j);
        return Fail(lim.exc);
      }
      MaskStep(names, dataType, limits, masked, fl, mean, lims, m, j, lim.value);
      masked := masked[j := Mask(fl[j].values, mean[j].values, lim.value)];
      lims := lims + [lim.value];
      j := j + 1;
    }
    assert names[..|fl|] == names;
    MaskedAll(masked, fl, mean, lims, m);
    r := Ok(masked);
  }

  /** `filter_data`: masks the rolling means column by column, then drops every row
      with a blank. */
  method FilterData(df: Frame, n: nat, window: nat, dataType: Option<Dict<string, string>>, limits: Limits)
    returns (r: Result<Filtered>)
    requires Rectangular(df, n) && 1 <= window
    ensures r == FilterSpec(df, n, window, dataType, limits)
  {
    var fl := FluctuationData(df, window);
    var mean := MeanData(df, window);
    var m := Rows(n, window);
    RollingShape(df, n, window);
    assert Names(fl) == Names(df);
    var masked :- MaskColumns(fl, mean, m, dataType, limits);
    DropNaKept(masked, Names(mean), fl, mean, ColumnLimits(Names(df), dataType, limits).value, m);
    r := Ok(DropNa(masked, Names(mean), m));
  }

  // Properties of the fluctuation.

  /** Readings that never change, around a nonzero mean, do not fluctuate. */
  lemma FluctuationConstant(x: seq<real>)
    requires x != [] && Mean(x) != 0.0
    requires forall i :: 0 <= i < |x| ==> x[i] == x[0]
    ensures Fluctuation(x) == 0.0
  {
    MaxIs(x, 0);
    MinIs(x, 0);
  }

  /** A spread that is not negative keeps the sign of the mean it is divided by. */
  lemma QuotientSign(a: real, b: real)
    requires a >= 0.0 && b != 0.0
    ensures b > 0.0 ==> a / b >= 0.0
    ensures b < 0.0 ==> a / b <= 0.0
  {
    if b < 0.0 {
      assert a / b == -(a / -b);
    }
  }

  /** A reading no smaller than all the others is the maximum. */
  lemma MaxIs(x: seq<real>, k: nat)
    requires k < |x| && forall i :: 0 <= i < |x| ==> x[i] <= x[k]
    ensures Max(x) == x[k]
  {
    var m := Max(x);
    var i :| 0 <= i < |x| && x[i] == m;
  }

  /** A reading no larger than all the others is the minimum. */
  lemma MinIs(x: seq<real>, k: nat)
    requires k < |x| && forall i :: 0 <= i < |x| ==> x[k] <= x[i]
    ensures Min(x) == x[k]
  {
    var m := Min(x);
    var i :| 0 <= i < |x| && x[i] == m;
  }

  lemma SumOneToFive()
    ensures Sum([1.0, 2.0, 3.0, 4.0, 5.0]) == 15.0
  {
    var x := [1.0, 2.0, 3.0, 4.0, 5.0];
    assert x[1..] == [2.0, 3.0, 4.0, 5.0];
    assert x[1..][1..] == [3.0, 4.0, 5.0];
    assert x[1..][1..][1..] == [4.0, 5.0];
    assert x[1..][1..][1..][1..] == [5.0];
  }

  /** `fluctuation([1, 2, 3, 4, 5])` is 100 * (5 - 1) / 3, about 133.33. */
  lemma FluctuationOneToFive()
    ensures Fluctuation([1.0, 2.0, 3.0, 4.0, 5.0]) == 400.0 / 3.0
  {
    var x := [1.0, 2.0, 3.0, 4.0, 5.0];
    SumOneToFive();
    MaxIs(x, 4);
    MinIs(x, 0);
    assert Mean(x) == 15.0 / 5.0 == 3.0;
    assert Fluctuation(x) == 100.0 * (5.0 - 1.0) / 3.0;
  }

  /** Fluctuation and mean of three readings in increasing order. */
  lemma ThreeReadings(a: real, b: real, c: real)
    requires a <= b <= c && a + b + c != 0.0
    ensures Mean([a, b, c]) == (a + b + c) / 3.0
    ensures Fluctuation([a, b, c]) == 100.0 * (c - a) / ((a + b + c) / 3.0)
  {
    var x := [a, b, c];
    assert x[1..] == [b, c] && x[1..][1..] == [c] && x[1..][1..][1..] == [];
    assert Sum([c]) == c;
    assert Sum([b, c]) == b + c;
    assert Sum(x) == a + b + c;
    MaxIs(x, 2);
    MinIs(x, 0);
  }

  lemma WindowsExample()
    ensures Windows([1.0, 2.0, 3.0, 4.0], 3) == [[1.0, 2.0, 3.0], [2.0, 3.0, 4.0]]
  {
    var x := [1.0, 2.0, 3.0, 4.0];
    WindowsAt(x, 3, 0);
    WindowsAt(x, 3, 1);
    assert x[0..3] == [1.0, 2.0, 3.0] && x[1..4] == [2.0, 3.0, 4.0];
  }

  /** Over the readings 1, 2, 3, 4 the two windows of three fluctuate by 100 and
      66.67 percent and average 2 and 3. */
  lemma RollingExample()
    ensures FluctuationData([Column("a", [1.0, 2.0, 3.0, 4.0])], 3) == [Column("a", [100.0, 200.0 / 3.0])]
    ensures MeanData([Column("a", [1.0, 2.0, 3.0, 4.0])], 3) == [Column("a", [2.0, 3.0])]
  {
    RollingFluctuationExample();
    RollingMeanExample();
  }

  lemma RollingFluctuationExample()
    ensures Rolling([1.0, 2.0, 3.0, 4.0], 3, FluctuationStat) == [100.0, 200.0 / 3.0]
  {
    RollingTwoWindows(FluctuationStat);
    assert Fluctuation([1.0, 2.0, 3.0]) == 100.0 by {
      ThreeReadings(1.0, 2.0, 3.0);
    }
    assert Fluctuation([2.0, 3.0, 4.0]) == 200.0 / 3.0 by {
      ThreeReadings(2.0, 3.0, 4.0);
    }
  }

  lemma RollingMeanExample()
    ensures Rolling([1.0, 2.0, 3.0, 4.0], 3, MeanStat) == [2.0, 3.0]
  {
    RollingTwoWindows(MeanStat);
    assert Mean([1.0, 2.0, 3.0]) == 2.0 by {
      ThreeReadings(1.0, 2.0, 3.0);
    }
    assert Mean([2.0, 3.0, 4.0]) == 3.0 by {
      ThreeReadings(2.0, 3.0, 4.0);
    }
  }

  /** The readings 1, 2, 3, 4 have two windows of three. */
  lemma RollingTwoWindows(stat: Stat)
    ensures Rolling([1.0, 2.0, 3.0, 4.0], 3, stat) == [Apply(stat, [1.0, 2.0, 3.0]), Apply(stat, [2.0, 3.0, 4.0])]
  {
    WindowsExample();
  }
}
