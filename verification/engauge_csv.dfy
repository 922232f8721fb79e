/** Reading the CSV files exported by Engauge Digitizer (ccp/io.py and
    ccp/data_io/read_csv.py, which hold the same loop). Each curve starts with a row
    `x,<name>`; the rows after it hold one `x,y` point each. The result maps every
    curve name to its x and y lists, in the order the names first appear.
    Splitting the file into rows (Python's `csv.reader`) is not modelled: the rows
    arrive already split into fields. `float()` is the parameter `parse`, which
    gives `None` where `float` raises `ValueError`. */
module EngaugeCsv {
  import opened Wrappers
  import opened Dicts

  datatype Points = Points(x: seq<real>, y: seq<real>)

  type Row = seq<string>

  /** The loop's state: the name of the curve being read, and the curves so far. */
  datatype Reader = Reader(current: Option<string>, curves: Dict<string, Points>)

  const Start := Reader(None, [])

  /** One iteration of the loop: the row is a curve header or a point of the current curve. */
  function Step(st: Reader, row: Row, parse: string -> Option<real>): Result<Reader>
  {
    if |row| == 0 then Fail(IndexError)
    else if row[0] == "x" then
      if |row| < 2 then Fail(IndexError)
      else Ok(Reader(Some(row[1]), Set(st.curves, row[1], Points([], []))))
    else if st.current.None? then Fail(NameError("current_curve"))
    else
      match Get(st.curves, st.current.value)
      case None => Fail(KeyError(st.current.value))
      case Some(p) =>
        match parse(row[0])
        case None => Fail(ValueError("could not convert string to float"))
        case Some(x) =>
          if |row| < 2 then Fail(IndexError)
          else
            match parse(row[1])
            case None => Fail(ValueError("could not convert string to float"))
            case Some(y) => Ok(Reader(st.current, Set(st.curves, st.current.value, Points(p.x + [x], p.y + [y]))))
  }

  /** The loop over the remaining rows; the first exception ends it. */
  function Run(st: Reader, rows: seq<Row>, parse: string -> Option<real>): Result<Reader>
    decreases |rows|
  {
    if rows == [] then Ok(st)
    else
      var next :- Step(st, rows[0], parse);
      Run(next, rows[1..], parse)
  }

  /** What the reader returns for a file. */
  function LoadCurves(rows: seq<Row>, parse: string -> Option<real>): Result<Dict<string, Points>>
  {
    var st :- Run(Start, rows, parse);
    Ok(st.curves)
  }

  /** `_read_data_from_engauge_csv` (ccp/io.py) and `load_curves`
      (ccp/data_io/read_csv.py). */
  method ReadEngaugeCsv(rows: seq<Row>, parse: string -> Option<real>) returns (r: Result<Dict<string, Points>>)
    ensures r == LoadCurves(rows, parse)
  {
    var current: Option<string> := None;
    var curves: Dict<string, Points> := [];
    var i := 0;
    while i < |rows|
      invariant 0 <= i <= |rows|
      invariant Run(Reader(current, curves), rows[i..], parse) == Run(Start, rows, parse)
    {
      assert rows[i..] == [rows[i]] + rows[i + 1..];
      var row := rows[i];
      if |row| == 0 {
        return Fail(IndexError);
      }
      if row[0] == "x" {
        if |row| < 2 {
          return Fail(IndexError);
        }
        current := Some(row[1]);
        curves := Set(curves, row[1], Points([], []));
      } else {
        if current.None? {
          return Fail(NameError("current_curve"));
        }
        var entry := Get(curves, current.value);
        if entry.None? {
          return Fail(KeyError(current.value));
        }
        var x := parse(row[0]);
        if x.None? {
          return Fail(ValueError("could not convert string to float"));
        }
        if |row| < 2 {
          return Fail(IndexError);
        }
        var y := parse(row[1]);
        if y.None? {
          return Fail(ValueError("could not convert string to float"));
        }
        curves := Set(curves, current.value, Points(entry.value.x + [x.value], entry.value.y + [y.value]));
      }
      i := i + 1;
    }
    r := Ok(curves);
  }

  /** What the loop keeps true: the current curve is in the dictionary, names are
      distinct, and every curve has as many x values as y values. */
  predicate Consistent(st: Reader)
  {
    && (st.current.Some? ==> st.current.value in Keys(st.curves))
    && UniqueKeys(st.curves)
    && (forall i :: 0 <= i < |st.curves| ==> |st.curves[i].1.x| == |st.curves[i].1.y|)
  }

  lemma SetKeepsPairs(d: Dict<string, Points>, k: string, p: Points)
    requires forall i :: 0 <= i < |d| ==> |d[i].1.x| == |d[i].1.y|
    requires |p.x| == |p.y|
    ensures forall i :: 0 <= i < |Set(d, k, p)| ==> |Set(d, k, p)[i].1.x| == |Set(d, k, p)[i].1.y|
  {
    var r := Set(d, k, p);
    forall i | 0 <= i < |r| ensures |r[i].1.x| == |r[i].1.y| {
      PairInSet(d, k, p, i);
    }
  }

  lemma {:induction false} PairInSet(d: Dict<string, Points>, k: string, p: Points, i: nat)
    requires i < |Set(d, k, p)|
    ensures Set(d, k, p)[i] == (k, p) || Set(d, k, p)[i] in d
  {
    if d != [] && d[0].0 != k && i > 0 {
      PairInSet(d[1..], k, p, i - 1);
    }
  }

  /** Storing a curve with matching lengths under the current name keeps the
      reader consistent. */
  lemma SetConsistent(d: Dict<string, Points>, name: string, p: Points)
    requires UniqueKeys(d) && |p.x| == |p.y|
    requires forall i :: 0 <= i < |d| ==> |d[i].1.x| == |d[i].1.y|
    ensures Consistent(Reader(Some(name), Set(d, name, p)))
  {
    SetUnique(d, name, p);
    SetKeys(d, name, p);
    SetKeepsPairs(d, name, p);
  }

  lemma StepConsistent(st: Reader, row: Row, parse: string -> Option<real>)
    requires Consistent(st)
    requires Step(st, row, parse).Ok?
    ensures Consistent(Step(st, row, parse).value)
  {
    if row[0] == "x" {
      SetConsistent(st.curves, row[1], Points([], []));
    } else {
      var name := st.current.value;
      GetKeys(st.curves, name);
      var p := Get(st.curves, name).value;
      var k :| 0 <= k < |st.curves| && st.curves[k] == (name, p);
      var x, y := parse(row[0]).value, parse(row[1]).value;
      assert Step(st, row, parse) == Ok(Reader(Some(name), Set(st.curves, name, Points(p.x + [x], p.y + [y]))));
      SetConsistent(st.curves, name, Points(p.x + [x], p.y + [y]));
    }
  }

  /** Every curve that is read back has as many x values as y values, its names are
      distinct, and a failure is never a `KeyError`: the current curve is always in
      the dictionary. */
  lemma {:induction false} RunConsistent(st: Reader, rows: seq<Row>, parse: string -> Option<real>)
    requires Consistent(st)
    ensures Run(st, rows, parse).Ok? ==> Consistent(Run(st, rows, parse).value)
    ensures Run(st, rows, parse).Fail? ==> !Run(st, rows, parse).exc.KeyError?
    decreases |rows|
  {
    if rows != [] {
      var s := Step(st, rows[0], parse);
      StepNoKeyError(st, rows[0], parse);
      if s.Ok? {
        StepConsistent(st, rows[0], parse);
        RunConsistent(s.value, rows[1..], parse);
      }
    }
  }

  lemma StepNoKeyError(st: Reader, row: Row, parse: string -> Option<real>)
    requires Consistent(st)
    ensures Step(st, row, parse).Fail? ==> !Step(st, row, parse).exc.KeyError?
  {
    if row != [] && row[0] != "x" && st.current.Some? {
      GetKeys(st.curves, st.current.value);
    }
  }

  /** A point row before any curve header raises NameError. */
  lemma PointBeforeHeader(row: Row, rest: seq<Row>, parse: string -> Option<real>)
    requires |row| >= 1 && row[0] != "x"
    ensures LoadCurves([row] + rest, parse) == Fail(NameError("current_curve"))
  {
    assert ([row] + rest)[0] == row;
  }

  /** Running two stretches of rows one after the other is running them together. */
  lemma {:induction false} RunAppend(st: Reader, a: seq<Row>, b: seq<Row>, parse: string -> Option<real>)
    ensures Run(st, a + b, parse)
         == match Run(st, a, parse) case Ok(mid) => Run(mid, b, parse) case Fail(e) => Fail(e)
    decreases |a|
  {
    if a == [] {
      assert a + b == b;
    } else {
      assert (a + b)[0] == a[0] && (a + b)[1..] == a[1..] + b;
      var s := Step(st, a[0], parse);
      if s.Ok? {
        RunAppend(s.value, a[1..], b, parse);
      }
    }
  }

  // An Engauge export written from curves, and the reader taking it back.

  datatype Curve = Curve(name: string, pts: Points)

  ghost predicate ParsesBack(fmt: real -> string, parse: string -> Option<real>)
  {
    forall v :: parse(fmt(v)) == Some(v) && fmt(v) != "x"
  }

  lemma ParsesBackAt(fmt: real -> string, parse: string -> Option<real>, v: real)
    requires ParsesBack(fmt, parse)
    ensures parse(fmt(v)) == Some(v) && fmt(v) != "x"
  {
  }

  function PointRows(xs: seq<real>, ys: seq<real>, fmt: real -> string): seq<Row>
    requires |xs| == |ys|
  {
    if xs == [] then [] else [[fmt(xs[0]), fmt(ys[0])]] + PointRows(xs[1..], ys[1..], fmt)
  }

  function CurveRows(c: Curve, fmt: real -> string): seq<Row>
    requires |c.pts.x| == |c.pts.y|
  {
    [["x", c.name]] + PointRows(c.pts.x, c.pts.y, fmt)
  }

  predicate WellFormed(cs: seq<Curve>)
  {
    forall i :: 0 <= i < |cs| ==> |cs[i].pts.x| == |cs[i].pts.y|
  }

  function ExportRows(cs: seq<Curve>, fmt: real -> string): seq<Row>
    requires WellFormed(cs)
  {
    if cs == [] then [] else CurveRows(cs[0], fmt) + ExportRows(cs[1..], fmt)
  }

  /** The dictionary the curves describe: later curves of the same name replace
      earlier ones but keep their place. */
  function CurvesDict(d: Dict<string, Points>, cs: seq<Curve>): Dict<string, Points>
    decreases |cs|
  {
    if cs == [] then d else CurvesDict(Set(d, cs[0].name, cs[0].pts), cs[1..])
  }

  lemma {:induction false} SetTwice<K, V>(d: Dict<K, V>, k: K, v1: V, v2: V)
    ensures Set(Set(d, k, v1), k, v2) == Set(d, k, v2)
  {
    if d != [] && d[0].0 != k {
      SetTwice(d[1..], k, v1, v2);
    }
  }

  /** A point row appends its two values to the current curve. */
  lemma StepPoint(name: string, curves: Dict<string, Points>, row: Row, parse: string -> Option<real>)
    requires |row| == 2 && row[0] != "x"
    requires Get(curves, name).Some? && parse(row[0]).Some? && parse(row[1]).Some?
    ensures Step(Reader(Some(name), curves), row, parse)
         == Ok(Reader(Some(name), Set(curves, name, Points(Get(curves, name).value.x + [parse(row[0]).value],
                                                           Get(curves, name).value.y + [parse(row[1]).value]))))
  {
  }

  lemma ReadFirstPoint(name: string, d: Dict<string, Points>, px: seq<real>, py: seq<real>,
                        xs: seq<real>, ys: seq<real>, fmt: real -> string, parse: string -> Option<real>)
    requires ParsesBack(fmt, parse)
    requires |xs| == |ys| && xs != []
    ensures Run(Reader(Some(name), Set(d, name, Points(px, py))), PointRows(xs, ys, fmt), parse)
         == Run(Reader(Some(name), Set(d, name, Points(px + [xs[0]], py + [ys[0]]))), PointRows(xs[1..], ys[1..], fmt), parse)
  {
    var st := Reader(Some(name), Set(d, name, Points(px, py)));
    var row := [fmt(xs[0]), fmt(ys[0])];
    var rest := PointRows(xs[1..], ys[1..], fmt);
    var next := Reader(Some(name), Set(d, name, Points(px + [xs[0]], py + [ys[0]])));
    assert Step(st, row, parse) == Ok(next) by {
      ParsesBackAt(fmt, parse, xs[0]);
      ParsesBackAt(fmt, parse, ys[0]);
      GetSet(d, name, Points(px, py), name);
      StepPoint(name, st.curves, row, parse);
      SetTwice(d, name, Points(px, py), Points(px + [xs[0]], py + [ys[0]]));
    }
    RunCons(st, row, rest, parse);
  }

  lemma ExtendPoints(px: seq<real>, py: seq<real>, xs: seq<real>, ys: seq<real>)
    requires xs != [] && ys != []
    ensures Points(px + [xs[0]] + xs[1..], py + [ys[0]] + ys[1..]) == Points(px + xs, py + ys)
  {
    assert px + [xs[0]] + xs[1..] == px + xs;
    assert py + [ys[0]] + ys[1..] == py + ys;
  }

  lemma RunCons(st: Reader, row: Row, rest: seq<Row>, parse: string -> Option<real>)
    ensures Run(st, [row] + rest, parse)
         == if Step(st, row, parse).Fail? then Step(st, row, parse) else Run(Step(st, row, parse).value, rest, parse)
  {
    assert ([row] + rest)[0] == row && ([row] + rest)[1..] == rest;
  }

  lemma {:induction false} ReadPoints(name: string, d: Dict<string, Points>, px: seq<real>, py: seq<real>,
                                      xs: seq<real>, ys: seq<real>, fmt: real -> string, parse: string -> Option<real>)
    requires ParsesBack(fmt, parse)
    requires |xs| == |ys|
    ensures Run(Reader(Some(name), Set(d, name, Points(px, py))), PointRows(xs, ys, fmt), parse)
         == Ok(Reader(Some(name), Set(d, name, Points(px + xs, py + ys))))
    decreases |xs|
  {
    if xs == [] {
      assert Points(px + xs, py + ys) == Points(px, py);
    } else {
      ReadFirstPoint(name, d, px, py, xs, ys, fmt, parse);
      ReadPoints(name, d, px + [xs[0]], py + [ys[0]], xs[1..], ys[1..], fmt, parse);
      ExtendPoints(px, py, xs, ys);
    }
  }

  lemma ReadCurve(st: Reader, c: Curve, fmt: real -> string, parse: string -> Option<real>)
    requires ParsesBack(fmt, parse)
    requires |c.pts.x| == |c.pts.y|
    ensures Run(st, CurveRows(c, fmt), parse) == Ok(Reader(Some(c.name), Set(st.curves, c.name, c.pts)))
  {
    var rows := CurveRows(c, fmt);
    assert rows[0] == ["x", c.name] && rows[1..] == PointRows(c.pts.x, c.pts.y, fmt);
    ReadPoints(c.name, st.curves, [], [], c.pts.x, c.pts.y, fmt, parse);
    assert [] + c.pts.x == c.pts.x && [] + c.pts.y == c.pts.y;
  }

  lemma {:induction false} ReadExport(st: Reader, cs: seq<Curve>, fmt: real -> string, parse: string -> Option<real>)
    requires ParsesBack(fmt, parse)
    requires WellFormed(cs)
    ensures Run(st, ExportRows(cs, fmt), parse).Ok?
    ensures Run(st, ExportRows(cs, fmt), parse).value.curves == CurvesDict(st.curves, cs)
    decreases |cs|
  {
    if cs != [] {
      RunAppend(st, CurveRows(cs[0], fmt), ExportRows(cs[1..], fmt), parse);
      ReadCurve(st, cs[0], fmt, parse);
      var mid := Reader(Some(cs[0].name), Set(st.curves, cs[0].name, cs[0].pts));
      ReadExport(mid, cs[1..], fmt, parse);
    }
  }

  /** Round trip: writing curves in Engauge's layout with a number format that
      `float` reads back exactly, then reading the file, gives back every curve's
      points under its name, in the order the names first appear. */
  lemma LoadExport(cs: seq<Curve>, fmt: real -> string, parse: string -> Option<real>)
    requires ParsesBack(fmt, parse)
    requires WellFormed(cs)
    ensures LoadCurves(ExportRows(cs, fmt), parse) == Ok(CurvesDict([], cs))
  {
    ReadExport(Start, cs, fmt, parse);
  }
}
