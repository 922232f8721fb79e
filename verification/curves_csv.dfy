/** The curve CSV exporter of the web app (ccp/app/download.js): it turns the four
    parallel columns of a plotted curve (volume flow, head, efficiency, speed) into
    the text of `curves.csv`. JavaScript's `Number.prototype.toString` is the
    parameter `fmt`; the only thing assumed of it is that it never produces a comma
    or a newline. */
module CurvesCsv {
  import opened Text

  /** The `source.data` columns the script reads. */
  datatype Columns = Columns(flow_v: seq<real>, head: seq<real>, eff: seq<real>, speed: seq<real>)
  {
    /** The loop runs over `flow_v`; the other columns are read at the same indices. */
    predicate Covers()
    {
      |head| >= |flow_v| && |eff| >= |flow_v| && |speed| >= |flow_v|
    }
  }

  const HeaderFields: seq<string> := ["flow(m**3/s)", "head(J/kg)", "efficiency(%)", "speed(RPM)"]
  const HeaderLine: string := Join(HeaderFields, ",")
  const FileName: string := "curves.csv"

  /** A number formatter whose output fits in one CSV field of one line. */
  ghost predicate FieldSafe(fmt: real -> string)
  {
    forall x :: ',' !in fmt(x) && '\n' !in fmt(x)
  }

  /** The four fields of row `i`: the efficiency is written as a percentage. */
  function Fields(data: Columns, fmt: real -> string, i: nat): seq<string>
    requires data.Covers() && i < |data.flow_v|
  {
    [fmt(data.flow_v[i]), fmt(data.head[i]), fmt(100.0 * data.eff[i]), fmt(data.speed[i])]
  }

  /** Row `i` as one line, without its newline. */
  function RowLine(data: Columns, fmt: real -> string, i: nat): string
    requires data.Covers() && i < |data.flow_v|
  {
    Join(Fields(data, fmt, i), ",")
  }

  /** The first `k` data lines. */
  function RowLines(data: Columns, fmt: real -> string, k: nat): (lines: seq<string>)
    requires data.Covers() && k <= |data.flow_v|
    ensures |lines| == k
    ensures forall i :: 0 <= i < k ==> lines[i] == RowLine(data, fmt, i)
  {
    if k == 0 then [] else RowLines(data, fmt, k - 1) + [RowLine(data, fmt, k - 1)]
  }

  /** Lines, each followed by a newline. */
  function Terminated(lines: seq<string>): string
  {
    if lines == [] then "" else lines[0] + "\n" + Terminated(lines[1..])
  }

  /** Terminating one more line appends it and its newline. */
  lemma {:induction false} TerminatedSnoc(lines: seq<string>, line: string)
    ensures Terminated(lines + [line]) == Terminated(lines) + line + "\n"
  {
    if lines == [] {
      assert [line][1..] == [];
    } else {
      assert (lines + [line])[1..] == lines[1..] + [line];
      TerminatedSnoc(lines[1..], line);
    }
  }

  /** The text of the whole file: the header line and one line per flow value. */
  function CsvText(data: Columns, fmt: real -> string): string
    requires data.Covers()
  {
    Terminated([HeaderLine] + RowLines(data, fmt, |data.flow_v|))
  }

  /** The text-building loop of download.js (lines 2-14). Each iteration joins
      `[flow, head, 100*eff, speed + '\n']` with commas and appends it. */
  method BuildCsv(data: Columns, fmt: real -> string) returns (filetext: string, filename: string)
    requires data.Covers()
    ensures filetext == CsvText(data, fmt)
    ensures filename == FileName
  {
    filetext := HeaderLine + "\n";
    var i := 0;
    HeaderOnly(data, fmt);
    while i < |data.flow_v|
      invariant 0 <= i <= |data.flow_v|
      invariant filetext == Terminated([HeaderLine] + RowLines(data, fmt, i))
    {
      var currRow := [fmt(data.flow_v[i]), fmt(data.head[i]), fmt(100.0 * data.eff[i]), fmt(data.speed[i]) + "\n"];
      var joined := Join(currRow, ",");
      AppendRow(data, fmt, i);
      filetext := filetext + joined;
      i := i + 1;
    }
    filename := FileName;
  }

  /** One iteration of the loop appends the next data line and its newline. */
  lemma AppendRow(data: Columns, fmt: real -> string, i: nat)
    requires data.Covers() && i < |data.flow_v|
    ensures Terminated([HeaderLine] + RowLines(data, fmt, i))
          + Join([fmt(data.flow_v[i]), fmt(data.head[i]), fmt(100.0 * data.eff[i]), fmt(data.speed[i]) + "\n"], ",")
         == Terminated([HeaderLine] + RowLines(data, fmt, i + 1))
  {
    JoinLastField(Fields(data, fmt, i), "\n", ',');
    var before := [HeaderLine] + RowLines(data, fmt, i);
    AppendAssoc([HeaderLine], RowLines(data, fmt, i), [RowLine(data, fmt, i)]);
    TerminatedSnoc(before, RowLine(data, fmt, i));
  }

  /** Appending text to the last field of four is appending it to the joined line. */
  lemma JoinLastField(f: seq<string>, tail: string, sep: char)
    requires |f| == 4
    ensures Join([f[0], f[1], f[2], f[3] + tail], [sep]) == Join(f, [sep]) + tail
  {
    var a, b, c, d := f[0], f[1], f[2], f[3];
    var front := a + [sep] + b + [sep] + c + [sep];
    assert Join([a, b, c, d + tail], [sep]) == front + (d + tail) by {
      Join4(a, b, c, d + tail, sep);
    }
    assert Join(f, [sep]) == front + d by {
      assert f == [a, b, c, d];
      Join4(a, b, c, d, sep);
    }
    AppendAssoc(front, d, tail);
  }

  lemma Join4(a: string, b: string, c: string, d: string, sep: char)
    ensures Join([a, b, c, d], [sep]) == a + [sep] + b + [sep] + c + [sep] + d
  {
    assert [a, b, c, d][1..] == [b, c, d];
    assert [b, c, d][1..] == [c, d];
    assert [c, d][1..] == [d];
    assert Join([c, d], [sep]) == c + [sep] + d;
    assert Join([b, c, d], [sep]) == b + [sep] + (c + [sep] + d);
  }

  /** Four fields free of the separator split back into themselves. */
  lemma SplitFour(a: string, b: string, c: string, d: string, sep: char)
    requires sep !in a && sep !in b && sep !in c && sep !in d
    ensures Split(Join([a, b, c, d], [sep]), sep) == [a, b, c, d]
  {
    Join4(a, b, c, d, sep);
    Regroup4(a, b, c, d, sep);
    SplitAround(c, d, sep);
    SplitAround(b, c + [sep] + d, sep);
    SplitAround(a, b + [sep] + (c + [sep] + d), sep);
    SplitNoSeparator(a, sep);
    SplitNoSeparator(b, sep);
    SplitNoSeparator(c, sep);
    SplitNoSeparator(d, sep);
    Nest4(a, b, c, d);
  }

  lemma Regroup4(a: string, b: string, c: string, d: string, sep: char)
    ensures a + [sep] + b + [sep] + c + [sep] + d == a + [sep] + (b + [sep] + (c + [sep] + d))
  {
  }

  lemma Nest4<T>(a: T, b: T, c: T, d: T)
    ensures [a] + ([b] + ([c] + [d])) == [a, b, c, d]
  {
  }

  lemma SafeAt(fmt: real -> string, x: real)
    requires FieldSafe(fmt)
    ensures ',' !in fmt(x) && '\n' !in fmt(x)
  {
  }

  /** Every data line reads back as exactly its four fields, in column order:
      flow, head, 100 times the efficiency, speed. */
  lemma RowFields(data: Columns, fmt: real -> string, i: nat)
    requires FieldSafe(fmt)
    requires data.Covers() && i < |data.flow_v|
    ensures Split(RowLine(data, fmt, i), ',')
         == [fmt(data.flow_v[i]), fmt(data.head[i]), fmt(100.0 * data.eff[i]), fmt(data.speed[i])]
  {
    SafeAt(fmt, data.flow_v[i]);
    SafeAt(fmt, data.head[i]);
    SafeAt(fmt, 100.0 * data.eff[i]);
    SafeAt(fmt, data.speed[i]);
    SplitFour(fmt(data.flow_v[i]), fmt(data.head[i]), fmt(100.0 * data.eff[i]), fmt(data.speed[i]), ',');
  }

  /** The header reads back as its four column titles. */
  lemma HeaderFieldsRoundTrip()
    ensures Split(HeaderLine, ',') == HeaderFields
  {
    SplitFour(HeaderFields[0], HeaderFields[1], HeaderFields[2], HeaderFields[3], ',');
  }

  lemma NoNewlineInHeader()
    ensures '\n' !in HeaderLine
  {
    Join4(HeaderFields[0], HeaderFields[1], HeaderFields[2], HeaderFields[3], ',');
  }

  lemma NoNewlineInLine(data: Columns, fmt: real -> string, i: nat)
    requires FieldSafe(fmt)
    requires data.Covers() && i < |data.flow_v|
    ensures '\n' !in RowLine(data, fmt, i)
  {
    var a, b, c, d := fmt(data.flow_v[i]), fmt(data.head[i]), fmt(100.0 * data.eff[i]), fmt(data.speed[i]);
    SafeAt(fmt, data.flow_v[i]);
    SafeAt(fmt, data.head[i]);
    SafeAt(fmt, 100.0 * data.eff[i]);
    SafeAt(fmt, data.speed[i]);
    Join4(a, b, c, d, ',');
  }

  /** Newline-terminated lines free of newlines split back into themselves, followed
      by whatever the rest of the text splits into. */
  lemma {:induction false} SplitTerminated(lines: seq<string>, rest: string)
    requires forall i :: 0 <= i < |lines| ==> '\n' !in lines[i]
    ensures Split(Terminated(lines) + rest, '\n') == lines + Split(rest, '\n')
  {
    if lines != [] {
      TerminatedCons(lines, rest);
      assert forall i :: 0 <= i < |lines| - 1 ==> lines[1..][i] == lines[i + 1];
      SplitTerminated(lines[1..], rest);
      SplitAround(lines[0], Terminated(lines[1..]) + rest, '\n');
      SplitNoSeparator(lines[0], '\n');
      AppendAssoc([lines[0]], lines[1..], Split(rest, '\n'));
      ConsTail(lines);
    } else {
      assert Terminated(lines) + rest == rest;
    }
  }

  lemma TerminatedCons(lines: seq<string>, rest: string)
    requires lines != []
    ensures Terminated(lines) + rest == lines[0] + ['\n'] + (Terminated(lines[1..]) + rest)
  {
  }

  /** The file is the header line followed by exactly one line per flow value, each
      line ending in a newline: split at newlines it gives the header, the data
      lines in input order, and an empty tail. */
  lemma Document(data: Columns, fmt: real -> string)
    requires FieldSafe(fmt)
    requires data.Covers()
    ensures Split(CsvText(data, fmt), '\n') == [HeaderLine] + RowLines(data, fmt, |data.flow_v|) + [""]
  {
    var lines := [HeaderLine] + RowLines(data, fmt, |data.flow_v|);
    NoNewlineInHeader();
    forall i | 1 <= i < |lines| ensures '\n' !in lines[i] {
      NoNewlineInLine(data, fmt, i - 1);
    }
    assert CsvText(data, fmt) + "" == CsvText(data, fmt);
    SplitTerminated(lines, "");
  }

  /** A curve without points exports the header line alone. */
  lemma EmptyCurve(data: Columns, fmt: real -> string)
    requires data.Covers() && data.flow_v == []
    ensures CsvText(data, fmt) == HeaderLine + "\n"
  {
    HeaderOnly(data, fmt);
  }

  /** Before the loop, the text is the header line. */
  lemma HeaderOnly(data: Columns, fmt: real -> string)
    requires data.Covers()
    ensures Terminated([HeaderLine] + RowLines(data, fmt, 0)) == HeaderLine + "\n"
  {
    assert [HeaderLine] + RowLines(data, fmt, 0) == [HeaderLine];
    assert [HeaderLine][1..] == [];
    assert Terminated([HeaderLine]) == HeaderLine + "\n" + Terminated([]);
  }

  /** A formatter that prints the numbers of the example below as JavaScript does. */
  function ExampleFormat(x: real): string
  {
    if x == 1.5 then "1.5" else if x == 9.81 then "9.81" else if x == 85.0 then "85"
    else if x == 1500.0 then "1500" else "?"
  }

  lemma ExampleRowLine()
    ensures RowLine(Columns([1.5], [9.81], [0.85], [1500.0]), ExampleFormat, 0) == "1.5,9.81,85,1500"
  {
    assert Fields(Columns([1.5], [9.81], [0.85], [1500.0]), ExampleFormat, 0) == ["1.5", "9.81", "85", "1500"];
    Join4("1.5", "9.81", "85", "1500", ',');
  }

  /** One point at 1.5 m³/s, 9.81 J/kg, 85 % and 1500 RPM. */
  lemma ExampleOneRow()
    ensures CsvText(Columns([1.5], [9.81], [0.85], [1500.0]), ExampleFormat)
         == HeaderLine + "\n" + "1.5,9.81,85,1500\n"
  {
    var data := Columns([1.5], [9.81], [0.85], [1500.0]);
    ExampleRowLine();
    var lines := [HeaderLine] + RowLines(data, ExampleFormat, 1);
    assert lines == [HeaderLine, "1.5,9.81,85,1500"];
    assert lines[1..] == ["1.5,9.81,85,1500"];
    assert lines[1..][1..] == [];
    assert Terminated(lines[1..]) == "1.5,9.81,85,1500" + "\n" + Terminated([]);
  }
}
