/** The Quarto extension that exports marimo notebooks: the parser of the leading
    `#| key: value` option lines of a code block, the table that decides how a cell's
    output is rendered, and the mapping of the document's root attributes to the app
    configuration. JSON decoding and the island stub's own HTML rendering are
    parameters. */
module Marimo {
  import opened Wrappers
  import opened Dicts
  import opened Text

  // ---------------------------------------------------------------------------
  // Leading option lines

  const OptionMark := "#|"

  /** A key or value as the pattern captures it: no blank at either end. */
  predicate Bare(s: string)
  {
    s == [] || (!IsSpace(s[0]) && !IsSpace(s[|s| - 1]))
  }

  /** Matches a stripped line against `#|` + key + `:` + value: the key is the text up
      to the first colon without its surrounding blanks, the value the rest of the line
      without its leading blanks. */
  function OptionLine(line: string): Option<(string, string)>
  {
    if |line| >= 2 && line[..2] == OptionMark then OptionBody(LStrip(line[2..])) else None
  }

  /** The key and value after the `#|` mark and its blanks. */
  function OptionBody(rest: string): Option<(string, string)>
  {
    var p := IndexOf(rest, ':');
    if p == |rest| then None else Some((RStrip(rest[..p]), LStrip(rest[p + 1..])))
  }

  /** A matched line starts with the mark; its key is bare and holds no colon, and its
      value starts with no blank. */
  lemma OptionLineShape(line: string)
    ensures var m := OptionLine(line);
      m.Some? ==> StartsWith(line, OptionMark) && ':' !in m.value.0 && Bare(m.value.0)
                  && (m.value.1 == [] || !IsSpace(m.value.1[0]))
  {
    if |line| >= 2 && line[..2] == OptionMark {
      var rest := LStrip(line[2..]);
      LStripShape(line[2..]);
      var p := IndexOf(rest, ':');
      if p < |rest| {
        KeyShape(rest, p);
        LStripShape(rest[p + 1..]);
      }
    }
  }

  /** The text before the first colon, without trailing blanks, is a bare key. */
  lemma KeyShape(rest: string, p: nat)
    requires p <= |rest| && ':' !in rest[..p]
    requires rest == [] || !IsSpace(rest[0])
    ensures ':' !in RStrip(rest[..p]) && Bare(RStrip(rest[..p]))
  {
    var k := RStrip(rest[..p]);
    RStripShape(rest[..p]);
    assert k == rest[..|k|];
    if k != [] {
      assert k[0] == rest[0];
    }
    assert forall i :: 0 <= i < |k| ==> k[i] == rest[..p][i];
  }

  /** LStrip leaves a text that starts with a non-blank character as it is. */
  lemma LStripKeeps(s: string)
    requires s == [] || !IsSpace(s[0])
    ensures LStrip(s) == s
  {
  }

  /** RStrip leaves a text that ends with a non-blank character as it is. */
  lemma RStripKeeps(s: string)
    requires s == [] || !IsSpace(s[|s| - 1])
    ensures RStrip(s) == s
  {
  }

  /** LStrip drops one leading blank. */
  lemma LStripBlank(s: string)
    ensures LStrip([' '] + s) == LStrip(s)
  {
    assert ([' '] + s)[1..] == s;
  }

  /** The body `key: value` splits at the colon after the key. */
  lemma BodyParts(key: string, value: string)
    requires ':' !in key
    ensures var body := key + ": " + value;
      && IndexOf(body, ':') == |key|
      && body[..|key|] == key
      && body[|key| + 1..] == [' '] + value
  {
    var body := key + ": " + value;
    assert body[..|key|] == key;
    IndexOfIs(body, ':', |key|);
    assert body[|key| + 1..] == [' '] + value;
  }

  /** The mark and one blank lead to the body. */
  lemma MarkedBody(body: string)
    requires body == [] || !IsSpace(body[0])
    ensures OptionLine(OptionMark + [' '] + body) == OptionBody(body)
  {
    var line := OptionMark + [' '] + body;
    assert line[..2] == OptionMark && line[2..] == [' '] + body;
    LStripBlank(body);
    LStripKeeps(body);
  }

  /** The body `key: value` gives the key and the value back. */
  lemma BodyFormat(key: string, value: string)
    requires ':' !in key && Bare(key)
    requires value == [] || !IsSpace(value[0])
    ensures OptionBody(key + ": " + value) == Some((key, value))
  {
    BodyParts(key, value);
    RStripKeeps(key);
    LStripBlank(value);
    LStripKeeps(value);
  }

  /** Writing an option as `#| key: value` and matching the line gives the key and the
      value back, for every bare key without colons and every value without leading
      blanks. */
  lemma OptionLineFormat(key: string, value: string)
    requires ':' !in key && Bare(key)
    requires value == [] || !IsSpace(value[0])
    ensures OptionLine(OptionMark + " " + key + ": " + value) == Some((key, value))
  {
    var body := key + ": " + value;
    assert OptionMark + " " + key + ": " + value == OptionMark + [' '] + body;
    assert body == [] || !IsSpace(body[0]) by {
      if key == [] {
        assert body[0] == ':';
      } else {
        assert body[0] == key[0];
      }
    }
    MarkedBody(body);
    BodyFormat(key, value);
  }

  /** A line the option scan stops at: neither blank nor an option line. */
  predicate IsCode(line: string)
  {
    Strip(line) != "" && OptionLine(Strip(line)).None?
  }

  /** The index of the first code line, or the number of lines when there is none. */
  function CodeStart(lines: seq<string>): (n: nat)
    ensures n <= |lines|
    ensures n < |lines| ==> IsCode(lines[n])
    ensures forall i {:trigger IsCode(lines[i])} :: 0 <= i < n ==> !IsCode(lines[i])
  {
    FirstFrom(lines, IsCode, 0)
  }

  /** The index of the first element from `k` on that satisfies `p`, or the length. */
  function FirstFrom<T>(xs: seq<T>, p: T -> bool, k: nat): (n: nat)
    requires k <= |xs|
    ensures k <= n <= |xs|
    ensures n < |xs| ==> p(xs[n])
    ensures forall i :: k <= i < n ==> !p(xs[i])
    decreases |xs| - k
  {
    if k == |xs| || p(xs[k]) then k else FirstFrom(xs, p, k + 1)
  }

  /** The options of the option lines among `lines`, in order. */
  function Options(lines: seq<string>): (es: seq<(string, string)>)
    ensures |es| <= |lines|
  {
    if lines == [] then []
    else
      var m := OptionLine(Strip(lines[|lines| - 1]));
      Options(lines[..|lines| - 1]) + (if m.Some? then [m.value] else [])
  }

  /** The options assigned one after the other, each value decoded as JSON; the first
      value that does not decode raises. */
  function Decoded<J>(es: seq<(string, string)>, decode: string -> Result<J>): Result<Dict<string, J>>
  {
    if es == [] then Ok([])
    else
      var config :- Decoded(es[..|es| - 1], decode);
      var v :- decode(es[|es| - 1].1);
      Ok(Set(config, es[|es| - 1].0, v))
  }

  /** What `extract_and_strip_quarto_config` returns: the options of the lines before
      the first code line, and the text from that line on; without a code line, the
      text from the last line on. */
  function QuartoConfig<J>(block: string, decode: string -> Result<J>): (r: Result<(Dict<string, J>, string)>)
    ensures r.Ok? ==> exists k :: 0 <= k < |Split(block, '\n')| && r.value.1 == Join(Split(block, '\n')[k..], "\n")
  {
    var lines := Split(block, '\n');
    var start := CodeStart(lines);
    var config :- Decoded(Options(lines[..start]), decode);
    var k := if start < |lines| then start else |lines| - 1;
    Ok((config, Join(lines[k..], "\n")))
  }

  /** Scans the lines of `block`, collecting options until the first code line. */
  method ExtractAndStripQuartoConfig<J>(block: string, decode: string -> Result<J>)
    returns (r: Result<(Dict<string, J>, string)>)
    ensures r == QuartoConfig(block, decode)
  {
    var lines := Split(block, '\n');
    var config: Dict<string, J> := [];
    var splitIndex := 0;
    var i := 0;
    while i < |lines|
      invariant i <= CodeStart(lines)
      invariant Decoded(Options(lines[..i]), decode) == Ok(config)
      invariant splitIndex == if i == 0 then 0 else i - 1
    {
      splitIndex := i;
      var line := Strip(lines[i]);
      if line != "" {
        var m := OptionLine(line);
        if m.None? {
          assert CodeStart(lines) == i by {
            CodeAt(lines, i);
          }
          break;
        }
        var v := decode(m.value.1);
        assert i + 1 <= CodeStart(lines) by {
          NotCode(lines[i]);
          PastLine(lines, i);
        }
        if v.Fail? {
          assert QuartoConfig(block, decode) == Fail(v.exc) by {
            ScanStep(lines, i, config, decode);
            ScanFails(lines, i + 1, decode);
            ScanFailed(block, decode, v.exc);
          }
          return Fail(v.exc);
        }
        assert Decoded(Options(lines[..i + 1]), decode) == Ok(Set(config, m.value.0, v.value)) by {
          ScanStep(lines, i, config, decode);
        }
        config := Set(config, m.value.0, v.value);
      } else {
        assert i + 1 <= CodeStart(lines) && Decoded(Options(lines[..i + 1]), decode) == Ok(config) by {
          ScanStep(lines, i, config, decode);
          NotCode(lines[i]);
          PastLine(lines, i);
        }
      }
      i := i + 1;
    }
    assert QuartoConfig(block, decode) == Ok((config, Join(lines[splitIndex..], "\n"))) by {
      if i == |lines| {
        assert lines[..|lines|] == lines;
      }
      ScanDone(block, decode, config, splitIndex);
    }
    return Ok((config, Join(lines[splitIndex..], "\n")));
  }

  /** A blank line or an option line is not code. */
  lemma NotCode(line: string)
    requires Strip(line) == "" || OptionLine(Strip(line)).Some?
    ensures !IsCode(line)
  {
  }

  /** A line before the first code line that is not code moves the scan on. */
  lemma PastLine(lines: seq<string>, i: nat)
    requires i < |lines| && i <= CodeStart(lines) && !IsCode(lines[i])
    ensures i + 1 <= CodeStart(lines)
  {
  }

  /** The first code line is where the scan stops. */
  lemma CodeAt(lines: seq<string>, i: nat)
    requires i < |lines| && i <= CodeStart(lines)
    requires Strip(lines[i]) != "" && OptionLine(Strip(lines[i])).None?
    ensures CodeStart(lines) == i
  {
    assert IsCode(lines[i]);
  }

  /** The scan fails when the options before the stopping line fail to decode. */
  lemma ScanFailed<J>(block: string, decode: string -> Result<J>, exc: Exc)
    requires var lines := Split(block, '\n');
      Decoded(Options(lines[..CodeStart(lines)]), decode) == Fail(exc)
    ensures QuartoConfig(block, decode) == Fail(exc)
  {
  }

  /** The scan's result once the options before the stopping line have decoded. */
  lemma ScanDone<J>(block: string, decode: string -> Result<J>, config: Dict<string, J>, splitIndex: nat)
    requires var lines := Split(block, '\n');
      var start := CodeStart(lines);
      && Decoded(Options(lines[..start]), decode) == Ok(config)
      && splitIndex == if start < |lines| then start else |lines| - 1
    ensures QuartoConfig(block, decode) == Ok((config, Join(Split(block, '\n')[splitIndex..], "\n")))
  {
  }

  /** One more line: an option line adds its decoded value, any other line nothing. */
  lemma ScanStep<J>(lines: seq<string>, i: nat, config: Dict<string, J>, decode: string -> Result<J>)
    requires i < |lines|
    requires Decoded(Options(lines[..i]), decode) == Ok(config)
    ensures var m := OptionLine(Strip(lines[i]));
      Decoded(Options(lines[..i + 1]), decode)
      == if m.None? then Ok(config)
         else if decode(m.value.1).Fail? then Fail(decode(m.value.1).exc)
         else Ok(Set(config, m.value.0, decode(m.value.1).value))
  {
    OptionsStep(lines, i);
    var m := OptionLine(Strip(lines[i]));
    if m.Some? {
      DecodedSnoc(Options(lines[..i]), m.value, config, decode);
    } else {
      assert Options(lines[..i + 1]) == Options(lines[..i]);
    }
  }

  /** Decoding one more option. */
  lemma DecodedSnoc<J>(es: seq<(string, string)>, e: (string, string), config: Dict<string, J>, decode: string -> Result<J>)
    requires Decoded(es, decode) == Ok(config)
    ensures Decoded(es + [e], decode)
            == if decode(e.1).Fail? then Fail(decode(e.1).exc) else Ok(Set(config, e.0, decode(e.1).value))
  {
    assert (es + [e])[..|es|] == es;
  }

  /** One more line adds its option, if it is an option line. */
  lemma OptionsStep(lines: seq<string>, i: nat)
    requires i < |lines|
    ensures Options(lines[..i + 1]) == Options(lines[..i]) + (if OptionLine(Strip(lines[i])).Some? then [OptionLine(Strip(lines[i])).value] else [])
  {
    assert lines[..i + 1][..i] == lines[..i];
  }

  /** The options of a prefix of the lines are a prefix of the options. */
  lemma {:induction false} OptionsPrefix(lines: seq<string>, a: nat, b: nat)
    requires a <= b <= |lines|
    ensures |Options(lines[..a])| <= |Options(lines[..b])|
    ensures Options(lines[..b])[..|Options(lines[..a])|] == Options(lines[..a])
    decreases b - a
  {
    if a < b {
      OptionsPrefix(lines, a, b - 1);
      OptionsStep(lines, b - 1);
      PrefixOfAppend(Options(lines[..b - 1]), if OptionLine(Strip(lines[b - 1])).Some? then [OptionLine(Strip(lines[b - 1])).value] else [], |Options(lines[..a])|);
    }
  }

  lemma PrefixOfAppend<T>(x: seq<T>, y: seq<T>, n: nat)
    requires n <= |x|
    ensures (x + y)[..n] == x[..n]
  {
  }

  /** A decoding failure among the first options is the failure of all of them. */
  lemma {:induction false} DecodedFailFrom<J>(es: seq<(string, string)>, k: nat, decode: string -> Result<J>)
    requires k <= |es| && Decoded(es[..k], decode).Fail?
    ensures Decoded(es, decode) == Decoded(es[..k], decode)
    decreases |es| - k
  {
    if k < |es| {
      assert es[..k + 1][..k] == es[..k];
      DecodedFailFrom(es, k + 1, decode);
    } else {
      assert es[..k] == es;
    }
  }

  /** When the options of the lines before line `i`, none of them code, fail to
      decode, the whole scan fails the same way. */
  lemma ScanFails<J>(lines: seq<string>, i: nat, decode: string -> Result<J>)
    requires i <= CodeStart(lines)
    requires Decoded(Options(lines[..i]), decode).Fail?
    ensures Decoded(Options(lines[..CodeStart(lines)]), decode) == Decoded(Options(lines[..i]), decode)
  {
    var start := CodeStart(lines);
    OptionsPrefix(lines, i, start);
    var whole := Options(lines[..start]);
    DecodedFailFrom(whole, |Options(lines[..i])|, decode);
  }

  /** A block whose first line is code comes back whole, with no options. */
  lemma FirstLineCode<J>(block: string, decode: string -> Result<J>)
    requires IsCode(Split(block, '\n')[0])
    ensures QuartoConfig(block, decode) == Ok(([], block))
  {
    var lines := Split(block, '\n');
    assert lines[..0] == [];
    assert lines[0..] == lines;
    JoinSplit(block, '\n');
  }

  /** The text returned starts at the first code line: every line before it is blank
      or an option line. */
  lemma StrippedFromCode<J>(block: string, decode: string -> Result<J>)
    requires CodeStart(Split(block, '\n')) < |Split(block, '\n')|
    requires QuartoConfig(block, decode).Ok?
    ensures var lines := Split(block, '\n');
      var start := CodeStart(lines);
      && QuartoConfig(block, decode).value.1 == Join(lines[start..], "\n")
      && IsCode(lines[start])
      && forall i :: 0 <= i < start ==> Strip(lines[i]) == "" || OptionLine(Strip(lines[i])).Some?
  {
  }

  /** Without a code line the scan runs to the end and the text starts at the last
      line. */
  lemma TrailingText<J>(block: string, decode: string -> Result<J>)
    requires CodeStart(Split(block, '\n')) == |Split(block, '\n')|
    requires QuartoConfig(block, decode).Ok?
    ensures var lines := Split(block, '\n');
      QuartoConfig(block, decode).value.1 == lines[|lines| - 1]
  {
    var lines := Split(block, '\n');
    assert lines[|lines| - 1..] == [lines[|lines| - 1]];
  }

  /** So a final option line is both read as an option and kept in the code. */
  lemma TrailingOptionKept<J>(block: string, decode: string -> Result<J>)
    requires CodeStart(Split(block, '\n')) == |Split(block, '\n')|
    requires QuartoConfig(block, decode).Ok?
    ensures var lines := Split(block, '\n');
      var last := lines[|lines| - 1];
      var m := OptionLine(Strip(last));
      && QuartoConfig(block, decode).value.1 == last
      && (m.Some? ==> decode(m.value.1).Ok? && Get(QuartoConfig(block, decode).value.0, m.value.0) == Some(decode(m.value.1).value))
  {
    TrailingText(block, decode);
    var lines := Split(block, '\n');
    var n := |lines| - 1;
    var m := OptionLine(Strip(lines[n]));
    if m.Some? {
      var es := Options(lines);
      assert Decoded(es, decode).Ok? && es != [] && es[|es| - 1] == m.value by {
        assert lines[..|lines|] == lines;
        OptionsStep(lines, n);
        assert lines[..n + 1] == lines;
      }
      DecodedLast(es, |es| - 1, decode);
    }
  }

  /** A repeated option keeps the value of its last line. */
  lemma {:induction false} DecodedLast<J>(es: seq<(string, string)>, n: nat, decode: string -> Result<J>)
    requires LastSetting(es, n) && Decoded(es, decode).Ok?
    ensures decode(es[n].1).Ok?
    ensures Get(Decoded(es, decode).value, es[n].0) == Some(decode(es[n].1).value)
  {
    var k := |es| - 1;
    var init := es[..k];
    GetSet(Decoded(init, decode).value, es[k].0, decode(es[k].1).value, es[n].0);
    if n < k {
      LastSettingInit(es, n);
      DecodedLast(init, n, decode);
    }
  }

  /** A key no option line names is not in the result. */
  lemma {:induction false} DecodedAbsent<J>(es: seq<(string, string)>, key: string, decode: string -> Result<J>)
    requires Decoded(es, decode).Ok?
    requires forall n :: 0 <= n < |es| ==> es[n].0 != key
    ensures Get(Decoded(es, decode).value, key) == None
  {
    if es != [] {
      var k := |es| - 1;
      DecodedAbsent(es[..k], key, decode);
      GetSet(Decoded(es[..k], decode).value, es[k].0, decode(es[k].1).value, key);
    }
  }

  /** The options decode unless one of their values does not. */
  lemma {:induction false} DecodedFails<J>(es: seq<(string, string)>, decode: string -> Result<J>)
    ensures Decoded(es, decode).Fail? <==> exists n :: 0 <= n < |es| && decode(es[n].1).Fail?
  {
    if es != [] {
      var k := |es| - 1;
      DecodedFails(es[..k], decode);
      if Decoded(es[..k], decode).Fail? {
        var n :| 0 <= n < k && decode(es[..k][n].1).Fail?;
        assert decode(es[n].1).Fail?;
      } else if Decoded(es, decode).Ok? {
        forall n | 0 <= n < |es| ensures decode(es[n].1).Ok? {
          if n < k {
            assert es[..k][n] == es[n];
          }
        }
      }
    }
  }

  // ---------------------------------------------------------------------------
  // Rendering a cell

  const Include := "include"
  const Echo := "echo"
  const Eval := "eval"
  const ShowOutput := "output"
  const ShowError := "error"
  const ShowWarning := "warning"

  const ImageMime := "image"
  const PlainMime := "text/plain"
  const MarkdownMime := "text/markdown"
  const ErrorMime := "application/vnd.marimo+error"

  /** The Quarto execution options and their defaults, with marimo's `editor`. */
  const DefaultConfig: Dict<string, bool> :=
    [(Eval, false), (Echo, true), (ShowOutput, true), (ShowWarning, true),
     (ShowError, true), (Include, true), ("editor", false)]

  /** A cell's output: its mimetype and its data. */
  datatype Output = Output(mimetype: string, data: string)

  /** A marimo island stub: the cell's code and its output, if any. */
  datatype Stub = Stub(code: string, output: Option<Output>)

  /** The render options added to every non-empty render. */
  datatype RenderOptions = RenderOptions(displayCode: bool, reactive: bool, code: string)

  /** The pandoc element a cell becomes. */
  datatype Kind = Html | Figure | Para | Blockquote

  /** The rendered cell: its kind, its value, and the render options, if any. */
  datatype Rendered = Rendered(kind: Kind, value: string, options: Option<RenderOptions>)

  /** `config[key]`, taken by its truth value. */
  function Setting(config: Dict<string, bool>, key: string): (r: Result<bool>)
    ensures r.Ok? <==> Get(config, key).Some?
    ensures r.Fail? ==> r.exc == KeyError(key)
  {
    if Get(config, key).Some? then Ok(Get(config, key).value) else Fail(KeyError(key))
  }

  /** The options `get_mime_render` reads are all present. */
  predicate Complete(config: Dict<string, bool>)
  {
    Get(config, Include).Some? && Get(config, Echo).Some? && Get(config, Eval).Some?
    && Get(config, ShowOutput).Some? && Get(config, ShowError).Some? && Get(config, ShowWarning).Some?
  }

  /** The render decided by the cell's output, or None to fall through to HTML. */
  function OutputRender(config: Dict<string, bool>, output: Option<Output>, ro: RenderOptions, mimeSensitive: bool)
    : Result<Option<Rendered>>
  {
    if output.None? then Ok(None)
    else
      var mimetype := output.value.mimetype;
      var data := output.value.data;
      var show :- Setting(config, ShowOutput);
      if show && mimeSensitive then
        if StartsWith(mimetype, ImageMime) then Ok(Some(Rendered(Figure, data, Some(ro))))
        else if StartsWith(mimetype, PlainMime) || StartsWith(mimetype, MarkdownMime) then
          Ok(Some(Rendered(Para, data, Some(ro))))
        else if mimetype == ErrorMime then
          var error :- Setting(config, ShowError);
          Ok(Some(if error then Rendered(Blockquote, data, Some(ro)) else Rendered(Para, "", Some(ro))))
        else Ok(None)
      else if mimetype == ErrorMime then
        var warning :- Setting(config, ShowWarning);
        var error :- Setting(config, ShowError);
        if error then Ok(None) else Ok(Some(Rendered(Html, "", None)))
      else Ok(None)
  }

  /** `get_mime_render`: the cell's options over the global ones decide the element;
      `render` is the stub's HTML rendering (display code, display output, reactive,
      raw). It never fails when every option it reads is present, a failure is the
      KeyError of one of them, and only a mime-sensitive export of a cell with a stub
      gives anything but HTML. */
  function MimeRender(globalOptions: Dict<string, bool>, stub: Option<Stub>, config: Dict<string, bool>,
                      mimeSensitive: bool, render: (Stub, bool, bool, bool, bool) -> string): (r: Result<Rendered>)
    ensures Complete(SetAll(globalOptions, config)) ==> r.Ok?
    ensures r.Fail? ==> r.exc in {KeyError(Include), KeyError(Echo), KeyError(Eval), KeyError(ShowOutput),
                                  KeyError(ShowError), KeyError(ShowWarning)}
    ensures r.Ok? && r.value.kind != Html ==> stub.Some? && mimeSensitive
  {
    var options := SetAll(globalOptions, config);
    var included :- Setting(options, Include);
    if !included || stub.None? then Ok(Rendered(Html, "", None))
    else
      var echo :- Setting(options, Echo);
      var eval :- Setting(options, Eval);
      var ro := RenderOptions(echo, eval && !mimeSensitive, stub.value.code);
      var early :- OutputRender(options, stub.value.output, ro, mimeSensitive);
      if early.Some? then Ok(early.value)
      else
        var show :- Setting(options, ShowOutput);
        Ok(Rendered(Html, render(stub.value, echo, show, ro.reactive, mimeSensitive), Some(ro)))
  }

  /** The cell's own options take precedence over the global ones. */
  lemma CellOptionsWin(globalOptions: Dict<string, bool>, config: Dict<string, bool>, key: string)
    requires UniqueKeys(config)
    ensures Setting(SetAll(globalOptions, config), key)
            == if Get(config, key).Some? then Ok(Get(config, key).value) else Setting(globalOptions, key)
  {
    GetSetAll(globalOptions, config, key);
  }

  /** A cell left out (include off) or without a stub renders as empty HTML. */
  lemma Excluded(globalOptions: Dict<string, bool>, stub: Option<Stub>, config: Dict<string, bool>,
                 mimeSensitive: bool, render: (Stub, bool, bool, bool, bool) -> string)
    requires Get(SetAll(globalOptions, config), Include).Some?
    requires !Get(SetAll(globalOptions, config), Include).value || stub.None?
    ensures MimeRender(globalOptions, stub, config, mimeSensitive, render) == Ok(Rendered(Html, "", None))
  {
  }

  /** Every non-empty render carries the options: code shown per `echo`, reactive
      exactly when `eval` is on and the export is not mime-sensitive, and the cell's
      code. */
  lemma RenderOptionsOf(globalOptions: Dict<string, bool>, stub: Option<Stub>, config: Dict<string, bool>,
                        mimeSensitive: bool, render: (Stub, bool, bool, bool, bool) -> string)
    requires MimeRender(globalOptions, stub, config, mimeSensitive, render).Ok?
    requires MimeRender(globalOptions, stub, config, mimeSensitive, render).value.options.Some?
    ensures var options := SetAll(globalOptions, config);
      var ro := MimeRender(globalOptions, stub, config, mimeSensitive, render).value.options.value;
      && stub.Some?
      && Get(options, Echo).Some? && Get(options, Eval).Some?
      && ro.displayCode == Get(options, Echo).value
      && ro.reactive == (Get(options, Eval).value && !mimeSensitive)
      && ro.code == stub.value.code
  {
  }

  /** The render options of a mime-sensitive export: never reactive. */
  function SensitiveOptions(options: Dict<string, bool>, stub: Stub): RenderOptions
    requires Get(options, Echo).Some?
  {
    RenderOptions(Get(options, Echo).value, false, stub.code)
  }

  /** The conditions of the mime-sensitive branch: the cell is included, shows its
      output, and has one. */
  predicate SensitiveBranch(options: Dict<string, bool>, stub: Stub)
  {
    Complete(options) && Get(options, Include).value && Get(options, ShowOutput).value && stub.output.Some?
  }

  /** In a mime-sensitive export an image output becomes a figure. */
  lemma SensitiveImage(globalOptions: Dict<string, bool>, stub: Stub, config: Dict<string, bool>,
                       render: (Stub, bool, bool, bool, bool) -> string)
    requires SensitiveBranch(SetAll(globalOptions, config), stub)
    requires StartsWith(stub.output.value.mimetype, ImageMime)
    ensures MimeRender(globalOptions, Some(stub), config, true, render)
            == Ok(Rendered(Figure, stub.output.value.data, Some(SensitiveOptions(SetAll(globalOptions, config), stub))))
  {
  }

  /** In a mime-sensitive export a plain-text or markdown output becomes a paragraph. */
  lemma SensitiveText(globalOptions: Dict<string, bool>, stub: Stub, config: Dict<string, bool>,
                      render: (Stub, bool, bool, bool, bool) -> string)
    requires SensitiveBranch(SetAll(globalOptions, config), stub)
    requires !StartsWith(stub.output.value.mimetype, ImageMime)
    requires StartsWith(stub.output.value.mimetype, PlainMime) || StartsWith(stub.output.value.mimetype, MarkdownMime)
    ensures MimeRender(globalOptions, Some(stub), config, true, render)
            == Ok(Rendered(Para, stub.output.value.data, Some(SensitiveOptions(SetAll(globalOptions, config), stub))))
  {
  }

  /** The marimo error mimetype is neither an image nor text. */
  lemma ErrorMimeKind()
    ensures !StartsWith(ErrorMime, ImageMime)
    ensures !StartsWith(ErrorMime, PlainMime) && !StartsWith(ErrorMime, MarkdownMime)
  {
    assert ErrorMime[0] == 'a';
  }

  /** In a mime-sensitive export a marimo error becomes a block quote, or an empty
      paragraph when errors are off. */
  lemma SensitiveError(globalOptions: Dict<string, bool>, stub: Stub, config: Dict<string, bool>,
                       render: (Stub, bool, bool, bool, bool) -> string)
    requires SensitiveBranch(SetAll(globalOptions, config), stub)
    requires stub.output.value.mimetype == ErrorMime
    ensures var ro := Some(SensitiveOptions(SetAll(globalOptions, config), stub));
      MimeRender(globalOptions, Some(stub), config, true, render)
      == Ok(if Get(SetAll(globalOptions, config), ShowError).value
            then Rendered(Blockquote, stub.output.value.data, ro)
            else Rendered(Para, "", ro))
  {
    ErrorMimeKind();
  }

  /** In a mime-sensitive export any other output falls through to the stub's raw
      HTML. */
  lemma SensitiveOther(globalOptions: Dict<string, bool>, stub: Stub, config: Dict<string, bool>,
                       render: (Stub, bool, bool, bool, bool) -> string)
    requires SensitiveBranch(SetAll(globalOptions, config), stub)
    requires var mimetype := stub.output.value.mimetype;
      !StartsWith(mimetype, ImageMime) && !StartsWith(mimetype, PlainMime)
      && !StartsWith(mimetype, MarkdownMime) && mimetype != ErrorMime
    ensures var options := SetAll(globalOptions, config);
      MimeRender(globalOptions, Some(stub), config, true, render)
      == Ok(Rendered(Html, render(stub, Get(options, Echo).value, true, false, true), Some(SensitiveOptions(options, stub))))
  {
  }

  /** Outside the mime-sensitive branch, a marimo error with errors off is dropped. */
  lemma ErrorSuppressed(globalOptions: Dict<string, bool>, stub: Stub, config: Dict<string, bool>,
                        mimeSensitive: bool, render: (Stub, bool, bool, bool, bool) -> string)
    requires Complete(SetAll(globalOptions, config))
    requires Get(SetAll(globalOptions, config), Include).value
    requires !(Get(SetAll(globalOptions, config), ShowOutput).value && mimeSensitive)
    requires !Get(SetAll(globalOptions, config), ShowError).value
    requires stub.output.Some? && stub.output.value.mimetype == ErrorMime
    ensures MimeRender(globalOptions, Some(stub), config, mimeSensitive, render) == Ok(Rendered(Html, "", None))
  {
  }

  /** The global options start from the defaults, so they hold every option read.
    * The options are booleans here; the attributes merged over the defaults are
    * strings in the program, which reads every non-empty one as true. */
  lemma DefaultsComplete(appConfig: Dict<string, bool>)
    ensures Complete(SetAll(DefaultConfig, appConfig))
  {
    var d := DefaultConfig;
    assert Keys(d) == [Eval, Echo, ShowOutput, ShowWarning, ShowError, Include, "editor"];
    forall k | k in [Include, Echo, Eval, ShowOutput, ShowError, ShowWarning]
      ensures Get(SetAll(d, appConfig), k).Some?
    {
      SetAllKeys(d, appConfig, k);
      GetKeys(SetAll(d, appConfig), k);
    }
  }

  // ---------------------------------------------------------------------------
  // App configuration from the root attributes

  const Title := "title"
  const AppTitle := "app_title"
  const Layout := "marimo-layout"
  const LayoutFile := "layout_file"
  const MarimoVersion := "marimo-version"

  /** The attributes renamed for the app configuration. */
  predicate Renames(key: string)
  {
    key == Title || key == Layout
  }

  function RenamedTo(key: string): string
  {
    if key == Title then AppTitle else LayoutFile
  }

  /** The renamed attributes, in document order, under their new names. */
  function RenamedAttributes(attrs: Dict<string, string>): Dict<string, string>
  {
    if attrs == [] then []
    else
      var e := attrs[|attrs| - 1];
      RenamedAttributes(attrs[..|attrs| - 1]) + (if Renames(e.0) then [(RenamedTo(e.0), e.1)] else [])
  }

  /** The other attributes, in document order. */
  function OtherAttributes(attrs: Dict<string, string>): Dict<string, string>
  {
    if attrs == [] then []
    else
      var e := attrs[|attrs| - 1];
      OtherAttributes(attrs[..|attrs| - 1]) + (if Renames(e.0) then [] else [e])
  }

  /** `app_config_from_root`: the renamed attributes, updated with the others, without
      `marimo-version`. */
  function AppConfig(attrs: Dict<string, string>): (r: Dict<string, string>)
    ensures UniqueKeys(r)
    ensures Get(r, MarimoVersion) == None
  {
    var renamed := SetAll([], RenamedAttributes(attrs));
    var merged := SetAll(renamed, OtherAttributes(attrs));
    SetAllUnique([], RenamedAttributes(attrs));
    SetAllUnique(renamed, OtherAttributes(attrs));
    GetRemove(merged, MarimoVersion, MarimoVersion);
    Remove(merged, MarimoVersion)
  }

  /** A last entry that an attribute dictionary does not otherwise hold. */
  lemma LastUnique(attrs: Dict<string, string>)
    requires UniqueKeys(attrs) && attrs != []
    ensures UniqueKeys(attrs[..|attrs| - 1])
    ensures Get(attrs[..|attrs| - 1], attrs[|attrs| - 1].0) == None
    ensures attrs == attrs[..|attrs| - 1] + [attrs[|attrs| - 1]]
  {
    var init := attrs[..|attrs| - 1];
    assert forall i :: 0 <= i < |init| ==> init[i] == attrs[i];
    GetKeys(init, attrs[|attrs| - 1].0);
  }

  /** The renamed part holds `title` as `app_title` and `marimo-layout` as
      `layout_file`, and nothing else. */
  lemma {:induction false} RenamedGet(attrs: Dict<string, string>, key: string)
    requires UniqueKeys(attrs)
    ensures Get(SetAll([], RenamedAttributes(attrs)), key)
            == if key == AppTitle then Get(attrs, Title)
               else if key == LayoutFile then Get(attrs, Layout)
               else None
  {
    if attrs != [] {
      var init := attrs[..|attrs| - 1];
      var e := attrs[|attrs| - 1];
      LastUnique(attrs);
      RenamedGet(init, key);
      GetSnoc(init, e, Title);
      GetSnoc(init, e, Layout);
      var es := RenamedAttributes(attrs);
      if Renames(e.0) {
        assert es == RenamedAttributes(init) + [(RenamedTo(e.0), e.1)];
        assert es[..|es| - 1] == RenamedAttributes(init);
        GetSet(SetAll([], RenamedAttributes(init)), RenamedTo(e.0), e.1, key);
      } else {
        assert es == RenamedAttributes(init);
      }
    }
  }

  /** Updating with the other attributes copies them as they are. */
  lemma {:induction false} OtherGet(d: Dict<string, string>, attrs: Dict<string, string>, key: string)
    requires UniqueKeys(attrs)
    ensures Get(SetAll(d, OtherAttributes(attrs)), key)
            == if !Renames(key) && Get(attrs, key).Some? then Get(attrs, key) else Get(d, key)
  {
    if attrs != [] {
      var init := attrs[..|attrs| - 1];
      var e := attrs[|attrs| - 1];
      LastUnique(attrs);
      OtherGet(d, init, key);
      GetSnoc(init, e, key);
      var es := OtherAttributes(attrs);
      if !Renames(e.0) {
        assert es == OtherAttributes(init) + [e];
        assert es[..|es| - 1] == OtherAttributes(init);
        GetSet(SetAll(d, OtherAttributes(init)), e.0, e.1, key);
      } else {
        assert es == OtherAttributes(init);
      }
    }
  }

  /** The app configuration: `title` and `marimo-layout` appear only under their new
      names, where an attribute already named `app_title` or `layout_file` wins; the
      other attributes pass as they are, except `marimo-version`, which is dropped. */
  lemma AppConfigGet(attrs: Dict<string, string>, key: string)
    requires UniqueKeys(attrs)
    ensures Get(AppConfig(attrs), key)
            == if key == MarimoVersion || Renames(key) then None
               else if key == AppTitle && Get(attrs, AppTitle).None? then Get(attrs, Title)
               else if key == LayoutFile && Get(attrs, LayoutFile).None? then Get(attrs, Layout)
               else Get(attrs, key)
  {
    var renamed := SetAll([], RenamedAttributes(attrs));
    var merged := SetAll(renamed, OtherAttributes(attrs));
    SetAllUnique([], RenamedAttributes(attrs));
    SetAllUnique(renamed, OtherAttributes(attrs));
    GetRemove(merged, MarimoVersion, key);
    OtherGet(renamed, attrs, key);
    RenamedGet(attrs, key);
  }
}
