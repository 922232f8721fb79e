/** Session files of the app (ccp/app/common.py): `convert` brings a file saved by
    an older version up to date, and `get_gas_composition` reads one gas of the gas
    table as a composition. */
module Session {
  import opened Wrappers
  import opened Dicts
  import opened Text
  import Sorting

  // ---------------------------------------------------------------------------
  // Versions and values

  /** The kind of a pre-release, in the order `packaging` gives them: `a`, `b`, `rc`. */
  datatype PreKind = Alpha | Beta | Candidate

  /** What follows the release number: a development release, a pre-release,
      nothing (the final release) or a post-release. */
  datatype Stage = Dev(n: nat) | Pre(kind: PreKind, n: nat) | Final | Post(n: nat)

  /** A version as `packaging.version.Version` parses it: a three-part release
      number and its stage. */
  datatype Version = Version(major: nat, minor: nat, micro: nat, stage: Stage)

  predicate KindBefore(a: PreKind, b: PreKind)
  {
    (a.Alpha? && !b.Alpha?) || (a.Beta? && b.Candidate?)
  }

  /** Within one release: development releases, then pre-releases, then the
      final release, then post-releases, each kind by its number. */
  predicate StageBefore(a: Stage, b: Stage)
  {
    match a
    case Dev(m) => !b.Dev? || m < b.n
    case Pre(k, m) => (b.Pre? && (KindBefore(k, b.kind) || (k == b.kind && m < b.n))) || b.Final? || b.Post?
    case Final => b.Post?
    case Post(m) => b.Post? && m < b.n
  }

  /** `packaging` orders versions by release number, part by part, and then by stage. */
  predicate Before(a: Version, b: Version)
  {
    || a.major < b.major
    || (a.major == b.major && a.minor < b.minor)
    || (a.major == b.major && a.minor == b.minor && a.micro < b.micro)
    || (a.major == b.major && a.minor == b.minor && a.micro == b.micro && StageBefore(a.stage, b.stage))
  }

  /** `Before` is a strict total order: exactly one of a < b, a == b, b < a. */
  lemma BeforeOrder(a: Version, b: Version, c: Version)
    ensures !Before(a, a)
    ensures Before(a, b) && Before(b, c) ==> Before(a, c)
    ensures a == b || Before(a, b) || Before(b, a)
    ensures !(Before(a, b) && Before(b, a))
  {
  }

  /** Every development release and pre-release of a release comes before it, and
      every post-release after it. */
  lemma StagesAroundFinal(major: nat, minor: nat, micro: nat, stage: Stage)
    ensures Before(Version(major, minor, micro, stage), Version(major, minor, micro, Final)) <==> stage.Dev? || stage.Pre?
    ensures Before(Version(major, minor, micro, Final), Version(major, minor, micro, stage)) <==> stage.Post?
  {
  }

  /** 0.3.7.dev0 and 0.3.7rc1 come before 0.3.7, so their files are migrated;
      0.3.7.post1 comes after it. */
  lemma PreReleasesMigrate()
    ensures Before(Version(0, 3, 7, Dev(0)), GasTableAddedIn)
    ensures Before(Version(0, 3, 7, Pre(Candidate, 1)), GasTableAddedIn)
    ensures !Before(Version(0, 3, 7, Post(1)), GasTableAddedIn)
  {
  }

  /** Files older than 0.3.6 name the operational speed "speed". */
  const SpeedRenamedIn := Version(0, 3, 6, Final)
  /** Files older than 0.3.7 keep gas compositions as top-level keys. */
  const GasTableAddedIn := Version(0, 3, 7, Final)

  /** The values a JSON or TOML session file holds. */
  datatype Value = Str(s: string) | Num(x: real) | Null | Table(entries: seq<(string, Value)>)

  /** The dictionary of a JSON session file; `convert` changes it in place. */
  class SessionDict {
    var entries: Dict<string, Value>

    constructor (entries: Dict<string, Value>)
      ensures this.entries == entries
    {
      this.entries := entries;
    }
  }

  /** What `convert` is given: a TOML file (by its parsed top-level table) or the
      dictionary of a JSON file. */
  datatype Input = TomlText(file: Dict<string, Value>) | Mapping(dict: SessionDict)

  // ---------------------------------------------------------------------------
  // Before 0.3.6: "speed" becomes "speed_operational"

  const Speed := "speed"
  const SpeedOperational := "speed_operational"

  function RenamedKey(k: string, from: string, to: string): string
  {
    if k == from then to else k
  }

  /** The new table: every entry of the file in order under its renamed key. */
  function Renamed(file: Dict<string, Value>, from: string, to: string): Dict<string, Value>
  {
    if file == [] then []
    else
      var n := |file| - 1;
      Set(Renamed(file[..n], from, to), RenamedKey(file[n].0, from, to), file[n].1)
  }

  /** The loop that builds `new_file`. */
  method RenameSpeed(file: Dict<string, Value>) returns (newFile: Dict<string, Value>)
    ensures newFile == Renamed(file, Speed, SpeedOperational)
  {
    newFile := [];
    for i := 0 to |file|
      invariant newFile == Renamed(file[..i], Speed, SpeedOperational)
    {
      assert file[..i + 1][..i] == file[..i];
      newFile := Set(newFile, RenamedKey(file[i].0, Speed, SpeedOperational), file[i].1);
    }
    assert file[..|file|] == file;
  }

  /** In a file without a key `to` (for `convert`, "speed_operational"), the value
      of `from` ("speed") moves to `to`, `from` disappears, and every other key
      keeps its value. */
  lemma {:induction false} RenamedGet(file: Dict<string, Value>, from: string, to: string, k: string)
    requires from != to && UniqueKeys(file) && to !in Keys(file)
    ensures Get(Renamed(file, from, to), k) ==
      if k == from then None
      else if k == to then Get(file, from)
      else Get(file, k)
  {
    if file != [] {
      var n := |file| - 1;
      var init, last := file[..n], file[n];
      assert file == init + [last];
      assert UniqueKeys(init) && to !in Keys(init) && Get(init, last.0) == None && last.0 != to by {
        assert forall j :: 0 <= j < n ==> init[j] == file[j];
        assert Keys(file)[n] == last.0;
        GetKeys(init, last.0);
      }
      GetSet(Renamed(init, from, to), RenamedKey(last.0, from, to), last.1, k);
      if k == to {
        RenamedGet(init, from, to, to);
        GetSnoc(init, last, from);
      } else {
        RenamedGet(init, from, to, k);
        GetSnoc(init, last, k);
      }
    }
  }

  // ---------------------------------------------------------------------------
  // Before 0.3.7: the gas list

  const GasPrefix := "gas"
  /** The key the new table is stored under. */
  const GasTable := GasPrefix + "_" + "compositions" + "_table"

  /** The key "gas_<n>_<field>" of item `field` of gas `n`. */
  function ItemKey(n: string, field: string): string
  {
    GasPrefix + "_" + n + ("_" + field)
  }

  predicate IsDigit(ch: char)
  {
    '0' <= ch <= '9'
  }

  predicate AllDigits(s: string)
  {
    s == [] || (AllDigits(s[..|s| - 1]) && IsDigit(s[|s| - 1]))
  }

  /** The value of a text of decimal digits. */
  function DigitsValue(s: string): nat
    requires AllDigits(s)
  {
    if s == [] then 0
    else DigitsValue(s[..|s| - 1]) * 10 + (s[|s| - 1] as int - '0' as int)
  }

  /** `int(s)` on a text: surrounding blanks, then an optional sign and at least
      one decimal digit; anything else raises `ValueError`, given as `None`. */
  function ParseInt(s: string): (r: Option<int>)
    ensures r.Some? ==> Strip(s) != []
    ensures r.Some? && r.value < 0 ==> Strip(s)[0] == '-'
  {
    var t := Strip(s);
    var signed := t != [] && (t[0] == '-' || t[0] == '+');
    var sign := if signed && t[0] == '-' then -1 else 1;
    var digits := if signed then t[1..] else t;
    if digits != [] && AllDigits(digits) then
      Some(sign * DigitsValue(digits))
    else None
  }

  /** The digits `str` writes for a natural number read back as that number. */
  lemma {:induction false} NatDigits(n: nat)
    ensures AllDigits(NatToString(n)) && DigitsValue(NatToString(n)) == n
    decreases n
  {
    var d := DigitChar(n % 10);
    if n >= 10 {
      NatDigits(n / 10);
      var t := NatToString(n);
      assert t[..|t| - 1] == NatToString(n / 10);
    } else {
      assert NatToString(n) == [d] && [d][..0] == [];
      assert AllDigits([d][..0]);
    }
  }

  /** `int(str(n)) == n`: every integer key written by `str` is read back. */
  lemma ParseIntOfString(n: int)
    ensures ParseInt(IntToString(n)) == Some(n)
  {
    var t := IntToString(n);
    var u := NatToString(if n < 0 then -n else n);
    NatDigits(if n < 0 then -n else n);
    assert !IsSpace(t[0]) && !IsSpace(t[|t| - 1]) by {
      if n < 0 { assert t[0] == '-' && t[|t| - 1] == u[|u| - 1]; }
      assert IsDigit(u[|u| - 1]);
      if n >= 0 { assert IsDigit(u[0]) by { DigitsFirst(u); } }
    }
    assert Strip(t) == t;
    if n < 0 {
      assert t[1..] == u;
    } else {
      assert u[0] != '-' && u[0] != '+' by { DigitsFirst(u); }
    }
  }

  lemma {:induction false} DigitsFirst(s: string)
    requires s != [] && AllDigits(s)
    ensures IsDigit(s[0])
  {
    if |s| > 1 {
      DigitsFirst(s[..|s| - 1]);
    }
  }

  /** What the first loop makes of a top-level key: keys not starting with "gas"
      are skipped; for the others the second "_"-separated field must exist
      (`IndexError` otherwise, which the loop does not catch) and is read as an
      integer, keys whose field is not one being skipped. */
  function GasOfKey(k: string): (r: Result<Option<string>>)
    ensures r.Fail? ==> r.exc == IndexError
    ensures r.Ok? && r.value.Some? ==> StartsWith(r.value.value, GasPrefix + "_")
  {
    if !StartsWith(k, GasPrefix) then Ok(None)
    else
      var parts := Split(k, '_');
      if |parts| < 2 then Fail(IndexError)
      else
        match ParseInt(parts[1])
        case None => Ok(None)
        case Some(n) =>
          var g := GasPrefix + "_" + IntToString(n);
          assert g[..|GasPrefix + "_"|] == GasPrefix + "_";
          Ok(Some(g))
  }

  /** The gas list of the first loop, in key order, before duplicates go. */
  function GasList(keys: seq<string>): (r: Result<seq<string>>)
    ensures r.Fail? ==> r.exc == IndexError
  {
    if keys == [] then Ok([])
    else
      var n := |keys| - 1;
      var init :- GasList(keys[..n]);
      var g :- GasOfKey(keys[n]);
      Ok(if g.Some? then init + [g.value] else init)
  }

  /** The gas list fails exactly on a key whose field is missing. */
  lemma {:induction false} GasListOk(keys: seq<string>)
    ensures GasList(keys).Ok? <==> forall i :: 0 <= i < |keys| ==> GasOfKey(keys[i]).Ok?
  {
    if keys != [] {
      var n := |keys| - 1;
      GasListOk(keys[..n]);
      assert forall i :: 0 <= i < n ==> keys[..n][i] == keys[i];
    }
  }

  /** Some element of `xs` is mapped to `y` by `f`. */
  ghost predicate Named<T, U>(xs: seq<T>, f: T -> U, y: U)
  {
    exists i :: 0 <= i < |xs| && f(xs[i]) == y
  }

  lemma NamedSnoc<T, U>(xs: seq<T>, f: T -> U, y: U)
    requires xs != []
    ensures var n := |xs| - 1;
      Named(xs, f, y) <==> Named(xs[..n], f, y) || f(xs[n]) == y
  {
    var n := |xs| - 1;
    if Named(xs, f, y) {
      var i :| 0 <= i < |xs| && f(xs[i]) == y;
      if i < n {
        assert xs[..n][i] == xs[i];
      }
    }
    if Named(xs[..n], f, y) {
      var i :| 0 <= i < n && f(xs[..n][i]) == y;
      assert xs[..n][i] == xs[i];
    }
  }

  /** Some key names gas `g`. */
  ghost predicate NamedGas(keys: seq<string>, g: string)
  {
    Named(keys, GasOfKey, Ok(Some(g)))
  }

  /** The gas list holds the gas of every key that names one, and nothing else. */
  lemma {:induction false} GasListHas(keys: seq<string>, g: string)
    requires GasList(keys).Ok?
    ensures g in GasList(keys).value <==> NamedGas(keys, g)
  {
    if keys != [] {
      var n := |keys| - 1;
      GasListHas(keys[..n], g);
      NamedSnoc(keys, GasOfKey, Ok(Some(g)));
    }
  }

  /** The first loop, stopping at the first `IndexError`. */
  method CollectGases(keys: seq<string>) returns (r: Result<seq<string>>)
    ensures r == GasList(keys)
  {
    var gases: seq<string> := [];
    for i := 0 to |keys|
      invariant GasList(keys[..i]) == Ok(gases)
    {
      assert keys[..i + 1][..i] == keys[..i];
      var g := GasOfKey(keys[i]);
      if g.Fail? {
        GasListFailFrom(keys, i);
        return Fail(g.exc);
      }
      if g.value.Some? {
        gases := gases + [g.value.value];
      }
    }
    assert keys[..|keys|] == keys;
    return Ok(gases);
  }

  lemma {:induction false} GasListFailFrom(keys: seq<string>, i: nat)
    requires i < |keys| && GasList(keys[..i]).Ok? && GasOfKey(keys[i]).Fail?
    ensures GasList(keys) == Fail(GasOfKey(keys[i]).exc)
    decreases |keys|
  {
    if i < |keys| - 1 {
      assert keys[..|keys| - 1][..i] == keys[..i];
      GasListFailFrom(keys[..|keys| - 1], i);
    } else {
      assert keys[..|keys| - 1] == keys[..i];
    }
  }

  /** A key "gas_<f>" followed by nothing or by "_..." names the gas of the
      number `f`, if `f` is one. */
  lemma GasOfField(f: string, rest: string)
    requires '_' !in f && (rest == [] || rest[0] == '_')
    ensures GasOfKey(GasPrefix + "_" + f + rest) ==
      if ParseInt(f).Some? then Ok(Some(GasPrefix + "_" + IntToString(ParseInt(f).value))) else Ok(None)
  {
    var k := GasPrefix + "_" + f + rest;
    assert k[..3] == GasPrefix;
    IndexOfIs(k, '_', 3);
    SplitAtFirst(k, '_', 3);
    assert k[4..] == f + rest;
    IndexOfIs(f + rest, '_', |f|);
    if rest == [] {
      assert f + rest == f;
    } else {
      SplitAtFirst(f + rest, '_', |f|);
      assert (f + rest)[..|f|] == f;
    }
    assert Split(k, '_')[1] == f;
  }

  /** The key of the new table is not a gas: its second field is not a number. */
  lemma TableKeyNotAGas()
    ensures GasOfKey(GasTable) == Ok(None)
  {
    GasOfField("compositions", "_table");
    assert ParseInt("compositions") == None;
  }

  /** An item key of gas 0 names gas 0. */
  lemma GasZero()
    ensures GasOfKey(ItemKey("0", "component_1")) == Ok(Some(GasPrefix + "_" + "0"))
  {
    GasOfField("0", "_" + "component_1");
    assert ParseInt("0") == Some(0) by {
      assert DigitsValue("0") == 0 by { assert "0"[..0] == ""; }
    }
    assert IntToString(0) == "0" by { assert DigitChar(0) == '0'; }
  }

  /** A key starting with "gas" that has no "_" stops the migration. */
  lemma GasWithoutField()
    ensures GasOfKey("gasflow") == Fail(IndexError)
  {
    assert StartsWith("gasflow", GasPrefix);
    assert IndexOf("gasflow", '_') == 7 by { assert '_' !in "gasflow"; }
  }

  // ---------------------------------------------------------------------------
  // The gas order: `sorted(set(gas_list))`

  /** Python's `<=` on strings: code point by code point, a prefix first. */
  predicate StringLe(a: string, b: string)
  {
    a == [] || (b != [] && (a[0] < b[0] || (a[0] == b[0] && StringLe(a[1..], b[1..]))))
  }

  lemma {:induction false} StringLeTotal(a: string, b: string)
    ensures StringLe(a, b) || StringLe(b, a)
  {
    if a != [] && b != [] && a[0] == b[0] {
      StringLeTotal(a[1..], b[1..]);
    }
  }

  lemma {:induction false} StringLeTransitive(a: string, b: string, c: string)
    requires StringLe(a, b) && StringLe(b, c)
    ensures StringLe(a, c)
  {
    if a != [] && b != [] && c != [] && a[0] == b[0] && b[0] == c[0] {
      StringLeTransitive(a[1..], b[1..], c[1..]);
    }
  }

  lemma {:induction false} StringLeAntisymmetric(a: string, b: string)
    requires StringLe(a, b) && StringLe(b, a)
    ensures a == b
  {
    if a != [] && b != [] {
      StringLeAntisymmetric(a[1..], b[1..]);
      assert a == [a[0]] + a[1..] && b == [b[0]] + b[1..];
    }
  }

  lemma StringLeOrder()
    ensures Sorting.TotalPreorder(StringLe)
    ensures Sorting.Antisymmetric(StringLe)
  {
    forall a, b ensures StringLe(a, b) || StringLe(b, a) {
      StringLeTotal(a, b);
    }
    forall a, b, c | StringLe(a, b) && StringLe(b, c) ensures StringLe(a, c) {
      StringLeTransitive(a, b, c);
    }
    forall a, b | StringLe(a, b) && StringLe(b, a) ensures a == b {
      StringLeAntisymmetric(a, b);
    }
  }

  /** The elements of `s` without repetitions, each at its first place. */
  function Dedup(s: seq<string>): (r: seq<string>)
    ensures Distinct(r)
    ensures forall x :: x in r <==> x in s
  {
    if s == [] then []
    else
      var init := Dedup(s[..|s| - 1]);
      assert forall x :: x in s <==> x in s[..|s| - 1] || x == s[|s| - 1] by {
        assert s == s[..|s| - 1] + [s[|s| - 1]];
      }
      if s[|s| - 1] in init then init else init + [s[|s| - 1]]
  }

  /** `sorted(set(gas_list))`. */
  function GasOrder(gases: seq<string>): seq<string>
  {
    Sorting.SortBy(Dedup(gases), StringLe)
  }

  /** The order holds each gas of the list exactly once, in ascending string order. */
  lemma GasOrderSpec(gases: seq<string>)
    ensures Distinct(GasOrder(gases))
    ensures Sorting.SortedBy(GasOrder(gases), StringLe)
    ensures forall g :: g in GasOrder(gases) <==> g in gases
  {
    var d := Dedup(gases);
    var r := GasOrder(gases);
    StringLeOrder();
    Sorting.SortBySorted(d, StringLe);
    Sorting.SortByPermutation(d, StringLe);
    assert forall g :: g in r <==> g in d by {
      assert forall g :: g in r <==> g in multiset(r);
      assert forall g :: g in d <==> g in multiset(d);
    }
    forall i, j | 0 <= i < j < |r| ensures r[i] != r[j] {
      if r[i] == r[j] {
        DistinctCount(d, r[i]);
        TwiceCount(r, i, j);
      }
    }
  }

  lemma {:induction false} DistinctCount(s: seq<string>, x: string)
    requires Distinct(s)
    ensures multiset(s)[x] <= 1
  {
    if s != [] {
      var n := |s| - 1;
      assert s == s[..n] + [s[n]];
      assert Distinct(s[..n]) by {
        assert forall i :: 0 <= i < n ==> s[..n][i] == s[i];
      }
      DistinctCount(s[..n], x);
      if s[n] == x {
        assert x !in s[..n] by {
          assert forall i :: 0 <= i < n ==> s[..n][i] == s[i];
        }
      }
    }
  }

  lemma TwiceCount(s: seq<string>, i: nat, j: nat)
    requires i < j < |s| && s[i] == s[j]
    ensures multiset(s)[s[i]] >= 2
  {
    assert s == s[..j] + [s[j]] + s[j + 1..];
    assert s[i] in s[..j];
  }

  // ---------------------------------------------------------------------------
  // Before 0.3.7: moving the gas entries into the table

  const Component := "component"
  const MolarFraction := "molar_fraction"

  /** `k.split("_")[-1]`. */
  function LastField(k: string): string
  {
    var parts := Split(k, '_');
    parts[|parts| - 1]
  }

  /** The key an item of the old file gets in the table of `gas`, if that gas claims
      it: the item's key starts with the gas's name and contains "component"
      (checked first) or "molar_fraction"; the new key keeps the last field. */
  function TableKey(k: string, gas: string): Option<string>
  {
    if StartsWith(k, gas) && Contains(k, Component) then Some(Component + "_" + LastField(k))
    else if StartsWith(k, gas) && Contains(k, MolarFraction) then Some(MolarFraction + "_" + LastField(k))
    else None
  }

  predicate Claims(gas: string, k: string)
  {
    TableKey(k, gas).Some?
  }

  /** The state of the inner loop: the file, the entries of the gas's table, and
      the exception that stopped the loop, if any. */
  datatype Moved = Moved(data: Dict<string, Value>, entries: Dict<string, Value>, error: Option<Exc>)

  /** One item of the copy: a claimed item is set in the gas's table and deleted
      from the file, which raises `KeyError` when it is no longer there. */
  function MoveItem(st: Moved, item: (string, Value), gas: string): (r: Moved)
    ensures r.error.Some? ==> r.error == st.error || r.error == Some(KeyError(item.0))
  {
    match TableKey(item.0, gas)
    case None => st
    case Some(key) =>
      var entries := Set(st.entries, key, item.1);
      if item.0 in Keys(st.data) then Moved(Remove(st.data, item.0), entries, None)
      else Moved(st.data, entries, Some(KeyError(item.0)))
  }

  /** The inner loop over the items of the copy, for one gas. */
  function MoveEntries(data: Dict<string, Value>, items: Dict<string, Value>, gas: string): (r: Moved)
    ensures r.error.Some? ==> r.error.value.KeyError?
  {
    if items == [] then Moved(data, [], None)
    else
      var n := |items| - 1;
      var prev := MoveEntries(data, items[..n], gas);
      if prev.error.Some? then prev else MoveItem(prev, items[n], gas)
  }

  /** The entries the table of `gas` receives from `items`: every claimed item
      under its table key, a later item overriding an earlier one. */
  function Collected(items: Dict<string, Value>, gas: string): Dict<string, Value>
  {
    if items == [] then []
    else
      var n := |items| - 1;
      var init := Collected(items[..n], gas);
      match TableKey(items[n].0, gas)
      case None => init
      case Some(key) => Set(init, key, items[n].1)
  }

  /** A completed inner loop has filled the table with the collected entries. */
  lemma {:induction false} MoveEntriesCollected(data: Dict<string, Value>, items: Dict<string, Value>, gas: string)
    requires MoveEntries(data, items, gas).error.None?
    ensures MoveEntries(data, items, gas).entries == Collected(items, gas)
  {
    if items != [] {
      MoveEntriesCollected(data, items[..|items| - 1], gas);
    }
  }

  /** A completed inner loop has deleted exactly the claimed keys of the items. */
  lemma {:induction false} MoveEntriesGet(data: Dict<string, Value>, items: Dict<string, Value>, gas: string, k: string)
    requires UniqueKeys(data) && MoveEntries(data, items, gas).error.None?
    ensures UniqueKeys(MoveEntries(data, items, gas).data)
    ensures Get(MoveEntries(data, items, gas).data, k) ==
      if Claims(gas, k) && k in Keys(items) then None else Get(data, k)
  {
    if items != [] {
      var n := |items| - 1;
      var init := items[..n];
      var prev := MoveEntries(data, init, gas);
      MoveEntriesGet(data, init, gas, k);
      KeysSnoc(items);
      MoveItemGet(prev, items[n], gas, k);
    }
  }

  /** One step of the inner loop deletes the item's key when the table claims it. */
  lemma MoveItemGet(st: Moved, item: (string, Value), gas: string, k: string)
    requires UniqueKeys(st.data) && MoveItem(st, item, gas).error.None?
    ensures UniqueKeys(MoveItem(st, item, gas).data)
    ensures Get(MoveItem(st, item, gas).data, k) ==
      if Claims(gas, item.0) && k == item.0 then None else Get(st.data, k)
  {
    if Claims(gas, item.0) {
      GetRemove(st.data, item.0, k);
    }
  }

  /** Every claimed item is still in `data`. */
  predicate AllPresent(data: Dict<string, Value>, items: Dict<string, Value>, gas: string)
  {
    forall i :: 0 <= i < |items| && Claims(gas, items[i].0) ==> items[i].0 in Keys(data)
  }

  /** On distinct keys, the inner loop raises exactly when some claimed item is no
      longer in the file. */
  lemma {:induction false} MoveEntriesOk(data: Dict<string, Value>, items: Dict<string, Value>, gas: string)
    requires UniqueKeys(data) && UniqueKeys(items)
    ensures MoveEntries(data, items, gas).error.None? <==> AllPresent(data, items, gas)
  {
    if items != [] {
      var n := |items| - 1;
      var init := items[..n];
      var k := items[n].0;
      assert UniqueKeys(init) && k !in Keys(init) by {
        assert forall j :: 0 <= j < n ==> init[j] == items[j] && Keys(init)[j] == items[j].0;
      }
      MoveEntriesOk(data, init, gas);
      AllPresentSnoc(data, items, gas);
      var prev := MoveEntries(data, init, gas);
      if prev.error.None? {
        assert k in Keys(prev.data) <==> k in Keys(data) by {
          MoveEntriesGet(data, init, gas, k);
          GetKeys(prev.data, k);
          GetKeys(data, k);
        }
      }
    }
  }

  lemma AllPresentSnoc(data: Dict<string, Value>, items: Dict<string, Value>, gas: string)
    requires items != []
    ensures var n := |items| - 1;
      AllPresent(data, items, gas) <==>
      AllPresent(data, items[..n], gas) && (Claims(gas, items[n].0) ==> items[n].0 in Keys(data))
  {
    var n := |items| - 1;
    assert forall j :: 0 <= j < n ==> items[..n][j] == items[j];
  }

  /** An exception in the inner loop ends it. */
  lemma {:induction false} MoveEntriesFailFrom(data: Dict<string, Value>, items: Dict<string, Value>, gas: string, j: nat)
    requires j < |items| && MoveEntries(data, items[..j + 1], gas).error.Some?
    ensures MoveEntries(data, items, gas) == MoveEntries(data, items[..j + 1], gas)
    decreases |items|
  {
    if j + 1 < |items| {
      var n := |items| - 1;
      assert items[..n][..j + 1] == items[..j + 1];
      MoveEntriesFailFrom(data, items[..n], gas, j);
    } else {
      assert items[..j + 1] == items;
    }
  }

  /** The state of the outer loop: the file, the new table, and the exception that
      stopped the loop, if any. */
  datatype Migration = Migration(data: Dict<string, Value>, table: Dict<string, Dict<string, Value>>, error: Option<Exc>)

  /** The outer loop over the gases; `copy` is the file as it was before. */
  function MoveGases(data: Dict<string, Value>, copy: Dict<string, Value>, gases: seq<string>): (r: Migration)
    ensures r.error.Some? ==> r.error.value.KeyError?
  {
    if gases == [] then Migration(data, [], None)
    else
      var n := |gases| - 1;
      var prev := MoveGases(data, copy, gases[..n]);
      if prev.error.Some? then prev
      else
        var m := MoveEntries(prev.data, copy, gases[n]);
        Migration(m.data, Set(prev.table, gases[n], m.entries), m.error)
  }

  /** Some gas of the list claims `k`. */
  function AnyClaims(gases: seq<string>, k: string): bool
  {
    gases != [] && (AnyClaims(gases[..|gases| - 1], k) || Claims(gases[|gases| - 1], k))
  }

  /** No key is claimed by two gases of the list. */
  predicate ClashFree(keys: seq<string>, gases: seq<string>)
  {
    forall i, b :: 0 <= i < |keys| && 0 <= b < |gases| && Claims(gases[b], keys[i]) ==> !AnyClaims(gases[..b], keys[i])
  }

  lemma ClashFreeSnoc(keys: seq<string>, gases: seq<string>)
    requires gases != []
    ensures var n := |gases| - 1;
      ClashFree(keys, gases) <==>
      ClashFree(keys, gases[..n]) && forall i :: 0 <= i < |keys| && Claims(gases[n], keys[i]) ==> !AnyClaims(gases[..n], keys[i])
  {
    var n := |gases| - 1;
    assert forall b :: 0 <= b < n ==> gases[..n][b] == gases[b] && gases[..n][..b] == gases[..b];
  }

  /** With the file itself as the copy, a completed outer loop has deleted exactly
      the keys some gas claims. */
  lemma {:induction false} MoveGasesGet(data: Dict<string, Value>, gases: seq<string>, k: string)
    requires UniqueKeys(data) && MoveGases(data, data, gases).error.None?
    ensures UniqueKeys(MoveGases(data, data, gases).data)
    ensures Get(MoveGases(data, data, gases).data, k) == if AnyClaims(gases, k) then None else Get(data, k)
  {
    if gases != [] {
      var n := |gases| - 1;
      var prev := MoveGases(data, data, gases[..n]);
      MoveGasesGet(data, gases[..n], k);
      MoveEntriesGet(prev.data, data, gases[n], k);
      if Claims(gases[n], k) && k !in Keys(data) {
        GetKeys(data, k);
      }
    }
  }

  /** With the file itself as the copy, the outer loop raises exactly when a key is
      claimed by two gases: the first deletes it and the second finds it gone. */
  lemma {:induction false} MoveGasesOk(data: Dict<string, Value>, gases: seq<string>)
    requires UniqueKeys(data)
    ensures MoveGases(data, data, gases).error.None? <==> ClashFree(Keys(data), gases)
  {
    if gases != [] {
      var n := |gases| - 1;
      var prev := MoveGases(data, data, gases[..n]);
      MoveGasesOk(data, gases[..n]);
      ClashFreeSnoc(Keys(data), gases);
      if prev.error.None? {
        MoveGasesGet(data, gases[..n], "");
        MoveEntriesOk(prev.data, data, gases[n]);
        forall i | 0 <= i < |data| && Claims(gases[n], data[i].0)
          ensures data[i].0 in Keys(prev.data) <==> !AnyClaims(gases[..n], data[i].0)
        {
          MoveGasesGet(data, gases[..n], data[i].0);
          GetKeys(prev.data, data[i].0);
          GetAt(data, i);
        }
      }
    }
  }

  predicate Distinct(s: seq<string>)
  {
    forall i, j :: 0 <= i < j < |s| ==> s[i] != s[j]
  }

  /** On distinct gases, a completed outer loop has one table per gas, in order,
      holding the entries the gas collects from the file as it was. */
  lemma {:induction false} MoveGasesTable(data: Dict<string, Value>, gases: seq<string>)
    requires Distinct(gases) && MoveGases(data, data, gases).error.None?
    ensures var t := MoveGases(data, data, gases).table;
      |t| == |gases| && forall a :: 0 <= a < |gases| ==> t[a] == (gases[a], Collected(data, gases[a]))
  {
    if gases != [] {
      var n := |gases| - 1;
      var prev := MoveGases(data, data, gases[..n]);
      assert Distinct(gases[..n]) by {
        assert forall a :: 0 <= a < n ==> gases[..n][a] == gases[a];
      }
      MoveGasesTable(data, gases[..n]);
      var m := MoveEntries(prev.data, data, gases[n]);
      MoveEntriesCollected(prev.data, data, gases[n]);
      assert forall a :: 0 <= a < n ==> prev.table[a].0 == gases[a] != gases[n];
      SetNew(prev.table, gases[n], m.entries);
      var t := MoveGases(data, data, gases).table;
      assert t == prev.table + [(gases[n], Collected(data, gases[n]))];
      forall a | 0 <= a < |gases|
        ensures t[a] == (gases[a], Collected(data, gases[a]))
      {
        if a < n {
          assert t[a] == prev.table[a];
        }
      }
    }
  }

  /** An exception in the outer loop ends it. */
  lemma {:induction false} MoveGasesFailFrom(data: Dict<string, Value>, copy: Dict<string, Value>, gases: seq<string>, a: nat)
    requires a < |gases| && MoveGases(data, copy, gases[..a + 1]).error.Some?
    ensures MoveGases(data, copy, gases) == MoveGases(data, copy, gases[..a + 1])
    decreases |gases|
  {
    if a + 1 < |gases| {
      var n := |gases| - 1;
      assert gases[..n][..a + 1] == gases[..a + 1];
      MoveGasesFailFrom(data, copy, gases[..n], a);
    } else {
      assert gases[..a + 1] == gases;
    }
  }

  // ---------------------------------------------------------------------------
  // Before 0.3.7: the whole step

  /** `all(filled)`: every gas found something. True when there is no gas. */
  predicate Filled(table: Dict<string, Dict<string, Value>>)
  {
    forall a :: 0 <= a < |table| ==> table[a].1 != []
  }

  /** The new table as a value of the file. */
  function TableValue(table: Dict<string, Dict<string, Value>>): Value
  {
    Table(seq(|table|, a requires 0 <= a < |table| => (table[a].0, Table(table[a].1))))
  }

  lemma TableValueEmpty()
    ensures TableValue([]) == Table([])
  {
    assert |TableValue([]).entries| == 0;
  }

  /** The second step of `convert` on a dictionary: the file afterwards (changed in
      place, so partly changed when an exception stops the step) and the exception,
      if any. */
  function Migrate(data: Dict<string, Value>): (r: (Dict<string, Value>, Option<Exc>))
    ensures r.1.Some? ==> r.1.value == IndexError || r.1.value.KeyError?
    ensures r.1 == Some(IndexError) ==> r.0 == data
  {
    var gases := GasList(Keys(data));
    if gases.Fail? then (data, Some(gases.exc))
    else
      var m := MoveGases(data, data, GasOrder(gases.value));
      if m.error.Some? then (m.data, m.error)
      else if Filled(m.table) then (Set(m.data, GasTable, TableValue(m.table)), None)
      else (m.data, None)
  }

  /** The inner loop of the second step for one gas: each claimed item of the copy
      goes into the gas's table and out of the file. */
  method MoveGasItems(data: SessionDict, copy: Dict<string, Value>, gas: string)
    returns (entries: Dict<string, Value>, error: Option<Exc>)
    modifies data
    ensures MoveEntries(old(data.entries), copy, gas) == Moved(data.entries, entries, error)
  {
    entries := [];
    for i := 0 to |copy|
      invariant MoveEntries(old(data.entries), copy[..i], gas) == Moved(data.entries, entries, None)
    {
      assert copy[..i + 1][..i] == copy[..i];
      var key := TableKey(copy[i].0, gas);
      if key.Some? {
        entries := Set(entries, key.value, copy[i].1);
        if copy[i].0 !in Keys(data.entries) {
          MoveEntriesFailFrom(old(data.entries), copy, gas, i);
          return entries, Some(KeyError(copy[i].0));
        }
        data.entries := Remove(data.entries, copy[i].0);
      }
    }
    assert copy[..|copy|] == copy;
    error := None;
  }

  /** The second step as the source runs it: collect the gases, then for each gas
      in order move its items from the file into its table, then attach the table
      if every gas found something. */
  method MigrateGases(data: SessionDict) returns (error: Option<Exc>)
    modifies data
    ensures (data.entries, error) == Migrate(old(data.entries))
  {
    var gases := CollectGases(Keys(data.entries));
    if gases.Fail? {
      return Some(gases.exc);
    }
    var order := GasOrder(gases.value);
    var table, e := MoveGasTables(data, order);
    if e.Some? {
      return e;
    }
    if Filled(table) {
      data.entries := Set(data.entries, GasTable, TableValue(table));
    }
    return None;
  }

  /** The outer loop of the second step: the gases in order, each moving its
      items from the file into its table, until one raises. */
  method MoveGasTables(data: SessionDict, order: seq<string>)
    returns (table: Dict<string, Dict<string, Value>>, error: Option<Exc>)
    modifies data
    ensures MoveGases(old(data.entries), old(data.entries), order) == Migration(data.entries, table, error)
  {
    var copy := data.entries;
    table := [];
    for a := 0 to |order|
      invariant MoveGases(copy, copy, order[..a]) == Migration(data.entries, table, None)
    {
      assert order[..a + 1][..a] == order[..a];
      var entries, e := MoveGasItems(data, copy, order[a]);
      if e.Some? {
        MoveGasesFailFrom(copy, copy, order, a);
        return Set(table, order[a], entries), e;
      }
      table := Set(table, order[a], entries);
    }
    assert order[..|order|] == order;
    error := None;
  }

  /** A text contains each of its middle pieces. */
  lemma {:induction false} ContainsMiddle(a: string, sub: string, b: string)
    ensures Contains(a + sub + b, sub)
  {
    if a == [] {
      assert (a + sub + b)[..|sub|] == sub;
    } else {
      assert (a + sub + b)[1..] == a[1..] + sub + b;
      ContainsMiddle(a[1..], sub, b);
    }
  }

  // ---------------------------------------------------------------------------
  // `convert`

  /** `convert(data, version)`. The version text is parsed first (`parse` stands
      for `packaging.version.Version`; a text it refuses raises InvalidVersion and
      nothing changes). A TOML file older than 0.3.6 is rebuilt with "speed"
      renamed; a dictionary older than 0.3.7, a pre-release of 0.3.7 included,
      goes through the second step, in place, and is returned itself; anything
      else is returned as it came. */
  method Convert(data: Input, text: string, parse: string -> Option<Version>) returns (r: Result<Input>)
    modifies if data.Mapping? then {data.dict} else {}
    ensures parse(text).None? ==> r == Fail(InvalidVersion(text)) && (data.Mapping? ==> data.dict.entries == old(data.dict.entries))
    ensures parse(text).Some? && data.TomlText? ==>
      r == Ok(if Before(parse(text).value, SpeedRenamedIn) then TomlText(Renamed(data.file, Speed, SpeedOperational)) else data)
    ensures parse(text).Some? && data.Mapping? && !Before(parse(text).value, GasTableAddedIn) ==>
      r == Ok(data) && data.dict.entries == old(data.dict.entries)
    ensures parse(text).Some? && data.Mapping? && Before(parse(text).value, GasTableAddedIn) ==>
      var m := Migrate(old(data.dict.entries));
      data.dict.entries == m.0 && r == if m.1.Some? then Fail(m.1.value) else Ok(data)
  {
    var parsed := parse(text);
    if parsed.None? {
      return Fail(InvalidVersion(text));
    }
    var version := parsed.value;
    var d := data;
    if Before(version, SpeedRenamedIn) && d.TomlText? {
      var newFile := RenameSpeed(d.file);
      d := TomlText(newFile);
    }
    if Before(version, GasTableAddedIn) && d.Mapping? {
      var e := MigrateGases(d.dict);
      if e.Some? {
        return Fail(e.value);
      }
    }
    return Ok(d);
  }

  /** On a file with distinct keys whose gas keys all have a second field, the
      second step succeeds exactly when no key is claimed by two gases. */
  lemma MigrateOk(data: Dict<string, Value>)
    requires UniqueKeys(data) && GasList(Keys(data)).Ok?
    ensures Migrate(data).1.None? <==> ClashFree(Keys(data), GasOrder(GasList(Keys(data)).value))
  {
    MoveGasesOk(data, GasOrder(GasList(Keys(data)).value));
  }

  /** After a successful second step, the keys some gas claims are gone and every
      other key (the table's aside) keeps its value. */
  lemma MigrateGet(data: Dict<string, Value>, k: string)
    requires UniqueKeys(data) && Migrate(data).1.None? && k != GasTable
    ensures Get(Migrate(data).0, k) == if AnyClaims(GasOrder(GasList(Keys(data)).value), k) then None else Get(data, k)
  {
    var order := GasOrder(GasList(Keys(data)).value);
    var m := MoveGases(data, data, order);
    MoveGasesGet(data, order, k);
    if Filled(m.table) {
      GetSet(m.data, GasTable, TableValue(m.table), k);
    }
  }

  /** After a successful second step on a file without a table, the table holds
      one entry per gas in ascending order with what the gas collected, and is
      attached exactly when every gas collected something. */
  lemma MigrateTable(data: Dict<string, Value>)
    requires UniqueKeys(data) && Migrate(data).1.None? && GasTable !in Keys(data)
    ensures var order := GasOrder(GasList(Keys(data)).value);
      var tables := seq(|order|, a requires 0 <= a < |order| => (order[a], Collected(data, order[a])));
      Get(Migrate(data).0, GasTable) == if Filled(tables) then Some(TableValue(tables)) else None
  {
    var order := GasOrder(GasList(Keys(data)).value);
    var tables := seq(|order|, a requires 0 <= a < |order| => (order[a], Collected(data, order[a])));
    var m := MoveGases(data, data, order);
    GasOrderSpec(GasList(Keys(data)).value);
    MoveGasesTable(data, order);
    assert m.table == tables;
    MoveGasesGet(data, order, GasTable);
    GetKeys(data, GasTable);
    if Filled(m.table) {
      GetSet(m.data, GasTable, TableValue(m.table), GasTable);
    }
  }

  /** Keys none of which starts with "gas" name no gas. */
  lemma {:induction false} NoGasKeys(keys: seq<string>)
    requires forall i :: 0 <= i < |keys| ==> !StartsWith(keys[i], GasPrefix)
    ensures GasList(keys) == Ok([])
  {
    if keys != [] {
      var n := |keys| - 1;
      assert forall i :: 0 <= i < n ==> keys[..n][i] == keys[i];
      NoGasKeys(keys[..n]);
    }
  }

  /** A file with no key starting with "gas" gets an empty table: every gas of
      none found something. */
  lemma NoGasEmptyTable(data: Dict<string, Value>)
    requires forall i :: 0 <= i < |data| ==> !StartsWith(data[i].0, GasPrefix)
    ensures Migrate(data) == (Set(data, GasTable, Table([])), None)
  {
    assert forall i :: 0 <= i < |data| ==> Keys(data)[i] == data[i].0;
    NoGasKeys(Keys(data));
    NoGasMigrate(data);
  }

  lemma NoGasMigrate(data: Dict<string, Value>)
    requires GasList(Keys(data)) == Ok([])
    ensures Migrate(data) == (Set(data, GasTable, Table([])), None)
  {
    assert GasOrder([]) == [];
    TableValueEmpty();
  }

  /** A text sorts before its extensions. */
  lemma {:induction false} StringLePrefix(a: string, rest: string)
    ensures StringLe(a, a + rest)
  {
    if a != [] {
      assert (a + rest)[1..] == a[1..] + rest;
      StringLePrefix(a[1..], rest);
    }
  }

  /** An item key of gas 1 names gas 1. */
  lemma GasOne(field: string)
    ensures GasOfKey(ItemKey("1", field)) == Ok(Some(GasPrefix + "_" + "1"))
  {
    assert IntToString(1) == "1";
    assert ParseInt("1") == Some(1) by {
      assert DigitsValue("1") == 1 by { assert "1"[..0] == ""; }
    }
    GasOfField("1", "_" + field);
  }

  /** An item key of gas 10 names gas 10. */
  lemma GasTen(field: string)
    ensures GasOfKey(ItemKey("10", field)) == Ok(Some(GasPrefix + "_" + "10"))
  {
    TenDigits();
    GasOfField("10", "_" + field);
  }

  lemma TenDigits()
    ensures ParseInt("10") == Some(10) && IntToString(10) == "10"
  {
    assert IntToString(10) == "10" by {
      assert NatToString(10) == NatToString(1) + [DigitChar(0)];
    }
    assert DigitsValue("10") == 10 by {
      assert "10"[..1] == "1" && "1"[..0] == "";
    }
  }

  /** The two item keys of the clash example name gases 1 and 10. */
  lemma ClashGases(field: string)
    ensures GasList([ItemKey("1", field), ItemKey("10", field)]) == Ok([GasPrefix + "_" + "1", GasPrefix + "_" + "10"])
  {
    var k1, k2 := ItemKey("1", field), ItemKey("10", field);
    var g1, g10 := GasPrefix + "_" + "1", GasPrefix + "_" + "10";
    GasOne(field);
    GasTen(field);
    assert GasList([k1]) == Ok([g1]) by {
      assert [k1][..0] == [];
      assert [] + [g1] == [g1];
    }
    assert [k1, k2][..1] == [k1] && [k1, k2][1] == k2;
    assert [g1] + [g10] == [g1, g10];
  }

  /** Gas 1 sorts before gas 10 and both claim the component key of gas 10. */
  lemma ClashClaims()
    ensures var g1, g10 := GasPrefix + "_" + "1", GasPrefix + "_" + "10";
      GasOrder([g1, g10]) == [g1, g10] && Claims(g1, ItemKey("10", Component + "_0")) && Claims(g10, ItemKey("10", Component + "_0"))
  {
    var g1, g10 := GasPrefix + "_" + "1", GasPrefix + "_" + "10";
    assert g1 != g10 by { assert |g1| != |g10|; }
    assert Dedup([g1]) == [g1] by { assert [g1][..0] == []; }
    assert Dedup([g1, g10]) == [g1, g10] by { assert [g1, g10][..1] == [g1]; }
    assert g10 == g1 + "0";
    StringLePrefix(g1, "0");
    var k := ItemKey("10", Component + "_0");
    assert k == g10 + "_" + Component + "_0";
    ContainsMiddle(g10 + "_", Component, "_0");
    assert StartsWith(k, g10) by { assert k[..|g10|] == g10; }
    assert StartsWith(k, g1) by { assert k[..|g1|] == g1; }
    assert GasOrder([g1, g10]) == [g1, g10] by {
      assert Sorting.SortBy([g10], StringLe) == [g10] by { assert [g10][1..] == []; }
      assert Sorting.Insert(g1, [g10], StringLe) == [g1, g10];
      assert [g1, g10][1..] == [g10];
    }
  }

  /** With ten gases or more, "gas_1" is a prefix of "gas_10": the item of gas 10
      is moved by gas 1 first and then found missing by gas 10. */
  lemma PrefixClash()
    ensures Migrate([(ItemKey("1", Component + "_0"), Str("methane")), (ItemKey("10", Component + "_0"), Str("nitrogen"))]).1.Some?
  {
    var k1, k2 := ItemKey("1", Component + "_0"), ItemKey("10", Component + "_0");
    var data := [(k1, Str("methane")), (k2, Str("nitrogen"))];
    var gases := [GasPrefix + "_" + "1", GasPrefix + "_" + "10"];
    assert Keys(data) == [k1, k2];
    assert GasList(Keys(data)) == Ok(gases) by {
      ClashGases(Component + "_0");
    }
    assert !ClashFree(Keys(data), GasOrder(gases)) by {
      ClashClaims();
      assert AnyClaims(gases[..1], k2) by { assert gases[..1][..0] == []; }
      assert Keys(data)[1] == k2;
    }
    assert UniqueKeys(data) by {
      assert k1[5] != k2[5];
    }
    MigrateOk(data);
  }

  // ---------------------------------------------------------------------------
  // `get_gas_composition`

  const Name := "name"

  /** `float(v)`; `parse` is Python's `float` on a text, `None` where it raises. */
  function ToFloat(v: Value, parse: string -> Option<real>): (r: Result<real>)
    ensures v.Num? ==> r == Ok(v.x)
    ensures v.Null? || v.Table? ==> r.Fail? && r.exc.TypeError?
  {
    match v
    case Num(x) => Ok(x)
    case Str(s) => if parse(s).Some? then Ok(parse(s).value) else Fail(ValueError("could not convert string to float"))
    case Null => Fail(TypeError("float() argument must be a string or a real number"))
    case Table(_) => Fail(TypeError("float() argument must be a string or a real number"))
  }

  /** A molar fraction: the empty text counts as zero. */
  function Fraction(v: Value, parse: string -> Option<real>): (r: Result<real>)
    ensures v == Str("") ==> r == Ok(0.0)
    ensures v != Str("") ==> r == ToFloat(v, parse)
  {
    if v == Str("") then Ok(0.0) else ToFloat(v, parse)
  }

  /** What a column of a gas contributes: nothing unless its name contains
      "component"; otherwise its index is the second "_" field (`IndexError`
      without one), the component and the fraction are the columns
      "component_<index>" and "molar_fraction_<index>" (`KeyError` when
      missing), a zero fraction contributes nothing, and a component that is a
      table cannot be a key (`TypeError`). */
  function Pairing(columns: Dict<string, Value>, column: string, parse: string -> Option<real>): (r: Result<Option<(Value, real)>>)
    ensures r.Ok? && r.value.Some? ==> r.value.value.1 != 0.0
    ensures !Contains(column, Component) ==> r == Ok(None)
  {
    if !Contains(column, Component) then Ok(None)
    else
      var parts := Split(column, '_');
      if |parts| < 2 then Fail(IndexError)
      else
        var c := Component + "_" + parts[1];
        var f := MolarFraction + "_" + parts[1];
        match Get(columns, c)
        case None => Fail(KeyError(c))
        case Some(component) =>
          match Get(columns, f)
          case None => Fail(KeyError(f))
          case Some(v) =>
            var x :- Fraction(v, parse);
            if x == 0.0 then Ok(None)
            else if component.Table? then Fail(TypeError("unhashable type: 'dict'"))
            else Ok(Some((component, x)))
  }

  /** The inner loop over the columns `cols` of one gas, adding to `acc`. */
  function GasColumns(acc: Dict<Value, real>, columns: Dict<string, Value>, cols: seq<string>,
                      parse: string -> Option<real>): Result<Dict<Value, real>>
  {
    if cols == [] then Ok(acc)
    else
      var n := |cols| - 1;
      var prev :- GasColumns(acc, columns, cols[..n], parse);
      var p :- Pairing(columns, cols[n], parse);
      Ok(if p.Some? then Set(prev, p.value.0, p.value.1) else prev)
  }

  /** Whether a gas's "name" column is the name asked for (`KeyError` without one). */
  function NameMatches(columns: Dict<string, Value>, gasName: string): (r: Result<bool>)
    ensures r.Ok? <==> Get(columns, Name).Some?
    ensures r.Fail? ==> r.exc == KeyError(Name)
  {
    match Get(columns, Name)
    case None => Fail(KeyError(Name))
    case Some(name) => Ok(name == Str(gasName))
  }

  /** `get_gas_composition(gas_name, gas_compositions_table, ...)`: the gases in
      table order; a gas of that name adds the pairs of its columns. */
  function Composition(table: Dict<string, Dict<string, Value>>, gasName: string,
                       parse: string -> Option<real>): (r: Result<Dict<Value, real>>)
    ensures table == [] ==> r == Ok([])
    ensures r.Ok? ==> forall i :: 0 <= i < |table| ==> Get(table[i].1, Name).Some?
  {
    if table == [] then Ok([])
    else
      var n := |table| - 1;
      var prev :- Composition(table[..n], gasName, parse);
      var matches :- NameMatches(table[n].1, gasName);
      if matches then GasColumns(prev, table[n].1, Keys(table[n].1), parse) else Ok(prev)
  }

  /** The inner loop as the source runs it. */
  method AddGasColumns(acc: Dict<Value, real>, columns: Dict<string, Value>, parse: string -> Option<real>)
    returns (r: Result<Dict<Value, real>>)
    ensures r == GasColumns(acc, columns, Keys(columns), parse)
  {
    var composition := acc;
    var cols := Keys(columns);
    for j := 0 to |cols|
      invariant GasColumns(acc, columns, cols[..j], parse) == Ok(composition)
    {
      assert cols[..j + 1][..j] == cols[..j];
      var p := Pairing(columns, cols[j], parse);
      if p.Fail? {
        GasColumnsFailFrom(acc, columns, cols, parse, j);
        return Fail(p.exc);
      }
      if p.value.Some? {
        composition := Set(composition, p.value.value.0, p.value.value.1);
      }
    }
    assert cols[..|cols|] == cols;
    return Ok(composition);
  }

  /** The outer loop as the source runs it. */
  method GetGasComposition(gasName: string, table: Dict<string, Dict<string, Value>>, parse: string -> Option<real>)
    returns (r: Result<Dict<Value, real>>)
    ensures r == Composition(table, gasName, parse)
  {
    var composition: Dict<Value, real> := [];
    for a := 0 to |table|
      invariant Composition(table[..a], gasName, parse) == Ok(composition)
    {
      assert table[..a + 1][..a] == table[..a];
      var matches := NameMatches(table[a].1, gasName);
      if matches.Fail? {
        CompositionFailFrom(table, gasName, parse, a);
        return Fail(matches.exc);
      }
      if matches.value {
        var next := AddGasColumns(composition, table[a].1, parse);
        if next.Fail? {
          CompositionFailFrom(table, gasName, parse, a);
          return next;
        }
        composition := next.value;
      }
    }
    assert table[..|table|] == table;
    return Ok(composition);
  }

  lemma {:induction false} GasColumnsFailFrom(acc: Dict<Value, real>, columns: Dict<string, Value>, cols: seq<string>,
                                              parse: string -> Option<real>, j: nat)
    requires j < |cols| && GasColumns(acc, columns, cols[..j], parse).Ok? && Pairing(columns, cols[j], parse).Fail?
    ensures GasColumns(acc, columns, cols, parse) == Fail(Pairing(columns, cols[j], parse).exc)
    decreases |cols|
  {
    if j < |cols| - 1 {
      assert cols[..|cols| - 1][..j] == cols[..j];
      GasColumnsFailFrom(acc, columns, cols[..|cols| - 1], parse, j);
    } else {
      assert cols[..|cols| - 1] == cols[..j];
    }
  }

  lemma {:induction false} CompositionFailFrom(table: Dict<string, Dict<string, Value>>, gasName: string,
                                               parse: string -> Option<real>, a: nat)
    requires a < |table| && Composition(table[..a + 1], gasName, parse).Fail?
    ensures Composition(table, gasName, parse) == Composition(table[..a + 1], gasName, parse)
    decreases |table|
  {
    if a + 1 < |table| {
      var n := |table| - 1;
      assert table[..n][..a + 1] == table[..a + 1];
      CompositionFailFrom(table[..n], gasName, parse, a);
    } else {
      assert table[..a + 1] == table;
    }
  }

  /** Some column among `cols` pairs to the entry `e`. */
  ghost predicate FromColumns(columns: Dict<string, Value>, cols: seq<string>, parse: string -> Option<real>, e: (Value, real))
  {
    exists j :: 0 <= j < |cols| && Pairing(columns, cols[j], parse) == Ok(Some(e))
  }

  /** Some gas of the name asked for has a column that pairs to `e`. */
  ghost predicate Contributes(table: Dict<string, Dict<string, Value>>, gasName: string, parse: string -> Option<real>, e: (Value, real))
  {
    exists a :: 0 <= a < |table| && NameMatches(table[a].1, gasName) == Ok(true) &&
      FromColumns(table[a].1, Keys(table[a].1), parse, e)
  }

  /** Every entry after the inner loop was there before or comes from a column. */
  lemma {:induction false} GasColumnsFrom(acc: Dict<Value, real>, columns: Dict<string, Value>, cols: seq<string>,
                                          parse: string -> Option<real>, e: (Value, real))
    requires GasColumns(acc, columns, cols, parse).Ok? && e in GasColumns(acc, columns, cols, parse).value
    ensures e in acc || FromColumns(columns, cols, parse, e)
  {
    if cols != [] {
      var n := |cols| - 1;
      var prev := GasColumns(acc, columns, cols[..n], parse).value;
      var p := Pairing(columns, cols[n], parse).value;
      if p.Some? {
        SetEntries(prev, p.value.0, p.value.1, e);
      }
      if e in prev {
        GasColumnsFrom(acc, columns, cols[..n], parse, e);
        if FromColumns(columns, cols[..n], parse, e) {
          var j :| 0 <= j < n && Pairing(columns, cols[..n][j], parse) == Ok(Some(e));
          assert cols[..n][j] == cols[j];
        }
      } else {
        assert Pairing(columns, cols[n], parse) == Ok(Some(e));
      }
    }
  }

  /** Every entry of the composition comes from a column of a gas of that name,
      and its fraction is not zero. */
  lemma {:induction false} CompositionFrom(table: Dict<string, Dict<string, Value>>, gasName: string,
                                           parse: string -> Option<real>, e: (Value, real))
    requires Composition(table, gasName, parse).Ok? && e in Composition(table, gasName, parse).value
    ensures Contributes(table, gasName, parse, e)
    ensures e.1 != 0.0
  {
    var n := |table| - 1;
    var prev := Composition(table[..n], gasName, parse).value;
    var columns := table[n].1;
    if e in prev {
      CompositionFrom(table[..n], gasName, parse, e);
      var a :| 0 <= a < n && NameMatches(table[..n][a].1, gasName) == Ok(true) &&
        FromColumns(table[..n][a].1, Keys(table[..n][a].1), parse, e);
      assert table[..n][a] == table[a];
    } else {
      GasColumnsFrom(prev, columns, Keys(columns), parse, e);
      var j :| 0 <= j < |Keys(columns)| && Pairing(columns, Keys(columns)[j], parse) == Ok(Some(e));
      assert NameMatches(columns, gasName) == Ok(true);
    }
  }

  /** The inner loop keeps the keys it is given. */
  lemma {:induction false} GasColumnsKeeps(acc: Dict<Value, real>, columns: Dict<string, Value>, cols: seq<string>,
                                           parse: string -> Option<real>, c: Value)
    requires GasColumns(acc, columns, cols, parse).Ok? && c in Keys(acc)
    ensures c in Keys(GasColumns(acc, columns, cols, parse).value)
  {
    if cols != [] {
      var n := |cols| - 1;
      var prev := GasColumns(acc, columns, cols[..n], parse).value;
      var p := Pairing(columns, cols[n], parse).value;
      GasColumnsKeeps(acc, columns, cols[..n], parse, c);
      if p.Some? {
        SetKeys(prev, p.value.0, p.value.1);
      }
    }
  }

  /** The inner loop adds the component of each column that pairs to one. */
  lemma {:induction false} GasColumnsHas(acc: Dict<Value, real>, columns: Dict<string, Value>, cols: seq<string>,
                                         parse: string -> Option<real>, j: nat)
    requires GasColumns(acc, columns, cols, parse).Ok? && j < |cols|
    requires Pairing(columns, cols[j], parse).Ok? && Pairing(columns, cols[j], parse).value.Some?
    ensures Pairing(columns, cols[j], parse).value.value.0 in Keys(GasColumns(acc, columns, cols, parse).value)
  {
    var n := |cols| - 1;
    var prev := GasColumns(acc, columns, cols[..n], parse).value;
    var p := Pairing(columns, cols[n], parse).value;
    var c := Pairing(columns, cols[j], parse).value.value.0;
    if j < n {
      assert cols[..n][j] == cols[j];
      GasColumnsHas(acc, columns, cols[..n], parse, j);
    }
    if p.Some? {
      SetKeys(prev, p.value.0, p.value.1);
    }
  }

  /** The composition keeps the keys it has so far through later gases. */
  lemma {:induction false} CompositionKeeps(table: Dict<string, Dict<string, Value>>, gasName: string,
                                            parse: string -> Option<real>, m: nat, c: Value)
    requires m <= |table| && Composition(table, gasName, parse).Ok?
    requires Composition(table[..m], gasName, parse).Ok? && c in Keys(Composition(table[..m], gasName, parse).value)
    ensures c in Keys(Composition(table, gasName, parse).value)
    decreases |table|
  {
    if m < |table| {
      var n := |table| - 1;
      assert table[..n][..m] == table[..m];
      CompositionKeeps(table[..n], gasName, parse, m, c);
      var prev := Composition(table[..n], gasName, parse).value;
      if NameMatches(table[n].1, gasName) == Ok(true) {
        GasColumnsKeeps(prev, table[n].1, Keys(table[n].1), parse, c);
      }
    } else {
      assert table[..m] == table;
    }
  }

  /** Conversely, each column of a gas of that name that pairs to a component puts
      that component in the composition. */
  lemma CompositionHas(table: Dict<string, Dict<string, Value>>, gasName: string,
                       parse: string -> Option<real>, a: nat, j: nat)
    requires Composition(table, gasName, parse).Ok? && a < |table| && NameMatches(table[a].1, gasName) == Ok(true)
    requires j < |table[a].1| && Pairing(table[a].1, table[a].1[j].0, parse).Ok?
    requires Pairing(table[a].1, table[a].1[j].0, parse).value.Some?
    ensures Pairing(table[a].1, table[a].1[j].0, parse).value.value.0 in Keys(Composition(table, gasName, parse).value)
  {
    var c := Pairing(table[a].1, table[a].1[j].0, parse).value.value.0;
    CompositionPrefixOk(table, gasName, parse, a + 1);
    var sub := table[..a + 1];
    assert sub[..a] == table[..a] && sub[a] == table[a];
    var prev := Composition(table[..a], gasName, parse).value;
    GasColumnsHas(prev, table[a].1, Keys(table[a].1), parse, j);
    CompositionKeeps(table, gasName, parse, a + 1, c);
  }

  /** A composition that succeeds succeeded on every prefix of the table. */
  lemma {:induction false} CompositionPrefixOk(table: Dict<string, Dict<string, Value>>, gasName: string,
                                               parse: string -> Option<real>, m: nat)
    requires m <= |table| && Composition(table, gasName, parse).Ok?
    ensures Composition(table[..m], gasName, parse).Ok?
    decreases |table|
  {
    if m < |table| {
      var n := |table| - 1;
      assert table[..n][..m] == table[..m];
      CompositionPrefixOk(table[..n], gasName, parse, m);
    } else {
      assert table[..m] == table;
    }
  }

  /** No gas of that name: the composition is empty. */
  lemma {:induction false} CompositionNoMatch(table: Dict<string, Dict<string, Value>>, gasName: string,
                                              parse: string -> Option<real>)
    requires forall a :: 0 <= a < |table| ==> NameMatches(table[a].1, gasName) == Ok(false)
    ensures Composition(table, gasName, parse) == Ok([])
  {
    if table != [] {
      var n := |table| - 1;
      assert forall a :: 0 <= a < n ==> table[..n][a] == table[a];
      CompositionNoMatch(table[..n], gasName, parse);
    }
  }
}
