/** Fluid names and mixtures (ccp/config/fluids.py and its prototype
    prf2/config/fluids.py): the alias table that maps common spellings to CoolProp's
    canonical names, `get_name`, which resolves an alias and asks REFPROP for its own
    name, and `normalize_mix`, which scales molar fractions in place to sum to one.
    REFPROP's name lookup is foreign and is a function parameter. */
module Fluids {
  import opened Wrappers
  import opened Reals

  /** Canonical CoolProp name and its `possible_names`, in the order the entries are
      visited. Fluids with no aliases never match and are not listed. */
  type AliasTable = seq<(string, seq<string>)>

  /** `CP.get_REFPROPname`: REFPROP's name for a fluid, "" when it has none. */
  type RefpropName = string -> string

  /** The aliases ccp registers. */
  function CcpAliases(): AliasTable
  {
    [ ("IsoButane", ["isobutane", "i-butane", "ibutane", "isobutan", "I-BUTANE"]),
      ("n-Butane", ["butane", "n-butane", "nbutane"]),
      ("n-Pentane", ["pentane", "n-pentane", "npentane"]),
      ("Isopentane", ["isopentane", "i-pentane", "ipentane", "I-PENTANE"]),
      ("n-Hexane", ["hexane", "n-hexane", "nhexane"]),
      ("Isohexane", ["isohexane", "i-hexane"]),
      ("n-Heptane", ["heptane", "n-heptane"]),
      ("n-Octane", ["octane", "n-octane"]),
      ("n-Undecane", ["undecane", "n-undecane"]),
      ("n-Dodecane", ["dodecane", "n-dodecane"]),
      ("HydrogenSulfide", ["hydrogen sulfide", "HYDROGEN SULFIDE", "h2s"]),
      ("CarbonMonoxide", ["carbon monoxide", "CARBON MONOXIDE", "co"]),
      ("CarbonDioxide", ["carbon dioxide", "CARBON DIOXIDE"]),
      ("Nitrogen", ["N2", "n2"]),
      ("Oxygen", ["O2", "o2"]),
      ("Hydrogen", ["H2", "h2"]) ]
  }

  /** The aliases the prototype registers. */
  function Prf2Aliases(): AliasTable
  {
    [ ("IsoButane", ["isobutane", "i-butane", "ibutane"]),
      ("n-Butane", ["butane", "n-butane", "nbutane"]),
      ("n-Pentane", ["pentane", "n-pentane", "npentane"]),
      ("Isopentane", ["isopentane", "i-pentane", "ipentane"]),
      ("n-Hexane", ["hexane", "n-hexane", "nhexane"]),
      ("Isohexane", ["isohexane", "i-hexane"]),
      ("n-Heptane", ["heptane", "n-heptane"]),
      ("n-Octane", ["octane", "n-octane"]),
      ("n-Undecane", ["undecane", "n-undecane"]),
      ("n-Dodecane", ["dodecane", "n-dodecane"]),
      ("HydrogenSulfide", ["hydrogen sulfide", "h2s"]),
      ("CarbonDioxide", ["carbon dioxide"]),
      ("Nitrogen", ["N2", "n2"]) ]
  }

  /** The name after the alias loop: every entry whose aliases hold the current
      name replaces it with its canonical name. */
  function ResolveAlias(name: string, table: AliasTable): string
  {
    if table == [] then name
    else
      var n := ResolveAlias(name, table[..|table| - 1]);
      if n in table[|table| - 1].1 then table[|table| - 1].0 else n
  }

  /** The exception message; `package` is "ccp" or "prf". */
  function NotAvailable(name: string, package: string): string
  {
    "Fluid " + name + " not available. See " + package + ".fluid_list. "
  }

  /** What `get_name(name)` returns or raises. */
  function Lookup(name: string, table: AliasTable, refprop: RefpropName, package: string): (r: Result<string>)
    ensures r.Ok? <==> refprop(ResolveAlias(name, table)) != ""
    ensures r.Ok? ==> r.value == refprop(ResolveAlias(name, table))
    ensures r.Fail? ==> r.exc == ValueError(NotAvailable(ResolveAlias(name, table), package))
  {
    var resolved := ResolveAlias(name, table);
    if refprop(resolved) == "" then Fail(ValueError(NotAvailable(resolved, package)))
    else Ok(refprop(resolved))
  }

  /** `get_name(name)`. */
  method GetName(name: string, table: AliasTable, refprop: RefpropName, package: string)
    returns (r: Result<string>)
    ensures r == Lookup(name, table, refprop, package)
  {
    var current := name;
    var i := 0;
    while i < |table|
      invariant i <= |table| && current == ResolveAlias(name, table[..i])
    {
      assert table[..i + 1][..i] == table[..i];
      if current in table[i].1 {
        current := table[i].0;
      }
      i := i + 1;
    }
    assert table[..i] == table;
    var fluidName := refprop(current);
    if fluidName == "" {
      return Fail(ValueError(NotAvailable(current, package)));
    }
    return Ok(fluidName);
  }

  /** A name that is no alias is passed to REFPROP unchanged. */
  lemma {:induction false} NotAnAlias(name: string, table: AliasTable)
    requires forall i :: 0 <= i < |table| ==> name !in table[i].1
    ensures ResolveAlias(name, table) == name
  {
    if table != [] {
      var init := table[..|table| - 1];
      assert forall i :: 0 <= i < |init| ==> init[i] == table[i];
      NotAnAlias(name, init);
    }
  }

  /** The first entry listing the name decides, provided no later entry lists that
      entry's canonical name: the loop variable is reassigned, so later entries are
      compared against the canonical name, not the original one. */
  lemma {:induction false} FirstMatchWins(name: string, table: AliasTable, j: nat)
    requires j < |table| && name in table[j].1
    requires forall i :: 0 <= i < j ==> name !in table[i].1
    requires forall i :: j < i < |table| ==> table[j].0 !in table[i].1
    ensures ResolveAlias(name, table) == table[j].0
  {
    var init := table[..|table| - 1];
    assert forall i :: 0 <= i < |init| ==> init[i] == table[i];
    if j == |table| - 1 {
      NotAnAlias(name, init);
    } else {
      FirstMatchWins(name, init, j);
    }
  }

  /** Aliases of different entries are distinct, and no canonical name is itself an
      alias. */
  predicate Unambiguous(table: AliasTable)
  {
    && (forall i, j, a :: 0 <= i < j < |table| && a in table[i].1 ==> a !in table[j].1)
    && (forall i, k :: 0 <= i < |table| && 0 <= k < |table| ==> table[k].0 !in table[i].1)
  }

  /** In an unambiguous table the entry listing the alias decides, whatever the order
      of the entries. */
  lemma AliasResolves(name: string, table: AliasTable, j: nat)
    requires Unambiguous(table) && j < |table| && name in table[j].1
    ensures ResolveAlias(name, table) == table[j].0
  {
    FirstMatchWins(name, table, j);
  }

  /** With an alias of an alias, resolution chains: "a" becomes "b", which the next
      entry then turns into "c". */
  lemma ChainedAliases()
    ensures ResolveAlias("a", [("b", ["a"]), ("c", ["b"])]) == "c"
  {
    var table := [("b", ["a"]), ("c", ["b"])];
    assert table[..1][..0] == [];
    assert ResolveAlias("a", table[..1]) == "b";
  }

  /** "i-butane" is IsoButane in ccp. */
  lemma IButane()
    ensures ResolveAlias("i-butane", CcpAliases()) == "IsoButane"
  {
    var t := CcpAliases();
    forall i | 0 < i < |t| ensures "IsoButane" !in t[i].1 {
    }
    FirstMatchWins("i-butane", t, 0);
  }

  /** "h2s" is HydrogenSulfide in ccp. */
  lemma HydrogenSulfideAlias()
    ensures ResolveAlias("h2s", CcpAliases()) == "HydrogenSulfide"
  {
    var t := CcpAliases();
    forall i | 0 <= i < 10 ensures "h2s" !in t[i].1 {
    }
    forall i | 10 < i < |t| ensures "HydrogenSulfide" !in t[i].1 {
    }
    FirstMatchWins("h2s", t, 10);
  }

  /** "co" is CarbonMonoxide in ccp. */
  lemma CarbonMonoxideAlias()
    ensures ResolveAlias("co", CcpAliases()) == "CarbonMonoxide"
  {
    var t := CcpAliases();
    forall i | 0 <= i < 11 ensures "co" !in t[i].1 {
    }
    forall i | 11 < i < |t| ensures "CarbonMonoxide" !in t[i].1 {
    }
    FirstMatchWins("co", t, 11);
  }

  /** "n2" is Nitrogen in ccp. */
  lemma NitrogenAlias()
    ensures ResolveAlias("n2", CcpAliases()) == "Nitrogen"
  {
    var t := CcpAliases();
    forall i | 0 <= i < 13 ensures "n2" !in t[i].1 {
    }
    forall i | 13 < i < |t| ensures "Nitrogen" !in t[i].1 {
    }
    FirstMatchWins("n2", t, 13);
  }

  /** "ibutane" is IsoButane in the prototype. */
  lemma Prf2IButane()
    ensures ResolveAlias("ibutane", Prf2Aliases()) == "IsoButane"
  {
    var t := Prf2Aliases();
    forall i | 0 < i < |t| ensures "IsoButane" !in t[i].1 {
    }
    FirstMatchWins("ibutane", t, 0);
  }

  /** "carbon dioxide" is CarbonDioxide in the prototype. */
  lemma Prf2CarbonDioxide()
    ensures ResolveAlias("carbon dioxide", Prf2Aliases()) == "CarbonDioxide"
  {
    var t := Prf2Aliases();
    forall i | 0 <= i < 11 ensures "carbon dioxide" !in t[i].1 {
    }
    forall i | 11 < i < |t| ensures "CarbonDioxide" !in t[i].1 {
    }
    FirstMatchWins("carbon dioxide", t, 11);
  }

  /** "n2" is Nitrogen in the prototype. */
  lemma Prf2Nitrogen()
    ensures ResolveAlias("n2", Prf2Aliases()) == "Nitrogen"
  {
    var t := Prf2Aliases();
    forall i | 0 <= i < 12 ensures "n2" !in t[i].1 {
    }
    FirstMatchWins("n2", t, 12);
  }

  // ---- normalize_mix ----

  /** ccp warns when the total is near neither 1 nor 100 (a percentage). */
  predicate CcpWarns(total: real)
  {
    !((0.95 < total < 1.05) || (95.0 < total < 105.0))
  }

  /** The prototype warns when the total is more than 0.05 away from 1. */
  predicate Prf2Warns(total: real)
  {
    total - 1.0 > 0.05 || 1.0 - total > 0.05
  }

  /** Fractions given in percent warn only in the prototype. */
  lemma PercentTotals(total: real)
    requires 95.0 < total < 105.0
    ensures !CcpWarns(total) && Prf2Warns(total)
  {
  }

  /** Away from percentages and from the two boundary values, both versions warn
      alike. */
  lemma WarningsAgree(total: real)
    requires !(95.0 < total < 105.0) && total != 0.95 && total != 1.05
    ensures CcpWarns(total) <==> Prf2Warns(total)
  {
  }

  /** `molar_fractions[i] = comp / total` for every index, in place. */
  method DivideInPlace(fractions: array<real>, total: real)
    requires total != 0.0
    modifies fractions
    ensures fractions[..] == Scaled(old(fractions[..]), total)
  {
    for i := 0 to fractions.Length
      invariant forall k :: 0 <= k < i ==> fractions[k] == old(fractions[k]) / total
      invariant forall k :: i <= k < fractions.Length ==> fractions[k] == old(fractions[k])
    {
      fractions[i] := fractions[i] / total;
    }
  }

  /** The fractions ccp's `normalize_mix` leaves behind, or what it raises: an empty
      list warns and then fails in the fix-up loop, which reads the loop variable `i`
      that the division loop never bound; a zero total fails at the first division.
      Otherwise every fraction is divided by the total, and the fractions then sum to
      one. */
  function Normalised(x: seq<real>): (r: Result<seq<real>>)
    ensures r.Fail? <==> x == [] || Sum(x) == 0.0
    ensures x == [] ==> r == Fail(NameError("i"))
    ensures x != [] && Sum(x) == 0.0 ==> r == Fail(ZeroDivisionError)
    ensures r.Ok? ==> r.value == Scaled(x, Sum(x)) && Sum(r.value) == 1.0
  {
    if x == [] then Fail(NameError("i"))
    else if Sum(x) == 0.0 then Fail(ZeroDivisionError)
    else
      SumNormalised(x);
      Ok(Scaled(x, Sum(x)))
  }

  /** ccp's `normalize_mix`; the result says whether a warning was issued. A failure
      leaves the list as it was. */
  method NormalizeMix(fractions: array<real>) returns (r: Result<bool>)
    modifies fractions
    ensures Normalised(old(fractions[..])).Fail? ==>
      r == Fail(Normalised(old(fractions[..])).exc) && fractions[..] == old(fractions[..])
    ensures Normalised(old(fractions[..])).Ok? ==>
      r == Ok(CcpWarns(Sum(old(fractions[..])))) && fractions[..] == Normalised(old(fractions[..])).value
  {
    var total := Sum(fractions[..]);
    var warned := CcpWarns(total);
    if fractions.Length == 0 {
      return Fail(NameError("i"));
    }
    if total == 0.0 {
      return Fail(ZeroDivisionError);
    }
    DivideInPlace(fractions, total);
    return Ok(warned);
  }

  /** The fractions the prototype's `normalize_mix` leaves behind: with no fix-up
      loop, an empty list is left empty. */
  function Prf2Normalised(x: seq<real>): (r: Result<seq<real>>)
    ensures x == [] ==> r == Ok([])
    ensures x != [] ==> r == Normalised(x)
  {
    if x == [] then Ok([]) else Normalised(x)
  }

  /** The prototype's `normalize_mix`; the result says whether a warning was
      issued. */
  method Prf2NormalizeMix(fractions: array<real>) returns (r: Result<bool>)
    modifies fractions
    ensures Prf2Normalised(old(fractions[..])).Fail? ==>
      r == Fail(Prf2Normalised(old(fractions[..])).exc) && fractions[..] == old(fractions[..])
    ensures Prf2Normalised(old(fractions[..])).Ok? ==>
      r == Ok(Prf2Warns(Sum(old(fractions[..])))) && fractions[..] == Prf2Normalised(old(fractions[..])).value
  {
    var total := Sum(fractions[..]);
    var warned := Prf2Warns(total);
    if fractions.Length == 0 {
      return Ok(warned);
    }
    if total == 0.0 {
      return Fail(ZeroDivisionError);
    }
    DivideInPlace(fractions, total);
    return Ok(warned);
  }
}
