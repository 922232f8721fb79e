/** The prototype's `check_units` (prf2/config/units.py): only keyword arguments named
    exactly "p", "T" or "speed" are converted, with no special case for `None`, and the
    positional arguments are passed on as they are. */
module Prf2Units {
  import opened Wrappers
  import opened Dicts
  import opened Quantities

  const P := "p"
  const T := "T"
  const Speed := "speed"

  /** The `units` table. */
  function Table(): Dict<string, string>
  {
    [(P, "pascal"), (T, "kelvin"), (Speed, "radian/second")]
  }

  /** The value passed on for the keyword argument `k`: `v.to(unit)` for a quantity,
      `Q_(v, unit)` for anything else (whose `TypeError` is not caught), and `v`
      itself when `k` is not a key of the table. */
  function Converted(k: string, v: Value, conv: Converter): (r: Result<Value>)
    ensures k !in Keys(Table()) ==> r == Ok(v)
    ensures r.Ok? && k in Keys(Table()) ==> r.value.Quantity? && r.value.unit == Get(Table(), k).value
    ensures k in Keys(Table()) && v.Number? ==> r == Ok(Quantity(v.x, Get(Table(), k).value))
  {
    match Get(Table(), k)
    case None => Ok(v)
    case Some(unit) => if v.Quantity? then QuantityTo(v, unit, conv) else MakeQuantity(v, unit)
  }

  /** `inner(*args, **kwargs)` up to the call of the decorated function. */
  method CheckUnits(args: seq<Value>, kwargs: Dict<string, Value>, conv: Converter)
    returns (r: Result<(seq<Value>, Dict<string, Value>)>)
    ensures r.Ok? <==> MapItems(kwargs, (k, v) => Converted(k, v, conv)).Ok?
    ensures r.Ok? ==> r.value == (args, MapItems(kwargs, (k, v) => Converted(k, v, conv)).value)
    ensures r.Fail? ==> r.exc == MapItems(kwargs, (k, v) => Converted(k, v, conv)).exc
  {
    var f := (k: string, v: Value) => Converted(k, v, conv);
    var baseKwargs := [];
    var i := 0;
    while i < |kwargs|
      invariant i <= |kwargs| && MapItems(kwargs[..i], f) == Ok(baseKwargs)
    {
      var k, v := kwargs[i].0, kwargs[i].1;
      var c: Result<Value>;
      match Get(Table(), k) {
        case None =>
          c := Ok(v);
        case Some(unit) =>
          if v.Quantity? {
            c := QuantityTo(v, unit, conv);
          } else {
            c := MakeQuantity(v, unit);
          }
      }
      if c.Fail? {
        MapItemsFailFrom(kwargs, f, i);
        return Fail(c.exc);
      }
      MapItemsSnoc(kwargs, f, i, baseKwargs);
      baseKwargs := Set(baseKwargs, k, c.value);
      i := i + 1;
    }
    assert kwargs[..i] == kwargs;
    r := Ok((args, baseKwargs));
  }

  /** Unlike the ccp decorator, `None` for "p", "T" or "speed" is not passed through:
      `Q_(None, unit)` raises a `TypeError`. */
  lemma NoneRaises(k: string, conv: Converter)
    requires k in Keys(Table())
    ensures Converted(k, NoneValue, conv).Fail? && Converted(k, NoneValue, conv).exc.TypeError?
  {
  }

  /** Pressure keyword arguments become quantities in pascal. */
  lemma PressureInPascal(x: real, conv: Converter)
    ensures Converted(P, Number(x), conv) == Ok(Quantity(x, "pascal"))
  {
    assert Get(Table(), P) == Some("pascal");
  }

  /** A name that merely contains a table key, such as "suc_p", is not converted. */
  lemma SuffixNotConverted(v: Value, conv: Converter)
    ensures Converted("suc_p", v, conv) == Ok(v)
  {
    assert "suc_p" != P && "suc_p" != T && "suc_p" != Speed;
    assert Keys(Table()) == [P, T, Speed];
  }

  /** The keyword arguments keep their names and order; each value is converted on
      its own. */
  lemma KeywordsKept(kwargs: Dict<string, Value>, conv: Converter)
    requires UniqueKeys(kwargs) && MapItems(kwargs, (k, v) => Converted(k, v, conv)).Ok?
    ensures var out := MapItems(kwargs, (k, v) => Converted(k, v, conv)).value;
      && |out| == |kwargs|
      && forall i :: 0 <= i < |kwargs| ==> out[i].0 == kwargs[i].0 && Converted(kwargs[i].0, kwargs[i].1, conv) == Ok(out[i].1)
  {
    MapItemsEntries(kwargs, (k, v) => Converted(k, v, conv));
  }
}
