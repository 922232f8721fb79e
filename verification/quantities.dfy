/** Argument values as the unit decorators see them, and the two pint operations they
    use: `q.to(unit)` on a quantity and `Q_(value, unit)` on anything else. Unit
    arithmetic is pint's and is left abstract: a `Converter` gives the magnitude of a
    quantity in another unit, or nothing when the dimensions differ. */
module Quantities {
  import opened Wrappers

  datatype Value =
    | NoneValue
    | Number(x: real)
    | Flag(b: bool)
    | Quantity(magnitude: real, unit: string)

  /** pint's conversion: the magnitude in unit `to` of `magnitude` in unit `from`. */
  type Converter = (real, string, string) -> Option<real>

  const DimensionalityMessage := "Cannot convert between units of different dimensionality"
  const InvalidMagnitudeMessage := "Invalid magnitude for Quantity"

  /** `q.to(unit)`: pint raises its `DimensionalityError`, a `TypeError`, when the
      dimensions differ. */
  function QuantityTo(q: Value, unit: string, conv: Converter): (r: Result<Value>)
    requires q.Quantity?
    ensures r.Ok? ==> r.value.Quantity? && r.value.unit == unit
  {
    match conv(q.magnitude, q.unit, unit)
    case Some(m) => Ok(Quantity(m, unit))
    case None => Fail(TypeError(DimensionalityMessage))
  }

  /** `Q_(v, unit)` for a value that is not a quantity: a number becomes a quantity
      of that magnitude; pint refuses `None` and booleans with a `TypeError`. */
  function MakeQuantity(v: Value, unit: string): (r: Result<Value>)
    requires !v.Quantity?
    ensures r.Ok? <==> v.Number?
    ensures r.Ok? ==> r.value == Quantity(v.x, unit)
  {
    match v
    case Number(x) => Ok(Quantity(x, unit))
    case _ => Fail(TypeError(InvalidMagnitudeMessage))
  }

  /** `v.magnitude`: only a quantity has one. */
  function Magnitude(v: Value): (r: Result<real>)
    ensures r.Ok? <==> v.Quantity?
    ensures r.Ok? ==> r.value == v.magnitude
    ensures r.Fail? ==> r.exc == AttributeError("magnitude")
  {
    if v.Quantity? then Ok(v.magnitude) else Fail(AttributeError("magnitude"))
  }
}
