/** The scalar values a YAML configuration hands to the program, and the few
    Python conversions the program applies to them (`str`, `int`, `float`,
    truth testing, `isinstance(v, int)`). */
module Values {
  import opened Wrappers
  import opened Text

  /** A configuration value. A float carries the text Python's `str()` gives
      it; a list or mapping, where a scalar was expected, carries its `str()`
      text and its number of entries. */
  datatype Value =
    | VInt(i: int)
    | VBool(b: bool)
    | VFloat(x: real, text: string)
    | VStr(s: string)
    | VNone
    | VCollection(text: string, size: nat)

  /** The float `1.0` the suite loop uses as a default weight. */
  const DefaultWeight: Value := VFloat(1.0, "1.0")

  /** `isinstance(v, int)`: a Python bool is an int too. */
  predicate IsPyInt(v: Value) { v.VInt? || v.VBool? }

  /** Truth testing (`if v:`). */
  predicate Truthy(v: Value) {
    match v
    case VInt(i) => i != 0
    case VBool(b) => b
    case VFloat(x, _) => x != 0.0
    case VStr(s) => s != ""
    case VNone => false
    case VCollection(_, n) => n != 0
  }

  /** `v is True`: only the boolean `True` itself. */
  predicate IsTrue(v: Value) { v == VBool(true) }

  /** `v is False`: only the boolean `False` itself. */
  predicate IsFalse(v: Value) { v == VBool(false) }

  /** `str(v)`. */
  function PyStr(v: Value): string {
    match v
    case VInt(i) => IntToString(i)
    case VBool(b) => if b then "True" else "False"
    case VFloat(_, t) => t
    case VStr(s) => s
    case VNone => "None"
    case VCollection(t, _) => t
  }

  /** How a conversion can end. */
  datatype Conversion<T> =
    | Converted(value: T)
    | ValueError        // caught where the source catches ValueError
    | TypeError         // never caught by the source

  /** `float(v)` succeeds or raises; the resulting number is not needed by the
      model, only whether the conversion succeeds. */
  function PyFloatOk(v: Value): (r: Conversion<()>)
    ensures r.Converted? <==> (v.VInt? || v.VBool? || v.VFloat? || (v.VStr? && IsFloatLiteral(v.s)))
    ensures r.TypeError? <==> (v.VNone? || v.VCollection?)
  {
    match v
    case VInt(_) => Converted(())
    case VBool(_) => Converted(())
    case VFloat(_, _) => Converted(())
    case VStr(s) => if IsFloatLiteral(s) then Converted(()) else ValueError
    case VNone => TypeError
    case VCollection(_, _) => TypeError
  }

  /** Truncation toward zero, as `int(x)` does for a float. */
  function TruncateReal(x: real): (r: int)
    ensures 0.0 <= x ==> r as real <= x < r as real + 1.0
    ensures x < 0.0 ==> r as real - 1.0 < x <= r as real
  {
    if x >= 0.0 then x.Floor else -((-x).Floor)
  }

  /** `int(v)`. */
  function PyInt(v: Value): (r: Conversion<int>)
    ensures IsPyInt(v) ==> r.Converted?
    ensures v.VInt? ==> r == Converted(v.i)
  {
    match v
    case VInt(i) => Converted(i)
    case VBool(b) => Converted(if b then 1 else 0)
    case VFloat(x, _) => Converted(TruncateReal(x))
    case VStr(s) => (match ParseInt(s) case Some(n) => Converted(n) case None => ValueError)
    case VNone => TypeError
    case VCollection(_, _) => TypeError
  }

  /** `int(str(i)) == i` lifted to values: a string holding a rendered integer
      converts back to that integer. */
  lemma PyIntOfRenderedInt(i: int)
    ensures PyInt(VStr(PyStr(VInt(i)))) == Converted(i)
  {
    ParseIntOfIntToString(i);
  }
}
