/**
 * The dynamically typed values found in a decoded result row (Go's
 * interface{}), and what the exporter does with them: render one as a label
 * text and coerce one to the float a gauge holds.
 */
module Values {
  import opened Wrappers
  import opened Text

  /**
   * A decoded scalar. VOther stands for every other dynamic type (bool, nil,
   * nested objects and arrays) and carries the text %v prints for it.
   */
  datatype Value = VString(s: string) | VInt(i: int) | VFloat(f: real) | VOther(text: string)

  /**
   * The two float conversions of Go's standard library the exporter relies
   * on, which are not part of this model: strconv.ParseFloat(s, 64) (None
   * when it returns an error) and fmt's %v rendering of a float64.
   */
  datatype FloatFormat = FloatFormat(parse: string -> Option<real>, render: real -> string)

  /** fmt.Sprintf("%v", v). */
  function Render(floats: FloatFormat, v: Value): (r: string)
    ensures v.VString? ==> r == v.s
    ensures v.VInt? ==> r == IntDecimal(v.i) && SignedValue(r) == v.i && (v.i < 0 <==> r[0] == '-')
    ensures v.VFloat? ==> r == floats.render(v.f)
    ensures v.VOther? ==> r == v.text
  {
    match v
    case VString(s) => s
    case VInt(i) => IntDecimal(i)
    case VFloat(f) => floats.render(f)
    case VOther(text) => text
  }

  datatype CoerceError = ParseFailed(text: string) | UnhandledType(text: string)

  /**
   * The type switch of setValueForResult: a string is parsed as a float, an
   * int or a float passes through, anything else is refused.
   */
  function Coerce(floats: FloatFormat, v: Value): (r: Result<real, CoerceError>)
    ensures r.Failure? <==> v.VOther? || (v.VString? && floats.parse(v.s).None?)
    ensures v.VString? && floats.parse(v.s).Some? ==> r == Success(floats.parse(v.s).value)
    ensures v.VString? && floats.parse(v.s).None? ==> r == Failure(ParseFailed(v.s))
    ensures v.VInt? ==> r == Success(v.i as real)
    ensures v.VFloat? ==> r == Success(v.f)
    ensures v.VOther? ==> r == Failure(UnhandledType(v.text))
  {
    match v
    case VString(s) =>
      (match floats.parse(s)
       case Some(f) => Success(f)
       case None => Failure(ParseFailed(s)))
    case VInt(i) => Success(i as real)
    case VFloat(f) => Success(f)
    case VOther(text) => Failure(UnhandledType(text))
  }
}
