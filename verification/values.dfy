/**
 * The values kept in the settings store and in the engine's configuration:
 * a tagged stand-in for QVariant holding a bool, an int, a string or a
 * colour, together with the QVariant conversions the settings code applies
 * (toBool, toInt, toString, value<QColor>).
 */
module Values {
  import opened Wrappers
  import Text

  /** One 8-bit colour channel. */
  type Channel = x: int | 0 <= x < 256

  /** An opaque RGB colour (a QColor built from three integer channels). */
  datatype Rgb = Rgb(r: Channel, g: Channel, b: Channel)

  datatype Value = Bool(b: bool) | Int(i: int) | Str(s: string) | Color(rgb: Rgb)

  /** Range of the C++ `int` that QVariant::toInt returns. */
  const IntMin: int := -0x8000_0000
  const IntMax: int := 0x7fff_ffff

  /** QColor::name(): "#rrggbb" in lower-case hexadecimal. */
  function HexName(c: Rgb): string
  {
    "#" + Text.ByteToHex(c.r) + Text.ByteToHex(c.g) + Text.ByteToHex(c.b)
  }

  /** QVariant::toBool; the null variant and a colour read as false. */
  function ToBool(v: Option<Value>): bool
  {
    match v
    case None => false
    case Some(Bool(b)) => b
    case Some(Int(i)) => i != 0
    case Some(Str(s)) => var lower := Text.Lower(s); !(lower == "" || lower == "0" || lower == "false")
    case Some(Color(_)) => false
  }

  /** QVariant::toInt; a string that is not a decimal number in range, a colour and the null variant read as 0. */
  function ToInt(v: Option<Value>): int
  {
    match v
    case None => 0
    case Some(Bool(b)) => if b then 1 else 0
    case Some(Int(i)) => i
    case Some(Str(s)) =>
      (match Text.ParseDecimal(s)
       case Some(n) => if IntMin <= n <= IntMax then n else 0
       case None => 0)
    case Some(Color(_)) => 0
  }

  /** QVariant::toString; the null variant reads as the empty string. */
  function ToText(v: Option<Value>): string
  {
    match v
    case None => ""
    case Some(Bool(b)) => if b then "true" else "false"
    case Some(Int(i)) => Text.IntToDecimal(i)
    case Some(Str(s)) => s
    case Some(Color(c)) => HexName(c)
  }

  /** QVariant::value<QColor>; None stands for the invalid colour. */
  function ToColor(v: Option<Value>): Option<Rgb>
  {
    match v
    case Some(Color(c)) => Some(c)
    case _ => None
  }

  /** Rendering a bool or an in-range int as text and converting back recovers it. */
  lemma TextConversionRoundTrip(b: bool, i: int)
    requires IntMin <= i <= IntMax
    ensures ToBool(Some(Str(ToText(Some(Bool(b)))))) == b
    ensures ToInt(Some(Str(ToText(Some(Int(i)))))) == i
  {
    Text.DecimalRoundTrip(i);
    assert Text.Lower("false") == "false";
    assert Text.Lower("true") == "true";
  }
}
