/**
 * The Qt values the option layer exchanges with its callers (QVariant,
 * QString conversions) and the host services it calls but does not define.
 */
module Values {
  import opened Wrappers
  import opened Sane

  /** A QVariant as the options produce and accept it. */
  datatype Variant = Null | IntV(i: int) | RealV(r: real) | StrV(s: string)

  /**
   * The host: its byte order, the SANE translation hook sane_i18n, and Qt's
   * string conversions (QString::toInt, QString::toDouble, QString::number
   * and QString::number(x, 'F', 6)), none of which the model defines.
   */
  datatype Env = Env(
    bigEndian: bool,
    i18n: string -> string,
    toInt: string -> Option<Word>,
    toDouble: string -> Option<real>,
    intText: int -> string,
    realText: real -> string,
    realText6: real -> string)

  /** QVariant::toDouble(&ok): the number, or None when `ok` would be false. */
  function VariantToDouble(v: Variant, env: Env): (d: Option<real>)
    ensures v.IntV? ==> d == Some(v.i as real)
    ensures v.RealV? ==> d == Some(v.r)
    ensures v.Null? ==> d.None?
  {
    match v
    case Null => None
    case IntV(i) => Some(i as real)
    case RealV(r) => Some(r)
    case StrV(s) => env.toDouble(s)
  }

  /** QVariant::toString() */
  function VariantText(v: Variant, env: Env): (s: string)
    ensures v.Null? ==> s == ""
    ensures v.StrV? ==> s == v.s
  {
    match v
    case Null => ""
    case IntV(i) => env.intText(i)
    case RealV(r) => env.realText(r)
    case StrV(s) => s
  }

  /**
   * The characters of the C string held in `data`: every byte before the
   * first NUL, one character per byte.
   */
  function CString(data: seq<Byte>): (s: string)
    ensures |s| <= |data|
    ensures forall i :: 0 <= i < |s| ==> s[i] as int == data[i] != 0
    ensures |s| < |data| ==> data[|s|] == 0
  {
    if data == [] || data[0] == 0 then []
    else [data[0] as char] + CString(data[1..])
  }

  /** QChar::toLatin1: characters outside Latin-1 become '?'. */
  function Latin1(c: char): Byte {
    if c as int < 256 then c as int else '?' as int
  }

  /** The NUL-terminated buffer of QString::toLatin1().data(). */
  function Latin1Bytes(s: string): (b: seq<Byte>)
    ensures |b| == |s| + 1 && b[|s|] == 0
    ensures forall i :: 0 <= i < |s| ==> b[i] == Latin1(s[i])
  {
    seq(|s|, i requires 0 <= i < |s| => Latin1(s[i])) + [0]
  }

  /** A string of Latin-1 characters without NUL survives the round trip through a C buffer. */
  lemma {:induction false} CStringLatin1(s: string)
    requires forall i :: 0 <= i < |s| ==> 0 < s[i] as int < 256
    ensures CString(Latin1Bytes(s)) == s
  {
    var b := Latin1Bytes(s);
    var t := CString(b);
    assert |t| == |s|;
  }
}
