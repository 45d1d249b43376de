/** The conversions of src/convert.rs that only inspect a value or only fill
    the output slot: unit, `bool`, `i32`, `u32`, `f64`, `Null`, the raw string
    and object pointers, and the character copy of a string. A decoder returns
    `None` where the source's assertion (or the engine's accessor assertion,
    such as `to_boolean` on a value that is not a boolean) is fatal. */
module Scalars {
  import opened JSApi
  import Unicode

  /** `()` decodes only from undefined. */
  function DecodeUnit(v: JSVal): (r: Option<()>)
    ensures r.Some? <==> v == Undefined
  {
    if v.Undefined? then Some(()) else None
  }

  function EncodeUnit(): JSVal
  {
    Undefined
  }

  function DecodeBool(v: JSVal): (r: Option<bool>)
    ensures r.Some? <==> v.Bool?
    ensures r.Some? ==> v == Bool(r.value)
  {
    if v.Bool? then Some(v.b) else None
  }

  function EncodeBool(b: bool): JSVal
  {
    Bool(b)
  }

  /** `JS_DoubleIsInt32`: the double is an integer in the int32 range. */
  predicate DoubleIsInt32(d: real)
  {
    d == d.Floor as real && -0x8000_0000 as real <= d < 0x8000_0000 as real
  }

  /** `i32` decoding: an int32 value is taken as it is; a double must be
      exactly an int32 (asserted), which renormalises it. */
  function DecodeI32(v: JSVal): (r: Option<i32>)
    ensures v.Int32? ==> r == Some(v.i)
    ensures v.Double? ==> (r.Some? <==> DoubleIsInt32(v.d))
    ensures v.Double? && r.Some? ==> r.value as real == v.d
    ensures !v.Int32? && !v.Double? ==> r.None?
  {
    if v.Int32? then Some(v.i)
    else if v.Double? && DoubleIsInt32(v.d) then Some(v.d.Floor)
    else None
  }

  function EncodeI32(i: i32): JSVal
  {
    Int32(i)
  }

  /** `RUST_JS_NumberValue`: a double that is exactly an int32 is stored as
      an int32 value. */
  function NumberValue(d: real): (r: JSVal)
    ensures r.Int32? || r.Double?
    ensures r.Int32? <==> DoubleIsInt32(d)
    ensures r.Int32? ==> r.i as real == d
    ensures r.Double? ==> r.d == d
  {
    if DoubleIsInt32(d) then Int32(d.Floor) else Double(d)
  }

  function EncodeF64(d: real): JSVal
  {
    NumberValue(d)
  }

  /** `f64` decoding: `to_number`, which asserts the value is a number. */
  function DecodeF64(v: JSVal): (r: Option<real>)
    ensures r.Some? <==> (v.Int32? || v.Double?)
    ensures v.Int32? ==> r == Some(v.i as real)
    ensures v.Double? ==> r == Some(v.d)
  {
    match v
    case Int32(i) => Some(i as real)
    case Double(d) => Some(d)
    case _ => None
  }

  /** `i as u32` on an int32: two's complement reinterpretation. */
  function WrapU32(i: i32): (r: u32)
    ensures r % 0x1_0000_0000 == i % 0x1_0000_0000
  {
    if i < 0 then i + 0x1_0000_0000 else i
  }

  /** `u32` encoding: a value above 0x7FFFFFFF goes through `f64`, so it is
      never wrapped to a negative int32. */
  function EncodeU32(x: u32): (r: JSVal)
    ensures r.Int32? <==> x <= 0x7FFF_FFFF
    ensures r.Int32? ==> r.i == x && r.i >= 0
    ensures r.Double? ==> r.d == x as real
    ensures r.Int32? || r.Double?
  {
    if x > 0x7FFF_FFFF then EncodeF64(x as real) else EncodeI32(x)
  }

  /** `u32` decoding: an int32 payload is cast (wrapping a negative one); a
      double is accepted only when it is integral and within [0, u32::MAX];
      anything else fails the assertion. */
  function DecodeU32(v: JSVal): (r: Option<u32>)
    ensures v.Int32? ==> r == Some(WrapU32(v.i))
    ensures v.Double? ==> (r.Some? <==> v.d == v.d.Floor as real && 0.0 <= v.d <= 0xFFFF_FFFF as real)
    ensures v.Double? && r.Some? ==> r.value as real == v.d
    ensures !v.Int32? && !v.Double? ==> r.None?
  {
    if v.Int32? then Some(WrapU32(v.i))
    else if v.Double? && v.d == v.d.Floor as real && 0.0 <= v.d <= 0xFFFF_FFFF as real then Some(v.d.Floor)
    else None
  }

  function DecodeNull(v: JSVal): (r: Option<()>)
    ensures r.Some? <==> v == Null
  {
    if v.Null? then Some(()) else None
  }

  function EncodeNull(): JSVal
  {
    Null
  }

  /** `*mut JSString` decoding: `to_string`, which asserts a string. */
  function DecodeRawString(v: JSVal): (r: Option<JSString>)
    ensures r.Some? <==> v.Str?
    ensures r.Some? ==> v == Str(r.value)
  {
    if v.Str? then Some(v.s) else None
  }

  /** `*mut JSObject` decoding: `to_object`, which asserts an object. */
  function DecodeRawObject(v: JSVal): (r: Option<ObjId>)
    ensures r.Some? <==> v.Obj?
    ensures r.Some? ==> v == Obj(r.value)
  {
    if v.Obj? then Some(v.id) else None
  }

  /** The copy-out step of `String` decoding: a string stored one byte per
      character is read as Latin-1, any other as lossy UTF-16. */
  function CharsToString(s: JSString): string
  {
    if s.latin1 then Unicode.DecodeLatin1(s.units) else Unicode.DecodeLossy(s.units)
  }

  lemma EncodeU32Boundary()
    ensures EncodeU32(0x7FFF_FFFF) == Int32(0x7FFF_FFFF)
    ensures EncodeU32(0x8000_0000) == Double(0x8000_0000 as real)
    ensures DecodeU32(EncodeU32(0x7FFF_FFFF)) == Some(0x7FFF_FFFF)
    ensures DecodeU32(EncodeU32(0x8000_0000)) == Some(0x8000_0000)
  {
  }

  /** decode(encode(x)) == x for every u32. */
  lemma U32RoundTrip(x: u32)
    ensures DecodeU32(EncodeU32(x)) == Some(x)
  {
    var v := EncodeU32(x);
    if v.Double? {
      assert (x as real).Floor == x;
    }
  }

  /** decode(encode(i)) == i for every i32. */
  lemma I32RoundTrip(i: i32)
    ensures DecodeI32(EncodeI32(i)) == Some(i)
  {
  }

  /** A double that is exactly an int32 decodes to that integer, a double
      that is not fails the assertion. */
  lemma I32Renormalises(d: real)
    ensures DecodeI32(Double(d)) == if DoubleIsInt32(d) then Some(d.Floor) else None
  {
  }

  /** `f64` round-trips as a number, but not as a tag: an integral double in
      the int32 range comes back from the engine as an int32 value. */
  lemma F64RoundTrip(d: real)
    ensures DecodeF64(EncodeF64(d)) == Some(d)
    ensures EncodeF64(d).Int32? <==> DoubleIsInt32(d)
  {
  }

  /** A negative int32 handed to the u32 decoder wraps around. */
  lemma U32DecodeWraps()
    ensures DecodeU32(Int32(-1)) == Some(0xFFFF_FFFF)
    ensures DecodeU32(Double(-1.0)) == None
  {
  }

  /** Copying out any string the engine made from a Rust string's UTF-16
      units gives back the Rust string, on the Latin-1 path and the two-byte
      path alike. */
  lemma StringRoundTrip(s: string, js: JSString)
    requires js.units == Unicode.Encode(s)
    ensures CharsToString(js) == s
  {
    Unicode.DecodeEncode(s);
    if js.latin1 {
      Unicode.Latin1AgreesWithUtf16(js.units);
    }
  }

  /** The scalar native types: `()`, `bool`, `i32`, `u32`, `f64`, `Null`,
      `*mut JSString` and `*mut JSObject`. */
  datatype Kind = KUnit | KBool | KI32 | KU32 | KF64 | KNull | KRawString | KRawObject

  /** A native value of a scalar type. */
  datatype Scalar =
    | SUnit
    | SBool(b: bool)
    | SI32(i: i32)
    | SU32(u: u32)
    | SF64(d: real)
    | SNull
    | SRawString(raw: JSString)
    | SRawObject(id: ObjId)

  function KindOf(x: Scalar): Kind
  {
    match x
    case SUnit => KUnit
    case SBool(_) => KBool
    case SI32(_) => KI32
    case SU32(_) => KU32
    case SF64(_) => KF64
    case SNull => KNull
    case SRawString(_) => KRawString
    case SRawObject(_) => KRawObject
  }

  /** Decoding `v` as the scalar type `k`: `None` where the source's
      assertion is fatal. */
  function DecodeScalar(k: Kind, v: JSVal): (r: Option<Scalar>)
    ensures r.Some? ==> KindOf(r.value) == k
  {
    match k
    case KUnit => if DecodeUnit(v).Some? then Some(SUnit) else None
    case KBool => var b := DecodeBool(v); if b.Some? then Some(SBool(b.value)) else None
    case KI32 => var i := DecodeI32(v); if i.Some? then Some(SI32(i.value)) else None
    case KU32 => var u := DecodeU32(v); if u.Some? then Some(SU32(u.value)) else None
    case KF64 => var d := DecodeF64(v); if d.Some? then Some(SF64(d.value)) else None
    case KNull => if DecodeNull(v).Some? then Some(SNull) else None
    case KRawString => var s := DecodeRawString(v); if s.Some? then Some(SRawString(s.value)) else None
    case KRawObject => var o := DecodeRawObject(v); if o.Some? then Some(SRawObject(o.value)) else None
  }

  /** Encoding a scalar: the value written to the output slot. */
  function EncodeScalar(x: Scalar): (v: JSVal)
    ensures v.Obj? <==> x.SRawObject?
    ensures v.Str? <==> x.SRawString?
    ensures v == Null <==> x.SNull?
    ensures v == Undefined <==> x.SUnit?
  {
    match x
    case SUnit => EncodeUnit()
    case SBool(b) => EncodeBool(b)
    case SI32(i) => EncodeI32(i)
    case SU32(u) => EncodeU32(u)
    case SF64(d) => EncodeF64(d)
    case SNull => EncodeNull()
    case SRawString(raw) => Str(raw)
    case SRawObject(id) => Obj(id)
  }

  /** decode(encode(x)) == x for every scalar, at its own type. */
  lemma ScalarRoundTrip(x: Scalar)
    ensures DecodeScalar(KindOf(x), EncodeScalar(x)) == Some(x)
  {
    match x
    case SU32(u) => U32RoundTrip(u);
    case SF64(d) => F64RoundTrip(d);
    case SI32(i) => I32RoundTrip(i);
    case _ =>
  }
}
