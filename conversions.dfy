/** What the `FromJSValue` and `ToJSValue` implementations of src/convert.rs,
    src/value.rs (`Value`), src/call.rs and `derive_convert!` (src/macros.rs)
    compute, stated as relations between an engine value and a native value.

    The Rust conversions are generic over the native type; here the native
    types the bridge converts form a closed universe `Ty`, and a native value of
    any of them is a `Native`. `Decodes` says what decoding may produce,
    `Decodable` when decoding does not hit a fatal assertion, and `Encodes` what
    encoding writes. `RoundTrip` connects the two directions. */
module Conversions {
  import opened JSApi
  import Unicode
  import opened Trace
  import opened Scalars
  import opened Values

  /** The native types: `()`, `bool`, `i32`, `u32`, `f64`, `Null`,
      `*mut JSString`, `*mut JSObject`, `String` (decoded) and `str` (encoded),
      `Vec<T>` (decoded) and `&[T]` (encoded), `NullOr<T>`, `UndefinedOr<T>`,
      `Value`, a `derive_convert!` facade, a closure `T: Call + Clone` (an `Rc`
      of a handler) and `Option` of such a closure. */
  datatype Ty =
    | TScalar(kind: Kind)
    | TString
    | TVec(elem: Ty)
    | TNullOr(inner: Ty)
    | TUndefinedOr(inner: Ty)
    | TValue
    | THandle
    | TCall
    | TOptionCall

  datatype Native =
    | NScalar(x: Scalar)
    | NString(s: string)
    | NSeq(items: seq<Native>)
    | NOpt(opt: Option<Native>)
    | NValue(v: Value)
    | NHandle(root: TracedBox)
    | NCall(rc: RcId)

  predicate HasType(ty: Ty, n: Native)
  {
    match ty
    case TScalar(k) => n.NScalar? && KindOf(n.x) == k
    case TString => n.NString?
    case TVec(t) => n.NSeq? && forall k :: 0 <= k < |n.items| ==> HasType(t, n.items[k])
    case TNullOr(t) => n.NOpt? && (n.opt.Some? ==> HasType(t, n.opt.value))
    case TUndefinedOr(t) => n.NOpt? && (n.opt.Some? ==> HasType(t, n.opt.value))
    case TValue => n.NValue?
    case THandle => n.NHandle?
    case TCall => n.NCall?
    case TOptionCall => n.NOpt? && (n.opt.Some? ==> n.opt.value.NCall?)
  }

  /** No closure inside: containers and sentinels of closures are outside
      the universe (the bridge converts closures only on their own or as
      `Option`). */
  predicate NoClosure(ty: Ty)
  {
    match ty
    case TCall => false
    case TOptionCall => false
    case TVec(t) => NoClosure(t)
    case TNullOr(t) => NoClosure(t)
    case TUndefinedOr(t) => NoClosure(t)
    case _ => true
  }

  predicate Supported(ty: Ty)
  {
    ty == TCall || ty == TOptionCall || NoClosure(ty)
  }

  /** The part of the engine the conversions read. */
  datatype View = View(
    heap: map<ObjId, ObjRec>,
    privates: map<ObjId, BoxId>,
    boxes: map<BoxId, Closure>,
    slots: map<SlotId, JSVal>)

  function ViewOf(cx: Context): View
    reads cx`heap, cx`privates, cx`boxes, cx`slots
  {
    View(cx.heap, cx.privates, cx.boxes, cx.slots)
  }

  /** The cells a native value keeps alive: one per facade and per
      `Value::Object` inside it. */
  function RootsOf(n: Native): set<SlotId>
  {
    match n
    case NSeq(items) => set k, a | 0 <= k < |items| && a in RootsOf(items[k]) :: a
    case NOpt(o) => if o.Some? then RootsOf(o.value) else {}
    case NValue(v) => ValueRoots(v)
    case NHandle(b) => {b.slot}
    case _ => {}
  }

  lemma RootsOfSnoc(items: seq<Native>, x: Native)
    ensures RootsOf(NSeq(items + [x])) == RootsOf(NSeq(items)) + RootsOf(x)
  {
    var l := items + [x];
    assert l[|items|] == x;
    assert forall k :: 0 <= k < |items| ==> l[k] == items[k];
  }

  lemma RootsOfItem(items: seq<Native>, k: nat)
    requires k < |items|
    ensures RootsOf(items[k]) <= RootsOf(NSeq(items))
  {
  }

  /** Every facade inside `n` is a live box holding an object. */
  ghost predicate Owned(tracers: set<SlotId>, slots: map<SlotId, JSVal>, n: Native)
  {
    forall a :: a in RootsOf(n) ==> a in tracers && a in slots && slots[a].Obj?
  }

  /** The closure inside a native value, if any. */
  function ClosureOf(n: Native): Option<RcId>
  {
    match n
    case NCall(rc) => Some(rc)
    case NOpt(o) => if o.Some? && o.value.NCall? then Some(o.value.rc) else None
    case _ => None
  }

  /** The reference counts after cloning the `Rc` `rc`. */
  function Cloned(rcs: map<RcId, RcCell>, rc: RcId): map<RcId, RcCell>
  {
    if rc in rcs then rcs[rc := RcCell(rcs[rc].strong + 1, rcs[rc].handler)] else rcs
  }

  /** The reference counts after handing out `c`, if it is a closure. */
  function AfterClone(rcs: map<RcId, RcCell>, c: Option<RcId>): map<RcId, RcCell>
  {
    if c.Some? then Cloned(rcs, c.value) else rcs
  }

  /** A closure about to be encoded is a live `Rc`. */
  predicate ClosureLive(rcs: map<RcId, RcCell>, n: Native)
  {
    ClosureOf(n).Some? ==> ClosureOf(n).value in rcs
  }

  /** The value a `NullOr<T>`, `UndefinedOr<T>` or `Option` of a closure
      reads as `None`. */
  function Sentinel(ty: Ty): JSVal
  {
    if ty.TNullOr? then JSVal.Null else JSVal.Undefined
  }

  /** The type a `NullOr<T>`, `UndefinedOr<T>` or `Option` of a closure
      decodes its other values as. */
  function Inner(ty: Ty): Ty
    requires ty.TNullOr? || ty.TUndefinedOr? || ty.TOptionCall?
  {
    if ty.TOptionCall? then TCall else ty.inner
  }

  /** Every vector fits an engine array. */
  predicate Small(n: Native)
  {
    match n
    case NSeq(items) => |items| < 0x1_0000_0000 && forall k :: 0 <= k < |items| ==> Small(items[k])
    case NOpt(o) => o.Some? ==> Small(o.value)
    case _ => true
  }

  /** `*mut Box<Call>` decoding: `None` when the value is not an object of the
      call class (a fatal assertion), `Some(None)` for a null private slot, and
      otherwise the boxed closure it owns. */
  function DecodeCallPtr(heap: map<ObjId, ObjRec>, privates: map<ObjId, BoxId>, v: JSVal): (r: Option<Option<BoxId>>)
    ensures r.Some? <==> v.Obj? && v.id in heap && heap[v.id].cls == CallClass
    ensures r.Some? && r.value.Some? <==> r.Some? && v.id in privates
    ensures r.Some? && r.value.Some? ==> r.value.value == privates[v.id]
  {
    if !v.Obj? || v.id !in heap || heap[v.id].cls != CallClass then None
    else if v.id in privates then Some(Some(privates[v.id]))
    else Some(None)
  }

  /** `v` is a call-class object whose box holds a clone of the `Rc` `rc`. */
  ghost predicate HoldsClosure(w: View, v: JSVal, rc: RcId)
  {
    var p := DecodeCallPtr(w.heap, w.privates, v);
    p.Some? && p.value.Some? && p.value.value in w.boxes && w.boxes[p.value.value] == RcClosure(rc)
  }

  /** Decoding `v` as `ty` does not hit a fatal assertion (or a dangling or
      null pointer). */
  predicate Decodable(heap: map<ObjId, ObjRec>, privates: map<ObjId, BoxId>, ty: Ty, v: JSVal)
  {
    match ty
    case TScalar(k) => DecodeScalar(k, v).Some?
    case TString => v.Str?
    case TVec(t) =>
      v.Obj? && v.id in heap &&
      forall k :: 0 <= k < |heap[v.id].elems| ==> Decodable(heap, privates, t, heap[v.id].elems[k])
    case TNullOr(t) => v == JSVal.Null || Decodable(heap, privates, t, v)
    case TUndefinedOr(t) => v == JSVal.Undefined || Decodable(heap, privates, t, v)
    case TValue => !v.Symbol?
    case THandle => v.Obj?
    case TCall => var p := DecodeCallPtr(heap, privates, v); p.Some? && p.value.Some?
    case TOptionCall =>
      v == JSVal.Undefined || (var p := DecodeCallPtr(heap, privates, v); p.Some? && p.value.Some?)
  }

  /** `Value` decoding: the first tag among undefined, boolean, int32, double,
      string, object and null that `v` carries picks the variant; any other tag
      is fatal. An object becomes a fresh facade holding it. */
  ghost predicate ValueDecodes(w: View, v: JSVal, x: Value)
  {
    match v
    case Undefined => x == Value.Undefined
    case Bool(b) => x == Boolean(b)
    case Int32(i) => x == Value.Int32(i)
    case Double(d) => x == Value.Double(d)
    case Str(s) => x == String(CharsToString(s))
    case Obj(_) => x.Object? && x.root.slot in w.slots && w.slots[x.root.slot] == v
    case Null => x == Value.Null
    case Symbol => false
  }

  /** Decoding `v` as `ty` can produce `n`. */
  ghost predicate Decodes(w: View, ty: Ty, v: JSVal, n: Native)
  {
    match ty
    case TScalar(k) => n.NScalar? && DecodeScalar(k, v) == Some(n.x)
    case TString => v.Str? && n == NString(CharsToString(v.s))
    case TVec(t) =>
      v.Obj? && v.id in w.heap && n.NSeq? && |n.items| == |w.heap[v.id].elems| &&
      forall k :: 0 <= k < |n.items| ==> Decodes(w, t, w.heap[v.id].elems[k], n.items[k])
    case TNullOr(t) =>
      n.NOpt? && if v == JSVal.Null then n.opt.None? else n.opt.Some? && Decodes(w, t, v, n.opt.value)
    case TUndefinedOr(t) =>
      n.NOpt? && if v == JSVal.Undefined then n.opt.None? else n.opt.Some? && Decodes(w, t, v, n.opt.value)
    case TValue => n.NValue? && ValueDecodes(w, v, n.v)
    case THandle => n.NHandle? && v.Obj? && n.root.slot in w.slots && w.slots[n.root.slot] == v
    case TCall => n.NCall? && HoldsClosure(w, v, n.rc)
    case TOptionCall =>
      n.NOpt? && if v == JSVal.Undefined then n.opt.None? else n.opt.Some? && n.opt.value.NCall? && HoldsClosure(w, v, n.opt.value.rc)
  }

  /** `Value` encoding: each variant becomes the value with the matching tag;
      a double goes through `RUST_JS_NumberValue`, a string through `str`. */
  ghost predicate ValueEncodes(w: View, x: Value, v: JSVal)
  {
    match x
    case Undefined => v == JSVal.Undefined
    case Boolean(b) => v == Bool(b)
    case Int32(i) => v == JSVal.Int32(i)
    case Double(d) => v == NumberValue(d)
    case String(s) => v.Str? && v.s.units == Unicode.Encode(s)
    case Object(b) => b.slot in w.slots && v == w.slots[b.slot] && v.Obj?
    case Null => v == JSVal.Null
  }

  /** Encoding `n` as `ty` writes `v`, and every object `v` is made of was
      allocated at or after `lo` (encoding creates objects, it never reuses
      one). */
  ghost predicate Encodes(w: View, lo: nat, ty: Ty, n: Native, v: JSVal)
  {
    match ty
    case TScalar(k) => n.NScalar? && KindOf(n.x) == k && v == EncodeScalar(n.x)
    case TString => n.NString? && v.Str? && v.s.units == Unicode.Encode(n.s)
    case TVec(t) =>
      n.NSeq? && v.Obj? && v.id >= lo && v.id in w.heap && |w.heap[v.id].elems| == |n.items| &&
      forall k :: 0 <= k < |n.items| ==> Encodes(w, lo, t, n.items[k], w.heap[v.id].elems[k])
    case TNullOr(t) =>
      n.NOpt? && if n.opt.None? then v == JSVal.Null else Encodes(w, lo, t, n.opt.value, v)
    case TUndefinedOr(t) =>
      n.NOpt? && if n.opt.None? then v == JSVal.Undefined else Encodes(w, lo, t, n.opt.value, v)
    case TValue => n.NValue? && ValueEncodes(w, n.v, v)
    case THandle => n.NHandle? && n.root.slot in w.slots && v == w.slots[n.root.slot] && v.Obj?
    case TCall => n.NCall? && v.Obj? && v.id >= lo && HoldsClosure(w, v, n.rc)
    case TOptionCall =>
      n.NOpt? && if n.opt.None? then v == JSVal.Undefined
      else n.opt.value.NCall? && v.Obj? && v.id >= lo && HoldsClosure(w, v, n.opt.value.rc)
  }

  /** Encoding `n` as `ty` writes null. */
  predicate NullEncoding(ty: Ty, n: Native)
  {
    match ty
    case TScalar(k) => k == KNull
    case TNullOr(t) => n.NOpt? && (n.opt.None? || NullEncoding(t, n.opt.value))
    case TUndefinedOr(t) => n.NOpt? && n.opt.Some? && NullEncoding(t, n.opt.value)
    case TValue => n.NValue? && n.v.Null?
    case _ => false
  }

  /** Encoding `n` as `ty` writes undefined. */
  predicate UndefinedEncoding(ty: Ty, n: Native)
  {
    match ty
    case TScalar(k) => k == KUnit
    case TUndefinedOr(t) => n.NOpt? && (n.opt.None? || UndefinedEncoding(t, n.opt.value))
    case TOptionCall => n.NOpt? && n.opt.None?
    case TNullOr(t) => n.NOpt? && n.opt.Some? && UndefinedEncoding(t, n.opt.value)
    case TValue => n.NValue? && n.v.Undefined?
    case _ => false
  }

  /** The sentinels are recognised exactly: an encoding is null (undefined)
      precisely when the native value is one that encodes to null
      (undefined). */
  lemma {:induction false} Sentinels(w: View, lo: nat, ty: Ty, n: Native, v: JSVal)
    requires Encodes(w, lo, ty, n, v)
    ensures v == JSVal.Null <==> NullEncoding(ty, n)
    ensures v == JSVal.Undefined <==> UndefinedEncoding(ty, n)
  {
    match ty
    case TNullOr(t) =>
      if n.opt.Some? { Sentinels(w, lo, t, n.opt.value, v); }
    case TUndefinedOr(t) =>
      if n.opt.Some? { Sentinels(w, lo, t, n.opt.value, v); }
    case TValue =>
    case _ =>
  }

  /** The values whose encoding decodes back to themselves: no `Some` whose
      payload encodes to the sentinel of its `NullOr` or `UndefinedOr`, and no
      `Value::Double` that the engine would store as an int32. */
  predicate RoundTrips(ty: Ty, n: Native)
  {
    match ty
    case TVec(t) => n.NSeq? ==> forall k :: 0 <= k < |n.items| ==> RoundTrips(t, n.items[k])
    case TNullOr(t) =>
      n.NOpt? && n.opt.Some? ==> !NullEncoding(t, n.opt.value) && RoundTrips(t, n.opt.value)
    case TUndefinedOr(t) =>
      n.NOpt? && n.opt.Some? ==> !UndefinedEncoding(t, n.opt.value) && RoundTrips(t, n.opt.value)
    case TValue => n.NValue? && n.v.Double? ==> !DoubleIsInt32(n.v.d)
    case _ => true
  }

  lemma ValueRoundTrip(w: View, x: Value, v: JSVal)
    requires ValueEncodes(w, x, v)
    requires x.Double? ==> !DoubleIsInt32(x.d)
    ensures ValueDecodes(w, v, x)
  {
    match x
    case String(s) => StringRoundTrip(s, v.s);
    case _ =>
  }

  /** decode(encode(n)) == n: whatever encoding writes, decoding gives back
      the value it came from, for every value that round-trips. */
  lemma {:induction false} RoundTrip(w: View, lo: nat, ty: Ty, n: Native, v: JSVal)
    requires Encodes(w, lo, ty, n, v) && RoundTrips(ty, n)
    ensures Decodes(w, ty, v, n)
  {
    match ty
    case TScalar(_) => ScalarRoundTrip(n.x);
    case TString => StringRoundTrip(n.s, v.s);
    case TVec(t) =>
      forall k | 0 <= k < |n.items|
        ensures Decodes(w, t, w.heap[v.id].elems[k], n.items[k])
      {
        RoundTrip(w, lo, t, n.items[k], w.heap[v.id].elems[k]);
      }
    case TNullOr(t) =>
      if n.opt.Some? {
        Sentinels(w, lo, t, n.opt.value, v);
        RoundTrip(w, lo, t, n.opt.value, v);
      }
    case TUndefinedOr(t) =>
      if n.opt.Some? {
        Sentinels(w, lo, t, n.opt.value, v);
        RoundTrip(w, lo, t, n.opt.value, v);
      }
    case TValue => ValueRoundTrip(w, n.v, v);
    case _ =>
  }

  /** An integral double in the int32 range does not round-trip as a
      `Value`: the engine stores it as an int32, which decodes as
      `Value::Int32`. */
  lemma IntegralDoubleComesBackAsInt32(w: View, lo: nat, d: real, v: JSVal)
    requires Encodes(w, lo, TValue, NValue(Value.Double(d)), v) && DoubleIsInt32(d)
    ensures Decodes(w, TValue, v, NValue(Value.Int32(d.Floor)))
    ensures !Decodes(w, TValue, v, NValue(Value.Double(d)))
  {
  }

  /** `NullOr<Null>` of `Some(Null)` does not round-trip: it is written as
      null, which reads back as `None`. */
  lemma NullOrOfNullCollapses(w: View, lo: nat, v: JSVal)
    requires Encodes(w, lo, TNullOr(TScalar(KNull)), NOpt(Some(NScalar(SNull))), v)
    ensures Decodes(w, TNullOr(TScalar(KNull)), v, NOpt(None))
    ensures !Decodes(w, TNullOr(TScalar(KNull)), v, NOpt(Some(NScalar(SNull))))
  {
  }

  /** Decoding leaves the heap alone and only adds cells, so what was
      decoded stays decoded while more is decoded. */
  lemma {:induction false} DecodesExtend(w1: View, w2: View, ty: Ty, v: JSVal, n: Native)
    requires Decodes(w1, ty, v, n)
    requires w2.heap == w1.heap && w2.privates == w1.privates && w2.boxes == w1.boxes
    requires forall a :: a in w1.slots ==> a in w2.slots && w2.slots[a] == w1.slots[a]
    ensures Decodes(w2, ty, v, n)
  {
    match ty
    case TVec(t) =>
      forall k | 0 <= k < |n.items|
        ensures Decodes(w2, t, w2.heap[v.id].elems[k], n.items[k])
      {
        DecodesExtend(w1, w2, t, w1.heap[v.id].elems[k], n.items[k]);
      }
    case TNullOr(t) =>
      if v != JSVal.Null { DecodesExtend(w1, w2, t, v, n.opt.value); }
    case TUndefinedOr(t) =>
      if v != JSVal.Undefined { DecodesExtend(w1, w2, t, v, n.opt.value); }
    case _ =>
  }

  /** Encoding only relies on objects from `lo` on, so it is unaffected by a
      change to an older object, by new objects and by new boxes. */
  lemma {:induction false} EncodesFrame(w1: View, w2: View, lo: nat, ty: Ty, n: Native, v: JSVal)
    requires Encodes(w1, lo, ty, n, v)
    requires forall id :: id in w1.heap && id >= lo ==> id in w2.heap && w2.heap[id] == w1.heap[id]
    requires forall id :: id in w1.privates ==> id in w2.privates && w2.privates[id] == w1.privates[id]
    requires forall b :: b in w1.boxes ==> b in w2.boxes && w2.boxes[b] == w1.boxes[b]
    requires w2.slots == w1.slots
    ensures Encodes(w2, lo, ty, n, v)
  {
    match ty
    case TVec(t) =>
      forall k | 0 <= k < |n.items|
        ensures Encodes(w2, lo, t, n.items[k], w2.heap[v.id].elems[k])
      {
        EncodesFrame(w1, w2, lo, t, n.items[k], w1.heap[v.id].elems[k]);
      }
    case TNullOr(t) =>
      if n.opt.Some? { EncodesFrame(w1, w2, lo, t, n.opt.value, v); }
    case TUndefinedOr(t) =>
      if n.opt.Some? { EncodesFrame(w1, w2, lo, t, n.opt.value, v); }
    case _ =>
  }

  /** What is made of objects from `hi` on is made of objects from any
      `lo <= hi` on. */
  lemma {:induction false} EncodesWeaken(w: View, lo: nat, hi: nat, ty: Ty, n: Native, v: JSVal)
    requires Encodes(w, hi, ty, n, v) && lo <= hi
    ensures Encodes(w, lo, ty, n, v)
  {
    match ty
    case TVec(t) =>
      forall k | 0 <= k < |n.items|
        ensures Encodes(w, lo, t, n.items[k], w.heap[v.id].elems[k])
      {
        EncodesWeaken(w, lo, hi, t, n.items[k], w.heap[v.id].elems[k]);
      }
    case TNullOr(t) =>
      if n.opt.Some? { EncodesWeaken(w, lo, hi, t, n.opt.value, v); }
    case TUndefinedOr(t) =>
      if n.opt.Some? { EncodesWeaken(w, lo, hi, t, n.opt.value, v); }
    case _ =>
  }

  /** The `Value` variants that carry no heap reference and no string,
      decoded by their tag. */
  function ScalarValue(v: JSVal): (x: Value)
    requires v.Undefined? || v.Bool? || v.Int32? || v.Double? || v.Null?
    ensures !x.Object? && !x.String?
  {
    match v
    case Undefined => Value.Undefined
    case Bool(b) => Boolean(b)
    case Int32(i) => Value.Int32(i)
    case Double(d) => Value.Double(d)
    case Null => Value.Null
  }

  lemma ScalarValueDecodes(w: View, v: JSVal)
    requires v.Undefined? || v.Bool? || v.Int32? || v.Double? || v.Null?
    ensures Decodes(w, TValue, v, NValue(ScalarValue(v)))
  {
  }

  /** A closure-free type holds no closure. */
  lemma NoClosureHasNone(ty: Ty, n: Native)
    requires NoClosure(ty) && HasType(ty, n)
    ensures ClosureOf(n).None?
  {
  }
}
