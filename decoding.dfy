/** Decoding (`FromJSValue`, src/convert.rs, src/value.rs, src/call.rs and
    `derive_convert!` in src/macros.rs) as methods on the engine: decoding
    reads the heap, may fail on a fallible engine call (`Err`, through the
    two-argument `try_jsapi!`) or on an assertion (`Panic`), and roots every
    object it hands out in a fresh `TracedBox`. Each method is proved against
    `Conversions.Decodes` through `Decoded`. */
module Decoding {
  import opened JSApi
  import Unicode
  import opened Trace
  import opened Exceptions
  import opened Values
  import opened Scalars
  import opened Conversions

  /** The state after a decoding of `v` as `ty` that produced `r`, given the
      cells, registry, pending slot and reference counts before it. On
      success the native value decodes `v`, owns exactly the new registry
      entries, and took one clone of its closure; on failure the exception is
      the only thing left behind; a panic only happens on a value that cannot
      be decoded. */
  ghost predicate Decoded(cx: Context, slots0: map<SlotId, JSVal>, tracers0: set<SlotId>,
                          pending0: Option<JSVal>, rcs0: map<RcId, RcCell>, ty: Ty, v: JSVal, r: Outcome<Native>)
    reads cx`heap, cx`privates, cx`boxes, cx`slots, cx`tracers, cx`pending, cx`rcs, cx`thrown
  {
    SlotsGrow(slots0, cx.slots) &&
    (r.Ok? ==>
      HasType(ty, r.value) && Decodes(ViewOf(cx), ty, v, r.value) && cx.pending == pending0 &&
      Owned(cx.tracers, cx.slots, r.value) &&
      cx.tracers == tracers0 + RootsOf(r.value) && RootsOf(r.value) !! slots0.Keys &&
      cx.rcs == AfterClone(rcs0, ClosureOf(r.value))) &&
    (r.Err? ==> Raised(cx, slots0, tracers0, r.exc) && cx.rcs == rcs0) &&
    (r.Panic? ==> !Decodable(cx.heap, cx.privates, ty, v))
  }

  // The ways a decoding ends, each stated once.

  lemma PanicDecoded(cx: Context, slots0: map<SlotId, JSVal>, tracers0: set<SlotId>,
                     pending0: Option<JSVal>, rcs0: map<RcId, RcCell>, ty: Ty, v: JSVal)
    requires SlotsGrow(slots0, cx.slots) && !Decodable(cx.heap, cx.privates, ty, v)
    ensures Decoded(cx, slots0, tracers0, pending0, rcs0, ty, v, Panic)
  {
  }

  lemma ErrDecoded(cx: Context, slots0: map<SlotId, JSVal>, tracers0: set<SlotId>,
                   pending0: Option<JSVal>, rcs0: map<RcId, RcCell>, ty: Ty, v: JSVal, e: Exception)
    requires SlotsGrow(slots0, cx.slots) && Raised(cx, slots0, tracers0, e) && cx.rcs == rcs0
    ensures Decoded(cx, slots0, tracers0, pending0, rcs0, ty, v, Err(e))
  {
  }

  /** A success that created no box. */
  lemma UnrootedDecoded(cx: Context, slots0: map<SlotId, JSVal>, tracers0: set<SlotId>,
                        pending0: Option<JSVal>, rcs0: map<RcId, RcCell>, ty: Ty, v: JSVal, n: Native)
    requires cx.slots == slots0 && cx.tracers == tracers0 && cx.pending == pending0
    requires HasType(ty, n) && Decodes(ViewOf(cx), ty, v, n) && RootsOf(n) == {}
    requires cx.rcs == AfterClone(rcs0, ClosureOf(n))
    ensures Decoded(cx, slots0, tracers0, pending0, rcs0, ty, v, Ok(n))
  {
  }

  /** A success that created the one box `b`, holding `v`. */
  lemma RootedDecoded(cx: Context, slots0: map<SlotId, JSVal>, tracers0: set<SlotId>,
                      pending0: Option<JSVal>, rcs0: map<RcId, RcCell>, ty: Ty, v: JSVal, n: Native, b: TracedBox)
    requires v.Obj? && b.slot !in slots0 && cx.slots == slots0[b.slot := v]
    requires cx.tracers == tracers0 + {b.slot} && cx.pending == pending0 && cx.rcs == rcs0
    requires HasType(ty, n) && Decodes(ViewOf(cx), ty, v, n) && RootsOf(n) == {b.slot} && ClosureOf(n).None?
    ensures Decoded(cx, slots0, tracers0, pending0, rcs0, ty, v, Ok(n))
  {
  }

  /** `FromJSValue::from_js_value` at the native type `ty`. With no failure
      scheduled, a decodable value always decodes. */
  method Decode(cx: Context, ty: Ty, v: JSVal) returns (r: Outcome<Native>)
    requires cx.Valid() && Supported(ty)
    modifies cx`faults, cx`pending, cx`slots, cx`nextSlot, cx`tracers, cx`rcs
    decreases ty, 1
    ensures cx.Valid()
    ensures Decoded(cx, old(cx.slots), old(cx.tracers), old(cx.pending), old(cx.rcs), ty, v, r)
    ensures Quiet(old(cx.faults)) ==> Quiet(cx.faults)
    ensures Quiet(old(cx.faults)) && Decodable(cx.heap, cx.privates, ty, v) ==> r.Ok?
  {
    if ty.TScalar? {
      r := OfOption(DecodeScalar(ty.kind, v));
      ScalarDecoded(cx, ty.kind, v);
    } else if ty.TNullOr? || ty.TUndefinedOr? || ty.TOptionCall? {
      r := DecodeOr(cx, ty, v);
    } else if ty.TString? {
      r := DecodeString(cx, v);
    } else if ty.TVec? {
      r := DecodeVec(cx, ty.elem, v);
    } else if ty.TValue? {
      r := DecodeValue(cx, v);
    } else if ty.THandle? {
      r := DecodeHandle(cx, v);
    } else {
      r := DecodeCall(cx, v);
    }
  }

  function OfOption(x: Option<Scalar>): Outcome<Native>
  {
    if x.Some? then Ok(NScalar(x.value)) else Panic
  }

  /** A scalar decodes to what `DecodeScalar` gives, touching nothing, and
      panics exactly on the values it cannot decode. */
  lemma ScalarDecoded(cx: Context, k: Kind, v: JSVal)
    ensures Decoded(cx, cx.slots, cx.tracers, cx.pending, cx.rcs, TScalar(k), v, OfOption(DecodeScalar(k, v)))
    ensures OfOption(DecodeScalar(k, v)).Ok? <==> Decodable(cx.heap, cx.privates, TScalar(k), v)
  {
    var x := DecodeScalar(k, v);
    if x.Some? {
      UnrootedDecoded(cx, cx.slots, cx.tracers, cx.pending, cx.rcs, TScalar(k), v, NScalar(x.value));
    } else {
      PanicDecoded(cx, cx.slots, cx.tracers, cx.pending, cx.rcs, TScalar(k), v);
    }
  }

  function SomeOf(x: Outcome<Native>): Outcome<Native>
  {
    if x.Ok? then Ok(NOpt(Some(x.value))) else x
  }

  lemma SentinelDecoded(cx: Context, ty: Ty)
    requires ty.TNullOr? || ty.TUndefinedOr? || ty.TOptionCall?
    ensures Decoded(cx, cx.slots, cx.tracers, cx.pending, cx.rcs, ty, Sentinel(ty), Ok(NOpt(None)))
  {
    UnrootedDecoded(cx, cx.slots, cx.tracers, cx.pending, cx.rcs, ty, Sentinel(ty), NOpt(None));
  }

  lemma OrDecodable(heap: map<ObjId, ObjRec>, privates: map<ObjId, BoxId>, ty: Ty, v: JSVal)
    requires (ty.TNullOr? || ty.TUndefinedOr? || ty.TOptionCall?) && v != Sentinel(ty)
    ensures Decodable(heap, privates, ty, v) <==> Decodable(heap, privates, Inner(ty), v)
  {
  }

  /** The roots and closure of a `Some` are those of its content. */
  lemma SomeParts(n: Native)
    requires !n.NCall?
    ensures RootsOf(NOpt(Some(n))) == RootsOf(n) && ClosureOf(NOpt(Some(n))) == None
  {
  }

  lemma SomeDecodes(w: View, t: Ty, v: JSVal, n: Native)
    requires HasType(t, n) && Decodes(w, t, v, n)
    ensures v != JSVal.Null ==> HasType(TNullOr(t), NOpt(Some(n))) && Decodes(w, TNullOr(t), v, NOpt(Some(n)))
    ensures v != JSVal.Undefined ==> HasType(TUndefinedOr(t), NOpt(Some(n))) && Decodes(w, TUndefinedOr(t), v, NOpt(Some(n)))
  {
  }

  lemma NullOrSome(cx: Context, slots0: map<SlotId, JSVal>, tracers0: set<SlotId>,
                   pending0: Option<JSVal>, rcs0: map<RcId, RcCell>, t: Ty, v: JSVal, n: Native)
    requires NoClosure(t) && v != JSVal.Null
    requires Decoded(cx, slots0, tracers0, pending0, rcs0, t, v, Ok(n))
    ensures Decoded(cx, slots0, tracers0, pending0, rcs0, TNullOr(t), v, Ok(NOpt(Some(n))))
  {
    NoClosureHasNone(t, n);
    SomeParts(n);
    SomeDecodes(ViewOf(cx), t, v, n);
  }

  lemma UndefinedOrSome(cx: Context, slots0: map<SlotId, JSVal>, tracers0: set<SlotId>,
                        pending0: Option<JSVal>, rcs0: map<RcId, RcCell>, t: Ty, v: JSVal, n: Native)
    requires NoClosure(t) && v != JSVal.Undefined
    requires Decoded(cx, slots0, tracers0, pending0, rcs0, t, v, Ok(n))
    ensures Decoded(cx, slots0, tracers0, pending0, rcs0, TUndefinedOr(t), v, Ok(NOpt(Some(n))))
  {
    NoClosureHasNone(t, n);
    SomeParts(n);
    SomeDecodes(ViewOf(cx), t, v, n);
  }

  lemma OptionCallSome(cx: Context, slots0: map<SlotId, JSVal>, tracers0: set<SlotId>,
                       pending0: Option<JSVal>, rcs0: map<RcId, RcCell>, v: JSVal, n: Native)
    requires v != JSVal.Undefined && Decoded(cx, slots0, tracers0, pending0, rcs0, TCall, v, Ok(n))
    ensures Decoded(cx, slots0, tracers0, pending0, rcs0, TOptionCall, v, Ok(NOpt(Some(n))))
  {
  }

  /** Any other value decodes as the inner type, and its outcome is
      wrapped in `Some`; it is decodable exactly when it is as the inner
      type. */
  lemma OrDecoded(cx: Context, slots0: map<SlotId, JSVal>, tracers0: set<SlotId>,
                  pending0: Option<JSVal>, rcs0: map<RcId, RcCell>, ty: Ty, v: JSVal, x: Outcome<Native>)
    requires (ty.TNullOr? || ty.TUndefinedOr? || ty.TOptionCall?) && Supported(ty) && v != Sentinel(ty)
    requires Decoded(cx, slots0, tracers0, pending0, rcs0, Inner(ty), v, x) == true
    ensures Decoded(cx, slots0, tracers0, pending0, rcs0, ty, v, SomeOf(x))
    ensures Decodable(cx.heap, cx.privates, ty, v) <==> Decodable(cx.heap, cx.privates, Inner(ty), v)
  {
    OrDecodable(cx.heap, cx.privates, ty, v);
    match x
    case Ok(n) =>
      if ty.TOptionCall? {
        OptionCallSome(cx, slots0, tracers0, pending0, rcs0, v, n);
      } else if ty.TNullOr? {
        NullOrSome(cx, slots0, tracers0, pending0, rcs0, ty.inner, v, n);
      } else {
        UndefinedOrSome(cx, slots0, tracers0, pending0, rcs0, ty.inner, v, n);
      }
    case Err(e) =>
      ErrDecoded(cx, slots0, tracers0, pending0, rcs0, ty, v, e);
    case Panic =>
      PanicDecoded(cx, slots0, tracers0, pending0, rcs0, ty, v);
  }

  /** `NullOr<T>`, `UndefinedOr<T>` and `Option<T>` of a closure: the
      sentinel (null, undefined, undefined) gives `None`; anything else is
      decoded as `T`. */
  method DecodeOr(cx: Context, ty: Ty, v: JSVal) returns (r: Outcome<Native>)
    requires cx.Valid() && Supported(ty) && (ty.TNullOr? || ty.TUndefinedOr? || ty.TOptionCall?)
    modifies cx`faults, cx`pending, cx`slots, cx`nextSlot, cx`tracers, cx`rcs
    decreases ty, 0
    ensures cx.Valid()
    ensures Decoded(cx, old(cx.slots), old(cx.tracers), old(cx.pending), old(cx.rcs), ty, v, r)
    ensures Quiet(old(cx.faults)) ==> Quiet(cx.faults)
    ensures Quiet(old(cx.faults)) && Decodable(cx.heap, cx.privates, ty, v) ==> r.Ok?
  {
    if v == Sentinel(ty) {
      r := Ok(NOpt(None));
      SentinelDecoded(cx, ty);
      return;
    }
    var x;
    if ty.TOptionCall? {
      x := DecodeCall(cx, v);
    } else {
      x := Decode(cx, ty.inner, v);
    }
    r := SomeOf(x);
    OrDecoded(cx, old(cx.slots), old(cx.tracers), old(cx.pending), old(cx.rcs), ty, v, x);
  }

  lemma StringPanics(cx: Context, v: JSVal)
    requires !v.Str?
    ensures Decoded(cx, cx.slots, cx.tracers, cx.pending, cx.rcs, TString, v, Panic)
    ensures !Decodable(cx.heap, cx.privates, TString, v)
  {
    PanicDecoded(cx, cx.slots, cx.tracers, cx.pending, cx.rcs, TString, v);
  }

  lemma StringDecoded(cx: Context, v: JSVal, s: string)
    requires v.Str? && s == CharsToString(v.s)
    ensures Decoded(cx, cx.slots, cx.tracers, cx.pending, cx.rcs, TString, v, Ok(NString(s)))
  {
    UnrootedDecoded(cx, cx.slots, cx.tracers, cx.pending, cx.rcs, TString, v, NString(s));
  }

  /** `String` decoding: `to_string` (asserting a string), then a copy of
      its characters, Latin-1 or UTF-16 as the engine stores them. */
  method DecodeString(cx: Context, v: JSVal) returns (r: Outcome<Native>)
    requires cx.Valid()
    modifies cx`faults, cx`pending, cx`slots, cx`nextSlot, cx`tracers
    ensures cx.Valid()
    ensures Decoded(cx, old(cx.slots), old(cx.tracers), old(cx.pending), old(cx.rcs), TString, v, r)
    ensures Quiet(old(cx.faults)) ==> Quiet(cx.faults)
    ensures Quiet(old(cx.faults)) && v.Str? ==> r.Ok?
    ensures r.Err? ==> v.Str?
  {
    if !v.Str? {
      r := Panic;
      StringPanics(cx, v);
      return;
    }
    var ok, units := cx.GetStringChars(v.s);
    if !ok {
      r := Raise(cx);
      ErrDecoded(cx, old(cx.slots), old(cx.tracers), old(cx.pending), old(cx.rcs), TString, v, r.exc);
      return;
    }
    var s := if v.s.latin1 then Unicode.DecodeLatin1(units) else Unicode.DecodeLossy(units);
    r := Ok(NString(s));
    StringDecoded(cx, v, s);
  }

  /** One `Value` from the engine value `v` of its tag, which the box `b`
      made for it holds. */
  lemma RootDecoded(cx: Context, slots0: map<SlotId, JSVal>, tracers0: set<SlotId>,
                    pending0: Option<JSVal>, rcs0: map<RcId, RcCell>, ty: Ty, v: JSVal, b: TracedBox)
    requires ty == THandle || ty == TValue
    requires v.Obj? && b.slot !in slots0 && cx.slots == slots0[b.slot := v]
    requires cx.tracers == tracers0 + {b.slot} && cx.pending == pending0 && cx.rcs == rcs0
    ensures Decoded(cx, slots0, tracers0, pending0, rcs0, ty, v, Ok(if ty == THandle then NHandle(b) else NValue(Object(b))))
    ensures Decodable(cx.heap, cx.privates, ty, v)
  {
    RootedDecoded(cx, slots0, tracers0, pending0, rcs0, ty, v, if ty == THandle then NHandle(b) else NValue(Object(b)), b);
  }

  lemma HandlePanics(cx: Context, v: JSVal)
    requires !v.Obj?
    ensures Decoded(cx, cx.slots, cx.tracers, cx.pending, cx.rcs, THandle, v, Panic)
    ensures !Decodable(cx.heap, cx.privates, THandle, v)
  {
    PanicDecoded(cx, cx.slots, cx.tracers, cx.pending, cx.rcs, THandle, v);
  }

  /** A `derive_convert!` facade: `to_object` (asserting an object), then a
      fresh `TracedBox` holding it. */
  method DecodeHandle(cx: Context, v: JSVal) returns (r: Outcome<Native>)
    requires cx.Valid()
    modifies cx`slots, cx`nextSlot, cx`tracers
    ensures cx.Valid()
    ensures Decoded(cx, old(cx.slots), old(cx.tracers), old(cx.pending), old(cx.rcs), THandle, v, r)
    ensures r.Ok? <==> Decodable(cx.heap, cx.privates, THandle, v)
  {
    if !v.Obj? {
      r := Panic;
      HandlePanics(cx, v);
      return;
    }
    var b := New(cx, v);
    r := Ok(NHandle(b));
    RootDecoded(cx, old(cx.slots), old(cx.tracers), old(cx.pending), old(cx.rcs), THandle, v, b);
  }

  function StrValue(s: Outcome<Native>): Outcome<Native>
  {
    if s.Ok? && s.value.NString? then Ok(NValue(String(s.value.s))) else s
  }

  /** A string decoded as a `String` is decoded as a `Value::String`. */
  lemma StringAsValue(cx: Context, slots0: map<SlotId, JSVal>, tracers0: set<SlotId>,
                      pending0: Option<JSVal>, rcs0: map<RcId, RcCell>, v: JSVal, s: Outcome<Native>)
    requires v.Str? && Decoded(cx, slots0, tracers0, pending0, rcs0, TString, v, s) == true
    ensures Decoded(cx, slots0, tracers0, pending0, rcs0, TValue, v, StrValue(s))
    ensures StrValue(s).Ok? == s.Ok?
  {
  }

  lemma ValuePanics(cx: Context, v: JSVal)
    requires v.Symbol?
    ensures Decoded(cx, cx.slots, cx.tracers, cx.pending, cx.rcs, TValue, v, Panic)
    ensures !Decodable(cx.heap, cx.privates, TValue, v)
  {
    PanicDecoded(cx, cx.slots, cx.tracers, cx.pending, cx.rcs, TValue, v);
  }

  lemma ScalarValueDecoded(cx: Context, v: JSVal)
    requires v.Undefined? || v.Bool? || v.Int32? || v.Double? || v.Null?
    ensures Decoded(cx, cx.slots, cx.tracers, cx.pending, cx.rcs, TValue, v, Ok(NValue(ScalarValue(v))))
  {
    ScalarValueDecodes(ViewOf(cx), v);
    UnrootedDecoded(cx, cx.slots, cx.tracers, cx.pending, cx.rcs, TValue, v, NValue(ScalarValue(v)));
  }

  /** `Value` decoding: the variant is picked by the value's tag; any tag the
      bridge does not know is a `panic!`. */
  method DecodeValue(cx: Context, v: JSVal) returns (r: Outcome<Native>)
    requires cx.Valid()
    modifies cx`faults, cx`pending, cx`slots, cx`nextSlot, cx`tracers
    ensures cx.Valid()
    ensures Decoded(cx, old(cx.slots), old(cx.tracers), old(cx.pending), old(cx.rcs), TValue, v, r)
    ensures Quiet(old(cx.faults)) ==> Quiet(cx.faults)
    ensures Quiet(old(cx.faults)) && Decodable(cx.heap, cx.privates, TValue, v) ==> r.Ok?
  {
    if v.Symbol? {
      r := Panic;
      ValuePanics(cx, v);
    } else if v.Str? {
      var s := DecodeString(cx, v);
      r := StrValue(s);
      StringAsValue(cx, old(cx.slots), old(cx.tracers), old(cx.pending), old(cx.rcs), v, s);
    } else if v.Obj? {
      var b := New(cx, v);
      r := Ok(NValue(Object(b)));
      RootDecoded(cx, old(cx.slots), old(cx.tracers), old(cx.pending), old(cx.rcs), TValue, v, b);
    } else {
      r := Ok(NValue(ScalarValue(v)));
      ScalarValueDecoded(cx, v);
    }
  }

  /** Part-way through decoding the array `id` as `Vec<t>`: `items` decodes
      its first elements in the view `w`. */
  ghost predicate VecDecodes(w: View, t: Ty, id: ObjId, items: seq<Native>)
  {
    id in w.heap && |items| <= |w.heap[id].elems| &&
    (forall k :: 0 <= k < |items| ==> HasType(t, items[k])) &&
    (forall k :: 0 <= k < |items| ==> Decodes(w, t, w.heap[id].elems[k], items[k]))
  }

  /** ... and owns exactly the registry entries added to `tracers0`, in
      cells that did not exist in `slots0`. */
  ghost predicate VecOwns(tracers: set<SlotId>, slots: map<SlotId, JSVal>, slots0: map<SlotId, JSVal>,
                          tracers0: set<SlotId>, items: seq<Native>)
  {
    SlotsGrow(slots0, slots) && Owned(tracers, slots, NSeq(items)) &&
    tracers == tracers0 + RootsOf(NSeq(items)) && RootsOf(NSeq(items)) !! slots0.Keys
  }

  ghost predicate VecSoFar(cx: Context, slots0: map<SlotId, JSVal>, tracers0: set<SlotId>,
                           t: Ty, id: ObjId, items: seq<Native>)
    reads cx`heap, cx`privates, cx`boxes, cx`slots, cx`tracers
  {
    VecDecodes(ViewOf(cx), t, id, items) && VecOwns(cx.tracers, cx.slots, slots0, tracers0, items)
  }

  lemma VecStarted(cx: Context, t: Ty, id: ObjId)
    requires id in cx.heap
    ensures VecSoFar(cx, cx.slots, cx.tracers, t, id, [])
  {
    assert RootsOf(NSeq([])) == {};
  }

  /** The elements decoded so far stay decoded in a view that only added
      cells, and the next one joins them. */
  lemma VecDecodesSnoc(w1: View, w2: View, t: Ty, id: ObjId, items: seq<Native>, x: Native)
    requires VecDecodes(w1, t, id, items) && |items| < |w1.heap[id].elems|
    requires w2.heap == w1.heap && w2.privates == w1.privates && w2.boxes == w1.boxes && SlotsGrow(w1.slots, w2.slots)
    requires HasType(t, x) && Decodes(w2, t, w1.heap[id].elems[|items|], x)
    ensures VecDecodes(w2, t, id, items + [x])
  {
    var l := items + [x];
    forall k | 0 <= k < |l|
      ensures HasType(t, l[k]) && Decodes(w2, t, w2.heap[id].elems[k], l[k])
    {
      if k < |items| {
        DecodesExtend(w1, w2, t, w1.heap[id].elems[k], items[k]);
      }
    }
  }

  /** The next element's own roots, new and live, join those owned so far. */
  lemma VecOwnsSnoc(tracers1: set<SlotId>, slots1: map<SlotId, JSVal>, tracers2: set<SlotId>, slots2: map<SlotId, JSVal>,
                    slots0: map<SlotId, JSVal>, tracers0: set<SlotId>, items: seq<Native>, x: Native)
    requires VecOwns(tracers1, slots1, slots0, tracers0, items) && SlotsGrow(slots1, slots2)
    requires Owned(tracers2, slots2, x) && tracers2 == tracers1 + RootsOf(x) && RootsOf(x) !! slots1.Keys
    ensures VecOwns(tracers2, slots2, slots0, tracers0, items + [x])
  {
    RootsOfSnoc(items, x);
  }

  /** After decoding the element following `done`: either the collection
      goes on with one more element, or the whole decoding has failed. */
  ghost predicate ElementDecoded(cx: Context, slots0: map<SlotId, JSVal>, tracers0: set<SlotId>,
                                 pending0: Option<JSVal>, rcs0: map<RcId, RcCell>, t: Ty, v: JSVal,
                                 done: seq<Native>, r: Outcome<Native>)
    reads cx`heap, cx`privates, cx`boxes, cx`slots, cx`tracers, cx`pending, cx`rcs, cx`thrown
  {
    (r.Ok? ==> v.Obj? && VecSoFar(cx, slots0, tracers0, t, v.id, done + [r.value]) && cx.pending == pending0 && cx.rcs == rcs0) &&
    (!r.Ok? ==> Decoded(cx, slots0, tracers0, pending0, rcs0, TVec(t), v, r))
  }

  /** One more element decoded keeps the collection's invariant. */
  lemma VecExtended(cx: Context, slots1: map<SlotId, JSVal>, tracers1: set<SlotId>, pending1: Option<JSVal>,
                    rcs1: map<RcId, RcCell>, w1: View, slots0: map<SlotId, JSVal>, tracers0: set<SlotId>,
                    t: Ty, v: JSVal, items: seq<Native>, e: JSVal, r: Outcome<Native>)
    requires v.Obj? && NoClosure(t) && w1.slots == slots1 && VecDecodes(w1, t, v.id, items) == true && |items| < |w1.heap[v.id].elems|
    requires VecOwns(tracers1, slots1, slots0, tracers0, items) == true
    requires cx.heap == w1.heap && cx.privates == w1.privates && cx.boxes == w1.boxes
    requires e == w1.heap[v.id].elems[|items|] && r.Ok? && Decoded(cx, slots1, tracers1, pending1, rcs1, t, e, r) == true
    ensures ElementDecoded(cx, slots0, tracers0, pending1, rcs1, t, v, items, r)
  {
    VecDecodesSnoc(w1, ViewOf(cx), t, v.id, items, r.value);
    VecOwnsSnoc(tracers1, slots1, cx.tracers, cx.slots, slots0, tracers0, items, r.value);
    NoClosureHasNone(t, r.value);
  }

  /** An element that cannot be decoded makes the array undecodable. */
  lemma VecPanics(cx: Context, slots0: map<SlotId, JSVal>, tracers0: set<SlotId>, pending0: Option<JSVal>,
                  rcs0: map<RcId, RcCell>, slots1: map<SlotId, JSVal>, tracers1: set<SlotId>,
                  t: Ty, v: JSVal, done: seq<Native>, e: JSVal)
    requires v.Obj? && v.id in cx.heap && |done| < |cx.heap[v.id].elems| && e == cx.heap[v.id].elems[|done|]
    requires SlotsGrow(slots0, slots1) && Decoded(cx, slots1, tracers1, pending0, rcs0, t, e, Panic) == true
    ensures ElementDecoded(cx, slots0, tracers0, pending0, rcs0, t, v, done, Panic)
  {
  }

  lemma VecAbandoned(cx: Context, slots0: map<SlotId, JSVal>, tracers0: set<SlotId>, pending0: Option<JSVal>,
                     rcs0: map<RcId, RcCell>, t: Ty, v: JSVal, done: seq<Native>, e: Exception)
    requires SlotsGrow(slots0, cx.slots) && Raised(cx, slots0, tracers0, e) && cx.rcs == rcs0
    ensures ElementDecoded(cx, slots0, tracers0, pending0, rcs0, t, v, done, Err(e))
  {
    ErrDecoded(cx, slots0, tracers0, pending0, rcs0, TVec(t), v, e);
  }

  /** An array is decodable only if each of its elements is. */
  lemma ItemDecodable(heap: map<ObjId, ObjRec>, privates: map<ObjId, BoxId>, t: Ty, v: JSVal, k: nat)
    requires v.Obj? && v.id in heap && k < |heap[v.id].elems|
    ensures Decodable(heap, privates, TVec(t), v) ==> Decodable(heap, privates, t, heap[v.id].elems[k])
  {
  }

  lemma VecDone(cx: Context, slots0: map<SlotId, JSVal>, tracers0: set<SlotId>,
                pending0: Option<JSVal>, rcs0: map<RcId, RcCell>, t: Ty, v: JSVal, items: seq<Native>)
    requires v.Obj? && v.id in cx.heap && |items| == |cx.heap[v.id].elems|
    requires VecSoFar(cx, slots0, tracers0, t, v.id, items) == true
    requires cx.pending == pending0 && cx.rcs == rcs0
    ensures Decoded(cx, slots0, tracers0, pending0, rcs0, TVec(t), v, Ok(NSeq(items)))
  {
  }

  /** `Vec<T>` decoding: `to_object` (asserting an object), its length, then
      each element in order. */
  method DecodeVec(cx: Context, t: Ty, v: JSVal) returns (r: Outcome<Native>)
    requires cx.Valid() && NoClosure(t)
    modifies cx`faults, cx`pending, cx`slots, cx`nextSlot, cx`tracers, cx`rcs
    decreases t, 5
    ensures cx.Valid()
    ensures Decoded(cx, old(cx.slots), old(cx.tracers), old(cx.pending), old(cx.rcs), TVec(t), v, r)
    ensures Quiet(old(cx.faults)) ==> Quiet(cx.faults)
    ensures Quiet(old(cx.faults)) && Decodable(cx.heap, cx.privates, TVec(t), v) ==> r.Ok?
  {
    if !v.Obj? || v.id !in cx.heap {
      r := Panic;
      PanicDecoded(cx, cx.slots, cx.tracers, cx.pending, cx.rcs, TVec(t), v);
      return;
    }
    var ok, length := cx.GetArrayLength(v.id);
    if !ok {
      r := Raise(cx);
      ErrDecoded(cx, old(cx.slots), old(cx.tracers), old(cx.pending), old(cx.rcs), TVec(t), v, r.exc);
      return;
    }
    r := DecodeItems(cx, t, v, length);
  }

  /** The elements of the array `v`, of which there are `length`, decoded
      in index order. */
  method DecodeItems(cx: Context, t: Ty, v: JSVal, length: nat) returns (r: Outcome<Native>)
    requires cx.Valid() && NoClosure(t) && v.Obj? && v.id in cx.heap && length == |cx.heap[v.id].elems|
    modifies cx`faults, cx`pending, cx`slots, cx`nextSlot, cx`tracers, cx`rcs
    decreases t, 4
    ensures cx.Valid()
    ensures Decoded(cx, old(cx.slots), old(cx.tracers), old(cx.pending), old(cx.rcs), TVec(t), v, r)
    ensures Quiet(old(cx.faults)) ==> Quiet(cx.faults)
    ensures Quiet(old(cx.faults)) && Decodable(cx.heap, cx.privates, TVec(t), v) ==> r.Ok?
  {
    var roots: set<SlotId> := {};
    var done: seq<Native> := [];
    VecStarted(cx, t, v.id);
    while |done| < length
      invariant cx.Valid() && v.id in cx.heap && length == |cx.heap[v.id].elems|
      invariant cx.pending == old(cx.pending) && cx.rcs == old(cx.rcs) && old(cx.tracers) <= old(cx.slots).Keys
      invariant |done| <= length && roots == RootsOf(NSeq(done))
      invariant VecSoFar(cx, old(cx.slots), old(cx.tracers), t, v.id, done)
      invariant Quiet(old(cx.faults)) ==> Quiet(cx.faults)
    {
      var x := DecodeNext(cx, t, v, |done|, done, roots, old(cx.slots), old(cx.tracers), old(cx.pending), old(cx.rcs));
      if !x.Ok? {
        return x;
      }
      RootsOfSnoc(done, x.value);
      roots := roots + RootsOf(x.value);
      done := done + [x.value];
    }
    r := Ok(NSeq(done));
    VecDone(cx, old(cx.slots), old(cx.tracers), old(cx.pending), old(cx.rcs), t, v, done);
  }

  /** Dropping the partly built vector after an exception: its registry
      entries and cells go, and the exception is all that is left. */
  method Abandon(cx: Context, roots: set<SlotId>, e: Exception, ghost slots0: map<SlotId, JSVal>,
                 ghost tracers0: set<SlotId>, ghost slots1: map<SlotId, JSVal>)
    requires cx.Valid() && Raised(cx, slots1, tracers0 + roots, e) && SlotsGrow(slots1, cx.slots)
    requires SlotsGrow(slots0, slots1) && roots <= slots1.Keys && roots !! slots0.Keys && tracers0 <= slots0.Keys
    modifies cx`slots, cx`tracers
    ensures cx.Valid() && Raised(cx, slots0, tracers0, e) && SlotsGrow(slots0, cx.slots)
  {
    DropRoots(cx, roots);
  }

  /** The elements `done` own exactly the registry entries `roots`. */
  lemma OwnsRoots(cx: Context, slots0: map<SlotId, JSVal>, tracers0: set<SlotId>, t: Ty, id: ObjId,
                  done: seq<Native>, roots: set<SlotId>)
    requires VecSoFar(cx, slots0, tracers0, t, id, done) == true && roots == RootsOf(NSeq(done))
    ensures cx.tracers == tracers0 + roots && roots <= cx.slots.Keys && roots !! slots0.Keys
    ensures SlotsGrow(slots0, cx.slots) && id in cx.heap && |done| <= |cx.heap[id].elems|
  {
  }

  /** One step of the collection: the element after `done` is read and
      decoded. On an exception the elements decoded so far, which own the
      registry entries `roots`, are dropped, so those entries go, and the
      whole decoding fails. */
  method DecodeNext(cx: Context, t: Ty, v: JSVal, index: nat, ghost done: seq<Native>, roots: set<SlotId>,
                    ghost slots0: map<SlotId, JSVal>, ghost tracers0: set<SlotId>,
                    ghost pending0: Option<JSVal>, ghost rcs0: map<RcId, RcCell>)
    returns (r: Outcome<Native>)
    requires cx.Valid() && NoClosure(t) && v.Obj? && v.id in cx.heap && index == |done| < |cx.heap[v.id].elems|
    requires VecSoFar(cx, slots0, tracers0, t, v.id, done) == true && roots == RootsOf(NSeq(done))
    requires tracers0 <= slots0.Keys && cx.rcs == rcs0 && cx.pending == pending0
    modifies cx`faults, cx`pending, cx`slots, cx`nextSlot, cx`tracers, cx`rcs
    decreases t, 3
    ensures cx.Valid() && v.id in cx.heap && |cx.heap[v.id].elems| == old(|cx.heap[v.id].elems|)
    ensures ElementDecoded(cx, slots0, tracers0, pending0, rcs0, t, v, done, r)
    ensures Quiet(old(cx.faults)) ==> Quiet(cx.faults)
    ensures Quiet(old(cx.faults)) && Decodable(cx.heap, cx.privates, TVec(t), v) ==> r.Ok?
  {
    OwnsRoots(cx, slots0, tracers0, t, v.id, done, roots);
    var got, element := cx.GetElement(v.id, index);
    if !got {
      r := Unreadable(cx, t, v, done, roots, slots0, tracers0, pending0, rcs0);
    } else {
      ItemDecodable(cx.heap, cx.privates, t, v, index);
      r := DecodeElement(cx, t, v, element, done, roots, slots0, tracers0, pending0, rcs0);
    }
  }

  /** Reading the element failed: the exception is taken and the elements
      decoded so far are dropped. */
  method Unreadable(cx: Context, t: Ty, v: JSVal, ghost done: seq<Native>, roots: set<SlotId>,
                    ghost slots0: map<SlotId, JSVal>, ghost tracers0: set<SlotId>,
                    ghost pending0: Option<JSVal>, ghost rcs0: map<RcId, RcCell>)
    returns (r: Outcome<Native>)
    requires cx.Valid() && cx.pending == Some(cx.thrown) && cx.rcs == rcs0
    requires cx.tracers == tracers0 + roots && roots <= cx.slots.Keys && roots !! slots0.Keys
    requires SlotsGrow(slots0, cx.slots) && tracers0 <= slots0.Keys
    modifies cx`pending, cx`slots, cx`nextSlot, cx`tracers
    ensures cx.Valid() && r.Err?
    ensures ElementDecoded(cx, slots0, tracers0, pending0, rcs0, t, v, done, r)
  {
    r := Raise(cx);
    Abandon(cx, roots, r.exc, slots0, tracers0, old(cx.slots));
    VecAbandoned(cx, slots0, tracers0, pending0, rcs0, t, v, done, r.exc);
  }

  /** Decoding the element `e` read at the end of `done`. */
  method DecodeElement(cx: Context, t: Ty, v: JSVal, e: JSVal, ghost done: seq<Native>, roots: set<SlotId>,
                       ghost slots0: map<SlotId, JSVal>, ghost tracers0: set<SlotId>,
                       ghost pending0: Option<JSVal>, ghost rcs0: map<RcId, RcCell>)
    returns (r: Outcome<Native>)
    requires cx.Valid() && NoClosure(t) && v.Obj? && v.id in cx.heap && |done| < |cx.heap[v.id].elems|
    requires e == cx.heap[v.id].elems[|done|]
    requires VecSoFar(cx, slots0, tracers0, t, v.id, done) == true
    requires cx.tracers == tracers0 + roots && roots <= cx.slots.Keys && roots !! slots0.Keys
    requires tracers0 <= slots0.Keys && cx.rcs == rcs0 && cx.pending == pending0
    modifies cx`faults, cx`pending, cx`slots, cx`nextSlot, cx`tracers, cx`rcs
    decreases t, 2
    ensures cx.Valid() && v.id in cx.heap && |cx.heap[v.id].elems| == old(|cx.heap[v.id].elems|)
    ensures ElementDecoded(cx, slots0, tracers0, pending0, rcs0, t, v, done, r)
    ensures Quiet(old(cx.faults)) ==> Quiet(cx.faults)
    ensures Quiet(old(cx.faults)) && Decodable(cx.heap, cx.privates, t, e) ==> r.Ok?
  {
    ghost var w1, slots1, tracers1 := ViewOf(cx), cx.slots, cx.tracers;
    r := Decode(cx, t, e);
    Settle(cx, t, v, e, done, roots, r, w1, slots1, tracers1, slots0, tracers0, pending0, rcs0);
  }

  /** After the element's decoding: on an exception the elements decoded so
      far are dropped. */
  method Settle(cx: Context, t: Ty, v: JSVal, e: JSVal, ghost done: seq<Native>, roots: set<SlotId>, r: Outcome<Native>,
                ghost w1: View, ghost slots1: map<SlotId, JSVal>, ghost tracers1: set<SlotId>,
                ghost slots0: map<SlotId, JSVal>, ghost tracers0: set<SlotId>,
                ghost pending0: Option<JSVal>, ghost rcs0: map<RcId, RcCell>)
    requires cx.Valid() && v.Obj? && NoClosure(t) && w1.slots == slots1 && VecDecodes(w1, t, v.id, done) == true
    requires |done| < |w1.heap[v.id].elems| && e == w1.heap[v.id].elems[|done|]
    requires VecOwns(tracers1, slots1, slots0, tracers0, done) == true
    requires cx.heap == w1.heap && cx.privates == w1.privates && cx.boxes == w1.boxes
    requires tracers1 == tracers0 + roots && roots <= slots1.Keys && roots !! slots0.Keys && tracers0 <= slots0.Keys
    requires Decoded(cx, slots1, tracers1, pending0, rcs0, t, e, r) == true
    modifies cx`slots, cx`tracers
    ensures cx.Valid()
    ensures ElementDecoded(cx, slots0, tracers0, pending0, rcs0, t, v, done, r)
  {
    if r.Err? {
      Abandon(cx, roots, r.exc, slots0, tracers0, slots1);
    }
    ElementStep(cx, slots1, tracers1, w1, slots0, tracers0, pending0, rcs0, t, v, done, e, r);
  }

  /** The three ways the decoding of one element ends, seen from the
      collection. */
  lemma ElementStep(cx: Context, slots1: map<SlotId, JSVal>, tracers1: set<SlotId>, w1: View,
                    slots0: map<SlotId, JSVal>, tracers0: set<SlotId>, pending0: Option<JSVal>, rcs0: map<RcId, RcCell>,
                    t: Ty, v: JSVal, done: seq<Native>, e: JSVal, r: Outcome<Native>)
    requires v.Obj? && NoClosure(t) && w1.slots == slots1 && VecDecodes(w1, t, v.id, done) == true
    requires |done| < |w1.heap[v.id].elems| && e == w1.heap[v.id].elems[|done|]
    requires VecOwns(tracers1, slots1, slots0, tracers0, done) == true
    requires cx.heap == w1.heap && cx.privates == w1.privates && cx.boxes == w1.boxes
    requires r.Err? ==> SlotsGrow(slots0, cx.slots) && Raised(cx, slots0, tracers0, r.exc) && cx.rcs == rcs0
    requires !r.Err? ==> Decoded(cx, slots1, tracers1, pending0, rcs0, t, e, r) == true
    ensures ElementDecoded(cx, slots0, tracers0, pending0, rcs0, t, v, done, r)
  {
    if r.Ok? {
      VecExtended(cx, slots1, tracers1, pending0, rcs0, w1, slots0, tracers0, t, v, done, e, r);
    } else if r.Err? {
      VecAbandoned(cx, slots0, tracers0, pending0, rcs0, t, v, done, r.exc);
    } else {
      VecPanics(cx, slots0, tracers0, pending0, rcs0, slots1, tracers1, t, v, done, e);
    }
  }

  lemma CallPanics(cx: Context, v: JSVal)
    requires var p := DecodeCallPtr(cx.heap, cx.privates, v); p.None? || p.value.None?
    ensures Decoded(cx, cx.slots, cx.tracers, cx.pending, cx.rcs, TCall, v, Panic)
    ensures !Decodable(cx.heap, cx.privates, TCall, v)
  {
    PanicDecoded(cx, cx.slots, cx.tracers, cx.pending, cx.rcs, TCall, v);
  }

  /** The closure in the box `b` that `v` owns, cloned once. */
  lemma CallDecoded(cx: Context, slots0: map<SlotId, JSVal>, tracers0: set<SlotId>,
                    pending0: Option<JSVal>, rcs0: map<RcId, RcCell>, v: JSVal, b: BoxId)
    requires DecodeCallPtr(cx.heap, cx.privates, v) == Some(Some(b)) && b in cx.boxes
    requires cx.slots == slots0 && cx.tracers == tracers0 && cx.pending == pending0
    requires cx.boxes[b].rc in rcs0
    requires cx.rcs == rcs0[cx.boxes[b].rc := RcCell(rcs0[cx.boxes[b].rc].strong + 1, rcs0[cx.boxes[b].rc].handler)]
    ensures Decoded(cx, slots0, tracers0, pending0, rcs0, TCall, v, Ok(NCall(cx.boxes[b].rc)))
    ensures Decodable(cx.heap, cx.privates, TCall, v)
  {
    UnrootedDecoded(cx, slots0, tracers0, pending0, rcs0, TCall, v, NCall(cx.boxes[b].rc));
  }

  /** A closure `T: Call + Clone`: the object must be of the bridge's call
      class (asserted); the box in its private slot is read as holding a `T`,
      which is cloned. A null private slot is a null dereference. */
  method DecodeCall(cx: Context, v: JSVal) returns (r: Outcome<Native>)
    requires cx.Valid()
    modifies cx`rcs
    ensures cx.Valid()
    ensures Decoded(cx, old(cx.slots), old(cx.tracers), old(cx.pending), old(cx.rcs), TCall, v, r)
    ensures !r.Err?
    ensures r.Ok? <==> Decodable(cx.heap, cx.privates, TCall, v)
  {
    var p := DecodeCallPtr(cx.heap, cx.privates, v);
    if p.None? || p.value.None? {
      r := Panic;
      CallPanics(cx, v);
      return;
    }
    var b := p.value.value;
    var c := cx.boxes[b];
    cx.RcClone(c.rc);
    r := Ok(NCall(c.rc));
    CallDecoded(cx, old(cx.slots), old(cx.tracers), old(cx.pending), old(cx.rcs), v, b);
  }
}
