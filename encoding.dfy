/** Encoding (`ToJSValue`, src/convert.rs, src/value.rs, src/call.rs and
    `derive_convert!` in src/macros.rs) as methods on the engine: encoding
    creates objects, boxes and strings, writes the output slot, and reports a
    failed engine call as `false` (the one-argument `try_jsapi!`), leaving the
    engine's exception pending. Each method is proved against
    `Conversions.Encodes` through `Encoded`. */
module Encoding {
  import opened JSApi
  import Unicode
  import opened Trace
  import opened Values
  import opened Scalars
  import opened Conversions

  /** Every entry of `m0` is still in `m`, unchanged. */
  ghost predicate Extends<K, V>(m0: map<K, V>, m: map<K, V>)
  {
    forall k :: k in m0 ==> k in m && m[k] == m0[k]
  }

  /** The state after an encoding of `n` as `ty` that returned `ok` and
      wrote `rval`, given the objects, private slots, boxes, allocation mark
      and pending slot before it: what existed is untouched; on success
      `rval` encodes `n` out of objects allocated from `lo` on and nothing is
      pending that was not before; on failure the engine's exception is
      pending. */
  ghost predicate Encoded(cx: Context, heap0: map<ObjId, ObjRec>, privates0: map<ObjId, BoxId>,
                          boxes0: map<BoxId, Closure>, lo: nat, pending0: Option<JSVal>,
                          ty: Ty, n: Native, ok: bool, rval: JSVal)
    reads cx`heap, cx`privates, cx`boxes, cx`slots, cx`nextObj, cx`pending, cx`thrown
  {
    Extends(heap0, cx.heap) && Extends(privates0, cx.privates) && Extends(boxes0, cx.boxes) &&
    lo <= cx.nextObj &&
    (ok ==> Encodes(ViewOf(cx), lo, ty, n, rval) && cx.pending == pending0) &&
    (!ok ==> cx.pending == Some(cx.thrown))
  }

  // The ways an encoding ends, each stated once.

  /** An encoding that changed nothing but the output slot. */
  lemma InPlaceEncoded(cx: Context, ty: Ty, n: Native, rval: JSVal)
    requires Encodes(ViewOf(cx), cx.nextObj, ty, n, rval)
    ensures Encoded(cx, cx.heap, cx.privates, cx.boxes, cx.nextObj, cx.pending, ty, n, true, rval)
  {
  }

  /** An encoding whose last engine call failed. */
  lemma FailedEncoded(cx: Context, heap0: map<ObjId, ObjRec>, privates0: map<ObjId, BoxId>,
                      boxes0: map<BoxId, Closure>, lo: nat, pending0: Option<JSVal>, ty: Ty, n: Native, rval: JSVal)
    requires Extends(heap0, cx.heap) && Extends(privates0, cx.privates) && Extends(boxes0, cx.boxes)
    requires lo <= cx.nextObj && cx.pending == Some(cx.thrown)
    ensures Encoded(cx, heap0, privates0, boxes0, lo, pending0, ty, n, false, rval)
  {
  }

  /** `JS_WrapValue` on the output slot, the last step of the encodings
      that hand out an engine string or object: compartments are not
      modelled, so it changes nothing but can fail. */
  method Wrap(cx: Context, ghost heap0: map<ObjId, ObjRec>, ghost privates0: map<ObjId, BoxId>,
              ghost boxes0: map<BoxId, Closure>, ghost lo: nat, ghost pending0: Option<JSVal>,
              ghost ty: Ty, ghost n: Native, rval: JSVal)
    returns (ok: bool)
    requires Encoded(cx, heap0, privates0, boxes0, lo, pending0, ty, n, true, rval) == true
    modifies cx`faults, cx`pending
    ensures Encoded(cx, heap0, privates0, boxes0, lo, pending0, ty, n, ok, rval)
    ensures ok == !NextFails(old(cx.faults)) && cx.faults == Rest(old(cx.faults))
    ensures Quiet(old(cx.faults)) ==> Quiet(cx.faults) && ok
  {
    ok := cx.WrapValue();
  }

  /** `ToJSValue::to_js_value` at the native type `ty`. With no failure
      scheduled, a value whose vectors fit engine arrays always encodes. */
  method Encode(cx: Context, ty: Ty, n: Native) returns (ok: bool, rval: JSVal)
    requires cx.Valid() && Supported(ty) && HasType(ty, n)
    requires Owned(cx.tracers, cx.slots, n) && ClosureLive(cx.rcs, n)
    modifies cx`faults, cx`pending, cx`heap, cx`nextObj, cx`privates, cx`boxes, cx`nextBox, cx`rcs
    decreases ty, 1
    ensures cx.Valid()
    ensures Encoded(cx, old(cx.heap), old(cx.privates), old(cx.boxes), old(cx.nextObj), old(cx.pending), ty, n, ok, rval)
    ensures cx.rcs == AfterClone(old(cx.rcs), ClosureOf(n))
    ensures Quiet(old(cx.faults)) ==> Quiet(cx.faults)
    ensures Quiet(old(cx.faults)) && Small(n) ==> ok
    ensures ty.TString? ==> ok == (!NextFails(old(cx.faults)) && !NextFails(Rest(old(cx.faults))))
    ensures ty.TString? && Quiet(Rest(old(cx.faults))) ==> Quiet(cx.faults)
  {
    if ty.TScalar? {
      ok, rval := EncodeScalarTo(cx, n.x);
    } else if ty.TNullOr? || ty.TUndefinedOr? || ty.TOptionCall? {
      ok, rval := EncodeOr(cx, ty, n);
    } else if ty.TString? {
      ok, rval := EncodeString(cx, n.s);
    } else if ty.TVec? {
      ok, rval := EncodeSlice(cx, ty.elem, n.items);
    } else if ty.TValue? {
      ok, rval := EncodeValue(cx, n.v);
    } else if ty.THandle? {
      assert n.root.slot in RootsOf(n);
      ok, rval := EncodeHandle(cx, n.root);
    } else {
      ok, rval := EncodeCall(cx, n.rc);
    }
  }

  /** A scalar: the value is written to the output slot; the raw pointers
      are then wrapped (`JS_WrapValue`), which can fail. */
  method EncodeScalarTo(cx: Context, x: Scalar) returns (ok: bool, rval: JSVal)
    modifies cx`faults, cx`pending
    ensures Encoded(cx, old(cx.heap), old(cx.privates), old(cx.boxes), old(cx.nextObj), old(cx.pending),
                    TScalar(KindOf(x)), NScalar(x), ok, rval)
    ensures !x.SRawString? && !x.SRawObject? ==> ok && cx.faults == old(cx.faults)
    ensures Quiet(old(cx.faults)) ==> Quiet(cx.faults) && ok
  {
    rval := EncodeScalar(x);
    InPlaceEncoded(cx, TScalar(KindOf(x)), NScalar(x), rval);
    if x.SRawString? || x.SRawObject? {
      ok := Wrap(cx, cx.heap, cx.privates, cx.boxes, cx.nextObj, cx.pending, TScalar(KindOf(x)), NScalar(x), rval);
    } else {
      ok := true;
    }
  }

  /** `str` encoding: the string's UTF-16 units are copied into a new engine
      string, which is then wrapped. */
  method EncodeString(cx: Context, s: string) returns (ok: bool, rval: JSVal)
    modifies cx`faults, cx`pending
    ensures Encoded(cx, old(cx.heap), old(cx.privates), old(cx.boxes), old(cx.nextObj), old(cx.pending),
                    TString, NString(s), ok, rval)
    ensures ok == (!NextFails(old(cx.faults)) && !NextFails(Rest(old(cx.faults))))
    ensures Quiet(old(cx.faults)) ==> Quiet(cx.faults) && ok
    ensures Quiet(Rest(old(cx.faults))) ==> Quiet(cx.faults)
  {
    var created, str := cx.NewUCStringCopyN(Unicode.Encode(s));
    rval := Str(str);
    if !created {
      return false, rval;
    }
    InPlaceEncoded(cx, TString, NString(s), rval);
    ok := Wrap(cx, cx.heap, cx.privates, cx.boxes, cx.nextObj, cx.pending, TString, NString(s), rval);
  }

  /** A `derive_convert!` facade: the object its box holds, wrapped. */
  method EncodeHandle(cx: Context, b: TracedBox) returns (ok: bool, rval: JSVal)
    requires cx.Valid() && Live(cx, b) && cx.slots[b.slot].Obj?
    modifies cx`faults, cx`pending
    ensures Encoded(cx, old(cx.heap), old(cx.privates), old(cx.boxes), old(cx.nextObj), old(cx.pending),
                    THandle, NHandle(b), ok, rval)
    ensures Quiet(old(cx.faults)) ==> Quiet(cx.faults) && ok
  {
    rval := Get(cx, b);
    InPlaceEncoded(cx, THandle, NHandle(b), rval);
    ok := Wrap(cx, cx.heap, cx.privates, cx.boxes, cx.nextObj, cx.pending, THandle, NHandle(b), rval);
  }

  /** `Value` encoding: each variant through the conversion of its payload
      (`()` for undefined, `f64` for a double, `str` for a string, the facade
      for an object, `Null` for null). */
  method EncodeValue(cx: Context, x: Value) returns (ok: bool, rval: JSVal)
    requires cx.Valid() && Owned(cx.tracers, cx.slots, NValue(x))
    modifies cx`faults, cx`pending
    ensures Encoded(cx, old(cx.heap), old(cx.privates), old(cx.boxes), old(cx.nextObj), old(cx.pending),
                    TValue, NValue(x), ok, rval)
    ensures Quiet(old(cx.faults)) ==> Quiet(cx.faults) && ok
  {
    match x
    case Undefined =>
      ok, rval := true, EncodeUnit();
    case Boolean(b) =>
      ok, rval := true, EncodeBool(b);
    case Int32(i) =>
      ok, rval := true, EncodeI32(i);
    case Double(d) =>
      ok, rval := true, EncodeF64(d);
    case String(s) =>
      ok, rval := EncodeString(cx, s);
    case Object(b) =>
      assert b.slot in RootsOf(NValue(x));
      ok, rval := EncodeHandle(cx, b);
    case Null =>
      ok, rval := true, EncodeNull();
  }

  /** `NullOr<T>`, `UndefinedOr<T>` and `Option<T>` of a closure: `None`
      writes the sentinel (null, undefined, undefined), `Some` encodes its
      content. */
  method EncodeOr(cx: Context, ty: Ty, n: Native) returns (ok: bool, rval: JSVal)
    requires cx.Valid() && Supported(ty) && (ty.TNullOr? || ty.TUndefinedOr? || ty.TOptionCall?) && HasType(ty, n)
    requires Owned(cx.tracers, cx.slots, n) && ClosureLive(cx.rcs, n)
    modifies cx`faults, cx`pending, cx`heap, cx`nextObj, cx`privates, cx`boxes, cx`nextBox, cx`rcs
    decreases ty, 0
    ensures cx.Valid()
    ensures Encoded(cx, old(cx.heap), old(cx.privates), old(cx.boxes), old(cx.nextObj), old(cx.pending), ty, n, ok, rval)
    ensures cx.rcs == AfterClone(old(cx.rcs), ClosureOf(n))
    ensures Quiet(old(cx.faults)) ==> Quiet(cx.faults)
    ensures Quiet(old(cx.faults)) && Small(n) ==> ok
  {
    if n.opt.None? {
      ok, rval := true, Sentinel(ty);
      InPlaceEncoded(cx, ty, n, rval);
      return;
    }
    var m := n.opt.value;
    if ty.TOptionCall? {
      ok, rval := EncodeCall(cx, m.rc);
    } else {
      NoClosureHasNone(ty.inner, m);
      OptionParts(m);
      ok, rval := Encode(cx, ty.inner, m);
    }
    OrEncoded(cx, old(cx.heap), old(cx.privates), old(cx.boxes), old(cx.nextObj), old(cx.pending), ty, m, ok, rval);
  }

  /** The roots, closure and size of a `Some` are those of its content. */
  lemma OptionParts(m: Native)
    requires !m.NCall?
    ensures RootsOf(NOpt(Some(m))) == RootsOf(m) && ClosureOf(NOpt(Some(m))) == None
    ensures Small(NOpt(Some(m))) == Small(m)
  {
  }

  /** `Some(m)` is encoded as `m` is, at the inner type. */
  lemma OrEncoded(cx: Context, heap0: map<ObjId, ObjRec>, privates0: map<ObjId, BoxId>,
                  boxes0: map<BoxId, Closure>, lo: nat, pending0: Option<JSVal>, ty: Ty, m: Native, ok: bool, rval: JSVal)
    requires ty.TNullOr? || ty.TUndefinedOr? || ty.TOptionCall?
    requires Encoded(cx, heap0, privates0, boxes0, lo, pending0, Inner(ty), m, ok, rval) == true
    ensures Encoded(cx, heap0, privates0, boxes0, lo, pending0, ty, NOpt(Some(m)), ok, rval)
  {
  }

  /** The view part-way through encoding `items` into the new array `arr`:
      what existed before is untouched and the first `i` elements are stored,
      each encoded out of objects allocated after the array. */
  ghost predicate SliceAt(w: View, heap0: map<ObjId, ObjRec>, privates0: map<ObjId, BoxId>,
                          boxes0: map<BoxId, Closure>, lo: nat, t: Ty, items: seq<Native>, arr: ObjId, i: nat)
  {
    i <= |items| && arr !in heap0 && lo <= arr && arr in w.heap && |w.heap[arr].elems| == |items| &&
    Extends(heap0, w.heap) && Extends(privates0, w.privates) && Extends(boxes0, w.boxes) &&
    forall k :: 0 <= k < i ==> Encodes(w, arr + 1, t, items[k], w.heap[arr].elems[k])
  }

  /** `&[T]` encoding: a new array of the slice's length, then each element
      encoded and stored at its index; the first failure gives up. */
  method EncodeSlice(cx: Context, t: Ty, items: seq<Native>) returns (ok: bool, rval: JSVal)
    requires cx.Valid() && NoClosure(t) && HasType(TVec(t), NSeq(items))
    requires Owned(cx.tracers, cx.slots, NSeq(items))
    modifies cx`faults, cx`pending, cx`heap, cx`nextObj, cx`privates, cx`boxes, cx`nextBox, cx`rcs
    decreases t, 5
    ensures cx.Valid()
    ensures Encoded(cx, old(cx.heap), old(cx.privates), old(cx.boxes), old(cx.nextObj), old(cx.pending),
                    TVec(t), NSeq(items), ok, rval)
    ensures cx.rcs == old(cx.rcs)
    ensures Quiet(old(cx.faults)) ==> Quiet(cx.faults)
    ensures Quiet(old(cx.faults)) && Small(NSeq(items)) ==> ok
  {
    var arr;
    ok, arr := BuildArray(cx, t, items);
    rval := if ok then Obj(arr) else JSVal.Undefined;
    if ok {
      ok := Wrap(cx, old(cx.heap), old(cx.privates), old(cx.boxes), old(cx.nextObj), old(cx.pending),
                 TVec(t), NSeq(items), rval);
    }
  }

  /** The array of a slice: a new array of the slice's length, filled. */
  method BuildArray(cx: Context, t: Ty, items: seq<Native>) returns (ok: bool, arr: ObjId)
    requires cx.Valid() && NoClosure(t) && HasType(TVec(t), NSeq(items))
    requires Owned(cx.tracers, cx.slots, NSeq(items))
    modifies cx`faults, cx`pending, cx`heap, cx`nextObj, cx`privates, cx`boxes, cx`nextBox, cx`rcs
    decreases t, 4
    ensures cx.Valid()
    ensures Encoded(cx, old(cx.heap), old(cx.privates), old(cx.boxes), old(cx.nextObj), old(cx.pending),
                    TVec(t), NSeq(items), ok, Obj(arr))
    ensures cx.rcs == old(cx.rcs)
    ensures Quiet(old(cx.faults)) ==> Quiet(cx.faults)
    ensures Quiet(old(cx.faults)) && Small(NSeq(items)) ==> ok
  {
    ok, arr := cx.NewArrayObject(|items|);
    if !ok {
      return;
    }
    ok := FillSlice(cx, t, items, arr, old(cx.heap), old(cx.privates), old(cx.boxes), old(cx.nextObj));
    if ok {
      SliceEncoded(cx, old(cx.heap), old(cx.privates), old(cx.boxes), old(cx.nextObj), t, items, arr);
    }
  }

  /** The loop over the slice: each element in order, until one fails. */
  method FillSlice(cx: Context, t: Ty, items: seq<Native>, arr: ObjId, ghost heap0: map<ObjId, ObjRec>,
                   ghost privates0: map<ObjId, BoxId>, ghost boxes0: map<BoxId, Closure>, ghost lo: nat)
    returns (ok: bool)
    requires cx.Valid() && NoClosure(t) && HasType(TVec(t), NSeq(items))
    requires Owned(cx.tracers, cx.slots, NSeq(items))
    requires arr < cx.nextObj && lo <= cx.nextObj
    requires SliceAt(ViewOf(cx), heap0, privates0, boxes0, lo, t, items, arr, 0)
    modifies cx`faults, cx`pending, cx`heap, cx`nextObj, cx`privates, cx`boxes, cx`nextBox, cx`rcs
    decreases t, 3
    ensures cx.Valid() && cx.rcs == old(cx.rcs) && lo <= cx.nextObj
    ensures ok ==> SliceAt(ViewOf(cx), heap0, privates0, boxes0, lo, t, items, arr, |items|) && cx.pending == old(cx.pending)
    ensures !ok ==> Extends(heap0, cx.heap) && Extends(privates0, cx.privates) && Extends(boxes0, cx.boxes) &&
                    cx.pending == Some(cx.thrown)
    ensures Quiet(old(cx.faults)) ==> Quiet(cx.faults)
    ensures Quiet(old(cx.faults)) && Small(NSeq(items)) ==> ok
  {
    ok := true;
    var i := 0;
    while i < |items|
      invariant cx.Valid() && arr < cx.nextObj && lo <= cx.nextObj
      invariant cx.pending == old(cx.pending) && cx.rcs == old(cx.rcs)
      invariant cx.slots == old(cx.slots) && cx.tracers == old(cx.tracers)
      invariant SliceAt(ViewOf(cx), heap0, privates0, boxes0, lo, t, items, arr, i)
      invariant Quiet(old(cx.faults)) ==> Quiet(cx.faults)
    {
      ok := EncodeElement(cx, t, items, arr, i, heap0, privates0, boxes0, lo);
      if !ok {
        return;
      }
      i := i + 1;
    }
  }

  /** A filled array encodes the whole slice. */
  lemma SliceEncoded(cx: Context, heap0: map<ObjId, ObjRec>, privates0: map<ObjId, BoxId>,
                     boxes0: map<BoxId, Closure>, lo: nat, t: Ty, items: seq<Native>, arr: ObjId)
    requires SliceAt(ViewOf(cx), heap0, privates0, boxes0, lo, t, items, arr, |items|) == true
    requires lo <= cx.nextObj
    ensures Encoded(cx, heap0, privates0, boxes0, lo, cx.pending, TVec(t), NSeq(items), true, Obj(arr))
  {
    var w := ViewOf(cx);
    forall k | 0 <= k < |items|
      ensures Encodes(w, lo, t, items[k], w.heap[arr].elems[k])
    {
      EncodesWeaken(w, lo, arr + 1, t, items[k], w.heap[arr].elems[k]);
    }
  }

  /** One step of the slice: element `i` is encoded, then stored. */
  method EncodeElement(cx: Context, t: Ty, items: seq<Native>, arr: ObjId, i: nat,
                       ghost heap0: map<ObjId, ObjRec>, ghost privates0: map<ObjId, BoxId>,
                       ghost boxes0: map<BoxId, Closure>, ghost lo: nat)
    returns (ok: bool)
    requires cx.Valid() && arr < cx.nextObj && NoClosure(t) && i < |items|
    requires HasType(TVec(t), NSeq(items)) && Owned(cx.tracers, cx.slots, NSeq(items))
    requires SliceAt(ViewOf(cx), heap0, privates0, boxes0, lo, t, items, arr, i) == true
    modifies cx`faults, cx`pending, cx`heap, cx`nextObj, cx`privates, cx`boxes, cx`nextBox, cx`rcs
    decreases t, 2
    ensures cx.Valid() && arr < cx.nextObj && cx.rcs == old(cx.rcs)
    ensures ok ==> SliceAt(ViewOf(cx), heap0, privates0, boxes0, lo, t, items, arr, i + 1) && cx.pending == old(cx.pending)
    ensures !ok ==> Extends(heap0, cx.heap) && Extends(privates0, cx.privates) && Extends(boxes0, cx.boxes) &&
                    cx.pending == Some(cx.thrown)
    ensures Quiet(old(cx.faults)) ==> Quiet(cx.faults)
    ensures Quiet(old(cx.faults)) && Small(items[i]) ==> ok
  {
    RootsOfItem(items, i);
    NoClosureHasNone(t, items[i]);
    ghost var w0 := ViewOf(cx);
    ghost var mark := cx.nextObj;
    var done, v := Encode(cx, t, items[i]);
    if !done {
      SliceAbandoned(w0, ViewOf(cx), heap0, privates0, boxes0, lo, t, items, arr, i);
      return false;
    }
    ok := StoreElement(cx, t, items, arr, i, v, heap0, privates0, boxes0, lo, w0, mark);
  }

  /** The rest of a step, once element `i` is encoded as `v`: `v` is
      stored at index `i`. */
  method StoreElement(cx: Context, t: Ty, items: seq<Native>, arr: ObjId, i: nat, v: JSVal,
                      ghost heap0: map<ObjId, ObjRec>, ghost privates0: map<ObjId, BoxId>,
                      ghost boxes0: map<BoxId, Closure>, ghost lo: nat, ghost w0: View, ghost mark: nat)
    returns (ok: bool)
    requires cx.Valid() && arr < mark && i < |items| && w0.slots == cx.slots
    requires SliceAt(w0, heap0, privates0, boxes0, lo, t, items, arr, i) == true
    requires Encoded(cx, w0.heap, w0.privates, w0.boxes, mark, cx.pending, t, items[i], true, v) == true
    modifies cx`faults, cx`pending, cx`heap
    ensures cx.Valid()
    ensures ok ==> SliceAt(ViewOf(cx), heap0, privates0, boxes0, lo, t, items, arr, i + 1) && cx.pending == old(cx.pending)
    ensures !ok ==> Extends(heap0, cx.heap) && Extends(privates0, cx.privates) && Extends(boxes0, cx.boxes) &&
                    cx.pending == Some(cx.thrown)
    ensures Quiet(old(cx.faults)) ==> Quiet(cx.faults) && ok
  {
    ghost var w1 := ViewOf(cx);
    ExtendsTransitive(w0, w1, heap0, privates0, boxes0);
    ok := cx.SetElement(arr, i as u32, v);
    if !ok {
      return;
    }
    SetElementStores(w1.heap, arr, i, v);
    ElementStored(w0, w1, ViewOf(cx), heap0, privates0, boxes0, lo, arr, mark, t, items, i, v);
  }

  lemma ExtendsTransitive(w0: View, w1: View, heap0: map<ObjId, ObjRec>, privates0: map<ObjId, BoxId>,
                          boxes0: map<BoxId, Closure>)
    requires Extends(heap0, w0.heap) && Extends(privates0, w0.privates) && Extends(boxes0, w0.boxes)
    requires Extends(w0.heap, w1.heap) && Extends(w0.privates, w1.privates) && Extends(w0.boxes, w1.boxes)
    ensures Extends(heap0, w1.heap) && Extends(privates0, w1.privates) && Extends(boxes0, w1.boxes)
  {
  }

  /** A failed element leaves what existed before the slice untouched. */
  lemma SliceAbandoned(w0: View, w1: View, heap0: map<ObjId, ObjRec>, privates0: map<ObjId, BoxId>,
                       boxes0: map<BoxId, Closure>, lo: nat, t: Ty, items: seq<Native>, arr: ObjId, i: nat)
    requires SliceAt(w0, heap0, privates0, boxes0, lo, t, items, arr, i) == true
    requires Extends(w0.heap, w1.heap) && Extends(w0.privates, w1.privates) && Extends(w0.boxes, w1.boxes)
    ensures Extends(heap0, w1.heap) && Extends(privates0, w1.privates) && Extends(boxes0, w1.boxes)
  {
    ExtendsTransitive(w0, w1, heap0, privates0, boxes0);
  }

  /** `h2` is `h1` with `v` stored at index `i` of the array `arr`. */
  ghost predicate Stored(h1: map<ObjId, ObjRec>, h2: map<ObjId, ObjRec>, arr: ObjId, i: nat, v: JSVal)
  {
    arr in h1 && arr in h2 && i < |h1[arr].elems| && |h2[arr].elems| == |h1[arr].elems| &&
    h2[arr].elems[i] == v &&
    (forall k :: 0 <= k < |h1[arr].elems| && k != i ==> h2[arr].elems[k] == h1[arr].elems[k]) &&
    (forall id :: id in h1 && id != arr ==> id in h2 && h2[id] == h1[id])
  }

  /** `JS_SetElement` at an index inside the array stores there. */
  lemma SetElementStores(h1: map<ObjId, ObjRec>, arr: ObjId, i: nat, v: JSVal)
    requires arr in h1 && i < |h1[arr].elems| < 0x1_0000_0000
    ensures Stored(h1, h1[arr := WithElement(h1[arr], i as u32, v)], arr, i, v)
  {
  }

  /** Storing the encoding of element `i` keeps the elements before it
      encoded: each of them relies only on objects after the array, which
      neither the encoding of element `i` nor the store touches. */
  lemma ElementStored(w0: View, w1: View, w2: View, heap0: map<ObjId, ObjRec>, privates0: map<ObjId, BoxId>,
                      boxes0: map<BoxId, Closure>, lo: nat, arr: ObjId, mark: nat, t: Ty, items: seq<Native>, i: nat, v: JSVal)
    requires i < |items| && arr < mark
    requires SliceAt(w0, heap0, privates0, boxes0, lo, t, items, arr, i) == true
    requires Extends(w0.heap, w1.heap) && Extends(w0.privates, w1.privates) && Extends(w0.boxes, w1.boxes)
    requires w1.slots == w0.slots && Encodes(w1, mark, t, items[i], v)
    requires Stored(w1.heap, w2.heap, arr, i, v)
    requires w2.privates == w1.privates && w2.boxes == w1.boxes && w2.slots == w1.slots
    ensures SliceAt(w2, heap0, privates0, boxes0, lo, t, items, arr, i + 1)
  {
    forall k | 0 <= k < i
      ensures Encodes(w2, arr + 1, t, items[k], w2.heap[arr].elems[k])
    {
      EncodesFrame(w0, w1, arr + 1, t, items[k], w0.heap[arr].elems[k]);
      EncodesFrame(w1, w2, arr + 1, t, items[k], w1.heap[arr].elems[k]);
    }
    EncodesWeaken(w1, arr + 1, mark, t, items[i], v);
    EncodesFrame(w1, w2, arr + 1, t, items[i], v);
    ExtendsTransitive(w0, w1, heap0, privates0, boxes0);
  }

  /** A closure `T: Call + Clone`: a clone of it, boxed, is handed to the
      `*mut Box<Call>` encoding. */
  method EncodeCall(cx: Context, rc: RcId) returns (ok: bool, rval: JSVal)
    requires cx.Valid() && rc in cx.rcs
    modifies cx`faults, cx`pending, cx`heap, cx`nextObj, cx`privates, cx`boxes, cx`nextBox, cx`rcs
    ensures cx.Valid()
    ensures Encoded(cx, old(cx.heap), old(cx.privates), old(cx.boxes), old(cx.nextObj), old(cx.pending),
                    TCall, NCall(rc), ok, rval)
    ensures cx.rcs == Cloned(old(cx.rcs), rc)
    ensures ok ==>
      rval.Obj? && rval.id !in old(cx.privates) && rval.id in cx.privates &&
      cx.privates == old(cx.privates)[rval.id := cx.privates[rval.id]] &&
      cx.privates[rval.id] !in old(cx.boxes) && cx.boxes == old(cx.boxes)[cx.privates[rval.id] := RcClosure(rc)]
    ensures Quiet(old(cx.faults)) ==> Quiet(cx.faults) && ok
  {
    cx.RcClone(rc);
    var b := cx.AllocBox(RcClosure(rc));
    ok, rval := EncodeCallPtr(cx, b);
  }

  /** `*mut Box<Call>` encoding: a new object of the call class takes
      ownership of the box through its private slot, and is wrapped. When
      the object cannot be created the box is left behind, owned by no
      object. */
  method EncodeCallPtr(cx: Context, b: BoxId) returns (ok: bool, rval: JSVal)
    requires cx.Valid() && b in cx.boxes && b !in cx.privates.Values
    modifies cx`faults, cx`pending, cx`heap, cx`nextObj, cx`privates
    ensures cx.Valid()
    ensures Encoded(cx, old(cx.heap), old(cx.privates), old(cx.boxes), old(cx.nextObj), old(cx.pending),
                    TCall, NCall(cx.boxes[b].rc), ok, rval)
    ensures ok ==> rval.Obj? && rval.id !in old(cx.privates) && cx.privates == old(cx.privates)[rval.id := b]
    ensures cx.boxes == old(cx.boxes)
    ensures Quiet(old(cx.faults)) ==> Quiet(cx.faults) && ok
  {
    var id;
    ok, id := NewCallObject(cx, b);
    rval := if ok then Obj(id) else JSVal.Undefined;
    if ok {
      ok := Wrap(cx, old(cx.heap), old(cx.privates), old(cx.boxes), old(cx.nextObj), old(cx.pending),
                 TCall, NCall(cx.boxes[b].rc), rval);
    }
  }

  /** `JS_NewObject` of the call class, then `JS_SetPrivate` with the box. */
  method NewCallObject(cx: Context, b: BoxId) returns (ok: bool, id: ObjId)
    requires cx.Valid() && b in cx.boxes && b !in cx.privates.Values
    modifies cx`faults, cx`pending, cx`heap, cx`nextObj, cx`privates
    ensures cx.Valid()
    ensures Encoded(cx, old(cx.heap), old(cx.privates), old(cx.boxes), old(cx.nextObj), old(cx.pending),
                    TCall, NCall(cx.boxes[b].rc), ok, Obj(id))
    ensures ok ==> cx.privates == old(cx.privates)[id := b]
    ensures Quiet(old(cx.faults)) ==> ok && Quiet(cx.faults)
  {
    ok, id := cx.NewObject(CallClass);
    if ok {
      cx.SetPrivate(id, b);
      CallObjectEncoded(cx, old(cx.heap), old(cx.privates), old(cx.boxes), old(cx.nextObj), old(cx.pending), id, b);
    }
  }

  /** The new call-class object encodes the closure in the box it owns. */
  lemma CallObjectEncoded(cx: Context, heap0: map<ObjId, ObjRec>, privates0: map<ObjId, BoxId>,
                          boxes0: map<BoxId, Closure>, lo: nat, pending0: Option<JSVal>, id: ObjId, b: BoxId)
    requires id == lo && id !in heap0 && id !in privates0 && lo <= cx.nextObj
    requires cx.heap == heap0[id := EmptyObject(CallClass)] && cx.privates == privates0[id := b]
    requires cx.boxes == boxes0 && b in boxes0 && cx.pending == pending0
    ensures Encoded(cx, heap0, privates0, boxes0, lo, pending0, TCall, NCall(cx.boxes[b].rc), true, Obj(id))
  {
    CallObjectEncodes(ViewOf(cx), lo, id, b);
  }

  /** A call-class object whose private slot owns the box `b` encodes the
      closure in that box. */
  lemma CallObjectEncodes(w: View, lo: nat, id: ObjId, b: BoxId)
    requires id in w.heap && w.heap[id].cls == CallClass && lo <= id
    requires id in w.privates && w.privates[id] == b && b in w.boxes
    ensures Encodes(w, lo, TCall, NCall(w.boxes[b].rc), Obj(id))
  {
  }
}
