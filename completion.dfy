/** `CompletionValue` and `ResumptionValue` (src/value.rs, lines 55-119):
    how a frame finished, and how a hook tells the engine to go on.
    - `Terminate` is `null`.
    - `Return(v)` and `Throw(v)` are plain objects with one property
      holding `v`.

    As written, the key of a return's value is inconsistent. The encoder
    stores it under "result" (line 95). The decoder tests for "return"
    (line 67) and then reads "result" (line 72). So an encoded `Return` does
    not decode. The operations below take that key as a parameter:
    `AsWrittenKey` gives the code as written, and `ReturnKey` the evidently
    intended use of "return" on both sides. The rest of the model uses
    `ReturnKey`. */
module Completions {
  import opened JSApi
  import opened Trace
  import opened Values
  import opened Scalars
  import opened Exceptions
  import opened Conversions
  import opened Decoding
  import opened Encoding
  import opened Utils

  /** Where the code as written puts, and looks for, a return's value. */
  const AsWrittenKey: string := "result"
  /** The marker the decoder tests for a return. */
  const ReturnKey: string := "return"
  const ThrowKey: string := "throw"

  /** The cells a decoded completion keeps alive. */
  function CompletionRoots(c: CompletionValue): (roots: set<SlotId>)
    ensures c.Terminate? ==> roots == {}
  {
    if c.Terminate? then {} else ValueRoots(c.value)
  }

  /** Decoding `v` can produce `c`, with a return's value read from `key`:
      - `null` is `Terminate`;
      - an object with the return marker and without "throw" is a `Return`;
      - an object without the return marker but with "throw" is a `Throw`. */
  ghost predicate CompletionDecodes(w: View, key: string, v: JSVal, c: CompletionValue)
  {
    if v == JSVal.Null then c == Terminate
    else
      v.Obj? && v.id in w.heap &&
      var o := w.heap[v.id];
      if ReturnKey in o.props then
        ThrowKey !in o.props && c.Return? && ValueDecodes(w, PropertyOf(o, key), c.value)
      else
        ThrowKey in o.props && c.Throw? && ValueDecodes(w, o.props[ThrowKey], c.value)
  }

  /** Decoding `v` meets none of its assertions' failures. */
  predicate CompletionDecodable(heap: map<ObjId, ObjRec>, key: string, v: JSVal)
  {
    v == JSVal.Null ||
    (v.Obj? && v.id in heap &&
     var o := heap[v.id];
     if ReturnKey in o.props then ThrowKey !in o.props && !PropertyOf(o, key).Symbol?
     else ThrowKey in o.props && !o.props[ThrowKey].Symbol?)
  }

  /** `v` is a plain object allocated from `lo` on whose only property,
      `key`, encodes `x`. */
  ghost predicate HoldsUnder(w: View, lo: nat, key: string, x: Value, v: JSVal)
  {
    v.Obj? && v.id >= lo && v.id in w.heap && w.heap[v.id].cls == PlainClass &&
    w.heap[v.id].props.Keys == {key} && ValueEncodes(w, x, w.heap[v.id].props[key])
  }

  /** Encoding `c` writes `v`, a return's value going under `key`. */
  ghost predicate CompletionEncodes(w: View, lo: nat, key: string, c: CompletionValue, v: JSVal)
  {
    match c
    case Terminate => v == JSVal.Null
    case Return(x) => HoldsUnder(w, lo, key, x, v)
    case Throw(x) => HoldsUnder(w, lo, ThrowKey, x, v)
  }

  /** Encoding the resumption `res` writes `v`: `None` is undefined. */
  ghost predicate ResumptionEncodes(w: View, lo: nat, key: string, res: ResumptionValue, v: JSVal)
  {
    if res.None? then v == JSVal.Undefined else CompletionEncodes(w, lo, key, res.value, v)
  }

  /** With the return key used on both sides, every completion comes back
      from its encoding, provided its value does (a double must not be an
      integral int32). This holds as written for `Throw` and `Terminate`. */
  lemma CompletionRoundTrip(w: View, lo: nat, key: string, c: CompletionValue, v: JSVal)
    requires CompletionEncodes(w, lo, key, c, v)
    requires c.Return? ==> key == ReturnKey
    requires !c.Terminate? && c.value.Double? ==> !DoubleIsInt32(c.value.d)
    ensures CompletionDecodable(w.heap, key, v)
    ensures CompletionDecodes(w, key, v, c)
  {
    if !c.Terminate? {
      var o := w.heap[v.id];
      var k := if c.Return? then key else ThrowKey;
      assert o.props.Keys == {k};
      assert k in o.props;
      ValueRoundTrip(w, c.value, o.props[k]);
      assert !o.props[k].Symbol?;
    }
  }

  /** As written, an encoded `Return` has neither marker, so its decoding
      fails the assertion that "throw" is present: nothing decodes from it. */
  lemma ReturnDoesNotRoundTrip(w: View, lo: nat, x: Value, v: JSVal)
    requires CompletionEncodes(w, lo, AsWrittenKey, Return(x), v)
    ensures !CompletionDecodable(w.heap, AsWrittenKey, v)
    ensures forall c :: !CompletionDecodes(w, AsWrittenKey, v, c)
  {
    var o := w.heap[v.id];
    assert o.props.Keys == {AsWrittenKey};
    assert ReturnKey !in o.props by {
      assert ReturnKey != AsWrittenKey;
    }
    assert ThrowKey !in o.props by {
      assert ThrowKey != AsWrittenKey;
    }
  }

  /** As written, a `Return` is read from "result" after testing for
      "return": an object holding "return" but not "result" decodes only to
      a return of undefined, whatever "return" holds. */
  lemma ReturnReadFromResult(w: View, v: JSVal, c: CompletionValue)
    requires v.Obj? && v.id in w.heap
    requires ReturnKey in w.heap[v.id].props && ThrowKey !in w.heap[v.id].props
    requires AsWrittenKey !in w.heap[v.id].props
    ensures CompletionDecodable(w.heap, AsWrittenKey, v)
    ensures CompletionDecodes(w, AsWrittenKey, v, c) <==> c == Return(Value.Undefined)
  {
    assert PropertyOf(w.heap[v.id], AsWrittenKey) == JSVal.Undefined;
  }

  /** Whatever decodes meets none of the decoder's assertions. */
  lemma DecodesAreDecodable(w: View, key: string, v: JSVal, c: CompletionValue)
    requires CompletionDecodes(w, key, v, c)
    ensures CompletionDecodable(w.heap, key, v)
  {
  }

  /** The three shapes of a resumption's encoding are told apart by tag:
      going on unchanged is undefined, `Terminate` is null, and the others
      are objects. */
  lemma ResumptionsDistinct(w: View, lo: nat, key: string, res: ResumptionValue, v: JSVal)
    requires ResumptionEncodes(w, lo, key, res, v)
    ensures res.None? <==> v == JSVal.Undefined
    ensures res == Some(Terminate) <==> v == JSVal.Null
    ensures res.Some? && !res.value.Terminate? <==> v.Obj?
  {
  }

  lemma KeysAreNames()
    ensures CName(AsWrittenKey) && CName(ReturnKey) && CName(ThrowKey)
  {
  }

  /** `define_property(obj, key, x)` on an empty plain object. */
  method DefineOnEmpty(cx: Context, id: ObjId, key: string, x: Value) returns (ok: bool)
    requires cx.Valid() && id in cx.heap && cx.heap[id] == EmptyObject(PlainClass)
    requires CName(key) && Owned(cx.tracers, cx.slots, NValue(x))
    modifies cx`faults, cx`pending, cx`heap, cx`nextObj, cx`privates, cx`boxes, cx`nextBox, cx`rcs
    ensures cx.Valid() && old(cx.nextObj) <= cx.nextObj && cx.rcs == old(cx.rcs)
    ensures id in cx.heap && KeptBut(old(cx.heap), cx.heap, id)
    ensures Extends(old(cx.privates), cx.privates) && Extends(old(cx.boxes), cx.boxes)
    ensures ok ==> cx.pending == old(cx.pending) && HoldsUnder(ViewOf(cx), id, key, x, Obj(id))
    ensures !ok ==> cx.pending == Some(cx.thrown)
    ensures Quiet(old(cx.faults)) ==> Quiet(cx.faults) && ok
  {
    var defined, u := DefineProperty(cx, id, key, TValue, NValue(x));
    ok := defined == Some(true);
    if ok {
      assert cx.heap[id].props == map[key := u];
      assert ValueEncodes(ViewOf(cx), x, u);
    } else {
      assert defined.Some?;
      assert !defined.value;
    }
  }

  /** A fresh plain object, then `define_property(obj, key, x)`. */
  method DefineOnFresh(cx: Context, key: string, x: Value) returns (ok: bool, id: ObjId)
    requires cx.Valid() && CName(key) && Owned(cx.tracers, cx.slots, NValue(x))
    modifies cx`faults, cx`pending, cx`heap, cx`nextObj, cx`privates, cx`boxes, cx`nextBox, cx`rcs
    ensures cx.Valid() && old(cx.nextObj) <= cx.nextObj && cx.rcs == old(cx.rcs)
    ensures Extends(old(cx.heap), cx.heap) && Extends(old(cx.privates), cx.privates) && Extends(old(cx.boxes), cx.boxes)
    ensures ok ==> cx.pending == old(cx.pending) && HoldsUnder(ViewOf(cx), old(cx.nextObj), key, x, Obj(id))
    ensures !ok ==> cx.pending == Some(cx.thrown)
    ensures Quiet(old(cx.faults)) ==> Quiet(cx.faults) && ok
  {
    ok, id := cx.NewObject(PlainClass);
    if ok {
      ok := DefineOnEmpty(cx, id, key, x);
    }
  }

  /** The object holding a completion's value, wrapped into the output
      slot. */
  method EncodeHolder(cx: Context, key: string, x: Value) returns (ok: bool, rval: JSVal)
    requires cx.Valid() && CName(key) && Owned(cx.tracers, cx.slots, NValue(x))
    modifies cx`faults, cx`pending, cx`heap, cx`nextObj, cx`privates, cx`boxes, cx`nextBox, cx`rcs
    ensures cx.Valid() && old(cx.nextObj) <= cx.nextObj && cx.rcs == old(cx.rcs)
    ensures Extends(old(cx.heap), cx.heap) && Extends(old(cx.privates), cx.privates) && Extends(old(cx.boxes), cx.boxes)
    ensures ok ==> cx.pending == old(cx.pending) && HoldsUnder(ViewOf(cx), old(cx.nextObj), key, x, rval)
    ensures !ok ==> cx.pending == Some(cx.thrown)
    ensures Quiet(old(cx.faults)) ==> Quiet(cx.faults) && ok
  {
    var id;
    ok, id := DefineOnFresh(cx, key, x);
    rval := Obj(id);
    if ok {
      ok := cx.WrapValue();
    }
  }

  /** `CompletionValue::to_js_value`, a return's value going under `key`. */
  method EncodeCompletion(cx: Context, c: CompletionValue, key: string) returns (ok: bool, rval: JSVal)
    requires cx.Valid() && CName(key)
    requires !c.Terminate? ==> Owned(cx.tracers, cx.slots, NValue(c.value))
    modifies cx`faults, cx`pending, cx`heap, cx`nextObj, cx`privates, cx`boxes, cx`nextBox, cx`rcs
    ensures cx.Valid() && old(cx.nextObj) <= cx.nextObj && cx.rcs == old(cx.rcs)
    ensures Extends(old(cx.heap), cx.heap) && Extends(old(cx.privates), cx.privates) && Extends(old(cx.boxes), cx.boxes)
    ensures ok ==> cx.pending == old(cx.pending) && CompletionEncodes(ViewOf(cx), old(cx.nextObj), key, c, rval)
    ensures !ok ==> cx.pending == Some(cx.thrown)
    ensures Quiet(old(cx.faults)) ==> Quiet(cx.faults) && ok
  {
    match c
    case Terminate =>
      ok, rval := true, JSVal.Null;
    case Return(x) =>
      ok, rval := EncodeHolder(cx, key, x);
    case Throw(x) =>
      KeysAreNames();
      ok, rval := EncodeHolder(cx, ThrowKey, x);
  }

  /** `ResumptionValue::to_js_value`: `None` is `()`, that is undefined. */
  method EncodeResumption(cx: Context, res: ResumptionValue, key: string) returns (ok: bool, rval: JSVal)
    requires cx.Valid() && CName(key)
    requires res.Some? && !res.value.Terminate? ==> Owned(cx.tracers, cx.slots, NValue(res.value.value))
    modifies cx`faults, cx`pending, cx`heap, cx`nextObj, cx`privates, cx`boxes, cx`nextBox, cx`rcs
    ensures cx.Valid() && old(cx.nextObj) <= cx.nextObj && cx.rcs == old(cx.rcs)
    ensures Extends(old(cx.heap), cx.heap) && Extends(old(cx.privates), cx.privates) && Extends(old(cx.boxes), cx.boxes)
    ensures ok ==> cx.pending == old(cx.pending) && ResumptionEncodes(ViewOf(cx), old(cx.nextObj), key, res, rval)
    ensures !ok ==> cx.pending == Some(cx.thrown)
    ensures Quiet(old(cx.faults)) ==> Quiet(cx.faults) && ok
  {
    if res.None? {
      ok, rval := true, JSVal.Undefined;
    } else {
      ok, rval := EncodeCompletion(cx, res.value, key);
    }
  }

  /** The state after decoding `v` as a completion ended in `r`. This has
      the same shape as `Decoding.Decoded`. */
  ghost predicate CompletionDecoded(cx: Context, slots0: map<SlotId, JSVal>, tracers0: set<SlotId>,
                                    pending0: Option<JSVal>, rcs0: map<RcId, RcCell>, key: string,
                                    v: JSVal, r: Outcome<CompletionValue>)
    reads cx`heap, cx`privates, cx`boxes, cx`slots, cx`tracers, cx`pending, cx`rcs, cx`thrown
  {
    SlotsGrow(slots0, cx.slots) &&
    (r.Ok? ==>
      CompletionDecodes(ViewOf(cx), key, v, r.value) && cx.pending == pending0 && cx.rcs == rcs0 &&
      cx.tracers == tracers0 + CompletionRoots(r.value) && CompletionRoots(r.value) !! slots0.Keys) &&
    (r.Err? ==> Raised(cx, slots0, tracers0, r.exc) && cx.rcs == rcs0) &&
    (r.Panic? ==> !CompletionDecodable(cx.heap, key, v))
  }

  /** A decoded property value as the value of the completion variant
      `returned` picks. */
  function Lift(x: Outcome<Native>, returned: bool): (r: Outcome<CompletionValue>)
    requires x.Ok? ==> x.value.NValue?
    ensures r.Ok? <==> x.Ok?
    ensures r.Ok? ==> r.value.Return? == returned && !r.value.Terminate? && r.value.value == x.value.v
    ensures r.Err? <==> x.Err?
    ensures r.Err? ==> r.exc == x.exc
  {
    match x
    case Ok(n) => Ok(if returned then Return(n.v) else Throw(n.v))
    case Err(e) => Err(e)
    case Panic => Panic
  }

  /** Decoding a marked object ends as decoding the property that holds its
      value ends. */
  lemma MarkedDecoded(cx: Context, slots0: map<SlotId, JSVal>, tracers0: set<SlotId>,
                      pending0: Option<JSVal>, rcs0: map<RcId, RcCell>, key: string, v: JSVal,
                      returned: bool, x: Outcome<Native>)
    requires v.Obj? && v.id in cx.heap
    requires returned == (ReturnKey in cx.heap[v.id].props) && returned != (ThrowKey in cx.heap[v.id].props)
    requires !returned ==> key == ThrowKey
    requires Decoded(cx, slots0, tracers0, pending0, rcs0, TValue, PropertyOf(cx.heap[v.id], key), x)
    ensures x.Ok? ==> x.value.NValue?
    ensures CompletionDecoded(cx, slots0, tracers0, pending0, rcs0, key, v, Lift(x, returned))
  {
    var p := PropertyOf(cx.heap[v.id], key);
    assert SlotsGrow(slots0, cx.slots);
    if x.Ok? {
      assert x.value.NValue? && ValueDecodes(ViewOf(cx), p, x.value.v);
      assert RootsOf(x.value) == CompletionRoots(Lift(x, returned).value);
    } else if x.Panic? {
      assert !Decodable(cx.heap, cx.privates, TValue, p);
    }
  }

  /** The value of a completion, read from `key` of `v` and decoded as a
      `Value`; `returned` picks the variant. */
  method DecodeMarked(cx: Context, v: JSVal, key: string, returned: bool) returns (r: Outcome<CompletionValue>)
    requires cx.Valid() && v.Obj? && v.id in cx.heap && CName(key)
    requires returned == (ReturnKey in cx.heap[v.id].props)
    requires !returned ==> key == ThrowKey
    modifies cx`faults, cx`pending, cx`slots, cx`nextSlot, cx`tracers, cx`rcs
    ensures cx.Valid()
    ensures CompletionDecoded(cx, old(cx.slots), old(cx.tracers), old(cx.pending), old(cx.rcs), key, v, r)
    ensures Quiet(old(cx.faults)) ==> Quiet(cx.faults)
    ensures Quiet(old(cx.faults)) && CompletionDecodable(cx.heap, key, v) ==> r.Ok?
  {
    KeysAreNames();
    var hasThrow := HasProperty(cx, v.id, ThrowKey);
    if hasThrow.Err? {
      return Err(hasThrow.exc);
    }
    if hasThrow.value == returned {
      return Panic;
    }
    var x := GetProperty(cx, v.id, key, TValue);
    r := Lift(x, returned);
    MarkedDecoded(cx, old(cx.slots), old(cx.tracers), old(cx.pending), old(cx.rcs), key, v, returned, x);
  }

  /** `CompletionValue::from_js_value`: `NullOr` of an object, then the
      markers. A non-null value that is not an object is fatal there. */
  method DecodeCompletion(cx: Context, v: JSVal, key: string) returns (r: Outcome<CompletionValue>)
    requires cx.Valid() && CName(key) && (v.Obj? ==> v.id in cx.heap)
    modifies cx`faults, cx`pending, cx`slots, cx`nextSlot, cx`tracers, cx`rcs
    ensures cx.Valid()
    ensures CompletionDecoded(cx, old(cx.slots), old(cx.tracers), old(cx.pending), old(cx.rcs), key, v, r)
    ensures Quiet(old(cx.faults)) ==> Quiet(cx.faults)
    ensures Quiet(old(cx.faults)) && CompletionDecodable(cx.heap, key, v) ==> r.Ok?
  {
    if v == JSVal.Null {
      return Ok(Terminate);
    }
    if !v.Obj? {
      return Panic;
    }
    KeysAreNames();
    var hasReturn := HasProperty(cx, v.id, ReturnKey);
    if hasReturn.Err? {
      return Err(hasReturn.exc);
    }
    if hasReturn.value {
      r := DecodeMarked(cx, v, key, true);
    } else {
      r := DecodeMarked(cx, v, ThrowKey, false);
    }
  }
}
