/** The property and element primitives of src/utils.rs. Each one calls a
    single engine primitive and converts the value it reads or writes.
    - A read returns a `Result`. This is the two-argument `try_jsapi!`: a
      failed call becomes the pending exception, captured.
    - A write returns `false` on failure. This is the one-argument
      `try_jsapi!`, which leaves the exception pending.

    For a write, `Some(b)` is the `bool` it returns. `None` is the panic of
    `CString::new(name).unwrap()` on a name with an interior NUL. */
module Utils {
  import opened JSApi
  import opened Trace
  import opened Exceptions
  import opened Conversions
  import opened Decoding
  import opened Encoding

  /** `CString::new(name)` succeeds: the name has no interior NUL. */
  predicate CName(name: string)
  {
    forall i :: 0 <= i < |name| ==> name[i] != '\0'
  }

  type usize = x: int | 0 <= x < 0x1_0000_0000_0000_0000

  /** `index as u32`: the low 32 bits of the index. */
  function AsU32(index: usize): (r: u32)
    ensures index < 0x1_0000_0000 ==> r == index
    ensures index >= 0x1_0000_0000 ==> r == AsU32(index - 0x1_0000_0000)
  {
    index % 0x1_0000_0000
  }

  /** The state after the engine accepted a write of `n`, converted as `ty`:
      - `rval` encodes `n` out of objects allocated from `lo` on;
      - no exception is pending that was not pending before;
      - no object that existed before has changed, except `obj`. */
  ghost predicate Written(cx: Context, heap0: map<ObjId, ObjRec>, privates0: map<ObjId, BoxId>,
                          boxes0: map<BoxId, Closure>, lo: nat, pending0: Option<JSVal>,
                          obj: ObjId, ty: Ty, n: Native, rval: JSVal)
    reads cx`heap, cx`privates, cx`boxes, cx`slots, cx`pending
  {
    Encodes(ViewOf(cx), lo, ty, n, rval) && cx.pending == pending0 &&
    KeptBut(heap0, cx.heap, obj) && Extends(privates0, cx.privates) && Extends(boxes0, cx.boxes)
  }

  /** Every object of `heap0` but `obj` is still in `heap`, unchanged. */
  ghost predicate KeptBut(heap0: map<ObjId, ObjRec>, heap: map<ObjId, ObjRec>, obj: ObjId)
  {
    forall id :: id in heap0 && id != obj ==> id in heap && heap[id] == heap0[id]
  }

  /** A conversion is built out of objects allocated from `lo` on. Storing
      into an object older than that keeps the conversion intact. */
  lemma StoreKeepsEncoding(w1: View, w2: View, heap0: map<ObjId, ObjRec>, privates0: map<ObjId, BoxId>,
                           boxes0: map<BoxId, Closure>, lo: nat, obj: ObjId, o: ObjRec,
                           ty: Ty, n: Native, rval: JSVal)
    requires Encodes(w1, lo, ty, n, rval)
    requires Extends(heap0, w1.heap) && obj < lo
    requires w2 == w1.(heap := w1.heap[obj := o])
    ensures Encodes(w2, lo, ty, n, rval)
    ensures KeptBut(heap0, w2.heap, obj)
  {
    EncodesFrame(w1, w2, lo, ty, n, rval);
  }

  /** `has_property`. */
  method HasProperty(cx: Context, obj: ObjId, name: string) returns (r: Outcome<bool>)
    requires cx.Valid() && obj in cx.heap
    modifies cx`faults, cx`pending, cx`slots, cx`nextSlot, cx`tracers
    ensures cx.Valid()
    ensures r.Panic? <==> !CName(name)
    ensures r.Ok? ==> r.value == (name in cx.heap[obj].props)
    ensures r.Ok? ==> cx.pending == old(cx.pending) && cx.slots == old(cx.slots) && cx.tracers == old(cx.tracers)
    ensures r.Err? ==> Raised(cx, old(cx.slots), old(cx.tracers), r.exc) && SlotsGrow(old(cx.slots), cx.slots)
    ensures Quiet(old(cx.faults)) ==> Quiet(cx.faults) && (r.Ok? <==> CName(name))
  {
    if !CName(name) {
      return Panic;
    }
    var ok, found := cx.HasProperty(obj, name);
    if !ok {
      r := Raise(cx);
      return;
    }
    r := Ok(found);
  }

  /** `get_property`: the read, then the conversion of what it read. A
      failed read is an `Err`; a failed conversion is passed on unchanged. */
  method GetProperty(cx: Context, obj: ObjId, name: string, ty: Ty) returns (r: Outcome<Native>)
    requires cx.Valid() && obj in cx.heap && Supported(ty)
    modifies cx`faults, cx`pending, cx`slots, cx`nextSlot, cx`tracers, cx`rcs
    ensures cx.Valid()
    ensures !CName(name) ==> r.Panic?
    ensures CName(name) ==>
      Decoded(cx, old(cx.slots), old(cx.tracers), old(cx.pending), old(cx.rcs), ty, PropertyOf(cx.heap[obj], name), r)
    ensures Quiet(old(cx.faults)) ==> Quiet(cx.faults)
    ensures Quiet(old(cx.faults)) && CName(name) && Decodable(cx.heap, cx.privates, ty, PropertyOf(cx.heap[obj], name)) ==> r.Ok?
  {
    if !CName(name) {
      return Panic;
    }
    var ok, v := cx.GetProperty(obj, name);
    if !ok {
      var e := Raise<Native>(cx);
      r := e;
      assert r.Err?;
      ErrDecoded(cx, old(cx.slots), old(cx.tracers), old(cx.pending), old(cx.rcs), ty, PropertyOf(cx.heap[obj], name), r.exc);
      return;
    }
    r := Decode(cx, ty, v);
  }

  /** The `JS_SetProperty` (`define` false) or `JS_DefineProperty`
      (`define` true) step of a write, after the conversion has produced `v`. */
  method PutProperty(cx: Context, ghost heap0: map<ObjId, ObjRec>, ghost privates0: map<ObjId, BoxId>,
                     ghost boxes0: map<BoxId, Closure>, ghost lo: nat, ghost pending0: Option<JSVal>,
                     obj: ObjId, name: string, define: bool, ghost ty: Ty, ghost n: Native, v: JSVal)
    returns (ok: bool)
    requires cx.Valid() && obj in heap0 && obj < lo
    requires Encoded(cx, heap0, privates0, boxes0, lo, pending0, ty, n, true, v) == true
    modifies cx`faults, cx`pending, cx`heap
    ensures cx.Valid() && obj in cx.heap
    ensures KeptBut(heap0, cx.heap, obj) && lo <= cx.nextObj
    ensures Extends(privates0, cx.privates) && Extends(boxes0, cx.boxes)
    ensures ok ==>
      cx.heap[obj] == WithProperty(heap0[obj], name, v) &&
      Written(cx, heap0, privates0, boxes0, lo, pending0, obj, ty, n, v)
    ensures !ok ==> cx.pending == Some(cx.thrown) && cx.heap[obj] == heap0[obj]
    ensures ok == !NextFails(old(cx.faults)) && cx.faults == Rest(old(cx.faults))
    ensures Quiet(old(cx.faults)) ==> Quiet(cx.faults)
  {
    ghost var w1 := ViewOf(cx);
    if define {
      ok := cx.DefineProperty(obj, name, v);
    } else {
      ok := cx.SetProperty(obj, name, v);
    }
    if ok {
      StoreKeepsEncoding(w1, ViewOf(cx), heap0, privates0, boxes0, lo, obj, cx.heap[obj], ty, n, v);
    }
  }

  /** `set_property`: the conversion, then the write. If either fails, it
      returns `false` and the engine's exception stays pending. */
  method SetProperty(cx: Context, obj: ObjId, name: string, ty: Ty, n: Native) returns (r: Option<bool>, ghost rval: JSVal)
    requires cx.Valid() && obj in cx.heap && Supported(ty) && HasType(ty, n)
    requires Owned(cx.tracers, cx.slots, n) && ClosureLive(cx.rcs, n)
    modifies cx`faults, cx`pending, cx`heap, cx`nextObj, cx`privates, cx`boxes, cx`nextBox, cx`rcs
    ensures cx.Valid() && obj in cx.heap
    ensures KeptBut(old(cx.heap), cx.heap, obj) && old(cx.nextObj) <= cx.nextObj
    ensures Extends(old(cx.privates), cx.privates) && Extends(old(cx.boxes), cx.boxes)
    ensures r.None? ==> !CName(name)
    ensures r == Some(true) ==>
      cx.heap[obj] == WithProperty(old(cx.heap)[obj], name, rval) &&
      Written(cx, old(cx.heap), old(cx.privates), old(cx.boxes), old(cx.nextObj), old(cx.pending), obj, ty, n, rval)
    ensures r == Some(false) ==> cx.pending == Some(cx.thrown) && cx.heap[obj] == old(cx.heap)[obj]
    ensures cx.rcs == AfterClone(old(cx.rcs), ClosureOf(n))
    ensures Quiet(old(cx.faults)) ==> Quiet(cx.faults)
    ensures Quiet(old(cx.faults)) && Small(n) ==> r == if CName(name) then Some(true) else None
  {
    var ok, v := Encode(cx, ty, n);
    rval := v;
    if !ok {
      return Some(false), rval;
    }
    if !CName(name) {
      return None, rval;
    }
    ok := PutProperty(cx, old(cx.heap), old(cx.privates), old(cx.boxes), old(cx.nextObj), old(cx.pending),
                      obj, name, false, ty, n, v);
    r := Some(ok);
  }

  /** `define_property` as the bridge meant it: the conversion, then the
      definition, `false` if either fails. */
  method DefineProperty(cx: Context, obj: ObjId, name: string, ty: Ty, n: Native) returns (r: Option<bool>, ghost rval: JSVal)
    requires cx.Valid() && obj in cx.heap && Supported(ty) && HasType(ty, n)
    requires Owned(cx.tracers, cx.slots, n) && ClosureLive(cx.rcs, n)
    modifies cx`faults, cx`pending, cx`heap, cx`nextObj, cx`privates, cx`boxes, cx`nextBox, cx`rcs
    ensures cx.Valid() && obj in cx.heap
    ensures KeptBut(old(cx.heap), cx.heap, obj) && old(cx.nextObj) <= cx.nextObj
    ensures Extends(old(cx.privates), cx.privates) && Extends(old(cx.boxes), cx.boxes)
    ensures r.None? ==> !CName(name)
    ensures r == Some(true) ==>
      cx.heap[obj] == WithProperty(old(cx.heap)[obj], name, rval) &&
      Written(cx, old(cx.heap), old(cx.privates), old(cx.boxes), old(cx.nextObj), old(cx.pending), obj, ty, n, rval)
    ensures r == Some(false) ==> cx.pending == Some(cx.thrown) && cx.heap[obj] == old(cx.heap)[obj]
    ensures cx.rcs == AfterClone(old(cx.rcs), ClosureOf(n))
    ensures Quiet(old(cx.faults)) ==> Quiet(cx.faults)
    ensures Quiet(old(cx.faults)) && Small(n) ==> r == if CName(name) then Some(true) else None
    ensures ty.TString? && NextFails(old(cx.faults)) ==> r == Some(false)
  {
    var ok, v := Encode(cx, ty, n);
    rval := v;
    if !ok {
      return Some(false), rval;
    }
    if !CName(name) {
      return None, rval;
    }
    ok := PutProperty(cx, old(cx.heap), old(cx.privates), old(cx.boxes), old(cx.nextObj), old(cx.pending),
                      obj, name, true, ty, n, v);
    r := Some(ok);
  }

  /** `define_property` as written: `!converted || defined`. When the
      conversion fails, it reports success (`true`), the engine's exception
      stays pending and nothing is defined. `converted` says which of the two
      paths was taken. */
  method DefinePropertyAsWritten(cx: Context, obj: ObjId, name: string, ty: Ty, n: Native)
    returns (r: Option<bool>, ghost converted: bool, ghost rval: JSVal)
    requires cx.Valid() && obj in cx.heap && Supported(ty) && HasType(ty, n)
    requires Owned(cx.tracers, cx.slots, n) && ClosureLive(cx.rcs, n)
    modifies cx`faults, cx`pending, cx`heap, cx`nextObj, cx`privates, cx`boxes, cx`nextBox, cx`rcs
    ensures cx.Valid() && obj in cx.heap
    ensures KeptBut(old(cx.heap), cx.heap, obj) && old(cx.nextObj) <= cx.nextObj
    ensures Extends(old(cx.privates), cx.privates) && Extends(old(cx.boxes), cx.boxes)
    ensures !converted ==> r == Some(true) && cx.pending == Some(cx.thrown) && cx.heap[obj] == old(cx.heap)[obj]
    ensures converted && r.None? ==> !CName(name)
    ensures converted && r == Some(true) ==>
      cx.heap[obj] == WithProperty(old(cx.heap)[obj], name, rval) &&
      Written(cx, old(cx.heap), old(cx.privates), old(cx.boxes), old(cx.nextObj), old(cx.pending), obj, ty, n, rval)
    ensures converted && r == Some(false) ==> cx.pending == Some(cx.thrown) && cx.heap[obj] == old(cx.heap)[obj]
    ensures ty.TString? ==> (converted <==> !NextFails(old(cx.faults)) && !NextFails(Rest(old(cx.faults))))
    ensures ty.TString? && !converted && Quiet(Rest(old(cx.faults))) ==> Quiet(cx.faults)
  {
    var ok, v := Encode(cx, ty, n);
    rval := v;
    converted := ok;
    if !ok {
      return Some(true), converted, rval;
    }
    if !CName(name) {
      return None, converted, rval;
    }
    ok := PutProperty(cx, old(cx.heap), old(cx.privates), old(cx.boxes), old(cx.nextObj), old(cx.pending),
                      obj, name, true, ty, n, v);
    r := Some(ok);
  }

  /** The input that shows the difference: on a fresh object, a string whose
      engine copy cannot be made. The as-written primitive reports success,
      leaves the exception pending and defines nothing; the intended one
      reports the failure. */
  method DefineOfFailedConversion() returns (asWritten: Option<bool>, pending: bool, defined: bool, intended: Option<bool>)
    ensures asWritten == Some(true) && pending && !defined
    ensures intended == Some(false)
  {
    var cx := new Context([false, true], JSVal.Undefined);
    var ok, obj := cx.NewObject(PlainClass);
    assert ok;
    assert cx.faults == [true];
    ghost var converted, rval;
    asWritten, converted, rval := DefinePropertyAsWritten(cx, obj, "x", TString, NString("s"));
    pending := cx.pending.Some?;
    defined := "x" in cx.heap[obj].props;
    var cy := new Context([false, true], JSVal.Undefined);
    var okY, objY := cy.NewObject(PlainClass);
    assert cy.faults == [true];
    intended, rval := DefineProperty(cy, objY, "x", TString, NString("s"));
  }

  /** `get_element`: `get_property` on the element at `index as u32`. */
  method GetElement(cx: Context, obj: ObjId, index: usize, ty: Ty) returns (r: Outcome<Native>)
    requires cx.Valid() && obj in cx.heap && Supported(ty)
    modifies cx`faults, cx`pending, cx`slots, cx`nextSlot, cx`tracers, cx`rcs
    ensures cx.Valid()
    ensures Decoded(cx, old(cx.slots), old(cx.tracers), old(cx.pending), old(cx.rcs), ty, ElementOf(cx.heap[obj], AsU32(index)), r)
    ensures Quiet(old(cx.faults)) ==> Quiet(cx.faults)
    ensures Quiet(old(cx.faults)) && Decodable(cx.heap, cx.privates, ty, ElementOf(cx.heap[obj], AsU32(index))) ==> r.Ok?
  {
    var ok, v := cx.GetElement(obj, AsU32(index));
    if !ok {
      var e := Raise<Native>(cx);
      r := e;
      assert r.Err?;
      ErrDecoded(cx, old(cx.slots), old(cx.tracers), old(cx.pending), old(cx.rcs), ty, ElementOf(cx.heap[obj], AsU32(index)), r.exc);
      return;
    }
    r := Decode(cx, ty, v);
  }

  /** The `JS_SetElement` step of `set_element`, after the conversion has
      produced `v`. */
  method PutElement(cx: Context, ghost heap0: map<ObjId, ObjRec>, ghost privates0: map<ObjId, BoxId>,
                    ghost boxes0: map<BoxId, Closure>, ghost lo: nat, ghost pending0: Option<JSVal>,
                    obj: ObjId, index: u32, ghost ty: Ty, ghost n: Native, v: JSVal)
    returns (ok: bool)
    requires cx.Valid() && obj in heap0 && obj < lo
    requires Encoded(cx, heap0, privates0, boxes0, lo, pending0, ty, n, true, v) == true
    modifies cx`faults, cx`pending, cx`heap
    ensures cx.Valid() && obj in cx.heap
    ensures KeptBut(heap0, cx.heap, obj) && lo <= cx.nextObj
    ensures Extends(privates0, cx.privates) && Extends(boxes0, cx.boxes)
    ensures ok ==>
      cx.heap[obj] == WithElement(heap0[obj], index, v) &&
      Written(cx, heap0, privates0, boxes0, lo, pending0, obj, ty, n, v)
    ensures !ok ==> cx.pending == Some(cx.thrown) && cx.heap[obj] == heap0[obj]
    ensures Quiet(old(cx.faults)) ==> Quiet(cx.faults) && ok
  {
    ghost var w1 := ViewOf(cx);
    ok := cx.SetElement(obj, index, v);
    if ok {
      StoreKeepsEncoding(w1, ViewOf(cx), heap0, privates0, boxes0, lo, obj, cx.heap[obj], ty, n, v);
    }
  }

  /** `set_element`: `set_property` on the element at `index as u32`. */
  method SetElement(cx: Context, obj: ObjId, index: usize, ty: Ty, n: Native) returns (ok: bool, ghost rval: JSVal)
    requires cx.Valid() && obj in cx.heap && Supported(ty) && HasType(ty, n)
    requires Owned(cx.tracers, cx.slots, n) && ClosureLive(cx.rcs, n)
    modifies cx`faults, cx`pending, cx`heap, cx`nextObj, cx`privates, cx`boxes, cx`nextBox, cx`rcs
    ensures cx.Valid() && obj in cx.heap
    ensures KeptBut(old(cx.heap), cx.heap, obj) && old(cx.nextObj) <= cx.nextObj
    ensures Extends(old(cx.privates), cx.privates) && Extends(old(cx.boxes), cx.boxes)
    ensures ok ==>
      cx.heap[obj] == WithElement(old(cx.heap)[obj], AsU32(index), rval) &&
      Written(cx, old(cx.heap), old(cx.privates), old(cx.boxes), old(cx.nextObj), old(cx.pending), obj, ty, n, rval)
    ensures !ok ==> cx.pending == Some(cx.thrown) && cx.heap[obj] == old(cx.heap)[obj]
    ensures cx.rcs == AfterClone(old(cx.rcs), ClosureOf(n))
    ensures Quiet(old(cx.faults)) ==> Quiet(cx.faults)
    ensures Quiet(old(cx.faults)) && Small(n) ==> ok
  {
    var v;
    ok, v := Encode(cx, ty, n);
    rval := v;
    if !ok {
      return;
    }
    ok := PutElement(cx, old(cx.heap), old(cx.privates), old(cx.boxes), old(cx.nextObj), old(cx.pending),
                     obj, AsU32(index), ty, n, v);
  }

  /** `call_method`: the call, then the conversion of its result. Calling a
      name that is not a method of the object fails like any failed call. */
  method CallMethod(cx: Context, obj: ObjId, name: string, args: seq<JSVal>, ty: Ty) returns (r: Outcome<Native>)
    requires cx.Valid() && obj in cx.heap && Supported(ty)
    modifies cx`faults, cx`pending, cx`slots, cx`nextSlot, cx`tracers, cx`rcs
    ensures cx.Valid()
    ensures !CName(name) ==> r.Panic?
    ensures CName(name) && name !in cx.heap[obj].methods ==>
      r.Err? && Raised(cx, old(cx.slots), old(cx.tracers), r.exc) && cx.rcs == old(cx.rcs)
    ensures CName(name) && name in cx.heap[obj].methods ==>
      Decoded(cx, old(cx.slots), old(cx.tracers), old(cx.pending), old(cx.rcs), ty, cx.heap[obj].methods[name], r)
    ensures Quiet(old(cx.faults)) ==> Quiet(cx.faults)
    ensures Quiet(old(cx.faults)) && CName(name) && name in cx.heap[obj].methods ==>
      (Decodable(cx.heap, cx.privates, ty, cx.heap[obj].methods[name]) ==> r.Ok?)
  {
    if !CName(name) {
      return Panic;
    }
    var ok, v := cx.CallFunctionName(obj, name, args);
    if !ok {
      var e := Raise<Native>(cx);
      r := e;
      assert r.Err?;
      if name in cx.heap[obj].methods {
        ErrDecoded(cx, old(cx.slots), old(cx.tracers), old(cx.pending), old(cx.rcs), ty, cx.heap[obj].methods[name], r.exc);
      }
      return;
    }
    r := Decode(cx, ty, v);
  }
}
