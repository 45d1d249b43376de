/** The accessor macros of src/macros.rs: `getter!`, `setter!` and
    `method!`, each over a `derive_convert!` facade (the `TracedBox` holding
    the object). The other macros are modelled where they are used:
    - the two-argument `try_jsapi!` is `Exceptions.Raise`;
    - the one-argument form is the `false` path of the write methods;
    - `derive_convert!` is the `THandle` case of `Decoding` and `Encoding`;
    - `derive_rooted!` is `Trace.Get` and `Trace.Handle`.
    `JSAutoCompartment` has no effect when there are no compartments. */
module Macros {
  import opened JSApi
  import opened Trace
  import opened Exceptions
  import opened Conversions
  import opened Decoding
  import opened Encoding
  import opened Utils

  /** The object a live facade holds. */
  predicate HoldsObject(cx: Context, obj: TracedBox)
    reads cx`tracers, cx`slots, cx`heap
  {
    obj.slot in cx.tracers && obj.slot in cx.slots && cx.slots[obj.slot].Obj? && cx.slots[obj.slot].id in cx.heap
  }

  /** `getter!`: `get_property` on the facade's object. */
  method Getter(cx: Context, obj: TracedBox, name: string, ty: Ty) returns (r: Outcome<Native>)
    requires cx.Valid() && HoldsObject(cx, obj) && Supported(ty)
    modifies cx`faults, cx`pending, cx`slots, cx`nextSlot, cx`tracers, cx`rcs
    ensures cx.Valid()
    ensures !CName(name) ==> r.Panic?
    ensures CName(name) ==>
      Decoded(cx, old(cx.slots), old(cx.tracers), old(cx.pending), old(cx.rcs), ty,
              PropertyOf(cx.heap[old(cx.slots)[obj.slot].id], name), r)
    ensures Quiet(old(cx.faults)) ==> Quiet(cx.faults)
    ensures var v := PropertyOf(cx.heap[old(cx.slots)[obj.slot].id], name);
      Quiet(old(cx.faults)) && CName(name) && Decodable(cx.heap, cx.privates, ty, v) ==> r.Ok?
  {
    r := GetProperty(cx, Get(cx, obj).id, name, ty);
  }

  /** `setter!`: `set_property` on the facade's object; its `false` becomes
      the pending exception, captured as an `Err`. */
  method Setter(cx: Context, obj: TracedBox, name: string, ty: Ty, n: Native) returns (r: Outcome<()>, ghost rval: JSVal)
    requires cx.Valid() && HoldsObject(cx, obj) && Supported(ty) && HasType(ty, n)
    requires Owned(cx.tracers, cx.slots, n) && ClosureLive(cx.rcs, n)
    modifies cx`faults, cx`pending, cx`heap, cx`nextObj, cx`privates, cx`boxes, cx`nextBox, cx`rcs
    modifies cx`slots, cx`nextSlot, cx`tracers
    ensures cx.Valid()
    ensures r.Panic? ==> !CName(name)
    ensures r.Ok? ==>
      var id := old(cx.slots)[obj.slot].id;
      id in cx.heap && cx.heap[id] == WithProperty(old(cx.heap)[id], name, rval) &&
      Written(cx, old(cx.heap), old(cx.privates), old(cx.boxes), old(cx.nextObj), old(cx.pending), id, ty, n, rval) &&
      cx.slots == old(cx.slots) && cx.tracers == old(cx.tracers)
    ensures r.Err? ==> Raised(cx, old(cx.slots), old(cx.tracers), r.exc)
    ensures cx.rcs == AfterClone(old(cx.rcs), ClosureOf(n))
    ensures Quiet(old(cx.faults)) ==> Quiet(cx.faults)
    ensures Quiet(old(cx.faults)) && Small(n) ==> if CName(name) then r.Ok? else r.Panic?
  {
    var written;
    written, rval := SetProperty(cx, Get(cx, obj).id, name, ty, n);
    match written
    case None => r := Panic;
    case Some(true) => r := Ok(());
    case Some(false) => r := Raise(cx);
  }

  /** One argument of a `method!` call: a native value and the type it is
      converted at. */
  datatype Argument = Argument(ty: Ty, n: Native)

  /** Arguments `method!` can convert: closure-free, of their type, every
      facade inside them live. */
  ghost predicate Convertible(cx: Context, args: seq<Argument>)
    reads cx`tracers, cx`slots
  {
    forall k :: 0 <= k < |args| ==>
      NoClosure(args[k].ty) && HasType(args[k].ty, args[k].n) && Owned(cx.tracers, cx.slots, args[k].n)
  }

  /** The first `i` arguments are converted: `vals[k]` encodes `args[k]` out
      of objects allocated from `lo` on. */
  ghost predicate ConvertedUpTo(w: View, lo: nat, args: seq<Argument>, vals: seq<JSVal>, i: nat)
  {
    i <= |args| && |vals| == i &&
    forall k :: 0 <= k < i ==> Encodes(w, lo, args[k].ty, args[k].n, vals[k])
  }

  /** Conversions survive later allocations. */
  lemma ConvertedKept(w1: View, w2: View, lo: nat, args: seq<Argument>, vals: seq<JSVal>, i: nat)
    requires ConvertedUpTo(w1, lo, args, vals, i)
    requires Extends(w1.heap, w2.heap) && Extends(w1.privates, w2.privates) && Extends(w1.boxes, w2.boxes)
    requires w2.slots == w1.slots
    ensures ConvertedUpTo(w2, lo, args, vals, i)
  {
    forall k | 0 <= k < i
      ensures Encodes(w2, lo, args[k].ty, args[k].n, vals[k])
    {
      EncodesFrame(w1, w2, lo, args[k].ty, args[k].n, vals[k]);
    }
  }

  /** One step of the argument loop: convert `args[i]` and push it. */
  method ConvertArgument(cx: Context, ghost lo: nat, args: seq<Argument>, vals: seq<JSVal>, i: nat)
    returns (ok: bool, vals': seq<JSVal>)
    requires cx.Valid() && Convertible(cx, args) && i < |args| && lo <= cx.nextObj
    requires ConvertedUpTo(ViewOf(cx), lo, args, vals, i) == true
    modifies cx`faults, cx`pending, cx`heap, cx`nextObj, cx`privates, cx`boxes, cx`nextBox, cx`rcs
    ensures cx.Valid() && lo <= cx.nextObj
    ensures Extends(old(cx.heap), cx.heap) && Extends(old(cx.privates), cx.privates) && Extends(old(cx.boxes), cx.boxes)
    ensures cx.rcs == old(cx.rcs)
    ensures ok ==> cx.pending == old(cx.pending) && ConvertedUpTo(ViewOf(cx), lo, args, vals', i + 1)
    ensures !ok ==> cx.pending == Some(cx.thrown)
    ensures Quiet(old(cx.faults)) ==> Quiet(cx.faults)
    ensures Quiet(old(cx.faults)) && Small(args[i].n) ==> ok
  {
    ghost var w0 := ViewOf(cx);
    NoClosureHasNone(args[i].ty, args[i].n);
    var v;
    ok, v := Encode(cx, args[i].ty, args[i].n);
    vals' := vals + [v];
    if ok {
      ConvertedKept(w0, ViewOf(cx), lo, args, vals, i);
      EncodesWeaken(ViewOf(cx), lo, old(cx.nextObj), args[i].ty, args[i].n, v);
      assert vals'[i] == v;
      assert forall k :: 0 <= k < i ==> vals'[k] == vals[k];
    }
  }

  /** The argument loop of `method!`: arguments are converted left to right
      into a vector of values; the first failed conversion stops it, with the
      engine's exception pending. */
  method ConvertArguments(cx: Context, args: seq<Argument>) returns (ok: bool, vals: seq<JSVal>)
    requires cx.Valid() && Convertible(cx, args)
    modifies cx`faults, cx`pending, cx`heap, cx`nextObj, cx`privates, cx`boxes, cx`nextBox, cx`rcs
    ensures cx.Valid() && old(cx.nextObj) <= cx.nextObj
    ensures Extends(old(cx.heap), cx.heap) && Extends(old(cx.privates), cx.privates) && Extends(old(cx.boxes), cx.boxes)
    ensures cx.rcs == old(cx.rcs)
    ensures ok ==> cx.pending == old(cx.pending) && ConvertedUpTo(ViewOf(cx), old(cx.nextObj), args, vals, |args|)
    ensures !ok ==> cx.pending == Some(cx.thrown) && |vals| < |args|
    ensures Quiet(old(cx.faults)) ==> Quiet(cx.faults)
    ensures Quiet(old(cx.faults)) && (forall k :: 0 <= k < |args| ==> Small(args[k].n)) ==> ok
  {
    vals := [];
    var i := 0;
    while i < |args|
      invariant cx.Valid() && Convertible(cx, args) && i <= |args|
      invariant old(cx.nextObj) <= cx.nextObj
      invariant Extends(old(cx.heap), cx.heap) && Extends(old(cx.privates), cx.privates) && Extends(old(cx.boxes), cx.boxes)
      invariant cx.rcs == old(cx.rcs) && cx.pending == old(cx.pending)
      invariant ConvertedUpTo(ViewOf(cx), old(cx.nextObj), args, vals, i)
      invariant Quiet(old(cx.faults)) ==> Quiet(cx.faults)
    {
      var next;
      ok, next := ConvertArgument(cx, old(cx.nextObj), args, vals, i);
      if !ok {
        return;
      }
      vals, i := next, i + 1;
    }
    ok := true;
  }

  /** `method!`: the arguments are converted first. A failed conversion
      becomes an `Err` before any call is made. Otherwise `call_method`
      runs on the converted values. `called` says whether the call was made,
      and `w` is the engine state the arguments were converted in. */
  method MethodCall(cx: Context, obj: TracedBox, name: string, args: seq<Argument>, ty: Ty)
    returns (r: Outcome<Native>, ghost called: bool, vals: seq<JSVal>, ghost w: View)
    requires cx.Valid() && HoldsObject(cx, obj) && Convertible(cx, args) && Supported(ty)
    modifies cx`faults, cx`pending, cx`heap, cx`nextObj, cx`privates, cx`boxes, cx`nextBox, cx`rcs
    modifies cx`slots, cx`nextSlot, cx`tracers
    ensures cx.Valid()
    ensures !called ==> r.Err? && Raised(cx, old(cx.slots), old(cx.tracers), r.exc)
    ensures called ==> ConvertedUpTo(w, old(cx.nextObj), args, vals, |args|)
    ensures called && !CName(name) ==> r.Panic?
    ensures called && CName(name) ==>
      var id := old(cx.slots)[obj.slot].id;
      id in cx.heap && cx.heap[id] == old(cx.heap)[id] &&
      (name !in cx.heap[id].methods ==> r.Err? && Raised(cx, old(cx.slots), old(cx.tracers), r.exc)) &&
      (name in cx.heap[id].methods ==>
        Decoded(cx, old(cx.slots), old(cx.tracers), old(cx.pending), old(cx.rcs), ty, cx.heap[id].methods[name], r))
    ensures Quiet(old(cx.faults)) ==> Quiet(cx.faults)
    ensures Quiet(old(cx.faults)) && (forall k :: 0 <= k < |args| ==> Small(args[k].n)) ==> called
  {
    var ok;
    ok, vals := ConvertArguments(cx, args);
    called := ok;
    w := ViewOf(cx);
    if !ok {
      r := Raise(cx);
      return;
    }
    r := CallMethod(cx, Get(cx, obj).id, name, vals, ty);
  }
}
