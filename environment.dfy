/** The decoders of src/environment.rs: `EnvironmentType`, a name, and
    `OptimizedOutOrValue`, a variable's value in an environment, which the
    engine reports as an object whose `optimizedOut` property is `true` when
    the variable was optimized away. */
module Environments {
  import opened JSApi
  import opened Trace
  import opened Values
  import opened Scalars
  import opened Exceptions
  import opened Conversions
  import opened Decoding
  import opened Utils
  import opened Names

  datatype EnvironmentType = Declarative | Object | With

  /** The name of each variant. */
  function EnvironmentTypeName(t: EnvironmentType): string
  {
    match t
    case Declarative => "declarative"
    case Object => "object"
    case With => "with"
  }

  /** The match of `EnvironmentType::from_js_value`: `None` is its `panic!`. */
  function EnvironmentTypeOf(s: string): (r: Option<EnvironmentType>)
  {
    if s == "declarative" then Some(Declarative)
    else if s == "object" then Some(EnvironmentType.Object)
    else if s == "with" then Some(With)
    else None
  }

  /** Exactly the variants' names decode, each to its own variant. */
  lemma EnvironmentTypeNames(s: string, t: EnvironmentType)
    ensures EnvironmentTypeOf(s) == Some(t) <==> s == EnvironmentTypeName(t)
  {
  }

  method DecodeEnvironmentType(cx: Context, v: JSVal) returns (r: Outcome<EnvironmentType>)
    requires cx.Valid()
    modifies cx`faults, cx`pending, cx`slots, cx`nextSlot, cx`tracers
    ensures cx.Valid() && SlotsGrow(old(cx.slots), cx.slots)
    ensures r.Ok? ==>
      v.Str? && CharsToString(v.s) == EnvironmentTypeName(r.value) &&
      cx.pending == old(cx.pending) && cx.tracers == old(cx.tracers)
    ensures r.Err? ==> v.Str? && Raised(cx, old(cx.slots), old(cx.tracers), r.exc)
    ensures r.Panic? ==> !v.Str? || EnvironmentTypeOf(CharsToString(v.s)).None?
    ensures Quiet(old(cx.faults)) ==> Quiet(cx.faults)
    ensures Quiet(old(cx.faults)) && v.Str? && EnvironmentTypeOf(CharsToString(v.s)).Some? ==> r.Ok?
  {
    r := DecodeName(cx, v, EnvironmentTypeOf);
    if r.Ok? {
      EnvironmentTypeNames(CharsToString(v.s), r.value);
    }
  }

  const OptimizedOutKey: string := "optimizedOut"

  /** Decoding `v` as `OptimizedOutOrValue` meets no fatal assertion: an
      object's `optimizedOut` property must hold a boolean (a missing one
      reads as undefined), and any other value must be a `Value`. */
  predicate OptimizedDecodable(heap: map<ObjId, ObjRec>, v: JSVal)
  {
    if v.Obj? then v.id in heap && PropertyOf(heap[v.id], OptimizedOutKey).Bool? else !v.Symbol?
  }

  /** The `optimizedOut` test on an object: `has_property`, whose answer is
      not used, then `get_property` as a `bool`. */
  method OptimizedOutFlag(cx: Context, id: ObjId) returns (r: Outcome<bool>)
    requires cx.Valid() && id in cx.heap
    modifies cx`faults, cx`pending, cx`slots, cx`nextSlot, cx`tracers, cx`rcs
    ensures cx.Valid() && SlotsGrow(old(cx.slots), cx.slots)
    ensures r.Ok? ==>
      PropertyOf(cx.heap[id], OptimizedOutKey) == Bool(r.value) &&
      cx.pending == old(cx.pending) && cx.tracers == old(cx.tracers) && cx.rcs == old(cx.rcs)
    ensures r.Err? ==> Raised(cx, old(cx.slots), old(cx.tracers), r.exc) && cx.rcs == old(cx.rcs)
    ensures r.Panic? ==> !PropertyOf(cx.heap[id], OptimizedOutKey).Bool?
    ensures Quiet(old(cx.faults)) ==> Quiet(cx.faults)
    ensures Quiet(old(cx.faults)) && PropertyOf(cx.heap[id], OptimizedOutKey).Bool? ==> r.Ok?
  {
    assert CName(OptimizedOutKey);
    var found := HasProperty(cx, id, OptimizedOutKey);
    if found.Err? {
      return Err(found.exc);
    }
    var flag := GetProperty(cx, id, OptimizedOutKey, TScalar(KBool));
    match flag
    case Ok(n) =>
      assert DecodeScalar(KBool, PropertyOf(cx.heap[id], OptimizedOutKey)) == Some(n.x);
      r := Ok(n.x.b);
    case Err(e) =>
      r := Err(e);
    case Panic =>
      r := Panic;
  }

  /** The state after decoding `v` as `OptimizedOutOrValue` ended in `r`,
      from cells `slots0`, registry `tracers0`, pending slot `pending0` and
      reference counts `rcs0`. */
  ghost predicate OptimizedDecoded(cx: Context, slots0: map<SlotId, JSVal>, tracers0: set<SlotId>,
                                   pending0: Option<JSVal>, rcs0: map<RcId, RcCell>, v: JSVal,
                                   r: Outcome<Option<Value>>)
    reads cx`heap, cx`privates, cx`boxes, cx`slots, cx`tracers, cx`pending, cx`rcs, cx`thrown
  {
    SlotsGrow(slots0, cx.slots) &&
    (r.Ok? ==>
      cx.pending == pending0 && cx.rcs == rcs0 &&
      (r.value.None? <==> v.Obj? && v.id in cx.heap && PropertyOf(cx.heap[v.id], OptimizedOutKey) == Bool(true)) &&
      (r.value.None? ==> cx.tracers == tracers0) &&
      (r.value.Some? ==>
        ValueDecodes(ViewOf(cx), v, r.value.value) &&
        cx.tracers == tracers0 + ValueRoots(r.value.value) && ValueRoots(r.value.value) !! slots0.Keys)) &&
    (r.Err? ==> Raised(cx, slots0, tracers0, r.exc) && cx.rcs == rcs0) &&
    (r.Panic? ==> !OptimizedDecodable(cx.heap, v))
  }

  /** `Some` of what decoding `v` as a `Value` gave. */
  function SomeValue(x: Outcome<Native>): (r: Outcome<Option<Value>>)
    requires x.Ok? ==> x.value.NValue?
    ensures r.Ok? <==> x.Ok?
    ensures r.Ok? ==> r.value == Some(x.value.v)
    ensures r.Err? <==> x.Err?
    ensures r.Err? ==> r.exc == x.exc
  {
    match x
    case Ok(n) => Ok(Some(n.v))
    case Err(e) => Err(e)
    case Panic => Panic
  }

  /** Decoding the value itself, after the marker test left cells `slots1`,
      ends the whole decoding as it ends. */
  lemma VariableDecoded(cx: Context, slots0: map<SlotId, JSVal>, slots1: map<SlotId, JSVal>, tracers0: set<SlotId>,
                        pending0: Option<JSVal>, rcs0: map<RcId, RcCell>, v: JSVal, x: Outcome<Native>)
    requires SlotsGrow(slots0, slots1) && cx.rcs == rcs0
    requires v.Obj? ==> v.id in cx.heap && PropertyOf(cx.heap[v.id], OptimizedOutKey) == Bool(false)
    requires Decoded(cx, slots1, tracers0, pending0, rcs0, TValue, v, x) == true
    ensures x.Ok? ==> x.value.NValue?
    ensures OptimizedDecoded(cx, slots0, tracers0, pending0, rcs0, v, SomeValue(x))
  {
    assert SlotsGrow(slots1, cx.slots);
    if x.Ok? {
      assert x.value.NValue? && RootsOf(x.value) == ValueRoots(x.value.v);
    } else if x.Err? {
      assert Raised(cx, slots1, tracers0, x.exc);
    } else {
      assert v.Symbol?;
    }
  }

  /** The last step: `v`, not an optimized-out marker, decoded as a `Value`. */
  method DecodeVariable(cx: Context, v: JSVal, ghost slots0: map<SlotId, JSVal>, ghost tracers0: set<SlotId>)
    returns (r: Outcome<Option<Value>>)
    requires cx.Valid() && SlotsGrow(slots0, cx.slots) && cx.tracers == tracers0
    requires v.Obj? ==> v.id in cx.heap && PropertyOf(cx.heap[v.id], OptimizedOutKey) == Bool(false)
    modifies cx`faults, cx`pending, cx`slots, cx`nextSlot, cx`tracers
    ensures cx.Valid()
    ensures OptimizedDecoded(cx, slots0, tracers0, old(cx.pending), old(cx.rcs), v, r)
    ensures Quiet(old(cx.faults)) ==> Quiet(cx.faults)
    ensures Quiet(old(cx.faults)) && OptimizedDecodable(cx.heap, v) ==> r.Ok?
  {
    var x := DecodeValue(cx, v);
    VariableDecoded(cx, slots0, old(cx.slots), tracers0, old(cx.pending), old(cx.rcs), v, x);
    r := SomeValue(x);
  }

  /** `OptimizedOutOrValue::from_js_value`: `None` for an object whose
      `optimizedOut` reads `true`; otherwise `Some` of `v` decoded as a
      `Value`, an object becoming a fresh facade. */
  method DecodeOptimizedOut(cx: Context, v: JSVal) returns (r: Outcome<Option<Value>>)
    requires cx.Valid() && (v.Obj? ==> v.id in cx.heap)
    modifies cx`faults, cx`pending, cx`slots, cx`nextSlot, cx`tracers, cx`rcs
    ensures cx.Valid()
    ensures OptimizedDecoded(cx, old(cx.slots), old(cx.tracers), old(cx.pending), old(cx.rcs), v, r)
    ensures Quiet(old(cx.faults)) ==> Quiet(cx.faults)
    ensures Quiet(old(cx.faults)) && OptimizedDecodable(cx.heap, v) ==> r.Ok?
  {
    if v.Obj? {
      var flag := OptimizedOutFlag(cx, v.id);
      if !flag.Ok? {
        r := if flag.Err? then Err(flag.exc) else Panic;
        return;
      }
      if flag.value {
        return Ok(None);
      }
    }
    r := DecodeVariable(cx, v, old(cx.slots), old(cx.tracers));
  }
}
