/** The codecs of src/object.rs: `PropertyDescriptor`, read from and written
    to an engine object property by property, and the `PromiseState` name
    decoder. A descriptor's six fields are treated alike, by their position in
    declaration order: `configurable`, `enumerable` and `writable` hold a
    `bool`, and `value`, `get` and `set` hold a `Value`. */
module Objects {
  import opened JSApi
  import opened Trace
  import opened Values
  import opened Scalars
  import opened Exceptions
  import opened Conversions
  import opened Decoding
  import opened Encoding
  import opened Utils
  import opened Names
  import opened PropertyMaps

  /** The property name of each field. */
  const FieldNames: seq<string> := ["configurable", "enumerable", "writable", "value", "get", "set"]

  lemma FieldNamesDistinct()
    ensures |FieldNames| == 6
    ensures forall i, j :: 0 <= i < j < 6 ==> FieldNames[i] != FieldNames[j]
    ensures forall k :: 0 <= k < 6 ==> CName(FieldNames[k])
  {
  }

  /** The type each field's value converts at. */
  function FieldTy(k: nat): Ty
  {
    if k < 3 then TScalar(KBool) else TValue
  }

  function BoolField(b: Option<bool>): Option<Native>
  {
    if b.Some? then Some(NScalar(SBool(b.value))) else None
  }

  function ValueField(x: Option<Value>): Option<Native>
  {
    if x.Some? then Some(NValue(x.value)) else None
  }

  /** A descriptor's fields in declaration order, as natives of their types. */
  function Fields(d: PropertyDescriptor): (fs: seq<Option<Native>>)
    ensures |fs| == 6
    ensures forall k :: 0 <= k < 6 && fs[k].Some? ==> HasType(FieldTy(k), fs[k].value)
  {
    [BoolField(d.configurable), BoolField(d.enumerable), BoolField(d.writable),
     ValueField(d.value), ValueField(d.getter), ValueField(d.setter)]
  }

  /** A decoded field: `NOpt` of a native of the field's type. */
  predicate FieldShaped(k: nat, n: Native)
  {
    n.NOpt? && (n.opt.Some? ==> HasType(FieldTy(k), n.opt.value))
  }

  function BoolOf(n: Native): Option<bool>
    requires n.NOpt? && (n.opt.Some? ==> HasType(TScalar(KBool), n.opt.value))
  {
    if n.opt.Some? then Some(n.opt.value.x.b) else None
  }

  function ValueOf(n: Native): Option<Value>
    requires n.NOpt? && (n.opt.Some? ==> n.opt.value.NValue?)
  {
    if n.opt.Some? then Some(n.opt.value.v) else None
  }

  /** The descriptor six decoded fields make up. */
  function FromFields(done: seq<Native>): (d: PropertyDescriptor)
    requires |done| == 6 && forall k :: 0 <= k < 6 ==> FieldShaped(k, done[k])
    ensures forall k :: 0 <= k < 6 ==> NOpt(Fields(d)[k]) == done[k]
  {
    assert FieldShaped(0, done[0]) && FieldShaped(1, done[1]) && FieldShaped(2, done[2]);
    assert FieldShaped(3, done[3]) && FieldShaped(4, done[4]) && FieldShaped(5, done[5]);
    PropertyDescriptor(BoolOf(done[0]), BoolOf(done[1]), BoolOf(done[2]),
                       ValueOf(done[3]), ValueOf(done[4]), ValueOf(done[5]))
  }

  /** The cells a descriptor's values keep alive. */
  function DescriptorRoots(d: PropertyDescriptor): set<SlotId>
  {
    OptRoots(d.value) + OptRoots(d.getter) + OptRoots(d.setter)
  }

  // Decoding.

  /** Field `k` as decoded from the object `o`: present exactly when `o` has
      the field's property, holding that property's value converted. */
  ghost predicate FieldDecodes(w: View, o: ObjRec, k: nat, f: Option<Native>)
    requires k < 6
  {
    (f.Some? <==> FieldNames[k] in o.props) &&
    (f.Some? ==> HasType(FieldTy(k), f.value) && Decodes(w, FieldTy(k), o.props[FieldNames[k]], f.value))
  }

  ghost predicate DescriptorDecodes(w: View, o: ObjRec, d: PropertyDescriptor)
  {
    forall k :: 0 <= k < 6 ==> FieldDecodes(w, o, k, Fields(d)[k])
  }

  /** Reading field `k` of `id` meets no fatal assertion: a present
      `configurable`, `enumerable` or `writable` is a boolean, and a present
      `value`, `get` or `set` is a `Value`. */
  predicate FieldDecodable(heap: map<ObjId, ObjRec>, id: ObjId, k: nat)
    requires id in heap && k < 6
  {
    FieldNames[k] in heap[id].props ==> Decodable(heap, map[], FieldTy(k), heap[id].props[FieldNames[k]])
  }

  predicate DescriptorDecodable(heap: map<ObjId, ObjRec>, v: JSVal)
  {
    v.Obj? && v.id in heap && forall k :: 0 <= k < 6 ==> FieldDecodable(heap, v.id, k)
  }

  /** Part-way through decoding the object `id`: `done` holds its first
      fields, decoded, and owns exactly the registry entries added to
      `tracers0`, in cells that did not exist in `slots0`. */
  ghost predicate FieldsSoFar(cx: Context, slots0: map<SlotId, JSVal>, tracers0: set<SlotId>, id: ObjId, done: seq<Native>)
    reads cx`heap, cx`privates, cx`boxes, cx`slots, cx`tracers
  {
    FieldsHeld(ViewOf(cx), cx.tracers, slots0, tracers0, id, done)
  }

  /** `FieldsSoFar` in the engine state `w` with the registry `tracers`. */
  ghost predicate FieldsHeld(w: View, tracers: set<SlotId>, slots0: map<SlotId, JSVal>, tracers0: set<SlotId>,
                             id: ObjId, done: seq<Native>)
  {
    id in w.heap && |done| <= 6 &&
    (forall k :: 0 <= k < |done| ==> FieldShaped(k, done[k]) && FieldDecodes(w, w.heap[id], k, done[k].opt)) &&
    VecOwns(tracers, w.slots, slots0, tracers0, done)
  }

  lemma FieldsStarted(cx: Context, id: ObjId)
    requires id in cx.heap
    ensures FieldsSoFar(cx, cx.slots, cx.tracers, id, [])
  {
    assert RootsOf(NSeq([])) == {};
  }

  /** One more field, decoded in a state that only added cells and the
      field's own registry entries, extends what was decoded. */
  lemma FieldsExtended(cx: Context, slots1: map<SlotId, JSVal>, tracers1: set<SlotId>, w1: View,
                       slots0: map<SlotId, JSVal>, tracers0: set<SlotId>, id: ObjId, done: seq<Native>, f: Native)
    requires w1.slots == slots1 && w1.heap == cx.heap && w1.privates == cx.privates && w1.boxes == cx.boxes
    requires |done| < 6 && SlotsGrow(slots1, cx.slots)
    requires FieldsHeld(w1, tracers1, slots0, tracers0, id, done) == true
    requires FieldShaped(|done|, f) && FieldDecodes(ViewOf(cx), cx.heap[id], |done|, f.opt)
    requires Owned(cx.tracers, cx.slots, f) && cx.tracers == tracers1 + RootsOf(f) && RootsOf(f) !! slots1.Keys
    ensures FieldsSoFar(cx, slots0, tracers0, id, done + [f])
  {
    var l := done + [f];
    forall k | 0 <= k < |l|
      ensures FieldShaped(k, l[k]) && FieldDecodes(ViewOf(cx), cx.heap[id], k, l[k].opt)
    {
      if k < |done| {
        if done[k].opt.Some? {
          DecodesExtend(w1, ViewOf(cx), FieldTy(k), cx.heap[id].props[FieldNames[k]], done[k].opt.value);
        }
      }
    }
    VecOwnsSnoc(tracers1, slots1, cx.tracers, cx.slots, slots0, tracers0, done, f);
  }

  /** After decoding the field that follows `done` of the object `id`. */
  ghost predicate FieldDecoded(cx: Context, slots0: map<SlotId, JSVal>, tracers0: set<SlotId>,
                               pending0: Option<JSVal>, rcs0: map<RcId, RcCell>, id: ObjId,
                               done: seq<Native>, r: Outcome<seq<Native>>)
    requires id in cx.heap && |done| < 6
    reads cx`heap, cx`privates, cx`boxes, cx`slots, cx`tracers, cx`pending, cx`rcs, cx`thrown
  {
    SlotsGrow(slots0, cx.slots) &&
    (r.Ok? ==>
      |r.value| == |done| + 1 && r.value[..|done|] == done && FieldsSoFar(cx, slots0, tracers0, id, r.value) &&
      cx.pending == pending0 && cx.rcs == rcs0) &&
    (r.Err? ==> Raised(cx, slots0, tracers0, r.exc) && cx.rcs == rcs0) &&
    (r.Panic? ==> !FieldDecodable(cx.heap, id, |done|))
  }

  /** A field that is not there decodes as `None`. */
  lemma FieldAbsent(cx: Context, slots0: map<SlotId, JSVal>, tracers0: set<SlotId>, id: ObjId, done: seq<Native>)
    requires |done| < 6 && FieldsSoFar(cx, slots0, tracers0, id, done) && FieldNames[|done|] !in cx.heap[id].props
    ensures FieldDecoded(cx, slots0, tracers0, cx.pending, cx.rcs, id, done, Ok(done + [NOpt(None)]))
  {
    FieldsExtended(cx, cx.slots, cx.tracers, ViewOf(cx), slots0, tracers0, id, done, NOpt(None));
    assert (done + [NOpt(None)])[..|done|] == done;
  }

  /** One field: `has_property`, then, if it is there, `get_property` at the
      field's type. A failure drops the fields decoded so far. */
  method DecodeField(cx: Context, id: ObjId, ghost slots0: map<SlotId, JSVal>, ghost tracers0: set<SlotId>,
                     done: seq<Native>) returns (r: Outcome<seq<Native>>)
    requires cx.Valid() && |done| < 6 && tracers0 <= slots0.Keys
    requires FieldsSoFar(cx, slots0, tracers0, id, done) == true
    modifies cx`faults, cx`pending, cx`slots, cx`nextSlot, cx`tracers, cx`rcs
    ensures cx.Valid() && id in cx.heap
    ensures FieldDecoded(cx, slots0, tracers0, old(cx.pending), old(cx.rcs), id, done, r)
    ensures Quiet(old(cx.faults)) ==> Quiet(cx.faults)
    ensures Quiet(old(cx.faults)) && FieldDecodable(cx.heap, id, |done|) ==> r.Ok?
  {
    FieldNamesDistinct();
    var found := HasProperty(cx, id, FieldNames[|done|]);
    if found.Err? {
      Abandon(cx, RootsOf(NSeq(done)), found.exc, slots0, tracers0, old(cx.slots));
      return Err(found.exc);
    }
    if !found.value {
      r := Ok(done + [NOpt(None)]);
      FieldAbsent(cx, slots0, tracers0, id, done);
      return;
    }
    r := ReadField(cx, id, slots0, tracers0, done);
  }

  /** Whether a field can be read does not depend on the boxes. */
  lemma FieldDecodableAt(heap: map<ObjId, ObjRec>, privates: map<ObjId, BoxId>, id: ObjId, k: nat)
    requires id in heap && k < 6 && FieldNames[k] in heap[id].props
    ensures FieldDecodable(heap, id, k) == Decodable(heap, privates, FieldTy(k), PropertyOf(heap[id], FieldNames[k]))
  {
  }

  /** A field read at its type extends what was decoded. */
  lemma FieldRead(cx: Context, w1: View, tracers1: set<SlotId>, pending1: Option<JSVal>, rcs1: map<RcId, RcCell>,
                  slots0: map<SlotId, JSVal>, tracers0: set<SlotId>, id: ObjId, done: seq<Native>, n: Native)
    requires w1.heap == cx.heap && w1.privates == cx.privates && w1.boxes == cx.boxes
    requires |done| < 6 && FieldsHeld(w1, tracers1, slots0, tracers0, id, done)
    requires FieldNames[|done|] in cx.heap[id].props
    requires Decoded(cx, w1.slots, tracers1, pending1, rcs1, FieldTy(|done|),
                     PropertyOf(cx.heap[id], FieldNames[|done|]), Ok(n)) == true
    ensures FieldDecoded(cx, slots0, tracers0, pending1, rcs1, id, done, Ok(done + [NOpt(Some(n))]))
  {
    NoClosureHasNone(FieldTy(|done|), n);
    FieldsExtended(cx, w1.slots, tracers1, w1, slots0, tracers0, id, done, NOpt(Some(n)));
    assert (done + [NOpt(Some(n))])[..|done|] == done;
  }

  /** A field that is there: `get_property` at the field's type. */
  method ReadField(cx: Context, id: ObjId, ghost slots0: map<SlotId, JSVal>, ghost tracers0: set<SlotId>,
                   done: seq<Native>) returns (r: Outcome<seq<Native>>)
    requires cx.Valid() && |done| < 6 && tracers0 <= slots0.Keys
    requires FieldsSoFar(cx, slots0, tracers0, id, done) == true
    requires FieldNames[|done|] in cx.heap[id].props
    modifies cx`faults, cx`pending, cx`slots, cx`nextSlot, cx`tracers, cx`rcs
    ensures cx.Valid() && id in cx.heap
    ensures FieldDecoded(cx, slots0, tracers0, old(cx.pending), old(cx.rcs), id, done, r)
    ensures Quiet(old(cx.faults)) ==> Quiet(cx.faults)
    ensures Quiet(old(cx.faults)) && FieldDecodable(cx.heap, id, |done|) ==> r.Ok?
  {
    FieldNamesDistinct();
    ghost var w1 := ViewOf(cx);
    var k := |done|;
    FieldDecodableAt(cx.heap, cx.privates, id, k);
    HeldRoots(w1, cx.tracers, slots0, tracers0, id, done);
    var x := GetProperty(cx, id, FieldNames[k], FieldTy(k));
    if x.Ok? {
      r := Ok(done + [NOpt(Some(x.value))]);
      FieldRead(cx, w1, old(cx.tracers), old(cx.pending), old(cx.rcs), slots0, tracers0, id, done, x.value);
    } else if x.Err? {
      Abandon(cx, RootsOf(NSeq(done)), x.exc, slots0, tracers0, old(cx.slots));
      r := Err(x.exc);
      FieldFailed(cx, slots0, tracers0, old(cx.pending), old(cx.rcs), id, done, r);
    } else {
      r := Panic;
      FieldFailed(cx, slots0, tracers0, old(cx.pending), old(cx.rcs), id, done, r);
    }
  }

  /** What the fields decoded so far own, as dropping them needs it. */
  lemma HeldRoots(w: View, tracers: set<SlotId>, slots0: map<SlotId, JSVal>, tracers0: set<SlotId>,
                  id: ObjId, done: seq<Native>)
    requires FieldsHeld(w, tracers, slots0, tracers0, id, done)
    ensures tracers == tracers0 + RootsOf(NSeq(done)) && RootsOf(NSeq(done)) <= w.slots.Keys
    ensures RootsOf(NSeq(done)) !! slots0.Keys && SlotsGrow(slots0, w.slots)
  {
  }

  /** A field whose read raised or met a fatal assertion. */
  lemma FieldFailed(cx: Context, slots0: map<SlotId, JSVal>, tracers0: set<SlotId>,
                    pending0: Option<JSVal>, rcs0: map<RcId, RcCell>, id: ObjId, done: seq<Native>, r: Outcome<seq<Native>>)
    requires id in cx.heap && |done| < 6 && !r.Ok? && SlotsGrow(slots0, cx.slots)
    requires r.Err? ==> Raised(cx, slots0, tracers0, r.exc) && cx.rcs == rcs0
    requires r.Panic? ==> !FieldDecodable(cx.heap, id, |done|)
    ensures FieldDecoded(cx, slots0, tracers0, pending0, rcs0, id, done, r)
  {
  }

  /** The state after decoding `v` as a descriptor ended in `r`. */
  ghost predicate DescriptorDecoded(cx: Context, slots0: map<SlotId, JSVal>, tracers0: set<SlotId>,
                                    pending0: Option<JSVal>, rcs0: map<RcId, RcCell>, v: JSVal,
                                    r: Outcome<PropertyDescriptor>)
    reads cx`heap, cx`privates, cx`boxes, cx`slots, cx`tracers, cx`pending, cx`rcs, cx`thrown
  {
    SlotsGrow(slots0, cx.slots) &&
    (r.Ok? ==>
      v.Obj? && v.id in cx.heap && DescriptorDecodes(ViewOf(cx), cx.heap[v.id], r.value) &&
      cx.pending == pending0 && cx.rcs == rcs0 &&
      cx.tracers == tracers0 + DescriptorRoots(r.value) && DescriptorRoots(r.value) !! slots0.Keys) &&
    (r.Err? ==> Raised(cx, slots0, tracers0, r.exc) && cx.rcs == rcs0) &&
    (r.Panic? ==> !DescriptorDecodable(cx.heap, v))
  }

  /** Where decoding stops early: an `Err` or a `Panic` of one field is the
      whole descriptor's. */
  function Stopped(s: Outcome<seq<Native>>): (r: Outcome<PropertyDescriptor>)
    requires !s.Ok?
    ensures r.Err? == s.Err? && (r.Err? ==> r.exc == s.exc)
  {
    if s.Err? then Err(s.exc) else Panic
  }

  lemma StoppedDecoded(cx: Context, slots0: map<SlotId, JSVal>, tracers0: set<SlotId>,
                       pending0: Option<JSVal>, rcs0: map<RcId, RcCell>, v: JSVal,
                       done: seq<Native>, s: Outcome<seq<Native>>)
    requires v.Obj? && v.id in cx.heap && |done| < 6 && !s.Ok?
    requires FieldDecoded(cx, slots0, tracers0, pending0, rcs0, v.id, done, s) == true
    ensures DescriptorDecoded(cx, slots0, tracers0, pending0, rcs0, v, Stopped(s))
  {
  }

  /** The cells the first `i` items own, item by item. */
  function RootsUpTo(items: seq<Native>, i: nat): set<SlotId>
    requires i <= |items|
  {
    if i == 0 then {} else RootsUpTo(items, i - 1) + RootsOf(items[i - 1])
  }

  lemma {:induction false} RootsPrefix(items: seq<Native>, i: nat)
    requires i <= |items|
    ensures RootsOf(NSeq(items[..i])) == RootsUpTo(items, i)
  {
    if i == 0 {
      assert RootsOf(NSeq([])) == {};
      assert items[..0] == [];
    } else {
      assert items[..i] == items[..i - 1] + [items[i - 1]];
      RootsOfSnoc(items[..i - 1], items[i - 1]);
      RootsPrefix(items, i - 1);
    }
  }

  function OptRoots(x: Option<Value>): set<SlotId>
  {
    if x.Some? then ValueRoots(x.value) else {}
  }

  /** The cells one decoded field owns. */
  lemma FieldRoots(k: nat, n: Native)
    requires k < 6 && FieldShaped(k, n)
    ensures RootsOf(n) == if k < 3 then {} else (assert n.opt.Some? ==> n.opt.value.NValue?; OptRoots(ValueOf(n)))
  {
  }

  /** The cells of six decoded fields are the descriptor's. */
  lemma FieldsRoots(done: seq<Native>)
    requires |done| == 6 && forall k :: 0 <= k < 6 ==> FieldShaped(k, done[k])
    ensures RootsUpTo(done, 6) == DescriptorRoots(FromFields(done))
  {
    var d := FromFields(done);
    FieldRoots(0, done[0]);
    FieldRoots(1, done[1]);
    FieldRoots(2, done[2]);
    FieldRoots(3, done[3]);
    FieldRoots(4, done[4]);
    FieldRoots(5, done[5]);
    assert RootsUpTo(done, 1) == {};
    assert RootsUpTo(done, 2) == {};
    assert RootsUpTo(done, 3) == {};
    assert RootsUpTo(done, 4) == OptRoots(d.value);
    assert RootsUpTo(done, 5) == OptRoots(d.value) + OptRoots(d.getter);
  }

  /** Six decoded fields make the descriptor. */
  lemma FieldsDone(cx: Context, slots0: map<SlotId, JSVal>, tracers0: set<SlotId>,
                   pending0: Option<JSVal>, rcs0: map<RcId, RcCell>, v: JSVal, done: seq<Native>)
    requires v.Obj? && |done| == 6
    requires FieldsSoFar(cx, slots0, tracers0, v.id, done) == true
    requires cx.pending == pending0 && cx.rcs == rcs0
    ensures forall k :: 0 <= k < 6 ==> FieldShaped(k, done[k])
    ensures DescriptorDecoded(cx, slots0, tracers0, pending0, rcs0, v, Ok(FromFields(done)))
  {
    var d := FromFields(done);
    forall k | 0 <= k < 6
      ensures FieldDecodes(ViewOf(cx), cx.heap[v.id], k, Fields(d)[k])
    {
      assert NOpt(Fields(d)[k]) == done[k];
    }
    FieldsRoots(done);
    RootsPrefix(done, 6);
    assert done[..6] == done;
  }

  /** `PropertyDescriptor::from_js_value`: `to_object` (asserting an
      object, `Panic` otherwise), then the six fields in order. */
  method DecodeDescriptor(cx: Context, v: JSVal) returns (r: Outcome<PropertyDescriptor>)
    requires cx.Valid() && (v.Obj? ==> v.id in cx.heap)
    modifies cx`faults, cx`pending, cx`slots, cx`nextSlot, cx`tracers, cx`rcs
    ensures cx.Valid()
    ensures DescriptorDecoded(cx, old(cx.slots), old(cx.tracers), old(cx.pending), old(cx.rcs), v, r)
    ensures Quiet(old(cx.faults)) ==> Quiet(cx.faults)
    ensures Quiet(old(cx.faults)) && DescriptorDecodable(cx.heap, v) ==> r.Ok?
  {
    if !v.Obj? {
      return Panic;
    }
    ghost var slots0, tracers0, pending0, rcs0 := cx.slots, cx.tracers, cx.pending, cx.rcs;
    FieldsStarted(cx, v.id);
    var s := DecodeField(cx, v.id, slots0, tracers0, []);
    if !s.Ok? {
      StoppedDecoded(cx, slots0, tracers0, pending0, rcs0, v, [], s);
      return Stopped(s);
    }
    r := DecodeRest(cx, v, slots0, tracers0, s.value);
  }

  /** The fields after the first. */
  method DecodeRest(cx: Context, v: JSVal, ghost slots0: map<SlotId, JSVal>, ghost tracers0: set<SlotId>,
                    done: seq<Native>) returns (r: Outcome<PropertyDescriptor>)
    requires cx.Valid() && v.Obj? && 1 <= |done| <= 6 && tracers0 <= slots0.Keys
    requires FieldsSoFar(cx, slots0, tracers0, v.id, done) == true
    modifies cx`faults, cx`pending, cx`slots, cx`nextSlot, cx`tracers, cx`rcs
    ensures cx.Valid()
    ensures DescriptorDecoded(cx, slots0, tracers0, old(cx.pending), old(cx.rcs), v, r)
    ensures Quiet(old(cx.faults)) ==> Quiet(cx.faults)
    ensures Quiet(old(cx.faults)) && DescriptorDecodable(cx.heap, v) ==> r.Ok?
    decreases 6 - |done|
  {
    if |done| == 6 {
      FieldsDone(cx, slots0, tracers0, cx.pending, cx.rcs, v, done);
      return Ok(FromFields(done));
    }
    var s := DecodeField(cx, v.id, slots0, tracers0, done);
    if !s.Ok? {
      StoppedDecoded(cx, slots0, tracers0, old(cx.pending), old(cx.rcs), v, done, s);
      return Stopped(s);
    }
    r := DecodeRest(cx, v, slots0, tracers0, s.value);
  }

  // Encoding.

  /** The present fields from field `k` on, in order. */
  function Present(fs: seq<Option<Native>>, k: nat): (p: seq<nat>)
    requires |fs| == 6 && k <= 6
    ensures forall i :: 0 <= i < |p| ==> k <= p[i] < 6 && fs[p[i]].Some?
    ensures forall i, j :: 0 <= i < j < |p| ==> p[i] < p[j]
    decreases 6 - k
  {
    if k == 6 then []
    else if fs[k].Some? then [k] + Present(fs, k + 1)
    else Present(fs, k + 1)
  }

  /** Every present field from `k` on is listed. */
  lemma {:induction false} PresentListed(fs: seq<Option<Native>>, k: nat, j: nat)
    requires |fs| == 6 && k <= j < 6 && fs[j].Some?
    ensures j in Present(fs, k)
    decreases 6 - k
  {
    if k < j {
      PresentListed(fs, k + 1, j);
    }
  }

  /** The entries for the fields `p`, each named after its field and holding
      its value. */
  function EntriesOf(fs: seq<Option<Native>>, p: seq<nat>): (es: seq<Entry>)
    requires |fs| == 6 && forall i :: 0 <= i < |p| ==> p[i] < 6 && fs[p[i]].Some?
    ensures |es| == |p|
    ensures forall i :: 0 <= i < |p| ==> es[i] == Entry(FieldNames[p[i]], FieldTy(p[i]), fs[p[i]].value)
  {
    if p == [] then []
    else [Entry(FieldNames[p[0]], FieldTy(p[0]), fs[p[0]].value)] + EntriesOf(fs, p[1..])
  }

  /** The properties `to_js_value` defines, in order: one per present field. */
  function DescriptorEntries(d: PropertyDescriptor): seq<Entry>
  {
    EntriesOf(Fields(d), Present(Fields(d), 0))
  }

  /** `v` is a fresh plain object whose properties are exactly the present
      fields, each holding its value encoded. */
  ghost predicate DescriptorEncodes(w: View, lo: nat, d: PropertyDescriptor, v: JSVal)
  {
    v.Obj? && v.id >= lo && v.id in w.heap && w.heap[v.id].cls == PlainClass &&
    (forall key :: key in w.heap[v.id].props ==> key in FieldNames) &&
    forall k :: 0 <= k < 6 ==>
      (Fields(d)[k].Some? <==> FieldNames[k] in w.heap[v.id].props) &&
      (Fields(d)[k].Some? ==> Encodes(w, lo, FieldTy(k), Fields(d)[k].value, w.heap[v.id].props[FieldNames[k]]))
  }

  /** Defining the descriptor's entries is encoding the descriptor. */
  lemma EntriesEncodeDescriptor(w: View, lo: nat, d: PropertyDescriptor, v: JSVal)
    requires MapEncodes(w, lo, DescriptorEntries(d), v)
    ensures DescriptorEncodes(w, lo, d, v)
  {
    var es := DescriptorEntries(d);
    var props := w.heap[v.id].props;
    assert es[..|es|] == es;
    forall key | key in props
      ensures key in FieldNames
    {
      PropertyIsField(d, props, key);
    }
    forall k | 0 <= k < 6
      ensures Fields(d)[k].Some? <==> FieldNames[k] in props
      ensures Fields(d)[k].Some? ==> Encodes(w, lo, FieldTy(k), Fields(d)[k].value, props[FieldNames[k]])
    {
      FieldEncodedAt(w, lo, d, props, k);
    }
  }

  /** Each property defined is a field's. */
  lemma PropertyIsField(d: PropertyDescriptor, props: map<string, JSVal>, key: string)
    requires props.Keys == KeysOf(DescriptorEntries(d)) && key in props
    ensures key in FieldNames
  {
    var es := DescriptorEntries(d);
    var p := Present(Fields(d), 0);
    var i :| 0 <= i < |es| && es[i].key == key;
    assert key == FieldNames[p[i]];
  }

  /** Field `k` is defined exactly when present, holding its value. */
  lemma FieldEncodedAt(w: View, lo: nat, d: PropertyDescriptor, props: map<string, JSVal>, k: nat)
    requires k < 6 && props.Keys == KeysOf(DescriptorEntries(d))
    requires forall i :: 0 <= i < |DescriptorEntries(d)| ==>
      DescriptorEntries(d)[i].key in props &&
      Encodes(w, lo, DescriptorEntries(d)[i].ty, DescriptorEntries(d)[i].value, props[DescriptorEntries(d)[i].key])
    ensures Fields(d)[k].Some? <==> FieldNames[k] in props
    ensures Fields(d)[k].Some? ==> Encodes(w, lo, FieldTy(k), Fields(d)[k].value, props[FieldNames[k]])
  {
    var es := DescriptorEntries(d);
    if Fields(d)[k].Some? {
      var i := EntryOfField(d, k);
      assert es[i].key in props;
    }
    if FieldNames[k] in props {
      var i :| 0 <= i < |es| && es[i].key == FieldNames[k];
      FieldOfEntry(d, i, k);
    }
  }

  /** The entry a present field makes. */
  lemma EntryOfField(d: PropertyDescriptor, k: nat) returns (i: nat)
    requires k < 6 && Fields(d)[k].Some?
    ensures i < |DescriptorEntries(d)| && DescriptorEntries(d)[i] == Entry(FieldNames[k], FieldTy(k), Fields(d)[k].value)
  {
    var p := Present(Fields(d), 0);
    PresentListed(Fields(d), 0, k);
    i :| 0 <= i < |p| && p[i] == k;
  }

  /** The field an entry named after field `k` comes from is field `k`. */
  lemma FieldOfEntry(d: PropertyDescriptor, i: nat, k: nat)
    requires k < 6 && i < |DescriptorEntries(d)| && DescriptorEntries(d)[i].key == FieldNames[k]
    ensures Fields(d)[k].Some? && DescriptorEntries(d)[i] == Entry(FieldNames[k], FieldTy(k), Fields(d)[k].value)
  {
    FieldNamesDistinct();
    var p := Present(Fields(d), 0);
    assert FieldNames[p[i]] == FieldNames[k];
    assert p[i] == k;
  }

  /** Every facade inside the descriptor's values is live. */
  ghost predicate DescriptorOwned(cx: Context, d: PropertyDescriptor)
    reads cx`tracers, cx`slots
  {
    forall k :: 0 <= k < 6 && Fields(d)[k].Some? ==> Owned(cx.tracers, cx.slots, Fields(d)[k].value)
  }

  /** A field's value is a scalar or a `Value`: closure-free and small. */
  lemma FieldValue(k: nat, n: Native)
    requires k < 6 && HasType(FieldTy(k), n)
    ensures Small(n) && NoClosure(FieldTy(k))
  {
  }

  /** The entries are ones the map encoder takes, under property names. */
  lemma DescriptorMappable(cx: Context, d: PropertyDescriptor)
    requires DescriptorOwned(cx, d)
    ensures Mappable(cx, DescriptorEntries(d))
    ensures forall i :: 0 <= i < |DescriptorEntries(d)| ==> CName(DescriptorEntries(d)[i].key) && Small(DescriptorEntries(d)[i].value)
  {
    FieldNamesDistinct();
    var es := DescriptorEntries(d);
    var p := Present(Fields(d), 0);
    forall i, j | 0 <= i < j < |es|
      ensures es[i].key != es[j].key
    {
      assert p[i] < p[j];
    }
    forall i | 0 <= i < |es|
      ensures NoClosure(es[i].ty) && HasType(es[i].ty, es[i].value) && Owned(cx.tracers, cx.slots, es[i].value)
      ensures CName(es[i].key) && Small(es[i].value)
    {
      EntryFacts(cx, d, i);
    }
  }

  lemma EntryFacts(cx: Context, d: PropertyDescriptor, i: nat)
    requires DescriptorOwned(cx, d) && i < |DescriptorEntries(d)|
    ensures NoClosure(DescriptorEntries(d)[i].ty) && HasType(DescriptorEntries(d)[i].ty, DescriptorEntries(d)[i].value)
    ensures Owned(cx.tracers, cx.slots, DescriptorEntries(d)[i].value)
    ensures CName(DescriptorEntries(d)[i].key) && Small(DescriptorEntries(d)[i].value)
  {
    FieldNamesDistinct();
    var fs := Fields(d);
    var j := Present(fs, 0)[i];
    assert DescriptorEntries(d)[i] == Entry(FieldNames[j], FieldTy(j), fs[j].value);
    FieldValue(j, fs[j].value);
  }

  /** `PropertyDescriptor::to_js_value`: a new object, one `define_property`
      per present field in order, each failure returning `false`; then the
      object is wrapped into the caller's compartment. */
  method EncodeDescriptor(cx: Context, d: PropertyDescriptor) returns (ok: bool, rval: JSVal)
    requires cx.Valid() && DescriptorOwned(cx, d)
    modifies cx`faults, cx`pending, cx`heap, cx`nextObj, cx`privates, cx`boxes, cx`nextBox, cx`rcs
    ensures cx.Valid() && old(cx.nextObj) <= cx.nextObj && cx.rcs == old(cx.rcs)
    ensures Extends(old(cx.heap), cx.heap) && Extends(old(cx.privates), cx.privates) && Extends(old(cx.boxes), cx.boxes)
    ensures ok ==> cx.pending == old(cx.pending) && DescriptorEncodes(ViewOf(cx), old(cx.nextObj), d, rval)
    ensures !ok ==> cx.pending == Some(cx.thrown)
    ensures Quiet(old(cx.faults)) ==> Quiet(cx.faults) && ok
  {
    var es := DescriptorEntries(d);
    DescriptorMappable(cx, d);
    var r;
    r, rval := EncodeMap(cx, es);
    assert r.Some?;
    ok := r.value;
    if ok {
      assert r == Some(true);
      EntriesEncodeDescriptor(ViewOf(cx), old(cx.nextObj), d, rval);
    } else {
      assert r == Some(false);
    }
  }

  /** The values a descriptor holds read back as themselves: no `value`,
      `get` or `set` is a double the engine would store as an integer. */
  predicate DescriptorRoundTrips(d: PropertyDescriptor)
  {
    forall k :: 0 <= k < 6 && Fields(d)[k].Some? ==> RoundTrips(FieldTy(k), Fields(d)[k].value)
  }

  /** from_js_value(to_js_value(d)) == d: the object a descriptor encodes to
      decodes without a fatal assertion, each field to the field it came from. */
  lemma DescriptorRoundTrip(w: View, lo: nat, d: PropertyDescriptor, v: JSVal)
    requires DescriptorEncodes(w, lo, d, v) && DescriptorRoundTrips(d)
    ensures DescriptorDecodable(w.heap, v) && DescriptorDecodes(w, w.heap[v.id], d)
  {
    var props := w.heap[v.id].props;
    forall k | 0 <= k < 6
      ensures FieldDecodable(w.heap, v.id, k) && FieldDecodes(w, w.heap[v.id], k, Fields(d)[k])
    {
      if Fields(d)[k].Some? {
        RoundTrip(w, lo, FieldTy(k), Fields(d)[k].value, props[FieldNames[k]]);
      }
    }
  }

  // PromiseState.

  datatype PromiseState = Pending | Fulfilled | Rejected

  function PromiseStateName(p: PromiseState): string
  {
    match p
    case Pending => "pending"
    case Fulfilled => "fulfilled"
    case Rejected => "rejected"
  }

  /** The match of `PromiseState::from_js_value`: `None` is its `panic!`. */
  function PromiseStateOf(s: string): Option<PromiseState>
  {
    if s == "pending" then Some(Pending)
    else if s == "fulfilled" then Some(Fulfilled)
    else if s == "rejected" then Some(Rejected)
    else None
  }

  /** Exactly the variants' names decode, each to its own variant. */
  lemma PromiseStateNames(s: string, p: PromiseState)
    ensures PromiseStateOf(s) == Some(p) <==> s == PromiseStateName(p)
  {
  }

  method DecodePromiseState(cx: Context, v: JSVal) returns (r: Outcome<PromiseState>)
    requires cx.Valid()
    modifies cx`faults, cx`pending, cx`slots, cx`nextSlot, cx`tracers
    ensures cx.Valid() && SlotsGrow(old(cx.slots), cx.slots)
    ensures r.Ok? ==>
      v.Str? && CharsToString(v.s) == PromiseStateName(r.value) &&
      cx.pending == old(cx.pending) && cx.tracers == old(cx.tracers)
    ensures r.Err? ==> v.Str? && Raised(cx, old(cx.slots), old(cx.tracers), r.exc)
    ensures r.Panic? ==> !v.Str? || PromiseStateOf(CharsToString(v.s)).None?
    ensures Quiet(old(cx.faults)) ==> Quiet(cx.faults)
    ensures Quiet(old(cx.faults)) && v.Str? && PromiseStateOf(CharsToString(v.s)).Some? ==> r.Ok?
  {
    r := DecodeName(cx, v, PromiseStateOf);
    if r.Ok? {
      PromiseStateNames(CharsToString(v.s), r.value);
    }
  }
}
