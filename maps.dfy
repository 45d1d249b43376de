/** Encoding into a fresh plain object with one property per entry, defined
    in order by `define_property`, the first failure stopping it; then the
    object goes into the output slot. `BTreeMap<K, V>` encoding
    (src/convert.rs, lines 196-205) visits the map's entries in ascending key
    order, each key as `key.to_string()`. `PropertyDescriptor` encoding
    (src/object.rs, lines 60-83) visits its present fields (module
    `Objects`). The defining goes through `Utils`, so this encoder sits above
    it rather than in `Encoding`. A map has no decoder; reading its
    properties back is the partner stated here. */
module PropertyMaps {
  import opened JSApi
  import opened Trace
  import opened Exceptions
  import opened Conversions
  import opened Encoding
  import opened Utils

  /** One property to define: its name (a map key as `to_string` renders
      it), the type its value is converted at, and the value. */
  datatype Entry = Entry(key: string, ty: Ty, value: Native)

  /** A map's keys are distinct. */
  predicate DistinctKeys(entries: seq<Entry>)
  {
    forall i, j :: 0 <= i < j < |entries| ==> entries[i].key != entries[j].key
  }

  function KeysOf(entries: seq<Entry>): (keys: set<string>)
    ensures forall k :: 0 <= k < |entries| ==> entries[k].key in keys
    ensures forall key :: key in keys ==> exists k :: 0 <= k < |entries| && entries[k].key == key
  {
    set k | 0 <= k < |entries| :: entries[k].key
  }

  /** Entries the encoder takes: closure-free values of their types whose
      facades are live, under distinct keys. */
  ghost predicate Mappable(cx: Context, entries: seq<Entry>)
    reads cx`tracers, cx`slots
  {
    DistinctKeys(entries) &&
    forall k :: 0 <= k < |entries| ==>
      NoClosure(entries[k].ty) && HasType(entries[k].ty, entries[k].value) && Owned(cx.tracers, cx.slots, entries[k].value)
  }

  /** The properties `props` are exactly the first `i` entries' keys, each
      holding its entry's value encoded out of objects allocated from `lo` on. */
  ghost predicate DefinedUpTo(w: View, lo: nat, entries: seq<Entry>, props: map<string, JSVal>, i: nat)
  {
    i <= |entries| && props.Keys == KeysOf(entries[..i]) &&
    forall k :: 0 <= k < i ==> entries[k].key in props && Encodes(w, lo, entries[k].ty, entries[k].value, props[entries[k].key])
  }

  /** `v` is a plain object allocated from `lo` on whose properties are the
      map's entries. */
  ghost predicate MapEncodes(w: View, lo: nat, entries: seq<Entry>, v: JSVal)
  {
    v.Obj? && v.id >= lo && v.id in w.heap && w.heap[v.id].cls == PlainClass &&
    DefinedUpTo(w, lo, entries, w.heap[v.id].props, |entries|)
  }

  /** Reading back: each key's property decodes to the value its entry held. */
  lemma MapReadsBack(w: View, lo: nat, entries: seq<Entry>, v: JSVal)
    requires MapEncodes(w, lo, entries, v)
    requires forall k :: 0 <= k < |entries| ==> RoundTrips(entries[k].ty, entries[k].value)
    ensures v.id in w.heap && w.heap[v.id].props.Keys == KeysOf(entries)
    ensures forall k :: 0 <= k < |entries| ==>
      Decodes(w, entries[k].ty, PropertyOf(w.heap[v.id], entries[k].key), entries[k].value)
  {
    assert entries[..|entries|] == entries;
    forall k | 0 <= k < |entries|
      ensures Decodes(w, entries[k].ty, PropertyOf(w.heap[v.id], entries[k].key), entries[k].value)
    {
      RoundTrip(w, lo, entries[k].ty, entries[k].value, w.heap[v.id].props[entries[k].key]);
    }
  }

  /** The encoding does not depend on the order the entries are visited in. */
  lemma MapOrderIrrelevant(w: View, lo: nat, entries: seq<Entry>, others: seq<Entry>, v: JSVal)
    requires MapEncodes(w, lo, entries, v) && multiset(others) == multiset(entries)
    ensures MapEncodes(w, lo, others, v)
  {
    assert entries[..|entries|] == entries;
    assert others[..|others|] == others;
    SameKeys(entries, others);
    var props := w.heap[v.id].props;
    forall k | 0 <= k < |others|
      ensures others[k].key in props && Encodes(w, lo, others[k].ty, others[k].value, props[others[k].key])
    {
      var j := IndexOf(entries, others, k);
    }
  }

  /** Where the entry `others[k]` sits in `entries`. */
  lemma IndexOf(entries: seq<Entry>, others: seq<Entry>, k: nat) returns (j: nat)
    requires multiset(others) == multiset(entries) && k < |others|
    ensures j < |entries| && entries[j] == others[k]
  {
    assert others[k] in multiset(others);
    assert others[k] in entries;
    j :| 0 <= j < |entries| && entries[j] == others[k];
  }

  /** Two orders of the same entries have the same keys. */
  lemma SameKeys(entries: seq<Entry>, others: seq<Entry>)
    requires multiset(others) == multiset(entries)
    ensures KeysOf(entries) == KeysOf(others)
  {
    forall key | key in KeysOf(others)
      ensures key in KeysOf(entries)
    {
      var k :| 0 <= k < |others| && others[k].key == key;
      var j := IndexOf(entries, others, k);
    }
    forall key | key in KeysOf(entries)
      ensures key in KeysOf(others)
    {
      var j :| 0 <= j < |entries| && entries[j].key == key;
      var k := IndexOf(others, entries, j);
    }
  }

  lemma KeysOfSnoc(entries: seq<Entry>, i: nat)
    requires i < |entries|
    ensures KeysOf(entries[..i + 1]) == KeysOf(entries[..i]) + {entries[i].key}
  {
    assert entries[..i + 1] == entries[..i] + [entries[i]];
  }

  /** Defining the entry `i` on the map's object keeps the entries before it,
      and adds its own. */
  lemma DefinedMore(w1: View, w2: View, lo: nat, entries: seq<Entry>, id: ObjId, u: JSVal, i: nat)
    requires DistinctKeys(entries) && i < |entries| && id < lo && id in w1.heap
    requires DefinedUpTo(w1, lo, entries, w1.heap[id].props, i) == true
    requires id in w2.heap && w2.heap[id].props == w1.heap[id].props[entries[i].key := u]
    requires forall o :: o in w1.heap && o != id ==> o in w2.heap && w2.heap[o] == w1.heap[o]
    requires Extends(w1.privates, w2.privates) && Extends(w1.boxes, w2.boxes) && w2.slots == w1.slots
    requires Encodes(w2, lo, entries[i].ty, entries[i].value, u)
    ensures DefinedUpTo(w2, lo, entries, w2.heap[id].props, i + 1)
  {
    KeysOfSnoc(entries, i);
    forall k | 0 <= k < i
      ensures Encodes(w2, lo, entries[k].ty, entries[k].value, w2.heap[id].props[entries[k].key])
    {
      EncodesFrame(w1, w2, lo, entries[k].ty, entries[k].value, w1.heap[id].props[entries[k].key]);
    }
  }

  /** What the loop over the entries leaves alone, from the state
      `heap0`, `privates0`, `boxes0`, `nextObj0` to the state `heap`,
      `privates`, `boxes`, `nextObj`: only the map's object changes, and
      nothing is freed. */
  ghost predicate Framed(heap0: map<ObjId, ObjRec>, privates0: map<ObjId, BoxId>, boxes0: map<BoxId, Closure>, nextObj0: nat,
                         heap: map<ObjId, ObjRec>, privates: map<ObjId, BoxId>, boxes: map<BoxId, Closure>, nextObj: nat,
                         id: ObjId)
  {
    id in heap && nextObj0 <= nextObj && KeptBut(heap0, heap, id) && Extends(privates0, privates) && Extends(boxes0, boxes)
  }

  lemma FramedMore(heap0: map<ObjId, ObjRec>, privates0: map<ObjId, BoxId>, boxes0: map<BoxId, Closure>, nextObj0: nat,
                   heap1: map<ObjId, ObjRec>, privates1: map<ObjId, BoxId>, boxes1: map<BoxId, Closure>, nextObj1: nat,
                   heap: map<ObjId, ObjRec>, privates: map<ObjId, BoxId>, boxes: map<BoxId, Closure>, nextObj: nat,
                   id: ObjId)
    requires Framed(heap0, privates0, boxes0, nextObj0, heap1, privates1, boxes1, nextObj1, id)
    requires id in heap && nextObj1 <= nextObj && KeptBut(heap1, heap, id) && Extends(privates1, privates) && Extends(boxes1, boxes)
    ensures Framed(heap0, privates0, boxes0, nextObj0, heap, privates, boxes, nextObj, id)
  {
  }

  /** One iteration: `define_property` of the entry `i`. `None` is the
      `CString::new(...).unwrap()` panic on a key with a NUL character. */
  method DefineEntry(cx: Context, entries: seq<Entry>, id: ObjId, i: nat) returns (r: Option<bool>)
    requires cx.Valid() && Mappable(cx, entries) && i < |entries|
    requires id in cx.heap && id < cx.nextObj
    requires DefinedUpTo(ViewOf(cx), id + 1, entries, cx.heap[id].props, i) == true
    modifies cx`faults, cx`pending, cx`heap, cx`nextObj, cx`privates, cx`boxes, cx`nextBox, cx`rcs
    ensures cx.Valid() && id in cx.heap
    ensures KeptBut(old(cx.heap), cx.heap, id) && old(cx.nextObj) <= cx.nextObj
    ensures Extends(old(cx.privates), cx.privates) && Extends(old(cx.boxes), cx.boxes) && cx.rcs == old(cx.rcs)
    ensures r.None? ==> !CName(entries[i].key)
    ensures r.Some? && r.value ==>
      cx.pending == old(cx.pending) && cx.heap[id].cls == old(cx.heap)[id].cls &&
      DefinedUpTo(ViewOf(cx), id + 1, entries, cx.heap[id].props, i + 1)
    ensures r.Some? && !r.value ==> cx.pending == Some(cx.thrown)
    ensures Quiet(old(cx.faults)) ==> Quiet(cx.faults)
    ensures Quiet(old(cx.faults)) && Small(entries[i].value) && CName(entries[i].key) ==> r.Some? && r.value
  {
    ghost var w1 := ViewOf(cx);
    NoClosureHasNone(entries[i].ty, entries[i].value);
    ghost var u;
    r, u := DefineProperty(cx, id, entries[i].key, entries[i].ty, entries[i].value);
    if r.Some? && r.value {
      EncodesWeaken(ViewOf(cx), id + 1, old(cx.nextObj), entries[i].ty, entries[i].value, u);
      DefinedMore(w1, ViewOf(cx), id + 1, entries, id, u, i);
    }
  }

  /** `BTreeMap::to_js_value`, and the body of
      `PropertyDescriptor::to_js_value`. `None` is the panic on a key with a NUL
      character; `Some(false)` a failure of the engine, with its exception
      pending, at the first step that failed. */
  method EncodeMap(cx: Context, entries: seq<Entry>) returns (r: Option<bool>, rval: JSVal)
    requires cx.Valid() && Mappable(cx, entries)
    modifies cx`faults, cx`pending, cx`heap, cx`nextObj, cx`privates, cx`boxes, cx`nextBox, cx`rcs
    ensures cx.Valid() && old(cx.nextObj) <= cx.nextObj && cx.rcs == old(cx.rcs)
    ensures Extends(old(cx.heap), cx.heap) && Extends(old(cx.privates), cx.privates) && Extends(old(cx.boxes), cx.boxes)
    ensures r.None? ==> exists k :: 0 <= k < |entries| && !CName(entries[k].key)
    ensures r == Some(true) ==> cx.pending == old(cx.pending) && MapEncodes(ViewOf(cx), old(cx.nextObj), entries, rval)
    ensures r == Some(false) ==> cx.pending == Some(cx.thrown)
    ensures Quiet(old(cx.faults)) ==> Quiet(cx.faults)
    ensures Quiet(old(cx.faults)) && (forall k :: 0 <= k < |entries| ==> Small(entries[k].value) && CName(entries[k].key)) ==>
      r == Some(true)
  {
    var id;
    r, id := BuildMap(cx, entries);
    rval := Obj(id);
    if r == Some(true) {
      var ok := cx.WrapValue();
      r := Some(ok);
    }
  }

  /** The map {"a": "s"} encoded as written, on an engine that cannot copy
      the string. `define_property` as written reports success for the
      failed conversion, so the loop goes on and the encoding returns
      `true`, with the exception pending and "a" not defined. `EncodeMap`,
      built on the intended primitive, defines every key when it returns
      `true`. */
  method MapOfFailedConversion() returns (asWritten: bool, pending: bool, defined: bool)
    ensures asWritten && pending && !defined
  {
    var cx := new Context([false, true], JSVal.Undefined);
    var ok, obj := cx.NewObject(PlainClass);
    assert ok && cx.faults == [true];
    var r;
    ghost var converted, rval;
    r, converted, rval := DefinePropertyAsWritten(cx, obj, "a", TString, NString("s"));
    assert r == Some(true);
    defined := "a" in cx.heap[obj].props;
    asWritten := cx.WrapValue();
    pending := cx.pending.Some?;
  }

  /** The object of the map, before it goes into the output slot. */
  method BuildMap(cx: Context, entries: seq<Entry>) returns (r: Option<bool>, id: ObjId)
    requires cx.Valid() && Mappable(cx, entries)
    modifies cx`faults, cx`pending, cx`heap, cx`nextObj, cx`privates, cx`boxes, cx`nextBox, cx`rcs
    ensures cx.Valid() && old(cx.nextObj) <= cx.nextObj && cx.rcs == old(cx.rcs)
    ensures Extends(old(cx.heap), cx.heap) && Extends(old(cx.privates), cx.privates) && Extends(old(cx.boxes), cx.boxes)
    ensures r.None? ==> exists k :: 0 <= k < |entries| && !CName(entries[k].key)
    ensures r == Some(true) ==> cx.pending == old(cx.pending) && MapEncodes(ViewOf(cx), old(cx.nextObj), entries, Obj(id))
    ensures r == Some(false) ==> cx.pending == Some(cx.thrown)
    ensures Quiet(old(cx.faults)) ==> Quiet(cx.faults)
    ensures Quiet(old(cx.faults)) && (forall k :: 0 <= k < |entries| ==> Small(entries[k].value) && CName(entries[k].key)) ==>
      r == Some(true)
  {
    var ok;
    ok, id := cx.NewObject(PlainClass);
    if !ok {
      return Some(false), id;
    }
    ghost var heap1, nextObj1 := cx.heap, cx.nextObj;
    ghost var bad;
    r, bad := FillMap(cx, entries, id);
    Built(old(cx.heap), heap1, old(cx.privates), old(cx.boxes), nextObj1, cx.heap, cx.privates, cx.boxes, cx.nextObj, id);
    if r == Some(true) {
      Filled(cx, heap1, old(cx.privates), old(cx.boxes), nextObj1, old(cx.rcs), old(cx.pending), entries, id);
    }
  }

  /** The loop's invariant after `i` entries, from the state `heap0`,
      `privates0`, `boxes0`, `nextObj0`, `rcs0`, `pending0` it started in:
      the first `i` entries are defined on the plain object `id`, nothing
      else changed but allocations, and nothing is pending. */
  ghost predicate Filling(cx: Context, heap0: map<ObjId, ObjRec>, privates0: map<ObjId, BoxId>, boxes0: map<BoxId, Closure>,
                          nextObj0: nat, rcs0: map<RcId, RcCell>, pending0: Option<JSVal>,
                          entries: seq<Entry>, id: ObjId, i: nat)
    reads cx`heap, cx`privates, cx`slots, cx`tracers, cx`boxes, cx`rcs, cx`nextObj, cx`nextSlot, cx`nextBox, cx`pending
  {
    cx.Valid() && Mappable(cx, entries) && i <= |entries| && id < cx.nextObj &&
    Framed(heap0, privates0, boxes0, nextObj0, cx.heap, cx.privates, cx.boxes, cx.nextObj, id) &&
    cx.rcs == rcs0 && cx.pending == pending0 && cx.heap[id].cls == PlainClass &&
    DefinedUpTo(ViewOf(cx), id + 1, entries, cx.heap[id].props, i)
  }

  /** One turn of the loop: the entry `i` defined, the invariant kept. */
  method FillStep(cx: Context, entries: seq<Entry>, id: ObjId, i: nat, ghost heap0: map<ObjId, ObjRec>,
                  ghost privates0: map<ObjId, BoxId>, ghost boxes0: map<BoxId, Closure>, ghost nextObj0: nat,
                  ghost rcs0: map<RcId, RcCell>, ghost pending0: Option<JSVal>) returns (r: Option<bool>)
    requires i < |entries| && Filling(cx, heap0, privates0, boxes0, nextObj0, rcs0, pending0, entries, id, i) == true
    modifies cx`faults, cx`pending, cx`heap, cx`nextObj, cx`privates, cx`boxes, cx`nextBox, cx`rcs
    ensures r.Some? && r.value ==> Filling(cx, heap0, privates0, boxes0, nextObj0, rcs0, pending0, entries, id, i + 1)
    ensures cx.Valid() && cx.rcs == rcs0
    ensures Framed(heap0, privates0, boxes0, nextObj0, cx.heap, cx.privates, cx.boxes, cx.nextObj, id)
    ensures r.None? ==> !CName(entries[i].key)
    ensures r.Some? && !r.value ==> cx.pending == Some(cx.thrown)
    ensures Quiet(old(cx.faults)) ==> Quiet(cx.faults)
    ensures Quiet(old(cx.faults)) && Small(entries[i].value) && CName(entries[i].key) ==> r.Some? && r.value
  {
    ghost var heap1, privates1, boxes1, nextObj1 := cx.heap, cx.privates, cx.boxes, cx.nextObj;
    r := DefineEntry(cx, entries, id, i);
    FramedMore(heap0, privates0, boxes0, nextObj0, heap1, privates1, boxes1, nextObj1,
               cx.heap, cx.privates, cx.boxes, cx.nextObj, id);
  }

  /** The loop over the entries, on the fresh object `id`. */
  method FillMap(cx: Context, entries: seq<Entry>, id: ObjId) returns (r: Option<bool>, ghost bad: nat)
    requires cx.Valid() && Mappable(cx, entries)
    requires id in cx.heap && cx.heap[id] == EmptyObject(PlainClass) && id + 1 == cx.nextObj
    modifies cx`faults, cx`pending, cx`heap, cx`nextObj, cx`privates, cx`boxes, cx`nextBox, cx`rcs
    ensures cx.Valid() && cx.rcs == old(cx.rcs)
    ensures Framed(old(cx.heap), old(cx.privates), old(cx.boxes), old(cx.nextObj), cx.heap, cx.privates, cx.boxes, cx.nextObj, id)
    ensures r.None? ==> bad < |entries| && !CName(entries[bad].key)
    ensures r == Some(true) ==>
      Filling(cx, old(cx.heap), old(cx.privates), old(cx.boxes), old(cx.nextObj), old(cx.rcs), old(cx.pending),
              entries, id, |entries|)
    ensures r == Some(false) ==> cx.pending == Some(cx.thrown)
    ensures Quiet(old(cx.faults)) ==> Quiet(cx.faults)
    ensures Quiet(old(cx.faults)) && (forall k :: 0 <= k < |entries| ==> Small(entries[k].value) && CName(entries[k].key)) ==>
      r == Some(true)
  {
    assert entries[..0] == [];
    bad := 0;
    var i := 0;
    while i < |entries|
      invariant i <= |entries|
      invariant Filling(cx, old(cx.heap), old(cx.privates), old(cx.boxes), old(cx.nextObj), old(cx.rcs), old(cx.pending),
                        entries, id, i)
      invariant Quiet(old(cx.faults)) ==> Quiet(cx.faults)
    {
      var step := FillStep(cx, entries, id, i, old(cx.heap), old(cx.privates), old(cx.boxes), old(cx.nextObj),
                           old(cx.rcs), old(cx.pending));
      if step.None? {
        return None, i;
      }
      if !step.value {
        return Some(false), i;
      }
      i := i + 1;
    }
    r := Some(true);
  }

  /** The loop ran on an object just added to `heap0`: everything that
      existed before is still there. */
  lemma Built(heap0: map<ObjId, ObjRec>, heap1: map<ObjId, ObjRec>, privates0: map<ObjId, BoxId>, boxes0: map<BoxId, Closure>,
              nextObj1: nat, heap: map<ObjId, ObjRec>, privates: map<ObjId, BoxId>, boxes: map<BoxId, Closure>, nextObj: nat,
              id: ObjId)
    requires id !in heap0 && heap1 == heap0[id := EmptyObject(PlainClass)]
    requires Framed(heap1, privates0, boxes0, nextObj1, heap, privates, boxes, nextObj, id) == true
    ensures Extends(heap0, heap) && Extends(privates0, privates) && Extends(boxes0, boxes) && nextObj1 <= nextObj
  {
  }

  /** A finished loop leaves the map's object encoding the map. */
  lemma Filled(cx: Context, heap0: map<ObjId, ObjRec>, privates0: map<ObjId, BoxId>, boxes0: map<BoxId, Closure>,
               nextObj0: nat, rcs0: map<RcId, RcCell>, pending0: Option<JSVal>, entries: seq<Entry>, id: ObjId)
    requires Filling(cx, heap0, privates0, boxes0, nextObj0, rcs0, pending0, entries, id, |entries|) == true
    ensures cx.pending == pending0 && MapEncodes(ViewOf(cx), id, entries, Obj(id))
  {
    MapEncoded(ViewOf(cx), id, entries);
  }

  /** A finished map's object encodes the map. */
  lemma MapEncoded(w: View, id: ObjId, entries: seq<Entry>)
    requires id in w.heap && w.heap[id].cls == PlainClass
    requires DefinedUpTo(w, id + 1, entries, w.heap[id].props, |entries|) == true
    ensures MapEncodes(w, id, entries, Obj(id))
  {
    forall k | 0 <= k < |entries|
      ensures Encodes(w, id, entries[k].ty, entries[k].value, w.heap[id].props[entries[k].key])
    {
      EncodesWeaken(w, id, id + 1, entries[k].ty, entries[k].value, w.heap[id].props[entries[k].key]);
    }
  }
}
