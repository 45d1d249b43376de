/** An abstract model of the embedded engine, as far as the bridge sees it:
    tagged values, a heap of objects with properties and elements, the
    pending-exception slot, the registry of extra root tracers, and the native
    allocations the bridge hands to the engine (boxed closures and the
    reference-counted handlers inside them).

    Every engine primitive that can fail does so according to `faults`, the
    engine's outcomes for the next fallible calls, consumed one per call: `true`
    fails, `false` or an exhausted schedule succeeds. A failure records
    `thrown` in the pending-exception slot, which is how the engine reports it. */
module JSApi {
  import opened Unicode

  datatype Option<+T> = None | Some(value: T)

  type i32 = x: int | -0x8000_0000 <= x < 0x8000_0000
  type u32 = x: int | 0 <= x < 0x1_0000_0000

  type ObjId = nat
  /** The address of a boxed native cell (`Box<Heap<T>>`). */
  type SlotId = nat
  /** The address of a boxed closure (`*mut Box<Call>`). */
  type BoxId = nat
  /** The address of an `Rc` allocation. */
  type RcId = nat

  /** An engine string: its UTF-16 units, and whether the engine stores it one
      byte per character (only possible when every unit is below 0x100). */
  datatype StringRep = StringRep(units: seq<CodeUnit>, latin1: bool)

  predicate ValidString(s: StringRep)
  {
    s.latin1 ==> forall i :: 0 <= i < |s.units| ==> s.units[i] < 0x100
  }

  type JSString = s: StringRep | ValidString(s) witness StringRep([], false)

  /** A tagged engine value. Doubles are modelled as reals (no NaN, infinities
      or negative zero); `Symbol` stands for every tag the bridge does not
      model (symbols, and any later addition such as big integers). */
  datatype JSVal =
    | Undefined
    | Null
    | Bool(b: bool)
    | Int32(i: i32)
    | Double(d: real)
    | Str(s: JSString)
    | Obj(id: ObjId)
    | Symbol

  /** The engine classes the bridge distinguishes: ordinary objects and
      arrays, the bridge's own `call` class, and everything else. */
  datatype ClassTag = PlainClass | CallClass | OtherClass

  /** One heap object. `elems` are its indexed elements (its array length is
      their number); `methods` gives, per callable property name, the value a
      call of that method returns (script-side method bodies are not modelled). */
  datatype ObjRec = ObjRec(cls: ClassTag, props: map<string, JSVal>, elems: seq<JSVal>, methods: map<string, JSVal>)

  function EmptyObject(cls: ClassTag): ObjRec
  {
    ObjRec(cls, map[], [], map[])
  }

  /** A user handler installed through the bridge; its behaviour is supplied
      by whoever invokes it. */
  datatype Handler = OnPopHandler(id: nat) | OnStepHandler(id: nat)

  /** An `Rc` allocation holding a handler, with its strong count. */
  datatype RcCell = RcCell(strong: nat, handler: Handler)

  /** The closure inside a box: here always an `Rc` of a handler, which is what
      the facades install. */
  datatype Closure = RcClosure(rc: RcId)

  function Rest(s: seq<bool>): seq<bool>
  {
    if s == [] then [] else s[1..]
  }

  /** Whether the next fallible primitive fails. */
  function NextFails(s: seq<bool>): bool
  {
    s != [] && s[0]
  }

  /** No scheduled failure is left. */
  predicate Quiet(s: seq<bool>)
  {
    forall i :: 0 <= i < |s| ==> !s[i]
  }

  lemma QuietRest(s: seq<bool>)
    requires Quiet(s)
    ensures Quiet(Rest(s)) && !NextFails(s)
  {
  }

  class Context {
    var heap: map<ObjId, ObjRec>
    /** The private slot of each object that has one (`JS_SetPrivate`). */
    var privates: map<ObjId, BoxId>
    var pending: Option<JSVal>
    /** Native boxed cells, by address. */
    var slots: map<SlotId, JSVal>
    /** The extra-roots-tracer registry: the cells whose tracer is registered. */
    var tracers: set<SlotId>
    /** Live `Box<Box<dyn Call>>` allocations. */
    var boxes: map<BoxId, Closure>
    /** Live `Rc` allocations. */
    var rcs: map<RcId, RcCell>
    var faults: seq<bool>
    var thrown: JSVal
    var nextObj: nat
    var nextSlot: nat
    var nextBox: nat

    ghost predicate Valid()
      reads this`heap, this`privates, this`slots, this`tracers, this`boxes, this`rcs
      reads this`nextObj, this`nextSlot, this`nextBox
    {
      (forall id :: id in heap ==> id < nextObj) &&
      (forall id :: id in heap ==> |heap[id].elems| < 0x1_0000_0000) &&
      (forall a :: a in slots ==> a < nextSlot) &&
      (forall b :: b in boxes ==> b < nextBox) &&
      (forall b :: b in boxes ==> boxes[b].rc in rcs) &&
      privates.Keys <= heap.Keys &&
      (forall id :: id in privates ==> privates[id] in boxes) &&
      (forall i, j :: i in privates && j in privates && i != j ==> privates[i] != privates[j]) &&
      tracers <= slots.Keys
    }

    constructor (schedule: seq<bool>, raises: JSVal)
      ensures Valid()
      ensures heap == map[] && privates == map[] && pending == None
      ensures slots == map[] && tracers == {} && boxes == map[] && rcs == map[]
      ensures faults == schedule && thrown == raises
    {
      heap, privates, pending := map[], map[], None;
      slots, tracers, boxes, rcs := map[], {}, map[], map[];
      faults, thrown := schedule, raises;
      nextObj, nextSlot, nextBox := 0, 0, 0;
    }

    /** Consume one schedule entry; on failure, record `thrown` as pending. */
    method Attempt() returns (ok: bool)
      modifies this`faults, this`pending
      ensures ok == !NextFails(old(faults))
      ensures faults == Rest(old(faults))
      ensures pending == if ok then old(pending) else Some(thrown)
      ensures Quiet(old(faults)) ==> ok && Quiet(faults)
    {
      if Quiet(faults) {
        QuietRest(faults);
      }
      ok := !NextFails(faults);
      faults := Rest(faults);
      if !ok {
        pending := Some(thrown);
      }
    }

    /** `JS_NewObject`, with the plain class or the bridge's call class. */
    method NewObject(cls: ClassTag) returns (ok: bool, id: ObjId)
      requires Valid()
      modifies this`faults, this`pending, this`heap, this`nextObj
      ensures Valid()
      ensures ok == !NextFails(old(faults)) && faults == Rest(old(faults))
      ensures Quiet(old(faults)) ==> ok && Quiet(faults)
      ensures pending == if ok then old(pending) else Some(thrown)
      ensures ok ==> id == old(nextObj) && nextObj == id + 1 && id !in old(heap)
      ensures ok ==> heap == old(heap)[id := EmptyObject(cls)]
      ensures !ok ==> heap == old(heap) && nextObj == old(nextObj)
    {
      ok := Attempt();
      id := nextObj;
      if ok {
        heap := heap[id := EmptyObject(cls)];
        nextObj := nextObj + 1;
      }
    }

    /** `JS_NewArrayObject`: a fresh array of `length` holes. An array has
        fewer than 2^32 elements, so a longer length is refused like any other
        failure of the call. */
    method NewArrayObject(length: nat) returns (ok: bool, id: ObjId)
      requires Valid()
      modifies this`faults, this`pending, this`heap, this`nextObj
      ensures Valid()
      ensures ok == (!NextFails(old(faults)) && length < 0x1_0000_0000) && faults == Rest(old(faults))
      ensures Quiet(old(faults)) ==> Quiet(faults) && (ok <==> length < 0x1_0000_0000)
      ensures pending == if ok then old(pending) else Some(thrown)
      ensures ok ==> id == old(nextObj) && nextObj == id + 1 && id !in old(heap)
      ensures ok ==> heap == old(heap)[id := ObjRec(PlainClass, map[], seq(length, _ => Undefined), map[])]
      ensures !ok ==> heap == old(heap) && nextObj == old(nextObj)
    {
      ok := Attempt();
      if ok && length >= 0x1_0000_0000 {
        ok := false;
        pending := Some(thrown);
      }
      id := nextObj;
      if ok {
        heap := heap[id := ObjRec(PlainClass, map[], seq(length, _ => Undefined), map[])];
        nextObj := nextObj + 1;
      }
    }

    /** `JS_GetArrayLength`. */
    method GetArrayLength(id: ObjId) returns (ok: bool, length: u32)
      requires Valid() && id in heap
      modifies this`faults, this`pending
      ensures ok == !NextFails(old(faults)) && faults == Rest(old(faults))
      ensures Quiet(old(faults)) ==> ok && Quiet(faults)
      ensures pending == if ok then old(pending) else Some(thrown)
      ensures ok ==> length == |heap[id].elems|
    {
      ok := Attempt();
      length := if ok then |heap[id].elems| else 0;
    }

    /** `JS_GetElement`: a hole or an index past the end reads as undefined. */
    method GetElement(id: ObjId, index: u32) returns (ok: bool, v: JSVal)
      requires id in heap
      modifies this`faults, this`pending
      ensures ok == !NextFails(old(faults)) && faults == Rest(old(faults))
      ensures Quiet(old(faults)) ==> ok && Quiet(faults)
      ensures pending == if ok then old(pending) else Some(thrown)
      ensures ok ==> v == ElementOf(heap[id], index)
    {
      ok := Attempt();
      v := if ok then ElementOf(heap[id], index) else Undefined;
    }

    /** `JS_SetElement`: writing past the end extends the array with holes. */
    method SetElement(id: ObjId, index: u32, v: JSVal) returns (ok: bool)
      requires Valid() && id in heap
      modifies this`faults, this`pending, this`heap
      ensures Valid()
      ensures ok == !NextFails(old(faults)) && faults == Rest(old(faults))
      ensures Quiet(old(faults)) ==> ok && Quiet(faults)
      ensures pending == if ok then old(pending) else Some(thrown)
      ensures heap == if ok then old(heap)[id := WithElement(old(heap)[id], index, v)] else old(heap)
    {
      ok := Attempt();
      if ok {
        heap := heap[id := WithElement(heap[id], index, v)];
      }
    }

    /** `JS_HasProperty`. */
    method HasProperty(id: ObjId, name: string) returns (ok: bool, found: bool)
      requires id in heap
      modifies this`faults, this`pending
      ensures ok == !NextFails(old(faults)) && faults == Rest(old(faults))
      ensures Quiet(old(faults)) ==> ok && Quiet(faults)
      ensures pending == if ok then old(pending) else Some(thrown)
      ensures ok ==> found == (name in heap[id].props)
    {
      ok := Attempt();
      found := ok && name in heap[id].props;
    }

    /** `JS_GetProperty`: a missing property reads as undefined. */
    method GetProperty(id: ObjId, name: string) returns (ok: bool, v: JSVal)
      requires id in heap
      modifies this`faults, this`pending
      ensures ok == !NextFails(old(faults)) && faults == Rest(old(faults))
      ensures Quiet(old(faults)) ==> ok && Quiet(faults)
      ensures pending == if ok then old(pending) else Some(thrown)
      ensures ok ==> v == PropertyOf(heap[id], name)
    {
      ok := Attempt();
      v := if ok then PropertyOf(heap[id], name) else Undefined;
    }

    /** `JS_SetProperty` (accessors are not modelled, so it stores the value). */
    method SetProperty(id: ObjId, name: string, v: JSVal) returns (ok: bool)
      requires Valid() && id in heap
      modifies this`faults, this`pending, this`heap
      ensures Valid()
      ensures ok == !NextFails(old(faults)) && faults == Rest(old(faults))
      ensures Quiet(old(faults)) ==> ok && Quiet(faults)
      ensures pending == if ok then old(pending) else Some(thrown)
      ensures heap == if ok then old(heap)[id := WithProperty(old(heap)[id], name, v)] else old(heap)
    {
      ok := Attempt();
      if ok {
        heap := heap[id := WithProperty(heap[id], name, v)];
      }
    }

    /** `JS_DefineProperty` with no attributes and no accessors. */
    method DefineProperty(id: ObjId, name: string, v: JSVal) returns (ok: bool)
      requires Valid() && id in heap
      modifies this`faults, this`pending, this`heap
      ensures Valid()
      ensures ok == !NextFails(old(faults)) && faults == Rest(old(faults))
      ensures Quiet(old(faults)) ==> ok && Quiet(faults)
      ensures pending == if ok then old(pending) else Some(thrown)
      ensures heap == if ok then old(heap)[id := WithProperty(old(heap)[id], name, v)] else old(heap)
    {
      ok := Attempt();
      if ok {
        heap := heap[id := WithProperty(heap[id], name, v)];
      }
    }

    /** `JS_CallFunctionName`: calling a name that is not a method fails like
        any other failure of the call. */
    method CallFunctionName(id: ObjId, name: string, args: seq<JSVal>) returns (ok: bool, v: JSVal)
      requires id in heap
      modifies this`faults, this`pending
      ensures faults == Rest(old(faults))
      ensures ok == (!NextFails(old(faults)) && name in heap[id].methods)
      ensures Quiet(old(faults)) ==> Quiet(faults) && (ok <==> name in heap[id].methods)
      ensures pending == if ok then old(pending) else Some(thrown)
      ensures ok ==> v == heap[id].methods[name]
    {
      ok := Attempt();
      if ok && name !in heap[id].methods {
        ok := false;
        pending := Some(thrown);
      }
      v := if ok then heap[id].methods[name] else Undefined;
    }

    /** `JS_WrapValue`: compartments are not modelled, so wrapping is the
        identity, but it can still fail. */
    method WrapValue() returns (ok: bool)
      modifies this`faults, this`pending
      ensures ok == !NextFails(old(faults)) && faults == Rest(old(faults))
      ensures Quiet(old(faults)) ==> ok && Quiet(faults)
      ensures pending == if ok then old(pending) else Some(thrown)
    {
      ok := Attempt();
    }

    /** `JS_NewUCStringCopyN`: the engine stores the copy one byte per
        character when every unit allows it. */
    method NewUCStringCopyN(units: seq<CodeUnit>) returns (ok: bool, s: JSString)
      modifies this`faults, this`pending
      ensures ok == !NextFails(old(faults)) && faults == Rest(old(faults))
      ensures Quiet(old(faults)) ==> ok && Quiet(faults)
      ensures pending == if ok then old(pending) else Some(thrown)
      ensures s.units == units
      ensures s.latin1 <==> forall i :: 0 <= i < |units| ==> units[i] < 0x100
    {
      ok := Attempt();
      s := StringRep(units, forall i :: 0 <= i < |units| ==> units[i] < 0x100);
    }

    /** `JS_GetLatin1StringCharsAndLength` or `JS_GetTwoByteStringCharsAndLength`:
        reading a string's characters can fail (it may have to be flattened). */
    method GetStringChars(s: JSString) returns (ok: bool, units: seq<CodeUnit>)
      modifies this`faults, this`pending
      ensures ok == !NextFails(old(faults)) && faults == Rest(old(faults))
      ensures Quiet(old(faults)) ==> ok && Quiet(faults)
      ensures pending == if ok then old(pending) else Some(thrown)
      ensures ok ==> units == s.units
    {
      ok := Attempt();
      units := if ok then s.units else [];
    }

    /** `JS_ClearPendingException`. */
    method ClearPendingException()
      modifies this`pending
      ensures pending == None
    {
      pending := None;
    }

    /** `JS_SetPendingException`. */
    method SetPendingException(v: JSVal)
      modifies this`pending
      ensures pending == Some(v)
    {
      pending := Some(v);
    }

    /** `JS_SetPrivate` on a call-class object: the box's ownership passes to
        the object. */
    method SetPrivate(id: ObjId, b: BoxId)
      requires Valid() && id in heap && b in boxes
      requires id !in privates && b !in privates.Values
      modifies this`privates
      ensures Valid() && privates == old(privates)[id := b]
    {
      privates := privates[id := b];
    }

    /** `JS_AddExtraGCRootsTracer`, keyed on a cell's address. */
    method AddRootsTracer(a: SlotId)
      requires Valid() && a in slots
      modifies this`tracers
      ensures Valid() && tracers == old(tracers) + {a}
    {
      tracers := tracers + {a};
    }

    /** `JS_RemoveExtraGCRootsTracer`. */
    method RemoveRootsTracer(a: SlotId)
      requires Valid()
      modifies this`tracers
      ensures Valid() && tracers == old(tracers) - {a}
    {
      tracers := tracers - {a};
    }

    /** `Box::new(Heap::new(v))`: a fresh native cell. */
    method AllocSlot(v: JSVal) returns (a: SlotId)
      requires Valid()
      modifies this`slots, this`nextSlot
      ensures Valid()
      ensures a !in old(slots) && slots == old(slots)[a := v]
    {
      a := nextSlot;
      slots := slots[a := v];
      nextSlot := nextSlot + 1;
    }

    /** Freeing a native cell; its tracer must already be gone. */
    method FreeSlot(a: SlotId)
      requires Valid() && a !in tracers
      modifies this`slots
      ensures Valid() && slots == Removed(old(slots), a)
    {
      slots := Removed(slots, a);
    }

    /** `Box::into_raw(Box::new(closure))`: a fresh boxed closure. */
    method AllocBox(c: Closure) returns (b: BoxId)
      requires Valid() && c.rc in rcs
      modifies this`boxes, this`nextBox
      ensures Valid()
      ensures b !in old(boxes) && boxes == old(boxes)[b := c]
    {
      b := nextBox;
      boxes := boxes[b := c];
      nextBox := nextBox + 1;
    }

    /** Reclaiming a boxed closure (`Box::from_raw` then drop), together with
        the object whose private slot owned it. */
    method FreeBox(id: ObjId)
      requires Valid() && id in privates
      modifies this`boxes, this`privates, this`heap
      ensures Valid()
      ensures boxes == Removed(old(boxes), old(privates)[id])
      ensures privates == Removed(old(privates), id)
      ensures heap == Removed(old(heap), id)
    {
      var b := privates[id];
      boxes := Removed(boxes, b);
      privates := Removed(privates, id);
      heap := Removed(heap, id);
    }

    /** `Rc::clone`: one more strong reference. */
    method RcClone(rc: RcId)
      requires Valid() && rc in rcs
      modifies this`rcs
      ensures Valid()
      ensures rcs == old(rcs)[rc := RcCell(old(rcs)[rc].strong + 1, old(rcs)[rc].handler)]
    {
      rcs := rcs[rc := RcCell(rcs[rc].strong + 1, rcs[rc].handler)];
    }

    /** Dropping one `Rc`: one strong reference fewer; the last one frees the
        allocation, which no box may then still hold. */
    method RcDrop(rc: RcId)
      requires Valid() && rc in rcs && rcs[rc].strong >= 1
      requires rcs[rc].strong == 1 ==> forall b :: b in boxes ==> boxes[b].rc != rc
      modifies this`rcs
      ensures Valid()
      ensures old(rcs)[rc].strong == 1 ==> rcs == Removed(old(rcs), rc)
      ensures old(rcs)[rc].strong > 1 ==> rcs == old(rcs)[rc := RcCell(old(rcs)[rc].strong - 1, old(rcs)[rc].handler)]
    {
      if rcs[rc].strong == 1 {
        rcs := Removed(rcs, rc);
      } else {
        rcs := rcs[rc := RcCell(rcs[rc].strong - 1, rcs[rc].handler)];
      }
    }
  }

  /** `m` without the key `k`. */
  function Removed<K, V>(m: map<K, V>, k: K): (r: map<K, V>)
    ensures r.Keys == m.Keys - {k}
    ensures forall x :: x in r ==> r[x] == m[x]
  {
    map x | x in m && x != k :: m[x]
  }

  /** `m` without the keys `ks`. */
  function RemovedAll<K, V>(m: map<K, V>, ks: set<K>): (r: map<K, V>)
    ensures r.Keys == m.Keys - ks
    ensures forall x :: x in r ==> r[x] == m[x]
  {
    map x | x in m && x !in ks :: m[x]
  }

  /** Removing the keys `ks` and then `k` removes `ks + {k}`. */
  lemma RemovedMore<K, V>(m: map<K, V>, ks: set<K>, k: K)
    ensures Removed(RemovedAll(m, ks), k) == RemovedAll(m, ks + {k})
  {
  }

  /** Removing one key is removing the set of it. */
  lemma RemovedOne<K, V>(m: map<K, V>, k: K)
    ensures Removed(m, k) == RemovedAll(m, {k})
  {
  }

  /** 2^32 - 1 is not an array index: an element access there is an
      access to the property of that name. */
  const NotAnIndex: u32 := 0xFFFF_FFFF
  const NotAnIndexName: string := "4294967295"

  function ElementOf(o: ObjRec, index: u32): JSVal
  {
    if index == NotAnIndex then PropertyOf(o, NotAnIndexName)
    else if index < |o.elems| then o.elems[index] else Undefined
  }

  function WithElement(o: ObjRec, index: u32, v: JSVal): (r: ObjRec)
    requires |o.elems| < 0x1_0000_0000
    ensures ElementOf(r, index) == v
    ensures index != NotAnIndex ==> |r.elems| == if index < |o.elems| then |o.elems| else index + 1
    ensures index != NotAnIndex ==> forall k :: 0 <= k < |o.elems| && k != index ==> r.elems[k] == o.elems[k]
    ensures |r.elems| < 0x1_0000_0000
    ensures r.cls == o.cls && r.methods == o.methods
    ensures index != NotAnIndex ==> r.props == o.props
  {
    if index == NotAnIndex then WithProperty(o, NotAnIndexName, v)
    else
      var padded := if index < |o.elems| then o.elems else o.elems + seq(index + 1 - |o.elems|, _ => Undefined);
      o.(elems := padded[index := v])
  }

  function PropertyOf(o: ObjRec, name: string): JSVal
  {
    if name in o.props then o.props[name] else Undefined
  }

  function WithProperty(o: ObjRec, name: string, v: JSVal): ObjRec
  {
    o.(props := o.props[name := v])
  }
}
