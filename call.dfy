/** The call class of src/call.rs: an object of this class owns, through its
    private slot, a box holding a closure. Here the closure is an `Rc` of a
    user hook, and the `Call for Rc<T>` implementation forwards to that hook.
    - The class's `call` hook runs the closure of the object being called.
    - Its `finalize` hook reclaims the box; dropping the box drops one `Rc`.
    The conversions to and from the class are in `Decoding.DecodeCall` and
    `Encoding.EncodeCall`. */
module Calls {
  import opened JSApi
  import opened Trace
  import opened Exceptions
  import opened Conversions
  import opened Encoding
  import opened Frames
  import opened Utils

  /** The closure an object of the call class owns: the box in its private
      slot, and the `Rc` in that box. */
  predicate Callable(privates: map<ObjId, BoxId>, boxes: map<BoxId, Closure>, rcs: map<RcId, RcCell>, callee: ObjId)
  {
    callee in privates && privates[callee] in boxes && boxes[privates[callee]].rc in rcs
  }

  /** The hook `JS_GetPrivate(callee)` leads to, through its box and the
      `Rc`'s forwarding. */
  function HandlerOf(privates: map<ObjId, BoxId>, boxes: map<BoxId, Closure>, rcs: map<RcId, RcCell>,
                     callee: ObjId): (h: Handler)
    requires Callable(privates, boxes, rcs, callee)
    ensures exists rc :: rc in rcs && boxes[privates[callee]] == RcClosure(rc) && rcs[rc].handler == h
  {
    var rc := boxes[privates[callee]].rc;
    rcs[rc].handler
  }

  /** An object that has a private slot can be called: every private slot
      owns a box and every box a live `Rc`. */
  lemma PrivateIsCallable(cx: Context, callee: ObjId)
    requires cx.Valid() && callee in cx.privates
    ensures Callable(cx.privates, cx.boxes, cx.rcs, callee)
  {
  }

  /** The arguments the hook a call reaches decodes. */
  predicate HookDecodable(heap: map<ObjId, ObjRec>, key: string, args: seq<JSVal>, h: Handler)
  {
    if h.OnPopHandler? then PopDecodable(heap, key, args) else ArgOf(args, 0).Obj?
  }

  /** The class's `call` hook: `callee` is the object being called, `args`
      its arguments, and `reply` what the hook it reaches replies. The call
      is that hook's adapter, `OnPop` or `OnStep`, and returns what it
      returns; `None` is a panic. */
  method Invoke(cx: Context, key: string, callee: ObjId, args: seq<JSVal>, reply: Reply) returns (r: Option<bool>, rval: JSVal)
    requires cx.Valid() && CName(key) && callee in cx.privates && ArgsLive(cx.heap, args) && ReplyLive(cx.tracers, cx.slots, reply)
    modifies cx`faults, cx`pending, cx`heap, cx`nextObj, cx`privates, cx`boxes, cx`nextBox, cx`rcs
    modifies cx`slots, cx`nextSlot, cx`tracers
    ensures cx.Valid() && old(cx.nextObj) <= cx.nextObj
    ensures Extends(old(cx.heap), cx.heap) && Extends(old(cx.privates), cx.privates) && Extends(old(cx.boxes), cx.boxes)
    ensures Callable(old(cx.privates), old(cx.boxes), old(cx.rcs), callee)
    ensures var h := HandlerOf(old(cx.privates), old(cx.boxes), old(cx.rcs), callee);
      r.None? ==> !HookDecodable(old(cx.heap), key, args, h) || !Quiet(old(cx.faults))
    ensures r.Some? ==>
      Answered(cx, old(cx.tracers), old(cx.slots), old(cx.pending), old(cx.rcs), old(cx.nextObj), key, reply, r.value, rval)
    ensures Quiet(old(cx.faults)) ==> Quiet(cx.faults)
    ensures var h := HandlerOf(old(cx.privates), old(cx.boxes), old(cx.rcs), callee);
      Quiet(old(cx.faults)) && HookDecodable(old(cx.heap), key, args, h) ==> r.Some? && (reply.Resume? ==> r.value)
  {
    PrivateIsCallable(cx, callee);
    var h := HandlerOf(cx.privates, cx.boxes, cx.rcs, callee);
    match h
    case OnPopHandler(_) =>
      ghost var frame, completion, w;
      r, rval, frame, completion, w := OnPop(cx, key, args, reply);
    case OnStepHandler(_) =>
      ghost var frame, w;
      r, rval, frame, w := OnStep(cx, key, args, reply);
  }

  /** The count `Rust`'s `Rc` keeps for `rc`: at least one reference, and one
      more than the box `b` when any other box holds it too. */
  ghost predicate CountCovers(boxes: map<BoxId, Closure>, rcs: map<RcId, RcCell>, rc: RcId, b: BoxId)
  {
    rc in rcs && rcs[rc].strong >= 1 &&
    (rcs[rc].strong == 1 ==> forall c :: c in boxes && c != b ==> boxes[c].rc != rc)
  }

  /** The class's `finalize` hook, run when the garbage collector reclaims
      `obj`: the box in its private slot is taken back and dropped, and with
      it one reference of the `Rc` it holds; the last one frees the `Rc`. */
  method Finalize(cx: Context, obj: ObjId)
    requires cx.Valid() && obj in cx.privates
    requires CountCovers(cx.boxes, cx.rcs, cx.boxes[cx.privates[obj]].rc, cx.privates[obj])
    modifies cx`boxes, cx`privates, cx`heap, cx`rcs
    ensures cx.Valid()
    ensures cx.boxes == Removed(old(cx.boxes), old(cx.privates)[obj])
    ensures cx.privates == Removed(old(cx.privates), obj)
    ensures cx.heap == Removed(old(cx.heap), obj)
    ensures var rc := old(cx.boxes)[old(cx.privates)[obj]].rc;
      old(cx.rcs)[rc].strong == 1 ==> cx.rcs == Removed(old(cx.rcs), rc)
    ensures var rc := old(cx.boxes)[old(cx.privates)[obj]].rc;
      old(cx.rcs)[rc].strong > 1 ==> cx.rcs == old(cx.rcs)[rc := RcCell(old(cx.rcs)[rc].strong - 1, old(cx.rcs)[rc].handler)]
  {
    var b := cx.privates[obj];
    var rc := cx.boxes[b].rc;
    cx.FreeBox(obj);
    ghost var rcs1 := cx.rcs;
    assert rcs1 == old(cx.rcs);
    cx.RcDrop(rc);
  }

  /** Handing a closure to the engine and the engine finalizing the object
      it got back leave the `Rc`'s count, the boxes and the private slots as
      they were: `to_js_value` and `finalize` balance. */
  method ClosureLifecycle(cx: Context, rc: RcId) returns (ok: bool)
    requires cx.Valid() && rc in cx.rcs && cx.rcs[rc].strong >= 1
    modifies cx`faults, cx`pending, cx`heap, cx`nextObj, cx`privates, cx`boxes, cx`nextBox, cx`rcs
    ensures cx.Valid()
    ensures ok ==> cx.rcs == old(cx.rcs) && cx.boxes == old(cx.boxes) && cx.privates == old(cx.privates)
    ensures ok ==> forall id :: id in old(cx.heap) ==> id in cx.heap && cx.heap[id] == old(cx.heap)[id]
    ensures Quiet(old(cx.faults)) ==> ok
  {
    var rval;
    ok, rval := EncodeCall(cx, rc);
    if ok {
      var b := cx.privates[rval.id];
      assert rval.id !in old(cx.heap) by {
        assert rval.id >= old(cx.nextObj);
      }
      ghost var heap1, privates1, boxes1 := cx.heap, cx.privates, cx.boxes;
      ghost var rcs1 := cx.rcs;
      Finalize(cx, rval.id);
      RemoveAdded(old(cx.privates), privates1, rval.id, b);
      RemoveAdded(old(cx.boxes), boxes1, b, RcClosure(rc));
      Unclone(old(cx.rcs), rc);
      assert cx.rcs == rcs1[rc := RcCell(old(cx.rcs)[rc].strong, old(cx.rcs)[rc].handler)];
      assert forall id :: id in old(cx.heap) ==> id in heap1 && heap1[id] == old(cx.heap)[id] && id != rval.id;
    }
  }

  /** Removing a key just added gives the map back. */
  lemma RemoveAdded<K, V>(m: map<K, V>, m1: map<K, V>, k: K, v: V)
    requires k !in m && m1 == m[k := v]
    ensures Removed(m1, k) == m
  {
  }

  /** Dropping the reference a clone added gives the counts back. */
  lemma Unclone(rcs: map<RcId, RcCell>, rc: RcId)
    requires rc in rcs
    ensures Cloned(rcs, rc)[rc := RcCell(rcs[rc].strong, rcs[rc].handler)] == rcs
  {
  }
}
