/** The parts of src/frame.rs below the facades: the name decoders of
    `FrameType` and `FrameImplementation`, and the `Call` adapters of the
    `OnPop` and `OnStep` hooks. An adapter decodes the engine's arguments
    (unwrapping each, so a failed decoding is a `panic!`), hands them to the
    user's hook, and converts the hook's reply into the call's return value:
    a resumption is written to the output slot, an exception becomes the
    pending exception. The hook itself is user code; here its reply is a
    parameter, made of facades that exist when the call begins. */
module Frames {
  import opened JSApi
  import opened Trace
  import opened Values
  import opened Scalars
  import opened Exceptions
  import opened Conversions
  import opened Decoding
  import opened Encoding
  import opened Names
  import opened Completions
  import opened Utils

  datatype FrameType = Call | Eval | Global | Module

  function FrameTypeName(t: FrameType): string
  {
    match t
    case Call => "call"
    case Eval => "eval"
    case Global => "global"
    case Module => "module"
  }

  /** The match of `FrameType::from_js_value`: `None` is its `panic!`. */
  function FrameTypeOf(s: string): (r: Option<FrameType>)
  {
    if s == "call" then Some(Call)
    else if s == "eval" then Some(Eval)
    else if s == "global" then Some(Global)
    else if s == "module" then Some(Module)
    else None
  }

  /** Exactly the variants' names decode, each to its own variant. */
  lemma FrameTypeNames(s: string, t: FrameType)
    ensures FrameTypeOf(s) == Some(t) <==> s == FrameTypeName(t)
  {
  }

  method DecodeFrameType(cx: Context, v: JSVal) returns (r: Outcome<FrameType>)
    requires cx.Valid()
    modifies cx`faults, cx`pending, cx`slots, cx`nextSlot, cx`tracers
    ensures cx.Valid() && SlotsGrow(old(cx.slots), cx.slots)
    ensures r.Ok? ==>
      v.Str? && CharsToString(v.s) == FrameTypeName(r.value) &&
      cx.pending == old(cx.pending) && cx.tracers == old(cx.tracers)
    ensures r.Err? ==> v.Str? && Raised(cx, old(cx.slots), old(cx.tracers), r.exc)
    ensures r.Panic? ==> !v.Str? || FrameTypeOf(CharsToString(v.s)).None?
    ensures Quiet(old(cx.faults)) ==> Quiet(cx.faults)
    ensures Quiet(old(cx.faults)) && v.Str? && FrameTypeOf(CharsToString(v.s)).Some? ==> r.Ok?
  {
    r := DecodeName(cx, v, FrameTypeOf);
    if r.Ok? {
      FrameTypeNames(CharsToString(v.s), r.value);
    }
  }

  datatype FrameImplementation = Interpreter | Baseline | Ion

  function FrameImplementationName(t: FrameImplementation): string
  {
    match t
    case Interpreter => "interpreter"
    case Baseline => "baseline"
    case Ion => "ion"
  }

  /** The match of `FrameImplementation::from_js_value`: `None` is its
      `panic!`. */
  function FrameImplementationOf(s: string): (r: Option<FrameImplementation>)
  {
    if s == "interpreter" then Some(Interpreter)
    else if s == "baseline" then Some(Baseline)
    else if s == "ion" then Some(Ion)
    else None
  }

  lemma FrameImplementationNames(s: string, t: FrameImplementation)
    ensures FrameImplementationOf(s) == Some(t) <==> s == FrameImplementationName(t)
  {
  }

  method DecodeFrameImplementation(cx: Context, v: JSVal) returns (r: Outcome<FrameImplementation>)
    requires cx.Valid()
    modifies cx`faults, cx`pending, cx`slots, cx`nextSlot, cx`tracers
    ensures cx.Valid() && SlotsGrow(old(cx.slots), cx.slots)
    ensures r.Ok? ==>
      v.Str? && CharsToString(v.s) == FrameImplementationName(r.value) &&
      cx.pending == old(cx.pending) && cx.tracers == old(cx.tracers)
    ensures r.Err? ==> v.Str? && Raised(cx, old(cx.slots), old(cx.tracers), r.exc)
    ensures r.Panic? ==> !v.Str? || FrameImplementationOf(CharsToString(v.s)).None?
    ensures Quiet(old(cx.faults)) ==> Quiet(cx.faults)
    ensures Quiet(old(cx.faults)) && v.Str? && FrameImplementationOf(CharsToString(v.s)).Some? ==> r.Ok?
  {
    r := DecodeName(cx, v, FrameImplementationOf);
    if r.Ok? {
      FrameImplementationNames(CharsToString(v.s), r.value);
    }
  }

  /** `CallArgs::get`: an argument past the end reads as undefined. */
  function ArgOf(args: seq<JSVal>, i: nat): (v: JSVal)
    ensures i >= |args| ==> v == JSVal.Undefined
    ensures i < |args| ==> v == args[i]
  {
    if i < |args| then args[i] else JSVal.Undefined
  }

  /** The objects among the arguments are alive. */
  predicate ArgsLive(heap: map<ObjId, ObjRec>, args: seq<JSVal>)
  {
    forall k :: 0 <= k < |args| && args[k].Obj? ==> args[k].id in heap
  }

  /** What a hook returns: `Ok` of a resumption, or `Err` of an exception. */
  datatype Reply = Resume(res: ResumptionValue) | Fail(e: Exception)

  /** The cells a resumption keeps alive. */
  function ResumptionRoots(res: ResumptionValue): (roots: set<SlotId>)
    ensures res.None? ==> roots == {}
  {
    if res.None? then {} else CompletionRoots(res.value)
  }

  /** The cells a reply keeps alive, which go when the adapter drops it. */
  function ReplyRoots(reply: Reply): (roots: set<SlotId>)
    ensures reply.Fail? ==> roots == {reply.e.root.slot}
  {
    match reply
    case Resume(res) => ResumptionRoots(res)
    case Fail(e) => {e.root.slot}
  }

  /** Every facade inside the reply is alive in `tracers` and `slots`. A
      returned or thrown `Value::Object` must hold an object. */
  ghost predicate ReplyLive(tracers: set<SlotId>, slots: map<SlotId, JSVal>, reply: Reply)
  {
    match reply
    case Resume(res) => res.Some? && !res.value.Terminate? ==> Owned(tracers, slots, NValue(res.value.value))
    case Fail(e) => e.root.slot in tracers && e.root.slot in slots
  }

  /** A reply stays alive while the registry and the cells only grow. */
  lemma ReplyKept(tracers0: set<SlotId>, slots0: map<SlotId, JSVal>, tracers: set<SlotId>, slots: map<SlotId, JSVal>,
                  reply: Reply)
    requires ReplyLive(tracers0, slots0, reply) && tracers0 <= tracers && SlotsGrow(slots0, slots)
    ensures ReplyLive(tracers, slots, reply)
    ensures ReplyRoots(reply) <= tracers0 && ReplyRoots(reply) <= slots0.Keys
  {
    if reply.Resume? && reply.res.Some? && !reply.res.value.Terminate? {
      assert RootsOf(NValue(reply.res.value.value)) == ReplyRoots(reply);
    }
  }

  /** An encoding of a resumption reads the facades in it, so it holds for
      any cells that agree with `w`'s on the resumption's own. */
  lemma ResumptionEncodesFrame(w: View, slots: map<SlotId, JSVal>, lo: nat, key: string,
                               res: ResumptionValue, v: JSVal)
    requires ResumptionEncodes(w, lo, key, res, v)
    requires forall a :: a in ResumptionRoots(res) ==> a in slots && a in w.slots && slots[a] == w.slots[a]
    ensures ResumptionEncodes(View(w.heap, w.privates, w.boxes, slots), lo, key, res, v)
  {
    if res.Some? && !res.value.Terminate? {
      var x := res.value.value;
      var o := w.heap[v.id];
      var k := if res.value.Return? then key else ThrowKey;
      assert ValueEncodes(w, x, o.props[k]);
      if x.Object? {
        assert x.root.slot in ResumptionRoots(res);
      }
    }
  }

  /** The same, for the resumption of a reply that was written out. */
  lemma ReplyEncodesFrame(w: View, slots: map<SlotId, JSVal>, lo: nat, key: string, reply: Reply, ok: bool, v: JSVal)
    requires reply.Resume? && ok ==> ResumptionEncodes(w, lo, key, reply.res, v)
    requires forall a :: a in ReplyRoots(reply) ==> a in slots && a in w.slots && slots[a] == w.slots[a]
    ensures reply.Resume? && ok ==> ResumptionEncodes(View(w.heap, w.privates, w.boxes, slots), lo, key, reply.res, v)
  {
    if reply.Resume? && ok {
      ResumptionEncodesFrame(w, slots, lo, key, reply.res, v);
    }
  }

  /** The arm of the adapters' `match` on the hook's reply, and the reply's
      drop at the end of the arm. `Ok(result)` is converted into the output
      slot (`ResumptionValue::to_js_value`), the value of a return going
      under `key` (`AsWrittenKey` as written, `ReturnKey` as intended);
      `Err(exception)` becomes the pending exception
      (`into_pending_exception`), which reports `false`. Either way the
      reply's cells go and nothing else does. The encoding is stated over
      the cells as they were before the call. */
  method Respond(cx: Context, key: string, reply: Reply) returns (ok: bool, rval: JSVal)
    requires cx.Valid() && CName(key) && ReplyLive(cx.tracers, cx.slots, reply)
    modifies cx`faults, cx`pending, cx`heap, cx`nextObj, cx`privates, cx`boxes, cx`nextBox, cx`rcs
    modifies cx`slots, cx`tracers
    ensures cx.Valid() && old(cx.nextObj) <= cx.nextObj && cx.rcs == old(cx.rcs)
    ensures Extends(old(cx.heap), cx.heap) && Extends(old(cx.privates), cx.privates) && Extends(old(cx.boxes), cx.boxes)
    ensures cx.tracers == old(cx.tracers) - ReplyRoots(reply)
    ensures cx.slots == RemovedAll(old(cx.slots), ReplyRoots(reply))
    ensures reply.Fail? ==> !ok && cx.pending == Some(old(cx.slots)[reply.e.root.slot])
    ensures reply.Resume? && ok ==>
      cx.pending == old(cx.pending) &&
      ResumptionEncodes(View(cx.heap, cx.privates, cx.boxes, old(cx.slots)), old(cx.nextObj), key, reply.res, rval)
    ensures reply.Resume? && !ok ==> cx.pending == Some(cx.thrown)
    ensures Quiet(old(cx.faults)) ==> Quiet(cx.faults)
    ensures Quiet(old(cx.faults)) && reply.Resume? ==> ok
  {
    match reply
    case Resume(res) =>
      ok, rval := EncodeResumption(cx, res, key);
      ReplyKept(old(cx.tracers), old(cx.slots), cx.tracers, cx.slots, reply);
      DropRoots(cx, ResumptionRoots(res));
    case Fail(e) =>
      ok := IntoPendingException(cx, e);
      RemovedOne(old(cx.slots), e.root.slot);
      rval := JSVal.Undefined;
  }

  /** The engine state after an adapter call that did not panic, from the
      registry `tracers0`, cells `slots0` and reference counts `rcs0` at the
      start: the registry lost exactly the reply's entries (the decoded
      arguments were dropped too), the other cells are as they were, a
      resumption was written to `rval`, an exception was made pending. */
  ghost predicate Answered(cx: Context, tracers0: set<SlotId>, slots0: map<SlotId, JSVal>, pending0: Option<JSVal>,
                           rcs0: map<RcId, RcCell>, lo: nat, key: string, reply: Reply, ok: bool, rval: JSVal)
    reads cx`heap, cx`privates, cx`boxes, cx`slots, cx`tracers, cx`pending, cx`rcs, cx`thrown
  {
    cx.tracers == tracers0 - ReplyRoots(reply) && cx.rcs == rcs0 &&
    (forall a :: a in slots0 && a !in ReplyRoots(reply) ==> a in cx.slots && cx.slots[a] == slots0[a]) &&
    ReplyRoots(reply) !! cx.slots.Keys &&
    (reply.Fail? ==> !ok && reply.e.root.slot in slots0 && cx.pending == Some(slots0[reply.e.root.slot])) &&
    (reply.Resume? && ok ==>
      cx.pending == pending0 &&
      ResumptionEncodes(View(cx.heap, cx.privates, cx.boxes, slots0), lo, key, reply.res, rval)) &&
    (reply.Resume? && !ok ==> cx.pending == Some(cx.thrown))
  }

  /** Respond, then drop the decoded arguments' cells `temps`, which are
      registered and new since the start: the call is answered. */
  method Finish(cx: Context, key: string, reply: Reply, temps: set<SlotId>, ghost tracers0: set<SlotId>,
                ghost slots0: map<SlotId, JSVal>) returns (ok: bool, rval: JSVal)
    requires cx.Valid() && CName(key) && ReplyLive(tracers0, slots0, reply)
    requires cx.tracers == tracers0 + temps && tracers0 <= slots0.Keys && temps !! slots0.Keys
    requires SlotsGrow(slots0, cx.slots)
    modifies cx`faults, cx`pending, cx`heap, cx`nextObj, cx`privates, cx`boxes, cx`nextBox, cx`rcs
    modifies cx`slots, cx`tracers
    ensures cx.Valid() && old(cx.nextObj) <= cx.nextObj
    ensures Extends(old(cx.heap), cx.heap) && Extends(old(cx.privates), cx.privates) && Extends(old(cx.boxes), cx.boxes)
    ensures Answered(cx, tracers0, slots0, old(cx.pending), old(cx.rcs), old(cx.nextObj), key, reply, ok, rval)
    ensures Quiet(old(cx.faults)) ==> Quiet(cx.faults)
    ensures Quiet(old(cx.faults)) && reply.Resume? ==> ok
  {
    ReplyKept(tracers0, slots0, cx.tracers, cx.slots, reply);
    ghost var slots1 := cx.slots;
    ok, rval := Respond(cx, key, reply);
    DropRoots(cx, temps);
    Concluded(cx, tracers0, slots0, old(cx.pending), old(cx.rcs), old(cx.nextObj), key, reply, ok, rval, temps, slots1);
  }

  /** What `Respond` and the drop of `temps` leave, stated over the cells
      `slots1` they started from, is an answered call. */
  lemma Concluded(cx: Context, tracers0: set<SlotId>, slots0: map<SlotId, JSVal>, pending0: Option<JSVal>,
                  rcs0: map<RcId, RcCell>, lo: nat, key: string, reply: Reply, ok: bool, rval: JSVal,
                  temps: set<SlotId>, slots1: map<SlotId, JSVal>)
    requires ReplyRoots(reply) <= tracers0 && tracers0 <= slots0.Keys && temps !! slots0.Keys
    requires SlotsGrow(slots0, slots1)
    requires cx.tracers == ((tracers0 + temps) - ReplyRoots(reply)) - temps && cx.rcs == rcs0
    requires cx.slots == RemovedAll(RemovedAll(slots1, ReplyRoots(reply)), temps)
    requires reply.Fail? ==> !ok && cx.pending == Some(slots1[reply.e.root.slot])
    requires reply.Resume? && ok ==>
      cx.pending == pending0 &&
      ResumptionEncodes(View(cx.heap, cx.privates, cx.boxes, slots1), lo, key, reply.res, rval)
    requires reply.Resume? && !ok ==> cx.pending == Some(cx.thrown)
    ensures Answered(cx, tracers0, slots0, pending0, rcs0, lo, key, reply, ok, rval)
  {
    Cancel(tracers0, temps, ReplyRoots(reply), slots0.Keys);
    Cleared(slots0, slots1, RemovedAll(slots1, ReplyRoots(reply)), cx.slots, ReplyRoots(reply), temps);
    ReplyEncodesFrame(View(cx.heap, cx.privates, cx.boxes, slots1), slots0, lo, key, reply, ok, rval);
  }

  /** New entries added, old ones removed, then the new ones removed: only
      the removal of the old ones is left. */
  lemma Cancel(tracers0: set<SlotId>, temps: set<SlotId>, gone: set<SlotId>, keys: set<SlotId>)
    requires tracers0 <= keys && gone <= keys && temps !! keys
    ensures ((tracers0 + temps) - gone) - temps == tracers0 - gone
  {
  }

  /** Dropping first the reply's cells `gone` from `slots1` (giving
      `slots2`) and then new ones `temps` (giving `slots3`) keeps every other
      old cell and removes the reply's. */
  lemma Cleared(slots0: map<SlotId, JSVal>, slots1: map<SlotId, JSVal>, slots2: map<SlotId, JSVal>,
                slots3: map<SlotId, JSVal>, gone: set<SlotId>, temps: set<SlotId>)
    requires SlotsGrow(slots0, slots1) && temps !! slots0.Keys
    requires forall a :: a in slots2 <==> a in slots1 && a !in gone
    requires forall a :: a in slots2 ==> slots2[a] == slots1[a]
    requires forall a :: a in slots3 <==> a in slots2 && a !in temps
    requires forall a :: a in slots3 ==> slots3[a] == slots2[a]
    ensures forall a :: a in slots0 && a !in gone ==> a in slots3 && slots3[a] == slots0[a]
    ensures gone !! slots3.Keys
  {
  }

  /** The arguments an `OnPop` hook is called with decode: a frame object
      first, then a completion whose return is read from `key`. */
  predicate PopDecodable(heap: map<ObjId, ObjRec>, key: string, args: seq<JSVal>)
  {
    ArgOf(args, 0).Obj? && CompletionDecodable(heap, key, ArgOf(args, 1))
  }

  /** The engine as the hook sees it, `w`, grew from the heap `heap0` and the
      cells `slots0` at the call only by the arguments' new cells. */
  ghost predicate HookView(w: View, heap0: map<ObjId, ObjRec>, slots0: map<SlotId, JSVal>)
  {
    w.heap == heap0 && SlotsGrow(slots0, w.slots)
  }

  /** What a hook receives: in `w`, the facade `frame` roots argument 0. */
  ghost predicate FrameArgument(w: View, args: seq<JSVal>, frame: TracedBox)
  {
    frame.slot in w.slots && w.slots[frame.slot] == ArgOf(args, 0)
  }

  /** `Call for OnPop`: `Frame` from argument 0 and `CompletionValue` from
      argument 1, each unwrapped, then the hook's `reply`. A return's value
      is read from, and written to, `key`: the code as written is `OnPop` at
      `AsWrittenKey`, the intended one at `ReturnKey`. `None` is a panic:
      an argument did not decode. Otherwise the hook was called, in the view
      `w`, with the facade `frame` of argument 0 and the decoding
      `completion` of argument 1, and the result is what the call returns to
      the engine. */
  method OnPop(cx: Context, key: string, args: seq<JSVal>, reply: Reply)
    returns (r: Option<bool>, rval: JSVal, ghost frame: TracedBox, ghost completion: CompletionValue, ghost w: View)
    requires cx.Valid() && CName(key) && ArgsLive(cx.heap, args) && ReplyLive(cx.tracers, cx.slots, reply)
    modifies cx`faults, cx`pending, cx`heap, cx`nextObj, cx`privates, cx`boxes, cx`nextBox, cx`rcs
    modifies cx`slots, cx`nextSlot, cx`tracers
    ensures cx.Valid() && old(cx.nextObj) <= cx.nextObj
    ensures Extends(old(cx.heap), cx.heap) && Extends(old(cx.privates), cx.privates) && Extends(old(cx.boxes), cx.boxes)
    ensures r.None? ==> !PopDecodable(old(cx.heap), key, args) || !Quiet(old(cx.faults))
    ensures !PopDecodable(old(cx.heap), key, args) ==> r.None?
    ensures r.Some? ==>
      HookView(w, old(cx.heap), old(cx.slots)) && FrameArgument(w, args, frame) &&
      CompletionDecodes(w, key, ArgOf(args, 1), completion)
    ensures r.Some? ==>
      Answered(cx, old(cx.tracers), old(cx.slots), old(cx.pending), old(cx.rcs), old(cx.nextObj), key, reply, r.value, rval)
    ensures Quiet(old(cx.faults)) ==> Quiet(cx.faults)
    ensures Quiet(old(cx.faults)) && PopDecodable(old(cx.heap), key, args) ==> r.Some?
    ensures Quiet(old(cx.faults)) && PopDecodable(old(cx.heap), key, args) && reply.Resume? ==> r == Some(true)
  {
    var decoded := DecodeHandle(cx, ArgOf(args, 0));
    if !decoded.Ok? {
      return None, JSVal.Undefined, TracedBox(0), Terminate, ViewOf(cx);
    }
    var root := decoded.value.root;
    frame := root;
    r, rval, completion, w := PopWithFrame(cx, key, ArgOf(args, 1), reply, root.slot, old(cx.tracers), old(cx.slots));
  }

  /** The rest of `OnPop` once the frame, whose cell is `fs`, is decoded:
      the completion the hook receives is `completion`, decoded in `w`. */
  method PopWithFrame(cx: Context, key: string, v: JSVal, reply: Reply, fs: SlotId, ghost tracers0: set<SlotId>,
                      ghost slots0: map<SlotId, JSVal>)
    returns (r: Option<bool>, rval: JSVal, ghost completion: CompletionValue, ghost w: View)
    requires cx.Valid() && CName(key) && (v.Obj? ==> v.id in cx.heap) && ReplyLive(tracers0, slots0, reply)
    requires cx.tracers == tracers0 + {fs} && tracers0 <= slots0.Keys && fs !in slots0 && SlotsGrow(slots0, cx.slots)
    modifies cx`faults, cx`pending, cx`heap, cx`nextObj, cx`privates, cx`boxes, cx`nextBox, cx`rcs
    modifies cx`slots, cx`nextSlot, cx`tracers
    ensures cx.Valid() && old(cx.nextObj) <= cx.nextObj
    ensures Extends(old(cx.heap), cx.heap) && Extends(old(cx.privates), cx.privates) && Extends(old(cx.boxes), cx.boxes)
    ensures r.None? ==> !CompletionDecodable(old(cx.heap), key, v) || !Quiet(old(cx.faults))
    ensures !CompletionDecodable(old(cx.heap), key, v) ==> r.None?
    ensures r.Some? ==> HookView(w, old(cx.heap), old(cx.slots)) && CompletionDecodes(w, key, v, completion)
    ensures r.Some? ==>
      Answered(cx, tracers0, slots0, old(cx.pending), old(cx.rcs), old(cx.nextObj), key, reply, r.value, rval)
    ensures Quiet(old(cx.faults)) ==> Quiet(cx.faults)
    ensures Quiet(old(cx.faults)) && CompletionDecodable(old(cx.heap), key, v) ==> r.Some?
    ensures Quiet(old(cx.faults)) && CompletionDecodable(old(cx.heap), key, v) && reply.Resume? ==> r == Some(true)
  {
    var decoded := DecodeCompletion(cx, v, key);
    w := ViewOf(cx);
    if !decoded.Ok? {
      return None, JSVal.Undefined, Terminate, w;
    }
    var c := decoded.value;
    completion := c;
    DecodesAreDecodable(w, key, v, c);
    var roots := CompletionRoots(c);
    assert cx.tracers == tracers0 + ({fs} + roots);
    var ok;
    ok, rval := Finish(cx, key, reply, {fs} + roots, tracers0, slots0);
    r := Some(ok);
  }

  /** `Call for OnStep`: as `OnPop`, with only the frame. */
  method OnStep(cx: Context, key: string, args: seq<JSVal>, reply: Reply)
    returns (r: Option<bool>, rval: JSVal, ghost frame: TracedBox, ghost w: View)
    requires cx.Valid() && CName(key) && ReplyLive(cx.tracers, cx.slots, reply)
    modifies cx`faults, cx`pending, cx`heap, cx`nextObj, cx`privates, cx`boxes, cx`nextBox, cx`rcs
    modifies cx`slots, cx`nextSlot, cx`tracers
    ensures cx.Valid() && old(cx.nextObj) <= cx.nextObj
    ensures Extends(old(cx.heap), cx.heap) && Extends(old(cx.privates), cx.privates) && Extends(old(cx.boxes), cx.boxes)
    ensures r.None? <==> !ArgOf(args, 0).Obj?
    ensures r.Some? ==> HookView(w, old(cx.heap), old(cx.slots)) && FrameArgument(w, args, frame)
    ensures r.Some? ==>
      Answered(cx, old(cx.tracers), old(cx.slots), old(cx.pending), old(cx.rcs), old(cx.nextObj), key, reply, r.value, rval)
    ensures Quiet(old(cx.faults)) ==> Quiet(cx.faults)
    ensures Quiet(old(cx.faults)) && ArgOf(args, 0).Obj? && reply.Resume? ==> r == Some(true)
  {
    var decoded := DecodeHandle(cx, ArgOf(args, 0));
    if !decoded.Ok? {
      return None, JSVal.Undefined, TracedBox(0), ViewOf(cx);
    }
    var root := decoded.value.root;
    frame := root;
    w := ViewOf(cx);
    var ok;
    ok, rval := Finish(cx, key, reply, {root.slot}, old(cx.tracers), old(cx.slots));
    r := Some(ok);
  }
}
