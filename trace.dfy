/** `TracedBox` (src/trace.rs): an owning wrapper around one garbage-collected
    value that keeps it alive and traced. It owns a boxed cell holding the value
    and, for as long as it lives, a registry entry of the extra-roots tracer
    keyed on that cell's address. */
module Trace {
  import opened JSApi

  /** A `TracedBox`: the address of the cell it owns (the context it was made
      with is the one `Context` of the model). */
  datatype TracedBox = TracedBox(slot: SlotId)

  /** The box's tracer is registered, which holds from `New` until `Drop`. */
  predicate Live(cx: Context, b: TracedBox)
    reads cx`tracers
  {
    b.slot in cx.tracers
  }

  /** `TracedBox::new`: a fresh cell holding `p`, and exactly one new registry
      entry, keyed on that cell. */
  method New(cx: Context, p: JSVal) returns (b: TracedBox)
    requires cx.Valid()
    modifies cx`slots, cx`nextSlot, cx`tracers
    ensures cx.Valid() && Live(cx, b)
    ensures b.slot !in old(cx.slots) && b.slot !in old(cx.tracers)
    ensures cx.slots == old(cx.slots)[b.slot := p]
    ensures cx.tracers == old(cx.tracers) + {b.slot}
  {
    var a := cx.AllocSlot(p);
    cx.AddRootsTracer(a);
    b := TracedBox(a);
  }

  /** `Drop for TracedBox`: the entry keyed on the same cell is removed, then
      the cell is freed. */
  method Drop(cx: Context, b: TracedBox)
    requires cx.Valid() && Live(cx, b)
    modifies cx`slots, cx`tracers
    ensures cx.Valid() && !Live(cx, b)
    ensures cx.tracers == old(cx.tracers) - {b.slot}
    ensures cx.slots == Removed(old(cx.slots), b.slot)
  {
    cx.RemoveRootsTracer(b.slot);
    cx.FreeSlot(b.slot);
  }

  /** `handle` and `handle_mut`: both designate the box's own cell. */
  function Handle(b: TracedBox): (a: SlotId)
    ensures a == b.slot
  {
    b.slot
  }

  /** `get`: the value currently in the box's cell, read through its handle. */
  function Get(cx: Context, b: TracedBox): (v: JSVal)
    reads cx
    requires cx.Valid() && Live(cx, b)
    ensures v == cx.slots[Handle(b)]
  {
    cx.slots[b.slot]
  }

  /** The tracer callback: given the data pointer it was registered with, it
      reports the current value of that cell and nothing else. */
  function TraceCallback(cx: Context, data: SlotId): (reported: JSVal)
    reads cx
    requires data in cx.slots
  {
    cx.slots[data]
  }

  /** One trace pass: every registered tracer runs once on its own cell. */
  function TracePass(cx: Context): (visited: map<SlotId, JSVal>)
    reads cx
    requires cx.Valid()
    ensures visited.Keys == cx.tracers
    ensures forall a :: a in visited ==> visited[a] == TraceCallback(cx, a)
  {
    map a | a in cx.tracers :: TraceCallback(cx, a)
  }

  /** `handle_mut` used by a runtime call that relocates the value: the write
      goes to the box's cell, and `get` then returns the new value. */
  method SetThroughHandle(cx: Context, b: TracedBox, v: JSVal)
    requires cx.Valid() && Live(cx, b)
    modifies cx`slots
    ensures cx.Valid() && Live(cx, b) && Get(cx, b) == v
    ensures cx.slots == old(cx.slots)[b.slot := v]
  {
    cx.slots := cx.slots[Handle(b) := v];
  }

  /** Creating a box and reading it gives back the value it was made with, and
      dropping it restores the registry. */
  method NewGetDrop(cx: Context, p: JSVal) returns (got: JSVal)
    requires cx.Valid()
    modifies cx`slots, cx`nextSlot, cx`tracers
    ensures cx.Valid() && got == p
    ensures cx.tracers == old(cx.tracers)
    ensures cx.slots == old(cx.slots)
  {
    var b := New(cx, p);
    got := Get(cx, b);
    Drop(cx, b);
  }

  predicate Distinct(bs: seq<TracedBox>)
  {
    forall k, m :: 0 <= k < m < |bs| ==> bs[k].slot != bs[m].slot
  }

  function SlotsOf(bs: seq<TracedBox>): set<SlotId>
  {
    set k | 0 <= k < |bs| :: bs[k].slot
  }

  lemma SlotsOfSnoc(bs: seq<TracedBox>, b: TracedBox)
    ensures SlotsOf(bs + [b]) == SlotsOf(bs) + {b.slot}
  {
    var l := bs + [b];
    assert l[|bs|] == b;
    assert forall k :: 0 <= k < |bs| ==> l[k] == bs[k];
  }

  /** N boxes over N values: N distinct cells, none registered before, each
      holding its value and each with its own registry entry. */
  method NewAll(cx: Context, ps: seq<JSVal>) returns (bs: seq<TracedBox>)
    requires cx.Valid()
    modifies cx`slots, cx`nextSlot, cx`tracers
    ensures cx.Valid()
    ensures |bs| == |ps| && Distinct(bs)
    ensures forall k :: 0 <= k < |bs| ==> bs[k].slot !in old(cx.tracers) && bs[k].slot in cx.slots
    ensures forall k :: 0 <= k < |bs| ==> cx.slots[bs[k].slot] == ps[k]
    ensures cx.tracers == old(cx.tracers) + SlotsOf(bs)
  {
    bs := [];
    while |bs| < |ps|
      invariant |bs| <= |ps| && cx.Valid() && Distinct(bs)
      invariant forall k :: 0 <= k < |bs| ==> bs[k].slot !in old(cx.tracers) && bs[k].slot in cx.slots
      invariant forall k :: 0 <= k < |bs| ==> cx.slots[bs[k].slot] == ps[k]
      invariant cx.tracers == old(cx.tracers) + SlotsOf(bs)
    {
      var b := New(cx, ps[|bs|]);
      SlotsOfSnoc(bs, b);
      bs := bs + [b];
    }
  }

  /** Dropping the boxes whose cells are `roots`, in any order: exactly
      their entries and their cells are gone. */
  method DropRoots(cx: Context, roots: set<SlotId>)
    requires cx.Valid() && roots <= cx.tracers
    modifies cx`slots, cx`tracers
    ensures cx.Valid()
    ensures cx.tracers == old(cx.tracers) - roots
    ensures cx.slots == RemovedAll(old(cx.slots), roots)
  {
    var left := roots;
    while left != {}
      invariant left <= roots && left <= cx.tracers && cx.Valid()
      invariant cx.tracers == old(cx.tracers) - (roots - left)
      invariant cx.slots == RemovedAll(old(cx.slots), roots - left)
      decreases left
    {
      var a :| a in left;
      Drop(cx, TracedBox(a));
      RemovedMore(old(cx.slots), roots - left, a);
      assert (roots - left) + {a} == roots - (left - {a});
      left := left - {a};
    }
  }

  /** Root lifecycle: a trace pass run after creating N boxes visits each of
      their cells once and reports the value it holds; after all are dropped
      the registry is what it was before. */
  method RootLifecycle(cx: Context, ps: seq<JSVal>) returns (bs: seq<TracedBox>, visited: map<SlotId, JSVal>)
    requires cx.Valid()
    modifies cx`slots, cx`nextSlot, cx`tracers
    ensures cx.Valid()
    ensures |bs| == |ps| && Distinct(bs)
    ensures visited.Keys == old(cx.tracers) + SlotsOf(bs)
    ensures forall k :: 0 <= k < |bs| ==> bs[k].slot !in old(cx.tracers) && visited[bs[k].slot] == ps[k]
    ensures cx.tracers == old(cx.tracers)
  {
    bs := NewAll(cx, ps);
    visited := TracePass(cx);
    DropRoots(cx, SlotsOf(bs));
  }
}
