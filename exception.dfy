/** `Exception` (src/exception.rs): a pending engine exception captured into a
    native value, held in its own `TracedBox`; and the result type every
    fallible bridge operation returns. */
module Exceptions {
  import opened JSApi
  import opened Trace

  datatype Exception = Exception(root: TracedBox)

  /** `Result<T>` of the bridge, plus `Panic` for the fatal path: an
      `assert!`, a `panic!` or an `unwrap` that fails. A panic ends the process,
      so nothing is said about the state after it. */
  datatype Outcome<+T> = Ok(value: T) | Err(exc: Exception) | Panic

  /** `Exception::from_pending_exception`: requires a pending exception (its
      absence is a fatal assertion, `None` here); clears the slot and roots the
      value that was pending in a fresh box. */
  method FromPendingException(cx: Context) returns (e: Option<Exception>)
    requires cx.Valid()
    modifies cx`pending, cx`slots, cx`nextSlot, cx`tracers
    ensures cx.Valid()
    ensures e.Some? <==> old(cx.pending).Some?
    ensures e.None? ==> cx.pending == old(cx.pending) && cx.slots == old(cx.slots) && cx.tracers == old(cx.tracers)
    ensures e.Some? ==> cx.pending == None && Live(cx, e.value.root)
    ensures e.Some? ==> e.value.root.slot !in old(cx.slots)
    ensures e.Some? ==> cx.slots == old(cx.slots)[e.value.root.slot := old(cx.pending).value]
    ensures e.Some? ==> cx.tracers == old(cx.tracers) + {e.value.root.slot}
  {
    if cx.pending.None? {
      return None;
    }
    var v := cx.pending.value;
    cx.ClearPendingException();
    var b := New(cx, v);
    e := Some(Exception(b));
  }

  /** `Exception::into_pending_exception`: installs the held value as the
      pending exception and reports failure (`false`). It consumes the
      exception, so its box is dropped and its registry entry removed. */
  method IntoPendingException(cx: Context, e: Exception) returns (r: bool)
    requires cx.Valid() && Live(cx, e.root)
    modifies cx`pending, cx`slots, cx`tracers
    ensures cx.Valid() && !r
    ensures cx.pending == Some(old(cx.slots)[e.root.slot])
    ensures cx.tracers == old(cx.tracers) - {e.root.slot}
    ensures cx.slots == Removed(old(cx.slots), e.root.slot)
  {
    cx.SetPendingException(Get(cx, e.root));
    Drop(cx, e.root);
    r := false;
  }

  /** The early return of the two-argument `try_jsapi!` (src/macros.rs): the
      failed call left an exception pending, which becomes the `Err`; with no
      exception pending the capture's assertion fails. Every engine call of
      the model that fails makes `thrown` pending, so no caller reaches that
      panic: `Macros.Setter`, for one, panics only on a bad name. */
  method Raise<T>(cx: Context) returns (r: Outcome<T>)
    requires cx.Valid()
    modifies cx`pending, cx`slots, cx`nextSlot, cx`tracers
    ensures cx.Valid()
    ensures r.Ok? == false
    ensures r.Err? <==> old(cx.pending).Some?
    ensures r.Err? ==> cx.pending == None && Live(cx, r.exc.root) && r.exc.root.slot !in old(cx.slots)
    ensures r.Err? ==> cx.slots == old(cx.slots)[r.exc.root.slot := old(cx.pending).value]
    ensures r.Err? ==> cx.tracers == old(cx.tracers) + {r.exc.root.slot}
  {
    var e := FromPendingException(cx);
    r := if e.Some? then Err(e.value) else Panic;
  }

  /** Capturing the pending exception and reinstalling it restores the slot
      to what it was, and leaves the registry as it was. */
  method CaptureThenReinstall(cx: Context) returns (captured: bool)
    requires cx.Valid()
    modifies cx`pending, cx`slots, cx`nextSlot, cx`tracers
    ensures cx.Valid()
    ensures captured <==> old(cx.pending).Some?
    ensures cx.pending == old(cx.pending)
    ensures cx.tracers == old(cx.tracers) && cx.slots == old(cx.slots)
  {
    var e := FromPendingException(cx);
    captured := e.Some?;
    if captured {
      assert cx.pending == None;
      ghost var slots1 := cx.slots;
      var r := IntoPendingException(cx, e.value);
      assert cx.slots == old(cx.slots) by {
        assert forall a :: a in cx.slots <==> a in old(cx.slots);
        assert forall a :: a in cx.slots ==> cx.slots[a] == slots1[a] == old(cx.slots)[a];
      }
    }
  }

  /** After a failure has been turned into `Err(e)`: the pending slot is
      clear, and `e` owns a cell that did not exist before, holding what the
      engine threw; it is the only new registry entry. */
  ghost predicate Raised(cx: Context, oldSlots: map<SlotId, JSVal>, oldTracers: set<SlotId>, e: Exception)
    reads cx`pending, cx`slots, cx`thrown, cx`tracers
  {
    cx.pending == None && e.root.slot !in oldSlots && e.root.slot in cx.slots &&
    cx.slots[e.root.slot] == cx.thrown && cx.tracers == oldTracers + {e.root.slot}
  }

  /** Cells are only added: every old cell is still there, unchanged. */
  ghost predicate SlotsGrow(oldSlots: map<SlotId, JSVal>, slots: map<SlotId, JSVal>)
  {
    forall a :: a in oldSlots ==> a in slots && slots[a] == oldSlots[a]
  }
}
