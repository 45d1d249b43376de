/** The native values of src/value.rs and src/object.rs that the bridge
    builds from engine values. An `Object` (and every other facade built with
    `derive_convert!` and `derive_rooted!`: `Frame`, `Environment`, `Script`,
    ...) is represented by the `TracedBox` it wraps; its accessors are the box's
    own (`Trace.Get`, `Trace.Handle`). */
module Values {
  import JSApi
  import opened Trace

  /** `value::Value`. */
  datatype Value =
    | Undefined
    | Boolean(b: bool)
    | Int32(i: JSApi.i32)
    | Double(d: real)
    | String(s: string)
    | Object(root: TracedBox)
    | Null

  /** `value::CompletionValue`: how a frame finished. */
  datatype CompletionValue =
    | Return(value: Value)
    | Throw(value: Value)
    | Terminate

  /** `value::ResumptionValue`: `None` lets the frame go on unchanged. */
  type ResumptionValue = JSApi.Option<CompletionValue>

  /** `object::PropertyDescriptor`: each field is present or absent. */
  datatype PropertyDescriptor = PropertyDescriptor(
    configurable: JSApi.Option<bool>,
    enumerable: JSApi.Option<bool>,
    writable: JSApi.Option<bool>,
    value: JSApi.Option<Value>,
    getter: JSApi.Option<Value>,
    setter: JSApi.Option<Value>)

  /** The cell a value keeps alive, if any. */
  function ValueRoots(v: Value): (roots: set<JSApi.SlotId>)
    ensures |roots| <= 1
    ensures roots != {} <==> v.Object?
  {
    if v.Object? then {v.root.slot} else {}
  }
}
