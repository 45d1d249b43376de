/** The string-to-enum decoders of src/object.rs, src/frame.rs and
    src/environment.rs share one shape: `String::from_js_value`, then a match
    against the variants' names, where any other string is a `panic!`. Here
    the match is the `table` each decoder passes. */
module Names {
  import opened JSApi
  import opened Trace
  import opened Scalars
  import opened Exceptions
  import opened Conversions
  import opened Decoding

  /** `String::from_js_value(cx, v).map(...)` with the name table `table`. */
  method DecodeName<T>(cx: Context, v: JSVal, table: string -> Option<T>) returns (r: Outcome<T>)
    requires cx.Valid()
    modifies cx`faults, cx`pending, cx`slots, cx`nextSlot, cx`tracers
    ensures cx.Valid() && SlotsGrow(old(cx.slots), cx.slots)
    ensures r.Ok? ==>
      v.Str? && table(CharsToString(v.s)) == Some(r.value) &&
      cx.pending == old(cx.pending) && cx.tracers == old(cx.tracers)
    ensures r.Err? ==> v.Str? && Raised(cx, old(cx.slots), old(cx.tracers), r.exc)
    ensures r.Panic? ==> !v.Str? || table(CharsToString(v.s)).None?
    ensures Quiet(old(cx.faults)) ==> Quiet(cx.faults)
    ensures Quiet(old(cx.faults)) && v.Str? && table(CharsToString(v.s)).Some? ==> r.Ok?
  {
    var s := DecodeString(cx, v);
    match s
    case Ok(n) =>
      assert n == NString(CharsToString(v.s));
      var t := table(n.s);
      r := if t.Some? then Ok(t.value) else Panic;
    case Err(e) =>
      r := Err(e);
    case Panic =>
      r := Panic;
  }
}
