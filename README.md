# debugger-prototype conversion layer, modelled in Dafny

This project models the core of the `debugger-prototype` crate. The crate is
a bridge between Rust and the SpiderMonkey JavaScript engine's `Debugger`
API. Its core is a conversion layer with two traits:

- `FromJSValue` decodes an engine value into a Rust value;
- `ToJSValue` encodes a Rust value into an engine value.

Around that layer the core has:

- `TracedBox`, a value kept alive by registering it with the garbage
  collector as a root;
- `Exception`, a captured pending exception;
- the property helpers of `utils.rs`, and the accessor macros built on them;
- the `call` class, whose objects own a boxed Rust closure;
- the name decoders and call adapters of frames, objects and environments.

The engine is not part of this model. It is replaced by the class
`JSApi.Context`, whose fields are the parts of the engine the bridge
touches:

- the object heap, with properties, elements, methods and a class;
- the private slots of objects, and the boxes they point to;
- the reference counts of the `Rc` closures in those boxes;
- the pending exception;
- the rooted cells (`slots`) and the set registered with the tracer
  (`tracers`).

`Context.Valid()` is the invariant that ties these together. Every engine
call that can fail takes its outcome from a failure schedule, `faults`. A
failure makes the engine's exception `thrown` pending. `Quiet(faults)` says
that no failure is scheduled. Most contracts end with two clauses:

- a quiet schedule stays quiet;
- under a quiet schedule, a decodable or small input succeeds.

A conversion's result is an `Outcome`:

- `Ok(x)` is success;
- `Err(e)` is a `Result::Err` carrying the captured exception;
- `Panic` stands for an `assert!`, an `unwrap` or a `panic!` in the crate.

The relations that say what a conversion means are stated once:

- `Conversions.Decodes` / `Conversions.Encodes` relate an engine value to a
  native one;
- `Decoding.Decoded` and `Encoding.Encoded` describe the state a decoding or
  an encoding leaves behind, including the roots it added and the reference
  counts it took;
- `Exceptions.Raised` is the state after an exception was captured;
- `Frames.Answered` is the state after a hook's reply was converted.

Every decoder is proved against `Decoded`, every encoder against
`Encoded`, and `Conversions.RoundTrip` connects the two.

## Model

| member | source | states |
|---|---|---|
| Scalars.DecodeUnit | src/convert.rs:15-20 | `()` decodes exactly from `undefined` |
| Scalars.DecodeBool | src/convert.rs:23-27 | a boolean decodes exactly from a boolean value, which it gives back |
| Scalars.DecodeI32 | src/convert.rs:29-39 | an int32 value gives its integer; a double gives an i32 exactly when it is an integral int32 value, equal to it; anything else fails |
| Scalars.I32RoundTrip | src/convert.rs:29-39 | every i32 comes back from its encoding |
| Scalars.I32Renormalises | src/convert.rs:29-39 | a double decodes as an i32 exactly when it is an integral int32, and then as its floor |
| Scalars.DecodeU32 | src/convert.rs:41-52 | an int32 value wraps modulo 2^32; a double is accepted exactly when it is an integer in 0..2^32-1, and gives that integer |
| Scalars.U32DecodeWraps | src/convert.rs:41-52 | int32 -1 decodes as 4294967295, while the double -1 is refused |
| Scalars.U32RoundTrip | src/convert.rs:41-52 | every u32 comes back from its encoding |
| Scalars.DecodeF64 | src/convert.rs:54-58 | any number decodes as a double equal to it, and nothing else decodes |
| Scalars.F64RoundTrip | src/convert.rs:54-58 | every double comes back from its encoding, which is an int32 exactly when the double is an integral int32 |
| Scalars.DecodeRawString | src/convert.rs:60-64 | a raw string decodes exactly from a string value, which it gives back |
| Scalars.DecodeRawObject | src/convert.rs:66-70 | a raw object decodes exactly from an object value, which it gives back |
| Scalars.StringRoundTrip | src/convert.rs:72-96 | a string read back from the engine's UTF-16 copy of it is the string itself |
| Scalars.NumberValue | src/convert.rs:150-155 | a double is written as an int32 exactly when it is an integral int32, and either way with the same numeric value |
| Scalars.EncodeU32 | src/convert.rs:140-148 | a u32 up to 2^31-1 is written as an int32, a larger one as a double; both keep the value |
| Scalars.EncodeU32Boundary | src/convert.rs:140-148 | 2^31-1 is the last u32 written as an int32 and 2^31 the first written as a double, and both come back |
| Scalars.WrapU32 | src/convert.rs:44 | the i32 to u32 cast keeps the value modulo 2^32 |
| Scalars.DecodeNull | src/convert.rs:209-221 | `Null` decodes exactly from `null` |
| Scalars.DecodeScalar | src/convert.rs:15-70 | a scalar decoded at a kind is of that kind |
| Scalars.EncodeScalar | src/convert.rs:119-171 | a scalar's encoding is an object, a string, null or undefined exactly when the scalar is a raw object, a raw string, `Null` or `()` |
| Scalars.ScalarRoundTrip | src/convert.rs:119-171 | every scalar comes back from its encoding at its own kind |
| Unicode.EncodeChar | src/convert.rs:173-180 | a character is one non-surrogate unit below U+10000 and a surrogate pair above |
| Unicode.Encode | src/convert.rs:173-180 | a string takes between one and two UTF-16 units per character |
| Unicode.DecodeLossy | src/convert.rs:72-96 | the lossy UTF-16 decoding never has more characters than units |
| Unicode.DecodeEncode | src/convert.rs:72-96 | decoding the UTF-16 encoding of any string gives the string back |
| Unicode.EncodeWellFormed | src/convert.rs:173-180 | the encoding of any string is well-formed UTF-16 |
| Unicode.EncodeDecode | src/convert.rs:72-96 | well-formed UTF-16 is re-encoded exactly from its decoding |
| Unicode.LoneSurrogateIsReplaced | src/convert.rs:86-92 | an unpaired surrogate decodes as U+FFFD and decoding goes on after it |
| Unicode.DecodeLatin1 | src/convert.rs:75-83 | a Latin-1 string has one character per byte, equal to it |
| Unicode.Latin1AgreesWithUtf16 | src/convert.rs:75-92 | decoding Latin-1 bytes and decoding the same values as UTF-16 agree |
| Unicode.NarrowEncode | src/convert.rs:173-180 | a string's encoding has only units below 256 exactly when the string has only characters below U+0100, and then one unit per character |
| Values.ValueRoots | src/value.rs:19-39 | a `Value` roots at most one cell, and one exactly when it is an object |
| Conversions.DecodeCallPtr | src/call.rs:30-36 | the pointer decodes exactly from a live object of the call class, and is its private slot when it has one |
| Conversions.Sentinels | src/convert.rs:223-275 | an encoding is `null` exactly when the native value is `Null`, a null `Value` or a `NullOr` holding `None` (possibly inside other `Some`s), and `undefined` exactly in the matching cases of `()`, `UndefinedOr` and an absent closure |
| Conversions.RoundTrip | src/convert.rs:223-275 | at every supported type, a native value decodes back from its encoding unless some `Some` inside it encodes to its own sentinel or a double is an integral int32 |
| Conversions.ValueRoundTrip | src/value.rs:19-53 | a `Value` comes back from its encoding, unless it is an integral double |
| Conversions.IntegralDoubleComesBackAsInt32 | src/value.rs:19-53 | an integral double is written as an int32 and comes back as `Int32`, not as the double |
| Conversions.NullOrOfNullCollapses | src/convert.rs:223-248 | `NullOr(Some(Null))` is written as `null`, which decodes as `None` and not as what was written |
| Conversions.DecodesExtend | src/trace.rs:66-79 | a decoding still holds after new roots are added |
| Conversions.EncodesFrame | src/convert.rs:182-205 | an encoding survives changes to the heap outside the objects it created |
| Conversions.ScalarValue | src/value.rs:19-39 | a non-object, non-string value decodes to a `Value` that is neither an object nor a string |
| Decoding.Decode | src/convert.rs:15-275 | decoding at any supported type leaves a `Decoded` state: the result decodes the input and owns exactly the new roots, or the exception is captured, or the input was not decodable; a decodable input under a quiet schedule succeeds |
| Decoding.ScalarDecoded | src/convert.rs:15-70 | a scalar decoding changes nothing and succeeds exactly when the value is decodable at that kind |
| Decoding.DecodeOr | src/convert.rs:223-266 | `NullOr`, `UndefinedOr` and `Option` of a closure give `None` on their sentinel and wrap the inner decoding otherwise |
| Decoding.OrDecoded | src/convert.rs:231-266 | away from the sentinel, the optional type is decodable exactly when its inner type is, and its decoding is the inner one wrapped in `Some` |
| Decoding.DecodeString | src/convert.rs:72-96 | a string value decodes as the lossy UTF-16 decoding of its characters, any other value panics, and only reading the characters can raise |
| Decoding.DecodeHandle | src/convert.rs:66-70 | an object decodes as a new root holding it, exactly when the value is an object; nothing can raise |
| Decoding.DecodeValue | src/value.rs:19-39 | a `Value` is decoded by the variant of the engine value; an object is rooted; a symbol panics |
| Decoding.StringAsValue | src/value.rs:33-35 | a string `Value` succeeds exactly when the string decoding does |
| Decoding.DecodeVec | src/convert.rs:98-113 | an array decodes to the vector of its elements' decodings, owning all their roots; a failed element gives back the roots taken so far |
| Decoding.DecodeItems | src/convert.rs:105-111 | the element loop decodes every index from 0 to the array's length |
| Decoding.DecodeNext | src/convert.rs:106-110 | one step of the element loop: the next element is read and decoded, or the exception is captured with no root left behind |
| Decoding.VecDone | src/convert.rs:111 | when every element is decoded, the vector is the decoding of the array |
| Decoding.Abandon | src/convert.rs:105-111 | dropping the roots of a partly built vector leaves the captured exception as the only trace of the decoding |
| Decoding.DecodeCall | src/call.rs:46-52 | a live call object decodes as a clone of the `Rc` in its box, adding one reference; any other value panics; nothing can raise |
| Decoding.CallDecoded | src/call.rs:46-52 | a call object with a box is decodable and decodes as the `Rc` of its box |
| Encoding.Encode | src/convert.rs:119-205 | encoding at any supported type leaves an `Encoded` state: existing objects are untouched, and either the output encodes the input out of new objects or the engine's exception is pending; under a quiet schedule a small input succeeds |
| Encoding.Wrap | src/convert.rs:160 | wrapping into the compartment succeeds exactly when no failure is scheduled, and keeps the encoding |
| Encoding.EncodeScalarTo | src/convert.rs:119-171 | scalars other than strings and objects are written without any engine call that can fail |
| Encoding.EncodeString | src/convert.rs:173-180 | a string is copied as UTF-16 and wrapped; exactly those two engine calls can fail |
| Encoding.EncodeHandle | src/convert.rs:165-171 | a live root is written as the object it holds |
| Encoding.EncodeValue | src/value.rs:41-53 | a `Value` is written by its variant |
| Encoding.EncodeOr | src/convert.rs:241-275 | `None` is written as the sentinel of its type, `Some(x)` as `x` |
| Encoding.OrEncoded | src/convert.rs:241-275 | an optional type's encoding of `Some(x)` is the inner encoding of `x` |
| Encoding.EncodeSlice | src/convert.rs:182-194 | a slice is written as a new array whose elements encode the slice's items in order |
| Encoding.BuildArray | src/convert.rs:184-193 | the array is created with the slice's length and then filled |
| Encoding.FillSlice | src/convert.rs:186-190 | the fill loop writes index 0 to the last in order and stops at the first failure |
| Encoding.EncodeElement | src/convert.rs:187-189 | one step of the fill loop: the item is encoded and stored at its index |
| Encoding.StoreElement | src/convert.rs:189 | storing an encoded item keeps every earlier element's encoding |
| Encoding.SliceEncoded | src/convert.rs:191-192 | an array filled to the end is the encoding of the slice |
| Encoding.EncodeCall | src/call.rs:54-58 | a closure is written as a new call object owning a new box with a clone of the `Rc` |
| Encoding.EncodeCallPtr | src/call.rs:38-44 | a box is written as a new call object whose private slot is that box |
| Encoding.NewCallObject | src/call.rs:40-41 | the new object is of the call class and holds the box |
| Completions.CompletionRoundTrip | src/value.rs:61-108 | with "return" as the key on both sides, every completion decodes back from its encoding |
| Completions.ReturnDoesNotRoundTrip | src/value.rs:67-95 | as written, an encoded `Return` has no "return" marker and decodes as nothing |
| Completions.ReturnReadFromResult | src/value.rs:67-72 | as written, an object marked "return" without "result" decodes only as a return of `undefined`, whatever "return" holds |
| Completions.ResumptionsDistinct | src/value.rs:112-119 | a resumption's encoding is `undefined`, `null` or an object exactly when it is `None`, `Terminate` or a value |
| Completions.EncodeHolder | src/value.rs:93-101 | a new plain object is created with one property, the given key holding the value |
| Completions.EncodeCompletion | src/value.rs:90-108 | a completion is written as `null`, or as a one-property holder under its key |
| Completions.EncodeResumption | src/value.rs:112-119 | `None` is written as `undefined`, anything else as its completion |
| Completions.Lift | src/value.rs:69-80 | the decoded property becomes a `Return` or a `Throw` as marked, with its value and its exception kept |
| Completions.DecodeMarked | src/value.rs:66-82 | the marked property is read and wrapped as the completion the markers select |
| Completions.DecodeCompletion | src/value.rs:61-88 | `null` is `Terminate`; an object is a `Return` or a `Throw` by its markers, and an object with both markers, or with neither, panics |
| Trace.New | src/trace.rs:66-79 | a fresh cell holding the value is added to the roots and registered with the tracer |
| Trace.Drop | src/trace.rs:86-96 | the cell is unregistered and freed; nothing else changes |
| Trace.Get | src/trace.rs:99-101 | reading a live box gives the value in its cell |
| Trace.TracePass | src/trace.rs:81-83 | a tracing pass visits exactly the registered cells, reporting each cell's value |
| Trace.SetThroughHandle | src/trace.rs:107-109 | writing through the mutable handle changes exactly that cell |
| Trace.NewGetDrop | src/trace.rs:66-101 | creating, reading and dropping a box gives back the value and leaves the roots as they were |
| Trace.NewAll | src/trace.rs:66-79 | rooting a sequence of values gives distinct new boxes, each holding its value |
| Trace.DropRoots | src/trace.rs:86-96 | dropping a set of boxes removes exactly their cells and registrations |
| Trace.RootLifecycle | src/trace.rs:66-96 | while boxes are alive the tracer visits each with its value; after they are dropped the registry is as before |
| Exceptions.FromPendingException | src/exception.rs:13-18 | an exception is captured exactly when one is pending; it is cleared and rooted in a new box |
| Exceptions.IntoPendingException | src/exception.rs:20-23 | the captured value becomes pending again, its box is dropped, and the call returns false |
| Exceptions.Raise | src/macros.rs:57-63 | after a failed engine call the pending exception is captured as an `Err`; with nothing pending it is a panic, which the model's engine, always raising on failure, never leaves |
| Exceptions.CaptureThenReinstall | src/exception.rs:13-23 | capturing and reinstalling gives back the pending exception, the roots and the registry |
| Utils.AsU32 | src/utils.rs:124 | the `usize as u32` cast keeps an index below 2^32 and wraps a larger one |
| Utils.HasProperty | src/utils.rs:77-81 | the answer is whether the object has the property; a name with a NUL panics |
| Utils.GetProperty | src/utils.rs:83-96 | the property's value, `undefined` when absent, is decoded at the requested type |
| Utils.SetProperty | src/utils.rs:98-113 | the value is encoded and stored under the name, leaving every other object alone; a failure leaves the object as it was with the exception pending |
| Utils.PutProperty | src/utils.rs:106-112 | storing an encoded value changes only that property of that object, and keeps the encoding |
| Utils.DefineProperty | src/utils.rs:59-75 | as intended: `true` only when the value was encoded and defined under the name, `false` with the exception pending otherwise |
| Utils.DefinePropertyAsWritten | src/utils.rs:59-75 | as written: a failed conversion returns `true` with the exception pending and nothing defined |
| Utils.DefineOfFailedConversion | src/utils.rs:66 | the as-written result of a failed conversion is `true`, the intended one `false` |
| Utils.GetElement | src/utils.rs:115-128 | the element at the index, cast to u32, is decoded at the requested type |
| Utils.PutElement | src/utils.rs:137-144 | storing an encoded element changes only that index of that object |
| Utils.SetElement | src/utils.rs:130-145 | the value is encoded and stored at the index cast to u32; a failure leaves the object as it was |
| Utils.CallMethod | src/utils.rs:147-162 | a missing method raises; a present one's result is decoded at the requested type |
| Macros.Getter | src/macros.rs:66-73 | the facade's property is decoded at the requested type; with no failure scheduled, a decodable property gives `Ok` |
| Macros.Setter | src/macros.rs:75-83 | the facade's property is set and roots are unchanged, the reference counts change only by the clones the value's encoding takes; a failed write is captured as an `Err` |
| Macros.ConvertArgument | src/macros.rs:101-104 | one argument is encoded and appended, keeping the earlier arguments' encodings |
| Macros.ConvertArguments | src/macros.rs:100-105 | arguments are encoded left to right; the first failure stops the loop with the exception pending |
| Macros.MethodCall | src/macros.rs:85-113 | no call is made unless every argument converted; the call's result is decoded |
| PropertyMaps.EncodeMap | src/convert.rs:196-205 | a map is written as a new plain object whose properties are exactly its keys, each encoding its value |
| PropertyMaps.BuildMap | src/convert.rs:198-203 | the object is created empty and then filled |
| PropertyMaps.FillMap | src/convert.rs:199-201 | the fill loop defines every entry and stops at the first failure or bad name |
| PropertyMaps.FillStep | src/convert.rs:200 | one step of the fill loop defines the next entry |
| PropertyMaps.DefineEntry | src/convert.rs:200 | defining an entry keeps every earlier entry's encoding |
| PropertyMaps.MapOfFailedConversion | src/convert.rs:198-203 | as written, the map {"a": "s"} whose string cannot be copied encodes with result `true`, the exception pending and "a" not defined |
| PropertyMaps.MapReadsBack | src/convert.rs:196-205 | reading each key back from the encoded object gives back its value |
| PropertyMaps.MapOrderIrrelevant | src/convert.rs:196-205 | any ordering of the same entries has the same encoding |
| Objects.Fields | src/object.rs:13-20 | a descriptor has six optional fields, each of its field's type |
| Objects.FromFields | src/object.rs:25-56 | a descriptor rebuilt from six decoded fields has those fields |
| Objects.DecodeDescriptor | src/object.rs:22-58 | each of the six fields is `None` when absent and its decoding when present; a failed field gives back the roots taken |
| Objects.DecodeField | src/object.rs:26-30 | one field is absent, or read and decoded |
| Objects.ReadField | src/object.rs:27 | a present field is decoded at its type |
| Objects.RootsPrefix | src/object.rs:25-56 | the roots of the fields decoded so far are the union of their roots |
| Objects.EncodeDescriptor | src/object.rs:60-83 | a descriptor is written as a new object holding exactly its present fields, each encoding its value |
| Objects.EntriesEncodeDescriptor | src/object.rs:63-80 | the sequence of defined entries gives the descriptor's encoding |
| Objects.FieldEncodedAt | src/object.rs:63-80 | a field is a property of the encoding exactly when it is present, and then encodes it |
| Objects.PresentListed | src/object.rs:63-80 | every present field is defined |
| Objects.DescriptorRoundTrip | src/object.rs:22-83 | a descriptor comes back from its encoding |
| Objects.PromiseStateNames | src/object.rs:91-105 | a name maps to a promise state exactly when it is that state's name |
| Objects.DecodePromiseState | src/object.rs:91-105 | a string naming a promise state decodes to it; another string or a non-string panics |
| Environments.EnvironmentTypeNames | src/environment.rs:17-31 | a name maps to an environment type exactly when it is that type's name |
| Environments.DecodeEnvironmentType | src/environment.rs:17-31 | a string naming an environment type decodes to it; another string or a non-string panics |
| Environments.OptimizedOutFlag | src/environment.rs:45-48 | the object's "optimizedOut" is read as a boolean, which a non-boolean fails |
| Environments.SomeValue | src/environment.rs:50 | a decoded value is wrapped in `Some`, an exception kept |
| Environments.DecodeVariable | src/environment.rs:50 | a value not optimized out is decoded as a `Value` |
| Environments.DecodeOptimizedOut | src/environment.rs:41-52 | an object whose "optimizedOut" is true gives `None`; anything else decodes as a `Value` |
| Names.DecodeName | src/frame.rs:59-75 | a string found in the name table decodes to its entry; another string or a non-string panics |
| Frames.FrameTypeNames | src/frame.rs:59-75 | a name maps to a frame type exactly when it is that type's name |
| Frames.DecodeFrameType | src/frame.rs:59-75 | a string naming a frame type decodes to it; another string or a non-string panics |
| Frames.FrameImplementationNames | src/frame.rs:83-97 | a name maps to a frame implementation exactly when it is its name |
| Frames.DecodeFrameImplementation | src/frame.rs:83-97 | a string naming a frame implementation decodes to it; another string or a non-string panics |
| Frames.Respond | src/frame.rs:32-33 | a resumption is written to the output slot; an exception becomes pending and the call returns false; the reply's roots are dropped. A return goes under `key`: at `AsWrittenKey` this is the code as written, at `ReturnKey` the intended one. |
| Frames.Finish | src/frame.rs:31-34 | after the reply, the adapter's temporary roots are dropped too, leaving an `Answered` state at the same `key` |
| Frames.Concluded | src/frame.rs:31-34 | dropping the reply's roots and then the temporaries leaves the registry and the outside roots as before the call |
| Frames.OnPop | src/frame.rs:24-35 | the hook receives a facade rooting argument 0 and the decoding of argument 1 as a completion, each unwrapped, and the reply is converted; an argument that does not decode panics, and a panic means an argument did not decode or the engine failed. A return is read from and written to `key`: at `AsWrittenKey` this is the code as written, at `ReturnKey` the intended one |
| Frames.PopWithFrame | src/frame.rs:30-34 | with the frame rooted, the hook receives argument 1 decoded as a completion at `key`, and the reply is converted; an undecodable completion panics |
| Frames.OnStep | src/frame.rs:42-50 | the hook receives a facade rooting argument 0, whose decoding panics exactly when it is not an object, and the reply is converted at `key` |
| Calls.HandlerOf | src/call.rs:24-28 | the hook a call object reaches is the one its box's `Rc` holds |
| Calls.PrivateIsCallable | src/call.rs:97-101 | every object with a private slot reaches a live hook |
| Calls.Invoke | src/call.rs:97-101 | calling a call object runs its hook's adapter at `key` and returns what it returns |
| Calls.Finalize | src/call.rs:103-105 | the box is freed and the private slot forgotten; one reference of the `Rc` is dropped, and the last frees it |
| Calls.ClosureLifecycle | src/call.rs:54-105 | encoding a closure and finalizing the object leaves the counts, boxes and private slots as they were |

## Left out

- Floating point: doubles are modelled as mathematical reals, so NaN, infinities and negative zero are absent; `NumberValue` and `DoubleIsInt32` state the int32 test on reals.
- `new_global_object` in src/utils.rs and the bootstrap of the `Debugger` object are not part of this model.
- `JSAutoCompartment` has no effect, since the model has a single compartment; `JS_WrapValue` is an identity that may fail.
- The facade accessors generated for `Frame`, `Environment`, `Object`, `Script` and `Debugger`, and the adapters of src/debugger.rs and src/script.rs, are not part of this model; the macros that generate them are modelled once, in `Macros`.
- The garbage collector beyond the root registry: collection, moving and compaction are not modelled; `Trace.TracePass` is one tracing pass.
- The `Box<dyn Call>` type pun of src/call.rs:49, which reads a `Box<Call>` as a `Box<T>`, is modelled as reading the `Rc` the box holds.
- Reentrancy: a hook that calls back into the engine is not modelled.
- The user hooks' own behaviour: a hook's reply is a parameter of `Frames.OnPop`, `Frames.OnStep` and `Calls.Invoke`, made of roots live when the call begins.
- The engine's failures are a schedule, `faults`, given with the context; when and why the real engine fails is not modelled.
- Calls.Finalize: requires `CountCovers`, that a count of 1 belongs only to this box; Rust's `Rc` keeps that by construction.
- Macros.MethodCall: converts only arguments free of closures; maps and descriptors are not argument types.
- The state after a `Panic` is left unspecified beyond `Valid()`, since a panic unwinds out of the bridge.
- Encoding.EncodeCallPtr: the box is not freed when creating the object fails, as written.
- Environments.DecodeOptimizedOut: the result of the `has_property` call at src/environment.rs:45 is ignored, as written; an absent "optimizedOut" reads as `undefined` and panics.
- The `Debug` implementations are not modelled.
- The bodies of script methods are not modelled: an object's methods map each name to the value a call returns.
- Utils.AsU32: the `usize` index is an unbounded natural, cast to u32 explicitly.
- Property names and attributes: the engine's object model is simplified in four ways, in `JSApi` (`HasProperty`, `PropertyOf`, `ElementOf`, `WithElement`) and so in `Utils` and `PropertyMaps.MapEncodes`. (1) A name passed through `CString::new` (src/utils.rs:69, 79, 92, 109, 157) is taken as the same string, whereas the engine reads its bytes as Latin-1, so a key with a character at or above U+0080 names another property. (2) Only an object's own properties are seen; the prototype chain that `JS_HasProperty` and `JS_GetProperty` search is not modelled. (3) The attributes 0 of src/utils.rs:71 are not modelled, so a defined property can later be overwritten. (4) Elements and properties are separate maps, whereas element 0 and property "0" are one slot in the engine.
- PropertyMaps.EncodeMap: built on the intended `define_property` (`Utils.DefineProperty`), so a failed conversion of a value returns `Some(false)`; as written (src/utils.rs:66) the encoding goes on and returns `true` without that key, as `PropertyMaps.MapOfFailedConversion` shows.
- PropertyMaps.EncodeMap: maps with descriptor values (the `BTreeMap<String, PropertyDescriptor>` of src/object.rs:174) are not modelled; `Ty` has no descriptor type.
- PropertyMaps.BuildMap: built on the intended `define_property`, as `PropertyMaps.EncodeMap`.
- PropertyMaps.FillMap: built on the intended `define_property`; as written the loop would not stop at a failed conversion.
- PropertyMaps.FillStep: built on the intended `define_property`, as `PropertyMaps.FillMap`.
- PropertyMaps.DefineEntry: calls `Utils.DefineProperty`, the intended `define_property`, not `Utils.DefinePropertyAsWritten`.
- Objects.EncodeDescriptor: built on the intended `define_property` (src/object.rs:63-80 calls it as written), so a failed conversion of a field returns `Some(false)`.
- Completions.DefineOnEmpty: calls `Utils.DefineProperty`, the intended `define_property`; as written (src/value.rs:95, 100) a failed conversion of the value returns `true` with the holder empty.
- Completions.EncodeHolder: built on the intended `define_property`, as `Completions.DefineOnEmpty`.
- Completions.EncodeCompletion: built on the intended `define_property`, as `Completions.DefineOnEmpty`.
- Completions.EncodeResumption: built on the intended `define_property`, as `Completions.DefineOnEmpty`.
- Frames.Respond: writes a resumption through `Completions.EncodeResumption`, built on the intended `define_property`.
- Frames.Finish: built on `Frames.Respond`, with the intended `define_property`.
- Frames.OnPop: built on `Frames.Respond`, with the intended `define_property`.
- Frames.PopWithFrame: built on `Frames.Respond`, with the intended `define_property`.
- Frames.OnStep: built on `Frames.Respond`, with the intended `define_property`.
- Calls.Invoke: built on `Frames.OnPop` and `Frames.OnStep`, with the intended `define_property`.
- Trace.New: registration with the tracer cannot fail; the `assert!` around `JS_AddExtraGCRootsTracer` at src/trace.rs:72-76 is not modelled.

## Findings

| source | as written | input that shows it | evidently intended | confidence | as-written member | corrected member |
|---|---|---|---|---|---|---|
| src/value.rs:95 | `Return(v)` is encoded under "result", but decoding tests for a "return" property (line 67) and then reads "result" (line 72) | `CompletionValue::Return(Value::Undefined)`: its encoding has only "result", so decoding asserts "throw" and panics | encoder and decoder agree on one key, "return" | not executed | Completions.ReturnDoesNotRoundTrip | Completions.CompletionRoundTrip |
| src/utils.rs:66 | `!value.to_js_value(..) \|\| JS_DefineProperty(..)` returns `true` when the conversion fails | defining a string property when copying the string fails: the exception is pending, nothing is defined, and `true` is returned | a failed conversion returns `false` | not executed | Utils.DefineOfFailedConversion | Utils.DefineProperty |
| src/value.rs:72 | a return's value is read from "result" after the object was found to hold "return" (line 67) | an object `{return: 5}`: it decodes as `Return(Value::Undefined)`, the 5 being ignored | the value is read from "return", the property tested | not executed | Completions.ReturnReadFromResult | Completions.CompletionRoundTrip |
| src/convert.rs:200 | the map encoder relies on `define_property` (src/utils.rs:66), which returns `true` when a value's conversion fails | the map {"a": "s"} when copying "s" fails: the encoding returns `true`, the exception is pending and "a" is missing | the encoding returns `false` | not executed | PropertyMaps.MapOfFailedConversion | PropertyMaps.EncodeMap |
