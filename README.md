# DQMNet signal registry and buffer views, in Dafny

This project models the two in-process building blocks of dqm4hep-net's
`DQMNet.h`.

- **`Signal<Args...>`** (module `Signals`, file `signals.dfy`) is a signal/slot
  registry. It keeps an ordered vector of callback adapters (`SignalT<T, Args...>`).
  Each adapter binds a receiver object of class `T` to one of its member
  functions. The model is a class `Signal<A>` whose field `callbacks: seq<Adapter>`
  stands for `m_callbacks`. An adapter is the record `Adapter(receiverClass, receiver, callback)`.
  Here `receiverClass` is the class `T`, `receiver` is the object pointer and
  `callback` is the pointer-to-member. `SignalT::getClass()` and `getFunction()`
  are the record's `receiver` and `callback` fields.
  - The `dynamic_cast<SignalT<T, Args...>*>` in every lookup succeeds only for an
    adapter built for the same class `T`. So an adapter matches a receiver when
    the class tag and the pointer both agree (`Matches`).
  - The duplicate check in `connect` compares class and pointer. It does not look
    at the method. An object passed as a `T*` for two different `T`s counts as two receivers.
  - `process` does not run real callbacks. It returns the trace of calls it makes,
    `seq<Call<A>>`, one `Call(adapter, args)` per invocation.
  - `Signal<void>` (DQMNet.h:401-430 and 576-703) has the same code as the variadic
    template. It is the instance `Signal<()>` of the same class.
  - The source writes the lookup loop four times: in `isConnected(p)`,
    `isConnected(p, f)`, `disconnect(p)` and `disconnect(p, f)`. The model writes
    it once, as `Signal.Find(target)`, where `target` is `ByReceiver(T, p)` or
    `ByMethod(T, p, f)`. The two disconnects share one erase step, `Signal.Erase`.
  - `Signal.Valid()` is the registry invariant `Unique`: no two adapters have the
    same class and pointer. `connect` is the only insertion point and checks
    first, so every operation keeps the invariant.
- **`Buffer`** and its models (module `Buffers`, file `buffers.dfy`) are
  zero-copy byte views.
  - Memory is abstract. A pointer `Ptr(region, offset)` lies in one of four
    regions: nullptr, the static `NullBuffer::buffer`, caller-owned memory, or the
    storage inside a model object. `p + n` moves the offset.
  - `RawBuffer` is a class with the pointer and size fields that `adopt` overwrites.
  - `BufferModel` owns a `RawBuffer`.
  - The C++ subclasses `BufferModelT<std::string>` and `BufferModelT<T>` are the
    classes `TextBufferModel` and `ValueBufferModel<T>`. Each holds its
    `BufferModel` base subobject in the constant field `base`.
  - A `std::string` is a sequence of C++ `char` units, one byte each, and its
    `size()` counts bytes. So `TextBufferModel` stores a `seq<bv8>`, and its view
    length is the byte count.
  - `Buffer` holds a nullable `model` (the `shared_ptr`). Its `begin`/`end`/`size`
    read that model's view.
  - Two `Buffer`s may share one model. The client method
    `Buffers.ExampleSharedTextModel` shows that a `Buffer` sees a later `copy`
    into its shared string model.

`Signals.ExampleSession` is a client of the registry. It connects one object,
refuses a second connect with another method, and disconnects twice, the second
time without effect. It checks every result against the contracts alone.

## Model

| member | source | states |
|---|---|---|
| `Signals.Matches` | source/include/dqm4hep/DQMNet.h:474-479 | The cast-and-compare test of the lookup loops (also :498-503, :533-538, :553-558): an adapter matches exactly when its class tag and pointer equal the target's, and, for a lookup by method, its method too |
| `Signals.FirstMatch` | source/include/dqm4hep/DQMNet.h:472-485 | The lookup's stopping point: no adapter before it matches, the one at it matches, and it is inside the vector exactly when a matching adapter exists |
| `Signals.RemoveAt` | source/include/dqm4hep/DQMNet.h:482 | `vector::erase`: one element shorter; elements before the position keep their index, later ones move down by one; the multiset loses exactly the erased adapter |
| `Signals.Signal.Find` | source/include/dqm4hep/DQMNet.h:531-542 | The iterator loop returns the position of the first adapter whose class and pointer (and method, for `ByMethod`) match, or the vector's length when none does |
| `Signals.Signal.IsConnected` | source/include/dqm4hep/DQMNet.h:527-543 | `isConnected(p)` is true iff some adapter has receiver class `T` and pointer `p` |
| `Signals.Signal.IsConnectedWith` | source/include/dqm4hep/DQMNet.h:547-563 | `isConnected(p, f)` is true iff some adapter has class `T`, pointer `p` and method `f` |
| `Signals.Signal.HasConnection` | source/include/dqm4hep/DQMNet.h:567-571 | `hasConnection()` holds exactly when some receiver is connected |
| `Signals.Signal.constructor` | source/include/dqm4hep/DQMNet.h:394-395 | A new signal has no adapters and satisfies the uniqueness invariant |
| `Signals.Signal.Connect` | source/include/dqm4hep/DQMNet.h:452-464 | `connect(p, f)` returns false and leaves the vector unchanged when `p` is already connected, whatever `f` is; otherwise it returns true and appends exactly `(T, p, f)` at the end. Afterwards `isConnected(p)` holds, and after a success `isConnected(p, f)` too. Uniqueness is preserved |
| `Signals.Signal.Erase` | source/include/dqm4hep/DQMNet.h:481-483 | The erase step shared by both disconnects (also :505-507): returns true iff a matching adapter existed, then the vector is the old one with its first match erased; otherwise it is unchanged; uniqueness is preserved |
| `Signals.Signal.Disconnect` | source/include/dqm4hep/DQMNet.h:468-488 | `disconnect(p)` returns true iff `p` was connected; it then erases exactly the first matching adapter, keeps the order of the others, and `p` is no longer connected; otherwise nothing changes |
| `Signals.Signal.DisconnectWith` | source/include/dqm4hep/DQMNet.h:492-512 | `disconnect(p, f)` erases the first adapter matching class, pointer and method, and returns true iff one existed; otherwise the vector is unchanged |
| `Signals.Signal.DisconnectAll` | source/include/dqm4hep/DQMNet.h:516-523 | `disconnectAll()` empties the vector, so `hasConnection()` is false |
| `Signals.Signal.Process` | source/include/dqm4hep/DQMNet.h:443-448 | `process(args)` makes one call per adapter, in vector order, each with the same `args`, and changes nothing in the signal |
| `Signals.Fanout` | source/include/dqm4hep/DQMNet.h:446-447 | The reference definition of the `process` loop: one call per adapter, so the fan-out is exactly as long as the vector |
| `Signals.FanoutAt` | source/include/dqm4hep/DQMNet.h:718-722 | The k-th call of the fan-out invokes the k-th adapter's receiver and method with the given arguments |
| `Signals.FanoutAppend` | source/include/dqm4hep/DQMNet.h:461 | After a successful connect, `process` makes the previous calls in the previous order, then calls the new receiver last |
| `Signals.FanoutRemoveAt` | source/include/dqm4hep/DQMNet.h:482 | After an erase, `process` makes the previous calls minus exactly the erased adapter's call, in the previous order |
| `Signals.AppendKeepsUnique` | source/include/dqm4hep/DQMNet.h:457-461 | Appending an adapter for a receiver that `isConnected` reported absent keeps one adapter per receiver identity |
| `Signals.RemoveAtKeepsUnique` | source/include/dqm4hep/DQMNet.h:481-482 | Erasing any adapter keeps one adapter per receiver identity |
| `Signals.RemoveFirstMatchDisconnects` | source/include/dqm4hep/DQMNet.h:470-488 | Under the uniqueness invariant, erasing the first adapter of `p` leaves `p` not connected at all |
| `Signals.DisconnectUndoesConnect` | source/include/dqm4hep/DQMNet.h:454-488 | `disconnect(p)` right after a successful `connect(p, f)` finds the new adapter at the end and restores the vector exactly |
| `Signals.ConnectedWithMethod` | source/include/dqm4hep/DQMNet.h:547-563 | Under the uniqueness invariant, `isConnected(p, f)` holds iff `p` is connected and its one adapter carries method `f` |
| `Buffers.RawBuffer.constructor` | source/include/dqm4hep/DQMNet.h:57 | A new raw buffer views nullptr with size 0 |
| `Buffers.RawBuffer.Begin` | source/include/dqm4hep/DQMNet.h:64 | `begin()` is the point `size` bytes before `end()` |
| `Buffers.RawBuffer.Size` | source/include/dqm4hep/DQMNet.h:66 | `size()` is the number of bytes from the view's start to `end()` |
| `Buffers.RawBuffer.End` | source/include/dqm4hep/DQMNet.h:65 | `end()` lies in the same region as the view's start, exactly `size` bytes further |
| `Buffers.RawBuffer.Adopt` | source/include/dqm4hep/DQMNet.h:67 | After `adopt(ptr, n)`, `begin() == ptr`, `size() == n` and `end() == ptr + n` |
| `Buffers.BufferModel.constructor` | source/include/dqm4hep/DQMNet.h:77 | A new model owns a fresh raw buffer viewing nullptr with size 0 |
| `Buffers.BufferModel.Handle` | source/include/dqm4hep/DQMNet.h:81 | `handle(ptr, n)` points the model's view at caller memory `[ptr, ptr + n)` |
| `Buffers.TextBufferModel.constructor` | source/include/dqm4hep/DQMNet.h:105 | The string model starts holding the NullBuffer bytes and views exactly them, from the start of its own storage |
| `Buffers.TextBufferModel.Copy` | source/include/dqm4hep/DQMNet.h:107 | `copy(s)` stores `s`; the view starts at the model's storage and its length is the string's content length, so the viewed bytes are exactly `s` with no terminator |
| `Buffers.TextBufferModel.Move` | source/include/dqm4hep/DQMNet.h:109 | `move(s)` leaves the model holding and viewing exactly `s`, like `copy` |
| `Buffers.ValueBufferModel.constructor` | source/include/dqm4hep/DQMNet.h:91 | The typed model views its own stored value, `sizeof(T)` bytes long |
| `Buffers.ValueBufferModel.Copy` | source/include/dqm4hep/DQMNet.h:93 | `copy(v)` stores `v` and views the model's storage with length `sizeof(T)` |
| `Buffers.ValueBufferModel.Move` | source/include/dqm4hep/DQMNet.h:95 | `move(v)` stores `v` and views the model's storage with length `sizeof(T)` |
| `Buffers.Buffer.constructor` | source/include/dqm4hep/DQMNet.h:121-124 | `Buffer()` holds a fresh model whose view is the NullBuffer sentinel: `begin()` is `NullBuffer::buffer` and `size()` is `NullBuffer::size` |
| `Buffers.Buffer.CreateModel` | source/include/dqm4hep/DQMNet.h:132-135 | `createModel()` returns a fresh model with a null, empty view |
| `Buffers.Buffer.CreateTextModel` | source/include/dqm4hep/DQMNet.h:126-130 | `createModel<std::string>()` returns a fresh string model holding and viewing the NullBuffer bytes |
| `Buffers.Buffer.CreateValueModel` | source/include/dqm4hep/DQMNet.h:126-130 | `createModel<T>()` returns a fresh typed model viewing its value with length `sizeof(T)` |
| `Buffers.Buffer.SetModel` | source/include/dqm4hep/DQMNet.h:137-143 | `setModel(null)` keeps the current model; any other model replaces it |
| `Buffers.Buffer.Begin` | source/include/dqm4hep/DQMNet.h:145-148 | `begin()` is the current model's view start, which lies `size()` bytes before that view's end |
| `Buffers.Buffer.Size` | source/include/dqm4hep/DQMNet.h:155-158 | `size()` is the current model's view length, the distance from its begin to its end |
| `Buffers.Buffer.End` | source/include/dqm4hep/DQMNet.h:150-153 | `end()` of a buffer lies in its view's region, exactly `size()` bytes after `begin()` |
| `Buffers.Buffer.Adopt` | source/include/dqm4hep/DQMNet.h:160-165 | `adopt(ptr, n)` installs a fresh model with `begin() == ptr`, `size() == n` and `end() == begin() + size()` |

## Left out

- Signals.Signal.Process assumes every callback returns normally. The source loop has no try/catch: a callback that throws ends `process()` after the calls made so far, and the exception reaches the caller. The model always makes all `|callbacks|` calls.
- Real callback invocation (`(m_pClass->*m_function)(args...)`, DQMNet.h:721) is not modelled: C++ member-function dispatch cannot be expressed. `Signal.Process` returns the calls instead.
- `dynamic_cast` is replaced by comparing an explicit class tag. Classes, pointers and pointer-to-members are natural numbers.
- `new`/`delete` of adapters and the `~Signal()` destructor are not modelled: the vector holds adapter values. The destructor's `disconnectAll()` is `Signal.DisconnectAll`.
- Re-entrant `connect`/`disconnect` from inside a callback during `process` is not modelled. The source caches `end()` before the loop, so that case is undefined there.
- The receiver-less adapters `SignalT<void, Args...>` and `SignalT<void, void>` (DQMNet.h:298-331, 778-841) are left out. `Signal::connect` always builds `SignalT<T, Args...>`, so `Signal` never uses them.
- `shared_ptr` reference counting and the destruction of models are not modelled. Sharing is plain aliasing of one `BufferModel` object.
- The lifetime of memory passed to `adopt` is not modelled: a view over freed memory is undefined in the source and needs no runtime behaviour.
- `Buffer(Buffer&&)` (DQMNet.h:172-175) is left out. It leaves the source `Buffer` with a null model, not the sentinel, so `begin()` on it would dereference null. In the model, `Buffer.Valid()` (model not null) is what `begin`/`end`/`size` require.
- `Buffer::model()` (DQMNet.h:167-170) is the field `Buffer.model` itself.
- `Buffers.ValueBufferModel`: the bytes of `T`'s object representation are not modelled, only that the view covers `sizeof(T)` bytes (the `width` parameter) of the model's own storage.
- `Buffers.TextBufferModel`: the string's heap buffer may move when it grows. The model names the storage by the model object, so it does not capture that `begin()` can change address between two copies.
- `NullBuffer::buffer` and `NullBuffer::size` are defined outside the header, and that file is not part of this model. The size is taken to be 2, the array's declared length (DQMNet.h:49). The contents are taken to be two zero bytes.
- `size_t` is modelled as an unbounded `nat`. The source does no arithmetic on sizes that could wrap. `p + n` is only ever formed for a view the caller vouches for.
- What `move` leaves in its moved-from argument is unspecified in C++ and not modelled.
- The `json/json.h` include (DQMNet.h:41) and anything about threads or transport are not modelled. Nothing in the header uses them.
