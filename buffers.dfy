/**
 * The zero-copy buffer views of DQMNet.h: `RawBuffer` (a pointer and a
 * length), `BufferModel` (owns a RawBuffer), `BufferModelT<T>` and its
 * `std::string` specialisation (own a value and point the view at it), and
 * `Buffer` (a shared handle on one model).
 *
 * Memory is abstract: a pointer is a region and an offset. The regions are
 * nullptr, the static `NullBuffer::buffer` array, memory the caller owns, and
 * the storage inside a model object. Pointer arithmetic `p + n` moves the
 * offset within the region. The C++ base class `BufferModel` of
 * `BufferModelT<T>` is modelled by composition: each typed model holds its
 * base-class subobject in the constant field `base`, which is what a
 * `shared_ptr<BufferModel>` to it designates.
 */
module Buffers {

  datatype Region =
    | NoRegion                // nullptr
    | NullBufferRegion        // the static NullBuffer::buffer array
    | CallerMemory(id: nat)   // memory handed to adopt(), owned by the caller
    | Storage(owner: object)  // the value stored inside a typed model

  datatype Ptr = Ptr(region: Region, offset: nat)

  const Null: Ptr := Ptr(NoRegion, 0)

  /** NullBuffer::buffer, the sentinel behind a default-constructed Buffer. */
  const NullBufferBegin: Ptr := Ptr(NullBufferRegion, 0)

  /** NullBuffer::size; its definition is outside the header, which declares
      the array with two elements. */
  const NullBufferSize: nat := 2

  /** The bytes of NullBuffer::buffer (also defined outside the header). */
  const NullBufferBytes: seq<bv8> := [0, 0]

  /** `p + n` for a `const char *p`. */
  function Advance(p: Ptr, n: nat): Ptr
  {
    Ptr(p.region, p.offset + n)
  }

  /** `RawBuffer`: a non-owning (pointer, size) view. */
  class RawBuffer {
    var pBuffer: Ptr
    var size: nat

    /** RawBuffer(): adopt(nullptr, 0). */
    constructor()
      ensures Begin() == Null && Size() == 0
    {
      pBuffer, size := Null, 0;
    }

    /** begin(): the first byte of the view, size() bytes before end(). */
    function Begin(): (b: Ptr)
      reads this
      ensures Advance(b, size) == End()
    {
      pBuffer
    }

    /** size(): the number of bytes from begin() to end(). */
    function Size(): (n: nat)
      reads this
      ensures Advance(pBuffer, n) == End()
    {
      size
    }

    /** end(): one past the last byte, in the same region as the view's start, size bytes further. */
    function End(): (e: Ptr)
      reads this
      ensures e.region == pBuffer.region && e.offset - pBuffer.offset == size
    {
      Advance(pBuffer, size)
    }

    /** adopt(buffer, size): the view now covers exactly [buffer, buffer + size). */
    method Adopt(buffer: Ptr, n: nat)
      modifies this
      ensures Begin() == buffer && Size() == n && End() == Advance(buffer, n)
    {
      pBuffer, size := buffer, n;
    }
  }

  /** `BufferModel`: owns its RawBuffer (raw()); handle() points it at caller memory. */
  class BufferModel {
    const raw: RawBuffer

    constructor()
      ensures fresh(raw) && raw.Begin() == Null && raw.Size() == 0
    {
      raw := new RawBuffer();
    }

    /** handle(buffer, size): the buffer stays owned by the caller. */
    method Handle(buffer: Ptr, n: nat)
      modifies raw
      ensures raw.Begin() == buffer && raw.Size() == n
    {
      raw.Adopt(buffer, n);
    }
  }

  /** `BufferModelT<std::string>`: owns a string and views exactly its bytes.
      A `std::string` is a sequence of C++ `char` units, one byte each, and
      `size()` counts those bytes, so the value is a byte sequence. */
  class TextBufferModel {
    const base: BufferModel
    var value: seq<bv8>

    /** The bytes the view [begin(), end()) covers, when it points into this model's string. */
    ghost function Viewed(): seq<bv8>
      reads this, base.raw
      requires base.raw.Begin() == Ptr(Storage(this), 0) && base.raw.Size() <= |value|
    {
      value[..base.raw.Size()]
    }

    /** The constructor stores the NullBuffer bytes and views them. */
    constructor()
      ensures fresh(base) && fresh(base.raw) && value == NullBufferBytes
      ensures base.raw.Begin() == Ptr(Storage(this), 0) && base.raw.Size() == NullBufferSize
    {
      base := new BufferModel();
      value := NullBufferBytes;
      new;
      base.Handle(Ptr(Storage(this), 0), |value|);
    }

    /** copy(value): stores s; the view length is the content length (no terminator). */
    method Copy(s: seq<bv8>)
      modifies this, base.raw
      ensures value == s
      ensures base.raw.Begin() == Ptr(Storage(this), 0) && base.raw.Size() == |s|
      ensures Viewed() == s
    {
      value := s;
      base.Handle(Ptr(Storage(this), 0), |value|);
    }

    /** move(value): as copy; what is left in the moved-from string is not modelled. */
    method Move(s: seq<bv8>)
      modifies this, base.raw
      ensures value == s
      ensures base.raw.Begin() == Ptr(Storage(this), 0) && base.raw.Size() == |s|
      ensures Viewed() == s
    {
      Copy(s);
    }
  }

  /** The generic `BufferModelT<T>`: owns a T and views its object representation,
      `width` (sizeof(T)) bytes long. */
  class ValueBufferModel<T> {
    const base: BufferModel
    const width: nat
    var value: T

    /** `init` stands for the default-constructed T. */
    constructor(width: nat, init: T)
      ensures this.width == width && value == init && fresh(base) && fresh(base.raw)
      ensures base.raw.Begin() == Ptr(Storage(this), 0) && base.raw.Size() == width
    {
      base := new BufferModel();
      this.width := width;
      value := init;
      new;
      base.Handle(Ptr(Storage(this), 0), width);
    }

    /** copy(value) */
    method Copy(v: T)
      modifies this, base.raw
      ensures value == v
      ensures base.raw.Begin() == Ptr(Storage(this), 0) && base.raw.Size() == width
    {
      value := v;
      base.Handle(Ptr(Storage(this), 0), width);
    }

    /** move(value): as copy; the moved-from value is not modelled. */
    method Move(v: T)
      modifies this, base.raw
      ensures value == v
      ensures base.raw.Begin() == Ptr(Storage(this), 0) && base.raw.Size() == width
    {
      Copy(v);
    }
  }

  /** `Buffer`: a handle on a shared model; begin/end/size read that model's view. */
  class Buffer {
    var model: BufferModel?

    ghost predicate Valid()
      reads this
    {
      model != null
    }

    /** Buffer(): adopts the NullBuffer sentinel, so the view is never null. */
    constructor()
      ensures Valid() && fresh(model) && fresh(model.raw)
      ensures Begin() == NullBufferBegin && Size() == NullBufferSize
    {
      model := null;
      new;
      Adopt(NullBufferBegin, NullBufferSize);
    }

    /** createModel(): a fresh model with a null, empty view. */
    method CreateModel() returns (m: BufferModel)
      ensures fresh(m) && fresh(m.raw) && m.raw.Begin() == Null && m.raw.Size() == 0
    {
      m := new BufferModel();
    }

    /** createModel<std::string>() */
    method CreateTextModel() returns (m: TextBufferModel)
      ensures fresh(m) && fresh(m.base) && fresh(m.base.raw) && m.value == NullBufferBytes
      ensures m.base.raw.Begin() == Ptr(Storage(m), 0) && m.base.raw.Size() == NullBufferSize
    {
      m := new TextBufferModel();
    }

    /** createModel<T>(); `width` is sizeof(T), `init` the default-constructed T. */
    method CreateValueModel<T>(width: nat, init: T) returns (m: ValueBufferModel<T>)
      ensures fresh(m) && fresh(m.base) && fresh(m.base.raw) && m.value == init && m.width == width
      ensures m.base.raw.Begin() == Ptr(Storage(m), 0) && m.base.raw.Size() == width
    {
      m := new ValueBufferModel(width, init);
    }

    /** setModel(model): a null model is ignored and the current one kept. */
    method SetModel(m: BufferModel?)
      modifies this
      ensures model == if m == null then old(model) else m
    {
      if m == null {
        return;
      }
      model := m;
    }

    /** begin(): the start of the current model's view, size() bytes before its end(). */
    function Begin(): (b: Ptr)
      requires Valid()
      reads this, model.raw
      ensures b == model.raw.Begin() && Advance(b, model.raw.Size()) == model.raw.End()
    {
      model.raw.Begin()
    }

    /** size(): the length of the current model's view, from its begin() to its end(). */
    function Size(): (n: nat)
      requires Valid()
      reads this, model.raw
      ensures n == model.raw.Size() && Advance(model.raw.Begin(), n) == model.raw.End()
    {
      model.raw.Size()
    }

    /** end(): size() bytes after begin(). */
    function End(): (e: Ptr)
      requires Valid()
      reads this, model.raw
      ensures e.region == Begin().region && e.offset - Begin().offset == Size()
    {
      model.raw.End()
    }

    /** adopt(buffer, size): a fresh model viewing [buffer, buffer + size). */
    method Adopt(buffer: Ptr, n: nat)
      modifies this
      ensures Valid() && fresh(model) && fresh(model.raw)
      ensures Begin() == buffer && Size() == n && End() == Advance(Begin(), Size())
    {
      var m := CreateModel();
      m.Handle(buffer, n);
      SetModel(m);
    }
  }

  /** A client: a Buffer that shares a string model sees every later copy into it. */
  method ExampleSharedTextModel(s: seq<bv8>)
  {
    var b := new Buffer();
    assert b.Begin() == NullBufferBegin && b.Size() == NullBufferSize;
    var text := b.CreateTextModel();
    b.SetModel(text.base);
    text.Copy(s);
    assert b.Begin() == Ptr(Storage(text), 0) && b.Size() == |s|;
    b.SetModel(null);
    assert b.model == text.base && b.Size() == |s|;
  }
}
