/** The blob that carries a raw image and its metadata through the application (OpaqueReprocUtil in hwnode/MyUtils.h):
    raw data in front, an info record at the end, and the flattened app and hal metadata in the payload between. */
module OpaqueHeap {
  import opened Wrappers

  type Byte = bv8

  /** sizeof(opaque_reproc_info_t): a byte, three ints and seven 64-bit sizes. */
  const INFO_SIZE: nat := 72
  const UINT32: nat := 0x1_0000_0000
  const UINT64: nat := 0x1_0000_0000_0000_0000

  /** The conversion of a size to MINT32. */
  function Int32(x: int): int {
    if x % UINT32 < UINT32 / 2 then x % UINT32 else x % UINT32 - UINT32
  }

  datatype Info = Info(
    alignedByte: int, rawWidth: int, rawHeight: int, rawFormat: int, strideInBytes: nat,
    payloadOffset: nat, payloadLength: nat,
    appOffset: nat, appLength: nat, halOffset: nat, halLength: nat)

  /** `bytes` are those in front of the info record. */
  datatype Heap = Heap(bytes: seq<Byte>, info: Info)

  datatype Error = OK | NO_INIT | ALREADY_EXISTS | OVERSIZED

  /** The metadata object with what flatten makes of it; a flatten that does not fit may leave anything in the room it
      was given. */
  datatype Flattened = Flattened(bytes: seq<Byte>, scratch: seq<Byte>)

  function Write(bytes: seq<Byte>, at: nat, data: seq<Byte>): (r: seq<Byte>)
    requires at + |data| <= |bytes|
    ensures |r| == |bytes|
  {
    bytes[..at] + data + bytes[at + |data|..]
  }

  /** IMetadata::flatten into `max` bytes at `at`. */
  datatype FlattenResult = FlattenResult(bytes: seq<Byte>, size: int)

  function Flatten(bytes: seq<Byte>, at: nat, max: int, m: Flattened): (r: FlattenResult)
    requires at + (if max > 0 then max else 0) <= |bytes|
    ensures |r.bytes| == |bytes|
  {
    if |m.bytes| <= max then FlattenResult(Write(bytes, at, m.bytes), |m.bytes|)
    else if max > 0 && |m.scratch| <= max then FlattenResult(Write(bytes, at, m.scratch), -1)
    else FlattenResult(bytes, -1)
  }

  // ---------------------------------------------------------------- the layout

  /** Two ranges have no byte in common. */
  predicate Apart(a: nat, aLength: nat, b: nat, bLength: nat) {
    aLength == 0 || bLength == 0 || a + aLength <= b || b + bLength <= a
  }

  predicate Inside(i: Info, offset: nat, length: nat) {
    i.payloadOffset <= offset && offset + length <= i.payloadOffset + i.payloadLength
  }

  /** Whichever metadata came first lies at the front of the payload. */
  ghost predicate LayoutOk(h: Heap) {
    var i := h.info;
    && i.payloadOffset + i.payloadLength == |h.bytes|
    && (i.appLength > 0 ==> Inside(i, i.appOffset, i.appLength))
    && (i.halLength > 0 ==> Inside(i, i.halOffset, i.halLength))
    && (i.appLength > 0 && i.halLength > 0 ==>
          || (i.appOffset == i.payloadOffset && i.halOffset == i.payloadOffset + i.appLength)
          || (i.halOffset == i.payloadOffset && i.appOffset == i.payloadOffset + i.halLength))
    && (i.appLength == 0 && i.halLength > 0 ==> i.halOffset == i.payloadOffset)
    && (i.halLength == 0 && i.appLength > 0 ==> i.appOffset == i.payloadOffset)
    && i.appOffset + i.appLength <= |h.bytes| && i.halOffset + i.halLength <= |h.bytes|
  }

  /** Flattening behind the other metadata, into what the payload has left as a 32-bit size. */
  function Place(bytes: seq<Byte>, payloadOffset: nat, payloadLength: nat, otherLength: nat, m: Flattened)
    : (r: FlattenResult)
    requires payloadOffset + payloadLength == |bytes| && otherLength <= payloadLength
    ensures |r.bytes| == |bytes|
  {
    Flatten(bytes, payloadOffset + otherLength, Int32(payloadLength - otherLength), m)
  }

  datatype SetResult = SetResult(h: Heap, error: Error)

  /** setAppMetadataToHeap. */
  function SetApp(h: Heap, m: Flattened): SetResult
    requires LayoutOk(h)
  {
    var i := h.info;
    if i.alignedByte != 0 then SetResult(h, NO_INIT)
    else if i.appLength != 0 then SetResult(h, ALREADY_EXISTS)
    else
      var r := Place(h.bytes, i.payloadOffset, i.payloadLength, i.halLength, m);
      var i1 := i.(appOffset := i.payloadOffset + i.halLength);
      if r.size < 0 then SetResult(Heap(r.bytes, i1), OVERSIZED)
      else SetResult(Heap(r.bytes, i1.(appLength := r.size)), OK)
  }

  /** setHalMetadataToHeap. */
  function SetHal(h: Heap, m: Flattened): SetResult
    requires LayoutOk(h)
  {
    var i := h.info;
    if i.alignedByte != 0 then SetResult(h, NO_INIT)
    else if i.halLength != 0 then SetResult(h, ALREADY_EXISTS)
    else
      var r := Place(h.bytes, i.payloadOffset, i.payloadLength, i.appLength, m);
      var i1 := i.(halOffset := i.payloadOffset + i.appLength);
      if r.size < 0 then SetResult(Heap(r.bytes, i1), OVERSIZED)
      else SetResult(Heap(r.bytes, i1.(halLength := r.size)), OK)
  }

  function AppBytes(h: Heap): seq<Byte>
    requires LayoutOk(h)
  {
    h.bytes[h.info.appOffset..h.info.appOffset + h.info.appLength]
  }

  function HalBytes(h: Heap): seq<Byte>
    requires LayoutOk(h)
  {
    h.bytes[h.info.halOffset..h.info.halOffset + h.info.halLength]
  }

  /** Everything but the offsets and lengths of the two metadata. */
  predicate SameFixed(a: Info, b: Info) {
    b == a.(appOffset := b.appOffset, appLength := b.appLength, halOffset := b.halOffset, halLength := b.halLength)
  }

  lemma WriteKeeps(bytes: seq<Byte>, at: nat, data: seq<Byte>, from: nat, length: nat)
    requires at + |data| <= |bytes| && from + length <= |bytes| && Apart(at, |data|, from, length)
    ensures Write(bytes, at, data)[from..from + length] == bytes[from..from + length]
  {
    var r := Write(bytes, at, data);
    assert forall k | from <= k < from + length :: r[k] == bytes[k];
  }

  lemma WriteReads(bytes: seq<Byte>, at: nat, data: seq<Byte>)
    requires at + |data| <= |bytes|
    ensures Write(bytes, at, data)[at..at + |data|] == data
  {}

  /** flatten writes inside its room only, and what it writes on success is the flattened metadata. */
  lemma FlattenKeeps(bytes: seq<Byte>, at: nat, max: int, m: Flattened, from: nat, length: nat)
    requires at + (if max > 0 then max else 0) <= |bytes| && from + length <= |bytes| && from + length <= at
    ensures var r := Flatten(bytes, at, max, m);
            && r.bytes[from..from + length] == bytes[from..from + length]
            && (r.size >= 0 ==> r.size == |m.bytes| && at + r.size <= |bytes| && r.bytes[at..at + r.size] == m.bytes)
            && (r.size >= 0 <==> |m.bytes| <= max)
  {
    if |m.bytes| <= max {
      WriteKeeps(bytes, at, m.bytes, from, length);
      WriteReads(bytes, at, m.bytes);
    } else if max > 0 && |m.scratch| <= max {
      WriteKeeps(bytes, at, m.scratch, from, length);
    }
  }

  lemma PlaceKeeps(bytes: seq<Byte>, payloadOffset: nat, payloadLength: nat, other: nat, otherLength: nat, m: Flattened)
    requires payloadOffset + payloadLength == |bytes| && otherLength <= payloadLength
    requires other + otherLength <= |bytes| && (otherLength > 0 ==> other == payloadOffset)
    ensures var r, at := Place(bytes, payloadOffset, payloadLength, otherLength, m), payloadOffset + otherLength;
            && r.bytes[..payloadOffset] == bytes[..payloadOffset]
            && r.bytes[other..other + otherLength] == bytes[other..other + otherLength]
            && (r.size >= 0 ==> r.size == |m.bytes| && at + r.size <= |bytes| && r.bytes[at..at + r.size] == m.bytes)
            && (r.size >= 0 <==> |m.bytes| <= Int32(payloadLength - otherLength))
  {
    var at, max := payloadOffset + otherLength, Int32(payloadLength - otherLength);
    FlattenKeeps(bytes, at, max, m, 0, payloadOffset);
    if otherLength > 0 {
      FlattenKeeps(bytes, at, max, m, other, otherLength);
    }
  }

  /** Setting the app metadata keeps the layout, the raw area, the fixed fields and the hal metadata; it succeeds if
      and only if there is none yet and it fits the rest of the payload as a 32-bit size, and then it can be read
      back. */
  lemma SetAppOk(h: Heap, m: Flattened)
    requires LayoutOk(h)
    ensures var r := SetApp(h, m);
            && LayoutOk(r.h) && SameFixed(h.info, r.h.info)
            && r.h.bytes[..h.info.payloadOffset] == h.bytes[..h.info.payloadOffset]
            && r.h.info.halOffset == h.info.halOffset && HalBytes(r.h) == HalBytes(h)
            && (r.error == OK <==> h.info.alignedByte == 0 && h.info.appLength == 0 &&
                                   |m.bytes| <= Int32(h.info.payloadLength - h.info.halLength))
            && (r.error == NO_INIT <==> h.info.alignedByte != 0)
            && (r.error == ALREADY_EXISTS <==> h.info.alignedByte == 0 && h.info.appLength != 0)
            && (r.error == OK ==> AppBytes(r.h) == m.bytes)
            && (r.error != OK ==> AppBytes(r.h) == AppBytes(h))
  {
    var i := h.info;
    if i.alignedByte == 0 && i.appLength == 0 {
      PlaceKeeps(h.bytes, i.payloadOffset, i.payloadLength, i.halOffset, i.halLength, m);
    }
  }

  lemma SetHalOk(h: Heap, m: Flattened)
    requires LayoutOk(h)
    ensures var r := SetHal(h, m);
            && LayoutOk(r.h) && SameFixed(h.info, r.h.info)
            && r.h.bytes[..h.info.payloadOffset] == h.bytes[..h.info.payloadOffset]
            && r.h.info.appOffset == h.info.appOffset && AppBytes(r.h) == AppBytes(h)
            && (r.error == OK <==> h.info.alignedByte == 0 && h.info.halLength == 0 &&
                                   |m.bytes| <= Int32(h.info.payloadLength - h.info.appLength))
            && (r.error == NO_INIT <==> h.info.alignedByte != 0)
            && (r.error == ALREADY_EXISTS <==> h.info.alignedByte == 0 && h.info.halLength != 0)
            && (r.error == OK ==> HalBytes(r.h) == m.bytes)
            && (r.error != OK ==> HalBytes(r.h) == HalBytes(h))
  {
    var i := h.info;
    if i.alignedByte == 0 && i.halLength == 0 {
      PlaceKeeps(h.bytes, i.payloadOffset, i.payloadLength, i.appOffset, i.appLength, m);
    }
  }

  // ---------------------------------------------------------------- setting up

  /** The record that setOpaqueInfoToHeap writes. */
  function NewInfo(rawWidth: int, rawHeight: int, rawFormat: int, stride: nat, rawSize: nat, payload: nat): Info {
    Info(0, rawWidth, rawHeight, rawFormat, stride, rawSize, payload, 0, 0, 0, 0)
  }

  /** The place of the info record as the size_t arithmetic of the code has it. */
  function InfoOffset(heapSize: nat): nat {
    (heapSize - INFO_SIZE) % UINT64
  }

  /** The record of 72 bytes lies in the heap exactly if the heap is no smaller than it; then the raw data fits in front of it
      exactly if the size check lets it pass. */
  lemma InfoFits(heapSize: nat, rawSize: nat)
    requires heapSize < UINT64
    ensures InfoOffset(heapSize) + 72 <= heapSize <==> heapSize >= 72
    ensures heapSize >= 72 ==> (!(InfoOffset(heapSize) < rawSize) <==> rawSize + 72 <= heapSize)
  {
    if heapSize < 72 {
      assert (heapSize - INFO_SIZE) % UINT64 == heapSize - INFO_SIZE + UINT64;
    }
  }

  lemma NewIsOk(bytes: seq<Byte>, w: int, h: int, format: int, stride: nat, rawSize: nat)
    requires rawSize <= |bytes|
    ensures var heap := Heap(bytes, NewInfo(w, h, format, stride, rawSize, |bytes| - rawSize));
            LayoutOk(heap) && AppBytes(heap) == [] && HalBytes(heap) == []
  {}

  // ---------------------------------------------------------------- any number of sets, in any order

  datatype Op = App(m: Flattened) | Hal(m: Flattened)

  function Do(h: Heap, op: Op): SetResult
    requires LayoutOk(h)
  {
    match op
    case App(m) => SetApp(h, m)
    case Hal(m) => SetHal(h, m)
  }

  ghost predicate IsRun(heaps: seq<Heap>, errors: seq<Error>, ops: seq<Op>) {
    && |heaps| == |ops| + 1 && |errors| == |ops|
    && forall k | 0 <= k < |ops| :: LayoutOk(heaps[k]) && Do(heaps[k], ops[k]) == SetResult(heaps[k + 1], errors[k])
  }

  /** The last metadata of a kind that was set successfully, or nothing. */
  function Last(ops: seq<Op>, errors: seq<Error>, app: bool): seq<Byte>
    requires |ops| == |errors|
  {
    if ops == [] then []
    else
      var k := |ops| - 1;
      if errors[k] == OK && ops[k].App? == app then ops[k].m.bytes else Last(ops[..k], errors[..k], app)
  }

  /** After any sequence of sets, failed and repeated ones included: the two ranges are apart and inside the payload,
      the raw area and the fixed fields are as they were set up, and each getter reads what was set last with
      success. */
  lemma {:induction false} RunReadsBack(heaps: seq<Heap>, errors: seq<Error>, ops: seq<Op>)
    requires IsRun(heaps, errors, ops) && LayoutOk(heaps[0]) && AppBytes(heaps[0]) == [] && HalBytes(heaps[0]) == []
    ensures var h, i := heaps[|ops|], heaps[|ops|].info;
            && LayoutOk(h) && SameFixed(heaps[0].info, i)
            && h.bytes[..i.payloadOffset] == heaps[0].bytes[..i.payloadOffset]
            && Apart(i.appOffset, i.appLength, i.halOffset, i.halLength)
            && AppBytes(h) == Last(ops, errors, true) && HalBytes(h) == Last(ops, errors, false)
  {
    if ops != [] {
      var k := |ops| - 1;
      RunReadsBack(heaps[..k + 1], errors[..k], ops[..k]);
      assert Do(heaps[k], ops[k]) == SetResult(heaps[k + 1], errors[k]);
      match ops[k]
      case App(m) => SetAppOk(heaps[k], m);
      case Hal(m) => SetHalOk(heaps[k], m);
    }
  }

  // ---------------------------------------------------------------- the raw image

  /** What getImageBufferFromHeap makes of the record: the image in front, as the record describes it. */
  datatype RawImage = RawImage(width: int, height: int, format: int, stride: nat, bytes: seq<Byte>)

  function ImageOf(h: Heap): Option<RawImage>
    requires LayoutOk(h)
  {
    var i := h.info;
    if i.alignedByte != 0 then None
    else Some(RawImage(i.rawWidth, i.rawHeight, i.rawFormat, i.strideInBytes, h.bytes[..i.payloadOffset]))
  }

  /** The image that was described when the record was written comes back with its size, format and stride and its
      bytes, whatever metadata were set or refused in between. */
  lemma ImageComesBack(heaps: seq<Heap>, errors: seq<Error>, ops: seq<Op>, bytes: seq<Byte>, width: int, height: int,
                       format: int, stride: nat, rawSize: nat)
    requires rawSize <= |bytes| && IsRun(heaps, errors, ops)
    requires heaps[0] == Heap(bytes, NewInfo(width, height, format, stride, rawSize, |bytes| - rawSize))
    ensures LayoutOk(heaps[|ops|])
    ensures ImageOf(heaps[|ops|]) == Some(RawImage(width, height, format, stride, bytes[..rawSize]))
  {
    NewIsOk(bytes, width, height, format, stride, rawSize);
    RunReadsBack(heaps, errors, ops);
  }

  // ---------------------------------------------------------------- in place

  /** A heap whose bytes in front of the info record are `buf`. */
  class OpaqueBuffer {
    const buf: array<Byte>
    var info: Info

    ghost function Value(): Heap
      reads this, buf
    {
      Heap(buf[..], info)
    }

    constructor (buf: array<Byte>)
      ensures this.buf == buf
    {
      this.buf := buf;
      info := NewInfo(0, 0, 0, 0, 0, 0);
    }

    /** setOpaqueInfoToHeap; -EINVAL if the raw data does not fit in front of the record. */
    method SetOpaqueInfo(rawWidth: int, rawHeight: int, rawFormat: int, stride: nat, rawSize: nat) returns (ok: bool)
      modifies this
      ensures ok <==> rawSize <= buf.Length
      ensures ok ==> info == NewInfo(rawWidth, rawHeight, rawFormat, stride, rawSize, buf.Length - rawSize)
      ensures ok ==> LayoutOk(Value()) && AppBytes(Value()) == [] && HalBytes(Value()) == []
      ensures !ok ==> info == old(info)
    {
      if buf.Length < rawSize {
        return false;
      }
      info := NewInfo(rawWidth, rawHeight, rawFormat, stride, rawSize, buf.Length - rawSize);
      return true;
    }

    /** getImageBufferFromHeap. */
    method GetImageBuffer() returns (image: Option<RawImage>)
      requires LayoutOk(Value())
      ensures image == ImageOf(Value())
    {
      if info.alignedByte != 0 {
        return None;
      }
      return Some(RawImage(info.rawWidth, info.rawHeight, info.rawFormat, info.strideInBytes, buf[..info.payloadOffset]));
    }

    method WriteBytes(at: nat, data: seq<Byte>)
      requires at + |data| <= buf.Length
      modifies buf
      ensures buf[..] == Write(old(buf[..]), at, data)
    {
      for k := 0 to |data|
        invariant buf[..] == Write(old(buf[..]), at, data[..k])
      {
        ghost var before := buf[..];
        buf[at + k] := data[k];
        assert buf[..] == before[at + k := data[k]];
        assert data[..k + 1] == data[..k] + [data[k]];
        WriteNext(old(buf[..]), at, data[..k], data[k]);
      }
      assert data[..|data|] == data;
    }

    method FlattenInto(at: nat, max: int, m: Flattened) returns (size: int)
      requires at + (if max > 0 then max else 0) <= buf.Length
      modifies buf
      ensures FlattenResult(buf[..], size) == Flatten(old(buf[..]), at, max, m)
    {
      if |m.bytes| <= max {
        WriteBytes(at, m.bytes);
        return |m.bytes|;
      }
      if max > 0 && |m.scratch| <= max {
        WriteBytes(at, m.scratch);
      }
      return -1;
    }

    method SetAppMetadata(m: Flattened) returns (error: Error)
      requires LayoutOk(Value())
      modifies this, buf
      ensures SetResult(Value(), error) == SetApp(old(Value()), m)
    {
      if info.alignedByte != 0 {
        return NO_INIT;
      } else if info.appLength != 0 {
        return ALREADY_EXISTS;
      }
      ghost var h := Value();
      info := info.(appOffset := info.payloadOffset + info.halLength);
      var size := FlattenInto(info.appOffset, Int32(info.payloadLength - info.halLength), m);
      assert FlattenResult(buf[..], size) ==
             Place(h.bytes, h.info.payloadOffset, h.info.payloadLength, h.info.halLength, m);
      if size < 0 {
        return OVERSIZED;
      }
      info := info.(appLength := size);
      return OK;
    }

    method SetHalMetadata(m: Flattened) returns (error: Error)
      requires LayoutOk(Value())
      modifies this, buf
      ensures SetResult(Value(), error) == SetHal(old(Value()), m)
    {
      if info.alignedByte != 0 {
        return NO_INIT;
      } else if info.halLength != 0 {
        return ALREADY_EXISTS;
      }
      ghost var h := Value();
      info := info.(halOffset := info.payloadOffset + info.appLength);
      var size := FlattenInto(info.halOffset, Int32(info.payloadLength - info.appLength), m);
      assert FlattenResult(buf[..], size) ==
             Place(h.bytes, h.info.payloadOffset, h.info.payloadLength, h.info.appLength, m);
      if size < 0 {
        return OVERSIZED;
      }
      info := info.(halLength := size);
      return OK;
    }

    /** What getAppMetadataFromHeap and getHalMetadataFromHeap hand to unflatten. */
    method GetAppMetadata() returns (bytes: Option<seq<Byte>>)
      requires LayoutOk(Value())
      ensures bytes == if info.alignedByte != 0 then None else Some(AppBytes(Value()))
    {
      if info.alignedByte != 0 {
        return None;
      }
      return Some(buf[info.appOffset..info.appOffset + info.appLength]);
    }

    method GetHalMetadata() returns (bytes: Option<seq<Byte>>)
      requires LayoutOk(Value())
      ensures bytes == if info.alignedByte != 0 then None else Some(HalBytes(Value()))
    {
      if info.alignedByte != 0 {
        return None;
      }
      return Some(buf[info.halOffset..info.halOffset + info.halLength]);
    }
  }

  lemma WriteNext(bytes: seq<Byte>, at: nat, data: seq<Byte>, b: Byte)
    requires at + |data| < |bytes|
    ensures Write(bytes, at, data + [b]) == Write(bytes, at, data)[at + |data| := b]
  {}
}
