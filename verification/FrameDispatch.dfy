/**
  Which way a coroutine frame is freed: it carries no sign of how it was
  allocated, yet it goes back to where its memory came from, be that a slot of
  a pool, the heap, or a resource that itself draws on a pool.
 */
module FrameDispatch {
  import opened Options
  import opened FrameLayout
  import opened Powers

  // ---- Memory -------------------------------------------------------------------------

  /** A block inside slot `i` of slab `s`. */
  ghost predicate InsideSlot(info: map<nat, Slab>, s: nat, i: nat, start: nat, bytes: nat) {
    s in info && i < info[s].count && SlotAt(s, info[s].size, i) <= start
      && start + bytes <= SlotAt(s, info[s].size, i) + info[s].size
  }

  /** Memory that a resource may hand out: it overlaps no slab, or it lies in a slot that the resource holds. */
  ghost predicate Granted(info: map<nat, Slab>, start: nat, bytes: nat) {
    OutsideSlabs(info.Keys, start, bytes) || exists s: nat, i: nat :: InsideSlot(info, s, i, start, bytes)
  }

  ghost predicate SlabsOk(info: map<nat, Slab>) {
    Chunked(info.Keys, info) && forall s :: s in info ==> s % CHUNK == 0
  }

  /** No slot starts inside another slot. */
  lemma {:induction false} NoSlotInside(size: nat, i: nat, j: nat, slab: nat, p: nat)
    requires SlotAt(slab, size, i) < p < SlotAt(slab, size, i) + size
    ensures p != SlotAt(slab, size, j)
  {
    if j <= i { MulMonotone(j, i, size); } else { MulMonotone(i + 1, j, size); }
    assert (i + 1) * size == i * size + size;
  }

  lemma {:induction false} InsideIsNoSlot(info: map<nat, Slab>, s: nat, i: nat, p: nat, t: nat, j: nat)
    requires SlabsOk(info) && s in info && i < info[s].count
    requires SlotAt(s, info[s].size, i) < p < SlotAt(s, info[s].size, i) + info[s].size
    ensures !SlotOf(info, t, j, p)
  {
    if SlotOf(info, t, j, p) {
      SlotRecognized(info.Keys, info, t, j, p);
      SlotRecognized(info.Keys, info, s, i, SlotAt(s, info[s].size, i));
      SlotEnds(info, s, i);
      SameChunk(s, t, p);
      NoSlotInside(info[s].size, i, j, s, p);
    }
  }

  lemma {:induction false} SlotEnds(info: map<nat, Slab>, s: nat, i: nat)
    requires SlabsOk(info) && s in info && i < info[s].count
    ensures SlotAt(s, info[s].size, i) + info[s].size <= s + CHUNK
  {
    var size, n := info[s].size, info[s].count;
    MulMonotone(i + 1, n, size);
    assert n * size <= CHUNK - SLAB_HEADER && (i + 1) * size == i * size + size;
  }

  // ---- Frames on the heap ---------------------------------------------------------------

  /** The body of a heap frame ends before its memory does, because that memory is aligned as asked for. */
  lemma {:induction false} BodyEndsInside(allocation: nat, size: nat, frameAlignment: nat)
    requires frameAlignment > 0 && HeapRequest(size, frameAlignment).Some?
    requires allocation % HeapRequest(size, frameAlignment).value.1 == 0
    ensures FrameAt(allocation, frameAlignment) + size < allocation + HeapRequest(size, frameAlignment).value.0
  {
    var prefix := HEADER_BYTES + MARKER_BYTES;
    if frameAlignment >= 8 {
      EvenPower(frameAlignment);
      MultipleOfEven(allocation, frameAlignment);
      EvenAlignUp(allocation + prefix, frameAlignment);
    } else {
      AlignUpOf(allocation + prefix, frameAlignment);
    }
  }

  lemma {:induction false} EvenAlignUp(x: nat, a: nat)
    requires a > 0 && a % 2 == 0 && x % 2 == 0
    ensures AlignUp(x, a) < x + a - 1
  {
    AlignUpOf(x, a);
    MultipleOfEven(AlignUp(x, a), a);
    Parity(AlignUp(x, a), x, a);
  }

  lemma {:induction false} Parity(y: nat, x: nat, a: nat)
    requires y % 2 == 0 && x % 2 == 0 && a % 2 == 0
    ensures y != x + a - 1
  {
  }

  lemma {:induction false} EvenPower(a: nat)
    requires SingleBit(a) && a > 1
    ensures a % 2 == 0
  {
  }

  lemma {:induction false} MultipleOfEven(x: nat, a: nat)
    requires a > 0 && a % 2 == 0 && x % a == 0
    ensures x % 2 == 0
  {
    var q, h := x / a, a / 2;
    assert x == a * q && a == 2 * h;
    assert x == 2 * (h * q);
  }

  /**
   * A heap frame is no slot, wherever its memory is: outside all slabs, also if the frame is empty and ends where a
   * slab begins, or inside a slot, also if the frame ends where the next slot begins.
   */
  lemma {:induction false} HeapFrameNoSlot(info: map<nat, Slab>, allocation: nat, size: nat, frameAlignment: nat,
      t: nat, j: nat)
    requires SlabsOk(info) && frameAlignment > 0 && HeapRequest(size, frameAlignment).Some?
    requires var (bytes, alignment) := HeapRequest(size, frameAlignment).value;
      Granted(info, allocation, bytes) && allocation % alignment == 0
    ensures !SlotOf(info, t, j, FrameAt(allocation, frameAlignment))
  {
    var bytes, frame := HeapRequest(size, frameAlignment).value.0, FrameAt(allocation, frameAlignment);
    HeapFrameLayout(allocation, size, frameAlignment);
    BodyEndsInside(allocation, size, frameAlignment);
    if s: nat, i: nat :| InsideSlot(info, s, i, allocation, bytes) {
      InsideIsNoSlot(info, s, i, frame, t, j);
    } else if SlotOf(info, t, j, frame) {
      SlotRecognized(info.Keys, info, t, j, frame);
    }
  }

  /**
   * A frame that the pool refuses goes through its resource; if that is the pool again, it takes the request exactly
   * if the frame is empty and not over-aligned.
   */
  lemma {:induction false} HeapRequestPooled(table: seq<nat>, size: nat, frameAlignment: nat)
    requires TableOk(table) && HeapRequest(size, frameAlignment).Some?
      && FindClass(table, size, frameAlignment) == |CLASSES|
    ensures var (bytes, alignment) := HeapRequest(size, frameAlignment).value;
      FindClass(table, bytes, alignment) < |CLASSES| <==> size == 0 && frameAlignment <= SLOT_ALIGNMENT
  {
  }

  /** Slab `s` holds slots of class `c`. */
  ghost predicate OfClass(info: map<nat, Slab>, s: nat, c: nat) {
    s in info && c < |CLASSES| && info[s].size == CLASSES[c]
  }

  /** Every slot is aligned as any request is that the pool takes. */
  lemma {:induction false} SlotAligned(s: nat, c: nat, i: nat, alignment: nat)
    requires s % CHUNK == 0 && c < |CLASSES| && SingleBit(alignment) && alignment <= SLOT_ALIGNMENT
    ensures SlotAt(s, CLASSES[c], i) % alignment == 0
  {
    var p, size := SlotAt(s, CLASSES[c], i), CLASSES[c];
    ClassAligned(c);
    SlotSteps(s, size, i, size / SLOT_ALIGNMENT);
    SmallPower(alignment);
    var q := 4096 * (s / CHUNK) + 4 + i * (size / SLOT_ALIGNMENT);
    Divides(p, q, alignment, SLOT_ALIGNMENT / alignment);
  }

  lemma {:induction false} ClassAligned(c: nat)
    requires c < |CLASSES|
    ensures CLASSES[c] % SLOT_ALIGNMENT == 0
  {
  }

  lemma {:induction false} SlotSteps(s: nat, size: nat, i: nat, steps: nat)
    requires s % CHUNK == 0 && size == SLOT_ALIGNMENT * steps
    ensures SlotAt(s, size, i) == SLOT_ALIGNMENT * (4096 * (s / CHUNK) + 4 + i * steps)
  {
    assert i * size == SLOT_ALIGNMENT * (i * steps);
  }

  lemma {:induction false} SmallPower(a: nat)
    requires SingleBit(a) && a <= SLOT_ALIGNMENT
    ensures 0 < a && SLOT_ALIGNMENT == a * (SLOT_ALIGNMENT / a)
  {
    if a > 1 { SmallHalf(a); }
  }

  lemma {:induction false} SmallHalf(a: nat)
    requires SingleBit(a) && 1 < a <= SLOT_ALIGNMENT
    ensures a == 2 || a == 4 || a == 8 || a == 16
  {
    var k := TrailingZeros(a);
    assert Pow2(1) == 2 && Pow2(2) == 4 && Pow2(3) == 8 && Pow2(4) == 16 && Pow2(5) == 32;
    if k > 4 { Pow2Monotone(5, k); }
    assert k == 1 || k == 2 || k == 3 || k == 4;
  }

  lemma {:induction false} Divides(p: nat, q: nat, a: nat, b: nat)
    requires p == SLOT_ALIGNMENT * q && a > 0 && SLOT_ALIGNMENT == a * b
    ensures p % a == 0
  {
    assert p == (b * q) * a;
    RemainderOf(p, a, b * q, 0);
  }

  /** A slot that the pool hands out for a request is memory it may grant, and aligned as asked for. */
  lemma {:induction false} SlotGranted(table: seq<nat>, info: map<nat, Slab>, s: nat, i: nat, bytes: nat,
      alignment: nat)
    requires TableOk(table) && OfClass(info, s, FindClass(table, bytes, alignment)) && s % CHUNK == 0
    requires i < info[s].count && SingleBit(alignment)
    ensures Granted(info, SlotAt(s, info[s].size, i), bytes) && SlotAt(s, info[s].size, i) % alignment == 0
  {
    assert InsideSlot(info, s, i, SlotAt(s, info[s].size, i), bytes);
    SlotAligned(s, FindClass(table, bytes, alignment), i, alignment);
  }

  // ---- Freeing --------------------------------------------------------------------------

  /** Where freed memory goes; the resource gets what it once handed out. */
  datatype Freed = Null | ToSlot(slab: nat) | ToResource(resource: nat, allocation: nat, bytes: nat, alignment: nat)

  /** Memory by words: the header's two words, and the marker in front of the frame that points to the header. */
  function Headed(mem: map<nat, nat>, allocation: nat, resource: nat, metadata: nat, frame: nat): map<nat, nat>
    requires frame >= MARKER_BYTES
  {
    mem[allocation := resource][allocation + 8 := metadata][frame - MARKER_BYTES := allocation]
  }

  /** The words that DeallocateFrame reads if the frame is no slot. */
  ghost predicate Readable(mem: map<nat, nat>, frame: nat) {
    && frame >= MARKER_BYTES && frame - MARKER_BYTES in mem
    && mem[frame - MARKER_BYTES] in mem && mem[frame - MARKER_BYTES] + 8 in mem
  }

  method DeallocateFrame(slabs: SlabMap, info: map<nat, Slab>, mem: map<nat, nat>, frame: nat) returns (freed: Freed)
    requires slabs.Valid() && Chunked(slabs.slabs, info) && frame < CANONICAL
    requires frame == 0 || (exists s: nat, i: nat :: SlotOf(info, s, i, frame)) || Readable(mem, frame)
    ensures frame == 0 ==> freed == Null
    ensures forall s: nat, i: nat :: frame != 0 && SlotOf(info, s, i, frame) ==> freed == ToSlot(s)
    ensures frame != 0 && !(exists s: nat, i: nat :: SlotOf(info, s, i, frame)) ==>
      var header := mem[frame - MARKER_BYTES];
      freed == ToResource(mem[header], header, UnpackBytes(mem[header + 8]), UnpackAlignment(mem[header + 8]))
  {
    if frame == 0 {
      return Null;
    }
    var slab := OwnerOf(slabs, info, frame);
    if slab.Some? {
      return ToSlot(slab.value);
    }
    var header := mem[frame - MARKER_BYTES];
    return ToResource(mem[header], header, UnpackBytes(mem[header + 8]), UnpackAlignment(mem[header + 8]));
  }

  /** The pool's own deallocation: slots of any pool go back to their slab, all else goes upstream. */
  method PoolDeallocate(slabs: SlabMap, info: map<nat, Slab>, p: nat) returns (slab: Option<nat>)
    requires slabs.Valid() && SlabsOk(info) && slabs.slabs == info.Keys && p < CANONICAL
    ensures forall s: nat, i: nat :: SlotOf(info, s, i, p) ==> slab == Some(s)
    ensures forall bytes: nat :: bytes > 0 && OutsideSlabs(info.Keys, p, bytes) ==> slab.None?
  {
    slab := OwnerOf(slabs, info, p);
    forall bytes: nat | bytes > 0 && OutsideSlabs(info.Keys, p, bytes) ensures slab.None? {
      if slab.Some? {
        var i: nat :| SlotOf(info, slab.value, i, p);
        SlotRecognized(info.Keys, info, slab.value, i, p);
      }
    }
  }

  /** Memory with the coroutine's own writes, which stay inside the body. */
  ghost predicate BodyWritten(mem: map<nat, nat>, mem': map<nat, nat>, frame: nat, size: nat) {
    forall a :: a in mem && !(frame <= a < frame + size) ==> a in mem' && mem'[a] == mem[a]
  }

  /** What AllocateHeapFrame leaves behind can be read back after any writes to the body. */
  lemma {:induction false} HeaderReadBack(mem: map<nat, nat>, mem': map<nat, nat>, allocation: nat, resource: nat,
      size: nat, frameAlignment: nat)
    requires frameAlignment > 0 && HeapRequest(size, frameAlignment).Some?
    ensures var (bytes, alignment) := HeapRequest(size, frameAlignment).value;
      var frame := FrameAt(allocation, frameAlignment);
      && Pack(bytes, alignment).Some? && frame >= MARKER_BYTES
      && (BodyWritten(Headed(mem, allocation, resource, Pack(bytes, alignment).value, frame), mem', frame, size) ==>
            && Readable(mem', frame) && mem'[frame - MARKER_BYTES] == allocation && mem'[allocation] == resource
            && UnpackBytes(mem'[allocation + 8]) == bytes && UnpackAlignment(mem'[allocation + 8]) == alignment)
  {
    HeapFrameLayout(allocation, size, frameAlignment);
  }

  /**
   * The round trip of a heap frame: whatever the coroutine wrote into its body and wherever the memory was granted,
   * DeallocateFrame hands exactly the allocation, with its size and alignment, back to the resource it came from.
   */
  method HeapFrameReturns(slabs: SlabMap, info: map<nat, Slab>, mem: map<nat, nat>, written: map<nat, nat>,
                          allocation: nat, resource: nat, size: nat, frameAlignment: nat) returns (freed: Freed)
    requires slabs.Valid() && SlabsOk(info) && slabs.slabs == info.Keys
    requires frameAlignment > 0 && HeapRequest(size, frameAlignment).Some?
    requires var (bytes, alignment) := HeapRequest(size, frameAlignment).value;
      Granted(info, allocation, bytes) && allocation % alignment == 0 && allocation + bytes <= CANONICAL
    requires var (bytes, alignment) := HeapRequest(size, frameAlignment).value;
      var frame := FrameAt(allocation, frameAlignment);
      frame >= MARKER_BYTES && Pack(bytes, alignment).Some? &&
      BodyWritten(Headed(mem, allocation, resource, Pack(bytes, alignment).value, frame), written, frame, size)
    ensures var (bytes, alignment) := HeapRequest(size, frameAlignment).value;
      freed == ToResource(resource, allocation, bytes, alignment)
  {
    var frame := FrameAt(allocation, frameAlignment);
    HeapFrameLayout(allocation, size, frameAlignment);
    BodyEndsInside(allocation, size, frameAlignment);
    HeaderReadBack(mem, written, allocation, resource, size, frameAlignment);
    forall t: nat, j: nat ensures !SlotOf(info, t, j, frame) {
      HeapFrameNoSlot(info, allocation, size, frameAlignment, t, j);
    }
    freed := DeallocateFrame(slabs, info, written, frame);
  }

  /**
   * The round trip of a heap frame whose memory is a slot that the pool, as a resource, handed out for it:
   * DeallocateFrame hands the slot back to the pool, and the pool to its slab.  Without any other resource in between
   * this is the empty frame, and no other.
   */
  method PooledFrameReturns(slabs: SlabMap, info: map<nat, Slab>, table: seq<nat>, mem: map<nat, nat>,
                            written: map<nat, nat>, s: nat, i: nat, pool: nat, size: nat, frameAlignment: nat)
      returns (freed: Freed, slab: Option<nat>)
    requires slabs.Valid() && SlabsOk(info) && slabs.slabs == info.Keys && TableOk(table)
    requires frameAlignment > 0 && HeapRequest(size, frameAlignment).Some?
    requires var (bytes, alignment) := HeapRequest(size, frameAlignment).value;
      OfClass(info, s, FindClass(table, bytes, alignment)) && i < info[s].count
    requires var (bytes, alignment) := HeapRequest(size, frameAlignment).value;
      var slot := SlotAt(s, info[s].size, i);
      var frame := FrameAt(slot, frameAlignment);
      frame >= MARKER_BYTES && Pack(bytes, alignment).Some? &&
      BodyWritten(Headed(mem, slot, pool, Pack(bytes, alignment).value, frame), written, frame, size)
    ensures var (bytes, alignment) := HeapRequest(size, frameAlignment).value;
      freed == ToResource(pool, SlotAt(s, info[s].size, i), bytes, alignment)
    ensures slab == Some(s)
  {
    hide FindClass, HeapRequest, TableOk;
    var request := HeapRequest(size, frameAlignment).value;
    RequestAligned(size, frameAlignment);
    SlotGranted(table, info, s, i, request.0, request.1);
    SlotEnds(info, s, i);
    FoundFits(table, request.0, request.1);
    var slot := SlotAt(s, info[s].size, i);
    LastChunk(s);
    freed := HeapFrameReturns(slabs, info, mem, written, slot, pool, size, frameAlignment);
    slab := PoolDeallocate(slabs, info, freed.allocation);
    assert SlotOf(info, s, i, slot);
  }

  lemma {:induction false} RequestAligned(size: nat, frameAlignment: nat)
    requires HeapRequest(size, frameAlignment).Some?
    ensures SingleBit(HeapRequest(size, frameAlignment).value.1) && HeapRequest(size, frameAlignment).value.0 > 0
  {
  }

  lemma {:induction false} FoundFits(table: seq<nat>, bytes: nat, alignment: nat)
    requires TableOk(table) && FindClass(table, bytes, alignment) < |CLASSES|
    ensures bytes <= CLASSES[FindClass(table, bytes, alignment)]
  {
  }

  lemma {:induction false} LastChunk(s: nat)
    requires s % CHUNK == 0 && s < CANONICAL
    ensures s + CHUNK <= CANONICAL
  {
  }
}
