/**
  The arithmetic of coroutine frames: packed metadata, size classes, slabs and
  the slab map, and the layout of frames on the heap.
 */
module FrameLayout {
  import opened Options
  import opened Powers

  // ---- Packed metadata -------------------------------------------------------------

  const MAX_EXPONENT: nat := 15

  /** The number of trailing zero bits. */
  function TrailingZeros(a: nat): (k: nat)
    requires a > 0
  {
    if a % 2 == 1 then 0 else 1 + TrailingZeros(a / 2)
  }

  predicate SingleBit(a: nat) {
    a > 0 && a == Pow2(TrailingZeros(a))
  }

  lemma {:induction false} TrailingZerosOf(k: nat)
    ensures TrailingZeros(Pow2(k)) == k
  {
    if k > 0 {
      assert Pow2(k) == 2 * Pow2(k - 1);
      TrailingZerosOf(k - 1);
    }
  }

  /** Two to the 60th. */
  const BYTES_LIMIT: nat := 0x1000_0000_0000_0000

  lemma {:induction false} BytesLimit()
    ensures Pow2(60) == BYTES_LIMIT
  {
    Sixty(60);
  }

  lemma {:induction false} Sixty(k: nat)
    requires k == 60
    ensures Pow2(k) == BYTES_LIMIT
  {
    Twenty(k - 40);
    Pow2Sum(k - 40, 20);
    Twenty(k - 40);
    Pow2Sum(k - 20, k - 40);
  }

  lemma {:induction false} Twenty(k: nat)
    requires k == 20
    ensures Pow2(k) == 0x10_0000
  {
    Ten(k - 10);
    Pow2Sum(k - 10, k - 10);
  }

  lemma {:induction false} Ten(k: nat)
    requires k == 10
    ensures Pow2(k) == 1024
  {
    assert Pow2(k) == 4 * Pow2(k - 2) && Pow2(k - 2) == 4 * Pow2(k - 4) && Pow2(k - 4) == 4 * Pow2(k - 6);
    assert Pow2(k - 6) == 4 * Pow2(k - 8) && Pow2(k - 8) == 4 * Pow2(k - 10);
  }

  /** Low 60 bits: bytes; high four bits: the binary logarithm of the alignment. */
  function Pack(bytes: nat, alignment: nat): Option<nat> {
    if bytes < BYTES_LIMIT && SingleBit(alignment) && TrailingZeros(alignment) <= MAX_EXPONENT
    then Some(BitOr(bytes, TrailingZeros(alignment) * BYTES_LIMIT))
    else None
  }

  function UnpackBytes(metadata: nat): nat {
    BitAnd(metadata, BYTES_LIMIT - 1)
  }

  function UnpackAlignment(metadata: nat): nat {
    Pow2(metadata / BYTES_LIMIT)
  }

  /** Exactly the encodable pairs are packed, into 64 bits, and unpack to what they were. */
  lemma {:induction false} PackRoundTrip(bytes: nat, alignment: nat)
    ensures Pack(bytes, alignment).Some? <==>
      bytes < BYTES_LIMIT && exists k: nat :: k <= MAX_EXPONENT && alignment == Pow2(k)
    ensures Pack(bytes, alignment).Some? ==>
      var m := Pack(bytes, alignment).value;
      m < 16 * BYTES_LIMIT && UnpackBytes(m) == bytes && UnpackAlignment(m) == alignment
  {
    if k: nat :| k <= MAX_EXPONENT && alignment == Pow2(k) { TrailingZerosOf(k); }
    if Pack(bytes, alignment).Some? {
      PackedFields(bytes, TrailingZeros(alignment));
    }
  }

  lemma {:induction false} PackedFields(bytes: nat, k: nat)
    requires bytes < BYTES_LIMIT && k <= MAX_EXPONENT
    ensures var m := BitOr(bytes, k * BYTES_LIMIT);
      m == bytes + k * BYTES_LIMIT && BitAnd(m, BYTES_LIMIT - 1) == bytes && m / BYTES_LIMIT == k
  {
    BytesLimit();
    PackedAt(bytes, k, 60);
  }

  lemma {:induction false} PackedAt(bytes: nat, k: nat, bits: nat)
    requires bytes < BYTES_LIMIT && Pow2(bits) == BYTES_LIMIT
    ensures var m := BitOr(bytes, k * BYTES_LIMIT);
      m == bytes + k * BYTES_LIMIT && BitAnd(m, BYTES_LIMIT - 1) == bytes && m / BYTES_LIMIT == k
  {
    OrDisjoint(bytes, k, bits);
    var m := bytes + k * BYTES_LIMIT;
    MaskWraps(m, bits);
    RemainderOf(m, BYTES_LIMIT, k, bytes);
  }

  // ---- Size classes ----------------------------------------------------------------

  const CLASSES: seq<nat> := [64, 96, 128, 192, 256, 384, 512, 768, 1024, 2048, 4096, 8192, 16384]
  const MAX_POOLED: nat := 16384
  const SLOT_ALIGNMENT: nat := 16
  const CHUNK: nat := 65536
  const SLAB_HEADER: nat := 64

  /** `i` is the smallest class that holds `n` bytes. */
  predicate Fits(n: nat, i: nat) {
    i < |CLASSES| && n <= CLASSES[i] && (i > 0 ==> CLASSES[i - 1] < n)
  }

  /** The lookup table by size, filled class by class. */
  method ClassTable() returns (table: seq<nat>)
    ensures TableOk(table) && table[0] == |CLASSES|
  {
    table := seq(MAX_POOLED + 1, _ => |CLASSES|);
    var start := 1;
    for i := 0 to |CLASSES|
      invariant |table| == MAX_POOLED + 1 && table[0] == |CLASSES|
      invariant start == if i == 0 then 1 else CLASSES[i - 1] + 1
      invariant forall n :: 1 <= n < start ==> Fits(n, table[n])
    {
      var n := start;
      while n <= CLASSES[i]
        invariant start <= n <= CLASSES[i] + 1 && |table| == MAX_POOLED + 1 && table[0] == |CLASSES|
        invariant forall m :: 1 <= m < n ==> Fits(m, table[m])
      {
        table := table[n := i];
        n := n + 1;
      }
      start := CLASSES[i] + 1;
    }
  }

  lemma {:induction false} SmallestClass(bytes: nat, i: nat)
    requires Fits(bytes, i)
    ensures forall j :: 0 <= j < |CLASSES| && bytes <= CLASSES[j] ==> i <= j
  {
    forall j | 0 <= j < i ensures CLASSES[j] <= CLASSES[i - 1] {
    }
  }

  ghost predicate TableOk(table: seq<nat>) {
    |table| == MAX_POOLED + 1 && forall n :: 1 <= n <= MAX_POOLED ==> Fits(n, table[n])
  }

  /** The class for a request, or the number of classes if it is not pooled. */
  function FindClass(table: seq<nat>, bytes: nat, alignment: nat): (i: nat)
    requires TableOk(table)
    ensures bytes == 0 || bytes > MAX_POOLED || alignment > SLOT_ALIGNMENT ==> i == |CLASSES|
    ensures 1 <= bytes <= MAX_POOLED && alignment <= SLOT_ALIGNMENT ==>
      i < |CLASSES| && bytes <= CLASSES[i] && forall j :: 0 <= j < |CLASSES| && bytes <= CLASSES[j] ==> i <= j
  {
    if bytes == 0 || bytes > MAX_POOLED || alignment > SLOT_ALIGNMENT then |CLASSES|
    else
      assert Fits(bytes, table[bytes]);
      SmallestClass(bytes, table[bytes]);
      table[bytes]
  }

  function SlotsPerChunk(size: nat): nat
    requires size > 0
  {
    (CHUNK - SLAB_HEADER) / size
  }

  // ---- Slots of a slab -------------------------------------------------------------

  /** The address of slot `i`. */
  function SlotAt(slab: nat, size: nat, i: nat): nat {
    slab + SLAB_HEADER + i * size
  }

  /** Whether a pointer is the start of a slot of the slab. */
  predicate IsSlot(slab: nat, size: nat, count: nat, p: nat) {
    if p < slab + SLAB_HEADER then false
    else
      var offset := p - (slab + SLAB_HEADER);
      size != 0 && offset % size == 0 && offset / size < count
  }

  lemma {:induction false} IsSlotExactly(slab: nat, size: nat, count: nat, p: nat)
    requires size > 0
    ensures IsSlot(slab, size, count, p) <==> exists i: nat :: i < count && p == SlotAt(slab, size, i)
  {
    if i: nat :| i < count && p == SlotAt(slab, size, i) {
      RemainderOf(i * size, size, i, 0);
    }
    if IsSlot(slab, size, count, p) {
      var i := (p - (slab + SLAB_HEADER)) / size;
      assert p == SlotAt(slab, size, i);
    }
  }

  /** The slots of a chunk lie behind the header, inside the chunk, and do not overlap. */
  lemma {:induction false} SlotsFit(slab: nat, size: nat, i: nat, j: nat)
    requires 0 < size <= CHUNK - SLAB_HEADER && i < SlotsPerChunk(size) && j < i
    ensures SlotAt(slab, size, j) + size <= SlotAt(slab, size, i)
    ensures slab + SLAB_HEADER <= SlotAt(slab, size, j) && SlotAt(slab, size, i) + size <= slab + CHUNK
  {
    var n := SlotsPerChunk(size);
    MulMonotone(j + 1, i, size);
    MulMonotone(i + 1, n, size);
    assert n * size <= CHUNK - SLAB_HEADER;
  }

  lemma {:induction false} MulMonotone(a: nat, b: nat, m: nat)
    requires a <= b
    ensures a * m <= b * m
  {
    assert b * m == a * m + (b - a) * m;
  }

  // ---- The slab map ----------------------------------------------------------------

  const CANONICAL: nat := 0x1_0000_0000_0000

  function MapIndex(addr: nat): (nat, nat) {
    var canonical := BitAnd(addr, CANONICAL - 1);
    (canonical / 0x1_0000_0000, BitAnd(canonical / 0x1_0000, 0xFFFF))
  }

  lemma {:induction false} MapIndexOf(addr: nat)
    requires addr < CANONICAL
    ensures var (l1, l2) := MapIndex(addr);
      l1 < 0x1_0000 && l2 < 0x1_0000 && l1 * 0x1_0000 + l2 == addr / CHUNK
  {
    Mask48(addr, 48);
    Mask16(addr / 0x1_0000, 16);
    TwoLevels(addr);
  }

  lemma {:induction false} TwoLevels(addr: nat)
    requires addr < CANONICAL
    ensures addr / 0x1_0000_0000 < 0x1_0000
      && addr / 0x1_0000_0000 * 0x1_0000 + addr / 0x1_0000 % 0x1_0000 == addr / CHUNK
  {
  }

  lemma {:induction false} Mask48(addr: nat, k: nat)
    requires addr < CANONICAL && k == 48
    ensures BitAnd(addr, CANONICAL - 1) == addr
  {
    PowerLiterals(k, 16);
    MaskWraps(addr, k);
  }

  lemma {:induction false} Mask16(x: nat, k: nat)
    requires k == 16
    ensures BitAnd(x, 0xFFFF) == x % 0x1_0000
  {
    PowerLiterals(48, k);
    MaskWraps(x, k);
  }

  lemma {:induction false} PowerLiterals(a: nat, b: nat)
    requires a == 48 && b == 16
    ensures Pow2(a) == CANONICAL && Pow2(b) == 0x1_0000
  {
    Ten(b - 6);
    Pow2Sum(b - 6, 6);
    Pow2Sum(b, b);
    Pow2Sum(2 * b, b);
  }

  /** Aligned slabs never share an entry, and every pointer into a slab finds the slab's entry. */
  lemma {:induction false} MapIndexExact(slab: nat, p: nat)
    requires slab % CHUNK == 0 && slab < CANONICAL && p < CANONICAL
    ensures MapIndex(p) == MapIndex(slab) <==> slab <= p < slab + CHUNK
  {
    MapIndexOf(slab);
    MapIndexOf(p);
    ChunkOf(slab, p);
  }

  lemma {:induction false} ChunkOf(slab: nat, p: nat)
    requires slab % CHUNK == 0
    ensures p / CHUNK == slab / CHUNK <==> slab <= p < slab + CHUNK
  {
  }

  /** The two-level map from addresses to slabs. */
  class SlabMap {
    var directories: map<nat, map<nat, nat>>
    ghost var slabs: set<nat>

    ghost predicate Valid()
      reads this
    {
      && (forall s :: s in slabs ==> s % CHUNK == 0 && s < CANONICAL && Find(MapIndex(s)) == Some(s))
      && (forall i: (nat, nat) :: Find(i).Some? ==> Find(i).value in slabs && MapIndex(Find(i).value) == i)
    }

    function Find(i: (nat, nat)): Option<nat>
      reads this
    {
      if i.0 in directories && i.1 in directories[i.0] then Some(directories[i.0][i.1]) else None
    }

    constructor ()
      ensures Valid() && slabs == {}
    {
      directories := map[];
      slabs := {};
    }

    method Register(slab: nat)
      requires Valid() && slab % CHUNK == 0 && slab < CANONICAL && slab !in slabs
      modifies this
      ensures Valid() && slabs == old(slabs) + {slab}
    {
      var i := MapIndex(slab);
      Unoccupied(slab);
      if i.0 !in directories {
        directories := directories[i.0 := map[]];
      }
      var directory: map<nat, nat> := directories[i.0];
      directories := directories[i.0 := directory[i.1 := slab]];
      slabs := slabs + {slab};
      forall s | s in slabs ensures Find(MapIndex(s)) == Some(s) {
        if s != slab {
          MapIndexExact(s, slab);
          var j := MapIndex(s);
          assert old(Find(j)) == Some(s) && (j.0 != i.0 || j.1 != i.1);
        }
      }
      forall j: (nat, nat) | Find(j).Some? ensures Find(j).value in slabs && MapIndex(Find(j).value) == j {
        if j != i { assert Find(j) == old(Find(j)); }
      }
    }

    method Unregister(slab: nat)
      requires Valid() && slab in slabs
      modifies this
      ensures Valid() && slabs == old(slabs) - {slab}
    {
      var i := MapIndex(slab);
      var directory: map<nat, nat> := directories[i.0];
      directories := directories[i.0 := directory - {i.1}];
      slabs := slabs - {slab};
      forall s | s in slabs ensures Find(MapIndex(s)) == Some(s) {
        MapIndexExact(s, slab);
        var j := MapIndex(s);
        assert old(Find(j)) == Some(s) && (j.0 != i.0 || j.1 != i.1);
      }
      forall j: (nat, nat) | Find(j).Some? ensures Find(j).value in slabs && MapIndex(Find(j).value) == j {
        assert Find(j) == old(Find(j)) && j != i;
      }
    }

    /** No slab has the entry of a slab that is not registered. */
    lemma Unoccupied(slab: nat)
      requires Valid() && slab % CHUNK == 0 && slab < CANONICAL && slab !in slabs
      ensures Find(MapIndex(slab)).None?
    {
      if Find(MapIndex(slab)).Some? { MapIndexExact(Find(MapIndex(slab)).value, slab); }
    }

    /** The slab that a pointer lies in, if there is one. */
    method Lookup(p: nat) returns (found: Option<nat>)
      requires Valid() && p < CANONICAL
      ensures found.Some? ==> found.value in slabs && found.value <= p < found.value + CHUNK
      ensures found.None? ==> forall s :: s in slabs ==> !(s <= p < s + CHUNK)
    {
      found := Find(MapIndex(p));
      forall s | s in slabs ensures MapIndex(p) == MapIndex(s) <==> s <= p < s + CHUNK { MapIndexExact(s, p); }
    }
  }

  // ---- Frames on the heap ------------------------------------------------------------

  const HEADER_BYTES: nat := 16
  const MARKER_BYTES: nat := 8
  const SIZE_MAX: nat := 0xFFFF_FFFF_FFFF_FFFF

  function Max(a: nat, b: nat): nat { if a < b then b else a }

  function AlignUp(x: nat, a: nat): nat
    requires a > 0
  {
    (x + a - 1) / a * a
  }

  lemma {:induction false} AlignUpOf(x: nat, a: nat)
    requires a > 0
    ensures x <= AlignUp(x, a) <= x + a - 1 && AlignUp(x, a) % a == 0
  {
    var q, r := (x + a - 1) / a, (x + a - 1) % a;
    assert x + a - 1 == a * q + r;
    RemainderOf(q * a, a, q, 0);
  }

  /** What the heap is asked for; none if the request cannot be encoded. */
  function HeapRequest(size: nat, frameAlignment: nat): Option<(nat, nat)> {
    var alignment, prefix := Max(frameAlignment, 8), HEADER_BYTES + MARKER_BYTES;
    if size > SIZE_MAX - prefix || alignment > SIZE_MAX - (prefix + size) then None
    else
      var bytes := prefix + size + alignment - 1;
      if bytes >= BYTES_LIMIT || !SingleBit(alignment) || TrailingZeros(alignment) > MAX_EXPONENT then None
      else Some((bytes, alignment))
  }

  /** Where the frame goes in an allocation. */
  function FrameAt(allocation: nat, frameAlignment: nat): nat
    requires frameAlignment > 0
  {
    AlignUp(allocation + HEADER_BYTES + MARKER_BYTES, frameAlignment)
  }

  /**
   * Header, marker and aligned body are disjoint and inside the allocation, wherever that is; and the header's metadata
   * gives back exactly the size and the alignment that were asked for.
   */
  lemma {:induction false} HeapFrameLayout(allocation: nat, size: nat, frameAlignment: nat)
    requires frameAlignment > 0 && HeapRequest(size, frameAlignment).Some?
    ensures var (bytes, alignment) := HeapRequest(size, frameAlignment).value;
      var frame := FrameAt(allocation, frameAlignment);
      && frame % frameAlignment == 0
      && allocation + HEADER_BYTES <= frame - MARKER_BYTES && frame + size <= allocation + bytes
      && Pack(bytes, alignment).Some?
      && UnpackBytes(Pack(bytes, alignment).value) == bytes
        && UnpackAlignment(Pack(bytes, alignment).value) == alignment
  {
    var (bytes, alignment) := HeapRequest(size, frameAlignment).value;
    AlignUpOf(allocation + HEADER_BYTES + MARKER_BYTES, frameAlignment);
    PackRoundTrip(bytes, alignment);
  }

  // ---- Which way a frame is freed ----------------------------------------------------

  datatype Slab = Slab(size: nat, count: nat)

  /** `p` is slot `i` of the registered slab `s`. */
  ghost predicate SlotOf(info: map<nat, Slab>, s: nat, i: nat, p: nat) {
    s in info && i < info[s].count && p == SlotAt(s, info[s].size, i)
  }

  /** A block of memory that overlaps no slab. */
  ghost predicate OutsideSlabs(slabs: set<nat>, start: nat, bytes: nat) {
    forall s :: s in slabs ==> start + bytes <= s || s + CHUNK <= start
  }

  /** Chunks as AddChunk makes them. */
  ghost predicate Chunked(slabs: set<nat>, info: map<nat, Slab>) {
    slabs == info.Keys && forall s :: s in info ==>
      0 < info[s].size <= CHUNK - SLAB_HEADER
      && info[s].count == SlotsPerChunk(info[s].size)
  }

  /** Recognizes exactly the slots of the registered slabs, and tells their slab. */
  method OwnerOf(slabs: SlabMap, info: map<nat, Slab>, p: nat) returns (slab: Option<nat>)
    requires slabs.Valid() && Chunked(slabs.slabs, info) && p < CANONICAL
    ensures slab.Some? ==> exists i: nat :: SlotOf(info, slab.value, i, p)
    ensures forall s: nat, i: nat :: SlotOf(info, s, i, p) ==> slab == Some(s)
  {
    var found := slabs.Lookup(p);
    forall s: nat, i: nat | SlotOf(info, s, i, p) ensures found == Some(s)
      && IsSlot(s, info[s].size, info[s].count, p) {
      SlotRecognized(slabs.slabs, info, s, i, p);
      assert s in slabs.slabs;
      SameChunk(s, found.value, p);
    }
    if found.None? || !IsSlot(found.value, info[found.value].size, info[found.value].count, p) {
      return None;
    }
    IsSlotExactly(found.value, info[found.value].size, info[found.value].count, p);
    ghost var i: nat :| i < info[found.value].count && p == SlotAt(found.value, info[found.value].size, i);
    assert SlotOf(info, found.value, i, p);
    return found;
  }

  lemma {:induction false} SameChunk(s: nat, t: nat, p: nat)
    requires s % CHUNK == 0 && t % CHUNK == 0 && s <= p < s + CHUNK && t <= p < t + CHUNK
    ensures s == t
  {
  }

  lemma {:induction false} SlotRecognized(slabs: set<nat>, info: map<nat, Slab>, s: nat, i: nat, p: nat)
    requires Chunked(slabs, info) && SlotOf(info, s, i, p)
    ensures s <= p < s + CHUNK && IsSlot(s, info[s].size, info[s].count, p)
  {
    var size, n := info[s].size, info[s].count;
    IsSlotExactly(s, size, n, p);
    MulMonotone(i + 1, n, size);
    assert n * size <= CHUNK - SLAB_HEADER && (i + 1) * size == i * size + size;
  }
}
