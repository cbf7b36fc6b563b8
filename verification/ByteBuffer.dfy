/** The byte buffer: a chain of blocks with write reservations, which behaves like a sequence of bytes. */
module ByteBuffer {
  import opened Options

  type Byte = bv8

  datatype Block = Block(data: seq<Byte>, readPos: nat, writePos: nat, reserved: bool)

  ghost predicate BlockOk(b: Block) {
    b.readPos <= b.writePos <= |b.data|
  }

  /** The readable and the writable bytes of a block. */
  function Readable(b: Block): nat
    requires BlockOk(b)
  {
    b.writePos - b.readPos
  }

  function Writable(b: Block): nat
    requires BlockOk(b)
  {
    |b.data| - b.writePos
  }

  function ReadPart(b: Block): seq<Byte>
    requires BlockOk(b)
  {
    b.data[b.readPos..b.writePos]
  }

  function WritePart(b: Block): seq<Byte>
    requires BlockOk(b)
  {
    b.data[b.writePos..]
  }

  ghost predicate BlocksOk(bs: seq<Block>) {
    forall i :: 0 <= i < |bs| ==> BlockOk(bs[i])
  }

  /** What can be read from a chain. */
  ghost function Contents(bs: seq<Block>): seq<Byte>
    requires BlocksOk(bs)
  {
    if bs == [] then [] else ReadPart(bs[0]) + Contents(bs[1..])
  }

  /** What a write through the reserved ranges of a chain fills, in order. */
  ghost function Reserved(bs: seq<Block>): seq<Byte>
    requires BlocksOk(bs)
  {
    if bs == [] then [] else (if bs[0].reserved then WritePart(bs[0]) else []) + Reserved(bs[1..])
  }

  lemma {:induction false} ContentsSplit(a: seq<Block>, b: seq<Block>)
    requires BlocksOk(a) && BlocksOk(b)
    ensures Contents(a + b) == Contents(a) + Contents(b)
  {
    if a == [] {
      assert a + b == b;
    } else {
      assert (a + b)[0] == a[0] && (a + b)[1..] == a[1..] + b;
      ContentsSplit(a[1..], b);
    }
  }

  lemma {:induction false} ReservedSplit(a: seq<Block>, b: seq<Block>)
    requires BlocksOk(a) && BlocksOk(b)
    ensures Reserved(a + b) == Reserved(a) + Reserved(b)
  {
    if a == [] {
      assert a + b == b;
    } else {
      assert (a + b)[0] == a[0] && (a + b)[1..] == a[1..] + b;
      ReservedSplit(a[1..], b);
    }
  }

  lemma {:induction false} ContentsOne(b: Block)
    requires BlockOk(b)
    ensures Contents([b]) == ReadPart(b) && Reserved([b]) == if b.reserved then WritePart(b) else []
  {
    assert [b][1..] == [];
  }

  /** No block is reserved, or none has anything to read. */
  ghost predicate Free(bs: seq<Block>) {
    forall i :: 0 <= i < |bs| ==> !bs[i].reserved
  }

  ghost predicate Fresh(bs: seq<Block>) {
    forall i :: 0 <= i < |bs| ==> bs[i].reserved && bs[i].readPos == bs[i].writePos
  }

  /** The reserved blocks end the chain, and only the first of them may have something to read. */
  ghost predicate ReservedTail(bs: seq<Block>, k: nat) {
    k <= |bs| && Free(bs[..k]) && (k < |bs| ==> bs[k].reserved && Fresh(bs[k + 1..]))
  }

  lemma {:induction false} FreeReserved(bs: seq<Block>)
    requires BlocksOk(bs) && Free(bs)
    ensures Reserved(bs) == []
  {
    if bs != [] { FreeReserved(bs[1..]); }
  }

  lemma {:induction false} FreshContents(bs: seq<Block>)
    requires BlocksOk(bs) && Fresh(bs)
    ensures Contents(bs) == []
  {
    if bs != [] { FreshContents(bs[1..]); }
  }

  // ---- Committing --------------------------------------------------------------

  function Min(a: nat, b: nat): nat { if a < b then a else b }

  /** A chain after `n` bytes of its reserved ranges were committed. */
  ghost function Committed(bs: seq<Block>, n: nat): (r: seq<Block>)
    requires BlocksOk(bs)
    ensures BlocksOk(r) && |r| == |bs|
  {
    if bs == [] || n == 0 then bs
    else if !bs[0].reserved then [bs[0]] + Committed(bs[1..], n)
    else
      var m := Min(n, Writable(bs[0]));
      [bs[0].(writePos := bs[0].writePos + m)] + Committed(bs[1..], n - m)
  }

  /** The first `n` items of a concatenation, behind `r`. */
  lemma {:induction false} TakeSplit(r: seq<Byte>, a: seq<Byte>, b: seq<Byte>, n: nat, m: nat)
    requires n <= |a| + |b| && m == Min(n, |a|)
    ensures (r + a[..m]) + b[..n - m] == r + (a + b)[..n]
  {
  }

  /** Committing in one block: its writable bytes become readable from the front on. */
  lemma {:induction false} CommitBlock(b: Block, m: nat)
    requires BlockOk(b) && m <= Writable(b)
    ensures var b' := b.(writePos := b.writePos + m);
      BlockOk(b') && ReadPart(b') == ReadPart(b) + WritePart(b)[..m]
  {
  }

  lemma {:induction false} CommitHead(b: Block, rest: seq<Block>, n: nat)
    requires BlocksOk([b] + rest) && b.reserved && n > 0
    ensures BlockOk(b) && BlocksOk(rest)
    ensures var m := Min(n, Writable(b));
      Committed([b] + rest, n) == [b.(writePos := b.writePos + m)] + Committed(rest, n - m)
  {
    var bs := [b] + rest;
    assert bs[0] == b && bs[1..] == rest;
    forall i | 0 <= i < |rest| ensures BlockOk(rest[i]) { assert rest[i] == bs[i + 1]; }
  }

  lemma {:induction false} Cons(b: Block, rest: seq<Block>)
    requires BlockOk(b) && BlocksOk(rest)
    ensures BlocksOk([b] + rest)
    ensures Contents([b] + rest) == ReadPart(b) + Contents(rest)
    ensures Reserved([b] + rest) == (if b.reserved then WritePart(b) else []) + Reserved(rest)
  {
    assert ([b] + rest)[1..] == rest;
  }

  /** Reserved blocks of which only the first has something to read: committing appends. */
  lemma {:induction false} CommitTail(b: Block, rest: seq<Block>, n: nat)
    requires BlockOk(b) && BlocksOk(rest) && b.reserved && Fresh(rest) && n <= Writable(b) + |Reserved(rest)|
    ensures BlocksOk([b] + rest)
    ensures Contents(Committed([b] + rest, n)) == ReadPart(b) + (WritePart(b) + Reserved(rest))[..n]
    decreases |rest|, 2
  {
    Cons(b, rest);
    if n == 0 {
      FreshContents(rest);
      assert ReadPart(b) + (WritePart(b) + Reserved(rest))[..0] == ReadPart(b) + [];
    } else {
      var m := Min(n, Writable(b));
      CommitTailMore(b, rest, n, m);
      TakeSplit(ReadPart(b), WritePart(b), Reserved(rest), n, m);
    }
  }

  lemma {:induction false} CommitTailMore(b: Block, rest: seq<Block>, n: nat, m: nat)
    requires BlockOk(b) && BlocksOk(rest) && b.reserved && Fresh(rest) && BlocksOk([b] + rest)
    requires 0 < n && m <= n && m == Min(n, Writable(b)) && n - m <= |Reserved(rest)|
    ensures Contents(Committed([b] + rest, n)) == (ReadPart(b) + WritePart(b)[..m]) + Reserved(rest)[..n - m]
    decreases |rest|, 1
  {
    CommitRest(rest, n - m);
    CommitHead(b, rest, n);
    CommitBlock(b, m);
    Cons(b.(writePos := b.writePos + m), Committed(rest, n - m));
  }

  lemma {:induction false} CommitRest(rest: seq<Block>, n: nat)
    requires BlocksOk(rest) && Fresh(rest) && n <= |Reserved(rest)|
    ensures Contents(Committed(rest, n)) == Reserved(rest)[..n]
    decreases |rest|, 0
  {
    if rest != [] {
      var b, more := rest[0], rest[1..];
      assert rest == [b] + more && ReadPart(b) == [];
      CommitTail(b, more, n);
      Cons(b, more);
    }
  }

  lemma {:induction false} CommitSkip(a: seq<Block>, t: seq<Block>, n: nat)
    requires BlocksOk(a) && BlocksOk(t) && Free(a)
    ensures Committed(a + t, n) == a + Committed(t, n)
  {
    if a == [] {
      assert a + t == t && a + Committed(t, n) == Committed(t, n);
    } else {
      assert (a + t)[0] == a[0] && (a + t)[1..] == a[1..] + t;
      CommitSkip(a[1..], t, n);
      assert [a[0]] + (a[1..] + Committed(t, n)) == a + Committed(t, n);
    }
  }

  lemma {:induction false} Associate(a: seq<Byte>, b: seq<Byte>, c: seq<Byte>)
    ensures a + (b + c) == a + b + c
  {
  }

  /** Committing `n` bytes appends exactly the first `n` bytes of the reserved ranges. */
  lemma {:induction false} CommitAppends(bs: seq<Block>, k: nat, n: nat)
    requires BlocksOk(bs) && ReservedTail(bs, k) && n <= |Reserved(bs)|
    ensures Contents(Committed(bs, n)) == Contents(bs) + Reserved(bs)[..n]
  {
    var a, t := bs[..k], bs[k..];
    assert bs == a + t;
    assert Reserved(bs) == Reserved(t) by {
      ReservedSplit(a, t);
      FreeReserved(a);
    }
    CommitTailOf(bs, k, n);
    CommitSkip(a, t, n);
    ContentsSplit(a, t);
    ContentsSplit(a, Committed(t, n));
    Associate(Contents(a), Contents(t), Reserved(t)[..n]);
  }

  lemma {:induction false} CommitTailOf(bs: seq<Block>, k: nat, n: nat)
    requires BlocksOk(bs) && ReservedTail(bs, k) && n <= |Reserved(bs[k..])|
    ensures Contents(Committed(bs[k..], n)) == Contents(bs[k..]) + Reserved(bs[k..])[..n]
  {
    if k < |bs| {
      var t, b, rest := bs[k..], bs[k], bs[k + 1..];
      assert t == [b] + rest;
      Cons(b, rest);
      FreshContents(rest);
      CommitTail(b, rest, n);
      assert Contents(t) == ReadPart(b) + [];
    }
  }

  // ---- The buffer ----------------------------------------------------------------

  function Max(a: nat, b: nat): nat { if a < b then b else a }

  function NewBlock(capacity: nat, reserved: bool): (b: Block)
    ensures BlockOk(b) && Readable(b) == 0 && Writable(b) == capacity
  {
    Block(seq(capacity, _ => 0), 0, 0, reserved)
  }

  /** Block `b` with `bytes` behind what it holds; there is room for them. */
  function Grown(b: Block, bytes: seq<Byte>): (r: Block)
    requires BlockOk(b) && |bytes| <= Writable(b)
    ensures BlockOk(r) && ReadPart(r) == ReadPart(b) + bytes && |r.data| == |b.data|
    ensures r.readPos == b.readPos && r.writePos == b.writePos + |bytes| && r.reserved == b.reserved
  {
    b.(data := b.data[..b.writePos] + bytes + b.data[b.writePos + |bytes|..], writePos := b.writePos + |bytes|)
  }

  /** The last block of a chain is replaced. */
  lemma {:induction false} ReplaceLast(bs: seq<Block>, b: Block)
    requires BlocksOk(bs) && BlockOk(b) && bs != []
    ensures var n := |bs| - 1;
      && BlocksOk(bs[n := b])
      && Contents(bs) == Contents(bs[..n]) + ReadPart(bs[n]) && Contents(bs[n := b]) == Contents(bs[..n]) + ReadPart(b)
  {
    var n := |bs| - 1;
    assert bs == bs[..n] + [bs[n]] && bs[n := b] == bs[..n] + [b];
    ContentsSplit(bs[..n], [bs[n]]);
    ContentsSplit(bs[..n], [b]);
    ContentsOne(bs[n]);
    ContentsOne(b);
  }

  lemma {:induction false} AddLast(bs: seq<Block>, b: Block)
    requires BlocksOk(bs) && BlockOk(b)
    ensures BlocksOk(bs + [b]) && Contents(bs + [b]) == Contents(bs) + ReadPart(b)
    ensures Reserved(bs + [b]) == Reserved(bs) + if b.reserved then WritePart(b) else []
  {
    ContentsSplit(bs, [b]);
    ReservedSplit(bs, [b]);
    ContentsOne(b);
  }

  // ---- Reserved ranges -------------------------------------------------------------

  function Sum(ns: seq<nat>): nat {
    if ns == [] then 0 else ns[0] + Sum(ns[1..])
  }

  /** The lengths of the reserved ranges that are not empty. */
  ghost function Lens(bs: seq<Block>): seq<nat>
    requires BlocksOk(bs)
  {
    if bs == [] then [] else LenOf(bs[0]) + Lens(bs[1..])
  }

  ghost function LenOf(b: Block): seq<nat>
    requires BlockOk(b)
  {
    if b.reserved && Writable(b) > 0 then [Writable(b)] else []
  }

  lemma {:induction false} LensOne(b: Block)
    requires BlockOk(b)
    ensures Lens([b]) == LenOf(b)
  {
    assert [b][1..] == [];
  }

  lemma {:induction false} SumSplit(a: seq<nat>, b: seq<nat>)
    ensures Sum(a + b) == Sum(a) + Sum(b)
  {
    if a == [] {
      assert a + b == b;
    } else {
      assert (a + b)[0] == a[0] && (a + b)[1..] == a[1..] + b;
      SumSplit(a[1..], b);
    }
  }

  lemma {:induction false} LensSplit(a: seq<Block>, b: seq<Block>)
    requires BlocksOk(a) && BlocksOk(b)
    ensures Lens(a + b) == Lens(a) + Lens(b)
  {
    if a == [] {
      assert a + b == b;
    } else {
      assert (a + b)[0] == a[0] && (a + b)[1..] == a[1..] + b;
      LensSplit(a[1..], b);
    }
  }

  lemma {:induction false} LensNext(bs: seq<Block>, i: nat)
    requires BlocksOk(bs) && i < |bs|
    ensures Lens(bs[..i + 1]) == Lens(bs[..i]) + LenOf(bs[i])
  {
    assert bs[..i + 1] == bs[..i] + [bs[i]];
    LensSplit(bs[..i], [bs[i]]);
    LensOne(bs[i]);
  }

  lemma {:induction false} LensDone(bs: seq<Block>, i: nat)
    requires BlocksOk(bs) && i <= |bs| && |Lens(bs)| <= |Lens(bs[..i])|
    ensures Lens(bs) == Lens(bs[..i])
  {
    assert bs[..i] + bs[i..] == bs;
    LensSplit(bs[..i], bs[i..]);
  }

  lemma {:induction false} LensSum(bs: seq<Block>)
    requires BlocksOk(bs)
    ensures Sum(Lens(bs)) == |Reserved(bs)|
  {
    if bs != [] {
      LensSum(bs[1..]);
      SumSplit(LenOf(bs[0]), Lens(bs[1..]));
    }
  }

  lemma {:induction false} FreeLens(bs: seq<Block>)
    requires BlocksOk(bs) && Free(bs)
    ensures Lens(bs) == []
  {
    if bs != [] { FreeLens(bs[1..]); }
  }

  /** The last block of a free chain is reserved. */
  lemma {:induction false} ReserveLast(bs: seq<Block>, b: Block)
    requires BlocksOk(bs) && Free(bs) && bs != [] && b == bs[|bs| - 1].(reserved := true)
    ensures var bs' := bs[|bs| - 1 := b];
      && BlocksOk(bs') && Contents(bs') == Contents(bs) && ReservedTail(bs', |bs| - 1) && |Reserved(bs')| == Writable(b)
      && (Writable(b) > 0 ==> |Lens(bs')| == 1)
  {
    var last := |bs| - 1;
    var before := bs[..last];
    var bs' := bs[last := b];
    assert bs' == before + [b] && bs'[..last] == before && bs'[last + 1..] == [];
    ReplaceLast(bs, b);
    FreeReserved(before);
    FreeLens(before);
    AddLast(before, b);
    LensSplit(before, [b]);
    LensOne(b);
  }

  /** A new reserved block is added. */
  lemma {:induction false} AddReserved(bs: seq<Block>, k: nat, b: Block)
    requires BlocksOk(bs) && ReservedTail(bs, k) && BlockOk(b) && b.reserved && b.readPos == b.writePos
      && Writable(b) > 0
    ensures var bs' := bs + [b];
      && BlocksOk(bs') && Contents(bs') == Contents(bs) && ReservedTail(bs', k)
      && |Reserved(bs')| == |Reserved(bs)| + Writable(b) && |Lens(bs')| == |Lens(bs)| + 1
  {
    var bs' := bs + [b];
    AddLast(bs, b);
    LensSplit(bs, [b]);
    LensOne(b);
    assert ReadPart(b) == [] && bs'[..k] == bs[..k];
    if k < |bs| { assert bs'[k + 1..] == bs[k + 1..] + [b]; } else { assert bs'[k + 1..] == []; }
  }

  /** The same chains but for the bytes in the reserved ranges. */
  ghost predicate SameOutside(bs: seq<Block>, bs': seq<Block>) {
    |bs'| == |bs| && forall i :: 0 <= i < |bs| ==> SameBlock(bs[i], bs'[i])
  }

  ghost predicate SameBlock(b: Block, b': Block) {
    && BlockOk(b) && |b'.data| == |b.data| && b' == b.(data := b'.data)
    && b'.data[..b.writePos] == b.data[..b.writePos] && (!b.reserved ==> b' == b)
  }

  lemma {:induction false} OverwriteKeeps(bs: seq<Block>, bs': seq<Block>, k: nat)
    requires BlocksOk(bs) && SameOutside(bs, bs')
    ensures BlocksOk(bs') && Contents(bs') == Contents(bs) && |Reserved(bs')| == |Reserved(bs)|
    ensures ReservedTail(bs, k) ==> ReservedTail(bs', k)
  {
    forall i | 0 <= i < |bs'| ensures BlockOk(bs'[i]) { assert SameBlock(bs[i], bs'[i]); }
    OverwriteContents(bs, bs');
    if ReservedTail(bs, k) {
      forall i | 0 <= i < |bs| ensures bs'[i].reserved == bs[i].reserved && bs'[i].readPos == bs[i].readPos
        && bs'[i].writePos == bs[i].writePos {
        assert SameBlock(bs[i], bs'[i]);
      }
    }
  }

  lemma {:induction false} OverwriteContents(bs: seq<Block>, bs': seq<Block>)
    requires BlocksOk(bs) && BlocksOk(bs') && SameOutside(bs, bs')
    ensures Contents(bs') == Contents(bs) && |Reserved(bs')| == |Reserved(bs)|
  {
    if bs != [] {
      OverwriteContents(bs[1..], bs'[1..]);
      assert SameBlock(bs[0], bs'[0]);
      assert ReadPart(bs'[0]) == bs'[0].data[..bs[0].writePos][bs[0].readPos..];
    }
  }

  /** Chains whose blocks read the same read the same. */
  lemma {:induction false} SameReads(bs: seq<Block>, bs': seq<Block>)
    requires BlocksOk(bs) && BlocksOk(bs') && |bs'| == |bs|
    requires forall i :: 0 <= i < |bs| ==> ReadPart(bs'[i]) == ReadPart(bs[i])
    ensures Contents(bs') == Contents(bs)
  {
    if bs != [] {
      forall i | 0 <= i < |bs[1..]| ensures ReadPart(bs'[1..][i]) == ReadPart(bs[1..][i]) {
        assert bs'[1..][i] == bs'[i + 1] && bs[1..][i] == bs[i + 1];
      }
      SameReads(bs[1..], bs'[1..]);
    }
  }

  lemma {:induction false} Unreserve(bs: seq<Block>, i: nat)
    requires BlocksOk(bs) && i < |bs| && Free(bs[..i])
    ensures var bs' := bs[i := bs[i].(reserved := false)];
      BlocksOk(bs') && Contents(bs') == Contents(bs) && Free(bs'[..i + 1])
  {
    SameReads(bs, bs[i := bs[i].(reserved := false)]);
  }

  /** One step of a commit; `m` bytes go into the first block. */
  lemma {:induction false} CommitNext(t: seq<Block>, n: nat, m: nat)
    requires BlocksOk(t) && t != [] && 0 < n <= |Reserved(t)|
      && m == if t[0].reserved then Min(n, Writable(t[0])) else 0
    ensures m <= n && n - m <= |Reserved(t[1..])|
    ensures Committed(t, n) == [t[0].(writePos := t[0].writePos + m)] + Committed(t[1..], n - m)
  {
    if t[0].reserved {
      CommitReserved(t, n, m);
    } else {
      assert t[0].(writePos := t[0].writePos + 0) == t[0] && Reserved(t) == [] + Reserved(t[1..]);
    }
  }

  lemma {:induction false} CommitReserved(t: seq<Block>, n: nat, m: nat)
    requires BlocksOk(t) && t != [] && t[0].reserved && 0 < n <= |Reserved(t)| && m == Min(n, Writable(t[0]))
    ensures n - m <= |Reserved(t[1..])|
    ensures Committed(t, n) == [t[0].(writePos := t[0].writePos + m)] + Committed(t[1..], n - m)
  {
    assert |WritePart(t[0])| == Writable(t[0]) && Reserved(t) == WritePart(t[0]) + Reserved(t[1..]);
  }

  /** `done` is committed and `remaining` bytes of `rest` are still to be; `all` is what comes out. */
  ghost predicate Committing(all: seq<Block>, now: seq<Block>, done: seq<Block>, rest: seq<Block>, remaining: nat) {
    && now == done + rest && BlocksOk(rest) && remaining <= |Reserved(rest)| && all == done + Committed(rest, remaining)
  }

  lemma {:induction false} CommittingNext(all: seq<Block>, now: seq<Block>, done: seq<Block>, rest: seq<Block>,
      remaining: nat, m: nat, b: Block)
    requires Committing(all, now, done, rest, remaining) && rest != [] && remaining > 0
    requires m == if rest[0].reserved then Min(remaining, Writable(rest[0])) else 0
    requires b == rest[0].(writePos := rest[0].writePos + m)
    ensures m <= remaining && Committing(all, now[|done| := b], done + [b], rest[1..], remaining - m)
  {
    CommitNext(rest, remaining, m);
    JoinOne(now, done, rest, b, Committed(rest[1..], remaining - m));
  }

  lemma {:induction false} JoinOne(now: seq<Block>, done: seq<Block>, rest: seq<Block>, b: Block, more: seq<Block>)
    requires now == done + rest && rest != []
    ensures now[|done| := b] == (done + [b]) + rest[1..] && done + ([b] + more) == (done + [b]) + more
  {
  }

  // ---- Search ------------------------------------------------------------------------

  ghost predicate Occurs(all: seq<Byte>, needle: seq<Byte>, at: nat) {
    at + |needle| <= |all| && all[at..at + |needle|] == needle
  }

  /** Byte `i` of block `j` in the contents. */
  lemma {:induction false} ByteAt(bs: seq<Block>, j: nat, i: nat)
    requires BlocksOk(bs) && j < |bs| && i < Readable(bs[j])
    ensures var at := |Contents(bs[..j])| + i; at < |Contents(bs)| && Contents(bs)[at] == bs[j].data[bs[j].readPos + i]
  {
    var a, t := bs[..j], bs[j + 1..];
    assert bs == a + ([bs[j]] + t);
    Cons(bs[j], t);
    ContentsSplit(a, [bs[j]] + t);
  }

  lemma {:induction false} OffsetNext(bs: seq<Block>, j: nat)
    requires BlocksOk(bs) && j < |bs|
    ensures |Contents(bs[..j + 1])| == |Contents(bs[..j])| + Readable(bs[j]) <= |Contents(bs)|
  {
    assert bs[..j + 1] == bs[..j] + [bs[j]] && bs == bs[..j + 1] + bs[j + 1..];
    AddLast(bs[..j], bs[j]);
    ContentsSplit(bs[..j + 1], bs[j + 1..]);
  }

  /** The first `n` bytes of the needle are there. */
  ghost predicate Agrees(all: seq<Byte>, needle: seq<Byte>, start: nat, n: nat) {
    n <= |needle| && start + n <= |all| && all[start..start + n] == needle[..n]
  }

  lemma {:induction false} Match(all: seq<Byte>, needle: seq<Byte>, start: nat, n: nat)
    requires Agrees(all, needle, start, n) && start + n < |all| && n < |needle| && all[start + n] == needle[n]
    ensures Agrees(all, needle, start, n + 1)
  {
    assert all[start..start + n + 1] == all[start..start + n] + [all[start + n]];
    assert needle[..n + 1] == needle[..n] + [needle[n]];
  }

  lemma {:induction false} Mismatch(all: seq<Byte>, needle: seq<Byte>, start: nat, n: nat)
    requires start + n < |all| && n < |needle| && all[start + n] != needle[n]
    ensures !Occurs(all, needle, start)
  {
    if start + |needle| <= |all| { assert all[start..start + |needle|][n] == all[start + n]; }
  }

  lemma {:induction false} TooLate(all: seq<Byte>, needle: seq<Byte>, at: nat)
    requires at + |needle| > |all|
    ensures !Occurs(all, needle, at)
  {
  }

  lemma {:induction false} FirstDiffers(all: seq<Byte>, needle: seq<Byte>, at: nat)
    requires at < |all| && needle != [] && all[at] != needle[0]
    ensures !Occurs(all, needle, at)
  {
    Mismatch(all, needle, at, 0);
  }

  lemma {:induction false} FrontBytes(bs: seq<Block>, n: nat)
    requires BlocksOk(bs) && bs != [] && n <= Readable(bs[0])
    ensures n <= |Contents(bs)| && Contents(bs)[..n] == ReadPart(bs[0])[..n]
  {
  }

  lemma {:induction false} SplitAgain(all: seq<Byte>, i: nat, n: nat)
    requires i + n <= |all|
    ensures all[..i] + all[i..][..n] == all[..i + n] && all[i..][n..] == all[i + n..]
  {
  }

  class Buffer {
    var blocks: seq<Block>
    var readable: nat
    var blockSize: nat
    var writeReserved: bool
    var reservedBytes: nat
    /** Where the reserved blocks begin. */
    ghost var split: nat

    ghost predicate Valid()
      reads this
    {
      && BlocksOk(blocks) && blockSize > 0 && readable == |Contents(blocks)|
      && (if writeReserved then ReservedTail(blocks, split) && reservedBytes == |Reserved(blocks)|
          else Free(blocks) && reservedBytes == 0)
    }

    /** The bytes that can be read. */
    ghost function Bytes(): seq<Byte>
      requires Valid()
      reads this
    {
      Contents(blocks)
    }

    constructor (blockSize: nat)
      ensures Valid() && Bytes() == [] && !writeReserved
    {
      blocks, readable, writeReserved, reservedBytes, split := [], 0, false, 0, 0;
      this.blockSize := Max(blockSize, 1);
    }

    // ---- Append and drain ----------------------------------------------------------

    /** The last block has room. */
    ghost predicate HasRoom()
      reads this
    {
      BlocksOk(blocks) && blocks != [] && Writable(blocks[|blocks| - 1]) > 0
    }

    /** A tail block with room: the last one, or a new one that takes all of `hint`. */
    method EnsureOneTailBlock(hint: nat)
      requires Valid() && !writeReserved
      modifies this`blocks
      ensures Valid() && Bytes() == old(Bytes()) && HasRoom()
      ensures if old(HasRoom()) then blocks == old(blocks)
              else |blocks| == |old(blocks)| + 1 && old(blocks) <= blocks && Writable(blocks[|blocks| - 1]) >= hint
    {
      if blocks != [] && Writable(blocks[|blocks| - 1]) > 0 {
        return;
      }
      var b := NewBlock(Max(blockSize, hint), false);
      AddLast(blocks, b);
      blocks := blocks + [b];
    }

    /** Copies as much as the tail block takes. */
    method AppendSome(bytes: seq<Byte>) returns (n: nat)
      requires Valid() && !writeReserved && bytes != []
      modifies this`blocks, this`readable
      ensures Valid() && 0 < n <= |bytes| && Bytes() == old(Bytes()) + bytes[..n]
      ensures |blocks| == |old(blocks)| + if old(HasRoom()) then 0 else 1
      ensures n < |bytes| ==> old(HasRoom()) && !HasRoom()
    {
      EnsureOneTailBlock(|bytes|);
      var last := |blocks| - 1;
      var tail := blocks[last];
      n := Min(|bytes|, Writable(tail));
      var grown := Grown(tail, bytes[..n]);
      ReplaceLast(blocks, grown);
      Associate(Contents(blocks[..last]), ReadPart(tail), bytes[..n]);
      blocks := blocks[last := grown];
      readable := readable + n;
    }

    /** Appends all bytes. */
    method Append(bytes: seq<Byte>)
      requires Valid() && !writeReserved
      modifies this`blocks, this`readable
      ensures Valid() && Bytes() == old(Bytes()) + bytes && |blocks| <= |old(blocks)| + 1
    {
      var done := 0;
      assert old(Bytes()) + bytes[..0] == old(Bytes());
      while done < |bytes|
        invariant Valid() && done <= |bytes| && Bytes() == old(Bytes()) + bytes[..done]
        invariant |blocks| <= |old(blocks)| + 1 && (done < |bytes| ==> |blocks| == |old(blocks)|)
        invariant 0 < done < |bytes| ==> !HasRoom()
      {
        var n := AppendSome(bytes[done..]);
        assert bytes[..done] + bytes[done..][..n] == bytes[..done + n];
        done := done + n;
      }
      assert bytes[..done] == bytes;
    }

    /** Drops up to `n` bytes of the front block, and the block itself once it is empty. */
    method DrainSome(n: nat) returns (m: nat)
      requires Valid() && !writeReserved && blocks != []
      modifies this`blocks, this`readable
      ensures Valid() && m == Min(n, Readable(old(blocks)[0])) <= |old(Bytes())| && Bytes() == old(Bytes())[m..]
      ensures m < n ==> |blocks| < |old(blocks)|
      ensures |blocks| <= |old(blocks)|
    {
      var front := blocks[0];
      m := Min(n, Readable(front));
      var left := front.(readPos := front.readPos + m);
      assert ReadPart(left) == ReadPart(front)[m..];
      assert blocks == [front] + blocks[1..];
      Cons(front, blocks[1..]);
      Cons(left, blocks[1..]);
      readable := readable - m;
      if Readable(left) == 0 {
        assert ReadPart(left) == [];
        blocks := blocks[1..];
      } else {
        blocks := [left] + blocks[1..];
      }
    }

    /** Drops the first `n` bytes, or all. */
    method Drain(n: nat)
      requires Valid() && !writeReserved
      modifies this`blocks, this`readable
      ensures Valid() && Bytes() == old(Bytes())[Min(n, |old(Bytes())|)..]
    {
      ghost var all, k := Bytes(), Min(n, |Bytes()|);
      var rest: nat := Min(n, readable);
      while rest > 0
        invariant Valid() && rest <= k && Bytes() == all[k - rest..]
        decreases rest, |blocks|
      {
        if blocks == [] {
          assert false;
          break;
        }
        var m := DrainSome(rest);
        assert all[k - rest..][m..] == all[k - rest + m..];
        rest := rest - m;
      }
    }

    // ---- Write reservations ----------------------------------------------------------

    /** Reserves the room left in the last block, if any. */
    method ReserveTail() returns (writable: nat, count: nat)
      requires Valid() && !writeReserved
      modifies this`blocks, this`split
      ensures BlocksOk(blocks) && Contents(blocks) == old(Contents(blocks)) && ReservedTail(blocks, split)
      ensures writable == |Reserved(blocks)| && |Lens(blocks)| == count <= 1 && (count == 0 ==> writable == 0)
    {
      FreeReserved(blocks);
      FreeLens(blocks);
      if blocks != [] && Writable(blocks[|blocks| - 1]) > 0 {
        var last := |blocks| - 1;
        var b := blocks[last].(reserved := true);
        ReserveLast(blocks, b);
        blocks := blocks[last := b];
        split := last;
        return Writable(b), 1;
      }
      split := |blocks|;
      assert blocks[..|blocks|] == blocks;
      return 0, 0;
    }

    /** Adds reserved blocks until `hint` bytes are reserved or there are `maxIov` ranges. */
    method EnsureTailWritable(hint: nat, maxIov: nat)
      requires Valid() && !writeReserved && hint > 0 && maxIov > 0
      modifies this`blocks, this`split
      ensures BlocksOk(blocks) && Contents(blocks) == old(Contents(blocks)) && ReservedTail(blocks, split)
      ensures 0 < |Lens(blocks)| <= maxIov && (|Lens(blocks)| < maxIov ==> |Reserved(blocks)| >= hint)
    {
      var writable, count := ReserveTail();
      while writable < hint && count < maxIov
        invariant BlocksOk(blocks) && Contents(blocks) == old(Contents(blocks)) && ReservedTail(blocks, split)
        invariant writable == |Reserved(blocks)| && |Lens(blocks)| == count <= maxIov && (count == 0 ==> writable == 0)
        decreases maxIov - count
      {
        var b := NewBlock(Max(blockSize, hint - writable), true);
        AddReserved(blocks, split, b);
        blocks := blocks + [b];
        writable, count := writable + Writable(b), count + 1;
      }
    }

    /** The lengths of the reserved ranges, in order. */
    method Ranges(maxIov: nat) returns (lens: seq<nat>)
      requires BlocksOk(blocks) && |Lens(blocks)| <= maxIov
      ensures lens == Lens(blocks)
    {
      lens := [];
      for i := 0 to |blocks|
        invariant lens == Lens(blocks[..i])
      {
        if blocks[i].reserved && |lens| == maxIov {
          LensDone(blocks, i);
          return;
        }
        LensNext(blocks, i);
        if blocks[i].reserved && Writable(blocks[i]) > 0 {
          lens := lens + [Writable(blocks[i])];
        }
      }
      assert blocks[..|blocks|] == blocks;
    }

    /** Reserves room for a write; nothing changes for the reader. */
    method PrepareWrite(hint: nat, maxIov: nat) returns (lens: seq<nat>)
      requires Valid() && !writeReserved
      modifies this
      ensures Valid() && Bytes() == old(Bytes()) && blockSize == old(blockSize) && (writeReserved <==> maxIov > 0)
      ensures |lens| <= maxIov && Sum(lens) == reservedBytes && lens == if maxIov > 0 then Lens(blocks) else []
      ensures maxIov > 0 ==> lens != [] && (|lens| < maxIov ==> reservedBytes >= if hint == 0 then blockSize else hint)
    {
      if maxIov == 0 {
        return [];
      }
      EnsureTailWritable(if hint == 0 then blockSize else hint, maxIov);
      lens := Ranges(maxIov);
      LensSum(blocks);
      writeReserved := true;
      reservedBytes := Sum(lens);
    }

    /** Reserves one range of at least `hint` bytes, if the chain can offer one without splitting it. */
    method TryPrepareWriteOne(hint: nat) returns (length: Option<nat>)
      requires Valid() && !writeReserved
      modifies this
      ensures Valid() && Bytes() == old(Bytes()) && blockSize == old(blockSize)
      ensures var want := if hint == 0 then blockSize else hint;
        && (length.Some? <==> old(blocks) == [] || want <= Writable(old(blocks)[|old(blocks)| - 1]))
        && (length.Some? <==> writeReserved)
        && (length.Some? ==> length.value == reservedBytes >= want)
    {
      var want := if hint == 0 then blockSize else hint;
      if blocks != [] && Writable(blocks[|blocks| - 1]) < want {
        return None;
      }
      if blocks == [] {
        var b := NewBlock(Max(blockSize, want), false);
        AddLast(blocks, b);
        blocks := blocks + [b];
      }
      var last := |blocks| - 1;
      var b := blocks[last].(reserved := true);
      ReserveLast(blocks, b);
      blocks := blocks[last := b];
      split, writeReserved, reservedBytes := last, true, Writable(b);
      return Some(reservedBytes);
    }

    /** Whoever holds the reservation writes into the reserved ranges: anything else stays as it is. */
    method Overwrite(written: seq<Block>)
      requires Valid() && writeReserved && SameOutside(blocks, written)
      modifies this`blocks
      ensures Valid() && Bytes() == old(Bytes()) && Reserved(blocks) == Reserved(written)
    {
      OverwriteKeeps(blocks, written, split);
      blocks := written;
    }

    /** Ends the reservation. */
    method ClearWriteReservation()
      requires BlocksOk(blocks)
      modifies this`blocks, this`writeReserved, this`reservedBytes
      ensures BlocksOk(blocks) && Contents(blocks) == old(Contents(blocks)) && !writeReserved
      ensures old(writeReserved) ==> Free(blocks) && reservedBytes == 0
      ensures !old(writeReserved) ==> blocks == old(blocks) && reservedBytes == old(reservedBytes)
    {
      if !writeReserved {
        return;
      }
      ghost var bs := blocks;
      for i := 0 to |blocks|
        invariant |blocks| == |bs| && BlocksOk(blocks) && Free(blocks[..i]) && Contents(blocks) == Contents(bs)
      {
        Unreserve(blocks, i);
        blocks := blocks[i := blocks[i].(reserved := false)];
      }
      assert blocks[..|blocks|] == blocks;
      writeReserved, reservedBytes := false, 0;
    }

    /** Appends the first `n` reserved bytes. */
    method CommitWrite(n: nat)
      requires Valid() && writeReserved && n <= reservedBytes
      modifies this
      ensures Valid() && !writeReserved && Bytes() == old(Bytes()) + old(Reserved(blocks))[..n]
    {
      CommitAppends(blocks, split, n);
      CommitBlocks(n);
      readable := readable + n;
      ClearWriteReservation();
    }

    /** Moves the write positions over `n` reserved bytes; there are enough of them. */
    method CommitBlocks(n: nat)
      requires BlocksOk(blocks) && n <= |Reserved(blocks)|
      modifies this`blocks
      ensures blocks == Committed(old(blocks), n)
    {
      ghost var all, done, rest := Committed(blocks, n), [], blocks;
      assert [] + all == all && [] + blocks == blocks;
      var remaining: nat, i := n, 0;
      while i < |blocks| && remaining > 0
        invariant i == |done| && Committing(all, blocks, done, rest, remaining)
        decreases |blocks| - i
      {
        remaining, done, rest := CommitOne(all, done, rest, i, remaining);
        i := i + 1;
      }
      assert remaining > 0 ==> rest == [];
    }

    method CommitOne(ghost all: seq<Block>, ghost done: seq<Block>, ghost rest: seq<Block>, i: nat, remaining: nat)
      returns (left: nat, ghost done': seq<Block>, ghost rest': seq<Block>)
      requires Committing(all, blocks, done, rest, remaining) && i == |done| < |blocks| && remaining > 0
      modifies this`blocks
      ensures Committing(all, blocks, done', rest', left) && |done'| == i + 1 && |blocks| == |old(blocks)|
    {
      assert blocks[i] == rest[0];
      var m := if blocks[i].reserved then Min(remaining, Writable(blocks[i])) else 0;
      var b := blocks[i].(writePos := blocks[i].writePos + m);
      CommittingNext(all, blocks, done, rest, remaining, m, b);
      blocks := blocks[i := b];
      left, done', rest' := remaining - m, done + [b], rest[1..];
    }

    method AbortWrite()
      requires Valid()
      modifies this
      ensures Valid() && !writeReserved && Bytes() == old(Bytes())
    {
      ClearWriteReservation();
    }

    // ---- Search ------------------------------------------------------------------------

    /** Whether the needle occurs at `index` of block `j`, going on into the blocks behind it. */
    method MatchesFrom(j: nat, index: nat, needle: seq<Byte>) returns (found: bool)
      requires BlocksOk(blocks) && j < |blocks| && index <= Readable(blocks[j]) && needle != []
      ensures found <==> Occurs(Contents(blocks), needle, |Contents(blocks[..j])| + index)
    {
      ghost var start := |Contents(blocks[..j])| + index;
      var matched: nat, b: nat, i: nat := 0, j, index;
      OffsetNext(blocks, j);
      while b < |blocks|
        invariant j <= b <= |blocks| && matched < |needle| && (b < |blocks| ==> i <= Readable(blocks[b]))
        invariant |Contents(blocks[..b])| + i == start + matched && Agrees(Contents(blocks), needle, start, matched)
      {
        OffsetNext(blocks, b);
        var same;
        same, i, matched := MatchBlock(b, i, needle, matched, start);
        if !same {
          return false;
        }
        if matched == |needle| {
          assert needle[..matched] == needle;
          return true;
        }
        b, i := b + 1, 0;
      }
      assert blocks[..|blocks|] == blocks;
      return false;
    }

    /** Compares on through block `b`. */
    method MatchBlock(b: nat, index: nat, needle: seq<Byte>, before: nat, ghost start: nat)
        returns (same: bool, i: nat, matched: nat)
      requires BlocksOk(blocks) && b < |blocks| && index <= Readable(blocks[b]) && before < |needle|
      requires |Contents(blocks[..b])| + index == start + before && Agrees(Contents(blocks), needle, start, before)
      ensures !same ==> !Occurs(Contents(blocks), needle, start)
      ensures same ==>
        && matched <= |needle| && |Contents(blocks[..b])| + i == start + matched
          && Agrees(Contents(blocks), needle, start, matched)
        && i <= Readable(blocks[b]) && (matched == |needle| || i == Readable(blocks[b]))
    {
      ghost var all := Contents(blocks);
      i, matched := index, before;
      while i < Readable(blocks[b]) && matched < |needle|
        invariant i <= Readable(blocks[b]) && matched <= |needle| && Agrees(all, needle, start, matched)
        invariant |Contents(blocks[..b])| + i == start + matched
      {
        ByteAt(blocks, b, i);
        if blocks[b].data[blocks[b].readPos + i] != needle[matched] {
          Mismatch(all, needle, start, matched);
          return false, i, matched;
        }
        Match(all, needle, start, matched);
        i, matched := i + 1, matched + 1;
      }
      same := true;
    }

    /** The least offset from `from` on at which the needle occurs in the readable bytes, across blocks. */
    method Find(needle: seq<Byte>, from: nat) returns (at: Option<nat>)
      requires Valid()
      ensures at.Some? ==>
        from <= at.value && Occurs(Bytes(), needle, at.value)
        && forall k: nat :: from <= k < at.value ==> !Occurs(Bytes(), needle, k)
      ensures at.None? ==> forall k: nat :: from <= k ==> !Occurs(Bytes(), needle, k)
    {
      if from > readable || |needle| > readable - from {
        return None;
      }
      if needle == [] {
        return Some(from);
      }
      var lastStart, offset, j := readable - |needle|, 0, 0;
      while j < |blocks|
        invariant j <= |blocks| && offset == |Contents(blocks[..j])| <= |Bytes()|
        invariant forall k: nat :: from <= k < offset ==> !Occurs(Bytes(), needle, k)
      {
        OffsetNext(blocks, j);
        var stop, found := ScanBlock(needle, from, lastStart, offset, j);
        if stop {
          return found;
        }
        offset, j := offset + Readable(blocks[j]), j + 1;
      }
      assert blocks[..|blocks|] == blocks;
      return None;
    }

    method StartsAt(needle: seq<Byte>, ghost offset: nat, j: nat, i: nat) returns (found: bool)
      requires BlocksOk(blocks) && needle != [] && j < |blocks| && offset == |Contents(blocks[..j])|
        && i < Readable(blocks[j])
      ensures found <==> Occurs(Contents(blocks), needle, offset + i)
    {
      ByteAt(blocks, j, i);
      if blocks[j].data[blocks[j].readPos + i] == needle[0] {
        found := MatchesFrom(j, i, needle);
      } else {
        FirstDiffers(Contents(blocks), needle, offset + i);
        found := false;
      }
    }

    /** Scans block `j` for starts of the needle; stops at the first one, or where none can follow. */
    method ScanBlock(needle: seq<Byte>, from: nat, lastStart: nat, offset: nat, j: nat)
        returns (stop: bool, at: Option<nat>)
      requires Valid() && needle != [] && j < |blocks| && offset == |Contents(blocks[..j])|
        && lastStart + |needle| == readable
      requires forall k: nat :: from <= k < offset ==> !Occurs(Bytes(), needle, k)
      ensures at.Some? ==>
        from <= at.value && Occurs(Bytes(), needle, at.value)
        && forall k: nat :: from <= k < at.value ==> !Occurs(Bytes(), needle, k)
      ensures stop && at.None? ==> forall k: nat :: from <= k ==> !Occurs(Bytes(), needle, k)
      ensures !stop ==> at.None? && forall k: nat :: from <= k < offset + Readable(blocks[j]) ==>
        !Occurs(Bytes(), needle, k)
    {
      var i: nat := if from > offset then from - offset else 0;
      while i < Readable(blocks[j])
        invariant from <= offset + i
        invariant forall k: nat :: from <= k < offset + i ==> !Occurs(Bytes(), needle, k)
      {
        if offset + i > lastStart {
          forall k: nat | offset + i <= k ensures !Occurs(Bytes(), needle, k) { TooLate(Bytes(), needle, k); }
          return true, None;
        }
        var found := StartsAt(needle, offset, j, i);
        if found {
          return true, Some(offset + i);
        }
        i := i + 1;
      }
      return false, None;
    }

    // ---- Linearize ---------------------------------------------------------------------

    /** The first `k` blocks are empty. */
    ghost predicate EmptyUpto(k: nat)
      reads this
    {
      BlocksOk(blocks) && k <= |blocks| && forall i :: 0 <= i < k ==> Readable(blocks[i]) == 0
    }

    /** Drops the empty blocks at the front; there are `k`. */
    method DropEmptyFronts() returns (ghost k: nat)
      requires Valid() && !writeReserved
      modifies this`blocks
      ensures Valid() && Bytes() == old(Bytes()) && (blocks != [] ==> Readable(blocks[0]) > 0)
      ensures old(EmptyUpto(k)) && blocks == old(blocks)[k..]
    {
      k := 0;
      while blocks != []
        invariant Valid() && Bytes() == old(Bytes())
        invariant old(EmptyUpto(k)) && blocks == old(blocks)[k..]
        decreases |blocks|
      {
        if Readable(blocks[0]) > 0 {
          break;
        }
        assert ReadPart(blocks[0]) == [] && Contents(blocks) == [] + Contents(blocks[1..]);
        blocks := blocks[1..];
        k := k + 1;
      }
    }

    /** Moves up to `want` bytes from the front block into `merged`. */
    method MergeFront(merged: Block, want: nat) returns (m: Block, take: nat)
      requires Valid() && !writeReserved && blocks != [] && BlockOk(merged) && 0 < want <= Writable(merged)
      modifies this`blocks, this`readable
      ensures Valid() && BlockOk(m) && take <= want && take <= |old(Bytes())| && Bytes() == old(Bytes())[take..]
      ensures m.readPos == merged.readPos && m.reserved == merged.reserved && |m.data| == |merged.data|
      ensures ReadPart(m) == ReadPart(merged) + old(Bytes())[..take] && m.writePos == merged.writePos + take
      ensures take < want ==> |blocks| < |old(blocks)|
    {
      take := Min(want, Readable(blocks[0]));
      var bytes := ReadPart(blocks[0])[..take];
      FrontBytes(blocks, take);
      m := Grown(merged, bytes);
      var drained := DrainSome(want);
    }

    /**
     * Makes the first `n` bytes contiguous in the first block; nothing is copied if the first block that is not empty
     * has them all.
     */
    method Linearize(n: nat) returns (view: seq<Byte>, ghost k: nat)
      requires Valid() && !writeReserved && n <= readable
      modifies this`blocks, this`readable
      ensures Valid() && Bytes() == old(Bytes()) && view == Bytes()[..n]
      ensures n > 0 ==> blocks != [] && Readable(blocks[0]) >= n
      ensures old(EmptyUpto(k)) && (n > 0 ==> k < |old(blocks)| && old(BlocksOk(blocks) && Readable(blocks[k]) > 0))
      ensures n > 0 && k < |old(blocks)| && old(BlocksOk(blocks) && Readable(blocks[k]) >= n) ==>
        blocks == old(blocks)[k..]
    {
      k := 0;
      if n == 0 {
        return [], 0;
      }
      k := DropEmptyFronts();
      if Readable(blocks[0]) >= n {
        FrontBytes(blocks, n);
        return ReadPart(blocks[0])[..n], k;
      }
      ghost var all := Bytes();
      var merged := Gather(n);
      Cons(merged, blocks);
      assert all[..n] + all[n..] == all;
      blocks := [merged] + blocks;
      readable := readable + n;
      return ReadPart(merged), k;
    }

    /** Moves the first `n` bytes into a new block. */
    method Gather(n: nat) returns (merged: Block)
      requires Valid() && !writeReserved && n <= readable
      modifies this`blocks, this`readable
      ensures Valid() && n <= |old(Bytes())| && Bytes() == old(Bytes())[n..]
      ensures BlockOk(merged) && !merged.reserved && ReadPart(merged) == old(Bytes())[..n]
    {
      ghost var all := Bytes();
      merged := NewBlock(Max(blockSize, n), false);
      var copied: nat := 0;
      while copied < n
        invariant Valid() && copied <= n <= |all| && Bytes() == all[copied..]
        invariant BlockOk(merged) && merged.writePos == copied && !merged.reserved && |merged.data| >= n
        invariant ReadPart(merged) == all[..copied]
        decreases n - copied, |blocks|
      {
        var take;
        merged, take := MergeFront(merged, n - copied);
        SplitAgain(all, copied, take);
        copied := copied + take;
      }
    }

    /** Takes over the bytes of another buffer, which is left empty. */
    method MoveFrom(other: Buffer)
      requires Valid() && other.Valid() && other != this && !writeReserved && !other.writeReserved
      modifies this, other
      ensures Valid() && other.Valid() && Bytes() == old(other.Bytes()) && other.Bytes() == []
      ensures !writeReserved && !other.writeReserved
    {
      blocks, readable, blockSize := other.blocks, other.readable, other.blockSize;
      other.blocks, other.readable := [], 0;
    }
  }
}
