/** The heap of heap_4.c seen as a tiling of its address range.

  A tiling lists every block, free or live, in address order. The allocator keeps only the free blocks on
  its list; the tiling is what the blocks must add up to after every call. This module defines what one
  allocation and one release do to a tiling, and proves the laws of those two functions. Heap4.dfy proves
  that the pointer code computes exactly them. */
module HeapModel {

  /** sizeof(BlockLink_t) rounded up to portBYTE_ALIGNMENT on this 32-bit port. */
  const STRUCT_SIZE := 8
  const MINIMUM_BLOCK_SIZE := 16
  /** The top bit of a 32-bit size_t: set in a block's size while the application owns the block. */
  const ALLOCATED_BIT := 0x8000_0000

  datatype Block = Block(start: nat, size: nat, live: bool)

  /** Where block i begins, or the end of the range when there is no block i. */
  function Edge(t: seq<Block>, i: nat, hi: nat): nat {
    if i < |t| then t[i].start else hi
  }

  /** The blocks cover [lo, hi) with no gap and no overlap; sizes are multiples of 8 and at least 16. */
  ghost predicate Tiled(t: seq<Block>, lo: nat, hi: nat) {
    Edge(t, 0, hi) == lo && forall i :: 0 <= i < |t| ==> TileFits(t, i, hi)
  }

  ghost predicate TileFits(t: seq<Block>, i: nat, hi: nat)
    requires i < |t|
  {
    && t[i].start + t[i].size == Edge(t, i + 1, hi)
    && t[i].size >= MINIMUM_BLOCK_SIZE && t[i].size % 8 == 0
  }

  /** No two free blocks touch. */
  ghost predicate Coalesced(t: seq<Block>) {
    forall i :: 0 <= i < |t| - 1 ==> Parted(t, i)
  }

  ghost predicate Parted(t: seq<Block>, i: nat)
    requires i + 1 < |t|
  {
    t[i].live || t[i + 1].live
  }

  ghost predicate Canonical(t: seq<Block>, lo: nat, hi: nat) {
    Tiled(t, lo, hi) && Coalesced(t)
  }

  /** The tiling prvHeapInit leaves behind. */
  function Fresh(lo: nat, hi: nat): seq<Block>
    requires lo <= hi
  {
    [Block(lo, hi - lo, false)]
  }

  function FreeList(t: seq<Block>): seq<Block> {
    if t == [] then [] else (if t[0].live then [] else [t[0]]) + FreeList(t[1..])
  }

  ghost function LiveSet(t: seq<Block>): set<Block> {
    set b | b in t && b.live
  }

  function FreeBytes(t: seq<Block>): nat {
    if t == [] then 0 else (if t[0].live then 0 else t[0].size) + FreeBytes(t[1..])
  }

  function LiveBytes(t: seq<Block>): nat {
    if t == [] then 0 else (if t[0].live then t[0].size else 0) + LiveBytes(t[1..])
  }

  // ----- One allocation and one release -----

  /** The block size needed for a request of n bytes: room for the header, rounded up to a multiple of 8. */
  function Needed(n: nat): nat {
    (n + STRUCT_SIZE + 7) / 8 * 8
  }

  lemma NeededAligned(n: nat)
    ensures Needed(n) % 8 == 0 && n + STRUCT_SIZE <= Needed(n) < n + STRUCT_SIZE + 8
    ensures n > 0 ==> Needed(n) >= MINIMUM_BLOCK_SIZE
  {}

  predicate Fits(b: Block, w: nat) {
    !b.live && b.size >= w
  }

  /** Index of the lowest-address free block of at least w bytes, or |t|. */
  function FirstFit(t: seq<Block>, w: nat): (i: nat)
    ensures i <= |t|
    ensures i < |t| ==> Fits(t[i], w)
    ensures forall j :: 0 <= j < i ==> !Fits(t[j], w)
  {
    if t == [] then 0 else if Fits(t[0], w) then 0 else 1 + FirstFit(t[1..], w)
  }

  /** Hand out the first w bytes of free block i, splitting off the rest when it is worth a block. */
  function AllocAt(t: seq<Block>, i: nat, w: nat): seq<Block>
    requires i < |t| && w <= t[i].size
  {
    t[..i] + Pieces(t[i], w) + t[i + 1..]
  }

  function Pieces(b: Block, w: nat): seq<Block>
    requires w <= b.size
  {
    if b.size - w > MINIMUM_BLOCK_SIZE
    then [Block(b.start, w, true), Block(b.start + w, b.size - w, false)]
    else [b.(live := true)]
  }

  /** Release live block i, joining it with the free blocks it touches. */
  function FreeAt(t: seq<Block>, i: nat): seq<Block>
    requires i < |t|
  {
    t[..Low(t, i)] + [Joined(t, i)] + t[High(t, i)..]
  }

  /** Blocks Low..High are the ones a release of block i turns into one. */
  function Low(t: seq<Block>, i: nat): (l: nat)
    requires i < |t|
    ensures l <= i
  {
    if i > 0 && !t[i - 1].live then i - 1 else i
  }

  function High(t: seq<Block>, i: nat): (r: nat)
    requires i < |t|
    ensures i < r <= |t|
  {
    if i + 1 < |t| && !t[i + 1].live then i + 2 else i + 1
  }

  function Joined(t: seq<Block>, i: nat): Block
    requires i < |t|
  {
    var before := if Low(t, i) < i then t[i - 1].size else 0;
    var after := if High(t, i) > i + 1 then t[i + 1].size else 0;
    Block(t[Low(t, i)].start, before + t[i].size + after, false)
  }

  // ----- Shape of a tiling -----

  lemma {:induction false} TilesInOrder(t: seq<Block>, lo: nat, hi: nat, i: nat, j: nat)
    requires Tiled(t, lo, hi) && i < j <= |t|
    ensures t[i].start + t[i].size <= Edge(t, j, hi) <= hi
    ensures lo <= t[i].start && t[i].size >= MINIMUM_BLOCK_SIZE
    decreases j
  {
    assert TileFits(t, i, hi) && TileFits(t, j - 1, hi);
    if i + 1 < j { TilesInOrder(t, lo, hi, i, j - 1); }
    if i > 0 { TilesInOrder(t, lo, hi, i - 1, i); }
    EdgeBelowEnd(t, lo, hi, j);
  }

  lemma {:induction false} EdgeBelowEnd(t: seq<Block>, lo: nat, hi: nat, i: nat)
    requires Tiled(t, lo, hi) && i <= |t|
    ensures Edge(t, i, hi) <= hi
    decreases |t| - i
  {
    if i < |t| {
      assert TileFits(t, i, hi);
      EdgeBelowEnd(t, lo, hi, i + 1);
    }
  }

  lemma {:induction false} StartAligned(t: seq<Block>, lo: nat, hi: nat, i: nat)
    requires Tiled(t, lo, hi) && i <= |t| && lo % 8 == 0
    ensures Edge(t, i, hi) % 8 == 0
  {
    if i > 0 {
      StartAligned(t, lo, hi, i - 1);
      assert TileFits(t, i - 1, hi);
    }
  }

  lemma {:induction false} TilesDistinct(t: seq<Block>, lo: nat, hi: nat, i: nat, j: nat)
    requires Tiled(t, lo, hi) && i < |t| && j < |t| && t[i].start == t[j].start
    ensures i == j
  {
    if i < j { TilesInOrder(t, lo, hi, i, j); }
    if j < i { TilesInOrder(t, lo, hi, j, i); }
  }

  lemma {:induction false} FreeListConcat(a: seq<Block>, b: seq<Block>)
    ensures FreeList(a + b) == FreeList(a) + FreeList(b)
  {
    if a == [] {
      assert a + b == b;
    } else {
      assert (a + b)[1..] == a[1..] + b;
      FreeListConcat(a[1..], b);
    }
  }

  lemma {:induction false} BytesConcat(a: seq<Block>, b: seq<Block>)
    ensures FreeBytes(a + b) == FreeBytes(a) + FreeBytes(b)
    ensures LiveBytes(a + b) == LiveBytes(a) + LiveBytes(b)
  {
    if a == [] {
      assert a + b == b;
    } else {
      assert (a + b)[1..] == a[1..] + b;
      BytesConcat(a[1..], b);
    }
  }

  /** Conservation: free bytes and live bytes always add up to the whole heap. */
  lemma {:induction false} BytesConserved(t: seq<Block>, lo: nat, hi: nat)
    requires Tiled(t, lo, hi)
    ensures lo <= hi && FreeBytes(t) + LiveBytes(t) == hi - lo
  {
    if t != [] {
      TilesSplit(t, lo, hi, 1);
      assert TileFits(t, 0, hi);
      BytesConserved(t[1..], Edge(t, 1, hi), hi);
    }
  }

  lemma TilesConcat(a: seq<Block>, b: seq<Block>, lo: nat, mid: nat, hi: nat)
    requires Tiled(a, lo, mid) && Tiled(b, mid, hi)
    ensures Tiled(a + b, lo, hi)
  {
    var t := a + b;
    forall i | 0 <= i < |t| ensures TileFits(t, i, hi) {
      if i < |a| {
        assert TileFits(a, i, mid);
      } else {
        assert TileFits(b, i - |a|, hi);
      }
    }
  }

  lemma TilesSplit(t: seq<Block>, lo: nat, hi: nat, k: nat)
    requires Tiled(t, lo, hi) && k <= |t|
    ensures Tiled(t[..k], lo, Edge(t, k, hi)) && Tiled(t[k..], Edge(t, k, hi), hi)
    ensures Coalesced(t) ==> Coalesced(t[..k]) && Coalesced(t[k..])
  {
    var a, b := t[..k], t[k..];
    forall i | 0 <= i < |a| ensures TileFits(a, i, Edge(t, k, hi)) { assert TileFits(t, i, hi); }
    forall i | 0 <= i < |b| ensures TileFits(b, i, hi) { assert TileFits(t, k + i, hi); }
    if Coalesced(t) {
      forall i | 0 <= i < |a| - 1 ensures Parted(a, i) { assert Parted(t, i); }
      forall i | 0 <= i < |b| - 1 ensures Parted(b, i) { assert Parted(t, k + i); }
    }
  }

  lemma LiveConcat(a: seq<Block>, b: seq<Block>)
    ensures LiveSet(a + b) == LiveSet(a) + LiveSet(b)
  {}

  // ----- Replacing a stretch of blocks -----

  /** What replacing blocks i..j of a tiling by another tiling of the same stretch does. */
  lemma Splice(t: seq<Block>, lo: nat, hi: nat, i: nat, j: nat, mid: seq<Block>)
    requires Tiled(t, lo, hi) && i <= j <= |t| && Tiled(mid, Edge(t, i, hi), Edge(t, j, hi))
    ensures var u := t[..i] + mid + t[j..];
      && Tiled(u, lo, hi)
      && FreeBytes(u) + FreeBytes(t[i..j]) == FreeBytes(t) + FreeBytes(mid)
      && LiveSet(u) == LiveSet(t) - LiveSet(t[i..j]) + LiveSet(mid)
  {
    var pre, old_, post := t[..i], t[i..j], t[j..];
    assert t == pre + old_ + post;
    TilesSplit(t, lo, hi, i);
    TilesSplit(t, lo, hi, j);
    TilesConcat(pre, mid, lo, Edge(t, i, hi), Edge(t, j, hi));
    TilesConcat(pre + mid, post, lo, Edge(t, j, hi), hi);
    BytesConcat(pre + old_, post);
    BytesConcat(pre, old_);
    BytesConcat(pre + mid, post);
    BytesConcat(pre, mid);
    LiveConcat(pre + old_, post);
    LiveConcat(pre, old_);
    LiveConcat(pre + mid, post);
    LiveConcat(pre, mid);
    forall b | b in old_ ensures b !in pre && b !in post {
      var k :| i <= k < j && t[k] == b;
      forall m | 0 <= m < |t| && (m < i || j <= m) ensures t[m] != b {
        if t[m] == b { TilesDistinct(t, lo, hi, k, m); }
      }
    }
  }

  lemma SpliceCoalesced(t: seq<Block>, i: nat, j: nat, mid: seq<Block>)
    requires Coalesced(t) && i <= j <= |t| && Coalesced(mid) && mid != []
    requires i > 0 ==> t[i - 1].live || mid[0].live
    requires j < |t| ==> mid[|mid| - 1].live || t[j].live
    ensures Coalesced(t[..i] + mid + t[j..])
  {
    var u := t[..i] + mid + t[j..];
    var e := i + |mid|;
    forall k | 0 <= k < |u| - 1 ensures Parted(u, k) {
      if k + 1 < i {
        assert Parted(t, k);
      } else if i <= k && k + 1 < e {
        assert Parted(mid, k - i);
      } else if k >= e {
        assert Parted(t, k - e + j);
      }
    }
  }

  // ----- The two operations keep the heap canonical -----

  lemma AllocKeepsCanonical(t: seq<Block>, lo: nat, hi: nat, i: nat, w: nat)
    requires Canonical(t, lo, hi) && i < |t| && Fits(t[i], w) && w >= MINIMUM_BLOCK_SIZE && w % 8 == 0
    ensures Canonical(AllocAt(t, i, w), lo, hi)
    ensures var got := AllocAt(t, i, w)[i];
      && got.live && got.start == t[i].start && w <= got.size <= w + MINIMUM_BLOCK_SIZE
      && LiveSet(AllocAt(t, i, w)) == LiveSet(t) + {got}
      && FreeBytes(AllocAt(t, i, w)) == FreeBytes(t) - got.size
  {
    var mid := Pieces(t[i], w);
    assert i > 0 ==> Parted(t, i - 1);
    assert i + 1 < |t| ==> Parted(t, i);
    assert TileFits(t, i, hi);
    PiecesTiled(t[i], w, Edge(t, i + 1, hi));
    SpliceCoalesced(t, i, i + 1, mid);
    Splice(t, lo, hi, i, i + 1, mid);
    assert t[i..i + 1] == [t[i]];
    OneFree(t[i]);
    MoreLive(LiveSet(t), mid[0]);
  }

  lemma MoreLive(s: set<Block>, b: Block)
    ensures s - {} + {b} == s + {b}
  {
  }

  lemma OneFree(b: Block)
    requires !b.live
    ensures LiveSet([b]) == {} && FreeBytes([b]) == b.size
  {}

  lemma PiecesTiled(b: Block, w: nat, end: nat)
    requires Fits(b, w) && w >= MINIMUM_BLOCK_SIZE && w % 8 == 0
    requires b.start + b.size == end && b.size % 8 == 0
    ensures Tiled(Pieces(b, w), b.start, end) && Coalesced(Pieces(b, w))
    ensures LiveSet(Pieces(b, w)) == {Pieces(b, w)[0]}
    ensures FreeBytes(Pieces(b, w)) == b.size - Pieces(b, w)[0].size
  {
    var mid := Pieces(b, w);
    if |mid| == 2 { BytesConcat([mid[0]], [mid[1]]); }
  }

  lemma FreeKeepsCanonical(t: seq<Block>, lo: nat, hi: nat, i: nat)
    requires Canonical(t, lo, hi) && i < |t| && t[i].live
    ensures Canonical(FreeAt(t, i), lo, hi)
    ensures LiveSet(FreeAt(t, i)) == LiveSet(t) - {t[i]}
    ensures FreeBytes(FreeAt(t, i)) == FreeBytes(t) + t[i].size
  {
    FreeSplice(t, lo, hi, i);
    FreeCoalesced(t, i);
  }

  lemma FreeSplice(t: seq<Block>, lo: nat, hi: nat, i: nat)
    requires Tiled(t, lo, hi) && i < |t| && t[i].live
    ensures Tiled(FreeAt(t, i), lo, hi)
    ensures LiveSet(FreeAt(t, i)) == LiveSet(t) - {t[i]}
    ensures FreeBytes(FreeAt(t, i)) == FreeBytes(t) + t[i].size
  {
    var joined := Joined(t, i);
    JoinedTiled(t, lo, hi, i);
    JoinedContents(t, i);
    OneFree(joined);
    Splice(t, lo, hi, Low(t, i), High(t, i), [joined]);
    assert LiveSet(t) - {t[i]} + {} == LiveSet(t) - {t[i]};
  }

  lemma FreeCoalesced(t: seq<Block>, i: nat)
    requires Coalesced(t) && i < |t| && t[i].live
    ensures Coalesced(FreeAt(t, i))
  {
    var l, r := Low(t, i), High(t, i);
    assert l > 0 && l < i ==> Parted(t, l - 1);
    assert r < |t| && r > i + 1 ==> Parted(t, r - 1);
    SpliceCoalesced(t, l, r, [Joined(t, i)]);
  }

  lemma JoinedTiled(t: seq<Block>, lo: nat, hi: nat, i: nat)
    requires Tiled(t, lo, hi) && i < |t| && t[i].live
    ensures Tiled([Joined(t, i)], Edge(t, Low(t, i), hi), Edge(t, High(t, i), hi))
  {
    var joined := Joined(t, i);
    assert TileFits(t, i, hi);
    if Low(t, i) < i { assert TileFits(t, i - 1, hi); }
    if High(t, i) > i + 1 { assert TileFits(t, i + 1, hi); }
    assert joined.start == Edge(t, Low(t, i), hi) && joined.start + joined.size == Edge(t, High(t, i), hi);
    OneTile(joined);
  }

  lemma OneTile(b: Block)
    requires b.size >= MINIMUM_BLOCK_SIZE && b.size % 8 == 0
    ensures Tiled([b], b.start, b.start + b.size)
  {
  }

  /** The stretch FreeAt replaces: one live block between at most one free block on either side. */
  lemma JoinedContents(t: seq<Block>, i: nat)
    requires i < |t| && t[i].live
    ensures LiveSet(t[Low(t, i)..High(t, i)]) == {t[i]}
    ensures FreeBytes(t[Low(t, i)..High(t, i)]) + t[i].size == Joined(t, i).size
  {
    var a, c := t[Low(t, i)..i], t[i + 1..High(t, i)];
    assert t[Low(t, i)..High(t, i)] == a + [t[i]] + c;
    assert a == if Low(t, i) < i then [t[i - 1]] else [];
    assert c == if High(t, i) > i + 1 then [t[i + 1]] else [];
    BetweenFree(a, t[i], c);
  }

  lemma BetweenFree(a: seq<Block>, b: Block, c: seq<Block>)
    requires b.live && (forall x :: x in a + c ==> !x.live) && |a| <= 1 && |c| <= 1
    ensures LiveSet(a + [b] + c) == {b}
    ensures FreeBytes(a + [b] + c) == (if a == [] then 0 else a[0].size) + if c == [] then 0 else c[0].size
  {
    BytesConcat(a + [b], c);
    BytesConcat(a, [b]);
    forall x | x in a + [b] + c ensures x.live <==> x == b { assert x != b ==> x in a + c; }
    assert b in a + [b] + c;
  }

  // ----- The canonical form -----

  /** The live blocks alone determine the whole heap: two canonical tilings of one range with the same live
      blocks are equal, free blocks included. Every order-independence law below is an instance. */
  lemma {:induction false} CanonicalFormUnique(s: seq<Block>, t: seq<Block>, lo: nat, hi: nat)
    requires Canonical(s, lo, hi) && Canonical(t, lo, hi) && LiveSet(s) == LiveSet(t)
    ensures s == t
    decreases |s|
  {
    EmptyIff(s, lo, hi);
    EmptyIff(t, lo, hi);
    if s != [] {
      HeadsAgree(s, t, lo, hi);
      HeadsAgree(t, s, lo, hi);
      TilesSplit(s, lo, hi, 1);
      TilesSplit(t, lo, hi, 1);
      TailLive(s, lo, hi);
      TailLive(t, lo, hi);
      assert TileFits(s, 0, hi) && TileFits(t, 0, hi);
      CanonicalFormUnique(s[1..], t[1..], Edge(s, 1, hi), hi);
    }
  }

  lemma EmptyIff(t: seq<Block>, lo: nat, hi: nat)
    requires Tiled(t, lo, hi)
    ensures t == [] <==> lo == hi
  {
    if t != [] { TilesInOrder(t, lo, hi, 0, 1); }
  }

  lemma TailLive(t: seq<Block>, lo: nat, hi: nat)
    requires Tiled(t, lo, hi) && t != []
    ensures LiveSet(t[1..]) == LiveSet(t) - {t[0]}
  {
    forall k | 0 < k < |t| ensures t[k] != t[0] {
      if t[k] == t[0] { TilesDistinct(t, lo, hi, 0, k); }
    }
    forall b ensures b in LiveSet(t[1..]) <==> b in LiveSet(t) - {t[0]} {
      if b in t && b != t[0] {
        var k :| 0 <= k < |t| && t[k] == b;
        assert b == t[1..][k - 1];
      }
    }
  }

  lemma HeadsAgree(s: seq<Block>, t: seq<Block>, lo: nat, hi: nat)
    requires Canonical(s, lo, hi) && Canonical(t, lo, hi) && LiveSet(s) == LiveSet(t) && s != [] && t != []
    ensures s[0].live ==> s[0] == t[0]
    ensures !s[0].live && !t[0].live ==> s[0].size >= t[0].size
  {
    if s[0].live {
      assert s[0] in LiveSet(s);
      var k :| 0 <= k < |t| && t[k] == s[0];
      TilesDistinct(t, lo, hi, 0, k);
    } else if !t[0].live && s[0].size < t[0].size {
      TilesInOrder(t, lo, hi, 0, 1);
      assert TileFits(s, 0, hi) && (|s| > 1 ==> Parted(s, 0));
      assert s[1] in LiveSet(s);
      var k :| 0 <= k < |t| && t[k] == s[1];
      if k > 0 { TilesInOrder(t, lo, hi, 0, k); }
      assert false;
    }
  }

  predicate FreeByte(t: seq<Block>, x: nat) {
    exists i :: 0 <= i < |t| && !t[i].live && t[i].start <= x < t[i].start + t[i].size
  }

  /** [a, a+n) is a run of free bytes that cannot be extended on either side. */
  ghost predicate MaximalFreeRun(t: seq<Block>, a: nat, n: nat) {
    && n > 0
    && (forall x :: a <= x < a + n ==> FreeByte(t, x))
    && !FreeByte(t, a + n)
    && (a > 0 ==> !FreeByte(t, a - 1))
  }

  /** The free blocks are exactly the maximal runs of free bytes. */
  lemma FreeBlocksAreMaximalRuns(t: seq<Block>, lo: nat, hi: nat, a: nat, n: nat)
    requires Canonical(t, lo, hi)
    ensures Block(a, n, false) in t <==> MaximalFreeRun(t, a, n)
  {
    if Block(a, n, false) in t {
      var i :| 0 <= i < |t| && t[i] == Block(a, n, false);
      FreeBlockIsRun(t, lo, hi, i);
    }
    if MaximalFreeRun(t, a, n) {
      assert FreeByte(t, a);
      var i :| 0 <= i < |t| && !t[i].live && t[i].start <= a < t[i].start + t[i].size;
      FreeBlockIsRun(t, lo, hi, i);
      var b := t[i];
      assert !FreeByte(t, b.start + b.size);
    }
  }

  lemma FreeBlockIsRun(t: seq<Block>, lo: nat, hi: nat, i: nat)
    requires Canonical(t, lo, hi) && i < |t| && !t[i].live
    ensures MaximalFreeRun(t, t[i].start, t[i].size)
  {
    var b := t[i];
    assert TileFits(t, i, hi);
    forall k | 0 <= k < |t| && !t[k].live
      ensures !(t[k].start <= b.start + b.size < t[k].start + t[k].size)
      ensures b.start > 0 ==> !(t[k].start <= b.start - 1 < t[k].start + t[k].size)
    {
      if k < i { 
        TilesInOrder(t, lo, hi, k, i);
        if k + 1 < i { TilesInOrder(t, lo, hi, k, i - 1); assert TileFits(t, i - 1, hi); } else { assert Parted(t, k); }
      } else if k > i {
        TilesInOrder(t, lo, hi, i, k);
        if k > i + 1 { TilesInOrder(t, lo, hi, i + 1, k); assert TileFits(t, i, hi); } else { assert Parted(t, i); }
      }
    }
  }

  // ----- Laws of the two operations -----

  /** An allocation of w bytes followed by releasing the block it returned restores the heap exactly,
      whether or not the block was split. */
  lemma AllocThenFreeRestores(t: seq<Block>, lo: nat, hi: nat, i: nat, w: nat)
    requires Canonical(t, lo, hi) && i < |t| && Fits(t[i], w) && w >= MINIMUM_BLOCK_SIZE && w % 8 == 0
    ensures FreeAt(AllocAt(t, i, w), i) == t
  {
    var u := AllocAt(t, i, w);
    AllocKeepsCanonical(t, lo, hi, i, w);
    FreeKeepsCanonical(u, lo, hi, i);
    if u[i] in t {
      var k :| 0 <= k < |t| && t[k] == u[i];
      TilesDistinct(t, lo, hi, i, k);
    }
    assert LiveSet(t) + {u[i]} - {u[i]} == LiveSet(t);
    CanonicalFormUnique(FreeAt(u, i), t, lo, hi);
  }

  /** Index of the live block that starts at a, or |t|. */
  function LiveAt(t: seq<Block>, a: nat): (i: nat)
    ensures i <= |t|
    ensures i < |t| ==> t[i].live && t[i].start == a
    ensures i == |t| ==> forall b :: b in t ==> !(b.live && b.start == a)
  {
    if t == [] then 0 else if t[0].live && t[0].start == a then 0 else 1 + LiveAt(t[1..], a)
  }

  /** Release the live block that starts at a; releasing any other address changes nothing. */
  function FreeAddr(t: seq<Block>, a: nat): seq<Block> {
    var i := LiveAt(t, a);
    if i < |t| then FreeAt(t, i) else t
  }

  lemma FreeAddrKeepsCanonical(t: seq<Block>, lo: nat, hi: nat, a: nat)
    requires Canonical(t, lo, hi)
    ensures Canonical(FreeAddr(t, a), lo, hi)
    ensures LiveSet(FreeAddr(t, a)) == set b | b in LiveSet(t) && b.start != a
  {
    var i := LiveAt(t, a);
    if i < |t| {
      FreeKeepsCanonical(t, lo, hi, i);
      forall b | b in LiveSet(t) && b.start == a ensures b == t[i] {
        var k :| 0 <= k < |t| && t[k] == b;
        TilesDistinct(t, lo, hi, i, k);
      }
    }
  }

  lemma FreeAddrCanonical(t: seq<Block>, lo: nat, hi: nat, a: nat)
    requires Canonical(t, lo, hi)
    ensures Canonical(FreeAddr(t, a), lo, hi)
  {
    FreeAddrKeepsCanonical(t, lo, hi, a);
  }

  /** Releases commute. */
  lemma FreesCommute(t: seq<Block>, lo: nat, hi: nat, a: nat, b: nat)
    requires Canonical(t, lo, hi)
    ensures FreeAddr(FreeAddr(t, a), b) == FreeAddr(FreeAddr(t, b), a)
  {
    FreeAddrKeepsCanonical(t, lo, hi, a);
    FreeAddrKeepsCanonical(t, lo, hi, b);
    FreeAddrKeepsCanonical(FreeAddr(t, a), lo, hi, b);
    FreeAddrKeepsCanonical(FreeAddr(t, b), lo, hi, a);
    assert LiveSet(FreeAddr(FreeAddr(t, a), b)) == LiveSet(FreeAddr(FreeAddr(t, b), a));
    CanonicalFormUnique(FreeAddr(FreeAddr(t, a), b), FreeAddr(FreeAddr(t, b), a), lo, hi);
  }

  function FreeAll(t: seq<Block>, order: seq<nat>): seq<Block>
    decreases |order|
  {
    if order == [] then t else FreeAll(FreeAddr(t, order[0]), order[1..])
  }

  lemma {:induction false} FreeAllLive(t: seq<Block>, lo: nat, hi: nat, order: seq<nat>)
    requires Canonical(t, lo, hi)
    ensures Canonical(FreeAll(t, order), lo, hi)
    ensures LiveSet(FreeAll(t, order)) == set b | b in LiveSet(t) && b.start !in order
    decreases |order|
  {
    if order != [] {
      FreeAddrKeepsCanonical(t, lo, hi, order[0]);
      FreeAllLive(FreeAddr(t, order[0]), lo, hi, order[1..]);
      assert forall x :: x in order <==> x == order[0] || x in order[1..];
    }
  }

  /** Releasing every live block, in whatever order, brings back the single free block of prvHeapInit. */
  lemma FreeAllRestoresFresh(t: seq<Block>, lo: nat, hi: nat, order: seq<nat>)
    requires Canonical(t, lo, hi) && lo < hi
    requires forall b :: b in LiveSet(t) ==> b.start in order
    ensures FreeAll(t, order) == Fresh(lo, hi)
  {
    FreeAllLive(t, lo, hi, order);
    FreshIsCanonical(t, lo, hi);
    assert LiveSet(FreeAll(t, order)) == {};
    assert LiveSet(Fresh(lo, hi)) == {};
    CanonicalFormUnique(FreeAll(t, order), Fresh(lo, hi), lo, hi);
  }

  lemma FreshIsCanonical(t: seq<Block>, lo: nat, hi: nat)
    requires Tiled(t, lo, hi) && lo < hi
    ensures Canonical(Fresh(lo, hi), lo, hi)
  {
    WholeFits(t, lo, hi);
    assert Edge(Fresh(lo, hi), 0, hi) == lo && Edge(Fresh(lo, hi), 1, hi) == hi;
  }

  lemma {:induction false} WholeFits(t: seq<Block>, lo: nat, hi: nat)
    requires Tiled(t, lo, hi) && lo < hi
    ensures hi - lo >= MINIMUM_BLOCK_SIZE && (hi - lo) % 8 == 0
  {
    TilesSplit(t, lo, hi, 1);
    TilesInOrder(t, lo, hi, 0, 1);
    assert TileFits(t, 0, hi);
    if |t| > 1 {
      TilesInOrder(t, lo, hi, 1, 2);
      WholeFits(t[1..], Edge(t, 1, hi), hi);
    }
  }

  /** The quick test on the free-byte counter never refuses a request some block could satisfy. */
  lemma {:induction false} FitImpliesEnoughBytes(t: seq<Block>, w: nat)
    ensures FirstFit(t, w) < |t| ==> w <= FreeBytes(t)
  {
    if t != [] && !Fits(t[0], w) { FitImpliesEnoughBytes(t[1..], w); }
  }

  // ----- Calls and runs -----

  /** The heap after pvPortMalloc(n) and the pointer it returns, 0 for NULL. */
  function Malloc(t: seq<Block>, n: nat): (seq<Block>, nat) {
    var i := FirstFit(t, Needed(n));
    if 0 < n < ALLOCATED_BIT && i < |t| then (AllocAt(t, i, Needed(n)), t[i].start + STRUCT_SIZE) else (t, 0)
  }

  /** The heap after vPortFree(pv). */
  function Free(t: seq<Block>, pv: nat): seq<Block> {
    if pv < STRUCT_SIZE then t else FreeAddr(t, pv - STRUCT_SIZE)
  }

  /** First fit is complete: a request succeeds exactly when some free block is large enough for it, and then
      it gets the lowest such block. Requests with the top bit set need no separate case: nothing fits them. */
  lemma MallocComplete(t: seq<Block>, lo: nat, hi: nat, n: nat)
    requires Canonical(t, lo, hi) && hi < ALLOCATED_BIT + lo
    ensures Malloc(t, n).1 != 0 <==> 0 < n && exists b :: b in t && Fits(b, Needed(n))
    ensures Malloc(t, n).1 != 0 ==>
      exists i :: 0 <= i < |t| && Fits(t[i], Needed(n)) && Malloc(t, n).1 == t[i].start + STRUCT_SIZE
        && forall j :: 0 <= j < i ==> !Fits(t[j], Needed(n))
  {
    forall b | b in t ensures b.size < ALLOCATED_BIT {
      var k :| 0 <= k < |t| && t[k] == b;
      TilesInOrder(t, lo, hi, k, k + 1);
    }
  }

  lemma MallocKeepsCanonical(t: seq<Block>, lo: nat, hi: nat, n: nat)
    requires Canonical(t, lo, hi)
    ensures Canonical(Malloc(t, n).0, lo, hi)
    ensures Malloc(t, n).1 != 0 ==> Free(Malloc(t, n).0, Malloc(t, n).1) == t
  {
    var w, i := Needed(n), FirstFit(t, Needed(n));
    if 0 < n < ALLOCATED_BIT && i < |t| {
      NeededAligned(n);
      AllocKeepsCanonical(t, lo, hi, i, w);
      AllocThenFreeRestores(t, lo, hi, i, w);
      FreeAddrOfBlock(AllocAt(t, i, w), lo, hi, i);
    }
  }

  lemma FreeAddrOfBlock(t: seq<Block>, lo: nat, hi: nat, i: nat)
    requires Tiled(t, lo, hi) && i < |t| && t[i].live
    ensures FreeAddr(t, t[i].start) == FreeAt(t, i)
  {
    assert t[i] in t;
    TilesDistinct(t, lo, hi, i, LiveAt(t, t[i].start));
  }

  /** Every pointer handed out is 8-byte aligned and above the header it follows. */
  lemma MallocAligned(t: seq<Block>, lo: nat, hi: nat, n: nat)
    requires Canonical(t, lo, hi) && lo % 8 == 0
    ensures Malloc(t, n).1 % 8 == 0
  {
    StartAligned(t, lo, hi, FirstFit(t, Needed(n)));
  }

  datatype Call = Allocate(n: nat) | Release(pv: nat)

  function Run(t: seq<Block>, calls: seq<Call>): seq<Block>
    decreases |calls|
  {
    if calls == [] then t
    else Run(After(t, calls[0]), calls[1..])
  }

  function After(t: seq<Block>, c: Call): seq<Block> {
    match c
    case Allocate(n) => Malloc(t, n).0
    case Release(pv) => Free(t, pv)
  }

  lemma AfterKeepsCanonical(t: seq<Block>, lo: nat, hi: nat, c: Call)
    requires Canonical(t, lo, hi)
    ensures Canonical(After(t, c), lo, hi)
  {
    if c.Allocate? {
      MallocKeepsCanonical(t, lo, hi, c.n);
    } else {
      FreeKeeps(t, lo, hi, c.pv);
    }
  }

  lemma FreeKeeps(t: seq<Block>, lo: nat, hi: nat, pv: nat)
    requires Canonical(t, lo, hi)
    ensures Canonical(Free(t, pv), lo, hi)
  {
    var freed := Free(t, pv);
    if freed != t {
      var p := pv - STRUCT_SIZE;
      assert freed == FreeAddr(t, p);
      FreeAddrCanonical(t, lo, hi, p);
    }
  }

  /** Over any run of allocations and releases the heap stays canonical, no byte is lost, and releasing
      what is left restores the state of prvHeapInit. */
  lemma {:induction false} RunKeepsHeap(t: seq<Block>, lo: nat, hi: nat, calls: seq<Call>, order: seq<nat>)
    requires Canonical(t, lo, hi) && lo < hi
    requires forall b :: b in LiveSet(Run(t, calls)) ==> b.start in order
    ensures Canonical(Run(t, calls), lo, hi)
    ensures FreeBytes(Run(t, calls)) + LiveBytes(Run(t, calls)) == hi - lo
    ensures FreeAll(Run(t, calls), order) == Fresh(lo, hi)
    decreases |calls|
  {
    if calls == [] {
      BytesConserved(t, lo, hi);
      FreeAllRestoresFresh(t, lo, hi, order);
    } else {
      AfterKeepsCanonical(t, lo, hi, calls[0]);
      RunKeepsHeap(After(t, calls[0]), lo, hi, calls[1..], order);
    }
  }

  // ----- How much a block may exceed its request -----

  /** The request that each live payload answers, after one more call. */
  function Asked(t: seq<Block>, asked: map<nat, nat>, c: Call): map<nat, nat> {
    match c
    case Allocate(n) => if Malloc(t, n).1 != 0 then asked[Malloc(t, n).1 := n] else asked
    case Release(_) => asked
  }

  function AskedBy(t: seq<Block>, asked: map<nat, nat>, calls: seq<Call>): map<nat, nat>
    decreases |calls|
  {
    if calls == [] then asked else AskedBy(After(t, calls[0]), Asked(t, asked, calls[0]), calls[1..])
  }

  /** Every live block has room for its request and at most 16 bytes more than that, rounded up, needs. */
  ghost predicate Snug(t: seq<Block>, asked: map<nat, nat>) {
    forall b :: b in LiveSet(t) ==> SnugBlock(b, asked)
  }

  ghost predicate SnugBlock(b: Block, asked: map<nat, nat>) {
    var pv := b.start + STRUCT_SIZE;
    pv in asked && Needed(asked[pv]) <= b.size <= Needed(asked[pv]) + MINIMUM_BLOCK_SIZE
  }

  lemma AfterSnug(t: seq<Block>, lo: nat, hi: nat, asked: map<nat, nat>, c: Call)
    requires Canonical(t, lo, hi) && Snug(t, asked)
    ensures Snug(After(t, c), Asked(t, asked, c))
  {
    if c.Allocate? && Malloc(t, c.n).1 != 0 {
      AllocateSnug(t, lo, hi, asked, c.n);
    } else if c.Release? && c.pv >= STRUCT_SIZE {
      FreeAddrKeepsCanonical(t, lo, hi, c.pv - STRUCT_SIZE);
    }
  }

  lemma AllocateSnug(t: seq<Block>, lo: nat, hi: nat, asked: map<nat, nat>, n: nat)
    requires Canonical(t, lo, hi) && Snug(t, asked) && Malloc(t, n).1 != 0
    ensures Snug(Malloc(t, n).0, asked[Malloc(t, n).1 := n])
  {
    var w, i := Needed(n), FirstFit(t, Needed(n));
    var u, pv := AllocAt(t, i, w), t[i].start + STRUCT_SIZE;
    NeededAligned(n);
    AllocKeepsCanonical(t, lo, hi, i, w);
    assert LiveSet(u) == LiveSet(t) + {u[i]} && SnugBlock(u[i], asked[pv := n]);
    forall b | b in LiveSet(t) ensures SnugBlock(b, asked[pv := n]) {
      assert SnugBlock(b, asked);
      var k :| 0 <= k < |t| && t[k] == b;
      if b.start == t[i].start { TilesDistinct(t, lo, hi, i, k); }
    }
  }

  /** Over any run from the state of prvHeapInit. */
  lemma {:induction false} RunSnug(t: seq<Block>, lo: nat, hi: nat, asked: map<nat, nat>, calls: seq<Call>)
    requires Canonical(t, lo, hi) && Snug(t, asked)
    ensures Snug(Run(t, calls), AskedBy(t, asked, calls))
    decreases |calls|
  {
    if calls != [] {
      AfterSnug(t, lo, hi, asked, calls[0]);
      AfterKeepsCanonical(t, lo, hi, calls[0]);
      RunSnug(After(t, calls[0]), lo, hi, Asked(t, asked, calls[0]), calls[1..]);
    }
  }
}
