/** The free list as it lies in memory: block headers linked by address, from xStart to pxEnd. */
module FreeChain {
  import opened HeapModel

  /** The header words of memory: pxNextFreeBlock and xBlockSize by address. */
  datatype Mem = Mem(next: map<nat, nat>, size: map<nat, nat>)

  ghost function Starts(bs: seq<Block>): (r: seq<nat>)
    ensures |r| == |bs| && forall i :: 0 <= i < |r| ==> r[i] == bs[i].start
  {
    if bs == [] then [] else [bs[0].start] + Starts(bs[1..])
  }

  /** The addresses the free list visits. */
  ghost function Chain(t: seq<Block>, xs: nat, hi: nat): seq<nat> {
    [xs] + Starts(FreeList(t)) + [hi]
  }

  ghost predicate Linked(next: map<nat, nat>, c: seq<nat>) {
    forall i :: 0 <= i < |c| - 1 ==> Link(next, c, i)
  }

  ghost predicate Link(next: map<nat, nat>, c: seq<nat>, i: nat)
    requires i + 1 < |c|
  {
    c[i] in next && next[c[i]] == c[i + 1]
  }

  ghost predicate Distinct(c: seq<nat>) {
    forall i, j :: 0 <= i < j < |c| ==> c[i] != c[j]
  }

  /** A free block's header holds its size; a live block's also has the top bit set and a NULL link. */
  ghost predicate Header(m: Mem, b: Block) {
    && b.start in m.size && b.start in m.next
    && m.size[b.start] == b.size + (if b.live then ALLOCATED_BIT else 0)
    && (b.live ==> m.next[b.start] == 0)
  }

  /** Memory m holds tiling t, except that the headers of the live blocks in skip are unfinished. */
  ghost predicate Holds(m: Mem, t: seq<Block>, xs: nat, hi: nat, skip: set<nat>) {
    && (forall b {:trigger Header(m, b)} :: b in t && !(b.live && b.start in skip) ==> Header(m, b))
    && Linked(m.next, Chain(t, xs, hi))
    && xs in m.size && m.size[xs] == 0
    && hi in m.size && m.size[hi] == 0 && hi in m.next && m.next[hi] == 0
  }

  // ----- Linking and unlinking -----

  lemma SkipLinked(next: map<nat, nat>, pre: seq<nat>, post: seq<nat>)
    requires pre != [] && |post| >= 2 && Linked(next, pre + post) && Distinct(pre + post)
    ensures post[0] in next && next[post[0]] == post[1]
    ensures Linked(next[pre[|pre| - 1] := next[post[0]]], pre + post[1..])
  {
    var c, d, n := pre + post, pre + post[1..], |pre|;
    assert Link(next, c, n);
    var next' := next[pre[n - 1] := next[post[0]]];
    forall i | 0 <= i < |d| - 1 ensures Link(next', d, i) {
      assert Link(next, c, if i < n then i else i + 1);
      if i < n - 1 { assert c[i] != c[n - 1]; }
      if i >= n { assert c[i + 1] != c[n - 1]; }
    }
  }

  lemma InsertLinked(next: map<nat, nat>, pre: seq<nat>, post: seq<nat>, b: nat)
    requires pre != [] && post != [] && Linked(next, pre + post) && Distinct(pre + post)
    requires b !in pre && b !in post
    ensures Linked(next[b := post[0]][pre[|pre| - 1] := b], pre + [b] + post)
  {
    var c, d, n := pre + post, pre + [b] + post, |pre|;
    var next' := next[b := post[0]][pre[n - 1] := b];
    forall i | 0 <= i < |d| - 1 ensures Link(next', d, i) {
      if i < n - 1 {
        assert Link(next, c, i) && c[i] != c[n - 1];
      } else if i > n {
        assert Link(next, c, i - 1) && c[i - 1] != c[n - 1];
      }
    }
  }

  // ----- Where blocks sit on the chain -----

  lemma {:induction false} FreeListIn(t: seq<Block>, b: Block)
    ensures b in FreeList(t) <==> b in t && !b.live
  {
    if t != [] {
      FreeListIn(t[1..], b);
      assert t == [t[0]] + t[1..];
    }
  }

  /** Free blocks come in address order, inside the range. */
  lemma {:induction false} FreeListInOrder(t: seq<Block>, lo: nat, hi: nat)
    requires Tiled(t, lo, hi)
    ensures forall i :: 0 <= i < |FreeList(t)| ==> lo <= FreeList(t)[i].start < hi
    ensures forall i, j :: 0 <= i < j < |FreeList(t)| ==> FreeList(t)[i].start < FreeList(t)[j].start
  {
    if t != [] {
      TilesInOrder(t, lo, hi, 0, 1);
      TilesSplit(t, lo, hi, 1);
      FreeListInOrder(t[1..], Edge(t, 1, hi), hi);
    }
  }

  lemma ChainDistinct(t: seq<Block>, lo: nat, hi: nat, xs: nat)
    requires Tiled(t, lo, hi) && !(lo <= xs <= hi)
    ensures Distinct(Chain(t, xs, hi))
    ensures forall i :: 0 < i < |Chain(t, xs, hi)| ==> lo <= Chain(t, xs, hi)[i] <= hi
  {
    FreeListInOrder(t, lo, hi);
    EdgeBelowEnd(t, lo, hi, 0);
    RangeDistinct(xs, Starts(FreeList(t)), lo, hi);
  }

  lemma RangeDistinct(x: nat, s: seq<nat>, lo: nat, hi: nat)
    requires lo <= hi && !(lo <= x <= hi)
    requires forall i :: 0 <= i < |s| ==> lo <= s[i] < hi
    requires forall i, j :: 0 <= i < j < |s| ==> s[i] < s[j]
    ensures Distinct([x] + s + [hi])
    ensures forall i :: 0 < i < |s| + 2 ==> lo <= ([x] + s + [hi])[i] <= hi
  {}

  /** Cutting the chain at block i: what precedes it in memory, and what follows. */
  ghost function Before(t: seq<Block>, i: nat, xs: nat): (r: seq<nat>)
    requires i < |t|
    ensures r != []
  {
    [xs] + Starts(FreeList(t[..i]))
  }

  ghost function Behind(t: seq<Block>, i: nat, hi: nat): (r: seq<nat>)
    requires i < |t|
    ensures r != []
  {
    Starts(FreeList(t[i + 1..])) + [hi]
  }

  lemma {:induction false} StartsConcat(a: seq<Block>, b: seq<Block>)
    ensures Starts(a + b) == Starts(a) + Starts(b)
  {}

  lemma FreeListCut(t: seq<Block>, i: nat)
    requires i < |t|
    ensures FreeList(t) == FreeList(t[..i]) + (if t[i].live then [] else [t[i]]) + FreeList(t[i + 1..])
  {
    var a, r := t[..i], t[i..];
    assert t == a + r;
    FreeListConcat(a, r);
    assert r[1..] == t[i + 1..];
    FreeListStep(r);
    Associate(FreeList(a), if t[i].live then [] else [t[i]], FreeList(t[i + 1..]));
  }

  lemma Associate<T>(a: seq<T>, b: seq<T>, c: seq<T>)
    ensures a + b + c == a + (b + c)
  {}

  lemma FreeListStep(r: seq<Block>)
    requires r != []
    ensures FreeList(r) == (if r[0].live then [] else [r[0]]) + FreeList(r[1..])
  {}

  lemma ChainCut(t: seq<Block>, i: nat, xs: nat, hi: nat)
    requires i < |t|
    ensures Chain(t, xs, hi) == Before(t, i, xs) + (if t[i].live then [] else [t[i].start]) + Behind(t, i, hi)
  {
    var a, here, c := FreeList(t[..i]), if t[i].live then [] else [t[i]], FreeList(t[i + 1..]);
    FreeListCut(t, i);
    StartsConcat(a + here, c);
    StartsConcat(a, here);
    assert Starts(here) == if t[i].live then [] else [t[i].start];
    Regroup(xs, Starts(a), Starts(here), Starts(c), hi);
  }

  lemma Regroup<T>(x: T, a: seq<T>, b: seq<T>, c: seq<T>, y: T)
    ensures [x] + (a + b + c) + [y] == [x] + a + b + (c + [y])
  {}

  lemma CutInOrder(t: seq<Block>, lo: nat, hi: nat, i: nat, xs: nat)
    requires Tiled(t, lo, hi) && i < |t|
    ensures forall k :: 0 < k < |Before(t, i, xs)| ==> lo <= Before(t, i, xs)[k] < t[i].start
    ensures forall k :: 0 <= k < |Behind(t, i, hi)| ==> t[i].start < Behind(t, i, hi)[k] <= hi
  {
    TilesSplit(t, lo, hi, i);
    TilesSplit(t, lo, hi, i + 1);
    TilesInOrder(t, lo, hi, i, i + 1);
    FreeListInOrder(t[..i], lo, t[i].start);
    FreeListInOrder(t[i + 1..], Edge(t, i + 1, hi), hi);
  }

  /** The last free block before block i reaches up to block i exactly when it is block i-1. */
  lemma LeftNeighbour(t: seq<Block>, lo: nat, hi: nat, i: nat, xs: nat)
    requires Tiled(t, lo, hi) && i < |t|
    ensures Low(t, i) < i ==> Before(t, i, xs) == Before(t, i - 1, xs) + [t[i - 1].start]
    ensures Low(t, i) == i ==> forall b :: b in FreeList(t[..i]) ==> b.start + b.size < t[i].start
  {
    if Low(t, i) < i {
      assert t[..i] == t[..i - 1] + [t[i - 1]];
      FreeListConcat(t[..i - 1], [t[i - 1]]);
      StartsConcat(FreeList(t[..i - 1]), [t[i - 1]]);
    } else {
      forall b | b in FreeList(t[..i]) ensures b.start + b.size < t[i].start {
        FreeListIn(t[..i], b);
        var k :| 0 <= k < i && t[k] == b;
        TilesInOrder(t, lo, hi, k, i - 1);
        TilesInOrder(t, lo, hi, i - 1, i);
      }
    }
  }

  /** Block i reaches up to the next free block exactly when that is block i+1. */
  lemma RightNeighbour(t: seq<Block>, lo: nat, hi: nat, i: nat)
    requires Tiled(t, lo, hi) && i < |t|
    ensures High(t, i) > i + 1 ==> Behind(t, i, hi) == [t[i + 1].start] + Behind(t, i + 1, hi)
    ensures High(t, i) > i + 1 ==> t[i + 1].start == t[i].start + t[i].size && t[i + 1].start < hi
    ensures High(t, i) == i + 1 ==> t[i].start + t[i].size != Behind(t, i, hi)[0] || Behind(t, i, hi)[0] == hi
  {
    TilesInOrder(t, lo, hi, i, i + 1);
    assert TileFits(t, i, hi);
    if i + 1 < |t| {
      var rest := t[i + 1..];
      TilesInOrder(t, lo, hi, i + 1, i + 2);
      assert rest[0] == t[i + 1] && rest[1..] == t[i + 2..];
      if t[i + 1].live {
        CutInOrder(t, lo, hi, i + 1, 0);
        assert Behind(t, i, hi) == Behind(t, i + 1, hi);
        assert t[i + 1].start < Behind(t, i + 1, hi)[0];
      } else {
        FreeNext(t, hi, i);
      }
    }
  }

  lemma FreeNext(t: seq<Block>, hi: nat, i: nat)
    requires i + 1 < |t| && !t[i + 1].live
    ensures Behind(t, i, hi) == [t[i + 1].start] + Behind(t, i + 1, hi)
  {
    var rest := t[i + 1..];
    FreeListStep(rest);
    assert rest[0] == t[i + 1] && rest[1..] == t[i + 2..];
    StartsConcat([t[i + 1]], FreeList(rest[1..]));
    assert Starts([t[i + 1]]) == [t[i + 1].start];
  }

  // ----- prvInsertBlockIntoFreeList on memory -----

  ghost function At(f: map<nat, nat>, p: nat): nat {
    if p in f then f[p] else 0
  }

  /** The list entry after which block i goes: the last free block below it, or xStart. */
  ghost function Iterator(t: seq<Block>, i: nat, xs: nat): nat
    requires i < |t|
  {
    Before(t, i, xs)[|Before(t, i, xs)| - 1]
  }

  /** The memory prvInsertBlockIntoFreeList leaves, once its loop has stopped at address it. */
  ghost function Inserted(m: Mem, it: nat, b: nat, end: nat): Mem {
    var nx, left := At(m.next, it), it + At(m.size, it) == b;
    var kept := if left then it else b;
    var total := At(m.size, b) + if left then At(m.size, it) else 0;
    var right := kept + total == nx && nx != end;
    var next := m.next[kept := if right then At(m.next, nx) else nx];
    Mem(if left then next else next[it := kept],
        if right then m.size[kept := total + At(m.size, nx)] else if left then m.size[kept := total] else m.size)
  }

  /** Where the loop of prvInsertBlockIntoFreeList stops for block i, and what it finds there. */
  lemma InsertionPoint(m: Mem, t: seq<Block>, lo: nat, hi: nat, xs: nat, i: nat, skip: set<nat>)
    requires Tiled(t, lo, hi) && i < |t| && t[i].live && !(lo <= xs <= hi) && Holds(m, t, xs, hi, skip)
    ensures var it := Iterator(t, i, xs);
      && it in m.next && it in m.size && m.next[it] == Behind(t, i, hi)[0]
      && (it + m.size[it] == t[i].start <==> Low(t, i) < i)
      && (Low(t, i) < i ==> it == t[i - 1].start && m.size[it] == t[i - 1].size)
      && (High(t, i) > i + 1 <==> t[i].start + t[i].size == m.next[it] && m.next[it] != hi)
      && (High(t, i) > i + 1 ==> m.next[it] in m.next && m.next[it] in m.size && m.size[m.next[it]] == t[i + 1].size)
  {
    var before := Before(t, i, xs);
    ChainCut(t, i, xs, hi);
    LeftNeighbour(t, lo, hi, i, xs);
    RightNeighbour(t, lo, hi, i);
    CutInOrder(t, lo, hi, i, xs);
    assert Link(m.next, Chain(t, xs, hi), |before| - 1);
    TilesInOrder(t, lo, hi, i, i + 1);
    if Low(t, i) < i {
      assert Header(m, t[i - 1]);
      TilesInOrder(t, lo, hi, i - 1, i);
      assert TileFits(t, i - 1, hi);
    } else if |before| > 1 {
      var b := FreeList(t[..i])[|before| - 2];
      FreeListIn(t[..i], b);
      assert Header(m, b);
    }
    if High(t, i) > i + 1 { assert Header(m, t[i + 1]); }
  }

  lemma InsertLinks(m: Mem, t: seq<Block>, lo: nat, hi: nat, xs: nat, i: nat, skip: set<nat>)
    requires Tiled(t, lo, hi) && i < |t| && t[i].live && !(lo <= xs <= hi) && Holds(m, t, xs, hi, skip)
    requires At(m.size, t[i].start) == t[i].size
    ensures Linked(Inserted(m, Iterator(t, i, xs), t[i].start, hi).next, Chain(FreeAt(t, i), xs, hi))
  {
    var left, right := Low(t, i) < i, High(t, i) > i + 1;
    InsertionPoint(m, t, lo, hi, xs, i, skip);
    assert left ==> TileFits(t, i - 1, hi);
    ChainAround(t, lo, hi, i, xs);
    Relinked(m.next, Before(t, i, xs), Behind(t, i, hi), t[i].start, left, right);
    ChainAfterFree(t, lo, hi, i, xs);
  }

  lemma ChainAround(t: seq<Block>, lo: nat, hi: nat, i: nat, xs: nat)
    requires Tiled(t, lo, hi) && i < |t| && t[i].live && !(lo <= xs <= hi)
    ensures Chain(t, xs, hi) == Before(t, i, xs) + Behind(t, i, hi)
    ensures Distinct(Before(t, i, xs) + Behind(t, i, hi))
    ensures t[i].start !in Before(t, i, xs) && t[i].start !in Behind(t, i, hi)
    ensures High(t, i) > i + 1 ==> |Behind(t, i, hi)| >= 2
  {
    ChainCut(t, i, xs, hi);
    assert Before(t, i, xs) + [] == Before(t, i, xs);
    ChainDistinct(t, lo, hi, xs);
    CutInOrder(t, lo, hi, i, xs);
    TilesInOrder(t, lo, hi, i, i + 1);
    RightNeighbour(t, lo, hi, i);
  }

  lemma ChainAfterFree(t: seq<Block>, lo: nat, hi: nat, i: nat, xs: nat)
    requires Tiled(t, lo, hi) && i < |t| && t[i].live
    ensures var rest := if High(t, i) > i + 1 then Behind(t, i, hi)[1..] else Behind(t, i, hi);
      Chain(FreeAt(t, i), xs, hi) ==
        if Low(t, i) < i then Before(t, i, xs) + rest else Before(t, i, xs) + [t[i].start] + rest
  {
    var u, l, h := FreeAt(t, i), Low(t, i), High(t, i);
    LeftNeighbour(t, lo, hi, i, xs);
    RightNeighbour(t, lo, hi, i);
    ChainCut(u, l, xs, hi);
    assert u[..l] == t[..l] && u[l + 1..] == t[h..];
    assert Behind(u, l, hi) == Behind(t, h - 1, hi);
  }

  lemma Relinked(next: map<nat, nat>, pre: seq<nat>, post: seq<nat>, b: nat, left: bool, right: bool)
    requires pre != [] && post != [] && Linked(next, pre + post) && Distinct(pre + post)
    requires right ==> |post| >= 2
    requires left || (b !in pre && b !in post)
    ensures var it := pre[|pre| - 1];
      && At(next, it) == post[0]
      && var kept := if left then it else b;
         var next' := next[kept := if right then At(next, post[0]) else post[0]];
         var rest := if right then post[1..] else post;
         Linked(if left then next' else next'[it := b], if left then pre + rest else pre + [b] + rest)
  {
    var it := pre[|pre| - 1];
    assert Link(next, pre + post, |pre| - 1);
    var n, rest := next, post;
    if right {
      SkipLinked(next, pre, post);
      n, rest := next[it := next[post[0]]], post[1..];
      RestDistinct(pre, post);
    }
    if left {
      assert n == next[it := if right then next[post[0]] else post[0]];
    } else {
      InsertLinked(n, pre, rest, b);
      assert n[b := rest[0]][it := b] == next[b := if right then next[post[0]] else post[0]][it := b];
    }
  }

  lemma RestDistinct(pre: seq<nat>, post: seq<nat>)
    requires Distinct(pre + post) && post != []
    ensures Distinct(pre + post[1..])
  {
    var c, d := pre + post, pre + post[1..];
    forall i, j | 0 <= i < j < |d| ensures d[i] != d[j] {
      assert c[if i < |pre| then i else i + 1] != c[if j < |pre| then j else j + 1];
    }
  }

  /** Inserting pending block i leaves memory holding the tiling in which it is released. */
  lemma InsertHolds(m: Mem, t: seq<Block>, lo: nat, hi: nat, xs: nat, i: nat, skip: set<nat>)
    requires Tiled(t, lo, hi) && i < |t| && t[i].live && !(lo <= xs <= hi) && Holds(m, t, xs, hi, skip)
    requires t[i].start in m.size && m.size[t[i].start] == t[i].size
    ensures Holds(Inserted(m, Iterator(t, i, xs), t[i].start, hi), FreeAt(t, i), xs, hi, skip - {t[i].start})
  {
    var u := FreeAt(t, i);
    InsertLinks(m, t, lo, hi, xs, i, skip);
    InsertionPoint(m, t, lo, hi, xs, i, skip);
    CutInOrder(t, lo, hi, i, xs);
    TilesInOrder(t, lo, hi, i, i + 1);
    var m' := Inserted(m, Iterator(t, i, xs), t[i].start, hi);
    ChainCut(t, i, xs, hi);
    forall b | b in u && !(b.live && b.start in skip - {t[i].start}) ensures Header(m', b) {
      HeaderAfter(m, t, lo, hi, xs, i, skip, b);
    }
  }

  lemma HeaderAfter(m: Mem, t: seq<Block>, lo: nat, hi: nat, xs: nat, i: nat, skip: set<nat>, b: Block)
    requires Tiled(t, lo, hi) && i < |t| && t[i].live && !(lo <= xs <= hi) && Holds(m, t, xs, hi, skip)
    requires t[i].start in m.size && m.size[t[i].start] == t[i].size
    requires b in FreeAt(t, i) && !(b.live && b.start in skip - {t[i].start})
    ensures Header(Inserted(m, Iterator(t, i, xs), t[i].start, hi), b)
  {
    var k :| 0 <= k < |FreeAt(t, i)| && FreeAt(t, i)[k] == b;
    if k == Low(t, i) {
      JoinedHeader(m, t, lo, hi, xs, i, skip);
    } else {
      OtherTile(t, i, k);
      HeaderStays(m, t, lo, hi, xs, i, skip, if k < Low(t, i) then k else k + High(t, i) - Low(t, i) - 1);
    }
  }

  lemma JoinedHeader(m: Mem, t: seq<Block>, lo: nat, hi: nat, xs: nat, i: nat, skip: set<nat>)
    requires Tiled(t, lo, hi) && i < |t| && t[i].live && !(lo <= xs <= hi) && Holds(m, t, xs, hi, skip)
    requires t[i].start in m.size && m.size[t[i].start] == t[i].size
    ensures Header(Inserted(m, Iterator(t, i, xs), t[i].start, hi), Joined(t, i))
  {
    InsertionPoint(m, t, lo, hi, xs, i, skip);
    CutInOrder(t, lo, hi, i, xs);
    TilesInOrder(t, lo, hi, i, i + 1);
    assert Low(t, i) < i ==> TileFits(t, i - 1, hi);
  }

  lemma OtherTile(t: seq<Block>, i: nat, k: nat)
    requires i < |t| && k < |FreeAt(t, i)| && k != Low(t, i)
    ensures var j := if k < Low(t, i) then k else k + High(t, i) - Low(t, i) - 1;
      (j < Low(t, i) || High(t, i) <= j < |t|) && FreeAt(t, i)[k] == t[j]
  {
  }

  lemma HeaderStays(m: Mem, t: seq<Block>, lo: nat, hi: nat, xs: nat, i: nat, skip: set<nat>, j: nat)
    requires Tiled(t, lo, hi) && i < |t| && t[i].live && !(lo <= xs <= hi) && Holds(m, t, xs, hi, skip)
    requires t[i].start in m.size && m.size[t[i].start] == t[i].size
    requires (j < Low(t, i) || High(t, i) <= j < |t|) && !(t[j].live && t[j].start in skip - {t[i].start})
    ensures Header(Inserted(m, Iterator(t, i, xs), t[i].start, hi), t[j])
  {
    KeptHeader(m, t, lo, hi, xs, i, skip, j);
    if t[j].start == t[i].start { TilesDistinct(t, lo, hi, i, j); }
    assert Header(m, t[j]);
  }

  /** A block the release does not join keeps its header. */
  lemma KeptHeader(m: Mem, t: seq<Block>, lo: nat, hi: nat, xs: nat, i: nat, skip: set<nat>, j: nat)
    requires Tiled(t, lo, hi) && i < |t| && t[i].live && !(lo <= xs <= hi) && Holds(m, t, xs, hi, skip)
    requires At(m.size, t[i].start) == t[i].size
    requires j < Low(t, i) || High(t, i) <= j < |t|
    ensures var m' := Inserted(m, Iterator(t, i, xs), t[i].start, hi);
      && (Header(m, t[j]) ==> Header(m', t[j]))
      && (t[j].live && t[j].start in m.size ==> t[j].start in m'.size && m'.size[t[j].start] == m.size[t[j].start])
  {
    InsertionPoint(m, t, lo, hi, xs, i, skip);
    if t[j].start == t[i].start { TilesDistinct(t, lo, hi, i, j); }
    TilesInOrder(t, lo, hi, j, j + 1);
    assert Low(t, i) < i ==> TileFits(t, i - 1, hi);
    var before := Before(t, i, xs);
    if Low(t, i) < i {
      if t[j].start == t[i - 1].start { TilesDistinct(t, lo, hi, i - 1, j); }
    } else if |before| > 1 {
      var b := FreeList(t[..i])[|before| - 2];
      FreeListIn(t[..i], b);
      var k :| 0 <= k < i && t[k] == b;
      if t[j].start == b.start { TilesDistinct(t, lo, hi, j, k); }
    }
  }

  /** All prvInsertBlockIntoFreeList relies on: the list is in address order, and its reads are defined. */
  lemma InsertReady(m: Mem, t: seq<Block>, lo: nat, hi: nat, xs: nat, i: nat, skip: set<nat>)
    requires Tiled(t, lo, hi) && i < |t| && t[i].live && !(lo <= xs <= hi) && Holds(m, t, xs, hi, skip)
    requires t[i].start in m.size && m.size[t[i].start] == t[i].size
    ensures AscendsAround(m.next, Before(t, i, xs), Behind(t, i, hi), xs, t[i].start)
    ensures InsertableAt(m, Iterator(t, i, xs), t[i].start, hi, hi - lo)
    ensures Holds(Inserted(m, Iterator(t, i, xs), t[i].start, hi), FreeAt(t, i), xs, hi, skip - {t[i].start})
  {
    InsertAscends(m, t, lo, hi, xs, i, skip);
    InsertReads(m, t, lo, hi, xs, i, skip);
    InsertHolds(m, t, lo, hi, xs, i, skip);
  }

  lemma InsertAscends(m: Mem, t: seq<Block>, lo: nat, hi: nat, xs: nat, i: nat, skip: set<nat>)
    requires Tiled(t, lo, hi) && i < |t| && t[i].live && !(lo <= xs <= hi) && Holds(m, t, xs, hi, skip)
    ensures AscendsAround(m.next, Before(t, i, xs), Behind(t, i, hi), xs, t[i].start)
  {
    ChainCut(t, i, xs, hi);
    CutInOrder(t, lo, hi, i, xs);
    TilesInOrder(t, lo, hi, i, i + 1);
    assert Chain(t, xs, hi) == Before(t, i, xs) + Behind(t, i, hi);
  }

  lemma InsertReads(m: Mem, t: seq<Block>, lo: nat, hi: nat, xs: nat, i: nat, skip: set<nat>)
    requires Tiled(t, lo, hi) && i < |t| && t[i].live && !(lo <= xs <= hi) && Holds(m, t, xs, hi, skip)
    requires t[i].start in m.size && m.size[t[i].start] == t[i].size
    ensures InsertableAt(m, Iterator(t, i, xs), t[i].start, hi, hi - lo)
  {
    InsertionPoint(m, t, lo, hi, xs, i, skip);
    JoinedBounded(t, lo, hi, i);
    assert Low(t, i) < i ==> TileFits(t, i - 1, hi);
  }

  ghost predicate AscendsAround(next: map<nat, nat>, before: seq<nat>, behind: seq<nat>, xs: nat, b: nat) {
    && before != [] && behind != [] && Linked(next, before + behind) && before[0] == xs != b
    && (forall k :: 0 < k < |before| ==> before[k] < b)
    && b < behind[0]
  }

  ghost predicate InsertableAt(m: Mem, it: nat, b: nat, end: nat, max: int) {
    && it in m.next && it in m.size && b in m.size
    && var nx := m.next[it]; var total := m.size[b] + if it + m.size[it] == b then m.size[it] else 0;
       && total <= max
       && (b + m.size[b] == nx && nx != end ==> nx in m.next && nx in m.size && total + m.size[nx] <= max)
  }

  /** A joined block still fits in the heap. */
  lemma JoinedBounded(t: seq<Block>, lo: nat, hi: nat, i: nat)
    requires Tiled(t, lo, hi) && i < |t|
    ensures Joined(t, i).size <= hi - lo
  {
    TilesInOrder(t, lo, hi, Low(t, i), Low(t, i) + 1);
    TilesInOrder(t, lo, hi, i, i + 1);
    TilesInOrder(t, lo, hi, High(t, i) - 1, High(t, i));
    assert TileFits(t, i, hi) && TileFits(t, Low(t, i), hi);
  }

  // ----- Taking a block off the list -----

  /** Unlinking free block i leaves memory holding the tiling in which that block is live. */
  lemma UnlinkHolds(m: Mem, t: seq<Block>, lo: nat, hi: nat, xs: nat, i: nat)
    requires Tiled(t, lo, hi) && i < |t| && !t[i].live && !(lo <= xs <= hi) && Holds(m, t, xs, hi, {})
    ensures var prev := Iterator(t, i, xs);
      && prev in m.next && m.next[prev] == t[i].start && t[i].start in m.next
      && Holds(m.(next := m.next[prev := m.next[t[i].start]]), t[i := t[i].(live := true)], xs, hi, {t[i].start})
  {
    var b, u := t[i].start, t[i := t[i].(live := true)];
    var prev := Iterator(t, i, xs);
    UnlinkLinks(m, t, lo, hi, xs, i);
    UnlinkHeaders(m, t, lo, hi, xs, i, m.next[b]);
    var m' := m.(next := m.next[prev := m.next[b]]);
    forall c | c in u && !(c.live && c.start in {b}) ensures Header(m', c) {
      var k :| 0 <= k < |u| && u[k] == c;
    }
  }

  lemma UnlinkLinks(m: Mem, t: seq<Block>, lo: nat, hi: nat, xs: nat, i: nat)
    requires Tiled(t, lo, hi) && i < |t| && !t[i].live && !(lo <= xs <= hi) && Holds(m, t, xs, hi, {})
    ensures var prev := Iterator(t, i, xs);
      && prev in m.next && m.next[prev] == t[i].start && t[i].start in m.next
      && Linked(m.next[prev := m.next[t[i].start]], Chain(t[i := t[i].(live := true)], xs, hi))
  {
    var b, u := t[i].start, t[i := t[i].(live := true)];
    var pre, post := Before(t, i, xs), [b] + Behind(t, i, hi);
    ChainCut(t, i, xs, hi);
    Associate(pre, [b], Behind(t, i, hi));
    ChainCut(u, i, xs, hi);
    assert u[..i] == t[..i] && u[i + 1..] == t[i + 1..];
    assert Before(u, i, xs) == pre && Behind(u, i, hi) == post[1..];
    assert pre + [] == pre;
    ChainDistinct(t, lo, hi, xs);
    SkipLinked(m.next, pre, post);
    assert Link(m.next, pre + post, |pre| - 1);
  }

  lemma UnlinkHeaders(m: Mem, t: seq<Block>, lo: nat, hi: nat, xs: nat, i: nat, v: nat)
    requires Tiled(t, lo, hi) && i < |t| && !(lo <= xs <= hi) && Holds(m, t, xs, hi, {})
    ensures var prev := Iterator(t, i, xs);
      && prev != hi && forall k :: 0 <= k < |t| && k != i ==> Header(m.(next := m.next[prev := v]), t[k])
  {
    var before := Before(t, i, xs);
    var prev := before[|before| - 1];
    CutInOrder(t, lo, hi, i, xs);
    TilesInOrder(t, lo, hi, i, i + 1);
    forall k | 0 <= k < |t| && k != i ensures Header(m.(next := m.next[prev := v]), t[k]) {
      assert Header(m, t[k]);
      TilesInOrder(t, lo, hi, k, k + 1);
      if |before| > 1 && t[k].start == prev {
        FreeListIn(t[..i], FreeList(t[..i])[|before| - 2]);
        var j :| 0 <= j < i && t[j] == FreeList(t[..i])[|before| - 2];
        TilesDistinct(t, lo, hi, j, k);
      }
    }
  }

  /** The header of a live block may be rewritten without disturbing anything else. */
  lemma LiveHeaderRewritten(m: Mem, t: seq<Block>, lo: nat, hi: nat, xs: nat, i: nat, skip: set<nat>, next: nat,
      size: nat)
    requires Tiled(t, lo, hi) && i < |t| && t[i].live && !(lo <= xs <= hi) && Holds(m, t, xs, hi, skip)
    ensures var m' := Mem(m.next[t[i].start := next], m.size[t[i].start := size]);
      && Holds(m', t, xs, hi, skip + {t[i].start})
      && (Header(m', t[i]) ==> Holds(m', t, xs, hi, skip - {t[i].start}))
  {
    var s, c := t[i].start, Chain(t, xs, hi);
    var m' := Mem(m.next[s := next], m.size[s := size]);
    TilesInOrder(t, lo, hi, i, i + 1);
    CutInOrder(t, lo, hi, i, xs);
    ChainCut(t, i, xs, hi);
    forall k | 0 <= k < |c| - 1 ensures Link(m'.next, c, k) {
      assert Link(m.next, c, k);
      if k >= |Before(t, i, xs)| { assert c[k] == Behind(t, i, hi)[k - |Before(t, i, xs)|]; }
    }
    forall b | b in t && b != t[i] ensures b.start != s {
      var k :| 0 <= k < |t| && t[k] == b;
      if b.start == s { TilesDistinct(t, lo, hi, i, k); }
    }
    forall b | b in t && b != t[i] && !(b.live && b.start in skip) ensures Header(m', b) {
      assert Header(m, b);
    }
  }

  /** Splitting unlinked block i: writing both sizes makes memory hold the tiling with the block in two. */
  lemma SplitHolds(m: Mem, t: seq<Block>, lo: nat, hi: nat, xs: nat, i: nat, w: nat)
    requires Canonical(t, lo, hi) && i < |t| && !t[i].live && !(lo <= xs <= hi)
    requires MINIMUM_BLOCK_SIZE <= w < t[i].size - MINIMUM_BLOCK_SIZE && w % 8 == 0
    requires Holds(m, t[i := t[i].(live := true)], xs, hi, {t[i].start})
    ensures var b := t[i]; var u := Halved(t, i, w);
      && Tiled(u, lo, hi) && FreeAt(u, i + 1) == AllocAt(t, i, w)
      && Holds(m.(size := m.size[b.start + w := b.size - w][b.start := w]), u, xs, hi, {b.start, b.start + w})
  {
    var b, u, v := t[i], Halved(t, i, w), t[i := t[i].(live := true)];
    var m' := m.(size := m.size[b.start + w := b.size - w][b.start := w]);
    HalvedTiled(t, lo, hi, i, w);
    TilesInOrder(t, lo, hi, i, i + 1);
    assert TileFits(t, i, hi);
    HalvedChain(t, i, w, xs, hi);
    forall c | c in u && !(c.live && c.start in {b.start, b.start + w}) ensures Header(m', c) {
      OtherHalf(t, lo, hi, i, w, c);
      assert Header(m, c);
    }
  }

  /** A block that is not one of the halves was there before, and its header is elsewhere. */
  lemma OtherHalf(t: seq<Block>, lo: nat, hi: nat, i: nat, w: nat, c: Block)
    requires Tiled(t, lo, hi) && i < |t| && 0 < w < t[i].size
    requires c in Halved(t, i, w) && !(c.live && c.start in {t[i].start, t[i].start + w})
    ensures c in t[i := t[i].(live := true)] && c.start != t[i].start && c.start != t[i].start + w
  {
    var u := Halved(t, i, w);
    var k :| 0 <= k < |u| && u[k] == c;
    var j := if k < i then k else k - 1;
    assert t[i := t[i].(live := true)][j] == c;
    TilesInOrder(t, lo, hi, i, i + 1);
    assert TileFits(t, i, hi);
    if j < i { TilesInOrder(t, lo, hi, j, i); } else { TilesInOrder(t, lo, hi, i, j); }
  }

  ghost function Halved(t: seq<Block>, i: nat, w: nat): seq<Block>
    requires i < |t| && w <= t[i].size
  {
    t[..i] + [Block(t[i].start, w, true), Block(t[i].start + w, t[i].size - w, true)] + t[i + 1..]
  }

  lemma HalvedTiled(t: seq<Block>, lo: nat, hi: nat, i: nat, w: nat)
    requires Canonical(t, lo, hi) && i < |t| && !t[i].live
    requires MINIMUM_BLOCK_SIZE <= w < t[i].size - MINIMUM_BLOCK_SIZE && w % 8 == 0
    ensures Tiled(Halved(t, i, w), lo, hi) && FreeAt(Halved(t, i, w), i + 1) == AllocAt(t, i, w)
  {
    var b, u := t[i], Halved(t, i, w);
    var mid := [Block(b.start, w, true), Block(b.start + w, b.size - w, true)];
    assert TileFits(t, i, hi);
    Splice(t, lo, hi, i, i + 1, mid);
    assert i + 1 < |t| ==> Parted(t, i);
    assert u[..i + 1] == t[..i] + [mid[0]] && u[i + 2..] == t[i + 1..];
    Associate(t[..i], [mid[0]], [Joined(u, i + 1)]);
  }

  lemma HalvedChain(t: seq<Block>, i: nat, w: nat, xs: nat, hi: nat)
    requires i < |t| && !t[i].live && w <= t[i].size
    ensures Chain(Halved(t, i, w), xs, hi) == Chain(t[i := t[i].(live := true)], xs, hi)
  {
    var u, v := Halved(t, i, w), t[i := t[i].(live := true)];
    FreeListCut(u, i);
    FreeListCut(v, i);
    FreeListStep(u[i + 1..]);
    assert u[..i] == v[..i] == t[..i] && u[i + 1..][1..] == v[i + 1..] == t[i + 1..];
    assert FreeList(u) == FreeList(v) by {
      assert FreeList(u[i + 1..]) == [] + FreeList(v[i + 1..]);
    }
  }

  /** Memory once block b is off the list and, when worth it, split after w bytes. */
  ghost function Marked(m: Mem, b: nat): Mem {
    Mem(m.next[b := 0], m.size[b := At(m.size, b) + ALLOCATED_BIT])
  }

  lemma MarkHolds(m: Mem, t: seq<Block>, lo: nat, hi: nat, xs: nat, i: nat)
    requires Tiled(t, lo, hi) && i < |t| && t[i].live && !(lo <= xs <= hi) && Holds(m, t, xs, hi, {t[i].start})
    requires At(m.size, t[i].start) == t[i].size
    ensures Holds(Marked(m, t[i].start), t, xs, hi, {})
  {
    LiveHeaderRewritten(m, t, lo, hi, xs, i, {t[i].start}, 0, t[i].size + ALLOCATED_BIT);
    assert {t[i].start} - {t[i].start} == {};
  }

  /** A block handed out whole. */
  lemma WholeIs(t: seq<Block>, i: nat, w: nat)
    requires i < |t| && w <= t[i].size <= w + MINIMUM_BLOCK_SIZE
    ensures t[i := t[i].(live := true)] == AllocAt(t, i, w)
  {
  }

  /** A block handed out in part: the rest, marked live for a moment, goes back on the list. */
  lemma RestGoesBack(t: seq<Block>, lo: nat, hi: nat, i: nat, w: nat)
    requires Canonical(t, lo, hi) && i < |t| && !t[i].live && w % 8 == 0
    requires MINIMUM_BLOCK_SIZE <= w < t[i].size - MINIMUM_BLOCK_SIZE
    ensures var u := Halved(t, i, w);
      && Tiled(u, lo, hi) && FreeAt(u, i + 1) == AllocAt(t, i, w) && i < Low(u, i + 1)
      && u[i] == Block(t[i].start, w, true) && u[i + 1] == Block(t[i].start + w, t[i].size - w, true)
  {
    HalvedTiled(t, lo, hi, i, w);
  }

  /** What the tiling says of handing out free block i. */
  lemma Takeable(m: Mem, t: seq<Block>, lo: nat, hi: nat, xs: nat, i: nat, w: nat)
    requires Canonical(t, lo, hi) && i < |t| && Fits(t[i], w) && w >= MINIMUM_BLOCK_SIZE && w % 8 == 0
    requires !(lo <= xs <= hi) && Holds(m, t, xs, hi, {})
    ensures Iterator(t, i, xs) in m.next && m.next[Iterator(t, i, xs)] == t[i].start
    ensures var u := AllocAt(t, i, w);
      && Canonical(u, lo, hi) && u[i].live && u[i].start == t[i].start && FreeBytes(u) == FreeBytes(t) - u[i].size
      && u[i].size <= FreeBytes(t) <= hi - lo
  {
    UnlinkHolds(m, t, lo, hi, xs, i);
    AllocKeepsCanonical(t, lo, hi, i, w);
    BytesConserved(t, lo, hi);
  }

  /** And of releasing live block i. */
  lemma Releasable(m: Mem, t: seq<Block>, lo: nat, hi: nat, xs: nat, i: nat)
    requires Canonical(t, lo, hi) && i < |t| && t[i].live && !(lo <= xs <= hi) && Holds(m, t, xs, hi, {})
    ensures t[i].start in m.size && m.size[t[i].start] == t[i].size + ALLOCATED_BIT
    ensures Holds(m.(size := m.size[t[i].start := t[i].size]), t, xs, hi, {t[i].start})
    ensures Canonical(FreeAt(t, i), lo, hi) && FreeBytes(t) + t[i].size == FreeBytes(FreeAt(t, i)) <= hi - lo
  {
    UnmarkHolds(m, t, lo, hi, xs, i);
    FreeKeepsCanonical(t, lo, hi, i);
    BytesConserved(FreeAt(t, i), lo, hi);
  }

  lemma UnmarkHolds(m: Mem, t: seq<Block>, lo: nat, hi: nat, xs: nat, i: nat)
    requires Tiled(t, lo, hi) && i < |t| && t[i].live && !(lo <= xs <= hi) && Holds(m, t, xs, hi, {})
    ensures t[i].start in m.size && m.size[t[i].start] == t[i].size + ALLOCATED_BIT
    ensures Holds(m.(size := m.size[t[i].start := t[i].size]), t, xs, hi, {t[i].start})
  {
    var b := t[i].start;
    assert Header(m, t[i]);
    LiveHeaderRewritten(m, t, lo, hi, xs, i, {}, m.next[b], t[i].size);
    assert m.next[b := m.next[b]] == m.next;
    assert {} + {b} == {b};
  }

  /** What prvHeapInit writes is the tiling with one free block. */
  lemma FreshHolds(m: Mem, lo: nat, hi: nat, xs: nat)
    requires lo + MINIMUM_BLOCK_SIZE <= hi && (hi - lo) % 8 == 0 && !(lo <= xs <= hi)
    requires xs in m.next && lo in m.next && hi in m.next && m.next[xs] == lo && m.next[lo] == hi && m.next[hi] == 0
    requires xs in m.size && lo in m.size && hi in m.size
    requires m.size[xs] == 0 && m.size[lo] == hi - lo && m.size[hi] == 0
    ensures Canonical(Fresh(lo, hi), lo, hi) && FreeBytes(Fresh(lo, hi)) == hi - lo
    ensures Holds(m, Fresh(lo, hi), xs, hi, {})
  {
    var b := Block(lo, hi - lo, false);
    FreeListStep([b]);
    assert FreeList([b]) == [b];
    assert Starts([b]) == [lo];
    assert Chain(Fresh(lo, hi), xs, hi) == [xs, lo, hi];
  }

  /** The list can be walked: chain[k + 1] has size sizes[k] and links to chain[k + 2], up to the end marker,
      the only entry with a NULL link. */
  ghost predicate Readable(m: Mem, chain: seq<nat>, sizes: seq<nat>) {
    && |chain| == |sizes| + 2
    && chain[0] in m.next && m.next[chain[0]] == chain[1]
    && forall k :: 0 <= k <= |sizes| ==> Entry(m, chain, sizes, k)
  }

  ghost predicate Entry(m: Mem, chain: seq<nat>, sizes: seq<nat>, k: nat)
    requires |chain| == |sizes| + 2 && k <= |sizes|
  {
    var p := chain[k + 1];
    && p in m.size && m.size[p] == (if k < |sizes| then sizes[k] else 0)
    && p in m.next && m.next[p] == (if k < |sizes| then chain[k + 2] else 0)
    && (k < |sizes| ==> m.next[p] > 0)
  }

  ghost function Sizes(bs: seq<Block>): (r: seq<nat>)
    ensures |r| == |bs| && forall i :: 0 <= i < |r| ==> r[i] == bs[i].size
  {
    if bs == [] then [] else [bs[0].size] + Sizes(bs[1..])
  }

  lemma ListReadable(m: Mem, t: seq<Block>, lo: nat, hi: nat, xs: nat)
    requires 0 < lo <= hi && Tiled(t, lo, hi) && Holds(m, t, xs, hi, {})
    ensures Readable(m, Chain(t, xs, hi), Sizes(FreeList(t)))
  {
    var chain, fl := Chain(t, xs, hi), FreeList(t);
    FreeListInOrder(t, lo, hi);
    assert Link(m.next, chain, 0);
    forall k | 0 <= k <= |fl| ensures Entry(m, chain, Sizes(fl), k) {
      if k < |fl| {
        FreeListIn(t, fl[k]);
        assert Header(m, fl[k]) && Link(m.next, chain, k + 1);
      }
    }
  }

  /** Where the walk stops is the first tile that fits, and the entry before it. */
  lemma WalkEnds(t: seq<Block>, lo: nat, hi: nat, xs: nat, w: nat, k: nat)
    requires Tiled(t, lo, hi) && k <= |FreeList(t)| && forall j :: 0 <= j < k ==> Sizes(FreeList(t))[j] < w
    requires k < |FreeList(t)| ==> Sizes(FreeList(t))[k] >= w
    ensures var i, chain := FirstFit(t, w), Chain(t, xs, hi);
      if i < |t| then chain[k] == Iterator(t, i, xs) && chain[k + 1] == t[i].start != hi else chain[k + 1] == hi
  {
    var i := FirstFit(t, w);
    FitBySizes(t, w, k);
    if i < |t| { FitOnChain(t, lo, hi, xs, i); }
  }

  lemma FitBySizes(t: seq<Block>, w: nat, k: nat)
    requires k <= |FreeList(t)| && forall j :: 0 <= j < k ==> Sizes(FreeList(t))[j] < w
    requires k < |FreeList(t)| ==> Sizes(FreeList(t))[k] >= w
    ensures FirstFit(t, w) < |t| <==> k < |FreeList(t)|
    ensures FirstFit(t, w) < |t| ==> Fits(t[FirstFit(t, w)], w) && |FreeList(t[..FirstFit(t, w)])| == k
  {
    var fl := FreeList(t);
    forall j | 0 <= j < |fl| ensures fl[j].size == Sizes(fl)[j] {}
    FirstFitOnList(t, w, k);
  }

  lemma FitOnChain(t: seq<Block>, lo: nat, hi: nat, xs: nat, i: nat)
    requires Tiled(t, lo, hi) && i < |t| && !t[i].live
    ensures var k, chain := |FreeList(t[..i])|, Chain(t, xs, hi);
      k + 1 < |chain| && chain[k] == Iterator(t, i, xs) && chain[k + 1] == t[i].start != hi
  {
    ChainIndex(t, i, xs, hi);
    TilesInOrder(t, lo, hi, i, i + 1);
  }

  lemma ChainIndex(t: seq<Block>, i: nat, xs: nat, hi: nat)
    requires i < |t| && !t[i].live
    ensures var k, chain := |FreeList(t[..i])|, Chain(t, xs, hi);
      k + 1 < |chain| && chain[k] == Iterator(t, i, xs) && chain[k + 1] == t[i].start
  {
    ChainCut(t, i, xs, hi);
    var before := Before(t, i, xs);
    assert Chain(t, xs, hi)[|before|] == t[i].start;
  }

  /** The walk of pvPortMalloc: the first free-list entry that is large enough is the first tile that fits. */
  lemma FirstFitOnList(t: seq<Block>, w: nat, k: nat)
    requires k <= |FreeList(t)| && forall j :: 0 <= j < k ==> FreeList(t)[j].size < w
    requires k < |FreeList(t)| ==> FreeList(t)[k].size >= w
    ensures FirstFit(t, w) < |t| <==> k < |FreeList(t)|
    ensures k < |FreeList(t)| ==> t[FirstFit(t, w)] == FreeList(t)[k] && |FreeList(t[..FirstFit(t, w)])| == k
  {
    var i := FirstFit(t, w);
    if i < |t| {
      var pre := FreeList(t[..i]);
      FreeListCut(t, i);
      assert FreeList(t)[|pre|] == t[i];
      forall j | 0 <= j < |pre| ensures FreeList(t)[j].size < w {
        FreeListIn(t[..i], pre[j]);
        var n :| 0 <= n < i && t[n] == pre[j];
        assert !Fits(t[n], w);
      }
    } else if k < |FreeList(t)| {
      FreeListIn(t, FreeList(t)[k]);
    }
  }
}

/** heap_4.c: the allocator itself. */
module Heap4 {
  import opened HeapModel
  import opened FreeChain

  const WORD := 0x1_0000_0000
  const TOTAL_HEAP_SIZE := 32 * 1024

  /** size_t arithmetic of the 32-bit port. */
  function Wrap(x: int): nat { x % WORD }

  /** x with xBlockAllocatedBit or-ed in, and with it masked out. */
  function SetTopBit(x: nat): nat { if x < ALLOCATED_BIT then x + ALLOCATED_BIT else x }
  function ClearTopBit(x: nat): nat { if x < ALLOCATED_BIT then x else x - ALLOCATED_BIT }

  function AlignDown(x: nat): nat { x - x % 8 }

  /** The allocator's state. Memory is modelled where the allocator uses it: the maps next and size hold the
      pxNextFreeBlock and xBlockSize words by address, for the link xStart and every block header. */
  class Heap {
    /** Address of the array ucHeap, and of the link xStart, which lies outside it. */
    const ucHeap: nat
    const xStart: nat
    var next: map<nat, nat>
    var size: map<nat, nat>
    /** Address of the end marker; 0 (NULL) until the first allocation. */
    var pxEnd: nat
    var xFreeBytesRemaining: nat
    var xMinimumEverFreeBytesRemaining: nat
    var xBlockAllocatedBit: nat
    ghost var tiles: seq<Block>
    /** Free bytes after initialisation and after every later call. */
    ghost var history: seq<nat>

    /** First aligned address of the heap, and the address its end marker gets. */
    ghost const lo: nat
    ghost const hi: nat

    ghost predicate Placed() {
      && 0 < ucHeap && ucHeap + TOTAL_HEAP_SIZE <= WORD
      && lo == AlignDown(ucHeap + 7) && hi == AlignDown(ucHeap + TOTAL_HEAP_SIZE - STRUCT_SIZE)
    }

    ghost predicate Layout() {
      && 0 < lo && lo + 32 <= hi < WORD && hi - lo <= TOTAL_HEAP_SIZE && lo % 8 == 0 && hi % 8 == 0
      && !(lo <= xStart <= hi)
    }

    ghost function Memory(): Mem
      reads this
    {
      Mem(next, size)
    }

    // ----- The invariant -----

    ghost predicate Valid()
      reads this
    {
      && Layout()
      && (pxEnd == 0 ==>
            && Placed() && tiles == []
            && history == [] && xFreeBytesRemaining == xMinimumEverFreeBytesRemaining == xBlockAllocatedBit == 0)
      && (pxEnd != 0 ==>
            && Sound()
            && Minimum(xMinimumEverFreeBytesRemaining, history)
            && history[|history| - 1] == xFreeBytesRemaining >= xMinimumEverFreeBytesRemaining)
    }

    ghost predicate Sound()
      reads this
    {
      Bounded() && Agrees()
    }

    ghost predicate Bounded()
      reads this
    {
      && Layout() && pxEnd == hi && xBlockAllocatedBit == ALLOCATED_BIT
    }

    /** Memory, counter and tiling agree. */
    ghost predicate Agrees()
      reads this
    {
      && Canonical(tiles, lo, hi) && Holds(Memory(), tiles, xStart, hi, {}) && xFreeBytesRemaining == FreeBytes(tiles)
    }

    static ghost predicate Minimum(x: nat, s: seq<nat>) {
      x in s && forall y :: y in s ==> x <= y
    }

    /** The tiling the next call works on: prvHeapInit runs first when the heap has never been used. */
    ghost function Current(): seq<Block>
      requires Layout()
      reads this
    {
      if pxEnd == 0 then Fresh(lo, hi) else tiles
    }

    constructor (ucHeap: nat, xStart: nat)
      requires 0 < ucHeap && ucHeap + TOTAL_HEAP_SIZE <= WORD && xStart < WORD
      requires !(ucHeap <= xStart < ucHeap + TOTAL_HEAP_SIZE)
      ensures Valid() && Placed() && this.ucHeap == ucHeap && this.xStart == xStart && pxEnd == 0
    {
      this.ucHeap, this.xStart := ucHeap, xStart;
      this.lo, this.hi := AlignDown(ucHeap + 7), AlignDown(ucHeap + TOTAL_HEAP_SIZE - STRUCT_SIZE);
      next, size := map[], map[];
      pxEnd, xBlockAllocatedBit := 0, 0;
      xFreeBytesRemaining, xMinimumEverFreeBytesRemaining := 0, 0;
      tiles, history := [], [];
    }

    // ----- prvInsertBlockIntoFreeList -----

    /** Its loop: the last list entry below the block being inserted. */
    method FindInsertionPoint(pxBlockToInsert: nat, ghost before: seq<nat>, ghost behind: seq<nat>)
        returns (pxIterator: nat)
      requires AscendsAround(next, before, behind, xStart, pxBlockToInsert)
      ensures pxIterator == before[|before| - 1]
    {
      ghost var chain := before + behind;
      pxIterator := xStart;
      ghost var k := 0;
      assert Link(next, chain, 0);
      while next[pxIterator] < pxBlockToInsert
        invariant k < |before| && pxIterator == before[k]
        invariant pxIterator in next && next[pxIterator] == chain[k + 1]
        invariant k + 1 < |before| ==> next[pxIterator] == before[k + 1]
        decreases |before| - k
      {
        pxIterator := next[pxIterator];
        k := k + 1;
        assert Link(next, chain, k);
      }
    }

    /** prvInsertBlockIntoFreeList: memory afterwards holds the heap with the block released and merged, and the blocks
        that it is not merged with keep their headers. */
    method PrvInsertBlockIntoFreeList(pxBlockToInsert: nat, ghost t: seq<Block>, ghost i: nat, ghost skip: set<nat>)
      requires Bounded() && Tiled(t, lo, hi) && i < |t| && t[i].live && Holds(Memory(), t, xStart, hi, skip)
      requires pxBlockToInsert == t[i].start && pxBlockToInsert in size && size[pxBlockToInsert] == t[i].size
      modifies this`next, this`size
      ensures Holds(Memory(), FreeAt(t, i), xStart, hi, skip - {pxBlockToInsert})
      ensures forall j :: 0 <= j < Low(t, i) && t[j].live && t[j].start in old(size) ==> SizeKept(old(size), t[j].start)
    {
      InsertReady(Memory(), t, lo, hi, xStart, i, skip);
      forall j | 0 <= j < Low(t, i) && t[j].live && t[j].start in size
        ensures var m' := Inserted(Memory(), Iterator(t, i, xStart), t[i].start, hi);
          t[j].start in m'.size && m'.size[t[j].start] == size[t[j].start]
      {
        KeptHeader(Memory(), t, lo, hi, xStart, i, skip, j);
      }
      InsertHeader(pxBlockToInsert, Before(t, i, xStart), Behind(t, i, hi));
    }

    ghost predicate SizeKept(was: map<nat, nat>, b: nat)
      requires b in was
      reads this
    {
      b in size && size[b] == was[b]
    }

    /** Its body, on the words in memory. */
    method InsertHeader(pxBlockToInsert: nat, ghost before: seq<nat>, ghost behind: seq<nat>)
      requires AscendsAround(next, before, behind, xStart, pxBlockToInsert)
      requires InsertableAt(Memory(), before[|before| - 1], pxBlockToInsert, pxEnd, TOTAL_HEAP_SIZE)
      modifies this`next, this`size
      ensures Memory() == Inserted(old(Memory()), before[|before| - 1], pxBlockToInsert, pxEnd)
    {
      var pxIterator := FindInsertionPoint(pxBlockToInsert, before, behind);
      var block := pxBlockToInsert;
      if pxIterator + size[pxIterator] == block {
        size := size[pxIterator := Wrap(size[pxIterator] + size[block])];
        block := pxIterator;
      }
      if block + size[block] == next[pxIterator] {
        if next[pxIterator] != pxEnd {
          size := size[block := Wrap(size[block] + size[next[pxIterator]])];
          next := next[block := next[next[pxIterator]]];
        } else {
          next := next[block := pxEnd];
        }
      } else {
        next := next[block := next[pxIterator]];
      }
      if pxIterator != block {
        next := next[pxIterator := block];
      }
      assert size == Inserted(old(Memory()), pxIterator, pxBlockToInsert, pxEnd).size;
      assert next == Inserted(old(Memory()), pxIterator, pxBlockToInsert, pxEnd).next;
    }

    // ----- prvHeapInit -----

    method PrvHeapInit()
      requires Valid() && pxEnd == 0
      modifies this
      ensures Valid() && pxEnd != 0
      ensures tiles == Fresh(lo, hi) && history == [hi - lo]
    {
      var pucAlignedHeap, uxAddress := AlignHeap();
      WriteFirstBlock(pucAlignedHeap, uxAddress);
      history := [xFreeBytesRemaining];
      MinimumOfOne(xFreeBytesRemaining);
    }

    static lemma MinimumOfOne(x: nat)
      ensures Minimum(x, [x])
    {
    }

    /** Its writes. */
    method WriteFirstBlock(pucAlignedHeap: nat, uxAddress: nat)
      requires Layout() && pucAlignedHeap == lo && uxAddress == hi
      modifies this
      ensures Sound() && tiles == Fresh(lo, hi)
      ensures xMinimumEverFreeBytesRemaining == xFreeBytesRemaining == hi - lo
    {
      next := next[xStart := pucAlignedHeap];
      size := size[xStart := 0];
      pxEnd := uxAddress;
      size, next := size[pxEnd := 0], next[pxEnd := 0];
      size := size[pucAlignedHeap := Wrap(uxAddress - pucAlignedHeap)];
      next := next[pucAlignedHeap := pxEnd];
      xMinimumEverFreeBytesRemaining := size[pucAlignedHeap];
      xFreeBytesRemaining := size[pucAlignedHeap];
      xBlockAllocatedBit := ALLOCATED_BIT;
      tiles := Fresh(lo, hi);
      FreshHolds(Memory(), lo, hi, xStart);
    }

    /** Its alignment arithmetic. */
    method AlignHeap() returns (pucAlignedHeap: nat, uxEnd: nat)
      requires Layout() && Placed()
      ensures pucAlignedHeap == lo && uxEnd == hi
    {
      var xTotalHeapSize := TOTAL_HEAP_SIZE;
      var uxAddress := ucHeap;
      if uxAddress % 8 != 0 {
        NoWrap(ucHeap + 7);
        uxAddress := Wrap(uxAddress + 7);
        uxAddress := AlignDown(uxAddress);
        NoWrap(TOTAL_HEAP_SIZE - (lo - ucHeap));
        xTotalHeapSize := Wrap(xTotalHeapSize - (uxAddress - ucHeap));
      }
      pucAlignedHeap := uxAddress;
      assert pucAlignedHeap == lo && xTotalHeapSize == ucHeap + TOTAL_HEAP_SIZE - lo;
      uxEnd := pucAlignedHeap + xTotalHeapSize - STRUCT_SIZE;
      uxEnd := AlignDown(uxEnd);
    }

    static lemma NoWrap(x: int)
      requires 0 <= x < WORD
      ensures Wrap(x) == x
    {}

    // ----- pvPortMalloc -----

    /** Its walk: the first block on the list that is large enough, and the one before it. */
    method FindFirstFit(wanted: nat, ghost chain: seq<nat>, ghost sizes: seq<nat>)
      returns (pxPreviousBlock: nat, pxBlock: nat, ghost k: nat)
      requires Readable(Memory(), chain, sizes) && chain[0] == xStart
      ensures k <= |sizes| && pxPreviousBlock == chain[k] && pxBlock == chain[k + 1]
      ensures forall j :: 0 <= j < k ==> sizes[j] < wanted
      ensures k < |sizes| ==> sizes[k] >= wanted
    {
      pxPreviousBlock := xStart;
      pxBlock := next[xStart];
      k := 0;
      while size[pxBlock] < wanted && next[pxBlock] != 0
        invariant k <= |sizes| && pxPreviousBlock == chain[k] && pxBlock == chain[k + 1]
        invariant Entry(Memory(), chain, sizes, k)
        invariant forall j :: 0 <= j < k ==> sizes[j] < wanted
        decreases |sizes| - k
      {
        pxPreviousBlock := pxBlock;
        pxBlock := next[pxBlock];
        k := k + 1;
      }
    }

    /** Take free block i off the list, and put back what is left over when it is worth a block. */
    method Unlink(pxPreviousBlock: nat, pxBlock: nat, wanted: nat, ghost i: nat)
      requires Sound() && MINIMUM_BLOCK_SIZE <= wanted && wanted % 8 == 0
      requires i < |tiles| && Fits(tiles[i], wanted) && pxBlock == tiles[i].start
        && pxPreviousBlock == Iterator(tiles, i, xStart)
      modifies this`next, this`size
      ensures Holds(Memory(), AllocAt(tiles, i, wanted), xStart, hi, {pxBlock})
      ensures pxBlock in size && size[pxBlock] == AllocAt(tiles, i, wanted)[i].size
    {
      assert Header(Memory(), tiles[i]);
      UnlinkHolds(Memory(), tiles, lo, hi, xStart, i);
      next := next[pxPreviousBlock := next[pxBlock]];
      if size[pxBlock] - wanted > MINIMUM_BLOCK_SIZE {
        Split(pxBlock, wanted, i);
      } else {
        WholeIs(tiles, i, wanted);
      }
    }

    /** The block has been unlinked: cut it in two and put the second part on the list. */
    method Split(pxBlock: nat, wanted: nat, ghost i: nat)
      requires Bounded() && Canonical(tiles, lo, hi) && i < |tiles| && !tiles[i].live && pxBlock == tiles[i].start
      requires MINIMUM_BLOCK_SIZE <= wanted < tiles[i].size - MINIMUM_BLOCK_SIZE && wanted % 8 == 0
      requires Holds(Memory(), tiles[i := tiles[i].(live := true)], xStart, hi, {pxBlock})
      requires pxBlock in size && size[pxBlock] == tiles[i].size
      modifies this`next, this`size
      ensures Holds(Memory(), AllocAt(tiles, i, wanted), xStart, hi, {pxBlock})
      ensures pxBlock in size && size[pxBlock] == wanted == AllocAt(tiles, i, wanted)[i].size
    {
      ghost var u, rest := Halved(tiles, i, wanted), pxBlock + wanted;
      RestGoesBack(tiles, lo, hi, i, wanted);
      SplitHolds(Memory(), tiles, lo, hi, xStart, i, wanted);
      var pxNewBlockLink := pxBlock + wanted;
      size := size[pxNewBlockLink := size[pxBlock] - wanted];
      size := size[pxBlock := wanted];
      PrvInsertBlockIntoFreeList(pxNewBlockLink, u, i + 1, {pxBlock, rest});
      assert {pxBlock, rest} - {rest} == {pxBlock};
    }

    /** Hand out free block i. */
    method Take(pxPreviousBlock: nat, pxBlock: nat, wanted: nat, ghost i: nat) returns (pvReturn: nat)
      requires Sound() && MINIMUM_BLOCK_SIZE <= wanted && wanted % 8 == 0
      requires i < |tiles| && Fits(tiles[i], wanted) && pxBlock == tiles[i].start
        && pxPreviousBlock == Iterator(tiles, i, xStart)
      modifies this`next, this`size, this`tiles, this`xFreeBytesRemaining, this`xMinimumEverFreeBytesRemaining
      ensures Agrees() && tiles == AllocAt(old(tiles), i, wanted) && pvReturn == pxBlock + STRUCT_SIZE
      ensures xMinimumEverFreeBytesRemaining ==
        if xFreeBytesRemaining < old(xMinimumEverFreeBytesRemaining) then xFreeBytesRemaining
        else old(xMinimumEverFreeBytesRemaining)
    {
      Takeable(Memory(), tiles, lo, hi, xStart, i, wanted);
      pvReturn := next[pxPreviousBlock] + STRUCT_SIZE;
      Unlink(pxPreviousBlock, pxBlock, wanted, i);
      tiles := AllocAt(tiles, i, wanted);
      MarkHolds(Memory(), tiles, lo, hi, xStart, i);
      Mark(pxBlock);
    }

    /** The rest of pvPortMalloc once the request is known to be worth trying. */
    method TakeFirstFit(wanted: nat) returns (pvReturn: nat)
      requires Sound() && MINIMUM_BLOCK_SIZE <= wanted && wanted % 8 == 0
      modifies this`next, this`size, this`tiles, this`xFreeBytesRemaining, this`xMinimumEverFreeBytesRemaining
      ensures Agrees()
      ensures var i := FirstFit(old(tiles), wanted);
        if i < |old(tiles)| then tiles == AllocAt(old(tiles), i, wanted)
          && pvReturn == old(tiles)[i].start + STRUCT_SIZE
        else tiles == old(tiles) && pvReturn == 0 && xFreeBytesRemaining == old(xFreeBytesRemaining)
      ensures xMinimumEverFreeBytesRemaining ==
        if FirstFit(old(tiles), wanted) < |old(tiles)| && xFreeBytesRemaining < old(xMinimumEverFreeBytesRemaining)
        then xFreeBytesRemaining else old(xMinimumEverFreeBytesRemaining)
    {
      pvReturn := 0;
      ghost var chain, sizes := Chain(tiles, xStart, hi), Sizes(FreeList(tiles));
      ListReadable(Memory(), tiles, lo, hi, xStart);
      ghost var k;
      var pxPreviousBlock, pxBlock;
      pxPreviousBlock, pxBlock, k := FindFirstFit(wanted, chain, sizes);
      WalkEnds(tiles, lo, hi, xStart, wanted, k);
      if pxBlock != pxEnd {
        pvReturn := Take(pxPreviousBlock, pxBlock, wanted, FirstFit(tiles, wanted));
      }
    }

    /** Count the block out and mark it as the application's. */
    method Mark(pxBlock: nat)
      requires pxBlock in size && size[pxBlock] <= xFreeBytesRemaining < WORD && size[pxBlock] < ALLOCATED_BIT
      modifies this`next, this`size, this`xFreeBytesRemaining, this`xMinimumEverFreeBytesRemaining
      ensures xFreeBytesRemaining == old(xFreeBytesRemaining) - old(size)[pxBlock]
      ensures xMinimumEverFreeBytesRemaining ==
        if xFreeBytesRemaining < old(xMinimumEverFreeBytesRemaining) then xFreeBytesRemaining
        else old(xMinimumEverFreeBytesRemaining)
      ensures Memory() == Marked(old(Memory()), pxBlock)
    {
      xFreeBytesRemaining := Wrap(xFreeBytesRemaining - size[pxBlock]);
      if xFreeBytesRemaining < xMinimumEverFreeBytesRemaining {
        xMinimumEverFreeBytesRemaining := xFreeBytesRemaining;
      }
      size := size[pxBlock := SetTopBit(size[pxBlock])];
      next := next[pxBlock := 0];
    }

    /** Note the free-byte count at the end of a call. */
    ghost method Record(low: nat)
      requires Layout() && Sound() && Minimum(low, history)
      requires xMinimumEverFreeBytesRemaining == if xFreeBytesRemaining < low then xFreeBytesRemaining else low
      modifies this`history
      ensures Valid() && history == old(history) + [xFreeBytesRemaining]
    {
      BytesConserved(tiles, lo, hi);
      ghost var h := history;
      history := history + [xFreeBytesRemaining];
      assert forall y :: y in history <==> y in h || y == xFreeBytesRemaining;
    }

    /** The size arithmetic of pvPortMalloc, which never wraps. */
    method RoundUp(xWantedSize: nat) returns (wanted: nat)
      requires xWantedSize < ALLOCATED_BIT
      ensures wanted == if xWantedSize > 0 then Needed(xWantedSize) else 0
      ensures wanted % 8 == 0 && (wanted > 0 ==> wanted >= MINIMUM_BLOCK_SIZE)
    {
      wanted := xWantedSize;
      if wanted > 0 {
        wanted := Wrap(wanted + STRUCT_SIZE);
        if wanted % 8 != 0 {
          wanted := Wrap(wanted + (8 - wanted % 8));
        }
        NeededAligned(xWantedSize);
        assert wanted == Needed(xWantedSize);
      }
    }

    method PvPortMalloc(xWantedSize: nat) returns (pvReturn: nat)
      requires Valid() && xWantedSize < WORD
      modifies this
      ensures Valid() && pxEnd != 0
      ensures (tiles, pvReturn) == Malloc(old(Current()), xWantedSize)
      ensures history == (if old(pxEnd) == 0 then [hi - lo] else old(history)) + [xFreeBytesRemaining]
    {
      if pxEnd == 0 {
        PrvHeapInit();
      }
      pvReturn := 0;
      ghost var low := xMinimumEverFreeBytesRemaining;
      if xWantedSize < xBlockAllocatedBit {
        var wanted := RoundUp(xWantedSize);
        FitImpliesEnoughBytes(tiles, wanted);
        if wanted > 0 && wanted <= xFreeBytesRemaining {
          pvReturn := TakeFirstFit(wanted);
        }
      }
      Record(low);
    }

    // ----- vPortFree -----

    /** Put a live block back on the list. */
    method Release(pxLink: nat, ghost i: nat)
      requires Sound() && i < |tiles| && tiles[i].live && tiles[i].start == pxLink
      modifies this`size, this`next, this`xFreeBytesRemaining, this`tiles
      ensures Agrees() && tiles == old(FreeAt(tiles, i)) && xFreeBytesRemaining >= old(xFreeBytesRemaining)
    {
      ghost var t := tiles;
      Releasable(Memory(), t, lo, hi, xStart, i);
      size := size[pxLink := ClearTopBit(size[pxLink])];
      xFreeBytesRemaining := Wrap(xFreeBytesRemaining + size[pxLink]);
      PrvInsertBlockIntoFreeList(pxLink, t, i, {pxLink});
      assert {pxLink} - {pxLink} == {};
      tiles := FreeAt(t, i);
    }

    ghost predicate IsPayload(pv: nat)
      reads this
    {
      exists b :: b in tiles && pv == b.start + STRUCT_SIZE
    }

    /** pv must be NULL, or the pointer to the payload of some block: a live one to release, or a free one,
        which is left alone. */
    method VPortFree(pv: nat)
      requires Valid() && (pv == 0 || IsPayload(pv))
      modifies this
      ensures Valid() && pxEnd == old(pxEnd)
      ensures tiles == Free(old(tiles), pv)
      ensures history == if pxEnd == 0 then [] else old(history) + [xFreeBytesRemaining]
    {
      if pv != 0 {
        FreePayload(pv);
      }
      if pxEnd != 0 {
        Record(old(xMinimumEverFreeBytesRemaining));
      }
    }

    method FreePayload(pv: nat)
      requires Sound() && IsPayload(pv)
      modifies this`size, this`next, this`xFreeBytesRemaining, this`tiles
      ensures Agrees() && tiles == old(Free(tiles, pv)) && xFreeBytesRemaining >= old(xFreeBytesRemaining)
    {
      var pxLink := pv - STRUCT_SIZE;
      ghost var i := PayloadBlock(pxLink);
      if size[pxLink] >= xBlockAllocatedBit {
        if next[pxLink] == 0 {
          Release(pxLink, i);
        }
      }
    }

    /** The block behind a payload pointer, what its header says, and what releasing it means. */
    lemma PayloadBlock(pxLink: nat) returns (i: nat)
      requires Sound() && IsPayload(pxLink + STRUCT_SIZE)
      ensures i < |tiles| && tiles[i].start == pxLink && pxLink in size && pxLink in next
      ensures size[pxLink] >= ALLOCATED_BIT && next[pxLink] == 0 <==> tiles[i].live
      ensures Free(tiles, pxLink + STRUCT_SIZE) == if tiles[i].live then FreeAt(tiles, i) else tiles
    {
      i :| 0 <= i < |tiles| && tiles[i].start == pxLink;
      assert Header(Memory(), tiles[i]);
      TilesInOrder(tiles, lo, hi, i, i + 1);
      if tiles[i].live { FreeAddrOfBlock(tiles, lo, hi, i); } else { LinkOfFree(i); }
    }

    /** Releasing a block that is already free finds no live block there. */
    lemma LinkOfFree(i: nat)
      requires Canonical(tiles, lo, hi) && i < |tiles| && !tiles[i].live
      ensures FreeAddr(tiles, tiles[i].start) == tiles
    {
      var k := LiveAt(tiles, tiles[i].start);
      if k < |tiles| { TilesDistinct(tiles, lo, hi, i, k); }
    }

    method XPortGetFreeHeapSize() returns (r: nat)
      requires Valid()
      ensures pxEnd != 0 ==> r == FreeBytes(tiles)
    {
      r := xFreeBytesRemaining;
    }

    method XPortGetMinimumEverFreeHeapSize() returns (r: nat)
      requires Valid()
      ensures pxEnd != 0 ==> Minimum(r, history)
    {
      r := xMinimumEverFreeBytesRemaining;
    }
  }
}
