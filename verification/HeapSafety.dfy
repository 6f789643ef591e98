/** What callers of malloc and free can rely on, stated on live blocks and addresses. */
module HeapSafety {
  import opened Bits
  import opened Options
  import opened HeapTree
  import opened HeapSpec

  /** Some live block overlaps the q-th block of size g.Size(k). */
  ghost predicate Touched(g: Geometry, t: Tree, k: nat, q: nat)
    requires |t| == g.NodeCount()
  {
    exists b :: b in Live(g, t) && Overlaps(b, g.base + q * g.Size(k), g.Size(k))
  }

  /** The q-th block of a size is the block of a node, and that node is free iff nothing touches it. */
  lemma UnitNode(g: Geometry, t: Tree, k: nat, q: nat) returns (n: nat)
    requires WellFormed(g, t) && k <= g.levels && q < Pow2(g.levels - k)
    ensures Node(g, n, k) && n + 1 == q + Pow2(g.levels - k) && Lo(g, n, k) == g.base + q * g.Size(k)
    ensures Candidate(g, t, 0, k, n) <==> !Touched(g, t, k, q)
  {
    n := q + Pow2(g.levels - k) - 1;
    DepthBounds(n);
    if Depth(n) < g.levels - k { Pow2Monotone(Depth(n), g.levels - k); }
    if Depth(n) > g.levels - k { Pow2Monotone(g.levels - k, Depth(n)); }
    LoAligned(g, n, k);
    FreeIffUntouched(g, t, n, k);
    RootAnc(n);
  }

  /** A node of height k is one of the blocks of its size. */
  lemma NodeUnit(g: Geometry, n: nat, k: nat) returns (q: nat)
    requires Node(g, n, k)
    ensures q < Pow2(g.levels - k) && n + 1 == q + Pow2(g.levels - k) && Lo(g, n, k) == g.base + q * g.Size(k)
  {
    DepthBounds(n);
    LoAligned(g, n, k);
    q := n + 1 - Pow2(g.levels - k);
  }

  /** malloc of at most half the heap fails iff every aligned block of the rounded size overlaps a
      live block; otherwise it returns the one with the lowest address, which becomes live. */
  lemma MallocExact(g: Geometry, t: Tree, size: nat)
    requires WellFormed(g, t) && !IsLeaf(t[0]) && 2 * size <= g.HeapSize()
    ensures var k, r := Level(g, size), Malloc(g, t, size);
            && k < g.levels && size <= g.Size(k)
            && WellFormed(g, r.tree) && !IsLeaf(r.tree[0])
            && (r.ret == NULL ==> r.tree == t && forall q: nat :: q < Pow2(g.levels - k) ==> Touched(g, t, k, q))
            && (r.ret != NULL ==>
                  && Live(g, r.tree) == Live(g, t) + {Block(r.ret, g.Size(k))}
                  && (forall b :: b in Live(g, t) ==> !Overlaps(b, r.ret, g.Size(k)))
                  && Used(g, r.tree, 0, g.levels) == Used(g, t, 0, g.levels) + g.Size(k)
                  && exists q: nat :: LowestUntouched(g, t, k, q) && r.ret == g.base + q * g.Size(k))
  {
    var k, r := Level(g, size), Malloc(g, t, size);
    HeapFits(g);
    RoundedIsLevel(g, size);
    SizeHalves(g, g.levels);
    assert k < g.levels;
    FindExact(g, t, 0, g.levels, k);
    var f := Find(g, t, 0, g.levels, k);
    assert r == Chosen(g, t, k);
    if f.None? {
      forall q: nat | q < Pow2(g.levels - k) ensures Touched(g, t, k, q) {
        var n := UnitNode(g, t, k, q);
      }
    } else {
      var j := f.value;
      var q := NodeUnit(g, j, k);
      LoBounds(g, j, k);
      AllocateKeeps(g, t, j, k);
      LiveAfterAllocate(g, t, j, k);
      UsedAfterChange(g, t, r.tree, 0, g.levels, j, k);
      RootAnc(j);
      FreeIffUntouched(g, t, j, k);
      assert 0 in Leaves(r.tree) <==> IsLeaf(r.tree[0]);
      assert LowestUntouched(g, t, k, q) by {
        var j' := UnitNode(g, t, k, q);
        forall p: nat | p < q ensures Touched(g, t, k, p) {
          var n := UnitNode(g, t, k, p);
        }
      }
    }
  }

  ghost predicate LowestUntouched(g: Geometry, t: Tree, k: nat, q: nat)
    requires |t| == g.NodeCount() && k <= g.levels
  {
    && q < Pow2(g.levels - k) && !Touched(g, t, k, q)
    && forall p: nat :: p < q ==> Touched(g, t, k, p)
  }

  /** free succeeds iff the pointer is the address of a live block, and takes exactly that block. */
  lemma FreeExact(g: Geometry, t: Tree, ptr: nat)
    requires WellFormed(g, t) && !IsLeaf(t[0])
    ensures var r := Free(g, t, ptr);
            && WellFormed(g, r.tree) && !IsLeaf(r.tree[0])
            && (r.ret == 0 <==> exists b :: b in Live(g, t) && b.addr == ptr)
            && (r.ret != 0 ==> r.ret == 1 && r.tree == t)
            && (forall b :: b in Live(g, t) && b.addr == ptr ==>
                  && Live(g, r.tree) == Live(g, t) - {b}
                  && Used(g, r.tree, 0, g.levels) == Used(g, t, 0, g.levels) - b.size)
  {
    var r, i := Free(g, t, ptr), FindPtr(g, t, ptr);
    WellFormedShape(g, t);
    FindPtrExact(g, t, ptr);
    forall b | b in Live(g, t) && b.addr == ptr
      ensures i != 0 && t[0] != NULL && b == Block(t[i], g.Size(Height(g, i)))
    {
      var m: nat :| m < |t| && IsLeaf(t[m]) && b == Block(t[m], g.Size(Height(g, m)));
      RootAnc(m);
      UsedPath(g, t, 0, m);
    }
    if i != 0 {
      RootAnc(i);
      UsedPath(g, t, 0, i);
      ReleaseKeeps(g, t, i);
      LiveAfterRelease(g, t, i);
      UsedAfterChange(g, r.tree, t, 0, g.levels, i, Height(g, i));
      assert 0 in Leaves(r.tree) <==> IsLeaf(r.tree[0]);
    }
  }

  /** Freeing what malloc has just returned restores the whole array, slot by slot. */
  lemma FreeUndoesMalloc(g: Geometry, t: Tree, size: nat)
    requires WellFormed(g, t) && !IsLeaf(t[0]) && 2 * size <= g.HeapSize() && Malloc(g, t, size).ret != NULL
    ensures var r := Malloc(g, t, size);
            Free(g, r.tree, r.ret) == Outcome(t, 0)
  {
    var r, k := Malloc(g, t, size), Level(g, size);
    MallocExact(g, t, size);
    FreeExact(g, r.tree, r.ret);
    var b := Block(r.ret, g.Size(k));
    assert b in Live(g, r.tree);
    assert b !in Live(g, t) by {
      if b in Live(g, t) { assert Overlaps(b, r.ret, g.Size(k)); }
    }
    var u := Free(g, r.tree, r.ret).tree;
    assert Live(g, u) == Live(g, t);
    LiveDeterminesTree(g, u, t);
  }

  /** The tree after freeing a list of pointers, one after the other. */
  function FreeAll(g: Geometry, t: Tree, ptrs: seq<nat>): (u: Tree)
    requires g.Valid() && |t| == g.NodeCount()
    ensures |u| == |t|
    decreases ptrs
  {
    if ptrs == [] then t else FreeAll(g, Free(g, t, ptrs[0]).tree, ptrs[1..])
  }

  lemma {:induction false} FreeAllLive(g: Geometry, t: Tree, ptrs: seq<nat>)
    requires WellFormed(g, t) && !IsLeaf(t[0])
    ensures WellFormed(g, FreeAll(g, t, ptrs)) && !IsLeaf(FreeAll(g, t, ptrs)[0])
    ensures Live(g, FreeAll(g, t, ptrs)) == set b | b in Live(g, t) && b.addr !in ptrs
    decreases ptrs
  {
    if ptrs != [] {
      var u := Free(g, t, ptrs[0]).tree;
      FreeExact(g, t, ptrs[0]);
      FreeAllLive(g, u, ptrs[1..]);
      assert forall a :: a in ptrs <==> a == ptrs[0] || a in ptrs[1..];
      if b :| b in Live(g, t) && b.addr == ptrs[0] { LiveAddressUnique(g, t, b); }
    }
  }

  lemma LiveSizesPositive(g: Geometry, t: Tree, b: Block)
    requires WellFormed(g, t) && b in Live(g, t)
    ensures b.size >= g.Size(0) > 0
  {
    var i: nat :| i < |t| && IsLeaf(t[i]) && b == Block(t[i], g.Size(Height(g, i)));
    Pow2Monotone(g.minLen, g.minLen + Height(g, i));
  }

  /** The order of frees does not matter, and freeing every live block leaves all slots NULL. */
  lemma FreeOrderIrrelevant(g: Geometry, t: Tree, ptrs: seq<nat>, qtrs: seq<nat>)
    requires WellFormed(g, t) && !IsLeaf(t[0])
    requires forall a :: a in ptrs <==> a in qtrs
    ensures FreeAll(g, t, ptrs) == FreeAll(g, t, qtrs)
    ensures (forall b :: b in Live(g, t) ==> b.addr in ptrs) ==>
              forall i :: 0 <= i < |t| ==> FreeAll(g, t, ptrs)[i] == NULL
  {
    FreeAllLive(g, t, ptrs);
    FreeAllLive(g, t, qtrs);
    var u := FreeAll(g, t, ptrs);
    assert Live(g, u) == Live(g, FreeAll(g, t, qtrs));
    LiveDeterminesTree(g, u, FreeAll(g, t, qtrs));
    if forall b :: b in Live(g, t) ==> b.addr in ptrs {
      EmptyTree(g, u);
    }
  }

  /** With nothing live, every slot is NULL. */
  lemma EmptyTree(g: Geometry, t: Tree)
    requires WellFormed(g, t) && Live(g, t) == {}
    ensures forall i :: 0 <= i < |t| ==> t[i] == NULL
  {
    forall i: nat | i < |t| ensures t[i] == NULL {
      if t[i] != NULL {
        var b := SomeLive(g, t, i);
        assert false;
      }
    }
  }

  lemma SomeLive(g: Geometry, t: Tree, i: nat) returns (b: Block)
    requires WellFormed(g, t) && i < |t| && t[i] != NULL
    ensures b in Live(g, t)
  {
    var m := LeafBelow(g, t, i, Height(g, i));
    b := Block(t[m], g.Size(Height(g, m)));
  }

  // ---------------------------------------------------------------- runs

  datatype Call = MallocCall(size: nat) | FreeCall(ptr: nat)

  /** A heap and the ledger a careful caller keeps: blocks granted and not yet taken back. */
  datatype Run = Run(tree: Tree, ledger: set<Block>)

  ghost function Step(g: Geometry, r: Run, c: Call): (r': Run)
    requires g.Valid() && |r.tree| == g.NodeCount()
    ensures |r'.tree| == |r.tree|
  {
    match c
    case MallocCall(size) =>
      var o := Malloc(g, r.tree, size);
      Run(o.tree, if o.ret == NULL then r.ledger else r.ledger + {Block(o.ret, g.Size(Level(g, size)))})
    case FreeCall(ptr) =>
      var o := Free(g, r.tree, ptr);
      Run(o.tree, if o.ret != 0 then r.ledger else set b | b in r.ledger && b.addr != ptr)
  }

  ghost function After(g: Geometry, r: Run, calls: seq<Call>): (r': Run)
    requires g.Valid() && |r.tree| == g.NodeCount()
    ensures |r'.tree| == |r.tree|
  {
    if calls == [] then r else Step(g, After(g, r, calls[..|calls| - 1]), calls[|calls| - 1])
  }

  /** heap_init: every slot NULL, nothing granted. */
  ghost function Fresh(g: Geometry): Run { Run(seq(g.NodeCount(), i => NULL), {}) }

  ghost predicate Bounded(g: Geometry, c: Call) { c.MallocCall? ==> 2 * c.size <= g.HeapSize() }

  /** After any sequence of calls with no request above half the heap: the live blocks are exactly the
      ones on the ledger, pairwise disjoint and inside the heap, and the counted bytes are their sum. */
  lemma {:induction false} EveryRunSafe(g: Geometry, calls: seq<Call>)
    requires g.Valid() && forall i :: 0 <= i < |calls| ==> Bounded(g, calls[i])
    ensures var r := After(g, Fresh(g), calls);
            && WellFormed(g, r.tree) && !IsLeaf(r.tree[0]) && Live(g, r.tree) == r.ledger
            && (forall b, c :: b in r.ledger && c in r.ledger && b != c ==> Apart(b.addr, b.size, c.addr, c.size))
            && (forall b :: b in r.ledger ==> g.base <= b.addr && b.addr + b.size <= g.base + g.HeapSize())
            && Used(g, r.tree, 0, g.levels) == SizeSum(r.ledger) <= g.HeapSize()
  {
    var r := After(g, Fresh(g), calls);
    if calls == [] {
      FreshSafe(g);
    } else {
      var c := calls[|calls| - 1];
      var p := After(g, Fresh(g), calls[..|calls| - 1]);
      EveryRunSafe(g, calls[..|calls| - 1]);
      assert Bounded(g, c);
      StepSafe(g, p, c);
    }
    LiveBlocksSafe(g, r.tree);
    UsedIsSizeSum(g, r.tree);
    UsedFits(g, r.tree, 0, g.levels);
  }

  lemma FreshSafe(g: Geometry)
    requires g.Valid()
    ensures var t := Fresh(g).tree; WellFormed(g, t) && !IsLeaf(t[0]) && Live(g, t) == {}
  {
    var t := Fresh(g).tree;
    NodeBounds(g, 0, g.levels);
    forall i: nat | i < |t| ensures NodeOk(g, t, i) {}
  }

  lemma StepSafe(g: Geometry, r: Run, c: Call)
    requires WellFormed(g, r.tree) && !IsLeaf(r.tree[0]) && Live(g, r.tree) == r.ledger && Bounded(g, c)
    ensures var r' := Step(g, r, c); WellFormed(g, r'.tree) && !IsLeaf(r'.tree[0]) && Live(g, r'.tree) == r'.ledger
  {
    match c
    case MallocCall(size) => MallocExact(g, r.tree, size);
    case FreeCall(ptr) =>
      FreeExact(g, r.tree, ptr);
      if b :| b in r.ledger && b.addr == ptr {
        LiveAddressUnique(g, r.tree, b);
      }
  }

  lemma LiveAddressUnique(g: Geometry, t: Tree, b: Block)
    requires WellFormed(g, t) && b in Live(g, t)
    ensures forall c :: c in Live(g, t) && c.addr == b.addr ==> c == b
  {
    LiveBlocksSafe(g, t);
    forall c | c in Live(g, t) && c.addr == b.addr ensures c == b {
      LiveSizesPositive(g, t, b);
      LiveSizesPositive(g, t, c);
    }
  }

  // ---------------------------------------------------------------- requests for the whole heap

  /** The call returns a block that overlaps no live block, or NULL. */
  ghost predicate GrantsSafely(g: Geometry, t: Tree, size: nat)
    requires g.Valid() && |t| == g.NodeCount()
  {
    var r := Malloc(g, t, size);
    r.ret == NULL || forall b :: b in Live(g, t) ==> !Overlaps(b, r.ret, g.Size(Level(g, size)))
  }

  /** malloc grants safely iff the root is not allocated and the request is not for the whole heap
      while the heap is in use and a child of the root is free. */
  lemma GrantsSafelyIff(g: Geometry, t: Tree, size: nat)
    requires WellFormed(g, t) && size <= g.HeapSize()
    ensures |t| >= 3
    ensures GrantsSafely(g, t, size) <==>
              !IsLeaf(t[0]) && (2 * size <= g.HeapSize() || t[0] == NULL || (t[1] != NULL && t[2] != NULL))
  {
    WellFormedShape(g, t);
    HeapFits(g);
    RoundedIsLevel(g, size);
    SizeHalves(g, g.levels);
    var k, r := Level(g, size), Malloc(g, t, size);
    if IsLeaf(t[0]) {
      WholeHeapTaken(g, t, size);
    } else if 2 * size <= g.HeapSize() {
      MallocExact(g, t, size);
    } else {
      WholeHeapLevel(g, size);
      if t[0] == NULL {
        NoUseNoLive(g, t);
      } else {
        var b := SomeLive(g, t, 0);
        LiveBlocksSafe(g, t);
        LiveSizesPositive(g, t, b);
        assert r.ret != NULL ==> Overlaps(b, r.ret, g.HeapSize());
      }
    }
  }

  lemma WholeHeapLevel(g: Geometry, size: nat)
    requires g.Valid() && g.HeapSize() < 2 * size <= 2 * g.HeapSize()
    ensures Level(g, size) == g.levels
  {
    HeapFits(g);
    RoundedIsLevel(g, size);
    SizeHalves(g, g.levels);
    if Level(g, size) < g.levels {
      Pow2Monotone(g.minLen + Level(g, size), g.minLen + g.levels - 1);
    }
  }

  lemma NoUseNoLive(g: Geometry, t: Tree)
    requires WellFormed(g, t) && t[0] == NULL
    ensures Live(g, t) == {}
  {
    forall i: nat | i < |t| ensures !IsLeaf(t[i]) {
      RootAnc(i);
      if t[i] != NULL && i > 0 { UsedPath(g, t, 0, i); }
    }
  }

  /** Once the root is allocated, every request that fits is granted again, over the live block. */
  lemma WholeHeapTaken(g: Geometry, t: Tree, size: nat)
    requires WellFormed(g, t) && IsLeaf(t[0]) && size <= g.HeapSize()
    ensures !GrantsSafely(g, t, size)
  {
    hide Pow2, WellFormed, Find, Live;
    WellFormedShape(g, t);
    var k, r := Level(g, size), Malloc(g, t, size);
    HeapFits(g);
    RoundedIsLevel(g, size);
    var b := Block(t[0], g.HeapSize());
    RootIsLive(g, t);
    AllNullBelowLeaf(g, t);
    SizePositive(g, k);
    if k < g.levels {
      FoundUnderRoot(g, t, k);
      LoBounds(g, Find(g, Unrooted(t), 0, g.levels, k).value, k);
    }
    assert Overlaps(b, r.ret, g.Size(k));
  }

  lemma SizePositive(g: Geometry, k: nat)
    ensures g.Size(k) > 0
  {
  }

  /** An allocated root is one live block over the whole heap. */
  lemma RootIsLive(g: Geometry, t: Tree)
    requires WellFormed(g, t) && IsLeaf(t[0])
    ensures t[0] == g.base && Block(g.base, g.HeapSize()) in Live(g, t)
  {
    assert NodeOk(g, t, 0);
    LoBounds(g, 0, g.levels);
  }

  /** Below an allocated root everything looks free. */
  lemma FoundUnderRoot(g: Geometry, t: Tree, k: nat)
    requires WellFormed(g, t) && IsLeaf(t[0]) && k <= g.levels
    ensures var f := Find(g, Unrooted(t), 0, g.levels, k); f.Some? && Node(g, f.value, k)
  {
    hide Pow2;
    var t0 := Unrooted(t);
    FindExact(g, t0, 0, g.levels, k);
    AllNullBelowLeaf(g, t);
    var n := HeightExists(g, k);
    NodeBounds(g, n, k);
    RootAnc(n);
    NullReach(t0, n);
    assert Candidate(g, t0, 0, k, n);
  }

  lemma AllNullBelowLeaf(g: Geometry, t: Tree)
    requires WellFormed(g, t) && IsLeaf(t[0])
    ensures forall i :: 0 < i < |t| ==> t[i] == NULL
  {
    forall i | 0 < i < |t| ensures t[i] == NULL {
      RootAnc(i);
      if t[i] != NULL { UsedPath(g, t, 0, i); }
    }
  }

  lemma HeightExists(g: Geometry, k: nat) returns (n: nat)
    requires k <= g.levels
    ensures Node(g, n, k)
    decreases g.levels - k
  {
    n := 0;
    if k < g.levels {
      var p := HeightExists(g, k + 1);
      Children(p);
      n := Left(p);
    }
  }

  lemma {:induction false} NullReach(t: Tree, n: nat)
    requires n < |t| && forall i :: 0 <= i < |t| ==> t[i] == NULL
    ensures ReachFree(t, n)
  {
    if n > 0 { NullReach(t, Parent(n)); }
  }

  /** Two calls on a fresh heap are enough: half the heap and then the whole heap both start at the
      heap's first address. */
  lemma WholeHeapOverlaps(g: Geometry, half: nat)
    requires g.Valid() && 2 * half == g.HeapSize()
    ensures var a := Malloc(g, Fresh(g).tree, half);
            var b := Malloc(g, a.tree, g.HeapSize());
            a.ret == b.ret == g.base && !GrantsSafely(g, a.tree, g.HeapSize())
  {
    var t := Fresh(g).tree;
    FreshSafe(g);
    MallocExact(g, t, half);
    var a := Malloc(g, t, half);
    HalfLevel(g, half);
    NodeBounds(g, 0, g.levels);
    Children(0);
    assert Find(g, t, 0, g.levels, g.levels - 1) == Some(1);
    assert Lo(g, 1, g.levels - 1) == g.base by { ChildLo(g, 0, g.levels); }
    var u: Tree := t[0 := BRANCH_NODE];
    assert a == Chosen(g, t, g.levels - 1);
    assert Parent(1) == 0 && MarkAbove(t, 0) == t && MarkAbove(t, 1) == u;
    assert a.tree == u[1 := g.base];
    WholeHeapLevel(g, g.HeapSize());
    GrantsSafelyIff(g, a.tree, g.HeapSize());
  }

  lemma HalfLevel(g: Geometry, half: nat)
    requires g.Valid() && 2 * half == g.HeapSize()
    ensures Level(g, half) == g.levels - 1
  {
    HeapFits(g);
    RoundedIsLevel(g, half);
    SizeHalves(g, g.levels);
    if Level(g, half) < g.levels - 1 {
      Pow2Monotone(g.minLen + Level(g, half), g.minLen + g.levels - 1);
    }
  }

  /** A block for the whole heap can never be freed: index 0 reads as "not found". */
  lemma WholeHeapStuck(g: Geometry, t: Tree, ptr: nat)
    requires WellFormed(g, t) && IsLeaf(t[0])
    ensures Free(g, t, ptr) == Outcome(t, 1)
  {
    AllNullBelowLeaf(g, t);
    FindPtrExact(g, t, ptr);
  }

  /** A request for more than half the heap: an unused heap is handed out whole. One in use gives the first free
      child of the root the heap's first address, and refuses iff neither half is free. */
  lemma WholeHeapExact(g: Geometry, t: Tree, size: nat)
    requires WellFormed(g, t) && !IsLeaf(t[0]) && g.HeapSize() < 2 * size <= 2 * g.HeapSize()
    ensures var r := Malloc(g, t, size);
            && |t| >= 3
            && (t[0] == NULL ==> r.ret == g.base && WellFormed(g, r.tree) && Live(g, r.tree) == {Block(g.base, g.HeapSize())})
            && (t[0] != NULL && t[1] != NULL && t[2] != NULL ==> r == Outcome(t, NULL))
            && (t[0] != NULL && t[1] == NULL ==> r == Outcome(t[1 := g.base], g.base))
            && (t[0] != NULL && t[1] != NULL && t[2] == NULL ==> r == Outcome(t[2 := g.base], g.base))
  {
    WellFormedShape(g, t);
    WholeHeapLevel(g, size);
    if t[0] == NULL {
      HeightOfRoot(g);
      RootAnc(0);
      EmptyWhenUnused(g, t);
      NullReach(t, 0);
      AllocateKeeps(g, t, 0, g.levels);
      LiveAfterAllocate(g, t, 0, g.levels);
      NoUseNoLive(g, t);
      LoBounds(g, 0, g.levels);
      assert Lo(g, 0, g.levels) == g.base;
      assert Allocate(t, 0, g.base) == t[0 := g.base];
    } else {
      assert t[0] == BRANCH_NODE && t[0 := BRANCH_NODE] == t;
    }
  }

  lemma HeightOfRoot(g: Geometry)
    requires g.Valid()
    ensures Node(g, 0, g.levels)
  {
  }

  lemma EmptyWhenUnused(g: Geometry, t: Tree)
    requires WellFormed(g, t) && t[0] == NULL
    ensures forall i :: 0 <= i < |t| ==> t[i] == NULL
  {
    NoUseNoLive(g, t);
    EmptyTree(g, t);
  }

  /** In an unused heap every request up to half of it gets the first address, and is the only live block. */
  lemma FirstGrant(g: Geometry, size: nat)
    requires g.Valid() && 2 * size <= g.HeapSize()
    ensures var r := Malloc(g, Fresh(g).tree, size);
            r.ret == g.base && WellFormed(g, r.tree) && Live(g, r.tree) == {Block(g.base, g.Size(Level(g, size)))}
  {
    var k, u := Level(g, size), Fresh(g).tree;
    FreshSafe(g);
    MallocExact(g, u, size);
    hide Malloc, WellFormed, Live, Fresh, Pow2, Used;
    NothingTouched(g, u, k, 0);
  }

  lemma NothingTouched(g: Geometry, t: Tree, k: nat, q: nat)
    requires |t| == g.NodeCount() && Live(g, t) == {}
    ensures !Touched(g, t, k, q)
  {
  }

  /** Once the root is allocated, malloc forgets its block: a smaller request is treated as in an unused heap. */
  lemma WholeHeapForgotten(g: Geometry, t: Tree, size: nat)
    requires WellFormed(g, t) && IsLeaf(t[0]) && 2 * size <= g.HeapSize()
    ensures var r := Malloc(g, t, size);
            && r == Malloc(g, Fresh(g).tree, size)
            && r.ret == g.base && WellFormed(g, r.tree) && Live(g, r.tree) == {Block(g.base, g.Size(Level(g, size)))}
  {
    FirstGrant(g, size);
    HalfIsLower(g, size);
    AllNullBelowLeaf(g, t);
    hide WellFormed, Live, Chosen, Level, Pow2;
    assert Unrooted(t) == Fresh(g).tree == Unrooted(Fresh(g).tree);
  }

  lemma HalfIsLower(g: Geometry, size: nat)
    requires g.Valid() && 2 * size <= g.HeapSize()
    ensures Level(g, size) < g.levels && size <= g.HeapSize()
  {
    FreshSafe(g);
    MallocExact(g, Fresh(g).tree, size);
  }

  /** And one for more than half gets it too, at the root's first child. */
  lemma WholeHeapTwice(g: Geometry, t: Tree, size: nat)
    requires WellFormed(g, t) && IsLeaf(t[0]) && g.HeapSize() < 2 * size <= 2 * g.HeapSize()
    ensures |t| >= 3 && Malloc(g, t, size) == Outcome(t[0 := BRANCH_NODE][1 := g.base], g.base)
  {
    WellFormedShape(g, t);
    WholeHeapLevel(g, size);
    AllNullBelowLeaf(g, t);
  }
}
