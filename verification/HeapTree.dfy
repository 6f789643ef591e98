/** The buddy tree of os/heap.c as a value: node geometry, the tree invariant and its live blocks.
    Node 0 is the root, node i has children 2i+1 and 2i+2, and a node of height h stands for a
    block of 2^(minLen + h) bytes. */
module HeapTree {
  import opened Bits
  import opened Options

  /** A slot holds NULL, BRANCH_NODE or the address of an allocated block. */
  const NULL: nat := 0
  const BRANCH_NODE: nat := 0xFFFF_FFFF

  predicate IsLeaf(slot: nat) { slot != NULL && slot != BRANCH_NODE }

  /** Where the heap starts, log2 of the smallest block, and how many levels lie below the root
      (HEAP_ADDR_MIN_LEN = 7 and HEAP_TREE_LEVEL_CNT = 10 in os/heap.h). */
  datatype Geometry = Geometry(base: nat, minLen: nat, levels: nat) {
    function Size(h: nat): nat { Pow2(minLen + h) }

    function HeapSize(): nat { Size(levels) }

    function NodeCount(): nat { 2 * Pow2(levels) - 1 }

    /** Blocks lie below BRANCH_NODE, a doubled heap size fits 32 bits and node indices fit int16_t. */
    predicate Valid() {
      && 0 < base && base + HeapSize() <= BRANCH_NODE
      && 1 <= levels <= 13 && minLen + levels <= 30
    }
  }

  type Tree = seq<nat>

  function Left(i: nat): nat { 2 * i + 1 }

  function Right(i: nat): nat { 2 * i + 2 }

  /** (i - 1) / 2 with C's division, which truncates -1 / 2 to 0 at the root. */
  function Parent(i: nat): (p: nat)
    ensures i > 0 ==> p < i && (i == Left(p) || i == Right(p))
  {
    if i == 0 then 0 else (i - 1) / 2
  }

  function Depth(i: nat): nat { if i == 0 then 0 else 1 + Depth(Parent(i)) }

  /** i is a node whose block has size g.Size(h). */
  predicate Node(g: Geometry, i: nat, h: nat) { Depth(i) + h == g.levels }

  /** i is m or lies on the path from m up to the root. */
  predicate Anc(i: nat, m: nat) { i == m || (m > 0 && Anc(i, Parent(m))) }

  // ---------------------------------------------------------------- geometry

  lemma {:induction false} DepthBounds(i: nat)
    ensures Pow2(Depth(i)) <= i + 1 < 2 * Pow2(Depth(i))
  {
    if i > 0 {
      DepthBounds(Parent(i));
    }
  }

  lemma Children(i: nat)
    ensures Parent(Left(i)) == i && Parent(Right(i)) == i
    ensures Depth(Left(i)) == Depth(i) + 1 && Depth(Right(i)) == Depth(i) + 1
  {
  }

  /** Every node index is in bounds, and so are the children of a node above the bottom level. */
  lemma NodeBounds(g: Geometry, i: nat, h: nat)
    requires Node(g, i, h)
    ensures i < g.NodeCount()
    ensures h > 0 ==> Right(i) < g.NodeCount() && Node(g, Left(i), h - 1) && Node(g, Right(i), h - 1)
    ensures h == 0 ==> Left(i) >= g.NodeCount()
  {
    DepthBounds(i);
    Children(i);
    Pow2Monotone(Depth(i), g.levels);
  }

  /** An index inside the array is a node. */
  lemma IndexIsNode(g: Geometry, i: nat)
    requires i < g.NodeCount()
    ensures Depth(i) <= g.levels
  {
    DepthBounds(i);
    if Depth(i) > g.levels {
      Pow2Monotone(g.levels, Depth(i));
    }
  }

  function Height(g: Geometry, i: nat): nat
    requires i < g.NodeCount()
  {
    IndexIsNode(g, i);
    g.levels - Depth(i)
  }

  /** The address malloc computes for a node, with the mask by HEAP_ADDR_MAX as a remainder
      (the heap size is a power of two). */
  function CodeAddr(g: Geometry, i: nat, blockSize: nat): nat
  {
    g.base + ((i + 1) * blockSize) % g.HeapSize()
  }

  /** The first address of a node of height h: its parent's, or half a parent block further. */
  function Lo(g: Geometry, i: nat, h: nat): nat
    decreases i
  {
    if i == 0 then g.base
    else if i == Left(Parent(i)) then Lo(g, Parent(i), h + 1)
    else Lo(g, Parent(i), h + 1) + g.Size(h)
  }

  lemma SizeDoubles(g: Geometry, h: nat)
    ensures g.Size(h + 1) == 2 * g.Size(h) && g.Size(h) > 0
  {
  }

  lemma SizeHalves(g: Geometry, h: nat)
    requires h > 0
    ensures g.Size(h) == 2 * g.Size(h - 1) && g.Size(h - 1) > 0
  {
  }

  lemma ChildLo(g: Geometry, i: nat, h: nat)
    requires h > 0
    ensures g.Size(h) == 2 * g.Size(h - 1)
    ensures Lo(g, Left(i), h - 1) == Lo(g, i, h)
    ensures Lo(g, Right(i), h - 1) == Lo(g, i, h) + g.Size(h - 1)
  {
    Children(i);
  }

  lemma {:induction false} LoBounds(g: Geometry, i: nat, h: nat)
    requires Node(g, i, h)
    ensures g.base <= Lo(g, i, h) && Lo(g, i, h) + g.Size(h) <= g.base + g.HeapSize()
  {
    if i > 0 {
      LoBounds(g, Parent(i), h + 1);
      ChildLo(g, Parent(i), h + 1);
    }
  }

  lemma {:induction false} LoClosed(g: Geometry, i: nat, h: nat, s: nat)
    requires Node(g, i, h) && s == g.Size(h)
    ensures (i + 1) * s == Lo(g, i, h) - g.base + g.HeapSize()
  {
    if i > 0 {
      LoClosed(g, Parent(i), h + 1, 2 * s);
      ChildLo(g, Parent(i), h + 1);
      HalfBlocks(Parent(i), i, s);
    }
  }

  lemma HalfBlocks(p: nat, i: nat, s: nat)
    requires i == Left(p) || i == Right(p)
    ensures (i + 1) * s == (p + 1) * (2 * s) + (if i == Left(p) then 0 else s)
  {
  }

  lemma RemainderOnce(x: nat, m: nat)
    requires x < m
    ensures (x + m) % m == x
  {
  }

  /** The masked product malloc computes is the first address of the node's block. */
  lemma CodeAddrIsLo(g: Geometry, i: nat, h: nat)
    requires Node(g, i, h)
    ensures CodeAddr(g, i, g.Size(h)) == Lo(g, i, h)
  {
    LoBounds(g, i, h);
    LoClosed(g, i, h, g.Size(h));
    var x := Lo(g, i, h) - g.base;
    assert x < g.HeapSize();
    RemainderOnce(x, g.HeapSize());
  }

  /** A block starts at its position in its level times its size. */
  lemma LoAligned(g: Geometry, i: nat, h: nat)
    requires Node(g, i, h)
    ensures Pow2(Depth(i)) <= i + 1
    ensures Lo(g, i, h) - g.base == (i + 1 - Pow2(Depth(i))) * g.Size(h)
  {
    DepthBounds(i);
    LoClosed(g, i, h, g.Size(h));
    Pow2Add(Depth(i), g.minLen + h);
    assert g.minLen + g.levels == Depth(i) + (g.minLen + h);
    Distribute(i + 1, Pow2(Depth(i)), g.Size(h));
  }

  lemma Distribute(n: int, d: int, s: int)
    ensures (n - d) * s == n * s - d * s
  {
  }

  // ---------------------------------------------------------------- ancestors

  lemma {:induction false} AncBelow(i: nat, m: nat)
    requires Anc(i, m)
    ensures i <= m && Depth(i) <= Depth(m) && (i != m ==> Depth(i) < Depth(m))
  {
    if i != m {
      AncBelow(i, Parent(m));
    }
  }

  lemma {:induction false} AncTransitive(i: nat, m: nat, n: nat)
    requires Anc(i, m) && Anc(m, n)
    ensures Anc(i, n)
  {
    if m != n {
      AncTransitive(i, m, Parent(n));
    }
  }

  lemma {:induction false} RootAnc(m: nat)
    ensures Anc(0, m)
  {
    if m > 0 {
      RootAnc(Parent(m));
    }
  }

  /** A proper descendant lies below exactly one child. */
  lemma {:induction false} AncSplit(i: nat, m: nat)
    ensures Anc(i, m) <==> i == m || Anc(Left(i), m) || Anc(Right(i), m)
    ensures !(Anc(Left(i), m) && Anc(Right(i), m))
    ensures Anc(Left(i), m) || Anc(Right(i), m) ==> i != m
  {
    Children(i);
    if Anc(Left(i), m) { AncBelow(Left(i), m); }
    if Anc(Right(i), m) { AncBelow(Right(i), m); }
    if m > 0 {
      AncSplit(i, Parent(m));
    }
  }

  /** On one level, everything below the left child comes before everything below the right. */
  lemma {:induction false} AncOrder(a: nat, b: nat, m: nat, n: nat)
    requires a < b && Depth(a) == Depth(b) && Anc(a, m) && Anc(b, n) && Depth(m) == Depth(n)
    ensures m < n
  {
    AncBelow(a, m);
    AncBelow(b, n);
    if a != m {
      AncOrder(a, b, Parent(m), Parent(n));
    }
  }

  /** The block of a descendant lies inside the block of its ancestor. */
  lemma {:induction false} AncInside(g: Geometry, i: nat, hi: nat, m: nat, hm: nat)
    requires Node(g, i, hi) && Node(g, m, hm) && Anc(i, m)
    ensures hm <= hi
    ensures Lo(g, i, hi) <= Lo(g, m, hm) && Lo(g, m, hm) + g.Size(hm) <= Lo(g, i, hi) + g.Size(hi)
  {
    hide Pow2;
    if i != m {
      AncBelow(i, m);
      AncInside(g, i, hi, Parent(m), hm + 1);
      ChildLo(g, Parent(m), hm + 1);
    }
  }

  predicate Apart(a: int, sa: int, b: int, sb: int) { a + sa <= b || b + sb <= a }

  /** Blocks of nodes on different paths do not overlap. */
  lemma {:induction false} NodesApart(g: Geometry, i: nat, hi: nat, m: nat, hm: nat)
    requires Node(g, i, hi) && Node(g, m, hm) && !Anc(i, m) && !Anc(m, i)
    ensures Apart(Lo(g, i, hi), g.Size(hi), Lo(g, m, hm), g.Size(hm))
    decreases i + m, if hi <= hm then 0 else 1
  {
    RootAnc(m);
    if hi <= hm {
      ChildLo(g, Parent(i), hi + 1);
      if Anc(Parent(i), m) {
        AncBelow(Parent(i), m);
        AncBelow(Parent(i), Parent(m));
      } else {
        NodesApart(g, Parent(i), hi + 1, m, hm);
      }
    } else {
      NodesApart(g, m, hm, i, hi);
    }
  }

  // ---------------------------------------------------------------- the tree invariant

  /** What slot i promises: a used node hangs below a branch, a branch leads to a used node, and an
      allocated slot holds the address of its own block. */
  ghost predicate NodeOk(g: Geometry, t: Tree, i: nat)
    requires |t| == g.NodeCount() && i < |t|
  {
    && (i > 0 && t[i] != NULL ==> t[Parent(i)] == BRANCH_NODE)
    && (t[i] == BRANCH_NODE ==> Right(i) < |t| && (t[Left(i)] != NULL || t[Right(i)] != NULL))
    && (IsLeaf(t[i]) ==> t[i] == Lo(g, i, Height(g, i)))
  }

  ghost predicate WellFormed(g: Geometry, t: Tree)
  {
    && g.Valid()
    && |t| == g.NodeCount()
    && forall i: nat :: i < |t| ==> NodeOk(g, t, i)
  }

  lemma WellFormedShape(g: Geometry, t: Tree)
    requires WellFormed(g, t)
    ensures g.Valid() && |t| == g.NodeCount() && |t| >= 3 && |t| % 2 == 1
  {
    NodeBounds(g, 0, g.levels);
  }

  datatype Block = Block(addr: nat, size: nat)

  /** The blocks malloc has handed out and free has not taken back. */
  ghost function Live(g: Geometry, t: Tree): set<Block>
    requires |t| == g.NodeCount()
  {
    set i: nat | i < |t| && IsLeaf(t[i]) :: Block(t[i], g.Size(Height(g, i)))
  }

  ghost function Leaves(t: Tree): set<nat>
  {
    set i: nat | i < |t| && IsLeaf(t[i])
  }

  ghost predicate Overlaps(b: Block, addr: int, size: int)
  {
    !Apart(b.addr, b.size, addr, size)
  }

  /** b is the q-th block of its size in the heap. */
  predicate IsUnit(g: Geometry, b: Block, h: nat, q: nat)
  {
    h <= g.levels && b.size == g.Size(h) && b.addr == g.base + q * b.size
  }

  /** Every strict ancestor of a used node is a branch. */
  lemma {:induction false} UsedPath(g: Geometry, t: Tree, i: nat, m: nat)
    requires WellFormed(g, t) && m < |t| && Anc(i, m) && i != m && t[m] != NULL
    ensures i < |t| && t[i] == BRANCH_NODE
  {
    assert NodeOk(g, t, m);
    AncBelow(i, Parent(m));
    if i != Parent(m) {
      UsedPath(g, t, i, Parent(m));
    }
  }

  /** Two allocated nodes stand for blocks that do not overlap. */
  lemma LeavesApart(g: Geometry, t: Tree, i: nat, m: nat)
    requires WellFormed(g, t) && i < |t| && m < |t| && i != m && IsLeaf(t[i]) && IsLeaf(t[m])
    ensures Apart(t[i], g.Size(Height(g, i)), t[m], g.Size(Height(g, m)))
  {
    assert NodeOk(g, t, i) && NodeOk(g, t, m);
    if Anc(i, m) { UsedPath(g, t, i, m); }
    if Anc(m, i) { UsedPath(g, t, m, i); }
    NodesApart(g, i, Height(g, i), m, Height(g, m));
  }

  /** Live blocks are pairwise disjoint, inside the heap and aligned to their own size, which is a
      power of two no smaller than the least block. */
  lemma LiveBlocksSafe(g: Geometry, t: Tree)
    requires WellFormed(g, t)
    ensures forall b, c :: b in Live(g, t) && c in Live(g, t) && b != c ==> Apart(b.addr, b.size, c.addr, c.size)
    ensures forall b :: b in Live(g, t) ==> g.base <= b.addr && b.addr + b.size <= g.base + g.HeapSize()
    ensures forall b :: b in Live(g, t) ==>
              exists h: nat, q: nat :: IsUnit(g, b, h, q)
  {
    forall b, c | b in Live(g, t) && c in Live(g, t) && b != c
      ensures Apart(b.addr, b.size, c.addr, c.size)
    {
      var i: nat :| i < |t| && IsLeaf(t[i]) && b == Block(t[i], g.Size(Height(g, i)));
      var m: nat :| m < |t| && IsLeaf(t[m]) && c == Block(t[m], g.Size(Height(g, m)));
      LeavesApart(g, t, i, m);
    }
    forall b | b in Live(g, t)
      ensures g.base <= b.addr && b.addr + b.size <= g.base + g.HeapSize()
      ensures exists h: nat, q: nat :: IsUnit(g, b, h, q)
    {
      var i: nat :| i < |t| && IsLeaf(t[i]) && b == Block(t[i], g.Size(Height(g, i)));
      var h := Height(g, i);
      assert NodeOk(g, t, i);
      LoBounds(g, i, h);
      LoAligned(g, i, h);
      var q: nat := i + 1 - Pow2(Depth(i));
      assert IsUnit(g, b, h, q);
    }
  }

  /** Below every branch there is an allocated node. */
  lemma {:induction false} LeafBelow(g: Geometry, t: Tree, i: nat, h: nat) returns (m: nat)
    requires WellFormed(g, t) && Node(g, i, h) && i < |t| && t[i] != NULL
    ensures m < |t| && Anc(i, m) && IsLeaf(t[m])
    decreases h
  {
    assert NodeOk(g, t, i);
    m := i;
    if t[i] == BRANCH_NODE {
      NodeBounds(g, i, h);
      assert Anc(i, Left(i)) && Anc(i, Right(i)) by { Children(i); }
      var c := if t[Left(i)] != NULL then Left(i) else Right(i);
      m := LeafBelow(g, t, c, h - 1);
      AncTransitive(i, c, m);
    }
  }

  /** The tree is a function of its allocated nodes: a node is used iff one lies at or below it. */
  lemma Canonical(g: Geometry, t: Tree, u: Tree)
    requires WellFormed(g, t) && WellFormed(g, u) && Leaves(t) == Leaves(u)
    ensures t == u
  {
    forall i: nat | i < |t| ensures t[i] == u[i] {
      if t[i] != NULL { SameUse(g, t, u, i); }
      if u[i] != NULL { SameUse(g, u, t, i); }
      assert i in Leaves(t) <==> i in Leaves(u);
      assert NodeOk(g, t, i) && NodeOk(g, u, i);
    }
  }

  lemma SameUse(g: Geometry, t: Tree, u: Tree, i: nat)
    requires WellFormed(g, t) && WellFormed(g, u) && Leaves(t) <= Leaves(u) && i < |t| && t[i] != NULL
    ensures u[i] != NULL
  {
    var m := LeafBelow(g, t, i, Height(g, i));
    assert m in Leaves(t) && m in Leaves(u);
    if i != m { UsedPath(g, u, i, m); }
  }

  /** The tree is a function of the live blocks alone. */
  lemma LiveDeterminesTree(g: Geometry, t: Tree, u: Tree)
    requires WellFormed(g, t) && WellFormed(g, u) && Live(g, t) == Live(g, u)
    ensures t == u
  {
    LiveDeterminesLeaves(g, t, u);
    LiveDeterminesLeaves(g, u, t);
    Canonical(g, t, u);
  }

  lemma LiveDeterminesLeaves(g: Geometry, t: Tree, u: Tree)
    requires WellFormed(g, t) && WellFormed(g, u) && Live(g, t) <= Live(g, u)
    ensures Leaves(t) <= Leaves(u)
  {
    forall i | i in Leaves(t) ensures i in Leaves(u) {
      var b := Block(t[i], g.Size(Height(g, i)));
      assert b in Live(g, t) && b in Live(g, u);
      var m: nat :| m < |u| && IsLeaf(u[m]) && b == Block(u[m], g.Size(Height(g, m)));
      assert NodeOk(g, t, i) && NodeOk(g, u, m);
      SameBlockSameNode(g, i, Height(g, i), m, Height(g, m));
    }
  }

  lemma SameBlockSameNode(g: Geometry, i: nat, hi: nat, m: nat, hm: nat)
    requires Node(g, i, hi) && Node(g, m, hm)
    requires Lo(g, i, hi) == Lo(g, m, hm) && g.Size(hi) == g.Size(hm)
    ensures i == m
  {
    if hi < hm { Pow2Monotone(g.minLen + hi, g.minLen + hm); }
    if hm < hi { Pow2Monotone(g.minLen + hm, g.minLen + hi); }
    if i != m {
      if Anc(i, m) { AncBelow(i, m); }
      if Anc(m, i) { AncBelow(m, i); }
      NodesApart(g, i, hi, m, hm);
    }
  }

  // ---------------------------------------------------------------- free nodes

  /** No strict ancestor of n is allocated. */
  ghost predicate NoLeafAbove(t: Tree, n: nat)
  {
    n < |t| && (n > 0 ==> !IsLeaf(t[Parent(n)]) && NoLeafAbove(t, Parent(n)))
  }

  ghost predicate ReachFree(t: Tree, n: nat) { n < |t| && t[n] == NULL && NoLeafAbove(t, n) }

  lemma {:induction false} LeafShadows(t: Tree, i: nat, n: nat)
    requires n < |t| && Anc(i, n) && i != n && i < |t| && IsLeaf(t[i])
    ensures !NoLeafAbove(t, n)
  {
    if i != Parent(n) { LeafShadows(t, i, Parent(n)); }
  }

  lemma {:induction false} ShadowingLeaf(t: Tree, n: nat) returns (i: nat)
    requires n < |t| && !NoLeafAbove(t, n)
    ensures Anc(i, n) && i != n && i < |t| && IsLeaf(t[i])
  {
    if IsLeaf(t[Parent(n)]) {
      i := Parent(n);
    } else {
      i := ShadowingLeaf(t, Parent(n));
      AncBelow(i, Parent(n));
    }
  }

  /** A node is NULL with no allocated ancestor iff its block overlaps no live block. */
  lemma FreeIffUntouched(g: Geometry, t: Tree, n: nat, h: nat)
    requires WellFormed(g, t) && Node(g, n, h)
    ensures ReachFree(t, n) <==> forall b :: b in Live(g, t) ==> !Overlaps(b, Lo(g, n, h), g.Size(h))
  {
    NodeBounds(g, n, h);
    if ReachFree(t, n) {
      forall b | b in Live(g, t) ensures !Overlaps(b, Lo(g, n, h), g.Size(h)) {
        var i: nat :| i < |t| && IsLeaf(t[i]) && b == Block(t[i], g.Size(Height(g, i)));
        assert NodeOk(g, t, i);
        if Anc(i, n) { LeafShadows(t, i, n); }
        if Anc(n, i) { UsedPath(g, t, n, i); }
        NodesApart(g, i, Height(g, i), n, h);
      }
    } else {
      var i: nat;
      if t[n] != NULL {
        i := LeafBelow(g, t, n, h);
        AncInside(g, n, h, i, Height(g, i));
      } else {
        i := ShadowingLeaf(t, n);
        AncInside(g, i, Height(g, i), n, h);
      }
      assert NodeOk(g, t, i);
      var b := Block(t[i], g.Size(Height(g, i)));
      assert b in Live(g, t);
      assert Overlaps(b, Lo(g, n, h), g.Size(h));
    }
  }

  // ---------------------------------------------------------------- what the malloc walk finds

  /** The first free node of height k that a left-to-right descent from i meets. */
  function Find(g: Geometry, t: Tree, i: nat, h: nat, k: nat): (f: Option<nat>)
    requires |t| == g.NodeCount() && Node(g, i, h) && k <= h
    ensures f.Some? ==> f.value < |t| && Node(g, f.value, k)
    decreases h
  {
    NodeBounds(g, i, h);
    if h == k then (if t[i] == NULL then Some(i) else None)
    else if IsLeaf(t[i]) then None
    else
      var l := Find(g, t, Left(i), h - 1, k);
      if l.Some? then l else Find(g, t, Right(i), h - 1, k)
  }

  /** n is a free node of height k at or below i. */
  ghost predicate Candidate(g: Geometry, t: Tree, i: nat, k: nat, n: nat)
  {
    Node(g, n, k) && Anc(i, n) && ReachFree(t, n)
  }

  /** Find misses no candidate and returns the one with the lowest index. */
  lemma {:induction false} FindExact(g: Geometry, t: Tree, i: nat, h: nat, k: nat)
    requires |t| == g.NodeCount() && Node(g, i, h) && k <= h && NoLeafAbove(t, i)
    ensures var f := Find(g, t, i, h, k);
            && (f.None? ==> forall n: nat :: !Candidate(g, t, i, k, n))
            && (f.Some? ==> Candidate(g, t, i, k, f.value)
                            && forall n: nat :: Candidate(g, t, i, k, n) ==> f.value <= n)
    decreases h
  {
    hide Pow2, Depth;
    NodeBounds(g, i, h);
    Children(i);
    if h == k {
      forall n: nat | Candidate(g, t, i, k, n) ensures n == i { AncBelow(i, n); }
    } else if IsLeaf(t[i]) {
      forall n: nat | Candidate(g, t, i, k, n) ensures false { LeafShadows(t, i, n); }
    } else {
      FindExact(g, t, Left(i), h - 1, k);
      FindExact(g, t, Right(i), h - 1, k);
      forall n: nat | Candidate(g, t, i, k, n)
        ensures Candidate(g, t, Left(i), k, n) || Candidate(g, t, Right(i), k, n)
      {
        AncSplit(i, n);
      }
      var l, r := Find(g, t, Left(i), h - 1, k), Find(g, t, Right(i), h - 1, k);
      if l.Some? {
        AncSplit(i, l.value);
        forall n: nat | Candidate(g, t, Right(i), k, n) ensures l.value < n {
          AncOrder(Left(i), Right(i), l.value, n);
        }
      } else if r.Some? {
        AncSplit(i, r.value);
      }
    }
  }

  // ---------------------------------------------------------------- allocating a node

  /** Every strict ancestor of i becomes a branch. */
  function MarkAbove(t: Tree, i: nat): (u: Tree)
    requires i < |t|
    ensures |u| == |t|
  {
    if i == 0 then t else MarkAbove(t, Parent(i))[Parent(i) := BRANCH_NODE]
  }

  lemma {:induction false} MarkAboveAt(t: Tree, i: nat, m: nat)
    requires i < |t| && m < |t|
    ensures MarkAbove(t, i)[m] == if m != i && Anc(m, i) then BRANCH_NODE else t[m]
  {
    if i > 0 {
      MarkAboveAt(t, Parent(i), m);
      if m == i && Anc(i, Parent(i)) { AncBelow(i, Parent(i)); }
    }
  }

  /** Marking above a used node changes nothing. */
  lemma {:induction false} MarkAboveUsed(g: Geometry, t: Tree, i: nat)
    requires WellFormed(g, t) && i < |t| && t[i] != NULL
    ensures MarkAbove(t, i) == t
  {
    if i > 0 {
      assert NodeOk(g, t, i);
      MarkAboveUsed(g, t, Parent(i));
    }
  }

  function Allocate(t: Tree, j: nat, addr: nat): Tree
    requires j < |t|
  {
    MarkAbove(t, j)[j := addr]
  }

  /** What Allocate makes of a slot. */
  ghost predicate Allocated(t: Tree, u: Tree, j: nat, addr: nat)
  {
    |u| == |t| && forall m: nat :: m < |t| ==> u[m] == if m == j then addr else if Anc(m, j) then BRANCH_NODE else t[m]
  }

  lemma AllocateAt(t: Tree, j: nat, addr: nat)
    requires j < |t|
    ensures Allocated(t, Allocate(t, j, addr), j, addr)
  {
    forall m: nat | m < |t|
      ensures Allocate(t, j, addr)[m] == if m == j then addr else if Anc(m, j) then BRANCH_NODE else t[m]
    {
      MarkAboveAt(t, j, m);
    }
  }

  /** The new node: its parent is now a branch. */
  lemma AllocateAtNode(g: Geometry, t: Tree, u: Tree, j: nat, k: nat)
    requires WellFormed(g, t) && Node(g, j, k) && j < |t| && Allocated(t, u, j, Lo(g, j, k))
    ensures NodeOk(g, u, j)
  {
    hide Pow2, WellFormed;
    WellFormedShape(g, t);
    LoBounds(g, j, k);
    if j > 0 { assert Anc(Parent(j), j) by { assert Anc(Parent(j), Parent(j)); } }
  }

  /** A node above it: a branch below a branch, with a used child on the way to the new node. */
  lemma AllocateAbove(g: Geometry, t: Tree, u: Tree, j: nat, k: nat, m: nat)
    requires WellFormed(g, t) && Node(g, j, k) && j < |t| && Allocated(t, u, j, Lo(g, j, k))
    requires m < |t| && m != j && Anc(m, j)
    ensures NodeOk(g, u, m)
  {
    hide Pow2, Anc, WellFormed;
    WellFormedShape(g, t);
    LoBounds(g, j, k);
    AncSplit(m, j);
    AncBelow(m, j);
    NodeBounds(g, m, Height(g, m));
    if m > 0 {
      ParentAnc(m);
      AncTransitive(Parent(m), m, j);
    }
    assert u[Left(m)] != NULL || u[Right(m)] != NULL;
  }

  lemma ParentAnc(m: nat)
    requires m > 0
    ensures Anc(Parent(m), m) && Parent(m) < m
  {
    assert Anc(Parent(m), Parent(m));
  }

  /** Any other node: what it promised still holds. */
  lemma AllocateAside(g: Geometry, t: Tree, u: Tree, j: nat, k: nat, m: nat)
    requires WellFormed(g, t) && Node(g, j, k) && j < |t| && t[j] == NULL && Allocated(t, u, j, Lo(g, j, k))
    requires m < |t| && !Anc(m, j)
    ensures NodeOk(g, u, m)
  {
    hide Pow2, Anc;
    assert NodeOk(g, t, m);
    AncSplit(m, j);
  }

  lemma AllocateKeeps(g: Geometry, t: Tree, j: nat, k: nat)
    requires WellFormed(g, t) && Node(g, j, k) && ReachFree(t, j)
    ensures var u := Allocate(t, j, Lo(g, j, k));
            WellFormed(g, u) && Leaves(u) == Leaves(t) + {j} && j !in Leaves(t)
  {
    hide Pow2, Depth, NodeOk;
    var u := Allocate(t, j, Lo(g, j, k));
    NodeBounds(g, j, k);
    LoBounds(g, j, k);
    AllocateAt(t, j, Lo(g, j, k));
    forall m: nat | m < |u| ensures NodeOk(g, u, m) {
      if m == j { AllocateAtNode(g, t, u, j, k); }
      else if Anc(m, j) { AllocateAbove(g, t, u, j, k, m); }
      else { AllocateAside(g, t, u, j, k, m); }
    }
    forall m: nat | m < |u| ensures IsLeaf(u[m]) <==> IsLeaf(t[m]) || m == j {
      if m != j && Anc(m, j) && IsLeaf(t[m]) { LeafShadows(t, m, j); }
    }
  }

  /** Allocating a node adds exactly its block. */
  lemma LiveAfterAllocate(g: Geometry, t: Tree, j: nat, k: nat)
    requires WellFormed(g, t) && Node(g, j, k) && ReachFree(t, j)
    ensures WellFormed(g, Allocate(t, j, Lo(g, j, k)))
    ensures Live(g, Allocate(t, j, Lo(g, j, k))) == Live(g, t) + {Block(Lo(g, j, k), g.Size(k))}
  {
    hide Pow2, Depth, WellFormed, Live, MarkAbove;
    var addr := Lo(g, j, k);
    var u := Allocate(t, j, addr);
    AllocateKeeps(g, t, j, k);
    LiveByLeaves(g, t, u, j);
    assert u[j] == addr;
  }

  /** If u has one more allocated node than t, it has one more live block. */
  lemma LiveByLeaves(g: Geometry, t: Tree, u: Tree, j: nat)
    requires WellFormed(g, t) && WellFormed(g, u) && Leaves(u) == Leaves(t) + {j} && j < |u| && j !in Leaves(t)
    ensures Live(g, u) == Live(g, t) + {Block(u[j], g.Size(Height(g, j)))}
    ensures Block(u[j], g.Size(Height(g, j))) !in Live(g, t)
  {
    forall i: nat | i < |t| && i in Leaves(t)
      ensures IsLeaf(u[i]) && u[i] == t[i]
      ensures Block(t[i], g.Size(Height(g, i))) != Block(u[j], g.Size(Height(g, j)))
    {
      assert i in Leaves(u) && j in Leaves(u);
      assert NodeOk(g, t, i) && NodeOk(g, u, i);
      LeavesApart(g, u, i, j);
    }
    var b := Block(u[j], g.Size(Height(g, j)));
    assert j in Leaves(u);
    forall c ensures c in Live(g, u) <==> c in Live(g, t) || c == b {
      if c in Live(g, u) {
        var i: nat :| i < |u| && IsLeaf(u[i]) && c == Block(u[i], g.Size(Height(g, i)));
        assert i in Leaves(u);
        assert i == j || i in Leaves(t);
      }
      if c in Live(g, t) {
        var i: nat :| i < |t| && IsLeaf(t[i]) && c == Block(t[i], g.Size(Height(g, i)));
        assert i in Leaves(t);
      }
    }
  }

  // ---------------------------------------------------------------- freeing a node

  /** After i became NULL: clear every branch above it that leads nowhere. */
  function Climb(t: Tree, i: nat): (u: Tree)
    requires i < |t| && |t| % 2 == 1
    ensures |u| == |t|
    decreases i
  {
    if i == 0 then t
    else
      var p := Parent(i);
      if t[Left(p)] != NULL || t[Right(p)] != NULL then t else Climb(t[p := NULL], p)
  }

  lemma ClimbTurn(t: Tree, i: nat)
    requires i < |t| && |t| % 2 == 1
    ensures i == 0 ==> Climb(t, i) == t
    ensures i > 0 ==> var p := Parent(i);
              && p < i && Right(p) < |t|
              && Climb(t, i) == if t[Left(p)] != NULL || t[Right(p)] != NULL then t else Climb(t[p := NULL], p)
  {
  }

  function Release(t: Tree, j: nat): Tree
    requires j < |t| && |t| % 2 == 1
  {
    Climb(t[j := NULL], j)
  }

  /** Like NodeOk, for a branch whose used child may just have gone. */
  ghost predicate LooseOk(g: Geometry, t: Tree, i: nat)
    requires |t| == g.NodeCount() && i < |t|
  {
    && (i > 0 && t[i] != NULL ==> t[Parent(i)] == BRANCH_NODE)
    && (t[i] == BRANCH_NODE ==> Right(i) < |t|)
    && (IsLeaf(t[i]) ==> t[i] == Lo(g, i, Height(g, i)))
  }

  lemma {:induction false} ClimbRestores(g: Geometry, t: Tree, i: nat)
    requires g.Valid() && |t| == g.NodeCount() && i < |t| && t[i] == NULL
    requires i > 0 ==> t[Parent(i)] == BRANCH_NODE
    requires forall m: nat :: m < |t| ==> LooseOk(g, t, m)
    requires forall m: nat :: m < |t| && (i == 0 || m != Parent(i)) ==> NodeOk(g, t, m)
    ensures WellFormed(g, Climb(t, i)) && Leaves(Climb(t, i)) == Leaves(t)
    decreases i
  {
    if i > 0 {
      var p := Parent(i);
      assert LooseOk(g, t, p);
      if t[Left(p)] != NULL || t[Right(p)] != NULL {
        forall m: nat | m < |t| ensures NodeOk(g, t, m) {}
      } else {
        var u := t[p := NULL];
        forall m: nat | m < |u| ensures LooseOk(g, u, m) { assert LooseOk(g, t, m); }
        forall m: nat | m < |u| && (p == 0 || m != Parent(p)) ensures NodeOk(g, u, m) {
          assert LooseOk(g, t, m);
          assert m != p ==> NodeOk(g, t, m);
        }
        ClimbRestores(g, u, p);
        assert Leaves(u) == Leaves(t);
      }
    }
  }

  lemma ReleaseKeeps(g: Geometry, t: Tree, j: nat)
    requires WellFormed(g, t) && j < |t| && IsLeaf(t[j])
    ensures WellFormed(g, Release(t, j)) && Leaves(Release(t, j)) == Leaves(t) - {j}
  {
    assert NodeOk(g, t, j);
    var u := t[j := NULL];
    forall m: nat | m < |u| ensures LooseOk(g, u, m) {
      assert NodeOk(g, t, m);
    }
    forall m: nat | m < |u| && (j == 0 || m != Parent(j)) ensures NodeOk(g, u, m) {
      assert NodeOk(g, t, m);
    }
    ClimbRestores(g, u, j);
  }

  /** Freeing a node takes away exactly its block. */
  lemma LiveAfterRelease(g: Geometry, t: Tree, j: nat)
    requires WellFormed(g, t) && j < |t| && IsLeaf(t[j])
    ensures WellFormed(g, Release(t, j))
    ensures Live(g, Release(t, j)) == Live(g, t) - {Block(t[j], g.Size(Height(g, j)))}
    ensures Block(t[j], g.Size(Height(g, j))) in Live(g, t)
  {
    ReleaseKeeps(g, t, j);
    LiveByLeaves(g, Release(t, j), t, j);
  }

  // ---------------------------------------------------------------- looking a pointer up

  /** Preorder search through the used nodes. */
  function Search(g: Geometry, t: Tree, i: nat, h: nat, ptr: nat): (s: Option<nat>)
    requires |t| == g.NodeCount() && Node(g, i, h)
    ensures s.Some? ==> s.value < |t| && t[s.value] == ptr
    decreases h
  {
    NodeBounds(g, i, h);
    if t[i] == ptr then Some(i)
    else if h == 0 then None
    else
      var l := if t[Left(i)] == NULL then None else Search(g, t, Left(i), h - 1, ptr);
      if l.Some? then l
      else if t[Right(i)] == NULL then None else Search(g, t, Right(i), h - 1, ptr)
  }

  lemma {:induction false} SearchComplete(g: Geometry, t: Tree, i: nat, h: nat, m: nat)
    requires WellFormed(g, t) && Node(g, i, h) && m < |t| && Anc(i, m) && IsLeaf(t[m])
    ensures Search(g, t, i, h, t[m]).Some?
    decreases h
  {
    NodeBounds(g, i, h);
    Children(i);
    if i != m {
      AncBelow(i, m);
      AncSplit(i, m);
      var c := if Anc(Left(i), m) then Left(i) else Right(i);
      if c != m { UsedPath(g, t, c, m); }
      SearchComplete(g, t, c, h - 1, m);
    }
  }

  /** find_ptr's answer: the node that holds ptr, or 0. */
  function FindPtr(g: Geometry, t: Tree, ptr: nat): (i: nat)
    requires |t| == g.NodeCount()
    ensures i < |t|
  {
    var s := Search(g, t, 0, g.levels, ptr);
    if s.Some? then s.value else 0
  }

  /** find_ptr returns the only allocated node below the root that holds ptr, and 0 iff there is
      none -- for every pointer, NULL and BRANCH_NODE included. */
  lemma FindPtrExact(g: Geometry, t: Tree, ptr: nat)
    requires WellFormed(g, t)
    ensures var i := FindPtr(g, t, ptr);
            && (i != 0 ==> i < |t| && IsLeaf(t[i]) && t[i] == ptr)
            && (forall m: nat :: 0 < m < |t| && IsLeaf(t[m]) && t[m] == ptr ==> m == i)
  {
    var i := FindPtr(g, t, ptr);
    if !IsLeaf(ptr) { NoUnusedFound(g, t, ptr); }
    forall m: nat | 0 < m < |t| && IsLeaf(t[m]) && t[m] == ptr ensures m == i {
      RootAnc(m);
      SearchComplete(g, t, 0, g.levels, m);
      UsedPath(g, t, 0, m);
      assert t[i] == ptr;
      if m != i { LeavesApart(g, t, m, i); }
    }
  }

  /** Looking for NULL or BRANCH_NODE never gets below the root. */
  lemma NoUnusedFound(g: Geometry, t: Tree, ptr: nat)
    requires WellFormed(g, t) && !IsLeaf(ptr)
    ensures FindPtr(g, t, ptr) == 0
  {
    NodeBounds(g, 0, g.levels);
    if ptr == NULL {
      if t[0] != NULL { NullNotFound(g, t, 0, g.levels); }
    } else if t[0] != BRANCH_NODE {
      assert NodeOk(g, t, Left(0)) && NodeOk(g, t, Right(0));
    }
  }

  lemma {:induction false} NullNotFound(g: Geometry, t: Tree, i: nat, h: nat)
    requires |t| == g.NodeCount() && Node(g, i, h) && i < |t| && t[i] != NULL
    ensures Search(g, t, i, h, NULL) == None
    decreases h
  {
    hide Pow2, Depth;
    NodeBounds(g, i, h);
    if h > 0 {
      if t[Left(i)] != NULL { NullNotFound(g, t, Left(i), h - 1); }
      if t[Right(i)] != NULL { NullNotFound(g, t, Right(i), h - 1); }
    }
  }

  // ---------------------------------------------------------------- bytes in use

  /** The bytes of the live blocks at or below node i. */
  function Used(g: Geometry, t: Tree, i: nat, h: nat): nat
    requires |t| == g.NodeCount() && Node(g, i, h)
    decreases h
  {
    NodeBounds(g, i, h);
    (if IsLeaf(t[i]) then g.Size(h) else 0)
    + (if h == 0 then 0 else Used(g, t, Left(i), h - 1) + Used(g, t, Right(i), h - 1))
  }

  lemma {:induction false} UsedAfterChange(g: Geometry, t: Tree, u: Tree, i: nat, h: nat, j: nat, k: nat)
    requires |t| == |u| == g.NodeCount() && Node(g, i, h) && Node(g, j, k) && j !in Leaves(t)
    requires Leaves(u) == Leaves(t) + {j}
    ensures Used(g, u, i, h) == Used(g, t, i, h) + if Anc(i, j) then g.Size(k) else 0
    decreases h
  {
    hide Pow2, Depth;
    NodeBounds(g, i, h);
    assert i in Leaves(t) <==> IsLeaf(t[i]);
    assert i in Leaves(u) <==> IsLeaf(u[i]);
    assert i != j ==> IsLeaf(u[i]) == IsLeaf(t[i]);
    AncSplit(i, j);
    if h > 0 {
      UsedAfterChange(g, t, u, Left(i), h - 1, j, k);
      UsedAfterChange(g, t, u, Right(i), h - 1, j, k);
    } else if Anc(i, j) && i != j {
      AncBelow(i, j);
    }
  }

  lemma {:induction false} UnusedIsEmpty(g: Geometry, t: Tree, i: nat, h: nat)
    requires WellFormed(g, t) && Node(g, i, h) && i < |t| && t[i] == NULL
    ensures Used(g, t, i, h) == 0
    decreases h
  {
    NodeBounds(g, i, h);
    if h > 0 {
      Children(i);
      assert NodeOk(g, t, Left(i)) && NodeOk(g, t, Right(i));
      UnusedIsEmpty(g, t, Left(i), h - 1);
      UnusedIsEmpty(g, t, Right(i), h - 1);
    }
  }

  /** An allocated node accounts for exactly its own block. */
  lemma UsedOfLeaf(g: Geometry, t: Tree, i: nat, h: nat)
    requires WellFormed(g, t) && Node(g, i, h) && i < |t| && IsLeaf(t[i])
    ensures Used(g, t, i, h) == g.Size(h)
  {
    NodeBounds(g, i, h);
    if h > 0 {
      Children(i);
      assert NodeOk(g, t, Left(i)) && NodeOk(g, t, Right(i));
      UnusedIsEmpty(g, t, Left(i), h - 1);
      UnusedIsEmpty(g, t, Right(i), h - 1);
    }
  }

  /** Live blocks never add up to more than the node they lie in. */
  lemma {:induction false} UsedFits(g: Geometry, t: Tree, i: nat, h: nat)
    requires WellFormed(g, t) && Node(g, i, h)
    ensures Used(g, t, i, h) <= g.Size(h)
    decreases h
  {
    hide Pow2, Depth, WellFormed;
    WellFormedShape(g, t);
    NodeBounds(g, i, h);
    if IsLeaf(t[i]) {
      UsedOfLeaf(g, t, i, h);
    } else if h == 0 {
    } else {
      SizeHalves(g, h);
      UsedFits(g, t, Left(i), h - 1);
      UsedFits(g, t, Right(i), h - 1);
    }
  }

  ghost function SizeSum(bs: set<Block>): nat
  {
    if bs == {} then 0 else var b :| b in bs; b.size + SizeSum(bs - {b})
  }

  lemma {:induction false} SizeSumWithout(bs: set<Block>, b: Block)
    requires b in bs
    ensures SizeSum(bs) == b.size + SizeSum(bs - {b})
  {
    var c :| c in bs && SizeSum(bs) == c.size + SizeSum(bs - {c});
    if c != b {
      SizeSumWithout(bs - {c}, b);
      SizeSumWithout(bs - {b}, c);
      assert bs - {c} - {b} == bs - {b} - {c};
    }
  }

  /** The bytes counted over the tree are the sizes of the live blocks added up. */
  lemma {:induction false} UsedIsSizeSum(g: Geometry, t: Tree)
    requires WellFormed(g, t)
    ensures Used(g, t, 0, g.levels) == SizeSum(Live(g, t))
    decreases Leaves(t)
  {
    if j: nat :| j < |t| && IsLeaf(t[j]) {
      var u := Release(t, j);
      ReleaseKeeps(g, t, j);
      LiveAfterRelease(g, t, j);
      UsedIsSizeSum(g, u);
      RootAnc(j);
      UsedAfterChange(g, u, t, 0, g.levels, j, Height(g, j));
      SizeSumWithout(Live(g, t), Block(t[j], g.Size(Height(g, j))));
    } else {
      NoLeavesNoBytes(g, t, 0, g.levels);
      assert Live(g, t) == {};
    }
  }

  lemma {:induction false} NoLeavesNoBytes(g: Geometry, t: Tree, i: nat, h: nat)
    requires |t| == g.NodeCount() && Node(g, i, h) && forall j: nat :: j < |t| ==> !IsLeaf(t[j])
    ensures Used(g, t, i, h) == 0
    decreases h
  {
    hide Pow2, Depth;
    NodeBounds(g, i, h);
    if h > 0 {
      NoLeavesNoBytes(g, t, Left(i), h - 1);
      NoLeavesNoBytes(g, t, Right(i), h - 1);
    }
  }
}
