/** What a whole call of malloc or free does to the buddy tree, as functions of the tree. */
module HeapSpec {
  import opened Bits
  import opened HeapTree

  /** The height of the smallest block that holds size bytes. */
  function Level(g: Geometry, size: nat): nat
  {
    if size <= g.Size(0) then 0
    else
      var e := CeilLog2(size);
      if e < g.minLen then 0 else e - g.minLen
  }

  /** Rounding a request: the code's next_pow2 with the lower limit HEAP_SIZE_MIN. */
  function Rounded(g: Geometry, size: nat): nat
    requires size <= 0x8000_0000
  {
    if NextPow2(size) < g.Size(0) then g.Size(0) else NextPow2(size)
  }

  lemma HeapFits(g: Geometry)
    requires g.Valid()
    ensures g.HeapSize() <= 0x4000_0000
  {
    TopBit();
    Pow2Monotone(g.minLen + g.levels, 30);
  }

  /** The rounded size is the smallest block size that holds the request. */
  lemma RoundedIsLevel(g: Geometry, size: nat)
    requires g.Valid() && size <= g.HeapSize() && g.HeapSize() <= 0x4000_0000
    ensures Rounded(g, size) == g.Size(Level(g, size)) && Level(g, size) <= g.levels
    ensures size <= g.Size(Level(g, size))
    ensures Level(g, size) > 0 ==> g.Size(Level(g, size) - 1) < size
  {
    if size >= 1 {
      NextPow2IsLeast(size);
      ExponentInHeap(g, size, CeilLog2(size));
    }
  }

  lemma ExponentInHeap(g: Geometry, size: nat, e: nat)
    requires 1 <= size <= g.HeapSize()
    requires size <= Pow2(e) && (e > 0 ==> Pow2(e - 1) < size)
    ensures e <= g.minLen + g.levels
    ensures size <= g.Size(0) <==> e <= g.minLen
    ensures e <= g.minLen ==> Pow2(e) <= g.Size(0)
    ensures e > g.minLen ==> Pow2(e) > g.Size(0)
  {
    if e > g.minLen + g.levels { Pow2Monotone(g.minLen + g.levels, e - 1); }
    if e <= g.minLen {
      Pow2Monotone(e, g.minLen);
    } else {
      Pow2Monotone(g.minLen, e - 1);
    }
  }

  /** A new tree and what the call returns. */
  datatype Outcome = Outcome(tree: Tree, ret: nat)

  /** The tree as malloc sees it once it has overwritten an allocated root. */
  function Unrooted(t: Tree): Tree
    requires |t| > 0
  {
    if IsLeaf(t[0]) then t[0 := NULL] else t
  }

  /** Allocate the first free node of height k, or nothing. */
  function Chosen(g: Geometry, t: Tree, k: nat): Outcome
    requires |t| == g.NodeCount() && k <= g.levels
  {
    var f := Find(g, t, 0, g.levels, k);
    if f.None? then Outcome(t, NULL)
    else Outcome(Allocate(t, f.value, Lo(g, f.value, k)), Lo(g, f.value, k))
  }

  /** A request for the whole heap: the walk climbs above the root, doubles its block size and takes
      a child of the root for the whole heap. */
  function RootRequest(g: Geometry, t: Tree): Outcome
    requires |t| == g.NodeCount() && |t| >= 3
  {
    if t[0] == NULL then Outcome(t[0 := g.base], g.base)
    else if t[1] == NULL then Outcome(t[0 := BRANCH_NODE][1 := g.base], g.base)
    else if t[2] == NULL then Outcome(t[0 := BRANCH_NODE][2 := g.base], g.base)
    else Outcome(t[0 := BRANCH_NODE], NULL)
  }

  /** malloc, for every request. */
  function Malloc(g: Geometry, t: Tree, size: nat): (r: Outcome)
    requires g.Valid() && |t| == g.NodeCount()
    ensures |r.tree| == |t|
  {
    NodeBounds(g, 0, g.levels);
    if size > g.HeapSize() then Outcome(t, NULL)
    else if Level(g, size) < g.levels then Chosen(g, Unrooted(t), Level(g, size))
    else RootRequest(g, t)
  }

  /** free, for every pointer: the new tree and the return code (1 when nothing was freed). */
  function Free(g: Geometry, t: Tree, ptr: nat): (r: Outcome)
    requires g.Valid() && |t| == g.NodeCount()
    ensures |r.tree| == |t|
  {
    NodeBounds(g, 0, g.levels);
    if t[0] == NULL || FindPtr(g, t, ptr) == 0 then Outcome(t, 1)
    else Outcome(Release(t, FindPtr(g, t, ptr)), 0)
  }

  lemma TooLarge(g: Geometry, t: Tree, size: nat)
    requires g.Valid() && |t| == g.NodeCount() && size > g.HeapSize()
    ensures Malloc(g, t, size) == Outcome(t, NULL)
  {
  }

  lemma FreeSplit(g: Geometry, t: Tree, ptr: nat)
    requires g.Valid() && |t| == g.NodeCount() && |t| % 2 == 1 && |t| > 0
    ensures Free(g, t, ptr) == if t[0] == NULL || FindPtr(g, t, ptr) == 0 then Outcome(t, 1)
                               else Outcome(Climb(t[FindPtr(g, t, ptr) := NULL], FindPtr(g, t, ptr)), 0)
  {
  }
}
