/** The heap of os/heap.c: one array updated in place by malloc and free and walked, without a stack,
    by malloc, find_ptr and heap_stats. */
module HeapClass {
  import opened Bits
  import opened HeapTree
  import opened HeapWalk
  import opened HeapSpec

  class Heap {
    const g: Geometry
    const tree: array<nat>

    ghost predicate Valid()
      reads tree
    {
      WellFormed(g, tree[..])
    }

    /** The heap as heap_init leaves it: every slot NULL. */
    constructor (g: Geometry)
      requires g.Valid()
      ensures this.g == g && fresh(tree) && Valid()
      ensures forall i :: 0 <= i < tree.Length ==> tree[i] == NULL
    {
      this.g := g;
      tree := new nat[g.NodeCount()](i => NULL);
    }

    /** malloc: a depth-first walk that marks the nodes it enters as branches. */
    method Malloc(request: nat) returns (ptr: nat)
      requires Valid() && request < 0x1_0000_0000
      modifies tree
      ensures tree[..] == HeapSpec.Malloc(g, old(tree[..]), request).tree
      ensures ptr == HeapSpec.Malloc(g, old(tree[..]), request).ret
    {
      hide WellFormed, MallocInv, MallocMeasure, HeapSpec.Malloc, Level, CodeAddr, Parent;
      WellFormedShape(g, tree[..]);
      ghost var t := tree[..];
      if request > g.HeapSize() {
        TooLarge(g, t, request);
        return NULL;
      }
      MallocStart(g, t, request);
      var size := NextPow2(request);
      if size < g.Size(0) { size := g.Size(0); }

      var i: nat, blockSize: nat, skip: nat := 0, g.HeapSize(), 0;
      ghost var h, k, s := g.levels, Level(g, request), At(t, 0, blockSize, 0);
      while true
        invariant s == At(tree[..], i, blockSize, skip) && MallocInv(g, t, k, h, s)
        decreases MallocMeasure(g, k, h, s)
      {
        h, s := MallocTurn(g, t, k, h, s);
        if blockSize == size {
          if tree[i] != NULL {
            skip := i;
            blockSize := 2 * blockSize;
            i := Parent(i);
            continue;
          }
          ptr := CodeAddr(g, i, blockSize);
          tree[i] := ptr;
          MallocEnd(g, t, request, h, s);
          return;
        } else {
          tree[i] := BRANCH_NODE;
        }
        var left, right := 2 * i + 1, 2 * i + 2;
        if right == skip {
          if i == 0 { break; }
          skip := i;
          blockSize := 2 * blockSize;
          i := Parent(i);
        } else if (tree[left] != NULL && tree[left] != BRANCH_NODE) || left == skip {
          if tree[right] != NULL && tree[right] != BRANCH_NODE {
            if i == 0 { break; }
            skip := i;
            blockSize := 2 * blockSize;
            i := Parent(i);
          } else {
            blockSize := blockSize / 2;
            i := right;
          }
        } else {
          blockSize := blockSize / 2;
          i := left;
        }
      }
      MallocEnd(g, t, request, h, s);
      return NULL;
    }

    /** free: clears the node and every branch that no longer leads to a used node. */
    method Free(ptr: nat) returns (code: nat)
      requires Valid()
      modifies tree
      ensures tree[..] == HeapSpec.Free(g, old(tree[..]), ptr).tree
      ensures code == HeapSpec.Free(g, old(tree[..]), ptr).ret
    {
      hide WellFormed, Climb, HeapSpec.Free, HeapTree.FindPtr;
      WellFormedShape(g, tree[..]);
      ghost var t := tree[..];
      FreeSplit(g, t, ptr);
      if tree[0] == NULL { return 1; }
      var i: nat := FindPtr(ptr);
      if i == 0 { return 1; }
      tree[i] := NULL;
      ghost var goal := Climb(tree[..], i);
      while i > 0
        invariant i < tree.Length == |t| && goal == Climb(tree[..], i)
      {
        ghost var cur := tree[..];
        ClimbTurn(cur, i);
        i := Parent(i);
        if tree[2 * i + 1] != NULL { break; }
        if tree[2 * i + 2] != NULL { break; }
        tree[i] := NULL;
        assert tree[..] == cur[i := NULL];
      }
      if i == 0 { ClimbTurn(tree[..], 0); }
      return 0;
    }

    /** find_ptr: the node that holds ptr, or 0. */
    method FindPtr(ptr: nat) returns (index: nat)
      requires Valid()
      ensures index == HeapTree.FindPtr(g, tree[..], ptr)
    {
      hide Pow2, Depth, Search, SearchFrom, AvoidedAbove, StepsLeft;
      ghost var t := tree[..];
      var i: nat, skip: nat := 0, 0;
      ghost var h: nat := g.levels;
      WellFormedShape(g, t);
      SearchStart(g, t, ptr);
      while true
        invariant SearchWalk(g, t, ptr, i, h, skip)
        decreases StepsLeft(i, h, skip)
      {
        if tree[i] == ptr {
          SearchFound(g, t, ptr, i, h, skip);
          return i;
        }
        var left, right := 2 * i + 1, 2 * i + 2;
        ghost var up := SearchedOut(t, i, skip);
        if up { SearchUp(g, t, ptr, i, h, skip); }
        if right == skip {
          if i == 0 { return 0; }
          skip, i, h := i, Parent(i), h + 1;
        } else if left >= tree.Length || tree[left] == NULL || left == skip {
          if right > tree.Length || tree[right] == NULL {
            if i == 0 { return 0; }
            skip, i, h := i, Parent(i), h + 1;
          } else {
            SearchDown(g, t, ptr, i, h, skip, right);
            i, h := right, h - 1;
          }
        } else {
          SearchDown(g, t, ptr, i, h, skip, left);
          i, h := left, h - 1;
        }
      }
    }

    /** heap_stats: the bytes in live blocks, and the rest. */
    method Stats() returns (size: nat, used: nat, free: int)
      requires Valid()
      ensures size == g.HeapSize() && used == Used(g, tree[..], 0, g.levels) && free == size - used
    {
      hide UsedInv, UsedMeasure, Parent, Used;
      ghost var t := tree[..];
      var i: nat, blockSize: nat, skip: nat := 0, g.HeapSize(), 0;
      used := 0;
      ghost var h, s := g.levels, Counting(0, blockSize, 0, 0);
      UsedStart(g, t);
      while true
        invariant s == Counting(i, blockSize, skip, used) && UsedInv(g, t, h, s)
        decreases UsedMeasure(h, s)
      {
        h, s := CountLeafKeeps(g, t, h, s);
        if tree[i] != NULL && tree[i] != BRANCH_NODE {
          used := used + blockSize;
          skip := i;
          blockSize := 2 * blockSize;
          if i == 0 { break; }
          i := Parent(i);
        }
        var left, right := 2 * i + 1, 2 * i + 2;
        h, s := CountMoveKeeps(g, t, h, s);
        if right == skip {
          if i == 0 { break; }
          skip := i;
          blockSize := 2 * blockSize;
          i := Parent(i);
        } else if tree[left] == NULL || left == skip {
          if tree[right] == NULL {
            if i == 0 { break; }
            skip := i;
            blockSize := 2 * blockSize;
            i := Parent(i);
          } else {
            blockSize := blockSize / 2;
            i := right;
          }
        } else {
          blockSize := blockSize / 2;
          i := left;
        }
      }
      assert s == Counted(used);
      UsedEnd(g, t, h, s);
      free := g.HeapSize() - used;
      size := g.HeapSize();
    }
  }
}
