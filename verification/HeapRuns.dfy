/** The runs of HeapSafety in memory: calls of malloc and free, one after another, on one array. */
module HeapRuns {
  import opened HeapTree
  import opened HeapSpec
  import opened HeapSafety
  import opened HeapClass

  /** What a call returns to its caller. */
  ghost function Returned(g: Geometry, t: Tree, c: Call): nat
    requires g.Valid() && |t| == g.NodeCount()
  {
    match c
    case MallocCall(size) => Malloc(g, t, size).ret
    case FreeCall(ptr) => Free(g, t, ptr).ret
  }

  /** What each call of a run from heap_init returns. */
  ghost function Results(g: Geometry, calls: seq<Call>): seq<nat>
    requires g.Valid()
  {
    if calls == [] then []
    else Results(g, calls[..|calls| - 1]) + [Returned(g, After(g, Fresh(g), calls[..|calls| - 1]).tree, calls[|calls| - 1])]
  }

  /** One call. */
  method Perform(h: Heap, c: Call, ghost r: Run) returns (ret: nat)
    requires h.Valid() && r.tree == h.tree[..] && !IsLeaf(r.tree[0]) && Live(h.g, r.tree) == r.ledger && Bounded(h.g, c)
    modifies h.tree
    ensures h.Valid() && h.tree[..] == Step(h.g, r, c).tree && ret == Returned(h.g, r.tree, c)
  {
    hide Malloc, Free, WellFormed, Live;
    WellFormedShape(h.g, r.tree);
    HeapFits(h.g);
    StepSafe(h.g, r, c);
    match c
    case MallocCall(size) => ret := h.Malloc(size);
    case FreeCall(ptr) => ret := h.Free(ptr);
  }

  /** A whole run, with requests up to half the heap. */
  method RunFromInit(g: Geometry, calls: seq<Call>) returns (h: Heap, results: seq<nat>)
    requires g.Valid() && forall i :: 0 <= i < |calls| ==> Bounded(g, calls[i])
    ensures h.g == g && fresh(h.tree) && h.Valid()
    ensures h.tree[..] == After(g, Fresh(g), calls).tree && results == Results(g, calls)
  {
    hide Step, WellFormed, Live, Returned;
    if calls == [] {
      h := new Heap(g);
      WellFormedShape(g, h.tree[..]);
      results := [];
    } else {
      var before := calls[..|calls| - 1];
      h, results := RunFromInit(g, before);
      EveryRunSafe(g, before);
      assert Bounded(g, calls[|calls| - 1]);
      var ret := Perform(h, calls[|calls| - 1], After(g, Fresh(g), before));
      results := results + [ret];
    }
  }
}
