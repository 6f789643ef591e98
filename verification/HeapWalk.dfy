/** The stackless walks of os/heap.c: what is still to be visited when the walk stands at a node.
    A walk state is a node i of height h and the node last left, skip: the right child if both
    subtrees are done, the left child if one is, anything smaller if i was just entered. */
module HeapWalk {
  import opened Bits
  import opened Options
  import opened HeapTree
  import opened HeapSpec

  /** Steps of a full tour below a node of height h. */
  function Tour(h: nat): nat { if h == 0 then 1 else 3 + 2 * Tour(h - 1) }

  /** Steps left once the subtree of i is done. */
  function StepsAfter(i: nat, h: nat): nat
    decreases i
  {
    if i == 0 then 0
    else if i == Left(Parent(i)) then 2 + Tour(h) + StepsAfter(Parent(i), h + 1)
    else 1 + StepsAfter(Parent(i), h + 1)
  }

  /** Steps left at node i: the measure by which every walk terminates. */
  function StepsLeft(i: nat, h: nat, skip: nat): nat
  {
    StepsAfter(i, h) +
    if skip == Right(i) then 1
    else if skip == Left(i) then (if h == 0 then 2 else 2 + Tour(h - 1))
    else Tour(h)
  }

  lemma UpTakesSteps(i: nat, h: nat, skip: nat)
    requires i > 0
    ensures StepsLeft(Parent(i), h + 1, i) < StepsLeft(i, h, skip)
  {
    Children(Parent(i));
  }

  lemma DownTakesSteps(i: nat, h: nat, skip: nat)
    requires h > 0 && skip <= Left(i)
    ensures skip < Left(i) ==> StepsLeft(Left(i), h - 1, skip) < StepsLeft(i, h, skip)
    ensures StepsLeft(Right(i), h - 1, skip) < StepsLeft(i, h, skip)
  {
    Children(i);
  }

  function OrElse<T>(a: Option<T>, b: Option<T>): Option<T> { if a.Some? then a else b }

  // ---------------------------------------------------------------- malloc

  /** What the malloc walk still finds once the subtree of i is done. */
  function FindAfter(g: Geometry, t: Tree, i: nat, h: nat, k: nat): Option<nat>
    requires |t| == g.NodeCount() && Node(g, i, h) && k <= h
    decreases i
  {
    if i == 0 then None
    else if i == Left(Parent(i)) then
      Children(Parent(i));
      OrElse(Find(g, t, Right(Parent(i)), h, k), FindAfter(g, t, Parent(i), h + 1, k))
    else FindAfter(g, t, Parent(i), h + 1, k)
  }

  /** What the malloc walk still finds when it stands at i. */
  function FindFrom(g: Geometry, t: Tree, i: nat, h: nat, k: nat, skip: nat): Option<nat>
    requires |t| == g.NodeCount() && Node(g, i, h) && k <= h
  {
    if skip < Left(i) then OrElse(Find(g, t, i, h, k), FindAfter(g, t, i, h, k))
    else if skip == Left(i) && h > k then
      Children(i);
      OrElse(Find(g, t, Right(i), h - 1, k), FindAfter(g, t, i, h, k))
    else FindAfter(g, t, i, h, k)
  }

  /** The invariant of malloc's loop while it looks for a node of height k below the root: t is the
      tree the call started from, cur the array now. */
  ghost predicate MallocWalk(g: Geometry, t: Tree, cur: Tree, i: nat, h: nat, k: nat, skip: nat)
  {
    && WellFormed(g, t) && !IsLeaf(t[0]) && k < g.levels
    && Node(g, i, h) && k <= h && skip <= Right(i) && i < |t| == |cur|
    && (h > k ==> !IsLeaf(t[i]))
    && (skip >= Left(i) ==> h > k && t[i] == BRANCH_NODE)
    && (if i == 0 then cur[1..] == t[1..] else cur == MarkAbove(t, i))
    && FindFrom(g, t, i, h, k, skip) == Find(g, t, 0, g.levels, k)
  }

  /** Slots at and below the current node still hold what they held at the start. */
  lemma MallocSees(g: Geometry, t: Tree, cur: Tree, i: nat, h: nat, k: nat, skip: nat)
    requires MallocWalk(g, t, cur, i, h, k, skip)
    ensures i > 0 ==> cur[i] == t[i]
    ensures h > k ==> Right(i) < |t| && cur[Left(i)] == t[Left(i)] && cur[Right(i)] == t[Right(i)]
    ensures h > k ==> (i > 0 && skip >= Left(i) ==> cur == t)
  {
    NodeBounds(g, i, h);
    if i > 0 {
      MarkAboveAt(t, i, i);
      if t[i] != NULL { MarkAboveUsed(g, t, i); }
      if h > k {
        MarkAboveAt(t, i, Left(i));
        MarkAboveAt(t, i, Right(i));
        if Anc(Left(i), i) { AncBelow(Left(i), i); }
        if Anc(Right(i), i) { AncBelow(Right(i), i); }
      }
    } else {
      assert cur[1..][0] == t[1..][0] && cur[1..][1] == t[1..][1];
    }
  }

  /** Nothing is left to find at or below node i. */
  ghost predicate Exhausted(g: Geometry, t: Tree, i: nat, h: nat, k: nat, skip: nat)
    requires |t| == g.NodeCount() && i < |t| && (h > k ==> Right(i) < |t|)
  {
    if h <= k then t[i] != NULL
    else skip == Right(i) || ((IsLeaf(t[Left(i)]) || skip == Left(i)) && IsLeaf(t[Right(i)]))
  }

  /** Leaving a node with nothing left below: it is in use, so nothing was marked on the way to it,
      and the walk goes on at its parent or, from the root, ends with nothing found. */
  lemma MallocLeave(g: Geometry, t: Tree, cur: Tree, i: nat, h: nat, k: nat, skip: nat)
    requires MallocWalk(g, t, cur, i, h, k, skip) && (h > k ==> Right(i) < |t|)
    requires Exhausted(g, t, i, h, k, skip)
    ensures i == 0 ==> h > k && Find(g, t, 0, g.levels, k) == None && cur[0 := BRANCH_NODE] == t
    ensures i > 0 ==> cur == t && (h > k ==> t[i] == BRANCH_NODE)
    ensures i > 0 ==> MallocWalk(g, t, cur, Parent(i), h + 1, k, i)
    ensures i > 0 ==> StepsLeft(Parent(i), h + 1, i) < StepsLeft(i, h, skip)
  {
    hide Find, FindAfter, FindFrom, StepsLeft;
    NodeBounds(g, i, h);
    ExhaustedIsUsed(g, t, i, h, k, skip);
    ExhaustedFinds(g, t, i, h, k, skip);
    FindUp(g, t, i, h, k);
    if i > 0 {
      MarkAboveUsed(g, t, i);
      MarkAboveUsed(g, t, Parent(i));
      Children(Parent(i));
      assert NodeOk(g, t, i);
      UpTakesSteps(i, h, skip);
    } else {
      assert cur == [cur[0]] + cur[1..] && t == [t[0]] + t[1..];
    }
  }

  lemma FindUp(g: Geometry, t: Tree, i: nat, h: nat, k: nat)
    requires |t| == g.NodeCount() && Node(g, i, h) && k <= h
    ensures i == 0 ==> FindAfter(g, t, i, h, k) == None
    ensures i > 0 ==> FindFrom(g, t, Parent(i), h + 1, k, i) == FindAfter(g, t, i, h, k)
  {
    if i > 0 { Children(Parent(i)); }
  }

  lemma ExhaustedIsUsed(g: Geometry, t: Tree, i: nat, h: nat, k: nat, skip: nat)
    requires WellFormed(g, t) && Node(g, i, h) && k <= h && i < |t| && (h > k ==> Right(i) < |t|)
    requires skip >= Left(i) ==> t[i] == BRANCH_NODE
    requires Exhausted(g, t, i, h, k, skip)
    ensures t[i] != NULL && (h > k ==> t[i] == BRANCH_NODE)
  {
    if h > k && skip < Left(i) {
      Children(i);
      assert NodeOk(g, t, Right(i));
    }
  }

  lemma ExhaustedFinds(g: Geometry, t: Tree, i: nat, h: nat, k: nat, skip: nat)
    requires |t| == g.NodeCount() && Node(g, i, h) && k <= h && i < |t| && (h > k ==> Right(i) < |t|)
    requires skip <= Right(i) && (skip >= Left(i) ==> h > k) && (h > k ==> !IsLeaf(t[i]))
    requires Exhausted(g, t, i, h, k, skip)
    ensures FindFrom(g, t, i, h, k, skip) == FindAfter(g, t, i, h, k)
  {
    NodeBounds(g, i, h);
    if h > k {
      Children(i);
      if IsLeaf(t[Left(i)]) { assert Find(g, t, Left(i), h - 1, k) == None; }
      if IsLeaf(t[Right(i)]) { assert Find(g, t, Right(i), h - 1, k) == None; }
    }
  }

  /** Going down to a child once the current slot is marked. */
  lemma MallocDown(g: Geometry, t: Tree, cur: Tree, i: nat, h: nat, k: nat, skip: nat, c: nat)
    requires MallocWalk(g, t, cur, i, h, k, skip) && h > k && i < |cur|
    requires (c == Left(i) && skip < Left(i)) || (c == Right(i) && skip <= Left(i))
    requires c < |t| && (h - 1 > k ==> !IsLeaf(t[c]))
    requires c == Right(i) && skip < Left(i) ==> IsLeaf(t[Left(i)])
    ensures MallocWalk(g, t, cur[i := BRANCH_NODE], c, h - 1, k, skip)
  {
    NodeBounds(g, i, h);
    Children(i);
    var u := cur[i := BRANCH_NODE];
    if i == 0 {
      assert forall m :: 0 < m < |t| ==> cur[m] == cur[1..][m - 1] && t[m] == t[1..][m - 1];
      assert u == t[0 := BRANCH_NODE];
    }
    assert u == MarkAbove(t, c);
    FindDown(g, t, i, h, k, skip, c);
  }

  lemma FindDown(g: Geometry, t: Tree, i: nat, h: nat, k: nat, skip: nat, c: nat)
    requires |t| == g.NodeCount() && Node(g, i, h) && k < h && i < |t| && !IsLeaf(t[i])
    requires (c == Left(i) && skip < Left(i)) || (c == Right(i) && skip <= Left(i))
    requires c == Right(i) && skip < Left(i) ==> Left(i) < |t| && IsLeaf(t[Left(i)])
    ensures Node(g, c, h - 1) && FindFrom(g, t, c, h - 1, k, skip) == FindFrom(g, t, i, h, k, skip)
  {
    NodeBounds(g, i, h);
    Children(i);
    var l, r := Find(g, t, Left(i), h - 1, k), Find(g, t, Right(i), h - 1, k);
    assert Find(g, t, i, h, k) == OrElse(l, r);
    assert FindAfter(g, t, Left(i), h - 1, k) == OrElse(r, FindAfter(g, t, i, h, k));
    assert FindAfter(g, t, Right(i), h - 1, k) == FindAfter(g, t, i, h, k);
  }

  /** The state of malloc's loop, or its result. */
  datatype MallocState = At(cur: Tree, i: nat, blockSize: nat, skip: nat) | Done(outcome: Outcome)

  function Ascend(cur: Tree, s: MallocState): MallocState
    requires s.At?
  {
    At(cur, Parent(s.i), 2 * s.blockSize, s.i)
  }

  /** One turn of malloc's loop. */
  function MallocStep(g: Geometry, size: nat, s: MallocState): MallocState
    requires s.At? && s.i < |s.cur| && (s.blockSize != size ==> Right(s.i) < |s.cur|)
    requires g.HeapSize() > 0
  {
    if s.blockSize == size then
      if s.cur[s.i] != NULL then Ascend(s.cur, s)
      else
        var ptr := CodeAddr(g, s.i, s.blockSize);
        Done(Outcome(s.cur[s.i := ptr], ptr))
    else
      var cur := s.cur[s.i := BRANCH_NODE];
      var left, right := Left(s.i), Right(s.i);
      if right == s.skip then
        if s.i == 0 then Done(Outcome(cur, NULL)) else Ascend(cur, s)
      else if IsLeaf(cur[left]) || left == s.skip then
        if IsLeaf(cur[right]) then
          if s.i == 0 then Done(Outcome(cur, NULL)) else Ascend(cur, s)
        else At(cur, right, s.blockSize / 2, s.skip)
      else At(cur, left, s.blockSize / 2, s.skip)
  }

  /** Block sizes tell heights apart. */
  lemma SizeInjective(g: Geometry, h: nat, k: nat)
    ensures g.Size(h) == g.Size(k) <==> h == k
  {
    if h < k { Pow2Monotone(g.minLen + h, g.minLen + k); }
    if k < h { Pow2Monotone(g.minLen + k, g.minLen + h); }
  }

  ghost predicate SplitInv(g: Geometry, t: Tree, k: nat, h: nat, s: MallocState)
  {
    s.At? && s.blockSize == g.Size(h) && MallocWalk(g, t, s.cur, s.i, h, k, s.skip)
  }

  lemma SplitStart(g: Geometry, t: Tree, cur: Tree, k: nat)
    requires WellFormed(g, t) && !IsLeaf(t[0]) && k < g.levels && |cur| == |t| && cur[1..] == t[1..]
    ensures SplitInv(g, t, k, g.levels, At(cur, 0, g.HeapSize(), 0))
  {
  }

  lemma SplitInBounds(g: Geometry, t: Tree, k: nat, h: nat, s: MallocState)
    requires SplitInv(g, t, k, h, s)
    ensures g.HeapSize() > 0 && s.i < |s.cur| && (s.blockSize != g.Size(k) ==> h > k && Right(s.i) < |s.cur|)
    ensures s.blockSize == g.Size(k) ==> h == k && s.i > 0
  {
    NodeBounds(g, s.i, h);
    SizeInjective(g, h, k);
  }

  /** The height the next loop turn stands at. */
  function NextHeight(h: nat, s: MallocState, n: MallocState): nat
  {
    if n.At? && s.At? && n.blockSize > s.blockSize then h + 1 else if h > 0 then h - 1 else 0
  }

  /** A turn of the loop keeps the invariant and gets closer to the end, or ends with the first free
      node of height k allocated, or with nothing found and the tree as it was. */
  lemma SplitStep(g: Geometry, t: Tree, k: nat, h: nat, s: MallocState) returns (n: MallocState)
    requires SplitInv(g, t, k, h, s)
    ensures g.HeapSize() > 0 && s.i < |s.cur| && (s.blockSize != g.Size(k) ==> Right(s.i) < |s.cur|)
    ensures n == MallocStep(g, g.Size(k), s)
    ensures n.At? ==> SplitInv(g, t, k, NextHeight(h, s, n), n)
    ensures n.At? ==> StepsLeft(n.i, NextHeight(h, s, n), n.skip) < StepsLeft(s.i, h, s.skip)
    ensures n.Done? ==> n.outcome == Chosen(g, t, k)
  {
    SplitInBounds(g, t, k, h, s);
    n := MallocStep(g, g.Size(k), s);
    SizeDoubles(g, h);
    MallocSees(g, t, s.cur, s.i, h, k, s.skip);
    if s.blockSize == g.Size(k) {
      if s.cur[s.i] != NULL {
        MallocLeave(g, t, s.cur, s.i, h, k, s.skip);
      } else {
        CodeAddrIsLo(g, s.i, h);
      }
    } else {
      SizeHalves(g, h);
      SplitTurn(g, t, k, h, s, n);
    }
  }

  lemma SplitTurn(g: Geometry, t: Tree, k: nat, h: nat, s: MallocState, n: MallocState)
    requires SplitInv(g, t, k, h, s) && h > k && s.blockSize != g.Size(k) && Right(s.i) < |s.cur|
    requires g.HeapSize() > 0 && n == MallocStep(g, g.Size(k), s)
    requires s.cur[Left(s.i)] == t[Left(s.i)] && s.cur[Right(s.i)] == t[Right(s.i)]
    requires g.Size(h) == 2 * g.Size(h - 1) && g.Size(h + 1) == 2 * g.Size(h) && g.Size(h - 1) > 0
    ensures n.At? ==> SplitInv(g, t, k, NextHeight(h, s, n), n)
    ensures n.At? ==> StepsLeft(n.i, NextHeight(h, s, n), n.skip) < StepsLeft(s.i, h, s.skip)
    ensures n.Done? ==> n.outcome == Chosen(g, t, k)
  {
    WellFormedShape(g, t);
    hide WellFormed, Find, Allocate, StepsLeft, MarkAbove, FindFrom, CodeAddr;
    var i, skip := s.i, s.skip;
    if Exhausted(g, t, i, h, k, skip) {
      MallocLeave(g, t, s.cur, i, h, k, skip);
    } else {
      DownTakesSteps(i, h, skip);
      var c := if skip == Left(i) || IsLeaf(t[Left(i)]) then Right(i) else Left(i);
      MallocDown(g, t, s.cur, i, h, k, skip, c);
    }
  }

  // Requests for the whole heap.

  /** Where malloc's loop can stand when the whole heap was asked for; t is the tree at the call. */
  ghost predicate RootInv(g: Geometry, t: Tree, s: MallocState)
  {
    && WellFormed(g, t) && |t| >= 3 && s.At? && g.HeapSize() > 0
    && (if s.blockSize == g.HeapSize() && s.i == 0 then s.cur == t && s.skip == 0
        else t[0] != NULL && (s.cur == t || s.cur == t[0 := BRANCH_NODE])
             && if s.blockSize == 2 * g.HeapSize() then RootRevisited(t, s)
                else s.blockSize == g.HeapSize() && s.cur == t[0 := BRANCH_NODE] && RootChild(t, s))
  }

  ghost predicate RootRevisited(t: Tree, s: MallocState)
    requires s.At? && |t| >= 3
  {
    s.i == 0 && (s.skip == 0 || (s.skip == 1 && t[1] == BRANCH_NODE) || (s.skip == 2 && t[1] != NULL && t[2] != NULL))
  }

  ghost predicate RootChild(t: Tree, s: MallocState)
    requires s.At? && |t| >= 3
  {
    (s.i == 1 && s.skip == 0 && !IsLeaf(t[1])) || (s.i == 2 && s.skip < 2 && t[1] != NULL && !IsLeaf(t[2]))
  }

  function RootSteps(g: Geometry, s: MallocState): nat
    requires s.At?
  {
    if s.blockSize == g.HeapSize() then (if s.i == 0 then 5 else if s.i == 1 then 3 else 1)
    else if s.skip == 0 then 4 else if s.skip == 1 then 2 else 0
  }

  lemma RootAddr(g: Geometry, i: nat)
    requires i < 3 && g.HeapSize() > 0
    ensures CodeAddr(g, i, g.HeapSize()) == g.base
  {
    Multiples(g.HeapSize());
  }

  lemma Multiples(s: nat)
    requires s > 0
    ensures (1 * s) % s == 0 && (2 * s) % s == 0 && (3 * s) % s == 0
  {
    RemainderOnce(0, s);
    assert (s + s) % s == 0 && (s + s + s) % s == 0;
  }

  lemma RootStart(g: Geometry, t: Tree)
    requires WellFormed(g, t)
    ensures RootInv(g, t, At(t, 0, g.HeapSize(), 0))
  {
    WellFormedShape(g, t);
  }

  lemma RootStep(g: Geometry, t: Tree, s: MallocState) returns (n: MallocState)
    requires RootInv(g, t, s)
    ensures s.i < |s.cur| && (s.blockSize != g.HeapSize() ==> Right(s.i) < |s.cur|)
    ensures n == MallocStep(g, g.HeapSize(), s)
    ensures n.At? ==> RootInv(g, t, n) && RootSteps(g, n) < RootSteps(g, s)
    ensures n.Done? ==> n.outcome == RootRequest(g, t)
  {
    n := MallocStep(g, g.HeapSize(), s);
    if s.blockSize == g.HeapSize() { RootAddr(g, s.i); }
  }

  // Both kinds of request.

  /** Malloc's loop at height h, looking for height k in the tree t of the call, or its result. */
  ghost predicate MallocInv(g: Geometry, t: Tree, k: nat, h: nat, s: MallocState)
  {
    && WellFormed(g, t) && k <= g.levels
    && match s
       case Done(outcome) => |t| > 0 && outcome == if k < g.levels then Chosen(g, Unrooted(t), k) else RootRequest(g, t)
       case At(_, _, _, _) => |t| > 0 && if k < g.levels then SplitInv(g, Unrooted(t), k, h, s) else RootInv(g, t, s)
  }

  ghost function MallocMeasure(g: Geometry, k: nat, h: nat, s: MallocState): nat
  {
    if s.Done? then 0 else if k < g.levels then 1 + StepsLeft(s.i, h, s.skip) else 1 + RootSteps(g, s)
  }

  lemma UnrootedWellFormed(g: Geometry, t: Tree)
    requires WellFormed(g, t)
    ensures |t| >= 3 && WellFormed(g, Unrooted(t)) && !IsLeaf(Unrooted(t)[0])
    ensures Unrooted(t)[1..] == t[1..]
  {
    WellFormedShape(g, t);
    var u := Unrooted(t);
    forall m: nat | m < |u| ensures NodeOk(g, u, m) { assert NodeOk(g, t, m); }
  }

  lemma MallocStart(g: Geometry, t: Tree, request: nat)
    requires WellFormed(g, t) && request <= g.HeapSize()
    ensures g.HeapSize() <= 0x4000_0000 && Rounded(g, request) == g.Size(Level(g, request))
    ensures MallocInv(g, t, Level(g, request), g.levels, At(t, 0, g.HeapSize(), 0))
  {
    HeapFits(g);
    RoundedIsLevel(g, request);
    UnrootedWellFormed(g, t);
    if Level(g, request) < g.levels {
      SplitStart(g, Unrooted(t), t, Level(g, request));
    } else {
      RootStart(g, t);
    }
  }

  lemma MallocTurn(g: Geometry, t: Tree, k: nat, h: nat, s: MallocState) returns (h': nat, n: MallocState)
    requires MallocInv(g, t, k, h, s) && s.At?
    ensures g.HeapSize() > 0 && s.i < |s.cur| && (s.blockSize != g.Size(k) ==> Right(s.i) < |s.cur|)
    ensures n == MallocStep(g, g.Size(k), s)
    ensures MallocInv(g, t, k, h', n) && MallocMeasure(g, k, h', n) < MallocMeasure(g, k, h, s)
  {
    hide WellFormed, SplitInv, RootInv, StepsLeft, RootSteps, MallocStep, Chosen, RootRequest;
    if k < g.levels {
      n := SplitStep(g, Unrooted(t), k, h, s);
    } else {
      n := RootStep(g, t, s);
    }
    h' := NextHeight(h, s, n);
  }

  lemma MallocEnd(g: Geometry, t: Tree, request: nat, h: nat, s: MallocState)
    requires WellFormed(g, t) && request <= g.HeapSize() && s.Done?
    requires MallocInv(g, t, Level(g, request), h, s)
    ensures g.Valid() && |t| == g.NodeCount() && s.outcome == HeapSpec.Malloc(g, t, request)
  {
  }

  // ---------------------------------------------------------------- find_ptr

  function SearchChild(g: Geometry, t: Tree, i: nat, h: nat, ptr: nat): Option<nat>
    requires |t| == g.NodeCount() && Node(g, i, h)
  {
    NodeBounds(g, i, h);
    if t[i] == NULL then None else Search(g, t, i, h, ptr)
  }

  function SearchAfter(g: Geometry, t: Tree, i: nat, h: nat, ptr: nat): Option<nat>
    requires |t| == g.NodeCount() && Node(g, i, h)
    decreases i
  {
    if i == 0 then None
    else if i == Left(Parent(i)) then
      Children(Parent(i));
      OrElse(SearchChild(g, t, Right(Parent(i)), h, ptr), SearchAfter(g, t, Parent(i), h + 1, ptr))
    else SearchAfter(g, t, Parent(i), h + 1, ptr)
  }

  function SearchFrom(g: Geometry, t: Tree, i: nat, h: nat, ptr: nat, skip: nat): Option<nat>
    requires |t| == g.NodeCount() && Node(g, i, h)
  {
    if skip < Left(i) then OrElse(Search(g, t, i, h, ptr), SearchAfter(g, t, i, h, ptr))
    else if skip == Left(i) && h > 0 then
      Children(i);
      OrElse(SearchChild(g, t, Right(i), h - 1, ptr), SearchAfter(g, t, i, h, ptr))
    else SearchAfter(g, t, i, h, ptr)
  }

  /** No slot above i holds ptr. */
  ghost predicate AvoidedAbove(t: Tree, ptr: nat, i: nat)
  {
    i < |t| && (i > 0 ==> t[Parent(i)] != ptr && AvoidedAbove(t, ptr, Parent(i)))
  }

  /** find_ptr stands at i, has not met ptr yet and will still find what there is to find. */
  ghost predicate SearchWalk(g: Geometry, t: Tree, ptr: nat, i: nat, h: nat, skip: nat)
  {
    && |t| == g.NodeCount() && Node(g, i, h) && i < |t| && skip <= Right(i)
    && AvoidedAbove(t, ptr, i) && (skip >= Left(i) ==> t[i] != ptr && h > 0)
    && SearchFrom(g, t, i, h, ptr, skip) == Search(g, t, 0, g.levels, ptr)
  }

  lemma SearchStart(g: Geometry, t: Tree, ptr: nat)
    requires |t| == g.NodeCount()
    ensures SearchWalk(g, t, ptr, 0, g.levels, 0)
  {
    NodeBounds(g, 0, g.levels);
  }

  lemma SearchFound(g: Geometry, t: Tree, ptr: nat, i: nat, h: nat, skip: nat)
    requires SearchWalk(g, t, ptr, i, h, skip) && t[i] == ptr
    ensures i == FindPtr(g, t, ptr)
  {
  }

  /** Nothing is left to search below i. */
  ghost predicate SearchedOut(t: Tree, i: nat, skip: nat)
  {
    skip == Right(i)
    || ((Left(i) >= |t| || t[Left(i)] == NULL || skip == Left(i)) && (Right(i) >= |t| || t[Right(i)] == NULL))
  }

  lemma SearchUp(g: Geometry, t: Tree, ptr: nat, i: nat, h: nat, skip: nat)
    requires SearchWalk(g, t, ptr, i, h, skip) && t[i] != ptr && SearchedOut(t, i, skip)
    ensures i == 0 ==> Search(g, t, 0, g.levels, ptr) == None
    ensures i > 0 ==> SearchWalk(g, t, ptr, Parent(i), h + 1, i)
    ensures i > 0 ==> StepsLeft(Parent(i), h + 1, i) < StepsLeft(i, h, skip)
  {
    NodeBounds(g, i, h);
    Children(i);
    assert SearchFrom(g, t, i, h, ptr, skip) == SearchAfter(g, t, i, h, ptr);
    if i > 0 {
      Children(Parent(i));
      UpTakesSteps(i, h, skip);
    }
  }

  lemma SearchDown(g: Geometry, t: Tree, ptr: nat, i: nat, h: nat, skip: nat, c: nat)
    requires SearchWalk(g, t, ptr, i, h, skip) && t[i] != ptr && c < |t| && t[c] != NULL
    requires (c == Left(i) && skip < Left(i)) || (c == Right(i) && skip <= Left(i))
    requires c == Right(i) && skip < Left(i) ==> Left(i) < |t| && t[Left(i)] == NULL
    ensures h > 0 && SearchWalk(g, t, ptr, c, h - 1, skip)
    ensures StepsLeft(c, h - 1, skip) < StepsLeft(i, h, skip)
  {
    hide SearchFrom, Search, Pow2, Depth, StepsLeft;
    NodeBounds(g, i, h);
    Children(i);
    DownTakesSteps(i, h, skip);
    SearchDownKeeps(g, t, ptr, i, h, skip, c);
  }

  /** What is left to search is the same from the child. */
  lemma SearchDownKeeps(g: Geometry, t: Tree, ptr: nat, i: nat, h: nat, skip: nat, c: nat)
    requires |t| == g.NodeCount() && Node(g, i, h) && h > 0 && i < |t| && t[i] != ptr && c < |t| && t[c] != NULL
    requires (c == Left(i) && skip < Left(i)) || (c == Right(i) && skip <= Left(i))
    requires c == Right(i) && skip < Left(i) ==> Left(i) < |t| && t[Left(i)] == NULL
    ensures Node(g, c, h - 1) && SearchFrom(g, t, c, h - 1, ptr, skip) == SearchFrom(g, t, i, h, ptr, skip)
  {
    hide Pow2, Depth, StepsLeft;
    Children(i);
    var l, r := SearchChild(g, t, Left(i), h - 1, ptr), SearchChild(g, t, Right(i), h - 1, ptr);
    assert Search(g, t, i, h, ptr) == OrElse(l, r);
    assert SearchAfter(g, t, Left(i), h - 1, ptr) == OrElse(r, SearchAfter(g, t, i, h, ptr));
    assert SearchAfter(g, t, Right(i), h - 1, ptr) == SearchAfter(g, t, i, h, ptr);
  }

  // ---------------------------------------------------------------- heap_stats

  function UsedAfter(g: Geometry, t: Tree, i: nat, h: nat): nat
    requires |t| == g.NodeCount() && Node(g, i, h)
    decreases i
  {
    if i == 0 then 0
    else if i == Left(Parent(i)) then
      Children(Parent(i));
      Used(g, t, Right(Parent(i)), h) + UsedAfter(g, t, Parent(i), h + 1)
    else UsedAfter(g, t, Parent(i), h + 1)
  }

  function UsedFrom(g: Geometry, t: Tree, i: nat, h: nat, skip: nat): nat
    requires |t| == g.NodeCount() && Node(g, i, h)
  {
    if skip < Left(i) then Used(g, t, i, h) + UsedAfter(g, t, i, h)
    else if skip == Left(i) && h > 0 then
      Children(i);
      Used(g, t, Right(i), h - 1) + UsedAfter(g, t, i, h)
    else UsedAfter(g, t, i, h)
  }

  /** heap_stats stands at the used node i (or the root) and has counted used bytes so far. */
  ghost predicate UsedWalk(g: Geometry, t: Tree, used: nat, i: nat, h: nat, skip: nat)
  {
    && WellFormed(g, t) && Node(g, i, h) && i < |t| && skip <= Right(i)
    && (skip >= Left(i) ==> !IsLeaf(t[i]) && h > 0)
    && (i > 0 ==> t[i] != NULL)
    && used + UsedFrom(g, t, i, h, skip) == Used(g, t, 0, g.levels)
  }

  /** Leaving an allocated node: its whole block is counted. */
  lemma UsedLeafUp(g: Geometry, t: Tree, used: nat, i: nat, h: nat, skip: nat)
    requires UsedWalk(g, t, used, i, h, skip) && IsLeaf(t[i])
    ensures i == 0 ==> used + g.Size(h) == Used(g, t, 0, g.levels)
    ensures i > 0 ==> UsedWalk(g, t, used + g.Size(h), Parent(i), h + 1, i) && !IsLeaf(t[Parent(i)])
    ensures i > 0 ==> StepsLeft(Parent(i), h + 1, i) < StepsLeft(i, h, skip)
  {
    UsedOfLeaf(g, t, i, h);
    if i > 0 {
      assert NodeOk(g, t, i);
      Children(Parent(i));
      UpTakesSteps(i, h, skip);
    }
  }

  lemma UsedUp(g: Geometry, t: Tree, used: nat, i: nat, h: nat, skip: nat)
    requires UsedWalk(g, t, used, i, h, skip) && !IsLeaf(t[i]) && SearchedOut(t, i, skip)
    ensures i == 0 ==> used == Used(g, t, 0, g.levels)
    ensures i > 0 ==> UsedWalk(g, t, used, Parent(i), h + 1, i)
    ensures i > 0 ==> StepsLeft(Parent(i), h + 1, i) < StepsLeft(i, h, skip)
  {
    UsedDone(g, t, i, h, skip);
    if i > 0 {
      assert NodeOk(g, t, i);
      Children(Parent(i));
      UpTakesSteps(i, h, skip);
    }
  }

  lemma UsedDone(g: Geometry, t: Tree, i: nat, h: nat, skip: nat)
    requires WellFormed(g, t) && Node(g, i, h) && i < |t| && skip <= Right(i) && (skip >= Left(i) ==> h > 0)
    requires !IsLeaf(t[i]) && SearchedOut(t, i, skip)
    ensures UsedFrom(g, t, i, h, skip) == UsedAfter(g, t, i, h)
  {
    hide Pow2, Depth, WellFormed;
    WellFormedShape(g, t);
    NodeBounds(g, i, h);
    if h > 0 {
      Children(i);
      if t[Left(i)] == NULL { UnusedIsEmpty(g, t, Left(i), h - 1); }
      if t[Right(i)] == NULL { UnusedIsEmpty(g, t, Right(i), h - 1); }
    }
  }

  lemma UsedDown(g: Geometry, t: Tree, used: nat, i: nat, h: nat, skip: nat, c: nat)
    requires UsedWalk(g, t, used, i, h, skip) && !IsLeaf(t[i]) && c < |t| && t[c] != NULL
    requires (c == Left(i) && skip < Left(i)) || (c == Right(i) && skip <= Left(i))
    requires c == Right(i) && skip < Left(i) ==> Left(i) < |t| && t[Left(i)] == NULL
    ensures h > 0 && UsedWalk(g, t, used, c, h - 1, skip) && g.Size(h) == 2 * g.Size(h - 1)
    ensures StepsLeft(c, h - 1, skip) < StepsLeft(i, h, skip)
  {
    hide Pow2, Depth;
    NodeBounds(g, i, h);
    Children(i);
    DownTakesSteps(i, h, skip);
    SizeHalves(g, h);
    if t[Left(i)] == NULL { UnusedIsEmpty(g, t, Left(i), h - 1); }
    assert UsedAfter(g, t, Left(i), h - 1) == Used(g, t, Right(i), h - 1) + UsedAfter(g, t, i, h);
    assert UsedAfter(g, t, Right(i), h - 1) == UsedAfter(g, t, i, h);
  }

  /** The state of heap_stats' loop, or its count. */
  datatype UsedState = Counting(i: nat, blockSize: nat, skip: nat, used: nat) | Counted(used: nat)

  /** The first half of a turn: count an allocated node and leave it. */
  function CountLeaf(t: Tree, s: UsedState): UsedState
    requires s.Counting? && s.i < |t|
  {
    if !IsLeaf(t[s.i]) then s
    else if s.i == 0 then Counted(s.used + s.blockSize)
    else Counting(Parent(s.i), 2 * s.blockSize, s.i, s.used + s.blockSize)
  }

  /** The second half: go up when both subtrees are done or unused, else down. */
  function CountMove(t: Tree, s: UsedState): UsedState
    requires s.Counting? && Right(s.i) < |t|
  {
    var left, right := Left(s.i), Right(s.i);
    if right == s.skip || ((t[left] == NULL || left == s.skip) && t[right] == NULL) then
      if s.i == 0 then Counted(s.used) else Counting(Parent(s.i), 2 * s.blockSize, s.i, s.used)
    else
      Counting(if t[left] == NULL || left == s.skip then right else left, s.blockSize / 2, s.skip, s.used)
  }

  ghost predicate UsedInv(g: Geometry, t: Tree, h: nat, s: UsedState)
  {
    match s
    case Counted(used) => |t| == g.NodeCount() && used == Used(g, t, 0, g.levels)
    case Counting(i, blockSize, skip, used) => blockSize == g.Size(h) && UsedWalk(g, t, used, i, h, skip)
  }

  function UsedMeasure(h: nat, s: UsedState): nat
  {
    if s.Counting? then 1 + StepsLeft(s.i, h, s.skip) else 0
  }

  lemma UsedStart(g: Geometry, t: Tree)
    requires WellFormed(g, t)
    ensures UsedInv(g, t, g.levels, Counting(0, g.HeapSize(), 0, 0))
  {
    WellFormedShape(g, t);
  }

  lemma UsedEnd(g: Geometry, t: Tree, h: nat, s: UsedState)
    requires UsedInv(g, t, h, s) && s.Counted?
    ensures |t| == g.NodeCount() && s.used == Used(g, t, 0, g.levels)
  {
  }

  lemma CountLeafKeeps(g: Geometry, t: Tree, h: nat, s: UsedState) returns (h': nat, n: UsedState)
    requires UsedInv(g, t, h, s) && s.Counting?
    ensures s.i < |t| && n == CountLeaf(t, s) && UsedInv(g, t, h', n)
    ensures n.Counting? ==> !IsLeaf(t[n.i])
    ensures UsedMeasure(h', n) <= UsedMeasure(h, s)
  {
    n, h' := CountLeaf(t, s), if IsLeaf(t[s.i]) then h + 1 else h;
    if IsLeaf(t[s.i]) {
      SizeDoubles(g, h);
      UsedLeafUp(g, t, s.used, s.i, h, s.skip);
    }
  }

  lemma CountMoveKeeps(g: Geometry, t: Tree, h: nat, s: UsedState) returns (h': nat, n: UsedState)
    requires UsedInv(g, t, h, s) && s.Counting? && s.i < |t| && !IsLeaf(t[s.i])
    ensures Right(s.i) < |t| && n == CountMove(t, s) && UsedInv(g, t, h', n)
    ensures UsedMeasure(h', n) < UsedMeasure(h, s)
  {
    hide Pow2, Used, UsedFrom, UsedAfter;
    assert NodeOk(g, t, s.i);
    NodeBounds(g, s.i, h);
    n := CountMove(t, s);
    if SearchedOut(t, s.i, s.skip) {
      SizeDoubles(g, h);
      UsedUp(g, t, s.used, s.i, h, s.skip);
      h' := h + 1;
    } else {
      UsedDown(g, t, s.used, s.i, h, s.skip, n.i);
      h' := h - 1;
    }
  }
}
