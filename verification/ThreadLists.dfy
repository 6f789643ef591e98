/** All thread lists of os/schedule.c over one set of TCBs: the rings, the sleep list and the blocked lists share
    the TCBs' links, so a TCB can be in one of them at a time. Changing one list leaves the others linked. */
module ThreadListsClass {
  import opened RingNodes
  import opened RingSeq
  import opened WaitQueue
  import opened SchedModel
  import opened ThreadNodes
  import opened ThreadRingClass
  import opened WaitListClass

  /** The list a TCB is in. */
  datatype Home = Limbo | Ring(p: nat) | Sleep | Block(sem: nat)

  /** The members of c are at home in h. */
  ghost predicate At(c: seq<Node<Info, Vars>>, h: Home, home: map<Node<Info, Vars>, Home>)
  {
    forall i :: 0 <= i < |c| ==> c[i] in home && home[c[i]] == h
  }

  /** The threads, and the lists as sequences. */
  datatype View = View(threads: map<Tid, Tcb>, rings: seq<seq<Tid>>, sleepers: seq<Waiter>, blocked: map<nat, seq<Waiter>>)

  lemma {:induction false} IndexOfId(c: seq<Node<Info, Vars>>, t: Node<Info, Vars>)
    requires t in c && forall n :: n in c && n.info.id == t.info.id ==> n == t
    ensures IndexOf(Ids(c), t.info.id) == IndexOf(c, t)
  {
    if c[0] != t {
      IndexOfId(c[1..], t);
    }
  }

  lemma IdsRemoved(c: seq<Node<Info, Vars>>, t: Node<Info, Vars>)
    requires t in c && forall n :: n in c && n.info.id == t.info.id ==> n == t
    ensures Ids(Removed(c, t)) == Removed(Ids(c), t.info.id)
  {
    hide Ids, IndexOf;
    var k := IndexOf(c, t);
    IndexOfId(c, t);
    assert Ids(c[k + 1..] + c[..k]) == Ids(c)[k + 1..] + Ids(c)[..k];
  }

  lemma RemovedAtHome(c: seq<Node<Info, Vars>>, t: Node<Info, Vars>, h: Home, home: map<Node<Info, Vars>, Home>)
    requires NoRepeats(c) && t in c && At(c, h, home)
    ensures At(Removed(c, t), h, home - {t})
  {
    RemovedNoRepeats(c, t);
    var r := Removed(c, t);
    forall i | 0 <= i < |r| ensures r[i] in home - {t} && (home - {t})[r[i]] == h {
      assert r[i] in c;
    }
  }

  lemma IdsPush(c: seq<Node<Info, Vars>>, t: Node<Info, Vars>)
    ensures Ids([t] + c) == [t.info.id] + Ids(c)
  {
    hide Ids;
  }

  lemma IdsRotate(c: seq<Node<Info, Vars>>)
    ensures Ids(Rotate(c)) == Rotate(Ids(c))
  {
    hide Ids;
  }

  lemma ValuesGrow<K, V>(m: map<K, V>, key: K, value: V)
    requires key !in m
    ensures m[key := value].Values == m.Values + {value}
  {
    var w := m[key := value];
    forall v | v in m.Values ensures v in w.Values {
      var k :| k in m && m[k] == v;
      assert w[k] == v;
    }
    assert w[key] == value;
  }

  class ThreadLists {
    const rings: seq<ThreadRing>
    const sleep: WaitList
    var semaphores: map<nat, WaitList>
    /** The TCBs in use, and where each is. */
    ghost var live: map<Tid, Node<Info, Vars>>
    ghost var home: map<Node<Info, Vars>, Home>

    /** The heads are different and set up, and homes and ids belong to TCBs in use. */
    ghost predicate Base()
      reads `semaphores, `live, `home
    {
      && |rings| == PRIORITY_LVL_CNT
      && (forall p, q :: 0 <= p < |rings| && 0 <= q < |rings| && p != q ==> rings[p] != rings[q])
      && sleep.byTick && sleep !in semaphores.Values
      && (forall a, b :: a in semaphores && b in semaphores && a != b ==> semaphores[a] != semaphores[b])
      && (forall sem :: sem in semaphores ==> !semaphores[sem].byTick)
      && (forall t :: t in live ==> live[t].info.id == t && live[t].info.priority < PRIORITY_LVL_CNT)
      && (forall n :: n in home ==> Live(n) && home[n] != Limbo)
    }

    ghost predicate Live(n: Node<Info, Vars>)
      reads `live
    {
      n.info.id in live && live[n.info.id] == n
    }

    ghost predicate Exists(h: Home)
      reads `semaphores
    {
      match h
      case Limbo => false
      case Ring(p) => p < |rings|
      case Sleep => true
      case Block(sem) => sem in semaphores
    }

    function Level(p: nat): ThreadRing
      requires p < |rings|
    {
      rings[p]
    }

    function Sema(sem: nat): WaitList
      requires sem in semaphores
      reads `semaphores
    {
      semaphores[sem]
    }

    ghost function RingsBut(h: Home): set<ThreadRing>
    {
      set p | 0 <= p < |rings| && Ring(p) != h :: rings[p]
    }

    ghost function WaitsBut(h: Home): set<WaitList>
      reads `semaphores
    {
      (if h == Sleep then {} else {sleep}) + set sem | sem in semaphores && Block(sem) != h :: semaphores[sem]
    }

    ghost function NodesBut(h: Home): set<Node<Info, Vars>>
      reads `home
    {
      set n | n in home && home[n] != h
    }

    /** Every list but h's is linked through TCBs that live there; rs, ws and ns hold what this depends on. */
    ghost predicate RestLinked(h: Home, home: map<Node<Info, Vars>, Home>, semaphores: map<nat, WaitList>,
            rs: set<ThreadRing>, ws: set<WaitList>, ns: set<Node<Info, Vars>>)
      reads rs`root, rs`Contents, ws`root, ws`Contents, ns`next, ns`prev
    {
      && (forall n :: n in home && home[n] != h ==> n in ns)
      && (forall p :: 0 <= p < |rings| && Ring(p) != h ==>
            rings[p] in rs && At(rings[p].Contents, Ring(p), home) && rings[p].Linked())
      && (h != Sleep ==> sleep in ws && At(sleep.Contents, Sleep, home) && sleep.Linked())
      && (forall sem :: sem in semaphores && Block(sem) != h ==>
            semaphores[sem] in ws && At(semaphores[sem].Contents, Block(sem), home) && semaphores[sem].Linked())
    }

    /** Every list is linked through the TCBs that live there. */
    ghost predicate Linked()
      reads this, rings, sleep, semaphores.Values, home.Keys`next, home.Keys`prev
    {
      Base() && RestLinked(Limbo, home, semaphores, RingsBut(Limbo), WaitsBut(Limbo), home.Keys)
    }

    ghost function Threads(): map<Tid, Tcb>
      reads `live, live.Values`item
    {
      map t | t in live :: Tcb(live[t].info.priority, live[t].item.state, live[t].item.resumeTick)
    }

    ghost function RingIds(): (r: seq<seq<Tid>>)
      requires |rings| == PRIORITY_LVL_CNT
      reads rings`Contents
      ensures |r| == |rings| && forall p :: 0 <= p < |rings| ==> r[p] == Ids(rings[p].Contents)
    {
      [Ids(rings[0].Contents), Ids(rings[1].Contents), Ids(rings[2].Contents), Ids(rings[3].Contents), Ids(rings[4].Contents)]
    }

    ghost function BlockedNodes(): set<Node<Info, Vars>>
      reads `semaphores, semaphores.Values`Contents
    {
      set sem, n | sem in semaphores && n in semaphores[sem].Contents :: n
    }

    ghost function BlockedQueues(): map<nat, seq<Waiter>>
      reads `semaphores, semaphores.Values`Contents, BlockedNodes()`item
    {
      map sem | sem in semaphores ::
        (assert forall n :: n in semaphores[sem].Contents ==> n in BlockedNodes(); semaphores[sem].Queue())
    }

    ghost function Abs(): (v: View)
      requires |rings| == PRIORITY_LVL_CNT
      ensures |v.rings| == PRIORITY_LVL_CNT
      reads `semaphores, `live, rings`Contents, sleep`Contents, sleep.Contents`item
      reads semaphores.Values`Contents, BlockedNodes()`item, live.Values`item
    {
      View(Threads(), RingIds(), sleep.Queue(), BlockedQueues())
    }

    lemma SplitRing(p: nat)
      requires Linked() && p < |rings|
      ensures RestLinked(Ring(p), home, semaphores, RingsBut(Ring(p)), WaitsBut(Ring(p)), NodesBut(Ring(p)))
      ensures At(rings[p].Contents, Ring(p), home) && rings[p].Linked() && rings[p] !in RingsBut(Ring(p))
      ensures forall i :: 0 <= i < |rings[p].Contents| ==> rings[p].Contents[i] !in NodesBut(Ring(p))
    {
      hide ThreadRing.Linked, WaitList.Linked;
    }

    /** A TCB that was in no list may have come to ring p. */
    lemma JoinRing(p: nat, was: map<Node<Info, Vars>, Home>, rs: set<ThreadRing>, ws: set<WaitList>, ns: set<Node<Info, Vars>>)
      requires Base() && p < |rings| && RestLinked(Ring(p), was, semaphores, rs, ws, ns)
      requires forall n :: n in was && was[n] != Ring(p) ==> n in home && home[n] == was[n]
      requires At(rings[p].Contents, Ring(p), home) && rings[p].Linked()
      ensures Linked()
    {
      hide ThreadRing.Linked, WaitList.Linked;
    }

    /** Five empty levels, nobody asleep, no semaphore. */
    constructor ()
      ensures Linked() && live == map[] && home == map[] && semaphores == map[]
      ensures |rings| == PRIORITY_LVL_CNT && fresh(Repr())
      ensures Abs() == View(map[], seq(PRIORITY_LVL_CNT, i => []), [], map[])
    {
      hide Closed, Chained, NoRepeats, RestLinked, RingIds;
      var rs := ThreadLists.NewRings();
      rings := rs;
      sleep := new WaitList(true);
      semaphores, live, home := map[], map[], map[];
      new;
      assert live.Values == {} && semaphores.Values == {};
      EmptyLinked();
    }

    static method NewRings() returns (rs: seq<ThreadRing>)
      ensures |rs| == PRIORITY_LVL_CNT && fresh(rs)
      ensures forall i :: 0 <= i < |rs| ==> rs[i].Contents == [] && rs[i].Linked()
      ensures forall i, j :: 0 <= i < |rs| && 0 <= j < |rs| && i != j ==> rs[i] != rs[j]
    {
      rs := [];
      while |rs| < PRIORITY_LVL_CNT
        invariant |rs| <= PRIORITY_LVL_CNT && fresh(rs)
        invariant forall i :: 0 <= i < |rs| ==> rs[i].Contents == [] && rs[i].Linked()
        invariant forall i, j :: 0 <= i < |rs| && 0 <= j < |rs| && i != j ==> rs[i] != rs[j]
      {
        var r := new ThreadRing();
        rs := rs + [r];
      }
    }

    lemma EmptyLinked()
      requires Base() && live == map[] && home == map[] && semaphores == map[]
      requires forall p :: 0 <= p < |rings| ==> rings[p].Contents == [] && rings[p].Linked()
      requires sleep.Contents == [] && sleep.Linked()
      ensures Linked() && Abs() == View(map[], seq(PRIORITY_LVL_CNT, i => []), [], map[])
    {
      hide ThreadRing.Linked, WaitList.Linked, RingIds;
      assert forall p :: 0 <= p < PRIORITY_LVL_CNT ==> RingIds()[p] == [];
    }

    /** A TCB that is in no list goes to the front of a ring. */
    method PushRing(p: nat, t: Node<Info, Vars>)
      requires Linked() && p < PRIORITY_LVL_CNT && Live(t) && t !in home
      modifies `home, Level(p)`root, Level(p)`Contents, t`next, t`prev, Level(p).Contents`next, Level(p).Contents`prev
      ensures Linked() && home == old(home)[t := Ring(p)]
      ensures Abs() == old(Abs()).(rings := old(Abs()).rings[p := [t.info.id] + old(Abs()).rings[p]])
    {
      hide Ids, Linked, ThreadRing.Linked, WaitList.Linked, WaitList.Queue;
      LinkedBase();
      IdsPush(rings[p].Contents, t);
      PushLinks(p, t);
      assert Threads() == old(Threads());
      assert sleep.Queue() == old(sleep.Queue());
      assert BlockedQueues() == old(BlockedQueues());
    }

    lemma LinkedBase()
      requires Linked()
      ensures Base()
    {
    }

    method PushLinks(p: nat, t: Node<Info, Vars>)
      requires Linked() && p < PRIORITY_LVL_CNT && Live(t) && t !in home
      modifies `home, Level(p)`root, Level(p)`Contents, t`next, t`prev, Level(p).Contents`next, Level(p).Contents`prev
      ensures Linked() && home == old(home)[t := Ring(p)]
      ensures Level(p).Contents == [t] + old(Level(p).Contents)
    {
      hide Ids, RestLinked, ThreadRing.Linked;
      SplitRing(p);
      ghost var was, rs, ws, ns := home, RingsBut(Ring(p)), WaitsBut(Ring(p)), NodesBut(Ring(p));
      assert t !in ns;
      hide RingsBut, WaitsBut, NodesBut;
      rings[p].PushFront(t);
      home := home[t := Ring(p)];
      JoinRing(p, was, rs, ws, ns);
    }

    /** A member leaves its ring, given whether the level's counters are both zero. */
    method RemoveRing(p: nat, t: Node<Info, Vars>, countersZero: bool)
      requires Linked() && p < PRIORITY_LVL_CNT && t in Level(p).Contents && (countersZero ==> |Level(p).Contents| == 1)
      modifies `home, Level(p)`root, Level(p)`Contents, Level(p).Contents`next, Level(p).Contents`prev
      ensures t.next == null
      ensures countersZero || |old(Level(p).Contents)| > 1 ==>
                && Linked() && home == old(home) - {t}
                && Abs() == old(Abs()).(rings := old(Abs()).rings[p := Removed(old(Abs()).rings[p], t.info.id)])
      ensures !countersZero && |old(Level(p).Contents)| == 1 ==> !Linked() && rings[p].root == t
    {
      hide Ids, Linked, ThreadRing.Linked, WaitList.Linked, WaitList.Queue, RingIds, Removed;
      LinkedBase();
      MemberIds(p);
      IdsRemoved(rings[p].Contents, t);
      RemoveLinks(p, t, countersZero);
      if countersZero || |old(Level(p).Contents)| > 1 {
        LinkedBase();
        assert Threads() == old(Threads());
        assert sleep.Queue() == old(sleep.Queue());
        assert BlockedQueues() == old(BlockedQueues());
      }
    }

    /** A TCB is told by its id. */
    lemma MemberIds(p: nat)
      requires Linked() && p < |rings|
      ensures forall n, m :: n in rings[p].Contents && m in rings[p].Contents && n.info.id == m.info.id ==> n == m
    {
      hide ThreadRing.Linked, WaitList.Linked;
      assert forall n :: n in rings[p].Contents ==> Live(n);
    }

    method RemoveLinks(p: nat, t: Node<Info, Vars>, countersZero: bool)
      requires Linked() && p < PRIORITY_LVL_CNT && t in Level(p).Contents && (countersZero ==> |Level(p).Contents| == 1)
      modifies `home, Level(p)`root, Level(p)`Contents, Level(p).Contents`next, Level(p).Contents`prev
      ensures t.next == null
      ensures countersZero || |old(Level(p).Contents)| > 1 ==>
                Linked() && home == old(home) - {t} && Level(p).Contents == Removed(old(Level(p).Contents), t)
      ensures !countersZero && |old(Level(p).Contents)| == 1 ==> !Linked() && rings[p].root == t
    {
      hide Ids, RestLinked, ThreadRing.Linked, Removed, NoRepeats;
      SplitRing(p);
      ghost var was, rs, ws, ns := home, RingsBut(Ring(p)), WaitsBut(Ring(p)), NodesBut(Ring(p));
      hide RingsBut, WaitsBut, NodesBut;
      RingNoRepeats(rings[p]);
      RemovedAtHome(rings[p].Contents, t, Ring(p), home);
      rings[p].Remove(t, countersZero);
      if countersZero || |old(Level(p).Contents)| > 1 {
        home := home - {t};
        JoinRing(p, was, rs, ws, ns);
      } else {
        NotLinked(p);
      }
    }

    lemma RingNoRepeats(r: ThreadRing)
      requires r.Linked()
      ensures NoRepeats(r.Contents)
    {
    }

    lemma NotLinked(p: nat)
      requires p < |rings| && !rings[p].Linked()
      ensures !Linked()
    {
    }

    /** The root of a ring moves on. */
    method AdvanceRing(p: nat)
      requires Linked() && p < PRIORITY_LVL_CNT && Level(p).root != null
      modifies Level(p)`root, Level(p)`Contents
      ensures Linked() && rings[p].root == old(rings[p].root.next)
      ensures Abs() == old(Abs()).(rings := old(Abs()).rings[p := Rotate(old(Abs()).rings[p])])
    {
      hide Ids, RestLinked, ThreadRing.Linked, WaitList.Linked, WaitList.Queue, RingIds;
      SplitRing(p);
      ghost var rs, ws, ns := RingsBut(Ring(p)), WaitsBut(Ring(p)), NodesBut(Ring(p));
      IdsRotate(rings[p].Contents);
      rings[p].Advance();
      JoinRing(p, home, rs, ws, ns);
    }

    ghost predicate IsWait(w: WaitList, h: Home)
      reads `semaphores
    {
      match h
      case Sleep => w == sleep
      case Block(sem) => sem in semaphores && w == semaphores[sem]
      case _ => false
    }

    lemma SplitWait(w: WaitList, h: Home)
      requires Linked() && IsWait(w, h)
      ensures RestLinked(h, home, semaphores, RingsBut(h), WaitsBut(h), NodesBut(h))
      ensures At(w.Contents, h, home) && w.Linked() && w !in WaitsBut(h)
      ensures forall i :: 0 <= i < |w.Contents| ==> w.Contents[i] !in NodesBut(h)
    {
      hide ThreadRing.Linked, WaitList.Linked;
    }

    lemma JoinWait(w: WaitList, h: Home, was: map<Node<Info, Vars>, Home>, rs: set<ThreadRing>, ws: set<WaitList>, ns: set<Node<Info, Vars>>)
      requires Base() && IsWait(w, h) && RestLinked(h, was, semaphores, rs, ws, ns)
      requires forall n :: n in was && was[n] != h ==> n in home && home[n] == was[n]
      requires At(w.Contents, h, home) && w.Linked()
      ensures Linked()
    {
      hide ThreadRing.Linked, WaitList.Linked;
    }

    /** A TCB that is in no list joins a waiting list in order. */
    method InsertLinks(w: WaitList, ghost h: Home, t: Node<Info, Vars>)
      requires Linked() && IsWait(w, h) && Live(t) && t !in home && t.next == null
      modifies `home, w`root, w`Contents, t`next, w.Contents`next
      ensures Linked() && home == old(home)[t := h]
      ensures w.Queue() == Insert(old(w.Queue()), WaiterOf(t, w.byTick))
    {
      hide RestLinked, WaitList.Linked, WaitList.Queue, Insert;
      SplitWait(w, h);
      ghost var was, rs, ws, ns := home, RingsBut(h), WaitsBut(h), NodesBut(h);
      assert t !in ns;
      hide RingsBut, WaitsBut, NodesBut;
      w.InsertNode(t);
      home := home[t := h];
      AtMembers(w.Contents, h);
      JoinWait(w, h, was, rs, ws, ns);
    }

    lemma AtMembers(c: seq<Node<Info, Vars>>, h: Home)
      requires forall n :: n in c ==> n in home && home[n] == h
      ensures At(c, h, home)
    {
    }

    /** The head of a waiting list leaves it. */
    method TakeLinks(w: WaitList, ghost h: Home) returns (t: Node<Info, Vars>)
      requires Linked() && IsWait(w, h) && w.root != null
      modifies `home, w`root, w`Contents
      ensures Linked() && home == old(home) - {t} && t == old(w.root) && t in old(home) && old(home)[t] == h && Live(t)
      ensures [WaiterOf(t, w.byTick)] + w.Queue() == old(w.Queue())
    {
      hide RestLinked, WaitList.Linked, WaitList.Queue;
      SplitWait(w, h);
      ghost var was, rs, ws, ns := home, RingsBut(h), WaitsBut(h), NodesBut(h);
      hide RingsBut, WaitsBut, NodesBut;
      t := w.RemoveHead();
      home := home - {t};
      assert old(w.Contents) == [t] + w.Contents;
      assert t == old(w.Contents)[0] && forall i :: 0 <= i < |w.Contents| ==> w.Contents[i] == old(w.Contents)[i + 1];
      JoinWait(w, h, was, rs, ws, ns);
    }

    /** A TCB that is in no list joins the sleep list in order of its tick. */
    method InsertSleeping(t: Node<Info, Vars>)
      requires Linked() && Live(t) && t !in home && t.next == null
      modifies `home, sleep`root, sleep`Contents, t`next, sleep.Contents`next
      ensures Linked() && home == old(home)[t := Sleep]
      ensures Abs() == old(Abs()).(sleepers := Insert(old(Abs()).sleepers, Waiter(t.info.id, t.item.resumeTick, t.item.since)))
    {
      hide Linked, WaitList.Linked, WaitList.Queue, Insert, RingIds;
      LinkedBase();
      InsertLinks(sleep, Sleep, t);
      LinkedBase();
      assert Threads() == old(Threads());
      assert RingIds() == old(RingIds());
      assert BlockedQueues() == old(BlockedQueues());
    }

    /** A TCB that is in no list joins a semaphore's list in order of its priority. */
    method InsertBlocked(sem: nat, t: Node<Info, Vars>)
      requires Linked() && sem in semaphores && Live(t) && t !in home && t.next == null
      modifies `home, Sema(sem)`root, Sema(sem)`Contents, t`next, Sema(sem).Contents`next
      ensures Linked() && home == old(home)[t := Block(sem)]
      ensures sem in old(Abs()).blocked
      ensures Abs() == old(Abs()).(blocked := old(Abs()).blocked[sem :=
                         Insert(old(Abs()).blocked[sem], Waiter(t.info.id, t.info.priority, t.item.since))])
    {
      hide Linked, WaitList.Linked, WaitList.Queue, Insert, RingIds;
      LinkedBase();
      InsertLinks(semaphores[sem], Block(sem), t);
      LinkedBase();
      assert Threads() == old(Threads());
      assert RingIds() == old(RingIds());
      assert sleep.Queue() == old(sleep.Queue());
      assert BlockedQueues() == old(BlockedQueues())[sem := Sema(sem).Queue()];
    }

    /** The first sleeper leaves the list. */
    method TakeSleeper() returns (t: Node<Info, Vars>)
      requires Linked() && sleep.root != null
      modifies Repr()
      ensures live == old(live) && semaphores == old(semaphores) && Repr() == old(Repr())
      ensures Linked() && t in old(home) && home == old(home) - {t} && Live(t)
      ensures old(Abs()).sleepers != [] && old(Abs()).sleepers[0] == Waiter(t.info.id, t.item.resumeTick, t.item.since)
      ensures Abs() == old(Abs()).(sleepers := old(Abs()).sleepers[1..])
    {
      hide Linked, WaitList.Linked, WaitList.Queue, RingIds;
      LinkedBase();
      t := TakeLinks(sleep, Sleep);
      LinkedBase();
      assert Threads() == old(Threads());
      assert RingIds() == old(RingIds());
      assert BlockedQueues() == old(BlockedQueues());
    }

    /** The first thread blocked on a semaphore leaves its list. */
    method TakeBlocked(sem: nat) returns (t: Node<Info, Vars>)
      requires Linked() && sem in semaphores && Sema(sem).root != null
      modifies Repr()
      ensures live == old(live) && semaphores == old(semaphores) && Repr() == old(Repr())
      ensures Linked() && t in old(home) && home == old(home) - {t} && Live(t)
      ensures sem in old(Abs()).blocked && old(Abs()).blocked[sem] != []
      ensures old(Abs()).blocked[sem][0] == Waiter(t.info.id, t.info.priority, t.item.since)
      ensures Abs() == old(Abs()).(blocked := old(Abs()).blocked[sem := old(Abs()).blocked[sem][1..]])
    {
      hide Linked, WaitList.Linked, WaitList.Queue, RingIds;
      LinkedBase();
      t := TakeLinks(semaphores[sem], Block(sem));
      LinkedBase();
      assert Threads() == old(Threads());
      assert RingIds() == old(RingIds());
      assert sleep.Queue() == old(sleep.Queue());
      assert BlockedQueues() == old(BlockedQueues())[sem := Sema(sem).Queue()];
    }

    /** A TCB that waits in no list changes. */
    method SetVars(t: Node<Info, Vars>, vars: Vars)
      requires Linked() && Live(t) && (t in home ==> home[t].Ring?)
      modifies t`item
      ensures Linked() && t.item == vars
      ensures Abs() == old(Abs()).(threads := old(Abs()).threads[t.info.id := Tcb(t.info.priority, vars.state, vars.resumeTick)])
    {
      hide RestLinked, Values, RingIds;
      NotWaiting(t);
      t.item := vars;
      assert Threads() == old(Threads())[t.info.id := Tcb(t.info.priority, vars.state, vars.resumeTick)];
      assert RingIds() == old(RingIds());
      assert sleep.Queue() == old(sleep.Queue());
      assert BlockedQueues() == old(BlockedQueues());
    }

    lemma NotWaiting(t: Node<Info, Vars>)
      requires Linked() && (t in home ==> home[t].Ring?)
      ensures forall i :: 0 <= i < |sleep.Contents| ==> sleep.Contents[i] != t
      ensures forall sem, i :: sem in semaphores && 0 <= i < |semaphores[sem].Contents| ==> semaphores[sem].Contents[i] != t
    {
      hide ThreadRing.Linked, WaitList.Linked;
    }

    /** A new TCB, in no list yet. */
    method Add(t: Node<Info, Vars>)
      requires Linked() && t.info.id !in live && t.info.priority < PRIORITY_LVL_CNT
      modifies Repr()
      ensures Linked() && live == old(live)[t.info.id := t] && t !in home && home == old(home) && semaphores == old(semaphores) && Repr() == old(Repr()) + {t}
      ensures Abs() == old(Abs()).(threads := old(Abs()).threads[t.info.id := Tcb(t.info.priority, t.item.state, t.item.resumeTick)])
    {
      hide Linked, WaitList.Queue, RingIds;
      LinkedBase();
      ValuesGrow(live, t.info.id, t);
      AddLinks(t);
      assert BlockedQueues() == old(BlockedQueues());
    }

    ghost method AddLinks(t: Node<Info, Vars>)
      requires Linked() && t.info.id !in live && t.info.priority < PRIORITY_LVL_CNT
      modifies `live
      ensures Linked() && live == old(live)[t.info.id := t] && t !in home
    {
      hide RestLinked;
      live := live[t.info.id := t];
    }

    /** malloc and the setting up of a new TCB. */
    method Create(id: Tid, priority: nat) returns (t: Node<Info, Vars>)
      requires Linked() && id !in live && priority < PRIORITY_LVL_CNT
      modifies Repr()
      ensures fresh(t) && t.info == Info(id, priority)
      ensures Linked() && live == old(live)[id := t] && t !in home && home == old(home) && semaphores == old(semaphores)
      ensures Repr() == old(Repr()) + {t}
      ensures Abs() == old(Abs()).(threads := old(Abs()).threads[id := Tcb(priority, ACTIVE, 0)])
    {
      hide Linked, Abs, RingIds, WaitList.Queue;
      t := NewTcb(id, priority);
      Add(t);
    }

    method NewTcb(id: Tid, priority: nat) returns (t: Node<Info, Vars>)
      requires Linked()
      ensures fresh(t) && t.info == Info(id, priority) && t.item == Vars(ACTIVE, 0, 0)
      ensures Linked() && Abs() == old(Abs())
    {
      hide RestLinked, RingIds, WaitList.Queue;
      t := new Node(Info(id, priority), Vars(ACTIVE, 0, 0));
      assert BlockedQueues() == old(BlockedQueues());
    }

    /** A TCB in no list is freed. */
    method Forget(t: Node<Info, Vars>)
      requires Linked() && Live(t) && t !in home
      modifies Repr()
      ensures Linked() && live == old(live) - {t.info.id} && home == old(home) && semaphores == old(semaphores) && Repr() <= old(Repr())
      ensures Abs() == old(Abs()).(threads := old(Abs()).threads - {t.info.id})
    {
      hide RestLinked, WaitList.Queue, RingIds;
      live := live - {t.info.id};
      assert BlockedQueues() == old(BlockedQueues());
    }

    /** init_semaphore: nobody is blocked on it yet. */
    method AddSemaphore(sem: nat)
      requires Linked() && sem !in semaphores
      modifies Repr()
      ensures Linked() && sem in semaphores && fresh(semaphores[sem]) && semaphores == old(semaphores)[sem := semaphores[sem]]
      ensures live == old(live) && Repr() == old(Repr()) + {semaphores[sem]}
      ensures Abs() == old(Abs()).(blocked := old(Abs()).blocked[sem := []])
    {
      hide Linked, WaitList.Queue, RingIds;
      LinkedBase();
      LinkSemaphore(sem);
      ValuesGrow(old(semaphores), sem, semaphores[sem]);
      assert RingIds() == old(RingIds()) && sleep.Queue() == old(sleep.Queue());
      assert BlockedQueues() == old(BlockedQueues())[sem := []];
    }

    lemma SemaphoreOwned(sem: nat)
      requires sem in semaphores
      ensures semaphores[sem] in Repr()
    {
    }

    /** init_semaphore again, while nobody is blocked. */
    method ClearRoot(sem: nat)
      requires Linked() && sem in semaphores && Sema(sem).root == null
      modifies Sema(sem)`root
      ensures Linked() && Abs() == old(Abs())
    {
      hide RestLinked, ThreadRing.Linked, WaitList.Queue, Values, RingIds, Threads;
      ghost var w := semaphores[sem];
      SplitWait(w, Block(sem));
      ghost var rs, ws, ns := RingsBut(Block(sem)), WaitsBut(Block(sem)), NodesBut(Block(sem));
      hide RingsBut, WaitsBut, NodesBut;
      semaphores[sem].root := null;
      JoinWait(w, Block(sem), home, rs, ws, ns);
      assert BlockedQueues() == old(BlockedQueues());
    }

    method LinkSemaphore(sem: nat)
      requires Linked() && sem !in semaphores
      modifies `semaphores
      ensures Linked() && sem in semaphores && fresh(semaphores[sem]) && semaphores == old(semaphores)[sem := semaphores[sem]]
      ensures semaphores[sem].Queue() == []
    {
      hide RestLinked, WaitList.Linked, WaitList.Queue;
      ghost var was, ws := semaphores, WaitsBut(Limbo);
      var w := new WaitList(false);
      ValuesNone(w);
      assert RestLinked(Limbo, home, was, RingsBut(Limbo), ws, home.Keys);
      semaphores := semaphores[sem := w];
      JoinSemaphore(was, sem, ws);
    }

    lemma ValuesNone(w: WaitList)
      requires w.Contents == []
      ensures w.Queue() == []
    {
    }

    lemma JoinSemaphore(was: map<nat, WaitList>, sem: nat, ws: set<WaitList>)
      requires Base() && sem in semaphores && sem !in was && semaphores == was[sem := semaphores[sem]]
      requires RestLinked(Limbo, home, was, RingsBut(Limbo), ws, home.Keys)
      requires Sema(sem).Contents == [] && Sema(sem).Linked()
      ensures Linked()
    {
      hide ThreadRing.Linked, WaitList.Linked;
    }

    /** Rings, sleep list and blocked lists are pairwise disjoint. */
    lemma ListsDisjoint(h: Home, k: Home)
      requires Linked() && Exists(h) && Exists(k) && h != k
      ensures forall n :: n in Members(h) ==> n !in Members(k)
    {
      hide ThreadRing.Linked, WaitList.Linked;
      assert At(Members(h), h, home) && At(Members(k), k, home);
    }

    /** The TCBs of a list, in its order. */
    ghost function Members(h: Home): seq<Node<Info, Vars>>
      requires Exists(h)
      reads `semaphores, rings`Contents, sleep`Contents, semaphores.Values`Contents
    {
      match h
      case Ring(p) => rings[p].Contents
      case Sleep => sleep.Contents
      case Block(sem) => semaphores[sem].Contents
    }

    /** What a TCB in use says about the threads. */
    lemma TcbOf(t: Node<Info, Vars>)
      requires |rings| == PRIORITY_LVL_CNT && Live(t)
      ensures t.info.id in Abs().threads && Abs().threads[t.info.id] == Tcb(t.info.priority, t.item.state, t.item.resumeTick)
    {
    }

    lemma BlockedKeys()
      requires |rings| == PRIORITY_LVL_CNT
      ensures Abs().blocked.Keys == semaphores.Keys
    {
    }

    /** An id on a ring is that of a member. */
    lemma RingMember(p: nat, t: Node<Info, Vars>)
      requires Linked() && p < |rings| && Live(t) && t.info.id in Abs().rings[p]
      ensures t in rings[p].Contents
    {
      hide ThreadRing.Linked, WaitList.Linked, RingIds;
      var i :| 0 <= i < |rings[p].Contents| && Abs().rings[p][i] == t.info.id;
      assert Live(rings[p].Contents[i]);
    }

    lemma RingHome(p: nat, t: Node<Info, Vars>)
      requires Linked() && p < |rings| && Live(t) && t.info.id in Abs().rings[p]
      ensures t in home && home[t] == Ring(p)
    {
      hide ThreadRing.Linked, WaitList.Linked, RingIds;
      RingMember(p, t);
    }

    /** The root of a ring and the TCB after it. */
    lemma RootOf(p: nat)
      requires Linked() && p < |rings| && Abs().rings[p] != []
      ensures var root := rings[p].root;
              && root != null && Live(root) && root.info.id == Abs().rings[p][0] && root in home && home[root] == Ring(p)
              && root.next != null && Live(root.next) && root.next.info.id == Rotate(Abs().rings[p])[0]
              && root.next in home && home[root.next] == Ring(p)
    {
      hide ThreadRing.Linked, WaitList.Linked, RingIds;
      var c := rings[p].Contents;
      rings[p].NextOfRoot();
      assert Live(c[0]) && Live(Rotate(c)[0]);
    }

    ghost function Repr(): set<object>
      reads this
    {
      {this, sleep} + (set r | r in rings) + semaphores.Values + live.Values
    }

    /** The TCBs of every list are in use. */
    lemma Footprint()
      requires Linked()
      ensures home.Keys <= live.Values
      ensures forall p, i :: 0 <= p < |rings| && 0 <= i < |rings[p].Contents| ==> rings[p].Contents[i] in live.Values
      ensures forall i :: 0 <= i < |sleep.Contents| ==> sleep.Contents[i] in live.Values
      ensures forall sem, i :: sem in semaphores && 0 <= i < |semaphores[sem].Contents| ==> semaphores[sem].Contents[i] in live.Values
    {
      hide ThreadRing.Linked, WaitList.Linked;
      forall n | n in home ensures n in live.Values { assert Live(n) && live[n.info.id] == n; }
    }

    /** The lists' part of enqueue_thread. */
    method Enqueue(t: Node<Info, Vars>)
      requires Linked() && Live(t) && t !in home
      modifies Repr()
      ensures Linked() && live == old(live) && semaphores == old(semaphores) && home == old(home)[t := Ring(t.info.priority)]
      ensures Repr() == old(Repr())
      ensures var v := old(Abs()); var p := t.info.priority;
              && p < |v.rings| && t.info.id in v.threads && v.threads[t.info.id].priority == p
              && Abs() == v.(threads := v.threads[t.info.id := v.threads[t.info.id].(state := ACTIVE)],
                             rings := v.rings[p := [t.info.id] + v.rings[p]])
    {
      hide Linked, Abs;
      LinkedBase();
      Footprint();
      TcbOf(t);
      PushRing(t.info.priority, t);
      SetVars(t, t.item.(state := ACTIVE));
    }

    /** The lists' part of dequeue_thread, given whether the level's counters are both zero. */
    method Dequeue(t: Node<Info, Vars>, countersZero: bool)
      requires Linked() && Live(t) && t in Level(t.info.priority).Contents
      requires countersZero ==> |Level(t.info.priority).Contents| == 1
      modifies Repr()
      ensures t.next == null && t.item == old(t.item)
      ensures live == old(live) && semaphores == old(semaphores) && Repr() == old(Repr())
      ensures countersZero || |old(Level(t.info.priority).Contents)| > 1 ==>
                && Linked() && home == old(home) - {t}
                && var v := old(Abs()); var p := t.info.priority;
                   p < |v.rings| && Abs() == v.(rings := v.rings[p := Removed(v.rings[p], t.info.id)])
      ensures !countersZero && |old(Level(t.info.priority).Contents)| == 1 ==> !Linked() && Level(t.info.priority).root == t
    {
      hide Linked, Abs;
      LinkedBase();
      Footprint();
      RemoveRing(t.info.priority, t, countersZero);
    }

    /** A TCB that waits in no list changes its state. */
    method SetState(t: Node<Info, Vars>, state: ThreadState)
      requires Linked() && Live(t) && (t in home ==> home[t].Ring?)
      modifies Repr()
      ensures Linked() && live == old(live) && semaphores == old(semaphores) && home == old(home) && Repr() == old(Repr())
      ensures t.item == old(t.item).(state := state)
      ensures var v := old(Abs());
              && t.info.id in v.threads && v.threads[t.info.id].priority == t.info.priority && v.threads[t.info.id].state == old(t.item.state)
              && Abs() == v.(threads := v.threads[t.info.id := v.threads[t.info.id].(state := state)])
    {
      hide Linked, Abs;
      LinkedBase();
      TcbOf(t);
      SetVars(t, t.item.(state := state));
    }

    /** Its resume_tick. */
    method SetTick(t: Node<Info, Vars>, tick: nat)
      requires Linked() && Live(t) && (t in home ==> home[t].Ring?)
      modifies Repr()
      ensures Linked() && live == old(live) && semaphores == old(semaphores) && home == old(home) && Repr() == old(Repr())
      ensures t.item == old(t.item).(resumeTick := tick) && forall p :: 0 <= p < |rings| ==> rings[p].Contents == old(rings[p].Contents)
      ensures var v := old(Abs());
              && t.info.id in v.threads && v.threads[t.info.id].priority == t.info.priority && v.threads[t.info.id].state == old(t.item.state)
              && Abs() == v.(threads := v.threads[t.info.id := v.threads[t.info.id].(resumeTick := tick)])
    {
      hide Linked, Abs;
      LinkedBase();
      TcbOf(t);
      SetVars(t, t.item.(resumeTick := tick));
    }

    /** The root of a level moves on. */
    method Advance(p: nat)
      requires Linked() && p < |rings| && rings[p].root != null
      modifies Repr()
      ensures Linked() && live == old(live) && semaphores == old(semaphores) && home == old(home) && Repr() == old(Repr())
      ensures Abs() == old(Abs()).(rings := old(Abs()).rings[p := Rotate(old(Abs()).rings[p])])
    {
      hide Linked, Abs;
      LinkedBase();
      AdvanceRing(p);
    }

    /** The lists' part of sched_block after dequeue_thread. */
    method Park(sem: nat, t: Node<Info, Vars>, since: nat)
      requires Linked() && sem in semaphores && Live(t) && t !in home && t.next == null
      modifies Repr()
      ensures Linked() && live == old(live) && semaphores == old(semaphores) && Repr() == old(Repr())
      ensures var v := old(Abs()); var id := t.info.id;
              && id in v.threads && v.threads[id].priority == t.info.priority && sem in v.blocked
              && Abs() == v.(threads := v.threads[id := v.threads[id].(state := BLOCKED(sem))],
                             blocked := v.blocked[sem := Insert(v.blocked[sem], Waiter(id, t.info.priority, since))])
    {
      hide Linked, Abs, Insert;
      LinkedBase();
      Footprint();
      TcbOf(t);
      SetVars(t, Vars(BLOCKED(sem), t.item.resumeTick, since));
      InsertBlocked(sem, t);
    }

    /** The lists' part of sleep after dequeue_thread. */
    method PutToSleep(t: Node<Info, Vars>, since: nat)
      requires Linked() && Live(t) && t !in home && t.next == null
      modifies Repr()
      ensures Linked() && live == old(live) && semaphores == old(semaphores) && Repr() == old(Repr())
      ensures var v := old(Abs()); var id := t.info.id;
              && id in v.threads && v.threads[id].resumeTick == old(t.item.resumeTick)
              && Abs() == v.(threads := v.threads[id := v.threads[id].(state := SLEEPING)],
                             sleepers := Insert(v.sleepers, Waiter(id, old(t.item.resumeTick), since)))
    {
      hide Linked, Abs, Insert;
      LinkedBase();
      Footprint();
      TcbOf(t);
      SetVars(t, Vars(SLEEPING, t.item.resumeTick, since));
      InsertSleeping(t);
    }

    /** The heads of the waiting lists. */
    lemma HeadOf(w: WaitList, h: Home)
      requires Linked() && IsWait(w, h)
      ensures w.root == null <==> w.Queue() == []
      ensures w.root != null ==> Live(w.root) && w.Queue()[0] == WaiterOf(w.root, w.byTick)
    {
      hide WaitList.Linked;
      SplitWait(w, h);
      RootIsFirst(w);
      if w.Contents != [] { assert Live(w.Contents[0]); }
    }

    lemma RootIsFirst(w: WaitList)
      requires w.Linked()
      ensures w.root == if w.Contents == [] then null else w.Contents[0]
    {
    }

    /** A list has a TCB iff its sequence has the TCB's id. */
    lemma MemberIffId(h: Home, t: Node<Info, Vars>)
      requires Linked() && Exists(h) && Live(t)
      ensures match h
              case Ring(p) => p < |rings| && (t in Members(h) <==> t.info.id in Abs().rings[p])
              case Sleep => t in Members(h) <==> Waits(Abs().sleepers, t.info.id)
              case Block(sem) => sem in Abs().blocked && (t in Members(h) <==> Waits(Abs().blocked[sem], t.info.id))
              case Limbo => false
    {
      hide ThreadRing.Linked, WaitList.Linked, RingIds;
      match h
      case Ring(p) =>
        if t.info.id in Abs().rings[p] { RingMember(p, t); }
        if t in Members(h) {
          var i :| 0 <= i < |Members(h)| && Members(h)[i] == t;
          assert Abs().rings[p][i] == t.info.id;
        }
      case Sleep => WaiterIffId(sleep, h, t);
      case Block(sem) => WaiterIffId(semaphores[sem], h, t);
    }

    lemma WaiterIffId(w: WaitList, h: Home, t: Node<Info, Vars>)
      requires Linked() && IsWait(w, h) && Live(t)
      ensures t in w.Contents <==> Waits(w.Queue(), t.info.id)
    {
      hide ThreadRing.Linked, WaitList.Linked;
      if Waits(w.Queue(), t.info.id) {
        var i :| 0 <= i < |w.Queue()| && w.Queue()[i].id == t.info.id;
        SplitWait(w, h);
        assert Live(w.Contents[i]) && w.Contents[i] == t;
      }
      if t in w.Contents {
        var i :| 0 <= i < |w.Contents| && w.Contents[i] == t;
        assert w.Queue()[i].id == t.info.id;
      }
    }
  }
}
