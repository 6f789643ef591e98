/** fifo_put and fifo_get as calls: which value each one carries, over any interleaving, and what one does that
    nobody interrupts. */
module FifoCalls {
  import opened Options
  import opened SlotRing
  import opened BoundedFifo

  // ---------------------------------------------------------------- each call carries its own value

  /** The value a putter has not stored for good yet. */
  function Carried(pc: Pc): multiset<nat>
  {
    match pc
    case PutMutex(x) => multiset{x}
    case PutStore(x) => multiset{x}
    case PutAdvance(x) => multiset{x}
    case _ => multiset{}
  }

  function AllCarried(pcs: seq<Pc>): multiset<nat>
  {
    if pcs == [] then multiset{} else Carried(pcs[0]) + AllCarried(pcs[1..])
  }

  /** Sums of multisets, element by element. */
  lemma Sums(a: multiset<nat>, b: multiset<nat>, x: multiset<nat>, y: multiset<nat>, c: multiset<nat>)
    requires a + x == b + y
    ensures (c + a) + x == (c + b) + y
  {
    forall n: nat ensures ((c + a) + x)[n] == ((c + b) + y)[n] { assert (a + x)[n] == (b + y)[n]; }
  }

  lemma Cancels(a: multiset<nat>, b: multiset<nat>, x: multiset<nat>)
    requires a + x == b + x
    ensures a == b
  {
    forall n: nat ensures a[n] == b[n] { assert (a + x)[n] == (b + x)[n]; }
  }

  lemma Passes(sent: multiset<nat>, a: multiset<nat>, b: multiset<nat>, x: multiset<nat>)
    requires a + x == b
    ensures (sent + x) + a == sent + b
  {
    forall n: nat ensures ((sent + x) + a)[n] == (sent + b)[n] { assert (a + x)[n] == b[n]; }
  }

  lemma {:induction false} CarriedMove(pcs: seq<Pc>, t: nat, pc: Pc)
    requires t < |pcs|
    ensures AllCarried(pcs[t := pc]) + Carried(pcs[t]) == AllCarried(pcs) + Carried(pc)
  {
    hide Carried;
    if t > 0 {
      CarriedMove(pcs[1..], t - 1, pc);
      assert pcs[t := pc][1..] == pcs[1..][t - 1 := pc];
      Sums(AllCarried(pcs[t := pc][1..]), AllCarried(pcs[1..]), Carried(pcs[t]), Carried(pc), Carried(pcs[0]));
    } else {
      assert pcs[t := pc][1..] == pcs[1..];
    }
  }

  lemma {:induction false} NothingCarried(threads: nat)
    ensures AllCarried(seq(threads, i => Outside)) == multiset{}
  {
    if threads > 0 {
      NothingCarried(threads - 1);
      assert seq(threads, i => Outside)[1..] == seq(threads - 1, i => Outside);
    }
  }

  /** The event is a thread outside that calls fifo_put. */
  predicate StartsPut(s: State, e: Event)
  {
    e.thread < |s.pcs| && s.pcs[e.thread] == Outside && e.call.Put?
  }

  /** The values that fifo_put was called with in a run, by all threads. */
  ghost function Given(s: State, run: seq<Event>): multiset<nat>
  {
    if run == [] then multiset{}
    else
      var p, e := After(s, run[..|run| - 1]), run[|run| - 1];
      Given(s, run[..|run| - 1]) + if p.Some? && StartsPut(p.value, e) then multiset{e.call.x} else multiset{}
  }

  /** The value of thread t's latest call. */
  ghost function GivenBy(s: State, run: seq<Event>, t: nat): nat
  {
    if run == [] then 0
    else
      var p, e := After(s, run[..|run| - 1]), run[|run| - 1];
      if p.Some? && e.thread == t && StartsPut(p.value, e) then e.call.x else GivenBy(s, run[..|run| - 1], t)
  }

  /** The values in the order in which the calls advanced tail, each the one its thread was called with. */
  ghost function Stored(s: State, run: seq<Event>): seq<nat>
  {
    if run == [] then []
    else
      var before, e := run[..|run| - 1], run[|run| - 1];
      var p := After(s, before);
      if p.Some? && e.thread < |p.value.pcs| && p.value.pcs[e.thread].PutAdvance? then
        Stored(s, before) + [GivenBy(s, before, e.thread)]
      else Stored(s, before)
  }

  ghost predicate CarriesOwn(s: State, run: seq<Event>, w: State)
  {
    forall t :: 0 <= t < |w.pcs| ==> forall x :: x in Carried(w.pcs[t]) ==> x == GivenBy(s, run, t)
  }

  /** The step that starts a put, and the step that ends its part in the buffer. */
  lemma StartStep(s: State, e: Event)
    requires Enabled(s, e) && StartsPut(s, e)
    ensures Carried(s.pcs[e.thread]) == multiset{} && Step(s, e).sent == s.sent
    ensures Step(s, e).pcs == s.pcs[e.thread := PutMutex(e.call.x)]
  {
  }

  lemma AdvanceStep(s: State, e: Event)
    requires Enabled(s, e) && s.pcs[e.thread].PutAdvance?
    ensures Step(s, e).sent == s.sent + [s.pcs[e.thread].x] && Step(s, e).pcs == s.pcs[e.thread := PutUnlock]
  {
  }

  /** Any other step leaves values with whom they are. */
  lemma OtherStep(s: State, e: Event)
    requires Enabled(s, e) && !StartsPut(s, e) && !s.pcs[e.thread].PutAdvance?
    ensures var t, s' := e.thread, Step(s, e);
            s'.sent == s.sent && |s'.pcs| == |s.pcs| && s'.pcs == s.pcs[t := s'.pcs[t]] && Carried(s'.pcs[t]) == Carried(s.pcs[t])
  {
    hide Carried;
    OtherPc(s, e);
    OtherValue(s, e);
  }

  lemma OtherPc(s: State, e: Event)
    requires Enabled(s, e) && !s.pcs[e.thread].PutAdvance?
    ensures Step(s, e).sent == s.sent && |Step(s, e).pcs| == |s.pcs| && Step(s, e).pcs == s.pcs[e.thread := Step(s, e).pcs[e.thread]]
  {
    hide Carried;
  }

  lemma OtherValue(s: State, e: Event)
    requires Enabled(s, e) && !StartsPut(s, e) && !s.pcs[e.thread].PutAdvance?
    ensures e.thread < |Step(s, e).pcs| && Carried(Step(s, e).pcs[e.thread]) == Carried(s.pcs[e.thread])
  {
  }

  /** What the calls were given, one step on. */
  lemma GivenStep(s: State, before: seq<Event>, p: State, e: Event)
    requires After(s, before) == Some(p) && Enabled(p, e)
    ensures var run, t := before + [e], e.thread;
            && After(s, run) == Some(Step(p, e))
            && Given(s, run) == Given(s, before) + (if StartsPut(p, e) then multiset{e.call.x} else multiset{})
            && (forall u :: GivenBy(s, run, u) == if u == t && StartsPut(p, e) then e.call.x else GivenBy(s, before, u))
            && Stored(s, run) == Stored(s, before) + if p.pcs[t].PutAdvance? then [GivenBy(s, before, t)] else []
  {
    hide After, Step, Given, GivenBy, Stored;
    AfterNext(s, before, p, e);
    GivenNext(s, before, p, e);
    forall u ensures GivenBy(s, before + [e], u) == if u == e.thread && StartsPut(p, e) then e.call.x else GivenBy(s, before, u) {
      GivenByNext(s, before, p, e, u);
    }
    StoredNext(s, before, p, e);
  }

  lemma AfterNext(s: State, before: seq<Event>, p: State, e: Event)
    requires After(s, before) == Some(p) && Enabled(p, e)
    ensures After(s, before + [e]) == Some(Step(p, e))
  {
    hide Step, Enabled;
    assert (before + [e])[..|before + [e]| - 1] == before;
  }

  lemma GivenNext(s: State, before: seq<Event>, p: State, e: Event)
    requires After(s, before) == Some(p)
    ensures Given(s, before + [e]) == Given(s, before) + if StartsPut(p, e) then multiset{e.call.x} else multiset{}
  {
    hide After, StartsPut;
    assert (before + [e])[..|before + [e]| - 1] == before;
  }

  lemma GivenByNext(s: State, before: seq<Event>, p: State, e: Event, u: nat)
    requires After(s, before) == Some(p)
    ensures GivenBy(s, before + [e], u) == if u == e.thread && StartsPut(p, e) then e.call.x else GivenBy(s, before, u)
  {
    hide After;
    assert (before + [e])[..|before + [e]| - 1] == before;
  }

  lemma StoredNext(s: State, before: seq<Event>, p: State, e: Event)
    requires After(s, before) == Some(p) && e.thread < |p.pcs|
    ensures Stored(s, before + [e]) == Stored(s, before) + if p.pcs[e.thread].PutAdvance? then [GivenBy(s, before, e.thread)] else []
  {
    hide After, GivenBy;
    assert (before + [e])[..|before + [e]| - 1] == before;
  }

  ghost predicate Arrived(s: State, run: seq<Event>, w: State)
  {
    w.sent == Stored(s, run) && multiset(w.sent) + AllCarried(w.pcs) == Given(s, run) && CarriesOwn(s, run, w)
  }

  /** What is stored and what is carried, one step on. */
  lemma SumStep(s: State, e: Event)
    requires Enabled(s, e)
    ensures var given := if StartsPut(s, e) then multiset{e.call.x} else multiset{};
            multiset(Step(s, e).sent) + AllCarried(Step(s, e).pcs) == (multiset(s.sent) + AllCarried(s.pcs)) + given
  {
    hide Step, AllCarried;
    var t, pcs, pcs', sent := e.thread, s.pcs, Step(s, e).pcs, multiset(s.sent);
    if StartsPut(s, e) {
      StartStep(s, e);
      CarriedMove(pcs, t, PutMutex(e.call.x));
      assert AllCarried(pcs') == AllCarried(pcs) + multiset{e.call.x};
    } else if pcs[t].PutAdvance? {
      AdvanceStep(s, e);
      CarriedMove(pcs, t, PutUnlock);
      assert multiset(Step(s, e).sent) == sent + multiset{pcs[t].x};
      Passes(sent, AllCarried(pcs'), AllCarried(pcs), multiset{pcs[t].x});
    } else {
      OtherStep(s, e);
      CarriedMove(pcs, t, pcs'[t]);
      hide Carried;
      Cancels(AllCarried(pcs'), AllCarried(pcs), Carried(pcs[t]));
    }
  }

  /** Each thread carries the value of its own latest call, one step on. */
  lemma OwnStep(s: State, before: seq<Event>, p: State, e: Event)
    requires After(s, before) == Some(p) && Enabled(p, e) && CarriesOwn(s, before, p)
    ensures CarriesOwn(s, before + [e], Step(p, e))
  {
    hide After, Step, Given, GivenBy, Stored;
    GivenStep(s, before, p, e);
    var w, t := Step(p, e), e.thread;
    if StartsPut(p, e) { StartStep(p, e); } else if p.pcs[t].PutAdvance? { AdvanceStep(p, e); } else { OtherStep(p, e); }
    forall u, x | 0 <= u < |w.pcs| && x in Carried(w.pcs[u]) ensures x == GivenBy(s, before + [e], u) {
      if u != t || !StartsPut(p, e) { assert x in Carried(p.pcs[u]); }
    }
  }

  lemma ArrivedStep(s: State, before: seq<Event>, p: State, e: Event)
    requires After(s, before) == Some(p) && Enabled(p, e) && Arrived(s, before, p)
    ensures Arrived(s, before + [e], Step(p, e))
  {
    hide After, Step, Given, GivenBy, Stored, AllCarried, CarriesOwn;
    GivenStep(s, before, p, e);
    SumStep(p, e);
    OwnStep(s, before, p, e);
    OwnValue(s, before, p, e.thread);
    if p.pcs[e.thread].PutAdvance? { AdvanceStep(p, e); } else if StartsPut(p, e) { StartStep(p, e); } else { OtherStep(p, e); }
  }

  lemma OwnValue(s: State, run: seq<Event>, w: State, t: nat)
    requires CarriesOwn(s, run, w) && t < |w.pcs|
    ensures w.pcs[t].PutAdvance? ==> w.pcs[t].x == GivenBy(s, run, t)
  {
    hide GivenBy;
    if w.pcs[t].PutAdvance? { assert w.pcs[t].x in Carried(w.pcs[t]); }
  }

  /** What is in the buffer or has been is what the calls were given, each by its own thread; what else they were
      given is still with them. */
  lemma {:induction false} PutsArrive(capacity: nat, data: seq<nat>, threads: nat, run: seq<Event>, w: State)
    requires After(Initial(capacity, data, threads), run) == Some(w)
    ensures w.sent == Stored(Initial(capacity, data, threads), run)
    ensures multiset(w.sent) + AllCarried(w.pcs) == Given(Initial(capacity, data, threads), run)
    ensures CarriesOwn(Initial(capacity, data, threads), run, w)
  {
    var s := Initial(capacity, data, threads);
    if run == [] {
      NothingCarried(threads);
    } else {
      var before, e := run[..|run| - 1], run[|run| - 1];
      var p := After(s, before).value;
      assert run == before + [e];
      hide Initial, Step, Enabled, Given, GivenBy, Stored, CarriesOwn;
      PutsArrive(capacity, data, threads, before, p);
      ArrivedStep(s, before, p, e);
    }
  }

  // ---------------------------------------------------------------- whole calls

  /** What n steps of t make of s when nobody else moves. */
  ghost function Alone(s: State, t: nat, call: Call, n: nat): Option<State>
  {
    After(s, seq(n, i => Event(t, call)))
  }

  lemma AloneThen(s: State, t: nat, call: Call, n: nat)
    requires Alone(s, t, call, n).Some? && Enabled(Alone(s, t, call, n).value, Event(t, call))
    ensures Alone(s, t, call, n + 1) == Some(Step(Alone(s, t, call, n).value, Event(t, call)))
  {
    var run := seq(n + 1, i => Event(t, call));
    assert run[..n] == seq(n, i => Event(t, call)) && run[n] == Event(t, call);
  }

  lemma AloneStart(s: State, t: nat, call: Call)
    ensures Alone(s, t, call, 0) == Some(s)
  {
  }

  /** A put with room that nobody interrupts: its value is the last in the buffer. */
  lemma PutAlone(s: State, t: nat, x: nat)
    requires t < |s.pcs| && s.pcs[t] == Outside && s.mutex == None && s.ring.Valid() && s.full > 0
    ensures Alone(s, t, Put(x), 6)
            == Some(s.(ring := Ring(s.ring.head, (s.ring.tail + 1) % |s.ring.data|, s.ring.data[s.ring.tail := x]),
                       full := s.full - 1, empty := s.empty + 1, sent := s.sent + [x]))
  {
    hide Alone;
    AloneStart(s, t, Put(x));
    AloneThen(s, t, Put(x), 0);
    AloneThen(s, t, Put(x), 1);
    AloneThen(s, t, Put(x), 2);
    AloneThen(s, t, Put(x), 3);
    AloneThen(s, t, Put(x), 4);
    AloneThen(s, t, Put(x), 5);
    assert Alone(s, t, Put(x), 6).value.pcs == s.pcs;
  }

  /** A get with a value inside that nobody interrupts: it takes the one at head. */
  lemma GetAlone(s: State, t: nat)
    requires t < |s.pcs| && s.pcs[t] == Outside && s.mutex == None && s.ring.Valid() && s.empty > 0
    ensures Alone(s, t, Get, 6)
            == Some(s.(ring := s.ring.(head := (s.ring.head + 1) % |s.ring.data|),
                       full := s.full + 1, empty := s.empty - 1, received := s.received + [s.ring.data[s.ring.head]]))
  {
    hide Alone;
    AloneStart(s, t, Get);
    AloneThen(s, t, Get, 0);
    AloneThen(s, t, Get, 1);
    AloneThen(s, t, Get, 2);
    AloneThen(s, t, Get, 3);
    AloneThen(s, t, Get, 4);
    AloneThen(s, t, Get, 5);
    assert Alone(s, t, Get, 6).value.pcs == s.pcs;
  }

  /** A step outside the mutex does not depend on who holds it. */
  lemma MutexUnseen(s: State, e: Event, mutex: Option<nat>)
    requires Enabled(s, e) && !InMutex(s.pcs[e.thread]) && !s.pcs[e.thread].PutMutex? && s.pcs[e.thread] != GetMutex
    ensures Enabled(s.(mutex := mutex), e) && Step(s.(mutex := mutex), e) == Step(s, e).(mutex := mutex)
  {
  }

  /** While no call is under way, a put waits iff the capacity is inside, and a get iff nothing is. */
  lemma WaitsIff(capacity: nat, elementSize: nat, data: seq<nat>, threads: nat, run: seq<Event>, s: State, t: nat, x: nat)
    requires elementSize > 0 && |data| == Modulus(capacity, elementSize)
    requires After(Initial(capacity, data, threads), run) == Some(s) && InFlight(s) == 0 && t < |s.pcs| && s.pcs[t] == Outside
    ensures Enabled(s, Event(t, Put(x))) <==> |s.sent| - |s.received| < capacity
    ensures Enabled(s, Event(t, Get)) <==> |s.received| < |s.sent|
  {
    SizeIs(capacity, elementSize, data, threads, run, s);
    RunInv(capacity, elementSize, data, threads, run, s);
    FullEmptyIff(s.ring, s.sent, |s.received|);
  }

  /** A value put into an empty FIFO is the one the next get returns. */
  lemma PutThenGet(s: State, t: nat, u: nat, x: nat, capacity: nat)
    requires Inv(s, capacity) && t < |s.pcs| && s.pcs[t] == Outside && u < |s.pcs| && s.pcs[u] == Outside
    requires s.mutex == None && s.full > 0 && s.empty >= 0 && s.sent == s.received
    ensures Alone(s, t, Put(x), 6).Some? && Alone(Alone(s, t, Put(x), 6).value, u, Get, 6).Some?
    ensures Alone(Alone(s, t, Put(x), 6).value, u, Get, 6).value.received == s.received + [x]
  {
    hide Alone;
    FullEmptyIff(s.ring, s.sent, |s.received|);
    PutAlone(s, t, x);
    GetAlone(Alone(s, t, Put(x), 6).value, u);
  }
}
