/** The lock-free FIFO of os/ipc.c with one producer and one consumer, one load or store of the shared
    head, tail and slots at a time. */
module Spsc {
  import opened SlotRing

  /** Where fifo32_put is: about to compare with head, to store, or to advance tail. */
  datatype Producer = Idle | Testing(x: nat) | Storing(x: nat) | Advancing(x: nat)

  /** Where fifo32_get is: about to compare with tail, to load, or to advance head. */
  datatype Consumer = Away | Waiting | Loading | Leaving(v: nat)

  /** sent and received: the values whose put returned 0, and whose get returned, in their order. */
  datatype State = State(ring: Ring, producer: Producer, consumer: Consumer, sent: seq<nat>, received: seq<nat>, refused: nat)

  /** Either side takes its next step; an idle producer calls fifo32_put with x. */
  datatype Event = Produce(x: nat) | Consume

  function Initial(data: seq<nat>): State
  {
    State(Ring(0, 0, data), Idle, Away, [], [], 0)
  }

  function ProducerStep(s: State, x: nat): State
    requires s.ring.Valid()
  {
    match s.producer
    case Idle => s.(producer := Testing(x))
    case Testing(y) => if s.ring.Full() then s.(producer := Idle, refused := s.refused + 1) else s.(producer := Storing(y))
    case Storing(y) => s.(ring := s.ring.Store(y), producer := Advancing(y))
    case Advancing(y) => s.(ring := s.ring.AdvanceTail(), producer := Idle, sent := s.sent + [y])
  }

  function ConsumerStep(s: State): State
    requires s.ring.Valid()
  {
    match s.consumer
    case Away => s.(consumer := Waiting)
    case Waiting => if s.ring.Empty() then s else s.(consumer := Loading)
    case Loading => s.(consumer := Leaving(s.ring.data[s.ring.head]))
    case Leaving(v) => s.(ring := s.ring.AdvanceHead(), consumer := Away, received := s.received + [v])
  }

  function Step(s: State, e: Event): State
    requires s.ring.Valid()
  {
    match e
    case Produce(x) => ProducerStep(s, x)
    case Consume => ConsumerStep(s)
  }

  /** The state after any interleaving of steps. */
  ghost function After(s: State, run: seq<Event>): State
  {
    if run == [] then s
    else
      var p := After(s, run[..|run| - 1]);
      if p.ring.Valid() then Step(p, run[|run| - 1]) else p
  }

  ghost predicate Inv(s: State)
  {
    var w, r, n := |s.sent|, |s.received|, |s.ring.data|;
    && Holds(s.ring, s.sent, r)
    && s.received == s.sent[..r]
    && (s.producer.Storing? || s.producer.Advancing? ==> w + 1 < r + n)
    && (s.producer.Advancing? ==> s.ring.data[w % n] == s.producer.x)
    && (s.consumer.Loading? || s.consumer.Leaving? ==> r < w)
    && (s.consumer.Leaving? ==> s.consumer.v == s.sent[r])
  }

  lemma StepInv(s: State, e: Event)
    requires Inv(s)
    ensures s.ring.Valid() && Inv(Step(s, e))
  {
    var w, r := |s.sent|, |s.received|;
    FullEmptyIff(s.ring, s.sent, r);
    match e
    case Produce(_) =>
      if s.producer.Storing? {
        StoreHolds(s.ring, s.sent, r, s.producer.x);
      } else if s.producer.Advancing? {
        AdvanceTailHolds(s.ring, s.sent, r, s.producer.x);
      }
    case Consume =>
      if s.consumer.Leaving? { AdvanceHeadHolds(s.ring, s.sent, r); }
  }

  lemma {:induction false} RunInv(data: seq<nat>, run: seq<Event>)
    requires |data| > 0
    ensures Inv(After(Initial(data), run))
    ensures |After(Initial(data), run).ring.data| == |data|
  {
    if run != [] {
      RunInv(data, run[..|run| - 1]);
      StepInv(After(Initial(data), run[..|run| - 1]), run[|run| - 1]);
    }
  }

  // ---------------------------------------------------------------- what every run keeps

  /** What the consumer got is a prefix of what the producer put, and at most size - 1 values are between. */
  lemma DeliversInOrder(data: seq<nat>, run: seq<Event>)
    requires |data| > 0
    ensures var s := After(Initial(data), run);
            s.received <= s.sent && |s.sent| <= |s.received| + |data| - 1
  {
    RunInv(data, run);
  }

  /** No step of either side, the store of a new value in particular, changes a slot that waits to be read. */
  lemma UnreadKept(data: seq<nat>, run: seq<Event>, e: Event)
    requires |data| > 0
    ensures var s := After(Initial(data), run);
            && s.ring.Valid() && |Step(s, e).ring.data| == |data|
            && forall k :: |Step(s, e).received| <= k < |s.sent| ==> Step(s, e).ring.data[k % |data|] == s.sent[k]
  {
    RunInv(data, run);
    StepInv(After(Initial(data), run), e);
  }

  /** A get loads a slot that was written, and returns the oldest value not yet received. */
  lemma GetsOldest(data: seq<nat>, run: seq<Event>)
    requires |data| > 0 && After(Initial(data), run).consumer.Loading?
    ensures var s := After(Initial(data), run);
            && s.ring.Valid() && |s.received| < |s.sent|
            && Step(s, Consume).consumer == Leaving(s.sent[|s.received|])
  {
    RunInv(data, run);
    FullEmptyIff(After(Initial(data), run).ring, After(Initial(data), run).sent, |After(Initial(data), run).received|);
  }

  /** A put is refused exactly when size - 1 values wait at its comparison. */
  lemma RefusedIffFull(data: seq<nat>, run: seq<Event>, x: nat)
    requires |data| > 0 && After(Initial(data), run).producer.Testing?
    ensures var s := After(Initial(data), run);
            && s.ring.Valid()
            && (Step(s, Produce(x)).refused > s.refused <==> |s.sent| - |s.received| == |data| - 1)
  {
    RunInv(data, run);
    FullEmptyIff(After(Initial(data), run).ring, After(Initial(data), run).sent, |After(Initial(data), run).received|);
  }

  // ---------------------------------------------------------------- each call carries its own value

  /** The value of a put that has not returned. */
  function InFlight(p: Producer): seq<nat>
  {
    if p.Idle? then [] else [p.x]
  }

  /** The values that fifo32_put was called with, in order, without those it refused: a put is over, without its
      value, when it compares while size - 1 values are unread. */
  ghost function Offered(data: seq<nat>, run: seq<Event>): seq<nat>
  {
    if run == [] then []
    else
      var before, e := run[..|run| - 1], run[|run| - 1];
      var p, o := After(Initial(data), before), Offered(data, before);
      if e.Produce? && p.producer.Idle? then o + [e.x]
      else if e.Produce? && p.producer.Testing? && |p.sent| - |p.received| == |data| - 1 && o != [] then o[..|o| - 1]
      else o
  }

  /** What one step does to the values sent and under way. */
  lemma OffersStep(s: State, e: Event)
    requires Inv(s)
    ensures s.ring.Valid()
    ensures var s', o := Step(s, e), s.sent + InFlight(s.producer);
            s'.sent + InFlight(s'.producer) ==
              if e.Produce? && s.producer.Idle? then o + [e.x]
              else if e.Produce? && s.producer.Testing? && |s.sent| - |s.received| == |s.ring.data| - 1 then s.sent
              else o
  {
    FullEmptyIff(s.ring, s.sent, |s.received|);
    hide Inv, Ring.Valid, Ring.Full, Ring.Empty, NextSlot;
  }

  /** What was sent is what fifo32_put was called with and did not refuse, but for the call under way. */
  lemma {:induction false} OffersArrive(data: seq<nat>, run: seq<Event>)
    requires |data| > 0
    ensures var s := After(Initial(data), run); s.sent + InFlight(s.producer) == Offered(data, run)
  {
    if run != [] {
      var before, e := run[..|run| - 1], run[|run| - 1];
      var p := After(Initial(data), before);
      OffersArrive(data, before);
      RunInv(data, before);
      OffersStep(p, e);
      hide Inv, Step, Ring.Valid;
      assert After(Initial(data), run) == Step(p, e);
      if p.producer.Testing? { assert (p.sent + [p.producer.x])[..|p.sent|] == p.sent; }
    }
  }

  // ---------------------------------------------------------------- whole calls

  /** What n steps of the same side make of s. */
  ghost function Alone(s: State, e: Event, n: nat): State
  {
    After(s, seq(n, i => e))
  }

  lemma AloneThen(s: State, e: Event, n: nat)
    requires Alone(s, e, n).ring.Valid()
    ensures Alone(s, e, n + 1) == Step(Alone(s, e, n), e)
  {
    var run := seq(n + 1, i => e);
    assert run[..n] == seq(n, i => e) && run[n] == e;
  }

  lemma AloneStart(s: State, e: Event)
    ensures Alone(s, e, 0) == s
  {
  }

  /** A put while fewer than size - 1 values are unread appends its value. */
  lemma PutAlone(s: State, x: nat)
    requires Inv(s) && s.producer == Idle && |s.sent| - |s.received| < |s.ring.data| - 1
    ensures s.ring.Valid()
    ensures Alone(s, Produce(x), 4)
            == s.(ring := Ring(s.ring.head, (s.ring.tail + 1) % |s.ring.data|, s.ring.data[s.ring.tail := x]), sent := s.sent + [x])
  {
    FullEmptyIff(s.ring, s.sent, |s.received|);
    hide Inv, Alone;
    AloneStart(s, Produce(x));
    AloneThen(s, Produce(x), 0);
    AloneThen(s, Produce(x), 1);
    AloneThen(s, Produce(x), 2);
    AloneThen(s, Produce(x), 3);
  }

  /** A get while a value is unread returns the oldest. */
  lemma GetAlone(s: State)
    requires Inv(s) && s.consumer == Away && |s.received| < |s.sent|
    ensures Alone(s, Consume, 4)
            == s.(ring := s.ring.(head := (s.ring.head + 1) % |s.ring.data|), received := s.received + [s.sent[|s.received|]])
  {
    FullEmptyIff(s.ring, s.sent, |s.received|);
    assert s.ring.data[s.ring.head] == s.sent[|s.received|];
    hide Inv, Alone;
    AloneStart(s, Consume);
    AloneThen(s, Consume, 0);
    AloneThen(s, Consume, 1);
    AloneThen(s, Consume, 2);
    AloneThen(s, Consume, 3);
  }

  /** The loop of fifo32_get goes on iff nothing is unread. */
  lemma GetWaitsIff(s: State)
    requires Inv(s) && s.consumer == Waiting
    ensures s.ring.Valid()
    ensures Step(s, Consume) == s <==> |s.received| == |s.sent|
    ensures |s.received| < |s.sent| ==> Step(s, Consume) == s.(consumer := Loading)
  {
    FullEmptyIff(s.ring, s.sent, |s.received|);
  }
}
