/** The batching ledger recorder: what is held under the lock, the operations on it, and every
    interleaving of callers, the flusher and the closer. */
module Recorder {
  import opened Policy
  import UnknownFields

  // ---- events and batches

  /** `size` is the encoded event's length, `subject` its tenant and app. */
  datatype Event = Event(id: nat, subject: string, size: nat)

  datatype Batch = Batch(subject: string, events: seq<Event>, bytes: nat)

  datatype Config = Config(maxEvents: nat, maxBytes: nat, maxBuffered: nat)

  /** Every limit defaults to something positive. */
  predicate Sensible(c: Config) {
    c.maxEvents > 0 && c.maxBytes > 0 && c.maxBuffered > 0
  }

  function VarintSize(n: nat): nat {
    if n < 128 then 1 else 1 + VarintSize(n / 128)
  }

  /** An event in a batch is a length-delimited field: a one-byte tag, its length, itself. */
  function Framed(e: Event): nat {
    1 + VarintSize(e.size) + e.size
  }

  function FramedAll(es: seq<Event>): nat {
    if es == [] then 0 else FramedAll(es[..|es| - 1]) + Framed(es[|es| - 1])
  }

  ghost predicate Bounded(c: Config, b: Batch) {
    && b.events != [] && (forall e | e in b.events :: e.subject == b.subject)
    && b.bytes == FramedAll(b.events)
    && |b.events| <= c.maxEvents && (b.bytes <= c.maxBytes || |b.events| == 1)
  }

  // ---- what the lock protects

  datatype Held = Held(open: map<string, Batch>, ready: seq<Batch>, buffered: int, closed: bool)

  predicate Takes(c: Config, h: Held) {
    !h.closed && h.buffered < c.maxBuffered
  }

  /** Whether one more event would carry the batch past either bound. */
  predicate Overflows(c: Config, b: Batch, e: Event) {
    b.bytes + Framed(e) > c.maxBytes || |b.events| + 1 > c.maxEvents
  }

  /** The batch an accepted event lands in. */
  function Grown(c: Config, h: Held, e: Event): Batch {
    if e.subject in h.open && !Overflows(c, h.open[e.subject], e) then
      var b := h.open[e.subject];
      Batch(e.subject, b.events + [e], b.bytes + Framed(e))
    else Batch(e.subject, [e], Framed(e))
  }

  function Accepted(c: Config, h: Held, e: Event): Held {
    h.(open := h.open[e.subject := Grown(c, h, e)],
       ready := if e.subject in h.open && Overflows(c, h.open[e.subject], e)
                then h.ready + [h.open[e.subject]] else h.ready,
       buffered := h.buffered + 1)
  }

  /** Taking the batches `bs` out of `open`, one by one, leaves `rest`. */
  ghost predicate Peels(open: map<string, Batch>, bs: seq<Batch>, rest: map<string, Batch>)
    decreases |bs|
  {
    if bs == [] then open == rest
    else bs[0].subject in open && open[bs[0].subject] == bs[0] && Peels(open - {bs[0].subject}, bs[1..], rest)
  }

  /** `bs` lists the open batches, each once, in some order. */
  ghost predicate Lists(open: map<string, Batch>, bs: seq<Batch>) {
    Peels(open, bs, map[])
  }

  lemma {:induction false} PeelsOne(open: map<string, Batch>, bs: seq<Batch>, rest: map<string, Batch>, s: string)
    requires Peels(open, bs, rest) && s in rest && rest[s].subject == s
    ensures Peels(open, bs + [rest[s]], rest - {s})
    decreases |bs|
  {
    if bs == [] {
      assert (bs + [rest[s]])[1..] == [];
    } else {
      PeelsOne(open - {bs[0].subject}, bs[1..], rest, s);
      assert (bs + [rest[s]])[1..] == bs[1..] + [rest[s]];
    }
  }

  class Buffer {
    const config: Config
    var open: map<string, Batch>
    var ready: seq<Batch>
    var buffered: int
    var closed: bool

    ghost function Contents(): Held
      reads this
    {
      Held(open, ready, buffered, closed)
    }

    constructor (config: Config)
      ensures this.config == config && Contents() == Held(map[], [], 0, false)
    {
      this.config := config;
      open, ready, buffered, closed := map[], [], 0, false;
    }

    /** Sealed before the append, so that no batch is ever past a bound. The caller writes what is not
        taken to the fallback. */
    method Record(e: Event) returns (taken: bool, wake: bool)
      modifies this
      ensures taken <==> !old(closed) && old(buffered) < config.maxBuffered
      ensures Contents() == if taken then Accepted(config, old(Contents()), e) else old(Contents())
      ensures wake == (taken && ready != [])
    {
      if closed || buffered >= config.maxBuffered {
        return false, false;
      }
      var subject := e.subject;
      var b := if subject in open then Some(open[subject]) else None;
      if b.Some? && (b.value.bytes + Framed(e) > config.maxBytes || |b.value.events| + 1 > config.maxEvents) {
        ready := ready + [b.value];
        b := None;
      }
      if b.None? {
        b := Some(Batch(subject, [], 0));
      }
      open := open[subject := Batch(subject, b.value.events + [e], b.value.bytes + Framed(e))];
      assert [] + [e] == [e];
      buffered := buffered + 1;
      return true, ready != [];
    }

    /** Moves every open batch to the queue, in no particular order. */
    method SealAll() returns (ghost sealed: seq<Batch>)
      requires forall s | s in open :: open[s].subject == s && open[s].events != []
      modifies this`open, this`ready
      ensures Lists(old(open), sealed)
      ensures open == map[] && ready == old(ready) + sealed
    {
      sealed := [];
      while open != map[]
        invariant forall s | s in open :: open[s].subject == s && open[s].events != []
        invariant ready == old(ready) + sealed
        invariant Peels(old(open), sealed, open)
        decreases |open|
      {
        var subject :| subject in open;
        var b := open[subject];
        PeelsOne(old(open), sealed, open, subject);
        if |b.events| > 0 {
          ready := ready + [b];
        }
        open := open - {subject};
        sealed := sealed + [b];
      }
    }

    method TakeReady() returns (b: Option<Batch>)
      modifies this`ready
      ensures old(ready) == [] ==> b == None && ready == []
      ensures old(ready) != [] ==> b == Some(old(ready)[0]) && ready == old(ready)[1..]
    {
      if ready == [] {
        return None;
      }
      b := Some(ready[0]);
      ready := ready[1..];
    }

    method Settle(b: Batch)
      modifies this`buffered
      ensures buffered == old(buffered) - |b.events|
    {
      buffered := buffered - |b.events|;
    }

    /** Only the first call closes. */
    method BeginClose() returns (first: bool)
      modifies this`closed
      ensures first == !old(closed) && closed
    {
      first := !closed;
      closed := true;
    }
  }

  // ---- all interleavings

  /** A publishing thread between taking a batch and having accounted for it. `Settling` is after the
      attempt, when the batch has gone somewhere and is still counted. */
  datatype Publishing = Draining | Flying(b: Batch) | Settling(b: Batch)

  datatype Flusher = Selecting | Flushing(at: Publishing) | Finished
  datatype Closer = NotClosing | Stopping | AwaitingFlusher | Closing(at: Publishing) | Returned

  /** `recorded` is every call to Record; `accepted` those that were buffered; `attempts` the batches taken
      for publishing, in order; `published` and `fallback` where events ended up. */
  datatype State = State(
    held: Held, stop: bool, flusher: Flusher, closer: Closer,
    recorded: seq<Event>, accepted: seq<Event>, attempts: seq<Batch>, published: seq<Event>, fallback: seq<Event>)

  ghost predicate Init(s: State) {
    s == State(Held(map[], [], 0, false), false, Selecting, NotClosing, [], [], [], [], [])
  }

  ghost predicate RecordStep(c: Config, s: State, s': State, e: Event) {
    s' == if Takes(c, s.held)
          then s.(held := Accepted(c, s.held, e), recorded := s.recorded + [e], accepted := s.accepted + [e])
          else s.(recorded := s.recorded + [e], fallback := s.fallback + [e])
  }

  function Sealed(h: Held, bs: seq<Batch>): Held {
    h.(open := map[], ready := h.ready + bs)
  }

  ghost predicate FlusherSelects(s: State, s': State, bs: seq<Batch>) {
    s.flusher.Selecting? && (
      || (Lists(s.held.open, bs) && s' == s.(held := Sealed(s.held, bs), flusher := Flushing(Draining)))
      || s' == s.(flusher := Flushing(Draining))
      || (s.stop && s' == s.(flusher := Finished)))
  }

  /** One step of a thread that publishes: `at` to `next`. */
  ghost predicate PublishStep(s: State, s': State, at: Publishing, next: Publishing) {
    match at
    case Draining =>
      s.held.ready != [] && next == Flying(s.held.ready[0])
      && s' == s.(held := s.held.(ready := s.held.ready[1..]), attempts := s.attempts + [s.held.ready[0]],
                  flusher := s'.flusher, closer := s'.closer)
    case Flying(b) =>
      next == Settling(b)
      && (s' == s.(published := s.published + b.events, flusher := s'.flusher, closer := s'.closer)
          || s' == s.(fallback := s.fallback + b.events, flusher := s'.flusher, closer := s'.closer))
    case Settling(b) =>
      next == Draining
      && s' == s.(held := s.held.(buffered := s.held.buffered - |b.events|), flusher := s'.flusher, closer := s'.closer)
  }

  ghost predicate FlusherPublishes(s: State, s': State, next: Publishing) {
    && s.flusher.Flushing? && s'.flusher == Flushing(next) && s'.closer == s.closer
    && PublishStep(s, s', s.flusher.at, next)
  }

  ghost predicate FlusherDrained(s: State, s': State) {
    s.flusher == Flushing(Draining) && s.held.ready == [] && s' == s.(flusher := Selecting)
  }

  ghost predicate CloserSteps(s: State, s': State, bs: seq<Batch>) {
    match s.closer
    case NotClosing => !s.held.closed && s' == s.(held := s.held.(closed := true), closer := Stopping)
    case Stopping => s' == s.(stop := true, closer := AwaitingFlusher)
    case AwaitingFlusher =>
      s.flusher.Finished? && Lists(s.held.open, bs) && s' == s.(held := Sealed(s.held, bs), closer := Closing(Draining))
    case Closing(at) => at.Draining? && s.held.ready == [] && s' == s.(closer := Returned)
    case Returned => false
  }

  ghost predicate CloserPublishes(s: State, s': State, next: Publishing) {
    && s.closer.Closing? && s'.closer == Closing(next) && s'.flusher == s.flusher
    && PublishStep(s, s', s.closer.at, next)
  }

  ghost predicate Next(c: Config, s: State, s': State) {
    || (exists e :: RecordStep(c, s, s', e))
    || (exists bs :: FlusherSelects(s, s', bs))
    || (exists next :: FlusherPublishes(s, s', next))
    || FlusherDrained(s, s')
    || (exists bs :: CloserSteps(s, s', bs))
    || (exists next :: CloserPublishes(s, s', next))
  }

  // ---- counting

  /** The events of the open batches. */
  ghost function InOpen(open: map<string, Batch>): multiset<Event>
    decreases |open|
  {
    if open == map[] then multiset{}
    else
      var s :| s in open;
      multiset(open[s].events) + InOpen(open - {s})
  }

  ghost function InBatches(bs: seq<Batch>): multiset<Event> {
    if bs == [] then multiset{} else multiset(bs[0].events) + InBatches(bs[1..])
  }

  lemma {:induction false} InOpenAt(open: map<string, Batch>, s: string)
    requires s in open
    ensures InOpen(open) == multiset(open[s].events) + InOpen(open - {s})
    decreases |open|
  {
    var t :| t in open && InOpen(open) == multiset(open[t].events) + InOpen(open - {t});
    if t != s {
      InOpenAt(open - {t}, s);
      InOpenAt(open - {s}, t);
      assert open - {t} - {s} == open - {s} - {t};
    }
  }

  lemma InOpenUpdate(open: map<string, Batch>, s: string, b: Batch)
    ensures InOpen(open[s := b]) == multiset(b.events) + InOpen(open - {s})
    ensures InOpen(open) == (if s in open then multiset(open[s].events) else multiset{}) + InOpen(open - {s})
  {
    InOpenAt(open[s := b], s);
    assert open[s := b] - {s} == open - {s};
    if s in open {
      InOpenAt(open, s);
    } else {
      assert open - {s} == open;
    }
  }

  lemma {:induction false} InBatchesConcat(a: seq<Batch>, b: seq<Batch>)
    ensures InBatches(a + b) == InBatches(a) + InBatches(b)
  {
    if a == [] {
      assert a + b == b;
    } else {
      assert (a + b)[1..] == a[1..] + b;
      InBatchesConcat(a[1..], b);
    }
  }

  lemma {:induction false} ListsHoldsAll(open: map<string, Batch>, bs: seq<Batch>)
    requires Lists(open, bs)
    ensures InBatches(bs) == InOpen(open)
    decreases |bs|
  {
    if bs != [] {
      InOpenAt(open, bs[0].subject);
      ListsHoldsAll(open - {bs[0].subject}, bs[1..]);
    }
  }

  // ---- order

  function EventsOf(es: seq<Event>, subject: string): seq<Event> {
    if es == [] then []
    else EventsOf(es[..|es| - 1], subject) + if es[|es| - 1].subject == subject then [es[|es| - 1]] else []
  }

  function BatchesOf(bs: seq<Batch>, subject: string): seq<Event> {
    if bs == [] then [] else (if bs[0].subject == subject then bs[0].events else []) + BatchesOf(bs[1..], subject)
  }

  function OpenOf(open: map<string, Batch>, subject: string): seq<Event> {
    if subject in open then open[subject].events else []
  }

  lemma {:induction false} BatchesOfConcat(a: seq<Batch>, b: seq<Batch>, subject: string)
    ensures BatchesOf(a + b, subject) == BatchesOf(a, subject) + BatchesOf(b, subject)
  {
    if a == [] {
      assert a + b == b;
    } else {
      assert (a + b)[1..] == a[1..] + b;
      BatchesOfConcat(a[1..], b, subject);
    }
  }

  lemma {:induction false} ListsInOrder(open: map<string, Batch>, bs: seq<Batch>, subject: string)
    requires Lists(open, bs)
    ensures BatchesOf(bs, subject) == OpenOf(open, subject)
    decreases |bs|
  {
    if bs != [] {
      ListsInOrder(open - {bs[0].subject}, bs[1..], subject);
    }
  }

  // ---- the invariants

  function Carried(at: Publishing): seq<Event> {
    if at.Draining? then [] else at.b.events
  }

  function Undecided(at: Publishing): seq<Event> {
    if at.Flying? then at.b.events else []
  }

  /** The thread that may be publishing: the flusher until it has finished, the closer after. */
  function Publisher(s: State): Publishing {
    if s.flusher.Flushing? then s.flusher.at else if s.closer.Closing? then s.closer.at else Draining
  }

  /** Nobody starts closing before the flusher is gone, and once sealed for closing nothing reopens. */
  ghost predicate Phases(s: State) {
    && (s.flusher.Finished? ==> s.stop)
    && (s.stop ==> !s.closer.NotClosing? && !s.closer.Stopping?)
    && (!s.closer.NotClosing? <==> s.held.closed)
    && (s.closer.Closing? || s.closer.Returned? ==> s.flusher.Finished? && s.held.open == map[])
    && (s.closer.Returned? ==> s.held.ready == [])
  }

  ghost predicate BatchBounds(c: Config, s: State) {
    && (forall k | k in s.held.open :: s.held.open[k].subject == k && Bounded(c, s.held.open[k]))
    && (forall i | 0 <= i < |s.held.ready| :: Bounded(c, s.held.ready[i]))
    && (forall i | 0 <= i < |s.attempts| :: Bounded(c, s.attempts[i]))
  }

  /** Every recorded event is in exactly one place, and what is counted is what is held. */
  ghost predicate Conserved(c: Config, s: State) {
    && multiset(s.recorded) == InOpen(s.held.open) + InBatches(s.held.ready) + multiset(Undecided(Publisher(s)))
                               + multiset(s.published) + multiset(s.fallback)
    && s.held.buffered == |InOpen(s.held.open)| + |InBatches(s.held.ready)| + |Carried(Publisher(s))|
    && s.held.buffered <= c.maxBuffered
  }

  ghost predicate OrderAt(accepted: seq<Event>, attempts: seq<Batch>, h: Held, k: string) {
    EventsOf(accepted, k) == BatchesOf(attempts, k) + BatchesOf(h.ready, k) + OpenOf(h.open, k)
  }

  /** Per subject, events are attempted in the order they were recorded. */
  ghost predicate InOrder(s: State) {
    forall k :: OrderAt(s.accepted, s.attempts, s.held, k)
  }

  ghost predicate Inv(c: Config, s: State) {
    Phases(s) && BatchBounds(c, s) && Conserved(c, s) && InOrder(s)
  }

  // ---- every step keeps them

  lemma GrownIsBounded(c: Config, h: Held, e: Event)
    requires Sensible(c)
    requires e.subject in h.open ==> h.open[e.subject].subject == e.subject && Bounded(c, h.open[e.subject])
    ensures Bounded(c, Grown(c, h, e))
  {
    if e.subject in h.open && !Overflows(c, h.open[e.subject], e) {
      var es := h.open[e.subject].events;
      assert (es + [e])[..|es|] == es;
    } else {
      assert [e][..0] == [];
      assert FramedAll([e]) == Framed(e);
    }
  }

  /** A batch is sealed by an event exactly when it could not have taken that event within both bounds. */
  lemma SealedExactlyWhenFull(c: Config, h: Held, e: Event)
    requires e.subject in h.open ==> Bounded(c, h.open[e.subject])
    ensures var h' := Accepted(c, h, e);
            if e.subject in h.open && (FramedAll(h.open[e.subject].events + [e]) > c.maxBytes
                                       || |h.open[e.subject].events + [e]| > c.maxEvents)
            then h'.ready == h.ready + [h.open[e.subject]] && h'.open[e.subject].events == [e]
            else h'.ready == h.ready && h'.open[e.subject].events == OpenOf(h.open, e.subject) + [e]
  {
    if e.subject in h.open {
      var es := h.open[e.subject].events;
      assert (es + [e])[..|es|] == es;
    }
  }

  lemma {:induction false} VarintSizeIsLength(n: nat)
    ensures |UnknownFields.EncodeVarint(n)| == VarintSize(n)
  {
    if n >= 128 {
      VarintSizeIsLength(n / 128);
    }
  }

  /** An event is counted as exactly the bytes of the one well-formed field, number 1, that carries it in a batch. */
  lemma FramedIsTheField(e: Event, encoded: seq<Byte>)
    requires |encoded| == e.size < UnknownFields.TWO_64
    ensures var tag := UnknownFields.Number(UnknownFields.EncodeVarint(8 * 1 + 2), 8 * 1 + 2);
            var len := UnknownFields.Number(UnknownFields.EncodeVarint(e.size), e.size);
            var field := UnknownFields.Other(tag, 1, UnknownFields.PBytes(len, encoded));
            UnknownFields.ValidItem(2, field) && |UnknownFields.WriteItem(field, [])| == Framed(e)
  {
    UnknownFields.EncodeVarintIsVarint(8 * 1 + 2);
    UnknownFields.EncodeVarintIsVarint(e.size);
    VarintSizeIsLength(8 * 1 + 2);
    VarintSizeIsLength(e.size);
  }

  lemma AcceptConserves(c: Config, h: Held, e: Event)
    ensures var h' := Accepted(c, h, e);
            InOpen(h'.open) + InBatches(h'.ready) == InOpen(h.open) + InBatches(h.ready) + multiset{e}
  {
    var b := Grown(c, h, e);
    InOpenUpdate(h.open, e.subject, b);
    if e.subject in h.open && Overflows(c, h.open[e.subject], e) {
      InBatchesThen(h.ready, h.open[e.subject]);
    } else if e.subject in h.open {
      assert multiset(b.events) == multiset(h.open[e.subject].events) + multiset{e};
    }
  }

  lemma InBatchesThen(bs: seq<Batch>, b: Batch)
    ensures InBatches(bs + [b]) == InBatches(bs) + multiset(b.events)
  {
    InBatchesConcat(bs, [b]);
    assert InBatches([b]) == multiset(b.events) + InBatches([]);
  }

  lemma AcceptInOrder(c: Config, accepted: seq<Event>, attempts: seq<Batch>, h: Held, e: Event, k: string)
    requires OrderAt(accepted, attempts, h, k) && (e.subject in h.open ==> h.open[e.subject].subject == e.subject)
    ensures OrderAt(accepted + [e], attempts, Accepted(c, h, e), k)
  {
    if e.subject != k {
      OtherSubjectInOrder(c, accepted, attempts, h, e, k);
    } else if e.subject in h.open && Overflows(c, h.open[e.subject], e) {
      SealedInOrder(c, accepted, attempts, h, e);
    } else {
      GrownInOrder(c, accepted, attempts, h, e);
    }
  }

  lemma OneMoreOf(accepted: seq<Event>, e: Event, k: string)
    ensures EventsOf(accepted + [e], k) == EventsOf(accepted, k) + if e.subject == k then [e] else []
  {
    assert (accepted + [e])[..|accepted|] == accepted;
  }

  lemma BatchesThen(bs: seq<Batch>, b: Batch, k: string)
    ensures BatchesOf(bs + [b], k) == BatchesOf(bs, k) + if b.subject == k then b.events else []
  {
    BatchesOfConcat(bs, [b], k);
    assert BatchesOf([b], k) == (if b.subject == k then b.events else []) + BatchesOf([], k);
  }

  lemma OtherSubjectInOrder(
      c: Config, accepted: seq<Event>, attempts: seq<Batch>, h: Held, e: Event, k: string)
    requires OrderAt(accepted, attempts, h, k) && e.subject != k
    requires e.subject in h.open ==> h.open[e.subject].subject == e.subject
    ensures OrderAt(accepted + [e], attempts, Accepted(c, h, e), k)
  {
    var h' := Accepted(c, h, e);
    assert EventsOf(accepted + [e], k) == EventsOf(accepted, k) by {
      OneMoreOf(accepted, e, k);
    }
    assert BatchesOf(h'.ready, k) == BatchesOf(h.ready, k) by {
      if e.subject in h.open {
        BatchesThen(h.ready, h.open[e.subject], k);
      }
    }
    assert OpenOf(h'.open, k) == OpenOf(h.open, k);
  }

  lemma SealedInOrder(c: Config, accepted: seq<Event>, attempts: seq<Batch>, h: Held, e: Event)
    requires OrderAt(accepted, attempts, h, e.subject)
    requires e.subject in h.open && h.open[e.subject].subject == e.subject && Overflows(c, h.open[e.subject], e)
    ensures OrderAt(accepted + [e], attempts, Accepted(c, h, e), e.subject)
  {
    var k := e.subject;
    OneMoreOf(accepted, e, k);
    BatchesThen(h.ready, h.open[k], k);
    Regroup(BatchesOf(attempts, k), BatchesOf(h.ready, k), h.open[k].events, e);
  }

  lemma GrownInOrder(c: Config, accepted: seq<Event>, attempts: seq<Batch>, h: Held, e: Event)
    requires OrderAt(accepted, attempts, h, e.subject)
    requires e.subject in h.open ==> !Overflows(c, h.open[e.subject], e)
    ensures OrderAt(accepted + [e], attempts, Accepted(c, h, e), e.subject)
  {
    var k := e.subject;
    OneMoreOf(accepted, e, k);
    Regroup(BatchesOf(attempts, k), BatchesOf(h.ready, k), OpenOf(h.open, k), e);
    assert OpenOf(Accepted(c, h, e).open, k) == OpenOf(h.open, k) + [e];
  }

  lemma Regroup(a: seq<Event>, b: seq<Event>, c: seq<Event>, e: Event)
    ensures a + (b + c) + [e] == a + b + c + [e]
    ensures a + b + (c + [e]) == a + b + c + [e]
  {
  }

  lemma RecordConserves(c: Config, s: State, s': State, e: Event)
    requires Conserved(c, s) && RecordStep(c, s, s', e)
    ensures Conserved(c, s')
  {
    if Takes(c, s.held) {
      AcceptConserves(c, s.held, e);
      OneMoreHeld(c, s, Accepted(c, s.held, e), e);
    } else {
      assert multiset(s.recorded + [e]) == multiset(s.recorded) + multiset{e};
      assert multiset(s.fallback + [e]) == multiset(s.fallback) + multiset{e};
    }
  }

  lemma OneMoreHeld(c: Config, s: State, h': Held, e: Event)
    requires Conserved(c, s) && h'.buffered == s.held.buffered + 1 <= c.maxBuffered
    requires InOpen(h'.open) + InBatches(h'.ready) == InOpen(s.held.open) + InBatches(s.held.ready) + multiset{e}
    ensures Conserved(c, s.(held := h', recorded := s.recorded + [e], accepted := s.accepted + [e]))
  {
    assert multiset(s.recorded + [e]) == multiset(s.recorded) + multiset{e};
    Tally(InOpen(s.held.open), InBatches(s.held.ready), InOpen(h'.open), InBatches(h'.ready), multiset{e});
  }

  /** What one more event does to two counts that hold it between them. */
  lemma Tally(a: multiset<Event>, b: multiset<Event>, a': multiset<Event>, b': multiset<Event>, one: multiset<Event>)
    requires a' + b' == a + b + one
    ensures |a'| + |b'| == |a| + |b| + |one|
  {
    assert |a' + b'| == |a'| + |b'| && |a + b + one| == |a| + |b| + |one|;
  }

  lemma RecordKeepsInv(c: Config, s: State, s': State, e: Event)
    requires Sensible(c) && Inv(c, s) && RecordStep(c, s, s', e)
    ensures Inv(c, s')
  {
    RecordConserves(c, s, s', e);
    if Takes(c, s.held) {
      GrownIsBounded(c, s.held, e);
      forall k
        ensures OrderAt(s'.accepted, s'.attempts, s'.held, k)
      {
        AcceptInOrder(c, s.accepted, s.attempts, s.held, e, k);
      }
    }
  }

  lemma SealKeepsInv(c: Config, s: State, s': State, bs: seq<Batch>)
    requires Inv(c, s) && Lists(s.held.open, bs) && Phases(s') && Publisher(s') == Publisher(s)
    requires s' == s.(held := Sealed(s.held, bs), flusher := s'.flusher, closer := s'.closer)
    ensures Inv(c, s')
  {
    SealConserves(c, s, s', bs);
    ListedAreOpen(s.held.open, bs);
    forall k
      ensures OrderAt(s'.accepted, s'.attempts, s'.held, k)
    {
      SealInOrder(s.accepted, s.attempts, s.held, bs, k);
    }
  }

  lemma SealConserves(c: Config, s: State, s': State, bs: seq<Batch>)
    requires Conserved(c, s) && Lists(s.held.open, bs) && Publisher(s') == Publisher(s)
    requires s' == s.(held := Sealed(s.held, bs), flusher := s'.flusher, closer := s'.closer)
    ensures Conserved(c, s')
  {
    ListsHoldsAll(s.held.open, bs);
    InBatchesConcat(s.held.ready, bs);
    assert InOpen(s'.held.open) == multiset{};
  }

  lemma SealInOrder(accepted: seq<Event>, attempts: seq<Batch>, h: Held, bs: seq<Batch>, k: string)
    requires OrderAt(accepted, attempts, h, k) && Lists(h.open, bs)
    ensures OrderAt(accepted, attempts, Sealed(h, bs), k)
  {
    ListsInOrder(h.open, bs, k);
    BatchesOfConcat(h.ready, bs, k);
    Reassociate(BatchesOf(attempts, k), BatchesOf(h.ready, k), BatchesOf(bs, k));
  }

  lemma Reassociate(a: seq<Event>, b: seq<Event>, c: seq<Event>)
    ensures a + (b + c) + [] == a + b + c
  {
  }

  lemma {:induction false} ListedAreOpen(open: map<string, Batch>, bs: seq<Batch>)
    requires Lists(open, bs)
    ensures forall i | 0 <= i < |bs| :: bs[i].subject in open && open[bs[i].subject] == bs[i]
    decreases |bs|
  {
    if bs != [] {
      ListedAreOpen(open - {bs[0].subject}, bs[1..]);
    }
  }

  lemma PublishConserves(c: Config, s: State, s': State, at: Publishing, next: Publishing)
    requires Conserved(c, s) && PublishStep(s, s', at, next) && Publisher(s) == at && Publisher(s') == next
    ensures Conserved(c, s')
  {
    match at
    case Draining =>
      assert InBatches(s.held.ready) == multiset(s.held.ready[0].events) + InBatches(s.held.ready[1..]);
    case Flying(b) =>
      assert multiset(s.published + b.events) == multiset(s.published) + multiset(b.events);
      assert multiset(s.fallback + b.events) == multiset(s.fallback) + multiset(b.events);
    case Settling(b) =>
  }

  lemma PublishInOrder(s: State, s': State, at: Publishing, next: Publishing, k: string)
    requires OrderAt(s.accepted, s.attempts, s.held, k) && PublishStep(s, s', at, next)
    ensures OrderAt(s'.accepted, s'.attempts, s'.held, k)
  {
    if at.Draining? {
      var b, rest := s.held.ready[0], s.held.ready[1..];
      BatchesOfConcat(s.attempts, [b], k);
      var one := if b.subject == k then b.events else [];
      assert BatchesOf([b], k) == one + BatchesOf([b][1..], k) == one;
      assert BatchesOf(s.attempts, k) + (one + BatchesOf(rest, k)) ==
             (BatchesOf(s.attempts, k) + one) + BatchesOf(rest, k);
    }
  }

  lemma PublishBounds(c: Config, s: State, s': State, at: Publishing, next: Publishing)
    requires BatchBounds(c, s) && PublishStep(s, s', at, next)
    ensures BatchBounds(c, s')
  {
  }

  lemma PublishKeepsInv(c: Config, s: State, s': State, at: Publishing, next: Publishing)
    requires Inv(c, s) && PublishStep(s, s', at, next) && Phases(s') && Publisher(s) == at && Publisher(s') == next
    ensures Inv(c, s')
  {
    PublishConserves(c, s, s', at, next);
    PublishBounds(c, s, s', at, next);
    forall k
      ensures OrderAt(s'.accepted, s'.attempts, s'.held, k)
    {
      PublishInOrder(s, s', at, next, k);
    }
  }

  /** Moving a thread on without touching what is held. */
  lemma QuietKeepsInv(c: Config, s: State, s': State)
    requires Inv(c, s) && Phases(s') && Publisher(s') == Publisher(s)
    requires s' == s.(held := s.held.(closed := s'.held.closed), stop := s'.stop,
                      flusher := s'.flusher, closer := s'.closer)
    ensures Inv(c, s')
  {
    forall k
      ensures OrderAt(s'.accepted, s'.attempts, s'.held, k)
    {
      assert OrderAt(s.accepted, s.attempts, s.held, k);
    }
  }

  lemma FlusherKeepsInv(c: Config, s: State, s': State, bs: seq<Batch>)
    requires Inv(c, s) && FlusherSelects(s, s', bs)
    ensures Inv(c, s')
  {
    if Lists(s.held.open, bs) && s' == s.(held := Sealed(s.held, bs), flusher := Flushing(Draining)) {
      SealKeepsInv(c, s, s', bs);
    } else {
      QuietKeepsInv(c, s, s');
    }
  }

  lemma CloserKeepsInv(c: Config, s: State, s': State, bs: seq<Batch>)
    requires Inv(c, s) && CloserSteps(s, s', bs)
    ensures Inv(c, s')
  {
    if s.closer.AwaitingFlusher? {
      SealKeepsInv(c, s, s', bs);
    } else {
      QuietKeepsInv(c, s, s');
    }
  }

  lemma FlusherPublishesKeepsInv(c: Config, s: State, s': State, next: Publishing)
    requires Inv(c, s) && FlusherPublishes(s, s', next)
    ensures Inv(c, s')
  {
    PublishKeepsInv(c, s, s', s.flusher.at, next);
  }

  lemma CloserPublishesKeepsInv(c: Config, s: State, s': State, next: Publishing)
    requires Inv(c, s) && CloserPublishes(s, s', next)
    ensures Inv(c, s')
  {
    PublishKeepsInv(c, s, s', s.closer.at, next);
  }

  lemma NextKeepsInv(c: Config, s: State, s': State)
    requires Sensible(c) && Inv(c, s) && Next(c, s, s')
    ensures Inv(c, s')
  {
    if e :| RecordStep(c, s, s', e) {
      RecordKeepsInv(c, s, s', e);
    } else if bs :| FlusherSelects(s, s', bs) {
      FlusherKeepsInv(c, s, s', bs);
    } else if next :| FlusherPublishes(s, s', next) {
      FlusherPublishesKeepsInv(c, s, s', next);
    } else if FlusherDrained(s, s') {
      QuietKeepsInv(c, s, s');
    } else if bs :| CloserSteps(s, s', bs) {
      CloserKeepsInv(c, s, s', bs);
    } else {
      var next :| CloserPublishes(s, s', next);
      CloserPublishesKeepsInv(c, s, s', next);
    }
  }

  ghost predicate IsRun(c: Config, states: seq<State>) {
    states != [] && Init(states[0]) && forall i | 0 <= i < |states| - 1 :: Next(c, states[i], states[i + 1])
  }

  /** In every reachable state: one subject per batch and never past a bound, nothing lost or doubled,
      the count exact and within its ceiling, and order kept. */
  lemma {:induction false} EveryRunKeepsInv(c: Config, states: seq<State>, k: nat)
    requires Sensible(c) && IsRun(c, states) && k < |states|
    ensures Inv(c, states[k])
  {
    if k == 0 {
      assert InOpen(map[]) == multiset{};
    } else {
      EveryRunKeepsInv(c, states, k - 1);
      NextKeepsInv(c, states[k - 1], states[k]);
    }
  }

  /** When the first Close has returned nothing is buffered, and every event ever recorded, then or
      later, was published or fell back. */
  lemma NothingLeftAfterClose(c: Config, states: seq<State>, k: nat)
    requires Sensible(c) && IsRun(c, states) && k < |states| && states[k].closer.Returned?
    ensures var s := states[k];
            && s.held.buffered == 0 && s.held.open == map[] && s.held.ready == []
            && multiset(s.recorded) == multiset(s.published) + multiset(s.fallback)
            && forall subject :: EventsOf(s.accepted, subject) == BatchesOf(s.attempts, subject)
  {
    EveryRunKeepsInv(c, states, k);
    var s := states[k];
    forall subject
      ensures EventsOf(s.accepted, subject) == BatchesOf(s.attempts, subject)
    {
      assert OrderAt(s.accepted, s.attempts, s.held, subject);
    }
  }
}
