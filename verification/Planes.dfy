/** One generation per request: the chain cached for a catalogue, and the taxonomy a token is folded with, under
    every interleaving of requests, swaps, pre-flights and publications. */
module Planes {
  import opened Policy
  import opened Generations

  /** The compartment registry compiled from a generation's declarations. */
  datatype Registry = Registry(of: Catalogue)

  /** The chain built for a generation, and the taxonomy it decides with. */
  datatype Plane = Plane(cat: Catalogue, reg: Registry)

  function PlaneOf(cat: Catalogue): Plane {
    Plane(cat, Registry(cat))
  }

  function CatalogueOf(published: Option<Plane>): Option<Catalogue> {
    if published.None? then None else Some(published.value.cat)
  }

  predicate Hit(published: Option<Plane>, cat: Catalogue) {
    published.Some? && published.value.cat == cat
  }

  class Handler {
    var plane: Option<Plane>

    ghost predicate Valid()
      reads this
    {
      plane.Some? ==> plane.value == PlaneOf(plane.value.cat)
    }

    constructor ()
      ensures Valid() && plane == None
    {
      plane := None;
    }

    /** `governs` is whether this deployment can build a chain for the generation at all. */
    method PlaneFor(cat: Catalogue, governs: bool) returns (p: Option<Plane>)
      requires Valid()
      modifies this
      ensures Valid()
      ensures p.None? <==> !governs && !Hit(old(plane), cat)
      ensures p.Some? ==> p.value == Plane(cat, Registry(cat))
      ensures plane == if !Hit(old(plane), cat) && governs
                          && (old(plane).None? || old(plane).value.cat.loadedAt <= cat.loadedAt)
                       then Some(Plane(cat, Registry(cat))) else old(plane)
    {
      if plane.Some? && plane.value.cat == cat {
        return plane;
      }
      if !governs {
        return None;
      }
      var built := PlaneOf(cat);
      if NotOlder(built.cat, CatalogueOf(plane)) {
        plane := Some(built);
      }
      p := Some(built);
    }
  }

  /** The taxonomy a fold reads: the one pinned on the request, or the verifier's own. */
  function Compartments(pinned: Option<Registry>, fallback: Registry): Registry {
    if pinned.Some? then pinned.value else fallback
  }

  // ---- all interleavings

  type Thread = nat

  /** Where a thread is. A request reads the current catalogue once and keeps it; preparing a generation
      that has become current is the same walk, started with that generation. `Compared` is after the published
      chain was loaded and before anything is stored; `Pinned` is a request carrying its registry, if any. A
      caller with no chain folds from `Alone`. */
  datatype Phase =
    | Idle
    | Holding(cat: Catalogue)
    | Waiting(cat: Catalogue)
    | Locked(cat: Catalogue)
    | Built(cat: Catalogue, p: Plane)
    | Compared(cat: Catalogue, p: Plane, stores: bool)
    | Got(cat: Catalogue, p: Plane)
    | Pinned(cat: Catalogue, p: Plane, pinned: Option<Registry>)
    | Folded(cat: Catalogue, p: Plane, reg: Registry)
    | Alone(pinned: Option<Registry>)
    | FoldedAlone(reg: Registry)

  /** `served` is every generation that has been current; `fallback` the verifier's own taxonomy, which changes on
      its own clock. */
  datatype State = State(
    current: Option<Catalogue>, served: set<Catalogue>, fallback: Registry,
    published: Option<Plane>, lock: Option<Thread>, at: map<Thread, Phase>)

  ghost predicate Init(s: State) {
    && s.current.None? && s.served == {} && s.published.None? && s.lock.None?
    && forall t | t in s.at :: s.at[t].Idle?
  }

  /** One thread moves, from its phase in `s` to `next`. */
  ghost predicate Moves(s: State, s': State, t: Thread, next: Phase) {
    t in s.at && s' == s.(at := s.at[t := next], published := s'.published, lock := s'.lock) && (
      match s.at[t]
      case Idle =>
        && ((next.Holding? && (s.current == Some(next.cat) || next.cat in s.served)) || next == Alone(None))
        && s'.published == s.published && s'.lock == s.lock
      case Holding(cat) =>
        && s'.published == s.published && s'.lock == s.lock
        && (if Hit(s.published, cat) then next == Got(cat, s.published.value) else next == Waiting(cat))
      case Waiting(cat) =>
        s.lock.None? && s'.lock == Some(t) && s'.published == s.published && next == Locked(cat)
      case Locked(cat) =>
        && s'.published == s.published
        && (if Hit(s.published, cat) then s'.lock == None && next == Got(cat, s.published.value)
            else (s'.lock == s.lock && next == Built(cat, PlaneOf(cat))) || (s'.lock == None && next == Idle))
      case Built(cat, p) =>
        && s'.published == s.published && s'.lock == s.lock
        && next == Compared(cat, p, NotOlder(p.cat, CatalogueOf(s.published)))
      case Compared(cat, p, stores) =>
        s'.published == (if stores then Some(p) else s.published) && s'.lock == None && next == Got(cat, p)
      case Got(cat, p) =>
        s'.published == s.published && s'.lock == s.lock && (next == Pinned(cat, p, Some(p.reg)) || next == Idle)
      case Pinned(cat, p, pinned) =>
        && s'.published == s.published && s'.lock == s.lock
        && next == Folded(cat, p, Compartments(pinned, s.fallback))
      case Alone(pinned) =>
        && s'.published == s.published && s'.lock == s.lock && next == FoldedAlone(Compartments(pinned, s.fallback))
      case _ =>
        s'.published == s.published && s'.lock == s.lock && next == Idle)
  }

  ghost predicate Swap(s: State, s': State) {
    s'.current.Some? && s' == s.(current := s'.current, served := s.served + {s'.current.value})
  }

  /** The verifier is given another taxonomy, at any time and of any generation. */
  ghost predicate Retaxonomise(s: State, s': State) {
    s' == s.(fallback := s'.fallback)
  }

  ghost predicate Spawn(s: State, s': State, t: Thread) {
    t !in s.at && s' == s.(at := s.at[t := Idle])
  }

  /** The pre-flight of a candidate builds a chain and throws it away. */
  ghost predicate Check(s: State, s': State) {
    s' == s
  }

  ghost predicate Next(s: State, s': State) {
    || (exists t, next :: Moves(s, s', t, next))
    || Swap(s, s')
    || Retaxonomise(s, s')
    || (exists t :: Spawn(s, s', t))
    || Check(s, s')
  }

  /** Between taking the build lock and giving it back. */
  ghost predicate Inside(p: Phase) {
    p.Locked? || p.Built? || p.Compared?
  }

  /** What a thread holds is for the generation it read, and folds with that generation's taxonomy. */
  ghost predicate OneGeneration(p: Phase) {
    match p
    case Built(cat, p) => p == PlaneOf(cat)
    case Compared(cat, p, _) => p == PlaneOf(cat)
    case Got(cat, p) => p == PlaneOf(cat)
    case Pinned(cat, p, pinned) => p == PlaneOf(cat) && pinned == Some(Registry(cat))
    case Folded(cat, p, reg) => p == PlaneOf(cat) && reg == Registry(cat)
    case _ => true
  }

  /** A generation that was, at some time, the one being served. */
  ghost predicate OfServed(served: set<Catalogue>, p: Phase) {
    p.Idle? || p.Alone? || p.FoldedAlone? || p.cat in served
  }

  /** A comparison made under the lock is still true when it is acted on. */
  ghost predicate StillNotOlder(published: Option<Plane>, p: Phase) {
    p.Compared? && p.stores ==> NotOlder(p.p.cat, CatalogueOf(published))
  }

  ghost predicate Sound(s: State, t: Thread)
    requires t in s.at
  {
    && OneGeneration(s.at[t]) && OfServed(s.served, s.at[t]) && StillNotOlder(s.published, s.at[t])
    && (Inside(s.at[t]) ==> s.lock == Some(t))
  }

  ghost predicate Inv(s: State) {
    && (s.current.Some? ==> s.current.value in s.served)
    && (forall t | t in s.at :: Sound(s, t))
    && (s.published.Some? ==>
          s.published.value == PlaneOf(s.published.value.cat) && s.published.value.cat in s.served)
  }

  ghost predicate NeverBack(a: Option<Plane>, b: Option<Plane>) {
    a.Some? ==> b.Some? && a.value.cat.loadedAt <= b.value.cat.loadedAt
  }

  /** Only the holder of the lock publishes, so nobody else's comparison goes stale. */
  lemma MoveKeeps(s: State, s': State, t: Thread, next: Phase)
    requires Inv(s) && Moves(s, s', t, next)
    ensures Inv(s') && NeverBack(s.published, s'.published)
  {
    assert Sound(s, t);
    forall u | u in s'.at
      ensures Sound(s', u)
    {
      if u != t {
        assert Sound(s, u);
      }
    }
  }

  lemma NextKeeps(s: State, s': State)
    requires Inv(s) && Next(s, s')
    ensures Inv(s') && NeverBack(s.published, s'.published)
  {
    if t, next :| Moves(s, s', t, next) {
      MoveKeeps(s, s', t, next);
    } else {
      forall u | u in s'.at
        ensures Sound(s', u)
      {
        if u in s.at {
          assert Sound(s, u);
        }
      }
    }
  }

  ghost predicate IsRun(states: seq<State>) {
    states != [] && Init(states[0]) && forall i | 0 <= i < |states| - 1 :: Next(states[i], states[i + 1])
  }

  /** In every run: a request's chain is for the one generation it read and its fold reads that generation's taxonomy,
      whatever the verifier's own is; at most one thread builds; no chain is published for a generation that was
      never served; and the published chain never goes back to an earlier load. */
  lemma {:induction false} OneGenerationPerRequest(states: seq<State>, j: nat, k: nat)
    requires IsRun(states) && j <= k < |states|
    ensures Inv(states[k]) && NeverBack(states[j].published, states[k].published)
    decreases k
  {
    if k > 0 {
      OneGenerationPerRequest(states, if j < k then j else k - 1, k - 1);
      NextKeeps(states[k - 1], states[k]);
    }
  }
}
