/** What a caller may use: folding a delegation chain into one authority, the visibility
    predicate both listing and enforcement ask, and previewing as a lesser principal. */
module Authority {
  import opened Policy
  import opened CardTree
  import opened CardTheorems
  import opened CardResponse
  import opened CardProjection

  // ---- verbs, a bitset of eight

  type VerbSet = bv8

  function Bit(verb: int): bv8 {
    if verb == 1 then 2 else if verb == 2 then 4 else if verb == 3 then 8 else if verb == 4 then 16
    else if verb == 5 then 32 else if verb == 6 then 64 else if verb == 7 then 128 else 0
  }

  /** The unspecified verb, and one past the width, belong to no set. */
  predicate Has(s: VerbSet, verb: int) {
    s & Bit(verb) != 0
  }

  lemma BitsAreDistinct(a: int, b: int)
    ensures Has(Bit(a), b) <==> a == b && 1 <= b <= 7
  {
  }

  lemma HasUnion(s: VerbSet, t: VerbSet, verb: int)
    ensures Has(s | t, verb) <==> Has(s, verb) || Has(t, verb)
  {
    var b := Bit(verb);
    assert (s | t) & b == (s & b) | (t & b);
  }

  lemma HasIntersection(s: VerbSet, t: VerbSet, verb: int)
    ensures Has(s & t, verb) <==> Has(s, verb) && Has(t, verb)
  {
    var b := Bit(verb);
    assert b == 0 || b == 2 || b == 4 || b == 8 || b == 16 || b == 32 || b == 64 || b == 128;
  }

  method NewVerbSet(verbs: seq<int>) returns (out: VerbSet)
    ensures forall v :: Has(out, v) <==> v in verbs && 1 <= v <= 7
  {
    out := 0;
    for i := 0 to |verbs|
      invariant forall v :: Has(out, v) <==> v in verbs[..i] && 1 <= v <= 7
    {
      assert verbs[..i + 1] == verbs[..i] + [verbs[i]];
      var next := out | Bit(verbs[i]);
      forall v
        ensures Has(next, v) <==> v in verbs[..i + 1] && 1 <= v <= 7
      {
        HasUnion(out, Bit(verbs[i]), v);
        BitsAreDistinct(verbs[i], v);
      }
      out := next;
    }
  }

  // ---- claims

  datatype Level = Level(
    subject: string, kind: string, clearance: int, compartments: seq<string>, verbs: seq<string>, toolSets: seq<string>)

  /** A token's claims; `act` is the next identity down the delegation chain. */
  datatype Claims = Claims(level: Level, act: Option<Claims>)

  function Levels(c: Claims): (ls: seq<Level>)
    ensures ls != []
  {
    [c.level] + if c.act.None? then [] else Levels(c.act.value)
  }

  const MAX_DELEGATION_DEPTH := 4

  /** The verb a claim names, under either of its spellings, if it names one. */
  function VerbOf(vocabulary: map<string, int>, name: string): Option<int> {
    if name in vocabulary then Some(vocabulary[name])
    else if "VERB_" + name in vocabulary then Some(vocabulary["VERB_" + name])
    else None
  }

  /** The name is the verb's own, or becomes it behind the prefix. */
  ghost predicate Spells(vocabulary: map<string, int>, name: string, verb: int) {
    || (name in vocabulary && vocabulary[name] == verb)
    || (name !in vocabulary && "VERB_" + name in vocabulary && vocabulary["VERB_" + name] == verb)
  }

  ghost predicate Claimed(vocabulary: map<string, int>, l: Level, verb: int) {
    1 <= verb <= 7 && exists n | n in l.verbs :: Spells(vocabulary, n, verb)
  }

  method VerbSetFromNames(vocabulary: map<string, int>, l: Level) returns (out: VerbSet)
    ensures forall v :: Has(out, v) <==> Claimed(vocabulary, l, v)
  {
    var vs := [];
    for i := 0 to |l.verbs|
      invariant forall v :: v in vs <==> exists j | 0 <= j < i :: Spells(vocabulary, l.verbs[j], v)
    {
      match VerbOf(vocabulary, l.verbs[i]) {
        case Some(v) => vs := vs + [v];
        case None =>
      }
    }
    out := NewVerbSet(vs);
  }

  // ---- principals

  /** One hop as its own level attests it. */
  datatype Hop = Hop(subject: string, kind: int)

  /** An unknown kind, like an absent one, is the unspecified kind: attribution, not authority. */
  function KindOf(kinds: map<string, int>, name: string): int {
    if name != "" && name in kinds then kinds[name] else UNSPECIFIED
  }

  ghost predicate IsKind(kinds: map<string, int>, name: string, kind: int) {
    (name != "" && name in kinds ==> kind == kinds[name]) && (name == "" || name !in kinds ==> kind == 0)
  }

  /** `toolSets` None is unscoped: everything otherwise entitled to. */
  datatype Principal = Principal(
    subject: string, kind: int, actor: string, chain: seq<Hop>,
    shape: Shape, verbs: VerbSet, toolSets: Option<seq<string>>)

  datatype Tool = Tool(verb: int, minClearance: int, compartments: seq<string>, sets: seq<string>)

  predicate InScope(scope: Option<seq<string>>, sets: seq<string>) {
    scope.Some? ==> exists s | s in scope.value :: s in sets
  }

  /** A tool mounts only when every compartment it names is declared. */
  predicate Mounted(r: Rules, t: Tool) {
    BitsOf(r, t.compartments).Some?
  }

  predicate Visible(r: Rules, p: Principal, t: Tool)
    requires Mounted(r, t)
  {
    && Has(p.verbs, t.verb) && Clears(r, p.shape, t.minClearance, BitsOf(r, t.compartments).value)
    && InScope(p.toolSets, t.sets)
  }

  // ---- the fold

  /** No set named at a level is no constraint from it. */
  predicate Scopes(l: Level) {
    l.toolSets != []
  }

  ghost predicate SetsFolded(sets: Option<seq<string>>, ls: seq<Level>) {
    && (sets.None? <==> forall l | l in ls :: !Scopes(l))
    && (sets.Some? ==> forall s :: s in sets.value <==> forall l | l in ls && Scopes(l) :: s in l.toolSets)
  }

  ghost predicate CompartmentsFolded(r: Rules, bits: set<nat>, ls: seq<Level>) {
    forall b :: b in bits <==> forall l | l in ls :: b in LenientBitsOf(r, l.compartments)
  }

  ghost predicate VerbsFolded(vocabulary: map<string, int>, verbs: VerbSet, ls: seq<Level>) {
    forall v :: Has(verbs, v) <==> 1 <= v <= 7 && forall l | l in ls :: Claimed(vocabulary, l, v)
  }

  ghost predicate ClearanceFolded(clearance: int, ls: seq<Level>) {
    && (forall l | l in ls :: clearance <= l.clearance)
    && exists l | l in ls :: clearance == l.clearance
  }

  /** The authority a chain of identities carries: what every one of them holds. */
  ghost predicate IsFoldOf(r: Rules, vocabulary: map<string, int>, p: Principal, ls: seq<Level>) {
    && ClearanceFolded(p.shape.clearance, ls)
    && CompartmentsFolded(r, p.shape.compartments, ls)
    && VerbsFolded(vocabulary, p.verbs, ls)
    && SetsFolded(p.toolSets, ls)
  }

  /** Narrows a scope by one identity's claim. */
  method IntersectSets(have: Option<seq<string>>, add: seq<string>) returns (out: Option<seq<string>>)
    ensures add == [] ==> out == have
    ensures add != [] ==> out.Some? && forall s :: s in out.value <==> s in add && (have.Some? ==> s in have.value)
  {
    if add == [] {
      return have;
    }
    if have.None? {
      return Some(add);
    }
    var keep := [];
    for i := 0 to |have.value|
      invariant forall s :: s in keep <==> s in have.value[..i] && s in add
    {
      assert have.value[..i + 1] == have.value[..i] + [have.value[i]];
      if have.value[i] in add {
        keep := keep + [have.value[i]];
      }
    }
    assert have.value[..|have.value|] == have.value;
    out := Some(keep);
  }

  lemma SetsStep(have: Option<seq<string>>, ls: seq<Level>, l: Level, out: Option<seq<string>>)
    requires SetsFolded(have, ls)
    requires l.toolSets == [] ==> out == have
    requires l.toolSets != [] ==>
               out.Some? && forall s :: s in out.value <==> s in l.toolSets && (have.Some? ==> s in have.value)
    ensures SetsFolded(out, ls + [l])
  {
    var all := ls + [l];
    assert forall x :: x in all <==> x in ls || x == l;
    if Scopes(l) {
      assert l in all;
    } else {
      assert forall x :: x in all && Scopes(x) <==> x in ls && Scopes(x);
    }
  }

  /** The names a level claims that this generation does not declare, in the order claimed. */
  function Undeclared(r: Rules, names: seq<string>): seq<string> {
    if names == [] then []
    else (if names[0] in r.bit then [] else [names[0]]) + Undeclared(r, names[1..])
  }

  /** What every level of a chain lost, outermost first. */
  function DroppedBy(r: Rules, c: Option<Claims>): seq<string>
    decreases c
  {
    if c.None? then [] else Undeclared(r, c.value.level.compartments) + DroppedBy(r, c.value.act)
  }

  /** Lenient reading loses exactly the names it reports: a claim is held or dropped, never both and never neither. */
  lemma {:induction false} DroppedOrHeld(r: Rules, names: seq<string>, name: string)
    ensures name in Undeclared(r, names) <==> name in names && name !in r.bit
    ensures name in names && name in r.bit ==> r.bit[name] in LenientBitsOf(r, names)
  {
    if names != [] {
      DroppedOrHeld(r, names[1..], name);
    }
  }

  /** Walks the chain from the subject inwards. Each level intersects, so no level can add. */
  method Fold(r: Rules, vocabulary: map<string, int>, kinds: map<string, int>, c: Claims)
      returns (out: Option<Principal>, dropped: seq<string>)
    ensures out.None? <==> |Levels(c)| > 4
    ensures out.Some? ==> IsFoldOf(r, vocabulary, out.value, Levels(c)) && dropped == DroppedBy(r, Some(c))
    ensures out.Some? ==>
              var ls := Levels(c);
              && out.value.subject == ls[0].subject && IsKind(kinds, ls[0].kind, out.value.kind)
              && Follows(kinds, out.value.chain, ls)
              && out.value.actor == if |ls| > 1 then ls[|ls| - 1].subject else ""
  {
    dropped := [];
    var depth := Depth(c);
    if depth > MAX_DELEGATION_DEPTH {
      return None, [];
    }
    var p;
    p, dropped := FoldChain(r, vocabulary, kinds, c);
    out := Some(p.(actor := if |p.chain| > 1 then p.chain[|p.chain| - 1].subject else ""));
  }

  method FoldChain(r: Rules, vocabulary: map<string, int>, kinds: map<string, int>, c: Claims)
      returns (p: Principal, dropped: seq<string>)
    ensures Carries(r, vocabulary, kinds, p, Levels(c)) && dropped == DroppedBy(r, Some(c))
  {
    ghost var done := [c.level];
    p := Subject(r, vocabulary, kinds, c.level);
    dropped := Undeclared(r, c.level.compartments);
    var cur := c.act;
    while cur.Some?
      invariant Levels(c) == done + Inner(cur)
      invariant Carries(r, vocabulary, kinds, p, done)
      invariant DroppedBy(r, Some(c)) == dropped + DroppedBy(r, cur)
      decreases cur
    {
      OneLevelIn(r, done, dropped, cur.value);
      p := FoldLevel(r, vocabulary, kinds, p, cur.value.level, done);
      dropped := dropped + Undeclared(r, cur.value.level.compartments);
      done := done + [cur.value.level];
      cur := cur.value.act;
    }
    assert Levels(c) == done && dropped + [] == dropped;
  }

  function Inner(c: Option<Claims>): seq<Level> {
    if c.None? then [] else Levels(c.value)
  }

  lemma OneLevelIn(r: Rules, done: seq<Level>, dropped: seq<string>, c: Claims)
    ensures done + Inner(Some(c)) == done + [c.level] + Inner(c.act)
    ensures dropped + DroppedBy(r, Some(c)) == dropped + Undeclared(r, c.level.compartments) + DroppedBy(r, c.act)
  {
  }

  /** Authority and attribution of a chain of identities. */
  ghost predicate Carries(
      r: Rules, vocabulary: map<string, int>, kinds: map<string, int>, p: Principal, ls: seq<Level>)
  {
    && IsFoldOf(r, vocabulary, p, ls) && Follows(kinds, p.chain, ls)
    && ls != [] && p.subject == ls[0].subject && p.kind == KindOf(kinds, ls[0].kind)
  }

  method Subject(r: Rules, vocabulary: map<string, int>, kinds: map<string, int>, l: Level) returns (p: Principal)
    ensures Carries(r, vocabulary, kinds, p, [l])
  {
    var verbs := VerbSetFromNames(vocabulary, l);
    var toolSets := IntersectSets(None, l.toolSets);
    var kind := KindOf(kinds, l.kind);
    p := Principal(l.subject, kind, "", [Hop(l.subject, kind)],
                   Shape(l.clearance, LenientBitsOf(r, l.compartments)), verbs, toolSets);
    FoldBase(r, vocabulary, p, l);
  }

  method FoldLevel(
      r: Rules, vocabulary: map<string, int>, kinds: map<string, int>, p: Principal, l: Level, ghost done: seq<Level>)
      returns (q: Principal)
    requires Carries(r, vocabulary, kinds, p, done)
    ensures Carries(r, vocabulary, kinds, q, done + [l])
  {
    var verbs := VerbSetFromNames(vocabulary, l);
    var toolSets := IntersectSets(p.toolSets, l.toolSets);
    FoldStep(r, vocabulary, p, done, l, verbs, toolSets);
    q := Meet(r, kinds, p, l, verbs, toolSets);
  }

  ghost predicate Follows(kinds: map<string, int>, chain: seq<Hop>, ls: seq<Level>) {
    |chain| == |ls| && forall i | 0 <= i < |ls| ::
      chain[i].subject == ls[i].subject && IsKind(kinds, ls[i].kind, chain[i].kind)
  }

  /** One more level: the lower clearance, and what both hold of everything else. */
  function Meet(
      r: Rules, kinds: map<string, int>, p: Principal, l: Level, verbs: VerbSet, toolSets: Option<seq<string>>)
      : Principal
  {
    p.(chain := p.chain + [Hop(l.subject, KindOf(kinds, l.kind))],
       shape := MeetShapes(r, p.shape, l), verbs := p.verbs & verbs, toolSets := toolSets)
  }

  function MeetShapes(r: Rules, s: Shape, l: Level): Shape {
    Shape(if l.clearance < s.clearance then l.clearance else s.clearance,
          s.compartments * LenientBitsOf(r, l.compartments))
  }

  lemma FoldBase(r: Rules, vocabulary: map<string, int>, p: Principal, l: Level)
    requires p.shape == Shape(l.clearance, LenientBitsOf(r, l.compartments))
    requires forall v :: Has(p.verbs, v) <==> Claimed(vocabulary, l, v)
    requires l.toolSets == [] ==> p.toolSets == None
    requires l.toolSets != [] ==> p.toolSets.Some? && forall s :: s in p.toolSets.value <==> s in l.toolSets
    ensures IsFoldOf(r, vocabulary, p, [l])
  {
    SetsStep(None, [], l, p.toolSets);
    assert [] + [l] == [l];
    assert l in [l];
  }

  lemma FoldStep(
      r: Rules, vocabulary: map<string, int>, p: Principal, done: seq<Level>, l: Level,
      verbs: VerbSet, toolSets: Option<seq<string>>)
    requires IsFoldOf(r, vocabulary, p, done)
    requires forall v :: Has(verbs, v) <==> Claimed(vocabulary, l, v)
    requires l.toolSets == [] ==> toolSets == p.toolSets
    requires l.toolSets != [] ==>
               && toolSets.Some?
               && forall s :: s in toolSets.value <==> s in l.toolSets && (p.toolSets.Some? ==> s in p.toolSets.value)
    ensures forall q: Principal ::
              q.shape == MeetShapes(r, p.shape, l) && q.verbs == p.verbs & verbs && q.toolSets == toolSets ==>
              IsFoldOf(r, vocabulary, q, done + [l])
  {
    SetsStep(p.toolSets, done, l, toolSets);
    VerbsStep(vocabulary, p.verbs, verbs, done, l);
    CompartmentsStep(r, p.shape.compartments, done, l);
    ClearanceStep(p.shape.clearance, done, l);
  }

  method Depth(c: Claims) returns (n: nat)
    ensures n == |Levels(c)|
  {
    n := 0;
    var cur := Some(c);
    while cur.Some?
      invariant |Levels(c)| == n + if cur.Some? then |Levels(cur.value)| else 0
      decreases cur
    {
      n := n + 1;
      cur := cur.value.act;
    }
  }

  lemma VerbsStep(vocabulary: map<string, int>, verbs: VerbSet, added: VerbSet, ls: seq<Level>, l: Level)
    requires VerbsFolded(vocabulary, verbs, ls) && forall v :: Has(added, v) <==> Claimed(vocabulary, l, v)
    ensures VerbsFolded(vocabulary, verbs & added, ls + [l])
  {
    assert forall x :: x in ls + [l] <==> x in ls || x == l;
    var both := verbs & added;
    forall v
      ensures Has(both, v) <==> 1 <= v <= 7 && forall x | x in ls + [l] :: Claimed(vocabulary, x, v)
    {
      HasIntersection(verbs, added, v);
    }
  }

  lemma CompartmentsStep(r: Rules, bits: set<nat>, ls: seq<Level>, l: Level)
    requires CompartmentsFolded(r, bits, ls)
    ensures CompartmentsFolded(r, bits * LenientBitsOf(r, l.compartments), ls + [l])
  {
    assert forall x :: x in ls + [l] <==> x in ls || x == l;
  }

  lemma ClearanceStep(clearance: int, ls: seq<Level>, l: Level)
    requires ClearanceFolded(clearance, ls)
    ensures ClearanceFolded(if l.clearance < clearance then l.clearance else clearance, ls + [l])
  {
    assert forall x :: x in ls + [l] <==> x in ls || x == l;
    var x :| x in ls && clearance == x.clearance;
    assert x in ls + [l] && l in ls + [l];
  }

  // ---- the fold in terms of the names each identity claimed

  /** Every level holds what the tool asks, by name, and some set of the tool is in every scope. */
  ghost predicate EveryLevelHolds(r: Rules, vocabulary: map<string, int>, ls: seq<Level>, t: Tool) {
    && (forall l | l in ls ::
          && Claimed(vocabulary, l, t.verb)
          && r.allows(l.clearance, t.minClearance)
          && Names(t.compartments) <= Names(l.compartments))
    && ((forall l | l in ls :: !Scopes(l))
        || exists s | s in t.sets :: forall l | l in ls && Scopes(l) :: s in l.toolSets)
  }

  /** A token states a clearance at every level; parsing refuses one that does not. */
  ghost predicate Parsed(ls: seq<Level>) {
    ls != [] && forall l | l in ls :: Specified(l.clearance)
  }

  lemma FoldRefinesNames(r: Rules, vocabulary: map<string, int>, p: Principal, ls: seq<Level>, t: Tool)
    requires Lawful(r) && Mounted(r, t) && Parsed(ls) && IsFoldOf(r, vocabulary, p, ls)
    ensures Visible(r, p, t) <==> EveryLevelHolds(r, vocabulary, ls, t)
  {
    FoldedClearance(r, p, ls, t);
    FoldedCompartments(r, p, ls, t);
    FoldedScope(p, ls, t);
    assert ls[0] in ls;
  }

  lemma FoldedClearance(r: Rules, p: Principal, ls: seq<Level>, t: Tool)
    requires Lawful(r) && Parsed(ls) && ClearanceFolded(p.shape.clearance, ls)
    ensures r.allows(p.shape.clearance, t.minClearance) <==> forall l | l in ls :: r.allows(l.clearance, t.minClearance)
  {
  }

  lemma FoldedCompartments(r: Rules, p: Principal, ls: seq<Level>, t: Tool)
    requires Lawful(r) && Mounted(r, t) && CompartmentsFolded(r, p.shape.compartments, ls)
    ensures BitsOf(r, t.compartments).value <= p.shape.compartments <==>
            forall l | l in ls :: Names(t.compartments) <= Names(l.compartments)
  {
    var need := BitsOf(r, t.compartments).value;
    forall l | l in ls
      ensures need <= LenientBitsOf(r, l.compartments) <==> Names(t.compartments) <= Names(l.compartments)
    {
      CoversIsNames(r, l.compartments, t.compartments);
    }
    assert need <= p.shape.compartments <==> forall l | l in ls :: need <= LenientBitsOf(r, l.compartments);
  }

  lemma FoldedScope(p: Principal, ls: seq<Level>, t: Tool)
    requires SetsFolded(p.toolSets, ls)
    ensures InScope(p.toolSets, t.sets) <==>
            || (forall l | l in ls :: !Scopes(l))
            || exists s | s in t.sets :: forall l | l in ls && Scopes(l) :: s in l.toolSets
  {
    if p.toolSets.Some? {
      assert forall s :: s in p.toolSets.value && s in t.sets <==>
                         s in t.sets && forall l | l in ls && Scopes(l) :: s in l.toolSets;
    }
  }

  /** The same of cards: a label is reached by a folded chain exactly when every level has the clearance and, by name,
      every compartment, all of them declared. */
  lemma FoldReachesByName(
      s: Schema, r: Rules, vocabulary: map<string, int>, p: Principal, ls: seq<Level>, l: Label)
    requires Lawful(r) && Parsed(ls) && IsFoldOf(r, vocabulary, p, ls)
    ensures ReachesLabel(Viewer(s, r, p.shape), l) <==>
            && (forall n | n in l.compartments :: n in r.bit)
            && (forall k | k in ls :: r.allows(k.clearance, l.clearance))
            && (forall k, n | k in ls && n in l.compartments :: n in k.compartments)
  {
    var t := Tool(1, l.clearance, l.compartments, []);
    FoldedClearance(r, p, ls, t);
    if Mounted(r, t) {
      FoldedCompartments(r, p, ls, t);
      assert forall k | k in ls ::
          Names(l.compartments) <= Names(k.compartments) <==> forall n | n in l.compartments :: n in k.compartments;
    }
  }

  /** Who comes before whom in a chain is attribution, not authority. */
  lemma HopOrderIsIrrelevant(
      r: Rules, vocabulary: map<string, int>, p: Principal, q: Principal, ls: seq<Level>, ks: seq<Level>, t: Tool)
    requires Lawful(r) && Mounted(r, t) && Parsed(ls) && multiset(ls) == multiset(ks)
    requires IsFoldOf(r, vocabulary, p, ls) && IsFoldOf(r, vocabulary, q, ks)
    ensures Visible(r, p, t) <==> Visible(r, q, t)
  {
    assert forall l :: l in ls <==> l in multiset(ls);
    assert forall l :: l in ks <==> l in multiset(ks);
    assert |ls| == |multiset(ls)| == |multiset(ks)| == |ks|;
    FoldRefinesNames(r, vocabulary, p, ls, t);
    FoldRefinesNames(r, vocabulary, q, ks, t);
  }

  /** Whatever a hop claims for itself, adding it anywhere shows nothing more. */
  lemma AddingAHopNeverWidens(
      r: Rules, vocabulary: map<string, int>, p: Principal, q: Principal,
      before: seq<Level>, hop: Level, after: seq<Level>, t: Tool)
    requires Lawful(r) && Mounted(r, t) && Parsed(before + after) && Specified(hop.clearance)
    requires IsFoldOf(r, vocabulary, p, before + after) && IsFoldOf(r, vocabulary, q, before + [hop] + after)
    ensures Visible(r, q, t) ==> Visible(r, p, t)
  {
    var ls, ks := before + after, before + [hop] + after;
    assert forall l :: l in ks <==> l in ls || l == hop;
    FoldRefinesNames(r, vocabulary, p, ls, t);
    FoldRefinesNames(r, vocabulary, q, ks, t);
    assert (forall l | l in ks :: !Scopes(l)) ==> forall l | l in ls :: !Scopes(l);
  }

  // ---- previews

  datatype ShapeRequest = ShapeRequest(
    clearance: Option<int>, compartments: seq<string>, verbs: seq<int>, toolSets: seq<string>)

  /** `q` is a lesser view of `p`. */
  ghost predicate Lesser(r: Rules, q: Principal, p: Principal) {
    && Within(q.shape, p.shape)
    && (forall v :: Has(q.verbs, v) ==> Has(p.verbs, v))
    && (forall sets :: InScope(q.toolSets, sets) ==> InScope(p.toolSets, sets))
  }

  /** What is asked for of clearance and compartments is within what is held. */
  ghost predicate MayTake(r: Rules, p: Principal, want: ShapeRequest) {
    && (want.clearance.Some? && want.clearance.value != UNSPECIFIED ==>
          r.allows(p.shape.clearance, want.clearance.value))
    && (want.compartments != [] ==>
          forall n | n in want.compartments :: n in r.bit && r.bit[n] in p.shape.compartments)
  }

  ghost predicate Entitled(r: Rules, p: Principal, want: ShapeRequest) {
    MayTake(r, p, want) && forall v | v in want.verbs :: Has(p.verbs, v)
  }

  /** Each dimension is what was asked for, and the source's own where nothing was. */
  ghost predicate AsAsked(r: Rules, p: Principal, want: ShapeRequest, q: Principal) {
    && ShapedAsAsked(r, p, want, q.shape) && VerbsAsAsked(p, want, q.verbs)
    && (if want.toolSets == [] then q.toolSets == p.toolSets
        else q.toolSets.Some? && forall s ::
               s in q.toolSets.value <==> s in want.toolSets && (p.toolSets.Some? ==> s in p.toolSets.value))
  }

  ghost predicate ShapedAsAsked(r: Rules, p: Principal, want: ShapeRequest, shape: Shape) {
    && (shape.clearance == if want.clearance.Some? && want.clearance.value != UNSPECIFIED
                           then want.clearance.value else p.shape.clearance)
    && (if want.compartments == [] then shape.compartments == p.shape.compartments
        else forall b :: b in shape.compartments <==> exists n | n in want.compartments :: n in r.bit && r.bit[n] == b)
  }

  ghost predicate VerbsAsAsked(p: Principal, want: ShapeRequest, verbs: VerbSet) {
    if want.verbs == [] then verbs == p.verbs
    else forall v :: Has(verbs, v) <==> v in want.verbs && 1 <= v <= 7
  }

  lemma AsAskedIsLesser(r: Rules, p: Principal, want: ShapeRequest, q: Principal)
    requires Lawful(r) && Specified(p.shape.clearance) && Entitled(r, p, want) && AsAsked(r, p, want, q)
    requires want.clearance.Some? ==> want.clearance.value >= UNSPECIFIED
    ensures Lesser(r, q, p)
  {
  }

  /** A view goes down or is refused; exactly the widenings are refused, and what was not asked about is kept. */
  method Narrow(r: Rules, p: Principal, want: ShapeRequest) returns (out: Option<Principal>)
    requires Lawful(r) && Specified(p.shape.clearance)
    requires want.clearance.Some? ==> want.clearance.value >= UNSPECIFIED
    ensures out.Some? <==> Entitled(r, p, want)
    ensures out.Some? ==> Lesser(r, out.value, p)
    ensures out.Some? ==>
              && out.value.subject == p.subject && out.value.kind == p.kind
              && out.value.actor == p.actor && out.value.chain == p.chain
    ensures out.Some? && want == ShapeRequest(None, [], [], []) ==> out.value == p
    ensures out.Some? ==> AsAsked(r, p, want, out.value)
  {
    var shape := NarrowShape(r, p, want);
    if shape.None? {
      return None;
    }
    var verbs := NarrowVerbs(p, want);
    if verbs.None? {
      return None;
    }
    var q := p.(shape := shape.value, verbs := verbs.value);
    if want.toolSets != [] {
      var sets := IntersectSets(p.toolSets, want.toolSets);
      q := q.(toolSets := sets);
    }
    AsAskedIsLesser(r, p, want, q);
    out := Some(q);
  }

  method NarrowShape(r: Rules, p: Principal, want: ShapeRequest) returns (out: Option<Shape>)
    ensures out.Some? <==> MayTake(r, p, want)
    ensures out.Some? ==> ShapedAsAsked(r, p, want, out.value)
  {
    var shape := p.shape;
    if want.clearance.Some? && want.clearance.value != UNSPECIFIED {
      if !r.allows(p.shape.clearance, want.clearance.value) {
        return None;
      }
      shape := shape.(clearance := want.clearance.value);
    }
    if want.compartments != [] {
      var bits := BitsOf(r, want.compartments);
      if bits.None? || !(bits.value <= p.shape.compartments) {
        return None;
      }
      shape := shape.(compartments := bits.value);
    }
    out := Some(shape);
  }

  method NarrowVerbs(p: Principal, want: ShapeRequest) returns (out: Option<VerbSet>)
    ensures out.Some? <==> forall v | v in want.verbs :: Has(p.verbs, v)
    ensures out.Some? ==> VerbsAsAsked(p, want, out.value)
  {
    if want.verbs == [] {
      return Some(p.verbs);
    }
    for i := 0 to |want.verbs|
      invariant forall j | 0 <= j < i :: Has(p.verbs, want.verbs[j])
    {
      if !Has(p.verbs, want.verbs[i]) {
        return None;
      }
    }
    var verbs := NewVerbSet(want.verbs);
    out := Some(verbs);
  }

  /** A preview lists no tool its source does not. */
  lemma PreviewSeesFewerTools(r: Rules, q: Principal, p: Principal, t: Tool)
    requires Lawful(r) && Mounted(r, t) && Lesser(r, q, p)
    ensures Visible(r, q, t) ==> Visible(r, p, t)
  {
    ClearsIsMonotone(r, q.shape, p.shape, t.minClearance, BitsOf(r, t.compartments).value);
  }

  /** Nor is it shown anything of a response its source is not: it is refused alike, told a card is gone wherever its
      source is, and otherwise served what projecting its source's answer for it would give. */
  lemma PreviewSeesLessOfCards(s: Schema, r: Rules, q: Principal, p: Principal, resp: Message, floor: Floor)
    requires Lawful(r) && Lesser(r, q, p)
    ensures var narrow, wide := Viewer(s, r, q.shape), Viewer(s, r, p.shape);
            var n, w := ProjectCards(narrow, resp, floor), ProjectCards(wide, resp, floor);
            && (w.Invalid? || n.Invalid? ==> n == w)
            && (w.Gone? ==> n.Gone?)
            && (w.Served? ==> SameButDisclosed(ProjectCards(narrow, w.resp, floor), n))
  {
    var narrow, wide := Viewer(s, r, q.shape), Viewer(s, r, p.shape);
    NarrowShapeSeesNoMore(narrow, wide);
    NarrowAnswerFactors(narrow, wide, resp, floor);
  }

  // ---- what step 2 establishes for step 8

  /** The floor a card is held to: the endpoint's policy joined with the message's own default. */
  function FloorFor(t: Tool, messageDefault: Option<Label>): (f: Floor)
    ensures AtLeast(f.lbl, Label(t.minClearance, t.compartments))
    ensures messageDefault.Some? ==> AtLeast(f.lbl, messageDefault.value)
    ensures forall l: Label | AtLeast(l, Label(t.minClearance, t.compartments))
                              && (messageDefault.Some? ==> AtLeast(l, messageDefault.value)) :: AtLeast(l, f.lbl)
  {
    var endpoint := Label(t.minClearance, t.compartments);
    Floor(if messageDefault.Some? then Join(endpoint, messageDefault.value) else endpoint, "label_below_endpoint")
  }

  /** A caller that may see the tool can use its floor, stated or not. */
  lemma VisibleMakesFloorUsable(s: Schema, r: Rules, p: Principal, t: Tool, messageDefault: Option<Label>)
    requires Lawful(r) && Mounted(r, t) && Specified(p.shape.clearance) && t.minClearance >= UNSPECIFIED
    requires Visible(r, p, t)
    ensures Usable(Viewer(s, r, p.shape), FloorFor(t, messageDefault).lbl)
  {
  }
}
