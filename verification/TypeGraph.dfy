/** Which types a card can be found below: a search of the descriptor graph, which is cyclic. */
module TypeGraph {
  import opened Policy
  import opened Protobuf
  import opened CardTree

  /** Whether the card walk descends into a field. Well-known types hold no labels and no cards. */
  predicate Descends(fd: FieldDesc) {
    fd.kind.Sub? && !("google.protobuf." <= fd.kind.target)
  }

  /** Descriptors arrive resolved: every message a field names is there. */
  ghost predicate Resolved(s: Schema) {
    forall t, fd | t in s && fd in s[t] && fd.kind.Sub? :: fd.kind.target in s
  }

  /** `p` follows fields from type to type. */
  ghost predicate IsRoute(s: Schema, p: seq<TypeName>) {
    && p != []
    && forall i | 0 <= i < |p| - 1 :: Steps(s, p[i], p[i + 1])
  }

  /** Some field of the one type is, or lists, or maps to, the other, which is not well-known. */
  ghost predicate Steps(s: Schema, t: TypeName, u: TypeName) {
    t in s && !("google.protobuf." <= u) && exists fd | fd in s[t] :: fd.kind == Sub(u)
  }

  ghost predicate LeadsToCard(p: seq<TypeName>, t: TypeName) {
    p != [] && p[0] == t && p[|p| - 1] == CARD
  }

  /** A card is reachable from this type. */
  ghost predicate HoldsCards(s: Schema, t: TypeName) {
    exists p :: IsRoute(s, p) && LeadsToCard(p, t)
  }

  lemma CardHoldsCards(s: Schema)
    ensures HoldsCards(s, CARD)
  {
    assert IsRoute(s, [CARD]) && LeadsToCard([CARD], CARD);
  }

  lemma HoldsCardsThrough(s: Schema, t: TypeName, fd: FieldDesc)
    requires t in s && fd in s[t] && Descends(fd) && HoldsCards(s, fd.kind.target)
    ensures HoldsCards(s, t)
  {
    var p :| IsRoute(s, p) && LeadsToCard(p, fd.kind.target);
    var q := [t] + p;
    assert Steps(s, t, p[0]);
    forall i | 0 <= i < |q| - 1
      ensures Steps(s, q[i], q[i + 1])
    {
      if i > 0 {
        assert q[i] == p[i - 1] && q[i + 1] == p[i];
      }
    }
    assert IsRoute(s, q) && LeadsToCard(q, t);
  }

  /** Everything the search finished with: no card, and every way on stays inside `closed`. */
  ghost predicate Explored(s: Schema, done: set<TypeName>, closed: set<TypeName>) {
    forall t | t in done ::
      t != CARD && t in s && forall fd | fd in s[t] && Descends(fd) :: fd.kind.target in closed
  }

  lemma ExploredHoldsNone(s: Schema, closed: set<TypeName>, t: TypeName)
    requires Explored(s, closed, closed) && t in closed
    ensures !HoldsCards(s, t)
  {
    forall p | IsRoute(s, p) && p[0] == t
      ensures p[|p| - 1] != CARD
    {
      RouteStays(s, closed, p, |p| - 1);
    }
  }

  lemma {:induction false} RouteStays(s: Schema, closed: set<TypeName>, p: seq<TypeName>, k: nat)
    requires Explored(s, closed, closed) && IsRoute(s, p) && p[0] in closed && k < |p|
    ensures p[k] in closed
  {
    if k > 0 {
      RouteStays(s, closed, p, k - 1);
    }
  }

  /** The search, one `seen` set shared by every branch of it. A type abandoned half
      way by a cycle is still in progress further up, which is why `Explored` may lean on
      everything that was seen before the call. */
  method ReachesCard(s: Schema, t: TypeName, seen: set<TypeName>) returns (found: bool, seen': set<TypeName>)
    requires Resolved(s) && t in s && seen <= s.Keys
    ensures seen <= seen' <= s.Keys
    ensures found ==> HoldsCards(s, t)
    ensures !found ==> t in seen' && Explored(s, seen' - seen, seen')
    decreases s.Keys - seen
  {
    seen' := seen;
    if t in seen {
      return false, seen;
    }
    if t == CARD {
      CardHoldsCards(s);
      return true, seen;
    }
    seen' := seen + {t};
    for i := 0 to |s[t]|
      invariant seen + {t} <= seen' <= s.Keys
      invariant Explored(s, seen' - seen - {t}, seen')
      invariant forall j | 0 <= j < i && Descends(s[t][j]) :: s[t][j].kind.target in seen'
    {
      var fd := s[t][i];
      if Descends(fd) {
        var below, after := ReachesCard(s, fd.kind.target, seen');
        if below {
          HoldsCardsThrough(s, t, fd);
          return true, after;
        }
        seen' := after;
      }
    }
    found := false;
  }

  /** Decides reachability exactly, on any graph. */
  method ContainsCard(s: Schema, t: TypeName) returns (found: bool)
    requires Resolved(s) && t in s
    ensures found <==> HoldsCards(s, t)
  {
    var seen;
    found, seen := ReachesCard(s, t, {});
    if !found {
      assert seen - {} == seen;
      ExploredHoldsNone(s, seen, t);
    }
  }

  /** The answers remembered for one generation of descriptors. */
  class CardMemo {
    const schema: Schema
    var cards: map<TypeName, bool>

    ghost predicate Valid()
      reads this
    {
      Resolved(schema) && forall t | t in cards :: t in schema && (cards[t] <==> HoldsCards(schema, t))
    }

    constructor (schema: Schema)
      requires Resolved(schema)
      ensures Valid() && this.schema == schema && cards == map[]
    {
      this.schema := schema;
      cards := map[];
    }

    /** A miss computes: a type nobody mounted is never answered for by its absence. */
    method CardsIn(t: TypeName) returns (has: bool)
      requires Valid() && t in schema
      modifies this
      ensures Valid() && (has <==> HoldsCards(schema, t))
      ensures cards == old(cards)[t := has]
    {
      if t in cards {
        has := cards[t];
        assert cards == cards[t := has];
      } else {
        has := ContainsCard(schema, t);
        cards := cards[t := has];
      }
    }
  }
}
