/** Step 8's second half over a whole response: finding the cards in it, projecting each,
    and what the caller is answered. */
module CardResponse {
  import opened Policy
  import opened Protobuf
  import opened CardTree
  import opened CardProjection
  import opened CardTheorems
  import opened TypeGraph

  /** A card is kept when the viewer reaches it, however little is left inside. What its own
      walk withheld is added to its own disclosure. */
  function ProjectCard(v: Viewer, card: Message, path: string, floor: Label): NodeResult {
    if !Reaches(v, card, floor) then NodeResult(None, [Note(card, path)])
    else
      var w := ProjectFields(v, card.fields, "", Inside(v.schema, card, floor));
      NodeResult(Some(Disclose(card.(fields := w.fields), w.withheld)), w.withheld)
  }

  function Disclose(card: Message, withheld: seq<string>): Message {
    if card.disclosure.None? then card else card.(disclosure := Some(card.disclosure.value + withheld))
  }

  /** A projected card is final: the same viewer loses nothing more of it, and nothing more is disclosed. */
  lemma ProjectedCardIsFinal(v: Viewer, card: Message, path: string, floor: Label)
    ensures var once := ProjectCard(v, card, path, floor).node;
            once.Some? ==> ProjectCard(v, once.value, path, floor) == NodeResult(once, [])
  {
    if Reaches(v, card, floor) {
      var inside := Inside(v.schema, card, floor);
      var fs := ProjectFields(v, card.fields, "", inside).fields;
      FactorFields(v, v, card.fields, "", "", "", inside);
      QuietFields(v, fs, "", inside);
      var once := ProjectCard(v, card, path, floor).node.value;
      assert once.fields == fs && Inside(v.schema, once, floor) == inside && Reaches(v, once, floor);
      if once.disclosure.Some? {
        assert once.disclosure.value + [] == once.disclosure.value;
      }
    }
  }

  datatype Visited = Visited(fields: seq<Field>, withheld: seq<string>)
  {
    function Then(next: Visited): Visited {
      Visited(fields + next.fields, withheld + next.withheld)
    }
  }
  datatype VisitedItems = VisitedItems(items: seq<Message>, withheld: seq<string>)
  {
    function Then(next: VisitedItems): VisitedItems {
      VisitedItems(items + next.items, withheld + next.withheld)
    }
  }

  /** Every card below a message that is not one. `all` ignores the type guard. */
  ghost function VisitFields(v: Viewer, fs: seq<Field>, path: string, floor: Label, all: bool): Visited
    decreases fs
  {
    if fs == [] then Visited([], [])
    else
      var h := VisitField(v, fs[0], path, floor, all);
      Visited([fs[0].(items := h.items)], h.withheld).Then(VisitFields(v, fs[1..], path, floor, all))
  }

  ghost function VisitField(v: Viewer, f: Field, path: string, floor: Label, all: bool): VisitedItems
    decreases f
  {
    if all || HoldsCards(v.schema, f.slot.target) then VisitItems(v, f.slot, f.items, 0, path, floor, all)
    else VisitedItems(f.items, [])
  }

  ghost function VisitItems(
      v: Viewer, f: Slot, ms: seq<Message>, i: nat, path: string, floor: Label, all: bool): VisitedItems
    decreases ms
  {
    if ms == [] then VisitedItems([], [])
    else
      VisitItem(v, ms[0], ItemPath(path, f, i), floor, all).Then(VisitItems(v, f, ms[1..], i + 1, path, floor, all))
  }

  ghost function VisitItem(v: Viewer, m: Message, path: string, floor: Label, all: bool): (r: VisitedItems)
    ensures |r.items| <= 1
    decreases m
  {
    if m.typ == CARD then
      var n := ProjectCard(v, m, path, floor);
      VisitedItems(if n.node.Some? then [n.node.value] else [], n.withheld)
    else
      var w := VisitFields(v, m.fields, path, floor, all);
      VisitedItems([m.(fields := w.fields)], w.withheld)
  }

  /** `Gone` is a response that is itself a card the viewer does not reach. */
  datatype CardResult = Invalid(reason: string) | Gone | Served(resp: Message, withheld: seq<string>)

  ghost function ProjectCards(v: Viewer, resp: Message, floor: Floor): CardResult {
    var reason := ValidateNode(v.schema, resp, "", floor);
    if reason != "" then Invalid(reason)
    else
      var r := VisitItem(v, resp, "", floor.lbl, false);
      if r.items == [] then Gone else Served(r.items[0], r.withheld)
  }

  // ---- the type guard skips nothing

  ghost predicate Typed(s: Schema, m: Message)
    decreases m
  {
    m.typ in s && TypedFields(s, m.typ, m.fields)
  }

  ghost predicate TypedFields(s: Schema, t: TypeName, fs: seq<Field>)
    requires t in s
    decreases fs
  {
    fs != [] ==>
      && !("google.protobuf." <= fs[0].slot.target)
      && (exists fd | fd in s[t] :: fd.kind == Sub(fs[0].slot.target))
      && TypedItems(s, fs[0].slot.target, fs[0].items)
      && TypedFields(s, t, fs[1..])
  }

  ghost predicate TypedItems(s: Schema, t: TypeName, ms: seq<Message>)
    decreases ms
  {
    ms != [] ==> ms[0].typ == t && Typed(s, ms[0]) && TypedItems(s, t, ms[1..])
  }

  /** Where no card can be found there is nothing to visit. */
  lemma {:induction false} NothingToVisit(v: Viewer, m: Message, path: string, floor: Label)
    requires Typed(v.schema, m) && !HoldsCards(v.schema, m.typ)
    ensures VisitItem(v, m, path, floor, true) == VisitedItems([m], [])
    decreases m
  {
    CardHoldsCards(v.schema);
    NothingToVisitFields(v, m.typ, m.fields, path, floor);
  }

  lemma {:induction false} NothingToVisitFields(v: Viewer, t: TypeName, fs: seq<Field>, path: string, floor: Label)
    requires t in v.schema && TypedFields(v.schema, t, fs) && !HoldsCards(v.schema, t)
    ensures VisitFields(v, fs, path, floor, true) == Visited(fs, [])
    decreases fs
  {
    if fs != [] {
      var fd :| fd in v.schema[t] && fd.kind == Sub(fs[0].slot.target);
      if HoldsCards(v.schema, fd.kind.target) {
        HoldsCardsThrough(v.schema, t, fd);
      }
      NothingToVisitItems(v, fs[0].slot, fs[0].items, 0, path, floor);
      NothingToVisitFields(v, t, fs[1..], path, floor);
    }
  }

  lemma {:induction false} NothingToVisitItems(
      v: Viewer, f: Slot, ms: seq<Message>, i: nat, path: string, floor: Label)
    requires TypedItems(v.schema, f.target, ms) && !HoldsCards(v.schema, f.target)
    ensures VisitItems(v, f, ms, i, path, floor, true) == VisitedItems(ms, [])
    decreases ms
  {
    if ms != [] {
      NothingToVisit(v, ms[0], ItemPath(path, f, i), floor);
      NothingToVisitItems(v, f, ms[1..], i + 1, path, floor);
      assert [ms[0]] + ms[1..] == ms;
    }
  }

  /** On a value of its declared type the guarded walk is the unguarded one. */
  lemma {:induction false} GuardExactItem(v: Viewer, m: Message, path: string, floor: Label)
    requires Typed(v.schema, m)
    ensures VisitItem(v, m, path, floor, false) == VisitItem(v, m, path, floor, true)
    decreases m
  {
    if m.typ != CARD {
      GuardExactFields(v, m.typ, m.fields, path, floor);
    }
  }

  lemma {:induction false} GuardExactFields(v: Viewer, t: TypeName, fs: seq<Field>, path: string, floor: Label)
    requires t in v.schema && TypedFields(v.schema, t, fs)
    ensures VisitFields(v, fs, path, floor, false) == VisitFields(v, fs, path, floor, true)
    decreases fs
  {
    if fs != [] {
      if HoldsCards(v.schema, fs[0].slot.target) {
        GuardExactItems(v, fs[0].slot, fs[0].items, 0, path, floor);
      } else {
        NothingToVisitItems(v, fs[0].slot, fs[0].items, 0, path, floor);
      }
      GuardExactFields(v, t, fs[1..], path, floor);
    }
  }

  lemma {:induction false} GuardExactItems(v: Viewer, f: Slot, ms: seq<Message>, i: nat, path: string, floor: Label)
    requires TypedItems(v.schema, f.target, ms)
    ensures VisitItems(v, f, ms, i, path, floor, false) == VisitItems(v, f, ms, i, path, floor, true)
    decreases ms
  {
    if ms != [] {
      GuardExactItem(v, ms[0], ItemPath(path, f, i), floor);
      GuardExactItems(v, f, ms[1..], i + 1, path, floor);
    }
  }

  // ---- non-interference of the whole answer

  ghost predicate SameResponse(v: Viewer, a: Message, b: Message, floor: Label)
    decreases a
  {
    && a.typ == b.typ
    && if a.typ == CARD then SameNode(v, a, b, floor)
       else a.(fields := b.fields) == b && SameResponseFields(v, a.fields, b.fields, floor)
  }

  ghost predicate SameResponseFields(v: Viewer, a: seq<Field>, b: seq<Field>, floor: Label)
    decreases a
  {
    |a| == |b| && (a != [] ==>
      && a[0].slot == b[0].slot
      && (if HoldsCards(v.schema, a[0].slot.target) then SameResponseItems(v, a[0].items, b[0].items, floor)
          else a[0].items == b[0].items)
      && SameResponseFields(v, a[1..], b[1..], floor))
  }

  ghost predicate SameResponseItems(v: Viewer, a: seq<Message>, b: seq<Message>, floor: Label)
    decreases a
  {
    |a| == |b| && (a != [] ==> SameResponse(v, a[0], b[0], floor) && SameResponseItems(v, a[1..], b[1..], floor))
  }

  lemma {:induction false} VisitSame(v: Viewer, a: Message, b: Message, path: string, floor: Label)
    requires SameResponse(v, a, b, floor)
    ensures VisitItem(v, a, path, floor, false) == VisitItem(v, b, path, floor, false)
    decreases a
  {
    if a.typ == CARD {
      if Reaches(v, a, floor) {
        NonInterferenceFields(v, a.fields, b.fields, "", Inside(v.schema, a, floor));
      }
    } else {
      VisitSameFields(v, a.fields, b.fields, path, floor);
    }
  }

  lemma {:induction false} VisitSameFields(v: Viewer, a: seq<Field>, b: seq<Field>, path: string, floor: Label)
    requires SameResponseFields(v, a, b, floor)
    ensures VisitFields(v, a, path, floor, false) == VisitFields(v, b, path, floor, false)
    decreases a
  {
    if a != [] {
      if HoldsCards(v.schema, a[0].slot.target) {
        VisitSameItems(v, a[0].slot, a[0].items, b[0].items, 0, path, floor);
      }
      VisitSameFields(v, a[1..], b[1..], path, floor);
    }
  }

  lemma {:induction false} VisitSameItems(
      v: Viewer, f: Slot, a: seq<Message>, b: seq<Message>, i: nat, path: string, floor: Label)
    requires SameResponseItems(v, a, b, floor)
    ensures VisitItems(v, f, a, i, path, floor, false) == VisitItems(v, f, b, i, path, floor, false)
    decreases a
  {
    if a != [] {
      VisitSame(v, a[0], b[0], ItemPath(path, f, i), floor);
      VisitSameItems(v, f, a[1..], b[1..], i + 1, path, floor);
    }
  }

  /** What the caller can tell: why a card was invalid goes to the ledger only. */
  ghost predicate SameAnswer(a: CardResult, b: CardResult) {
    a == b || (a.Invalid? && b.Invalid?)
  }

  /** Two responses that differ only below what this viewer does not reach are answered alike, with
      the same withheld list, exactly when both validate or neither does. */
  lemma NonInterference(v: Viewer, a: Message, b: Message, floor: Floor)
    requires SameResponse(v, a, b, floor.lbl)
    ensures SameAnswer(ProjectCards(v, a, floor), ProjectCards(v, b, floor)) <==>
            (ValidateNode(v.schema, a, "", floor) == "" <==> ValidateNode(v.schema, b, "", floor) == "")
  {
    VisitSame(v, a, b, "", floor.lbl);
  }

  // ---- every card is accounted for

  datatype Found = Found(card: Message, path: string)

  /** The outermost cards of a response, in document order. */
  ghost function FindItem(m: Message, path: string): seq<Found>
    decreases m
  {
    if m.typ == CARD then [Found(m, path)] else FindFields(m.fields, path)
  }

  ghost function FindFields(fs: seq<Field>, path: string): seq<Found>
    decreases fs
  {
    if fs == [] then [] else FindItems(fs[0].slot, fs[0].items, 0, path) + FindFields(fs[1..], path)
  }

  ghost function FindItems(f: Slot, ms: seq<Message>, i: nat, path: string): seq<Found>
    decreases ms
  {
    if ms == [] then [] else FindItem(ms[0], ItemPath(path, f, i)) + FindItems(f, ms[1..], i + 1, path)
  }

  /** What one card contributes: itself, pruned and carrying its own withheld names, and those names. */
  ghost function Contribution(v: Viewer, x: Found, floor: Label): VisitedItems {
    if !Reaches(v, x.card, floor) then VisitedItems([], [Called(x.card, x.path)])
    else
      var inside := Inside(v.schema, x.card, floor);
      var lost := LostFields(v, x.card.fields, "", inside);
      var disclosed := if x.card.disclosure.Some? then Some(x.card.disclosure.value + lost) else None;
      VisitedItems([x.card.(fields := PruneFields(v, x.card.fields, inside), disclosure := disclosed)], lost)
  }

  ghost function Contributions(v: Viewer, xs: seq<Found>, floor: Label): VisitedItems {
    if xs == [] then VisitedItems([], [])
    else Contribution(v, xs[0], floor).Then(Contributions(v, xs[1..], floor))
  }

  lemma {:induction false} ContributionsSplit(v: Viewer, a: seq<Found>, b: seq<Found>, floor: Label)
    ensures Contributions(v, a + b, floor) == Contributions(v, a, floor).Then(Contributions(v, b, floor))
  {
    if a == [] {
      assert a + b == b;
    } else {
      ContributionsSplit(v, a[1..], b, floor);
      assert (a + b)[0] == a[0] && (a + b)[1..] == a[1..] + b;
      ThenAssociates(Contribution(v, a[0], floor), Contributions(v, a[1..], floor), Contributions(v, b, floor));
    }
  }

  lemma ThenAssociates(a: VisitedItems, b: VisitedItems, c: VisitedItems)
    ensures a.Then(b.Then(c)) == a.Then(b).Then(c)
  {
    assert a.items + (b.items + c.items) == (a.items + b.items) + c.items;
    assert a.withheld + (b.withheld + c.withheld) == (a.withheld + b.withheld) + c.withheld;
  }

  /** The same cards without where they were found. */
  ghost function CardsItem(m: Message): seq<Message>
    decreases m
  {
    if m.typ == CARD then [m] else CardsFields(m.fields)
  }

  ghost function CardsFields(fs: seq<Field>): seq<Message>
    decreases fs
  {
    if fs == [] then [] else CardsItems(fs[0].items) + CardsFields(fs[1..])
  }

  ghost function CardsItems(ms: seq<Message>): seq<Message>
    decreases ms
  {
    if ms == [] then [] else CardsItem(ms[0]) + CardsItems(ms[1..])
  }

  /** Only types that cards are made of carry a label: nothing that wraps a card does. */
  ghost predicate PlainWrappers(s: Schema, m: Message)
    decreases m
  {
    m.typ == CARD || (!Labelled(s, m.typ) && PlainWrapperFields(s, m.fields))
  }

  ghost predicate PlainWrapperFields(s: Schema, fs: seq<Field>)
    decreases fs
  {
    fs != [] ==> PlainWrapperItems(s, fs[0].items) && PlainWrapperFields(s, fs[1..])
  }

  ghost predicate PlainWrapperItems(s: Schema, ms: seq<Message>)
    decreases ms
  {
    ms != [] ==> PlainWrappers(s, ms[0]) && PlainWrapperItems(s, ms[1..])
  }

  ghost predicate Accounts(expected: VisitedItems, withheld: seq<string>, cards: seq<Message>) {
    withheld == expected.withheld && cards == expected.items
  }

  lemma {:induction false} AccountedItem(v: Viewer, m: Message, path: string, checked: string, floor: Floor)
    requires Usable(v, floor.lbl) && PlainWrappers(v.schema, m) && ValidateNode(v.schema, m, checked, floor) == ""
    ensures var r := VisitItem(v, m, path, floor.lbl, true);
            Accounts(Contributions(v, FindItem(m, path), floor.lbl), r.withheld, CardsItems(r.items))
    decreases m
  {
    if m.typ == CARD {
      ExactFields(v, m.fields, "", checked, FloorInside(v.schema, m, floor));
      assert Contributions(v, [Found(m, path)], floor.lbl) == Contribution(v, Found(m, path), floor.lbl);
    } else {
      AccountedFields(v, m.fields, path, checked, floor);
    }
  }

  lemma {:induction false} AccountedFields(v: Viewer, fs: seq<Field>, path: string, checked: string, floor: Floor)
    requires Usable(v, floor.lbl) && PlainWrapperFields(v.schema, fs)
    requires ValidateFields(v.schema, fs, checked, floor) == ""
    ensures var r := VisitFields(v, fs, path, floor.lbl, true);
            Accounts(Contributions(v, FindFields(fs, path), floor.lbl), r.withheld, CardsFields(r.fields))
    decreases fs
  {
    if fs != [] {
      AccountedItems(v, fs[0].slot, fs[0].items, 0, path, checked, floor);
      AccountedFields(v, fs[1..], path, checked, floor);
      ContributionsSplit(v, FindItems(fs[0].slot, fs[0].items, 0, path), FindFields(fs[1..], path), floor.lbl);
      assert VisitFields(v, fs, path, floor.lbl, true).fields[1..] ==
             VisitFields(v, fs[1..], path, floor.lbl, true).fields;
    }
  }

  lemma {:induction false} AccountedItems(
      v: Viewer, f: Slot, ms: seq<Message>, i: nat, path: string, checked: string, floor: Floor)
    requires Usable(v, floor.lbl) && PlainWrapperItems(v.schema, ms)
    requires ValidateItems(v.schema, f, ms, i, checked, floor) == ""
    ensures var r := VisitItems(v, f, ms, i, path, floor.lbl, true);
            Accounts(Contributions(v, FindItems(f, ms, i, path), floor.lbl), r.withheld, CardsItems(r.items))
    decreases ms
  {
    if ms != [] {
      var p := ItemPath(path, f, i);
      AccountedItem(v, ms[0], p, if Labelled(v.schema, ms[0].typ) then ItemPath(checked, f, i) else checked, floor);
      AccountedItems(v, f, ms[1..], i + 1, path, checked, floor);
      ContributionsSplit(v, FindItem(ms[0], p), FindItems(f, ms[1..], i + 1, path), floor.lbl);
      CardsConcat(VisitItem(v, ms[0], p, floor.lbl, true).items,
                  VisitItems(v, f, ms[1..], i + 1, path, floor.lbl, true).items);
    }
  }

  lemma CardsConcat(h: seq<Message>, t: seq<Message>)
    requires |h| <= 1
    ensures CardsItems(h + t) == CardsItems(h) + CardsItems(t)
  {
    if h == [] {
      assert h + t == t;
    } else {
      assert (h + t)[0] == h[0] && (h + t)[1..] == t;
    }
  }

  // ---- and nothing else is touched

  /** What surrounds the cards: the same response with every card taken out. */
  ghost function AroundItems(ms: seq<Message>): seq<Message>
    decreases ms
  {
    if ms == [] then []
    else (if ms[0].typ == CARD then [] else [ms[0].(fields := AroundFields(ms[0].fields))]) + AroundItems(ms[1..])
  }

  ghost function AroundFields(fs: seq<Field>): seq<Field>
    decreases fs
  {
    if fs == [] then [] else [fs[0].(items := AroundItems(fs[0].items))] + AroundFields(fs[1..])
  }

  lemma AroundConcat(h: seq<Message>, t: seq<Message>)
    requires |h| <= 1
    ensures AroundItems(h + t) == AroundItems(h) + AroundItems(t)
  {
    if h == [] {
      assert h + t == t;
    } else {
      assert (h + t)[0] == h[0] && (h + t)[1..] == t && h[1..] == [];
    }
  }

  lemma {:induction false} KeepsAround(v: Viewer, m: Message, path: string, floor: Label)
    ensures AroundItems(VisitItem(v, m, path, floor, false).items) == AroundItems([m])
    decreases m
  {
    var r := VisitItem(v, m, path, floor, false).items;
    assert [m][1..] == [] && (r != [] ==> r == [r[0]] && r[1..] == []);
    if m.typ != CARD {
      KeepsAroundFields(v, m.fields, path, floor);
    }
  }

  lemma {:induction false} KeepsAroundFields(v: Viewer, fs: seq<Field>, path: string, floor: Label)
    ensures AroundFields(VisitFields(v, fs, path, floor, false).fields) == AroundFields(fs)
    decreases fs
  {
    if fs != [] {
      var r := VisitFields(v, fs, path, floor, false).fields;
      assert r[0] == fs[0].(items := VisitField(v, fs[0], path, floor, false).items);
      assert r[1..] == VisitFields(v, fs[1..], path, floor, false).fields;
      KeepsAroundItems(v, fs[0].slot, fs[0].items, 0, path, floor);
      KeepsAroundFields(v, fs[1..], path, floor);
    }
  }

  lemma {:induction false} KeepsAroundItems(
      v: Viewer, f: Slot, ms: seq<Message>, i: nat, path: string, floor: Label)
    ensures AroundItems(VisitItems(v, f, ms, i, path, floor, false).items) == AroundItems(ms)
    decreases ms
  {
    if ms != [] {
      KeepsAround(v, ms[0], ItemPath(path, f, i), floor);
      KeepsAroundItems(v, f, ms[1..], i + 1, path, floor);
      AroundConcat(VisitItem(v, ms[0], ItemPath(path, f, i), floor, false).items,
                   VisitItems(v, f, ms[1..], i + 1, path, floor, false).items);
      AroundConcat([ms[0]], ms[1..]);
      assert [ms[0]] + ms[1..] == ms;
    }
  }

  /** A served response holds, in order, exactly the cards the viewer reaches, each pruned and
      disclosing what it lost; the row's list is what they and the dropped cards lost; and what
      surrounds the cards is as it was. */
  lemma EveryCardAccountedFor(v: Viewer, resp: Message, floor: Floor)
    requires Usable(v, floor.lbl) && Typed(v.schema, resp) && PlainWrappers(v.schema, resp)
    requires ProjectCards(v, resp, floor).Served?
    ensures var r := ProjectCards(v, resp, floor);
            var expected := Contributions(v, FindItem(resp, ""), floor.lbl);
            && r.withheld == expected.withheld && CardsItem(r.resp) == expected.items
            && AroundItems([r.resp]) == AroundItems([resp])
  {
    KeepsAround(v, resp, "", floor.lbl);
    GuardExactItem(v, resp, "", floor.lbl);
    AccountedItem(v, resp, "", "", floor);
    var served := VisitItem(v, resp, "", floor.lbl, true).items;
    assert served == [served[0]] && CardsItems(served[1..]) == [];
  }

  // ---- the gate in front of the walk

  /** What step 8 answers: a response below whose type no card can be found is served as it is. */
  ghost function Sanitised(v: Viewer, resp: Message, floor: Floor): CardResult {
    if HoldsCards(v.schema, resp.typ) then ProjectCards(v, resp, floor) else Served(resp, [])
  }

  /** Skipping the walk changes the answer exactly where validation would have refused: a response that holds no card
      and carries a label of its own that no floor admits, or that cannot be read. */
  lemma GateExact(v: Viewer, resp: Message, floor: Floor)
    requires Typed(v.schema, resp)
    ensures Sanitised(v, resp, floor) == ProjectCards(v, resp, floor) <==>
            HoldsCards(v.schema, resp.typ) || ValidateNode(v.schema, resp, "", floor) == ""
  {
    if !HoldsCards(v.schema, resp.typ) {
      GuardExactItem(v, resp, "", floor.lbl);
      NothingToVisit(v, resp, "", floor.lbl);
    }
  }

  /** A response is refused exactly when it is invalid, and gone exactly when it is itself a card whose label, or whose
      floor where it has none, the viewer does not reach; anything else is served. */
  lemma AnswerKinds(v: Viewer, resp: Message, floor: Floor)
    ensures var r := ProjectCards(v, resp, floor);
            var valid := AcceptsNode(v.schema, resp, floor.lbl);
            && (r.Invalid? <==> !valid)
            && (r.Gone? <==> valid && resp.typ == CARD && !ReachesLabel(v, OwnLabel(resp, floor.lbl)))
  {
    ValidateAccepts(v.schema, resp, "", floor);
  }

  // ---- validity can be told

  /** Cards that may hold a card. */
  ghost function Nested(): Schema {
    map[CARD := [FieldDesc(10, "access", Singular, Sub(LABEL)), FieldDesc(11, "inner", Singular, Sub(CARD))],
        LABEL := []]
  }

  ghost function CardAt(clearance: int, fields: seq<Field>): Message {
    Message(CARD, Set(Label(clearance, [])), "", None, "", fields)
  }

  ghost function Holding(inner: Message): seq<Field> {
    [Field(Slot("inner", CARD, false), [inner])]
  }

  lemma NestedIsTyped(low: int, high: int)
    ensures var s := Nested();
            && Resolved(s) && AccessField(s, CARD) == Some(s[CARD][0])
            && Typed(s, CardAt(high, Holding(CardAt(low, [])))) && Typed(s, CardAt(high, []))
  {
    var s := Nested();
    assert CARD[1] == 'a' && "google.protobuf."[1] == 'o';
    var down := s[CARD][1];
    assert Descends(down) && down in s[CARD];
    var inner := CardAt(low, []);
    assert Typed(s, inner) && [inner][1..] == [];
    assert TypedItems(s, CARD, [inner]);
    var fs := Holding(inner);
    assert fs[0].items == [inner] && fs[1..] == [] && TypedFields(s, CARD, fs[1..]);
    assert TypedFields(s, CARD, fs);
  }

  lemma AFallenLabelIsRefused(low: int, high: int, floor: Floor)
    requires low < high && AtLeast(Label(high, []), floor.lbl)
    ensures ValidateNode(Nested(), CardAt(high, Holding(CardAt(low, []))), "", floor) != ""
    ensures ValidateNode(Nested(), CardAt(high, []), "", floor) == ""
  {
    NestedIsTyped(low, high);
    var s, inner := Nested(), CardAt(low, []);
    var a := CardAt(high, Holding(inner));
    var inside := FloorInside(s, a, floor);
    assert ValidateNode(s, inner, "inner", inside) == inside.check + ": " + OrRoot("inner");
    assert ValidateItems(s, Slot("inner", CARD, false), [inner], 0, "", inside) != "";
  }

  /** A card this viewer does not reach, and the same with a label inside that falls below it: the one is gone, the
      other refuses the call. */
  lemma AnUnreachedLabelShows()
    ensures var v := Viewer(Nested(), Rules((held: int, needed: int) => needed <= held, map[]), Shape(1, {}));
            var floor := Floor(Label(1, []), "label_below_endpoint");
            var a, b := CardAt(2, Holding(CardAt(1, []))), CardAt(2, []);
            && Resolved(v.schema) && Typed(v.schema, a) && Typed(v.schema, b) && Usable(v, floor.lbl)
            && SameResponse(v, a, b, floor.lbl)
            && !SameAnswer(ProjectCards(v, a, floor), ProjectCards(v, b, floor))
  {
    NestedIsTyped(1, 2);
    AFallenLabelIsRefused(1, 2, Floor(Label(1, []), "label_below_endpoint"));
  }

  // ---- a narrower view of a whole answer

  /** The response without what its cards disclose. */
  ghost function Bare(m: Message): Message
    decreases m
  {
    if m.typ == CARD then m.(disclosure := None) else m.(fields := BareFields(m.fields))
  }

  ghost function BareFields(fs: seq<Field>): seq<Field>
    decreases fs
  {
    if fs == [] then [] else [fs[0].(items := BareItems(fs[0].items))] + BareFields(fs[1..])
  }

  ghost function BareItems(ms: seq<Message>): seq<Message>
    decreases ms
  {
    if ms == [] then [] else [Bare(ms[0])] + BareItems(ms[1..])
  }

  /** What is left of each item, wherever it sits and whatever was disclosed. */
  ghost function Shown(v: Viewer, m: Message, floor: Label): (r: seq<Message>)
    ensures |r| <= 1
    decreases m
  {
    if m.typ != CARD then [m.(fields := ShownFields(v, m.fields, floor))]
    else if !Reaches(v, m, floor) then []
    else [m.(fields := ProjectFields(v, m.fields, "", Inside(v.schema, m, floor)).fields, disclosure := None)]
  }

  ghost function ShownFields(v: Viewer, fs: seq<Field>, floor: Label): seq<Field>
    decreases fs
  {
    if fs == [] then []
    else
      var items := if HoldsCards(v.schema, fs[0].slot.target) then ShownItems(v, fs[0].items, floor)
                   else BareItems(fs[0].items);
      [fs[0].(items := items)] + ShownFields(v, fs[1..], floor)
  }

  ghost function ShownItems(v: Viewer, ms: seq<Message>, floor: Label): seq<Message>
    decreases ms
  {
    if ms == [] then [] else Shown(v, ms[0], floor) + ShownItems(v, ms[1..], floor)
  }

  lemma {:induction false} VisitShows(v: Viewer, m: Message, path: string, floor: Label)
    ensures BareItems(VisitItem(v, m, path, floor, false).items) == Shown(v, m, floor)
    decreases m
  {
    if m.typ != CARD {
      VisitShowsFields(v, m.fields, path, floor);
    }
    var r := VisitItem(v, m, path, floor, false).items;
    if r != [] {
      assert BareItems(r) == [Bare(r[0])];
    }
  }

  lemma {:induction false} VisitShowsFields(v: Viewer, fs: seq<Field>, path: string, floor: Label)
    ensures BareFields(VisitFields(v, fs, path, floor, false).fields) == ShownFields(v, fs, floor)
    decreases fs
  {
    if fs != [] {
      var r := VisitFields(v, fs, path, floor, false).fields;
      assert r[0] == fs[0].(items := VisitField(v, fs[0], path, floor, false).items);
      assert r[1..] == VisitFields(v, fs[1..], path, floor, false).fields;
      VisitShowsItems(v, fs[0].slot, fs[0].items, 0, path, floor);
      VisitShowsFields(v, fs[1..], path, floor);
    }
  }

  lemma {:induction false} VisitShowsItems(
      v: Viewer, f: Slot, ms: seq<Message>, i: nat, path: string, floor: Label)
    ensures BareItems(VisitItems(v, f, ms, i, path, floor, false).items) == ShownItems(v, ms, floor)
    decreases ms
  {
    if ms != [] {
      VisitShows(v, ms[0], ItemPath(path, f, i), floor);
      VisitShowsItems(v, f, ms[1..], i + 1, path, floor);
      BareConcat(VisitItem(v, ms[0], ItemPath(path, f, i), floor, false).items,
                 VisitItems(v, f, ms[1..], i + 1, path, floor, false).items);
    }
  }

  lemma BareConcat(h: seq<Message>, t: seq<Message>)
    requires |h| <= 1
    ensures BareItems(h + t) == BareItems(h) + BareItems(t)
  {
    if h == [] {
      assert h + t == t;
    } else {
      assert (h + t)[0] == h[0] && (h + t)[1..] == t;
      assert h[1..] == [];
    }
  }

  lemma ShownConcat(v: Viewer, h: seq<Message>, t: seq<Message>, floor: Label)
    requires |h| <= 1
    ensures ShownItems(v, h + t, floor) == (if h == [] then [] else Shown(v, h[0], floor)) + ShownItems(v, t, floor)
  {
    if h == [] {
      assert h + t == t;
    } else {
      assert (h + t)[0] == h[0] && (h + t)[1..] == t;
    }
  }

  lemma {:induction false} FactorVisit(narrow: Viewer, wide: Viewer, m: Message, path: string, floor: Label)
    requires SeesNoMore(narrow, wide)
    ensures var w := VisitItem(wide, m, path, floor, false).items;
            (if w == [] then [] else Shown(narrow, w[0], floor)) == Shown(narrow, m, floor)
    decreases m
  {
    if m.typ == CARD {
      FactorFields(narrow, wide, m.fields, "", "", "", Inside(wide.schema, m, floor));
    } else {
      FactorVisitFields(narrow, wide, m.fields, path, floor);
    }
  }

  lemma {:induction false} FactorVisitFields(
      narrow: Viewer, wide: Viewer, fs: seq<Field>, path: string, floor: Label)
    requires SeesNoMore(narrow, wide)
    ensures ShownFields(narrow, VisitFields(wide, fs, path, floor, false).fields, floor) ==
            ShownFields(narrow, fs, floor)
    decreases fs
  {
    if fs != [] {
      var w := VisitFields(wide, fs, path, floor, false).fields;
      assert w[0] == fs[0].(items := VisitField(wide, fs[0], path, floor, false).items);
      assert w[1..] == VisitFields(wide, fs[1..], path, floor, false).fields;
      FactorVisitItems(narrow, wide, fs[0].slot, fs[0].items, 0, path, floor);
      FactorVisitFields(narrow, wide, fs[1..], path, floor);
    }
  }

  lemma {:induction false} FactorVisitItems(
      narrow: Viewer, wide: Viewer, f: Slot, ms: seq<Message>, i: nat, path: string, floor: Label)
    requires SeesNoMore(narrow, wide)
    ensures ShownItems(narrow, VisitItems(wide, f, ms, i, path, floor, false).items, floor) ==
            ShownItems(narrow, ms, floor)
    decreases ms
  {
    if ms != [] {
      FactorVisit(narrow, wide, ms[0], ItemPath(path, f, i), floor);
      FactorVisitItems(narrow, wide, f, ms[1..], i + 1, path, floor);
      ShownConcat(narrow, VisitItem(wide, ms[0], ItemPath(path, f, i), floor, false).items,
                  VisitItems(wide, f, ms[1..], i + 1, path, floor, false).items, floor);
    }
  }

  // ---- what is left of a valid response is valid

  lemma {:induction false} VisitStaysAccepted(v: Viewer, m: Message, path: string, floor: Label, at: Label)
    requires AcceptsNode(v.schema, m, floor)
    ensures var r := VisitItem(v, m, path, at, false).items;
            r != [] ==> AcceptsNode(v.schema, r[0], floor)
    decreases m
  {
    var inside := Inside(v.schema, m, floor);
    if m.typ == CARD {
      StaysAcceptedFields(v, m.fields, "", inside, Inside(v.schema, m, at));
    } else {
      VisitStaysAcceptedFields(v, m.fields, path, inside, at);
    }
  }

  lemma {:induction false} VisitStaysAcceptedFields(v: Viewer, fs: seq<Field>, path: string, floor: Label, at: Label)
    requires AcceptsFields(v.schema, fs, floor)
    ensures AcceptsFields(v.schema, VisitFields(v, fs, path, at, false).fields, floor)
    decreases fs
  {
    if fs != [] {
      assert VisitFields(v, fs, path, at, false).fields[1..] == VisitFields(v, fs[1..], path, at, false).fields;
      VisitStaysAcceptedItems(v, fs[0].slot, fs[0].items, 0, path, floor, at);
      VisitStaysAcceptedFields(v, fs[1..], path, floor, at);
    }
  }

  lemma {:induction false} VisitStaysAcceptedItems(
      v: Viewer, f: Slot, ms: seq<Message>, i: nat, path: string, floor: Label, at: Label)
    requires AcceptsItems(v.schema, ms, floor)
    ensures AcceptsItems(v.schema, VisitItems(v, f, ms, i, path, at, false).items, floor)
    decreases ms
  {
    if ms != [] {
      VisitStaysAccepted(v, ms[0], ItemPath(path, f, i), floor, at);
      VisitStaysAcceptedItems(v, f, ms[1..], i + 1, path, floor, at);
      AcceptsAppend(v.schema, VisitItem(v, ms[0], ItemPath(path, f, i), at, false).items,
                    VisitItems(v, f, ms[1..], i + 1, path, at, false).items, floor);
    }
  }

  /** Equal but for what the cards disclose. */
  ghost predicate SameButDisclosed(a: CardResult, b: CardResult) {
    (a.Gone? && b.Gone?) || (a.Served? && b.Served? && Bare(a.resp) == Bare(b.resp))
  }

  /** Whoever sees no more is answered with a projection of the wider answer: refused alike, gone where it is gone,
      and otherwise served what projecting the wider answer gives, but for the names disclosed on the way. */
  lemma NarrowAnswerFactors(narrow: Viewer, wide: Viewer, resp: Message, floor: Floor)
    requires SeesNoMore(narrow, wide)
    ensures var w, n := ProjectCards(wide, resp, floor), ProjectCards(narrow, resp, floor);
            && (w.Invalid? || n.Invalid? ==> n == w)
            && (w.Gone? ==> n.Gone?)
            && (w.Served? ==> SameButDisclosed(ProjectCards(narrow, w.resp, floor), n))
  {
    FactorVisit(narrow, wide, resp, "", floor.lbl);
    VisitShows(narrow, resp, "", floor.lbl);
    var n := VisitItem(narrow, resp, "", floor.lbl, false).items;
    assert n != [] ==> BareItems(n)[0] == Bare(n[0]);
    var w := ProjectCards(wide, resp, floor);
    if w.Served? {
      ValidateAccepts(wide.schema, resp, "", floor);
      VisitStaysAccepted(wide, resp, "", floor.lbl, floor.lbl);
      ValidateAccepts(wide.schema, w.resp, "", floor);
      VisitShows(narrow, w.resp, "", floor.lbl);
      var x := VisitItem(narrow, w.resp, "", floor.lbl, false).items;
      assert x != [] ==> BareItems(x)[0] == Bare(x[0]);
    }
  }
}
