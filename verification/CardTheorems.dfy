/** What the card walk guarantees, for every tree, viewer and floor. Each theorem is
    three or four mutually recursive lemmas, one for each level of the tree. */
module CardTheorems {
  import opened Policy
  import opened Protobuf
  import opened CardTree
  import opened CardProjection

  // ---- a narrower view factors through a wider one

  ghost predicate SeesNoMore(narrow: Viewer, wide: Viewer) {
    && narrow.schema == wide.schema
    && forall l: Label | ReachesLabel(narrow, l) :: ReachesLabel(wide, l)
  }

  /** Holding no more means seeing no more. */
  lemma NarrowShapeSeesNoMore(narrow: Viewer, wide: Viewer)
    requires Lawful(wide.rules) && narrow == wide.(shape := narrow.shape) && Within(narrow.shape, wide.shape)
    ensures SeesNoMore(narrow, wide)
  {
  }

  lemma {:induction false} FactorNode(
      narrow: Viewer, wide: Viewer, m: Message, p: string, p': string, p'': string, floor: Label)
    requires SeesNoMore(narrow, wide)
    ensures var w := ProjectNode(wide, m, p, floor).node;
            var n := ProjectNode(narrow, m, p', floor).node;
            (w.None? ==> n.None?) && (w.Some? ==> ProjectNode(narrow, w.value, p'', floor).node == n)
    decreases m, 0
  {
    if Reaches(wide, m, floor) {
      FactorFields(narrow, wide, m.fields, p, p', p'', Inside(wide.schema, m, floor));
      var w := ProjectFields(wide, m.fields, p, Inside(wide.schema, m, floor));
      if w.total == 0 || w.kept > 0 {
        SameButFields(narrow, m, m.(fields := w.fields), floor);
      }
    }
  }

  /** Reach and the floor inside ask about the node itself. */
  lemma SameButFields(v: Viewer, m: Message, m': Message, floor: Label)
    requires m' == m.(fields := m'.fields)
    ensures Reaches(v, m', floor) == Reaches(v, m, floor) && Inside(v.schema, m', floor) == Inside(v.schema, m, floor)
  {
  }

  /** Projecting for the wider viewer first changes nothing for the narrower one: the same
      nodes survive, counted the same, group collapse included. With one viewer twice, it
      says that a projected card has nothing left to remove. */
  lemma {:induction false} FactorFields(
      narrow: Viewer, wide: Viewer, fs: seq<Field>, p: string, p': string, p'': string, floor: Label)
    requires SeesNoMore(narrow, wide)
    ensures var w := ProjectFields(wide, fs, p, floor);
            var n := ProjectFields(narrow, fs, p', floor);
            var x := ProjectFields(narrow, w.fields, p'', floor);
            && x.fields == n.fields && x.kept == n.kept && x.total == w.kept
            && n.total == w.total && n.kept <= w.kept
    decreases fs
  {
    if fs != [] {
      FactorItems(narrow, wide, fs[0].slot, fs[0].items, 0, 0, 0, p, p', p'', floor);
      FactorFields(narrow, wide, fs[1..], p, p', p'', floor);
      assert ProjectFields(wide, fs, p, floor).fields[1..] == ProjectFields(wide, fs[1..], p, floor).fields;
    }
  }

  lemma {:induction false} FactorItem(
      narrow: Viewer, wide: Viewer, f: Slot, m: Message, i: nat, i': nat, i'': nat,
      p: string, p': string, p'': string, floor: Label)
    requires SeesNoMore(narrow, wide)
    ensures var w := ProjectItem(wide, f, m, i, p, floor);
            var n := ProjectItem(narrow, f, m, i', p', floor);
            && n.total == w.total && n.kept <= w.kept
            && (w.items == [] ==> n.items == [] && n.kept == w.kept == 0)
            && (w.items != [] ==>
                  var x := ProjectItem(narrow, f, w.items[0], i'', p'', floor);
                  x.items == n.items && x.kept == n.kept && x.total == w.kept)
    decreases m, 1
  {
    if Labelled(wide.schema, m.typ) {
      FactorNode(narrow, wide, m, ItemPath(p, f, i), ItemPath(p', f, i'), ItemPath(p'', f, i''), floor);
    } else {
      FactorFields(narrow, wide, m.fields, p, p', p'', floor);
    }
  }

  lemma {:induction false} FactorItems(
      narrow: Viewer, wide: Viewer, f: Slot, ms: seq<Message>, i: nat, i': nat, i'': nat,
      p: string, p': string, p'': string, floor: Label)
    requires SeesNoMore(narrow, wide)
    ensures var w := ProjectItems(wide, f, ms, i, p, floor);
            var n := ProjectItems(narrow, f, ms, i', p', floor);
            var x := ProjectItems(narrow, f, w.items, i'', p'', floor);
            && x.items == n.items && x.kept == n.kept && x.total == w.kept
            && n.total == w.total && n.kept <= w.kept
    decreases ms
  {
    if ms != [] {
      var h := ProjectItem(wide, f, ms[0], i, p, floor);
      var t := ProjectItems(wide, f, ms[1..], i + 1, p, floor);
      FactorItem(narrow, wide, f, ms[0], i, i', i'', p, p', p'', floor);
      FactorItems(narrow, wide, f, ms[1..], i + 1, i' + 1, i'' + |h.items|, p, p', p'', floor);
      var items := h.items + t.items;
      if h.items == [] {
        assert items == t.items;
      } else {
        assert items[0] == h.items[0] && items[1..] == t.items;
      }
    }
  }

  // ---- a projection that removed nothing reports nothing

  lemma {:induction false} QuietFields(v: Viewer, fs: seq<Field>, path: string, floor: Label)
    requires ProjectFields(v, fs, path, floor).fields == fs
    ensures ProjectFields(v, fs, path, floor).withheld == []
    decreases fs
  {
    if fs != [] {
      var w := ProjectFields(v, fs, path, floor);
      assert w.fields[0].items == ProjectItems(v, fs[0].slot, fs[0].items, 0, path, floor).items;
      assert w.fields[1..] == ProjectFields(v, fs[1..], path, floor).fields;
      QuietItems(v, fs[0].slot, fs[0].items, 0, path, floor);
      QuietFields(v, fs[1..], path, floor);
    }
  }

  lemma {:induction false} NoMoreItems(v: Viewer, f: Slot, ms: seq<Message>, i: nat, path: string, floor: Label)
    ensures |ProjectItems(v, f, ms, i, path, floor).items| <= |ms|
    decreases |ms|
  {
    if ms != [] {
      NoMoreItems(v, f, ms[1..], i + 1, path, floor);
    }
  }

  lemma {:induction false} QuietItems(v: Viewer, f: Slot, ms: seq<Message>, i: nat, path: string, floor: Label)
    requires ProjectItems(v, f, ms, i, path, floor).items == ms
    ensures ProjectItems(v, f, ms, i, path, floor).withheld == []
    decreases ms
  {
    if ms != [] {
      var h := ProjectItem(v, f, ms[0], i, path, floor).items;
      var t := ProjectItems(v, f, ms[1..], i + 1, path, floor).items;
      NoMoreItems(v, f, ms[1..], i + 1, path, floor);
      assert ms == h + t;
      assert h == [ms[0]] && t == ms[1..];
      QuietItem(v, f, ms[0], i, path, floor);
      QuietItems(v, f, ms[1..], i + 1, path, floor);
    }
  }

  lemma {:induction false} QuietItem(v: Viewer, f: Slot, m: Message, i: nat, path: string, floor: Label)
    requires ProjectItem(v, f, m, i, path, floor).items == [m]
    ensures ProjectItem(v, f, m, i, path, floor).withheld == []
    decreases m, 1
  {
    assert ProjectItem(v, f, m, i, path, floor).items[0] == m;
    if Labelled(v.schema, m.typ) {
      QuietFields(v, m.fields, ItemPath(path, f, i), Inside(v.schema, m, floor));
    } else {
      QuietFields(v, m.fields, path, floor);
    }
  }

  // ---- non-interference

  /** The two nodes differ only inside subtrees whose root this viewer does not reach. */
  ghost predicate SameNode(v: Viewer, a: Message, b: Message, floor: Label)
    decreases a, 0
  {
    && a.source == b.source
    && Reaches(v, a, floor) == Reaches(v, b, floor)
    && (Reaches(v, a, floor) ==>
          a.(fields := b.fields) == b && SameFields(v, a.fields, b.fields, Inside(v.schema, a, floor)))
  }

  ghost predicate SameFields(v: Viewer, a: seq<Field>, b: seq<Field>, floor: Label)
    decreases a
  {
    |a| == |b| && (a != [] ==>
      && a[0].slot == b[0].slot
      && SameItems(v, a[0].items, b[0].items, floor)
      && SameFields(v, a[1..], b[1..], floor))
  }

  ghost predicate SameItems(v: Viewer, a: seq<Message>, b: seq<Message>, floor: Label)
    decreases a
  {
    |a| == |b| && (a != [] ==> SameItem(v, a[0], b[0], floor) && SameItems(v, a[1..], b[1..], floor))
  }

  ghost predicate SameItem(v: Viewer, a: Message, b: Message, floor: Label)
    decreases a, 1
  {
    if Labelled(v.schema, a.typ) then a.typ == b.typ && SameNode(v, a, b, floor)
    else a.(fields := b.fields) == b && SameFields(v, a.fields, b.fields, floor)
  }

  lemma {:induction false} NonInterferenceNode(v: Viewer, a: Message, b: Message, path: string, floor: Label)
    requires SameNode(v, a, b, floor)
    ensures ProjectNode(v, a, path, floor) == ProjectNode(v, b, path, floor)
    decreases a, 0
  {
    if Reaches(v, a, floor) {
      NonInterferenceFields(v, a.fields, b.fields, path, Inside(v.schema, a, floor));
    }
  }

  lemma {:induction false} NonInterferenceFields(v: Viewer, a: seq<Field>, b: seq<Field>, path: string, floor: Label)
    requires SameFields(v, a, b, floor)
    ensures ProjectFields(v, a, path, floor) == ProjectFields(v, b, path, floor)
    decreases a
  {
    if a != [] {
      NonInterferenceItems(v, a[0].slot, a[0].items, b[0].items, 0, path, floor);
      NonInterferenceFields(v, a[1..], b[1..], path, floor);
    }
  }

  lemma {:induction false} NonInterferenceItems(
      v: Viewer, f: Slot, a: seq<Message>, b: seq<Message>, i: nat, path: string, floor: Label)
    requires SameItems(v, a, b, floor)
    ensures ProjectItems(v, f, a, i, path, floor) == ProjectItems(v, f, b, i, path, floor)
    decreases a
  {
    if a != [] {
      if Labelled(v.schema, a[0].typ) {
        NonInterferenceNode(v, a[0], b[0], ItemPath(path, f, i), floor);
      } else {
        NonInterferenceFields(v, a[0].fields, b[0].fields, path, floor);
      }
      NonInterferenceItems(v, f, a[1..], b[1..], i + 1, path, floor);
    }
  }

  // ---- validation is exact

  /** Nothing below this node is of a vocabulary other than the pinned one, and every label can be read. */
  ghost predicate SoundNode(s: Schema, m: Message)
    decreases m
  {
    InPlace(s, m.typ) && !(Labelled(s, m.typ) && m.access.Garbled?) && SoundFields(s, m.fields)
  }

  /** A card is labelled, and the label of each type of the vocabulary is the field it is pinned to. */
  ghost predicate InPlace(s: Schema, t: TypeName) {
    && (t == CARD ==> Labelled(s, t))
    && (Labelled(s, t) ==>
          var number := AccessField(s, t).value.number;
          && (t == "garm.card.v1.Card" || t == "garm.card.v1.Element" ==> number == 10)
          && (t == "garm.card.v1.Fact" ==> number == 4)
          && (t == "garm.card.v1.Choice" ==> number == 3))
  }

  ghost predicate SoundFields(s: Schema, fs: seq<Field>)
    decreases fs
  {
    fs != [] ==> SoundItems(s, fs[0].items) && SoundFields(s, fs[1..])
  }

  ghost predicate SoundItems(s: Schema, ms: seq<Message>)
    decreases ms
  {
    ms != [] ==> SoundNode(s, ms[0]) && SoundItems(s, ms[1..])
  }

  /** The labels met on the way from above the root to each node of the tree. */
  ghost function ChainsNode(s: Schema, m: Message, above: seq<Label>): set<seq<Label>>
    decreases m
  {
    var here := if Labelled(s, m.typ) && m.access.Set? then above + [m.access.lbl] else above;
    {here} + ChainsFields(s, m.fields, here)
  }

  ghost function ChainsFields(s: Schema, fs: seq<Field>, above: seq<Label>): set<seq<Label>>
    decreases fs
  {
    if fs == [] then {} else ChainsItems(s, fs[0].items, above) + ChainsFields(s, fs[1..], above)
  }

  ghost function ChainsItems(s: Schema, ms: seq<Message>, above: seq<Label>): set<seq<Label>>
    decreases ms
  {
    if ms == [] then {} else ChainsNode(s, ms[0], above) + ChainsItems(s, ms[1..], above)
  }

  ghost predicate Ascending(chain: seq<Label>) {
    forall i, j | 0 <= i <= j < |chain| :: AtLeast(chain[j], chain[i])
  }

  ghost predicate AllAscend(chains: set<seq<Label>>) {
    forall ch | ch in chains :: Ascending(ch)
  }

  /** The floor is the last label met, and the labels met so far never fell. */
  ghost predicate Summarises(floor: Label, above: seq<Label>) {
    && above != [] && Ascending(above)
    && AtLeast(floor, above[|above| - 1]) && AtLeast(above[|above| - 1], floor)
  }

  lemma Extend(floor: Label, above: seq<Label>, l: Label)
    requires Summarises(floor, above)
    ensures AtLeast(l, floor) <==> Ascending(above + [l])
    ensures AtLeast(l, floor) ==> Summarises(Join(floor, l), above + [l])
  {
    var ext := above + [l];
    var n := |above|;
    if AtLeast(l, floor) {
      forall i, j | 0 <= i <= j < |ext|
        ensures AtLeast(ext[j], ext[i])
      {
        if j == n && i < n {
          assert AtLeast(above[n - 1], above[i]);
        }
      }
    }
    if Ascending(ext) {
      assert AtLeast(ext[n], ext[n - 1]);
    }
  }

  /** A tree is accepted exactly when it is sound and no label falls below one that encloses it,
      the endpoint's own policy first among them. */
  lemma {:induction false} ValidateNodeExact(s: Schema, m: Message, path: string, floor: Floor, above: seq<Label>)
    requires Summarises(floor.lbl, above)
    ensures ValidateNode(s, m, path, floor) == "" <==> SoundNode(s, m) && AllAscend(ChainsNode(s, m, above))
    decreases m
  {
    match ReadAccess(s, m)
    case Garbled =>
    case Set(l) =>
      Extend(floor.lbl, above, l);
      assert Admits(floor, l) <==> AtLeast(l, floor.lbl);
      assert above + [l] in ChainsNode(s, m, above);
      if Admits(floor, l) {
        ValidateFieldsExact(s, m.fields, path, FloorInside(s, m, floor), above + [l]);
      }
    case Unset =>
      ValidateFieldsExact(s, m.fields, path, floor, above);
  }

  lemma {:induction false} ValidateFieldsExact(s: Schema, fs: seq<Field>, path: string, floor: Floor, above: seq<Label>)
    requires Summarises(floor.lbl, above)
    ensures ValidateFields(s, fs, path, floor) == "" <==> SoundFields(s, fs) && AllAscend(ChainsFields(s, fs, above))
    decreases fs
  {
    if fs != [] {
      ValidateItemsExact(s, fs[0].slot, fs[0].items, 0, path, floor, above);
      ValidateFieldsExact(s, fs[1..], path, floor, above);
    }
  }

  lemma {:induction false} ValidateItemsExact(
      s: Schema, f: Slot, ms: seq<Message>, i: nat, path: string, floor: Floor, above: seq<Label>)
    requires Summarises(floor.lbl, above)
    ensures ValidateItems(s, f, ms, i, path, floor) == "" <==> SoundItems(s, ms) && AllAscend(ChainsItems(s, ms, above))
    decreases ms
  {
    if ms != [] {
      ValidateNodeExact(s, ms[0], if Labelled(s, ms[0].typ) then ItemPath(path, f, i) else path, floor, above);
      ValidateItemsExact(s, f, ms[1..], i + 1, path, floor, above);
    }
  }

  // ---- nothing unreached survives, whatever the labels say

  /** A labelled node is read at its own label, and at the floor where it has none. */
  ghost function OwnLabel(m: Message, floor: Label): Label {
    if m.access.Set? then m.access.lbl else floor
  }

  ghost predicate AllReachedNode(v: Viewer, m: Message, floor: Label)
    decreases m, 0
  {
    && (if Labelled(v.schema, m.typ) then !m.access.Garbled? && ReachesLabel(v, OwnLabel(m, floor))
        else ReachesLabel(v, floor))
    && AllReachedFields(v, m.fields, Inside(v.schema, m, floor))
  }

  ghost predicate AllReachedFields(v: Viewer, fs: seq<Field>, floor: Label)
    decreases fs
  {
    fs != [] ==> AllReachedItems(v, fs[0].items, floor) && AllReachedFields(v, fs[1..], floor)
  }

  ghost predicate AllReachedItems(v: Viewer, ms: seq<Message>, floor: Label)
    decreases ms
  {
    ms != [] ==>
      && (if Labelled(v.schema, ms[0].typ) then AllReachedNode(v, ms[0], floor)
          else AllReachedFields(v, ms[0].fields, floor))
      && AllReachedItems(v, ms[1..], floor)
  }

  lemma {:induction false} SurvivorsReachedNode(v: Viewer, m: Message, path: string, floor: Label)
    ensures var r := ProjectNode(v, m, path, floor).node; r.Some? ==> AllReachedNode(v, r.value, floor)
    decreases m, 0
  {
    var inside := Inside(v.schema, m, floor);
    SurvivorsReachedFields(v, m.fields, path, inside);
    assert Inside(v.schema, m.(fields := ProjectFields(v, m.fields, path, inside).fields), floor) == inside;
  }

  lemma {:induction false} SurvivorsReachedFields(v: Viewer, fs: seq<Field>, path: string, floor: Label)
    ensures AllReachedFields(v, ProjectFields(v, fs, path, floor).fields, floor)
    decreases fs
  {
    if fs != [] {
      SurvivorsReachedItems(v, fs[0].slot, fs[0].items, 0, path, floor);
      SurvivorsReachedFields(v, fs[1..], path, floor);
      assert ProjectFields(v, fs, path, floor).fields[1..] == ProjectFields(v, fs[1..], path, floor).fields;
    }
  }

  lemma {:induction false} SurvivorsReachedItems(
      v: Viewer, f: Slot, ms: seq<Message>, i: nat, path: string, floor: Label)
    ensures AllReachedItems(v, ProjectItems(v, f, ms, i, path, floor).items, floor)
    decreases ms
  {
    if ms != [] {
      if Labelled(v.schema, ms[0].typ) {
        SurvivorsReachedNode(v, ms[0], ItemPath(path, f, i), floor);
      } else {
        SurvivorsReachedFields(v, ms[0].fields, path, floor);
      }
      SurvivorsReachedItems(v, f, ms[1..], i + 1, path, floor);
      var h := ProjectItem(v, f, ms[0], i, path, floor).items;
      var t := ProjectItems(v, f, ms[1..], i + 1, path, floor).items;
      if h == [] {
        assert h + t == t;
      } else {
        assert (h + t)[0] == h[0] && (h + t)[1..] == t;
      }
    }
  }

  // ---- projection is exact on a validated tree

  /** A labelled node with no labelled node below it, and the label it is read at. */
  datatype Leaf = Leaf(node: Message, lbl: Label)

  ghost function LeavesNode(s: Schema, m: Message, floor: Label): (r: seq<Leaf>)
    ensures r != []
    decreases m, 0
  {
    var below := LeavesFields(s, m.fields, Inside(s, m, floor));
    if below == [] then [Leaf(m, if Labelled(s, m.typ) then OwnLabel(m, floor) else floor)] else below
  }

  ghost function LeavesFields(s: Schema, fs: seq<Field>, floor: Label): seq<Leaf>
    decreases fs
  {
    if fs == [] then [] else LeavesItems(s, fs[0].items, floor) + LeavesFields(s, fs[1..], floor)
  }

  ghost function LeavesItems(s: Schema, ms: seq<Message>, floor: Label): seq<Leaf>
    decreases ms
  {
    if ms == [] then [] else LeavesItem(s, ms[0], floor) + LeavesItems(s, ms[1..], floor)
  }

  ghost function LeavesItem(s: Schema, m: Message, floor: Label): seq<Leaf>
    decreases m, 1
  {
    if Labelled(s, m.typ) then LeavesNode(s, m, floor) else LeavesFields(s, m.fields, floor)
  }

  ghost predicate Live(v: Viewer, leaves: seq<Leaf>) {
    exists lf | lf in leaves :: ReachesLabel(v, lf.lbl)
  }

  /** The tree without the labelled nodes that have no reached leaf at or below them. */
  ghost function PruneFields(v: Viewer, fs: seq<Field>, floor: Label): seq<Field>
    decreases fs
  {
    if fs == [] then []
    else [fs[0].(items := PruneItems(v, fs[0].items, floor))] + PruneFields(v, fs[1..], floor)
  }

  ghost function PruneItems(v: Viewer, ms: seq<Message>, floor: Label): seq<Message>
    decreases ms
  {
    if ms == [] then []
    else PruneItem(v, ms[0], floor) + PruneItems(v, ms[1..], floor)
  }

  ghost function PruneItem(v: Viewer, m: Message, floor: Label): (r: seq<Message>)
    ensures |r| <= 1
    decreases m
  {
    if !Labelled(v.schema, m.typ) then [m.(fields := PruneFields(v, m.fields, floor))]
    else if Live(v, LeavesNode(v.schema, m, floor)) then
      [m.(fields := PruneFields(v, m.fields, Inside(v.schema, m, floor)))]
    else []
  }

  /** The names of the topmost labelled nodes with no reached leaf, in document order. */
  ghost function LostFields(v: Viewer, fs: seq<Field>, path: string, floor: Label): seq<string>
    decreases fs
  {
    if fs == [] then []
    else LostItems(v, fs[0].slot, fs[0].items, 0, path, floor) + LostFields(v, fs[1..], path, floor)
  }

  ghost function LostItems(v: Viewer, f: Slot, ms: seq<Message>, i: nat, path: string, floor: Label): seq<string>
    decreases ms
  {
    if ms == [] then []
    else LostItem(v, f, ms[0], i, path, floor) + LostItems(v, f, ms[1..], i + 1, path, floor)
  }

  ghost function LostItem(v: Viewer, f: Slot, m: Message, i: nat, path: string, floor: Label): seq<string>
    decreases m
  {
    if !Labelled(v.schema, m.typ) then LostFields(v, m.fields, path, floor)
    else if Live(v, LeavesNode(v.schema, m, floor)) then
      LostFields(v, m.fields, ItemPath(path, f, i), Inside(v.schema, m, floor))
    else [Called(m, ItemPath(path, f, i))]
  }

  /** A withheld node goes by its own field name or, where it has none, by where it sat; never by a value. */
  ghost function Called(m: Message, path: string): string {
    if m.source != "" then m.source else if forall c | c in path :: c in " \t\n\r" then "(card)" else path
  }

  /** The viewer passed the gate this floor comes from, or the floor says something. */
  ghost predicate Usable(v: Viewer, floor: Label) {
    && Lawful(v.rules) && Specified(v.shape.clearance)
    && (Specified(floor.clearance)
        || (floor.clearance == UNSPECIFIED && v.rules.allows(v.shape.clearance, UNSPECIFIED)))
  }

  lemma ReachDown(v: Viewer, floor: Label, high: Label, low: Label)
    requires Usable(v, floor) && AtLeast(high, low) && AtLeast(low, floor) && ReachesLabel(v, high)
    ensures ReachesLabel(v, low)
  {
    assert v.rules.allows(v.shape.clearance, low.clearance);
    assert Names(low.compartments) <= v.rules.bit.Keys;
    assert BitsOf(v.rules, low.compartments).value <= BitsOf(v.rules, high.compartments).value;
  }

  lemma {:induction false} LeavesAboveNode(s: Schema, m: Message, path: string, floor: Floor)
    requires ValidateNode(s, m, path, floor) == ""
    ensures forall lf | lf in LeavesNode(s, m, floor.lbl) ::
              AtLeast(lf.lbl, EffectiveLabel(s, m, floor.lbl)) && AtLeast(lf.lbl, floor.lbl)
    decreases m
  {
    LeavesAboveFields(s, m.fields, path, FloorInside(s, m, floor));
  }

  lemma {:induction false} LeavesAboveFields(s: Schema, fs: seq<Field>, path: string, floor: Floor)
    requires ValidateFields(s, fs, path, floor) == ""
    ensures forall lf | lf in LeavesFields(s, fs, floor.lbl) :: AtLeast(lf.lbl, floor.lbl)
    decreases fs
  {
    if fs != [] {
      LeavesAboveItems(s, fs[0].slot, fs[0].items, 0, path, floor);
      LeavesAboveFields(s, fs[1..], path, floor);
    }
  }

  lemma {:induction false} LeavesAboveItems(s: Schema, f: Slot, ms: seq<Message>, i: nat, path: string, floor: Floor)
    requires ValidateItems(s, f, ms, i, path, floor) == ""
    ensures forall lf | lf in LeavesItems(s, ms, floor.lbl) :: AtLeast(lf.lbl, floor.lbl)
    decreases ms
  {
    if ms != [] {
      LeavesAboveNode(s, ms[0], if Labelled(s, ms[0].typ) then ItemPath(path, f, i) else path, floor);
      LeavesAboveItems(s, f, ms[1..], i + 1, path, floor);
    }
  }

  lemma LiveSplit(v: Viewer, a: seq<Leaf>, b: seq<Leaf>)
    ensures Live(v, a + b) <==> Live(v, a) || Live(v, b)
  {
    if Live(v, a) {
      var lf :| lf in a && ReachesLabel(v, lf.lbl);
      assert lf in a + b;
    }
    if Live(v, b) {
      var lf :| lf in b && ReachesLabel(v, lf.lbl);
      assert lf in a + b;
    }
  }

  /** On a validated tree a labelled node survives exactly when the viewer reaches a leaf at or below it. */
  lemma {:induction false} ExactNode(v: Viewer, m: Message, path: string, checked: string, floor: Floor)
    requires Usable(v, floor.lbl) && ValidateNode(v.schema, m, checked, floor) == ""
    ensures var inside := Inside(v.schema, m, floor.lbl);
            ProjectNode(v, m, path, floor.lbl) ==
            if Live(v, LeavesNode(v.schema, m, floor.lbl)) then
              NodeResult(Some(m.(fields := PruneFields(v, m.fields, inside))), LostFields(v, m.fields, path, inside))
            else NodeResult(None, [Note(m, path)])
    decreases m
  {
    var inside := FloorInside(v.schema, m, floor);
    ExactFields(v, m.fields, path, checked, inside);
    var leaves := LeavesNode(v.schema, m, floor.lbl);
    if Live(v, leaves) {
      LeavesAboveNode(v.schema, m, checked, floor);
      var lf :| lf in leaves && ReachesLabel(v, lf.lbl);
      ReachDown(v, floor.lbl, lf.lbl, EffectiveLabel(v.schema, m, floor.lbl));
    } else if LeavesFields(v.schema, m.fields, inside.lbl) == [] {
      assert leaves[0].lbl == EffectiveLabel(v.schema, m, floor.lbl);
    }
  }

  /** The whole projection: exactly the nodes with a reached leaf are left, and each topmost node
      that went is named once, in document order. */
  lemma {:induction false} ExactFields(v: Viewer, fs: seq<Field>, path: string, checked: string, floor: Floor)
    requires Usable(v, floor.lbl) && ValidateFields(v.schema, fs, checked, floor) == ""
    ensures var w := ProjectFields(v, fs, path, floor.lbl);
            var leaves := LeavesFields(v.schema, fs, floor.lbl);
            && w.fields == PruneFields(v, fs, floor.lbl) && w.withheld == LostFields(v, fs, path, floor.lbl)
            && (w.total > 0 <==> leaves != []) && (w.kept > 0 <==> Live(v, leaves))
    decreases fs
  {
    if fs != [] {
      ExactItems(v, fs[0].slot, fs[0].items, 0, path, checked, floor);
      ExactFields(v, fs[1..], path, checked, floor);
      LiveSplit(v, LeavesItems(v.schema, fs[0].items, floor.lbl), LeavesFields(v.schema, fs[1..], floor.lbl));
    }
  }

  lemma {:induction false} ExactItems(
      v: Viewer, f: Slot, ms: seq<Message>, i: nat, path: string, checked: string, floor: Floor)
    requires Usable(v, floor.lbl) && ValidateItems(v.schema, f, ms, i, checked, floor) == ""
    ensures var w := ProjectItems(v, f, ms, i, path, floor.lbl);
            var leaves := LeavesItems(v.schema, ms, floor.lbl);
            && w.items == PruneItems(v, ms, floor.lbl) && w.withheld == LostItems(v, f, ms, i, path, floor.lbl)
            && (w.total > 0 <==> leaves != []) && (w.kept > 0 <==> Live(v, leaves))
    decreases ms
  {
    if ms != [] {
      if Labelled(v.schema, ms[0].typ) {
        ExactNode(v, ms[0], ItemPath(path, f, i), ItemPath(checked, f, i), floor);
      } else {
        ExactFields(v, ms[0].fields, path, checked, floor);
      }
      ExactItems(v, f, ms[1..], i + 1, path, checked, floor);
      LiveSplit(v, LeavesItem(v.schema, ms[0], floor.lbl), LeavesItems(v.schema, ms[1..], floor.lbl));
    }
  }

  // ---- what is left are exactly the leaves the viewer reaches

  ghost function ReachedOf(v: Viewer, leaves: seq<Leaf>): seq<Leaf> {
    if leaves == [] then []
    else (if ReachesLabel(v, leaves[0].lbl) then [leaves[0]] else []) + ReachedOf(v, leaves[1..])
  }

  lemma {:induction false} ReachedOfSplit(v: Viewer, a: seq<Leaf>, b: seq<Leaf>)
    ensures ReachedOf(v, a + b) == ReachedOf(v, a) + ReachedOf(v, b)
  {
    if a == [] {
      assert a + b == b;
    } else {
      assert (a + b)[1..] == a[1..] + b;
      ReachedOfSplit(v, a[1..], b);
    }
  }

  lemma {:induction false} ReachedOfLive(v: Viewer, leaves: seq<Leaf>)
    ensures Live(v, leaves) <==> ReachedOf(v, leaves) != []
  {
    if leaves != [] {
      ReachedOfLive(v, leaves[1..]);
    }
  }

  /** The leaves of the pruned tree are the reached leaves of the tree, unchanged and in order. */
  lemma {:induction false} KeptLeavesFields(v: Viewer, fs: seq<Field>, floor: Label)
    ensures LeavesFields(v.schema, PruneFields(v, fs, floor), floor) == ReachedOf(v, LeavesFields(v.schema, fs, floor))
    ensures LeavesFields(v.schema, fs, floor) == [] ==> PruneFields(v, fs, floor) == fs
    decreases fs
  {
    if fs != [] {
      KeptLeavesItems(v, fs[0].items, floor);
      KeptLeavesFields(v, fs[1..], floor);
      ReachedOfSplit(v, LeavesItems(v.schema, fs[0].items, floor), LeavesFields(v.schema, fs[1..], floor));
      assert PruneFields(v, fs, floor)[1..] == PruneFields(v, fs[1..], floor);
    }
  }

  lemma {:induction false} KeptLeavesItems(v: Viewer, ms: seq<Message>, floor: Label)
    ensures LeavesItems(v.schema, PruneItems(v, ms, floor), floor) == ReachedOf(v, LeavesItems(v.schema, ms, floor))
    ensures LeavesItems(v.schema, ms, floor) == [] ==> PruneItems(v, ms, floor) == ms
    decreases ms
  {
    if ms != [] {
      KeptLeavesItem(v, ms[0], floor);
      KeptLeavesItems(v, ms[1..], floor);
      ReachedOfSplit(v, LeavesItem(v.schema, ms[0], floor), LeavesItems(v.schema, ms[1..], floor));
      var h, t := PruneItem(v, ms[0], floor), PruneItems(v, ms[1..], floor);
      if h == [] {
        assert h + t == t;
      } else {
        assert (h + t)[0] == h[0] && (h + t)[1..] == t;
      }
    }
  }

  lemma {:induction false} KeptLeavesItem(v: Viewer, m: Message, floor: Label)
    ensures var r := PruneItem(v, m, floor);
            (if r == [] then [] else LeavesItem(v.schema, r[0], floor)) == ReachedOf(v, LeavesItem(v.schema, m, floor))
    ensures LeavesItem(v.schema, m, floor) == [] ==> PruneItem(v, m, floor) == [m]
    decreases m
  {
    var leaves := LeavesItem(v.schema, m, floor);
    ReachedOfLive(v, leaves);
    if Labelled(v.schema, m.typ) {
      var inside := Inside(v.schema, m, floor);
      KeptLeavesFields(v, m.fields, inside);
      var m' := m.(fields := PruneFields(v, m.fields, inside));
      assert Inside(v.schema, m', floor) == inside;
      assert EffectiveLabel(v.schema, m', floor) == EffectiveLabel(v.schema, m, floor);
    } else {
      KeptLeavesFields(v, m.fields, floor);
    }
  }

  // ---- reach in the names a token claims

  /** `held` names what this viewer's token was read as holding. */
  ghost predicate HoldsNames(v: Viewer, held: seq<string>) {
    Lawful(v.rules) && v.shape.compartments == LenientBitsOf(v.rules, held)
  }

  /** The clearance suffices, and every compartment named is declared and held. */
  ghost predicate Cleared(v: Viewer, held: seq<string>, l: Label) {
    && v.rules.allows(v.shape.clearance, l.clearance)
    && forall n | n in l.compartments :: n in v.rules.bit && n in held
  }

  lemma ReachIsByName(v: Viewer, held: seq<string>, l: Label)
    requires HoldsNames(v, held)
    ensures ReachesLabel(v, l) <==> Cleared(v, held, l)
  {
    if BitsOf(v.rules, l.compartments).Some? {
      CoversIsNames(v.rules, held, l.compartments);
    }
  }

  /** The label each labelled node is read at, at any depth. */
  ghost function LabelsFields(s: Schema, fs: seq<Field>, floor: Label): seq<Label>
    decreases fs
  {
    if fs == [] then [] else LabelsItems(s, fs[0].items, floor) + LabelsFields(s, fs[1..], floor)
  }

  ghost function LabelsItems(s: Schema, ms: seq<Message>, floor: Label): seq<Label>
    decreases ms
  {
    if ms == [] then []
    else
      var own := if Labelled(s, ms[0].typ) then [OwnLabel(ms[0], floor)] else [];
      own + LabelsFields(s, ms[0].fields, Inside(s, ms[0], floor)) + LabelsItems(s, ms[1..], floor)
  }

  lemma {:induction false} AllReachedLabels(v: Viewer, fs: seq<Field>, floor: Label)
    requires AllReachedFields(v, fs, floor)
    ensures forall l | l in LabelsFields(v.schema, fs, floor) :: ReachesLabel(v, l)
    decreases fs
  {
    if fs != [] {
      AllReachedItemLabels(v, fs[0].items, floor);
      AllReachedLabels(v, fs[1..], floor);
    }
  }

  lemma {:induction false} AllReachedItemLabels(v: Viewer, ms: seq<Message>, floor: Label)
    requires AllReachedItems(v, ms, floor)
    ensures forall l | l in LabelsItems(v.schema, ms, floor) :: ReachesLabel(v, l)
    decreases ms
  {
    if ms != [] {
      AllReachedLabels(v, ms[0].fields, Inside(v.schema, ms[0], floor));
      AllReachedItemLabels(v, ms[1..], floor);
    }
  }

  /** On any tree, valid or not, every label left at any depth is one the viewer has the clearance and every
      compartment for. */
  lemma SurvivorsAreCleared(v: Viewer, held: seq<string>, fs: seq<Field>, path: string, floor: Label)
    requires HoldsNames(v, held)
    ensures forall l | l in LabelsFields(v.schema, ProjectFields(v, fs, path, floor).fields, floor) ::
              Cleared(v, held, l)
  {
    var left := ProjectFields(v, fs, path, floor).fields;
    SurvivorsReachedFields(v, fs, path, floor);
    AllReachedLabels(v, left, floor);
    forall l | l in LabelsFields(v.schema, left, floor)
      ensures Cleared(v, held, l)
    {
      ReachIsByName(v, held, l);
    }
  }

  lemma {:induction false} ReachedOfExactly(v: Viewer, leaves: seq<Leaf>, lf: Leaf)
    ensures lf in ReachedOf(v, leaves) <==> lf in leaves && ReachesLabel(v, lf.lbl)
  {
    if leaves != [] {
      ReachedOfExactly(v, leaves[1..], lf);
    }
  }

  /** On a validated tree the labelled leaves left are exactly those whose label the viewer has the clearance and
      every compartment for. */
  lemma LeavesLeftAreTheCleared(
      v: Viewer, held: seq<string>, fs: seq<Field>, path: string, checked: string, floor: Floor, lf: Leaf)
    requires HoldsNames(v, held) && Usable(v, floor.lbl) && ValidateFields(v.schema, fs, checked, floor) == ""
    ensures lf in LeavesFields(v.schema, ProjectFields(v, fs, path, floor.lbl).fields, floor.lbl) <==>
            lf in LeavesFields(v.schema, fs, floor.lbl) && Cleared(v, held, lf.lbl)
  {
    ExactFields(v, fs, path, checked, floor);
    KeptLeavesFields(v, fs, floor.lbl);
    ReachedOfExactly(v, LeavesFields(v.schema, fs, floor.lbl), lf);
    ReachIsByName(v, held, lf.lbl);
  }

  // ---- what is left of a valid tree is valid

  /** Validity, which asks about the floor's label: not what it is called, and not the path. */
  ghost predicate AcceptsNode(s: Schema, m: Message, floor: Label)
    decreases m
  {
    && !PinViolated(s, m.typ) && !ReadAccess(s, m).Garbled?
    && (ReadAccess(s, m).Set? ==> AtLeast(ReadAccess(s, m).lbl, floor))
    && AcceptsFields(s, m.fields, Inside(s, m, floor))
  }

  ghost predicate AcceptsFields(s: Schema, fs: seq<Field>, floor: Label)
    decreases fs
  {
    fs != [] ==> AcceptsItems(s, fs[0].items, floor) && AcceptsFields(s, fs[1..], floor)
  }

  ghost predicate AcceptsItems(s: Schema, ms: seq<Message>, floor: Label)
    decreases ms
  {
    ms != [] ==> AcceptsNode(s, ms[0], floor) && AcceptsItems(s, ms[1..], floor)
  }

  lemma {:induction false} ValidateAccepts(s: Schema, m: Message, path: string, floor: Floor)
    ensures ValidateNode(s, m, path, floor) == "" <==> AcceptsNode(s, m, floor.lbl)
    decreases m
  {
    ValidateAcceptsFields(s, m.fields, path, FloorInside(s, m, floor));
  }

  lemma {:induction false} ValidateAcceptsFields(s: Schema, fs: seq<Field>, path: string, floor: Floor)
    ensures ValidateFields(s, fs, path, floor) == "" <==> AcceptsFields(s, fs, floor.lbl)
    decreases fs
  {
    if fs != [] {
      ValidateAcceptsItems(s, fs[0].slot, fs[0].items, 0, path, floor);
      ValidateAcceptsFields(s, fs[1..], path, floor);
    }
  }

  lemma {:induction false} ValidateAcceptsItems(
      s: Schema, f: Slot, ms: seq<Message>, i: nat, path: string, floor: Floor)
    ensures ValidateItems(s, f, ms, i, path, floor) == "" <==> AcceptsItems(s, ms, floor.lbl)
    decreases ms
  {
    if ms != [] {
      ValidateAccepts(s, ms[0], if Labelled(s, ms[0].typ) then ItemPath(path, f, i) else path, floor);
      ValidateAcceptsItems(s, f, ms[1..], i + 1, path, floor);
    }
  }

  lemma AcceptsAppend(s: Schema, h: seq<Message>, t: seq<Message>, floor: Label)
    requires |h| <= 1 && (h != [] ==> AcceptsNode(s, h[0], floor)) && AcceptsItems(s, t, floor)
    ensures AcceptsItems(s, h + t, floor)
  {
    if h == [] {
      assert h + t == t;
    } else {
      assert (h + t)[0] == h[0] && (h + t)[1..] == t;
    }
  }

  /** Removing nodes breaks no floor, whoever they are removed for. */
  lemma {:induction false} StaysAcceptedFields(v: Viewer, fs: seq<Field>, path: string, floor: Label, at: Label)
    requires AcceptsFields(v.schema, fs, floor)
    ensures AcceptsFields(v.schema, ProjectFields(v, fs, path, at).fields, floor)
    decreases fs
  {
    if fs != [] {
      assert ProjectFields(v, fs, path, at).fields[1..] == ProjectFields(v, fs[1..], path, at).fields;
      StaysAcceptedItems(v, fs[0].slot, fs[0].items, 0, path, floor, at);
      StaysAcceptedFields(v, fs[1..], path, floor, at);
    }
  }

  lemma {:induction false} StaysAcceptedItems(
      v: Viewer, f: Slot, ms: seq<Message>, i: nat, path: string, floor: Label, at: Label)
    requires AcceptsItems(v.schema, ms, floor)
    ensures AcceptsItems(v.schema, ProjectItems(v, f, ms, i, path, at).items, floor)
    decreases ms
  {
    if ms != [] {
      StaysAcceptedItem(v, f, ms[0], i, path, floor, at);
      StaysAcceptedItems(v, f, ms[1..], i + 1, path, floor, at);
      AcceptsAppend(v.schema, ProjectItem(v, f, ms[0], i, path, at).items,
                    ProjectItems(v, f, ms[1..], i + 1, path, at).items, floor);
    }
  }

  lemma {:induction false} StaysAcceptedItem(
      v: Viewer, f: Slot, m: Message, i: nat, path: string, floor: Label, at: Label)
    requires AcceptsNode(v.schema, m, floor)
    ensures var r := ProjectItem(v, f, m, i, path, at).items;
            r != [] ==> AcceptsNode(v.schema, r[0], floor)
    decreases m
  {
    var labelled := Labelled(v.schema, m.typ);
    StaysAcceptedFields(v, m.fields, if labelled then ItemPath(path, f, i) else path, Inside(v.schema, m, floor),
                        if labelled then Inside(v.schema, m, at) else at);
  }
}
