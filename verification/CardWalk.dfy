/** The card walk as it runs: one accumulating list of withheld names, one first violation, and a
    tree rewritten field by field and item by item. */
module CardWalk {
  import opened Policy
  import opened Protobuf
  import opened CardTree
  import opened CardProjection
  import opened CardResponse
  import opened TypeGraph

  /** One walk of one response for one viewer. */
  class Walk {
    const v: Viewer
    var withheld: seq<string>
    var invalid: string

    constructor (v: Viewer)
      ensures this.v == v && withheld == [] && invalid == ""
    {
      this.v := v;
      withheld, invalid := [], "";
    }

    // ---- floors, read only

    /** Stops at the first violation, which names itself; nothing is rewritten. */
    method Validate(m: Message, path: string, floor: Floor)
      modifies this`invalid
      ensures invalid == if old(invalid) != "" then old(invalid) else ValidateNode(v.schema, m, path, floor)
      decreases m
    {
      if invalid != "" {
        return;
      }
      if PinViolated(v.schema, m.typ) {
        invalid := "pin_violated: " + m.typ;
        return;
      }
      var inside := floor;
      match ReadAccess(v.schema, m) {
        case Garbled =>
          invalid := "unreadable_label: " + OrRoot(path);
          return;
        case Set(l) =>
          if !Admits(floor, l) {
            invalid := floor.check + ": " + OrRoot(path);
            return;
          }
          inside := FloorInside(v.schema, m, floor);
        case Unset =>
      }
      var k := 0;
      while k < |m.fields|
        invariant 0 <= k <= |m.fields|
        invariant invalid == ""
        invariant ValidateFields(v.schema, m.fields, path, inside) ==
                  ValidateFields(v.schema, m.fields[k..], path, inside)
      {
        var f := m.fields[k];
        assert m.fields[k..][0] == f && m.fields[k..][1..] == m.fields[k + 1..];
        ValidateList(f.slot, f.items, path, inside);
        if invalid != "" {
          return;
        }
        k := k + 1;
      }
    }

    method ValidateList(f: Slot, ms: seq<Message>, path: string, floor: Floor)
      requires invalid == ""
      modifies this`invalid
      ensures invalid == ValidateItems(v.schema, f, ms, 0, path, floor)
      decreases ms
    {
      var i := 0;
      while i < |ms|
        invariant 0 <= i <= |ms|
        invariant invalid == ""
        invariant ValidateItems(v.schema, f, ms, 0, path, floor) == ValidateItems(v.schema, f, ms[i..], i, path, floor)
      {
        assert ms[i..][0] == ms[i] && ms[i..][1..] == ms[i + 1..];
        Validate(ms[i], if Labelled(v.schema, ms[i].typ) then ItemPath(path, f, i) else path, floor);
        if invalid != "" {
          return;
        }
        i := i + 1;
      }
    }

    // ---- projection

    /** Projects one labelled node. What its children added is cut off again when they all went. */
    method Node(m: Message, path: string, floor: Label) returns (kept: bool, m': Message)
      modifies this`withheld
      ensures var r := ProjectNode(v, m, path, floor);
              && withheld == old(withheld) + r.withheld
              && kept == r.node.Some? && (kept ==> m' == r.node.value)
      decreases m, 0
    {
      m' := m;
      if !Reaches(v, m, floor) {
        withheld := withheld + [Note(m, path)];
        return false, m;
      }
      var mark := |withheld|;
      var fields, survived, total := Children(m.fields, path, Inside(v.schema, m, floor));
      if total > 0 && survived == 0 {
        withheld := withheld[..mark];
        assert withheld == old(withheld);
        withheld := withheld + [Note(m, path)];
        return false, m;
      }
      return true, m.(fields := fields);
    }

    /** Projects every field in turn, counting labelled children. */
    method Children(fs: seq<Field>, path: string, floor: Label) returns (fs': seq<Field>, kept: nat, total: nat)
      modifies this`withheld
      ensures var r := ProjectFields(v, fs, path, floor);
              withheld == old(withheld) + r.withheld && fs' == r.fields && kept == r.kept && total == r.total
      decreases fs
    {
      fs', kept, total := [], 0, 0;
      ghost var noted := [];
      var k := 0;
      while k < |fs|
        invariant 0 <= k <= |fs|
        invariant withheld == old(withheld) + noted
        invariant var all, rest := ProjectFields(v, fs, path, floor), ProjectFields(v, fs[k..], path, floor);
                  && all.fields == fs' + rest.fields && all.withheld == noted + rest.withheld
                  && all.kept == kept + rest.kept && all.total == total + rest.total
      {
        assert fs[k..][0] == fs[k] && fs[k..][1..] == fs[k + 1..];
        ghost var here := ProjectItems(v, fs[k].slot, fs[k].items, 0, path, floor);
        assert ProjectFields(v, fs[k..], path, floor).fields ==
               [fs[k].(items := here.items)] + ProjectFields(v, fs[k + 1..], path, floor).fields;
        var items, survived, seen := FilterList(fs[k].slot, fs[k].items, path, floor);
        fs' := fs' + [fs[k].(items := items)];
        kept, total := kept + survived, total + seen;
        noted := noted + here.withheld;
        k := k + 1;
      }
    }

    /** Rewrites one list, keeping the labelled items that survive and every unlabelled one. */
    method FilterList(f: Slot, ms: seq<Message>, path: string, floor: Label)
        returns (ms': seq<Message>, kept: nat, total: nat)
      modifies this`withheld
      ensures var r := ProjectItems(v, f, ms, 0, path, floor);
              withheld == old(withheld) + r.withheld && ms' == r.items && kept == r.kept && total == r.total
      decreases ms
    {
      ms', kept, total := [], 0, 0;
      ghost var noted := [];
      var i := 0;
      while i < |ms|
        invariant 0 <= i <= |ms|
        invariant withheld == old(withheld) + noted
        invariant ProjectItems(v, f, ms, 0, path, floor) ==
                  Items(ms', kept, total, noted).Then(ProjectItems(v, f, ms[i..], i, path, floor))
      {
        ItemsStep(v, f, ms, i, path, floor, Items(ms', kept, total, noted));
        noted := noted + ProjectItem(v, f, ms[i], i, path, floor).withheld;
        var items, survived, seen := FilterItem(f, ms[i], i, path, floor);
        ms', kept, total := ms' + items, kept + survived, total + seen;
        i := i + 1;
      }
    }

    method FilterItem(f: Slot, m: Message, i: nat, path: string, floor: Label)
        returns (items: seq<Message>, kept: nat, total: nat)
      modifies this`withheld
      ensures var r := ProjectItem(v, f, m, i, path, floor);
              withheld == old(withheld) + r.withheld && items == r.items && kept == r.kept && total == r.total
      decreases m, 1
    {
      if Labelled(v.schema, m.typ) {
        var keep, m' := Node(m, ItemPath(path, f, i), floor);
        items, kept, total := if keep then [m'] else [], if keep then 1 else 0, 1;
      } else {
        var fields;
        fields, kept, total := Children(m.fields, path, floor);
        items := [m.(fields := fields)];
      }
    }

    // ---- the whole response

    method Card(card: Message, path: string, floor: Label) returns (kept: bool, card': Message)
      modifies this`withheld
      ensures var r := ProjectCard(v, card, path, floor);
              && withheld == old(withheld) + r.withheld
              && kept == r.node.Some? && (kept ==> card' == r.node.value)
    {
      card' := card;
      if !Reaches(v, card, floor) {
        withheld := withheld + [Note(card, path)];
        return false, card;
      }
      var mark := |withheld|;
      var fields, _, _ := Children(card.fields, "", Inside(v.schema, card, floor));
      return true, Disclose(card.(fields := fields), withheld[mark..]);
    }

    method Each(m: Message, path: string, floor: Label) returns (kept: bool, m': Message)
      requires Resolved(v.schema) && Typed(v.schema, m)
      modifies this`withheld
      ensures var r := VisitItem(v, m, path, floor, false);
              withheld == old(withheld) + r.withheld && r.items == if kept then [m'] else []
      decreases m
    {
      if m.typ == CARD {
        kept, m' := Card(m, path, floor);
      } else {
        var fields := EachField(m.typ, m.fields, path, floor);
        kept, m' := true, m.(fields := fields);
      }
    }

    method EachField(ghost t: TypeName, fs: seq<Field>, path: string, floor: Label) returns (fs': seq<Field>)
      requires Resolved(v.schema) && t in v.schema && TypedFields(v.schema, t, fs)
      modifies this`withheld
      ensures var r := VisitFields(v, fs, path, floor, false);
              withheld == old(withheld) + r.withheld && fs' == r.fields
      decreases fs
    {
      fs' := [];
      ghost var noted := [];
      var k := 0;
      while k < |fs|
        invariant 0 <= k <= |fs|
        invariant TypedFields(v.schema, t, fs[k..])
        invariant withheld == old(withheld) + noted
        invariant VisitFields(v, fs, path, floor, false) ==
                  Visited(fs', noted).Then(VisitFields(v, fs[k..], path, floor, false))
      {
        VisitFieldsStep(v, t, fs, k, path, floor, Visited(fs', noted));
        noted := noted + VisitField(v, fs[k], path, floor, false).withheld;
        var items := FieldItems(fs[k], path, floor);
        fs' := fs' + [fs[k].(items := items)];
        k := k + 1;
      }
    }

    /** Only a field whose type a card can be found below is looked into. */
    method FieldItems(f: Field, path: string, floor: Label) returns (items: seq<Message>)
      requires Resolved(v.schema) && f.slot.target in v.schema && TypedItems(v.schema, f.slot.target, f.items)
      modifies this`withheld
      ensures var r := VisitField(v, f, path, floor, false);
              withheld == old(withheld) + r.withheld && items == r.items
      decreases f
    {
      var guard := ContainsCard(v.schema, f.slot.target);
      if guard {
        items := EachOf(f.slot, f.items, path, floor);
      } else {
        items := f.items;
      }
    }

    method EachOf(f: Slot, ms: seq<Message>, path: string, floor: Label) returns (ms': seq<Message>)
      requires Resolved(v.schema) && TypedItems(v.schema, f.target, ms)
      modifies this`withheld
      ensures var r := VisitItems(v, f, ms, 0, path, floor, false);
              withheld == old(withheld) + r.withheld && ms' == r.items
      decreases ms
    {
      ms' := [];
      EveryItemTyped(v.schema, f.target, ms);
      ghost var done := VisitedItems([], []);
      var i := 0;
      while i < |ms|
        invariant 0 <= i <= |ms|
        invariant withheld == old(withheld) + done.withheld && ms' == done.items
        invariant VisitItems(v, f, ms, 0, path, floor, false) ==
                  done.Then(VisitItems(v, f, ms[i..], i, path, floor, false))
      {
        VisitStep(v, f, ms, i, path, floor, done);
        done := done.Then(VisitItem(v, ms[i], ItemPath(path, f, i), floor, false));
        var keep, m' := Each(ms[i], ItemPath(path, f, i), floor);
        ms' := ms' + if keep then [m'] else [];
        i := i + 1;
      }
    }

    /** A refusal leaves the response untouched; otherwise each card in it is rewritten for the viewer. */
    method Response(resp: Message, floor: Floor) returns (r: CardResult)
      requires Resolved(v.schema) && Typed(v.schema, resp) && withheld == [] && invalid == ""
      modifies this
      ensures r == ProjectCards(v, resp, floor)
    {
      Validate(resp, "", floor);
      if invalid != "" {
        return Invalid(invalid);
      }
      var kept, resp' := Each(resp, "", floor.lbl);
      r := if kept then Served(resp', withheld) else Gone;
    }
  }

  /** The second half of step 8: only a response whose type a card can be found below is validated and walked. */
  method Sanitise(memo: CardMemo, v: Viewer, resp: Message, floor: Floor) returns (r: CardResult)
    requires memo.Valid() && memo.schema == v.schema && Typed(v.schema, resp)
    modifies memo
    ensures memo.Valid() && r == Sanitised(v, resp, floor)
  {
    var cards := memo.CardsIn(resp.typ);
    if !cards {
      return Served(resp, []);
    }
    var walk := new Walk(v);
    r := walk.Response(resp, floor);
  }

  lemma ItemsStep(v: Viewer, f: Slot, ms: seq<Message>, i: nat, path: string, floor: Label, done: Items)
    requires i < |ms|
    ensures done.Then(ProjectItems(v, f, ms[i..], i, path, floor)) ==
            done.Then(ProjectItem(v, f, ms[i], i, path, floor)).Then(
              ProjectItems(v, f, ms[i + 1..], i + 1, path, floor))
  {
    var here, rest := ProjectItem(v, f, ms[i], i, path, floor), ProjectItems(v, f, ms[i + 1..], i + 1, path, floor);
    assert ms[i..][0] == ms[i] && ms[i..][1..] == ms[i + 1..];
    assert done.items + (here.items + rest.items) == (done.items + here.items) + rest.items;
    assert done.withheld + (here.withheld + rest.withheld) == (done.withheld + here.withheld) + rest.withheld;
  }

  lemma {:induction false} EveryItemTyped(s: Schema, t: TypeName, ms: seq<Message>)
    requires TypedItems(s, t, ms)
    ensures forall i | 0 <= i < |ms| :: Typed(s, ms[i])
    decreases |ms|
  {
    if ms != [] {
      EveryItemTyped(s, t, ms[1..]);
      assert forall i | 1 <= i < |ms| :: ms[i] == ms[1..][i - 1];
    }
  }

  lemma VisitStep(v: Viewer, f: Slot, ms: seq<Message>, i: nat, path: string, floor: Label, done: VisitedItems)
    requires i < |ms|
    ensures done.Then(VisitItems(v, f, ms[i..], i, path, floor, false)) ==
            done.Then(VisitItem(v, ms[i], ItemPath(path, f, i), floor, false)).Then(
              VisitItems(v, f, ms[i + 1..], i + 1, path, floor, false))
  {
    assert ms[i..][0] == ms[i] && ms[i..][1..] == ms[i + 1..];
    ThenAssociates(done, VisitItem(v, ms[i], ItemPath(path, f, i), floor, false),
                   VisitItems(v, f, ms[i + 1..], i + 1, path, floor, false));
  }

  lemma VisitFieldsStep(v: Viewer, t: TypeName, fs: seq<Field>, k: nat, path: string, floor: Label, done: Visited)
    requires Resolved(v.schema) && t in v.schema && k < |fs| && TypedFields(v.schema, t, fs[k..])
    ensures fs[k].slot.target in v.schema && TypedItems(v.schema, fs[k].slot.target, fs[k].items)
    ensures TypedFields(v.schema, t, fs[k + 1..])
    ensures var f := VisitField(v, fs[k], path, floor, false);
            done.Then(VisitFields(v, fs[k..], path, floor, false)) ==
            done.Then(Visited([fs[k].(items := f.items)], f.withheld)).Then(
              VisitFields(v, fs[k + 1..], path, floor, false))
  {
    assert fs[k..][0] == fs[k] && fs[k..][1..] == fs[k + 1..];
    var f, rest := VisitField(v, fs[k], path, floor, false), VisitFields(v, fs[k + 1..], path, floor, false);
    var here := [fs[k].(items := f.items)];
    assert done.fields + (here + rest.fields) == (done.fields + here) + rest.fields;
    assert done.withheld + (f.withheld + rest.withheld) == (done.withheld + f.withheld) + rest.withheld;
  }
}
