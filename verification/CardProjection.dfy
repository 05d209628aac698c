/** The card walk as functions on values: validating the labels of a tree, and
    projecting it for one viewer. `CardWalk` is the imperative walk proved to compute these. */
module CardProjection {
  import opened Policy
  import opened CardTree

  datatype Viewer = Viewer(schema: Schema, rules: Rules, shape: Shape)

  predicate ReachesLabel(v: Viewer, l: Label) {
    && v.rules.allows(v.shape.clearance, l.clearance)
    && var need := BitsOf(v.rules, l.compartments);
       need.Some? && need.value <= v.shape.compartments
  }

  /** The label a node is read at: its own, or the floor it inherits. */
  function EffectiveLabel(s: Schema, m: Message, floor: Label): Label {
    match ReadAccess(s, m)
    case Set(l) => l
    case _ => floor
  }

  predicate Reaches(v: Viewer, m: Message, floor: Label) {
    !ReadAccess(v.schema, m).Garbled? && ReachesLabel(v, EffectiveLabel(v.schema, m, floor))
  }

  // ---- validation

  /** The first violation, or the empty string. */
  function ValidateNode(s: Schema, m: Message, path: string, floor: Floor): string
    decreases m
  {
    if PinViolated(s, m.typ) then "pin_violated: " + m.typ
    else match ReadAccess(s, m)
      case Garbled => "unreadable_label: " + OrRoot(path)
      case Set(l) =>
        if !Admits(floor, l) then floor.check + ": " + OrRoot(path)
        else ValidateFields(s, m.fields, path, FloorInside(s, m, floor))
      case Unset => ValidateFields(s, m.fields, path, floor)
  }

  function ValidateFields(s: Schema, fs: seq<Field>, path: string, floor: Floor): string
    decreases fs
  {
    if fs == [] then ""
    else
      var first := ValidateItems(s, fs[0].slot, fs[0].items, 0, path, floor);
      if first != "" then first else ValidateFields(s, fs[1..], path, floor)
  }

  function ValidateItems(s: Schema, f: Slot, ms: seq<Message>, i: nat, path: string, floor: Floor): string
    decreases ms
  {
    if ms == [] then ""
    else
      var p := if Labelled(s, ms[0].typ) then ItemPath(path, f, i) else path;
      var first := ValidateNode(s, ms[0], p, floor);
      if first != "" then first else ValidateItems(s, f, ms[1..], i + 1, path, floor)
  }

  // ---- projection

  datatype NodeResult = NodeResult(node: Option<Message>, withheld: seq<string>)
  datatype Walked = Walked(fields: seq<Field>, kept: nat, total: nat, withheld: seq<string>)
  datatype Items = Items(items: seq<Message>, kept: nat, total: nat, withheld: seq<string>)
  {
    function Then(next: Items): Items {
      Items(items + next.items, kept + next.kept, total + next.total, withheld + next.withheld)
    }
  }

  /** Projects one labelled node. A group whose every labelled child went is withheld
      whole, under its own name instead of theirs. */
  function ProjectNode(v: Viewer, m: Message, path: string, floor: Label): NodeResult
    decreases m, 0
  {
    if !Reaches(v, m, floor) then NodeResult(None, [Note(m, path)])
    else
      var w := ProjectFields(v, m.fields, path, Inside(v.schema, m, floor));
      if w.total > 0 && w.kept == 0 then NodeResult(None, [Note(m, path)])
      else NodeResult(Some(m.(fields := w.fields)), w.withheld)
  }

  /** Projects every labelled descendant, counting the nearest ones that there were and that survived. */
  function ProjectFields(v: Viewer, fs: seq<Field>, path: string, floor: Label): (r: Walked)
    ensures r.kept <= r.total
    decreases fs
  {
    if fs == [] then Walked([], 0, 0, [])
    else
      var h := ProjectItems(v, fs[0].slot, fs[0].items, 0, path, floor);
      var t := ProjectFields(v, fs[1..], path, floor);
      Walked([fs[0].(items := h.items)] + t.fields, h.kept + t.kept, h.total + t.total, h.withheld + t.withheld)
  }

  function ProjectItems(v: Viewer, f: Slot, ms: seq<Message>, i: nat, path: string, floor: Label): (r: Items)
    ensures r.kept <= r.total
    decreases ms
  {
    if ms == [] then Items([], 0, 0, [])
    else
      ProjectItem(v, f, ms[0], i, path, floor).Then(ProjectItems(v, f, ms[1..], i + 1, path, floor))
  }

  /** A type with no label of its own is transparent: the walk goes through it, without extending the path. */
  function ProjectItem(v: Viewer, f: Slot, m: Message, i: nat, path: string, floor: Label): (r: Items)
    ensures r.kept <= r.total && |r.items| <= 1
    decreases m, 1
  {
    if Labelled(v.schema, m.typ) then
      var n := ProjectNode(v, m, ItemPath(path, f, i), floor);
      if n.node.Some? then Items([n.node.value], 1, 1, n.withheld) else Items([], 0, 1, n.withheld)
    else
      var w := ProjectFields(v, m.fields, path, floor);
      Items([m.(fields := w.fields)], w.kept, w.total, w.withheld)
  }

}
