/** Card values, the type graph they are instances of, and the floors a label is held to. */
module CardTree {
  import opened Policy
  import opened Protobuf

  type Schema = Descriptors

  const CARD: TypeName := "garm.card.v1.Card"
  const LABEL: TypeName := "garm.card.v1.Label"
  const SECTION: TypeName := "garm.card.v1.Section"

  /** The label field of a type, found by name and shape. */
  function AccessField(s: Schema, t: TypeName): (fd: Option<FieldDesc>)
    ensures fd.Some? ==> t in s && fd.value in s[t] && fd.value.kind.Sub? && fd.value.name == "access"
  {
    if t !in s then None else FindAccess(s[t])
  }

  function FindAccess(fds: seq<FieldDesc>): (fd: Option<FieldDesc>)
    ensures fd.Some? ==> fd.value in fds && fd.value.kind.Sub? && fd.value.name == "access"
  {
    if fds == [] then None
    else if fds[0].name == "access" then
      if fds[0].cardinality.Singular? && fds[0].kind == Sub(LABEL) then Some(fds[0]) else None
    else FindAccess(fds[1..])
  }

  /** The first field of that name is one label, and not a list or a map of them. */
  ghost predicate LabelAt(fds: seq<FieldDesc>, i: nat) {
    && i < |fds| && fds[i].name == "access" && fds[i].cardinality == Singular && fds[i].kind == Sub(LABEL)
    && forall j | 0 <= j < i :: fds[j].name != "access"
  }

  lemma {:induction false} FindAccessExact(fds: seq<FieldDesc>, fd: FieldDesc)
    ensures FindAccess(fds) == Some(fd) <==> exists i: nat :: LabelAt(fds, i) && fds[i] == fd
  {
    if fds != [] && fds[0].name == "access" {
      assert LabelAt(fds, 0) <==> fds[0].cardinality == Singular && fds[0].kind == Sub(LABEL);
      assert forall i: nat :: LabelAt(fds, i) ==> i == 0;
    } else if fds != [] {
      FindAccessExact(fds[1..], fd);
      forall i: nat
        ensures LabelAt(fds[1..], i) ==> LabelAt(fds, i + 1) && fds[i + 1] == fds[1..][i]
        ensures LabelAt(fds, i) ==> i > 0 && LabelAt(fds[1..], i - 1) && fds[1..][i - 1] == fds[i]
      {
        assert forall j | 0 < j < |fds| :: fds[j] == fds[1..][j - 1];
      }
    }
  }

  /** A type is labelled exactly when its field of that name is a single Label. */
  lemma LabelledExactly(s: Schema, t: TypeName)
    ensures Labelled(s, t) <==> t in s && exists i: nat :: LabelAt(s[t], i)
  {
    if t in s {
      if Labelled(s, t) {
        FindAccessExact(s[t], AccessField(s, t).value);
      }
      if i: nat :| LabelAt(s[t], i) {
        FindAccessExact(s[t], s[t][i]);
      }
    }
  }

  predicate Labelled(s: Schema, t: TypeName) {
    AccessField(s, t).Some?
  }

  const PINNED: map<TypeName, nat> :=
    map["garm.card.v1.Card" := 10, "garm.card.v1.Element" := 10, "garm.card.v1.Fact" := 4, "garm.card.v1.Choice" := 3]

  /** A vocabulary other than the one this build is pinned to: a moved label, or a card with none. */
  predicate PinViolated(s: Schema, t: TypeName) {
    match AccessField(s, t)
    case None => t == CARD
    case Some(fd) => t in PINNED && fd.number != PINNED[t]
  }

  /** A clearance and the compartments to be held with it. */
  datatype Label = Label(clearance: int, compartments: seq<string>)

  /** Label order: `high` demands at least what `low` does. */
  predicate AtLeast(high: Label, low: Label) {
    high.clearance >= low.clearance && Names(low.compartments) <= Names(high.compartments)
  }

  /** The label field as read off a value; `Garbled` is one that is present and unreadable. What makes a label
      unreadable is the descriptor of the Label type, so in one response either every label that is set reads or
      none does; the model lets them mix, which only adds trees. */
  datatype Access = Unset | Set(lbl: Label) | Garbled

  /** `source` is a Fact's own field name, empty when there is none; `disclosure` is
      None where the type has no place for one; `body` is every scalar, opaque. */
  datatype Message = Message(
    typ: TypeName, access: Access, source: string,
    disclosure: Option<seq<string>>, body: string, fields: seq<Field>)

  datatype Slot = Slot(name: string, target: TypeName, repeated: bool)

  /** One message-valued field the walk descends into, in descriptor order. A
      singular field holds at most one item, and none means it is not set. */
  datatype Field = Field(slot: Slot, items: seq<Message>)

  function ReadAccess(s: Schema, m: Message): Access {
    if Labelled(s, m.typ) then m.access else Unset
  }

  function AddNames(have: seq<string>, names: seq<string>): (r: seq<string>)
    ensures Names(r) == Names(have) + Names(names)
    decreases |names|
  {
    if names == [] then have
    else
      assert Names(names) == {names[0]} + Names(names[1..]);
      AddNames(if names[0] in have then have else have + [names[0]], names[1..])
  }

  /** The least label that demands all that both do. */
  function Join(a: Label, b: Label): (r: Label)
    ensures AtLeast(r, a) && AtLeast(r, b)
    ensures forall l: Label | AtLeast(l, a) && AtLeast(l, b) :: AtLeast(l, r)
  {
    Label(if b.clearance > a.clearance then b.clearance else a.clearance, AddNames(a.compartments, b.compartments))
  }

  /** The floor that applies to a node's children. */
  function Inside(s: Schema, m: Message, floor: Label): (r: Label)
    ensures AtLeast(r, floor)
  {
    match ReadAccess(s, m)
    case Set(l) => Join(floor, l)
    case _ => floor
  }

  /** `check` only names which floor refused. */
  datatype Floor = Floor(lbl: Label, check: string)

  predicate Admits(f: Floor, l: Label) {
    l.clearance >= f.lbl.clearance && forall n | n in f.lbl.compartments :: n in l.compartments
  }

  predicate HoldsSection(m: Message) {
    exists f | f in m.fields :: !f.slot.repeated && f.slot.target == SECTION && f.items != []
  }

  /** The floor inside a labelled node, named after it. */
  function FloorInside(s: Schema, m: Message, f: Floor): Floor {
    if ReadAccess(s, m).Set? then
      Floor(Inside(s, m, f.lbl), if HoldsSection(m) then "label_below_section" else "label_below_element")
    else f
  }

  // ---- paths

  function Decimal(n: nat): string {
    if n < 10 then ["0123456789"[n]] else Decimal(n / 10) + ["0123456789"[n % 10]]
  }

  function NamePath(path: string, name: string): string {
    if path == "" then name else path + "." + name
  }

  function IndexPath(path: string, name: string, i: nat): string {
    NamePath(path, name) + "[" + Decimal(i) + "]"
  }

  /** Where the i-th item of a field sits, as the caller is told it. */
  function ItemPath(path: string, f: Slot, i: nat): string {
    if f.repeated then IndexPath(path, f.name, i) else NamePath(path, f.name)
  }

  lemma {:induction false} DecimalTellsApart(i: nat, j: nat)
    requires Decimal(i) == Decimal(j)
    ensures i == j
  {
    var a, b := Decimal(i), Decimal(j);
    assert a[|a| - 1] == "0123456789"[i % 10] && b[|b| - 1] == "0123456789"[j % 10];
    assert i % 10 == j % 10;
    if i >= 10 && j >= 10 {
      assert a[..|a| - 1] == Decimal(i / 10) && b[..|b| - 1] == Decimal(j / 10);
      DecimalTellsApart(i / 10, j / 10);
    } else {
      DecimalIsLonger(if i >= 10 then i else j);
    }
  }

  lemma DecimalIsLonger(n: nat)
    ensures n >= 10 ==> |Decimal(n)| >= 2
  {
    if n >= 10 {
      assert |Decimal(n / 10)| >= 1;
    }
  }

  function Position(f: Slot, i: nat): string {
    if f.repeated then "[" + Decimal(i) + "]" else ""
  }

  lemma NameThenPosition(path: string, f: Slot, i: nat)
    ensures ItemPath(path, f, i) == (if path == "" then "" else path + ".") + (f.name + Position(f, i))
  {
    if path != "" {
      assert path + "." + f.name + "[" + Decimal(i) + "]" == (path + ".") + (f.name + ("[" + Decimal(i) + "]"));
    }
  }

  lemma SameAfter(pre: string, a: string, b: string)
    requires pre + a == pre + b
    ensures a == b
  {
    assert a == (pre + a)[|pre|..] && b == (pre + b)[|pre|..];
  }

  /** A name ends where the bracket, or the text, does. */
  lemma NameEnds(a: string, x: string, b: string, y: string)
    requires '[' !in a && '[' !in b && a + x == b + y
    requires (x == "" || x[0] == '[') && (y == "" || y[0] == '[')
    ensures a == b && x == y
  {
    var s := a + x;
    assert forall k | 0 <= k < |a| :: s[k] == a[k];
    assert forall k | 0 <= k < |b| :: s[k] == b[k];
    assert |a| < |s| ==> s[|a|] == x[0];
    assert |b| < |s| ==> s[|b|] == y[0];
    assert |a| == |b|;
    assert a == s[..|a|] && b == s[..|b|] && x == s[|a|..] && y == s[|b|..];
  }

  /** No two items of one node are called the same. */
  lemma ItemPathTellsApart(path: string, f: Slot, g: Slot, i: nat, j: nat)
    requires '[' !in f.name && '[' !in g.name && ItemPath(path, f, i) == ItemPath(path, g, j)
    ensures f.name == g.name && f.repeated == g.repeated && (f.repeated ==> i == j)
  {
    NameThenPosition(path, f, i);
    NameThenPosition(path, g, j);
    SameAfter(if path == "" then "" else path + ".", f.name + Position(f, i), g.name + Position(g, j));
    NameEnds(f.name, Position(f, i), g.name, Position(g, j));
    if f.repeated {
      assert Position(f, i)[1..|Position(f, i)| - 1] == Decimal(i);
      assert Position(g, j)[1..|Position(g, j)| - 1] == Decimal(j);
      DecimalTellsApart(i, j);
    }
  }

  predicate Blank(path: string) {
    forall c | c in path :: c in " \t\n\r"
  }

  function OrRoot(path: string): string {
    if Blank(path) then "(card)" else path
  }

  /** What a withheld node is called: a Fact's own field, or the path; never a value. */
  function Note(m: Message, path: string): string {
    if m.source != "" then m.source else OrRoot(path)
  }
}
