/** The input schema a caller is shown, and the step 3 check of what it may set. Both read one
    compiled plan; what is proved is that they say the same thing. */
module Listing {
  import opened Policy
  import opened Protobuf

  const TIMESTAMP: TypeName := "google.protobuf.Timestamp"

  /** What a resolved descriptor set guarantees: names and numbers identify a field within
      its message, and a name is a non-empty identifier. */
  ghost predicate Resolved(s: Descriptors) {
    forall t | t in s :: Distinct(s[t]) && forall fd | fd in s[t] :: fd.name != "" && '.' !in fd.name
  }

  ghost predicate Distinct(fds: seq<FieldDesc>) {
    forall i, j | 0 <= i < j < |fds| :: fds[i].name != fds[j].name && fds[i].number != fds[j].number
  }

  // ---- requests

  /** `Subs` holds the messages of a field, one, a list of them or a map's values. */
  datatype Value = Scalar | Subs(items: seq<Message>)
  datatype Message = Message(typ: TypeName, fields: map<nat, Value>)

  function FindNumber(fds: seq<FieldDesc>, number: nat): (r: Option<FieldDesc>)
    ensures r.Some? ==> r.value in fds && r.value.number == number
    ensures r.None? ==> forall fd | fd in fds :: fd.number != number
  {
    if fds == [] then None else if fds[0].number == number then Some(fds[0]) else FindNumber(fds[1..], number)
  }

  function DescOf(s: Descriptors, t: TypeName, number: nat): (r: Option<FieldDesc>)
    ensures r.Some? ==> t in s && r.value in s[t] && r.value.number == number
    ensures r.None? && t in s ==> forall fd | fd in s[t] :: fd.number != number
  {
    if t in s then FindNumber(s[t], number) else None
  }

  predicate Has(s: Descriptors, m: Message, number: nat) {
    && DescOf(s, m.typ, number).Some? && number in m.fields
    && (m.fields[number].Subs? ==> m.fields[number].items != [])
  }

  /** The messages one step down, fanned out through lists and maps. */
  function Below(s: Descriptors, m: Message, number: nat): seq<Message> {
    if Has(s, m, number) && m.fields[number].Subs? then m.fields[number].items else []
  }

  /** The field at the end of the path is set on some message the path reaches. */
  ghost predicate SetAt(s: Descriptors, m: Message, path: seq<nat>)
    decreases |path|
  {
    && path != [] && DescOf(s, m.typ, path[0]).Some? && path[0] in m.fields && m.fields[path[0]] != Subs([])
    && (|path| > 1 ==>
          m.fields[path[0]].Subs? && exists e | e in m.fields[path[0]].items :: SetAt(s, e, path[1..]))
  }

  /** Walks a frontier down all but the last step. */
  method FieldIsSet(s: Descriptors, m: Message, path: seq<nat>) returns (isSet: bool)
    ensures isSet <==> SetAt(s, m, path)
  {
    if path == [] {
      return false;
    }
    var targets := [m];
    var k := 0;
    assert path[0..] == path;
    while k < |path| - 1
      invariant 0 <= k <= |path| - 1
      invariant SetAt(s, m, path) <==> exists t | t in targets :: SetAt(s, t, path[k..])
    {
      assert path[k..][0] == path[k] && path[k..][1..] == path[k + 1..];
      var next := Expand(s, targets, path[k]);
      StepDown(s, targets, next, path[k..]);
      targets := next;
      k := k + 1;
      if targets == [] {
        return false;
      }
    }
    var last := path[|path| - 1];
    assert path[k..] == [last];
    assert forall t | t in targets :: SetAt(s, t, [last]) <==> Has(s, t, last);
    for i := 0 to |targets|
      invariant forall j | 0 <= j < i :: !Has(s, targets[j], last)
    {
      if Has(s, targets[i], last) {
        assert SetAt(s, targets[i], path[k..]);
        return true;
      }
    }
    isSet := false;
  }

  method Expand(s: Descriptors, targets: seq<Message>, number: nat) returns (next: seq<Message>)
    ensures forall e :: e in next <==> exists t | t in targets :: e in Below(s, t, number)
  {
    next := [];
    for i := 0 to |targets|
      invariant forall e :: e in next <==> exists j | 0 <= j < i :: e in Below(s, targets[j], number)
    {
      next := next + Below(s, targets[i], number);
    }
  }

  lemma StepDown(s: Descriptors, targets: seq<Message>, next: seq<Message>, path: seq<nat>)
    requires |path| > 1
    requires forall e :: e in next <==> exists t | t in targets :: e in Below(s, t, path[0])
    ensures (exists t | t in targets :: SetAt(s, t, path)) <==> exists e | e in next :: SetAt(s, e, path[1..])
  {
    if t :| t in targets && SetAt(s, t, path) {
      var e :| e in Below(s, t, path[0]) && SetAt(s, e, path[1..]);
      assert e in next;
    }
    if e :| e in next && SetAt(s, e, path[1..]) {
      var t :| t in targets && e in Below(s, t, path[0]);
      assert SetAt(s, t, path);
    }
  }

  lemma {:induction false} PrefixIsSet(s: Descriptors, m: Message, path: seq<nat>, k: nat)
    requires SetAt(s, m, path) && 0 < k <= |path|
    ensures SetAt(s, m, path[..k])
    decreases |path|
  {
    if k > 1 {
      var e :| e in m.fields[path[0]].items && SetAt(s, e, path[1..]);
      PrefixIsSet(s, e, path[1..], k - 1);
      assert path[..k][1..] == path[1..][..k - 1];
    }
  }

  // ---- field paths and their names

  /** A field path of the message, entering no Timestamp. */
  predicate Described(s: Descriptors, t: TypeName, path: seq<nat>)
    decreases |path|
  {
    && path != [] && DescOf(s, t, path[0]).Some?
    && (|path| > 1 ==>
          var kind := DescOf(s, t, path[0]).value.kind;
          kind.Sub? && kind.target != TIMESTAMP && Described(s, kind.target, path[1..]))
  }

  /** The path enters no message type twice, and none already `seen`. */
  predicate EntersOnce(s: Descriptors, t: TypeName, path: seq<nat>, seen: set<TypeName>)
    requires Described(s, t, path)
    decreases |path|
  {
    t !in seen && (|path| > 1 ==> EntersOnce(s, DescOf(s, t, path[0]).value.kind.target, path[1..], seen + {t}))
  }

  function NamesOf(s: Descriptors, t: TypeName, path: seq<nat>): (ns: seq<string>)
    requires Described(s, t, path)
    ensures |ns| == |path|
    decreases |path|
  {
    var fd := DescOf(s, t, path[0]).value;
    [fd.name] + if |path| == 1 then [] else NamesOf(s, fd.kind.target, path[1..])
  }

  function Dotted(ns: seq<string>): string {
    if ns == [] then "" else if |ns| == 1 then ns[0] else ns[0] + "." + Dotted(ns[1..])
  }

  predicate Identifiers(ns: seq<string>) {
    forall i | 0 <= i < |ns| :: ns[i] != "" && '.' !in ns[i]
  }

  /** A dotted name spells exactly one list of identifiers, and begins another only at a dot. */
  lemma {:induction false} DottedPrefix(a: seq<string>, b: seq<string>)
    requires Identifiers(a) && Identifiers(b) && a != [] && b != []
    requires Dotted(a) + "." <= Dotted(b) + "."
    ensures a <= b
  {
    var da, db := Dotted(a) + ".", Dotted(b) + ".";
    var n, m := |a[0]|, |b[0]|;
    assert da[n] == '.' && db[m] == '.' && da[..n] == a[0] && db[..m] == b[0];
    assert forall i | 0 <= i < n :: da[i] == a[0][i] && da[i] != '.';
    assert forall i | 0 <= i < m :: db[i] == b[0][i] && db[i] != '.';
    assert n == m;
    assert a[0] == b[0];
    if |a| > 1 {
      assert da[n + 1..] == Dotted(a[1..]) + ".";
      assert |b| > 1 by {
        assert |db| > n + 1 && |b[0] + "."| == n + 1;
      }
      assert db[n + 1..] == Dotted(b[1..]) + ".";
      assert da[n + 1..] <= db[n + 1..];
      DottedPrefix(a[1..], b[1..]);
    }
  }

  lemma {:induction false} NamesAreIdentifiers(s: Descriptors, t: TypeName, path: seq<nat>)
    requires Resolved(s) && Described(s, t, path)
    ensures Identifiers(NamesOf(s, t, path))
    decreases |path|
  {
    if |path| > 1 {
      NamesAreIdentifiers(s, DescOf(s, t, path[0]).value.kind.target, path[1..]);
    }
  }

  /** Within one message type, names pick out paths. */
  lemma {:induction false} NamesPickPaths(s: Descriptors, t: TypeName, p: seq<nat>, q: seq<nat>)
    requires Resolved(s) && Described(s, t, p) && Described(s, t, q)
    requires NamesOf(s, t, p) <= NamesOf(s, t, q)
    ensures p <= q
    decreases |p|
  {
    var f, g := DescOf(s, t, p[0]).value, DescOf(s, t, q[0]).value;
    var a, b := NamesOf(s, t, p), NamesOf(s, t, q);
    assert a[0] == b[0];
    assert f == g;
    if |p| > 1 {
      assert a[1..] == NamesOf(s, f.kind.target, p[1..]);
      assert b[1..] == NamesOf(s, f.kind.target, q[1..]);
      assert a[1..] <= b[1..];
      NamesPickPaths(s, f.kind.target, p[1..], q[1..]);
    }
  }

  lemma {:induction false} DescribedPrefix(s: Descriptors, t: TypeName, path: seq<nat>, k: nat)
    requires Described(s, t, path) && 0 < k <= |path|
    ensures Described(s, t, path[..k]) && NamesOf(s, t, path[..k]) == NamesOf(s, t, path)[..k]
    decreases |path|
  {
    if k > 1 {
      DescribedPrefix(s, DescOf(s, t, path[0]).value.kind.target, path[1..], k - 1);
      assert path[..k][1..] == path[1..][..k - 1];
    }
  }

  // ---- plans

  /** One classified field: where it is, what it is called, what setting it takes. */
  datatype Action = Action(path: seq<nat>, name: string, write: int, read: int, need: set<nat>, isSubtree: bool)
  datatype Plan = Plan(desc: TypeName, actions: seq<Action>)

  /** What compiling a plan provides: every action names a field of the message by its own path. */
  ghost predicate Compiled(s: Descriptors, plan: Plan) {
    && plan.desc in s
    && forall a | a in plan.actions ::
         Described(s, plan.desc, a.path) && a.name == Dotted(NamesOf(s, plan.desc, a.path))
  }

  predicate MayWrite(r: Rules, shape: Shape, a: Action) {
    Clears(r, shape, a.write, a.need)
  }

  ghost predicate AcceptsSet(r: Rules, s: Descriptors, shape: Shape, plan: Plan, req: Message) {
    forall a | a in plan.actions && !MayWrite(r, shape, a) :: !SetAt(s, req, a.path)
  }

  /** Step 3: the first field set that may not be written refuses the request. */
  method CheckInputWrites(r: Rules, s: Descriptors, shape: Shape, plan: Plan, req: Message)
      returns (refused: Option<string>)
    ensures refused.None? <==> AcceptsSet(r, s, shape, plan, req)
    ensures refused.None? <==>
            forall a | a in plan.actions && SetAt(s, req, a.path) ::
              r.allows(shape.clearance, a.write) && a.need <= shape.compartments
    ensures refused.Some? ==>
              exists a | a in plan.actions :: a.name == refused.value && !MayWrite(r, shape, a) && SetAt(s, req, a.path)
  {
    for i := 0 to |plan.actions|
      invariant forall j | 0 <= j < i :: MayWrite(r, shape, plan.actions[j]) || !SetAt(s, req, plan.actions[j].path)
    {
      var a := plan.actions[i];
      if !MayWrite(r, shape, a) {
        var set_ := FieldIsSet(s, req, a.path);
        if set_ {
          return Some(a.name);
        }
      }
    }
    refused := None;
  }

  // ---- the advertised schema

  datatype Schema = Leaf | Object(properties: map<string, Schema>) | Array(items: Schema) | Dictionary(values: Schema)

  datatype Denied = Denied(names: set<string>, subtrees: set<string>)

  predicate UnderDeniedSubtree(name: string, subtrees: set<string>) {
    exists d | d in subtrees :: d + "." <= name && |name| > |d|
  }

  predicate Hidden(d: Denied, full: string) {
    full in d.names || UnderDeniedSubtree(full, d.subtrees)
  }

  /** Where a field sits is the names down to it; `hides` says which are left out. */
  type Hides = seq<string> -> bool

  function HiddenBy(d: Denied): Hides {
    (at: seq<string>) => Hidden(d, Dotted(at))
  }

  /** Renders one message. A message met inside itself is an object of unstated shape. */
  function SchemaFor(s: Descriptors, t: TypeName, at: seq<string>, hides: Hides, seen: set<TypeName>): (r: Schema)
    ensures r.Object?
    decreases s.Keys - seen, 0
  {
    if t in seen || t !in s then Object(map[]) else Object(Properties(s, s[t], at, hides, seen + {t}))
  }

  /** One property for every field that is not hidden, filled in one after another. */
  function Properties(s: Descriptors, fds: seq<FieldDesc>, at: seq<string>, hides: Hides, seen: set<TypeName>)
      : map<string, Schema>
    decreases s.Keys - seen, 2, |fds|
  {
    if fds == [] then map[]
    else
      var fd := fds[|fds| - 1];
      var before := Properties(s, fds[..|fds| - 1], at, hides, seen);
      if hides(at + [fd.name]) then before
      else before[fd.name := FieldSchema(s, fd, at + [fd.name], hides, seen)]
  }

  function NamesIn(fds: seq<FieldDesc>): set<string> {
    set fd | fd in fds :: fd.name
  }

  function FieldNamed(fds: seq<FieldDesc>, name: string): (fd: FieldDesc)
    requires name in NamesIn(fds)
    ensures fd in fds && fd.name == name
  {
    var last := fds[|fds| - 1];
    if last.name == name then last
    else
      assert fds == fds[..|fds| - 1] + [last];
      FieldNamed(fds[..|fds| - 1], name)
  }

  function FieldSchema(s: Descriptors, fd: FieldDesc, at: seq<string>, hides: Hides, seen: set<TypeName>): Schema
    decreases s.Keys - seen, 1, 0
  {
    var inner := match fd.kind
                 case Plain => Leaf
                 case Sub(target) => if target == TIMESTAMP then Leaf else SchemaFor(s, target, at, hides, seen);
    Wrap(fd.cardinality, inner)
  }

  function Wrap(c: Cardinality, inner: Schema): Schema {
    match c
    case Singular => inner
    case Repeated => Array(inner)
    case Mapped => Dictionary(inner)
  }

  function Inner(sch: Schema): Schema {
    match sch
    case Array(items) => items
    case Dictionary(values) => values
    case _ => sch
  }

  /** A field path is present in a schema. */
  predicate Occurs(sch: Schema, ns: seq<string>)
    decreases |ns|
  {
    && ns != [] && sch.Object? && ns[0] in sch.properties
    && (|ns| > 1 ==> Occurs(Inner(sch.properties[ns[0]]), ns[1..]))
  }

  ghost function DeniedBy(r: Rules, shape: Shape, plan: Plan): Denied {
    Denied(set a | a in plan.actions && !MayWrite(r, shape, a) :: a.name,
           set a | a in plan.actions && !MayWrite(r, shape, a) && a.isSubtree :: a.name)
  }

  ghost function InputSchema(r: Rules, s: Descriptors, shape: Shape, plan: Plan): Schema
  {
    SchemaFor(s, plan.desc, [], HiddenBy(DeniedBy(r, shape, plan)), {})
  }

  /** The dotted name one step further down. */
  function Full(path: string, name: string): string {
    if path == "" then name else path + "." + name
  }

  lemma {:induction false} DottedThen(at: seq<string>, name: string)
    requires Identifiers(at)
    ensures Dotted(at + [name]) == Full(Dotted(at), name)
  {
    if |at| > 1 {
      DottedThen(at[1..], name);
      assert (at + [name])[1..] == at[1..] + [name];
      var rest := Dotted(at[1..]);
      assert at[0] + "." + (rest + "." + name) == (at[0] + "." + rest) + "." + name;
    } else if |at| == 1 {
      assert (at + [name])[1..] == [name];
    }
  }

  /** Fills in one message's properties; `seen` is what this message is inside of, and `path` where it sits. */
  method Render(s: Descriptors, t: TypeName, path: string, d: Denied, seen: set<TypeName>, ghost at: seq<string>)
      returns (sch: Schema)
    requires Resolved(s) && Identifiers(at) && path == Dotted(at)
    ensures sch == SchemaFor(s, t, at, HiddenBy(d), seen)
    decreases s.Keys - seen, 0
  {
    var properties := map[];
    if t in seen || t !in s {
      return Object(properties);
    }
    var fds := s[t];
    for k := 0 to |fds|
      invariant properties == Properties(s, fds[..k], at, HiddenBy(d), seen + {t})
    {
      properties := RenderNext(s, fds, k, path, d, seen + {t}, at, properties);
    }
    assert fds[..|fds|] == fds;
    sch := Object(properties);
  }

  /** Adds the k-th field to what is filled in so far. */
  method RenderNext(
      s: Descriptors, fds: seq<FieldDesc>, k: nat, path: string, d: Denied, seen: set<TypeName>, ghost at: seq<string>,
      properties: map<string, Schema>) returns (next: map<string, Schema>)
    requires Resolved(s) && Identifiers(at) && path == Dotted(at)
    requires k < |fds| && fds[k].name != "" && '.' !in fds[k].name
    requires properties == Properties(s, fds[..k], at, HiddenBy(d), seen)
    ensures next == Properties(s, fds[..k + 1], at, HiddenBy(d), seen)
    decreases s.Keys - seen, 2
  {
    var fd := fds[k];
    PropertiesThen(s, fds, k, at, HiddenBy(d), seen);
    var full, hidden := Place(path, fd.name, d, at);
    next := properties;
    if !hidden {
      var field := RenderField(s, fd, full, d, seen, at + [fd.name]);
      next := next[fd.name := field];
    }
  }

  lemma PropertiesThen(
      s: Descriptors, fds: seq<FieldDesc>, k: nat, at: seq<string>, hides: Hides, seen: set<TypeName>)
    requires k < |fds|
    ensures var before, name := Properties(s, fds[..k], at, hides, seen), fds[k].name;
            Properties(s, fds[..k + 1], at, hides, seen) ==
            if hides(at + [name]) then before
            else before[name := FieldSchema(s, fds[k], at + [name], hides, seen)]
  {
    assert fds[..k + 1][..k] == fds[..k] && fds[..k + 1][k] == fds[k];
  }

  method Place(path: string, name: string, d: Denied, ghost at: seq<string>) returns (full: string, hidden: bool)
    requires Identifiers(at) && path == Dotted(at) && name != "" && '.' !in name
    ensures Identifiers(at + [name]) && full == Dotted(at + [name])
    ensures hidden <==> HiddenBy(d)(at + [name])
  {
    full := Full(path, name);
    DottedThen(at, name);
    hidden := Hidden(d, full);
  }

  method RenderField(
      s: Descriptors, fd: FieldDesc, full: string, d: Denied, seen: set<TypeName>, ghost at: seq<string>)
      returns (field: Schema)
    requires Resolved(s) && Identifiers(at) && full == Dotted(at)
    ensures field == FieldSchema(s, fd, at, HiddenBy(d), seen)
    decreases s.Keys - seen, 1
  {
    field := Leaf;
    if fd.kind.Sub? && fd.kind.target != TIMESTAMP {
      field := Render(s, fd.kind.target, full, d, seen, at);
    }
    match fd.cardinality {
      case Singular =>
      case Repeated => field := Array(field);
      case Mapped => field := Dictionary(field);
    }
  }

  /** Collects what the caller may not write, then renders what is left. */
  method ProjectInput(r: Rules, s: Descriptors, shape: Shape, plan: Plan) returns (sch: Schema)
    requires Resolved(s)
    ensures sch == InputSchema(r, s, shape, plan)
  {
    var names, subtrees := {}, {};
    for i := 0 to |plan.actions|
      invariant names == set a | a in plan.actions[..i] && !MayWrite(r, shape, a) :: a.name
      invariant subtrees == set a | a in plan.actions[..i] && !MayWrite(r, shape, a) && a.isSubtree :: a.name
    {
      var a := plan.actions[i];
      assert plan.actions[..i + 1] == plan.actions[..i] + [a];
      if !MayWrite(r, shape, a) {
        names := names + {a.name};
        if a.isSubtree {
          subtrees := subtrees + {a.name};
        }
      }
    }
    assert plan.actions[..|plan.actions|] == plan.actions;
    sch := Render(s, plan.desc, "", Denied(names, subtrees), {}, []);
  }

  // ---- listing and enforcement agree

  lemma NamedOnce(fds: seq<FieldDesc>, fd: FieldDesc)
    requires Distinct(fds) && fd in fds
    ensures fd.name in NamesIn(fds) && FieldNamed(fds, fd.name) == fd
  {
  }

  /** Nothing along these names, from `at` down, is hidden. */
  ghost predicate AllClear(hides: Hides, at: seq<string>, ns: seq<string>) {
    forall k | 0 < k <= |ns| :: !hides(at + ns[..k])
  }

  lemma AllClearCons(hides: Hides, at: seq<string>, ns: seq<string>)
    requires ns != []
    ensures AllClear(hides, at, ns) <==> !hides(at + [ns[0]]) && AllClear(hides, at + [ns[0]], ns[1..])
  {
    assert ns[..1] == [ns[0]];
    forall k | 0 < k < |ns|
      ensures at + ns[..k + 1] == at + [ns[0]] + ns[1..][..k]
    {
      assert ns[..k + 1] == [ns[0]] + ns[1..][..k];
    }
    if !hides(at + [ns[0]]) && AllClear(hides, at + [ns[0]], ns[1..]) {
      forall k | 0 < k <= |ns| ensures !hides(at + ns[..k]) {
        if k > 1 {
          assert at + ns[..k - 1 + 1] == at + [ns[0]] + ns[1..][..k - 1];
        }
      }
    }
  }

  /** A path is in the schema exactly when it enters nothing twice and nothing along it is hidden. */
  lemma {:induction false} OccursExactly(
      s: Descriptors, t: TypeName, p: seq<nat>, at: seq<string>, hides: Hides, seen: set<TypeName>)
    requires Resolved(s) && Described(s, t, p)
    ensures var ns := NamesOf(s, t, p);
            Occurs(SchemaFor(s, t, at, hides, seen), ns) <==> EntersOnce(s, t, p, seen) && AllClear(hides, at, ns)
    decreases |p|
  {
    var ns := NamesOf(s, t, p);
    var fd := DescOf(s, t, p[0]).value;
    NamedOnce(s[t], fd);
    AllClearCons(hides, at, ns);
    PropertyOf(s, t, at, hides, seen, fd.name);
    if |p| > 1 {
      OccursExactly(s, fd.kind.target, p[1..], at + [fd.name], hides, seen + {t});
      assert ns[1..] == NamesOf(s, fd.kind.target, p[1..]);
      InnerOf(s, fd, at + [fd.name], hides, seen + {t});
    } else {
      assert ns[1..] == [];
    }
  }

  lemma PropertyOf(s: Descriptors, t: TypeName, at: seq<string>, hides: Hides, seen: set<TypeName>, name: string)
    ensures var props := SchemaFor(s, t, at, hides, seen).properties;
            && (name in props <==> t !in seen && t in s && name in NamesIn(s[t]) && !hides(at + [name]))
            && (name in props ==>
                  props[name] == FieldSchema(s, FieldNamed(s[t], name), at + [name], hides, seen + {t}))
  {
    if t in s {
      PropertyNamed(s, s[t], at, hides, seen + {t}, name);
    }
  }

  lemma {:induction false} PropertyNamed(
      s: Descriptors, fds: seq<FieldDesc>, at: seq<string>, hides: Hides, seen: set<TypeName>, name: string)
    ensures var props := Properties(s, fds, at, hides, seen);
            && (name in props <==> name in NamesIn(fds) && !hides(at + [name]))
            && (name in props ==> props[name] == FieldSchema(s, FieldNamed(fds, name), at + [name], hides, seen))
    decreases |fds|
  {
    if fds != [] {
      var k := |fds| - 1;
      assert fds == fds[..k] + [fds[k]];
      PropertyNamed(s, fds[..k], at, hides, seen, name);
    }
  }

  lemma InnerOf(s: Descriptors, fd: FieldDesc, at: seq<string>, hides: Hides, seen: set<TypeName>)
    ensures Inner(FieldSchema(s, fd, at, hides, seen)) ==
            if fd.kind.Sub? && fd.kind.target != TIMESTAMP then SchemaFor(s, fd.kind.target, at, hides, seen) else Leaf
  {
  }

  /** Hiding a field on the way of a set path is refusing to have it set. */
  lemma HiddenIsRefused(r: Rules, s: Descriptors, shape: Shape, plan: Plan, req: Message, p: seq<nat>, k: nat)
    requires Resolved(s) && Compiled(s, plan)
    requires Described(s, plan.desc, p) && SetAt(s, req, p) && 0 < k <= |p|
    requires Hidden(DeniedBy(r, shape, plan), Dotted(NamesOf(s, plan.desc, p)[..k]))
    ensures !AcceptsSet(r, s, shape, plan, req)
  {
    var a := HiddenByPrefix(r, s, shape, plan, p, k);
    PrefixIsSet(s, req, p, |a.path|);
    assert a.path == p[..|a.path|];
  }

  lemma DottedNamesPickPaths(s: Descriptors, t: TypeName, p: seq<nat>, q: seq<nat>)
    requires Resolved(s) && Described(s, t, p) && Described(s, t, q)
    requires Dotted(NamesOf(s, t, p)) + "." <= Dotted(NamesOf(s, t, q)) + "."
    ensures p <= q
  {
    NamesAreIdentifiers(s, t, p);
    NamesAreIdentifiers(s, t, q);
    DottedPrefix(NamesOf(s, t, p), NamesOf(s, t, q));
    NamesPickPaths(s, t, p, q);
  }

  /** A path set in an accepted request is hidden nowhere along it. */
  lemma AcceptedIsClear(r: Rules, s: Descriptors, shape: Shape, plan: Plan, req: Message, p: seq<nat>)
    requires Resolved(s) && Compiled(s, plan) && AcceptsSet(r, s, shape, plan, req)
    requires Described(s, plan.desc, p) && SetAt(s, req, p)
    ensures AllClear(HiddenBy(DeniedBy(r, shape, plan)), [], NamesOf(s, plan.desc, p))
  {
    var d, ns := DeniedBy(r, shape, plan), NamesOf(s, plan.desc, p);
    forall k | 0 < k <= |ns|
      ensures !HiddenBy(d)([] + ns[..k])
    {
      assert [] + ns[..k] == ns[..k];
      if Hidden(d, Dotted(ns[..k])) {
        HiddenIsRefused(r, s, shape, plan, req, p, k);
      }
    }
  }

  ghost predicate Listed(r: Rules, s: Descriptors, shape: Shape, plan: Plan, p: seq<nat>)
    requires Described(s, plan.desc, p)
  {
    Occurs(InputSchema(r, s, shape, plan), NamesOf(s, plan.desc, p))
  }

  /** Every path set in a request is in the schema its caller is shown exactly when step 3 accepts it and no path
      set in it enters a message type twice. */
  lemma ListingAndEnforcementAgree(r: Rules, s: Descriptors, shape: Shape, plan: Plan, req: Message)
    requires Resolved(s) && Compiled(s, plan)
    ensures (forall p | Described(s, plan.desc, p) && SetAt(s, req, p) :: Listed(r, s, shape, plan, p)) <==>
            && AcceptsSet(r, s, shape, plan, req)
            && forall p | Described(s, plan.desc, p) && SetAt(s, req, p) :: EntersOnce(s, plan.desc, p, {})
  {
    var hides := HiddenBy(DeniedBy(r, shape, plan));
    forall p | Described(s, plan.desc, p) && SetAt(s, req, p)
      ensures Listed(r, s, shape, plan, p) ==> EntersOnce(s, plan.desc, p, {})
      ensures AcceptsSet(r, s, shape, plan, req) && EntersOnce(s, plan.desc, p, {}) ==> Listed(r, s, shape, plan, p)
    {
      OccursExactly(s, plan.desc, p, [], hides, {});
      if AcceptsSet(r, s, shape, plan, req) {
        AcceptedIsClear(r, s, shape, plan, req, p);
      }
    }
    if a :| a in plan.actions && !MayWrite(r, shape, a) && SetAt(s, req, a.path) {
      DeniedIsUnlisted(r, s, shape, plan, a);
    }
  }

  lemma DeniedIsUnlisted(r: Rules, s: Descriptors, shape: Shape, plan: Plan, a: Action)
    requires Resolved(s) && Compiled(s, plan) && a in plan.actions && !MayWrite(r, shape, a)
    ensures !Listed(r, s, shape, plan, a.path)
  {
    var hides := HiddenBy(DeniedBy(r, shape, plan));
    OccursExactly(s, plan.desc, a.path, [], hides, {});
    var ns := NamesOf(s, plan.desc, a.path);
    assert [] + ns[..|ns|] == ns;
    assert hides([] + ns[..|ns|]);
  }

  /** A path is listed exactly when it enters no message type twice and every classified field on the way to it, or
      at its end, is one whose write level the caller has, with every compartment it needs. */
  lemma ListedExactly(r: Rules, s: Descriptors, shape: Shape, plan: Plan, p: seq<nat>)
    requires Resolved(s) && Compiled(s, plan) && Described(s, plan.desc, p)
    ensures Listed(r, s, shape, plan, p) <==>
            && EntersOnce(s, plan.desc, p, {})
            && forall a | a in plan.actions && a.path <= p ::
                 r.allows(shape.clearance, a.write) && a.need <= shape.compartments
  {
    var d, ns := DeniedBy(r, shape, plan), NamesOf(s, plan.desc, p);
    OccursExactly(s, plan.desc, p, [], HiddenBy(d), {});
    forall a | a in plan.actions && a.path <= p && !MayWrite(r, shape, a)
      ensures !AllClear(HiddenBy(d), [], ns)
    {
      DescribedPrefix(s, plan.desc, p, |a.path|);
      assert p[..|a.path|] == a.path && [] + ns[..|a.path|] == NamesOf(s, plan.desc, a.path);
    }
    forall k | 0 < k <= |ns|
      ensures HiddenBy(d)([] + ns[..k]) ==> exists a | a in plan.actions && a.path <= p :: !MayWrite(r, shape, a)
    {
      assert [] + ns[..k] == ns[..k];
      if Hidden(d, Dotted(ns[..k])) {
        var a := HiddenByPrefix(r, s, shape, plan, p, k);
        assert a.path <= p;
      }
    }
  }

  /** What hides a name is an action on the way to it. */
  lemma HiddenByPrefix(r: Rules, s: Descriptors, shape: Shape, plan: Plan, p: seq<nat>, k: nat) returns (a: Action)
    requires Resolved(s) && Compiled(s, plan) && Described(s, plan.desc, p) && 0 < k <= |p|
    requires Hidden(DeniedBy(r, shape, plan), Dotted(NamesOf(s, plan.desc, p)[..k]))
    ensures a in plan.actions && !MayWrite(r, shape, a) && a.path <= p[..k]
  {
    var q := p[..k];
    DescribedPrefix(s, plan.desc, p, k);
    var full := Dotted(NamesOf(s, plan.desc, q));
    a :| a in plan.actions && !MayWrite(r, shape, a) && a.name + "." <= full + ".";
    DottedNamesPickPaths(s, plan.desc, a.path, q);
  }

  /** A list is shown as an array of what it holds, a map as a dictionary, anything else as itself. */
  lemma CardinalityShows(s: Descriptors, fd: FieldDesc, at: seq<string>, hides: Hides, seen: set<TypeName>)
    ensures var sch := FieldSchema(s, fd, at, hides, seen);
            && (sch.Array? <==> fd.cardinality == Repeated) && (sch.Dictionary? <==> fd.cardinality == Mapped)
            && (sch.Object? ==> fd.kind.Sub? && fd.kind.target != TIMESTAMP)
  {
  }

  // ---- acyclic descriptors

  /** Types can be ranked so that every field leads strictly down. */
  ghost predicate Layered(s: Descriptors, rank: map<TypeName, nat>) {
    forall t | t in s :: t in rank && forall fd | fd in s[t] && fd.kind.Sub? ::
      fd.kind.target in rank && rank[fd.kind.target] < rank[t]
  }

  lemma {:induction false} LayeredEntersOnce(
      s: Descriptors, rank: map<TypeName, nat>, t: TypeName, path: seq<nat>, seen: set<TypeName>)
    requires Layered(s, rank) && Described(s, t, path) && forall u | u in seen :: u in rank && rank[t] < rank[u]
    ensures EntersOnce(s, t, path, seen)
    decreases |path|
  {
    if |path| > 1 {
      LayeredEntersOnce(s, rank, DescOf(s, t, path[0]).value.kind.target, path[1..], seen + {t});
    }
  }

  /** Where no message contains itself, step 3 accepts a request exactly when every path set in it outside a
      Timestamp is in the schema its caller is shown. */
  lemma AgreementWithoutCycles(
      r: Rules, s: Descriptors, rank: map<TypeName, nat>, shape: Shape, plan: Plan, req: Message)
    requires Resolved(s) && Compiled(s, plan) && Layered(s, rank)
    ensures AcceptsSet(r, s, shape, plan, req) <==>
            forall p | Described(s, plan.desc, p) && SetAt(s, req, p) :: Listed(r, s, shape, plan, p)
  {
    ListingAndEnforcementAgree(r, s, shape, plan, req);
    forall p | Described(s, plan.desc, p)
      ensures EntersOnce(s, plan.desc, p, {})
    {
      LayeredEntersOnce(s, rank, plan.desc, p, {});
    }
  }

  /** A message that contains itself is listed one level deep and accepted at any depth. */
  lemma SelfReferenceIsListedOnce(r: Rules, shape: Shape)
    ensures var s := map["N" := [FieldDesc(1, "next", Singular, Sub("N"))]];
            var inner := Message("N", map[1 := Subs([Message("N", map[])])]);
            var req := Message("N", map[1 := Subs([inner])]);
            var plan := Plan("N", []);
            && Resolved(s) && Compiled(s, plan) && AcceptsSet(r, s, shape, plan, req)
            && SetAt(s, req, [1, 1]) && Described(s, "N", [1, 1]) && !Listed(r, s, shape, plan, [1, 1])
  {
    var fd := FieldDesc(1, "next", Singular, Sub("N"));
    var s := map["N" := [fd]];
    var inner := Message("N", map[1 := Subs([Message("N", map[])])]);
    var req := Message("N", map[1 := Subs([inner])]);
    assert [1, 1][1..] == [1] && inner in Below(s, req, 1) && SetAt(s, inner, [1]);
    assert !EntersOnce(s, "N", [1], {"N"});
    OccursExactly(s, "N", [1, 1], [], HiddenBy(DeniedBy(r, shape, Plan("N", []))), {});
  }

  // ---- a lesser caller is shown less

  /** Whoever holds no more is shown no more paths. */
  lemma LesserSchema(r: Rules, s: Descriptors, narrow: Shape, wide: Shape, plan: Plan, ns: seq<string>)
    requires Lawful(r) && Within(narrow, wide)
    ensures Occurs(InputSchema(r, s, narrow, plan), ns) ==> Occurs(InputSchema(r, s, wide, plan), ns)
  {
    forall a | a in plan.actions && !MayWrite(r, wide, a)
      ensures !MayWrite(r, narrow, a)
    {
      ClearsIsMonotone(r, narrow, wide, a.write, a.need);
    }
    if Occurs(InputSchema(r, s, narrow, plan), ns) {
      LessHiddenShowsMore(
        s, plan.desc, [], HiddenBy(DeniedBy(r, narrow, plan)), HiddenBy(DeniedBy(r, wide, plan)), {}, ns);
    }
  }

  lemma {:induction false} LessHiddenShowsMore(
      s: Descriptors, t: TypeName, at: seq<string>, more: Hides, less: Hides, seen: set<TypeName>, ns: seq<string>)
    requires (forall x | less(x) :: more(x)) && Occurs(SchemaFor(s, t, at, more, seen), ns)
    ensures Occurs(SchemaFor(s, t, at, less, seen), ns)
    decreases |ns|
  {
    PropertyOf(s, t, at, more, seen, ns[0]);
    PropertyOf(s, t, at, less, seen, ns[0]);
    if |ns| > 1 {
      var fd := FieldNamed(s[t], ns[0]);
      InnerOf(s, fd, at + [ns[0]], more, seen + {t});
      InnerOf(s, fd, at + [ns[0]], less, seen + {t});
      LessHiddenShowsMore(s, fd.kind.target, at + [ns[0]], more, less, seen + {t}, ns[1..]);
    }
  }
}
