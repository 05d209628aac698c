/** Comparing what is running with what the catalogue declares, and what silence is allowed to conclude. */
module Reconciler {
  import opened Policy

  type Package = string

  /** A reply: what the instance is called, which contract it claims, and where it listens. */
  datatype Service = Service(name: string, identity: string, subjects: seq<string>)

  /** The replies of one round; whether every service was asked; and the services with an instance missing. */
  datatype Round = Round(services: seq<Service>, enumerated: bool, partial: set<string>)
  {
    predicate ConcludesAbsence() {
      enumerated
    }

    predicate Complete(name: string) {
      enumerated && name !in partial
    }
  }

  datatype Catalogue = Catalogue(pkgOf: map<string, Package>, hashes: map<Package, string>)
  {
    /** The recorded hash, empty when there is none. */
    function Want(pkg: Package): string {
      if pkg in hashes then hashes[pkg] else ""
    }
  }

  datatype Reason = NoHash(service: string) | NoIdentity(service: string) | Different(service: string, identity: string)

  // ---- one round, reply by reply

  /** What a round has shown so far; `carrier` is the last service heard for a package. */
  datatype Tally = Tally(bad: map<Package, Reason>, seen: set<Package>, carrier: map<Package, string>)

  const EMPTY := Tally(map[], {}, map[])

  function Verdict(cat: Catalogue, svc: Service, pkg: Package): Option<Reason> {
    if cat.Want(pkg) == "" then Some(NoHash(svc.name))
    else if svc.identity == "" then Some(NoIdentity(svc.name))
    else if svc.identity != cat.Want(pkg) then Some(Different(svc.name, svc.identity))
    else None
  }

  function Hear(cat: Catalogue, t: Tally, svc: Service, subject: string): Tally {
    if subject !in cat.pkgOf then t
    else
      var pkg := cat.pkgOf[subject];
      var verdict := Verdict(cat, svc, pkg);
      Tally(if verdict.Some? then t.bad[pkg := verdict.value] else t.bad, t.seen + {pkg}, t.carrier[pkg := svc.name])
  }

  function HearService(cat: Catalogue, t: Tally, svc: Service, n: nat): Tally
    requires n <= |svc.subjects|
  {
    if n == 0 then t else Hear(cat, HearService(cat, t, svc, n - 1), svc, svc.subjects[n - 1])
  }

  function HearAll(cat: Catalogue, services: seq<Service>, n: nat): Tally
    requires n <= |services|
  {
    if n == 0 then EMPTY
    else HearService(cat, HearAll(cat, services, n - 1), services[n - 1], |services[n - 1].subjects|)
  }

  // ---- one sweep

  datatype State = State(quarantined: map<Package, Reason>, seen: set<Package>)

  function CarrierOf(t: Tally, pkg: Package): string {
    if pkg in t.carrier then t.carrier[pkg] else ""
  }

  /** A verdict this round has not replaced and may not clear. */
  predicate Stands(s: State, t: Tally, round: Round, pkg: Package) {
    pkg in s.quarantined && pkg !in t.bad && !round.Complete(CarrierOf(t, pkg))
  }

  /** `None` is a discovery that could not be run. */
  function Swept(cat: Catalogue, s: State, round: Option<Round>): State {
    if round.None? then s
    else
      var t := HearAll(cat, round.value.services, |round.value.services|);
      State(t.bad + map pkg | pkg in s.quarantined && Stands(s, t, round.value, pkg) :: s.quarantined[pkg],
            if round.value.ConcludesAbsence() then t.seen else t.seen + s.seen)
  }

  class Sweeper {
    var quarantined: map<Package, Reason>
    var seen: set<Package>

    function View(): State
      reads this
    {
      State(quarantined, seen)
    }

    constructor ()
      ensures View() == State(map[], {})
    {
      quarantined, seen := map[], {};
    }

    method Sweep(cat: Catalogue, discovered: Option<Round>)
      modifies this
      ensures View() == Swept(cat, old(View()), discovered)
    {
      if discovered.None? {
        return;
      }
      var round := discovered.value;
      var t := Listen(cat, round.services);
      var standing := Standing(View(), t, round);
      quarantined := t.bad + standing;
      seen := if round.ConcludesAbsence() then t.seen else t.seen + seen;
    }
  }

  /** Every subject of every reply, in the order they arrived. */
  method Listen(cat: Catalogue, services: seq<Service>) returns (t: Tally)
    ensures t == HearAll(cat, services, |services|)
  {
    t := EMPTY;
    for i := 0 to |services|
      invariant t == HearAll(cat, services, i)
    {
      ghost var before := t;
      for j := 0 to |services[i].subjects|
        invariant t == HearService(cat, before, services[i], j)
      {
        t := Hear(cat, t, services[i], services[i].subjects[j]);
      }
    }
  }

  /** The previous verdicts that this round neither replaces nor clears. */
  method Standing(s: State, t: Tally, round: Round) returns (standing: map<Package, Reason>)
    ensures standing == map pkg | pkg in s.quarantined && Stands(s, t, round, pkg) :: s.quarantined[pkg]
  {
    standing := map[];
    var left := s.quarantined.Keys;
    while left != {}
      invariant left <= s.quarantined.Keys
      invariant standing ==
                map pkg | pkg in s.quarantined && pkg !in left && Stands(s, t, round, pkg) :: s.quarantined[pkg]
      decreases left
    {
      var pkg :| pkg in left;
      left := left - {pkg};
      if pkg !in t.bad && !round.Complete(CarrierOf(t, pkg)) {
        standing := standing[pkg := s.quarantined[pkg]];
      }
    }
  }

  // ---- what a round shows, whatever order it arrived in

  /** Some instance heard serves the package and does not match what the catalogue pins. */
  ghost predicate MismatchHeard(cat: Catalogue, services: seq<Service>, pkg: Package) {
    exists svc | svc in services :: Claims(cat, svc, pkg) && !Matches(cat, svc, pkg)
  }

  /** The catalogue pins a hash for the package and the instance advertises that one. */
  ghost predicate Matches(cat: Catalogue, svc: Service, pkg: Package) {
    pkg in cat.hashes && cat.hashes[pkg] != "" && svc.identity == cat.hashes[pkg]
  }

  ghost predicate Claims(cat: Catalogue, svc: Service, pkg: Package) {
    exists subject | subject in svc.subjects :: subject in cat.pkgOf && cat.pkgOf[subject] == pkg
  }

  ghost predicate Heard(cat: Catalogue, services: seq<Service>, pkg: Package) {
    exists svc | svc in services :: Claims(cat, svc, pkg)
  }

  lemma {:induction false} HearServiceExactly(cat: Catalogue, t: Tally, svc: Service, n: nat, pkg: Package)
    requires n <= |svc.subjects|
    ensures var r := HearService(cat, t, svc, n);
            var claims := exists j | 0 <= j < n :: svc.subjects[j] in cat.pkgOf && cat.pkgOf[svc.subjects[j]] == pkg;
            && (pkg in r.bad <==> pkg in t.bad || (claims && Verdict(cat, svc, pkg).Some?))
            && (pkg in r.seen <==> pkg in t.seen || claims)
            && (pkg in r.carrier <==> pkg in t.carrier || claims)
            && (claims ==> r.carrier[pkg] == svc.name)
            && (!claims && pkg in t.carrier ==> r.carrier[pkg] == t.carrier[pkg])
  {
    if n > 0 {
      HearServiceExactly(cat, t, svc, n - 1, pkg);
    }
  }

  /** The last service heard to claim the package. */
  ghost predicate LastCarrier(cat: Catalogue, services: seq<Service>, pkg: Package, name: string) {
    exists i | 0 <= i < |services| ::
      && Claims(cat, services[i], pkg) && services[i].name == name
      && forall k | i < k < |services| :: !Claims(cat, services[k], pkg)
  }

  /** A round condemns exactly the packages some heard instance mismatches. Only the carrier depends on order. */
  lemma {:induction false} HearAllExactly(cat: Catalogue, services: seq<Service>, n: nat, pkg: Package)
    requires n <= |services|
    ensures var r := HearAll(cat, services, n);
            && (pkg in r.bad <==> MismatchHeard(cat, services[..n], pkg))
            && (pkg in r.seen <==> Heard(cat, services[..n], pkg))
            && (pkg in r.carrier <==> Heard(cat, services[..n], pkg))
            && (pkg in r.carrier ==> LastCarrier(cat, services[..n], pkg, r.carrier[pkg]))
  {
    if n > 0 {
      HearAllExactly(cat, services, n - 1, pkg);
      var svc := services[n - 1];
      HearServiceExactly(cat, HearAll(cat, services, n - 1), svc, |svc.subjects|, pkg);
      assert services[..n] == services[..n - 1] + [svc];
      assert Claims(cat, svc, pkg) <==>
             exists j | 0 <= j < |svc.subjects| :: svc.subjects[j] in cat.pkgOf && cat.pkgOf[svc.subjects[j]] == pkg;
      var r := HearAll(cat, services, n);
      if pkg in r.carrier {
        if Claims(cat, svc, pkg) {
          assert services[..n][n - 1] == svc;
          assert LastCarrier(cat, services[..n], pkg, svc.name);
        } else {
          CarrierStays(cat, services[..n - 1], svc, pkg, r.carrier[pkg]);
        }
      }
    }
  }

  lemma CarrierStays(cat: Catalogue, services: seq<Service>, svc: Service, pkg: Package, name: string)
    requires LastCarrier(cat, services, pkg, name) && !Claims(cat, svc, pkg)
    ensures LastCarrier(cat, services + [svc], pkg, name)
  {
    var i :| 0 <= i < |services| && Claims(cat, services[i], pkg) && services[i].name == name
             && forall k | i < k < |services| :: !Claims(cat, services[k], pkg);
    assert (services + [svc])[i] == services[i];
  }

  // ---- verdicts over every sequence of sweeps

  /** This round is licence to clear the package: the whole plane was heard, nobody mismatched, and the
      service last heard for the package, if any was, was heard in full. */
  ghost predicate Clears(cat: Catalogue, round: Option<Round>, pkg: Package) {
    round.Some? && !MismatchHeard(cat, round.value.services, pkg) && round.value.enumerated
    && (if Heard(cat, round.value.services, pkg)
        then exists name :: LastCarrier(cat, round.value.services, pkg, name) && name !in round.value.partial
        else "" !in round.value.partial)
  }

  lemma CarrierIsUnique(cat: Catalogue, services: seq<Service>, pkg: Package, a: string, b: string)
    requires LastCarrier(cat, services, pkg, a) && LastCarrier(cat, services, pkg, b)
    ensures a == b
  {
    var i :| 0 <= i < |services| && Claims(cat, services[i], pkg) && services[i].name == a
             && forall k | i < k < |services| :: !Claims(cat, services[k], pkg);
    var j :| 0 <= j < |services| && Claims(cat, services[j], pkg) && services[j].name == b
             && forall k | j < k < |services| :: !Claims(cat, services[k], pkg);
    assert !(i < j) && !(j < i);
  }

  /** After a sweep a package is quarantined exactly when a mismatch was heard, or it was before and the
      round could not clear it. */
  lemma SweepExactly(cat: Catalogue, s: State, round: Option<Round>, pkg: Package)
    ensures pkg in Swept(cat, s, round).quarantined <==>
            || (round.Some? && MismatchHeard(cat, round.value.services, pkg))
            || (pkg in s.quarantined && !Clears(cat, round, pkg))
    ensures pkg in Swept(cat, s, round).seen <==>
            || (round.Some? && Heard(cat, round.value.services, pkg))
            || ((round.None? || !round.value.enumerated) && pkg in s.seen)
    ensures (round.None? || !round.value.enumerated) ==>
              s.seen <= Swept(cat, s, round).seen && s.quarantined.Keys <= Swept(cat, s, round).quarantined.Keys
  {
    if round.Some? {
      var services := round.value.services;
      forall p
        ensures var t := HearAll(cat, services, |services|);
                && (p in t.bad <==> MismatchHeard(cat, services, p)) && (p in t.carrier <==> Heard(cat, services, p))
                && (p in t.seen <==> Heard(cat, services, p))
                && (p in t.carrier ==> LastCarrier(cat, services, p, t.carrier[p]))
      {
        HearAllExactly(cat, services, |services|, p);
        assert services[..|services|] == services;
      }
      var t := HearAll(cat, services, |services|);
      if pkg in t.carrier {
        forall name | LastCarrier(cat, services, pkg, name)
          ensures name == t.carrier[pkg]
        {
          CarrierIsUnique(cat, services, pkg, name, t.carrier[pkg]);
        }
      }
      assert round.value.Complete(CarrierOf(t, pkg)) && pkg !in t.bad <==> Clears(cat, round, pkg);
    }
  }

  ghost predicate IsRun(cats: seq<Catalogue>, rounds: seq<Option<Round>>, states: seq<State>) {
    && |cats| == |rounds| && |states| == |rounds| + 1
    && forall i | 0 <= i < |rounds| :: states[i + 1] == Swept(cats[i], states[i], rounds[i])
  }

  /** Over any sequence of sweeps, a verdict that is gone was cleared by a round with licence to. */
  lemma {:induction false} AVerdictIsClearedByEvidence(
      cats: seq<Catalogue>, rounds: seq<Option<Round>>, states: seq<State>, pkg: Package, i: nat, j: nat)
    requires IsRun(cats, rounds, states) && i <= j <= |rounds|
    requires pkg in states[i].quarantined && pkg !in states[j].quarantined
    ensures exists k | i <= k < j :: Clears(cats[k], rounds[k], pkg)
    decreases j - i
  {
    SweepExactly(cats[i], states[i], rounds[i], pkg);
    if pkg in states[i + 1].quarantined {
      AVerdictIsClearedByEvidence(cats, rounds, states, pkg, i + 1, j);
    }
  }
}
