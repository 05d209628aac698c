/** Single-use approvals: the step 5 verifier, the shared bucket that remembers what was spent, and
    the checks that keep the bucket's memory longer than any approval. */
module Approvals {
  import opened Policy
  import opened ReplayKey

  type Id = seq<Byte>

  // ---- sizing

  datatype Tool = Tool(gated: bool, maxGrantAge: int)
  type Catalogue = seq<Tool>

  /** The largest ceiling a gated tool declares, zero when nothing is gated. */
  method LongestGrantAge(cat: Catalogue) returns (longest: int)
    ensures longest >= 0
    ensures forall t | t in cat && t.gated :: t.maxGrantAge <= longest
    ensures longest > 0 ==> exists t | t in cat :: t.gated && t.maxGrantAge == longest
  {
    longest := 0;
    for i := 0 to |cat|
      invariant longest >= 0
      invariant forall j | 0 <= j < i && cat[j].gated :: cat[j].maxGrantAge <= longest
      invariant longest > 0 ==> exists t | t in cat :: t.gated && t.maxGrantAge == longest
    {
      if cat[i].gated && cat[i].maxGrantAge > longest {
        longest := cat[i].maxGrantAge;
      }
    }
  }

  method CheckGrantCeilings(cat: Catalogue) returns (ok: bool)
    ensures ok <==> forall t | t in cat && t.gated :: t.maxGrantAge > 0
  {
    for i := 0 to |cat|
      invariant forall j | 0 <= j < i && cat[j].gated :: cat[j].maxGrantAge > 0
    {
      if cat[i].gated && cat[i].maxGrantAge <= 0 {
        return false;
      }
    }
    ok := true;
  }

  /** Nothing to guard is always fine; a bucket that does not say how long it remembers is taken at its word. */
  predicate CheckRetention(retention: int, longest: int) {
    longest <= 0 || !(0 < retention < longest)
  }

  /** Every approval a catalogue can accept is one the bucket still remembers being spent. */
  predicate Covered(retention: int, skew: int, cat: Catalogue) {
    forall t | t in cat && t.gated :: 0 < t.maxGrantAge && t.maxGrantAge + skew <= retention
  }

  /** What a reload asks of the next generation, and startup of the first. */
  method ReloadGuard(retention: int, skew: int, next: Catalogue) returns (ok: bool)
    requires retention > 0 && skew >= 0
    ensures ok <==> Covered(retention, skew, next)
  {
    ok := CheckGrantCeilings(next);
    if !ok {
      return;
    }
    var longest := LongestGrantAge(next);
    if longest <= 0 {
      assert forall t | t in next :: !t.gated;
      return true;
    }
    ok := CheckRetention(retention, longest + skew);
  }

  /** The expiry a new bucket is created with. */
  const BUCKET_FLOOR_TTL := 3600

  method SizeBucket(skew: int, cat: Catalogue) returns (ttl: int)
    requires skew >= 0 && forall t | t in cat && t.gated :: t.maxGrantAge > 0
    ensures ttl > 0 && Covered(ttl, skew, cat)
    ensures (exists t | t in cat :: t.gated) ==> exists t | t in cat && t.gated :: ttl == t.maxGrantAge + skew
    ensures (forall t | t in cat :: !t.gated) ==> ttl == 3600
  {
    var longest := LongestGrantAge(cat);
    ttl := if longest > 0 then longest + skew else BUCKET_FLOOR_TTL;
  }

  // ---- one verification

  datatype Refusal = GrantRequired | Refused | Unavailable
  datatype SpendResult = Spent | AlreadySpent | CouldNotTell

  /** How the connection to the bucket behaves during one call. */
  datatype Link = Up | LostBefore | LostAfter

  /** The bucket: when each key now in it was created. */
  class Bucket {
    var created: map<seq<Byte>, nat>

    constructor ()
      ensures created == map[]
    {
      created := map[];
    }

    /** Create succeeds only where the key is absent, so one caller in all can win. A reply lost on
        the way back leaves the record behind and no answer. */
    method Spend(id: Id, now: nat, link: Link) returns (r: SpendResult)
      modifies this
      ensures r == Spent ==> id != [] && Key(id) !in old(created) && created == old(created)[Key(id) := now]
      ensures r == AlreadySpent ==> Key(id) in old(created) && created == old(created)
      ensures r == CouldNotTell ==>
                created == old(created) || (Key(id) !in old(created) && created == old(created)[Key(id) := now])
      ensures id != [] && link.Up? ==> r != CouldNotTell
    {
      if id == [] || link.LostBefore? {
        return CouldNotTell;
      }
      var k := ComputeKey(id);
      r := if k in created then AlreadySpent else Spent;
      if k !in created {
        created := created[k := now];
      }
      if link.LostAfter? {
        r := CouldNotTell;
      }
    }
  }

  /** What parsing a presented token comes to. `shapeOk` is every check of the claims other than their age, and
      `materialOk` that the values approved are the values sent. */
  datatype Parsed = BadToken | KeysUnreachable | Claims(id: Id, iat: nat, shapeOk: bool, materialOk: bool)

  /** Given already, and no older than the tool's ceiling and the clock skew. */
  predicate InWindow(iat: nat, ceiling: int, skew: nat, now: nat) {
    iat <= now <= iat + ceiling + skew
  }

  predicate Acceptable(t: Tool, skew: nat, c: Parsed, judged: nat) {
    c.Claims? && c.shapeOk && c.id != [] && InWindow(c.iat, t.maxGrantAge, skew, judged) && c.materialOk
  }

  /** The approval is acceptable when judged, and its record is a new one when the create lands. */
  ghost predicate Passes(
      t: Tool, skew: nat, c: Parsed, judged: nat, landed: nat, before: map<seq<Byte>, nat>, after: map<seq<Byte>, nat>)
  {
    Acceptable(t, skew, c, judged) && Key(c.id) !in before && after == before[Key(c.id) := landed]
  }

  /** Step 5. Everything is checked, at `judged`, before anything is consumed, at `landed`: an approval that is wrong
      for this call is still good for the one it was given for. */
  method Verify(
      t: Tool, skew: nat, configured: bool, presented: Option<Parsed>, bucket: Bucket,
      judged: nat, landed: nat, link: Link)
      returns (refusal: Option<Refusal>)
    modifies bucket
    ensures !t.gated ==> refusal.None? && bucket.created == old(bucket.created)
    ensures t.gated && refusal.None? ==>
              && configured && presented.Some?
              && Passes(t, skew, presented.value, judged, landed, old(bucket.created), bucket.created)
    ensures t.gated && refusal.None? ==>
              var c := presented.value;
              && c.Claims? && c.shapeOk && c.materialOk && c.id != []
              && c.iat <= judged <= c.iat + t.maxGrantAge + skew
    ensures t.gated && configured && presented.Some? && presented.value.Claims? ==>
              var c := presented.value;
              (&& c.shapeOk && c.materialOk && c.id != [] && c.iat <= judged <= c.iat + t.maxGrantAge + skew
               && link.Up? && Key(c.id) !in old(bucket.created)) ==> refusal.None?
    ensures t.gated && !(configured && presented.Some? && Acceptable(t, skew, presented.value, judged)) ==>
              refusal.Some? && bucket.created == old(bucket.created)
    ensures refusal == Some(GrantRequired) <==> t.gated && configured && presented.None?
    ensures refusal == Some(Refused) ==>
              && bucket.created == old(bucket.created) && configured && presented.Some?
              && (Acceptable(t, skew, presented.value, judged) ==> Key(presented.value.id) in bucket.created)
    ensures t.gated && refusal == Some(Unavailable) ==>
              || !configured || presented.value.KeysUnreachable?
              || (!link.Up? && Acceptable(t, skew, presented.value, judged))
  {
    if !t.gated {
      return None;
    }
    if !configured {
      return Some(Unavailable);
    }
    if presented.None? {
      return Some(GrantRequired);
    }
    match presented.value {
      case BadToken => return Some(Refused);
      case KeysUnreachable => return Some(Unavailable);
      case Claims(id, iat, shapeOk, materialOk) =>
        if !shapeOk || id == [] || !InWindow(iat, t.maxGrantAge, skew, judged) {
          return Some(Refused);
        }
        if !materialOk {
          return Some(Refused);
        }
        var r := bucket.Spend(id, landed, link);
        match r {
          case Spent => return None;
          case AlreadySpent => return Some(Refused);
          case CouldNotTell => return Some(Unavailable);
        }
    }
  }

  // ---- every run of every number of replicas

  type Replica = nat

  /** `ttl` is what the bucket reports, `life` how long a record is in fact still there: it can be
      dropped from age `life` on, not before. A create that is answered lands within `lag` of the check that led
      to it. `issued` is when each approval was given. */
  datatype World = World(ttl: nat, life: nat, skew: nat, lag: nat, issued: Id -> nat)

  /** An approval found acceptable, whose create is on its way. */
  datatype Pending = Pending(id: Id, judged: nat)

  /** `passed` are calls through step 5 whose tool has not run yet; `ran` is every gated run so far. */
  datatype State = State(
    now: nat, created: map<seq<Byte>, nat>, serving: map<Replica, set<Catalogue>>,
    pending: multiset<Pending>, passed: multiset<Id>, ran: seq<Id>)

  ghost predicate Init(s: State) {
    s.created == map[] && s.serving == map[] && s.pending == multiset{} && s.passed == multiset{} && s.ran == []
  }

  /** A replica starts, or reloads, only with a catalogue the guard lets through. Requests already in flight go on
      with the generation they read, so what it served before is still judged by. */
  ghost predicate Serve(w: World, s: State, s': State, r: Replica, cat: Catalogue) {
    Covered(w.ttl, w.skew, cat) && s' == s.(serving := s.serving[r := HeldBy(s, r) + {cat}])
  }

  ghost function HeldBy(s: State, r: Replica): set<Catalogue> {
    if r in s.serving then s.serving[r] else {}
  }

  ghost predicate Stop(s: State, s': State, r: Replica) {
    s' == s.(serving := s.serving - {r})
  }

  ghost predicate Tick(s: State, s': State) {
    s'.now >= s.now && s' == s.(now := s'.now)
  }

  ghost predicate Expire(w: World, s: State, s': State, k: seq<Byte>) {
    k in s.created && s.now >= s.created[k] + w.life && s' == s.(created := s.created - {k})
  }

  ghost predicate Fresh(w: World, s: State, t: Tool, id: Id) {
    InWindow(w.issued(id), t.maxGrantAge, w.skew, s.now)
  }

  /** Some request finds an approval acceptable for a tool of the generation it read. */
  ghost predicate Judge(w: World, s: State, s': State, r: Replica, t: Tool, id: Id) {
    && (exists cat | cat in HeldBy(s, r) :: t in cat) && t.gated && Fresh(w, s, t, id)
    && s' == s.(pending := s.pending + multiset{Pending(id, s.now)})
  }

  /** The create lands where no record is. Its answer may be lost, and then it may have landed at any time. */
  ghost predicate Create(w: World, s: State, s': State, p: Pending, answered: bool) {
    && p in s.pending && Key(p.id) !in s.created && (answered ==> s.now <= p.judged + w.lag)
    && s' == s.(created := s.created[Key(p.id) := s.now], pending := s.pending - multiset{p},
                passed := if answered then s.passed + multiset{p.id} else s.passed)
  }

  /** The create finds a record, or never lands, or the replica dies. */
  ghost predicate Refuse(s: State, s': State, p: Pending) {
    p in s.pending && s' == s.(pending := s.pending - multiset{p})
  }

  ghost predicate Run(s: State, s': State, id: Id) {
    id in s.passed && s' == s.(passed := s.passed - multiset{id}, ran := s.ran + [id])
  }

  /** A later gate refuses, or the replica dies. */
  ghost predicate Abandon(s: State, s': State, id: Id) {
    id in s.passed && s' == s.(passed := s.passed - multiset{id})
  }

  ghost predicate Next(w: World, s: State, s': State) {
    || (exists r, cat :: Serve(w, s, s', r, cat))
    || (exists r :: Stop(s, s', r))
    || Tick(s, s')
    || (exists k :: Expire(w, s, s', k))
    || (exists r, t, id :: Judge(w, s, s', r, t, id))
    || (exists p, answered :: Create(w, s, s', p, answered))
    || (exists p :: Refuse(s, s', p))
    || (exists id :: Run(s, s', id))
    || (exists id :: Abandon(s, s', id))
  }

  ghost predicate IsRun(w: World, states: seq<State>) {
    states != [] && Init(states[0]) && forall i | 0 <= i < |states| - 1 :: Next(w, states[i], states[i + 1])
  }

  ghost predicate AtMostOnce(s: State) {
    forall i, j | 0 <= i < j < |s.ran| :: s.ran[i] != s.ran[j]
  }

  ghost predicate AlwaysAtMostOnce(w: World) {
    forall states | IsRun(w, states) :: AtMostOnce(states[|states| - 1])
  }

  /** How often an approval has let a call through. */
  ghost function Uses(s: State, id: Id): nat {
    s.passed[id] + multiset(s.ran)[id]
  }

  /** A used approval was used once, at `at`, and either its key is still held, from then or later,
      or a record's whole life has gone by. */
  ghost predicate Remembered(w: World, s: State, id: Id, at: nat) {
    && w.issued(id) <= at <= s.now
    && ((Key(id) in s.created && at <= s.created[Key(id)]) || at + w.life <= s.now)
  }

  /** What is on its way was acceptable when it was judged, by a catalogue the guard let through. */
  ghost predicate Waiting(w: World, s: State, p: Pending) {
    w.issued(p.id) <= p.judged <= s.now && p.judged <= w.issued(p.id) + w.ttl && w.skew < w.ttl
  }

  ghost predicate AllCovered(w: World, s: State) {
    forall r, cat | r in s.serving && cat in s.serving[r] :: Covered(w.ttl, w.skew, cat)
  }

  ghost predicate Inv(w: World, s: State) {
    && AllCovered(w, s)
    && (forall k | k in s.created :: s.created[k] <= s.now)
    && (forall p | p in s.pending :: Waiting(w, s, p))
    && (forall id :: Uses(s, id) <= 1)
    && (forall id | Uses(s, id) == 1 :: exists at :: Remembered(w, s, id, at))
  }

  /** A record is still there when the last create that an approval of the age the bucket reports can lead to has
      landed, or the bucket reports so little that no gated tool gets past the guard. */
  predicate Outlives(w: World) {
    w.ttl + w.lag < w.life || w.ttl <= w.skew
  }

  /** A create that lands in time finds the record of any earlier use. */
  lemma AUseIsStillRecorded(w: World, s: State, p: Pending)
    requires Inv(w, s) && Outlives(w) && p in s.pending && s.now <= p.judged + w.lag && Key(p.id) !in s.created
    ensures Uses(s, p.id) == 0
  {
    assert Waiting(w, s, p);
    assert forall at :: !Remembered(w, s, p.id, at);
  }

  lemma CreateKeepsInv(w: World, s: State, s': State, p: Pending, answered: bool)
    requires Inv(w, s) && Outlives(w) && Create(w, s, s', p, answered)
    ensures Inv(w, s')
  {
    if answered {
      AUseIsStillRecorded(w, s, p);
    }
    assert Waiting(w, s, p);
    assert forall q | q in s'.pending :: q in s.pending && Waiting(w, s, q);
    forall x
      ensures Uses(s', x) <= 1 && (Uses(s', x) == 1 ==> exists at :: Remembered(w, s', x, at))
    {
      if answered && x == p.id {
        assert Remembered(w, s', x, s.now);
      } else if Uses(s, x) == 1 {
        var at :| Remembered(w, s, x, at);
        assert Remembered(w, s', x, at);
      }
    }
  }

  lemma ExpireKeepsInv(w: World, s: State, s': State, k: seq<Byte>)
    requires Inv(w, s) && Expire(w, s, s', k)
    ensures Inv(w, s')
  {
    assert forall x :: Uses(s', x) == Uses(s, x);
    forall x | Uses(s', x) == 1
      ensures exists at :: Remembered(w, s', x, at)
    {
      assert Uses(s, x) == 1;
      var at :| Remembered(w, s, x, at);
      assert Remembered(w, s', x, at);
    }
  }

  lemma QuietKeepsInv(w: World, s: State, s': State)
    requires Inv(w, s) && s.now <= s'.now && s'.created == s.created
    requires forall p | p in s'.pending :: Waiting(w, s', p)
    requires AllCovered(w, s')
    requires forall id :: Uses(s', id) <= Uses(s, id)
    ensures Inv(w, s')
  {
    forall x | Uses(s', x) == 1
      ensures exists at :: Remembered(w, s', x, at)
    {
      assert Uses(s, x) == 1;
      var at :| Remembered(w, s, x, at);
      assert Remembered(w, s', x, at);
    }
  }

  lemma RunMovesOneUse(s: State, s': State, id: Id)
    requires Run(s, s', id)
    ensures forall x :: Uses(s', x) == Uses(s, x)
  {
    assert multiset(s'.ran) == multiset(s.ran) + multiset{id};
  }

  lemma JudgeKeepsInv(w: World, s: State, s': State, r: Replica, t: Tool, id: Id)
    requires Inv(w, s) && Judge(w, s, s', r, t, id)
    ensures Inv(w, s')
  {
    var cat :| cat in HeldBy(s, r) && t in cat;
    assert Covered(w.ttl, w.skew, cat);
    forall p | p in s'.pending ensures Waiting(w, s', p) {
      if p in s.pending {
        assert Waiting(w, s, p);
      }
    }
    QuietKeepsInv(w, s, s');
  }

  lemma UseKeepsInv(w: World, s: State, s': State, id: Id)
    requires Inv(w, s) && (Run(s, s', id) || Abandon(s, s', id))
    ensures Inv(w, s')
  {
    if Run(s, s', id) {
      RunMovesOneUse(s, s', id);
    }
    WaitingStill(w, s, s');
    QuietKeepsInv(w, s, s');
  }

  lemma WaitingStill(w: World, s: State, s': State)
    requires Inv(w, s) && s.now <= s'.now && forall p | p in s'.pending :: p in s.pending
    ensures forall p | p in s'.pending :: Waiting(w, s', p)
  {
    assert forall p | p in s.pending :: Waiting(w, s, p);
  }

  /** Serving, stopping, the clock and a create that comes to nothing. */
  lemma RestKeepsInv(w: World, s: State, s': State)
    requires Inv(w, s) && AllCovered(w, s') && s.now <= s'.now
    requires s' == s.(now := s'.now, serving := s'.serving, pending := s'.pending)
    requires forall p | p in s'.pending :: p in s.pending
    ensures Inv(w, s')
  {
    WaitingStill(w, s, s');
    QuietKeepsInv(w, s, s');
  }

  lemma ServeKeepsInv(w: World, s: State, s': State, r: Replica, cat: Catalogue)
    requires Inv(w, s) && Serve(w, s, s', r, cat)
    ensures Inv(w, s')
  {
    RestKeepsInv(w, s, s');
  }

  lemma NextKeepsInv(w: World, s: State, s': State)
    requires Inv(w, s) && Outlives(w) && Next(w, s, s')
    ensures Inv(w, s')
  {
    if k :| Expire(w, s, s', k) {
      ExpireKeepsInv(w, s, s', k);
    } else if p, answered :| Create(w, s, s', p, answered) {
      CreateKeepsInv(w, s, s', p, answered);
    } else if r, t, id :| Judge(w, s, s', r, t, id) {
      JudgeKeepsInv(w, s, s', r, t, id);
    } else if id :| Run(s, s', id) || Abandon(s, s', id) {
      UseKeepsInv(w, s, s', id);
    } else if r, cat :| Serve(w, s, s', r, cat) {
      ServeKeepsInv(w, s, s', r, cat);
    } else {
      RestKeepsInv(w, s, s');
    }
  }

  lemma {:induction false} RunKeepsInv(w: World, states: seq<State>, k: nat)
    requires IsRun(w, states) && Outlives(w) && k < |states|
    ensures Inv(w, states[k])
  {
    if k > 0 {
      RunKeepsInv(w, states, k - 1);
      NextKeepsInv(w, states[k - 1], states[k]);
    }
  }

  lemma InvIsAtMostOnce(w: World, s: State)
    requires Inv(w, s)
    ensures AtMostOnce(s)
  {
    forall i, j | 0 <= i < j < |s.ran|
      ensures s.ran[i] != s.ran[j]
    {
      assert Uses(s, s.ran[i]) <= 1;
      RepeatsCount(s.ran, i, j);
    }
  }

  lemma RepeatsCount(ran: seq<Id>, i: nat, j: nat)
    requires i < j < |ran|
    ensures ran[i] == ran[j] ==> multiset(ran)[ran[i]] >= 2
  {
    assert ran == ran[..j] + [ran[j]] + ran[j + 1..];
    assert ran[i] == ran[..j][i];
    assert ran[i] in multiset(ran[..j]);
  }

  // ---- and when it is not so

  /** One approval spent and run the moment it is given; judged again at the last instant that helps; its record
      dropped at age `life`, before the second create lands; and run again. */
  ghost function Replay(w: World, cat: Catalogue, id: Id): seq<State> {
    var start := w.issued(id);
    var idle := State(start, map[], map[], multiset{}, multiset{}, []);
    var up := idle.(serving := map[0 := {cat}]);
    var judged := up.(pending := multiset{Pending(id, start)});
    var spent := up.(created := map[Key(id) := start], passed := multiset{id});
    var ran := spent.(passed := multiset{}, ran := [id]);
    var late := ran.(now := start + if w.life < w.ttl then w.life else w.ttl);
    var rejudged := late.(pending := multiset{Pending(id, late.now)});
    var later := rejudged.(now := start + w.life);
    var forgotten := later.(created := map[]);
    var again := later.(created := map[Key(id) := later.now], pending := multiset{}, passed := multiset{id});
    var twice := again.(passed := multiset{}, ran := [id, id]);
    [idle, up, judged, spent, ran, late, rejudged, later, forgotten, again, twice]
  }

  lemma ReplayIsARun(w: World, id: Id)
    requires !Outlives(w)
    ensures !AlwaysAtMostOnce(w)
  {
    var t := Tool(true, w.ttl - w.skew);
    var run := Replay(w, [t], id);
    FirstUse(w, run, t, id);
    SecondUse(w, run, t, id);
    assert forall i | 0 <= i < |run| - 1 :: Next(w, run[i], run[i + 1]);
    assert IsRun(w, run) && run[10].ran[0] == run[10].ran[1];
  }

  lemma FirstUse(w: World, run: seq<State>, t: Tool, id: Id)
    requires t == Tool(true, w.ttl - w.skew) && run == Replay(w, [t], id) && w.skew < w.ttl
    ensures forall i | 0 <= i < 4 :: Next(w, run[i], run[i + 1])
  {
    var p := Pending(id, w.issued(id));
    assert HeldBy(run[0], 0) + {[t]} == {[t]} && [t] in HeldBy(run[1], 0) && t in [t];
    assert Serve(w, run[0], run[1], 0, [t]);
    assert multiset{} + multiset{p} == multiset{p} && multiset{p} - multiset{p} == multiset{};
    assert Judge(w, run[1], run[2], 0, t, id);
    assert multiset{} + multiset{id} == multiset{id} && multiset{id} - multiset{id} == multiset{};
    assert Create(w, run[2], run[3], p, true);
    assert [] + [id] == [id];
    assert Run(run[3], run[4], id);
  }

  lemma SecondUse(w: World, run: seq<State>, t: Tool, id: Id)
    requires t == Tool(true, w.ttl - w.skew) && run == Replay(w, [t], id) && w.skew < w.ttl && w.life <= w.ttl + w.lag
    ensures forall i | 4 <= i < 10 :: Next(w, run[i], run[i + 1])
  {
    var p := Pending(id, run[5].now);
    assert Tick(run[4], run[5]);
    assert multiset{} + multiset{p} == multiset{p} && multiset{p} - multiset{p} == multiset{};
    assert [t] in HeldBy(run[5], 0) && t in [t];
    assert Judge(w, run[5], run[6], 0, t, id);
    assert Tick(run[6], run[7]);
    assert map[Key(id) := w.issued(id)] - {Key(id)} == map[];
    assert Expire(w, run[7], run[8], Key(id));
    assert multiset{} + multiset{id} == multiset{id} && multiset{id} - multiset{id} == multiset{};
    assert Create(w, run[8], run[9], p, true);
    assert [id] + [id] == [id, id];
    assert Run(run[9], run[10], id);
  }

  /** One approval, one execution, in every run of any number of replicas with clock ticks, expiry and guarded
      reloads: exactly when a record outlives the age the bucket reports by more than a create can lag behind the
      check that led to it, or nothing gated can be served at all. */
  lemma OneApprovalOneExecution(w: World)
    ensures AlwaysAtMostOnce(w) <==> Outlives(w)
  {
    if Outlives(w) {
      forall states | IsRun(w, states)
        ensures AtMostOnce(states[|states| - 1])
      {
        RunKeepsInv(w, states, |states| - 1);
        InvIsAtMostOnce(w, states[|states| - 1]);
      }
    } else {
      ReplayIsARun(w, [1]);
    }
  }

  // ---- a verification is those steps

  /** A call that step 5 lets through judged the approval in one state and created its record in a later one,
      whatever other replicas did in between. */
  lemma APassIsJudgeThenCreate(
      w: World, s: State, s': State, r: Replica, t: Tool, c: Parsed, after: map<seq<Byte>, nat>)
    requires (exists cat | cat in HeldBy(s, r) :: t in cat) && t.gated && c.Claims? && c.iat == w.issued(c.id)
    requires Pending(c.id, s.now) in s'.pending && s'.now <= s.now + w.lag
    requires Passes(t, w.skew, c, s.now, s'.now, s'.created, after)
    ensures var p := Pending(c.id, s.now);
            && Judge(w, s, s.(pending := s.pending + multiset{p}), r, t, c.id)
            && Create(w, s', s'.(created := after, pending := s'.pending - multiset{p},
                                 passed := s'.passed + multiset{c.id}), p, true)
  {
  }
}
