/** The cached key set tokens are verified against: what is served, from which fetch, and how often
    the issuer is asked. */
module KeySet {
  import opened Policy

  type Kid = string
  type Key = nat

  datatype Config = Config(ttl: int, cooldown: int)

  /** `lastAttempt` is None before the first attempt, which is longer ago than any cooldown. */
  datatype State = State(keys: Option<map<Kid, Key>>, fetchedAt: int, lastAttempt: Option<int>)

  const INITIAL := State(None, 0, None)

  /** One call and what it meets. The clock is read when freshness is judged, when the cooldown is,
      when a fetch starts and when it ends. A fetch that yields no addressable key is a failure. */
  datatype Call = Call(kid: Kid, judged: int, cooled: int, started: int, ended: int, fetch: Option<map<Kid, Key>>)

  ghost predicate WellTimed(c: Call) {
    c.judged <= c.cooled <= c.started <= c.ended && (c.fetch.Some? ==> c.fetch.value != map[])
  }

  datatype Result = Found(key: Key) | NoSuchKey | CouldNotFetch

  datatype Step = Step(s: State, result: Result, fetched: bool)

  predicate Fresh(cfg: Config, s: State, now: int) {
    s.keys.Some? && now - s.fetchedAt < cfg.ttl
  }

  predicate Cooling(cfg: Config, s: State, now: int) {
    s.lastAttempt.Some? && now - s.lastAttempt.value < cfg.cooldown
  }

  function Answer(keys: map<Kid, Key>, kid: Kid): Result {
    if kid in keys then Found(keys[kid]) else NoSuchKey
  }

  function Lookup(cfg: Config, s: State, c: Call): Step {
    if Fresh(cfg, s, c.judged) && c.kid in s.keys.value then Step(s, Found(s.keys.value[c.kid]), false)
    else if Fresh(cfg, s, c.judged) && Cooling(cfg, s, c.cooled) then Step(s, NoSuchKey, false)
    else if c.fetch.None? then Step(s.(lastAttempt := Some(c.started)), CouldNotFetch, true)
    else Step(State(c.fetch, c.ended, Some(c.started)), Answer(c.fetch.value, c.kid), true)
  }

  class Cache {
    const cfg: Config
    var keys: Option<map<Kid, Key>>
    var fetchedAt: int
    var lastAttempt: Option<int>

    ghost function View(): State
      reads this
    {
      State(keys, fetchedAt, lastAttempt)
    }

    constructor (cfg: Config)
      ensures this.cfg == cfg && View() == INITIAL
    {
      this.cfg := cfg;
      keys, fetchedAt, lastAttempt := None, 0, None;
    }

    method Get(c: Call) returns (r: Result, fetched: bool)
      modifies this
      ensures Step(View(), r, fetched) == Lookup(cfg, old(View()), c)
    {
      var young := keys.Some? && c.judged - fetchedAt < cfg.ttl;
      if young {
        if c.kid in keys.value {
          return Found(keys.value[c.kid]), false;
        }
        if lastAttempt.Some? && c.cooled - lastAttempt.value < cfg.cooldown {
          return NoSuchKey, false;
        }
      }
      var ok := Refresh(c);
      if !ok {
        return CouldNotFetch, true;
      }
      return if c.kid in keys.value then Found(keys.value[c.kid]) else NoSuchKey, true;
    }

    /** A failure is remembered as an attempt and changes nothing else. */
    method Refresh(c: Call) returns (ok: bool)
      modifies this
      ensures ok == c.fetch.Some? && lastAttempt == Some(c.started)
      ensures ok ==> keys == c.fetch && fetchedAt == c.ended
      ensures !ok ==> keys == old(keys) && fetchedAt == old(fetchedAt)
    {
      lastAttempt := Some(c.started);
      if c.fetch.None? {
        return false;
      }
      keys, fetchedAt := c.fetch, c.ended;
      ok := true;
    }
  }

  // ---- every history of calls

  ghost predicate IsRun(cfg: Config, calls: seq<Call>, states: seq<State>) {
    && |states| == |calls| + 1 && states[0] == INITIAL
    && (forall i | 0 <= i < |calls| :: WellTimed(calls[i]) && states[i + 1] == Lookup(cfg, states[i], calls[i]).s)
    && (forall i | 0 <= i < |calls| - 1 :: calls[i].ended <= calls[i + 1].judged)
  }

  ghost predicate Succeeded(cfg: Config, calls: seq<Call>, states: seq<State>, i: nat)
    requires IsRun(cfg, calls, states) && i < |calls|
  {
    Lookup(cfg, states[i], calls[i]).fetched && calls[i].fetch.Some?
  }

  /** `i` is the last successful fetch before call `k`. */
  ghost predicate Latest(cfg: Config, calls: seq<Call>, states: seq<State>, i: nat, k: nat)
    requires IsRun(cfg, calls, states) && k <= |calls|
  {
    i < k && Succeeded(cfg, calls, states, i) && forall j | i < j < k :: !Succeeded(cfg, calls, states, j)
  }

  /** What is held is the latest successful fetch, whatever failed since. */
  lemma {:induction false} HeldIsLatest(cfg: Config, calls: seq<Call>, states: seq<State>, k: nat)
    requires IsRun(cfg, calls, states) && k <= |calls|
    ensures states[k].keys.Some? ==> exists i: nat ::
              && Latest(cfg, calls, states, i, k)
              && states[k].keys == calls[i].fetch && states[k].fetchedAt == calls[i].ended
    ensures states[k].keys.None? ==> forall i | 0 <= i < k :: !Succeeded(cfg, calls, states, i)
  {
    if k > 0 {
      HeldIsLatest(cfg, calls, states, k - 1);
      if Succeeded(cfg, calls, states, k - 1) {
        assert Latest(cfg, calls, states, k - 1, k);
      } else if states[k - 1].keys.Some? {
        var i: nat :| Latest(cfg, calls, states, i, k - 1) && states[k - 1].keys == calls[i].fetch
                 && states[k - 1].fetchedAt == calls[i].ended;
        assert Latest(cfg, calls, states, i, k);
      }
    }
  }

  /** A key is served only from the latest successful fetch, and that fetch was made in this call or is
      younger than the TTL. */
  lemma ServedFromAFreshFetch(cfg: Config, calls: seq<Call>, states: seq<State>, k: nat)
    requires IsRun(cfg, calls, states) && k < |calls| && Lookup(cfg, states[k], calls[k]).result.Found?
    ensures exists i: nat ::
              && Latest(cfg, calls, states, i, k + 1) && calls[k].kid in calls[i].fetch.value
              && calls[i].fetch.value[calls[k].kid] == Lookup(cfg, states[k], calls[k]).result.key
              && (i == k || calls[k].judged - calls[i].ended < cfg.ttl)
  {
    HeldIsLatest(cfg, calls, states, k + 1);
    var i: nat :| Latest(cfg, calls, states, i, k + 1) && states[k + 1].keys == calls[i].fetch
             && states[k + 1].fetchedAt == calls[i].ended;
  }

  /** A call asks the issuer exactly when the set held is stale, or lacks the key and the last attempt is a cooldown
      ago. A key is found exactly when the set held afterwards has it, so a held key is never denied and only a
      failed fetch is an error. */
  lemma AnsweredFromTheSetHeld(cfg: Config, s: State, c: Call)
    requires WellTimed(c)
    ensures var r := Lookup(cfg, s, c);
            && (r.fetched <==>
                || s.keys.None? || c.judged - s.fetchedAt >= cfg.ttl
                || (c.kid !in s.keys.value
                    && (s.lastAttempt.None? || c.cooled - s.lastAttempt.value >= cfg.cooldown)))
            && (r.result.CouldNotFetch? <==> r.fetched && c.fetch.None?)
            && (!r.result.CouldNotFetch? ==>
                  && r.s.keys.Some?
                  && r.result == if c.kid in r.s.keys.value then Found(r.s.keys.value[c.kid]) else NoSuchKey)
            && (r.s.keys == if r.fetched && c.fetch.Some? then c.fetch else s.keys)
  {
  }

  // ---- how often the issuer is asked

  /** Fetches made by the calls from `i` up to `j`. */
  ghost function Fetches(cfg: Config, calls: seq<Call>, states: seq<State>, i: nat, j: nat): nat
    requires IsRun(cfg, calls, states) && i <= j <= |calls|
    decreases j - i
  {
    if i == j then 0
    else Fetches(cfg, calls, states, i, j - 1) + if Lookup(cfg, states[j - 1], calls[j - 1]).fetched then 1 else 0
  }

  ghost predicate Fetched(cfg: Config, calls: seq<Call>, states: seq<State>, i: nat)
    requires IsRun(cfg, calls, states) && i < |calls|
  {
    Lookup(cfg, states[i], calls[i]).fetched
  }

  lemma {:induction false} TimePasses(cfg: Config, calls: seq<Call>, states: seq<State>, a: nat, b: nat)
    requires IsRun(cfg, calls, states) && a < b < |calls|
    ensures calls[a].ended <= calls[b].judged
    decreases b
  {
    if a + 1 < b {
      TimePasses(cfg, calls, states, a, b - 1);
    }
    assert calls[b - 1].ended <= calls[b - 1 + 1].judged;
  }

  /** An attempt is remembered, by its own start or by a later one's. */
  lemma {:induction false} AttemptIsRemembered(cfg: Config, calls: seq<Call>, states: seq<State>, a: nat, k: nat)
    requires IsRun(cfg, calls, states) && a < k <= |calls| && Fetched(cfg, calls, states, a)
    ensures states[k].lastAttempt.Some? && calls[a].started <= states[k].lastAttempt.value
    decreases k
  {
    if a + 1 < k {
      AttemptIsRemembered(cfg, calls, states, a, k - 1);
      TimePasses(cfg, calls, states, a, k - 1);
    }
  }

  /** An attempt made while the set is fresh comes at least one cooldown after every attempt before it. */
  lemma AttemptsAreSpaced(cfg: Config, calls: seq<Call>, states: seq<State>, a: nat, b: nat)
    requires IsRun(cfg, calls, states) && a < b < |calls|
    requires Fetched(cfg, calls, states, a) && Fetched(cfg, calls, states, b) && Fresh(cfg, states[b], calls[b].judged)
    ensures calls[b].started - calls[a].started >= cfg.cooldown
  {
    AttemptIsRemembered(cfg, calls, states, a, b);
  }

  /** In a window that stays fresh, the first and the last attempt lie a cooldown apart for every attempt between. */
  lemma {:induction false} AttemptsSpan(cfg: Config, calls: seq<Call>, states: seq<State>, i: nat, j: nat)
      returns (a: nat, b: nat)
    requires IsRun(cfg, calls, states) && i < j <= |calls| && Fetches(cfg, calls, states, i, j) > 0
    requires forall k | i <= k < j :: Fresh(cfg, states[k], calls[k].judged)
    ensures i <= a <= b < j && Fetched(cfg, calls, states, a) && Fetched(cfg, calls, states, b)
    ensures calls[b].started - calls[a].started >= (Fetches(cfg, calls, states, i, j) - 1) * cfg.cooldown
    decreases j
  {
    var before := Fetches(cfg, calls, states, i, j - 1);
    assert Fetches(cfg, calls, states, i, j) == before + if Fetched(cfg, calls, states, j - 1) then 1 else 0;
    if before == 0 {
      a, b := j - 1, j - 1;
    } else {
      a, b := AttemptsSpan(cfg, calls, states, i, j - 1);
      if Fetched(cfg, calls, states, j - 1) {
        AttemptsAreSpaced(cfg, calls, states, b, j - 1);
        OneMore(calls[b].started - calls[a].started, calls[j - 1].started - calls[b].started, before, cfg.cooldown);
        b := j - 1;
      }
    }
  }

  lemma OneMore(sum: int, step: int, n: nat, cooldown: int)
    requires sum >= (n - 1) * cooldown && step >= cooldown
    ensures sum + step >= n * cooldown
  {
  }

  /** While the set stays fresh, tokens naming unknown keys cost the issuer at most one fetch and one more
      for every cooldown that passes. */
  lemma UnknownKeysAreRateLimited(cfg: Config, calls: seq<Call>, states: seq<State>, i: nat, j: nat)
    requires IsRun(cfg, calls, states) && i < j <= |calls| && cfg.cooldown > 0
    requires forall k | i <= k < j :: Fresh(cfg, states[k], calls[k].judged)
    ensures (Fetches(cfg, calls, states, i, j) - 1) * cfg.cooldown <= calls[j - 1].ended - calls[i].judged
  {
    if i < j - 1 {
      TimePasses(cfg, calls, states, i, j - 1);
    }
    if Fetches(cfg, calls, states, i, j) > 0 {
      var a, b := AttemptsSpan(cfg, calls, states, i, j);
      if i < a {
        TimePasses(cfg, calls, states, i, a);
      }
      if b < j - 1 {
        TimePasses(cfg, calls, states, b, j - 1);
      }
    }
  }
}
