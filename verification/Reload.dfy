/** Replacing the catalogue a process serves, or refusing to: the store, the poller, and every run of polls. */
module Reload {
  import opened Policy
  import opened Generations

  /** What loading says of bytes. The same bytes always load alike. */
  datatype Site = Site(
    digest: Body -> string, loads: Body -> bool, taxonomy: Body -> bool, tools: Body -> nat,
    maxTools: nat, keepDepth: nat, ttl: nat)

  predicate WithinCeiling(site: Site, b: Body) {
    site.maxTools == 0 || site.tools(b) <= site.maxTools
  }

  // ---- the store

  /** A superseded generation. `at` is when that happened; nothing the store decides reads it. */
  datatype Retired = Retired(cat: Catalogue, at: int)

  /** Retention tests when a generation was loaded. */
  function Recent(retired: seq<Retired>, cut: int): seq<Retired> {
    if retired == [] then []
    else (if retired[0].cat.loadedAt > cut then [retired[0]] else []) + Recent(retired[1..], cut)
  }

  function Swept(site: Site, retired: seq<Retired>, now: int): seq<Retired> {
    Recent(if |retired| > site.keepDepth then retired[..site.keepDepth] else retired, now - site.ttl)
  }

  /** What is retained once `next` has taken the place of `prev`. */
  function Shelved(site: Site, prev: Option<Catalogue>, retired: seq<Retired>, next: Catalogue): seq<Retired> {
    Swept(site, (if prev.Some? && site.keepDepth > 0 then [Retired(prev.value, next.loadedAt)] else []) + retired,
          next.loadedAt)
  }

  lemma {:induction false} RecentIsASelection(retired: seq<Retired>, cut: int)
    ensures |Recent(retired, cut)| <= |retired|
    ensures forall r :: r in Recent(retired, cut) <==> r in retired && r.cat.loadedAt > cut
  {
    if retired != [] {
      RecentIsASelection(retired[1..], cut);
    }
  }

  lemma RecentStep(retired: seq<Retired>, cut: int, i: nat, keep: seq<Retired>)
    requires i < |retired|
    ensures keep + Recent(retired[i..], cut) ==
            (if retired[i].cat.loadedAt > cut then keep + [retired[i]] else keep) + Recent(retired[i + 1..], cut)
  {
    assert retired[i..][0] == retired[i] && retired[i..][1..] == retired[i + 1..];
  }

  class Store {
    const site: Site
    var current: Option<Catalogue>
    var retired: seq<Retired>
    var serial: nat

    constructor (site: Site)
      ensures this.site == site && current == None && retired == [] && serial == 0
    {
      this.site := site;
      current, retired, serial := None, [], 0;
    }

    /** Bounds what is retained by count, then by age. */
    method Sweep(now: int)
      modifies this`retired
      ensures retired == Swept(site, old(retired), now)
      ensures |retired| <= site.keepDepth
      ensures forall r | r in retired :: r in old(retired) && r.cat.loadedAt > now - site.ttl
    {
      var held := if |retired| > site.keepDepth then retired[..site.keepDepth] else retired;
      var cut := now - site.ttl;
      var keep := [];
      var i := 0;
      while i < |held|
        invariant 0 <= i <= |held|
        invariant Recent(held, cut) == keep + Recent(held[i..], cut)
      {
        RecentStep(held, cut, i, keep);
        if held[i].cat.loadedAt > cut {
          keep := keep + [held[i]];
        }
        i := i + 1;
      }
      RecentIsASelection(held, cut);
      retired := keep;
    }

    /** Everything that can fail fails before the swap. */
    method Install(body: Body, now: int) returns (r: Option<Catalogue>)
      modifies this
      ensures r.None? ==> current == old(current) && retired == old(retired) && serial == old(serial)
      ensures r.None? <==> !site.loads(body) || !WithinCeiling(site, body)
      ensures r.Some? && old(current).Some? && site.digest(old(current).value.body) == site.digest(body) ==>
                r == old(current) && current == old(current) && retired == old(retired)
      ensures r.Some? && !(old(current).Some? && site.digest(old(current).value.body) == site.digest(body)) ==>
                && r == Some(Catalogue(old(serial), body, now)) && current == r && serial == old(serial) + 1
                && retired == Shelved(site, old(current), old(retired), r.value)
    {
      if !site.loads(body) || !WithinCeiling(site, body) {
        return None;
      }
      if current.Some? && site.digest(current.value.body) == site.digest(body) {
        return current;
      }
      var prev := current;
      current := Some(Catalogue(serial, body, now));
      serial := serial + 1;
      retired := (if prev.Some? && site.keepDepth > 0 then [Retired(prev.value, now)] else []) + retired;
      Sweep(now);
      return current;
    }
  }

  // ---- what is retained over every run of the store

  /** The store over time: `ever` is every generation superseded so far, newest first, and `now` the last time the
      store looked at the clock. */
  datatype Shelf = Shelf(current: Option<Catalogue>, retired: seq<Retired>, ever: seq<Retired>, now: int)

  ghost predicate Swaps(site: Site, h: Shelf, h': Shelf, next: Catalogue) {
    && h.now <= next.loadedAt
    && (h.current.Some? ==> site.digest(h.current.value.body) != site.digest(next.body))
    && h' == Shelf(Some(next), Shelved(site, h.current, h.retired, next),
                   (if h.current.Some? then [Retired(h.current.value, next.loadedAt)] else []) + h.ever, next.loadedAt)
  }

  ghost predicate Sweeps(site: Site, h: Shelf, h': Shelf) {
    h.now <= h'.now && h' == h.(retired := Swept(site, h.retired, h'.now), now := h'.now)
  }

  ghost predicate ShelfNext(site: Site, h: Shelf, h': Shelf) {
    (exists next :: Swaps(site, h, h', next)) || Sweeps(site, h, h')
  }

  ghost predicate IsHistory(site: Site, shelves: seq<Shelf>) {
    && shelves != [] && shelves[0].current == None && shelves[0].retired == [] && shelves[0].ever == []
    && forall i | 0 <= i < |shelves| - 1 :: ShelfNext(site, shelves[i], shelves[i + 1])
  }

  /** Newest first, which with one clock is latest loaded first. */
  ghost predicate Sorted(rs: seq<Retired>) {
    forall i, j | 0 <= i < j < |rs| :: rs[i].cat.loadedAt >= rs[j].cat.loadedAt
  }

  /** On a sorted list the recent ones are a prefix. */
  lemma {:induction false} RecentIsAPrefix(rs: seq<Retired>, cut: int)
    requires Sorted(rs)
    ensures var n := |Recent(rs, cut)|;
            && n <= |rs| && Recent(rs, cut) == rs[..n]
            && forall i | 0 <= i < |rs| :: i < n <==> rs[i].cat.loadedAt > cut
  {
    if rs != [] {
      var tail := Recent(rs[1..], cut);
      RecentIsAPrefix(rs[1..], cut);
      assert forall i | 1 <= i < |rs| :: rs[i] == rs[1..][i - 1];
      if rs[0].cat.loadedAt > cut {
        assert [rs[0]] + rs[1..][..|tail|] == rs[..|tail| + 1];
      } else {
        assert forall r | r in rs :: r.cat.loadedAt <= cut;
        RecentIsASelection(rs[1..], cut);
        assert forall r | r in rs[1..] :: r in rs;
        assert tail == [];
      }
    }
  }

  /** What a sweep keeps of a sorted list: as many as the depth allows, of those recent enough. */
  ghost predicate Keeps(site: Site, rs: seq<Retired>, now: int, n: nat) {
    n <= |rs| && forall i | 0 <= i < |rs| :: i < n <==> i < site.keepDepth && rs[i].cat.loadedAt > now - site.ttl
  }

  lemma SweptKeeps(site: Site, rs: seq<Retired>, now: int)
    requires Sorted(rs)
    ensures var n := |Swept(site, rs, now)|;
            Keeps(site, rs, now, n) && Swept(site, rs, now) == rs[..n]
  {
    var held := if |rs| > site.keepDepth then rs[..site.keepDepth] else rs;
    RecentIsAPrefix(held, now - site.ttl);
    assert forall i | 0 <= i < |held| :: held[i] == rs[i];
  }

  ghost predicate ShelfInv(site: Site, h: Shelf) {
    && Sorted(h.ever)
    && (forall i | 0 <= i < |h.ever| :: h.ever[i].cat.loadedAt <= h.ever[i].at <= h.now)
    && (h.current.Some? ==>
          h.current.value.loadedAt <= h.now
          && forall i | 0 <= i < |h.ever| :: h.ever[i].cat.loadedAt <= h.current.value.loadedAt)
    && Keeps(site, h.ever, h.now, |h.retired|) && h.retired == h.ever[..|h.retired|]
  }

  /** Sweeping what an earlier sweep left is sweeping everything: the store never needed what it forgot. */
  lemma SweptAgain(site: Site, rs: seq<Retired>, before: int, now: int, n: nat, newer: seq<Retired>)
    requires Sorted(newer + rs) && before <= now && Keeps(site, rs, before, n)
    ensures Swept(site, newer + rs[..n], now) == Swept(site, newer + rs, now)
  {
    var all, left := newer + rs, newer + rs[..n];
    assert left == all[..|left|];
    SweptKeeps(site, all, now);
    SweptKeeps(site, left, now);
    var m, k := |Swept(site, all, now)|, |Swept(site, left, now)|;
    assert n < |rs| ==> all[|newer| + n] == rs[n];
    assert m <= |left|;
    assert forall i | 0 <= i < |left| :: left[i] == all[i];
    assert (k < |left| ==> left[k] == all[k]) && (m < |left| ==> left[m] == all[m]);
    assert left[..k] == all[..m];
  }

  lemma SwapKeepsShelf(site: Site, h: Shelf, h': Shelf, next: Catalogue)
    requires ShelfInv(site, h) && Swaps(site, h, h', next)
    ensures ShelfInv(site, h')
  {
    var newer := if h.current.Some? then [Retired(h.current.value, next.loadedAt)] else [];
    assert newer + h.ever == h'.ever;
    SweptAgain(site, h.ever, h.now, next.loadedAt, |h.retired|, newer);
    SweptKeeps(site, h'.ever, next.loadedAt);
  }

  lemma SweepKeepsShelf(site: Site, h: Shelf, h': Shelf)
    requires ShelfInv(site, h) && Sweeps(site, h, h')
    ensures ShelfInv(site, h')
  {
    assert [] + h.ever == h.ever && [] + h.retired == h.retired;
    SweptAgain(site, h.ever, h.now, h'.now, |h.retired|, []);
    SweptKeeps(site, h'.ever, h'.now);
  }

  lemma {:induction false} HistoryKeepsShelf(site: Site, shelves: seq<Shelf>, k: nat)
    requires IsHistory(site, shelves) && k < |shelves|
    ensures ShelfInv(site, shelves[k])
  {
    if k == 0 {
      assert shelves[0].ever == [];
    } else {
      HistoryKeepsShelf(site, shelves, k - 1);
      var h, h' := shelves[k - 1], shelves[k];
      assert shelves[k - 1 + 1] == h';
      if next :| Swaps(site, h, h', next) {
        SwapKeepsShelf(site, h, h', next);
      } else {
        SweepKeepsShelf(site, h, h');
      }
    }
  }

  /** In every run of swaps and sweeps, of all generations ever superseded exactly those are held that are among the
      newest few and were loaded less than a TTL before the store last looked at the clock. */
  lemma HeldExactly(site: Site, shelves: seq<Shelf>, k: nat, i: nat)
    requires IsHistory(site, shelves) && k < |shelves| && i < |shelves[k].ever|
    ensures var h := shelves[k];
            && (i < |h.retired| <==> i < site.keepDepth && h.ever[i].cat.loadedAt > h.now - site.ttl)
            && |h.retired| <= |h.ever| && h.retired == h.ever[..|h.retired|]
  {
    HistoryKeepsShelf(site, shelves, k);
    var h := shelves[k];
    assert Keeps(site, h.ever, h.now, |h.retired|);
    assert i < |h.retired| <==> i < site.keepDepth && h.ever[i].cat.loadedAt > h.now - site.ttl;
  }

  /** Retention as it is documented: for a TTL after being superseded. */
  predicate Documented(site: Site, h: Shelf, i: nat)
    requires i < |h.ever|
  {
    i < site.keepDepth && h.ever[i].at > h.now - site.ttl
  }

  /** The code never holds what the documentation says is dropped, and meets it for a generation except from a TTL
      after it was loaded until a TTL after it was superseded. */
  lemma RetentionAsDocumented(site: Site, shelves: seq<Shelf>, k: nat, i: nat)
    requires IsHistory(site, shelves) && k < |shelves| && i < |shelves[k].ever|
    ensures var h := shelves[k];
            var r := h.ever[i];
            && (i < |h.retired| ==> Documented(site, h, i))
            && ((i < |h.retired| <==> Documented(site, h, i)) <==>
                !(i < site.keepDepth && r.cat.loadedAt + site.ttl <= h.now < r.at + site.ttl))
  {
    HeldExactly(site, shelves, k, i);
    HistoryKeepsShelf(site, shelves, k);
    assert shelves[k].ever[i].cat.loadedAt <= shelves[k].ever[i].at;
  }

  /** A generation that served for a TTL or longer is dropped by the very swap that supersedes it. */
  lemma DroppedWhenSuperseded(site: Site, a: Body, b: Body)
    requires site.keepDepth > 0 && site.ttl > 0 && site.digest(a) != site.digest(b)
    ensures var old_, next := Catalogue(0, a, 0), Catalogue(1, b, site.ttl);
            var h0 := Shelf(None, [], [], 0);
            var h1 := Shelf(Some(old_), [], [], 0);
            var h2 := Shelf(Some(next), [], [Retired(old_, site.ttl)], site.ttl);
            IsHistory(site, [h0, h1, h2]) && Documented(site, h2, 0)
  {
    var old_, next := Catalogue(0, a, 0), Catalogue(1, b, site.ttl);
    var h0 := Shelf(None, [], [], 0);
    var h1 := Shelf(Some(old_), [], [], 0);
    var h2 := Shelf(Some(next), [], [Retired(old_, site.ttl)], site.ttl);
    var r := Retired(old_, site.ttl);
    assert [r] + [] == [r];
    assert Swaps(site, h0, h1, old_);
    assert Recent([r], 0) == [] + Recent([r][1..], 0);
    assert Shelved(site, Some(old_), [], next) == [];
    assert Swaps(site, h1, h2, next);
  }

  // ---- the poller

  datatype Read = TooLarge | Unreadable | Content(body: Body)

  /** What one poll meets. `admits` and `governs` are what this deployment answers about any bytes it is asked
      about during the poll; a later poll may be answered otherwise. */
  datatype Poll = Poll(
    etag: Option<string>, read: Read, admits: Body -> bool, governs: Body -> bool, prepares: bool, now: int)

  /** An object this poller would not take; no body when it could not be read at all. */
  datatype Refusal = Refusal(etag: string, body: Option<Body>, digest: string)

  const NOTHING := Refusal("", None, "")

  datatype Outcome = Unchanged | Swapped | Kept

  /** `chain` is the generation whose chain is published, `taxonomy` the one the fallback taxonomy is of. */
  datatype State = State(
    etag: string, last: Refusal, current: Option<Catalogue>, retired: seq<Retired>, chain: Option<Catalogue>,
    taxonomy: Option<Body>, serial: nat)

  datatype Step = Step(s: State, outcome: Outcome, read: bool)

  /** A candidate passes every check that can refuse it, on these exact bytes. */
  predicate Vetted(site: Site, b: Body, p: Poll) {
    site.loads(b) && site.taxonomy(b) && p.admits(b) && p.governs(b) && WithinCeiling(site, b)
  }

  predicate Serving(site: Site, s: State, digest: string) {
    s.current.Some? && site.digest(s.current.value.body) == digest
  }

  function Judged(site: Site, s: State, e: string, b: Body, digest: string, p: Poll, read: bool): Step {
    if Serving(site, s, digest) then Step(s.(last := NOTHING, etag := e), Unchanged, read)
    else if !Vetted(site, b, p) then Step(s.(last := Refusal(e, Some(b), digest)), Kept, read)
    else
      var next := Catalogue(s.serial, b, p.now);
      Step(State(e, NOTHING, Some(next), Shelved(site, s.current, s.retired, next),
                 Published(s.chain, next, p), Some(b), s.serial + 1), Swapped, read)
  }

  /** The chain prepared for a new generation, where it is prepared and nothing later has been. */
  function Published(chain: Option<Catalogue>, next: Catalogue, p: Poll): Option<Catalogue> {
    if p.prepares && NotOlder(next, chain) then Some(next) else chain
  }

  /** What one poll does. */
  function Polled(site: Site, s: State, p: Poll): Step {
    if p.etag.None? || p.etag.value == "" then Step(s, Kept, false)
    else
      var e := p.etag.value;
      if e == s.etag then Step(s.(last := NOTHING), Unchanged, false)
      else if s.last.etag == e then
        if s.last.body.None? then Step(s, Kept, false)
        else Judged(site, s, e, s.last.body.value, s.last.digest, p, false)
      else match p.read
        case TooLarge => Step(s.(last := Refusal(e, None, "")), Kept, true)
        case Unreadable => Step(s.(last := NOTHING), Kept, true)
        case Content(b) => Judged(site, s, e, b, site.digest(b), p, true)
  }

  class Poller {
    const store: Store
    var etag: string
    var last: Refusal
    var chain: Option<Catalogue>
    var taxonomy: Option<Body>

    ghost function View(): State
      reads this, store
    {
      State(etag, last, store.current, store.retired, chain, taxonomy, store.serial)
    }

    constructor (store: Store, chain: Option<Catalogue>, taxonomy: Option<Body>)
      ensures this.store == store
      ensures View() == State("", NOTHING, store.current, store.retired, chain, taxonomy, store.serial)
    {
      this.store := store;
      etag, last := "", NOTHING;
      this.chain, this.taxonomy := chain, taxonomy;
    }

    /** Reads at most once, judges those bytes, and swaps in those bytes. */
    method Once(p: Poll) returns (outcome: Outcome, read: bool)
      requires last.body.Some? ==> last.digest == store.site.digest(last.body.value)
      modifies this, store
      ensures Step(View(), outcome, read) == Polled(store.site, old(View()), p)
    {
      read := false;
      if p.etag.None? || p.etag.value == "" {
        return Kept, false;
      }
      var e := p.etag.value;
      if e == etag {
        last := NOTHING;
        return Unchanged, false;
      }
      var body, digest := last.body, last.digest;
      if last.etag == e {
        if body.None? {
          return Kept, false;
        }
      } else {
        last := NOTHING;
        read := true;
        match p.read {
          case TooLarge =>
            last := Refusal(e, None, "");
            return Kept, true;
          case Unreadable =>
            return Kept, true;
          case Content(b) =>
            body, digest := Some(b), store.site.digest(b);
        }
      }
      if store.current.Some? && store.site.digest(store.current.value.body) == digest {
        last, etag := NOTHING, e;
        return Unchanged, read;
      }
      last := Refusal(e, body, digest);
      var b := body.value;
      if !store.site.loads(b) || !store.site.taxonomy(b) || !p.admits(b) || !p.governs(b) {
        return Kept, read;
      }
      var swapped := store.Install(b, p.now);
      if swapped.None? {
        return Kept, read;
      }
      if p.prepares && NotOlder(swapped.value, chain) {
        chain := swapped;
      }
      taxonomy := Some(swapped.value.body);
      last, etag := NOTHING, e;
      return Swapped, read;
    }
  }

  // ---- every run of polls

  ghost predicate IsRun(site: Site, states: seq<State>, polls: seq<Poll>) {
    && |states| == |polls| + 1
    && forall i | 0 <= i < |polls| :: states[i + 1] == Polled(site, states[i], polls[i]).s
  }

  ghost predicate Booted(site: Site, s: State) {
    && s.last == NOTHING && s.current.Some? && s.taxonomy == Some(s.current.value.body)
    && site.loads(s.current.value.body) && site.taxonomy(s.current.value.body)
    && WithinCeiling(site, s.current.value.body)
  }

  ghost predicate Inv(site: Site, s: State) {
    && (s.last.body.Some? ==> s.last.digest == site.digest(s.last.body.value))
    && s.current.Some? && s.taxonomy == Some(s.current.value.body)
    && site.loads(s.current.value.body) && site.taxonomy(s.current.value.body)
    && WithinCeiling(site, s.current.value.body)
  }

  /** After every poll what serves is loadable and within the ceiling, and the fallback taxonomy is its own. */
  lemma {:induction false} AlwaysServingWhatLoads(site: Site, states: seq<State>, polls: seq<Poll>, k: nat)
    requires IsRun(site, states, polls) && Booted(site, states[0]) && k <= |polls|
    ensures Inv(site, states[k])
  {
    if k > 0 {
      AlwaysServingWhatLoads(site, states, polls, k - 1);
    }
  }

  /** Of these bytes: they load, their taxonomy compiles, this deployment admits and can govern them, and they
      declare no more tools than the ceiling, where there is one. */
  ghost predicate AllSaidYes(site: Site, b: Body, p: Poll) {
    && site.loads(b) && site.taxonomy(b) && p.admits(b) && p.governs(b)
    && (site.maxTools == 0 || site.tools(b) <= site.maxTools)
  }

  /** The bytes a poll has to judge: those read under a new ETag, or those held under a refused one. */
  ghost function Candidate(s: State, p: Poll): Option<Body> {
    if p.etag.None? || p.etag.value == "" || p.etag.value == s.etag then None
    else if p.etag.value == s.last.etag then s.last.body
    else if p.read.Content? then Some(p.read.body)
    else None
  }

  /** A poll reads exactly when it sees an object it neither serves nor remembers refusing, and swaps exactly when
      there are bytes to judge, they are not the bytes serving, and every check says yes of them; then they serve,
      with their own taxonomy, their own chain unless a later one is there, and what they replace is retired. What was
      refused is remembered, with its bytes where it has any; what could not be read is not. */
  lemma SwapsExactly(site: Site, s: State, p: Poll)
    requires Inv(site, s)
    ensures var r, c := Polled(site, s, p), Candidate(s, p);
            && (r.read <==> p.etag.Some? && p.etag.value !in {"", s.etag, s.last.etag})
            && (r.outcome == Swapped <==>
                c.Some? && site.digest(c.value) != site.digest(s.current.value.body) && AllSaidYes(site, c.value, p))
            && (r.outcome == Unchanged <==>
                || (p.etag == Some(s.etag) && s.etag != "")
                || (c.Some? && site.digest(c.value) == site.digest(s.current.value.body)))
            && (r.outcome == Kept && c.Some? ==> r.s.last == Refusal(p.etag.value, c, site.digest(c.value)))
            && (r.read && p.read.TooLarge? ==> r.s.last == Refusal(p.etag.value, None, ""))
            && (r.read && p.read.Unreadable? ==> r.outcome == Kept && r.s.last.etag == "" && r.s.etag == s.etag)
            && (r.outcome == Swapped ==>
                  var next := Catalogue(s.serial, c.value, p.now);
                  && r.s.current == Some(next) && r.s.taxonomy == Some(c.value) && Some(r.s.etag) == p.etag
                  && r.s.retired == Shelved(site, s.current, s.retired, next)
                  && r.s.chain == if p.prepares && (s.chain.None? || s.chain.value.loadedAt <= p.now)
                                  then Some(next) else s.chain)
  {
  }

  /** Nothing but a swap changes what is served, and only fully vetted bytes are swapped in. */
  lemma OnlyVettedBytesSwap(site: Site, s: State, p: Poll)
    requires Inv(site, s)
    ensures var r := Polled(site, s, p);
            && (r.outcome != Swapped ==>
                  && r.s.current == s.current && r.s.retired == s.retired && r.s.serial == s.serial
                  && r.s.chain == s.chain && r.s.taxonomy == s.taxonomy)
            && (r.outcome == Swapped ==>
                  && r.s.current.Some? && r.s.current != s.current && AllSaidYes(site, r.s.current.value.body, p)
                  && (if r.read then p.read == Content(r.s.current.value.body)
                      else p.etag == Some(s.last.etag) && s.last.body == Some(r.s.current.value.body)))
  {
  }

  /** A poll that saw this object, or could not see. */
  predicate SawOnly(p: Poll, e: string) {
    p.etag == None || p.etag == Some("") || p.etag == Some(e)
  }

  /** The bytes of a remembered refusal were read under the same ETag, and every poll since saw nothing else. */
  lemma {:induction false} HeldBytesWereRead(site: Site, states: seq<State>, polls: seq<Poll>, k: nat)
    requires IsRun(site, states, polls) && Booted(site, states[0]) && k <= |polls| && states[k].last != NOTHING
    ensures var held := states[k].last;
            exists j | 0 <= j < k ::
              && polls[j].etag == Some(held.etag)
              && polls[j].read == (if held.body.Some? then Content(held.body.value) else TooLarge)
              && Polled(site, states[j], polls[j]).read
              && forall i | j < i < k :: SawOnly(polls[i], held.etag)
  {
    if k > 0 {
      var s, p := states[k - 1], polls[k - 1];
      var held := states[k].last;
      AlwaysServingWhatLoads(site, states, polls, k - 1);
      if !Polled(site, s, p).read {
        assert s.last.etag == held.etag && s.last.body == held.body;
        HeldBytesWereRead(site, states, polls, k - 1);
      } else {
        assert polls[k - 1].etag == Some(held.etag);
      }
    }
  }

  /** The bytes `b` were judged at poll `j`, and read then or earlier under the ETag poll `j` saw. */
  ghost predicate JudgedAsRead(site: Site, states: seq<State>, polls: seq<Poll>, b: Body, j: nat)
    requires IsRun(site, states, polls) && j < |polls|
  {
    exists i | 0 <= i <= j ::
      polls[i].etag == polls[j].etag && polls[i].read == Content(b) && Polled(site, states[i], polls[i]).read
  }

  /** What serves after any number of polls is what the process booted with, or bytes that were read from
      the source and, as they were read, passed every check in the very poll that swapped them in. */
  lemma {:induction false} WhatServesWasVetted(site: Site, states: seq<State>, polls: seq<Poll>, k: nat)
    requires IsRun(site, states, polls) && Booted(site, states[0]) && k <= |polls|
    ensures states[k].current == states[0].current || exists j | 0 <= j < k ::
              && states[j + 1].current == states[k].current && Polled(site, states[j], polls[j]).outcome == Swapped
              && AllSaidYes(site, states[k].current.value.body, polls[j])
              && JudgedAsRead(site, states, polls, states[k].current.value.body, j)
  {
    if k > 0 {
      WhatServesWasVetted(site, states, polls, k - 1);
      AlwaysServingWhatLoads(site, states, polls, k - 1);
      OnlyVettedBytesSwap(site, states[k - 1], polls[k - 1]);
      var r := Polled(site, states[k - 1], polls[k - 1]);
      if r.outcome == Swapped {
        if !r.read {
          HeldBytesWereRead(site, states, polls, k - 1);
        }
        assert JudgedAsRead(site, states, polls, states[k].current.value.body, k - 1);
      }
    }
  }

  /** The object is remembered as refused, or is what serves. */
  predicate Knows(s: State, e: string) {
    e != "" && (s.last.etag == e || s.etag == e)
  }

  /** Once an object has been refused and remembered it is not read again for as long as the polls see it
      and no other. */
  lemma {:induction false} ARefusalIsNotReadAgain(
      site: Site, states: seq<State>, polls: seq<Poll>, e: string, j: nat, k: nat)
    requires IsRun(site, states, polls) && j <= k <= |polls| && Knows(states[j], e)
    requires forall i | j <= i < k :: SawOnly(polls[i], e)
    ensures Knows(states[k], e) && forall i | j <= i < k :: !Polled(site, states[i], polls[i]).read
    decreases k - j
  {
    if j < k {
      ARefusalIsNotReadAgain(site, states, polls, e, j + 1, k);
    }
  }
}
