/** The vocabulary every decision is made in: clearances, compartments and what a
    caller holds of each. `Allows` and the compartment registry come from another
    module of the system, so they are a value here, and `Lawful` says the few things
    about them that this daemon relies on. */
module Policy {

  datatype Option<+T> = None | Some(value: T)

  type Byte = b: int | 0 <= b < 256

  /** The enum's zero: the author, or the token, did not say. */
  const UNSPECIFIED: int := 0

  predicate Specified(clearance: int) {
    clearance > UNSPECIFIED
  }

  /** `allows(held, needed)` is the clearance predicate; `bit` numbers the declared compartments. */
  datatype Rules = Rules(allows: (int, int) -> bool, bit: map<string, nat>)

  /** Over specified clearances a caller is allowed only what it is at or above, more
      clearance never loses anything, and a lower demand is never harder to meet.
      Nothing is said about a held clearance that is unspecified. */
  ghost predicate Lawful(r: Rules) {
    && (forall h, n | Specified(h) && Specified(n) && r.allows(h, n) :: n <= h)
    && (forall h, h', n | Specified(h) && h <= h' && r.allows(h, n) :: r.allows(h', n))
    && (forall h, n, n' | Specified(h) && Specified(n') && n' <= n && r.allows(h, n) :: r.allows(h, n'))
    && (forall a, b | a in r.bit && b in r.bit && r.bit[a] == r.bit[b] :: a == b)
  }

  function Names(names: seq<string>): (s: set<string>)
    ensures forall n :: n in names <==> n in s
  {
    set n | n in names
  }

  /** Turns declared names into bits; one undeclared name fails the whole set. */
  function BitsOf(r: Rules, names: seq<string>): (bits: Option<set<nat>>)
    ensures bits.Some? <==> Names(names) <= r.bit.Keys
  {
    if forall n | n in names :: n in r.bit then
      Some(set n | n in names :: r.bit[n])
    else
      None
  }

  /** The lenient reading used for tokens: an undeclared name costs that name only. */
  function LenientBitsOf(r: Rules, names: seq<string>): set<nat> {
    set n | n in names && n in r.bit :: r.bit[n]
  }

  /** With an injective numbering, covering the bits is holding the names. */
  lemma CoversIsNames(r: Rules, held: seq<string>, needed: seq<string>)
    requires Lawful(r) && BitsOf(r, needed).Some?
    ensures BitsOf(r, needed).value <= LenientBitsOf(r, held) <==> Names(needed) <= Names(held)
  {
    var need, have := BitsOf(r, needed).value, LenientBitsOf(r, held);
    if need <= have {
      forall n | n in Names(needed)
        ensures n in Names(held)
      {
        assert r.bit[n] in need;
      }
    }
    if Names(needed) <= Names(held) {
      forall b | b in need
        ensures b in have
      {
        var n :| n in needed && r.bit[n] == b;
        assert n in Names(held);
      }
    }
  }

  /** The two things a field or a label asks of a caller. */
  datatype Shape = Shape(clearance: int, compartments: set<nat>)

  predicate Clears(r: Rules, s: Shape, clearance: int, compartments: set<nat>) {
    r.allows(s.clearance, clearance) && compartments <= s.compartments
  }

  /** `narrow` holds no more than `wide` in either dimension. */
  ghost predicate Within(narrow: Shape, wide: Shape) {
    && Specified(narrow.clearance)
    && narrow.clearance <= wide.clearance
    && narrow.compartments <= wide.compartments
  }

  lemma ClearsIsMonotone(r: Rules, narrow: Shape, wide: Shape, clearance: int, compartments: set<nat>)
    requires Lawful(r) && Within(narrow, wide)
    ensures Clears(r, narrow, clearance, compartments) ==> Clears(r, wide, clearance, compartments)
  {
  }
}
