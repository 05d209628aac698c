/** A loaded generation of the catalogue, and the one order there is between generations. */
module Generations {
  import opened Policy

  type Body = string

  /** `serial` is its identity: two loads of the same bytes are two generations. */
  datatype Catalogue = Catalogue(serial: nat, body: Body, loadedAt: int)

  /** A chain may take the place of one for a generation loaded no later. */
  predicate NotOlder(next: Catalogue, published: Option<Catalogue>) {
    published.None? || published.value.loadedAt <= next.loadedAt
  }
}
