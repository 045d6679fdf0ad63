/** Visiting a set of names in some order. */
module Orders {
  predicate Distinct(order: seq<string>) {
    forall i, j | 0 <= i < j < |order| :: order[i] != order[j]
  }

  /** Every name once, in any order. */
  ghost predicate Lists(order: seq<string>, names: set<string>) {
    (forall n :: n in order <==> n in names) && Distinct(order)
  }
}
