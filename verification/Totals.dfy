/** Sums over the resources of a store, and how one write changes them. */
module Totals {
  import opened Resources

  type Store = map<Id, Resource>

  ghost function Total(s: Store, weight: Resource -> int): int {
    if s == map[] then 0
    else
      var id :| id in s;
      weight(s[id]) + Total(s - {id}, weight)
  }

  lemma {:induction false} TotalRemove(s: Store, id: Id, weight: Resource -> int)
    requires id in s
    ensures Total(s, weight) == weight(s[id]) + Total(s - {id}, weight)
    decreases |s|
  {
    var first :| first in s && Total(s, weight) == weight(s[first]) + Total(s - {first}, weight);
    if first != id {
      TotalRemove(s - {first}, id, weight);
      TotalRemove(s - {id}, first, weight);
      assert s - {first} - {id} == s - {id} - {first};
    }
  }

  function WeightAt(s: Store, id: Id, weight: Resource -> int): int {
    if id in s then weight(s[id]) else 0
  }

  /** A write replaces the weight at its id and touches no other. */
  lemma TotalWrite(s: Store, id: Id, r: Resource, weight: Resource -> int)
    ensures Total(s[id := r], weight) == Total(s, weight) - WeightAt(s, id, weight) + weight(r)
  {
    TotalRemove(s[id := r], id, weight);
    if id in s {
      TotalRemove(s, id, weight);
      assert s[id := r] - {id} == s - {id};
    } else {
      assert s[id := r] - {id} == s;
    }
  }

  lemma {:induction false} TotalNonNegative(s: Store, weight: Resource -> int)
    requires forall id :: id in s ==> 0 <= weight(s[id])
    ensures 0 <= Total(s, weight)
    decreases |s|
  {
    if s != map[] {
      var id :| id in s;
      TotalRemove(s, id, weight);
      TotalNonNegative(s - {id}, weight);
    }
  }

  /** Two distinct entries never weigh more than the whole store. */
  lemma TotalCoversTwo(s: Store, a: Id, b: Id, weight: Resource -> int)
    requires forall id :: id in s ==> 0 <= weight(s[id])
    requires a in s && b in s && a != b
    ensures weight(s[a]) + weight(s[b]) <= Total(s, weight)
  {
    TotalRemove(s, a, weight);
    TotalRemove(s - {a}, b, weight);
    TotalNonNegative(s - {a} - {b}, weight);
  }

  lemma TotalCovers(s: Store, a: Id, weight: Resource -> int)
    requires forall id :: id in s ==> 0 <= weight(s[id])
    requires a in s
    ensures weight(s[a]) <= Total(s, weight)
  {
    TotalRemove(s, a, weight);
    TotalNonNegative(s - {a}, weight);
  }

  lemma {:induction false} TotalZero(s: Store, weight: Resource -> int)
    requires forall id :: id in s ==> weight(s[id]) == 0
    ensures Total(s, weight) == 0
    decreases |s|
  {
    if s != map[] {
      var id :| id in s;
      TotalRemove(s, id, weight);
      TotalZero(s - {id}, weight);
    }
  }
}
