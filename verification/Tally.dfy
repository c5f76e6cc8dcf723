/** Sums over the entries of a finite map. The protocol models use them to count
    the threads that stand at given program positions, so that a shared counter
    can be related to all threads at once. */
module Tally {

  /** The sum of `weight` over the values of `m`. */
  ghost function Total<T>(m: map<nat, T>, weight: T -> nat): nat
    decreases |m|
  {
    if m == map[] then 0
    else
      var k :| k in m;
      weight(m[k]) + Total(m - {k}, weight)
  }

  /** Any entry may be taken out first. */
  lemma {:induction false} TotalWithout<T>(m: map<nat, T>, weight: T -> nat, k: nat)
    requires k in m
    ensures Total(m, weight) == weight(m[k]) + Total(m - {k}, weight)
    decreases |m|
  {
    var j :| j in m && Total(m, weight) == weight(m[j]) + Total(m - {j}, weight);
    if j != k {
      TotalWithout(m - {j}, weight, k);
      TotalWithout(m - {k}, weight, j);
      assert m - {j} - {k} == m - {k} - {j};
    }
  }

  /** Changing or adding one entry moves the total by that entry alone. */
  lemma TotalUpdate<T>(m: map<nat, T>, weight: T -> nat, k: nat, v: T)
    ensures Total(m[k := v], weight)
         == Total(m, weight) - (if k in m then weight(m[k]) else 0) + weight(v)
  {
    TotalWithout(m[k := v], weight, k);
    assert m[k := v] - {k} == m - {k};
    if k in m {
      TotalWithout(m, weight, k);
    } else {
      assert m - {k} == m;
    }
  }

  /** The total is zero exactly when every entry weighs nothing. */
  lemma {:induction false} TotalZero<T>(m: map<nat, T>, weight: T -> nat)
    ensures Total(m, weight) == 0 <==> forall k :: k in m ==> weight(m[k]) == 0
  {
    if Total(m, weight) == 0 {
      forall k | k in m
        ensures weight(m[k]) == 0
      {
        TotalWithout(m, weight, k);
      }
    } else {
      var _ := TotalSome(m, weight);
    }
  }

  /** A positive total has an entry that carries weight. */
  lemma {:induction false} TotalSome<T>(m: map<nat, T>, weight: T -> nat) returns (k: nat)
    requires Total(m, weight) > 0
    ensures k in m && weight(m[k]) > 0
    decreases |m|
  {
    k :| k in m && Total(m, weight) == weight(m[k]) + Total(m - {k}, weight);
    if weight(m[k]) == 0 {
      k := TotalSome(m - {k}, weight);
    }
  }

  /** Some key is still unused. */
  lemma {:induction false} FreshKey(used: set<nat>) returns (k: nat)
    ensures k !in used
    ensures forall j :: j in used ==> j < k
    decreases used
  {
    if used == {} {
      k := 0;
    } else {
      var j :| j in used;
      var rest := used - {j};
      var i := FreshKey(rest);
      k := if i <= j then j + 1 else i;
      forall x | x in used
        ensures x < k
      {
        if x != j {
          assert x in rest;
        }
      }
    }
  }
}
