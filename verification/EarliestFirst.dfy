/** `SELECT ... ORDER BY expiry ASC LIMIT n`, over the expiry of every key that matches. */
module EarliestFirst {
  import opened Common

  /** How many of `n` rows a limit takes; in SQL a negative limit is no limit. */
  function Taken(n: nat, limit: int): (taken: nat)
    ensures taken <= n && (limit >= 0 ==> taken <= limit)
    ensures taken == n || taken == limit
  {
    if limit < 0 || n <= limit then n else limit
  }

  /** `ks` are distinct keys in order of expiry, none expiring after a key of `rest`. */
  ghost predicate TakesEarliest<K(!new)>(expiry: map<K, int>, ks: seq<K>, rest: set<K>) {
    && (forall i | 0 <= i < |ks| :: ks[i] in expiry) && rest <= expiry.Keys
    && (forall i, j | 0 <= i < j < |ks| :: ks[i] != ks[j])
    && (forall i, j | 0 <= i < j < |ks| :: expiry[ks[i]] <= expiry[ks[j]])
    && (forall i, k | 0 <= i < |ks| && k in rest :: expiry[ks[i]] <= expiry[k])
  }

  /** The earliest `limit` keys, each once, in order of expiry. */
  ghost predicate IsBatch<K(!new)>(expiry: map<K, int>, limit: int, ks: seq<K>) {
    && |ks| == Taken(|expiry.Keys|, limit)
    && Elements(ks) <= expiry.Keys
    && TakesEarliest(expiry, ks, expiry.Keys - Elements(ks))
  }

  /** Part of the way: `ks` have been taken and `rest` are left. */
  ghost predicate Selecting<K(!new)>(expiry: map<K, int>, ks: seq<K>, rest: set<K>) {
    && rest !! Elements(ks) && rest + Elements(ks) == expiry.Keys
    && |rest| + |ks| == |expiry.Keys|
    && TakesEarliest(expiry, ks, rest)
  }

  lemma TakeNext<K(!new)>(expiry: map<K, int>, ks: seq<K>, rest: set<K>, first: K)
    requires TakesEarliest(expiry, ks, rest) && first in rest && rest !! Elements(ks)
    requires forall k <- rest :: expiry[first] <= expiry[k]
    ensures TakesEarliest(expiry, ks + [first], rest - {first})
    ensures Elements(ks + [first]) == Elements(ks) + {first}
  {
    assert forall i | 0 <= i < |ks| :: ks[i] in Elements(ks);
  }

  lemma SelectNext<K(!new)>(expiry: map<K, int>, ks: seq<K>, rest: set<K>, first: K)
    requires Selecting(expiry, ks, rest) && first in rest && forall k <- rest :: expiry[first] <= expiry[k]
    ensures Selecting(expiry, ks + [first], rest - {first})
  {
    TakeNext(expiry, ks, rest, first);
  }

  lemma SelectedIsBatch<K(!new)>(expiry: map<K, int>, limit: int, ks: seq<K>, rest: set<K>)
    requires Selecting(expiry, ks, rest) && |ks| == Taken(|expiry.Keys|, limit)
    ensures IsBatch(expiry, limit, ks)
  {
    assert rest == expiry.Keys - Elements(ks);
  }

  method EarliestOf<K(==)>(expiry: map<K, int>, keys: set<K>) returns (first: K)
    requires keys != {} && keys <= expiry.Keys
    ensures first in keys && forall k <- keys :: expiry[first] <= expiry[k]
  {
    first :| first in keys;
    var todo := keys - {first};
    while todo != {}
      invariant first in keys && todo <= keys
      invariant forall k <- keys - todo :: expiry[first] <= expiry[k]
    {
      var k :| k in todo;
      if expiry[k] < expiry[first] { first := k; }
      todo := todo - {k};
    }
  }

  method SelectEarliest<K(==,!new)>(expiry: map<K, int>, limit: int) returns (ks: seq<K>)
    ensures IsBatch(expiry, limit, ks)
  {
    var todo := expiry.Keys;
    var wanted := Taken(|todo|, limit);
    ks := [];
    while |ks| < wanted
      invariant |ks| <= wanted && Selecting(expiry, ks, todo)
    {
      var first := EarliestOf(expiry, todo);
      SelectNext(expiry, ks, todo, first);
      ks := ks + [first];
      todo := todo - {first};
    }
    SelectedIsBatch(expiry, limit, ks, todo);
  }

  lemma {:induction false} DistinctLength<K(!new)>(ks: seq<K>)
    requires forall i, j | 0 <= i < j < |ks| :: ks[i] != ks[j]
    ensures |Elements(ks)| == |ks|
  {
    if ks != [] {
      var rest, last := ks[..|ks| - 1], ks[|ks| - 1];
      DistinctLength(rest);
      assert ks == rest + [last];
      assert Elements(ks) == Elements(rest) + {last};
    }
  }

  lemma ElementsNext<K(!new)>(ks: seq<K>, i: nat)
    requires i < |ks|
    ensures Elements(ks[..i + 1]) == Elements(ks[..i]) + {ks[i]}
  {
    assert ks[..i + 1] == ks[..i] + [ks[i]];
  }
}
