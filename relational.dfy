/**
 * The relational operations the dashboard queries are built from, over
 * columns given as sequences: COUNT(*) with a `WHERE column IN (...)`
 * filter, and COUNT(*) with GROUP BY.
 */
module Relational {

  /** The number of entries of `column` that lie in `values`. */
  function CountIn<T(==)>(column: seq<T>, values: set<T>): (n: nat)
    ensures n <= |column|
    decreases |column|
  {
    if column == [] then 0
    else CountIn(column[..|column| - 1], values) + (if column[|column| - 1] in values then 1 else 0)
  }

  /** Counting against one more value adds exactly that value's occurrences. */
  lemma {:induction false} CountInAddValue<T>(column: seq<T>, values: set<T>, v: T)
    requires v !in values
    ensures CountIn(column, values + {v}) == CountIn(column, values) + multiset(column)[v]
    decreases |column|
  {
    if column != [] {
      var init, last := column[..|column| - 1], column[|column| - 1];
      assert column == init + [last];
      CountInAddValue(init, values, v);
    }
  }

  /** A count against a single value is that value's multiplicity. */
  lemma CountInSingle<T>(column: seq<T>, v: T)
    ensures CountIn(column, {v}) == multiset(column)[v]
  {
    CountInAddValue(column, {}, v);
    assert {} + {v} == {v};
    CountInNothing(column);
  }

  /** Nothing is counted against the empty set of values. */
  lemma {:induction false} CountInNothing<T>(column: seq<T>)
    ensures CountIn(column, {}) == 0
    decreases |column|
  {
    if column != [] {
      CountInNothing(column[..|column| - 1]);
    }
  }

  /** A count against two different values is the sum of their multiplicities. */
  lemma CountInPair<T>(column: seq<T>, a: T, b: T)
    requires a != b
    ensures CountIn(column, {a, b}) == multiset(column)[a] + multiset(column)[b]
  {
    CountInSingle(column, a);
    CountInAddValue(column, {a}, b);
    assert {a} + {b} == {a, b};
  }

  /** When every entry lies in `values`, every entry is counted. */
  lemma {:induction false} CountInAll<T>(column: seq<T>, values: set<T>)
    requires forall i :: 0 <= i < |column| ==> column[i] in values
    ensures CountIn(column, values) == |column|
    decreases |column|
  {
    if column != [] {
      CountInAll(column[..|column| - 1], values);
    }
  }

  /** One output row of COUNT(*) ... GROUP BY: a key and the number of input rows carrying it. */
  datatype Group<K> = Group(key: K, count: nat)

  predicate DistinctKeys<K(==)>(groups: seq<Group<K>>) {
    forall i, j :: 0 <= i < j < |groups| ==> groups[i].key != groups[j].key
  }

  predicate HasKey<K(==)>(groups: seq<Group<K>>, k: K) {
    exists i :: 0 <= i < |groups| && groups[i].key == k
  }

  function SumCounts<K>(groups: seq<Group<K>>): nat
    decreases |groups|
  {
    if groups == [] then 0 else groups[0].count + SumCounts(groups[1..])
  }

  /** The count of the group of `k`, or 0 when there is none. */
  function Lookup<K(==)>(groups: seq<Group<K>>, k: K): nat
    decreases |groups|
  {
    if groups == [] then 0
    else if groups[0].key == k then groups[0].count
    else Lookup(groups[1..], k)
  }

  lemma HasKeyCons<K>(groups: seq<Group<K>>, k: K)
    requires groups != []
    ensures HasKey(groups, k) <==> groups[0].key == k || HasKey(groups[1..], k)
  {
    if HasKey(groups, k) && groups[0].key != k {
      var i :| 0 <= i < |groups| && groups[i].key == k;
      assert groups[1..][i - 1].key == k;
    }
    if HasKey(groups[1..], k) {
      var i :| 0 <= i < |groups[1..]| && groups[1..][i].key == k;
      assert groups[i + 1].key == k;
    }
  }

  /**
   * Account for one more input row with key `k`: the group of `k` gains one,
   * or a new group for `k` is opened after the existing ones.
   */
  function Bump<K(==)>(groups: seq<Group<K>>, k: K): seq<Group<K>>
    decreases |groups|
  {
    if groups == [] then [Group(k, 1)]
    else if groups[0].key == k then [Group(k, groups[0].count + 1)] + groups[1..]
    else [groups[0]] + Bump(groups[1..], k)
  }

  /** Bumping `k` adds one row to the group of `k` and to no other group. */
  lemma {:induction false} BumpLookup<K>(groups: seq<Group<K>>, k: K, x: K)
    ensures Lookup(Bump(groups, k), x) == Lookup(groups, x) + (if x == k then 1 else 0)
    decreases |groups|
  {
    if groups != [] && groups[0].key != k {
      BumpLookup(groups[1..], k, x);
      assert Bump(groups, k)[1..] == Bump(groups[1..], k);
    }
  }

  /** Bumping `k` keeps every group and adds a group for `k` when there was none. */
  lemma {:induction false} BumpKeys<K>(groups: seq<Group<K>>, k: K, x: K)
    ensures HasKey(Bump(groups, k), x) <==> HasKey(groups, x) || x == k
    decreases |groups|
  {
    var r := Bump(groups, k);
    if groups == [] {
      assert r[0].key == k;
    } else {
      HasKeyCons(r, x);
      HasKeyCons(groups, x);
      if groups[0].key == k {
        assert r[1..] == groups[1..];
      } else {
        assert r[1..] == Bump(groups[1..], k);
        BumpKeys(groups[1..], k, x);
      }
    }
  }

  /** Bumping keeps the keys distinct and adds one to the total. */
  lemma {:induction false} BumpDistinct<K>(groups: seq<Group<K>>, k: K)
    requires DistinctKeys(groups)
    ensures DistinctKeys(Bump(groups, k))
    ensures SumCounts(Bump(groups, k)) == SumCounts(groups) + 1
    decreases |groups|
  {
    var r := Bump(groups, k);
    if groups != [] {
      if groups[0].key == k {
        assert r[1..] == groups[1..];
      } else {
        assert r[1..] == Bump(groups[1..], k);
        BumpDistinct(groups[1..], k);
        forall x | HasKey(r[1..], x) ensures x != groups[0].key {
          BumpKeys(groups[1..], k, x);
        }
        forall i, j | 0 <= i < j < |r| ensures r[i].key != r[j].key {
          if i == 0 {
            assert r[1..][j - 1].key == r[j].key;
            assert HasKey(r[1..], r[j].key);
          } else {
            assert r[1..][i - 1] == r[i] && r[1..][j - 1] == r[j];
          }
        }
      }
    }
  }

  /** COUNT(*) ... GROUP BY over the key column, groups in order of first appearance. */
  function GroupCounts<K(==)>(keys: seq<K>): seq<Group<K>>
    decreases |keys|
  {
    if keys == [] then [] else Bump(GroupCounts(keys[..|keys| - 1]), keys[|keys| - 1])
  }

  /**
   * The grouping has one group per distinct key, the group of a key counts
   * the rows carrying it, and the counts together cover every row.
   */
  lemma {:induction false} GroupCountsTally<K>(keys: seq<K>)
    ensures DistinctKeys(GroupCounts(keys))
    ensures SumCounts(GroupCounts(keys)) == |keys|
    ensures forall x :: HasKey(GroupCounts(keys), x) <==> x in keys
    ensures forall x :: Lookup(GroupCounts(keys), x) == multiset(keys)[x]
    decreases |keys|
  {
    if keys != [] {
      var init, k := keys[..|keys| - 1], keys[|keys| - 1];
      assert keys == init + [k];
      GroupCountsTally(init);
      BumpDistinct(GroupCounts(init), k);
      forall x ensures HasKey(GroupCounts(keys), x) <==> x in keys {
        BumpKeys(GroupCounts(init), k, x);
      }
      forall x ensures Lookup(GroupCounts(keys), x) == multiset(keys)[x] {
        BumpLookup(GroupCounts(init), k, x);
      }
    }
  }

  /** With distinct keys, the count stored at a position is the count looked up by its key. */
  lemma {:induction false} LookupAt<K>(groups: seq<Group<K>>, i: nat)
    requires DistinctKeys(groups) && i < |groups|
    ensures Lookup(groups, groups[i].key) == groups[i].count
    decreases i
  {
    if i > 0 {
      assert groups[1..][i - 1] == groups[i];
      LookupAt(groups[1..], i - 1);
    }
  }

  /**
   * Each group of COUNT(*) ... GROUP BY holds exactly the rows with its key,
   * which is at least one row; every key present in the column has a group;
   * no key has two; and the counts sum to the number of rows.
   */
  lemma GroupCountsSpec<K>(keys: seq<K>)
    ensures var groups := GroupCounts(keys);
      DistinctKeys(groups)
      && (forall i :: 0 <= i < |groups| ==> groups[i].count == multiset(keys)[groups[i].key] >= 1)
      && (forall x :: x in keys <==> HasKey(groups, x))
      && SumCounts(groups) == |keys|
  {
    var groups := GroupCounts(keys);
    GroupCountsTally(keys);
    forall i | 0 <= i < |groups| ensures groups[i].count == multiset(keys)[groups[i].key] >= 1 {
      LookupAt(groups, i);
      assert HasKey(groups, groups[i].key);
    }
  }
}
