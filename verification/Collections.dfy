/** Sorting and map traversal as the caches use them; Go leaves the order of ties and of map iteration open. */
module Collections {

  ghost predicate SortedBy<T>(s: seq<T>, key: T -> int) {
    forall i, j :: 0 <= i < j < |s| ==> key(s[i]) <= key(s[j])
  }

  function Insert<T>(s: seq<T>, x: T, key: T -> int): (r: seq<T>)
    ensures multiset(r) == multiset(s) + multiset{x}
  {
    if s == [] || key(s[|s| - 1]) <= key(x) then s + [x]
    else
      assert s == s[..|s| - 1] + [s[|s| - 1]];
      Insert(s[..|s| - 1], x, key) + [s[|s| - 1]]
  }

  lemma {:induction false} InsertKeepsSorted<T(!new)>(s: seq<T>, x: T, key: T -> int)
    requires SortedBy(s, key)
    ensures SortedBy(Insert(s, x, key), key)
    decreases |s|
  {
    if s != [] && key(s[|s| - 1]) > key(x) {
      var front, last := s[..|s| - 1], s[|s| - 1];
      InsertKeepsSorted(front, x, key);
      var r := Insert(front, x, key);
      forall i | 0 <= i < |r| ensures key(r[i]) <= key(last) {
        assert r[i] in multiset(r);
        assert r[i] in front || r[i] == x;
      }
    }
  }

  /** sort.Slice with a key comparison. */
  method SortBy<T(!new)>(s: seq<T>, key: T -> int) returns (r: seq<T>)
    ensures multiset(r) == multiset(s)
    ensures SortedBy(r, key)
  {
    r := [];
    for i := 0 to |s|
      invariant multiset(r) == multiset(s[..i])
      invariant SortedBy(r, key)
    {
      InsertKeepsSorted(r, s[i], key);
      r := Insert(r, s[i], key);
      assert s[..i + 1] == s[..i] + [s[i]];
    }
    assert s[..|s|] == s;
  }

  /** The values of m at the given keys that pass the filter. */
  function ValuesAt<K(==), V(==)>(m: map<K, V>, ks: set<K>, keep: V -> bool): set<V> {
    set k | k in ks && k in m && keep(m[k]) :: m[k]
  }

  /** Range over keys in some order, look each up, and append the values that pass the filter. */
  method Collect<K(==, !new), V(==, !new)>(m: map<K, V>, ks: set<K>, keep: V -> bool, ghost id: V -> K) returns (vs: seq<V>)
    requires forall k :: k in m ==> id(m[k]) == k
    ensures multiset(vs) == multiset(ValuesAt(m, ks, keep))
  {
    vs := [];
    var todo := ks;
    while todo != {}
      invariant todo <= ks
      invariant multiset(vs) == multiset(ValuesAt(m, ks - todo, keep))
      decreases |todo|
    {
      var k :| k in todo;
      ghost var before := ValuesAt(m, ks - todo, keep);
      todo := todo - {k};
      ghost var after := ValuesAt(m, ks - todo, keep);
      if k in m && keep(m[k]) {
        vs := vs + [m[k]];
        forall v | v in before ensures v != m[k] {
          var k' :| k' in ks - todo && k' != k && k' in m && m[k'] == v;
          assert id(m[k']) == k';
        }
        assert after == before + {m[k]};
      } else {
        assert after == before;
      }
    }
    assert ks - todo == ks;
  }
}
