/**
 The LRU cache of include/lruCache.h: a recency list (front = most recently used) and a map.
 `Lru` is its value and the functions on it say what each operation does; `Recent` is the
 independent meaning: the keys ever used, latest use first.
 */
module LruCache {

  import opened Bytes

  datatype Lru<K, V> = Lru(keys: seq<K>, cache: map<K, V>)

  ghost predicate Distinct<T>(s: seq<T>) {
    forall i, j :: 0 <= i < j < |s| ==> s[i] != s[j]
  }

  /** List and map hold the same keys, each once. */
  ghost predicate Ok<K, V>(l: Lru<K, V>) {
    && Distinct(l.keys)
    && (forall k :: k in l.keys ==> k in l.cache)
    && (forall k :: k in l.cache ==> k in l.keys)
  }

  function Without<T(==)>(s: seq<T>, k: T): seq<T> {
    if s == [] then [] else if s[0] == k then Without(s[1..], k) else [s[0]] + Without(s[1..], k)
  }

  /** list::splice to the front. */
  function Touch<T(==)>(s: seq<T>, k: T): seq<T> { [k] + Without(s, k) }

  function Keep<K, V>(m: map<K, V>, keys: seq<K>): map<K, V> {
    map k | k in m && k in keys :: m[k]
  }

  function Get<K, V>(l: Lru<K, V>, k: K): Lru<K, V> {
    Lru(Touch(l.keys, k), l.cache)
  }

  /** Shrinks to `max` keys once `max + elasticity` is reached; `max == 0` means unbounded. */
  function Pruned<K, V>(l: Lru<K, V>, max: nat, elasticity: nat): Lru<K, V> {
    if max == 0 || |l.keys| < max + elasticity then l
    else Lru(l.keys[..max], Keep(l.cache, l.keys[..max]))
  }

  function Insert<K, V>(l: Lru<K, V>, k: K, v: V, max: nat, elasticity: nat): Lru<K, V> {
    if k in l.cache then Lru(Touch(l.keys, k), l.cache[k := v])
    else Pruned(Lru([k] + l.keys, l.cache[k := v]), max, elasticity)
  }

  // ----- lemmas on the recency list ------------------------------------------------------------

  lemma {:induction false} WithoutAbsent<T>(s: seq<T>, k: T)
    requires k !in s
    ensures Without(s, k) == s
  {
    if s != [] {
      assert s == [s[0]] + s[1..];
      WithoutAbsent(s[1..], k);
    }
  }

  lemma DistinctCons<T>(x: T, s: seq<T>)
    ensures Distinct([x] + s) <==> Distinct(s) && x !in s
  {
    var t := [x] + s;
    if Distinct(t) {
      assert t[1..] == s;
      assert forall i :: 0 <= i < |s| ==> t[0] != t[i + 1] == s[i];
      forall i, j | 0 <= i < j < |s| ensures s[i] != s[j] {
        assert t[i + 1] != t[j + 1];
      }
    }
  }

  lemma {:induction false} WithoutMembers<T>(s: seq<T>, k: T)
    requires Distinct(s)
    ensures Distinct(Without(s, k))
    ensures forall x :: x in Without(s, k) <==> x in s && x != k
    ensures |Without(s, k)| <= |s|
  {
    if s != [] {
      assert s == [s[0]] + s[1..];
      DistinctCons(s[0], s[1..]);
      WithoutMembers(s[1..], k);
      DistinctCons(s[0], Without(s[1..], k));
    }
  }

  /** The key at `i` is taken out and the later ones close up. */
  lemma {:induction false} WithoutAt<T>(s: seq<T>, i: nat)
    requires Distinct(s) && i < |s|
    ensures Without(s, s[i]) == s[..i] + s[i + 1..]
  {
    var k := s[i];
    if i == 0 {
      assert k !in s[1..];
      WithoutAbsent(s[1..], k);
      assert s[..0] + s[1..] == s[1..];
    } else {
      WithoutAt(s[1..], i - 1);
      assert s[1..][..i - 1] == s[1..i] && s[1..][i..] == s[i + 1..];
      assert [s[0]] + s[1..i] == s[..i];
    }
  }

  lemma GetOk<K, V>(l: Lru<K, V>, k: K)
    requires Ok(l) && k in l.cache
    ensures Ok(Get(l, k)) && |Get(l, k).keys| == |l.keys|
  {
    WithoutMembers(l.keys, k);
    var i :| 0 <= i < |l.keys| && l.keys[i] == k;
    WithoutAt(l.keys, i);
  }

  lemma PrunedOk<K, V>(l: Lru<K, V>, max: nat, elasticity: nat)
    requires Ok(l)
    ensures Ok(Pruned(l, max, elasticity))
  {
  }

  lemma InsertOk<K, V>(l: Lru<K, V>, k: K, v: V, max: nat, elasticity: nat)
    requires Ok(l)
    ensures Ok(Insert(l, k, v, max, elasticity))
    ensures elasticity == 0 < max && |l.keys| <= max ==> |Insert(l, k, v, max, elasticity).keys| <= max
  {
    if k in l.cache {
      GetOk(l, k);
    } else {
      PrunedOk(Lru([k] + l.keys, l.cache[k := v]), max, elasticity);
    }
  }

  lemma {:induction false} SizesAgree<K, V>(l: Lru<K, V>)
    requires Ok(l)
    ensures |l.cache| == |l.keys|
    decreases |l.keys|
  {
    if l.keys == [] {
      assert l.cache == map[];
    } else {
      var n := |l.keys| - 1;
      var k := l.keys[n];
      var l' := Lru(l.keys[..n], l.cache - {k});
      forall x ensures x in l'.keys <==> x in l'.cache {
        if x in l.keys {
          var i :| 0 <= i < |l.keys| && l.keys[i] == x;
          assert i < n ==> l'.keys[i] == x;
        }
      }
      SizesAgree(l');
      assert l.cache.Keys == l'.cache.Keys + {k};
    }
  }

  // ----- the cache object ----------------------------------------------------------------------

  class Cache<K(==), V> {
    var keys: seq<K>
    var cache: map<K, V>
    const maxSize: nat
    const elasticity: nat

    function Value(): Lru<K, V>
      reads this
    {
      Lru(keys, cache)
    }

    ghost predicate Valid()
      reads this
    {
      Ok(Value())
    }

    constructor (maxSize: nat, elasticity: nat)
      ensures Valid() && Value() == Lru([], map[])
      ensures this.maxSize == maxSize && this.elasticity == elasticity
    {
      this.maxSize, this.elasticity := maxSize, elasticity;
      keys, cache := [], map[];
    }

    method Size() returns (n: nat)
      requires Valid()
      ensures n == |keys|
    {
      n := |cache|;
      SizesAgree(Value());
    }

    method Contains(k: K) returns (b: bool)
      requires Valid()
      ensures b <==> k in keys
    {
      b := k in cache;
    }

    /** Value of the least recently used key. */
    method PruneValue() returns (v: V)
      requires Valid() && keys != []
      ensures keys[|keys| - 1] in cache && v == cache[keys[|keys| - 1]]
    {
      v := cache[keys[|keys| - 1]];
    }

    /** `None` stands for the KeyNotFound exception. */
    method GetValue(k: K) returns (r: Option<V>)
      requires Valid()
      modifies this
      ensures Valid()
      ensures k in old(cache) ==> r == Some(old(cache[k])) && Value() == Get(old(Value()), k)
      ensures k !in old(cache) ==> r == None && Value() == old(Value())
    {
      if k !in cache {
        return None;
      }
      GetOk(Value(), k);
      keys := Touch(keys, k);
      return Some(cache[k]);
    }

    method InsertValue(k: K, v: V)
      requires Valid()
      modifies this
      ensures Valid() && Value() == Insert(old(Value()), k, v, maxSize, elasticity)
    {
      InsertOk(Value(), k, v, maxSize, elasticity);
      if k in cache {
        cache := cache[k := v];
        keys := Touch(keys, k);
        return;
      }
      keys := [k] + keys;
      cache := cache[k := v];
      Prune();
    }

    /** Drops keys from the back of the list until `maxSize` are left. */
    method Prune()
      requires Valid()
      modifies this
      ensures Valid() && Value() == Pruned(old(Value()), maxSize, elasticity)
    {
      hide Ok, Keep;
      SizesAgree(Value());
      if maxSize == 0 || |cache| < maxSize + elasticity {
        return;
      }
      ghost var was := Value();
      KeepAll(was);
      while |cache| > maxSize
        invariant Valid() && |cache| == |keys| && maxSize <= |keys| <= |was.keys|
        invariant keys == was.keys[..|keys|] && cache == Keep(was.cache, keys)
      {
        DropLast(was, |keys|);
        SizesAgree(Value());
        cache := cache - {keys[|keys| - 1]};
        keys := keys[..|keys| - 1];
        SizesAgree(Value());
      }
    }
  }

  lemma KeepAll<K, V>(l: Lru<K, V>)
    requires Ok(l)
    ensures l.keys[..|l.keys|] == l.keys && Keep(l.cache, l.keys) == l.cache
  {
  }

  /** One round of prune: the last of the first `n` keys leaves list and map. */
  lemma DropLast<K, V>(l: Lru<K, V>, n: nat)
    requires Ok(l) && 0 < n <= |l.keys|
    ensures Ok(Lru(l.keys[..n - 1], Keep(l.cache, l.keys[..n - 1])))
    ensures l.keys[..n][..n - 1] == l.keys[..n - 1]
    ensures Keep(l.cache, l.keys[..n]) - {l.keys[n - 1]} == Keep(l.cache, l.keys[..n - 1])
  {
    var k := l.keys[n - 1];
    assert l.keys[..n] == l.keys[..n - 1] + [k];
    assert forall x :: x in l.keys[..n] <==> x in l.keys[..n - 1] || x == k;
    assert k !in l.keys[..n - 1];
  }

  // ----- what the list means -------------------------------------------------------------------

  /** The keys of a history of uses, latest use first, each once. */
  function Recent<K(==)>(uses: seq<K>): seq<K> {
    if uses == [] then [] else Touch(Recent(uses[..|uses| - 1]), uses[|uses| - 1])
  }

  datatype Op<K, V> = OpInsert(key: K, value: V) | OpGet(key: K)

  /** Effect of one operation on a cache with elasticity 0; a failing get changes nothing. */
  function Apply<K, V>(l: Lru<K, V>, op: Op<K, V>, max: nat): Lru<K, V> {
    match op
    case OpInsert(k, v) => Insert(l, k, v, max, 0)
    case OpGet(k) => if k in l.cache then Get(l, k) else l
  }

  /** Keys used by a run: every insert and every get that hits. */
  function Run<K, V>(ops: seq<Op<K, V>>, max: nat): (Lru<K, V>, seq<K>) {
    if ops == [] then (Lru([], map[]), [])
    else
      var n := |ops| - 1;
      var (l, uses) := Run(ops[..n], max);
      (Apply(l, ops[n], max), if ops[n].OpInsert? || ops[n].key in l.cache then uses + [ops[n].key] else uses)
  }

  lemma {:induction false} RecentDistinct<K>(uses: seq<K>)
    ensures Distinct(Recent(uses))
  {
    if uses != [] {
      var n := |uses| - 1;
      RecentDistinct(uses[..n]);
      WithoutMembers(Recent(uses[..n]), uses[n]);
      DistinctCons(uses[n], Without(Recent(uses[..n]), uses[n]));
    }
  }

  function Cut<T>(s: seq<T>, max: nat): seq<T> {
    if |s| <= max then s else s[..max]
  }

  /** Moving a key to the front and cutting the list commute, if the key survives the cut ... */
  lemma TouchPrefix<T>(s: seq<T>, k: T, max: nat)
    requires Distinct(s) && k in Cut(s, max)
    ensures Cut(Touch(s, k), max) == Touch(Cut(s, max), k)
  {
    var cut := Cut(s, max);
    var i :| 0 <= i < |cut| && cut[i] == k;
    assert s[i] == k;
    WithoutAt(s, i);
    WithoutAt(cut, i);
  }

  /** ... and if it does not, moving it is the same as a new key in front. */
  lemma TouchBeyond<T>(s: seq<T>, k: T, max: nat)
    requires Distinct(s) && k !in Cut(s, max) && max > 0
    ensures Cut(Touch(s, k), max) == Cut([k] + Cut(s, max), max)
  {
    if k in s {
      var i :| 0 <= i < |s| && s[i] == k;
      assert Cut(s, max) == s[..if |s| <= max then |s| else max];
      WithoutAt(s, i);
    } else {
      WithoutAbsent(s, k);
    }
  }

  lemma InsertedKeys<K, V>(l: Lru<K, V>, k: K, v: V, max: nat)
    requires Ok(l) && max > 0 && |l.keys| <= max
    ensures Insert(l, k, v, max, 0).keys == if k in l.keys then Touch(l.keys, k) else Cut([k] + l.keys, max)
  {
  }

  /** The cache always holds exactly the `max` most recently used keys, in order of last use. */
  lemma {:induction false} HoldsMostRecent<K, V>(ops: seq<Op<K, V>>, max: nat)
    requires max > 0
    ensures Ok(Run(ops, max).0) && Run(ops, max).0.keys == Cut(Recent(Run(ops, max).1), max)
  {
    if ops != [] {
      var n := |ops| - 1;
      var (l, uses) := Run(ops[..n], max);
      var op := ops[n];
      HoldsMostRecent(ops[..n], max);
      OneUse(l, uses, op, max);
    }
  }

  lemma SameKeys<K, V>(l: Lru<K, V>, k: K)
    requires Ok(l)
    ensures k in l.cache <==> k in l.keys
  {
  }

  lemma OneUse<K, V>(l: Lru<K, V>, uses: seq<K>, op: Op<K, V>, max: nat)
    requires max > 0 && Ok(l) && l.keys == Cut(Recent(uses), max)
    ensures Ok(Apply(l, op, max))
    ensures Apply(l, op, max).keys
         == Cut(Recent(if op.OpInsert? || op.key in l.cache then uses + [op.key] else uses), max)
  {
    hide Ok, Touch, Without, Insert;
    var r := Recent(uses);
    if op.OpInsert? || op.key in l.cache {
      RecentDistinct(uses);
      assert (uses + [op.key])[..|uses|] == uses;
      SameKeys(l, op.key);
      if op.OpInsert? {
        InsertOk(l, op.key, op.value, max, 0);
        InsertedKeys(l, op.key, op.value, max);
      } else {
        GetOk(l, op.key);
      }
      if op.key in l.keys {
        TouchPrefix(r, op.key, max);
      } else {
        TouchBeyond(r, op.key, max);
      }
    }
  }
}
