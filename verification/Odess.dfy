/**
 Odess (src/method/Odess.cc): ProcessTrace groups the chunks by their first super-feature, and
 Migratory writes the groups one after the other.
 */
module OdessMethod {
  import opened Bytes

  type Key = int

  datatype Chunk = Chunk(chunkID: nat, bytes: seq<Byte>)

  /** The chunks with a given key, in order of arrival. */
  function WithKey(key: seq<Byte> -> Key, chunks: seq<Chunk>, k: Key): seq<Chunk> {
    if chunks == [] then []
    else
      var c := chunks[|chunks| - 1];
      var front := WithKey(key, chunks[..|chunks| - 1], k);
      if key(c.bytes) == k then front + [c] else front
  }

  /** The keys in order of first appearance. */
  function KeyOrder(key: seq<Byte> -> Key, chunks: seq<Chunk>): seq<Key> {
    if chunks == [] then []
    else
      var front := KeyOrder(key, chunks[..|chunks| - 1]);
      var k := key(chunks[|chunks| - 1].bytes);
      if k in front then front else front + [k]
  }

  /** The groups of the listed keys, joined. */
  function Groups(key: seq<Byte> -> Key, chunks: seq<Chunk>, keys: seq<Key>): seq<Chunk> {
    if keys == [] then []
    else Groups(key, chunks, keys[..|keys| - 1]) + WithKey(key, chunks, keys[|keys| - 1])
  }

  /** What Migratory writes, as chunks. */
  function Regrouped(key: seq<Byte> -> Key, chunks: seq<Chunk>): seq<Chunk> {
    Groups(key, chunks, KeyOrder(key, chunks))
  }

  function Contents(chunks: seq<Chunk>): seq<Byte> {
    if chunks == [] then [] else Contents(chunks[..|chunks| - 1]) + chunks[|chunks| - 1].bytes
  }

  class Odess {
    const key: seq<Byte> -> Key           // superfeature[0]
    var hashTable: map<Key, seq<Chunk>>
    var insertionOrder: seq<Key>
    var uniquechunkNum: nat
    var logicalchunkSize: nat
    ghost var received: seq<Chunk>

    ghost predicate Valid()
      reads this
    {
      && uniquechunkNum == |received| && logicalchunkSize == |Contents(received)|
      && (forall i :: 0 <= i < |received| ==> received[i].chunkID == i)
      && insertionOrder == KeyOrder(key, received)
      && (forall i :: 0 <= i < |insertionOrder| ==> insertionOrder[i] in hashTable)
      && (forall k :: k in hashTable ==> k in insertionOrder)
      && (forall k :: k in hashTable ==> hashTable[k] == WithKey(key, received, k))
    }

    constructor (key: seq<Byte> -> Key)
      ensures Valid() && received == [] && this.key == key
    {
      this.key, hashTable, insertionOrder, uniquechunkNum, logicalchunkSize, received := key, map[], [], 0, 0, [];
    }

    /** One chunk from the queue. */
    method ProcessChunk(bytes: seq<Byte>)
      requires Valid()
      modifies this
      ensures Valid() && received == old(received) + [Chunk(|old(received)|, bytes)]
    {
      var c := Chunk(uniquechunkNum, bytes);
      Arrives(key, received, c);
      var firstFeature := key(bytes);
      uniquechunkNum := uniquechunkNum + 1;
      logicalchunkSize := logicalchunkSize + |bytes|;
      if firstFeature !in hashTable {
        AbsentKey(key, received, firstFeature);
        insertionOrder := insertionOrder + [firstFeature];
        hashTable := hashTable[firstFeature := []];
      }
      hashTable := hashTable[firstFeature := hashTable[firstFeature] + [c]];
      received := received + [c];
    }

    /** The inner loop of Migratory: the chunks of one group. */
    method WriteGroup(chunks: seq<Chunk>, before: seq<Byte>, ghost done: seq<Chunk>) returns (out: seq<Byte>)
      requires before == Contents(done)
      ensures out == Contents(done + chunks)
    {
      out := before;
      assert chunks[..0] == [] && done + [] == done;
      for j := 0 to |chunks|
        invariant out == Contents(done + chunks[..j])
      {
        ContentsPush(done + chunks[..j], chunks[j]);
        assert (done + chunks[..j]) + [chunks[j]] == done + chunks[..j + 1];
        out := out + chunks[j].bytes;
      }
      assert chunks[..|chunks|] == chunks;
    }

    /** Migratory */
    method Migratory() returns (out: seq<Byte>)
      requires Valid()
      ensures out == Contents(Regrouped(key, received))
    {
      hide Contents, WithKey, KeyOrder;
      out := [];
      NoContents();
      for i := 0 to |insertionOrder|
        invariant out == Contents(Groups(key, received, insertionOrder[..i]))
      {
        out := WriteGroup(hashTable[insertionOrder[i]], out, Groups(key, received, insertionOrder[..i]));
        assert insertionOrder[..i + 1][..i] == insertionOrder[..i];
      }
      assert insertionOrder[..|insertionOrder|] == insertionOrder;
    }
  }

  lemma NoContents()
    ensures Contents([]) == []
  {
  }

  lemma ContentsPush(chunks: seq<Chunk>, c: Chunk)
    ensures Contents(chunks + [c]) == Contents(chunks) + c.bytes
  {
    assert (chunks + [c])[..|chunks|] == chunks;
  }

  lemma Arrives(key: seq<Byte> -> Key, chunks: seq<Chunk>, c: Chunk)
    ensures Contents(chunks + [c]) == Contents(chunks) + c.bytes
    ensures forall k :: WithKey(key, chunks + [c], k) == if key(c.bytes) == k then WithKey(key, chunks, k) + [c] else WithKey(key, chunks, k)
    ensures KeyOrder(key, chunks + [c])
         == if key(c.bytes) in KeyOrder(key, chunks) then KeyOrder(key, chunks) else KeyOrder(key, chunks) + [key(c.bytes)]
  {
    assert (chunks + [c])[..|chunks|] == chunks;
  }

  lemma {:induction false} AbsentKey(key: seq<Byte> -> Key, chunks: seq<Chunk>, k: Key)
    requires k !in KeyOrder(key, chunks)
    ensures WithKey(key, chunks, k) == []
  {
    if chunks != [] {
      AbsentKey(key, chunks[..|chunks| - 1], k);
    }
  }

  // ----- what the regrouping is ----------------------------------------------------------------

  ghost predicate Distinct(keys: seq<Key>) {
    forall i, j :: 0 <= i < j < |keys| ==> keys[i] != keys[j]
  }

  /** Keys are listed once each, and exactly those that occur. */
  lemma {:induction false} KeysOnce(key: seq<Byte> -> Key, chunks: seq<Chunk>)
    ensures Distinct(KeyOrder(key, chunks))
    ensures forall i :: 0 <= i < |chunks| ==> key(chunks[i].bytes) in KeyOrder(key, chunks)
  {
    if chunks != [] {
      KeysOnce(key, chunks[..|chunks| - 1]);
    }
  }

  lemma {:induction false} GroupCounts(key: seq<Byte> -> Key, chunks: seq<Chunk>, k: Key, c: Chunk)
    ensures multiset(WithKey(key, chunks, k))[c] == if key(c.bytes) == k then multiset(chunks)[c] else 0
  {
    if chunks != [] {
      var n := |chunks| - 1;
      GroupCounts(key, chunks[..n], k, c);
      assert chunks == chunks[..n] + [chunks[n]];
    }
  }

  lemma {:induction false} GroupsCount(key: seq<Byte> -> Key, chunks: seq<Chunk>, keys: seq<Key>, c: Chunk)
    requires Distinct(keys)
    ensures multiset(Groups(key, chunks, keys))[c] == if key(c.bytes) in keys then multiset(chunks)[c] else 0
  {
    if keys != [] {
      var n := |keys| - 1;
      GroupsCount(key, chunks, keys[..n], c);
      GroupCounts(key, chunks, keys[n], c);
      assert keys == keys[..n] + [keys[n]];
    }
  }

  /** Nothing is lost or doubled: the output is a permutation of what was received. */
  lemma RegroupedIsPermutation(key: seq<Byte> -> Key, chunks: seq<Chunk>)
    ensures multiset(Regrouped(key, chunks)) == multiset(chunks)
    ensures |Regrouped(key, chunks)| == |chunks|
  {
    KeysOnce(key, chunks);
    forall c ensures multiset(Regrouped(key, chunks))[c] == multiset(chunks)[c] {
      GroupsCount(key, chunks, KeyOrder(key, chunks), c);
      if c in chunks {
        var i :| 0 <= i < |chunks| && chunks[i] == c;
      }
    }
    assert multiset(Regrouped(key, chunks)) == multiset(chunks);
    assert |multiset(Regrouped(key, chunks))| == |multiset(chunks)|;
  }

  lemma {:induction false} WithKeyConcat(key: seq<Byte> -> Key, a: seq<Chunk>, b: seq<Chunk>, k: Key)
    ensures WithKey(key, a + b, k) == WithKey(key, a, k) + WithKey(key, b, k)
    decreases |b|
  {
    if b == [] {
      assert a + b == a;
    } else {
      var n := |b| - 1;
      assert (a + b)[..|a| + n] == a + b[..n];
      WithKeyConcat(key, a, b[..n], k);
    }
  }

  lemma {:induction false} WithKeyTwice(key: seq<Byte> -> Key, chunks: seq<Chunk>, j: Key, k: Key)
    ensures WithKey(key, WithKey(key, chunks, j), k) == if j == k then WithKey(key, chunks, k) else []
  {
    if chunks != [] {
      var n := |chunks| - 1;
      var front := WithKey(key, chunks[..n], j);
      WithKeyTwice(key, chunks[..n], j, k);
      if key(chunks[n].bytes) == j {
        assert (front + [chunks[n]])[..|front|] == front;
      }
    }
  }

  lemma NoneWithKey(key: seq<Byte> -> Key, k: Key)
    ensures WithKey(key, [], k) == []
  {
  }

  lemma {:induction false} GroupsKeepOrder(key: seq<Byte> -> Key, chunks: seq<Chunk>, keys: seq<Key>, k: Key)
    requires Distinct(keys)
    ensures WithKey(key, Groups(key, chunks, keys), k) == if k in keys then WithKey(key, chunks, k) else []
  {
    hide WithKey;
    if keys == [] {
      NoneWithKey(key, k);
    } else {
      var n := |keys| - 1;
      GroupsKeepOrder(key, chunks, keys[..n], k);
      WithKeyConcat(key, Groups(key, chunks, keys[..n]), WithKey(key, chunks, keys[n]), k);
      WithKeyTwice(key, chunks, keys[n], k);
      assert keys == keys[..n] + [keys[n]];
    }
  }

  /** Within a group the order is the order of arrival. */
  lemma RegroupedIsStable(key: seq<Byte> -> Key, chunks: seq<Chunk>, k: Key)
    ensures WithKey(key, Regrouped(key, chunks), k) == WithKey(key, chunks, k)
  {
    KeysOnce(key, chunks);
    GroupsKeepOrder(key, chunks, KeyOrder(key, chunks), k);
    if k !in KeyOrder(key, chunks) {
      AbsentKey(key, chunks, k);
    }
  }

  /** Groups follow each other in the order in which their keys first appeared, so equal keys are
      next to each other: the key order of the output is the key order of the input, and each
      chunk's rank in it never falls along the output. */
  lemma {:induction false} RegroupedIsContiguous(key: seq<Byte> -> Key, chunks: seq<Chunk>, keys: seq<Key>, x: nat, y: nat)
    requires Distinct(keys) && x <= y < |Groups(key, chunks, keys)|
    ensures exists i, j :: 0 <= i <= j < |keys| && keys[i] == key(Groups(key, chunks, keys)[x].bytes)
                           && keys[j] == key(Groups(key, chunks, keys)[y].bytes)
    decreases |keys|
  {
    var n := |keys| - 1;
    var front, last := Groups(key, chunks, keys[..n]), WithKey(key, chunks, keys[n]);
    if y < |front| {
      RegroupedIsContiguous(key, chunks, keys[..n], x, y);
      var i, j :| 0 <= i <= j < n && keys[..n][i] == key(front[x].bytes) && keys[..n][j] == key(front[y].bytes);
      assert keys[i] == keys[..n][i] && keys[j] == keys[..n][j];
    } else {
      GroupHasKey(key, chunks, keys[n], y - |front|);
      if x < |front| {
        RegroupedIsContiguous(key, chunks, keys[..n], x, x);
        var i, j :| 0 <= i <= j < n && keys[..n][i] == key(front[x].bytes) && keys[..n][j] == key(front[x].bytes);
        assert keys[i] == key(front[x].bytes);
      } else {
        GroupHasKey(key, chunks, keys[n], x - |front|);
      }
    }
  }

  /** Chunks with equal keys are next to each other: whatever stands between two of them has their key. */
  lemma EqualKeysAdjacent(key: seq<Byte> -> Key, chunks: seq<Chunk>, x: nat, z: nat, y: nat)
    requires x <= z <= y < |Regrouped(key, chunks)|
    requires key(Regrouped(key, chunks)[x].bytes) == key(Regrouped(key, chunks)[y].bytes)
    ensures key(Regrouped(key, chunks)[z].bytes) == key(Regrouped(key, chunks)[x].bytes)
  {
    var out, keys := Regrouped(key, chunks), KeyOrder(key, chunks);
    KeysOnce(key, chunks);
    RegroupedIsContiguous(key, chunks, keys, x, z);
    RegroupedIsContiguous(key, chunks, keys, z, y);
    var i, j :| 0 <= i <= j < |keys| && keys[i] == key(out[x].bytes) && keys[j] == key(out[z].bytes);
    var k, l :| 0 <= k <= l < |keys| && keys[k] == key(out[z].bytes) && keys[l] == key(out[y].bytes);
    assert j == k && i == l;
  }

  lemma {:induction false} GroupHasKey(key: seq<Byte> -> Key, chunks: seq<Chunk>, k: Key, i: nat)
    requires i < |WithKey(key, chunks, k)|
    ensures key(WithKey(key, chunks, k)[i].bytes) == k
  {
    var n := |chunks| - 1;
    if i < |WithKey(key, chunks[..n], k)| {
      GroupHasKey(key, chunks[..n], k, i);
    }
  }

  // ----- going back ----------------------------------------------------------------------------

  /** Sorted by chunkID: entry `i` is the chunk with that number. */
  ghost predicate SortedById(chunks: seq<Chunk>) {
    forall i :: 0 <= i < |chunks| ==> chunks[i].chunkID == i
  }

  /** Any arrangement of the output that is sorted by chunkID is the input. */
  lemma SortingRecovers(key: seq<Byte> -> Key, chunks: seq<Chunk>, sorted: seq<Chunk>)
    requires SortedById(chunks) && SortedById(sorted)
    requires multiset(sorted) == multiset(Regrouped(key, chunks))
    ensures sorted == chunks
  {
    RegroupedIsPermutation(key, chunks);
    assert |multiset(sorted)| == |multiset(chunks)|;
    forall i | 0 <= i < |sorted| ensures sorted[i] == chunks[i] {
      assert sorted[i] in multiset(chunks);
      var j :| 0 <= j < |chunks| && chunks[j] == sorted[i];
    }
  }

  /** The output is as long as what was received. */
  lemma {:induction false} SameLength(a: seq<Chunk>, b: seq<Chunk>)
    requires multiset(a) == multiset(b)
    ensures |Contents(a)| == |Contents(b)|
    decreases |a|
  {
    if a == [] {
      assert |multiset(b)| == 0;
    } else {
      var n := |a| - 1;
      var c := a[n];
      assert a == a[..n] + [c];
      assert c in multiset(b);
      var j :| 0 <= j < |b| && b[j] == c;
      var rest := b[..j] + b[j + 1..];
      assert b == b[..j] + [c] + b[j + 1..];
      assert multiset(a[..n]) == multiset(a) - multiset{c};
      assert multiset(rest) == multiset(b) - multiset{c};
      SameLength(a[..n], rest);
      ContentsLength(b[..j], c, b[j + 1..]);
    }
  }

  lemma {:induction false} ContentsLength(x: seq<Chunk>, c: Chunk, y: seq<Chunk>)
    ensures |Contents(x + [c] + y)| == |Contents(x + y)| + |c.bytes|
    decreases |y|
  {
    if y == [] {
      assert x + [c] + y == x + [c] && x + y == x;
      ContentsPush(x, c);
    } else {
      var n := |y| - 1;
      assert x + [c] + y == (x + [c] + y[..n]) + [y[n]] && x + y == (x + y[..n]) + [y[n]];
      ContentsPush(x + [c] + y[..n], y[n]);
      ContentsPush(x + y[..n], y[n]);
      ContentsLength(x, c, y[..n]);
    }
  }

  /** Migratory writes logicalchunkSize bytes. */
  lemma WritesEverything(key: seq<Byte> -> Key, chunks: seq<Chunk>)
    ensures |Contents(Regrouped(key, chunks))| == |Contents(chunks)|
  {
    RegroupedIsPermutation(key, chunks);
    SameLength(Regrouped(key, chunks), chunks);
  }
}
