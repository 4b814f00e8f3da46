/**
 The values behind src/datawrite/datawrite.cc: chunks packed into containers, and what the stored
 bytes of a chunk mean. `Placed` is about where bytes are, `StoreOk` about what they stand for.
 */
module ChunkStore {
  import opened Bytes
  import opened Lz4Format
  import opened ContainerCache

  /** xdelta as an abstract pair: `encode(target, base)` and `decode(delta, base)`. */
  datatype Codec = Codec(encode: (seq<Byte>, seq<Byte>) -> seq<Byte>, decode: (seq<Byte>, seq<Byte>) -> seq<Byte>)

  ghost predicate Lossless(codec: Codec) {
    forall t, b :: codec.decode(codec.encode(t, b), b) == t
  }

  lemma DecodesBack(codec: Codec, t: seq<Byte>, b: seq<Byte>)
    requires Lossless(codec)
    ensures codec.decode(codec.encode(t, b), b) == t
  {
  }

  datatype Flag = NoDelta | NoLz4 | Delta | FinesseDelta

  predicate IsBase(f: Flag) { f == NoDelta || f == NoLz4 }

  /** Chunk_t without its pointer. */
  datatype Entry = Entry(chunkID: nat, chunkSize: nat, saveSize: nat, basechunkID: int, deltaFlag: Flag,
                         headerFlag: bool, offset: nat, containerID: nat)

  /** `disk` holds the flushed containers, `cur` the used part of the current one. */
  datatype Store = Store(entries: seq<Entry>, disk: map<nat, seq<Byte>>, num: nat, cur: seq<Byte>)

  function Container(s: Store, c: nat): seq<Byte> {
    if c == s.num then s.cur else if c in s.disk then s.disk[c] else []
  }

  ghost predicate EntryPlaced(s: Store, e: Entry) {
    e.containerID <= s.num && e.offset + e.saveSize <= |Container(s, e.containerID)|
  }

  ghost predicate Placed(s: Store) {
    && (forall c: nat :: c in s.disk <==> c < s.num)
    && (forall c :: c in s.disk ==> |s.disk[c]| <= CONTAINER_MAX_SIZE)
    && |s.cur| <= CONTAINER_MAX_SIZE
    && (forall i :: 0 <= i < |s.entries| ==> EntryPlaced(s, s.entries[i]))
  }

  /** The bytes kept for a chunk. */
  function BytesOf(s: Store, e: Entry): seq<Byte>
    requires EntryPlaced(s, e)
  {
    Container(s, e.containerID)[e.offset..e.offset + e.saveSize]
  }

  function Stored(s: Store, i: nat): seq<Byte>
    requires Placed(s) && i < |s.entries|
  {
    BytesOf(s, s.entries[i])
  }

  /** A full container goes to disk. */
  function Roll(s: Store, n: nat): Store {
    if |s.cur| + n > CONTAINER_MAX_SIZE then Store(s.entries, s.disk[s.num := s.cur], s.num + 1, []) else s
  }

  function Put(s: Store, e: Entry, bytes: seq<Byte>): Store {
    var r := Roll(s, |bytes|);
    Store(r.entries + [e.(offset := |r.cur|, containerID := r.num)], r.disk, r.num, r.cur + bytes)
  }

  lemma RollKeeps(s: Store, n: nat)
    requires Placed(s) && n <= CONTAINER_MAX_SIZE
    ensures Placed(Roll(s, n)) && |Roll(s, n).cur| + n <= CONTAINER_MAX_SIZE
    ensures Roll(s, n).entries == s.entries
    ensures forall i :: 0 <= i < |s.entries| ==> Stored(Roll(s, n), i) == Stored(s, i)
  {
    var r := Roll(s, n);
    forall i | 0 <= i < |s.entries| ensures EntryPlaced(r, s.entries[i]) && BytesOf(r, s.entries[i]) == Stored(s, i) {
      assert EntryPlaced(s, s.entries[i]);
    }
  }

  /** Storing a chunk moves no stored byte, and the new chunk is where its entry says. */
  lemma PutKeeps(s: Store, e: Entry, bytes: seq<Byte>)
    requires Placed(s) && |bytes| == e.saveSize <= CONTAINER_MAX_SIZE
    ensures Placed(Put(s, e, bytes))
    ensures forall i :: 0 <= i < |s.entries| ==>
              Put(s, e, bytes).entries[i] == s.entries[i] && Stored(Put(s, e, bytes), i) == Stored(s, i)
    ensures Stored(Put(s, e, bytes), |s.entries|) == bytes
  {
    RollKeeps(s, |bytes|);
    AppendKeeps(Roll(s, |bytes|), e, bytes);
  }

  lemma AppendKeeps(r: Store, e: Entry, bytes: seq<Byte>)
    requires Placed(r) && |bytes| == e.saveSize && |r.cur| + |bytes| <= CONTAINER_MAX_SIZE
    ensures var q := Store(r.entries + [e.(offset := |r.cur|, containerID := r.num)], r.disk, r.num, r.cur + bytes);
            && Placed(q)
            && (forall i :: 0 <= i < |r.entries| ==> q.entries[i] == r.entries[i] && Stored(q, i) == Stored(r, i))
            && Stored(q, |r.entries|) == bytes
  {
    var q := Store(r.entries + [e.(offset := |r.cur|, containerID := r.num)], r.disk, r.num, r.cur + bytes);
    forall i | 0 <= i < |r.entries| ensures EntryPlaced(q, q.entries[i]) && BytesOf(q, q.entries[i]) == Stored(r, i) {
      assert EntryPlaced(r, r.entries[i]);
    }
    assert BytesOf(q, q.entries[|r.entries|]) == bytes;
  }

  // ----- meaning -------------------------------------------------------------------------------

  /** Chunk `i` can be rebuilt: raw, by LZ4, or as a delta against one base that is not a delta. */
  ghost predicate Means(codec: Codec, s: Store, i: nat, contents: seq<seq<Byte>>)
    requires Placed(s) && i < |s.entries| == |contents|
  {
    var e := s.entries[i];
    && e.chunkID == i && e.chunkSize == |contents[i]| <= CONTAINER_MAX_SIZE
    && Encodes(codec, s, e.deltaFlag, e.basechunkID, Stored(s, i), contents, contents[i], i)
  }

  /** `bytes` under `flag` encode `content`; a delta refers to a base before chunk `n`. */
  ghost predicate Encodes(codec: Codec, s: Store, flag: Flag, base: int, bytes: seq<Byte>,
                          contents: seq<seq<Byte>>, content: seq<Byte>, n: nat)
    requires n <= |s.entries| == |contents|
  {
    match flag
    case NoDelta => IsBlockOf(bytes, content)
    case NoLz4 => bytes == content
    case _ => 0 <= base < n && IsBase(s.entries[base].deltaFlag) && codec.decode(bytes, contents[base]) == content
  }

  ghost predicate StoreOk(codec: Codec, s: Store, contents: seq<seq<Byte>>) {
    && Placed(s)
    && |s.entries| == |contents|
    && forall i :: 0 <= i < |contents| ==> Means(codec, s, i, contents)
  }

  lemma PutMeans(codec: Codec, s: Store, contents: seq<seq<Byte>>, e: Entry, bytes: seq<Byte>, content: seq<Byte>)
    requires StoreOk(codec, s, contents)
    requires |bytes| == e.saveSize <= CONTAINER_MAX_SIZE
    requires e.chunkID == |contents| && e.chunkSize == |content| <= CONTAINER_MAX_SIZE
    requires Encodes(codec, s, e.deltaFlag, e.basechunkID, bytes, contents, content, |contents|)
    ensures StoreOk(codec, Put(s, e, bytes), contents + [content])
  {
    hide IsBlockOf;
    PutKeeps(s, e, bytes);
    var q := Put(s, e, bytes);
    var more := contents + [content];
    forall i | 0 <= i < |contents| ensures Means(codec, q, i, more) {
      hide Put, Placed;
      assert Means(codec, s, i, contents);
    }
    assert Means(codec, q, |contents|, more);
  }

  // ----- cache and disk ------------------------------------------------------------------------

  /** Every cached container is a flushed one, byte for byte. */
  ghost predicate CacheAgrees(s: Store, p: Pool)
    requires PoolOk(p)
  {
    forall c :: c in p.lru.cache ==>
      c in s.disk && |s.disk[c]| <= CONTAINER_MAX_SIZE && p.slots[p.lru.cache[c]][..|s.disk[c]|] == s.disk[c]
  }

  lemma RollAgrees(s: Store, e: Entry, bytes: seq<Byte>, p: Pool)
    requires Placed(s) && PoolOk(p) && CacheAgrees(s, p)
    ensures CacheAgrees(Put(s, e, bytes), p)
  {
  }

  lemma LoadAgrees(s: Store, p: Pool, c: nat)
    requires Placed(s) && PoolOk(p) && CacheAgrees(s, p) && c in s.disk && c !in p.lru.cache
    ensures PoolOk(Load(p, c, s.disk[c])) && CacheAgrees(s, Load(p, c, s.disk[c]))
  {
    hide Load;
    LoadKeeps(p, c, s.disk[c]);
  }

  lemma ReadAgrees(s: Store, p: Pool, c: nat)
    requires PoolOk(p) && CacheAgrees(s, p) && c in p.lru.cache
    ensures PoolOk(Read(p, c)) && CacheAgrees(s, Read(p, c))
  {
    ReadKeeps(p, c);
  }

  // ----- pointers ------------------------------------------------------------------------------

  /** Where Chunk_t::chunkPtr points: an allocated copy, a cache slot, or the current container. */
  datatype Ptr = Heap(bytes: seq<Byte>) | InSlot(slot: nat, at: nat) | InCurrent(at: nat)

  predicate InRange(ptr: Ptr, n: nat, slots: seq<seq<Byte>>, cur: seq<Byte>) {
    match ptr
    case Heap(bytes) => n <= |bytes|
    case InSlot(slot, at) => slot < |slots| && at + n <= |slots[slot]|
    case InCurrent(at) => at + n <= |cur|
  }

  /** `n` bytes behind a pointer, in the memory of the moment. */
  function Deref(ptr: Ptr, n: nat, slots: seq<seq<Byte>>, cur: seq<Byte>): seq<Byte>
    requires InRange(ptr, n, slots, cur)
  {
    match ptr
    case Heap(bytes) => bytes[..n]
    case InSlot(slot, at) => slots[slot][at..at + n]
    case InCurrent(at) => cur[at..at + n]
  }

  /** A chunk read through the cache is the chunk on disk. */
  lemma SlotHolds(s: Store, p: Pool, i: nat)
    requires Placed(s) && PoolOk(p) && CacheAgrees(s, p) && i < |s.entries|
    requires s.entries[i].containerID in p.lru.cache
    ensures var e := s.entries[i];
            var ptr := InSlot(p.lru.cache[e.containerID], e.offset);
            InRange(ptr, e.saveSize, p.slots, s.cur) && Deref(ptr, e.saveSize, p.slots, s.cur) == Stored(s, i)
  {
    var e := s.entries[i];
    var c := e.containerID;
    assert EntryPlaced(s, e);
    var slot := p.slots[p.lru.cache[c]];
    assert slot[..|s.disk[c]|] == s.disk[c];
    assert slot[e.offset..e.offset + e.saveSize] == s.disk[c][e.offset..e.offset + e.saveSize];
  }
}
