/**
 The container cache of src/util/readCache.cc: 64 fixed slots of CONTAINER_MAX_SIZE bytes and an
 LRU cache from container names to slot numbers. ReadFromCache hands out a pointer into a slot, so
 what matters is which later operations leave that slot alone.
 */
module ContainerCache {
  import opened Bytes
  import opened LruCache

  const CONTAINER_MAX_SIZE := 4194304
  const CONTAINER_CACHE_SIZE := 64

  /** Containers are named by the decimal form of their id, which stands for the id itself. */
  type Name = nat

  datatype Pool = Pool(lru: Lru<Name, nat>, slots: seq<seq<Byte>>, next: nat)

  /** memcpy to the start of a slot: bytes beyond the data stay. */
  function Overwrite(slot: seq<Byte>, data: seq<Byte>): (r: seq<Byte>)
    requires |data| <= |slot|
    ensures |r| == |slot| && r[..|data|] == data
  {
    data + slot[|data|..]
  }

  /** Every cached name has a slot of its own among the slots handed out so far. */
  ghost predicate PoolOk(p: Pool) {
    && Ok(p.lru)
    && |p.slots| == CONTAINER_CACHE_SIZE
    && (forall i :: 0 <= i < |p.slots| ==> |p.slots[i]| == CONTAINER_MAX_SIZE)
    && p.next == |p.lru.keys| <= CONTAINER_CACHE_SIZE
    && (forall k :: k in p.lru.cache ==> p.lru.cache[k] < p.next)
    && (forall j, k :: j in p.lru.cache && k in p.lru.cache && p.lru.cache[j] == p.lru.cache[k] ==> j == k)
  }

  /** The slot InsertToCache writes: the least recently used one, or the next unused one. */
  function VictimSlot(p: Pool): (i: nat)
    requires PoolOk(p)
    ensures i < CONTAINER_CACHE_SIZE
  {
    if |p.lru.keys| + 1 > CONTAINER_CACHE_SIZE then
      assert p.lru.keys[|p.lru.keys| - 1] in p.lru.keys;
      p.lru.cache[p.lru.keys[|p.lru.keys| - 1]]
    else p.next
  }

  function Load(p: Pool, name: Name, data: seq<Byte>): Pool
    requires PoolOk(p) && |data| <= CONTAINER_MAX_SIZE
  {
    var i := VictimSlot(p);
    Pool(Insert(p.lru, name, i, CONTAINER_CACHE_SIZE, 0),
         p.slots[i := Overwrite(p.slots[i], data)],
         if |p.lru.keys| + 1 > CONTAINER_CACHE_SIZE then p.next else p.next + 1)
  }

  function Read(p: Pool, name: Name): Pool {
    p.(lru := Get(p.lru, name))
  }

  lemma LoadedLru(p: Pool, name: Name, data: seq<Byte>)
    requires PoolOk(p) && name !in p.lru.cache && |data| <= CONTAINER_MAX_SIZE
    ensures var q := Load(p, name, data);
            && q.lru.keys == [name] + (if |p.lru.keys| == 64 then p.lru.keys[..63] else p.lru.keys)
            && Ok(q.lru)
            && name in q.lru.cache && q.lru.cache[name] == VictimSlot(p)
            && forall k :: k in q.lru.cache && k != name ==> k in p.lru.cache && q.lru.cache[k] == p.lru.cache[k]
  {
    InsertOk(p.lru, name, VictimSlot(p), CONTAINER_CACHE_SIZE, 0);
    InsertedKeys(p.lru, name, VictimSlot(p), CONTAINER_CACHE_SIZE);
    SameKeys(p.lru, name);
    assert ([name] + p.lru.keys)[0] == name;
  }

  /** What is evicted is the only name that lived in the slot that is overwritten. */
  lemma VictimIsGone(p: Pool, name: Name, data: seq<Byte>)
    requires PoolOk(p) && name !in p.lru.cache && |data| <= CONTAINER_MAX_SIZE
    ensures forall k :: k in Load(p, name, data).lru.cache && k != name ==> k in p.lru.cache && p.lru.cache[k] != VictimSlot(p)
  {
    LoadedLru(p, name, data);
    var q := Load(p, name, data);
    forall k | k in q.lru.cache && k != name ensures k in p.lru.cache && p.lru.cache[k] != VictimSlot(p) {
      SameKeys(q.lru, k);
      SameKeys(p.lru, k);
      if |p.lru.keys| == 64 {
        var last := p.lru.keys[63];
        SameKeys(p.lru, last);
        assert last !in p.lru.keys[..63];
        assert k in p.lru.keys[..63];
      }
    }
  }

  /** Loading a container: names keep their own slots, and slots of surviving names their bytes. */
  lemma LoadKeeps(p: Pool, name: Name, data: seq<Byte>)
    requires PoolOk(p) && name !in p.lru.cache && |data| <= CONTAINER_MAX_SIZE
    ensures var q := Load(p, name, data);
            && PoolOk(q)
            && name in q.lru.cache && q.slots[q.lru.cache[name]][..|data|] == data
            && forall k :: k in q.lru.cache && k != name ==>
                 k in p.lru.cache && q.lru.cache[k] == p.lru.cache[k] && q.slots[q.lru.cache[k]] == p.slots[p.lru.cache[k]]
  {
    hide Ok, Overwrite, Insert;
    LoadedLru(p, name, data);
    VictimIsGone(p, name, data);
  }

  /** The pool is full and the name is the one to be evicted. */
  ghost predicate IsVictim(p: Pool, name: Name) {
    |p.lru.keys| == CONTAINER_CACHE_SIZE && p.lru.keys[|p.lru.keys| - 1] == name
  }

  /** Inserting keeps every name in a slot of its own exactly if the name is new, or its own slot is
      the one that is overwritten. Otherwise a slot is lost, or two names share one. */
  lemma LoadOkIff(p: Pool, name: Name, data: seq<Byte>)
    requires PoolOk(p) && |data| <= CONTAINER_MAX_SIZE
    ensures Ok(Load(p, name, data).lru)
    ensures PoolOk(Load(p, name, data)) <==> name !in p.lru.cache || IsVictim(p, name)
  {
    InsertOk(p.lru, name, VictimSlot(p), CONTAINER_CACHE_SIZE, 0);
    if name !in p.lru.cache {
      LoadKeeps(p, name, data);
    } else {
      LoadAgain(p, name, data);
    }
  }

  lemma LoadAgain(p: Pool, name: Name, data: seq<Byte>)
    requires PoolOk(p) && |data| <= CONTAINER_MAX_SIZE && name in p.lru.cache
    ensures PoolOk(Load(p, name, data)) <==> IsVictim(p, name)
  {
    hide Ok, Touch;
    var q := Load(p, name, data);
    GetOk(p.lru, name);
    InsertOk(p.lru, name, VictimSlot(p), CONTAINER_CACHE_SIZE, 0);
    assert |q.lru.keys| == |p.lru.keys| && q.lru.cache == p.lru.cache[name := VictimSlot(p)];
    if |p.lru.keys| == CONTAINER_CACHE_SIZE {
      var last := p.lru.keys[|p.lru.keys| - 1];
      SameKeys(p.lru, last);
      if last != name {
        assert q.lru.cache[last] == q.lru.cache[name];
      } else {
        assert q.lru.cache == p.lru.cache;
      }
    }
  }

  lemma ReadKeeps(p: Pool, name: Name)
    requires PoolOk(p) && name in p.lru.cache
    ensures PoolOk(Read(p, name))
  {
    GetOk(p.lru, name);
  }

  // ----- the cache object ----------------------------------------------------------------------

  class ReadCache {
    const readCache: Cache<Name, nat>
    const containerPool: array<seq<Byte>>
    var currentIndex: nat

    ghost function Value(): Pool
      reads this, readCache, containerPool
    {
      Pool(readCache.Value(), containerPool[..], currentIndex)
    }

    ghost predicate Valid()
      reads this, readCache, containerPool
    {
      PoolOk(Value()) && readCache.maxSize == CONTAINER_CACHE_SIZE && readCache.elasticity == 0
    }

    constructor ()
      ensures Valid() && fresh(readCache) && fresh(containerPool)
      ensures readCache.Value() == Lru([], map[])
    {
      readCache := new Cache(CONTAINER_CACHE_SIZE, 0);
      containerPool := new seq<Byte>[CONTAINER_CACHE_SIZE](_ => seq(CONTAINER_MAX_SIZE, _ => 0));
      currentIndex := 0;
    }

    /** Callers insert a name only after ExistsInCache said no. For a name that is cached the bytes
        are stored all the same, but the slots get out of step: see LoadOkIff. */
    method InsertToCache(name: Name, data: seq<Byte>)
      requires Valid() && |data| <= CONTAINER_MAX_SIZE
      modifies this, readCache, containerPool
      ensures Value() == Load(old(Value()), name, data)
      ensures Valid() <==> name !in old(readCache.cache) || IsVictim(old(Value()), name)
    {
      hide Insert, Ok;
      LoadOkIff(Value(), name, data);
      var n := readCache.Size();
      if n + 1 > CONTAINER_CACHE_SIZE {
        var replaceIndex := readCache.PruneValue();
        containerPool[replaceIndex] := Overwrite(containerPool[replaceIndex], data);
        readCache.InsertValue(name, replaceIndex);
      } else {
        containerPool[currentIndex] := Overwrite(containerPool[currentIndex], data);
        readCache.InsertValue(name, currentIndex);
        currentIndex := currentIndex + 1;
      }
    }

    method ExistsInCache(name: Name) returns (b: bool)
      requires Valid()
      ensures b <==> name in readCache.cache
    {
      SameKeys(readCache.Value(), name);
      b := readCache.Contains(name);
    }

    /** The slot number stands for the pointer that is returned. */
    method ReadFromCache(name: Name) returns (slot: nat)
      requires Valid() && name in readCache.cache
      modifies readCache
      ensures Valid() && Value() == Read(old(Value()), name)
      ensures slot == old(readCache.cache[name]) && slot < containerPool.Length
    {
      ReadKeeps(Value(), name);
      var r := readCache.GetValue(name);
      slot := r.value;
    }
  }

  // ----- how long a slot pointer stays good ----------------------------------------------------

  datatype CacheOp = LoadOp(name: Name, data: seq<Byte>) | ReadOp(name: Name)

  function Step(p: Pool, op: CacheOp): Pool
    requires PoolOk(p) && Allowed(p, op)
  {
    match op
    case LoadOp(name, data) => Load(p, name, data)
    case ReadOp(name) => Read(p, name)
  }

  /** Get_Chunk_Info loads what is not cached and reads what is. */
  ghost predicate Allowed(p: Pool, op: CacheOp) {
    match op
    case LoadOp(name, data) => name !in p.lru.cache && |data| <= CONTAINER_MAX_SIZE
    case ReadOp(name) => name in p.lru.cache
  }

  lemma StepKeeps(p: Pool, op: CacheOp)
    requires PoolOk(p) && Allowed(p, op)
    ensures PoolOk(Step(p, op))
  {
    match op
    case LoadOp(name, data) => LoadKeeps(p, name, data);
    case ReadOp(name) => ReadKeeps(p, name);
  }

  /** The slot of the most recently used name keeps its bytes. */
  ghost predicate FrontKept(p: Pool, q: Pool)
    requires PoolOk(p)
  {
    p.lru.keys != [] ==>
      && p.lru.keys[0] in p.lru.cache
      && p.lru.cache[p.lru.keys[0]] < |p.slots| == |q.slots|
      && q.slots[p.lru.cache[p.lru.keys[0]]] == p.slots[p.lru.cache[p.lru.keys[0]]]
  }

  lemma FrontSame(p: Pool)
    requires PoolOk(p)
    ensures FrontKept(p, p)
  {
    if p.lru.keys != [] {
      SameKeys(p.lru, p.lru.keys[0]);
    }
  }

  lemma StepKeepsFront(p: Pool, op: CacheOp)
    requires PoolOk(p) && Allowed(p, op)
    ensures FrontKept(p, Step(p, op))
  {
    hide Load, Ok;
    if p.lru.keys != [] {
      var name := p.lru.keys[0];
      SameKeys(p.lru, name);
      if op.name != name {
        var j := OneOther(p, name, 0, op);
      }
    }
  }

  ghost predicate AllAllowed(p: Pool, ops: seq<CacheOp>)
    requires PoolOk(p)
    decreases |ops|
  {
    ops == [] || (Allowed(p, ops[0]) && (StepKeeps(p, ops[0]); AllAllowed(Step(p, ops[0]), ops[1..])))
  }

  ghost function After(p: Pool, ops: seq<CacheOp>): (q: Pool)
    requires PoolOk(p) && AllAllowed(p, ops)
    ensures PoolOk(q)
    decreases |ops|
  {
    if ops == [] then p else (StepKeeps(p, ops[0]); After(Step(p, ops[0]), ops[1..]))
  }

  /** One operation on another name moves `name` back by at most one place, by exactly one if it
      is a load, and leaves its slot alone. */
  lemma OneOther(p: Pool, name: Name, i: nat, op: CacheOp) returns (j: nat)
    requires PoolOk(p) && Allowed(p, op) && op.name != name
    requires i < |p.lru.keys| && i < 63 && p.lru.keys[i] == name
    ensures j < |Step(p, op).lru.keys| && Step(p, op).lru.keys[j] == name
    ensures i <= j <= i + 1 && (op.LoadOp? ==> j == i + 1)
    ensures name in p.lru.cache && name in Step(p, op).lru.cache
    ensures Step(p, op).lru.cache[name] == p.lru.cache[name] < 64
    ensures |Step(p, op).slots| == |p.slots| == 64
    ensures Step(p, op).slots[p.lru.cache[name]] == p.slots[p.lru.cache[name]]
  {
    hide Load, Read, Ok;
    match op
    case LoadOp(n, data) =>
      j := i + 1;
      OtherLoad(p, name, i, n, data);
    case ReadOp(n) =>
      j := OtherRead(p, name, i, n);
  }

  lemma OtherLoad(p: Pool, name: Name, i: nat, n: Name, data: seq<Byte>)
    requires PoolOk(p) && n !in p.lru.cache && |data| <= CONTAINER_MAX_SIZE && n != name
    requires i < |p.lru.keys| && i < 63 && p.lru.keys[i] == name
    ensures var q := Load(p, n, data);
            && i + 1 < |q.lru.keys| && q.lru.keys[i + 1] == name
            && name in p.lru.cache && name in q.lru.cache && q.lru.cache[name] == p.lru.cache[name] < 64
            && |q.slots| == |p.slots| == 64 && q.slots[p.lru.cache[name]] == p.slots[p.lru.cache[name]]
  {
    hide Load;
    SameKeys(p.lru, name);
    LoadedLru(p, n, data);
    LoadKeeps(p, n, data);
    assert Load(p, n, data).lru.keys[i + 1] == name;
    SameKeys(Load(p, n, data).lru, name);
  }

  lemma OtherRead(p: Pool, name: Name, i: nat, n: Name) returns (j: nat)
    requires PoolOk(p) && n in p.lru.cache && n != name
    requires i < |p.lru.keys| && p.lru.keys[i] == name
    ensures i <= j <= i + 1 && j < |Read(p, n).lru.keys| && Read(p, n).lru.keys[j] == name
    ensures name in p.lru.cache && p.lru.cache[name] < 64
    ensures Read(p, n).lru.cache == p.lru.cache && Read(p, n).slots == p.slots
  {
    SameKeys(p.lru, name);
    SameKeys(p.lru, n);
    var m :| 0 <= m < |p.lru.keys| && p.lru.keys[m] == n;
    WithoutAt(p.lru.keys, m);
    j := if m < i then i else i + 1;
  }

  /** `name` at place `i` stays cached, in its slot and with its bytes, through 63 - i operations
      on other names. */
  lemma {:induction false} SlotStays(p: Pool, name: Name, i: nat, ops: seq<CacheOp>)
    requires PoolOk(p) && AllAllowed(p, ops)
    requires i < |p.lru.keys| && p.lru.keys[i] == name
    requires i + |ops| <= 63 && forall k :: 0 <= k < |ops| ==> ops[k].name != name
    ensures name in p.lru.cache && name in After(p, ops).lru.cache
    ensures After(p, ops).lru.cache[name] == p.lru.cache[name] < 64
    ensures After(p, ops).slots[p.lru.cache[name]] == p.slots[p.lru.cache[name]]
    decreases |ops|
  {
    hide Load, Read;
    SameKeys(p.lru, name);
    if ops != [] {
      StepKeeps(p, ops[0]);
      var j := OneOther(p, name, i, ops[0]);
      SlotStays(Step(p, ops[0]), name, j, ops[1..]);
    }
  }

  /** A pointer from ReadFromCache is good for the next 63 cache operations on other names ... */
  lemma PointerStays(p: Pool, name: Name, ops: seq<CacheOp>)
    requires PoolOk(p) && name in p.lru.cache
    requires PoolOk(Read(p, name)) && AllAllowed(Read(p, name), ops)
    requires |ops| <= 63 && forall k :: 0 <= k < |ops| ==> ops[k].name != name
    ensures name in After(Read(p, name), ops).lru.cache
    ensures After(Read(p, name), ops).lru.cache[name] == p.lru.cache[name] < 64
    ensures After(Read(p, name), ops).slots[p.lru.cache[name]] == p.slots[p.lru.cache[name]]
  {
    hide After, AllAllowed;
    SlotStays(Read(p, name), name, 0, ops);
  }

  /** ... and no longer: 64 loads drop the name, and the last of them gets its slot. */
  lemma PointerDies(p: Pool, name: Name, ops: seq<CacheOp>)
    requires PoolOk(p) && name in p.lru.cache
    requires PoolOk(Read(p, name)) && AllAllowed(Read(p, name), ops)
    requires |ops| == 64 && forall k :: 0 <= k < |ops| ==> ops[k].LoadOp? && ops[k].name != name
    ensures var q, last := After(Read(p, name), ops), ops[63];
            && name !in q.lru.cache
            && last.name in q.lru.cache && q.lru.cache[last.name] == p.lru.cache[name] < |q.slots|
            && |last.data| <= |q.slots[p.lru.cache[name]]| && q.slots[p.lru.cache[name]][..|last.data|] == last.data
  {
    hide After, AllAllowed;
    LoadsDrop(Read(p, name), name, 0, ops);
  }

  /** A load with the pool full hands the last name's slot to the new one. */
  lemma LastLoad(p: Pool, name: Name, n: Name, data: seq<Byte>)
    requires PoolOk(p) && n !in p.lru.cache && |data| <= CONTAINER_MAX_SIZE && n != name
    requires |p.lru.keys| == CONTAINER_CACHE_SIZE && p.lru.keys[63] == name
    ensures var q := Load(p, n, data);
            && PoolOk(q) && name in p.lru.cache && name !in q.lru.cache
            && n in q.lru.cache && q.lru.cache[n] == p.lru.cache[name] < |q.slots|
            && |data| <= |q.slots[p.lru.cache[name]]| && q.slots[p.lru.cache[name]][..|data|] == data
  {
    hide Load;
    SameKeys(p.lru, name);
    LoadedLru(p, n, data);
    LoadKeeps(p, n, data);
    assert name !in p.lru.keys[..63];
    SameKeys(Load(p, n, data).lru, name);
  }

  lemma {:induction false} LoadsDrop(p: Pool, name: Name, i: nat, ops: seq<CacheOp>)
    requires PoolOk(p) && AllAllowed(p, ops)
    requires i < |p.lru.keys| && p.lru.keys[i] == name
    requires i + |ops| == 64 && forall k :: 0 <= k < |ops| ==> ops[k].LoadOp? && ops[k].name != name
    ensures name in p.lru.cache && name !in After(p, ops).lru.cache
    ensures var q, last := After(p, ops), ops[|ops| - 1];
            && last.name in q.lru.cache && q.lru.cache[last.name] == p.lru.cache[name] < |q.slots|
            && |last.data| <= |q.slots[p.lru.cache[name]]| && q.slots[p.lru.cache[name]][..|last.data|] == last.data
    decreases |ops|
  {
    hide Load, Read;
    SameKeys(p.lru, name);
    StepKeeps(p, ops[0]);
    if i == 63 {
      LastLoad(p, name, ops[0].name, ops[0].data);
      assert ops[1..] == [];
    } else {
      var j := OneOther(p, name, i, ops[0]);
      LoadsDrop(Step(p, ops[0]), name, j, ops[1..]);
    }
  }
}
