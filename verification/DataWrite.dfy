/**
 The chunk store object of src/datawrite/datawrite.cc: chunks are appended to the current
 container, full containers go to disk, and chunks are read back from the cache, the disk or the
 current container. `contents` records what each stored chunk stands for.
 */
module DataWriter {
  import opened Bytes
  import opened Lz4Format
  import Lz4Decoder
  import opened LruCache
  import opened ContainerCache
  import opened ChunkStore

  /** What Get_Chunk_Info returns: the entry, the pointer, and whether the caller must free it. */
  datatype ChunkInfo = ChunkInfo(entry: Entry, ptr: Ptr, loadFromDisk: bool)

  /** Bytes Get_Chunk_Info makes available: the whole chunk, or what is stored of a delta. */
  function Available(e: Entry): nat {
    if e.deltaFlag == NoDelta then e.chunkSize else e.saveSize
  }

  class DataWrite {
    const codec: Codec
    const data: array<Byte>                  // curContainer.data
    var curOffset: nat                       // also curContainer.size
    var containerNum: nat                    // also curContainer.containerID
    var chunkNum: nat
    var chunklist: seq<Entry>
    var disk: map<nat, seq<Byte>>
    const containerCache: ReadCache
    const lz4SafeChunkBuffer: array<Byte>
    var filename: string
    var recipeMap: map<string, seq<nat>>
    var recipeMapHeader: map<string, seq<nat>>
    ghost var contents: seq<seq<Byte>>

    ghost function Value(): Store
      reads this, data
      requires curOffset <= data.Length
    {
      Store(chunklist, disk, containerNum, data[..curOffset])
    }

    /** The objects this one owns. */
    ghost function Repr(): set<object> {
      {this, data, containerCache, containerCache.readCache, containerCache.containerPool, lz4SafeChunkBuffer}
    }

    ghost predicate Valid()
      reads Repr()
    {
      && data != lz4SafeChunkBuffer
      && data.Length == lz4SafeChunkBuffer.Length == CONTAINER_MAX_SIZE
      && curOffset <= data.Length
      && chunkNum == |chunklist|
      && StoreOk(codec, Value(), contents)
      && containerCache.Valid()
      && CacheAgrees(Value(), containerCache.Value())
      && RecipesOk(recipeMap) && RecipesOk(recipeMapHeader)
    }

    /** Recipes name stored chunks. */
    ghost predicate RecipesOk(recipes: map<string, seq<nat>>)
      reads this
    {
      forall f :: f in recipes ==> forall k :: 0 <= k < |recipes[f]| ==> recipes[f][k] < |chunklist|
    }

    constructor (codec: Codec)
      ensures Valid() && fresh(Repr()) && this.codec == codec
      ensures chunklist == [] && contents == [] && recipeMap == map[] && recipeMapHeader == map[] && filename == ""
    {
      this.codec := codec;
      data := new Byte[CONTAINER_MAX_SIZE];
      lz4SafeChunkBuffer := new Byte[CONTAINER_MAX_SIZE];
      containerCache := new ReadCache();
      curOffset, containerNum, chunkNum, chunklist, disk := 0, 0, 0, [], map[];
      filename, recipeMap, recipeMapHeader, contents := "", map[], map[], [];
      new;
      EmptyStore(codec);
      assert data[..0] == [];
    }

    method SetFilename(name: string)
      requires Valid()
      modifies this`filename
      ensures Valid() && filename == name
    {
      filename := name;
    }

    // ----- storing -------------------------------------------------------------------------------

    /** The shared part of both Chunk_Insert overloads: roll the container over if the bytes do
        not fit, then append them. */
    method Append(chunk: Entry, bytes: seq<Byte>, ghost content: seq<Byte>)
      requires Valid()
      requires |bytes| == chunk.saveSize <= CONTAINER_MAX_SIZE
      requires chunk.chunkID == |chunklist| && chunk.chunkSize == |content| <= CONTAINER_MAX_SIZE
      requires Encodes(codec, Value(), chunk.deltaFlag, chunk.basechunkID, bytes, contents, content, |contents|)
      modifies this`curOffset, this`containerNum, this`chunkNum, this`chunklist, this`disk, this`contents, data
      ensures Valid() && Value() == Put(old(Value()), chunk, bytes)
      ensures contents == old(contents) + [content]
    {
      hide StoreOk, PoolOk, Encodes;
      StoreIsPlaced(codec, Value(), contents);
      PutMeans(codec, Value(), contents, chunk, bytes, content);
      RollAgrees(Value(), chunk, bytes, containerCache.Value());
      chunkNum := chunkNum + 1;
      RollOver(|bytes|);
      PutBytes(chunk, bytes);
      contents := contents + [content];
    }

    /** A container that cannot take `n` more bytes is written to disk and a new one started. */
    method RollOver(n: nat)
      requires curOffset <= data.Length == CONTAINER_MAX_SIZE
      modifies this`curOffset, this`containerNum, this`disk
      ensures curOffset <= data.Length && (n <= CONTAINER_MAX_SIZE ==> curOffset + n <= data.Length)
      ensures Value() == Roll(old(Value()), n)
    {
      if curOffset + n > CONTAINER_MAX_SIZE {
        disk := disk[containerNum := data[..curOffset]];
        containerNum := containerNum + 1;
        curOffset := 0;
      }
    }

    /** The chunk goes to the current offset and its entry to the end of the list. */
    method PutBytes(chunk: Entry, bytes: seq<Byte>)
      requires curOffset + |bytes| <= data.Length
      modifies this`curOffset, this`chunklist, data
      ensures curOffset == old(curOffset) + |bytes|
      ensures chunklist == old(chunklist) + [chunk.(containerID := containerNum, offset := old(curOffset))]
      ensures data[..curOffset] == old(data[..curOffset]) + bytes
    {
      CopyTo(curOffset, bytes);
      chunklist := chunklist + [chunk.(containerID := containerNum, offset := curOffset)];
      curOffset := curOffset + |bytes|;
    }

    /** memcpy into the current container. */
    method CopyTo(at: nat, bytes: seq<Byte>)
      requires at + |bytes| <= data.Length
      modifies data
      ensures data[..at + |bytes|] == old(data[..at]) + bytes
    {
      forall i | 0 <= i < |bytes| {
        data[at + i] := bytes[i];
      }
    }

    /** Chunk_Insert(chunk): stores what chunkPtr holds, a raw chunk or a delta. */
    method ChunkInsert(chunk: Entry, chunkPtr: seq<Byte>, ghost content: seq<Byte>)
      requires Valid()
      requires chunk.deltaFlag != NoDelta && chunk.saveSize <= |chunkPtr| && chunk.saveSize <= CONTAINER_MAX_SIZE
      requires chunk.chunkID == |chunklist| && chunk.chunkSize == |content| <= CONTAINER_MAX_SIZE
      requires Encodes(codec, Value(), chunk.deltaFlag, chunk.basechunkID, chunkPtr[..chunk.saveSize], contents, content, |contents|)
      modifies this`curOffset, this`containerNum, this`chunkNum, this`chunklist, this`disk, this`contents, data
      ensures Valid() && Value() == Put(old(Value()), chunk, chunkPtr[..chunk.saveSize])
      ensures contents == old(contents) + [content]
    {
      Append(chunk, chunkPtr[..chunk.saveSize], content);
    }

    /** Chunk_Insert(chunk, lz4Buffer): stores the compressed form. */
    method ChunkInsertLz4(chunk: Entry, lz4Buffer: array<Byte>, ghost content: seq<Byte>)
      requires Valid() && lz4Buffer != data
      requires chunk.deltaFlag == NoDelta && chunk.saveSize <= lz4Buffer.Length && chunk.saveSize <= CONTAINER_MAX_SIZE
      requires chunk.chunkID == |chunklist| && chunk.chunkSize == |content| <= CONTAINER_MAX_SIZE
      requires IsBlockOf(lz4Buffer[..chunk.saveSize], content)
      modifies this`curOffset, this`containerNum, this`chunkNum, this`chunklist, this`disk, this`contents, data
      ensures Valid() && Value() == Put(old(Value()), chunk, lz4Buffer[..chunk.saveSize])
      ensures contents == old(contents) + [content]
    {
      hide IsBlockOf;
      Append(chunk, lz4Buffer[..chunk.saveSize], content);
    }

    /** Recipe_Insert and Recipe_Header_Insert: one more chunk of the current file. */
    method RecipeInsert(chunkID: nat)
      requires Valid() && chunkID < |chunklist|
      modifies this`recipeMap
      ensures Valid()
      ensures recipeMap == Pushed(old(recipeMap), filename, chunkID)
    {
      hide StoreOk;
      recipeMap := Pushed(recipeMap, filename, chunkID);
    }

    method RecipeHeaderInsert(chunkID: nat)
      requires Valid() && chunkID < |chunklist|
      modifies this`recipeMapHeader
      ensures Valid()
      ensures recipeMapHeader == Pushed(old(recipeMapHeader), filename, chunkID)
    {
      hide StoreOk;
      recipeMapHeader := Pushed(recipeMapHeader, filename, chunkID);
    }

    // ----- reading back --------------------------------------------------------------------------

    /** The bytes behind a pointer now. */
    ghost predicate Readable(ptr: Ptr, n: nat)
      reads Repr()
    {
      curOffset <= data.Length && InRange(ptr, n, containerCache.containerPool[..], data[..curOffset])
    }

    ghost function Behind(ptr: Ptr, n: nat): seq<Byte>
      reads Repr()
      requires Readable(ptr, n)
    {
      Deref(ptr, n, containerCache.containerPool[..], data[..curOffset])
    }

    /** Reads through the pointer, as a consumer of Chunk_t::chunkPtr does. */
    method ReadBytes(ptr: Ptr, n: nat) returns (r: seq<Byte>)
      requires Readable(ptr, n)
      ensures r == Behind(ptr, n)
    {
      match ptr {
        case Heap(bytes) => r := bytes[..n];
        case InSlot(slot, at) => r := containerCache.containerPool[slot][at..at + n];
        case InCurrent(at) => r := data[at..at + n];
      }
    }

    /** A copy of the decompressed chunk: LZ4_decompress_safe into the work buffer, then memcpy. */
    method Unpack(id: nat, block: seq<Byte>) returns (copy: seq<Byte>)
      requires data != lz4SafeChunkBuffer && lz4SafeChunkBuffer.Length == CONTAINER_MAX_SIZE
      requires id < |chunklist| == |contents| && chunklist[id].chunkSize == |contents[id]| <= CONTAINER_MAX_SIZE
      requires |block| <= CONTAINER_MAX_SIZE && IsBlockOf(block, contents[id])
      modifies lz4SafeChunkBuffer
      ensures copy == contents[id]
    {
      hide IsBlockOf;
      var decompressedSize := Lz4Decoder.DecompressBlock(block, contents[id], lz4SafeChunkBuffer);
      copy := lz4SafeChunkBuffer[..chunklist[id].chunkSize];
    }

    /** What a caller of Get_Chunk_Info can rely on. The pointer owns its memory exactly when the
        caller is told to free it. */
    ghost predicate Answers(info: ChunkInfo, id: nat)
      reads Repr()
      requires Valid() && id < |chunklist|
    {
      && info.entry == chunklist[id]
      && (info.loadFromDisk <==> info.ptr.Heap?)
      && Readable(info.ptr, Available(info.entry))
      && Behind(info.ptr, Available(info.entry))
         == (if info.entry.deltaFlag == NoDelta then contents[id] else Stored(Value(), id))
      && (info.ptr.InSlot? ==>
            var l := containerCache.Value().lru;
            l.keys != [] && l.keys[0] in l.cache && info.ptr.slot == l.cache[l.keys[0]])
    }

    method FromCache(id: nat) returns (info: ChunkInfo)
      requires Valid() && id < |chunklist| && chunklist[id].containerID in containerCache.readCache.cache
      modifies lz4SafeChunkBuffer, containerCache.readCache
      ensures Valid() && Answers(info, id)
      ensures FrontKept(old(containerCache.Value()), containerCache.Value())
    {
      hide StoreOk, PoolOk, CacheAgrees, IsBlockOf;
      EntryFacts(codec, Value(), contents, id);
      var e := chunklist[id];
      SlotHolds(Value(), containerCache.Value(), id);
      ReadAgrees(Value(), containerCache.Value(), e.containerID);
      StepKeepsFront(containerCache.Value(), ReadOp(e.containerID));
      var slot := containerCache.ReadFromCache(e.containerID);
      var ptr := InSlot(slot, e.offset);
      if e.deltaFlag != NoDelta {
        info := ChunkInfo(e, ptr, false);
      } else {
        var block := ReadBytes(ptr, e.saveSize);
        var copy := Unpack(id, block);
        info := ChunkInfo(e, Heap(copy), true);
      }
    }

    method FromDisk(id: nat) returns (info: ChunkInfo)
      requires Valid() && id < |chunklist|
      requires chunklist[id].containerID !in containerCache.readCache.cache && chunklist[id].containerID != containerNum
      modifies lz4SafeChunkBuffer, containerCache, containerCache.readCache, containerCache.containerPool
      ensures Valid() && Answers(info, id)
      ensures FrontKept(old(containerCache.Value()), containerCache.Value())
    {
      hide StoreOk, PoolOk, CacheAgrees, IsBlockOf;
      EntryFacts(codec, Value(), contents, id);
      var e := chunklist[id];
      var container := disk[e.containerID];
      var copy: seq<Byte> := container[e.offset..e.offset + e.saveSize];
      if e.deltaFlag == NoDelta {
        copy := Unpack(id, copy);
      }
      LoadAgrees(Value(), containerCache.Value(), e.containerID);
      StepKeepsFront(containerCache.Value(), LoadOp(e.containerID, container));
      containerCache.InsertToCache(e.containerID, container);
      info := ChunkInfo(e, Heap(copy), true);
    }

    method FromCurrent(id: nat) returns (info: ChunkInfo)
      requires Valid() && id < |chunklist| && chunklist[id].containerID == containerNum
      modifies lz4SafeChunkBuffer
      ensures Valid() && Answers(info, id)
      ensures FrontKept(old(containerCache.Value()), containerCache.Value())
    {
      hide StoreOk, PoolOk, CacheAgrees, IsBlockOf;
      EntryFacts(codec, Value(), contents, id);
      FrontSame(containerCache.Value());
      var e := chunklist[id];
      if e.deltaFlag != NoDelta {
        info := ChunkInfo(e, InCurrent(e.offset), false);
      } else {
        var block := data[e.offset..e.offset + e.saveSize];
        assert block == Stored(Value(), id);
        var copy := Unpack(id, block);
        info := ChunkInfo(e, Heap(copy), true);
      }
    }

    /** Get_Chunk_Info: from the cache if the container is there, else from its file, which is
        then cached, else from the container being filled. */
    method GetChunkInfo(id: nat) returns (info: ChunkInfo)
      requires Valid() && id < |chunklist|
      modifies lz4SafeChunkBuffer, containerCache, containerCache.readCache, containerCache.containerPool
      ensures Valid() && Answers(info, id)
      ensures FrontKept(old(containerCache.Value()), containerCache.Value())
    {
      hide StoreOk, PoolOk, CacheAgrees;
      EntryFacts(codec, Value(), contents, id);
      var e := chunklist[id];
      var hit := containerCache.ExistsInCache(e.containerID);
      if hit {
        info := FromCache(id);
      } else if e.containerID != containerNum {
        info := FromDisk(id);
      } else {
        info := FromCurrent(id);
      }
    }

    // ----- restore -------------------------------------------------------------------------------

    /** The second Get_Chunk_Info of a restore: it may evict a container, but never the one that
        the pointer of the first call points into. */
    method GetBase(info: ChunkInfo, ghost id: nat, baseId: nat) returns (base: ChunkInfo)
      requires Valid() && id < |chunklist| && Answers(info, id) && baseId < |chunklist|
      modifies lz4SafeChunkBuffer, containerCache, containerCache.readCache, containerCache.containerPool
      ensures Valid() && Answers(base, baseId)
      ensures Readable(info.ptr, Available(info.entry))
      ensures Behind(info.ptr, Available(info.entry)) == old(Behind(info.ptr, Available(info.entry)))
    {
      hide StoreOk, PoolOk, CacheAgrees, Stored, EntryPlaced;
      base := GetChunkInfo(baseId);
    }

    /** One chunk of a recipe. The delta is read through the pointer of the first Get_Chunk_Info
        after the second one has loaded the base. */
    method RestoreChunk(id: nat) returns (out: seq<Byte>)
      requires Valid() && id < |chunklist|
      modifies lz4SafeChunkBuffer, containerCache, containerCache.readCache, containerCache.containerPool
      ensures Valid() && out == contents[id]
    {
      hide StoreOk, PoolOk, CacheAgrees, FrontKept, Stored;
      DeltaFacts(codec, Value(), contents, id);
      var info := GetChunkInfo(id);
      if info.entry.deltaFlag == NoDelta || info.entry.deltaFlag == NoLz4 {
        out := ReadBytes(info.ptr, info.entry.chunkSize);
      } else {
        DeltaFacts(codec, Value(), contents, info.entry.basechunkID);
        var base := GetBase(info, id, info.entry.basechunkID);
        var delta := ReadBytes(info.ptr, info.entry.saveSize);
        var whole := ReadBytes(base.ptr, base.entry.chunkSize);
        out := codec.decode(delta, whole);
      }
    }

    /** restoreFile: the chunks of the recipe one after the other. */
    method RestoreFile(fileName: string) returns (out: seq<Byte>)
      requires Valid()
      modifies this`recipeMap, lz4SafeChunkBuffer, containerCache, containerCache.readCache, containerCache.containerPool
      ensures Valid() && recipeMap == (if fileName in old(recipeMap) then old(recipeMap) else old(recipeMap)[fileName := []])
      ensures fileName in recipeMap && out == Flatten(Resolve(contents, recipeMap[fileName]))
    {
      hide StoreOk, PoolOk, CacheAgrees;
      StoreIsPlaced(codec, Value(), contents);
      if fileName !in recipeMap {
        recipeMap := recipeMap[fileName := []];
      }
      ghost var recipes := recipeMap;
      var tmpRecipe := recipeMap[fileName];
      out := [];
      for i := 0 to |tmpRecipe|
        invariant Valid() && recipeMap == recipes
        invariant out == Flatten(Resolve(contents, tmpRecipe[..i]))
      {
        var piece := RestoreChunk(tmpRecipe[i]);
        out := out + piece;
        assert Resolve(contents, tmpRecipe[..i + 1]) == Resolve(contents, tmpRecipe[..i]) + [piece];
        FlattenPush(Resolve(contents, tmpRecipe[..i]), piece);
      }
      assert tmpRecipe[..|tmpRecipe|] == tmpRecipe;
    }
  }

  /** The chunks a recipe names. */
  function Resolve(contents: seq<seq<Byte>>, recipe: seq<nat>): (r: seq<seq<Byte>>)
    ensures |r| == |recipe|
  {
    seq(|recipe|, k requires 0 <= k < |recipe| => if recipe[k] < |contents| then contents[recipe[k]] else [])
  }

  lemma DeltaFacts(codec: Codec, s: Store, contents: seq<seq<Byte>>, i: nat)
    requires StoreOk(codec, s, contents) && i < |s.entries|
    ensures |s.entries| == |contents| && Placed(s)
    ensures s.entries[i].deltaFlag == NoLz4 ==> Stored(s, i) == contents[i]
    ensures IsBase(s.entries[i].deltaFlag) ==> Available(s.entries[i]) == s.entries[i].chunkSize == |contents[i]|
    ensures !IsBase(s.entries[i].deltaFlag) ==>
              var b := s.entries[i].basechunkID;
              0 <= b < i && IsBase(s.entries[b].deltaFlag) && codec.decode(Stored(s, i), contents[b]) == contents[i]
  {
    hide IsBlockOf;
    assert Means(codec, s, i, contents);
  }

  /** What Get_Chunk_Info needs to know of a stored chunk. */
  lemma EntryFacts(codec: Codec, s: Store, contents: seq<seq<Byte>>, i: nat)
    requires StoreOk(codec, s, contents) && i < |s.entries|
    ensures Placed(s) && EntryPlaced(s, s.entries[i]) && |s.entries| == |contents|
    ensures s.entries[i].containerID != s.num ==> s.entries[i].containerID in s.disk
    ensures s.entries[i].chunkSize == |contents[i]| <= CONTAINER_MAX_SIZE
    ensures |Container(s, s.entries[i].containerID)| <= CONTAINER_MAX_SIZE
    ensures |Stored(s, i)| == s.entries[i].saveSize <= CONTAINER_MAX_SIZE
    ensures s.entries[i].deltaFlag == NoDelta ==> IsBlockOf(Stored(s, i), contents[i])
  {
    hide IsBlockOf;
    assert Means(codec, s, i, contents);
  }

  lemma StoreIsPlaced(codec: Codec, s: Store, contents: seq<seq<Byte>>)
    requires StoreOk(codec, s, contents)
    ensures Placed(s) && |s.entries| == |contents|
  {
  }

  lemma EmptyStore(codec: Codec)
    ensures StoreOk(codec, Store([], map[], 0, []), [])
  {
  }

  /** RecipeMap[name].push_back(id), where operator[] creates a missing recipe. */
  function Pushed(recipes: map<string, seq<nat>>, name: string, id: nat): map<string, seq<nat>> {
    recipes[name := (if name in recipes then recipes[name] else []) + [id]]
  }
}
