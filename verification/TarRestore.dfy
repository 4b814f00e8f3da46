/**
 restoreHeaderFile of src/datawrite/datawrite.cc: headers are read from the segments of the header
 recipe, each is parsed again, and the payload it announces is taken from the data recipe. Whatever
 the two recipes hold, what is written is what `TarMerge.Read` makes of them.
 */
module TarRestore {
  import opened Bytes
  import opened Tar
  import opened TarMerge
  import opened ChunkStore
  import opened DataWriter
  import AbsMethod

  /** Items read already, and what is read of the rest. */
  function Then(done: seq<Item>, rest: Option<seq<Item>>): Option<seq<Item>> {
    match rest
    case None => None
    case Some(items) => Some(done + items)
  }

  /** `hp` segments are loaded and `buffered` is left of the last, `dp` data chunks are used, and
      `done` is written. */
  ghost predicate Standing(headers: seq<seq<Byte>>, data: seq<seq<Byte>>, hp: nat, dp: nat, buffered: seq<Byte>, done: seq<Item>, out: seq<Byte>) {
    && hp <= |headers| && dp <= |data| && |buffered| % HEADER_SIZE == 0
    && SegmentsOk(headers[..hp]) && out == Joined(done)
    && ItemsRead(Flatten(headers), data) == Then(done, ItemsRead(buffered + Flatten(headers[hp..]), data[dp..]))
  }

  lemma StandingAtStart(headers: seq<seq<Byte>>, data: seq<seq<Byte>>)
    ensures Standing(headers, data, 0, 0, [], [], [])
  {
    hide ItemsRead;
    assert headers[0..] == headers && data[0..] == data && [] + Flatten(headers) == Flatten(headers);
    var r := ItemsRead(Flatten(headers), data);
    if r.Some? {
      assert [] + r.value == r.value;
    }
  }

  /** All used up: what is written is what there was to read. */
  lemma StandingAtEnd(headers: seq<seq<Byte>>, data: seq<seq<Byte>>, done: seq<Item>, out: seq<Byte>)
    requires Standing(headers, data, |headers|, |data|, [], done, out)
    ensures Read(headers, data) == Some(done) && out == Joined(done)
  {
    assert headers[..|headers|] == headers && headers[|headers|..] == [] && data[|data|..] == [];
    assert Flatten([]) == [] && done + [] == done;
  }

  /** A new segment is loaded when the buffered one is used up, unless the reader would go astray. */
  lemma LoadStep(headers: seq<seq<Byte>>, data: seq<seq<Byte>>, hp: nat, dp: nat, done: seq<Item>, out: seq<Byte>)
    requires Standing(headers, data, hp, dp, [], done, out) && hp < |headers|
    ensures if 0 < |headers[hp]| <= MULTI_HEADER_SIZE && |headers[hp]| % HEADER_SIZE == 0
            then Standing(headers, data, hp + 1, dp, headers[hp], done, out)
            else Read(headers, data) == None
  {
    hide ItemsRead, Joined;
    var rest := headers[hp..];
    assert rest == [headers[hp]] + headers[hp + 1..];
    FlattenConcat([headers[hp]], headers[hp + 1..]);
    FlattenPush([], headers[hp]);
    assert [] + [headers[hp]] == [headers[hp]];
    assert [] + Flatten(rest) == headers[hp] + Flatten(headers[hp + 1..]);
    assert headers[..hp + 1] == headers[..hp] + [headers[hp]];
  }

  /** Chunks are left but no header. */
  lemma NoHeader(headers: seq<seq<Byte>>, data: seq<seq<Byte>>, dp: nat, done: seq<Item>, out: seq<Byte>)
    requires Standing(headers, data, |headers|, dp, [], done, out) && dp < |data|
    ensures Read(headers, data) == None
  {
    assert headers[|headers|..] == [] && Flatten([]) == [];
  }

  /** One header with the chunks that it takes. */
  lemma ItemStep(headers: seq<seq<Byte>>, data: seq<seq<Byte>>, hp: nat, dp: nat, buffered: seq<Byte>, done: seq<Item>, out: seq<Byte>)
    requires Standing(headers, data, hp, dp, buffered, done, out) && buffered != []
    ensures |buffered| >= HEADER_SIZE
    ensures var head := buffered[..HEADER_SIZE];
            match Taken(RestoreHead(head), data[dp..])
            case None => Read(headers, data) == None
            case Some(k) =>
              dp + k <= |data| && var body := data[dp..dp + k];
              Standing(headers, data, hp, dp + k, buffered[HEADER_SIZE..], done + [Item(head, body)], out + head + Flatten(body))
  {
    hide Taken, RestoreHead, Flatten, SegmentsOk;
    var head, later := buffered[..HEADER_SIZE], Flatten(headers[hp..]);
    var rest := buffered + later;
    assert rest[..HEADER_SIZE] == head && rest[HEADER_SIZE..] == buffered[HEADER_SIZE..] + later;
    match Taken(RestoreHead(head), data[dp..])
    case None =>
    case Some(k) =>
      var it := Item(head, data[dp..dp + k]);
      assert data[dp..][..k] == it.body && data[dp..][k..] == data[dp + k..];
      assert (done + [it])[..|done|] == done;
      var more := ItemsRead(rest[HEADER_SIZE..], data[dp + k..]);
      if more.Some? {
        assert done + ([it] + more.value) == done + [it] + more.value;
      }
  }

  // ----- the chunks of a big payload -----------------------------------------------------------

  function Plus(n: nat, o: Option<nat>): Option<nat> {
    match o
    case None => None
    case Some(k) => Some(n + k)
  }

  lemma NoneYet(data: seq<seq<Byte>>, dp: nat, left: nat)
    requires dp <= |data|
    ensures Flatten(data[dp..dp]) == [] && BigCount(data[dp..], 0) == Some(0)
    ensures BigCount(data[dp..], left) == Plus(0, BigCount(data[dp..], left))
  {
  }

  lemma OneChunk(data: seq<seq<Byte>>, dp: nat)
    requires dp < |data|
    ensures Flatten(data[dp..dp + 1]) == data[dp]
  {
    assert data[dp..dp + 1][..0] == [];
  }

  lemma NoMore(data: seq<seq<Byte>>, dp: nat, left: nat)
    requires dp <= |data| && left > 0 && (dp == |data| || |data[dp]| > left)
    ensures BigCount(data[dp..], left) == None
  {
  }

  lemma OneMore(data: seq<seq<Byte>>, dp0: nat, dp: nat, left: nat)
    requires dp0 <= dp < |data| && left > 0 && |data[dp]| <= left
    ensures BigCount(data[dp..], left) == Plus(1, BigCount(data[dp + 1..], left - |data[dp]|))
    ensures Flatten(data[dp0..dp + 1]) == Flatten(data[dp0..dp]) + data[dp]
  {
    assert data[dp..][1..] == data[dp + 1..];
    assert data[dp0..dp + 1][..dp - dp0] == data[dp0..dp];
  }

  class TarReader {
    const dataWrite: DataWrite
    var nextChunkType: BlockType
    var nextChunkSize: nat
    var bigChunkSize: nat
    const multiHeaderBuffer: array<Byte>
    var multiHeaderChunkSize: nat
    var multiHeaderOffset: nat

    ghost predicate Valid()
      reads this, dataWrite.Repr()
    {
      && this !in dataWrite.Repr() && multiHeaderBuffer !in dataWrite.Repr()
      && multiHeaderBuffer.Length == MULTI_HEADER_SIZE
      && dataWrite.Valid()
    }

    /** The recipe names stored chunks. */
    ghost predicate IdsOk(recipe: seq<nat>)
      reads dataWrite
    {
      |dataWrite.chunklist| == |dataWrite.contents| && forall i :: 0 <= i < |recipe| ==> recipe[i] < |dataWrite.chunklist|
    }

    constructor (dataWrite: DataWrite)
      requires dataWrite.Valid()
      ensures Valid() && this.dataWrite == dataWrite && fresh(multiHeaderBuffer)
      ensures multiHeaderChunkSize == multiHeaderOffset == 0
    {
      this.dataWrite := dataWrite;
      multiHeaderBuffer := new Byte[MULTI_HEADER_SIZE];
      nextChunkType, nextChunkSize, bigChunkSize, multiHeaderChunkSize, multiHeaderOffset := FileHeader, 0, 0, 0, 0;
    }

    /** dataWrite::CutPointTarFast, which is only ever asked about headers. */
    method CutHeader(block: seq<Byte>)
      requires |block| == HEADER_SIZE
      modifies this`nextChunkType, this`nextChunkSize, this`bigChunkSize
      ensures Head(nextChunkType, nextChunkSize, if nextChunkType == BigChunk then bigChunkSize else 0) == RestoreHead(block)
    {
      nextChunkType := FileHeader;
      nextChunkSize := ReadSize(block[124..135], 48);
      if block[156] == REGTYPE {
        CutBySize();
      }
      if block[156] == AREGTYPE {
        nextChunkSize := ReadSize(block[124..135], 0);
        CutBySize();
      }
      if block[156] == XHDTYPE || block[156] == GNUTYPE_LONGNAME {
        nextChunkType := FileChunk;
      }
    }

    method CutBySize()
      modifies this`nextChunkType, this`bigChunkSize
      ensures Head(nextChunkType, nextChunkSize, if nextChunkType == BigChunk then bigChunkSize else 0) == BySize(nextChunkSize)
    {
      if nextChunkSize <= Tar.CONTAINER_MAX_SIZE {
        nextChunkType := FileChunk;
      } else {
        nextChunkType := BigChunk;
        bigChunkSize := RoundUp(nextChunkSize);
      }
    }

    /** The data chunks of a big payload, until its size is used up; `ok` is false if they do not end
        with it. */
    method WriteBig(dr: seq<nat>, dp0: nat) returns (ok: bool, dp: nat, out: seq<Byte>)
      requires Valid() && IdsOk(dr) && dp0 <= |dr|
      modifies dataWrite.lz4SafeChunkBuffer, dataWrite.containerCache, dataWrite.containerCache.readCache,
        dataWrite.containerCache.containerPool
      ensures Valid()
      ensures var data := Resolve(dataWrite.contents, dr);
              match BigCount(data[dp0..], bigChunkSize)
              case None => !ok
              case Some(k) => ok && dp == dp0 + k && out == Flatten(data[dp0..dp])
    {
      hide DataWrite.Valid, BigCount, Flatten;
      ghost var data := Resolve(dataWrite.contents, dr);
      NoneYet(data, dp0, bigChunkSize);
      var left: nat := bigChunkSize;
      ok, dp, out := true, dp0, [];
      while left > 0
        invariant Valid() && dp0 <= dp <= |dr| && out == Flatten(data[dp0..dp])
        invariant BigCount(data[dp0..], bigChunkSize) == Plus(dp - dp0, BigCount(data[dp..], left))
        decreases |dr| - dp
      {
        if dp == |dr| {
          NoMore(data, dp, left);
          ok := false;
          return;
        }
        var chunk := dataWrite.RestoreChunk(dr[dp]);
        if |chunk| > left {
          NoMore(data, dp, left);
          ok := false;
          return;
        }
        OneMore(data, dp0, dp, left);
        out := out + chunk;
        left := left - |chunk|;
        dp := dp + 1;
      }
      NoneYet(data, dp, 0);
    }

    /** A fresh segment in the buffer, if it fits and holds whole headers. */
    method LoadSegment(id: nat) returns (ok: bool)
      requires Valid() && id < |dataWrite.chunklist| == |dataWrite.contents|
      modifies this`multiHeaderChunkSize, this`multiHeaderOffset, multiHeaderBuffer, dataWrite.lz4SafeChunkBuffer,
        dataWrite.containerCache, dataWrite.containerCache.readCache, dataWrite.containerCache.containerPool
      ensures Valid()
      ensures ok <==> 0 < |dataWrite.contents[id]| <= MULTI_HEADER_SIZE && |dataWrite.contents[id]| % HEADER_SIZE == 0
      ensures ok ==> multiHeaderOffset == 0 && multiHeaderChunkSize == |dataWrite.contents[id]| <= multiHeaderBuffer.Length
      ensures ok ==> multiHeaderBuffer[..multiHeaderChunkSize] == dataWrite.contents[id]
    {
      hide DataWrite.Valid;
      var chunk := dataWrite.RestoreChunk(id);
      ok := 0 < |chunk| <= multiHeaderBuffer.Length && |chunk| % HEADER_SIZE == 0;
      if ok {
        multiHeaderChunkSize, multiHeaderOffset := |chunk|, 0;
        forall i | 0 <= i < |chunk| {
          multiHeaderBuffer[i] := chunk[i];
        }
      }
    }

    /** The payload that the header just read announces. */
    method WriteBody(dr: seq<nat>, dp0: nat) returns (ok: bool, dp: nat, out: seq<Byte>)
      requires Valid() && IdsOk(dr) && dp0 <= |dr|
      modifies dataWrite.lz4SafeChunkBuffer, dataWrite.containerCache, dataWrite.containerCache.readCache,
        dataWrite.containerCache.containerPool
      ensures Valid()
      ensures var data := Resolve(dataWrite.contents, dr);
              match Taken(Head(nextChunkType, nextChunkSize, if nextChunkType == BigChunk then bigChunkSize else 0), data[dp0..])
              case None => !ok
              case Some(k) => ok && dp == dp0 + k && out == Flatten(data[dp0..dp])
    {
      hide DataWrite.Valid, BigCount, Flatten;
      ok, dp, out := true, dp0, [];
      NoneYet(Resolve(dataWrite.contents, dr), dp0, 0);
      if nextChunkSize == 0 {
        return;
      }
      if nextChunkType == FileChunk && dp != |dr| {
        OneChunk(Resolve(dataWrite.contents, dr), dp);
        out := dataWrite.RestoreChunk(dr[dp]);
        dp := dp + 1;
      }
      if nextChunkType == BigChunk && dp != |dr| {
        ok, dp, out := WriteBig(dr, dp);
      }
    }

    /** The bytes of the buffered segment that are not used yet. */
    ghost function Buffered(): seq<Byte>
      reads this, multiHeaderBuffer
      requires multiHeaderOffset <= multiHeaderChunkSize <= multiHeaderBuffer.Length
    {
      multiHeaderBuffer[multiHeaderOffset..multiHeaderChunkSize]
    }

    /** Supplements the header buffer when it is used up; `ok` is false if the segment does not fit it or
        does not hold whole headers. */
    method Refill(hr: seq<nat>, ghost data: seq<seq<Byte>>, hp0: nat, ghost dp: nat, ghost done: seq<Item>, ghost out: seq<Byte>)
      returns (ok: bool, hp: nat)
      requires Valid() && IdsOk(hr) && hp0 <= |hr| && multiHeaderOffset <= multiHeaderChunkSize <= multiHeaderBuffer.Length
      requires Standing(Resolve(dataWrite.contents, hr), data, hp0, dp, Buffered(), done, out)
      modifies this`multiHeaderChunkSize, this`multiHeaderOffset, multiHeaderBuffer, dataWrite.lz4SafeChunkBuffer,
        dataWrite.containerCache, dataWrite.containerCache.readCache, dataWrite.containerCache.containerPool
      ensures Valid() && (!ok ==> Read(Resolve(dataWrite.contents, hr), data) == None)
      ensures ok ==> hp <= |hr| && multiHeaderOffset <= multiHeaderChunkSize <= multiHeaderBuffer.Length
      ensures ok ==> Standing(Resolve(dataWrite.contents, hr), data, hp, dp, Buffered(), done, out)
      ensures ok && multiHeaderChunkSize == multiHeaderOffset ==> hp == hp0 == |hr|
      ensures ok ==> hp > hp0 || (hp == hp0 && multiHeaderChunkSize - multiHeaderOffset == old(multiHeaderChunkSize - multiHeaderOffset))
    {
      hide DataWrite.Valid, Standing, Read;
      ok, hp := true, hp0;
      if multiHeaderChunkSize == multiHeaderOffset && hp != |hr| {
        ghost var headers := Resolve(dataWrite.contents, hr);
        assert Buffered() == [];
        LoadStep(headers, data, hp, dp, done, out);
        ok := LoadSegment(hr[hp]);
        if ok {
          assert Buffered() == headers[hp];
          hp := hp + 1;
        }
      }
    }

    /** One header from the buffer, and its payload. */
    method NextItemOut(dr: seq<nat>, dp0: nat) returns (ok: bool, block: seq<Byte>, dp: nat, payload: seq<Byte>)
      requires Valid() && IdsOk(dr) && dp0 <= |dr| && multiHeaderOffset + HEADER_SIZE <= multiHeaderChunkSize <= multiHeaderBuffer.Length
      modifies this`nextChunkType, this`nextChunkSize, this`bigChunkSize, this`multiHeaderOffset, dataWrite.lz4SafeChunkBuffer,
        dataWrite.containerCache, dataWrite.containerCache.readCache, dataWrite.containerCache.containerPool
      ensures Valid() && multiHeaderOffset == old(multiHeaderOffset) + HEADER_SIZE
      ensures block == old(Buffered())[..HEADER_SIZE] && Buffered() == old(Buffered())[HEADER_SIZE..]
      ensures var data := Resolve(dataWrite.contents, dr);
              match Taken(RestoreHead(block), data[dp0..])
              case None => !ok
              case Some(k) => ok && dp == dp0 + k && payload == Flatten(data[dp0..dp])
    {
      hide DataWrite.Valid, Taken, RestoreHead;
      block := multiHeaderBuffer[multiHeaderOffset..multiHeaderOffset + HEADER_SIZE];
      CutHeader(block);
      multiHeaderOffset := multiHeaderOffset + HEADER_SIZE;
      ok, dp, payload := WriteBody(dr, dp0);
    }

    /** restoreHeaderFile: whatever the two recipes of a file hold, what is written is what there is to
        read in them; `ok` is false where the reader would go astray. */
    method RestoreHeaderFile(fileName: string) returns (ok: bool, out: seq<Byte>)
      requires Valid() && multiHeaderChunkSize == multiHeaderOffset
      modifies this, multiHeaderBuffer, dataWrite.lz4SafeChunkBuffer, dataWrite.containerCache,
        dataWrite.containerCache.readCache, dataWrite.containerCache.containerPool
      ensures Valid() && (ok ==> multiHeaderChunkSize == multiHeaderOffset)
      ensures match Read(Resolve(dataWrite.contents, AbsMethod.RecipeOf(dataWrite.recipeMapHeader, fileName)),
                         Resolve(dataWrite.contents, AbsMethod.RecipeOf(dataWrite.recipeMap, fileName)))
              case None => !ok
              case Some(items) => ok && out == Joined(items)
    {
      hide StoreOk, ContainerCache.PoolOk, CacheAgrees, Read;
      var hr := AbsMethod.RecipeOf(dataWrite.recipeMapHeader, fileName);
      var dr := AbsMethod.RecipeOf(dataWrite.recipeMap, fileName);
      StoreIsPlaced(dataWrite.codec, dataWrite.Value(), dataWrite.contents);
      ok, out := MergeRecipes(hr, dr);
    }

    /** The loop of restoreHeaderFile. */
    method MergeRecipes(hr: seq<nat>, dr: seq<nat>) returns (ok: bool, out: seq<Byte>)
      requires Valid() && IdsOk(hr) && IdsOk(dr)
      modifies this, multiHeaderBuffer, dataWrite.lz4SafeChunkBuffer, dataWrite.containerCache,
        dataWrite.containerCache.readCache, dataWrite.containerCache.containerPool
      ensures Valid() && (ok ==> multiHeaderChunkSize == multiHeaderOffset)
      ensures match Read(Resolve(dataWrite.contents, hr), Resolve(dataWrite.contents, dr))
              case None => !ok
              case Some(items) => ok && out == Joined(items)
    {
      hide DataWrite.Valid, Standing, Read, RestoreHead, Taken;
      ghost var headers, data := Resolve(dataWrite.contents, hr), Resolve(dataWrite.contents, dr);
      multiHeaderChunkSize, multiHeaderOffset := 0, 0;
      var hp: nat, dp: nat := 0, 0;
      ok, out := true, [];
      ghost var done := [];
      StandingAtStart(headers, data);
      assert Buffered() == [];
      while hp != |hr| || dp != |dr| || multiHeaderChunkSize != multiHeaderOffset
        invariant Valid() && ok && hp <= |hr| && dp <= |dr| && multiHeaderOffset <= multiHeaderChunkSize <= multiHeaderBuffer.Length
        invariant Standing(headers, data, hp, dp, Buffered(), done, out)
        decreases |hr| - hp, multiHeaderChunkSize - multiHeaderOffset
      {
        ok, hp := Refill(hr, data, hp, dp, done, out);
        if !ok {
          return;
        }
        if multiHeaderChunkSize == multiHeaderOffset {
          NoHeader(headers, data, dp, done, out);
          ok := false;
          return;
        }
        ItemStep(headers, data, hp, dp, Buffered(), done, out);
        var block, payload;
        ghost var from := dp;
        ok, block, dp, payload := NextItemOut(dr, dp);
        if !ok {
          return;
        }
        out := out + block + payload;
        done := done + [Item(block, data[from..dp])];
      }
      assert Buffered() == [];
      StandingAtEnd(headers, data, done, out);
    }
  }
}
