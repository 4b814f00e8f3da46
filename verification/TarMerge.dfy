/**
 What restoreHeaderFile (src/datawrite/datawrite.cc) makes of the two recipes of an archive, whatever
 they hold: headers are taken one after the other, and each takes the data chunks that it announces
 from those that are left.
 */
module TarMerge {
  import opened Bytes
  import FastCdc
  import opened Tar
  import opened TarTrace

  /** The number of chunks that use up the size of a big payload; none if no number does. */
  function BigCount(data: seq<seq<Byte>>, left: nat): (r: Option<nat>)
    ensures r.Some? ==> r.value <= |data|
    decreases |data|
  {
    if left == 0 then Some(0)
    else if data == [] || |data[0]| > left then None
    else
      match BigCount(data[1..], left - |data[0]|)
      case None => None
      case Some(k) => Some(k + 1)
  }

  /** The number of chunks that a header takes. */
  function Taken(h: Head, data: seq<seq<Byte>>): (r: Option<nat>)
    ensures r.Some? ==> r.value <= |data|
  {
    if h.size == 0 || h.next == FileHeader || data == [] then Some(0)
    else if h.next == FileChunk then Some(1)
    else BigCount(data, h.big)
  }

  /** What is read from joined header segments and data chunks. The reader goes astray if chunks are
      left when the headers are used up, or if no chunks end with a big payload. */
  function ItemsRead(heads: seq<Byte>, data: seq<seq<Byte>>): Option<seq<Item>>
    decreases |heads|
  {
    if heads == [] && data == [] then Some([])
    else if |heads| < HEADER_SIZE then None
    else
      var head := heads[..HEADER_SIZE];
      match Taken(RestoreHead(head), data)
      case None => None
      case Some(k) =>
        match ItemsRead(heads[HEADER_SIZE..], data[k..])
        case None => None
        case Some(items) => Some([Item(head, data[..k])] + items)
  }

  /** The reader also goes astray in a segment that is empty, too long for its buffer, or does not
      hold whole headers. */
  ghost function Read(headers: seq<seq<Byte>>, data: seq<seq<Byte>>): Option<seq<Item>> {
    if SegmentsOk(headers) then ItemsRead(Flatten(headers), data) else None
  }

  // ----- when the items read are the items stored ----------------------------------------------

  /** The chunks of an item are those its header takes for the reader. */
  ghost predicate Own(it: Item) {
    && |it.head| == HEADER_SIZE
    && var h := RestoreHead(it.head);
       if h.size == 0 || h.next == FileHeader then it.body == []
       else if h.next == FileChunk then |it.body| == 1
       else BigCount(it.body, h.big) == Some(|it.body|)
  }

  ghost predicate NoData(items: seq<Item>) { forall i :: 0 <= i < |items| ==> items[i].body == [] }

  /** Every item has the chunks that its header takes, or there are none from it on. */
  ghost predicate Matched(items: seq<Item>)
    decreases |items|
  {
    items == [] || ((Own(items[0]) || (|items[0].head| == HEADER_SIZE && NoData(items))) && Matched(items[1..]))
  }

  lemma {:induction false} CountAll(body: seq<seq<Byte>>, more: seq<seq<Byte>>, left: nat)
    ensures BigCount(body + more, left) == Some(|body|) <==> BigCount(body, left) == Some(|body|)
    decreases |body|
  {
    if body != [] && left > 0 && |body[0]| <= left {
      assert (body + more)[1..] == body[1..] + more;
      CountAll(body[1..], more, left - |body[0]|);
    }
  }

  lemma {:induction false} NoDataIff(items: seq<Item>)
    ensures NoData(items) <==> DataChunks(items) == []
  {
    if items != [] {
      var n := |items| - 1;
      NoDataIff(items[..n]);
      assert NoData(items) <==> NoData(items[..n]) && items[n].body == [];
    }
  }

  /** A header takes exactly the chunks of its item. */
  lemma TakenIff(it: Item, more: seq<Item>)
    requires |it.head| == HEADER_SIZE
    ensures Taken(RestoreHead(it.head), it.body + DataChunks(more)) == Some(|it.body|)
       <==> Own(it) || (it.body == [] && NoData(more))
  {
    hide RestoreHead, BigCount;
    NoDataIff(more);
    CountAll(it.body, DataChunks(more), RestoreHead(it.head).big);
  }

  lemma NoDataFront(it: Item, more: seq<Item>)
    ensures NoData([it] + more) <==> it.body == [] && NoData(more)
  {
    var items := [it] + more;
    if NoData(items) {
      assert items[0].body == [];
      forall i | 0 <= i < |more| ensures more[i].body == [] {
        assert items[i + 1].body == [];
      }
    }
  }

  /** The reader writes what was stored, item for item, if and only if the items are matched. */
  lemma {:induction false} ReadIff(items: seq<Item>)
    ensures ItemsRead(Heads(items), DataChunks(items)) == Some(items) <==> Matched(items)
    decreases |items|
  {
    hide Taken, Own, NoData, Heads, DataChunks, RestoreHead;
    if items == [] {
      NothingRead();
    } else {
      var it, more := items[0], items[1..];
      assert items == [it] + more;
      Front(it, more);
      NoDataFront(it, more);
      ReadIff(more);
      var heads, data := Heads(items), DataChunks(items);
      OwnHead(it);
      if |it.head| == HEADER_SIZE {
        TakenIff(it, more);
        assert heads[..HEADER_SIZE] == it.head && heads[HEADER_SIZE..] == Heads(more);
        assert data[..|it.body|] == it.body && data[|it.body|..] == DataChunks(more);
      }
      var read := ItemsRead(heads, data);
      if read == Some(items) {
        assert read.value[0] == it && read.value[1..] == more;
      }
    }
  }

  lemma NothingRead()
    ensures ItemsRead(Heads([]), DataChunks([])) == Some([]) && Matched([])
  {
  }

  lemma OwnHead(it: Item)
    ensures Own(it) ==> |it.head| == HEADER_SIZE
  {
  }

  lemma ReadNext(it: Item, heads: seq<Byte>, data: seq<seq<Byte>>)
    requires |it.head| == HEADER_SIZE && Taken(RestoreHead(it.head), it.body + data) == Some(|it.body|)
    ensures ItemsRead(it.head + heads, it.body + data)
         == match ItemsRead(heads, data)
            case None => None
            case Some(more) => Some([it] + more)
  {
    hide Taken, RestoreHead;
    var h, d := it.head + heads, it.body + data;
    assert h[..HEADER_SIZE] == it.head && h[HEADER_SIZE..] == heads;
    assert d[..|it.body|] == it.body && d[|it.body|..] == data;
  }

  /** Items that take their own chunks are read as they are, whatever follows. */
  lemma {:induction false} ReadOn(items: seq<Item>, heads: seq<Byte>, data: seq<seq<Byte>>)
    requires forall i :: 0 <= i < |items| ==> Own(items[i])
    ensures ItemsRead(Heads(items) + heads, DataChunks(items) + data)
         == match ItemsRead(heads, data)
            case None => None
            case Some(more) => Some(items + more)
    decreases |items|
  {
    hide Taken, Own, Heads, DataChunks, RestoreHead, ItemsRead;
    if items == [] {
      NothingHeld();
      assert [] + heads == heads && [] + data == data;
      if ItemsRead(heads, data).Some? {
        assert items + ItemsRead(heads, data).value == ItemsRead(heads, data).value;
      }
    } else {
      var it, rest := items[0], items[1..];
      assert items == [it] + rest;
      Front(it, rest);
      ReadOn(rest, heads, data);
      OwnHead(it);
      OwnTaken(it, DataChunks(rest) + data);
      assert Heads(items) + heads == it.head + (Heads(rest) + heads);
      assert DataChunks(items) + data == it.body + (DataChunks(rest) + data);
      ReadNext(it, Heads(rest) + heads, DataChunks(rest) + data);
      if ItemsRead(heads, data).Some? {
        assert [it] + (rest + ItemsRead(heads, data).value) == items + ItemsRead(heads, data).value;
      }
    }
  }

  lemma NothingHeld()
    ensures Heads([]) == [] && DataChunks([]) == []
  {
  }

  lemma OwnTaken(it: Item, more: seq<seq<Byte>>)
    requires Own(it)
    ensures Taken(RestoreHead(it.head), it.body + more) == Some(|it.body|)
  {
    hide RestoreHead, BigCount;
    CountAll(it.body, more, RestoreHead(it.head).big);
    CountNothing(it.body, RestoreHead(it.head).big);
  }

  /** Without chunks only a payload of size 0 is used up. */
  lemma CountNothing(body: seq<seq<Byte>>, left: nat)
    ensures body == [] && BigCount(body, left).Some? ==> left == 0
  {
  }

  // ----- archives read at once -------------------------------------------------------------------

  /** Complete items have what their headers take. */
  lemma CompleteIsOwn(it: Item)
    requires Complete(it)
    ensures Own(it)
  {
    hide ChunkerHead, RestoreHead, GoodHead;
    GoodLeft(it.head);
    assert |it.head| == HEADER_SIZE by { GoodSize(it.head); }
    if ChunkerHead(it.head).next == BigChunk {
      CountFlat(it.body, ChunkerHead(it.head).big);
    }
  }

  lemma GoodSize(head: seq<Byte>)
    requires GoodHead(head)
    ensures |head| == HEADER_SIZE
  {
  }

  lemma {:induction false} CountFlat(body: seq<seq<Byte>>, left: nat)
    requires NonEmptyAll(body) && |Flatten(body)| == left
    ensures BigCount(body, left) == Some(|body|)
    decreases |body|
  {
    hide Flatten;
    if body == [] {
      assert |Flatten(body)| == 0 by { NothingJoined(); }
    } else {
      assert body == [body[0]] + body[1..];
      FlattenConcat([body[0]], body[1..]);
      FlattenSingle(body[0]);
      CountFlat(body[1..], left - |body[0]|);
    }
  }

  lemma NothingJoined()
    ensures Flatten([]) == []
  {
  }

  lemma {:induction false} OkIsMatched(items: seq<Item>)
    requires ItemsOk(items)
    ensures Matched(items)
    decreases |items|
  {
    hide Complete, GoodHead, Own;
    if items != [] {
      if Complete(items[0]) {
        CompleteIsOwn(items[0]);
      } else {
        GoodSize(items[0].head);
      }
      assert ItemsOk(items[1..]);
      OkIsMatched(items[1..]);
    }
  }

  // ----- files that come back --------------------------------------------------------------------

  /** The chunker does not go astray, and the reader finds the same items in its queue. */
  ghost predicate ItemsReturn(p: FastCdc.Params, a: seq<Byte>)
    requires ParamsFit(p)
  {
    var r := ReadInWindows(p, a);
    r.ok && Read(Bodies(r.queue, true), Bodies(r.queue, false)) == Some(r.items)
  }

  /** What the reader writes for the queue of a file. */
  ghost function Merged(p: FastCdc.Params, a: seq<Byte>): Option<seq<Byte>>
    requires ParamsFit(p)
  {
    var r := ReadInWindows(p, a);
    match Read(Bodies(r.queue, true), Bodies(r.queue, false))
    case None => None
    case Some(items) => Some(Joined(items))
  }

  /** Whatever the file, it comes back item for item if and only if every block that was taken for a
      header has behind it what it announces to the reader. */
  lemma ReturnIff(p: FastCdc.Params, a: seq<Byte>)
    requires ParamsFit(p)
    ensures ItemsReturn(p, a) <==> ReadInWindows(p, a).ok && Matched(ReadInWindows(p, a).items)
    ensures ItemsReturn(p, a) ==> Merged(p, a) == Some(a)
  {
    hide ReadInWindows, Matched, Heads, DataChunks, Bodies, Joined, SegmentsOk, ItemsRead, FullHeads;
    var r := ReadInWindows(p, a);
    if r.ok {
      QueueHoldsItems(p, a);
      ReadIff(r.items);
      if Matched(r.items) {
        MatchedHeads(r.items);
      }
    }
  }

  lemma {:induction false} MatchedHeads(items: seq<Item>)
    requires Matched(items)
    ensures FullHeads(items)
    decreases |items|
  {
    hide Own;
    if items != [] {
      OwnHead(items[0]);
      MatchedHeads(items[1..]);
    }
  }

  /** A well-formed archive that no window end clips comes back. */
  lemma WholeReturns(p: FastCdc.Params, a: seq<Byte>)
    requires ParamsFit(p) && WellFormed(a) && ReadInWindows(p, a).whole
    ensures ItemsReturn(p, a) && Merged(p, a) == Some(a)
  {
    hide Parse, ItemsReturn, Merged, Matched, ItemsOk, WellFormed;
    WindowsKeepItems(p, a);
    ItemsMean(p, a);
    OkIsMatched(ItemsOf(p, a));
    ReturnIff(p, a);
  }
}
