/** Bytes, and pieces joined into one byte string. */
module Bytes {

  type Byte = x: int | 0 <= x < 256

  datatype Option<+T> = None | Some(value: T)

  function Flatten(pieces: seq<seq<Byte>>): seq<Byte> {
    if pieces == [] then [] else Flatten(pieces[..|pieces| - 1]) + pieces[|pieces| - 1]
  }

  lemma FlattenPush(pieces: seq<seq<Byte>>, piece: seq<Byte>)
    ensures Flatten(pieces + [piece]) == Flatten(pieces) + piece
  {
    assert (pieces + [piece])[..|pieces|] == pieces;
  }

  lemma FlattenNext(pieces: seq<seq<Byte>>, i: nat)
    requires i < |pieces|
    ensures Flatten(pieces[..i + 1]) == Flatten(pieces[..i]) + pieces[i]
  {
    assert pieces[..i + 1][..i] == pieces[..i];
  }

  lemma {:induction false} FlattenPrefix(pieces: seq<seq<Byte>>, i: nat)
    requires i <= |pieces|
    ensures |Flatten(pieces[..i])| <= |Flatten(pieces)|
    decreases |pieces| - i
  {
    if i < |pieces| {
      FlattenNext(pieces, i);
      FlattenPrefix(pieces, i + 1);
    } else {
      assert pieces[..i] == pieces;
    }
  }

  lemma {:induction false} FlattenConcat(a: seq<seq<Byte>>, b: seq<seq<Byte>>)
    ensures Flatten(a + b) == Flatten(a) + Flatten(b)
    decreases |b|
  {
    if b == [] {
      assert a + b == a;
    } else {
      var n := |b| - 1;
      assert (a + b)[..|a| + n] == a + b[..n];
      FlattenConcat(a, b[..n]);
    }
  }

  /** A chunk on its way from the chunker to the store, and whether it holds archive headers. */
  datatype Piece = Piece(bytes: seq<Byte>, header: bool)

  /** The contents of the data chunks, or of the header chunks, of a trace. */
  function Bodies(pieces: seq<Piece>, header: bool): seq<seq<Byte>> {
    if pieces == [] then []
    else
      var p := pieces[|pieces| - 1];
      Bodies(pieces[..|pieces| - 1], header) + if p.header == header then [p.bytes] else []
  }

  lemma BodiesPush(pieces: seq<Piece>, p: Piece, header: bool)
    ensures Bodies(pieces + [p], header) == if p.header == header then Bodies(pieces, header) + [p.bytes] else Bodies(pieces, header)
  {
    assert (pieces + [p])[..|pieces|] == pieces;
  }

  function PieceBytes(pieces: seq<Piece>): (r: seq<seq<Byte>>)
    ensures |r| == |pieces|
  {
    seq(|pieces|, i requires 0 <= i < |pieces| => pieces[i].bytes)
  }

  /** Chunks on their way to the store; none of them is a header. */
  function DataPieces(chunks: seq<seq<Byte>>): seq<Piece> {
    seq(|chunks|, k requires 0 <= k < |chunks| => Piece(chunks[k], false))
  }

  lemma {:induction false} DataPiecesAreBodies(chunks: seq<seq<Byte>>)
    ensures Bodies(DataPieces(chunks), false) == chunks
  {
    if chunks != [] {
      var n := |chunks| - 1;
      DataPiecesAreBodies(chunks[..n]);
      assert DataPieces(chunks) == DataPieces(chunks[..n]) + [Piece(chunks[n], false)];
      BodiesPush(DataPieces(chunks[..n]), Piece(chunks[n], false), false);
    }
  }

  lemma {:induction false} BodiesConcat(a: seq<Piece>, b: seq<Piece>, header: bool)
    ensures Bodies(a + b, header) == Bodies(a, header) + Bodies(b, header)
    decreases |b|
  {
    if b == [] {
      assert a + b == a;
    } else {
      var n := |b| - 1;
      assert (a + b)[..|a| + n] == a + b[..n];
      BodiesConcat(a, b[..n], header);
    }
  }

  lemma {:induction false} NoHeaderBodies(chunks: seq<seq<Byte>>)
    ensures Bodies(DataPieces(chunks), true) == []
  {
    if chunks != [] {
      assert DataPieces(chunks)[..|chunks| - 1] == DataPieces(chunks[..|chunks| - 1]);
      NoHeaderBodies(chunks[..|chunks| - 1]);
    }
  }
}
