/** What the sequences of a namespace are: one blob each, provided the shares are in order. */
module NamespaceBlobs {
  import opened Wrappers
  import opened Bytes
  import opened Shares
  import opened ShareCounts
  import opened NamespaceData

  // ------------------------------------------------ when a sequence begins with a start

  /** The continuation share at `i` follows a share that counts, with no start in between. */
  ghost predicate Continues(flat: seq<Share>, i: nat)
    requires i < |flat|
  {
    exists k :: 0 <= k < i && Counts(flat[k]) && (forall j :: k < j <= i ==> !IsStart(flat[j]))
  }

  ghost predicate EveryContinuationContinues(flat: seq<Share>) {
    forall i :: 0 <= i < |flat| && Counts(flat[i]) && !IsStart(flat[i]) ==> Continues(flat, i)
  }

  /** Exactly the first share of every sequence is a sequence start. */
  ghost predicate EveryoneBeginsWithAStart(flat: seq<Share>) {
    forall k :: 0 <= k < |Sequences(flat, 0)| ==> BeginsWithAStart(Sequences(flat, 0)[k])
  }

  ghost predicate BeginsWithAStart(s: ShareSequence) {
    s.shares != [] && IsStart(s.shares[0]) && forall i :: 0 < i < |s.shares| ==> !IsStart(s.shares[i])
  }

  lemma {:induction false} CountedHasNoStart(shares: seq<Share>)
    requires forall i :: 0 <= i < |shares| ==> !IsStart(shares[i])
    ensures forall i :: 0 <= i < |Counted(shares)| ==> !IsStart(Counted(shares)[i])
  {
    if shares != [] {
      CountedHasNoStart(shares[1..]);
    }
  }

  /** A range of the k-th sequence decides by its first share. */
  lemma FirstDecides(flat: seq<Share>, k: nat)
    requires k < |Sequences(flat, 0)|
    ensures var s := Sequences(flat, 0)[k];
            s.start < |flat| && (BeginsWithAStart(s) <==> IsStart(flat[s.start]))
  {
    RangesAreExact(flat, 0, k);
    var s := Sequences(flat, 0)[k];
    var range := flat[s.start..s.end];
    assert range[0] == flat[s.start];
    assert forall i :: 0 <= i < |range[1..]| ==> range[1..][i] == flat[s.start + 1 + i];
    CountedHasNoStart(range[1..]);
    assert s.shares == [range[0]] + Counted(range[1..]);
  }

  lemma {:induction false} NothingBeforeFirst(flat: seq<Share>, off: nat, i: nat)
    requires off <= |flat| && off <= i < FirstCounted(flat, off)
    ensures !Counts(flat[i])
    decreases i - off
  {
    if off < i {
      NothingBeforeFirst(flat, off + 1, i);
    }
  }

  /** Where a call may leave the offset. */
  predicate CutPoint(flat: seq<Share>, off: nat)
    requires off <= |flat|
  {
    off == 0 || off == |flat| || IsStart(flat[off])
  }

  lemma {:induction false} NoSequenceContinues(flat: seq<Share>, off: nat, k: nat)
    requires off <= |flat| && CutPoint(flat, off) && k < |Sequences(flat, off)|
    ensures Sequences(flat, off)[k].start < |flat| && !Continues(flat, Sequences(flat, off)[k].start)
    decreases k
  {
    SequenceShape(flat, off);
    var all := Sequences(flat, off);
    var (s, end) := NextSequence(flat, off);
    if k == 0 {
      var i := s.value.start;
      forall j | 0 <= j < i && Counts(flat[j]) && (forall j' :: j < j' <= i ==> !IsStart(flat[j']))
        ensures false
      {
        if j >= off {
          NothingBeforeFirst(flat, off, j);
        }
      }
    } else {
      assert all[k] == Sequences(flat, end)[k - 1];
      NoSequenceContinues(flat, end, k - 1);
    }
  }

  /** A share that counts is in the range of a sequence. */
  lemma {:induction false} IsInSomeSequence(flat: seq<Share>, off: nat, i: nat) returns (k: nat)
    requires off <= i < |flat| && Counts(flat[i])
    ensures k < |Sequences(flat, off)| && Sequences(flat, off)[k].start <= i < Sequences(flat, off)[k].end
    decreases |flat| - off
  {
    SequenceShape(flat, off);
    var (s, end) := NextSequence(flat, off);
    if i < FirstCounted(flat, off) {
      NothingBeforeFirst(flat, off, i);
      assert false;
    }
    assert s.Some?;
    if i < end {
      k := 0;
    } else {
      var k' := IsInSomeSequence(flat, end, i);
      k := k' + 1;
      assert Sequences(flat, off)[k] == Sequences(flat, end)[k'];
    }
  }

  lemma Forwards(flat: seq<Share>)
    requires EveryContinuationContinues(flat)
    ensures EveryoneBeginsWithAStart(flat)
  {
    forall k | 0 <= k < |Sequences(flat, 0)| ensures BeginsWithAStart(Sequences(flat, 0)[k]) {
      FirstDecides(flat, k);
      RangesAreExact(flat, 0, k);
      NoSequenceContinues(flat, 0, k);
    }
  }

  lemma Backwards(flat: seq<Share>)
    requires EveryoneBeginsWithAStart(flat)
    ensures EveryContinuationContinues(flat)
  {
    forall i | 0 <= i < |flat| && Counts(flat[i]) && !IsStart(flat[i]) ensures Continues(flat, i) {
      var k := IsInSomeSequence(flat, 0, i);
      FirstDecides(flat, k);
      RangesAreExact(flat, 0, k);
    }
  }

  /**
   * Every sequence is a start and its continuations exactly when no continuation share of the
   * namespace is cut off, by its beginning or by padding, from the shares it continues.
   */
  lemma StartsExactlyIfUnbroken(flat: seq<Share>)
    ensures EveryoneBeginsWithAStart(flat) <==> EveryContinuationContinues(flat)
  {
    if EveryContinuationContinues(flat) {
      Forwards(flat);
    }
    if EveryoneBeginsWithAStart(flat) {
      Backwards(flat);
    }
  }

  // -------------------------------------------------- from blobs to shares and back

  /** The shares of one blob: a start, and continuations. */
  ghost predicate IsBlob(piece: seq<Share>) {
    piece != [] && IsStart(piece[0]) && Counts(piece[0]) && AreContinuations(piece[1..])
  }

  ghost predicate AreContinuations(shares: seq<Share>) {
    forall i :: 0 <= i < |shares| ==> !IsStart(shares[i]) && Counts(shares[i])
  }

  ghost predicate IsPadding(piece: seq<Share>) {
    |piece| == 1 && IsTailPadding(piece[0])
  }

  /** A namespace in order: blobs, and padding between them. */
  ghost predicate AreInOrder(pieces: seq<seq<Share>>) {
    forall i :: 0 <= i < |pieces| ==> IsBlob(pieces[i]) || IsPadding(pieces[i])
  }

  /** The pieces that are blobs. */
  ghost function BlobsOf(pieces: seq<seq<Share>>): seq<seq<Share>> {
    if pieces == [] then [] else (if IsBlob(pieces[0]) then [pieces[0]] else []) + BlobsOf(pieces[1..])
  }

  /** The sequences are the given ones, one by one. */
  ghost predicate Yields(all: seq<ShareSequence>, blobs: seq<seq<Share>>) {
    |all| == |blobs| && forall k :: 0 <= k < |blobs| ==> all[k].shares == blobs[k]
  }

  lemma YieldsOneMore(s: ShareSequence, all: seq<ShareSequence>, blobs: seq<seq<Share>>)
    requires Yields(all, blobs)
    ensures Yields([s] + all, [s.shares] + blobs)
  {
  }

  lemma SliceSplit<T>(s: seq<T>, off: nat, a: seq<T>, b: seq<T>)
    requires off <= |s| && s[off..] == a + b
    ensures off + |a| <= |s| && s[off..off + |a|] == a && s[off + |a|..] == b
    ensures b != [] ==> off + |a| < |s| && s[off + |a|] == b[0]
    ensures b == [] ==> off + |a| == |s|
  {
    assert s[off..][..|a|] == a && s[off..][|a|..] == b;
  }

  lemma FlattenBegins(pieces: seq<seq<Share>>)
    requires AreInOrder(pieces)
    ensures Flatten(pieces) != [] ==> IsStart(Flatten(pieces)[0])
  {
    if pieces != [] {
      assert IsBlob(pieces[0]) || IsPadding(pieces[0]);
    }
  }

  /** Running over shares that are no starts. */
  lemma {:induction false} CutsAfter(flat: seq<Share>, off: nat, end: nat)
    requires off <= end <= |flat| && (end < |flat| ==> IsStart(flat[end]))
    requires forall i :: off <= i < end ==> !IsStart(flat[i])
    ensures CutAt(flat, off, true) == end
    decreases end - off
  {
    if off < end {
      CutsAfter(flat, off + 1, end);
    }
  }

  /** A share of padding changes nothing but offsets. */
  lemma PaddingIsSkipped(flat: seq<Share>, off: nat)
    requires off < |flat| && !Counts(flat[off])
    ensures Sequences(flat, off) == Sequences(flat, off + 1)
  {
    var end := CutAt(flat, off, false);
    assert flat[off..end][1..] == flat[off + 1..end];
    assert Counted(flat[off..end]) == Counted(flat[off + 1..end]);
  }

  /** A blob's shares are the next sequence. */
  lemma BlobIsNext(flat: seq<Share>, off: nat, piece: seq<Share>, end: nat)
    requires IsBlob(piece) && end == off + |piece| <= |flat| && flat[off..end] == piece
    requires end < |flat| ==> IsStart(flat[end])
    ensures NextSequence(flat, off) == (Some(ShareSequence(piece, off, end)), end)
  {
    assert flat[off] == piece[0];
    assert forall i :: off < i < end ==> flat[i] == piece[1..][i - off - 1];
    CutsAfter(flat, off + 1, end);
    assert forall i :: 0 < i < |piece| ==> piece[i] == piece[1..][i - 1];
    AllCount(piece);
  }

  lemma OneMorePiece(flat: seq<Share>, off: nat, piece: seq<Share>, end: nat, blobs: seq<seq<Share>>)
    requires end == off + |piece| <= |flat| && flat[off..end] == piece && (end < |flat| ==> IsStart(flat[end]))
    requires IsBlob(piece) || IsPadding(piece)
    requires Yields(Sequences(flat, end), blobs)
    ensures Yields(Sequences(flat, off), (if IsBlob(piece) then [piece] else []) + blobs)
  {
    assert flat[off] == piece[0];
    if IsBlob(piece) {
      BlobIsNext(flat, off, piece, end);
      YieldsOneMore(ShareSequence(piece, off, end), Sequences(flat, end), blobs);
    } else {
      PaddingIsSkipped(flat, off);
      assert [] + blobs == blobs;
    }
  }

  lemma NothingAtEnd(flat: seq<Share>)
    ensures Sequences(flat, |flat|) == []
  {
    assert flat[|flat|..|flat|] == [];
  }

  /** Of a namespace in order, the sequences are exactly the blobs, in their order. */
  lemma {:induction false} SequencesAreBlobs(flat: seq<Share>, off: nat, pieces: seq<seq<Share>>)
    requires off <= |flat| && flat[off..] == Flatten(pieces) && AreInOrder(pieces)
    ensures Yields(Sequences(flat, off), BlobsOf(pieces))
    decreases |pieces|
  {
    if pieces == [] {
      NothingAtEnd(flat);
    } else {
      var rest := pieces[1..];
      SliceSplit(flat, off, pieces[0], Flatten(rest));
      FlattenBegins(rest);
      SequencesAreBlobs(flat, off + |pieces[0]|, rest);
      OneMorePiece(flat, off, pieces[0], off + |pieces[0]|, BlobsOf(rest));
    }
  }

  // ------------------------------------------------------------------- the whole way

  datatype Item = Padding | Blob(data: seq<byte>)

  predicate HasBytes(item: Item) { item.Blob? && item.data != [] }

  function Laid(item: Item): seq<Share> {
    if item.Padding? then [Data(true, 0, Padded([], FIRST_SPARSE_SHARE_CONTENT_SIZE))] else Cut(item.data)
  }

  /** What a namespace with these blobs, and padding between them, looks like. */
  function Pieces(items: seq<Item>): seq<seq<Share>> {
    if items == [] then [] else [Laid(items[0])] + Pieces(items[1..])
  }

  function Layout(items: seq<Item>): seq<Share> { Flatten(Pieces(items)) }

  /** The blobs of the namespace that have any bytes. */
  function Blobs(items: seq<Item>): seq<seq<byte>> {
    if items == [] then []
    else (if HasBytes(items[0]) then [items[0].data] else []) + Blobs(items[1..])
  }

  function Cuts(blobs: seq<seq<byte>>): seq<seq<Share>> {
    if blobs == [] then [] else [Cut(blobs[0])] + Cuts(blobs[1..])
  }

  lemma {:induction false} RestContinues(data: seq<byte>)
    ensures AreContinuations(CutRest(data))
    decreases |data|
  {
    if |data| > CONTINUATION_SPARSE_SHARE_CONTENT_SIZE {
      RestContinues(data[CONTINUATION_SPARSE_SHARE_CONTENT_SIZE..]);
    }
  }

  /** A blob's shares are a piece of a namespace in order; without bytes it looks like padding. */
  lemma LaidIsAPiece(item: Item)
    ensures if HasBytes(item) then IsBlob(Laid(item)) else IsPadding(Laid(item)) && !IsBlob(Laid(item))
  {
    if item.Blob? && |item.data| > FIRST_SPARSE_SHARE_CONTENT_SIZE {
      var rest := CutRest(item.data[FIRST_SPARSE_SHARE_CONTENT_SIZE..]);
      RestContinues(item.data[FIRST_SPARSE_SHARE_CONTENT_SIZE..]);
      assert Laid(item)[1..] == rest;
    }
  }

  lemma {:induction false} PiecesAreInOrder(items: seq<Item>)
    ensures AreInOrder(Pieces(items)) && BlobsOf(Pieces(items)) == Cuts(Blobs(items))
  {
    if items != [] {
      var pieces, rest := Pieces(items), Pieces(items[1..]);
      PiecesAreInOrder(items[1..]);
      LaidIsAPiece(items[0]);
      assert pieces[0] == Laid(items[0]) && pieces[1..] == rest;
      forall i | 0 <= i < |pieces| ensures IsBlob(pieces[i]) || IsPadding(pieces[i]) {
        assert i > 0 ==> pieces[i] == rest[i - 1];
      }
      if HasBytes(items[0]) {
        assert Blobs(items)[1..] == Blobs(items[1..]);
      } else {
        assert Blobs(items) == Blobs(items[1..]);
      }
    }
  }

  method ReadWhole(shares: seq<Share>) returns (content: seq<byte>)
    requires WellFormed(shares)
    ensures content == Content(shares)
  {
    var it := new BlobIterator(shares);
    var buf := new byte[it.sequenceLen];
    var n := it.Read(buf);
    content := buf[..n];
  }

  lemma {:induction false} CutsCount(blobs: seq<seq<byte>>)
    ensures |Cuts(blobs)| == |blobs|
  {
    if blobs != [] {
      CutsCount(blobs[1..]);
    }
  }

  lemma {:induction false} CutsAt(blobs: seq<seq<byte>>, k: nat)
    requires k < |blobs|
    ensures |Cuts(blobs)| == |blobs| && Cuts(blobs)[k] == Cut(blobs[k])
    decreases k
  {
    CutsCount(blobs);
    if k > 0 {
      CutsAt(blobs[1..], k - 1);
    }
  }

  method ReadAll(all: seq<ShareSequence>, ghost expected: seq<seq<byte>>) returns (blobs: seq<seq<byte>>)
    requires Yields(all, Cuts(expected))
    ensures blobs == expected
  {
    blobs := [];
    CutsCount(expected);
    for k := 0 to |all|
      invariant blobs == expected[..k]
    {
      CutsAt(expected, k);
      CutIsReadBack(expected[k]);
      var content := ReadWhole(all[k].shares);
      blobs := blobs + [content];
    }
  }

  /**
   * The whole way: blobs cut into shares, spread over rows in any way, collected by the
   * iterator and read back. Exactly the blobs that have bytes come out, in order and unchanged.
   */
  method ReadNamespace(rows: seq<seq<Share>>, ghost items: seq<Item>) returns (blobs: seq<seq<byte>>)
    requires Flatten(rows) == Layout(items)
    ensures blobs == Blobs(items)
  {
    var all := Collect(rows);
    PiecesAreInOrder(items);
    SequencesAreBlobs(Flatten(rows), 0, Pieces(items));
    blobs := ReadAll(all, Blobs(items));
  }
}
