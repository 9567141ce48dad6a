/**
 Reading by `next` from any shares that begin with a start, where it may run out of shares, and
 what the consistency check on a share sequence says about that.
 */
module ShareChecks {
  import opened Wrappers
  import opened Bytes
  import opened Shares
  import opened NamespaceData

  const SHARE_SIZE := 512

  /** The share the reader is in, and what it has not read of it. */
  datatype Cursor = Cursor(idx: nat, left: seq<byte>)

  /** `next` before the end of the sequence; `None` is the panic of a share that is not there or is a parity share. */
  function NextByte(blob: seq<Share>, c: Cursor): Option<(byte, Cursor)>
    requires c.idx < |blob|
    decreases |blob| - c.idx
  {
    if c.left != [] then Some((c.left[0], Cursor(c.idx, c.left[1..])))
    else if c.idx + 1 == |blob| || blob[c.idx + 1].Parity? then None
    else NextByte(blob, Cursor(c.idx + 1, blob[c.idx + 1].payload))
  }

  /** The bytes that `n` calls give. */
  function NextBytes(blob: seq<Share>, c: Cursor, n: nat): Option<seq<byte>>
    requires c.idx < |blob|
    decreases n
  {
    if n == 0 then Some([])
    else
      match NextByte(blob, c)
      case None => None
      case Some((b, d)) =>
        NextStaysInside(blob, c);
        match NextBytes(blob, d, n - 1)
        case None => None
        case Some(rest) => Some([b] + rest)
  }

  lemma {:induction false} NextStaysInside(blob: seq<Share>, c: Cursor)
    requires c.idx < |blob| && NextByte(blob, c).Some?
    ensures NextByte(blob, c).value.1.idx < |blob|
    decreases |blob| - c.idx
  {
    if c.left == [] {
      NextStaysInside(blob, Cursor(c.idx + 1, blob[c.idx + 1].payload));
    }
  }

  /** The payload bytes from share `i` on, up to the first parity share. */
  function Readable(blob: seq<Share>, i: nat): seq<byte>
    requires i <= |blob|
    decreases |blob| - i
  {
    if i == |blob| || blob[i].Parity? then [] else blob[i].payload + Readable(blob, i + 1)
  }

  function Ahead(blob: seq<Share>, c: Cursor): seq<byte>
    requires c.idx < |blob|
  {
    c.left + Readable(blob, c.idx + 1)
  }

  lemma {:induction false} NextIsAhead(blob: seq<Share>, c: Cursor)
    requires c.idx < |blob|
    ensures NextByte(blob, c).None? <==> Ahead(blob, c) == []
    ensures NextByte(blob, c).Some? ==>
              && NextByte(blob, c).value.1.idx < |blob|
              && Ahead(blob, c) == [NextByte(blob, c).value.0] + Ahead(blob, NextByte(blob, c).value.1)
    decreases |blob| - c.idx
  {
    if c.left != [] {
      assert c.left == [c.left[0]] + c.left[1..];
      Regroup([c.left[0]], c.left[1..], Readable(blob, c.idx + 1));
    } else if c.idx + 1 < |blob| && blob[c.idx + 1].Data? {
      NextIsAhead(blob, Cursor(c.idx + 1, blob[c.idx + 1].payload));
    }
  }

  /** `n` calls do not panic if and only if there are `n` bytes, and then give those. */
  lemma {:induction false} NextBytesExactly(blob: seq<Share>, c: Cursor, n: nat)
    requires c.idx < |blob|
    ensures NextBytes(blob, c, n) == if n <= |Ahead(blob, c)| then Some(Ahead(blob, c)[..n]) else None
    decreases n
  {
    if n > 0 {
      NextIsAhead(blob, c);
      if NextByte(blob, c).Some? {
        var (b, d) := NextByte(blob, c).value;
        NextBytesExactly(blob, d, n - 1);
        var rest := Ahead(blob, d);
        if n <= |rest| + 1 {
          assert ([b] + rest)[..n] == [b] + rest[..n - 1];
        }
      }
    }
  }

  function Start(blob: seq<Share>): Cursor
    requires blob != [] && blob[0].Data?
  {
    Cursor(0, blob[0].payload)
  }

  /** A blob is read to its end by `next` if and only if its payloads up to a parity share have enough bytes. */
  lemma ReadsToTheEndExactly(blob: seq<Share>)
    requires blob != [] && blob[0].SequenceLength().Some?
    ensures NextBytes(blob, Start(blob), blob[0].length) ==
            if blob[0].length <= |Readable(blob, 0)| then Some(Readable(blob, 0)[..blob[0].length]) else None
  {
    NextBytesExactly(blob, Start(blob), blob[0].length);
  }

  // ------------------------------------------------------------------- the consistency check

  /** What the check of a share sequence asserts, but for the namespaces. */
  predicate IsConsistent(s: ShareSequence) {
    && s.shares != [] && s.start <= s.end && |s.shares| == s.end - s.start
    && s.shares[0].SequenceLength().Some? && s.shares[0].length < |s.shares| * SHARE_SIZE
    && forall i :: 0 < i < |s.shares| ==> s.shares[i].SequenceLength().None?
  }

  /** It counts whole shares, of which only part is payload: for every payload of one share there is such a blob. */
  lemma CheckedButNotReadable(payload: seq<byte>, length: nat)
    requires |payload| < length < SHARE_SIZE
    ensures var s := ShareSequence([Data(true, length, payload)], 0, 1);
            IsConsistent(s) && NextBytes(s.shares, Start(s.shares), length).None?
  {
    var blob := [Data(true, length, payload)];
    ReadsToTheEndExactly(blob);
    assert Readable(blob, 1) == [];
  }

  /** The same is true of a well-formed blob: there `next` gives the content. */
  lemma WellFormedIsReadable(blob: seq<Share>)
    requires WellFormed(blob)
    ensures NextBytes(blob, Start(blob), blob[0].length) == Some(Content(blob))
  {
    ReadsToTheEndExactly(blob);
    ReadableIsAll(blob, 0);
    PayloadsOfRest(blob, 0);
    assert blob[0..] == blob;
  }

  lemma {:induction false} ReadableIsAll(blob: seq<Share>, i: nat)
    requires i <= |blob| && forall j :: 0 <= j < |blob| ==> blob[j].Data?
    ensures Readable(blob, i) == PayloadsFrom(blob, i)
    decreases |blob| - i
  {
    if i < |blob| {
      ReadableIsAll(blob, i + 1);
    }
  }

  // ------------------------------------------------------------------------------- chunks

  /** What `chunk` gives at a cursor, with `remaining` bytes to come. */
  function ChunkAt(blob: seq<Share>, c: Cursor, remaining: nat): seq<byte>
    requires c.idx < |blob| && (c.left == [] && c.idx + 1 < |blob| ==> blob[c.idx + 1].Data?)
  {
    var chunk :=
      if c.left != [] then c.left
      else if c.idx + 1 == |blob| then []
      else blob[c.idx + 1].payload;
    if |chunk| > remaining then chunk[..remaining] else chunk
  }

  /** Where `next` goes on although `chunk` gives nothing: exactly in front of an empty share. */
  lemma ChunkStallsExactly(blob: seq<Share>, c: Cursor, remaining: nat)
    requires c.idx < |blob| && 0 < remaining <= |Ahead(blob, c)|
    ensures NextByte(blob, c).Some? && (c.left == [] ==> c.idx + 1 < |blob| && blob[c.idx + 1].Data?)
    ensures ChunkAt(blob, c, remaining) == [] <==> c.left == [] && blob[c.idx + 1].payload == []
  {
    NextIsAhead(blob, c);
  }
}
