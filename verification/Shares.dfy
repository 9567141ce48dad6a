/** Celestia shares, and reading a blob's bytes out of them. */
module Shares {
  import opened Wrappers
  import opened Bytes

  /** A data share has a payload; only the first share of a sequence carries its length. */
  datatype Share =
    | Parity
    | Data(isSequenceStart: bool, length: nat, payload: seq<byte>)
  {
    function SequenceLength(): Option<nat> {
      if Data? && isSequenceStart then Some(length) else None
    }
  }

  /** The payload bytes of the shares, one after the other. */
  function Payloads(shares: seq<Share>): seq<byte> {
    if shares == [] then []
    else (if shares[0].Data? then shares[0].payload else []) + Payloads(shares[1..])
  }

  /** A blob that can be read to its end: data shares only, none empty, with enough bytes in all. */
  ghost predicate WellFormed(blob: seq<Share>) {
    && blob != [] && blob[0].SequenceLength().Some?
    && (forall i :: 0 <= i < |blob| ==> blob[i].Data? && blob[i].payload != [])
    && |Payloads(blob)| >= blob[0].length
  }

  /** The bytes of the blob, without the padding of its last share. */
  function Content(blob: seq<Share>): seq<byte>
    requires blob != [] && blob[0].Data? && |Payloads(blob)| >= blob[0].length
  {
    Payloads(blob)[..blob[0].length]
  }

  /** The payload bytes from share `i` on. */
  function PayloadsFrom(shares: seq<Share>, i: nat): seq<byte>
    requires i <= |shares|
    decreases |shares| - i
  {
    if i == |shares| then []
    else (if shares[i].Data? then shares[i].payload else []) + PayloadsFrom(shares, i + 1)
  }

  lemma {:induction false} PayloadsOfRest(shares: seq<Share>, i: nat)
    requires i <= |shares|
    ensures PayloadsFrom(shares, i) == Payloads(shares[i..])
    decreases |shares| - i
  {
    if i < |shares| {
      PayloadsOfRest(shares, i + 1);
      assert shares[i..][0] == shares[i] && shares[i..][1..] == shares[i + 1..];
    }
  }

  predicate IsSuffix(a: seq<byte>, b: seq<byte>) {
    |a| <= |b| && a == b[|b| - |a|..]
  }

  /** What is left, from byte `pos` on, of the share that holds it. */
  function ShareRest(shares: seq<Share>, pos: nat): seq<byte> {
    if shares == [] || shares[0].Parity? then []
    else if pos < |shares[0].payload| then shares[0].payload[pos..]
    else ShareRest(shares[1..], pos - |shares[0].payload|)
  }

  lemma {:induction false} FewerShares(shares: seq<Share>, i: nat)
    requires i <= |shares|
    ensures |Payloads(shares[i..])| <= |Payloads(shares)|
    decreases i
  {
    if i == 0 {
      assert shares[0..] == shares;
    } else {
      assert shares[1..][i - 1..] == shares[i..];
      FewerShares(shares[1..], i - 1);
    }
  }

  /** Skipping whole shares does not change the rest of a share. */
  lemma {:induction false} ShareRestSkips(shares: seq<Share>, i: nat, pos: nat)
    requires i <= |shares| && (forall j :: 0 <= j < |shares| ==> shares[j].Data?)
    requires |Payloads(shares)| - |Payloads(shares[i..])| <= pos
    ensures |Payloads(shares)| >= |Payloads(shares[i..])|
    ensures ShareRest(shares, pos) == ShareRest(shares[i..], pos - (|Payloads(shares)| - |Payloads(shares[i..])|))
    decreases i
  {
    FewerShares(shares, i);
    if i == 0 {
      assert shares[0..] == shares;
    } else {
      assert shares[1..][i - 1..] == shares[i..];
      FewerShares(shares[1..], i - 1);
      ShareRestSkips(shares[1..], i - 1, pos - |shares[0].payload|);
    }
  }

  lemma OneFurther(s: seq<byte>, n: nat)
    requires n <= |s|
    ensures n < |s| ==> s[n..][0] == s[n] && s[n..][1..] == s[n + 1..]
  {
  }

  class BlobIterator {
    const blob: seq<Share>
    const sequenceLen: nat
    var consumed: nat
    var current: seq<byte>
    var currentIdx: nat

    /** The cursor stands `consumed` bytes into the payloads. */
    ghost predicate Valid()
      reads this
    {
      && WellFormed(blob) && sequenceLen == blob[0].length
      && currentIdx < |blob| && consumed <= sequenceLen
      && IsSuffix(current, blob[currentIdx].payload)
      && current + PayloadsFrom(blob, currentIdx + 1) == Payloads(blob)[consumed..]
    }

    /** The bytes still to be delivered. */
    ghost function Rest(): seq<byte>
      requires Valid()
      reads this
    {
      Content(blob)[consumed..]
    }

    constructor (blob: seq<Share>)
      requires WellFormed(blob)
      ensures this.blob == blob && Valid() && Rest() == Content(blob) && consumed == 0
    {
      this.blob, sequenceLen := blob, blob[0].length;
      consumed, current, currentIdx := 0, blob[0].payload, 0;
      PayloadsOfRest(blob, 0);
      assert blob[0..] == blob;
    }

    /** Moving on to the next share; `Next` does so only when the current one is empty. */
    method NextShare()
      requires Valid() && current == [] && currentIdx + 1 < |blob|
      modifies this`current, this`currentIdx
      ensures Valid() && currentIdx == old(currentIdx) + 1 && current == blob[currentIdx].payload
    {
      currentIdx := currentIdx + 1;
      current := blob[currentIdx].payload;
    }

    /** Drops `n` bytes of the current share. */
    method Drop(n: nat)
      requires Valid() && n <= |current| && n <= sequenceLen - consumed
      modifies this`consumed, this`current
      ensures Valid() && current == old(current)[n..] && consumed == old(consumed) + n
    {
      ghost var tail := PayloadsFrom(blob, currentIdx + 1);
      assert (current + tail)[n..] == current[n..] + tail;
      assert Payloads(blob)[consumed..][n..] == Payloads(blob)[consumed + n..];
      consumed, current := consumed + n, current[n..];
    }

    /** With bytes left, the shares are not exhausted. */
    lemma MoreToCome()
      requires Valid() && consumed < sequenceLen && current == []
      ensures currentIdx + 1 < |blob|
    {
      assert |PayloadsFrom(blob, currentIdx + 1)| > 0;
    }

    lemma CurrentComesNext()
      requires Valid() && consumed < sequenceLen && current != []
      ensures Rest() != [] && Rest()[0] == current[0]
    {
      assert Payloads(blob)[consumed..][0] == current[0];
    }

    method Next() returns (b: Option<byte>)
      requires Valid()
      modifies this`consumed, this`current, this`currentIdx
      ensures Valid()
      ensures if old(Rest()) == [] then b == None && Rest() == []
              else b == Some(old(Rest())[0]) && Rest() == old(Rest())[1..]
      ensures consumed == old(consumed) + if b.Some? then 1 else 0
      decreases |blob| - currentIdx
    {
      if consumed == sequenceLen {
        return None;
      }
      if current != [] {
        CurrentComesNext();
        b := Some(current[0]);
        Drop(1);
        return;
      }
      MoreToCome();
      NextShare();
      b := Next();
    }

    /** Fills the buffer as far as the blob reaches. */
    method Read(buf: array<byte>) returns (written: nat)
      requires Valid()
      modifies this`consumed, this`current, this`currentIdx, buf
      ensures Valid()
      ensures written == if buf.Length < |old(Rest())| then buf.Length else |old(Rest())|
      ensures buf[..written] == old(Rest())[..written]
      ensures buf[written..] == old(buf[written..])
      ensures Rest() == old(Rest())[written..] && consumed == old(consumed) + written
    {
      written := 0;
      ghost var rest := Rest();
      while written < buf.Length
        invariant written <= buf.Length && written <= |rest| && Valid()
        invariant Rest() == rest[written..] && consumed == old(consumed) + written
        invariant buf[..written] == rest[..written]
        invariant forall j :: written <= j < buf.Length ==> buf[j] == old(buf[j])
      {
        OneFurther(rest, written);
        var b := Next();
        if b == None { return; }
        buf[written] := b.value;
        written := written + 1;
      }
    }

    function Remaining(): nat
      requires Valid()
      reads this
    {
      sequenceLen - consumed
    }

    /** A contiguous piece of what is left; looks into the next share when the current one is empty. */
    function Chunk(): seq<byte>
      requires Valid()
      reads this
    {
      var chunk :=
        if current != [] then current
        else if currentIdx + 1 >= |blob| then []
        else blob[currentIdx + 1].payload;
      if |chunk| > Remaining() then chunk[..Remaining()] else chunk
    }

    /** The chunk is the rest of the share at the cursor, so it depends on nothing but the position. */
    lemma ChunkIsShareRest()
      requires Valid()
      ensures var r := ShareRest(blob, consumed);
              Chunk() == if |r| > Remaining() then r[..Remaining()] else r
    {
      var behind := blob[currentIdx..];
      PayloadsOfRest(blob, currentIdx);
      PayloadsOfRest(blob, currentIdx + 1);
      assert |Payloads(blob)[consumed..]| == |current| + |PayloadsFrom(blob, currentIdx + 1)|;
      ShareRestSkips(blob, currentIdx, consumed);
      assert behind[1..] == blob[currentIdx + 1..];
      var payload := blob[currentIdx].payload;
      var pos := |payload| - |current|;
      assert ShareRest(blob, consumed) == ShareRest(behind, pos);
      if current == [] && currentIdx + 1 < |blob| {
        assert blob[currentIdx + 1..][0] == blob[currentIdx + 1];
        assert blob[currentIdx + 1].payload[0..] == blob[currentIdx + 1].payload;
      }
    }

    /** What `chunk` gives comes next, and it gives something as long as there is something. */
    lemma ChunkComesNext()
      requires Valid()
      ensures |Chunk()| <= |Rest()| && Chunk() == Rest()[..|Chunk()|]
      ensures Chunk() == [] <==> Rest() == []
    {
      var ahead := current + PayloadsFrom(blob, currentIdx + 1);
      assert Rest() == ahead[..Remaining()] by {
        assert Payloads(blob)[consumed..][..Remaining()] == Content(blob)[consumed..];
      }
      if current == [] && currentIdx + 1 < |blob| {
        assert ahead == blob[currentIdx + 1].payload + PayloadsFrom(blob, currentIdx + 2);
      }
    }

    /** When the last share is exhausted, so is the blob. */
    lemma LastShareIsEnd()
      requires Valid() && current == [] && currentIdx + 1 == |blob|
      ensures Remaining() == 0
    {
      assert PayloadsFrom(blob, currentIdx + 1) == [];
    }

    /** Skips `cnt` bytes, and moves to the next share as soon as one is exhausted. */
    method Advance(cnt: nat)
      requires Valid() && cnt <= Remaining()
      modifies this`consumed, this`current, this`currentIdx
      ensures Valid()
      ensures Rest() == old(Rest())[cnt..] && consumed == old(consumed) + cnt
      ensures cnt > 0 && Rest() != [] ==> current != []
    {
      var left := cnt;
      while left > 0
        invariant Valid() && 0 <= left <= cnt && left <= Remaining() && consumed == old(consumed) + (cnt - left)
        invariant left == 0 && cnt > 0 && Remaining() > 0 ==> current != []
        decreases left, |blob| - currentIdx
      {
        var here := |current|;
        if here > left {
          Drop(left);
          left := 0;
        } else {
          Drop(here);
          left := left - here;
          if currentIdx + 1 < |blob| {
            NextShare();
          } else {
            LastShareIsEnd();
            assert left == 0;  // the source asserts that the last share fulfils the request
          }
        }
      }
      assert Content(blob)[old(consumed)..][cnt..] == Content(blob)[consumed..];
    }
  }

  // --------------------------------------------------- any interleaving of reads

  datatype ReadOp = NextByte | ReadInto(size: nat) | TakeChunk(atMost: nat) | Skip(count: nat)

  function Min(a: nat, b: nat): nat { if a < b then a else b }

  /** How many bytes an operation moves on by, from byte `pos` of the content. */
  function Taken(blob: seq<Share>, pos: nat, op: ReadOp): nat
    requires blob != [] && blob[0].Data? && pos <= blob[0].length
  {
    var left := blob[0].length - pos;
    match op
    case NextByte => Min(1, left)
    case ReadInto(size) => Min(size, left)
    case TakeChunk(atMost) => Min(atMost, Min(|ShareRest(blob, pos)|, left))
    case Skip(count) => Min(count, left)
  }

  /** What the operations deliver one after the other; skipped bytes are not delivered. */
  ghost function Transcript(blob: seq<Share>, pos: nat, ops: seq<ReadOp>): seq<byte>
    requires WellFormed(blob) && pos <= blob[0].length
    decreases |ops|
  {
    if ops == [] then []
    else
      var next := pos + Taken(blob, pos, ops[0]);
      (if ops[0].Skip? then [] else Content(blob)[pos..next]) + Transcript(blob, next, ops[1..])
  }

  ghost function EndOf(blob: seq<Share>, pos: nat, ops: seq<ReadOp>): (end: nat)
    requires WellFormed(blob) && pos <= blob[0].length
    ensures pos <= end <= blob[0].length
    decreases |ops|
  {
    if ops == [] then pos else EndOf(blob, pos + Taken(blob, pos, ops[0]), ops[1..])
  }

  lemma SliceOfRest(s: seq<byte>, from: nat, n: nat)
    requires from + n <= |s|
    ensures s[from..][..n] == s[from..from + n]
  {
  }

  method ServeByte(it: BlobIterator) returns (piece: seq<byte>)
    requires it.Valid()
    modifies it`consumed, it`current, it`currentIdx
    ensures it.Valid() && it.consumed == old(it.consumed) + Min(1, it.blob[0].length - old(it.consumed))
    ensures piece == Content(it.blob)[old(it.consumed)..it.consumed]
  {
    var b := it.Next();
    piece := if b.Some? then [b.value] else [];
  }

  method Fill(it: BlobIterator, buf: array<byte>) returns (n: nat)
    requires it.Valid()
    modifies it`consumed, it`current, it`currentIdx, buf
    ensures it.Valid() && n == Min(buf.Length, it.blob[0].length - old(it.consumed))
    ensures it.consumed == old(it.consumed) + n && buf[..n] == Content(it.blob)[old(it.consumed)..it.consumed]
  {
    n := it.Read(buf);
    SliceOfRest(Content(it.blob), old(it.consumed), n);
  }

  method ServeRead(it: BlobIterator, size: nat) returns (piece: seq<byte>)
    requires it.Valid()
    modifies it`consumed, it`current, it`currentIdx
    ensures it.Valid() && it.consumed == old(it.consumed) + Min(size, it.blob[0].length - old(it.consumed))
    ensures piece == Content(it.blob)[old(it.consumed)..it.consumed]
  {
    var buf := new byte[size];
    var n := Fill(it, buf);
    piece := buf[..n];
  }

  lemma PartOfChunk(it: BlobIterator, n: nat)
    requires it.Valid() && n <= |it.Chunk()|
    ensures n <= it.Remaining() && it.Chunk()[..n] == Content(it.blob)[it.consumed..it.consumed + n]
  {
    it.ChunkComesNext();
    SliceOfRest(Content(it.blob), it.consumed, |it.Chunk()|);
    SliceOfRest(Content(it.blob), it.consumed, n);
  }

  method ServeChunk(it: BlobIterator, atMost: nat) returns (piece: seq<byte>)
    requires it.Valid()
    modifies it`consumed, it`current, it`currentIdx
    ensures it.Valid() && it.consumed == old(it.consumed) + Taken(it.blob, old(it.consumed), TakeChunk(atMost))
    ensures piece == Content(it.blob)[old(it.consumed)..it.consumed]
  {
    var chunk := it.Chunk();
    var n := Min(atMost, |chunk|);
    PartOfChunk(it, n);
    it.ChunkIsShareRest();
    piece := chunk[..n];
    it.Advance(n);
  }

  method Serve(it: BlobIterator, op: ReadOp) returns (piece: seq<byte>)
    requires it.Valid()
    modifies it`consumed, it`current, it`currentIdx
    ensures it.Valid() && it.consumed == old(it.consumed) + Taken(it.blob, old(it.consumed), op)
    ensures piece == if op.Skip? then [] else Content(it.blob)[old(it.consumed)..it.consumed]
  {
    match op
    case NextByte => piece := ServeByte(it);
    case ReadInto(size) => piece := ServeRead(it, size);
    case TakeChunk(atMost) => piece := ServeChunk(it, atMost);
    case Skip(count) =>
      it.Advance(Min(count, it.Remaining()));
      piece := [];
  }

  lemma Regroup<T>(a: seq<T>, b: seq<T>, c: seq<T>)
    ensures a + (b + c) == (a + b) + c
  {
  }

  lemma TranscriptStep(blob: seq<Share>, pos: nat, ops: seq<ReadOp>, i: nat)
    requires WellFormed(blob) && pos <= blob[0].length && i < |ops|
    ensures var next := pos + Taken(blob, pos, ops[i]);
            && EndOf(blob, pos, ops[i..]) == EndOf(blob, next, ops[i + 1..])
            && Transcript(blob, pos, ops[i..])
               == (if ops[i].Skip? then [] else Content(blob)[pos..next]) + Transcript(blob, next, ops[i + 1..])
  {
    assert ops[i..][0] == ops[i] && ops[i..][1..] == ops[i + 1..];
  }

  /** After `i` operations the reader is at `pos` and has got `out`. */
  ghost predicate OnTrack(blob: seq<Share>, ops: seq<ReadOp>, i: nat, pos: nat, out: seq<byte>) {
    && WellFormed(blob) && pos <= blob[0].length && i <= |ops|
    && EndOf(blob, pos, ops[i..]) == EndOf(blob, 0, ops)
    && out + Transcript(blob, pos, ops[i..]) == Transcript(blob, 0, ops)
  }

  lemma StaysOnTrack(blob: seq<Share>, ops: seq<ReadOp>, i: nat, pos: nat, out: seq<byte>)
    requires OnTrack(blob, ops, i, pos, out) && i < |ops|
    ensures var next := pos + Taken(blob, pos, ops[i]);
            OnTrack(blob, ops, i + 1, next, out + if ops[i].Skip? then [] else Content(blob)[pos..next])
  {
    TranscriptStep(blob, pos, ops, i);
    var next := pos + Taken(blob, pos, ops[i]);
    Regroup(out, if ops[i].Skip? then [] else Content(blob)[pos..next], Transcript(blob, next, ops[i + 1..]));
  }

  lemma TrackBegins(blob: seq<Share>, ops: seq<ReadOp>)
    requires WellFormed(blob)
    ensures OnTrack(blob, ops, 0, 0, [])
  {
    assert ops[0..] == ops;
  }

  lemma TrackEnds(blob: seq<Share>, ops: seq<ReadOp>, pos: nat, out: seq<byte>)
    requires OnTrack(blob, ops, |ops|, pos, out)
    ensures pos == EndOf(blob, 0, ops) && out == Transcript(blob, 0, ops)
  {
    assert ops[|ops|..] == [] && out + [] == out;
  }

  method ServeNext(it: BlobIterator, ops: seq<ReadOp>, i: nat, out: seq<byte>) returns (more: seq<byte>)
    requires it.Valid() && i < |ops| && OnTrack(it.blob, ops, i, it.consumed, out)
    modifies it`consumed, it`current, it`currentIdx
    ensures it.Valid() && OnTrack(it.blob, ops, i + 1, it.consumed, more)
  {
    StaysOnTrack(it.blob, ops, i, it.consumed, out);
    var piece := Serve(it, ops[i]);
    more := out + piece;
  }

  /** However the interfaces are mixed, the reader gets exactly what the content prescribes. */
  method Drive(blob: seq<Share>, ops: seq<ReadOp>) returns (out: seq<byte>, it: BlobIterator)
    requires WellFormed(blob)
    ensures it.Valid() && it.blob == blob && it.consumed == EndOf(blob, 0, ops)
    ensures out == Transcript(blob, 0, ops)
  {
    it := new BlobIterator(blob);
    out := [];
    TrackBegins(blob, ops);
    for i := 0 to |ops|
      invariant fresh(it) && it.blob == blob && it.Valid() && OnTrack(blob, ops, i, it.consumed, out)
    {
      out := ServeNext(it, ops, i, out);
    }
    TrackEnds(blob, ops, it.consumed, out);
  }

  predicate NoSkips(ops: seq<ReadOp>) { forall i :: 0 <= i < |ops| ==> !ops[i].Skip? }

  /** Without skips the content is delivered from its beginning on, without gaps. */
  lemma {:induction false} DeliveredInOrder(blob: seq<Share>, pos: nat, ops: seq<ReadOp>)
    requires WellFormed(blob) && pos <= blob[0].length && NoSkips(ops)
    ensures Transcript(blob, pos, ops) == Content(blob)[pos..EndOf(blob, pos, ops)]
    decreases |ops|
  {
    if ops != [] {
      var next := pos + Taken(blob, pos, ops[0]);
      DeliveredInOrder(blob, next, ops[1..]);
      var end := EndOf(blob, pos, ops);
      assert Content(blob)[pos..next] + Content(blob)[next..end] == Content(blob)[pos..end];
    }
  }

  /** The operation asks for at least one byte. */
  predicate Asks(op: ReadOp) {
    match op
    case NextByte => true
    case ReadInto(size) => size > 0
    case TakeChunk(atMost) => atMost > 0
    case Skip(count) => count > 0
  }

  lemma {:induction false} RestIsThere(shares: seq<Share>, pos: nat)
    requires pos < |Payloads(shares)| && forall i :: 0 <= i < |shares| ==> shares[i].Data?
    ensures ShareRest(shares, pos) != []
    decreases |shares|
  {
    if pos >= |shares[0].payload| {
      RestIsThere(shares[1..], pos - |shares[0].payload|);
    }
  }

  /** As long as something is left, whoever asks gets something. */
  lemma AskingMovesOn(blob: seq<Share>, pos: nat, op: ReadOp)
    requires WellFormed(blob) && pos < blob[0].length && Asks(op)
    ensures Taken(blob, pos, op) > 0
  {
    RestIsThere(blob, pos);
  }

  /** Enough operations that ask for something come to the end of the content. */
  lemma {:induction false} EnoughOpsReachTheEnd(blob: seq<Share>, pos: nat, ops: seq<ReadOp>)
    requires WellFormed(blob) && pos <= blob[0].length
    requires (forall i :: 0 <= i < |ops| ==> Asks(ops[i])) && |ops| >= blob[0].length - pos
    ensures EndOf(blob, pos, ops) == blob[0].length
    decreases |ops|
  {
    if ops != [] {
      if pos < blob[0].length {
        AskingMovesOn(blob, pos, ops[0]);
      }
      EnoughOpsReachTheEnd(blob, pos + Taken(blob, pos, ops[0]), ops[1..]);
    }
  }

  /** `advance(n)` and `n` calls of `next` leave the same bytes, and the same chunk, to be read. */
  method AdvanceIsRepeatedNext(a: BlobIterator, b: BlobIterator, n: nat)
    requires a != b && a.Valid() && b.Valid() && a.blob == b.blob && a.consumed == b.consumed && n <= a.Remaining()
    modifies a`consumed, a`current, a`currentIdx, b`consumed, b`current, b`currentIdx
    ensures a.Valid() && b.Valid() && a.consumed == b.consumed == old(a.consumed) + n
    ensures a.Rest() == b.Rest() && a.Chunk() == b.Chunk()
  {
    a.Advance(n);
    for i := 0 to n
      invariant a.Valid() && b.Valid() && a.consumed == old(a.consumed) + n && b.consumed == old(a.consumed) + i
    {
      var byte := b.Next();
    }
    a.ChunkIsShareRest();
    b.ChunkIsShareRest();
  }
}
