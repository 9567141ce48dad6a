/** How many shares a payload takes, and that cutting it into that many loses nothing. */
module ShareCounts {
  import opened Wrappers
  import opened Bytes
  import opened Shares

  const FIRST_SPARSE_SHARE_CONTENT_SIZE := 478
  const CONTINUATION_SPARSE_SHARE_CONTENT_SIZE := 482

  function DivCeil(a: nat, b: nat): nat
    requires b > 0
  {
    a / b + if a % b > 0 then 1 else 0
  }

  function SharesNeededForBytes(payloadBytes: nat): nat {
    if payloadBytes < FIRST_SPARSE_SHARE_CONTENT_SIZE then 1
    else 1 + DivCeil(payloadBytes - FIRST_SPARSE_SHARE_CONTENT_SIZE, CONTINUATION_SPARSE_SHARE_CONTENT_SIZE)
  }

  /** What `count` shares can hold. */
  function Capacity(count: nat): nat {
    if count == 0 then 0
    else FIRST_SPARSE_SHARE_CONTENT_SIZE + (count - 1) * CONTINUATION_SPARSE_SHARE_CONTENT_SIZE
  }

  /** The count is the least positive one whose capacity holds the payload. */
  lemma IsLeastCount(n: nat, count: nat)
    requires count >= 1
    ensures SharesNeededForBytes(n) >= 1
    ensures SharesNeededForBytes(n) <= count <==> n <= Capacity(count)
  {
  }

  lemma CountIsMonotone(m: nat, n: nat)
    requires m <= n
    ensures SharesNeededForBytes(m) <= SharesNeededForBytes(n)
  {
    IsLeastCount(n, SharesNeededForBytes(n));
    IsLeastCount(m, SharesNeededForBytes(n));
  }

  /** `data` filled up with zeros to `size` bytes. */
  function Padded(data: seq<byte>, size: nat): seq<byte>
    requires |data| <= size
  {
    data + seq(size - |data|, _ => 0)
  }

  function Cut(data: seq<byte>): seq<Share> {
    var size := FIRST_SPARSE_SHARE_CONTENT_SIZE;
    if |data| <= size then [Data(true, |data|, Padded(data, size))]
    else [Data(true, |data|, data[..size])] + CutRest(data[size..])
  }

  function CutRest(data: seq<byte>): seq<Share> {
    var size := CONTINUATION_SPARSE_SHARE_CONTENT_SIZE;
    if data == [] then []
    else if |data| <= size then [Data(false, 0, Padded(data, size))]
    else [Data(false, 0, data[..size])] + CutRest(data[size..])
  }

  lemma {:induction false} RestIsComplete(data: seq<byte>)
    ensures |CutRest(data)| == DivCeil(|data|, CONTINUATION_SPARSE_SHARE_CONTENT_SIZE)
    ensures |Payloads(CutRest(data))| >= |data| && Payloads(CutRest(data))[..|data|] == data
    ensures forall i :: 0 <= i < |CutRest(data)| ==> CutRest(data)[i].Data? && CutRest(data)[i].payload != []
    decreases |data|
  {
    var size := CONTINUATION_SPARSE_SHARE_CONTENT_SIZE;
    var shares := CutRest(data);
    if data == [] {
    } else if |data| <= size {
      assert shares[1..] == [];
      assert Payloads(shares) == Padded(data, size);
    } else {
      RestIsComplete(data[size..]);
      assert shares[1..] == CutRest(data[size..]);
      assert Payloads(shares) == data[..size] + Payloads(CutRest(data[size..]));
      assert data == data[..size] + data[size..];
    }
  }

  /** Any payload, cut and padded into the computed number of shares, is what the blob iterator reads. */
  lemma CutIsReadBack(data: seq<byte>)
    ensures |Cut(data)| == SharesNeededForBytes(|data|)
    ensures WellFormed(Cut(data)) && Content(Cut(data)) == data
  {
    var size := FIRST_SPARSE_SHARE_CONTENT_SIZE;
    var shares := Cut(data);
    if |data| <= size {
      assert shares[1..] == [];
      assert Payloads(shares) == Padded(data, size);
    } else {
      RestIsComplete(data[size..]);
      assert shares[1..] == CutRest(data[size..]);
      assert Payloads(shares) == data[..size] + Payloads(CutRest(data[size..]));
      assert data == data[..size] + data[size..];
    }
  }

  /** End to end: cut, then read by any mix of operations that ask for something, often enough. */
  method ReadBack(data: seq<byte>, ops: seq<ReadOp>) returns (out: seq<byte>)
    requires NoSkips(ops)
    ensures |out| <= |data| && out == data[..|out|]
    ensures (forall i :: 0 <= i < |ops| ==> Asks(ops[i])) && |ops| >= |data| ==> out == data
  {
    CutIsReadBack(data);
    var it;
    out, it := Drive(Cut(data), ops);
    DeliveredInOrder(Cut(data), 0, ops);
    if (forall i :: 0 <= i < |ops| ==> Asks(ops[i])) && |ops| >= |data| {
      EnoughOpsReachTheEnd(Cut(data), 0, ops);
    }
  }
}
