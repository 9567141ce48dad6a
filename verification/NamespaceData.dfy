/** Cutting the rows of a namespace into sequences of shares, one call at a time. */
module NamespaceData {
  import opened Wrappers
  import opened Bytes
  import opened Shares

  datatype ShareSequence = ShareSequence(shares: seq<Share>, start: nat, end: nat)

  predicate IsTailPadding(s: Share) { s.SequenceLength() == Some(0) }

  predicate IsStart(s: Share) { s.Data? && s.isSequenceStart }

  /** The shares that end up in a sequence. */
  predicate Counts(s: Share) { !IsTailPadding(s) && !s.Parity? }

  function Flatten(rows: seq<seq<Share>>): seq<Share> {
    if rows == [] then [] else rows[0] + Flatten(rows[1..])
  }

  function Counted(shares: seq<Share>): seq<Share> {
    if shares == [] then []
    else (if Counts(shares[0]) then [shares[0]] else []) + Counted(shares[1..])
  }

  // ------------------------------------------------ the meaning of one call

  /** The position where a sequence begun at `off` is cut: the next start once something counts. */
  function CutAt(flat: seq<Share>, off: nat, begun: bool): (end: nat)
    requires off <= |flat|
    ensures off <= end <= |flat|
    decreases |flat| - off
  {
    if off == |flat| || (IsStart(flat[off]) && begun) then off
    else CutAt(flat, off + 1, begun || Counts(flat[off]))
  }

  /** The first position from `off` on whose share counts. */
  function FirstCounted(flat: seq<Share>, off: nat): (i: nat)
    requires off <= |flat|
    ensures off <= i <= |flat|
    decreases |flat| - off
  {
    if off == |flat| || Counts(flat[off]) then off else FirstCounted(flat, off + 1)
  }

  /** What one call yields from offset `off` on, and where it leaves the offset. */
  function NextSequence(flat: seq<Share>, off: nat): (Option<ShareSequence>, nat)
    requires off <= |flat|
  {
    var end := CutAt(flat, off, false);
    var shares := Counted(flat[off..end]);
    (if shares == [] then None else Some(ShareSequence(shares, FirstCounted(flat, off), end)), end)
  }

  lemma {:induction false} CountedSplit(a: seq<Share>, b: seq<Share>)
    ensures Counted(a + b) == Counted(a) + Counted(b)
    decreases |a|
  {
    if a == [] {
      assert a + b == b;
    } else {
      CountedSplit(a[1..], b);
      assert (a + b)[1..] == a[1..] + b;
      Regroup(if Counts(a[0]) then [a[0]] else [], Counted(a[1..]), Counted(b));
    }
  }

  /** The same as a scan that carries along what it has found so far. */
  function Scan(flat: seq<Share>, at: nat, start: Option<nat>, shares: seq<Share>): (Option<ShareSequence>, nat)
    requires at <= |flat| && start.None? == (shares == [])
    decreases |flat| - at
  {
    if at == |flat| || (IsStart(flat[at]) && shares != []) then
      (if shares == [] then None else Some(ShareSequence(shares, start.value, at)), at)
    else if !Counts(flat[at]) then Scan(flat, at + 1, start, shares)
    else Scan(flat, at + 1, if start == None then Some(at) else start, shares + [flat[at]])
  }

  lemma {:induction false} ScanAddsTheRest(flat: seq<Share>, at: nat, start: Option<nat>, shares: seq<Share>)
    requires at <= |flat| && start.None? == (shares == [])
    ensures var end := CutAt(flat, at, shares != []);
            var all := shares + Counted(flat[at..end]);
            var first := if start.None? then FirstCounted(flat, at) else start.value;
            Scan(flat, at, start, shares) == (if all == [] then None else Some(ShareSequence(all, first, end)), end)
    decreases |flat| - at
  {
    var end := CutAt(flat, at, shares != []);
    if at == |flat| || (IsStart(flat[at]) && shares != []) {
      assert flat[at..end] == [] && shares + [] == shares;
    } else {
      assert flat[at..end][1..] == flat[at + 1..end];
      if !Counts(flat[at]) {
        ScanAddsTheRest(flat, at + 1, start, shares);
        assert Counted(flat[at..end]) == Counted(flat[at + 1..end]);
      } else {
        assert shares + Counted(flat[at..end]) == shares + [flat[at]] + Counted(flat[at + 1..end]);
        ScanAddsTheRest(flat, at + 1, if start == None then Some(at) else start, shares + [flat[at]]);
      }
    }
  }

  lemma ScanIsNextSequence(flat: seq<Share>, off: nat)
    requires off <= |flat|
    ensures Scan(flat, off, None, []) == NextSequence(flat, off)
  {
    ScanAddsTheRest(flat, off, None, []);
    var end := CutAt(flat, off, false);
    assert [] + Counted(flat[off..end]) == Counted(flat[off..end]);
  }

  // ------------------------------------------------------------ the iterator

  /** How many shares precede position (row, rel). */
  function Offset(rows: seq<seq<Share>>, row: nat): nat
    requires row <= |rows|
  {
    if row == 0 then 0 else Offset(rows, row - 1) + |rows[row - 1]|
  }

  lemma {:induction false} FlattenAt(rows: seq<seq<Share>>, row: nat)
    requires row <= |rows|
    ensures Offset(rows, row) <= |Flatten(rows)|
    ensures Flatten(rows)[Offset(rows, row)..] == Flatten(rows[row..])
    ensures row == |rows| ==> Offset(rows, row) == |Flatten(rows)|
    decreases row
  {
    if row == 0 {
      assert rows[0..] == rows;
    } else {
      FlattenAt(rows, row - 1);
      var tail := rows[row - 1..];
      assert tail[0] == rows[row - 1] && tail[1..] == rows[row..];
      assert Flatten(tail)[|rows[row - 1]|..] == Flatten(rows[row..]);
    }
    if row == |rows| {
      assert rows[row..] == [];
      assert |Flatten(rows)[Offset(rows, row)..]| == 0;
    }
  }

  lemma ShareAt(rows: seq<seq<Share>>, row: nat, rel: nat)
    requires row < |rows| && rel <= |rows[row]|
    ensures Offset(rows, row) + rel <= |Flatten(rows)|
    ensures rel < |rows[row]| ==>
              Offset(rows, row) + rel < |Flatten(rows)| && Flatten(rows)[Offset(rows, row) + rel] == rows[row][rel]
  {
    FlattenAt(rows, row);
    assert rows[row..][0] == rows[row];
    assert |Flatten(rows[row..])| >= |rows[row]|;
    if rel < |rows[row]| {
      assert Flatten(rows)[Offset(rows, row)..][rel] == rows[row][rel];
    }
  }

  class NamespaceDataIterator {
    const rows: seq<seq<Share>>
    var totalOffset: nat
    var currentRowIdx: Option<nat>
    var relativeShareIdx: Option<nat>

    constructor (rows: seq<seq<Share>>)
      ensures this.rows == rows && Valid() && totalOffset == 0
    {
      this.rows, totalOffset, currentRowIdx, relativeShareIdx := rows, 0, None, None;
    }

    function Row(): nat
      reads this
    {
      if currentRowIdx.Some? then currentRowIdx.value else 0
    }

    function Relative(): nat
      reads this
    {
      if relativeShareIdx.Some? then relativeShareIdx.value else 0
    }

    /** The remembered row and index are the position of `totalOffset` in the flattened rows. */
    ghost predicate Valid()
      reads this
    {
      && Row() <= |rows| && Relative() <= (if Row() < |rows| then |rows[Row()]| else 0)
      && totalOffset == Offset(rows, Row()) + Relative()
    }

    lemma Bounded()
      requires Valid()
      ensures totalOffset <= |Flatten(rows)|
      ensures Row() == |rows| ==> totalOffset == |Flatten(rows)|
      ensures Row() < |rows| && Relative() < |rows[Row()]| ==>
                totalOffset < |Flatten(rows)| && Flatten(rows)[totalOffset] == rows[Row()][Relative()]
    {
      if Row() < |rows| {
        ShareAt(rows, Row(), Relative());
      } else {
        FlattenAt(rows, Row());
      }
    }

    /** Past one share of the current row. */
    method StepOver(rel: nat)
      requires Valid() && Row() < |rows| && rel == Relative() < |rows[Row()]|
      modifies this`totalOffset, this`relativeShareIdx
      ensures Valid() && totalOffset == old(totalOffset) + 1 && relativeShareIdx == Some(rel + 1)
    {
      totalOffset := totalOffset + 1;
      relativeShareIdx := Some(rel + 1);
    }

    /** From the end of a row to the beginning of the next. */
    method NextRow(row: nat)
      requires Valid() && row == Row() < |rows| && Relative() == |rows[row]|
      modifies this`currentRowIdx, this`relativeShareIdx
      ensures Valid() && currentRowIdx == Some(row + 1) && relativeShareIdx == Some(0)
    {
      currentRowIdx, relativeShareIdx := Some(row + 1), Some(0);
    }

    /** Goes on in the current row, to its end or to the start of another sequence. */
    method ScanRow(row: nat, from: nat, start0: Option<nat>, shares0: seq<Share>, ghost flat: seq<Share>)
      returns (hit: bool, start: Option<nat>, shares: seq<Share>)
      requires Valid() && row == Row() < |rows| && from == Relative() && flat == Flatten(rows)
      requires totalOffset <= |flat| && start0.None? == (shares0 == [])
      modifies this`totalOffset, this`relativeShareIdx
      ensures Valid() && totalOffset <= |flat| && start.None? == (shares == [])
      ensures Scan(flat, totalOffset, start, shares) == Scan(flat, old(totalOffset), start0, shares0)
      ensures hit ==> shares != [] && totalOffset < |flat| && IsStart(flat[totalOffset])
      ensures !hit ==> Relative() == |rows[row]|
    {
      var rel := from;
      start, shares := start0, shares0;
      while rel < |rows[row]|
        invariant rel <= |rows[row]| && Valid() && rel == Relative() && totalOffset <= |flat|
        invariant start.None? == (shares == [])
        invariant Scan(flat, totalOffset, start, shares) == Scan(flat, old(totalOffset), start0, shares0)
      {
        var share := rows[row][rel];
        assert totalOffset < |flat| && flat[totalOffset] == share by {
          Bounded();
        }
        if IsStart(share) && shares != [] {
          return true, start, shares;
        }
        StepOver(rel);
        rel := rel + 1;
        if !IsTailPadding(share) && !share.Parity? {
          if start == None {
            start := Some(totalOffset - 1);
          }
          shares := shares + [share];
        }
      }
      hit := false;
    }

    /** One call continues where the last one stopped, whatever the rows look like. */
    method Next() returns (s: Option<ShareSequence>)
      requires Valid()
      modifies this
      ensures Valid()
      ensures old(totalOffset) <= |Flatten(rows)|
      ensures (s, totalOffset) == NextSequence(Flatten(rows), old(totalOffset))
    {
      ghost var flat := Flatten(rows);
      Bounded();
      ScanIsNextSequence(flat, totalOffset);
      ghost var goal := NextSequence(flat, totalOffset);
      var row := Row();
      if row >= |rows| {
        return None;
      }
      var rel := Relative();
      var start: Option<nat> := None;
      var shares: seq<Share> := [];
      while row < |rows|
        invariant Valid() && row == Row() && rel == Relative() && totalOffset <= |flat|
        invariant start.None? == (shares == [])
        invariant Scan(flat, totalOffset, start, shares) == goal
      {
        var hit;
        hit, start, shares := ScanRow(row, rel, start, shares, flat);
        if hit {
          currentRowIdx := Some(row);
          return Some(ShareSequence(shares, start.value, totalOffset));
        }
        NextRow(row);
        row, rel := row + 1, 0;
      }
      Bounded();
      currentRowIdx := Some(|rows|);
      s := if shares != [] then Some(ShareSequence(shares, start.value, totalOffset)) else None;
    }
  }

  // -------------------------------------------------- all sequences of a namespace

  lemma CutIsAStart(flat: seq<Share>, off: nat, begun: bool)
    requires off <= |flat|
    ensures var end := CutAt(flat, off, begun); end < |flat| ==> IsStart(flat[end])
    ensures forall i :: off <= i < CutAt(flat, off, begun) && begun ==> !IsStart(flat[i])
    decreases |flat| - off
  {
  }

  /** Up to the first share that counts nothing is collected; from there on there is no start before the cut. */
  lemma {:induction false} CutShape(flat: seq<Share>, off: nat)
    requires off <= |flat|
    ensures var first := FirstCounted(flat, off);
            var end := CutAt(flat, off, false);
            && first <= end
            && Counted(flat[off..first]) == []
            && (first == |flat| ==> end == |flat|)
            && (first < |flat| ==> first < end && end == CutAt(flat, first + 1, true) && Counts(flat[first]))
    decreases |flat| - off
  {
    if off == |flat| || Counts(flat[off]) {
      assert flat[off..off] == [];
    } else {
      CutShape(flat, off + 1);
      var first := FirstCounted(flat, off);
      assert flat[off..first][1..] == flat[off + 1..first];
    }
  }

  /** What a call at `off` yields: nothing, or a range cut at the next start, with nothing that counts before it. */
  ghost predicate Shaped(flat: seq<Share>, off: nat, s: Option<ShareSequence>, end: nat)
    requires off <= |flat|
  {
    match s
    case None => end == |flat| && Counted(flat[off..]) == [] && FirstCounted(flat, off) == |flat|
    case Some(s) =>
      && off <= s.start < s.end == end <= |flat|
      && s.start == FirstCounted(flat, off) && Counts(flat[s.start]) && Counted(flat[off..s.start]) == []
      && s.shares == Counted(flat[s.start..s.end]) == Counted(flat[off..s.end])
      && (forall i :: s.start < i < s.end ==> !IsStart(flat[i]))
      && (end < |flat| ==> IsStart(flat[end]))
  }

  /** What comes before the first share that counts does not count. */
  lemma CountedFromFirst(flat: seq<Share>, off: nat, first: nat, end: nat)
    requires off <= first <= end <= |flat| && Counted(flat[off..first]) == []
    ensures Counted(flat[off..end]) == Counted(flat[first..end])
    ensures first < end && Counts(flat[first]) ==> Counted(flat[first..end]) != []
  {
    assert flat[off..end] == flat[off..first] + flat[first..end];
    CountedSplit(flat[off..first], flat[first..end]);
    assert first < end ==> flat[first..end][0] == flat[first];
  }

  lemma SequenceShape(flat: seq<Share>, off: nat)
    requires off <= |flat|
    ensures Shaped(flat, off, NextSequence(flat, off).0, NextSequence(flat, off).1)
  {
    var first, end := FirstCounted(flat, off), CutAt(flat, off, false);
    CutShape(flat, off);
    CutIsAStart(flat, off, false);
    CountedFromFirst(flat, off, first, end);
    if first < |flat| {
      CutIsAStart(flat, first + 1, true);
    } else {
      assert flat[first..end] == [] && flat[off..end] == flat[off..];
    }
  }

  /** Calling until nothing comes. */
  function Sequences(flat: seq<Share>, off: nat): seq<ShareSequence>
    requires off <= |flat|
    decreases |flat| - off
  {
    SequenceShape(flat, off);
    var (s, end) := NextSequence(flat, off);
    if s == None then [] else [s.value] + Sequences(flat, end)
  }

  lemma SequencesStep(flat: seq<Share>, off: nat, all: seq<ShareSequence>, i: nat)
    requires off <= |flat| && i <= |all| && Sequences(flat, off) == all[i..]
    ensures var (s, end) := NextSequence(flat, off);
            && off <= end <= |flat|
            && (s.None? ==> i == |all|)
            && (s.Some? ==> i < |all| && s.value == all[i] && off < end && Sequences(flat, end) == all[i + 1..])
  {
    SequenceShape(flat, off);
    var (s, end) := NextSequence(flat, off);
    if s.Some? {
      assert all[i..][0] == s.value && all[i..][1..] == Sequences(flat, end);
    }
  }

  /** The sequences depend on the shares alone, not on how they are spread over rows. */
  method Collect(rows: seq<seq<Share>>) returns (all: seq<ShareSequence>)
    ensures all == Sequences(Flatten(rows), 0)
  {
    ghost var flat := Flatten(rows);
    ghost var goal := Sequences(flat, 0);
    var it := new NamespaceDataIterator(rows);
    all := [];
    while true
      invariant fresh(it) && it.Valid() && it.rows == rows && it.totalOffset <= |flat|
      invariant |all| <= |goal| && all == goal[..|all|] && Sequences(flat, it.totalOffset) == goal[|all|..]
      decreases |flat| - it.totalOffset
    {
      SequencesStep(flat, it.totalOffset, goal, |all|);
      var s := it.Next();
      if s == None { return; }
      all := all + [s.value];
    }
  }

  function Concat(all: seq<ShareSequence>): seq<Share> {
    if all == [] then [] else all[0].shares + Concat(all[1..])
  }

  /** No share that counts is lost, doubled or moved. */
  lemma {:induction false} NothingIsLost(flat: seq<Share>, off: nat)
    requires off <= |flat|
    ensures Concat(Sequences(flat, off)) == Counted(flat[off..])
    decreases |flat| - off
  {
    SequenceShape(flat, off);
    var (s, end) := NextSequence(flat, off);
    if s.Some? {
      NothingIsLost(flat, end);
      assert flat[off..] == flat[off..end] + flat[end..];
      CountedSplit(flat[off..end], flat[end..]);
    }
  }

  ghost predicate NoParity(flat: seq<Share>, start: nat, end: nat)
    requires start <= end <= |flat|
  {
    forall i :: start <= i < end ==> !flat[i].Parity?
  }

  lemma {:induction false} AllCount(shares: seq<Share>)
    ensures |Counted(shares)| <= |shares|
    ensures Counted(shares) == shares <==> forall i :: 0 <= i < |shares| ==> Counts(shares[i])
  {
    if shares != [] {
      AllCount(shares[1..]);
      if forall i :: 0 <= i < |shares| ==> Counts(shares[i]) {
        assert forall i :: 0 <= i < |shares[1..]| ==> Counts(shares[1..][i]);
      } else {
        var i :| 0 <= i < |shares| && !Counts(shares[i]);
        assert i > 0 ==> shares[1..][i - 1] == shares[i];
      }
    }
  }

  /** The range of a sequence found from `from` on: it starts at a share that counts and holds no other start. */
  ghost predicate IsExact(flat: seq<Share>, from: nat, s: ShareSequence) {
    && from <= s.start < s.end <= |flat|
    && Counts(flat[s.start])
    && (forall i :: s.start < i < s.end ==> !IsStart(flat[i]))
    && s.shares == Counted(flat[s.start..s.end])
    && (s.shares == flat[s.start..s.end] <==> NoParity(flat, s.start, s.end))
  }

  /** The k-th range is exact, and lies behind the one before it. */
  ghost predicate IsNth(flat: seq<Share>, off: nat, k: nat)
    requires off <= |flat| && k < |Sequences(flat, off)|
  {
    IsExact(flat, if k == 0 then off else Sequences(flat, off)[k - 1].end, Sequences(flat, off)[k])
  }

  /** No padding lies within a range, so only parity shares can be missing from it. */
  lemma ParityAloneIsMissing(flat: seq<Share>, start: nat, end: nat)
    requires start < end <= |flat| && Counts(flat[start]) && forall i :: start < i < end ==> !IsStart(flat[i])
    ensures Counted(flat[start..end]) == flat[start..end] <==> NoParity(flat, start, end)
  {
    var range := flat[start..end];
    AllCount(range);
    assert forall i :: 0 <= i < |range| ==> range[i] == flat[start + i];
    if NoParity(flat, start, end) {
      assert forall i :: 0 <= i < |range| ==> Counts(range[i]);
    }
    if Counted(range) == range {
      forall i | start <= i < end ensures !flat[i].Parity? {
        assert Counts(range[i - start]);
      }
    }
  }

  lemma {:induction false} RangesAreExact(flat: seq<Share>, off: nat, k: nat)
    requires off <= |flat| && k < |Sequences(flat, off)|
    ensures IsNth(flat, off, k)
    decreases k
  {
    var all := Sequences(flat, off);
    SequenceShape(flat, off);
    var (s, end) := NextSequence(flat, off);
    if k == 0 {
      ParityAloneIsMissing(flat, s.value.start, s.value.end);
    } else {
      RangesAreExact(flat, end, k - 1);
      assert all[k] == Sequences(flat, end)[k - 1];
      assert k > 1 ==> all[k - 1] == Sequences(flat, end)[k - 2];
    }
  }
}
