/**
 The pruner: a cursor that walks the table backwards, an iterator over its
 distinct base keys, and the batch of version ranges to delete.
 */
module Pruner {
  import opened Wrappers
  import opened Bytes
  import opened KeyCodec
  import opened VersionedReads
  import opened AccessoryStore
  import opened PruningSpec

  const DEFAULT_MAX_PRUNING_BATCH_SIZE := 300_000

  ghost predicate Sorted(rows: seq<Entry>) {
    forall i, j :: 0 <= i < j < |rows| ==> EntryLt(rows[i], rows[j])
  }

  /** `rows` are the keys of the table in the table's order. */
  ghost predicate Scan(rows: seq<Entry>, t: Table) {
    Sorted(rows) && forall e :: e in t <==> e in rows
  }

  /** The position of the first row that is not below `at`. */
  method Seek(rows: seq<Entry>, at: Entry) returns (pos: nat)
    requires Sorted(rows)
    ensures pos <= |rows|
    ensures forall i :: 0 <= i < pos ==> EntryLt(rows[i], at)
    ensures forall i :: pos <= i < |rows| ==> !EntryLt(rows[i], at)
  {
    pos := 0;
    while pos < |rows| && EntryLt(rows[pos], at)
      invariant pos <= |rows|
      invariant forall i :: 0 <= i < pos ==> EntryLt(rows[i], at)
    {
      pos := pos + 1;
    }
    forall i | pos <= i < |rows| ensures !EntryLt(rows[i], at) {
      if EntryLt(rows[i], at) && pos < i {
        EntryTransitive(rows[pos], rows[i], at);
      }
    }
  }

  /** The rows of one base key below the largest slot number, as a range of positions. */
  ghost predicate IsRange(rows: seq<Entry>, k: Key, lo: int, hi: int) {
    0 <= lo <= hi <= |rows| && forall i :: 0 <= i < |rows| ==>
      (lo <= i < hi <==> rows[i].key == k && rows[i].version < U64_MAX)
  }

  method RangeOf(rows: seq<Entry>, k: Key) returns (lo: nat, hi: nat)
    requires Sorted(rows)
    ensures IsRange(rows, k, lo, hi)
  {
    lo := Seek(rows, Entry(k, 0));
    hi := Seek(rows, Entry(k, U64_MAX));
    KeyTotal(k, k);
    if hi < lo {
      KeyTotal(rows[hi].key, k);
      assert false;
    }
    forall i | 0 <= i < |rows| ensures lo <= i < hi <==> rows[i].key == k && rows[i].version < U64_MAX {
      KeyTotal(rows[i].key, k);
      EntryTotal(rows[i], Entry(k, 0));
      EntryTotal(rows[i], Entry(k, U64_MAX));
    }
  }

  /** Inside a key's range, the position tells how many newer versions are counted. */
  lemma PositionCountsNewer(rows: seq<Entry>, t: Table, k: Key, lo: int, hi: int, i: int)
    requires Scan(rows, t) && IsRange(rows, k, lo, hi) && lo <= i < hi
    ensures |NewerCounted(t, rows[i])| == hi - 1 - i
  {
    var above := rows[i + 1..hi];
    forall j, l | 0 <= j < l < |above| ensures above[j] != above[l] {
      EntryTotal(rows[i + 1 + j], rows[i + 1 + l]);
    }
    forall e ensures e in NewerCounted(t, rows[i]) <==> e in above {
      if e in NewerCounted(t, rows[i]) {
        var j :| 0 <= j < |rows| && rows[j] == e;
        if j < i {
          EntryTotal(rows[j], rows[i]);
          KeyTotal(k, k);
          assert false;
        }
        assert above[j - (i + 1)] == e;
      }
      if e in above {
        var j :| 0 <= j < |above| && above[j] == e;
        assert EntryLt(rows[i], rows[i + 1 + j]);
        KeyTotal(k, k);
      }
    }
    Distinct(above);
    assert NewerCounted(t, rows[i]) == set e | e in above;
  }

  lemma {:induction false} Distinct(s: seq<Entry>)
    requires forall j, l :: 0 <= j < l < |s| ==> s[j] != s[l]
    ensures |set e | e in s| == |s|
    decreases |s|
  {
    if s != [] {
      var init, last := s[..|s| - 1], s[|s| - 1];
      Distinct(init);
      assert (set e | e in s) == (set e | e in init) + {last};
      assert last !in init;
    }
  }

  predicate InRange(e: Entry, from: Version, to: Version) { from <= e.version < to }

  /** `r` is the half-open range of the versions of `k` that are not kept; it ends at one of them. */
  ghost predicate PruneRange(t: Table, keep: nat, k: Key, r: Option<(Version, Version)>) {
    match r
    case None => forall e :: e in t && e.key == k ==> Kept(t, keep, e)
    case Some((from, to)) =>
      && (forall e :: e in t && e.key == k ==> (Kept(t, keep, e) <==> !InRange(e, from, to)))
      && to > 0 && Entry(k, to - 1) in t && !Kept(t, keep, Entry(k, to - 1))
  }

  /** Of a key's range, the last `keep` positions are kept. */
  lemma KeptByPosition(rows: seq<Entry>, t: Table, k: Key, lo: int, hi: int, keep: nat, e: Entry)
    requires Scan(rows, t) && IsRange(rows, k, lo, hi) && e in t && e.key == k
    ensures Kept(t, keep, e) <==> e.version == U64_MAX || exists i :: lo <= i < hi && i >= hi - keep && rows[i] == e
    ensures hi - lo > keep ==>
              (Kept(t, keep, e) <==> !InRange(e, rows[lo].version, rows[hi - 1 - keep].version + 1))
  {
    var i :| 0 <= i < |rows| && rows[i] == e;
    KeyTotal(k, k);
    if e.version < U64_MAX {
      PositionCountsNewer(rows, t, k, lo, hi, i);
      forall j | lo <= j < hi && rows[j] == e ensures j == i { EntryTotal(rows[i], rows[j]); }
      if hi - lo > keep {
        assert lo < i ==> EntryLt(rows[lo], rows[i]);
        var last := hi - 1 - keep;
        assert i < last ==> EntryLt(rows[i], rows[last]);
        assert last < i ==> EntryLt(rows[last], rows[i]);
      }
    }
  }

  lemma FewAreAllKept(rows: seq<Entry>, t: Table, k: Key, lo: int, hi: int, keep: nat)
    requires Scan(rows, t) && IsRange(rows, k, lo, hi) && hi - lo <= keep
    ensures PruneRange(t, keep, k, None)
  {
    forall e | e in t && e.key == k ensures Kept(t, keep, e) {
      KeptByPosition(rows, t, k, lo, hi, keep, e);
      var i :| 0 <= i < |rows| && rows[i] == e;
    }
  }

  lemma CutIsExact(rows: seq<Entry>, t: Table, k: Key, lo: int, hi: int, keep: nat, e: Entry)
    requires Scan(rows, t) && IsRange(rows, k, lo, hi) && 1 <= keep < hi - lo && e in t && e.key == k
    ensures rows[hi - 1 - keep].version < U64_MAX
    ensures Kept(t, keep, e) <==> !InRange(e, rows[lo].version, rows[hi - 1 - keep].version + 1)
  {
    assert rows[hi - 1 - keep].version < U64_MAX;
    KeptByPosition(rows, t, k, lo, hi, keep, e);
  }

  lemma LastOfCut(rows: seq<Entry>, t: Table, k: Key, lo: int, hi: int, keep: nat)
    requires Scan(rows, t) && IsRange(rows, k, lo, hi) && 1 <= keep < hi - lo
    ensures var last := rows[hi - 1 - keep]; last == Entry(k, last.version) && last in t && !Kept(t, keep, last)
  {
    var last := hi - 1 - keep;
    assert rows[last].key == k && rows[last] in rows;
    CutIsExact(rows, t, k, lo, hi, keep, rows[last]);
    KeyTotal(k, k);
    assert rows[lo].key == k;
    if lo < last {
      assert EntryLt(rows[lo], rows[last]);
    }
  }

  lemma ManyAreCut(rows: seq<Entry>, t: Table, k: Key, lo: int, hi: int, keep: nat)
    requires Scan(rows, t) && IsRange(rows, k, lo, hi) && 1 <= keep < hi - lo
    ensures rows[hi - 1 - keep].version < U64_MAX
    ensures PruneRange(t, keep, k, Some((rows[lo].version, rows[hi - 1 - keep].version + 1)))
  {
    var last := hi - 1 - keep;
    LastOfCut(rows, t, k, lo, hi, keep);
    assert rows[last].version < U64_MAX;
    forall e | e in t && e.key == k
      ensures Kept(t, keep, e) <==> !InRange(e, rows[lo].version, rows[last].version + 1)
    {
      CutIsExact(rows, t, k, lo, hi, keep, e);
    }
  }

  /** Everything older than the newest `keep` versions of `k`, or nothing. */
  method GetPrunableVersion(rows: seq<Entry>, ghost t: Table, k: Key, keep: nat) returns (r: Option<(Version, Version)>)
    requires Scan(rows, t) && keep >= 1
    ensures PruneRange(t, keep, k, r)
  {
    var lo, hi := RangeOf(rows, k);
    if hi - lo <= keep {
      FewAreAllKept(rows, t, k, lo, hi, keep);
      return None;
    }
    ManyAreCut(rows, t, k, lo, hi, keep);
    r := Some((rows[lo].version, rows[hi - 1 - keep].version + 1));
  }

  /** The last row of a key, or before the first row. */
  ghost predicate AtGroupEnd(rows: seq<Entry>, pos: int) {
    -1 <= pos < |rows| && (0 <= pos < |rows| - 1 ==> rows[pos + 1].key != rows[pos].key)
  }

  /** A reverse cursor that stops once at every base key. */
  class UniqueBaseKeys {
    const rows: seq<Entry>
    var pos: int

    constructor (rows: seq<Entry>)
      ensures this.rows == rows && pos == |rows| - 1 && AtGroupEnd(rows, pos)
    {
      this.rows, pos := rows, |rows| - 1;
    }

    /** Returns the key under the cursor, seeks to its first version and steps before it. */
    method Next() returns (k: Option<Key>)
      requires Sorted(rows) && AtGroupEnd(rows, pos)
      modifies this
      ensures AtGroupEnd(rows, pos)
      ensures old(pos) < 0 ==> k.None? && pos == old(pos)
      ensures old(pos) >= 0 ==>
                && k == Some(rows[old(pos)].key) && pos < old(pos)
                && (forall i :: pos < i <= old(pos) ==> rows[i].key == k.value)
                && (forall i :: 0 <= i <= pos ==> KeyLt(rows[i].key, k.value))
    {
      if pos < 0 { return None; }
      var base := rows[pos].key;
      var first := Seek(rows, Entry(base, 0));
      KeyTotal(base, base);
      if pos < first {
        assert false;
      }
      forall i | first <= i <= pos ensures rows[i].key == base {
        KeyTotal(rows[i].key, base);
        assert i == pos || EntryLt(rows[i], rows[pos]);
      }
      forall i | 0 <= i < first ensures KeyLt(rows[i].key, base) {
        assert EntryLt(rows[i], Entry(base, 0));
      }
      pos := first - 1;
      if pos >= 0 {
        KeyTotal(rows[pos].key, base);
      }
      k := Some(base);
    }
  }

  /** The iterator yields every distinct base key exactly once, in descending order. */
  method AllBaseKeys(rows: seq<Entry>) returns (keys: seq<Key>)
    requires Sorted(rows)
    ensures forall i, j :: 0 <= i < j < |keys| ==> KeyLt(keys[j], keys[i])
    ensures forall k :: k in keys <==> exists i :: 0 <= i < |rows| && rows[i].key == k
  {
    keys := [];
    var iter := new UniqueBaseKeys(rows);
    while iter.pos >= 0
      invariant iter.rows == rows && AtGroupEnd(rows, iter.pos)
      invariant forall i, j :: 0 <= i < j < |keys| ==> KeyLt(keys[j], keys[i])
      invariant forall i, j :: 0 <= i <= iter.pos && 0 <= j < |keys| ==> KeyLt(rows[i].key, keys[j])
      invariant forall i :: iter.pos < i < |rows| ==> rows[i].key in keys
      invariant forall k :: k in keys ==> exists i :: 0 <= i < |rows| && rows[i].key == k
      decreases iter.pos
    {
      var k := iter.Next();
      keys := keys + [k.value];
    }
  }

  datatype Range = Range(key: Key, from: Version, to: Version)

  datatype PrunerJobOutput = PrunerJobOutput(batch: seq<Range>, hitSizeLimit: bool)

  predicate Deleted(batch: seq<Range>, e: Entry) {
    exists i :: 0 <= i < |batch| && batch[i].key == e.key && InRange(e, batch[i].from, batch[i].to)
  }

  function Applied(t: Table, batch: seq<Range>): Table {
    map e | e in t && !Deleted(batch, e) :: t[e]
  }

  /** A range of the batch ends at an entry of the table that is not kept. */
  predicate EndsAtPruned(t: Table, keep: nat, r: Range) {
    r.to > 0 && Entry(r.key, r.to - 1) in t && !Kept(t, keep, Entry(r.key, r.to - 1))
  }

  /** The batch deletes, of the keys seen so far, exactly what is not kept. */
  ghost predicate BatchFor(batch: seq<Range>, t: Table, keep: nat, seen: set<Key>) {
    && (forall e :: e in t ==> (Deleted(batch, e) <==> e.key in seen && !Kept(t, keep, e)))
    && (forall i :: 0 <= i < |batch| ==> batch[i].key in seen && EndsAtPruned(t, keep, batch[i]))
  }

  lemma DeletedByOneMore(batch: seq<Range>, r: Range, e: Entry)
    ensures Deleted(batch + [r], e) <==> Deleted(batch, e) || (e.key == r.key && InRange(e, r.from, r.to))
  {
    var b := batch + [r];
    assert b[|batch|] == r;
    assert forall i :: 0 <= i < |batch| ==> b[i] == batch[i];
  }

  lemma NothingToPrune(batch: seq<Range>, t: Table, keep: nat, seen: set<Key>, k: Key)
    requires BatchFor(batch, t, keep, seen) && PruneRange(t, keep, k, None)
    ensures BatchFor(batch, t, keep, seen + {k})
  {
  }

  lemma RangeAdded(batch: seq<Range>, t: Table, keep: nat, seen: set<Key>, r: Range)
    requires BatchFor(batch, t, keep, seen) && r.key !in seen && PruneRange(t, keep, r.key, Some((r.from, r.to)))
    ensures BatchFor(batch + [r], t, keep, seen + {r.key})
  {
    var b := batch + [r];
    forall e | e in t ensures Deleted(b, e) <==> e.key in seen + {r.key} && !Kept(t, keep, e) {
      DeletedByOneMore(batch, r, e);
      assert Deleted(batch, e) <==> e.key in seen && !Kept(t, keep, e);
    }
    forall i | 0 <= i < |b| ensures b[i].key in seen + {r.key} && EndsAtPruned(t, keep, b[i]) {
      assert b[i] == if i < |batch| then batch[i] else r;
    }
  }

  lemma OneLess(t: Table, batch: seq<Range>, e: Entry)
    requires e in t && Deleted(batch, e)
    ensures |Applied(t, batch)| < |t|
  {
    assert Applied(t, batch).Keys <= t.Keys - {e};
    Subset(Applied(t, batch).Keys, t.Keys - {e});
  }

  /** A batch that is not empty deletes something. */
  lemma BatchDeletes(batch: seq<Range>, t: Table, keep: nat, seen: set<Key>)
    requires BatchFor(batch, t, keep, seen) && batch != []
    ensures |Applied(t, batch)| < |t|
  {
    var r := batch[0];
    assert EndsAtPruned(t, keep, r);
    OneLess(t, batch, Entry(r.key, r.to - 1));
  }

  lemma SeenAll(rows: seq<Entry>, t: Table, keep: nat, seen: set<Key>)
    requires Scan(rows, t) && forall i :: 0 <= i < |rows| ==> rows[i].key in seen
    ensures PruneKeys(t, keep, seen) == Pruned(t, keep)
  {
    forall e | e in t ensures e.key in seen {
      var i :| 0 <= i < |rows| && rows[i] == e;
    }
  }

  /** The keys of the rows behind the cursor are `seen`, those ahead of it are all smaller. */
  ghost predicate Walked(rows: seq<Entry>, pos: int, seen: set<Key>) {
    && AtGroupEnd(rows, pos)
    && (forall i :: pos < i < |rows| ==> rows[i].key in seen)
    && (forall i, k :: 0 <= i <= pos && k in seen ==> KeyLt(rows[i].key, k))
  }

  lemma StillUnseen(rows: seq<Entry>, pos: int, seen: set<Key>)
    requires Walked(rows, pos, seen) && pos >= 0
    ensures rows[pos].key !in seen
  {
    KeyTotal(rows[pos].key, rows[pos].key);
  }

  lemma WalksOn(rows: seq<Entry>, pos: int, pos': int, k: Key, seen: set<Key>)
    requires Walked(rows, pos, seen) && AtGroupEnd(rows, pos') && pos' < pos
    requires forall i :: pos' < i <= pos ==> rows[i].key == k
    requires forall i :: 0 <= i <= pos' ==> KeyLt(rows[i].key, k)
    ensures Walked(rows, pos', seen + {k})
  {
  }

  /** Adds what there is to prune of one more key. */
  method PruneOneKey(rows: seq<Entry>, ghost t: Table, keep: nat, k: Key, batch: seq<Range>, ghost seen: set<Key>)
    returns (b: seq<Range>)
    requires Scan(rows, t) && keep >= 1 && k !in seen && BatchFor(batch, t, keep, seen)
    ensures BatchFor(b, t, keep, seen + {k})
    ensures b == batch || (|b| == |batch| + 1 && b[..|batch|] == batch && b[|batch|].key == k)
  {
    var range := GetPrunableVersion(rows, t, k, keep);
    if range.Some? {
      var r := Range(k, range.value.0, range.value.1);
      RangeAdded(batch, t, keep, seen, r);
      b := batch + [r];
    } else {
      NothingToPrune(batch, t, keep, seen, k);
      b := batch;
    }
  }

  lemma RoundDone(rows: seq<Entry>, t: Table, keep: nat, batch: seq<Range>, seen: set<Key>)
    requires Scan(rows, t) && BatchFor(batch, t, keep, seen)
    ensures Applied(t, batch) == PruneKeys(t, keep, seen)
    ensures Walked(rows, -1, seen) ==> Applied(t, batch) == Pruned(t, keep)
  {
    if Walked(rows, -1, seen) {
      SeenAll(rows, t, keep, seen);
    }
  }

  /** The keys are those of the last rows, all versions of each. */
  ghost predicate IsBeginning(rows: seq<Entry>, seen: set<Key>) {
    && (forall k :: k in seen ==> HasKey(rows, k))
    && (forall i, k :: 0 <= i < |rows| && k in seen && KeyLt(k, rows[i].key) ==> rows[i].key in seen)
  }

  predicate HasKey(rows: seq<Entry>, k: Key) { exists i :: 0 <= i < |rows| && rows[i].key == k }

  ghost predicate Descending(batch: seq<Range>) {
    forall i, j :: 0 <= i < j < |batch| ==> KeyLt(batch[j].key, batch[i].key)
  }

  ghost predicate IsLeast(k: Key, seen: set<Key>) { forall x :: x in seen && x != k ==> KeyLt(k, x) }

  /** The limit is looked at after every key: the batch stops growing, and the walk ends, when it is reached. */
  ghost predicate StopsAt(limit: nat, batch: seq<Range>, hit: bool, seen: set<Key>) {
    if limit == 0 then hit <==> seen != {}
    else |batch| <= limit && (hit <==> |batch| == limit) && (hit ==> IsLeast(batch[|batch| - 1].key, seen))
  }

  lemma WalkedIsBeginning(rows: seq<Entry>, pos: int, seen: set<Key>)
    requires Walked(rows, pos, seen) && forall k :: k in seen ==> HasKey(rows, k)
    ensures IsBeginning(rows, seen)
  {
    forall i, k | 0 <= i < |rows| && k in seen && KeyLt(k, rows[i].key) ensures rows[i].key in seen {
      KeyTotal(k, rows[i].key);
    }
  }

  lemma BatchGrows(rows: seq<Entry>, pos: int, seen: set<Key>, batch: seq<Range>, b: seq<Range>)
    requires Walked(rows, pos, seen) && pos >= 0 && Descending(batch)
    requires forall i :: 0 <= i < |batch| ==> batch[i].key in seen
    requires b == batch || (|b| == |batch| + 1 && b[..|batch|] == batch && b[|batch|].key == rows[pos].key)
    ensures Descending(b) && IsLeast(rows[pos].key, seen + {rows[pos].key})
    ensures forall k :: k in seen ==> KeyLt(rows[pos].key, k)
  {
    forall i, j | 0 <= i < j < |b| ensures KeyLt(b[j].key, b[i].key) {
      assert i < |batch| ==> b[i] == b[..|batch|][i];
      assert j < |batch| ==> b[j] == b[..|batch|][j];
    }
  }

  function Limit(maxBatchSize: Option<nat>): nat {
    if maxBatchSize.Some? then maxBatchSize.value else DEFAULT_MAX_PRUNING_BATCH_SIZE
  }

  /** Where a round stands. */
  ghost predicate Round(rows: seq<Entry>, t: Table, keep: nat, limit: nat, pos: int,
                        batch: seq<Range>, hit: bool, seen: set<Key>) {
    && Walked(rows, pos, seen) && BatchFor(batch, t, keep, seen)
    && Descending(batch) && StopsAt(limit, batch, hit, seen) && forall k :: k in seen ==> HasKey(rows, k)
  }

  lemma RoundBegins(rows: seq<Entry>, t: Table, keep: nat, limit: nat)
    ensures Round(rows, t, keep, limit, |rows| - 1, [], false, {})
  {
  }

  lemma RoundGoesOn(rows: seq<Entry>, t: Table, keep: nat, limit: nat, pos: int, pos': int,
                    batch: seq<Range>, b: seq<Range>, seen: set<Key>)
    requires Round(rows, t, keep, limit, pos, batch, false, seen) && pos >= 0 && pos' < pos && AtGroupEnd(rows, pos')
    requires forall i :: pos' < i <= pos ==> rows[i].key == rows[pos].key
    requires forall i :: 0 <= i <= pos' ==> KeyLt(rows[i].key, rows[pos].key)
    requires BatchFor(b, t, keep, seen + {rows[pos].key})
    requires b == batch || (|b| == |batch| + 1 && b[..|batch|] == batch && b[|batch|].key == rows[pos].key)
    ensures Round(rows, t, keep, limit, pos', b, |b| >= limit, seen + {rows[pos].key})
  {
    var k := rows[pos].key;
    BatchGrows(rows, pos, seen, batch, b);
    WalksOn(rows, pos, pos', k, seen);
    assert HasKey(rows, k);
    SizeGoesOn(limit, batch, b, k, seen);
  }

  lemma SizeGoesOn(limit: nat, batch: seq<Range>, b: seq<Range>, k: Key, seen: set<Key>)
    requires StopsAt(limit, batch, false, seen) && IsLeast(k, seen + {k})
    requires b == batch || (|b| == |batch| + 1 && b[|batch|].key == k)
    ensures StopsAt(limit, b, |b| >= limit, seen + {k})
  {
    assert k in seen + {k};
  }

  /** With a limit of 0 the first key is also the last. */
  ghost predicate KeepsLimit(rows: seq<Entry>, limit: nat, out: PrunerJobOutput, seen: set<Key>) {
    if limit == 0 then out.hitSizeLimit <==> rows != []
    else
      && |out.batch| <= limit && (out.hitSizeLimit <==> |out.batch| == limit)
      && (out.hitSizeLimit ==> IsLeast(out.batch[|out.batch| - 1].key, seen))
  }

  /** The batch prunes the keys `seen`; without a limit hit, these are all keys. */
  ghost predicate Prunes(t: Table, keep: nat, out: PrunerJobOutput, seen: set<Key>) {
    && BatchFor(out.batch, t, keep, seen) && Applied(t, out.batch) == PruneKeys(t, keep, seen)
    && (!out.hitSizeLimit ==> Applied(t, out.batch) == Pruned(t, keep))
  }

  /**
   What a round is to achieve.  Its batch prunes the keys `seen`, which are the greatest ones, in their order.
   It never has more ranges than the limit, and hits it exactly if it has that many, right after the key that
   filled it; or, with a limit of 0, if there is a key at all.
   */
  ghost predicate IsRound(rows: seq<Entry>, t: Table, keep: nat, limit: nat, out: PrunerJobOutput, seen: set<Key>) {
    && Prunes(t, keep, out, seen) && IsBeginning(rows, seen) && Descending(out.batch)
    && KeepsLimit(rows, limit, out, seen)
  }

  lemma RoundPrunes(rows: seq<Entry>, t: Table, keep: nat, pos: int, out: PrunerJobOutput, seen: set<Key>)
    requires Scan(rows, t) && Walked(rows, pos, seen) && BatchFor(out.batch, t, keep, seen)
    requires pos < 0 || out.hitSizeLimit
    ensures Prunes(t, keep, out, seen)
  {
    RoundDone(rows, t, keep, out.batch, seen);
  }

  lemma RoundKeepsLimit(rows: seq<Entry>, limit: nat, pos: int, out: PrunerJobOutput, seen: set<Key>)
    requires Walked(rows, pos, seen) && (pos < 0 || out.hitSizeLimit)
    requires StopsAt(limit, out.batch, out.hitSizeLimit, seen) && forall k :: k in seen ==> HasKey(rows, k)
    ensures KeepsLimit(rows, limit, out, seen)
  {
    if rows != [] && pos < 0 {
      assert rows[0].key in seen;
    }
    if seen != {} {
      var k :| k in seen;
      assert HasKey(rows, k);
    }
  }

  lemma RoundEnds(rows: seq<Entry>, t: Table, keep: nat, limit: nat, pos: int, batch: seq<Range>, hit: bool,
                  seen: set<Key>)
    requires Scan(rows, t) && Round(rows, t, keep, limit, pos, batch, hit, seen) && (pos < 0 || hit)
    ensures IsRound(rows, t, keep, limit, PrunerJobOutput(batch, hit), seen)
  {
    var out := PrunerJobOutput(batch, hit);
    RoundPrunes(rows, t, keep, pos, out, seen);
    WalkedIsBeginning(rows, pos, seen);
    RoundKeepsLimit(rows, limit, pos, out, seen);
  }

  /** One key of a round. */
  method RoundStep(iter: UniqueBaseKeys, ghost t: Table, keep: nat, ghost limit: nat, batch: seq<Range>,
                   ghost seen: set<Key>)
    returns (b: seq<Range>, ghost more: set<Key>)
    requires Scan(iter.rows, t) && keep >= 1 && iter.pos >= 0
    requires Round(iter.rows, t, keep, limit, iter.pos, batch, false, seen)
    modifies iter
    ensures Round(iter.rows, t, keep, limit, iter.pos, b, |b| >= limit, more) && iter.pos < old(iter.pos)
  {
    StillUnseen(iter.rows, iter.pos, seen);
    ghost var before := iter.pos;
    var base := iter.Next();
    b := PruneOneKey(iter.rows, t, keep, base.value, batch, seen);
    RoundGoesOn(iter.rows, t, keep, limit, before, iter.pos, batch, b, seen);
    more := seen + {base.value};
  }

  /** The keys of a round, until they or the batch run out. */
  method WalkKeys(rows: seq<Entry>, ghost t: Table, keep: nat, limit: nat)
    returns (batch: seq<Range>, hit: bool, ghost pos: int, ghost seen: set<Key>)
    requires Scan(rows, t) && keep >= 1
    ensures Round(rows, t, keep, limit, pos, batch, hit, seen) && (pos < 0 || hit)
  {
    batch, hit, seen := [], false, {};
    var iter := new UniqueBaseKeys(rows);
    RoundBegins(rows, t, keep, limit);
    while iter.pos >= 0 && !hit
      invariant iter.rows == rows && Round(rows, t, keep, limit, iter.pos, batch, hit, seen)
      decreases iter.pos
    {
      batch, seen := RoundStep(iter, t, keep, limit, batch, seen);
      hit := |batch| >= limit;
    }
    pos := iter.pos;
  }

  method CollectPruningBatch(rows: seq<Entry>, ghost t: Table, keep: nat, maxBatchSize: Option<nat>)
    returns (r: Result<PrunerJobOutput, string>, ghost seen: set<Key>)
    requires Scan(rows, t)
    ensures r.Err? <==> keep == 0
    ensures r.Ok? ==> IsRound(rows, t, keep, Limit(maxBatchSize), r.value, seen)
  {
    seen := {};
    if keep == 0 {
      r := Err("keep_versions must be at least 1");
      return;
    }
    var batch, hit;
    ghost var pos;
    batch, hit, pos, seen := WalkKeys(rows, t, keep, Limit(maxBatchSize));
    RoundEnds(rows, t, keep, Limit(maxBatchSize), pos, batch, hit, seen);
    r := Ok(PrunerJobOutput(batch, hit));
  }
}
