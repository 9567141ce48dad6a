/**
 Tables of which older versions are missing, and what ranges do to them that were found by
 looking at earlier tables, each at another one.
 */
module CroppedTables {
  import opened Wrappers
  import opened Bytes
  import opened KeyCodec
  import opened VersionedReads
  import opened AccessoryStore
  import opened PruningSpec
  import opened Pruner

  predicate Outlived(main: Table, e: Entry) {
    exists x :: x in main && x.key == e.key && e.version <= x.version
  }

  /** All versions of the key that are newer than `e` are there. */
  ghost predicate CompleteAbove(main: Table, full: Table, e: Entry) {
    forall x :: x in full && x.key == e.key && e.version < x.version ==> x in main
  }

  /** Of each key of `full`, the newest versions, at least one. */
  ghost predicate Cropped(main: Table, full: Table) {
    && (forall e :: e in main ==> e in full && main[e] == full[e])
    && (forall e :: e in main ==> CompleteAbove(main, full, e))
    && (forall e {:trigger Outlived(main, e)} :: e in full ==> Outlived(main, e))
  }

  lemma StillThere(main: Table, full: Table, k: Key, oldest: Version, w: Version)
    requires Cropped(main, full) && Entry(k, oldest) in main && oldest <= w && Entry(k, w) in full
    ensures Entry(k, w) in main && main[Entry(k, w)] == full[Entry(k, w)]
  {
    assert CompleteAbove(main, full, Entry(k, oldest));
  }

  /** Reads at or above the oldest version that is left are those of the whole table. */
  lemma CroppedReads(main: Table, full: Table, k: Key, oldest: Version, v: Version)
    requires Cropped(main, full) && Entry(k, oldest) in main && oldest <= v
    ensures Latest(main, k, v) == Latest(full, k, v)
  {
    assert Entry(k, oldest) in full;
    var newest := Newest(full, k, v);
    assert newest.Some?;
    var w := newest.value;
    StillThere(main, full, k, oldest, w);
    forall x: Version | w < x <= v ensures Entry(k, x) !in main {
      assert Entry(k, x) !in full;
    }
    LatestIs(main, k, w, v);
  }

  lemma CroppedHasKey(main: Table, full: Table, k: Key, v: Version)
    requires Cropped(main, full) && forall e :: e in main ==> e.key != k
    ensures Latest(full, k, v) == None
  {
    var w := Newest(full, k, v);
    assert w.Some? ==> Outlived(main, Entry(k, w.value));
  }

  lemma OutlivedBy(main: Table, e: Entry, x: Entry)
    requires x in main && x.key == e.key && e.version <= x.version
    ensures Outlived(main, e)
  {
  }

  lemma OutlivedInMore(main: Table, more: Table, e: Entry)
    requires Outlived(main, e) && main.Keys <= more.Keys
    ensures Outlived(more, e)
  {
    var x :| x in main && x.key == e.key && e.version <= x.version;
    OutlivedBy(more, e, x);
  }

  /** Both tables get the entries of a version that is newer than all others. */
  lemma CroppedGrows(main: Table, full: Table, added: Table, v: Version)
    requires Cropped(main, full)
    requires (forall e :: e in added ==> e.version == v) && (forall e :: e in full ==> e.version < v)
    ensures Cropped(main + added, full + added)
  {
    var m, f := main + added, full + added;
    forall e | e in m ensures CompleteAbove(m, f, e) {
      assert e in main ==> CompleteAbove(main, full, e);
    }
    forall e | e in f ensures Outlived(m, e) {
      if e in added {
        OutlivedBy(m, e, e);
      } else {
        OutlivedInMore(main, m, e);
      }
    }
  }

  // ------------------------------------------------------------------- looks at a table

  /** What the pruner found to prune of one key, and the table it looked at. */
  datatype Look = Look(range: Range, keep: nat, from: Table)

  ghost predicate Found(l: Look) {
    l.keep >= 1 && PruneRange(l.from, l.keep, l.range.key, Some((l.range.from, l.range.to)))
  }

  predicate Hits(l: Look, e: Entry) { l.range.key == e.key && InRange(e, l.range.from, l.range.to) }

  /** Since the table was looked at, only newer versions have been added. */
  ghost predicate Stale(from: Table, main: Table) {
    && from.Keys <= main.Keys
    && forall e :: e in main && e !in from ==> OnTop(from, e)
  }

  ghost predicate OnTop(from: Table, e: Entry) {
    forall x :: x in from && x.key == e.key ==> x.version < e.version
  }

  ghost predicate LookedAt(l: Look, main: Table) { Found(l) && Stale(l.from, main) }

  lemma HitIsOld(l: Look, main: Table, e: Entry)
    requires LookedAt(l, main) && e in main && Hits(l, e)
    ensures e in l.from && !Kept(l.from, l.keep, e)
  {
    assert e !in l.from ==> OnTop(l.from, e);
    assert Entry(l.range.key, l.range.to - 1) in l.from;
  }

  /** With a version, the older ones of its key are deleted. */
  lemma HitsOlder(l: Look, main: Table, e: Entry, x: Entry)
    requires LookedAt(l, main) && e in main && x in main && x.key == e.key && e.version < x.version && Hits(l, x)
    ensures Hits(l, e)
  {
    HitIsOld(l, main, x);
    assert e !in l.from ==> OnTop(l.from, e);
    if Kept(l.from, l.keep, e) {
      NewerIsKept(l.from, l.keep, e, x);
    }
  }

  /** However late the range is written, the newest versions are spared. */
  lemma NewestAreSpared(l: Look, main: Table, e: Entry)
    requires LookedAt(l, main) && e in main && |Newer(main, e)| < l.keep
    ensures !Hits(l, e)
  {
    if Hits(l, e) {
      HitIsOld(l, main, e);
      Subset(NewerCounted(l.from, e), Newer(main, e));
    }
  }

  function Ranges(job: seq<Look>): seq<Range> {
    if job == [] then [] else [job[0].range] + Ranges(job[1..])
  }

  lemma {:induction false} DeletedByLook(job: seq<Look>, e: Entry)
    ensures Deleted(Ranges(job), e) <==> exists l :: l in job && Hits(l, e)
  {
    if job != [] {
      DeletedByLook(job[1..], e);
      var first, rest := [job[0].range], Ranges(job[1..]);
      DeletedInParts(first, rest, e);
      assert Deleted(first, e) <==> Hits(job[0], e) by {
        assert first[0] == job[0].range;
      }
      assert forall l :: l in job <==> l == job[0] || l in job[1..];
    }
  }

  lemma DeletedInParts(a: seq<Range>, b: seq<Range>, e: Entry)
    ensures Deleted(a + b, e) <==> Deleted(a, e) || Deleted(b, e)
  {
    if Deleted(b, e) {
      var i :| 0 <= i < |b| && b[i].key == e.key && InRange(e, b[i].from, b[i].to);
      assert (a + b)[|a| + i] == b[i];
    }
    if Deleted(a, e) {
      var i :| 0 <= i < |a| && a[i].key == e.key && InRange(e, a[i].from, a[i].to);
      assert (a + b)[i] == a[i];
    }
  }

  ghost predicate AllLookedAt(job: seq<Look>, main: Table) {
    forall l {:trigger l in job} :: l in job ==> LookedAt(l, main)
  }

  lemma SparedByAll(job: seq<Look>, e: Entry)
    requires forall l :: l in job ==> !Hits(l, e)
    ensures !Deleted(Ranges(job), e)
  {
    DeletedByLook(job, e);
  }

  // ------------------------------------------------------------ pruning below one more version

  /** The table is `below`, where all versions are lower than `v`, and entries of version `v`. */
  ghost predicate Layered(below: Table, top: Table, v: Version) {
    (forall e :: e in top ==> e.version == v) && (forall e :: e in below ==> e.version < v)
  }

  /** A range of a key that is on top leaves at least two versions. */
  predicate SparesBelow(l: Look, top: Table, v: Version) { l.keep >= 2 || Entry(l.range.key, v) !in top }

  ghost predicate AllSpareBelow(job: seq<Look>, top: Table, v: Version) {
    forall l {:trigger l in job} :: l in job ==> SparesBelow(l, top, v)
  }

  lemma TopIsSpared(job: seq<Look>, below: Table, top: Table, v: Version, e: Entry)
    requires Layered(below, top, v) && AllLookedAt(job, below + top) && e in top
    ensures !Deleted(Ranges(job), e)
  {
    assert Newer(below + top, e) == {};
    forall l | l in job ensures !Hits(l, e) {
      NewestAreSpared(l, below + top, e);
    }
    SparedByAll(job, e);
  }

  lemma NewestBelowIsSpared(job: seq<Look>, below: Table, top: Table, v: Version, e: Entry)
    requires Layered(below, top, v) && AllLookedAt(job, below + top) && AllSpareBelow(job, top, v)
    requires e in below && forall x :: x in below && x.key == e.key ==> x.version <= e.version
    ensures !Deleted(Ranges(job), e)
  {
    var newer := Newer(below + top, e);
    assert newer <= {Entry(e.key, v)};
    Subset(newer, {Entry(e.key, v)});
    assert Entry(e.key, v) !in top ==> newer == {};
    forall l | l in job ensures !Hits(l, e) {
      assert SparesBelow(l, top, v);
      if l.range.key == e.key {
        NewestAreSpared(l, below + top, e);
      }
    }
    SparedByAll(job, e);
  }

  lemma NewestOfKey(t: Table, e: Entry) returns (x: Entry)
    requires e in t
    ensures x in t && x.key == e.key && e.version <= x.version
    ensures forall y :: y in t && y.key == e.key ==> y.version <= x.version
  {
    var o := Newest(t, e.key, U64_MAX);
    assert Entry(e.key, e.version) in t;
    x := Entry(e.key, o.value);
    forall y | y in t && y.key == e.key ensures y.version <= x.version {
      assert Entry(e.key, y.version) in t;
    }
  }

  lemma PruneStaysComplete(job: seq<Look>, main: Table, below: Table, full: Table, e: Entry)
    requires AllLookedAt(job, main) && below.Keys <= main.Keys
    requires e in Applied(below, Ranges(job)) && CompleteAbove(below, full, e)
    ensures CompleteAbove(Applied(below, Ranges(job)), full, e)
  {
    forall x | x in full && x.key == e.key && e.version < x.version ensures x in Applied(below, Ranges(job)) {
      DeletedByLook(job, x);
      DeletedByLook(job, e);
      if l :| l in job && Hits(l, x) {
        HitsOlder(l, main, e, x);
      }
    }
  }

  lemma PruneOutlives(job: seq<Look>, below: Table, top: Table, v: Version, e: Entry)
    requires Layered(below, top, v) && AllLookedAt(job, below + top) && AllSpareBelow(job, top, v) && Outlived(below, e)
    ensures Outlived(Applied(below, Ranges(job)), e)
  {
    var x :| x in below && x.key == e.key && e.version <= x.version;
    var y := NewestOfKey(below, x);
    NewestBelowIsSpared(job, below, top, v, y);
    OutlivedBy(Applied(below, Ranges(job)), e, y);
  }

  lemma PruneLayers(job: seq<Look>, below: Table, top: Table, v: Version)
    requires Layered(below, top, v) && AllLookedAt(job, below + top)
    ensures Applied(below + top, Ranges(job)) == Applied(below, Ranges(job)) + top
  {
    forall e | e in top ensures !Deleted(Ranges(job), e) {
      TopIsSpared(job, below, top, v, e);
    }
  }

  /** Writing the ranges, however late, crops what is below further, and leaves what is on top. */
  lemma PruneCrops(job: seq<Look>, below: Table, top: Table, v: Version, full: Table)
    requires Layered(below, top, v) && AllLookedAt(job, below + top) && AllSpareBelow(job, top, v)
    requires Cropped(below, full)
    ensures Cropped(Applied(below, Ranges(job)), full)
  {
    var after := Applied(below, Ranges(job));
    forall e | e in after ensures CompleteAbove(after, full, e) {
      PruneStaysComplete(job, below + top, below, full, e);
    }
    forall e | e in full ensures Outlived(after, e) {
      PruneOutlives(job, below, top, v, e);
    }
  }
}
