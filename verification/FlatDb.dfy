/** The flat state database object. */
module FlatDb {
  import opened Wrappers
  import opened Bytes
  import opened KeyCodec
  import opened VersionedReads
  import opened AccessoryStore
  import opened HistoricalState
  import opened FlatState

  /** `latest_version_and_root_hash_*`: the largest entry of the root-hash table. */
  method LatestVersionAndRootHash(roots: Roots) returns (r: Option<(Version, RootHash)>)
    ensures r == LatestOf(roots)
  {
    if roots == map[] { return None; }
    ghost var m := LargestRoot(roots);
    var v :| v in roots.Keys && forall w :: w in roots.Keys ==> w <= v;
    assert m <= v <= m;
    r := Some((v, roots[v]));
  }

  /** Every key written at the version, paired with a deletion. */
  method KeysForRollback(a: Archive, v: Version) returns (pairs: seq<(Key, Value)>)
    ensures LastWrites(pairs) == DeleteAll(WrittenAt(a, v))
    ensures pairs == [] <==> DeleteAll(WrittenAt(a, v)) == map[]
  {
    pairs := [];
    var todo := WrittenAt(a, v);
    ghost var done: set<Entry> := {};
    while todo != {}
      invariant todo + done == WrittenAt(a, v)
      invariant LastWrites(pairs) == DeleteAll(done)
      invariant pairs == [] <==> done == {}
      decreases |todo|
    {
      var e :| e in todo;
      assert e.version == v;
      OneMoreDeletion(done, e);
      assert (pairs + [(e.key, None)])[..|pairs|] == pairs;
      pairs := pairs + [(e.key, None)];
      done, todo := done + {e}, todo - {e};
    }
    assert done == WrittenAt(a, v);
    if pairs != [] {
      assert pairs[|pairs| - 1].0 in LastWrites(pairs);
    }
  }

  lemma OneMoreDeletion(es: set<Entry>, e: Entry)
    ensures DeleteAll(es + {e}) == DeleteAll(es)[e.key := None]
  {
    assert KeysOf(es + {e}) == KeysOf(es) + {e.key};
  }

  lemma NothingWritten(a: Archive, v: Version)
    ensures DeleteAll(WrittenAt(a, v)) == map[] <==> WrittenAt(a, v) == {}
  {
    if e :| e in WrittenAt(a, v) {
      assert e.key in DeleteAll(WrittenAt(a, v));
    }
  }

  class FlatStateDb {
    var live: Live
    var archival: Archival

    constructor ()
      ensures View() == Flat(EMPTY_LIVE, EMPTY_ARCHIVAL)
    {
      live, archival := EMPTY_LIVE, EMPTY_ARCHIVAL;
    }

    function View(): Flat
      reads this
    {
      Flat(live, archival)
    }

    /** Writes the archival batch first and the live batch second; each write is atomic. */
    method CommitInternal(c: StateChanges, version: Version, isCommit: bool, crash: Crash)
      modifies this
      ensures View() == FlatState.CommitInternal(old(View()), c, version, isCommit, crash)
    {
      var archivalBatch := WriteArchival(archival, c, version, isCommit);
      var liveBatch := WriteLive(live, c);
      if crash == BeforeArchival { return; }
      archival := archivalBatch;
      if isCommit {
        if crash == BeforeLive { return; }
        live := liveBatch;
      }
    }

    method VersionToCommit() returns (version: Version)
      ensures version == NextVersion(live)
    {
      var latest := LatestVersionAndRootHash(live.roots);
      version := 0;
      if latest.Some? && latest.value.0 != U64_MAX {
        version := latest.value.0 + 1;
      }
    }

    method Commit(c: StateChanges, crash: Crash)
      modifies this
      ensures View() == FlatState.Commit(old(View()), c, crash)
    {
      var version := VersionToCommit();
      CommitInternal(c, version, true, crash);
    }

    method RollbackArchival(version: Version) returns (o: Outcome)
      modifies this
      ensures (View(), o) == FlatState.RollbackArchival(old(View()), version)
      ensures o == Recovered || o == MaterializeFailed
      ensures o == MaterializeFailed <==>
                WrittenAt(old(archival).user, version) != {} && WrittenAt(old(archival).kernel, version) == {}
      ensures o == MaterializeFailed ==> View() == old(View())
    {
      var userChanges := KeysForRollback(archival.user, version);
      var kernelChanges := KeysForRollback(archival.kernel, version);
      var batches := MaterializeUserAndKernelValues(userChanges, kernelChanges);
      NothingWritten(archival.user, version);
      NothingWritten(archival.kernel, version);
      if batches.Err? { return MaterializeFailed; }
      var c := StateChanges(batches.value.0, batches.value.1, DeleteRoot(version));
      CommitInternal(c, version, false, NoCrash);
      o := Recovered;
    }

    /** Recovery at start-up; `AssertionFailed` stands for the panics of its assertions. */
    method ValidateAndRollbackArchival() returns (o: Outcome)
      modifies this
      ensures (View(), o) == Recover(old(View()))
    {
      var liveLatest := LatestVersionAndRootHash(live.roots);
      var archivalLatest := LatestVersionAndRootHash(archival.roots);
      if archivalLatest.None? {
        return if liveLatest.None? then Recovered else AssertionFailed;
      }
      var (versionArchival, rootArchival) := archivalLatest.value;
      if liveLatest.None? {
        return if versionArchival == 0 then LiveEmpty else AssertionFailed;
      }
      var (versionLive, rootLive) := liveLatest.value;
      if versionArchival == versionLive {
        return if rootArchival == rootLive then Recovered else AssertionFailed;
      }
      if versionArchival as int != versionLive as int + 1 { return AssertionFailed; }
      var previous := RootAt(archival.roots, versionLive);
      if previous != Some(rootLive) { return AssertionFailed; }
      o := RollbackArchival(versionArchival);
    }
  }
}
