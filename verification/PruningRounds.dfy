/** Pruning in limited rounds, and a batch that is applied later than it was collected. */
module PruningRounds {
  import opened Wrappers
  import opened Bytes
  import opened KeyCodec
  import opened VersionedReads
  import opened AccessoryStore
  import opened PruningSpec
  import opened Pruner

  ghost function LeastEntry(es: set<Entry>): (m: Entry)
    requires es != {}
    ensures m in es && forall e :: e in es && e != m ==> EntryLt(m, e)
    decreases |es|
  {
    var x :| x in es;
    var rest := es - {x};
    if rest == {} then
      assert es == {x};
      x
    else
      var m := LeastEntry(rest);
      EntryTotal(x, m);
      assert EntryLt(x, m) ==> forall e | e in es && e != x :: EntryLt(x, e) by {
        if EntryLt(x, m) {
          forall e | e in es && e != x ensures EntryLt(x, e) {
            assert e in rest;
            if e != m { EntryTransitive(x, m, e); }
          }
        }
      }
      if EntryLt(x, m) then x else m
  }

  /** The rows of a table in the table's order. */
  method ScanTable(t: Table) returns (rows: seq<Entry>)
    ensures Scan(rows, t)
  {
    rows := [];
    var rest := t.Keys;
    while rest != {}
      invariant rest <= t.Keys && Sorted(rows)
      invariant forall e :: e in t <==> e in rows || e in rest
      invariant forall e, f :: e in rows && f in rest ==> EntryLt(e, f)
      decreases |rest|
    {
      ghost var m := LeastEntry(rest);
      var e :| e in rest && forall f :: f in rest && f != e ==> EntryLt(e, f);
      EntryTotal(e, e);
      rows := rows + [e];
      rest := rest - {e};
    }
  }

  method OneRound(t: Table, keep: nat, limit: nat) returns (batch: seq<Range>, hit: bool, ghost seen: set<Key>)
    requires keep >= 1 && limit >= 1
    ensures Applied(t, batch) == PruneKeys(t, keep, seen) && (!hit ==> Applied(t, batch) == Pruned(t, keep))
    ensures hit ==> |Applied(t, batch)| < |t|
  {
    var rows := ScanTable(t);
    var r, s := CollectPruningBatch(rows, t, keep, Some(limit));
    batch, hit, seen := r.value.batch, r.value.hitSizeLimit, s;
    if hit {
      BatchDeletes(batch, t, keep, seen);
    }
  }

  /**
   Rounds of any size, repeated until one does not hit its limit, come to an end (every
   limited round removes entries) and leave what a single unlimited round leaves.
   */
  method PruneUntilDone(db: AccessoryDb, keep: nat, limit: nat)
    requires keep >= 1 && limit >= 1
    modifies db
    ensures db.View() == old(db.View()).(main := Pruned(old(db.main), keep))
  {
    var hit := true;
    while hit
      invariant Pruned(db.main, keep) == Pruned(old(db.main), keep)
      invariant !hit ==> db.main == Pruned(old(db.main), keep)
      invariant db.index == old(db.index) && db.roots == old(db.roots)
      decreases |db.main|, hit
    {
      ghost var t := db.main;
      var batch, limited, seen := OneRound(db.main, keep, limit);
      hit := limited;
      db.main := Applied(db.main, batch);
      PartialThenFull(t, keep, seen);
      FullAgain(t, keep, batch);
    }
  }

  lemma FullAgain(t: Table, keep: nat, batch: seq<Range>)
    ensures |Applied(t, batch)| <= |t|
    ensures Applied(t, batch) == Pruned(t, keep) ==> Pruned(Applied(t, batch), keep) == Pruned(t, keep)
  {
    Subset(Applied(t, batch).Keys, t.Keys);
    if Applied(t, batch) == Pruned(t, keep) {
      var ks := set e | e in t :: e.key;
      assert PruneKeys(t, keep, ks) == Pruned(t, keep);
      PartialThenFull(t, keep, ks);
    }
  }

  /**
   The batch is collected in the background and written at a later block.  Whatever was
   committed in between, it deletes none of the newest `keep` versions of any key.
   */
  lemma StaleBatchIsSafe(t: Table, later: Table, keep: nat, batch: seq<Range>, seen: set<Key>, e: Entry)
    requires BatchFor(batch, t, keep, seen) && t.Keys <= later.Keys
    requires e in later && AmongNewest(later, keep, e)
    requires e !in t ==> forall x :: x in t && x.key == e.key ==> x.version < e.version
    ensures e in Applied(later, batch)
  {
    if Deleted(batch, e) {
      if e in t {
        Subset(NewerCounted(t, e), Newer(later, e));
        assert false;
      } else {
        assert false;
      }
    }
  }
}
