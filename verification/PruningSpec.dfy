/** Which versions pruning keeps, what it does to reads, and what it does to a later rollback. */
module PruningSpec {
  import opened Wrappers
  import opened Bytes
  import opened KeyCodec
  import opened VersionedReads
  import opened AccessoryStore

  function VersionsOf(t: Table, k: Key): set<Entry> {
    set e | e in t && e.key == k
  }

  /** The newer versions of the same key. */
  function Newer(t: Table, e: Entry): set<Entry> {
    set x | x in t && x.key == e.key && e.version < x.version
  }

  /** Those the pruner counts: its range of versions stops short of the largest slot number. */
  function NewerCounted(t: Table, e: Entry): set<Entry> {
    set x | x in t && x.key == e.key && e.version < x.version && x.version < U64_MAX
  }

  predicate Kept(t: Table, keep: nat, e: Entry) {
    e.version == U64_MAX || |NewerCounted(t, e)| < keep
  }

  /** The table with the keys in `ks` pruned. */
  function PruneKeys(t: Table, keep: nat, ks: set<Key>): Table {
    map e | e in t && (e.key in ks ==> Kept(t, keep, e)) :: t[e]
  }

  function Pruned(t: Table, keep: nat): Table {
    map e | e in t && Kept(t, keep, e) :: t[e]
  }

  // ------------------------------------------- the newest versions are kept

  /** `e` is among the newest `keep` versions of its key. */
  predicate AmongNewest(t: Table, keep: nat, e: Entry) { |Newer(t, e)| < keep }

  /**
   Pruning leaves key `k` exactly its newest `keep` versions if and only if it has no
   entry at the largest slot number or no more than `keep` versions anyway.
   */
  lemma KeepsExactlyTheNewest(t: Table, keep: nat, k: Key)
    requires keep >= 1
    ensures (forall e | e in t && e.key == k :: e in Pruned(t, keep) <==> AmongNewest(t, keep, e))
            <==> Entry(k, U64_MAX) !in t || |VersionsOf(t, k)| <= keep
  {
    var last := Entry(k, U64_MAX);
    if last !in t {
      forall e | e in t && e.key == k ensures NewerCounted(t, e) == Newer(t, e) {}
    } else {
      forall e | e in t && e.key == k && e != last
        ensures NewerCounted(t, e) == Newer(t, e) - {last} && last in Newer(t, e) {}
      assert Newer(t, last) == {};
      if |VersionsOf(t, k)| <= keep {
        forall e | e in t && e.key == k ensures AmongNewest(t, keep, e) && Kept(t, keep, e) {
          assert Newer(t, e) <= VersionsOf(t, k) - {e};
          Subset(Newer(t, e), VersionsOf(t, k) - {e});
        }
      } else {
        var e := ByRank(t, VersionsOf(t, k), k, keep);
        assert e in Pruned(t, keep) && !AmongNewest(t, keep, e);
      }
    }
  }

  lemma Subset(a: set<Entry>, b: set<Entry>)
    requires a <= b
    ensures |a| <= |b|
  {
    if a != {} {
      var x :| x in a;
      Subset(a - {x}, b - {x});
    }
  }

  /** Among more than `rank` versions of one key, one has exactly `rank` newer than it. */
  lemma {:induction false} ByRank(t: Table, vs: set<Entry>, k: Key, rank: nat) returns (e: Entry)
    requires forall x :: x in vs ==> x.key == k
    requires forall x, y :: x in vs && y in t && y.key == k && x.version < y.version ==> y in vs
    requires vs <= t.Keys && |vs| > rank
    ensures e in vs && |Newer(t, e)| == rank
    decreases |vs|
  {
    e := Oldest(vs, k);
    assert Newer(t, e) == vs - {e};
    if |vs| > rank + 1 {
      e := ByRank(t, vs - {e}, k, rank);
    }
  }

  lemma {:induction false} Oldest(vs: set<Entry>, k: Key) returns (e: Entry)
    requires vs != {} && forall x :: x in vs ==> x.key == k
    ensures e in vs && forall x :: x in vs && x != e ==> e.version < x.version
    decreases |vs|
  {
    e :| e in vs;
    if vs != {e} {
      var o := Oldest(vs - {e}, k);
      assert o.version != e.version;
      if o.version < e.version {
        e := o;
      }
    }
  }

  function NewestOf(t: Table, keep: nat, vs: set<Entry>): set<Entry> {
    set e | e in vs && AmongNewest(t, keep, e)
  }

  /** The newest `keep` of a key are as many as there are, up to `keep`. */
  lemma {:induction false} NewestCount(t: Table, vs: set<Entry>, k: Key, keep: nat)
    requires forall x :: x in vs ==> x.key == k
    requires forall x, y :: x in vs && y in t && y.key == k && x.version < y.version ==> y in vs
    requires vs <= t.Keys
    ensures |NewestOf(t, keep, vs)| == if |vs| < keep then |vs| else keep
    decreases |vs|
  {
    if vs == {} {
      assert NewestOf(t, keep, vs) == {};
    } else {
      var o := Oldest(vs, k);
      var rest := vs - {o};
      NewestCount(t, rest, k, keep);
      assert Newer(t, o) == rest;
      WithOldest(t, keep, vs, o);
    }
  }

  lemma WithOldest(t: Table, keep: nat, vs: set<Entry>, o: Entry)
    requires o in vs
    ensures NewestOf(t, keep, vs) ==
            NewestOf(t, keep, vs - {o}) + (if AmongNewest(t, keep, o) then {o} else {})
  {
  }

  // ------------------------------------------------------------------ reads

  lemma NewerIsKept(t: Table, keep: nat, o: Entry, e: Entry)
    requires o in t && Kept(t, keep, o) && o.version < U64_MAX
    requires e in t && e.key == o.key && o.version <= e.version
    ensures Kept(t, keep, e)
  {
    Subset(NewerCounted(t, e), NewerCounted(t, o));
  }

  /** Reads at or above a kept version of the key do not change. */
  lemma KeptReadsUnchanged(t: Table, keep: nat, k: Key, oldest: Version, v: Version)
    requires Entry(k, oldest) in Pruned(t, keep) && oldest <= v
    ensures Latest(Pruned(t, keep), k, v) == Latest(t, k, v)
    ensures GetValueOption(Pruned(t, keep), k, v) == GetValueOption(t, k, v)
  {
    var w := Newest(t, k, v).value;
    assert oldest <= w;
    if oldest < U64_MAX {
      NewerIsKept(t, keep, Entry(k, oldest), Entry(k, w));
    }
    LatestIs(Pruned(t, keep), k, w, v);
    ReadsLatest(t, k, v);
    ReadsLatest(Pruned(t, keep), k, v);
  }

  // ----------------------------------------------------------------- rounds

  lemma PruneKeysNewer(t: Table, keep: nat, ks: set<Key>, e: Entry)
    requires e in PruneKeys(t, keep, ks) && e.version < U64_MAX
    ensures NewerCounted(PruneKeys(t, keep, ks), e) == NewerCounted(t, e)
  {
    forall x | x in NewerCounted(t, e) ensures x in PruneKeys(t, keep, ks) {
      if e.key in ks {
        NewerIsKept(t, keep, e, x);
      }
    }
  }

  /** A partial round changes nothing about what a full round would leave. */
  lemma PartialThenFull(t: Table, keep: nat, ks: set<Key>)
    ensures Pruned(PruneKeys(t, keep, ks), keep) == Pruned(t, keep)
  {
    var u := PruneKeys(t, keep, ks);
    forall e | e in u ensures Kept(u, keep, e) <==> Kept(t, keep, e) {
      if e.version < U64_MAX {
        PruneKeysNewer(t, keep, ks, e);
      }
    }
  }

  // ------------------------------------------------------ pruning and rollback

  /** The latest value of a key, whatever its version. */
  function Current(s: State, k: Key): Value { Latest(s.main, k, U64_MAX) }

  lemma UndoneReads(s: State, v: Version, k: Key)
    requires Indexed(s) && IsLatestRoot(s.roots, v)
    ensures Current(Undone(s, v), k) == if v == 0 then None else Latest(s.main, k, v - 1)
  {
    var t, u := s.main, Undone(s, v).main;
    assert forall e :: e in t ==> e.version <= v;
    assert forall e :: e in u <==> e in t && e.version < v;
    if v == 0 {
      assert Newest(u, k, U64_MAX).None?;
    } else {
      LatestAgrees(t, u, k, v - 1);
      var o := Newest(u, k, v - 1);
      if o.Some? {
        LatestIs(u, k, o.value, U64_MAX);
      } else {
        assert Newest(u, k, U64_MAX).None?;
      }
    }
  }

  lemma PruningKeepsIndexed(s: State, keep: nat)
    requires Indexed(s)
    ensures Indexed(s.(main := Pruned(s.main, keep)))
  {
  }

  /** With at least two versions kept, the value before the last one survives. */
  lemma TwoKeptSurvive(t: Table, keep: nat, k: Key, v: Version)
    requires keep >= 2 && 1 <= v < U64_MAX && forall e :: e in t ==> e.version <= v
    ensures Latest(Pruned(t, keep), k, v - 1) == Latest(t, k, v - 1)
  {
    var u := Pruned(t, keep);
    var o := Newest(t, k, v - 1);
    if o.Some? {
      var e := Entry(k, o.value);
      assert NewerCounted(t, e) <= {Entry(k, v)};
      Subset(NewerCounted(t, e), {Entry(k, v)});
      LatestIs(u, k, o.value, v - 1);
    } else {
      assert Newest(u, k, v - 1).None?;
    }
  }

  /** The key reads the same after pruning and rollback as after rollback alone. */
  predicate Unnoticed(s: State, keep: nat, v: Version, k: Key) {
    Current(Undone(s.(main := Pruned(s.main, keep)), v), k) == Current(Undone(s, v), k)
  }

  /** Undoing `v` leaves the key without a value. */
  predicate NothingBefore(s: State, v: Version, k: Key) {
    v == 0 || Latest(s.main, k, v - 1) == None
  }

  lemma UnnoticedForKey(s: State, keep: nat, v: Version, k: Key)
    requires Indexed(s) && keep >= 1 && IsLatestRoot(s.roots, v) && v < U64_MAX
    ensures Unnoticed(s, keep, v, k) <==> keep >= 2 || Entry(k, v) !in s.main || NothingBefore(s, v, k)
  {
    var t := s.main;
    PruningKeepsIndexed(s, keep);
    UndoneReads(s, v, k);
    UndoneReads(s.(main := Pruned(t, keep)), v, k);
    assert forall e :: e in t ==> e.version <= v;
    if v > 0 {
      if keep >= 2 {
        TwoKeptSurvive(t, keep, k, v);
      } else if Entry(k, v) !in t {
        NewestSurvives(t, keep, k, v);
      } else {
        OnlyNewestLeft(t, k, v);
      }
    }
  }

  /**
   Pruning before a rollback goes unnoticed, for every key, if and only if at least two
   versions are kept or no key of the version to undo has an earlier value to go back to.
   */
  lemma PruneThenRollback(s: State, keep: nat, v: Version)
    requires Indexed(s) && keep >= 1 && IsLatestRoot(s.roots, v) && v < U64_MAX
    ensures (forall k :: Unnoticed(s, keep, v, k))
            <==> keep >= 2 || forall k :: Entry(k, v) in s.main ==> NothingBefore(s, v, k)
  {
    forall k ensures Unnoticed(s, keep, v, k) <==> keep >= 2 || Entry(k, v) !in s.main || NothingBefore(s, v, k) {
      UnnoticedForKey(s, keep, v, k);
    }
  }

  lemma NewestSurvives(t: Table, keep: nat, k: Key, v: Version)
    requires keep >= 1 && 1 <= v < U64_MAX && Entry(k, v) !in t && forall e :: e in t ==> e.version <= v
    ensures Latest(Pruned(t, keep), k, v - 1) == Latest(t, k, v - 1)
  {
    var u := Pruned(t, keep);
    var o := Newest(t, k, v - 1);
    if o.Some? {
      assert NewerCounted(t, Entry(k, o.value)) == {};
      LatestIs(u, k, o.value, v - 1);
    } else {
      assert Newest(u, k, v - 1).None?;
    }
  }

  lemma OnlyNewestLeft(t: Table, k: Key, v: Version)
    requires 1 <= v < U64_MAX && Entry(k, v) in t
    ensures Latest(Pruned(t, 1), k, v - 1) == None
  {
    var u := Pruned(t, 1);
    forall w: Version | w < v ensures Entry(k, w) !in u {
      if Entry(k, w) in t {
        assert Entry(k, v) in NewerCounted(t, Entry(k, w));
      }
    }
    assert Newest(u, k, v - 1).None?;
  }
}
