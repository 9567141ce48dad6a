/**
 The accessory database: a versioned main table, an index of its keys by
 version, and the root hash of every version.  Its last version can be undone
 through the index.
 */
module AccessoryStore {
  import opened Wrappers
  import opened Bytes
  import opened KeyCodec
  import opened VersionedReads

  type RootHash = seq<byte>

  /** The root hash of the empty state. */
  function PreGenesisRoot(): RootHash { seq(64, _ => 0) }

  datatype State = State(main: Table, index: set<Entry>, roots: map<Version, RootHash>)

  const EMPTY := State(map[], {}, map[])

  /** What one change set leaves for each key: its last write. */
  function LastWrites(pairs: seq<(Key, Value)>): map<Key, Value> {
    if pairs == [] then map[]
    else
      var (k, v) := pairs[|pairs| - 1];
      LastWrites(pairs[..|pairs| - 1])[k := v]
  }

  function AtVersion(writes: map<Key, Value>, v: Version): Table {
    map k | k in writes :: Entry(k, v) := writes[k]
  }

  function KeysAt(writes: map<Key, Value>, v: Version): set<Entry> {
    set k | k in writes :: Entry(k, v)
  }

  datatype ChangeSet = ChangeSet(version: Version, pairs: seq<(Key, Value)>, root: RootHash)

  function Committed(s: State, c: ChangeSet): State {
    var w := LastWrites(c.pairs);
    State(s.main + AtVersion(w, c.version), s.index + KeysAt(w, c.version), s.roots[c.version := c.root])
  }

  /** `v` is the version of the largest root-hash entry. */
  ghost predicate IsLatestRoot(roots: map<Version, RootHash>, v: Version) {
    v in roots && forall w :: w in roots ==> w <= v
  }

  function IndexedAt(index: set<Entry>, v: Version): set<Entry> {
    set e | e in index && e.version == v
  }

  /** Undoing version `v` through the index. */
  function Undone(s: State, v: Version): State {
    var gone := IndexedAt(s.index, v);
    State(s.main - gone, s.index - gone, s.roots - {v})
  }

  // ------------------------------------------------------------ invariants

  /** The index covers the main table, and every indexed version has its root hash. */
  ghost predicate Indexed(s: State) {
    s.main.Keys <= s.index && forall e :: e in s.index ==> e.version in s.roots
  }

  /** Nothing of version `v` or later has been committed. */
  ghost predicate Before(s: State, v: Version) {
    forall w :: w in s.roots ==> w < v
  }

  /** What a commit at `v` adds is what the index then holds at `v`. */
  lemma AddedIsIndexed(index: set<Entry>, w: map<Key, Value>, v: Version)
    requires forall e :: e in index ==> e.version < v
    ensures IndexedAt(index + KeysAt(w, v), v) == KeysAt(w, v) == AtVersion(w, v).Keys
    ensures (index + KeysAt(w, v)) - KeysAt(w, v) == index
  {
  }

  lemma TakenBack<K, V>(m: map<K, V>, added: map<K, V>)
    requires m.Keys !! added.Keys
    ensures (m + added) - added.Keys == m
  {
  }

  /** Undoing the last commit restores table, index and root hashes exactly. */
  lemma UndoIsInverse(s: State, c: ChangeSet)
    requires Indexed(s) && Before(s, c.version)
    ensures Undone(Committed(s, c), c.version) == s
    ensures IsLatestRoot(Committed(s, c).roots, c.version)
  {
    var w := LastWrites(c.pairs);
    AddedIsIndexed(s.index, w, c.version);
    assert s.main.Keys !! AtVersion(w, c.version).Keys;
    TakenBack(s.main, AtVersion(w, c.version));
    assert s.roots[c.version := c.root] - {c.version} == s.roots;
  }

  lemma CommitKeepsIndexed(s: State, c: ChangeSet)
    requires Indexed(s)
    ensures Indexed(Committed(s, c))
    ensures s.main.Keys == s.index ==> Committed(s, c).main.Keys == Committed(s, c).index
  {
    var w := LastWrites(c.pairs);
    assert AtVersion(w, c.version).Keys == KeysAt(w, c.version);
  }

  // ---------------------------------------------------------------- replay

  /** The database after the change sets `cs`, oldest first. */
  function Built(cs: seq<ChangeSet>): State {
    if cs == [] then EMPTY else Committed(Built(cs[..|cs| - 1]), cs[|cs| - 1])
  }

  ghost predicate Increasing(cs: seq<ChangeSet>) {
    forall i, j :: 0 <= i < j < |cs| ==> cs[i].version < cs[j].version
  }

  /** A plain map that takes the writes one after the other. */
  function ApplyWrites(m: map<Key, Value>, pairs: seq<(Key, Value)>): map<Key, Value>
    decreases |pairs|
  {
    if pairs == [] then m else ApplyWrites(m[pairs[0].0 := pairs[0].1], pairs[1..])
  }

  function Replay(cs: seq<ChangeSet>, v: Version): map<Key, Value> {
    if cs == [] then map[]
    else
      var m := Replay(cs[..|cs| - 1], v);
      if cs[|cs| - 1].version <= v then ApplyWrites(m, cs[|cs| - 1].pairs) else m
  }

  function Lookup(m: map<Key, Value>, k: Key): Value {
    if k in m then m[k] else None
  }

  lemma {:induction false} ApplyWritesIsLastWrites(m: map<Key, Value>, pairs: seq<(Key, Value)>)
    ensures ApplyWrites(m, pairs) == m + LastWrites(pairs)
    decreases |pairs|
  {
    if pairs != [] {
      ApplyWritesIsLastWrites(m[pairs[0].0 := pairs[0].1], pairs[1..]);
      FirstWrite(pairs);
    }
  }

  lemma {:induction false} FirstWrite(pairs: seq<(Key, Value)>)
    requires pairs != []
    ensures LastWrites(pairs) == map[pairs[0].0 := pairs[0].1] + LastWrites(pairs[1..])
    decreases |pairs|
  {
    if |pairs| > 1 {
      var init := pairs[..|pairs| - 1];
      FirstWrite(init);
      assert init[1..] == pairs[1..][..|pairs| - 2];
      assert pairs[1..][|pairs| - 2] == pairs[|pairs| - 1];
    } else {
      assert pairs[..0] == [] && pairs[1..] == [];
    }
  }

  lemma {:induction false} BuiltInvariant(cs: seq<ChangeSet>)
    ensures Indexed(Built(cs)) && Built(cs).main.Keys == Built(cs).index
  {
    if cs != [] {
      BuiltInvariant(cs[..|cs| - 1]);
      CommitKeepsIndexed(Built(cs[..|cs| - 1]), cs[|cs| - 1]);
    }
  }

  lemma {:induction false} RootsAreBelow(cs: seq<ChangeSet>, v: Version)
    requires forall i :: 0 <= i < |cs| ==> cs[i].version < v
    ensures Before(Built(cs), v)
  {
    if cs != [] {
      RootsAreBelow(cs[..|cs| - 1], v);
    }
  }

  lemma {:induction false} RootIsThere(cs: seq<ChangeSet>, i: nat)
    requires i < |cs|
    ensures cs[i].version in Built(cs).roots
    decreases |cs|
  {
    if i < |cs| - 1 {
      RootIsThere(cs[..|cs| - 1], i);
    }
  }

  lemma BuiltIsBefore(cs: seq<ChangeSet>)
    requires cs != [] && Increasing(cs)
    ensures Before(Built(cs[..|cs| - 1]), cs[|cs| - 1].version)
  {
    RootsAreBelow(cs[..|cs| - 1], cs[|cs| - 1].version);
  }

  /** A read at any version gives what replaying the writes up to that version gives. */
  lemma {:induction false} ReadsAreReplay(cs: seq<ChangeSet>, k: Key, v: Version)
    requires Increasing(cs)
    ensures GetValueOption(Built(cs).main, k, v) == Ok(Lookup(Replay(cs, v), k))
    decreases |cs|
  {
    LatestIsReplay(cs, k, v);
    ReadsLatest(Built(cs).main, k, v);
  }

  /** What a commit does to the latest values: those it writes are new, at its version and above. */
  lemma LatestAfterCommit(s: State, c: ChangeSet, k: Key, v: Version)
    requires Before(s, c.version) && Indexed(s)
    ensures var w := LastWrites(c.pairs);
            Latest(Committed(s, c).main, k, v) == if c.version <= v && k in w then w[k] else Latest(s.main, k, v)
  {
    var w, t' := LastWrites(c.pairs), Committed(s, c).main;
    if c.version <= v && k in w {
      assert t'[Entry(k, c.version)] == w[k];
      LatestIs(t', k, c.version, v);
    } else {
      LatestAgrees(s.main, t', k, v);
    }
  }

  lemma {:induction false} LatestIsReplay(cs: seq<ChangeSet>, k: Key, v: Version)
    requires Increasing(cs)
    ensures Latest(Built(cs).main, k, v) == Lookup(Replay(cs, v), k)
    decreases |cs|
  {
    if cs == [] {
      assert Newest(EMPTY.main, k, v).None?;
    } else {
      var init, c := cs[..|cs| - 1], cs[|cs| - 1];
      LatestIsReplay(init, k, v);
      BuiltIsBefore(cs);
      BuiltInvariant(init);
      ApplyWritesIsLastWrites(Replay(init, v), c.pairs);
      LatestAfterCommit(Built(init), c, k, v);
    }
  }

  // ------------------------------------------------- runs with rollbacks

  datatype Op = CommitOp(change: ChangeSet) | RollbackOp

  /** `rollback`, which panics when the version after the one to undo does not exist. */
  ghost function RolledBack(s: State): Result<State, string> {
    if s.roots == map[] then Ok(s)
    else
      var v := LargestRoot(s.roots);
      if v == U64_MAX then Err("slot number overflow") else Ok(Undone(s, v))
  }

  ghost function LargestRoot(roots: map<Version, RootHash>): (v: Version)
    requires roots != map[]
    ensures IsLatestRoot(roots, v)
  {
    Largest(roots.Keys)
  }

  ghost function Largest(vs: set<Version>): (v: Version)
    requires vs != {}
    ensures v in vs && forall w :: w in vs ==> w <= v
  {
    var x :| x in vs;
    if vs == {x} then x
    else
      var m := Largest(vs - {x});
      assert forall w :: w in vs ==> w == x || w in vs - {x};
      if m >= x then m else x
  }

  ghost predicate ValidOps(s: State, ops: seq<Op>)
    decreases |ops|
  {
    ops == [] ||
    match ops[0]
    case CommitOp(c) => Before(s, c.version) && ValidOps(Committed(s, c), ops[1..])
    case RollbackOp => RolledBack(s).Ok? && ValidOps(RolledBack(s).value, ops[1..])
  }

  ghost function Executed(s: State, ops: seq<Op>): State
    requires ValidOps(s, ops)
    decreases |ops|
  {
    if ops == [] then s
    else
      match ops[0]
      case CommitOp(c) => Executed(Committed(s, c), ops[1..])
      case RollbackOp => Executed(RolledBack(s).value, ops[1..])
  }

  /** The change sets that are left when every rollback cancels the latest one. */
  function Survivors(cs: seq<ChangeSet>, ops: seq<Op>): seq<ChangeSet>
    decreases |ops|
  {
    if ops == [] then cs
    else
      match ops[0]
      case CommitOp(c) => Survivors(cs + [c], ops[1..])
      case RollbackOp => Survivors(if cs == [] then [] else cs[..|cs| - 1], ops[1..])
  }

  lemma AppendKeepsIncreasing(cs: seq<ChangeSet>, c: ChangeSet)
    requires Increasing(cs) && Before(Built(cs), c.version)
    ensures Increasing(cs + [c]) && Built(cs + [c]) == Committed(Built(cs), c)
  {
    assert (cs + [c])[..|cs|] == cs;
    forall i | 0 <= i < |cs| ensures cs[i].version < c.version {
      RootIsThere(cs, i);
    }
  }

  lemma RollbackPops(cs: seq<ChangeSet>)
    requires Increasing(cs) && cs != [] && RolledBack(Built(cs)).Ok?
    ensures RolledBack(Built(cs)) == Ok(Built(cs[..|cs| - 1]))
  {
    var init, c := cs[..|cs| - 1], cs[|cs| - 1];
    BuiltInvariant(init);
    BuiltIsBefore(cs);
    UndoIsInverse(Built(init), c);
    assert LargestRoot(Built(cs).roots) == c.version;
  }

  /** Whatever commits and rollbacks a run makes, the database is that of the surviving change sets. */
  lemma {:induction false} RunIsItsSurvivors(cs: seq<ChangeSet>, ops: seq<Op>)
    requires Increasing(cs) && ValidOps(Built(cs), ops)
    ensures Increasing(Survivors(cs, ops))
    ensures Executed(Built(cs), ops) == Built(Survivors(cs, ops))
    decreases |ops|
  {
    if ops != [] {
      match ops[0]
      case CommitOp(c) =>
        AppendKeepsIncreasing(cs, c);
        RunIsItsSurvivors(cs + [c], ops[1..]);
      case RollbackOp =>
        if cs == [] {
          RunIsItsSurvivors(cs, ops[1..]);
        } else {
          RollbackPops(cs);
          RunIsItsSurvivors(cs[..|cs| - 1], ops[1..]);
        }
    }
  }

  /** So every read of every run is a replay of the surviving writes. */
  lemma RunReadsReplaySurvivors(ops: seq<Op>, k: Key, v: Version)
    requires ValidOps(EMPTY, ops)
    ensures GetValueOption(Executed(EMPTY, ops).main, k, v) == Ok(Lookup(Replay(Survivors([], ops), v), k))
    ensures Executed(EMPTY, ops).main.Keys == Executed(EMPTY, ops).index
  {
    RunIsItsSurvivors([], ops);
    ReadsAreReplay(Survivors([], ops), k, v);
    BuiltInvariant(Survivors([], ops));
  }

  // ------------------------------------------------------ the database object

  datatype Batch = Batch(puts: Table, indexPuts: set<Entry>)

  class AccessoryDb {
    var main: Table
    var index: set<Entry>
    var roots: map<Version, RootHash>

    constructor ()
      ensures View() == EMPTY
    {
      main, index, roots := map[], {}, map[];
    }

    function View(): State
      reads this
    {
      State(main, index, roots)
    }

    /** A deletion is a put of `None`, so that older versions stay readable. */
    static method MaterializeValues(pairs: seq<(Key, Value)>, version: Version) returns (batch: Batch)
      ensures batch == Batch(AtVersion(LastWrites(pairs), version), KeysAt(LastWrites(pairs), version))
    {
      batch := Batch(map[], {});
      for i := 0 to |pairs|
        invariant batch == Batch(AtVersion(LastWrites(pairs[..i]), version), KeysAt(LastWrites(pairs[..i]), version))
      {
        var (key, value) := pairs[i];
        ghost var before := LastWrites(pairs[..i]);
        batch := Batch(batch.puts[Entry(key, version) := value], batch.indexPuts + {Entry(key, version)});
        assert pairs[..i + 1][..i] == pairs[..i];
        OneMoreWrite(before, key, value, version);
      }
      assert pairs[..|pairs|] == pairs;
    }

    /** One atomic write of the values, the index rows and the root hash. */
    method Commit(version: Version, pairs: seq<(Key, Value)>, root: RootHash)
      modifies this
      ensures View() == Committed(old(View()), ChangeSet(version, pairs, root))
    {
      var batch := MaterializeValues(pairs, version);
      main, index, roots := main + batch.puts, index + batch.indexPuts, roots[version := root];
    }

    /** The index rows from (version, empty) up to, but not including, (version + 1, empty). */
    method IndexRange(version: Version) returns (rows: set<Entry>)
      requires version < U64_MAX
      ensures rows == set e | e in index && e.version == version
    {
      rows := set e | e in index && !IndexLt(e, Entry([], version)) && IndexLt(e, Entry([], version + 1));
      forall e | e in index ensures e in rows <==> e.version == version {
        RangeIsOneVersion(version, e);
      }
    }

    method LatestVersion() returns (v: Option<Version>)
      ensures if roots == map[] then v == None else v == Some(LargestRoot(roots))
    {
      if roots == map[] { return None; }
      ghost var m := LargestRoot(roots);
      var latest :| latest in roots.Keys && forall w :: w in roots.Keys ==> w <= latest;
      assert m <= latest <= m;
      v := Some(latest);
    }

    method Rollback() returns (r: Result<(), string>)
      modifies this
      ensures r.Ok? == RolledBack(old(View())).Ok?
      ensures View() == if r.Ok? then RolledBack(old(View())).value else old(View())
      ensures r.Err? <==> U64_MAX in old(roots)
      ensures old(roots) == map[] ==> View() == old(View())
    {
      var latest := LatestVersion();
      if latest == None { return Ok(()); }
      var version := latest.value;
      if version == U64_MAX { return Err("slot number overflow"); }
      var rows := IndexRange(version);
      var todo := rows;
      var deletes: set<Entry> := {};
      while todo != {}
        invariant todo <= rows && deletes == rows - todo
        decreases |todo|
      {
        var row :| row in todo;
        assert row.version == version;
        deletes := deletes + {row};
        todo := todo - {row};
      }
      main, index, roots := main - deletes, index - deletes, roots - {version};
      r := Ok(());
    }
  }

  lemma OneMoreWrite(writes: map<Key, Value>, key: Key, value: Value, v: Version)
    ensures AtVersion(writes[key := value], v) == AtVersion(writes, v)[Entry(key, v) := value]
    ensures KeysAt(writes[key := value], v) == KeysAt(writes, v) + {Entry(key, v)}
  {
    var t, u := AtVersion(writes[key := value], v), AtVersion(writes, v)[Entry(key, v) := value];
    forall e: Entry ensures (e in t <==> e in u) && (e in t ==> t[e] == u[e]) {
      if e in t || e in u { assert e == Entry(e.key, v); }
    }
    assert t == u;
  }
}
