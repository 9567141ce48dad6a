/**
 The accessory database over the life of a node: commits, crashes after the accessory part of
 a commit, the rollback at the next start-up, and pruning in the background, where each key is
 looked at in the table of its own moment and the ranges are written at a later block.
 */
module PruningRuns {
  import opened Wrappers
  import opened Bytes
  import opened KeyCodec
  import opened VersionedReads
  import opened AccessoryStore
  import opened PruningSpec
  import opened Pruner
  import opened CroppedTables

  datatype Node = Node(
    state: State,
    next: Version,        // the version the next commit writes, one after the live one
    liveRoot: RootHash,
    up: bool,
    job: seq<Look>)

  ghost function FirstNode(): Node { Node(EMPTY, 0, PreGenesisRoot(), true, []) }

  datatype Op =
    | Write(pairs: seq<(Key, Value)>, root: RootHash)          // a commit that goes through
    | WriteAndCrash(pairs: seq<(Key, Value)>, root: RootHash)  // the accessory part of one
    | Crash
    | StartUp
    | LookAt(look: Look)
    | Prune

  ghost predicate Enabled(n: Node, op: Op) {
    match op
    case Write(_, _) => n.up && n.next < U64_MAX
    case WriteAndCrash(_, _) => n.up && n.next < U64_MAX
    case Crash => n.up
    case StartUp => !n.up
    case LookAt(l) => n.up && Found(l) && l.from == n.state.main
    case Prune => n.up
  }

  ghost function LatestRoot(roots: map<Version, RootHash>): RootHash {
    if roots == map[] then PreGenesisRoot() else roots[LargestRoot(roots)]
  }

  ghost function Step(n: Node, op: Op): Node
    requires Enabled(n, op)
  {
    match op
    case Write(pairs, root) =>
      n.(state := Committed(n.state, ChangeSet(n.next, pairs, root)), next := n.next + 1, liveRoot := root)
    case WriteAndCrash(pairs, root) =>
      n.(state := Committed(n.state, ChangeSet(n.next, pairs, root)), up := false, job := [])
    case Crash => n.(up := false, job := [])
    case StartUp =>
      if CutOffAtFirst(n) then n else n.(state := Restarted(n.state, n.liveRoot), up := true)
    case LookAt(l) => n.(job := n.job + [l])
    case Prune => n.(state := n.state.(main := Applied(n.state.main, Ranges(n.job))), job := [])
  }

  /** Cut off in its very first commit the node refuses to start: the databases have to be deleted. */
  ghost predicate CutOffAtFirst(n: Node) { n.next == 0 && LatestRoot(n.state.roots) != n.liveRoot }

  /** The start-up rolls the accessory database back if its root hash is not that of the live store. */
  ghost function Restarted(s: State, liveRoot: RootHash): State {
    if LatestRoot(s.roots) == liveRoot then s
    else match RolledBack(s)
      case Ok(u) => u
      case Err(_) => s
  }

  ghost predicate ValidRun(n: Node, ops: seq<Op>)
    decreases |ops|
  {
    ops == [] || (Enabled(n, ops[0]) && ValidRun(Step(n, ops[0]), ops[1..]))
  }

  ghost function After(n: Node, ops: seq<Op>): Node
    requires ValidRun(n, ops)
    decreases |ops|
  {
    if ops == [] then n else After(Step(n, ops[0]), ops[1..])
  }

  /** The change sets of the commits that went through. */
  ghost function Done(n: Node, cs: seq<ChangeSet>, ops: seq<Op>): seq<ChangeSet>
    requires ValidRun(n, ops)
    decreases |ops|
  {
    if ops == [] then cs else Done(Step(n, ops[0]), Grown(n, cs, ops[0]), ops[1..])
  }

  function Grown(n: Node, cs: seq<ChangeSet>, op: Op): seq<ChangeSet> {
    if op.Write? then cs + [ChangeSet(n.next, op.pairs, op.root)] else cs
  }

  // ----------------------------------------------------------------- what can be relied on

  /** Every key that the slot writes has that value already. */
  ghost predicate Idle(s: State, pairs: seq<(Key, Value)>) {
    forall k :: k in LastWrites(pairs) ==> LastWrites(pairs)[k] == Current(s, k)
  }

  /**
   A slot that is cut off changes the root hash or no value; and while a version is there that the
   live store lacks, its keys are pruned to two versions at least.
   */
  ghost predicate Safe(n: Node, op: Op) {
    match op
    case WriteAndCrash(pairs, root) => root != n.liveRoot || Idle(n.state, pairs)
    case LookAt(l) => SparesBelow(l, n.state.main, n.next)
    case _ => true
  }

  ghost predicate SafeRun(n: Node, ops: seq<Op>)
    decreases |ops|
  {
    ValidRun(n, ops) && (ops == [] || (Safe(n, ops[0]) && SafeRun(Step(n, ops[0]), ops[1..])))
  }

  predicate SomethingLeft(t: Table, k: Key, v: Version) { exists o: Version :: o <= v && Entry(k, o) in t }

  /** Reads at or above the oldest version left of the key are the replay; and something is left of what was written. */
  ghost predicate ReadsRight(t: Table, cs: seq<ChangeSet>, k: Key, v: Version) {
    && (SomethingLeft(t, k, v) ==> GetValueOption(t, k, v) == Ok(Lookup(Replay(cs, v), k)))
    && ((forall e :: e in t ==> e.key != k) ==> Lookup(Replay(cs, v), k) == None)
  }

  ghost predicate AllReadsRight(t: Table, cs: seq<ChangeSet>) {
    forall k: Key, v: Version :: ReadsRight(t, cs, k, v)
  }

  // ------------------------------------------------------------------------ the invariant

  /** What has been committed, cropped. */
  ghost predicate Holds(s: State, cs: seq<ChangeSet>) {
    && Numbered(cs) && s.index == Built(cs).index && s.roots == Built(cs).roots
    && Cropped(s.main, Built(cs).main)
  }

  /** The version of each change set is its position. */
  ghost predicate Numbered(cs: seq<ChangeSet>) {
    forall i :: 0 <= i < |cs| ==> cs[i].version == i
  }

  ghost predicate SameReplay(a: seq<ChangeSet>, b: seq<ChangeSet>) {
    forall k: Key, v: Version :: Lookup(Replay(a, v), k) == Lookup(Replay(b, v), k)
  }

  /** What the writes would change is nothing. */
  ghost predicate IdleOn(kept: seq<ChangeSet>, pairs: seq<(Key, Value)>) {
    forall k :: k in LastWrites(pairs) ==> LastWrites(pairs)[k] == Lookup(Replay(kept, U64_MAX), k)
  }

  ghost predicate JobHolds(n: Node) {
    && (n.job != [] ==> n.up)
    && AllLookedAt(n.job, n.state.main) && AllSpareBelow(n.job, n.state.main, n.next)
  }

  /** One more version that the live store lacks; while the node is up, one that it did not notice. */
  ghost predicate HalfHolds(n: Node, kept: seq<ChangeSet>, half: seq<ChangeSet>) {
    |half| <= 1 &&
    (half != [] ==>
       && half[0].version == n.next < U64_MAX && (n.up ==> half[0].root == n.liveRoot)
       && (half[0].root == n.liveRoot ==> IdleOn(kept, half[0].pairs)))
  }

  function On(s: State, half: seq<ChangeSet>): State {
    if half == [] then s else Committed(s, half[0])
  }

  /**
   The state is `s` with `half` on top.  Under `s` are the commits `cs`, some of them with more writes
   than they made (`kept`), which replay in the same way.
   */
  ghost predicate NodeHolds(n: Node, cs: seq<ChangeSet>, kept: seq<ChangeSet>, s: State, half: seq<ChangeSet>) {
    && Holds(s, kept) && |kept| == |cs| == n.next && SameReplay(kept, cs)
    && n.liveRoot == LatestRoot(s.roots) && HalfHolds(n, kept, half) && n.state == On(s, half) && JobHolds(n)
  }

  lemma NumberedIsIncreasing(cs: seq<ChangeSet>)
    requires Numbered(cs)
    ensures Increasing(cs)
  {
  }

  lemma HoldsIsIndexed(s: State, cs: seq<ChangeSet>)
    requires Holds(s, cs) && |cs| <= U64_MAX
    ensures Indexed(s) && Before(s, |cs|) && forall e :: e in Built(cs).main ==> e.version < |cs|
  {
    BuiltInvariant(cs);
    RootsAreBelow(cs, |cs|);
  }

  lemma LatestRootIs(roots: map<Version, RootHash>, v: Version)
    requires IsLatestRoot(roots, v)
    ensures roots != map[] && LargestRoot(roots) == v && LatestRoot(roots) == roots[v]
  {
  }

  lemma CommitKeepsHolds(s: State, cs: seq<ChangeSet>, c: ChangeSet)
    requires Holds(s, cs) && |cs| == c.version
    ensures Holds(Committed(s, c), cs + [c])
  {
    HoldsIsIndexed(s, cs);
    assert (cs + [c])[..|cs|] == cs;
    CroppedGrows(s.main, Built(cs).main, AtVersion(LastWrites(c.pairs), c.version), c.version);
  }

  lemma CommitSetsRoot(s: State, c: ChangeSet)
    requires Before(s, c.version)
    ensures IsLatestRoot(Committed(s, c).roots, c.version) && LatestRoot(Committed(s, c).roots) == c.root
  {
    LatestRootIs(Committed(s, c).roots, c.version);
  }

  // ------------------------------------------------------------------------------- replays

  lemma {:induction false} ReplayAbove(cs: seq<ChangeSet>, v: Version)
    requires Numbered(cs) && |cs| <= v + 1
    ensures Replay(cs, v) == Replay(cs, U64_MAX)
    decreases |cs|
  {
    if cs != [] {
      ReplayAbove(cs[..|cs| - 1], v);
    }
  }

  lemma ReplayOneMore(cs: seq<ChangeSet>, c: ChangeSet, v: Version, k: Key)
    ensures Lookup(Replay(cs + [c], v), k) ==
            if c.version <= v && k in LastWrites(c.pairs) then LastWrites(c.pairs)[k] else Lookup(Replay(cs, v), k)
  {
    assert (cs + [c])[..|cs|] == cs;
    ApplyWritesIsLastWrites(Replay(cs, v), c.pairs);
  }

  lemma {:induction false} WritesInParts(a: seq<(Key, Value)>, b: seq<(Key, Value)>)
    ensures LastWrites(a + b) == LastWrites(a) + LastWrites(b)
    decreases |b|
  {
    if b == [] {
      assert a + b == a;
    } else {
      var init, last := b[..|b| - 1], b[|b| - 1];
      WritesInParts(a, init);
      assert b == init + [last] && a + b == (a + init) + [last];
      LastWriteAdded(init, last);
      LastWriteAdded(a + init, last);
      PutIntoSum(LastWrites(a), LastWrites(init), last.0, last.1);
    }
  }

  lemma LastWriteAdded(pairs: seq<(Key, Value)>, last: (Key, Value))
    ensures LastWrites(pairs + [last]) == LastWrites(pairs)[last.0 := last.1]
  {
    assert (pairs + [last])[..|pairs|] == pairs;
  }

  lemma PutIntoSum<A, B>(m: map<A, B>, n: map<A, B>, k: A, v: B)
    ensures (m + n)[k := v] == m + n[k := v]
  {
  }

  /** The writes of `half`, which are there already, and those of `c`. */
  function Merged(half: seq<ChangeSet>, c: ChangeSet): ChangeSet {
    if half == [] then c else c.(pairs := half[0].pairs + c.pairs)
  }

  lemma VersionInParts(a: map<Key, Value>, b: map<Key, Value>, v: Version)
    ensures AtVersion(a, v) + AtVersion(b, v) == AtVersion(a + b, v)
    ensures KeysAt(a, v) + KeysAt(b, v) == KeysAt(a + b, v)
  {
  }

  lemma AddedTwice<K, V>(m: map<K, V>, a: map<K, V>, b: map<K, V>)
    ensures m + a + b == m + (a + b)
  {
  }

  lemma CommitOnHalf(s: State, half: seq<ChangeSet>, c: ChangeSet)
    requires |half| <= 1 && (half != [] ==> half[0].version == c.version)
    ensures Committed(On(s, half), c) == Committed(s, Merged(half, c))
  {
    if half != [] {
      var a, b := LastWrites(half[0].pairs), LastWrites(c.pairs);
      WritesInParts(half[0].pairs, c.pairs);
      VersionInParts(a, b, c.version);
      AddedTwice(s.main, AtVersion(a, c.version), AtVersion(b, c.version));
      assert s.index + KeysAt(a, c.version) + KeysAt(b, c.version) ==
             s.index + (KeysAt(a, c.version) + KeysAt(b, c.version));
      assert s.roots[c.version := half[0].root][c.version := c.root] == s.roots[c.version := c.root];
    }
  }

  /** Writes that change nothing do not show in the replay. */
  lemma MergedReplaysSame(cs: seq<ChangeSet>, kept: seq<ChangeSet>, half: seq<ChangeSet>, c: ChangeSet)
    requires SameReplay(kept, cs) && Numbered(kept) && |kept| == c.version && |half| <= 1
    requires half != [] ==> IdleOn(kept, half[0].pairs)
    ensures SameReplay(kept + [Merged(half, c)], cs + [c])
  {
    forall k: Key, v: Version
      ensures Lookup(Replay(kept + [Merged(half, c)], v), k) == Lookup(Replay(cs + [c], v), k)
    {
      ReplayOneMore(kept, Merged(half, c), v, k);
      ReplayOneMore(cs, c, v, k);
      if half != [] && c.version <= v {
        WritesInParts(half[0].pairs, c.pairs);
        ReplayAbove(kept, v);
      }
    }
  }

  // ---------------------------------------------------------------------------- reading

  lemma ReadsOfCommitted(s: State, kept: seq<ChangeSet>, k: Key, v: Version)
    requires Holds(s, kept) && |kept| <= U64_MAX
    ensures SomethingLeft(s.main, k, v) ==> Latest(s.main, k, v) == Lookup(Replay(kept, v), k)
    ensures (forall e :: e in s.main ==> e.key != k) ==> Lookup(Replay(kept, v), k) == None
  {
    NumberedIsIncreasing(kept);
    LatestIsReplay(kept, k, v);
    if SomethingLeft(s.main, k, v) {
      var o: Version :| o <= v && Entry(k, o) in s.main;
      CroppedReads(s.main, Built(kept).main, k, o, v);
    }
    if forall e :: e in s.main ==> e.key != k {
      CroppedHasKey(s.main, Built(kept).main, k, v);
    }
  }

  lemma LatestWithHalf(s: State, kept: seq<ChangeSet>, half: seq<ChangeSet>, k: Key, v: Version)
    requires Holds(s, kept) && |half| <= 1 && (half != [] ==> half[0].version == |kept|)
    ensures Latest(On(s, half).main, k, v) ==
            if half != [] && |kept| <= v && k in LastWrites(half[0].pairs) then LastWrites(half[0].pairs)[k]
            else Latest(s.main, k, v)
  {
    if half != [] {
      HoldsIsIndexed(s, kept);
      LatestAfterCommit(s, half[0], k, v);
    }
  }

  lemma LeftBelow(s: State, half: seq<ChangeSet>, k: Key, v: Version)
    requires |half| <= 1 && SomethingLeft(On(s, half).main, k, v)
    requires half != [] ==> half[0].version > v || k !in LastWrites(half[0].pairs)
    ensures SomethingLeft(s.main, k, v)
  {
    var o: Version :| o <= v && Entry(k, o) in On(s, half).main;
    assert Entry(k, o) in s.main;
  }

  lemma HalfReads(s: State, kept: seq<ChangeSet>, half: seq<ChangeSet>, k: Key, v: Version)
    requires Holds(s, kept) && |kept| <= U64_MAX && |half| <= 1
    requires half != [] ==> half[0].version == |kept| && IdleOn(kept, half[0].pairs)
    ensures ReadsRight(On(s, half).main, kept, k, v)
  {
    var t := On(s, half).main;
    ReadsLatest(t, k, v);
    LatestWithHalf(s, kept, half, k, v);
    ReadsOfCommitted(s, kept, k, v);
    if SomethingLeft(t, k, v) {
      if half != [] && |kept| <= v && k in LastWrites(half[0].pairs) {
        ReplayAbove(kept, v);
      } else {
        LeftBelow(s, half, k, v);
      }
    }
    assert s.main.Keys <= t.Keys;
  }

  lemma NodeReads(n: Node, cs: seq<ChangeSet>, kept: seq<ChangeSet>, s: State, half: seq<ChangeSet>)
    requires NodeHolds(n, cs, kept, s, half) && n.up
    ensures AllReadsRight(n.state.main, cs)
  {
    forall k: Key, v: Version ensures ReadsRight(n.state.main, cs, k, v) {
      HalfReads(s, kept, half, k, v);
    }
  }

  /** What a running node shows of a key is the replay of all commits. */
  lemma CurrentIsReplay(n: Node, cs: seq<ChangeSet>, kept: seq<ChangeSet>, s: State, half: seq<ChangeSet>, k: Key)
    requires NodeHolds(n, cs, kept, s, half) && n.up
    ensures Current(n.state, k) == Lookup(Replay(kept, U64_MAX), k)
  {
    HalfReads(s, kept, half, k, U64_MAX);
    RightAtTheEnd(n.state.main, kept, k);
  }

  lemma RightAtTheEnd(t: Table, kept: seq<ChangeSet>, k: Key)
    requires ReadsRight(t, kept, k, U64_MAX)
    ensures Latest(t, k, U64_MAX) == Lookup(Replay(kept, U64_MAX), k)
  {
    ReadsLatest(t, k, U64_MAX);
    if !SomethingLeft(t, k, U64_MAX) {
      assert Newest(t, k, U64_MAX).None?;
      forall e | e in t ensures e.key != k {
        assert e == Entry(e.key, e.version);
      }
    }
  }

  // --------------------------------------------------------------------------- the steps

  lemma WriteKeepsStale(from: Table, s: State, c: ChangeSet)
    requires Stale(from, s.main) && forall e :: e in s.main ==> e.version <= c.version
    ensures Stale(from, Committed(s, c).main)
  {
    var after := Committed(s, c).main;
    forall e | e in after && e !in from ensures OnTop(from, e) {
      assert e in s.main ==> OnTop(from, e);
    }
  }

  lemma NotAbove(n: Node, cs: seq<ChangeSet>, kept: seq<ChangeSet>, s: State, half: seq<ChangeSet>)
    requires NodeHolds(n, cs, kept, s, half)
    ensures forall e :: e in n.state.main ==> e.version <= n.next
    ensures half == [] ==> forall e :: e in n.state.main ==> e.version < n.next
    ensures forall e :: e in s.main ==> e.version < n.next
  {
    HoldsIsIndexed(s, kept);
  }

  lemma WriteKeepsJob(n: Node, op: Op, cs: seq<ChangeSet>, kept: seq<ChangeSet>, s: State, half: seq<ChangeSet>)
    requires NodeHolds(n, cs, kept, s, half) && Enabled(n, op) && op.Write?
    ensures JobHolds(Step(n, op))
  {
    NotAbove(n, cs, kept, s, half);
    var after := Step(n, op);
    forall l | l in n.job ensures LookedAt(l, after.state.main) && SparesBelow(l, after.state.main, after.next) {
      WriteKeepsStale(l.from, n.state, ChangeSet(n.next, op.pairs, op.root));
    }
  }

  lemma WriteHolds(n: Node, op: Op, cs: seq<ChangeSet>, kept: seq<ChangeSet>, s: State, half: seq<ChangeSet>)
    returns (kept': seq<ChangeSet>, s': State)
    requires NodeHolds(n, cs, kept, s, half) && Enabled(n, op) && op.Write?
    ensures NodeHolds(Step(n, op), Grown(n, cs, op), kept', s', [])
  {
    var c := ChangeSet(n.next, op.pairs, op.root);
    var m := Merged(half, c);
    kept', s' := kept + [m], Committed(s, m);
    CommitOnHalf(s, half, c);
    CommitKeepsHolds(s, kept, m);
    HoldsIsIndexed(s, kept);
    CommitSetsRoot(s, m);
    MergedReplaysSame(cs, kept, half, c);
    WriteKeepsJob(n, op, cs, kept, s, half);
  }

  lemma MergedIsIdle(n: Node, cs: seq<ChangeSet>, kept: seq<ChangeSet>, s: State, half: seq<ChangeSet>, c: ChangeSet)
    requires NodeHolds(n, cs, kept, s, half) && n.up && Idle(n.state, c.pairs)
    ensures IdleOn(kept, Merged(half, c).pairs)
  {
    if half != [] {
      WritesInParts(half[0].pairs, c.pairs);
    }
    forall k | k in LastWrites(c.pairs) ensures LastWrites(c.pairs)[k] == Lookup(Replay(kept, U64_MAX), k) {
      CurrentIsReplay(n, cs, kept, s, half, k);
    }
  }

  lemma CutOffHolds(n: Node, op: Op, cs: seq<ChangeSet>, kept: seq<ChangeSet>, s: State, half: seq<ChangeSet>)
    requires NodeHolds(n, cs, kept, s, half) && Enabled(n, op) && op.WriteAndCrash? && Safe(n, op)
    ensures NodeHolds(Step(n, op), cs, kept, s, [Merged(half, ChangeSet(n.next, op.pairs, op.root))])
  {
    var c := ChangeSet(n.next, op.pairs, op.root);
    CommitOnHalf(s, half, c);
    if op.root == n.liveRoot {
      MergedIsIdle(n, cs, kept, s, half, c);
    }
  }

  lemma RestartUndoes(s: State, v: Version, liveRoot: RootHash)
    requires IsLatestRoot(s.roots, v) && v < U64_MAX && LatestRoot(s.roots) != liveRoot
    ensures Restarted(s, liveRoot) == Undone(s, v)
  {
    LatestRootIs(s.roots, v);
  }

  /** The rollback at start-up takes back exactly what was cut off, if and only if that changed the root hash. */
  lemma RestartTakesBack(s: State, kept: seq<ChangeSet>, c: ChangeSet, liveRoot: RootHash)
    requires Holds(s, kept) && |kept| == c.version < U64_MAX
    ensures LatestRoot(Committed(s, c).roots) == c.root
    ensures Restarted(Committed(s, c), liveRoot) == if c.root != liveRoot then s else Committed(s, c)
  {
    HoldsIsIndexed(s, kept);
    CommitSetsRoot(s, c);
    UndoIsInverse(s, c);
    if c.root != liveRoot {
      RestartUndoes(Committed(s, c), c.version, liveRoot);
    }
  }

  /** What is on top after a start-up. */
  function Unnoticed(half: seq<ChangeSet>, liveRoot: RootHash): seq<ChangeSet> {
    if half != [] && half[0].root == liveRoot then half else []
  }

  lemma StartUpHolds(n: Node, cs: seq<ChangeSet>, kept: seq<ChangeSet>, s: State, half: seq<ChangeSet>)
    requires NodeHolds(n, cs, kept, s, half) && !n.up
    ensures if n.next == 0 && half != [] && half[0].root != n.liveRoot then Step(n, StartUp) == n
            else Step(n, StartUp).up && NodeHolds(Step(n, StartUp), cs, kept, s, Unnoticed(half, n.liveRoot))
  {
    if half != [] {
      RestartTakesBack(s, kept, half[0], n.liveRoot);
    }
  }

  lemma PruneHolds(n: Node, cs: seq<ChangeSet>, kept: seq<ChangeSet>, s: State, half: seq<ChangeSet>)
    returns (s': State)
    requires NodeHolds(n, cs, kept, s, half) && n.up
    ensures NodeHolds(Step(n, Prune), cs, kept, s', half)
  {
    NotAbove(n, cs, kept, s, half);
    OnTopOf(s, half, n.next);
    LayersOf(n, s, half);
    PruneLayers(n.job, s.main, Top(half), n.next);
    PruneCrops(n.job, s.main, Top(half), n.next, Built(kept).main);
    s' := s.(main := Applied(s.main, Ranges(n.job)));
    OnOther(s, half, n.next, s'.main);
    NoJob(Step(n, Prune));
  }

  lemma NoJob(n: Node)
    requires n.job == []
    ensures JobHolds(n)
  {
  }

  lemma OnOther(s: State, half: seq<ChangeSet>, v: Version, main: Table)
    requires |half| <= 1 && (half != [] ==> half[0].version == v)
    ensures On(s.(main := main), half) == On(s, half).(main := main + Top(half))
  {
    OnTopOf(s.(main := main), half, v);
  }

  function Top(half: seq<ChangeSet>): Table {
    if half == [] then map[] else AtVersion(LastWrites(half[0].pairs), half[0].version)
  }

  lemma OnTopOf(s: State, half: seq<ChangeSet>, v: Version)
    requires |half| <= 1 && (half != [] ==> half[0].version == v)
    ensures On(s, half).main == s.main + Top(half) && forall e :: e in Top(half) ==> e.version == v
  {
    assert s.main + map[] == s.main;
  }

  lemma LayersOf(n: Node, s: State, half: seq<ChangeSet>)
    requires JobHolds(n) && n.state.main == s.main + Top(half)
    ensures AllLookedAt(n.job, s.main + Top(half)) && AllSpareBelow(n.job, Top(half), n.next)
  {
    forall l | l in n.job ensures SparesBelow(l, Top(half), n.next) {
      assert SparesBelow(l, n.state.main, n.next);
    }
  }

  lemma LookHolds(n: Node, l: Look, cs: seq<ChangeSet>, kept: seq<ChangeSet>, s: State, half: seq<ChangeSet>)
    requires NodeHolds(n, cs, kept, s, half) && Enabled(n, LookAt(l)) && Safe(n, LookAt(l))
    ensures NodeHolds(Step(n, LookAt(l)), cs, kept, s, half)
  {
    forall x | x in n.job + [l] ensures LookedAt(x, n.state.main) && SparesBelow(x, n.state.main, n.next) {
      assert x in n.job || x == l;
    }
  }

  lemma StepHolds(n: Node, op: Op, cs: seq<ChangeSet>, kept: seq<ChangeSet>, s: State, half: seq<ChangeSet>)
    returns (kept': seq<ChangeSet>, s': State, half': seq<ChangeSet>)
    requires NodeHolds(n, cs, kept, s, half) && Enabled(n, op) && Safe(n, op)
    ensures NodeHolds(Step(n, op), Grown(n, cs, op), kept', s', half')
    ensures half' != [] && (op.WriteAndCrash? ==> op.root != n.liveRoot) ==>
              (half != [] && half'[0].root == half[0].root && Step(n, op).liveRoot == n.liveRoot) ||
              half'[0].root != Step(n, op).liveRoot
  {
    kept', s', half' := kept, s, half;
    match op
    case Write(_, _) =>
      kept', s' := WriteHolds(n, op, cs, kept, s, half);
      half' := [];
    case WriteAndCrash(pairs, root) =>
      CutOffHolds(n, op, cs, kept, s, half);
      half' := [Merged(half, ChangeSet(n.next, pairs, root))];
    case Crash =>
    case StartUp =>
      StartUpHolds(n, cs, kept, s, half);
      half' := if Step(n, StartUp).up then Unnoticed(half, n.liveRoot) else half;
    case LookAt(l) => LookHolds(n, l, cs, kept, s, half);
    case Prune => s' := PruneHolds(n, cs, kept, s, half);
  }

  lemma {:induction false} RunHolds(
      n: Node, ops: seq<Op>, cs: seq<ChangeSet>, kept: seq<ChangeSet>, s: State, half: seq<ChangeSet>)
    returns (kept': seq<ChangeSet>, s': State, half': seq<ChangeSet>)
    requires NodeHolds(n, cs, kept, s, half) && SafeRun(n, ops)
    ensures NodeHolds(After(n, ops), Done(n, cs, ops), kept', s', half')
    decreases |ops|
  {
    if ops == [] {
      kept', s', half' := kept, s, half;
    } else {
      var k1, s1, h1 := StepHolds(n, ops[0], cs, kept, s, half);
      kept', s', half' := RunHolds(Step(n, ops[0]), ops[1..], Grown(n, cs, ops[0]), k1, s1, h1);
    }
  }

  lemma FirstHolds()
    ensures NodeHolds(FirstNode(), [], [], EMPTY, [])
  {
  }

  // ------------------------------------------------------------------------------ theorems

  /**
   Whenever the node is up, reads at or above the oldest version that is left of a key are the
   replay of the commits that went through, whatever was pruned, when and with which `keep`,
   and whatever crashes cut off; and a key of which nothing is left was never written.
   */
  lemma ReadsSurvivePruning(ops: seq<Op>)
    requires SafeRun(FirstNode(), ops) && After(FirstNode(), ops).up
    ensures AllReadsRight(After(FirstNode(), ops).state.main, Done(FirstNode(), [], ops))
  {
    FirstHolds();
    var kept, s, half := RunHolds(FirstNode(), ops, [], [], EMPTY, []);
    NodeReads(After(FirstNode(), ops), Done(FirstNode(), [], ops), kept, s, half);
  }

  /**
   After such a run a slot is cut off behind its accessory part, and the node starts up again: it
   comes up unless that was a first slot with an effect; and its reads are then the replay, if and
   only if the slot changed the root hash or wrote nothing but what was there already.
   */
  lemma CutOffReadsExactly(ops: seq<Op>, pairs: seq<(Key, Value)>, root: RootHash)
    requires SafeRun(FirstNode(), ops) && Enabled(After(FirstNode(), ops), WriteAndCrash(pairs, root))
    ensures var n := After(FirstNode(), ops);
            var again := Step(Step(n, WriteAndCrash(pairs, root)), StartUp);
            && (again.up <==> n.next > 0 || root == n.liveRoot)
            && (again.up ==>
                  (AllReadsRight(again.state.main, Done(FirstNode(), [], ops))
                   <==> root != n.liveRoot || Idle(n.state, pairs)))
  {
    FirstHolds();
    var kept, s, half := RunHolds(FirstNode(), ops, [], [], EMPTY, []);
    var n, cs := After(FirstNode(), ops), Done(FirstNode(), [], ops);
    if root != n.liveRoot || Idle(n.state, pairs) {
      HarmlessCutOff(n, WriteAndCrash(pairs, root), cs, kept, s, half);
    } else {
      LeakShows(n, WriteAndCrash(pairs, root), cs, kept, s, half);
    }
  }

  lemma HarmlessCutOff(n: Node, op: Op, cs: seq<ChangeSet>, kept: seq<ChangeSet>, s: State, half: seq<ChangeSet>)
    requires NodeHolds(n, cs, kept, s, half) && Enabled(n, op) && op.WriteAndCrash? && Safe(n, op)
    ensures var again := Step(Step(n, op), StartUp);
            && (again.up <==> n.next > 0 || op.root == n.liveRoot)
            && (again.up ==> AllReadsRight(again.state.main, cs))
  {
    CutOffHolds(n, op, cs, kept, s, half);
    var cut := Merged(half, ChangeSet(n.next, op.pairs, op.root));
    StartUpHolds(Step(n, op), cs, kept, s, [cut]);
    var again := Step(Step(n, op), StartUp);
    if again.up {
      NodeReads(again, cs, kept, s, Unnoticed([cut], n.liveRoot));
    }
  }

  lemma LeakShows(n: Node, op: Op, cs: seq<ChangeSet>, kept: seq<ChangeSet>, s: State, half: seq<ChangeSet>)
    requires NodeHolds(n, cs, kept, s, half) && Enabled(n, op) && op.WriteAndCrash?
    requires op.root == n.liveRoot && !Idle(n.state, op.pairs)
    ensures var again := Step(Step(n, op), StartUp);
            again.up && !AllReadsRight(again.state.main, cs)
  {
    var c := ChangeSet(n.next, op.pairs, op.root);
    LeakStays(n, op, cs, kept, s, half);
    var k :| k in LastWrites(op.pairs) && LastWrites(op.pairs)[k] != Current(n.state, k);
    CurrentIsReplay(n, cs, kept, s, half, k);
    ReplayAbove(kept, n.next);
    WrittenIsRead(n.state, c, k);
    assert !ReadsRight(Committed(n.state, c).main, cs, k, n.next);
  }

  lemma LeakStays(n: Node, op: Op, cs: seq<ChangeSet>, kept: seq<ChangeSet>, s: State, half: seq<ChangeSet>)
    requires NodeHolds(n, cs, kept, s, half) && Enabled(n, op) && op.WriteAndCrash? && op.root == n.liveRoot
    ensures var again := Step(Step(n, op), StartUp);
            again.up && again.state == Committed(n.state, ChangeSet(n.next, op.pairs, op.root))
  {
    CutOffRoot(s, kept, half, ChangeSet(n.next, op.pairs, op.root));
    StartsAsItIs(Step(n, op));
  }

  lemma CutOffRoot(s: State, kept: seq<ChangeSet>, half: seq<ChangeSet>, c: ChangeSet)
    requires Holds(s, kept) && |kept| == c.version < U64_MAX && |half| <= 1
    requires half != [] ==> half[0].version == c.version
    ensures LatestRoot(Committed(On(s, half), c).roots) == c.root
  {
    CommitOnHalf(s, half, c);
    HoldsIsIndexed(s, kept);
    CommitSetsRoot(s, Merged(half, c));
  }

  lemma StartsAsItIs(n: Node)
    requires !n.up && LatestRoot(n.state.roots) == n.liveRoot
    ensures Step(n, StartUp) == n.(up := true)
  {
  }

  lemma WrittenIsRead(s: State, c: ChangeSet, k: Key)
    requires k in LastWrites(c.pairs)
    ensures SomethingLeft(Committed(s, c).main, k, c.version)
    ensures GetValueOption(Committed(s, c).main, k, c.version) == Ok(LastWrites(c.pairs)[k])
  {
    var t := Committed(s, c).main;
    assert Entry(k, c.version) in AtVersion(LastWrites(c.pairs), c.version);
    ReadsLatest(t, k, c.version);
  }

  // ------------------------------------------------------- if every slot changes the root hash

  ghost predicate ChangesRoots(n: Node, ops: seq<Op>)
    requires ValidRun(n, ops)
    decreases |ops|
  {
    ops == [] ||
    ((ops[0].Write? || ops[0].WriteAndCrash? ==> ops[0].root != n.liveRoot) && ChangesRoots(Step(n, ops[0]), ops[1..]))
  }

  /** Then nothing goes unnoticed, and nothing has to be asked of the pruning. */
  lemma {:induction false} ChangingIsSafe(
      n: Node, ops: seq<Op>, cs: seq<ChangeSet>, kept: seq<ChangeSet>, s: State, half: seq<ChangeSet>)
    requires NodeHolds(n, cs, kept, s, half) && ValidRun(n, ops) && ChangesRoots(n, ops)
    requires half != [] ==> half[0].root != n.liveRoot
    ensures SafeRun(n, ops)
    decreases |ops|
  {
    if ops != [] {
      NotAbove(n, cs, kept, s, half);
      var kept', s', half' := StepHolds(n, ops[0], cs, kept, s, half);
      ChangingIsSafe(Step(n, ops[0]), ops[1..], Grown(n, cs, ops[0]), kept', s', half');
    }
  }

  lemma ChangingRunsRead(ops: seq<Op>)
    requires ValidRun(FirstNode(), ops) && ChangesRoots(FirstNode(), ops) && After(FirstNode(), ops).up
    ensures AllReadsRight(After(FirstNode(), ops).state.main, Done(FirstNode(), [], ops))
  {
    FirstHolds();
    ChangingIsSafe(FirstNode(), ops, [], [], EMPTY, []);
    ReadsSurvivePruning(ops);
  }
}
