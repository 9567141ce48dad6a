/** Two runs in which a slot that leaves the root hash as it was is cut off, and reads go wrong. */
module CutOffSlots {
  import opened Wrappers
  import opened Bytes
  import opened KeyCodec
  import opened VersionedReads
  import opened AccessoryStore
  import opened PruningSpec
  import opened Pruner
  import opened CroppedTables
  import opened PruningRuns

  const K: Key := [0]
  const L: Key := [1]
  const OLD: Value := Some([1])
  const NEW: Value := Some([2])
  const FIRST_ROOT: RootHash := [1]
  const SECOND_ROOT: RootHash := [2]

  ghost predicate Steps(n: Node, op: PruningRuns.Op, after: Node) { Enabled(n, op) && Step(n, op) == after }

  ghost predicate Leads(n: Node, cs: seq<ChangeSet>, ops: seq<PruningRuns.Op>, after: Node, cs': seq<ChangeSet>) {
    ValidRun(n, ops) && After(n, ops) == after && Done(n, cs, ops) == cs'
  }

  lemma StepLeads(n: Node, cs: seq<ChangeSet>, op: PruningRuns.Op, rest: seq<PruningRuns.Op>,
                  n1: Node, cs1: seq<ChangeSet>, after: Node, cs': seq<ChangeSet>)
    requires Steps(n, op, n1) && Grown(n, cs, op) == cs1 && Leads(n1, cs1, rest, after, cs')
    ensures Leads(n, cs, [op] + rest, after, cs')
  {
    assert ([op] + rest)[1..] == rest;
  }

  /** Three steps that commit nothing. */
  lemma ThreeLead(n0: Node, a: PruningRuns.Op, n1: Node, b: PruningRuns.Op, n2: Node, c: PruningRuns.Op, n3: Node,
                  cs: seq<ChangeSet>, rest: seq<PruningRuns.Op>, after: Node, cs': seq<ChangeSet>)
    requires Steps(n0, a, n1) && Steps(n1, b, n2) && Steps(n2, c, n3) && !a.Write? && !b.Write? && !c.Write?
    requires Leads(n3, cs, rest, after, cs')
    ensures Leads(n0, cs, [a, b, c] + rest, after, cs')
  {
    StepLeads(n2, cs, c, rest, n3, cs, after, cs');
    StepLeads(n1, cs, b, [c] + rest, n2, cs, after, cs');
    StepLeads(n0, cs, a, [b] + ([c] + rest), n1, cs, after, cs');
    assert [a] + ([b] + ([c] + rest)) == [a, b, c] + rest;
  }

  /** Version 0 with `OLD`, and possibly version 1 with another value. */
  function Table0(): Table { map[Entry(K, 0) := OLD] }

  function Table1(v: Value): Table { map[Entry(K, 0) := OLD, Entry(K, 1) := v] }

  function Node0(): Node {
    Node(State(Table0(), {Entry(K, 0)}, map[0 := FIRST_ROOT]), 1, FIRST_ROOT, true, [])
  }

  function Node1(v: Value, up: bool): Node {
    Node(State(Table1(v), {Entry(K, 0), Entry(K, 1)}, map[0 := FIRST_ROOT, 1 := FIRST_ROOT]), 1, FIRST_ROOT, up, [])
  }

  const COMMIT0 := ChangeSet(0, [(K, OLD)], FIRST_ROOT)

  lemma OneWrite(k: Key, v: Value)
    ensures LastWrites([(k, v)]) == map[k := v]
  {
    assert [(k, v)][..0] == [];
    assert LastWrites([]) == map[];
  }

  lemma RootIs(roots: map<Version, RootHash>, v: Version)
    requires v in roots && forall w :: w in roots ==> w <= v
    ensures LatestRoot(roots) == roots[v] && LargestRoot(roots) == v
  {
    LatestRootIs(roots, v);
  }

  lemma ToNode0()
    ensures Steps(FirstNode(), Write([(K, OLD)], FIRST_ROOT), Node0())
    ensures Grown(FirstNode(), [], Write([(K, OLD)], FIRST_ROOT)) == [COMMIT0]
  {
    FirstCommit();
  }

  lemma FirstCommit()
    ensures Committed(EMPTY, COMMIT0) == Node0().state
  {
    OneWrite(K, OLD);
    OneKey(K, OLD, 0);
    AddsToNothing(Table0());
    assert EMPTY.index + {Entry(K, 0)} == {Entry(K, 0)};
    assert EMPTY.roots[0 := FIRST_ROOT] == map[0 := FIRST_ROOT];
  }

  lemma OneKey(k: Key, x: Value, v: Version)
    ensures AtVersion(map[k := x], v) == map[Entry(k, v) := x] && KeysAt(map[k := x], v) == {Entry(k, v)}
  {
  }

  lemma AddsToNothing(t: Table)
    ensures EMPTY.main + t == t
  {
  }

  /** Version 1 with the key `L`. */
  lemma WritesL(s: State)
    ensures Committed(s, COMMIT1) ==
            State(s.main + map[Entry(L, 1) := OLD], s.index + {Entry(L, 1)}, s.roots[1 := SECOND_ROOT])
  {
    OneWrite(L, OLD);
    OneKey(L, OLD, 1);
  }

  /** Version 1 is cut off with the root hash of version 0, so the start-up leaves it there. */
  lemma ToNode1(v: Value)
    ensures Steps(Node0(), WriteAndCrash([(K, v)], FIRST_ROOT), Node1(v, false))
    ensures Steps(Node1(v, false), StartUp, Node1(v, true))
  {
    OneWrite(K, v);
    OneKey(K, v, 1);
    RootIs(Node1(v, false).state.roots, 1);
  }

  lemma Replayed(cs: seq<ChangeSet>, c: ChangeSet, v: Version)
    requires cs == [COMMIT0] || (cs == [COMMIT0, c] && c == COMMIT1)
    ensures Lookup(Replay(cs, v), K) == OLD
  {
    ReplayOneMore([], COMMIT0, v, K);
    assert [] + [COMMIT0] == [COMMIT0];
    OneWrite(K, OLD);
    OneWrite(L, OLD);
    if cs == [COMMIT0, c] {
      assert cs == [COMMIT0] + [c];
      ReplayOneMore([COMMIT0], c, v, K);
    }
  }

  // ------------------------------------------------------------------ a write that never was

  const FIRST_WRITE := Write([(K, OLD)], FIRST_ROOT)
  const OTHER_WRITE := Write([(L, OLD)], SECOND_ROOT)

  function LeakingRun(): seq<PruningRuns.Op> {
    [FIRST_WRITE] + [WriteAndCrash([(K, NEW)], FIRST_ROOT), StartUp, OTHER_WRITE]
  }

  function Leaked(): Node {
    Node(State(Table1(NEW) + map[Entry(L, 1) := OLD], {Entry(K, 0), Entry(K, 1), Entry(L, 1)},
               map[0 := FIRST_ROOT, 1 := SECOND_ROOT]),
         2, SECOND_ROOT, true, [])
  }

  const COMMIT1 := ChangeSet(1, [(L, OLD)], SECOND_ROOT)

  lemma Overwrites()
    ensures Steps(Node1(NEW, true), OTHER_WRITE, Leaked())
    ensures Grown(Node1(NEW, true), [COMMIT0], OTHER_WRITE) == [COMMIT0, COMMIT1]
  {
    WritesL(Node1(NEW, true).state);
    assert Node1(NEW, true).state.index + {Entry(L, 1)} == Leaked().state.index;
  }

  lemma FourLead(n0: Node, a: PruningRuns.Op, n1: Node, b: PruningRuns.Op, n2: Node, c: PruningRuns.Op, n3: Node,
                 d: PruningRuns.Op, n4: Node, cs0: seq<ChangeSet>, cs1: seq<ChangeSet>, cs2: seq<ChangeSet>)
    requires Steps(n0, a, n1) && Steps(n1, b, n2) && Steps(n2, c, n3) && Steps(n3, d, n4) && !b.Write? && !c.Write?
    requires Grown(n0, cs0, a) == cs1 && Grown(n3, cs1, d) == cs2
    ensures Leads(n0, cs0, [a] + [b, c, d], n4, cs2)
  {
    StepLeads(n3, cs1, d, [], n4, cs2, n4, cs2);
    StepLeads(n2, cs1, c, [d] + [], n3, cs1, n4, cs2);
    StepLeads(n1, cs1, b, [c] + ([d] + []), n2, cs1, n4, cs2);
    assert [b] + ([c] + ([d] + [])) == [b, c, d];
    StepLeads(n0, cs0, a, [b, c, d], n1, cs1, n4, cs2);
  }

  lemma LeakingRunEnds()
    ensures Leads(FirstNode(), [], LeakingRun(), Leaked(), [COMMIT0, COMMIT1])
  {
    ToNode0();
    ToNode1(NEW);
    Overwrites();
    FourLead(FirstNode(), FIRST_WRITE, Node0(), WriteAndCrash([(K, NEW)], FIRST_ROOT), Node1(NEW, false), StartUp,
             Node1(NEW, true), OTHER_WRITE, Leaked(), [], [COMMIT0], [COMMIT0, COMMIT1]);
  }

  /** A slot that was cut off is read after the commit of another one in its place. */
  lemma LeakedWriteIsRead()
    ensures ValidRun(FirstNode(), LeakingRun())
    ensures var n, cs := After(FirstNode(), LeakingRun()), Done(FirstNode(), [], LeakingRun());
            && n.up && GetValueOption(n.state.main, K, 1) == Ok(NEW) && Lookup(Replay(cs, 1), K) == OLD
            && !AllReadsRight(n.state.main, cs)
  {
    LeakingRunEnds();
    Replayed([COMMIT0, COMMIT1], COMMIT1, 1);
    ReadsNew(Leaked().state.main, [COMMIT0, COMMIT1]);
  }

  lemma ReadsNew(t: Table, cs: seq<ChangeSet>)
    requires Entry(K, 1) in t && t[Entry(K, 1)] == NEW && Lookup(Replay(cs, 1), K) == OLD
    ensures GetValueOption(t, K, 1) == Ok(NEW) && !AllReadsRight(t, cs)
  {
    ReadsLatest(t, K, 1);
    assert SomethingLeft(t, K, 1);
    assert !ReadsRight(t, cs, K, 1);
  }

  // ------------------------------------------------------- an old value that was pruned away

  function TheLook(): Look { Look(Range(K, 0, 1), 1, Table1(OLD)) }

  const IDLE_CUT_OFF := WriteAndCrash([(K, OLD)], FIRST_ROOT)
  const CUT_OFF := WriteAndCrash([(L, OLD)], SECOND_ROOT)

  function LosingRun(): seq<PruningRuns.Op> {
    [FIRST_WRITE] + ([IDLE_CUT_OFF, StartUp, LookAt(TheLook())] + [Prune, CUT_OFF, StartUp])
  }

  lemma TheLookIsFound()
    ensures Found(TheLook())
  {
    var t := Table1(OLD);
    assert NewerCounted(t, Entry(K, 1)) == {};
    assert NewerCounted(t, Entry(K, 0)) == {Entry(K, 1)};
  }

  function PrunedNode(): Node {
    Node(State(map[Entry(K, 1) := OLD], {Entry(K, 0), Entry(K, 1)}, map[0 := FIRST_ROOT, 1 := FIRST_ROOT]),
         1, FIRST_ROOT, true, [])
  }

  function CutOffNode(): Node {
    Node(State(map[Entry(K, 1) := OLD, Entry(L, 1) := OLD], {Entry(K, 0), Entry(K, 1), Entry(L, 1)},
               map[0 := FIRST_ROOT, 1 := SECOND_ROOT]),
         1, FIRST_ROOT, false, [])
  }

  function Lost(): Node { Node(State(map[], {Entry(K, 0)}, map[0 := FIRST_ROOT]), 1, FIRST_ROOT, true, []) }

  function Looking(): Node { Node1(OLD, true).(job := [TheLook()]) }

  lemma Looks()
    ensures Steps(Node1(OLD, true), LookAt(TheLook()), Looking())
  {
    TheLookIsFound();
    assert [] + [TheLook()] == [TheLook()];
  }

  lemma PrunesTheOld()
    ensures Steps(Looking(), Prune, PrunedNode())
  {
    var t := Table1(OLD);
    assert Ranges([TheLook()][1..]) == [];
    assert Ranges([TheLook()]) == [Range(K, 0, 1)];
    var r := [Range(K, 0, 1)];
    assert Deleted(r, Entry(K, 0)) by {
      assert r[0].key == K && InRange(Entry(K, 0), r[0].from, r[0].to);
    }
    assert !Deleted(r, Entry(K, 1));
    assert Applied(t, r) == map[Entry(K, 1) := OLD];
  }

  lemma RollsBack()
    ensures Steps(CutOffNode(), StartUp, Lost())
  {
    var s := CutOffNode().state;
    RootIs(s.roots, 1);
    RestartUndoes(s, 1, FIRST_ROOT);
    TakesBack();
  }

  lemma TakesBack()
    ensures Undone(CutOffNode().state, 1) == Lost().state
  {
    var s, gone := CutOffNode().state, {Entry(K, 1), Entry(L, 1)};
    assert IndexedAt(s.index, 1) == gone;
    assert s.main - gone == map[];
    assert s.index - gone == {Entry(K, 0)};
    assert s.roots - {1} == map[0 := FIRST_ROOT];
  }

  lemma CutsOffL()
    ensures Steps(PrunedNode(), WriteAndCrash([(L, OLD)], SECOND_ROOT), CutOffNode())
  {
    WritesL(PrunedNode().state);
    AlsoL();
  }

  lemma AlsoL()
    ensures var s, t := PrunedNode().state, CutOffNode().state;
            && s.main + map[Entry(L, 1) := OLD] == t.main && s.index + {Entry(L, 1)} == t.index
            && s.roots[1 := SECOND_ROOT] == t.roots
  {
  }

  lemma LosingRunEnds()
    ensures Leads(FirstNode(), [], LosingRun(), Lost(), [COMMIT0])
  {
    Looks();
    PrunesTheOld();
    CutsOffL();
    RollsBack();
    var nothing: seq<PruningRuns.Op> := [];
    assert Leads(Lost(), [COMMIT0], nothing, Lost(), [COMMIT0]);
    ThreeLead(Looking(), Prune, PrunedNode(), CUT_OFF, CutOffNode(), StartUp, Lost(),
              [COMMIT0], nothing, Lost(), [COMMIT0]);
    assert [Prune, CUT_OFF, StartUp] + nothing == [Prune, CUT_OFF, StartUp];
    LosingRunBegins([Prune, CUT_OFF, StartUp]);
  }

  lemma LosingRunBegins(rest: seq<PruningRuns.Op>)
    requires Leads(Looking(), [COMMIT0], rest, Lost(), [COMMIT0])
    ensures Leads(FirstNode(), [], [FIRST_WRITE] + ([IDLE_CUT_OFF, StartUp, LookAt(TheLook())] + rest),
                  Lost(), [COMMIT0])
  {
    ToNode0();
    ToNode1(OLD);
    Looks();
    ThreeLead(Node0(), IDLE_CUT_OFF, Node1(OLD, false), StartUp, Node1(OLD, true), LookAt(TheLook()), Looking(),
              [COMMIT0], rest, Lost(), [COMMIT0]);
    StepLeads(FirstNode(), [], FIRST_WRITE, [IDLE_CUT_OFF, StartUp, LookAt(TheLook())] + rest,
              Node0(), [COMMIT0], Lost(), [COMMIT0]);
  }

  /**
   A cut-off slot that changes nothing is harmless by itself; but if one version is kept, it is that
   one, and the rollback of the next slot in its place takes it away.
   */
  lemma PrunedValueIsLost()
    ensures ValidRun(FirstNode(), LosingRun())
    ensures var n, cs := After(FirstNode(), LosingRun()), Done(FirstNode(), [], LosingRun());
            n.up && n.state.main == map[] && Lookup(Replay(cs, 0), K) == OLD && !AllReadsRight(n.state.main, cs)
  {
    LosingRunEnds();
    Replayed([COMMIT0], COMMIT1, 0);
    ReadsNothing(Lost().state.main, [COMMIT0]);
  }

  lemma ReadsNothing(t: Table, cs: seq<ChangeSet>)
    requires t == map[] && Lookup(Replay(cs, 0), K) == OLD
    ensures !AllReadsRight(t, cs)
  {
    assert !ReadsRight(t, cs, K, 0);
  }
}
