/** Any run of commits, crashes and restarts of the flat state. */
module FlatRecovery {
  import opened Wrappers
  import opened Bytes
  import opened KeyCodec
  import opened VersionedReads
  import opened AccessoryStore
  import opened HistoricalState
  import opened FlatState

  /** The stores, whether a process has them open, and how its start-ups ended. */
  datatype Node = Node(flat: Flat, running: bool, outcomes: seq<Outcome>)

  const FIRST := Node(Flat(EMPTY_LIVE, EMPTY_ARCHIVAL), true, [])

  datatype Op =
    | Write(slot: Slot, crash: Crash)
    | Kill
    | Restart(crashes: bool)   // a crash before recovery writes anything leaves everything as it was

  ghost predicate Enabled(n: Node, op: Op) {
    match op
    case Write(b, _) => n.running && WellFormed(b) && U64_MAX !in n.flat.live.roots   // versions have not run out
    case Kill => n.running
    case Restart(_) => !n.running
  }

  /** A slot is materialized for the version after the live one, which is the one `commit` will use. */
  ghost function Step(n: Node, op: Op): Node
    requires Enabled(n, op)
  {
    match op
    case Write(b, crash) =>
      n.(flat := Commit(n.flat, At(b, NextVersion(n.flat.live)), crash), running := crash == NoCrash)
    case Kill => n.(running := false)
    case Restart(crashes) =>
      if crashes then n
      else
        var (f, o) := Recover(n.flat);
        Node(f, o == Recovered, n.outcomes + [o])
  }

  /** What a run amounts to: the slots that went through, and one that may be half-way through. */
  datatype Story = Story(done: seq<Slot>, half: seq<Slot>, running: bool)

  function Tell(s: Story, op: Op): Story {
    match op
    case Write(b, crash) =>
      if crash == NoCrash then s.(done := s.done + [b])
      else s.(half := if crash == BeforeLive then [b] else [], running := false)
    case Kill => s.(running := false)
    case Restart(crashes) =>
      if crashes || Stuck(s) then s else s.(half := [], running := true)
  }

  /** Both stores after the slots `h`, and the archival one also after the slots `half`. */
  function Stores(h: seq<Slot>, half: seq<Slot>): Flat
    requires |h| + |half| <= MAX_SLOTS
  {
    Flat(LiveAfter(h), ArchivalAfter(h + half))
  }

  /** A crash in the very first commit cannot be recovered from. */
  predicate Stuck(s: Story) { s.done == [] && s.half != [] }

  ghost predicate Good(outcomes: seq<Outcome>, stuck: bool) {
    forall i :: 0 <= i < |outcomes| ==> outcomes[i] == Recovered || (outcomes[i] == LiveEmpty && stuck)
  }

  ghost predicate Matches(n: Node, s: Story) {
    && |s.done| + |s.half| <= MAX_SLOTS && |s.half| <= 1 && (s.half != [] ==> WellFormed(s.half[0]))
    && (s.running ==> s.half == []) && n.running == s.running
    && n.flat == Stores(s.done, s.half) && Good(n.outcomes, Stuck(s))
  }

  lemma NothingHalf(h: History)
    requires |h| <= MAX_SLOTS
    ensures Stores(h, []) == Flat(LiveAfter(h), ArchivalAfter(h))
  {
    assert h + [] == h;
  }

  lemma VersionsLeft(h: History)
    requires |h| <= MAX_SLOTS && U64_MAX !in LiveAfter(h).roots
    ensures |h| <= U64_MAX && NextVersion(LiveAfter(h)) == |h|
  {
    RootsByIndex(h, U64_MAX);
    LatestRootOf(h);
  }

  lemma CommitStores(h: History, b: Slot, crash: Crash)
    requires |h| <= U64_MAX
    ensures CommitInternal(Stores(h, []), At(b, |h|), |h|, true, crash) ==
            match crash
            case NoCrash => Stores(h + [b], [])
            case BeforeArchival => Stores(h, [])
            case BeforeLive => Stores(h, [b])
  {
    OneMoreSlot(h, b);
    NothingHalf(h);
    NothingHalf(h + [b]);
  }

  /** Recovery decides by the two latest versions and the archival root at the live one. */
  lemma RecoverRollsBack(f: Flat, v: Version, a: RootHash, r: RootHash)
    requires v < U64_MAX && LatestOf(f.archival.roots) == Some((v + 1, a)) && LatestOf(f.live.roots) == Some((v, r))
    requires v in f.archival.roots && f.archival.roots[v] == r
    ensures Recover(f) == RollbackArchival(f, v + 1)
  {
    assert RootAt(f.archival.roots, v) == Some(r);
  }

  lemma RootsOneAhead(h: History, b: Slot)
    requires 0 < |h| <= U64_MAX
    ensures var f, v := Stores(h, [b]), |h| - 1;
            && LatestOf(f.archival.roots) == Some((v + 1, b.root)) && LatestOf(f.live.roots) == Some((v, h[v].root))
            && v in f.archival.roots && f.archival.roots[v] == h[v].root
  {
    LatestRootOf(h);
    LatestRootOf(h + [b]);
    RootsByIndex(h + [b], |h| - 1);
  }

  lemma RecoverFirst(b: Slot)
    ensures Recover(Stores([], [b])) == (Stores([], [b]), LiveEmpty)
  {
    LatestRootOf([]);
    LatestRootOf([] + [b]);
  }

  /** The archival store one version ahead: recovery asserts nothing false and takes it back. */
  lemma RecoverHalf(h: History, b: Slot)
    requires |h| <= U64_MAX && WellFormed(b)
    ensures Recover(Stores(h, [b])) == if h == [] then (Stores(h, [b]), LiveEmpty) else (Stores(h, []), Recovered)
  {
    if h == [] {
      RecoverFirst(b);
    } else {
      RootsOneAhead(h, b);
      RecoverRollsBack(Stores(h, [b]), |h| - 1, b.root, h[|h| - 1].root);
      RollbackIsInverse(h, b, LiveAfter(h));
      NothingHalf(h);
    }
  }

  lemma RecoverWhole(h: History)
    requires |h| <= MAX_SLOTS
    ensures Recover(Stores(h, [])) == (Stores(h, []), Recovered)
  {
    NothingHalf(h);
    LatestRootOf(h);
  }

  /** Both cases of a recovery in the words of the story. */
  lemma RecoverTold(s: Story)
    requires |s.done| + |s.half| <= MAX_SLOTS && |s.half| <= 1 && (s.half != [] ==> WellFormed(s.half[0]))
    ensures Recover(Stores(s.done, s.half)) ==
            if Stuck(s) then (Stores(s.done, s.half), LiveEmpty) else (Stores(s.done, []), Recovered)
  {
    if s.half == [] {
      RecoverWhole(s.done);
    } else {
      assert s.half == [s.half[0]];
      RecoverHalf(s.done, s.half[0]);
    }
  }

  lemma GoodAppend(outcomes: seq<Outcome>, o: Outcome, stuck: bool)
    requires Good(outcomes, stuck) && (o == Recovered || (o == LiveEmpty && stuck))
    ensures Good(outcomes + [o], stuck)
  {
  }

  lemma RestartMatches(n: Node, s: Story, crashes: bool)
    requires Matches(n, s) && Enabled(n, Restart(crashes))
    ensures Matches(Step(n, Restart(crashes)), Tell(s, Restart(crashes)))
  {
    if !crashes {
      RecoverTold(s);
      var (f, o) := Recover(n.flat);
      GoodAppend(n.outcomes, o, Stuck(s));
      if Stuck(s) {
        assert f == n.flat;
      } else {
        assert f == Stores(s.done, []);
      }
    }
  }

  lemma CommitInRun(f: Flat, h: History, b: Slot, crash: Crash)
    requires |h| <= MAX_SLOTS && f == Stores(h, []) && U64_MAX !in f.live.roots
    ensures |h| <= U64_MAX
    ensures Commit(f, At(b, NextVersion(f.live)), crash) ==
            match crash
            case NoCrash => Stores(h + [b], [])
            case BeforeArchival => Stores(h, [])
            case BeforeLive => Stores(h, [b])
  {
    assert U64_MAX !in LiveAfter(h).roots;
    VersionsLeft(h);
    CommitStores(h, b, crash);
  }

  lemma WriteMatches(n: Node, s: Story, b: Slot, crash: Crash)
    requires Matches(n, s) && Enabled(n, Write(b, crash))
    ensures Matches(Step(n, Write(b, crash)), Tell(s, Write(b, crash)))
  {
    assert s.half == [];
    CommitInRun(n.flat, s.done, b, crash);
    match crash
    case NoCrash =>
    case BeforeArchival =>
    case BeforeLive =>
  }

  ghost predicate ValidRun(n: Node, ops: seq<Op>)
    decreases |ops|
  {
    ops == [] || (Enabled(n, ops[0]) && ValidRun(Step(n, ops[0]), ops[1..]))
  }

  ghost function After(n: Node, ops: seq<Op>): Node
    requires ValidRun(n, ops)
    decreases |ops|
  {
    if ops == [] then n else After(Step(n, ops[0]), ops[1..])
  }

  function Told(s: Story, ops: seq<Op>): Story
    decreases |ops|
  {
    if ops == [] then s else Told(Tell(s, ops[0]), ops[1..])
  }

  const BEGINNING := Story([], [], true)

  lemma {:induction false} RunMatches(n: Node, s: Story, ops: seq<Op>)
    requires Matches(n, s) && ValidRun(n, ops)
    ensures Matches(After(n, ops), Told(s, ops))
    decreases |ops|
  {
    if ops != [] {
      match ops[0] {
        case Write(b, crash) => WriteMatches(n, s, b, crash);
        case Kill =>
        case Restart(crashes) => RestartMatches(n, s, crashes);
      }
      RunMatches(Step(n, ops[0]), Tell(s, ops[0]), ops[1..]);
    }
  }

  /**
   Every run: the stores are those of the commits that went through, the archival one
   possibly with one more; and no start-up ever fails an assertion or the materialization
   check, or reports an empty live store after a commit went through.
   */
  lemma EveryRunIsAStory(ops: seq<Op>)
    requires ValidRun(FIRST, ops)
    ensures Matches(After(FIRST, ops), Told(BEGINNING, ops))
  {
    assert Matches(FIRST, BEGINNING);
    RunMatches(FIRST, BEGINNING, ops);
  }

  /** At every moment the archival store is at the live version or one ahead. */
  lemma ArchivalIsAtMostOneAhead(ops: seq<Op>)
    requires ValidRun(FIRST, ops)
    ensures var f := After(FIRST, ops).flat;
            match (LatestOf(f.live.roots), LatestOf(f.archival.roots))
            case (None, None) => true
            case (None, Some((va, _))) => va == 0
            case (Some((vl, rl)), Some((va, ra))) => (va == vl && ra == rl) || va as int == vl as int + 1
            case _ => false
  {
    EveryRunIsAStory(ops);
    var s := Told(BEGINNING, ops);
    LatestRootOf(s.done);
    LatestRootOf(s.done + s.half);
    assert s.half == [] ==> s.done + s.half == s.done;
  }

  function Archived(f: Flat, ns: Namespace): Archive {
    match ns
    case User => f.archival.user
    case Kernel => f.archival.kernel
  }

  function InLive(f: Flat, ns: Namespace): LiveTable {
    match ns
    case User => f.live.user
    case Kernel => f.live.kernel
  }

  lemma WholeStores(h: History, ns: Namespace)
    requires |h| <= MAX_SLOTS
    ensures var f := Stores(h, []);
            && f.live.roots == f.archival.roots == RootsOf(h)
            && Archived(f, ns) == ArchiveAfter(h, ns) && InLive(f, ns) == TableAfter(h, ns)
  {
    NothingHalf(h);
  }

  lemma ArchiveAnswers(h: History, ns: Namespace, k: Key, v: Version)
    requires v < |h| <= MAX_SLOTS
    ensures Latest(ArchiveAfter(h, ns).history, k, v) == LiveValue(TableAfter(h[..v + 1], ns), k)
    ensures v == |h| - 1 ==> h[..v + 1] == h
  {
    ArchiveReads(h, ns, k, v);
  }

  lemma StoresAgree(h: History, ns: Namespace, k: Key, v: Version)
    requires v < |h| <= MAX_SLOTS
    ensures var f := Stores(h, []);
            && LatestOf(f.live.roots) == LatestOf(f.archival.roots) == LatestSlot(h)
            && Latest(Archived(f, ns).history, k, v) == LiveValue(TableAfter(h[..v + 1], ns), k)
            && (v == |h| - 1 ==> Latest(Archived(f, ns).history, k, v) == LiveValue(InLive(f, ns), k))
  {
    WholeStores(h, ns);
    LatestRootOf(h);
    ArchiveAnswers(h, ns, k, v);
  }

  /**
   Whenever a process runs, both stores have the same latest version and root hash, give
   the same answer for every key, and the archival store answers for every older version
   what the live store answered then.
   */
  lemma RunningStoresAgree(ops: seq<Op>, ns: Namespace, k: Key, v: Version)
    requires ValidRun(FIRST, ops) && After(FIRST, ops).running
    requires v < |Told(BEGINNING, ops).done|
    ensures var f := After(FIRST, ops).flat;
            var h := Told(BEGINNING, ops).done;
            && |h| <= MAX_SLOTS
            && LatestOf(f.live.roots) == LatestOf(f.archival.roots) == LatestSlot(h)
            && Latest(Archived(f, ns).history, k, v) == LiveValue(TableAfter(h[..v + 1], ns), k)
            && (v == |h| - 1 ==> Latest(Archived(f, ns).history, k, v) == LiveValue(InLive(f, ns), k))
  {
    EveryRunIsAStory(ops);
    StoresAgree(Told(BEGINNING, ops).done, ns, k, v);
  }

  /** A start-up reports the empty live store exactly after a crash in the very first commit. */
  lemma EmptyLiveIsReportedExactly(ops: seq<Op>)
    requires ValidRun(FIRST, ops) && !After(FIRST, ops).running
    ensures var s := Told(BEGINNING, ops);
            Recover(After(FIRST, ops).flat).1 == if Stuck(s) then LiveEmpty else Recovered
  {
    EveryRunIsAStory(ops);
    var s := Told(BEGINNING, ops);
    if s.half == [] {
      RecoverWhole(s.done);
    } else {
      assert s.half == [s.half[0]];
      RecoverHalf(s.done, s.half[0]);
    }
  }
}
