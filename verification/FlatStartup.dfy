/**
 The start-up of the node, which calls the archival recovery only when the root
 hashes of the two stores differ, and any run of commits, crashes and start-ups.

 The root hash of a slot commits to the values after it.  All that is used of this
 is that the root changes exactly when a value does (`Faithful`), which follows for
 any commitment without collisions (`HashedRunsAreFaithful`).
 */
module FlatStartup {
  import opened Wrappers
  import opened Bytes
  import opened KeyCodec
  import opened VersionedReads
  import opened AccessoryStore
  import opened HistoricalState
  import opened FlatState
  import FlatRecovery
  import Overlays

  /** The root hash a store reports. */
  ghost function RootOrGenesis(roots: Roots): RootHash {
    match LatestOf(roots)
    case None => PreGenesisRoot()
    case Some((_, r)) => r
  }

  ghost predicate RootsDiffer(f: Flat) { RootOrGenesis(f.archival.roots) != RootOrGenesis(f.live.roots) }

  /** Recovery behind the gate, and the final check that all root hashes agree. */
  ghost function Startup(f: Flat): (Flat, Outcome) {
    if !RootsDiffer(f) then (f, Recovered)
    else
      var (g, o) := Recover(f);
      (g, if o == Recovered && RootsDiffer(g) then AssertionFailed else o)
  }

  // ------------------------------------------------------------------------ runs

  datatype Node = Node(flat: Flat, running: bool, outcomes: seq<Outcome>)

  const FIRST := Node(Flat(EMPTY_LIVE, EMPTY_ARCHIVAL), true, [])

  datatype Op = Write(slot: Slot, crash: Crash) | Kill | Restart

  /** The slot changes no value. */
  predicate Unnoticed(live: Live, b: Slot) {
    UpdateLive(live.user, b.user) == live.user && UpdateLive(live.kernel, b.kernel) == live.kernel
  }

  /** The slot leaves the root hash as it is exactly when it leaves the values as they are. */
  ghost predicate Faithful(live: Live, b: Slot) {
    b.root == RootOrGenesis(live.roots) <==> Unnoticed(live, b)
  }

  ghost predicate Enabled(n: Node, op: Op) {
    match op
    case Write(b, _) =>
      n.running && WellFormed(b) && U64_MAX !in n.flat.live.roots && Faithful(n.flat.live, b)
    case Kill => n.running
    case Restart => !n.running
  }

  ghost function Step(n: Node, op: Op): Node
    requires Enabled(n, op)
  {
    match op
    case Write(b, crash) =>
      n.(flat := Commit(n.flat, At(b, NextVersion(n.flat.live)), crash), running := crash == NoCrash)
    case Kill => n.(running := false)
    case Restart =>
      var (f, o) := Startup(n.flat);
      Node(f, o == Recovered, n.outcomes + [o])
  }

  ghost predicate ValidRun(n: Node, ops: seq<Op>)
    decreases |ops|
  {
    ops == [] || (Enabled(n, ops[0]) && ValidRun(Step(n, ops[0]), ops[1..]))
  }

  ghost function After(n: Node, ops: seq<Op>): Node
    requires ValidRun(n, ops)
    decreases |ops|
  {
    if ops == [] then n else After(Step(n, ops[0]), ops[1..])
  }

  /** The slots whose commit went through. */
  function Committed(h: History, ops: seq<Op>): History
    decreases |ops|
  {
    if ops == [] then h else Committed(Grown(h, ops[0]), ops[1..])
  }

  function Grown(h: History, op: Op): History {
    if op.Write? && op.crash == NoCrash then h + [op.slot] else h
  }

  // ------------------------------------------------------------------- the invariant

  /** Holds nothing of the versions to come, and reads at every other version like the live store did then. */
  ghost predicate Settled(a: Archive, h: History, ns: Namespace)
    requires |h| <= MAX_SLOTS
  {
    && ArchiveBefore(a, |h|)
    && forall k: Key, v: Version :: v < |h| ==> ReadsThen(a, h, ns, k, v)
  }

  predicate ReadsThen(a: Archive, h: History, ns: Namespace, k: Key, v: Version)
    requires v < |h| <= MAX_SLOTS
  {
    Latest(a.history, k, v) == LiveValue(TableAfter(h[..v + 1], ns), k)
  }

  /** The archival store: settled, or with the writes of one more version on top. */
  ghost predicate Holds(f: Flat, h: History, base: Archival, half: seq<Slot>) {
    && |h| + |half| <= MAX_SLOTS && |half| <= 1
    && f.live == LiveAfter(h)
    && base.roots == RootsOf(h) && Settled(base.user, h, User) && Settled(base.kernel, h, Kernel)
    && f.archival == Topped(base, |h|, half)
    && (half != [] ==> WellFormed(half[0]) && Faithful(f.live, half[0]))
  }

  function Topped(base: Archival, n: nat, half: seq<Slot>): Archival
    requires |half| <= 1 && n + |half| <= MAX_SLOTS
  {
    if half == [] then base else WriteArchival(base, At(half[0], n), n, true)
  }

  /** While a process runs, nothing on top of the settled versions changes a value. */
  ghost predicate Quiet(f: Flat, half: seq<Slot>) { half != [] ==> Unnoticed(f.live, half[0]) }

  // ---------------------------------------------------------- writing a version twice

  function Merged(c: Slot, d: Slot): Slot { Slot(c.user + d.user, c.kernel + d.kernel, d.root) }

  lemma MergedTable(m: LiveTable, c: Changes, d: Changes)
    ensures UpdateLive(m, c + d) == UpdateLive(UpdateLive(m, c), d)
  {
    Overlays.AppliedTwice(m, c, d);
  }

  lemma MapsAssociate<K, V>(a: map<K, V>, b: map<K, V>, c: map<K, V>)
    ensures (a + b) + c == a + (b + c)
  {
  }

  lemma MergedEntries(c: Changes, d: Changes, v: Version)
    ensures AtVersion(c + d, v) == AtVersion(c, v) + AtVersion(d, v)
  {
  }

  lemma MergedKeys(c: Changes, d: Changes, v: Version)
    ensures KeysAt(c + d, v) == KeysAt(c, v) + KeysAt(d, v)
  {
  }

  lemma MergedArchive(a: Archive, c: Changes, d: Changes, v: Version)
    ensures UpdateArchive(UpdateArchive(a, c, v, true), d, v, true) == UpdateArchive(a, c + d, v, true)
  {
    MergedEntries(c, d, v);
    MapsAssociate(a.history, AtVersion(c, v), AtVersion(d, v));
    MergedKeys(c, d, v);
    assert a.byVersion + KeysAt(c, v) + KeysAt(d, v) == a.byVersion + (KeysAt(c, v) + KeysAt(d, v));
  }

  lemma MergedRoots(roots: Roots, v: Version, r: RootHash, s: RootHash)
    ensures UpdateRoots(UpdateRoots(roots, PutRoot(v, r)), PutRoot(v, s)) == UpdateRoots(roots, PutRoot(v, s))
  {
  }

  lemma MergedStore(base: Archival, c: Slot, d: Slot, v: Version)
    ensures WriteArchival(WriteArchival(base, At(c, v), v, true), At(d, v), v, true)
            == WriteArchival(base, At(Merged(c, d), v), v, true)
  {
    MergedArchive(base.user, c.user, d.user, v);
    MergedArchive(base.kernel, c.kernel, d.kernel, v);
    MergedRoots(base.roots, v, c.root, d.root);
  }

  /** On top of writes that change nothing, a slot has the effect it has alone. */
  lemma MergedWithUnnoticed(live: Live, c: Slot, d: Slot)
    requires Unnoticed(live, c)
    ensures UpdateLive(live.user, Merged(c, d).user) == UpdateLive(live.user, d.user)
    ensures UpdateLive(live.kernel, Merged(c, d).kernel) == UpdateLive(live.kernel, d.kernel)
  {
    MergedTable(live.user, c.user, d.user);
    MergedTable(live.kernel, c.kernel, d.kernel);
  }

  /** What the next commit leaves on top of the settled versions. */
  function OnTop(half: seq<Slot>, d: Slot): Slot
    requires |half| <= 1
  {
    if half == [] then d else Merged(half[0], d)
  }

  lemma WriteOnTop(base: Archival, n: nat, half: seq<Slot>, d: Slot)
    requires |half| <= 1 && n < MAX_SLOTS
    ensures WriteArchival(Topped(base, n, half), At(d, n), n, true) == Topped(base, n, [OnTop(half, d)])
  {
    if half != [] {
      MergedStore(base, half[0], d, n);
    }
  }

  lemma OnTopOnLive(live: Live, half: seq<Slot>, d: Slot)
    requires |half| <= 1 && (half != [] ==> Unnoticed(live, half[0]))
    ensures UpdateLive(live.user, OnTop(half, d).user) == UpdateLive(live.user, d.user)
    ensures UpdateLive(live.kernel, OnTop(half, d).kernel) == UpdateLive(live.kernel, d.kernel)
  {
    if half != [] {
      MergedWithUnnoticed(live, half[0], d);
    }
  }

  // --------------------------------------------------------------------- one more slot

  lemma ReadsBefore(a: Archive, h: History, ns: Namespace, k: Key)
    requires |h| <= MAX_SLOTS && Settled(a, h, ns)
    ensures LiveValue(TableAfter(h, ns), k) == if |h| == 0 then None else Latest(a.history, k, |h| - 1)
  {
    if |h| > 0 {
      assert ReadsThen(a, h, ns, k, |h| - 1);
      assert h[..|h|] == h;
    }
  }

  /** The version on top reads like the live store after its writes, older ones as before. */
  lemma TopReads(a: Archive, h: History, ns: Namespace, c: Changes, k: Key, v: Version)
    requires |h| < MAX_SLOTS && Settled(a, h, ns) && v <= |h|
    ensures Latest(UpdateArchive(a, c, |h|, true).history, k, v)
            == if v == |h| then LiveValue(UpdateLive(TableAfter(h, ns), c), k)
               else LiveValue(TableAfter(h[..v + 1], ns), k)
  {
    if v == |h| {
      ReadsBefore(a, h, ns, k);
      StepReads(a, TableAfter(h, ns), c, |h|, k);
    } else {
      assert ReadsThen(a, h, ns, k, v);
      OlderReads(a, c, |h|, k, v);
    }
  }

  /** A slot on top, seen from the history with the slot. */
  lemma ReadsThenOneMore(a: Archive, h: History, ns: Namespace, c: Changes, d: Slot, k: Key, v: Version)
    requires |h| < MAX_SLOTS && Settled(a, h, ns) && v <= |h|
    requires UpdateLive(TableAfter(h, ns), c) == TableAfter(h + [d], ns)
    ensures ReadsThen(UpdateArchive(a, c, |h|, true), h + [d], ns, k, v)
  {
    TopReads(a, h, ns, c, k, v);
    if v == |h| {
      assert (h + [d])[..v + 1] == h + [d];
    } else {
      assert (h + [d])[..v + 1] == h[..v + 1];
    }
  }

  lemma SettledOneMore(a: Archive, h: History, ns: Namespace, c: Changes, d: Slot)
    requires |h| < MAX_SLOTS && Settled(a, h, ns)
    requires UpdateLive(TableAfter(h, ns), c) == TableAfter(h + [d], ns)
    ensures Settled(UpdateArchive(a, c, |h|, true), h + [d], ns)
  {
    ArchiveGrows(a, c, |h|);
    forall k: Key, v: Version | v < |h + [d]|
      ensures ReadsThen(UpdateArchive(a, c, |h|, true), h + [d], ns, k, v)
    {
      ReadsThenOneMore(a, h, ns, c, d, k, v);
    }
  }

  // ------------------------------------------------------------------------ the steps

  lemma OneMoreRoot(h: History, b: Slot)
    requires |h| < MAX_SLOTS
    ensures RootsOf(h + [b]) == RootsOf(h)[|h| := b.root]
  {
    OneMoreInNamespace(h, b, User);
  }

  lemma RootsOfTopped(base: Archival, h: History, half: seq<Slot>)
    requires |h| + |half| <= MAX_SLOTS && |half| <= 1 && base.roots == RootsOf(h)
    ensures Topped(base, |h|, half).roots == RootsOf(h + half)
    ensures LatestOf(RootsOf(h + half)) == LatestSlot(h + half) && LatestOf(RootsOf(h)) == LatestSlot(h)
  {
    LatestRootOf(h);
    LatestRootOf(h + half);
    if half == [] {
      assert h + half == h;
    } else {
      assert half == [half[0]];
      OneMoreRoot(h, half[0]);
    }
  }

  /** What a commit leaves if it is cut off before the live store. */
  lemma HalfKeeps(f: Flat, h: History, base: Archival, half: seq<Slot>, d: Slot)
    requires Holds(f, h, base, half) && Quiet(f, half) && |h| <= U64_MAX && WellFormed(d)
    requires Faithful(f.live, d)
    ensures Holds(f.(archival := Topped(base, |h|, [OnTop(half, d)])), h, base, [OnTop(half, d)])
  {
    OnTopOnLive(f.live, half, d);
  }

  lemma TopSettles(f: Flat, h: History, base: Archival, half: seq<Slot>, d: Slot)
    requires |h| <= U64_MAX && |half| <= 1 && Quiet(f, half) && f.live == LiveAfter(h)
    requires Settled(base.user, h, User) && Settled(base.kernel, h, Kernel)
    ensures var top := Topped(base, |h|, [OnTop(half, d)]);
            Settled(top.user, h + [d], User) && Settled(top.kernel, h + [d], Kernel)
  {
    var t := OnTop(half, d);
    OnTopOnLive(f.live, half, d);
    OneMoreInNamespace(h, d, User);
    OneMoreInNamespace(h, d, Kernel);
    SettledOneMore(base.user, h, User, t.user, d);
    SettledOneMore(base.kernel, h, Kernel, t.kernel, d);
  }

  /** What it leaves if it goes through: the live store gets the slot's own effect. */
  lemma WholeKeeps(f: Flat, h: History, base: Archival, half: seq<Slot>, d: Slot)
    requires Holds(f, h, base, half) && Quiet(f, half) && |h| <= U64_MAX
    requires Faithful(f.live, d)
    ensures var top := Topped(base, |h|, [OnTop(half, d)]);
            Holds(Flat(WriteLive(f.live, At(d, |h|)), top), h + [d], top, [])
  {
    TopSettles(f, h, base, half, d);
    OneMoreSlot(h, d);
    OneMoreInNamespace(h, d, User);
    LatestRootOf(h + [d]);
  }

  ghost predicate Keeps(g: Flat, h: History, base: Archival, half: seq<Slot>, d: Slot, crash: Crash)
    requires |half| <= 1
  {
    match crash
    case NoCrash => Holds(g, h + [d], g.archival, [])
    case BeforeArchival => Holds(g, h, base, half)
    case BeforeLive => Holds(g, h, base, [OnTop(half, d)])
  }

  lemma CommitKeeps(f: Flat, h: History, base: Archival, half: seq<Slot>, d: Slot, crash: Crash)
    requires Holds(f, h, base, half) && Quiet(f, half) && WellFormed(d)
    requires U64_MAX !in f.live.roots && Faithful(f.live, d)
    ensures |h| <= U64_MAX && NextVersion(f.live) == |h|
    ensures Keeps(Commit(f, At(d, |h|), crash), h, base, half, d, crash)
  {
    FlatRecovery.VersionsLeft(h);
    WriteOnTop(base, |h|, half, d);
    match crash
    case NoCrash => WholeKeeps(f, h, base, half, d);
    case BeforeArchival =>
    case BeforeLive => HalfKeeps(f, h, base, half, d);
  }

  /** The gate opens exactly when the version on top changes a value. */
  lemma GateSeesChanges(f: Flat, h: History, base: Archival, half: seq<Slot>)
    requires Holds(f, h, base, half)
    ensures RootsDiffer(f) <==> half != [] && !Unnoticed(f.live, half[0])
  {
    RootsOfTopped(base, h, half);
    if half == [] {
      assert h + half == h;
    } else {
      assert (h + half)[|h|] == half[0];
    }
  }

  /** Behind the gate, the version on top is taken back, whatever was piled up in it. */
  lemma RecoverTakesBack(f: Flat, h: History, base: Archival, b: Slot)
    requires Holds(f, h, base, [b]) && h != []
    ensures Recover(f) == (Flat(f.live, base), Recovered)
  {
    RootsOfTopped(base, h, [b]);
    RootsByIndex(h + [b], |h| - 1);
    RootsByIndex(h, |h|);
    FlatRecovery.RecoverRollsBack(f, |h| - 1, b.root, h[|h| - 1].root);
    ArchivalUndone(base, b, |h|, f.live);
  }

  /** The reported error: an archival store at version 0 and no live store. */
  lemma RecoverFirst(f: Flat, r: RootHash)
    requires LatestOf(f.live.roots) == None && LatestOf(f.archival.roots) == Some((0, r)) && RootsDiffer(f)
    ensures Startup(f) == (f, LiveEmpty)
  {
  }

  lemma RecoverAgain(f: Flat, g: Flat)
    requires RootsDiffer(f) && Recover(f) == (g, Recovered) && !RootsDiffer(g)
    ensures Startup(f) == (g, Recovered)
  {
  }

  lemma SettledAgrees(f: Flat, h: History, base: Archival)
    requires Holds(f, h, base, [])
    ensures !RootsDiffer(f)
  {
  }

  lemma WithoutTop(f: Flat, h: History, base: Archival, half: seq<Slot>)
    requires Holds(f, h, base, half)
    ensures Holds(Flat(f.live, base), h, base, [])
  {
  }

  lemma StartupTakesBack(f: Flat, h: History, base: Archival, b: Slot)
    requires Holds(f, h, base, [b]) && RootsDiffer(f)
    ensures Startup(f) == if h == [] then (f, LiveEmpty) else (Flat(f.live, base), Recovered)
  {
    if h == [] {
      RootsOfTopped(base, h, [b]);
      assert LatestSlot([] + [b]) == Some((0, b.root));
      RecoverFirst(f, b.root);
    } else {
      RecoverTakesBack(f, h, base, b);
      WithoutTop(f, h, base, [b]);
      SettledAgrees(Flat(f.live, base), h, base);
      RecoverAgain(f, Flat(f.live, base));
    }
  }

  /** Every start-up: nothing to do, the version on top taken back, or the reported error after a first commit. */
  lemma StartupCases(f: Flat, h: History, base: Archival, half: seq<Slot>)
    requires Holds(f, h, base, half)
    ensures Startup(f) ==
            if half == [] || Unnoticed(f.live, half[0]) then (f, Recovered)
            else if h == [] then (f, LiveEmpty)
            else (Flat(f.live, base), Recovered)
  {
    GateSeesChanges(f, h, base, half);
    if RootsDiffer(f) {
      assert half == [half[0]];
      StartupTakesBack(f, h, base, half[0]);
    } else {
      NothingToTakeBack(f);
    }
  }

  lemma NothingToTakeBack(f: Flat)
    requires !RootsDiffer(f)
    ensures Startup(f) == (f, Recovered)
  {
  }

  // --------------------------------------------------------------------- every run

  ghost predicate NodeHolds(n: Node, h: History, base: Archival, half: seq<Slot>) {
    Holds(n.flat, h, base, half) && (n.running ==> Quiet(n.flat, half))
  }

  lemma WriteStep(n: Node, d: Slot, crash: Crash, h: History, base: Archival, half: seq<Slot>)
    returns (base': Archival, half': seq<Slot>)
    requires NodeHolds(n, h, base, half) && Enabled(n, Write(d, crash))
    ensures NodeHolds(Step(n, Write(d, crash)), if crash == NoCrash then h + [d] else h, base', half')
  {
    CommitKeeps(n.flat, h, base, half, d, crash);
    match crash
    case NoCrash => base', half' := Step(n, Write(d, crash)).flat.archival, [];
    case BeforeArchival => base', half' := base, half;
    case BeforeLive => base', half' := base, [OnTop(half, d)];
  }

  lemma RestartStep(n: Node, h: History, base: Archival, half: seq<Slot>) returns (half': seq<Slot>)
    requires NodeHolds(n, h, base, half) && Enabled(n, Restart)
    ensures NodeHolds(Step(n, Restart), h, base, half')
  {
    StartupCases(n.flat, h, base, half);
    if half == [] || Unnoticed(n.flat.live, half[0]) || h == [] {
      half' := half;
    } else {
      WithoutTop(n.flat, h, base, half);
      half' := [];
    }
  }

  lemma StepHolds(n: Node, op: Op, h: History, base: Archival, half: seq<Slot>)
    returns (base': Archival, half': seq<Slot>)
    requires NodeHolds(n, h, base, half) && Enabled(n, op)
    ensures NodeHolds(Step(n, op), Grown(h, op), base', half')
  {
    match op
    case Write(d, crash) => base', half' := WriteStep(n, d, crash, h, base, half);
    case Kill => base', half' := base, half;
    case Restart =>
      base' := base;
      half' := RestartStep(n, h, base, half);
  }

  lemma {:induction false} RunHolds(n: Node, ops: seq<Op>, h: History, base: Archival, half: seq<Slot>)
    returns (base': Archival, half': seq<Slot>)
    requires NodeHolds(n, h, base, half) && ValidRun(n, ops)
    ensures NodeHolds(After(n, ops), Committed(h, ops), base', half')
    decreases |ops|
  {
    if ops == [] {
      base', half' := base, half;
    } else {
      var base1, half1 := StepHolds(n, ops[0], h, base, half);
      base', half' := RunHolds(Step(n, ops[0]), ops[1..], Grown(h, ops[0]), base1, half1);
    }
  }

  lemma FirstHolds()
    ensures NodeHolds(FIRST, [], EMPTY_ARCHIVAL, [])
  {
  }

  lemma RunFromFirst(ops: seq<Op>) returns (base: Archival, half: seq<Slot>)
    requires ValidRun(FIRST, ops)
    ensures NodeHolds(After(FIRST, ops), Committed([], ops), base, half)
  {
    FirstHolds();
    base, half := RunHolds(FIRST, ops, [], EMPTY_ARCHIVAL, []);
  }

  lemma HeldReads(f: Flat, h: History, base: Archival, half: seq<Slot>, ns: Namespace, k: Key, v: Version)
    requires Holds(f, h, base, half) && v < |h| + |half|
    ensures Latest(FlatRecovery.Archived(f, ns).history, k, v) ==
            if v < |h| then LiveValue(TableAfter(h[..v + 1], ns), k)
            else LiveValue(UpdateLive(TableAfter(h, ns), In(half[0], ns)), k)
  {
    var a := if ns == User then base.user else base.kernel;
    if half == [] {
      assert ReadsThen(a, h, ns, k, v);
    } else {
      TopReads(a, h, ns, In(half[0], ns), k, v);
    }
  }

  /**
   At all times, crashed or running, the live store holds the slots whose commit went
   through, and the archival store answers for each of their versions what the live
   store answered then.
   */
  lemma ReadsAreThoseOfTheTime(ops: seq<Op>, ns: Namespace, k: Key, v: Version)
    requires ValidRun(FIRST, ops) && v < |Committed([], ops)|
    ensures var f, h := After(FIRST, ops).flat, Committed([], ops);
            && |h| <= MAX_SLOTS && f.live == LiveAfter(h)
            && Latest(FlatRecovery.Archived(f, ns).history, k, v) == LiveValue(TableAfter(h[..v + 1], ns), k)
  {
    var base, half := RunFromFirst(ops);
    HeldReads(After(FIRST, ops).flat, Committed([], ops), base, half, ns, k, v);
  }

  /** Both stores report one root hash, and the archival one is at the live version or one ahead. */
  ghost predicate AtMostOneAhead(f: Flat, h: History)
    requires |h| <= MAX_SLOTS
  {
    && !RootsDiffer(f) && LatestOf(f.live.roots) == LatestSlot(h)
    && (LatestOf(f.archival.roots) == LatestSlot(h) ||
        (|h| <= U64_MAX && LatestOf(f.archival.roots) == Some((|h|, RootOrGenesis(f.live.roots)))))
  }

  lemma HeldVersions(f: Flat, h: History, base: Archival, half: seq<Slot>)
    requires Holds(f, h, base, half) && Quiet(f, half)
    ensures AtMostOneAhead(f, h)
  {
    GateSeesChanges(f, h, base, half);
    RootsOfTopped(base, h, half);
    if half == [] {
      assert h + half == h;
    } else {
      assert (h + half)[|h|] == half[0];
    }
  }

  /** And if it is one ahead, that version reads like the live store, so nothing is wrong with it but its number. */
  lemma UnnoticedVersionIsHarmless(ops: seq<Op>, ns: Namespace, k: Key)
    requires ValidRun(FIRST, ops) && After(FIRST, ops).running
    ensures var f, h := After(FIRST, ops).flat, Committed([], ops);
            && |h| <= MAX_SLOTS && AtMostOneAhead(f, h)
            && (LatestOf(f.archival.roots) != LatestSlot(h) ==>
                Latest(FlatRecovery.Archived(f, ns).history, k, |h|) == LiveValue(FlatRecovery.InLive(f, ns), k))
  {
    var base, half := RunFromFirst(ops);
    HeldVersions(After(FIRST, ops).flat, Committed([], ops), base, half);
    if LatestOf(After(FIRST, ops).flat.archival.roots) != LatestSlot(Committed([], ops)) {
      HeldIsHarmless(After(FIRST, ops).flat, Committed([], ops), base, half, ns, k);
    }
  }

  lemma HeldIsHarmless(f: Flat, h: History, base: Archival, half: seq<Slot>, ns: Namespace, k: Key)
    requires Holds(f, h, base, half) && Quiet(f, half) && LatestOf(f.archival.roots) != LatestSlot(h)
    ensures |h| < MAX_SLOTS
    ensures Latest(FlatRecovery.Archived(f, ns).history, k, |h|) == LiveValue(FlatRecovery.InLive(f, ns), k)
  {
    RootsOfTopped(base, h, half);
    assert half == [] ==> h + half == h;
    HeldReads(f, h, base, half, ns, k, |h|);
  }

  /** The next commit that goes through brings the two stores to the same version. */
  lemma NextCommitAgrees(ops: seq<Op>, d: Slot)
    requires ValidRun(FIRST, ops) && Enabled(After(FIRST, ops), Write(d, NoCrash))
    ensures var g := Step(After(FIRST, ops), Write(d, NoCrash)).flat;
            var n := |Committed([], ops)|;
            n <= U64_MAX && LatestOf(g.live.roots) == LatestOf(g.archival.roots) == Some((n, d.root))
  {
    var base, half := RunFromFirst(ops);
    var f, h := After(FIRST, ops).flat, Committed([], ops);
    CommitKeeps(f, h, base, half, d, NoCrash);
    LatestRootOf(h + [d]);
  }

  /** No start-up fails an assertion; the empty live store is reported exactly for a first commit with an effect. */
  lemma StartupsSucceed(ops: seq<Op>)
    requires ValidRun(FIRST, ops)
    ensures var f := After(FIRST, ops).flat;
            Startup(f).1 == if Committed([], ops) == [] && RootsDiffer(f) then LiveEmpty else Recovered
  {
    var base, half := RunFromFirst(ops);
    var f, h := After(FIRST, ops).flat, Committed([], ops);
    GateSeesChanges(f, h, base, half);
    StartupCases(f, h, base, half);
  }

  /** A version on top is taken back if and only if its root hash differs, and so if and only if it changes a value. */
  lemma GateIsExact(f: Flat, h: History, base: Archival, b: Slot)
    requires Holds(f, h, base, [b]) && h != []
    ensures Startup(f) == (Flat(f.live, base), Recovered) <==> b.root != h[|h| - 1].root
    ensures b.root == h[|h| - 1].root <==> Unnoticed(f.live, b)
    ensures b.root == h[|h| - 1].root ==> Startup(f) == (f, Recovered)
  {
    RootsOfTopped(base, h, [b]);
    GateSeesChanges(f, h, base, [b]);
    StartupCases(f, h, base, [b]);
    RootsByIndex(h, |h|);
  }

  // ------------------------------------------------------------ any contents of the stores

  /** With no version above `v`, the latest root is the one `get_prev` finds at `v`. */
  lemma {:induction false} LatestIsPrevious(roots: Roots, v: Version)
    requires RootAt(roots, v).Some? && forall x :: x in roots ==> x <= v
    ensures LatestOf(roots).Some? && LatestOf(roots).value.1 == RootAt(roots, v).value
  {
    if v !in roots {
      LatestIsPrevious(roots, v - 1);
    }
  }

  lemma {:induction false} RootBelow(roots: Roots, v: Version, w: Version)
    requires v < w
    ensures RootAt(roots - {w}, v) == RootAt(roots, v)
  {
    if v !in roots && v != 0 {
      RootBelow(roots, v - 1, w);
    }
  }

  /** Whatever the stores hold: a recovery that goes through leaves the live store and makes the root hashes agree. */
  lemma RecoveryAgrees(f: Flat)
    requires Recover(f).1 == Recovered
    ensures Recover(f).0.live == f.live && !RootsDiffer(Recover(f).0)
  {
    var archival, live := LatestOf(f.archival.roots), LatestOf(f.live.roots);
    if archival.Some? && live.Some? && archival.value.0 != live.value.0 {
      var (va, vl) := (archival.value.0, live.value.0);
      var left := f.archival.roots - {va};
      RootBelow(f.archival.roots, vl, va);
      LatestIsPrevious(left, vl);
    }
  }

  /** Whatever the stores hold, the empty live store is reported exactly with version 0 alone in the archival store. */
  lemma EmptyLiveIsReported(f: Flat)
    ensures Recover(f).1 == LiveEmpty <==> f.live.roots == map[] && f.archival.roots.Keys == {0}
  {
    var roots := f.archival.roots;
    if roots != map[] {
      assert LargestRoot(roots) == 0 <==> roots.Keys == {0};
    }
  }

  /** Whatever the stores hold, a start-up that does not go through changes nothing, and the closing check of the roots
      never fails. */
  lemma StartupOnAnyStores(f: Flat)
    ensures Startup(f).1 == Recovered ==> !RootsDiffer(Startup(f).0)
    ensures Startup(f).1 != Recovered ==> Startup(f).0 == f && Startup(f).1 == Recover(f).1
    ensures Startup(f).0.live == f.live
  {
    if RootsDiffer(f) && Recover(f).1 == Recovered {
      RecoveryAgrees(f);
    }
  }

  // ------------------------------------------------------- commitments without collisions

  type Commitment = (LiveTable, LiveTable) -> RootHash

  /** No collisions, and the root before genesis is that of no values. */
  ghost predicate Commits(hash: Commitment) {
    && hash(map[], map[]) == PreGenesisRoot()
    && forall a, b, c, d :: hash(a, b) == hash(c, d) ==> a == c && b == d
  }

  function HashAfter(hash: Commitment, live: Live, b: Slot): RootHash {
    hash(UpdateLive(live.user, b.user), UpdateLive(live.kernel, b.kernel))
  }

  /** Every slot written in the run has the commitment to the values after it as its root. */
  ghost predicate Hashed(hash: Commitment, n: Node, ops: seq<Op>)
    decreases |ops|
  {
    ops == [] ||
    (HashedOp(hash, n, ops[0]) && (Enabled(n, ops[0]) ==> Hashed(hash, Step(n, ops[0]), ops[1..])))
  }

  /** `Enabled` with the commitment in place of `Faithful`. */
  ghost predicate HashedOp(hash: Commitment, n: Node, op: Op) {
    match op
    case Write(b, _) =>
      n.running && WellFormed(b) && U64_MAX !in n.flat.live.roots && b.root == HashAfter(hash, n.flat.live, b)
    case Kill => n.running
    case Restart => !n.running
  }

  /** The live store reports the commitment to its values. */
  ghost predicate RootIsHash(hash: Commitment, live: Live) {
    RootOrGenesis(live.roots) == hash(live.user, live.kernel)
  }

  lemma HashedIsFaithful(hash: Commitment, n: Node, op: Op)
    requires Commits(hash) && RootIsHash(hash, n.flat.live) && HashedOp(hash, n, op)
    ensures Enabled(n, op)
  {
  }

  lemma LiveRootStays(hash: Commitment, n: Node, op: Op, h: History, base: Archival, half: seq<Slot>)
    requires NodeHolds(n, h, base, half) && Enabled(n, op) && HashedOp(hash, n, op) && RootIsHash(hash, n.flat.live)
    ensures RootIsHash(hash, Step(n, op).flat.live)
  {
    match op
    case Write(d, crash) =>
      CommitKeeps(n.flat, h, base, half, d, crash);
      LatestRootOf(h + [d]);
    case Kill =>
    case Restart => StartupCases(n.flat, h, base, half);
  }

  lemma HashedStep(hash: Commitment, n: Node, op: Op, h: History, base: Archival, half: seq<Slot>)
    returns (base': Archival, half': seq<Slot>)
    requires Commits(hash) && NodeHolds(n, h, base, half) && HashedOp(hash, n, op) && RootIsHash(hash, n.flat.live)
    ensures Enabled(n, op) && NodeHolds(Step(n, op), Grown(h, op), base', half')
    ensures RootIsHash(hash, Step(n, op).flat.live)
  {
    HashedIsFaithful(hash, n, op);
    LiveRootStays(hash, n, op, h, base, half);
    base', half' := StepHolds(n, op, h, base, half);
  }

  lemma {:induction false} HashedIsValid(
      hash: Commitment, n: Node, ops: seq<Op>, h: History, base: Archival, half: seq<Slot>)
    requires Commits(hash) && NodeHolds(n, h, base, half) && Hashed(hash, n, ops) && RootIsHash(hash, n.flat.live)
    ensures ValidRun(n, ops)
    decreases |ops|
  {
    if ops != [] {
      var base1, half1 := HashedStep(hash, n, ops[0], h, base, half);
      HashedIsValid(hash, Step(n, ops[0]), ops[1..], Grown(h, ops[0]), base1, half1);
    }
  }

  /** So runs whose roots are commitments without collisions are runs as above. */
  lemma HashedRunsAreFaithful(hash: Commitment, ops: seq<Op>)
    requires Commits(hash) && Hashed(hash, FIRST, ops)
    ensures ValidRun(FIRST, ops)
  {
    FirstHolds();
    HashedIsValid(hash, FIRST, ops, [], EMPTY_ARCHIVAL, []);
  }
}
