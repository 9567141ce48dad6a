/** States that runs from an empty manager reach, and in which a call does what one would not expect. */
module ReachedStates {
  import opened Wrappers
  import opened Bytes
  import opened BlockTree
  import opened NomtSessions
  import opened StorageManager
  import opened Finalization
  import opened SessionViews
  import opened NodeSessions

  const ONE := Child(Genesis, 1)
  const TWO := Child(Genesis, 2)
  const WRITES := StateOverlay(map[PROBE := Some([1])], map[])
  const NOTHING := StateOverlay(map[], map[])
  const NO_STORES := Stores(map[], map[])

  /** Two forks, both saved. */
  const FORKED := Manager(map[Genesis := [ONE, TWO]], map[ONE := Genesis, TWO := Genesis],
                          map[ONE := NOTHING, TWO := WRITES], NO_STORES)

  lemma ForkedIsReached()
    ensures var run := [CreateFor(ONE), CreateFor(TWO), SaveFor(ONE, NOTHING), SaveFor(TWO, WRITES)];
            LegalRun(Empty(NO_STORES), Genesis, run) && After(Empty(NO_STORES), Genesis, run) == (FORKED, Genesis)
  {
    var m1 := Created(Empty(NO_STORES), ONE);
    var m2 := Created(m1, TWO);
    var m3 := Saved(m2, ONE, NOTHING);
    var m4 := Saved(m3, TWO, WRITES);
    assert m2.forks[Genesis] == [ONE, TWO];
    assert m4 == FORKED;
    var run := [CreateFor(ONE), CreateFor(TWO), SaveFor(ONE, NOTHING), SaveFor(TWO, WRITES)];
    assert CanSave(m2, ONE) && CanSave(m3, TWO);
    StepsTo(m4, Genesis, [], m4);
    StepsTo(m3, Genesis, [SaveFor(TWO, WRITES)], m4);
    StepsTo(m2, Genesis, [SaveFor(ONE, NOTHING), SaveFor(TWO, WRITES)], m4);
    StepsTo(m1, Genesis, [CreateFor(TWO), SaveFor(ONE, NOTHING), SaveFor(TWO, WRITES)], m4);
    StepsTo(Empty(NO_STORES), Genesis, run, m4);
  }

  /** One step of a run that finalizes nothing, in front of the rest of it. */
  lemma StepsTo(m: Manager, root: Block, run: seq<Op>, end: Manager)
    requires if run == [] then m == end
             else !run[0].FinalizeTo? && Legal(m, root, run[0]) && LegalRun(Next(m, run[0]), root, run[1..])
                  && After(Next(m, run[0]), root, run[1..]) == (end, root)
    ensures LegalRun(m, root, run) && After(m, root, run) == (end, root)
  {
  }

  /** A builder on one fork reads the other fork's writes once that one is finalized. */
  lemma ForkedViewChanges()
    ensures Good(FORKED, Genesis) && TWO in FORKED.snaps
    ensures !SameViews(Refs(FORKED, ONE), FORKED, Finalize(FORKED, TWO).0)
  {
    ForkedIsReached();
    EmptyIsGood(NO_STORES, Genesis);
    RunKeepsGood(Empty(NO_STORES), Genesis,
                 [CreateFor(ONE), CreateFor(TWO), SaveFor(ONE, NOTHING), SaveFor(TWO, WRITES)]);
    var refs, after := Refs(FORKED, ONE), Finalize(FORKED, TWO).0;
    assert Refs(FORKED, Genesis) == [] && refs == [ONE];
    SavedSucceeds(FORKED, Genesis, TWO);
    FirstCommitted(FORKED, TWO);
    assert Up(FORKED, TWO) == [TWO];
    AfterFinalize(FORKED, TWO, ONE);
    ProbeIsCommitted(FORKED.base, [TWO], FORKED.snaps, TWO, [1]);
    EmptyOverlaysAreSeenThrough(refs, FORKED.snaps, FORKED.base.user);
    EmptyOverlaysAreSeenThrough(refs, after.snaps, after.base.user);
    assert UserView(refs, FORKED, PROBE) == None && UserView(refs, after, PROBE) == Some([1]);
  }

  const SAVED_ONLY := Child(Genesis, 3)
  const ON_TOP := Child(SAVED_ONLY, 0)
  const OTHER := StateOverlay(map[PROBE := Some([2])], map[])

  /** A block that was saved without having been created, and one that builds on it. */
  const UNCREATED := Manager(map[Genesis := [ONE], SAVED_ONLY := [ON_TOP]], map[ONE := Genesis, ON_TOP := SAVED_ONLY],
                             map[SAVED_ONLY := WRITES, ON_TOP := OTHER], NO_STORES)

  lemma UncreatedIsReached()
    ensures var run := [CreateFor(ONE), SaveFor(SAVED_ONLY, WRITES), CreateFor(ON_TOP), SaveFor(ON_TOP, OTHER)];
            Exec(Empty(NO_STORES), run) == UNCREATED
  {
    var m1 := Created(Empty(NO_STORES), ONE);
    var m2 := Saved(m1, SAVED_ONLY, WRITES);
    var m3 := Created(m2, ON_TOP);
    assert CanSave(m1, SAVED_ONLY) && CanSave(m3, ON_TOP);
    assert m1.forks[Genesis] == [ONE] && m3.forks[SAVED_ONLY] == [ON_TOP];
    assert Saved(m3, ON_TOP, OTHER) == UNCREATED;
    Traced(Empty(NO_STORES),
           [CreateFor(ONE), SaveFor(SAVED_ONLY, WRITES), CreateFor(ON_TOP), SaveFor(ON_TOP, OTHER)],
           [Empty(NO_STORES), m1, m2, m3, UNCREATED]);
  }

  lemma UncreatedIsOrderly()
    ensures Orderly(UNCREATED) && !SavedAreKnown(UNCREATED)
  {
    var m := UNCREATED;
    assert AreChildren(m, Genesis, m.forks[Genesis]) && AreChildren(m, SAVED_ONLY, m.forks[SAVED_ONLY]);
    assert IsListed(m, ONE) && IsListed(m, ON_TOP);
    assert IsSaved(m, SAVED_ONLY);
  }

  lemma UncreatedPaths()
    ensures Refs(UNCREATED, ON_TOP) == [ON_TOP, SAVED_ONLY]
    ensures Succeeds(UNCREATED, ON_TOP) && Commits(UNCREATED, ON_TOP) == [ON_TOP]
  {
    assert Refs(UNCREATED, SAVED_ONLY) == [SAVED_ONLY];
    assert Up(UNCREATED, ON_TOP) == [ON_TOP];
    FirstCommitted(UNCREATED, ON_TOP);
  }

  lemma FoundTwo(a: Block, b: Block, snaps: map<Block, StateOverlay>)
    ensures Found([a, b], snaps) == (if a in snaps then [snaps[a]] else []) + (if b in snaps then [snaps[b]] else [])
  {
    assert [a, b][1..] == [b] && [b][1..] == [];
    assert Found([b], snaps) == if b in snaps then [snaps[b]] else [];
  }

  /** After a saving without a creation, even finalizing a block of the own path changes a view. */
  lemma UncreatedBlockBreaksViews()
    ensures Orderly(UNCREATED) && !SavedAreKnown(UNCREATED)
    ensures var refs := Refs(UNCREATED, ON_TOP);
            && Succeeds(UNCREATED, ON_TOP) && OnlyOwn(UNCREATED, ON_TOP, refs) && RootIsRead(UNCREATED, ON_TOP, refs)
            && !SameViews(refs, UNCREATED, Finalize(UNCREATED, ON_TOP).0)
  {
    UncreatedIsOrderly();
    UncreatedPaths();
    var refs, after := [ON_TOP, SAVED_ONLY], Finalize(UNCREATED, ON_TOP).0;
    AfterFinalize(UNCREATED, ON_TOP, SAVED_ONLY);
    AfterFinalize(UNCREATED, ON_TOP, ON_TOP);
    FoundTwo(ON_TOP, SAVED_ONLY, UNCREATED.snaps);
    FoundTwo(ON_TOP, SAVED_ONLY, after.snaps);
    assert Users([OTHER, WRITES])[0] == OTHER.user && Users([WRITES])[0] == WRITES.user;
    assert UserView(refs, UNCREATED, PROBE) == Some([2]) && UserView(refs, after, PROBE) == Some([1]);
  }

  // ---------------------------------------------------------------------- stopping half-way

  const UNSAVED := Child(ONE, 0)
  const LATEST := Child(UNSAVED, 0)

  /** A block with a sibling, and on top of it one that was created and never saved, and one that was saved. */
  const HOLED := Manager(map[Genesis := [ONE, TWO], ONE := [UNSAVED], UNSAVED := [LATEST]],
                         map[ONE := Genesis, TWO := Genesis, UNSAVED := ONE, LATEST := UNSAVED],
                         map[ONE := WRITES, LATEST := OTHER], NO_STORES)

  lemma HoledIsReached()
    ensures var run := [CreateFor(ONE), SaveFor(ONE, WRITES), CreateFor(TWO), CreateFor(UNSAVED), CreateFor(LATEST),
                        SaveFor(LATEST, OTHER)];
            Exec(Empty(NO_STORES), run) == HOLED
  {
    var m1 := Created(Empty(NO_STORES), ONE);
    var m2 := Saved(m1, ONE, WRITES);
    var m3 := Created(m2, TWO);
    var m4 := Created(m3, UNSAVED);
    var m5 := Created(m4, LATEST);
    assert CanSave(m1, ONE) && CanSave(m5, LATEST);
    assert m3.forks[Genesis] == [ONE, TWO] && m5.forks[ONE] == [UNSAVED] && m5.forks[UNSAVED] == [LATEST];
    assert Saved(m5, LATEST, OTHER) == HOLED;
    Traced(Empty(NO_STORES),
           [CreateFor(ONE), SaveFor(ONE, WRITES), CreateFor(TWO), CreateFor(UNSAVED), CreateFor(LATEST),
            SaveFor(LATEST, OTHER)],
           [Empty(NO_STORES), m1, m2, m3, m4, m5, HOLED]);
  }

  lemma HoledPath()
    ensures Up(HOLED, LATEST) == [LATEST, UNSAVED, ONE] && Commits(HOLED, LATEST) == [ONE]
  {
    assert Up(HOLED, ONE) == [ONE];
    assert Up(HOLED, UNSAVED) == [UNSAVED, ONE];
    assert Up(HOLED, LATEST) == [LATEST] + Up(HOLED, UNSAVED);
    assert [ONE][1..] == [] && [UNSAVED, ONE][1..] == [ONE] && [LATEST, UNSAVED, ONE][1..] == [UNSAVED, ONE];
    assert OldestSaved([ONE], HOLED.snaps) == [ONE];
    assert OldestSaved([UNSAVED, ONE], HOLED.snaps) == [ONE];
  }

  /** Finalizing the latest block stops half-way and leaves a known block that no list names. */
  lemma HalfwayDisagrees()
    ensures Orderly(HOLED) && SavedAreKnown(HOLED)
    ensures !Finalize(HOLED, LATEST).1 && !Orderly(Finalize(HOLED, LATEST).0) && Sound(Finalize(HOLED, LATEST).0)
  {
    HoledIsOrderly();
    HoledPath();
    SucceedsExactly(HOLED, LATEST);
    FinalizeKeepsSound(HOLED, LATEST);
    SiblingIsLeft();
  }

  lemma SiblingIsLeft()
    ensures !Orderly(Partly(HOLED, [ONE]))
  {
    HoledIsOrderly();
    HalfwayIsOrderlyExactly(HOLED, [ONE]);
    PrevIn([ONE], ONE);
    assert TWO in HOLED.parent && TWO.prev == ONE.prev;
  }

  lemma HoledIsOrderly()
    ensures Orderly(HOLED) && SavedAreKnown(HOLED)
  {
    var m := HOLED;
    assert AreChildren(m, Genesis, m.forks[Genesis]) && AreChildren(m, ONE, m.forks[ONE]);
    assert AreChildren(m, UNSAVED, m.forks[UNSAVED]);
    assert IsListed(m, ONE) && IsListed(m, TWO) && IsListed(m, UNSAVED) && IsListed(m, LATEST);
  }

  lemma {:induction false} Traced(m: Manager, run: seq<Op>, states: seq<Manager>)
    requires IsRun(run) && |states| == |run| + 1 && states[0] == m
    requires forall i :: 0 <= i < |run| ==> states[i + 1] == Next(states[i], run[i])
    ensures Exec(m, run) == states[|run|]
    decreases |run|
  {
    if run != [] {
      forall i | 0 <= i < |run[1..]| ensures states[1..][i + 1] == Next(states[1..][i], run[1..][i]) {
        assert states[i + 1 + 1] == Next(states[i + 1], run[i + 1]);
      }
      Traced(states[1], run[1..], states[1..]);
    }
  }
}
