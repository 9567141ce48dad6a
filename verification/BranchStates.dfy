/**
 What a storage reads, without regard to how the storage manager keeps it: the change sets saved for the
 blocks of its branch, one after the other from the beginning, whatever has been finalized meanwhile.
 */
module BranchStates {
  import opened Wrappers
  import opened Bytes
  import opened BlockTree
  import opened NomtSessions
  import opened Overlays
  import opened StorageManager
  import opened Finalization
  import opened SessionViews
  import opened NodeSessions

  /** The newest reference answers for the keys its block wrote, the others as if it were not there. */
  lemma BuilderReadsNewest(m: Manager, b: Block, key: KeyPath)
    requires b in m.snaps
    ensures UserView(Refs(m, b), m, key) ==
            if key in m.snaps[b].user then m.snaps[b].user[key]
            else if b.Child? && b in m.parent then UserView(Refs(m, b.prev), m, key) else Get(m.base.user, key)
    ensures KernelView(Refs(m, b), m, key) ==
            if key in m.snaps[b].kernel then m.snaps[b].kernel[key]
            else if b.Child? && b in m.parent then KernelView(Refs(m, b.prev), m, key) else Get(m.base.kernel, key)
  {
    var rest := if b.Child? && b in m.parent then Refs(m, b.prev) else [];
    assert Refs(m, b) == [b] + rest && ([b] + rest)[1..] == rest;
    var found := Found(rest, m.snaps);
    assert Found([b] + rest, m.snaps) == [m.snaps[b]] + found;
    OneMoreOverlay(m.snaps[b], found, m.base, key);
  }

  lemma OneMoreOverlay(o: StateOverlay, found: seq<StateOverlay>, base: Stores, key: KeyPath)
    ensures View(Users([o] + found), base.user, key) ==
            if key in o.user then o.user[key] else View(Users(found), base.user, key)
    ensures View(Kernels([o] + found), base.kernel, key) ==
            if key in o.kernel then o.kernel[key] else View(Kernels(found), base.kernel, key)
  {
    var users, kernels := Users([o] + found), Kernels([o] + found);
    assert users[0] == o.user && users[1..] == Users(found);
    assert kernels[0] == o.kernel && kernels[1..] == Kernels(found);
  }

  // ------------------------------------------------------------------------- the branch

  type Saves = map<Block, StateOverlay>

  /** The state after `x`: that after its parent with what was saved for `x` on top, from `root` on. */
  function Branch(saves: Saves, root: Block, base: Stores, x: Block): Stores {
    if x == root || x.Genesis? then base
    else
      var below := Branch(saves, root, base, x.prev);
      if x in saves then ApplyBoth(below, saves[x]) else below
  }

  function SavedBy(saves: Saves, run: seq<Op>): Saves
    decreases |run|
  {
    if run == [] then saves
    else SavedBy(if run[0].SaveFor? then saves[run[0].b := run[0].o] else saves, run[1..])
  }

  predicate IsOn(b: Block, x: Block) { x == b || Below(b, x) }

  /** What is saved for a block shows on its own branches only. */
  lemma {:induction false} OtherBranch(saves: Saves, root: Block, base: Stores, x: Block, b: Block, o: StateOverlay)
    requires !IsOn(b, x)
    ensures Branch(saves[b := o], root, base, x) == Branch(saves, root, base, x)
    decreases x
  {
    if x != root && x.Child? {
      OtherBranch(saves, root, base, x.prev, b, o);
    }
  }

  /** The manager holds the branches: the databases that of the last finalized block, the snapshots the rest. */
  ghost predicate HoldsBranches(m: Manager, tip: Block, saves: Saves, root: Block, base: Stores) {
    && Good(m, tip) && IsOn(root, tip) && m.base == Branch(saves, root, base, tip)
    && forall h :: h in m.snaps ==> h in saves && saves[h] == m.snaps[h]
  }

  lemma RootIsAbove(m: Manager, tip: Block, root: Block, h: Block)
    requires Good(m, tip) && IsOn(root, tip) && h in m.parent
    ensures h != root
  {
    if tip != root {
      BelowTransitive(root, tip, h);
    }
    if h == root {
      BelowIsHigher(h, h);
    }
  }

  /** Committing the path of a saved block on top of the databases gives its branch. */
  lemma {:induction false} PathIsBranch(m: Manager, tip: Block, saves: Saves, root: Block, base: Stores, x: Block)
    requires HoldsBranches(m, tip, saves, root, base) && x in m.snaps
    ensures x.Child? && (forall h :: h in Up(m, x) ==> h in m.snaps)
    ensures Committed(m.base, Up(m, x), m.snaps) == Branch(saves, root, base, x)
    decreases x
  {
    SavedSucceeds(m, tip, x);
    SavedIsBelow(m, tip, x);
    RootIsAbove(m, tip, root, x);
    if x.prev == tip {
      RootIsUnknown(m, tip);
      assert Up(m, x) == [x] && [x][1..] == [];
    } else {
      PrevIsKnown(m, tip, x);
      PathIsBranch(m, tip, saves, root, base, x.prev);
      assert Up(m, x)[1..] == Up(m, x.prev);
    }
  }

  lemma RefsAreUp(m: Manager, tip: Block, x: Block)
    requires Good(m, tip) && x in m.snaps
    ensures x.Child? && Refs(m, x) == Up(m, x)
  {
    NewBuilderIsRooted(m, tip, x);
    RefsArePath(Refs(m, x), |Refs(m, x)|, m, tip, 0);
    NewBuilderFits(m, x);
    assert Refs(m, x)[0..|Refs(m, x)|] == Refs(m, x);
  }

  lemma PathIsRead(m: Manager, path: seq<Block>, key: KeyPath)
    requires forall h :: h in path ==> h in m.snaps
    ensures UserView(path, m, key) == Get(Committed(m.base, path, m.snaps).user, key)
    ensures KernelView(path, m, key) == Get(Committed(m.base, path, m.snaps).kernel, key)
  {
    var found := Found(path, m.snaps);
    PathIsCommitted(m.base, path, m.snaps);
    CommitAllUnderneath([], m.base.user, Users(found), key);
    CommitAllUnderneath([], m.base.kernel, Kernels(found), key);
    assert [] + Users(found) == Users(found) && [] + Kernels(found) == Kernels(found);
  }

  lemma BranchIsRead(m: Manager, tip: Block, saves: Saves, root: Block, base: Stores, x: Block, key: KeyPath)
    requires HoldsBranches(m, tip, saves, root, base)
    ensures var state := Branch(saves, root, base, if x in m.snaps then x else tip);
            && UserView(Refs(m, x), m, key) == Get(state.user, key)
            && KernelView(Refs(m, x), m, key) == Get(state.kernel, key)
  {
    if x in m.snaps {
      PathIsBranch(m, tip, saves, root, base, x);
      RefsAreUp(m, tip, x);
      PathIsRead(m, Up(m, x), key);
    }
  }

  // ---------------------------------------------------------------------------- the steps

  lemma SaveHolds(m: Manager, tip: Block, saves: Saves, root: Block, base: Stores, b: Block, o: StateOverlay)
    requires HoldsBranches(m, tip, saves, root, base) && Legal(m, tip, SaveFor(b, o))
    ensures HoldsBranches(Next(m, SaveFor(b, o)), tip, saves[b := o], root, base)
  {
    KnownCanBeSaved(m, tip, b);
    NextKeepsGood(m, tip, SaveFor(b, o));
    assert Below(tip, b);
    if IsOn(b, tip) {
      if b == tip {
        BelowIsHigher(b, b);
      } else {
        BelowIsHigher(tip, b);
        BelowIsHigher(b, tip);
      }
    }
    OtherBranch(saves, root, base, tip, b, o);
  }

  lemma FinalizeHolds(m: Manager, tip: Block, saves: Saves, root: Block, base: Stores, b: Block)
    requires HoldsBranches(m, tip, saves, root, base) && Legal(m, tip, FinalizeTo(b))
    ensures HoldsBranches(Next(m, FinalizeTo(b)), b, saves, root, base)
  {
    FinalizeKeepsGood(m, tip, b);
    PathIsBranch(m, tip, saves, root, base, b);
    SavedIsBelow(m, tip, b);
    if tip != root {
      BelowTransitive(root, tip, b);
    }
    FirstCommitted(m, b);
    forall h | h in Finalized(m, b).snaps ensures h in m.snaps && Finalized(m, b).snaps[h] == m.snaps[h] {
      AfterFinalize(m, b, h);
    }
    AfterFinalize(m, b, b);
  }

  lemma {:induction false} RunHoldsBranches(
      m: Manager, tip: Block, saves: Saves, root: Block, base: Stores, run: seq<Op>)
    requires HoldsBranches(m, tip, saves, root, base) && LegalRun(m, tip, run)
    ensures HoldsBranches(After(m, tip, run).0, After(m, tip, run).1, SavedBy(saves, run), root, base)
    decreases |run|
  {
    if run != [] {
      var op := run[0];
      match op {
        case CreateFor(b) => NextKeepsGood(m, tip, op);
        case SaveFor(b, o) => SaveHolds(m, tip, saves, root, base, b, o);
        case FinalizeTo(b) => FinalizeHolds(m, tip, saves, root, base, b);
      }
      var later := if op.SaveFor? then saves[op.b := op.o] else saves;
      RunHoldsBranches(Next(m, op), Tip(tip, op), later, root, base, run[1..]);
    }
  }

  /**
   From an empty manager on block `root`, over every run in the node's order: the storage up to a block
   with saved changes reads, in both namespaces, what applying all change sets saved along its branch gives,
   finalized or not; and the storage up to any other block reads the branch of the last finalized one.
   */
  lemma StorageReadsItsBranch(base: Stores, root: Block, run: seq<Op>, x: Block, key: KeyPath)
    requires LegalRun(Empty(base), root, run)
    ensures var (m, tip) := After(Empty(base), root, run);
            var state := Branch(SavedBy(map[], run), root, base, if x in m.snaps then x else tip);
            && UserView(Refs(m, x), m, key) == Get(state.user, key)
            && KernelView(Refs(m, x), m, key) == Get(state.kernel, key)
  {
    EmptyIsGood(base, root);
    RunHoldsBranches(Empty(base), root, map[], root, base, run);
    var (m, tip) := After(Empty(base), root, run);
    BranchIsRead(m, tip, SavedBy(map[], run), root, base, x, key);
  }

  /** And the databases hold, for both namespaces, the branch of the last finalized block. */
  lemma DatabasesHoldTheBranch(base: Stores, root: Block, run: seq<Op>)
    requires LegalRun(Empty(base), root, run)
    ensures var (m, tip) := After(Empty(base), root, run);
            m.base == Branch(SavedBy(map[], run), root, base, tip)
  {
    EmptyIsGood(base, root);
    RunHoldsBranches(Empty(base), root, map[], root, base, run);
  }
}
