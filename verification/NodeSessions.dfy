/**
 Sessions under the node's order of calls: states are created on the last finalized
 block or on saved ones, and what was created is saved once.
 */
module NodeSessions {
  import opened Wrappers
  import opened Bytes
  import opened BlockTree
  import opened NomtSessions
  import opened StorageManager
  import opened Finalization
  import opened SessionViews

  /** Every known block builds on the last finalized block through blocks that have been saved. */
  ghost predicate Connected(m: Manager, root: Block) {
    forall h :: h in m.parent ==> h.Child? && Below(root, h) && (h.prev == root || h.prev in m.snaps)
  }

  ghost predicate Good(m: Manager, root: Block) { Orderly(m) && SavedAreKnown(m) && Connected(m, root) }

  predicate Legal(m: Manager, root: Block, op: Op) {
    op.b.Child? &&
    match op
    case CreateFor(b) => b.prev == root || b.prev in m.snaps
    case SaveFor(b, _) => b in m.parent && b !in m.snaps
    case FinalizeTo(b) => b in m.snaps
  }

  function Tip(root: Block, op: Op): Block { if op.FinalizeTo? then op.b else root }

  lemma EmptyIsGood(base: Stores, root: Block)
    ensures Good(Empty(base), root)
  {
    EmptyIsOrderly(base);
  }

  // -------------------------------------------------------------- one tree, all of it saved

  lemma RootIsUnknown(m: Manager, root: Block)
    requires Good(m, root)
    ensures root !in m.parent && root !in m.snaps
  {
    assert IsSaved(m, root) == (root in m.snaps);
    if root in m.parent {
      BelowIsHigher(root, root);
    }
  }

  lemma PrevIsKnown(m: Manager, root: Block, h: Block)
    requires Good(m, root) && h in m.parent && h.prev != root
    ensures h.prev in m.snaps && h.prev in m.parent && h.prev.Child?
  {
    assert IsSaved(m, h.prev);
  }

  lemma {:induction false} AllReach(m: Manager, root: Block, h: Block)
    requires Good(m, root) && h in m.parent
    ensures Reaches(m, root, h) && RootOf(m, h) == root
    decreases h
  {
    if h.prev == root {
      RootIsUnknown(m, root);
    } else {
      PrevIsKnown(m, root, h);
      AllReach(m, root, h.prev);
    }
  }

  lemma {:induction false} PathIsSaved(m: Manager, root: Block, b: Block, h: Block)
    requires Good(m, root) && b in m.parent && b.Child? && h in Up(m, b) && h != b
    ensures h in m.snaps
    decreases b
  {
    if b.prev != root {
      PrevIsKnown(m, root, b);
      if h != b.prev {
        PathIsSaved(m, root, b.prev, h);
      }
    } else {
      RootIsUnknown(m, root);
    }
  }

  lemma SavedSucceeds(m: Manager, root: Block, b: Block)
    requires Good(m, root) && b in m.snaps
    ensures Succeeds(m, b) && RootOf(m, b) == root
  {
    assert IsSaved(m, b);
    AllReach(m, root, b);
    forall h | h in Up(m, b) ensures h in m.snaps {
      if h != b {
        PathIsSaved(m, root, b, h);
      }
    }
  }

  /** A known block can always be saved. */
  lemma KnownCanBeSaved(m: Manager, root: Block, b: Block)
    requires Good(m, root) && b in m.parent && b !in m.snaps && b.Child?
    ensures CanSave(m, b)
  {
    assert IsListed(m, b);
  }

  /** After finalizing `b`, exactly the known descendants of `b` are left, and they hang on `b`. */
  lemma FinalizeKeepsGood(m: Manager, root: Block, b: Block)
    requires Good(m, root) && b in m.snaps
    ensures Succeeds(m, b) && Good(Finalized(m, b), b)
    ensures forall h :: h in Finalized(m, b).parent <==> h in m.parent && Below(b, h)
    ensures forall h :: h in Finalized(m, b).snaps <==> h in m.snaps && Below(b, h)
  {
    SavedSucceeds(m, root, b);
    FinalizeKeepsOrderly(m, b);
    var after := Finalized(m, b);
    forall h ensures h in after.parent <==> h in m.parent && Below(b, h) {
      KnownLeft(m, root, b, h);
    }
    forall h ensures h in after.snaps <==> h in m.snaps && Below(b, h) {
      SnapsLeft(m, root, b, h);
    }
    forall h | h in after.parent ensures h.Child? && Below(b, h) && (h.prev == b || h.prev in after.snaps) {
      if h.prev != b {
        if h.prev == root {
          SavedIsBelow(m, root, b);
          BelowIsHigher(root, b);
          BelowIsHigher(b, h.prev);
        }
      }
    }
  }

  lemma SavedIsBelow(m: Manager, root: Block, b: Block)
    requires Good(m, root) && b in m.snaps
    ensures b in m.parent && Below(root, b)
  {
    assert IsSaved(m, b);
  }

  lemma KnownLeft(m: Manager, root: Block, b: Block, h: Block)
    requires Good(m, root) && b in m.snaps && Succeeds(m, b)
    ensures h in Finalized(m, b).parent <==> h in m.parent && Below(b, h)
  {
    SavedSucceeds(m, root, b);
    KnownAfter(m, b, h);
    if h in m.parent {
      AllReach(m, root, h);
    }
  }

  lemma SnapsLeft(m: Manager, root: Block, b: Block, h: Block)
    requires Good(m, root) && b in m.snaps && Succeeds(m, b)
    ensures h in Finalized(m, b).snaps <==> h in m.snaps && Below(b, h)
  {
    KnownLeft(m, root, b, h);
    assert IsSaved(m, h) == (h in m.snaps);
  }

  lemma NextKeepsGood(m: Manager, root: Block, op: Op)
    requires Good(m, root) && Legal(m, root, op)
    ensures Good(Next(m, op), Tip(root, op))
  {
    match op
    case CreateFor(b) =>
      CreateKeepsOrderly(m, b);
      if b.prev != root {
        SavedIsBelow(m, root, b.prev);
      }
    case SaveFor(b, o) => SaveKeepsOrderly(m, b, o);
    case FinalizeTo(b) => FinalizeKeepsGood(m, root, b);
  }

  // --------------------------------------------------------------------------- builders

  /** The newest `k` references lead to the last finalized block; the others will never be saved again. */
  ghost predicate Rooted(refs: seq<Block>, k: nat, m: Manager, root: Block) {
    && Fits(refs, k, m)
    && (k > 0 ==> refs[k - 1].Child? && refs[k - 1].prev == root)
    && forall i :: k <= i < |refs| ==> !Below(root, refs[i])
  }

  lemma {:induction false} NewBuilderIsRooted(m: Manager, root: Block, x: Block)
    requires Good(m, root)
    ensures Rooted(Refs(m, x), |Refs(m, x)|, m, root)
    decreases x
  {
    NewBuilderFits(m, x);
    if x in m.snaps {
      SavedIsBelow(m, root, x);
      if x.prev == root {
        RootIsUnknown(m, root);
      } else {
        PrevIsKnown(m, root, x);
        NewBuilderIsRooted(m, root, x.prev);
      }
    }
  }

  /** From any reference with a snapshot on, the references are the path. */
  lemma FirstOfSlice(refs: seq<Block>, i: nat, k: nat)
    requires i < k <= |refs|
    ensures refs[i..k] == [refs[i]] + refs[i + 1..k]
  {
  }

  lemma {:induction false} RefsArePath(refs: seq<Block>, k: nat, m: Manager, root: Block, i: nat)
    requires Good(m, root) && Rooted(refs, k, m, root) && i < k
    ensures refs[i] in m.parent && refs[i].Child? && Up(m, refs[i]) == refs[i..k] && Below(root, refs[i])
    decreases k - i
  {
    SavedIsBelow(m, root, refs[i]);
    if i + 1 < k {
      ChainStep(refs, i);
      RefsArePath(refs, k, m, root, i + 1);
      FirstOfSlice(refs, i, k);
    } else {
      RootIsUnknown(m, root);
    }
  }

  lemma OwnPathIsOwn(refs: seq<Block>, k: nat, m: Manager, root: Block, b: Block) returns (j: nat)
    requires Good(m, root) && Rooted(refs, k, m, root) && b in m.snaps && b in refs
    ensures j < k && refs[j] == b && OnlyOwn(m, b, refs) && refs[j..k] == Commits(m, b)
  {
    j := IndexOf(refs, b);
    RefsArePath(refs, k, m, root, j);
    SavedSucceeds(m, root, b);
    FirstCommitted(m, b);
  }

  lemma FinalizeOwn(refs: seq<Block>, k: nat, m: Manager, root: Block, b: Block) returns (j: nat)
    requires Good(m, root) && Rooted(refs, k, m, root) && b in m.snaps && b in refs
    ensures j < k && Rooted(refs, j, Finalize(m, b).0, b) && SameViews(refs, m, Finalize(m, b).0)
  {
    j := OwnPathIsOwn(refs, k, m, root, b);
    FitsAfterwards(m, b, refs, k, j);
    RootIsNotSaved(m, b);
    var t := FinalizeKeepsViews(m, b, refs, k);
    if j > 0 {
      ChainStep(refs, j - 1);
    }
    forall i | j <= i < |refs| ensures !Below(b, refs[i]) {
      NotBelowBehind(refs, j, i);
    }
  }

  lemma NotBelowBehind(refs: seq<Block>, j: nat, i: nat)
    requires IsChain(refs) && j <= i < |refs|
    ensures !Below(refs[j], refs[i])
  {
    ChainHeights(refs, i);
    ChainHeights(refs, j);
    if Below(refs[j], refs[i]) {
      BelowIsHigher(refs[j], refs[i]);
    }
  }

  /** Finalizing a block that is none of the references leaves the builder nothing but the finalized state. */
  lemma FinalizeElsewhere(refs: seq<Block>, k: nat, m: Manager, root: Block, b: Block)
    requires Good(m, root) && Rooted(refs, k, m, root) && b in m.snaps && b !in refs
    ensures Rooted(refs, 0, Finalize(m, b).0, b) && Found(refs, Finalize(m, b).0.snaps) == []
  {
    FinalizeKeepsGood(m, root, b);
    SavedIsBelow(m, root, b);
    forall i | 0 <= i < |refs| ensures !Below(b, refs[i]) {
      if Below(b, refs[i]) {
        BelowTransitive(root, b, refs[i]);
        RefsArePath(refs, k, m, root, i);
        AllReach(m, root, refs[i]);
        UpIsPath(m, refs[i]);
        PathIsBetween(root, refs[i], b);
      }
    }
    FoundIsNewestPart(refs, 0, Finalize(m, b).0);
  }

  lemma SavedIsNoReference(refs: seq<Block>, k: nat, m: Manager, root: Block, b: Block)
    requires Good(m, root) && Rooted(refs, k, m, root) && b in m.parent && b !in m.snaps
    ensures b !in refs
  {
  }

  lemma NextForBuilderOfNode(refs: seq<Block>, k: nat, m: Manager, root: Block, op: Op) returns (j: nat)
    requires Good(m, root) && Rooted(refs, k, m, root) && Legal(m, root, op)
    ensures Rooted(refs, j, Next(m, op), Tip(root, op)) && (k == 0 ==> j == 0)
    ensures if op.FinalizeTo? && op.b !in refs then j == 0 else SameViews(refs, m, Next(m, op))
  {
    match op
    case CreateFor(b) => j := k;
    case SaveFor(b, o) =>
      SavedIsNoReference(refs, k, m, root, b);
      SaveKeepsViews(m, b, o, refs, k);
      j := k;
    case FinalizeTo(b) =>
      if b in refs {
        j := FinalizeOwn(refs, k, m, root, b);
      } else {
        FinalizeElsewhere(refs, k, m, root, b);
        j := 0;
      }
  }

  // ------------------------------------------------------------------------------- runs

  ghost predicate LegalRun(m: Manager, root: Block, run: seq<Op>)
    decreases |run|
  {
    run == [] || (Legal(m, root, run[0]) && LegalRun(Next(m, run[0]), Tip(root, run[0]), run[1..]))
  }

  ghost function After(m: Manager, root: Block, run: seq<Op>): (Manager, Block)
    requires LegalRun(m, root, run)
    decreases |run|
  {
    if run == [] then (m, root) else After(Next(m, run[0]), Tip(root, run[0]), run[1..])
  }

  lemma {:induction false} RunKeepsGood(m: Manager, root: Block, run: seq<Op>)
    requires Good(m, root) && LegalRun(m, root, run)
    ensures Good(After(m, root, run).0, After(m, root, run).1)
    decreases |run|
  {
    if run != [] {
      NextKeepsGood(m, root, run[0]);
      RunKeepsGood(Next(m, run[0]), Tip(root, run[0]), run[1..]);
    }
  }

  /** Every finalized block of the run is one of the builder's references. */
  predicate StaysOn(run: seq<Op>, refs: seq<Block>) {
    run == [] || ((run[0].FinalizeTo? ==> run[0].b in refs) && StaysOn(run[1..], refs))
  }

  lemma {:induction false} BuilderOverRun(refs: seq<Block>, k: nat, m: Manager, root: Block, run: seq<Op>)
    returns (j: nat)
    requires Good(m, root) && Rooted(refs, k, m, root) && LegalRun(m, root, run)
    ensures Rooted(refs, j, After(m, root, run).0, After(m, root, run).1) && (k == 0 ==> j == 0)
    ensures if StaysOn(run, refs) then SameViews(refs, m, After(m, root, run).0) else j == 0
    decreases |run|
  {
    if run == [] {
      j := k;
    } else {
      NextKeepsGood(m, root, run[0]);
      var i := NextForBuilderOfNode(refs, k, m, root, run[0]);
      j := BuilderOverRun(refs, i, Next(m, run[0]), Tip(root, run[0]), run[1..]);
    }
  }

  /**
   A manager starts empty on block `root` and goes through the calls `before`; then the storage up
   to block `x` is built, and the calls `run` follow.  As long as only blocks of its own path are
   finalized, the sessions of that storage read what they read at first; from the first other
   finalization on they read the finalized state alone.
   */
  lemma ViewIsStable(base: Stores, root: Block, before: seq<Op>, x: Block, run: seq<Op>)
    requires LegalRun(Empty(base), root, before)
    requires LegalRun(After(Empty(base), root, before).0, After(Empty(base), root, before).1, run)
    ensures var (m, tip) := After(Empty(base), root, before);
            var refs, after := Refs(m, x), After(m, tip, run).0;
            if StaysOn(run, refs) then SameViews(refs, m, after) else Found(refs, after.snaps) == []
  {
    EmptyIsGood(base, root);
    RunKeepsGood(Empty(base), root, before);
    var (m, tip) := After(Empty(base), root, before);
    var refs := Refs(m, x);
    NewBuilderIsRooted(m, tip, x);
    var j := BuilderOverRun(refs, |refs|, m, tip, run);
    FoundIsNewestPart(refs, j, After(m, tip, run).0);
  }
}
