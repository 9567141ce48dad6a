/**
 What a session builder sees while blocks are created, saved, finalized and
 discarded around it, in any order the storage manager allows.
 */
module SessionViews {
  import opened Wrappers
  import opened Bytes
  import opened BlockTree
  import opened NomtSessions
  import opened Overlays
  import opened StorageManager
  import opened Finalization

  /** The references for a storage up to `x`: as long as there is a snapshot, newest first. */
  function Refs(m: Manager, x: Block): seq<Block> {
    if x !in m.snaps then []
    else [x] + if x in m.parent && x.Child? then Refs(m, x.prev) else []
  }

  /** Each reference is the parent of the one before it. */
  predicate IsChain(refs: seq<Block>) {
    |refs| <= 1 || (refs[0].Child? && refs[0].prev == refs[1] && IsChain(refs[1..]))
  }

  /** Exactly the newest `k` references have a snapshot. */
  ghost predicate Fits(refs: seq<Block>, k: nat, m: Manager) {
    && k <= |refs| && IsChain(refs)
    && (forall i :: 0 <= i < k ==> refs[i] in m.snaps)
    && forall i :: k <= i < |refs| ==> refs[i] !in m.snaps
  }

  lemma {:induction false} NewBuilderFits(m: Manager, x: Block)
    ensures Fits(Refs(m, x), |Refs(m, x)|, m)
    ensures Refs(m, x) != [] ==> Refs(m, x)[0] == x
    decreases x
  {
    if x in m.snaps && x in m.parent && x.Child? {
      NewBuilderFits(m, x.prev);
    }
  }

  lemma {:induction false} FoundAll(refs: seq<Block>, all: map<Block, StateOverlay>)
    requires forall i :: 0 <= i < |refs| ==> refs[i] in all
    ensures |Found(refs, all)| == |refs| && forall i :: 0 <= i < |refs| ==> Found(refs, all)[i] == all[refs[i]]
  {
    if refs != [] {
      FoundAll(refs[1..], all);
    }
  }

  lemma {:induction false} FoundNone(refs: seq<Block>, all: map<Block, StateOverlay>)
    requires forall i :: 0 <= i < |refs| ==> refs[i] !in all
    ensures Found(refs, all) == []
  {
    if refs != [] {
      FoundNone(refs[1..], all);
    }
  }

  /** The overlays a session finds are those of the newest `k` references, without a gap. */
  lemma FoundIsNewestPart(refs: seq<Block>, k: nat, m: Manager)
    requires Fits(refs, k, m)
    ensures Found(refs, m.snaps) == Found(refs[..k], m.snaps) && |Found(refs, m.snaps)| == k
    ensures forall i :: 0 <= i < k ==> refs[i] in m.snaps && Found(refs, m.snaps)[i] == m.snaps[refs[i]]
  {
    FoundAtFront(refs, k, m.snaps);
    FoundAll(refs[..k], m.snaps);
  }

  // ------------------------------------------------------------------------- views

  function UserView(refs: seq<Block>, m: Manager, key: KeyPath): Option<Value> {
    View(Users(Found(refs, m.snaps)), m.base.user, key)
  }

  function KernelView(refs: seq<Block>, m: Manager, key: KeyPath): Option<Value> {
    View(Kernels(Found(refs, m.snaps)), m.base.kernel, key)
  }

  ghost predicate SameViews(refs: seq<Block>, a: Manager, b: Manager) {
    forall key ::
      UserView(refs, a, key) == UserView(refs, b, key) && KernelView(refs, a, key) == KernelView(refs, b, key)
  }

  /** Overlays, newest first, committed from the oldest on. */
  function CommitAll(base: Store, overlays: seq<Overlay>): Store {
    if overlays == [] then base else Apply(CommitAll(base, overlays[1..]), overlays[0])
  }

  /** Committing any number of overlays underneath a session does not show. */
  lemma {:induction false} CommitAllUnderneath(over: seq<Overlay>, base: Store, overlays: seq<Overlay>, key: KeyPath)
    ensures View(over, CommitAll(base, overlays), key) == View(over + overlays, base, key)
    decreases |overlays|
  {
    if overlays == [] {
      assert over + overlays == over;
    } else {
      CommitUnderneath(over, CommitAll(base, overlays[1..]), overlays[0], key);
      CommitAllUnderneath(over + [overlays[0]], base, overlays[1..], key);
      assert over + [overlays[0]] + overlays[1..] == over + overlays;
    }
  }

  lemma {:induction false} PathIsCommitted(base: Stores, path: seq<Block>, snaps: map<Block, StateOverlay>)
    requires forall h :: h in path ==> h in snaps
    ensures Committed(base, path, snaps).user == CommitAll(base.user, Users(Found(path, snaps)))
    ensures Committed(base, path, snaps).kernel == CommitAll(base.kernel, Kernels(Found(path, snaps)))
    decreases |path|
  {
    if path != [] {
      PathIsCommitted(base, path[1..], snaps);
      var rest := Found(path[1..], snaps);
      assert Found(path, snaps) == [snaps[path[0]]] + rest;
      assert Users(Found(path, snaps))[1..] == Users(rest);
      assert Kernels(Found(path, snaps))[1..] == Kernels(rest);
    }
  }

  lemma {:induction false} FoundFrame(refs: seq<Block>, a: map<Block, StateOverlay>, b: map<Block, StateOverlay>)
    requires forall i :: 0 <= i < |refs| ==>
                           (refs[i] in a <==> refs[i] in b) && (refs[i] in a ==> a[refs[i]] == b[refs[i]])
    ensures Found(refs, a) == Found(refs, b)
  {
    if refs != [] {
      FoundFrame(refs[1..], a, b);
    }
  }

  lemma FoundAtFront(refs: seq<Block>, k: nat, all: map<Block, StateOverlay>)
    requires k <= |refs| && forall i :: k <= i < |refs| ==> refs[i] !in all
    ensures Found(refs, all) == Found(refs[..k], all)
  {
    assert refs == refs[..k] + refs[k..];
    FoundAppend(refs[..k], refs[k..], all);
    FoundNone(refs[k..], all);
  }

  lemma FoundByParts(refs: seq<Block>, j: nat, k: nat, a: map<Block, StateOverlay>, b: map<Block, StateOverlay>)
    requires j <= k <= |refs|
    requires forall i :: 0 <= i < j ==> refs[i] in a && refs[i] in b && a[refs[i]] == b[refs[i]]
    requires forall i :: k <= i < |refs| ==> refs[i] !in a
    requires forall i :: j <= i < |refs| ==> refs[i] !in b
    ensures Found(refs, a) == Found(refs, b) + Found(refs[j..k], a)
  {
    FoundAtFront(refs, k, a);
    FoundAtFront(refs, j, b);
    assert refs[..k] == refs[..j] + refs[j..k];
    FoundAppend(refs[..j], refs[j..k], a);
    FoundFrame(refs[..j], a, b);
  }

  lemma NamespacesSplit(a: seq<StateOverlay>, b: seq<StateOverlay>)
    ensures Users(a + b) == Users(a) + Users(b) && Kernels(a + b) == Kernels(a) + Kernels(b)
  {
  }

  lemma ViewsByParts(refs: seq<Block>, m: Manager, after: Manager, now: seq<StateOverlay>, gone: seq<StateOverlay>)
    requires Found(refs, m.snaps) == now + gone && Found(refs, after.snaps) == now
    requires after.base.user == CommitAll(m.base.user, Users(gone))
    requires after.base.kernel == CommitAll(m.base.kernel, Kernels(gone))
    ensures SameViews(refs, m, after)
  {
    NamespacesSplit(now, gone);
    forall key ensures UserView(refs, m, key) == UserView(refs, after, key)
    {
      CommitAllUnderneath(Users(now), m.base.user, Users(gone), key);
    }
    forall key ensures KernelView(refs, m, key) == KernelView(refs, after, key)
    {
      CommitAllUnderneath(Kernels(now), m.base.kernel, Kernels(gone), key);
    }
  }

  // --------------------------------------------------------------- positions on a chain

  lemma {:induction false} ChainHeights(refs: seq<Block>, i: nat)
    requires IsChain(refs) && i < |refs|
    ensures Height(refs[i]) + i == Height(refs[0])
    decreases i
  {
    if i > 0 {
      ChainHeights(refs[1..], i - 1);
    }
  }

  lemma {:induction false} ChainStep(refs: seq<Block>, i: nat)
    requires IsChain(refs) && i + 1 < |refs|
    ensures refs[i].Child? && refs[i].prev == refs[i + 1]
    decreases i
  {
    if i > 0 {
      ChainStep(refs[1..], i - 1);
    }
  }

  lemma {:induction false} ChainIsBelow(refs: seq<Block>, i: nat, j: nat)
    requires IsChain(refs) && i < j < |refs|
    ensures Below(refs[j], refs[i])
    decreases j - i
  {
    ChainStep(refs, i);
    if i + 1 < j {
      ChainIsBelow(refs, i + 1, j);
    }
  }

  /** Another chain of which all blocks are in `refs` lies in it in one piece. */
  lemma PieceOfChain(refs: seq<Block>, done: seq<Block>, j: nat, i: nat)
    requires IsChain(refs) && IsChain(done) && i < |done| && done[i] in refs
    requires j < |refs| && refs[j] == done[0]
    ensures j + i < |refs| && refs[j + i] == done[i]
  {
    var t :| 0 <= t < |refs| && refs[t] == done[i];
    ChainHeights(refs, t);
    ChainHeights(refs, j);
    ChainHeights(done, i);
  }

  lemma IsOnePiece(refs: seq<Block>, done: seq<Block>) returns (j: nat)
    requires IsChain(refs) && IsChain(done) && done != []
    requires forall h :: h in done ==> h in refs
    ensures j + |done| <= |refs| && refs[j..j + |done|] == done
  {
    assert done[0] in done;
    j := IndexOf(refs, done[0]);
    forall i | 0 <= i < |done| ensures j + i < |refs| && refs[j + i] == done[i] {
      assert done[i] in done;
      PieceOfChain(refs, done, j, i);
    }
    PieceOfChain(refs, done, j, |done| - 1);
  }

  lemma NotFurtherBack(refs: seq<Block>, i: nat, j: nat, k: nat)
    requires IsChain(refs) && i < j <= k <= |refs|
    ensures refs[i] !in refs[j..k]
  {
    forall t | j <= t < k ensures refs[t] != refs[i] {
      ChainHeights(refs, i);
      ChainHeights(refs, t);
    }
  }

  lemma OneMoreOnChain(h: Block, refs: seq<Block>)
    requires refs != [] && IsChain(refs) && h.Child? && h.prev == refs[0]
    ensures IsChain([h] + refs)
  {
    assert ([h] + refs)[1..] == refs;
  }

  lemma {:induction false} UpIsChain(m: Manager, b: Block)
    requires b.Child?
    ensures IsChain(Up(m, b)) && Last(Up(m, b)).Child? && Last(Up(m, b)).prev == RootOf(m, b)
    decreases b
  {
    if b.prev.Child? && b.prev in m.parent {
      UpIsChain(m, b.prev);
      OneMoreOnChain(b, Up(m, b.prev));
    }
  }

  function Last(path: seq<Block>): Block
    requires path != []
  {
    path[|path| - 1]
  }

  lemma {:induction false} OldEndIsChain(path: seq<Block>, snaps: map<Block, StateOverlay>)
    requires IsChain(path)
    ensures var done := OldestSaved(path, snaps);
            IsChain(done) && (done != [] ==> Last(done) == Last(path))
  {
    if path != [] {
      OldEndIsChain(path[1..], snaps);
      OldestSavedIsAll(path[1..], snaps);
      assert path == [path[0]] + path[1..];
    }
  }

  /** What a call commits is the old end of the path. */
  lemma CommitsIsOldEnd(m: Manager, b: Block)
    requires Commits(m, b) != []
    ensures b.Child? && b in m.snaps
    ensures var done := Commits(m, b);
            IsChain(done) && Last(done).Child? && Last(done).prev == RootOf(m, b)
  {
    UpIsChain(m, b);
    OldEndIsChain(Up(m, b), m.snaps);
  }

  // --------------------------------------------------------------------- finalizing

  /** Every block that the call commits is one of the builder's references. */
  predicate OnlyOwn(m: Manager, b: Block, refs: seq<Block>) {
    forall h :: h in Commits(m, b) ==> h in refs
  }

  lemma IndexOf(refs: seq<Block>, x: Block) returns (j: nat)
    requires x in refs
    ensures j < |refs| && refs[j] == x
  {
    j :| 0 <= j < |refs| && refs[j] == x;
  }

  /** What the committed blocks build on is a reference that still has a snapshot. */
  predicate RootIsRead(m: Manager, b: Block, refs: seq<Block>) {
    Commits(m, b) != [] && RootOf(m, b) in m.snaps && RootOf(m, b) in refs
  }

  /** If that is not so, there is no reference with a snapshot behind the blocks that are committed. */
  lemma NothingBehind(m: Manager, b: Block, refs: seq<Block>, k: nat, end: nat)
    requires Fits(refs, k, m) && Commits(m, b) != [] && !RootIsRead(m, b, refs)
    requires 0 < end <= |refs| && refs[end - 1] == Last(Commits(m, b))
    ensures k <= end
  {
    CommitsIsOldEnd(m, b);
    if end < k {
      ChainStep(refs, end - 1);
    }
  }

  /** Then what is committed is the old end of the references that still have a snapshot. */
  lemma OwnOldEnd(m: Manager, b: Block, refs: seq<Block>, k: nat) returns (j: nat)
    requires Fits(refs, k, m) && OnlyOwn(m, b, refs) && Commits(m, b) != [] && !RootIsRead(m, b, refs)
    ensures j < k && refs[j..k] == Commits(m, b)
  {
    j := CommitsAreAPiece(m, b, refs);
    NothingBehind(m, b, refs, k, j + |Commits(m, b)|);
    assert refs[j + |Commits(m, b)| - 1] in m.snaps;
  }

  lemma CommitsAreAPiece(m: Manager, b: Block, refs: seq<Block>) returns (j: nat)
    requires IsChain(refs) && OnlyOwn(m, b, refs) && Commits(m, b) != []
    ensures j + |Commits(m, b)| <= |refs| && refs[j..j + |Commits(m, b)|] == Commits(m, b)
    ensures refs[j + |Commits(m, b)| - 1] == Last(Commits(m, b)) && Last(Commits(m, b)) in m.snaps
  {
    var done := Commits(m, b);
    CommitsIsOldEnd(m, b);
    j := IsOnePiece(refs, done);
    LastOfPiece(refs, j, done);
    CommittedAreSaved(m, b, Last(done));
  }

  lemma LastOfPiece(refs: seq<Block>, j: nat, done: seq<Block>)
    requires done != [] && j + |done| <= |refs| && refs[j..j + |done|] == done
    ensures refs[j + |done| - 1] == Last(done)
  {
    assert refs[j..j + |done|][|done| - 1] == refs[j + |done| - 1];
  }

  lemma CommittedAreSaved(m: Manager, b: Block, h: Block)
    requires h in Commits(m, b)
    ensures h in m.snaps
  {
  }

  /** What a call leaves of the snapshots, and what it adds to the databases. */
  lemma AfterFinalize(m: Manager, b: Block, h: Block)
    ensures var after := Finalize(m, b).0;
            && after.base == Committed(m.base, Commits(m, b), m.snaps)
            && (h in after.snaps <==>
                h in m.snaps && h !in Commits(m, b) && !(Succeeds(m, b) && h in Discards(m, b)))
            && (h in after.snaps ==> after.snaps[h] == m.snaps[h])
  {
    if Succeeds(m, b) {
      OldestSavedIsAll(Up(m, b), m.snaps);
    }
  }

  lemma FirstCommitted(m: Manager, b: Block)
    requires Succeeds(m, b)
    ensures Commits(m, b) == Up(m, b) && Commits(m, b)[0] == b
  {
    OldestSavedIsAll(Up(m, b), m.snaps);
  }

  /** References newer than the committed ones keep their snapshots. */
  lemma NewerStay(m: Manager, b: Block, refs: seq<Block>, k: nat, j: nat, i: nat)
    requires Fits(refs, k, m) && i < j < k && refs[j..k] == Commits(m, b)
    ensures refs[i] in Finalize(m, b).0.snaps
  {
    AfterFinalize(m, b, refs[i]);
    NotFurtherBack(refs, i, j, k);
    if Succeeds(m, b) {
      FirstCommitted(m, b);
      assert refs[j] == refs[j..k][0];
      ChainIsBelow(refs, i, j);
      BelowIsNotDiscarded(m, b, refs[i]);
    }
  }

  lemma BelowIsNotDiscarded(m: Manager, b: Block, h: Block)
    requires b.Child? && Below(b, h)
    ensures h !in Discards(m, b)
  {
    if h in Discards(m, b) {
      DroppedIsBeside(m, b, h);
    }
  }

  lemma FitsAfterwards(m: Manager, b: Block, refs: seq<Block>, k: nat, j: nat)
    requires Fits(refs, k, m) && j < k && refs[j..k] == Commits(m, b)
    ensures Fits(refs, j, Finalize(m, b).0)
  {
    var after := Finalize(m, b).0;
    forall i | 0 <= i < j ensures refs[i] in after.snaps {
      NewerStay(m, b, refs, k, j, i);
    }
    forall i | j <= i < |refs| ensures refs[i] !in after.snaps {
      AfterFinalize(m, b, refs[i]);
      if i < k {
        assert refs[j..k][i - j] == refs[i];
      }
    }
  }

  /** What was found before is what is found now, and what was committed. */
  lemma FoundSplits(m: Manager, b: Block, refs: seq<Block>, k: nat, j: nat)
    requires Fits(refs, k, m) && j < k && refs[j..k] == Commits(m, b)
    ensures Found(refs, m.snaps) == Found(refs, Finalize(m, b).0.snaps) + Found(Commits(m, b), m.snaps)
  {
    FitsAfterwards(m, b, refs, k, j);
    forall i | 0 <= i < j ensures refs[i] in m.snaps && m.snaps[refs[i]] == Finalize(m, b).0.snaps[refs[i]] {
      AfterFinalize(m, b, refs[i]);
    }
    FoundByParts(refs, j, k, m.snaps, Finalize(m, b).0.snaps);
  }

  /**
   A call that commits only references of a builder, and those down to the oldest with a snapshot,
   changes nothing its sessions read.
   */
  lemma FinalizeKeepsViews(m: Manager, b: Block, refs: seq<Block>, k: nat) returns (j: nat)
    requires Fits(refs, k, m) && OnlyOwn(m, b, refs) && !RootIsRead(m, b, refs)
    ensures j <= k && SameViews(refs, m, Finalize(m, b).0) && Fits(refs, j, Finalize(m, b).0)
  {
    var after, done := Finalize(m, b).0, Commits(m, b);
    if done == [] {
      NothingHappens(m, b);
      j := k;
    } else {
      j := OwnOldEnd(m, b, refs, k);
      FitsAfterwards(m, b, refs, k, j);
      FoundSplits(m, b, refs, k, j);
      AfterFinalize(m, b, b);
      PathIsCommitted(m.base, done, m.snaps);
      ViewsByParts(refs, m, after, Found(refs, after.snaps), Found(done, m.snaps));
    }
  }

  lemma NothingHappens(m: Manager, b: Block)
    requires Commits(m, b) == []
    ensures Finalize(m, b).0 == m
  {
    if Succeeds(m, b) {
      FirstCommitted(m, b);
    }
    assert SetOf([]) == {};
  }

  // --------------------------------------------------------------- and only such a call

  type Contents = map<Block, StateOverlay>

  const PROBE: KeyPath := []

  /** One block writes the probe, the others write nothing. */
  function ProbeSnaps(snaps: map<Block, StateOverlay>, c: Block, v: Value): map<Block, StateOverlay> {
    map h | h in snaps :: if h == c then StateOverlay(map[PROBE := Some(v)], map[]) else StateOverlay(map[], map[])
  }

  lemma {:induction false} EmptyOverlaysAreSeenThrough(refs: seq<Block>, snaps: map<Block, StateOverlay>, base: Store)
    requires forall h :: h in refs && h in snaps ==> snaps[h].user == map[]
    ensures View(Users(Found(refs, snaps)), base, PROBE) == Get(base, PROBE)
  {
    if refs != [] {
      EmptyOverlaysAreSeenThrough(refs[1..], snaps, base);
      var rest := Found(refs[1..], snaps);
      if refs[0] in snaps {
        assert Found(refs, snaps) == [snaps[refs[0]]] + rest;
        assert Users(Found(refs, snaps))[1..] == Users(rest);
      } else {
        assert Found(refs, snaps) == rest;
      }
    }
  }

  lemma {:induction false} ProbeIsCommitted(
      base: Stores, done: seq<Block>, snaps: map<Block, StateOverlay>, c: Block, v: Value)
    requires c in done && c in snaps && snaps[c].user == map[PROBE := Some(v)]
    requires forall h :: h in done ==> h in snaps && (h != c ==> snaps[h].user == map[])
    ensures Get(Committed(base, done, snaps).user, PROBE) == Some(v)
    decreases |done|
  {
    if done[0] != c {
      ProbeIsCommitted(base, done[1..], snaps, c, v);
    }
  }

  /** With these snapshots in place of the manager's own, the call keeps the builder's views. */
  ghost predicate KeptWith(m: Manager, snaps: map<Block, StateOverlay>, b: Block, refs: seq<Block>) {
    SameViews(refs, m.(snaps := snaps), Finalize(m.(snaps := snaps), b).0)
  }

  /** Which blocks are committed does not depend on what is in the snapshots. */
  lemma {:induction false} SameOldEnd(path: seq<Block>, a: map<Block, StateOverlay>, b: map<Block, StateOverlay>)
    requires a.Keys == b.Keys
    ensures OldestSaved(path, a) == OldestSaved(path, b)
  {
    if path != [] {
      SameOldEnd(path[1..], a, b);
    }
  }

  lemma {:induction false} SameUp(m: Manager, snaps: map<Block, StateOverlay>, b: Block)
    requires b.Child?
    ensures Up(m.(snaps := snaps), b) == Up(m, b)
    decreases b
  {
    if b.prev.Child? && b.prev in m.parent {
      SameUp(m, snaps, b.prev);
    }
  }

  lemma SameCommits(m: Manager, snaps: map<Block, StateOverlay>, b: Block)
    requires snaps.Keys == m.snaps.Keys
    ensures Commits(m.(snaps := snaps), b) == Commits(m, b)
  {
    if b.Child? {
      SameUp(m, snaps, b);
      SameOldEnd(Up(m, b), snaps, m.snaps);
    }
  }

  /** A committed block that is none of the references shows, if it writes something. */
  lemma ForeignCommitShows(m: Manager, b: Block, refs: seq<Block>, c: Block)
    requires c in Commits(m, b) && c !in refs
    ensures exists snaps: Contents :: snaps.Keys == m.snaps.Keys && !KeptWith(m, snaps, b, refs)
  {
    var v: Value := if Get(m.base.user, PROBE) == Some([0]) then [1] else [0];
    var snaps := ProbeSnaps(m.snaps, c, v);
    var n := m.(snaps := snaps);
    assert snaps.Keys == m.snaps.Keys;
    SameCommits(m, snaps, b);
    var after := Finalize(n, b).0;
    AfterFinalize(n, b, c);
    ProbeIsCommitted(n.base, Commits(n, b), snaps, c, v);
    EmptyOverlaysAreSeenThrough(refs, snaps, n.base.user);
    forall h | h in refs && h in after.snaps ensures after.snaps[h].user == map[] {
      AfterFinalize(n, b, h);
    }
    EmptyOverlaysAreSeenThrough(refs, after.snaps, after.base.user);
    assert UserView(refs, n, PROBE) != UserView(refs, after, PROBE);
    assert !KeptWith(m, snaps, b, refs);
  }

  /** The newest reference that writes the probe is what is read of it. */
  lemma {:induction false} FirstWriterIsRead(
      refs: seq<Block>, snaps: map<Block, StateOverlay>, base: Store, i: nat, v: Value)
    requires i < |refs| && refs[i] in snaps && snaps[refs[i]].user == map[PROBE := Some(v)]
    requires forall t :: 0 <= t < i && refs[t] in snaps ==> snaps[refs[t]].user == map[]
    ensures View(Users(Found(refs, snaps)), base, PROBE) == Some(v)
  {
    var rest := Found(refs[1..], snaps);
    if i > 0 {
      FirstWriterIsRead(refs[1..], snaps, base, i - 1, v);
    }
    if refs[0] in snaps {
      assert Found(refs, snaps) == [snaps[refs[0]]] + rest;
      assert Users(Found(refs, snaps))[0] == snaps[refs[0]].user && Users(Found(refs, snaps))[1..] == Users(rest);
    } else {
      assert Found(refs, snaps) == rest;
    }
  }

  /** One block writes the probe, the block it builds on wrote it before. */
  function TwoProbes(snaps: map<Block, StateOverlay>, c: Block, root: Block): map<Block, StateOverlay> {
    map h | h in snaps :: if h == c then StateOverlay(map[PROBE := Some([2])], map[])
                          else if h == root then StateOverlay(map[PROBE := Some([1])], map[])
                          else StateOverlay(map[], map[])
  }

  /** On a chain, the one block right before `r` is the one that builds on it. */
  lemma BuildsRightBefore(refs: seq<Block>, c: Block, r: Block) returns (i: nat)
    requires IsChain(refs) && c in refs && r in refs && c.Child? && c.prev == r
    ensures i + 1 < |refs| && refs[i] == c && refs[i + 1] == r
    ensures forall t :: 0 <= t < i ==> refs[t] != c && refs[t] != r
  {
    i := IndexOf(refs, c);
    var j := IndexOf(refs, r);
    ChainHeights(refs, i);
    ChainHeights(refs, j);
    forall t | 0 <= t < i ensures refs[t] != c && refs[t] != r {
      ChainHeights(refs, t);
    }
  }

  /** If the root of what is committed is read, it shows once what covered it is committed below it. */
  lemma RootShows(m: Manager, b: Block, refs: seq<Block>)
    requires IsChain(refs) && OnlyOwn(m, b, refs) && RootIsRead(m, b, refs)
    ensures exists snaps: Contents :: snaps.Keys == m.snaps.Keys && !KeptWith(m, snaps, b, refs)
  {
    CommitsIsOldEnd(m, b);
    var c, root := Last(Commits(m, b)), RootOf(m, b);
    CommittedAreSaved(m, b, c);
    var i := BuildsRightBefore(refs, c, root);
    var snaps := TwoProbes(m.snaps, c, root);
    assert snaps.Keys == m.snaps.Keys;
    SameCommits(m, snaps, b);
    SameRoot(m, snaps, b);
    RootShowsAt(m.(snaps := snaps), b, refs, i);
    assert !KeptWith(m, snaps, b, refs);
  }

  lemma RootShowsAt(n: Manager, b: Block, refs: seq<Block>, i: nat)
    requires i + 1 < |refs| && refs[i] in Commits(n, b) && b.Child? && refs[i + 1] == RootOf(n, b)
    requires refs[i] in n.snaps && n.snaps[refs[i]].user == map[PROBE := Some([2])]
    requires refs[i + 1] in n.snaps && n.snaps[refs[i + 1]].user == map[PROBE := Some([1])]
    requires forall t :: 0 <= t < i && refs[t] in n.snaps ==> n.snaps[refs[t]].user == map[]
    ensures !SameViews(refs, n, Finalize(n, b).0)
  {
    var after := Finalize(n, b).0;
    FirstWriterIsRead(refs, n.snaps, n.base.user, i, [2]);
    RootIsKept(n, b);
    forall t | 0 <= t < i + 1 && refs[t] in after.snaps ensures after.snaps[refs[t]].user == map[] {
      KeptAsItWas(n, b, refs[t]);
    }
    FirstWriterIsRead(refs, after.snaps, after.base.user, i + 1, [1]);
    assert UserView(refs, n, PROBE) != UserView(refs, after, PROBE);
  }

  lemma KeptAsItWas(n: Manager, b: Block, h: Block)
    requires h in Finalize(n, b).0.snaps
    ensures h in n.snaps && Finalize(n, b).0.snaps[h] == n.snaps[h] && h !in Commits(n, b)
  {
    AfterFinalize(n, b, h);
  }

  lemma RootIsKept(n: Manager, b: Block)
    requires b.Child? && RootOf(n, b) in n.snaps
    ensures var root, after := RootOf(n, b), Finalize(n, b).0;
            root in after.snaps && after.snaps[root] == n.snaps[root]
  {
    AfterFinalize(n, b, RootOf(n, b));
    RootStays(n, b);
    CommitsAreOnPath(n, b, RootOf(n, b));
  }

  lemma CommitsAreOnPath(m: Manager, b: Block, h: Block)
    requires b.Child?
    ensures h in Commits(m, b) ==> h in Up(m, b)
  {
  }

  lemma {:induction false} SameRoot(m: Manager, snaps: map<Block, StateOverlay>, b: Block)
    requires b.Child?
    ensures RootOf(m.(snaps := snaps), b) == RootOf(m, b)
    decreases b
  {
    if b.prev.Child? && b.prev in m.parent {
      SameRoot(m, snaps, b.prev);
    }
  }

  /**
   Whatever the snapshots contain, a call of `finalize` leaves the views of a builder alone,
   if and only if every block it commits is one of the builder's references, and what they build
   on is not one that still has a snapshot.  This holds in whatever state the manager is.
   */
  lemma FinalizeKeepsViewsExactly(m: Manager, b: Block, refs: seq<Block>, k: nat)
    requires Fits(refs, k, m)
    ensures (forall snaps: Contents :: snaps.Keys == m.snaps.Keys ==> KeptWith(m, snaps, b, refs))
            <==> OnlyOwn(m, b, refs) && !RootIsRead(m, b, refs)
  {
    if !OnlyOwn(m, b, refs) {
      var c :| c in Commits(m, b) && c !in refs;
      ForeignCommitShows(m, b, refs, c);
    } else if RootIsRead(m, b, refs) {
      RootShows(m, b, refs);
    } else {
      forall snaps: Contents | snaps.Keys == m.snaps.Keys ensures KeptWith(m, snaps, b, refs) {
        KeptWithAny(m, snaps, b, refs, k);
      }
    }
  }

  lemma KeptWithAny(m: Manager, snaps: Contents, b: Block, refs: seq<Block>, k: nat)
    requires Fits(refs, k, m) && OnlyOwn(m, b, refs) && !RootIsRead(m, b, refs) && snaps.Keys == m.snaps.Keys
    ensures KeptWith(m, snaps, b, refs)
  {
    var n := m.(snaps := snaps);
    SameCommits(m, snaps, b);
    if Commits(m, b) != [] {
      SameRoot(m, snaps, b);
    }
    assert Fits(refs, k, n);
    var j := FinalizeKeepsViews(n, b, refs, k);
  }

  /** If only blocks were saved that had been created, what a path builds on has no snapshot. */
  lemma RootIsNotSaved(m: Manager, b: Block)
    requires SavedAreKnown(m) && Parented(m) && b.Child?
    ensures RootOf(m, b) !in m.snaps
  {
    UpIsPath(m, b);
    assert IsSaved(m, RootOf(m, b)) == (RootOf(m, b) in m.snaps);
  }

  /** In that case it is a matter of the committed blocks alone. */
  lemma KeepsViewsIfAllCreated(m: Manager, b: Block, refs: seq<Block>, k: nat)
    requires SavedAreKnown(m) && Parented(m) && Fits(refs, k, m)
    ensures (forall snaps: Contents :: snaps.Keys == m.snaps.Keys ==> KeptWith(m, snaps, b, refs))
            <==> OnlyOwn(m, b, refs)
  {
    FinalizeKeepsViewsExactly(m, b, refs, k);
    if Commits(m, b) != [] {
      RootIsNotSaved(m, b);
    }
  }

  // -------------------------------------------------------------------- without a gap

  /** The call takes the snapshot of `h` away. */
  predicate Goes(m: Manager, b: Block, h: Block) {
    h in Commits(m, b) || (Succeeds(m, b) && h in Discards(m, b))
  }

  /** A reference goes, and the next one stays because it is what the path builds on. */
  predicate CutsAtRoot(m: Manager, b: Block, refs: seq<Block>) {
    b.Child? && RootOf(m, b) in m.snaps &&
    exists i :: 0 <= i < |refs| - 1 && Goes(m, b, refs[i]) && refs[i + 1] == RootOf(m, b)
  }

  /** With a block, everything it builds on goes, except for what the path builds on. */
  lemma RemovalGoesDown(m: Manager, b: Block, h: Block)
    requires ListsAreRight(m) && Goes(m, b, h)
    ensures b.Child? && h.Child? && (h.prev == RootOf(m, b) || Goes(m, b, h.prev))
  {
    if h in Commits(m, b) {
      CommittedPrev(m, b, h);
    } else {
      FirstCommitted(m, b);
      DiscardedPrev(m, b, h);
      PrevsAreOnPath(m, b, h.prev);
    }
  }

  lemma CommittedPrev(m: Manager, b: Block, h: Block)
    requires h in Commits(m, b)
    ensures b.Child? && h.Child? && (h.prev == RootOf(m, b) || h.prev in Commits(m, b))
  {
    CommitsIsOldEnd(m, b);
    PrevOnChain(Commits(m, b), h);
  }

  lemma PrevOnChain(done: seq<Block>, h: Block)
    requires IsChain(done) && h in done
    ensures h == Last(done) || (h.Child? && h.prev in done)
  {
    var i := IndexOf(done, h);
    if i + 1 < |done| {
      ChainStep(done, i);
      assert done[i + 1] in done;
    }
  }

  lemma GoesExactly(m: Manager, b: Block, h: Block)
    ensures h in Finalize(m, b).0.snaps <==> h in m.snaps && !Goes(m, b, h)
  {
    AfterFinalize(m, b, h);
  }

  lemma {:induction false} NoGapFrom(m: Manager, b: Block, refs: seq<Block>, k: nat, i: nat) returns (j: nat)
    requires ListsAreRight(m) && Fits(refs, k, m) && !CutsAtRoot(m, b, refs) && i <= k
    requires forall t :: 0 <= t < i ==> refs[t] in Finalize(m, b).0.snaps
    ensures j <= k && Fits(refs, j, Finalize(m, b).0)
    decreases k - i
  {
    var after := Finalize(m, b).0;
    if i < k && refs[i] in after.snaps {
      j := NoGapFrom(m, b, refs, k, i + 1);
    } else {
      j := i;
      forall t | i <= t < |refs| ensures refs[t] !in after.snaps {
        GoesExactly(m, b, refs[t]);
        if t < k {
          GoesExactly(m, b, refs[i]);
          GoneFromHere(m, b, refs, k, i, t);
        }
      }
    }
  }

  lemma {:induction false} GoneFromHere(m: Manager, b: Block, refs: seq<Block>, k: nat, i: nat, t: nat)
    requires ListsAreRight(m) && Fits(refs, k, m) && !CutsAtRoot(m, b, refs) && i <= t < k && Goes(m, b, refs[i])
    ensures Goes(m, b, refs[t])
    decreases t
  {
    if i < t {
      GoneFromHere(m, b, refs, k, i, t - 1);
      ChainStep(refs, t - 1);
      RemovalGoesDown(m, b, refs[t - 1]);
      assert refs[t - 1 + 1] == refs[t];
    }
  }

  /** The references that keep their snapshots are the newest ones. */
  lemma FinalizeLeavesNoGap(m: Manager, b: Block, refs: seq<Block>, k: nat) returns (j: nat)
    requires ListsAreRight(m) && Fits(refs, k, m) && !CutsAtRoot(m, b, refs)
    ensures j <= k && Fits(refs, j, Finalize(m, b).0)
  {
    j := NoGapFrom(m, b, refs, k, 0);
  }

  ghost predicate HasNoGap(refs: seq<Block>, m: Manager) { exists j: nat :: Fits(refs, j, m) }

  /** That is so if and only if the call does not take one away from on top of what the path builds on. */
  lemma LeavesNoGapExactly(m: Manager, b: Block, refs: seq<Block>, k: nat)
    requires ListsAreRight(m) && Fits(refs, k, m)
    ensures HasNoGap(refs, Finalize(m, b).0) <==> !CutsAtRoot(m, b, refs)
  {
    if CutsAtRoot(m, b, refs) {
      var i :| 0 <= i < |refs| - 1 && Goes(m, b, refs[i]) && refs[i + 1] == RootOf(m, b);
      GoesExactly(m, b, refs[i]);
      GoesExactly(m, b, refs[i + 1]);
      RootIsKept(m, b);
    } else {
      var j := FinalizeLeavesNoGap(m, b, refs, k);
    }
  }

  /** A call that keeps the views leaves no gap. */
  lemma OwnIsNotCut(m: Manager, b: Block, refs: seq<Block>)
    requires OnlyOwn(m, b, refs) && !CutsAtRoot(m, b, refs) && IsChain(refs)
    ensures !RootIsRead(m, b, refs)
  {
    if RootIsRead(m, b, refs) {
      CommitsIsOldEnd(m, b);
      var c := Last(Commits(m, b));
      assert c in Commits(m, b);
      var i := BuildsRightBefore(refs, c, RootOf(m, b));
      assert Goes(m, b, refs[i]);
    }
  }

  // --------------------------------------------------------------------------- runs

  datatype Op = CreateFor(b: Block) | SaveFor(b: Block, o: StateOverlay) | FinalizeTo(b: Block)

  function Next(m: Manager, op: Op): Manager
    requires op.b.Child?
  {
    match op
    case CreateFor(b) => Created(m, b)
    case SaveFor(b, o) => if CanSave(m, b) then Saved(m, b, o) else m
    case FinalizeTo(b) => Finalize(m, b).0
  }

  lemma NextKeepsSound(m: Manager, op: Op)
    requires Sound(m) && op.b.Child?
    ensures Sound(Next(m, op))
  {
    match op
    case CreateFor(b) => CreateKeepsSound(m, b);
    case SaveFor(b, o) => SaveKeepsOrderly(m, b, o);
    case FinalizeTo(b) => FinalizeKeepsSound(m, b);
  }

  /** Calls in any order; all that is asked is that the blocks they are for have parents. */
  predicate IsRun(run: seq<Op>) { forall i :: 0 <= i < |run| ==> run[i].b.Child? }

  function Exec(m: Manager, run: seq<Op>): Manager
    requires IsRun(run)
    decreases |run|
  {
    if run == [] then m else Exec(Next(m, run[0]), run[1..])
  }

  lemma {:induction false} RunKeepsSound(m: Manager, run: seq<Op>)
    requires Sound(m) && IsRun(run)
    ensures Sound(Exec(m, run))
    decreases |run|
  {
    if run != [] {
      NextKeepsSound(m, run[0]);
      RunKeepsSound(Next(m, run[0]), run[1..]);
    }
  }

  lemma SaveKeepsViews(m: Manager, b: Block, o: StateOverlay, refs: seq<Block>, k: nat)
    requires Fits(refs, k, m) && b !in refs
    ensures Fits(refs, k, Saved(m, b, o)) && SameViews(refs, m, Saved(m, b, o))
  {
    FoundFrame(refs, m.snaps, Saved(m, b, o).snaps);
  }

  /** What is saved shows, for some contents, if and only if it is saved for a reference. */
  lemma SaveKeepsViewsExactly(m: Manager, b: Block, refs: seq<Block>, k: nat)
    requires Fits(refs, k, m) && b !in m.snaps
    ensures (forall snaps: Contents, o :: snaps.Keys == m.snaps.Keys ==>
               SameViews(refs, m.(snaps := snaps), Saved(m.(snaps := snaps), b, o)))
            <==> b !in refs
  {
    if b in refs {
      var v: Value := if Get(m.base.user, PROBE) == Some([0]) then [1] else [0];
      var snaps: Contents := map h | h in m.snaps :: StateOverlay(map[], map[]);
      var n, o := m.(snaps := snaps), StateOverlay(map[PROBE := Some(v)], map[]);
      assert snaps.Keys == m.snaps.Keys;
      EmptyOverlaysAreSeenThrough(refs, n.snaps, n.base.user);
      var i := FirstIndexOf(refs, b);
      FirstWriterIsRead(refs, Saved(n, b, o).snaps, n.base.user, i, v);
      assert UserView(refs, n, PROBE) != UserView(refs, Saved(n, b, o), PROBE);
    } else {
      forall snaps: Contents, o | snaps.Keys == m.snaps.Keys
        ensures SameViews(refs, m.(snaps := snaps), Saved(m.(snaps := snaps), b, o))
      {
        SaveKeepsViews(m.(snaps := snaps), b, o, refs, k);
      }
    }
  }

  lemma {:induction false} FirstIndexOf(refs: seq<Block>, x: Block) returns (i: nat)
    requires x in refs
    ensures i < |refs| && refs[i] == x && forall t :: 0 <= t < i ==> refs[t] != x
  {
    if refs[0] == x {
      i := 0;
    } else {
      var j := FirstIndexOf(refs[1..], x);
      i := j + 1;
      assert forall t :: 0 < t < i ==> refs[t] == refs[1..][t - 1];
    }
  }

  /** No reference gets a snapshot again, and no call opens a gap. */
  predicate Leaves(m: Manager, op: Op, refs: seq<Block>)
    requires op.b.Child?
  {
    && (op.SaveFor? && CanSave(m, op.b) ==> op.b !in refs)
    && (op.FinalizeTo? ==> !CutsAtRoot(m, op.b, refs))
  }

  /** And whatever is committed is one of the references. */
  predicate Harmless(m: Manager, op: Op, refs: seq<Block>)
    requires op.b.Child?
  {
    Leaves(m, op, refs) && (op.FinalizeTo? ==> OnlyOwn(m, op.b, refs))
  }

  lemma NextForBuilder(m: Manager, op: Op, refs: seq<Block>, k: nat) returns (j: nat)
    requires Sound(m) && op.b.Child? && Fits(refs, k, m) && Leaves(m, op, refs)
    ensures j <= k && Fits(refs, j, Next(m, op))
    ensures Harmless(m, op, refs) ==> SameViews(refs, m, Next(m, op))
  {
    match op
    case CreateFor(b) => j := k;
    case SaveFor(b, o) =>
      if CanSave(m, b) {
        SaveKeepsViews(m, b, o, refs, k);
      }
      j := k;
    case FinalizeTo(b) =>
      if OnlyOwn(m, b, refs) {
        OwnIsNotCut(m, b, refs);
        j := FinalizeKeepsViews(m, b, refs, k);
      } else {
        j := FinalizeLeavesNoGap(m, b, refs, k);
      }
  }

  predicate LeavesAlways(m: Manager, run: seq<Op>, refs: seq<Block>)
    requires IsRun(run)
    decreases |run|
  {
    run == [] || (Leaves(m, run[0], refs) && LeavesAlways(Next(m, run[0]), run[1..], refs))
  }

  predicate HarmlessAlways(m: Manager, run: seq<Op>, refs: seq<Block>)
    requires IsRun(run)
    decreases |run|
  {
    run == [] || (Harmless(m, run[0], refs) && HarmlessAlways(Next(m, run[0]), run[1..], refs))
  }

  lemma {:induction false} BuilderOverCalls(m: Manager, run: seq<Op>, refs: seq<Block>, k: nat) returns (j: nat)
    requires Sound(m) && IsRun(run) && Fits(refs, k, m) && LeavesAlways(m, run, refs)
    ensures j <= k && Fits(refs, j, Exec(m, run))
    ensures HarmlessAlways(m, run, refs) ==> SameViews(refs, m, Exec(m, run))
    decreases |run|
  {
    if run == [] {
      j := k;
    } else {
      NextKeepsSound(m, run[0]);
      var i := NextForBuilder(m, run[0], refs, k);
      j := BuilderOverCalls(Next(m, run[0]), run[1..], refs, i);
    }
  }

  /**
   A manager starts empty and goes through any calls; then the storage up to block `x` is built,
   and any calls follow.  As long as no reference is saved anew and no call opens a gap, the
   builder finds a gap-free newest part of its references, the same for both namespaces; and as
   long as only references of its own are committed, its sessions read what they read at first.
   */
  lemma SessionsOverRuns(base: Stores, before: seq<Op>, x: Block, run: seq<Op>)
    requires IsRun(before) && IsRun(run)
    ensures var m := Exec(Empty(base), before);
            var refs, after := Refs(m, x), Exec(m, run);
            && (LeavesAlways(m, run, refs) ==> HasNoGap(refs, after))
            && (HarmlessAlways(m, run, refs) ==> SameViews(refs, m, after))
  {
    EmptyIsOrderly(base);
    RunKeepsSound(Empty(base), before);
    var m := Exec(Empty(base), before);
    var refs := Refs(m, x);
    NewBuilderFits(m, x);
    if HarmlessAlways(m, run, refs) {
      HarmlessLeaves(m, run, refs);
    }
    if LeavesAlways(m, run, refs) {
      var j := BuilderOverCalls(m, run, refs, |refs|);
    }
  }

  lemma {:induction false} HarmlessLeaves(m: Manager, run: seq<Op>, refs: seq<Block>)
    requires IsRun(run) && HarmlessAlways(m, run, refs)
    ensures LeavesAlways(m, run, refs)
    decreases |run|
  {
    if run != [] {
      HarmlessLeaves(Next(m, run[0]), run[1..], refs);
    }
  }

  // ------------------------------------------------------ runs that save what they created

  predicate SavesCreated(m: Manager, op: Op)
    requires op.b.Child?
  {
    op.SaveFor? && CanSave(m, op.b) ==> op.b in m.parent
  }

  lemma NextKeepsKnown(m: Manager, op: Op)
    requires SavedAreKnown(m) && op.b.Child? && SavesCreated(m, op)
    ensures SavedAreKnown(Next(m, op))
  {
    forall h {:trigger IsSaved(Next(m, op), h)} | IsSaved(Next(m, op), h) ensures h in Next(m, op).parent {
      assert IsSaved(m, h) || h == op.b;
    }
  }

  /** In such runs no call opens a gap, whatever it finalizes. */
  lemma NeverCut(m: Manager, b: Block, refs: seq<Block>)
    requires SavedAreKnown(m) && Parented(m)
    ensures !CutsAtRoot(m, b, refs)
  {
    if b.Child? {
      RootIsNotSaved(m, b);
    }
  }

  predicate SavesCreatedAlways(m: Manager, run: seq<Op>)
    requires IsRun(run)
    decreases |run|
  {
    run == [] || (SavesCreated(m, run[0]) && SavesCreatedAlways(Next(m, run[0]), run[1..]))
  }

  lemma {:induction false} CreatedRunsAreNotCut(m: Manager, run: seq<Op>, refs: seq<Block>)
    requires Sound(m) && SavedAreKnown(m) && IsRun(run) && SavesCreatedAlways(m, run)
    requires forall i :: 0 <= i < |run| && run[i].SaveFor? ==> run[i].b !in refs
    ensures LeavesAlways(m, run, refs)
    decreases |run|
  {
    if run != [] {
      NeverCut(m, run[0].b, refs);
      NextKeepsSound(m, run[0]);
      NextKeepsKnown(m, run[0]);
      CreatedRunsAreNotCut(Next(m, run[0]), run[1..], refs);
    }
  }
}
