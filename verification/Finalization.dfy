/** What finalizing a block does to the fork tree, whatever the tree looks like. */
module Finalization {
  import opened Wrappers
  import opened BlockTree
  import opened NomtSessions
  import opened StorageManager

  lemma {:induction false} PrevIn(path: seq<Block>, q: Block)
    requires q in path && q.Child?
    ensures q.prev in Prevs(path)
    decreases |path|
  {
    if q != path[0] {
      PrevIn(path[1..], q);
    }
  }

  lemma {:induction false} PrevOf(path: seq<Block>, p: Block) returns (q: Block)
    requires p in Prevs(path)
    ensures q in path && q.Child? && q.prev == p
    decreases |path|
  {
    if path[0].Child? && path[0].prev == p {
      q := path[0];
    } else {
      q := PrevOf(path[1..], p);
    }
  }

  // -------------------------------------------------------------------- the discards

  /** A discarded block is a sibling of a finalized one, or a child of a discarded one. */
  lemma DiscardedPrev(m: Manager, b: Block, h: Block)
    requires ListsAreRight(m) && b.Child? && h in Discards(m, b)
    ensures h.Child? && (h.prev in Prevs(Up(m, b)) || h.prev in Discards(m, b))
  {
    if h.prev !in Prevs(Up(m, b)) {
      assert IsListed(m, h.prev) && AreChildren(m, h.prev.prev, m.forks[h.prev.prev]);
    }
  }

  /** What is discarded is not on the path and does not build on `b`. */
  lemma {:induction false} DroppedIsBeside(m: Manager, b: Block, h: Block)
    requires b.Child? && Dropped(m, b, h)
    ensures h !in Up(m, b) && h != b && !Below(b, h)
    decreases h
  {
    if h.prev in Prevs(Up(m, b)) {
      var q := PrevOf(Up(m, b), h.prev);
      PathIsNotHigher(m, b, q);
      assert Height(h) == Height(q);
      if Below(b, h) {
        BelowIsHigher(b, h);
      }
    } else {
      DroppedIsBeside(m, b, h.prev);
    }
  }

  lemma RootStays(m: Manager, b: Block)
    requires b.Child?
    ensures RootOf(m, b) !in Discards(m, b) && RootOf(m, b) !in Up(m, b)
  {
    UpIsPath(m, b);
    if RootOf(m, b) in Up(m, b) {
      PathIsBetween(RootOf(m, b), b, RootOf(m, b));
      BelowIsHigher(RootOf(m, b), RootOf(m, b));
    }
  }

  lemma PrevsAreOnPath(m: Manager, b: Block, a: Block)
    requires b.Child?
    ensures a in Prevs(Up(m, b)) <==> (a == RootOf(m, b) || a in Up(m, b)) && a != b
  {
    if a in Prevs(Up(m, b)) {
      var q := PrevOf(Up(m, b), a);
      PathBuildsOnPath(m, b, q);
      UpIsPath(m, b);
      if RootOf(m, b) == b {
        BelowIsHigher(b, b);
      }
    }
    if (a == RootOf(m, b) || a in Up(m, b)) && a != b {
      var q := NextOnPath(m, b, a);
      PrevIn(Up(m, b), q);
    }
  }

  /** The block of the path that builds on `a`. */
  lemma {:induction false} NextOnPath(m: Manager, b: Block, a: Block) returns (p: Block)
    requires b.Child? && (a == RootOf(m, b) || a in Up(m, b)) && a != b
    ensures p in Up(m, b) && p.Child? && p.prev == a
    decreases b
  {
    if b.prev == a {
      p := b;
    } else {
      p := NextOnPath(m, b.prev, a);
    }
  }

  /** A block has one ancestor at each height. */
  lemma SameHeight(c: Block, p: Block, b: Block)
    requires (c == b || Below(c, b)) && (p == b || Below(p, b)) && Height(c) == Height(p)
    ensures c == p
  {
    if c != b {
      BelowIsHigher(c, b);
    }
    if p != b {
      BelowIsHigher(p, b);
    }
    if c != b && p != b && c != p {
      Comparable(c, p, b);
      if Below(c, p) {
        BelowIsHigher(c, p);
      } else {
        BelowIsHigher(p, c);
      }
    }
  }

  /** The listed siblings of finalized blocks are discarded. */
  lemma SiblingGoes(m: Manager, b: Block, p: Block, c: Block)
    requires ListsAreRight(m) && b.Child? && p in Up(m, b) && p.Child? && c != p && c in Children(m, p.prev)
    ensures c in Discards(m, b)
  {
    assert AreChildren(m, p.prev, m.forks[p.prev]);
    PrevIn(Up(m, b), p);
    PathIsNotHigher(m, b, p);
    assert Height(c) == Height(p);
    if c in Up(m, b) {
      PathIsNotHigher(m, b, c);
      SameHeight(c, p, b);
    }
  }

  /** What the lists lead to from a discarded block is discarded. */
  lemma ChildGoes(m: Manager, b: Block, h: Block, c: Block)
    requires ListsAreRight(m) && b.Child? && h in Discards(m, b) && c in Children(m, h)
    ensures c in Discards(m, b)
  {
    assert AreChildren(m, h, m.forks[h]);
    RootStays(m, b);
    if c in Up(m, b) {
      PathBuildsOnPath(m, b, c);
    }
  }

  /** If every known block is listed, all blocks of the tree go that neither lead to `b` nor build on it. */
  lemma DiscardsInTree(m: Manager, b: Block, h: Block)
    requires Orderly(m) && b.Child?
    ensures h in Discards(m, b) <==> Reaches(m, RootOf(m, b), h) && h !in Up(m, b) && !Below(b, h)
  {
    if h in Discards(m, b) {
      DroppedIsBeside(m, b, h);
      DroppedReaches(m, b, h);
    }
    if Reaches(m, RootOf(m, b), h) && h !in Up(m, b) && !Below(b, h) {
      RestIsDropped(m, b, h);
    }
  }

  lemma {:induction false} DroppedReaches(m: Manager, b: Block, h: Block)
    requires ListsAreRight(m) && b.Child? && h in m.parent && Dropped(m, b, h)
    ensures Reaches(m, RootOf(m, b), h)
    decreases h
  {
    if h.prev in Prevs(Up(m, b)) {
      PrevsAreOnPath(m, b, h.prev);
      if h.prev != RootOf(m, b) {
        PathIsKnown(m, b, h.prev);
      }
    } else {
      assert IsListed(m, h.prev) && AreChildren(m, h.prev.prev, m.forks[h.prev.prev]);
      DroppedReaches(m, b, h.prev);
    }
  }

  lemma {:induction false} RestIsDropped(m: Manager, b: Block, h: Block)
    requires AllAreListed(m) && b.Child? && Reaches(m, RootOf(m, b), h) && h !in Up(m, b) && !Below(b, h)
    ensures Dropped(m, b, h)
    decreases h
  {
    assert IsListed(m, h);
    PrevsAreOnPath(m, b, h.prev);
    if h.prev !in Prevs(Up(m, b)) {
      RestIsDropped(m, b, h.prev);
    }
  }

  // ------------------------------------------------------------------------ what is left

  /** Of the tree of `b`, exactly what builds on `b` stays known; other trees are left alone. */
  lemma KnownAfter(m: Manager, b: Block, h: Block)
    requires Orderly(m) && Succeeds(m, b)
    ensures h in Finalized(m, b).parent <==>
            h in m.parent && (!Reaches(m, RootOf(m, b), h) || Below(b, h))
  {
    DiscardsInTree(m, b, h);
    if h in Up(m, b) {
      PathIsKnown(m, b, h);
      PathIsNotHigher(m, b, h);
    }
  }

  lemma ListStaysRight(m: Manager, b: Block, p: Block)
    requires Sound(m) && Succeeds(m, b) && p in Finalized(m, b).forks
    ensures AreChildren(Finalized(m, b), p, Finalized(m, b).forks[p])
  {
    assert AreChildren(m, p, m.forks[p]);
    forall c | c in m.forks[p] ensures c in Finalized(m, b).parent {
      if c in Up(m, b) {
        PrevIn(Up(m, b), c);
      }
      if c in Discards(m, b) {
        DiscardedPrev(m, b, c);
      }
    }
  }

  lemma StaysListed(m: Manager, b: Block, c: Block)
    requires Orderly(m) && Succeeds(m, b) && c in Finalized(m, b).parent
    ensures IsListed(Finalized(m, b), c)
  {
    assert IsListed(m, c);
  }

  /** The entries of the fork tables stay right, also in a call that stops half-way. */
  lemma FinalizeKeepsSound(m: Manager, b: Block)
    requires Sound(m)
    ensures Sound(Finalize(m, b).0)
  {
    if Succeeds(m, b) {
      forall p | p in Finalized(m, b).forks ensures AreChildren(Finalized(m, b), p, Finalized(m, b).forks[p]) {
        ListStaysRight(m, b, p);
      }
    } else {
      HalfwayLists(m, Commits(m, b));
    }
  }

  lemma FinalizeKeepsOrderly(m: Manager, b: Block)
    requires Orderly(m) && Succeeds(m, b)
    ensures Orderly(Finalized(m, b))
    ensures SavedAreKnown(m) ==> SavedAreKnown(Finalized(m, b))
  {
    var after := Finalized(m, b);
    FinalizeKeepsSound(m, b);
    forall c | c in after.parent ensures IsListed(after, c) {
      StaysListed(m, b, c);
    }
    forall h | SavedAreKnown(m) && IsSaved(after, h) ensures h in after.parent {
      assert IsSaved(m, h);
    }
  }

  // ------------------------------------------------------------------ stopping half-way

  /** All known blocks that build on what the finalized blocks built on are finalized too. */
  ghost predicate WithoutSiblings(m: Manager, done: seq<Block>) {
    forall c :: c in m.parent && c.Child? && c.prev in Prevs(done) ==> c in done
  }

  lemma HalfwayLists(m: Manager, done: seq<Block>)
    requires Sound(m) && forall h :: h in done ==> h in m.snaps
    ensures Sound(Partly(m, done))
  {
    var after := Partly(m, done);
    forall p | p in after.forks ensures AreChildren(after, p, after.forks[p]) {
      assert AreChildren(m, p, m.forks[p]);
      forall c | c in m.forks[p] ensures c in after.parent {
        if c in done {
          PrevIn(done, c);
        }
      }
    }
  }

  /** A call that stops half-way keeps the tables in agreement if and only if nothing it finalized had a sibling. */
  lemma HalfwayIsOrderlyExactly(m: Manager, done: seq<Block>)
    requires Orderly(m) && forall h :: h in done ==> h in m.snaps
    ensures Orderly(Partly(m, done)) <==> WithoutSiblings(m, done)
  {
    var after := Partly(m, done);
    HalfwayLists(m, done);
    if WithoutSiblings(m, done) {
      forall c | c in after.parent ensures IsListed(after, c) {
        assert IsListed(m, c);
      }
    }
    if AllAreListed(after) {
      forall c | c in m.parent && c.Child? && c.prev in Prevs(done) ensures c in done {
        assert c in after.parent ==> IsListed(after, c);
      }
    }
  }

  lemma {:induction false} OldestSavedIsAll(path: seq<Block>, snaps: map<Block, StateOverlay>)
    ensures |OldestSaved(path, snaps)| <= |path|
    ensures |OldestSaved(path, snaps)| == |path| <==> forall h :: h in path ==> h in snaps
    ensures |OldestSaved(path, snaps)| == |path| ==> OldestSaved(path, snaps) == path
  {
    if path != [] {
      OldestSavedIsAll(path[1..], snaps);
      assert path == [path[0]] + path[1..];
    }
  }

  /** `finalize` returns without an error exactly if it commits the whole path. */
  lemma SucceedsExactly(m: Manager, b: Block)
    requires b.Child? && b in m.snaps
    ensures Finalize(m, b).1 <==> Commits(m, b) == Up(m, b)
    ensures Finalize(m, b).1 <==> forall h :: h in Up(m, b) ==> h in m.snaps
  {
    OldestSavedIsAll(Up(m, b), m.snaps);
  }

  /** The half-way case: the newest committed block is the parent of one that was created but never saved. */
  lemma {:induction false} OldestSavedStops(path: seq<Block>, snaps: map<Block, StateOverlay>)
    requires exists h :: h in path && h !in snaps
    ensures var done := OldestSaved(path, snaps);
            |done| < |path| && done == path[|path| - |done|..] && path[|path| - |done| - 1] !in snaps
    decreases |path|
  {
    OldestSavedIsAll(path, snaps);
    OldestSavedIsAll(path[1..], snaps);
    var rest := OldestSaved(path[1..], snaps);
    if |rest| == |path| - 1 {
      assert path[0] !in snaps && rest == path[1..];
    } else {
      assert exists h :: h in path[1..] && h !in snaps;
      OldestSavedStops(path[1..], snaps);
      assert path[1..][|path| - 1 - |rest|..] == path[|path| - |rest|..];
    }
  }
}
