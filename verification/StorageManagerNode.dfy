/** The storage manager's methods, against the meaning of its operations. */
module StorageManagerNode {
  import opened Wrappers
  import opened BlockTree
  import opened NomtSessions
  import opened StorageManager
  import opened Finalization
  import opened SessionViews

  /** A finalized block and its parent. */
  datatype Segment = Segment(parent: Block, child: Block)

  function Kids(segments: seq<Segment>): seq<Block> {
    seq(|segments|, i requires 0 <= i < |segments| => segments[i].child)
  }

  ghost predicate Linked(segments: seq<Segment>) {
    forall i :: 0 <= i < |segments| ==> segments[i].child.Child? && segments[i].parent == segments[i].child.prev
  }

  function Backwards<T>(s: seq<T>): seq<T> {
    seq(|s|, i requires 0 <= i < |s| => s[|s| - 1 - i])
  }

  // ------------------------------------------------------------------ the three walks

  lemma MoveOver<T>(a: seq<T>, x: T, b: seq<T>)
    ensures a + ([x] + b) == (a + [x]) + b
  {
  }

  lemma RefsStep(m: Manager, x: Block)
    requires x in m.snaps && Parented(m)
    ensures x in m.parent ==> x.Child? && Refs(m, x) == [x] + Refs(m, x.prev)
    ensures x !in m.parent ==> Refs(m, x) == [x]
  {
  }

  /** From the tip back, as long as there is a snapshot. */
  method CollectRefs(rockbound: set<Block>, parent: map<Block, Block>, x: Block, ghost m: Manager)
    returns (refs: seq<Block>)
    requires rockbound == m.snaps.Keys && parent == m.parent && Parented(m)
    ensures refs == Refs(m, x)
  {
    refs := [];
    var current := x;
    while current in rockbound
      invariant refs + Refs(m, current) == Refs(m, x)
      decreases current
    {
      RefsStep(m, current);
      if current !in parent {
        refs := refs + [current];
        return;
      }
      MoveOver(refs, current, Refs(m, current.prev));
      refs := refs + [current];
      current := parent[current];
    }
  }

  /** The path from `p` on, if `p` is known. */
  function UpFrom(m: Manager, p: Block): seq<Block> {
    if p.Child? && p in m.parent then Up(m, p) else []
  }

  lemma KidsAppend(a: seq<Segment>, s: Segment)
    ensures Kids(a + [s]) == Kids(a) + [s.child]
    ensures Linked(a) && s.child.Child? && s.parent == s.child.prev ==> Linked(a + [s])
  {
  }

  lemma KidsBackwards(a: seq<Segment>)
    ensures Kids(Backwards(a)) == Backwards(Kids(a)) && (Linked(a) ==> Linked(Backwards(a)))
  {
  }

  /** The blocks to finalize with their parents, oldest first. */
  method CollectSegments(parentOf: map<Block, Block>, b: Block, ghost m: Manager) returns (segments: seq<Segment>)
    requires Parented(m) && parentOf == m.parent && b.Child?
    ensures Linked(segments) && Kids(segments) == Backwards(Up(m, b))
  {
    var back: seq<Segment> := [] + [Segment(b.prev, b)];
    KidsAppend([], Segment(b.prev, b));
    var parent := b.prev;
    while parent in parentOf
      invariant Linked(back) && Kids(back) + UpFrom(m, parent) == Up(m, b)
      decreases parent
    {
      KidsAppend(back, Segment(parent.prev, parent));
      MoveOver(Kids(back), parent, UpFrom(m, parent.prev));
      back := back + [Segment(parentOf[parent], parent)];
      parent := parentOf[parent];
    }
    assert Kids(back) + [] == Kids(back);
    KidsBackwards(back);
    segments := Backwards(back);
  }

  lemma KidAt(segments: seq<Segment>, path: seq<Block>, i: nat)
    requires Linked(segments) && Kids(segments) == Backwards(path) && i < |segments|
    ensures |segments| == |path| && segments[i].child == path[|path| - 1 - i]
    ensures segments[i].child.Child? && segments[i].parent == segments[i].child.prev
  {
    assert |Kids(segments)| == |segments|;
    assert segments[i].child == Kids(segments)[i];
  }

  // ------------------------------------------------------- which blocks are discarded

  /** The siblings of `p` have been reached or queued. */
  ghost predicate Covered(m: Manager, p: Block, seen: set<Block>, queue: seq<Block>) {
    p.Child? && forall c :: c in Children(m, p.prev) && c != p ==> c in seen || c in queue
  }

  /** Everything reached so far is to go, and what it leads to is reached or queued. */
  ghost predicate Spreading(m: Manager, goal: set<Block>, seen: set<Block>, queue: seq<Block>) {
    && seen <= goal
    && (forall c :: c in queue ==> c in goal)
    && (forall h :: h in seen ==> Followed(m, h, seen, queue))
  }

  ghost predicate Followed(m: Manager, h: Block, seen: set<Block>, queue: seq<Block>) {
    forall c {:trigger c in Children(m, h)} :: c in Children(m, h) ==> c in seen || c in queue
  }

  /** What a block to discard leads to is to be discarded. */
  ghost predicate Closed(m: Manager, goal: set<Block>) {
    forall h :: h in goal ==> Followed(m, h, goal, [])
  }

  /** With nothing queued, everything to be discarded has been reached. */
  lemma {:induction false} AllReached(m: Manager, b: Block, seen: set<Block>, h: Block)
    requires ListsAreRight(m) && b.Child? && h in Discards(m, b)
    requires Spreading(m, Discards(m, b), seen, [])
    requires forall p :: p in Up(m, b) ==> Covered(m, p, seen, [])
    ensures h in seen
    decreases h
  {
    DiscardedPrev(m, b, h);
    assert IsListed(m, h);
    if h.prev in Discards(m, b) {
      AllReached(m, b, seen, h.prev);
      assert Followed(m, h.prev, seen, []);
    } else {
      var p := PrevOf(Up(m, b), h.prev);
      assert Covered(m, p, seen, []) && h != p;
    }
  }

  /** The siblings of the finalized blocks, as far as they are not queued yet. */
  method Seed(forks: map<Block, seq<Block>>, segments: seq<Segment>, ghost m: Manager, ghost goal: set<Block>)
    returns (queue: seq<Block>)
    requires forks == m.forks && Linked(segments)
    requires forall i, c :: 0 <= i < |segments| && c in Children(m, segments[i].parent) && c != segments[i].child ==>
                              c in goal
    ensures Spreading(m, goal, {}, queue)
    ensures forall i :: 0 <= i < |segments| ==> Covered(m, segments[i].child, {}, queue)
  {
    queue := [];
    for i := 0 to |segments|
      invariant Spreading(m, goal, {}, queue)
      invariant forall j :: 0 <= j < i ==> Covered(m, segments[j].child, {}, queue)
    {
      var s := segments[i];
      if s.parent in forks {
        var children := forks[s.parent];
        for k := 0 to |children|
          invariant Spreading(m, goal, {}, queue)
          invariant forall j :: 0 <= j < i ==> Covered(m, segments[j].child, {}, queue)
          invariant forall c :: c in children[..k] && c != s.child ==> c in queue
        {
          if children[k] != s.child {
            queue := queue + [children[k]];
          }
        }
        assert children[..|children|] == children;
      }
    }
  }

  /** The children that have not been reached are queued. */
  method Enqueue(children: seq<Block>, rest: seq<Block>, seen: set<Block>) returns (queue: seq<Block>)
    ensures forall c :: c in queue ==> c in rest || c in children
    ensures forall c :: c in rest ==> c in queue
    ensures forall c :: c in children ==> c in seen || c in queue
  {
    queue := rest;
    for k := 0 to |children|
      invariant forall c :: c in queue ==> c in rest || c in children
      invariant forall c :: c in rest ==> c in queue
      invariant forall c :: c in children[..k] ==> c in seen || c in queue
    {
      if children[k] !in seen {
        queue := queue + [children[k]];
      }
    }
    assert children[..|children|] == children;
  }

  /** Reached or queued: nothing that counts as either gets lost on the way. */
  lemma CoveredStays(m: Manager, p: Block, seen: set<Block>, queue: seq<Block>, seen': set<Block>, queue': seq<Block>)
    requires Covered(m, p, seen, queue)
    requires forall c :: c in seen || c in queue ==> c in seen' || c in queue'
    ensures Covered(m, p, seen', queue')
  {
  }

  lemma SpreadStep(m: Manager, goal: set<Block>, seen: set<Block>, queue: seq<Block>, h: Block, queue': seq<Block>)
    requires Spreading(m, goal, seen, queue) && Closed(m, goal) && h in goal
    requires forall c :: c in queue ==> c == h || c in queue'
    requires forall c :: c in queue' ==> c in queue || c in Children(m, h)
    requires forall c :: c in Children(m, h) ==> c in seen || c == h || c in queue'
    ensures Spreading(m, goal, seen + {h}, queue')
  {
    assert Followed(m, h, goal, []);
    forall g | g in seen + {h} ensures Followed(m, g, seen + {h}, queue') {
      if g in seen {
        assert Followed(m, g, seen, queue);
      }
    }
  }

  lemma SkipStep(m: Manager, goal: set<Block>, seen: set<Block>, queue: seq<Block>, queue': seq<Block>)
    requires Spreading(m, goal, seen, queue)
    requires forall c :: c in queue ==> c in seen || c in queue'
    requires forall c :: c in queue' ==> c in queue
    ensures Spreading(m, goal, seen, queue')
  {
    forall g | g in seen ensures Followed(m, g, seen, queue') {
      assert Followed(m, g, seen, queue);
    }
  }

  /** Breadth first from the queue; what has been reached is not reached again. */
  method Spread(forks: map<Block, seq<Block>>, start: seq<Block>,
                ghost m: Manager, ghost goal: set<Block>, ghost path: seq<Block>)
    returns (seen: set<Block>)
    requires forks == m.forks && Spreading(m, goal, {}, start)
    requires forall p :: p in path ==> Covered(m, p, {}, start)
    requires Closed(m, goal)
    ensures Spreading(m, goal, seen, [])
    ensures forall p :: p in path ==> Covered(m, p, seen, [])
  {
    var queue := start;
    seen := {};
    while queue != []
      invariant Spreading(m, goal, seen, queue)
      invariant forall p :: p in path ==> Covered(m, p, seen, queue)
      decreases |goal - seen|, |queue|
    {
      var h := queue[0];
      ghost var queued, reached := queue, seen;
      var rest := queue[1..];
      assert queue == [h] + rest;
      if h in seen {
        SkipStep(m, goal, seen, queue, rest);
        queue := rest;
      } else {
        assert goal - (seen + {h}) == (goal - seen) - {h};
        seen := seen + {h};
        queue := Enqueue(if h in forks then forks[h] else [], rest, seen);
        SpreadStep(m, goal, reached, queued, h, queue);
      }
      forall p | p in path ensures Covered(m, p, seen, queue) {
        CoveredStays(m, p, reached, queued, seen, queue);
      }
    }
  }

  lemma SeedsGo(m: Manager, b: Block, segments: seq<Segment>)
    requires ListsAreRight(m) && b.Child? && Linked(segments) && Kids(segments) == Backwards(Up(m, b))
    ensures forall i, c :: 0 <= i < |segments| && c in Children(m, segments[i].parent) && c != segments[i].child ==>
                             c in Discards(m, b)
  {
    forall i, c | 0 <= i < |segments| && c in Children(m, segments[i].parent) && c != segments[i].child
      ensures c in Discards(m, b)
    {
      KidAt(segments, Up(m, b), i);
      SiblingGoes(m, b, segments[i].child, c);
    }
  }

  lemma DiscardsAreClosed(m: Manager, b: Block)
    requires ListsAreRight(m) && b.Child?
    ensures Closed(m, Discards(m, b))
  {
    var goal := Discards(m, b);
    forall h | h in goal ensures Followed(m, h, goal, []) {
      forall c | c in Children(m, h) ensures c in goal {
        ChildGoes(m, b, h, c);
      }
    }
  }

  /** Exactly the listed siblings of the path and what the lists lead to from there. */
  method CollectDiscards(forks: map<Block, seq<Block>>, segments: seq<Segment>, ghost m: Manager, ghost b: Block)
    returns (gone: set<Block>)
    requires ListsAreRight(m) && forks == m.forks && b.Child?
    requires Linked(segments) && Kids(segments) == Backwards(Up(m, b))
    ensures gone == Discards(m, b)
  {
    ghost var path, goal := Up(m, b), Discards(m, b);
    SeedsGo(m, b, segments);
    var queue := Seed(forks, segments, m, goal);
    forall p | p in path ensures Covered(m, p, {}, queue) {
      var j :| 0 <= j < |path| && path[j] == p;
      assert |segments| == |Kids(segments)| == |path|;
      KidAt(segments, path, |path| - 1 - j);
    }
    DiscardsAreClosed(m, b);
    gone := Spread(forks, queue, m, goal, path);
    forall h | h in goal ensures h in gone {
      AllReached(m, b, gone, h);
    }
  }

  // ------------------------------------------------------------------ applying changes

  /** One block of the path: its snapshot moves into the databases. */
  function Segmented(m: Manager, s: Segment): Manager
    requires s.child in m.snaps
  {
    Manager(m.forks - {s.parent}, m.parent - {s.parent} - {s.child}, m.snaps - {s.child},
            ApplyBoth(m.base, m.snaps[s.child]))
  }

  lemma MinusTwice<K, V>(m: map<K, V>, a: set<K>, b: set<K>)
    ensures m - a - b == m - (a + b)
  {
  }

  lemma PartlyStep(m: Manager, done: seq<Block>, s: Segment)
    requires (forall h :: h in done ==> h in m.snaps) && s.child in m.snaps && s.child !in done
    requires s.child.Child? && s.parent == s.child.prev && (s.parent in m.parent ==> s.parent in done)
    ensures s.child in Partly(m, done).snaps && Segmented(Partly(m, done), s) == Partly(m, [s.child] + done)
  {
    var more := [s.child] + done;
    assert more[1..] == done;
    assert SetOf(more) == SetOf(done) + {s.child};
    MinusTwice(m.snaps, SetOf(done), {s.child});
    MinusTwice(m.forks, Prevs(done), {s.parent});
    assert Prevs(more) == Prevs(done) + {s.parent};
    assert m.parent - SetOf(done) - {s.parent} == m.parent - SetOf(done);
    MinusTwice(m.parent, SetOf(done), {s.child});
  }

  lemma WithoutTwice(m: Manager, a: set<Block>, b: set<Block>)
    ensures Without(Without(m, a), b) == Without(m, a + b)
  {
    MinusTwice(m.forks, a, b);
    MinusTwice(m.parent, a, b);
    MinusTwice(m.snaps, a, b);
  }

  lemma NothingDone(m: Manager)
    ensures Partly(m, []) == m
  {
    assert SetOf([]) == {};
  }

  /** The next block of the path builds on those that are done. */
  ghost predicate BuildsOn(m: Manager, p: Block, done: seq<Block>) {
    p !in done && p.Child? && (p.prev in m.parent ==> p.prev in done)
  }

  ghost predicate InOrder(m: Manager, path: seq<Block>) {
    forall j :: 0 <= j < |path| ==> BuildsOn(m, path[j], path[j + 1..])
  }

  lemma PathHeights(m: Manager, b: Block)
    requires b.Child?
    ensures forall h :: h in Up(m, b) ==> Height(h) <= Height(b)
  {
    forall h | h in Up(m, b) ensures Height(h) <= Height(b) {
      PathIsNotHigher(m, b, h);
    }
  }

  lemma {:induction false} PathIsInOrder(m: Manager, b: Block)
    requires Parented(m) && b.Child?
    ensures InOrder(m, Up(m, b))
    decreases b
  {
    var path := Up(m, b);
    if b.prev.Child? && b.prev in m.parent {
      PathIsInOrder(m, b.prev);
      var rest := Up(m, b.prev);
      assert path[1..] == rest && rest[0] == b.prev;
      PathHeights(m, b.prev);
      forall j | 0 <= j < |path| ensures BuildsOn(m, path[j], path[j + 1..]) {
        if j > 0 {
          assert BuildsOn(m, rest[j - 1], rest[j..]);
          assert path[j + 1..] == rest[j..];
        }
      }
    } else {
      assert path[1..] == [];
    }
  }

  /** Where the path stops being saved. */
  lemma {:induction false} OldestSavedFrom(path: seq<Block>, snaps: map<Block, StateOverlay>, n: nat)
    requires 0 < n <= |path| && path[n - 1] !in snaps && forall h :: h in path[n..] ==> h in snaps
    ensures OldestSaved(path, snaps) == path[n..]
    decreases n
  {
    if n == 1 {
      OldestSavedIsAll(path[1..], snaps);
    } else {
      assert path[1..][n - 1..] == path[n..];
      OldestSavedFrom(path[1..], snaps, n - 1);
    }
  }

  /** `done` is the old end of the path, its last `i` blocks, all of them saved. */
  ghost predicate CommittedSoFar(m: Manager, path: seq<Block>, i: nat, done: seq<Block>) {
    i <= |path| && done == path[|path| - i..] && forall h :: h in done ==> h in m.snaps
  }

  lemma NextIsDue(m: Manager, path: seq<Block>, segments: seq<Segment>, i: nat, done: seq<Block>)
    requires InOrder(m, path) && Linked(segments) && Kids(segments) == Backwards(path)
    requires CommittedSoFar(m, path, i, done) && i < |path|
    ensures i < |segments| && segments[i].child == path[|path| - 1 - i]
    ensures segments[i].parent == segments[i].child.prev && BuildsOn(m, segments[i].child, done)
    ensures segments[i].child in Partly(m, done).snaps <==> segments[i].child in m.snaps
  {
    assert |Kids(segments)| == |segments|;
    KidAt(segments, path, i);
    assert BuildsOn(m, path[|path| - 1 - i], path[|path| - 1 - i + 1..]);
  }

  lemma OneMoreCommitted(m: Manager, path: seq<Block>, i: nat, done: seq<Block>)
    requires CommittedSoFar(m, path, i, done) && i < |path| && path[|path| - 1 - i] in m.snaps
    ensures CommittedSoFar(m, path, i + 1, [path[|path| - 1 - i]] + done)
  {
  }

  lemma StopsHere(m: Manager, path: seq<Block>, i: nat, done: seq<Block>)
    requires CommittedSoFar(m, path, i, done) && i < |path| && path[|path| - 1 - i] !in m.snaps
    ensures OldestSaved(path, m.snaps) == done && done != path
  {
    OldestSavedFrom(path, m.snaps, |path| - i);
  }

  lemma GoesToTheEnd(m: Manager, path: seq<Block>, done: seq<Block>)
    requires CommittedSoFar(m, path, |path|, done)
    ensures OldestSaved(path, m.snaps) == done == path
  {
    OldestSavedIsAll(path, m.snaps);
  }

  class NomtStorageManager {
    var chainForks: map<Block, seq<Block>>
    var blocksToParent: map<Block, Block>
    var rockboundSnapshots: set<Block>
    const snapshots: Snapshots<Block>
    const stateDb: NomtStateDb

    /** Both snapshot maps are in step, so removing from them cannot panic. */
    ghost predicate InStep()
      reads this, snapshots, stateDb
    {
      && rockboundSnapshots == snapshots.all.Keys && Parented(Value())
      && forall h :: h in snapshots.all ==> h.Child?
    }

    ghost predicate Valid()
      reads this, snapshots, stateDb
    {
      InStep() && ListsAreRight(Value())
    }

    function Value(): Manager
      reads this, snapshots, stateDb
    {
      Manager(chainForks, blocksToParent, snapshots.all, stateDb.Value())
    }

    constructor (stateDb: NomtStateDb)
      ensures Valid() && fresh(snapshots) && this.stateDb == stateDb && Value() == Empty(stateDb.Value())
    {
      chainForks, blocksToParent, rockboundSnapshots := map[], map[], {};
      this.stateDb := stateDb;
      snapshots := new Snapshots();
    }

    method CreateStateUpTo(x: Block) returns (builder: NomtSessionBuilder<Block>)
      requires Valid()
      ensures fresh(builder) && builder.refs == Refs(Value(), x)
      ensures builder.snapshots == snapshots && builder.stateDb == stateDb
    {
      var refs := CollectRefs(rockboundSnapshots, blocksToParent, x, Value());
      builder := new NomtSessionBuilder(stateDb, refs, snapshots);
    }

    /** The state a block starts from is the one of its parent; the block becomes known. */
    method CreateStateFor(b: Block) returns (builder: NomtSessionBuilder<Block>)
      requires Valid() && b.Child?
      modifies this`chainForks, this`blocksToParent
      ensures Valid() && Value() == Created(old(Value()), b)
      ensures blocksToParent == old(blocksToParent)[b := b.prev]
      ensures chainForks == if b in old(blocksToParent) then old(chainForks)
                            else old(chainForks)[b.prev := old(Children(Value(), b.prev)) + [b]]
      ensures fresh(builder) && builder.refs == Refs(Value(), b.prev)
      ensures builder.snapshots == snapshots && builder.stateDb == stateDb
    {
      CreateKeepsSound(Value(), b);
      if b !in blocksToParent {
        var children := if b.prev in chainForks then chainForks[b.prev] else [];
        chainForks := chainForks[b.prev := children + [b]];
        blocksToParent := blocksToParent[b := b.prev];
      }
      builder := CreateStateUpTo(b.prev);
    }

    /** The state after a block that has not been saved is the finalized state. */
    method CreateStateAfter(b: Block) returns (builder: NomtSessionBuilder<Block>)
      requires Valid()
      ensures fresh(builder) && builder.refs == Refs(Value(), b)
      ensures builder.snapshots == snapshots && builder.stateDb == stateDb
    {
      if b !in rockboundSnapshots {
        builder := new NomtSessionBuilder(stateDb, [], snapshots);
      } else {
        builder := CreateStateUpTo(b);
      }
    }

    /** Unknown parents and second savings are errors that change nothing. */
    method SaveChangeSet(b: Block, o: StateOverlay) returns (ok: bool)
      requires Valid() && b.Child?
      modifies this`rockboundSnapshots, snapshots
      ensures Valid() && ok == CanSave(old(Value()), b)
      ensures Value() == if ok then Saved(old(Value()), b, o) else old(Value())
      ensures ok <==> b.prev in chainForks && b !in old(snapshots.all)
      ensures snapshots.all == if ok then old(snapshots.all)[b := o] else old(snapshots.all)
    {
      SaveKeepsOrderly(Value(), b, o);
      if b.prev !in chainForks {
        return false;
      }
      if b in rockboundSnapshots {
        return false;
      }
      snapshots.all := snapshots.all[b := o];
      rockboundSnapshots := rockboundSnapshots + {b};
      ok := true;
    }

    method FinalizeSegment(s: Segment)
      requires InStep() && s.child in snapshots.all
      modifies this, snapshots, stateDb
      ensures InStep() && Value() == Segmented(old(Value()), s)
    {
      var overlay := snapshots.all[s.child];
      snapshots.all := snapshots.all - {s.child};
      rockboundSnapshots := rockboundSnapshots - {s.child};
      stateDb.Commit(overlay);
      blocksToParent := blocksToParent - {s.parent} - {s.child};
      chainForks := chainForks - {s.parent};
    }

    /** The path is committed from its old end, up to the first block without a snapshot. */
    method FinalizeSegments(segments: seq<Segment>, ghost m: Manager, ghost path: seq<Block>) returns (ok: bool)
      requires InStep() && Value() == m && InOrder(m, path)
      requires Linked(segments) && Kids(segments) == Backwards(path)
      modifies this, snapshots, stateDb
      ensures InStep() && Value() == Partly(m, OldestSaved(path, m.snaps))
      ensures ok <==> OldestSaved(path, m.snaps) == path
    {
      ghost var done: seq<Block> := [];
      NothingDone(m);
      assert |segments| == |Kids(segments)| == |path|;
      for i := 0 to |segments|
        invariant CommittedSoFar(m, path, i, done)
        invariant InStep() && Value() == Partly(m, done)
      {
        NextIsDue(m, path, segments, i, done);
        if segments[i].child !in snapshots.all {
          StopsHere(m, path, i, done);
          return false;
        }
        PartlyStep(m, done, segments[i]);
        OneMoreCommitted(m, path, i, done);
        FinalizeSegment(segments[i]);
        done := [segments[i].child] + done;
      }
      GoesToTheEnd(m, path, done);
      ok := true;
    }

    method Drop(h: Block)
      requires InStep()
      modifies this, snapshots
      ensures InStep() && Value() == Without(old(Value()), {h})
    {
      snapshots.all := snapshots.all - {h};
      rockboundSnapshots := rockboundSnapshots - {h};
      blocksToParent := blocksToParent - {h};
      chainForks := chainForks - {h};
    }

    method DropDiscarded(gone: set<Block>)
      requires InStep()
      modifies this, snapshots
      ensures InStep() && Value() == Without(old(Value()), gone)
    {
      var left := gone;
      ghost var m := Value();
      assert gone - left == {};
      while left != {}
        invariant left <= gone && InStep() && Value() == Without(m, gone - left)
      {
        var h :| h in left;
        Drop(h);
        WithoutTwice(m, gone - left, {h});
        assert gone - (left - {h}) == (gone - left) + {h};
        left := left - {h};
      }
      assert gone - left == gone;
    }

    /**
     A block without saved changes is an error that changes nothing.  With an ancestor that was
     created but not saved, the blocks older than that one are committed before the error is found.
     Otherwise the path is committed and the listed forks beside it go.
     */
    method Finalize(b: Block) returns (ok: bool)
      requires Valid()
      modifies this, snapshots, stateDb
      ensures Valid() && (Value(), ok) == StorageManager.Finalize(old(Value()), b)
    {
      ghost var m := Value();
      FinalizeKeepsSound(m, b);
      if b !in rockboundSnapshots {
        NothingDone(m);
        return false;
      }
      SucceedsExactly(m, b);
      var segments := CollectSegments(blocksToParent, b, m);
      var gone := CollectDiscards(chainForks, segments, m, b);
      PathIsInOrder(m, b);
      ok := FinalizeSegments(segments, m, Up(m, b));
      if ok {
        DropDiscarded(gone);
      }
    }
  }
}
