/** The fork-aware storage manager: which snapshots it holds, and what finalizing a block does. */
module StorageManager {
  import opened Wrappers
  import opened BlockTree
  import opened NomtSessions

  datatype Manager = Manager(
    forks: map<Block, seq<Block>>,
    parent: map<Block, Block>,
    snaps: map<Block, StateOverlay>,
    base: Stores)

  function Empty(base: Stores): Manager { Manager(map[], map[], map[], base) }

  function Children(m: Manager, b: Block): seq<Block> {
    if b in m.forks then m.forks[b] else []
  }

  // --------------------------------------------------------------- creating and saving

  /** A block whose state is asked for is put into the fork tree, once. */
  function Created(m: Manager, b: Block): Manager
    requires b.Child?
  {
    if b in m.parent then m
    else m.(forks := m.forks[b.prev := Children(m, b.prev) + [b]], parent := m.parent[b := b.prev])
  }

  predicate CanSave(m: Manager, b: Block)
    requires b.Child?
  {
    b.prev in m.forks && b !in m.snaps
  }

  function Saved(m: Manager, b: Block, o: StateOverlay): Manager {
    m.(snaps := m.snaps[b := o])
  }

  // ----------------------------------------------------------------------- finalizing

  /** The known ancestors of `b`, newest first, with `b` before them. */
  function Up(m: Manager, b: Block): seq<Block>
    requires b.Child?
  {
    [b] + if b.prev.Child? && b.prev in m.parent then Up(m, b.prev) else []
  }

  /** The block that the oldest of them builds on. */
  function RootOf(m: Manager, b: Block): Block
    requires b.Child?
  {
    if b.prev.Child? && b.prev in m.parent then RootOf(m, b.prev) else b.prev
  }

  predicate IsListed(m: Manager, c: Block) { c.Child? && c in Children(m, c.prev) }

  /** The fork lists lead to `h` from what a block of the path of `b` builds on, by another way than the path. */
  predicate Dropped(m: Manager, b: Block, h: Block)
    requires b.Child?
  {
    IsListed(m, h) && h !in Up(m, b) && (h.prev in Prevs(Up(m, b)) || Dropped(m, b, h.prev))
  }

  /** The listed siblings of the path, and what the lists lead to from there. */
  function Discards(m: Manager, b: Block): set<Block>
    requires b.Child?
  {
    set h | h in m.parent.Keys && Dropped(m, b, h)
  }

  /** The overlays of the path, committed from its old end. */
  function Committed(base: Stores, path: seq<Block>, snaps: map<Block, StateOverlay>): Stores
    requires forall h :: h in path ==> h in snaps
  {
    if path == [] then base
    else ApplyBoth(Committed(base, path[1..], snaps), snaps[path[0]])
  }

  function SetOf(blocks: seq<Block>): set<Block> { set h | h in blocks }

  function Prevs(blocks: seq<Block>): set<Block> {
    if blocks == [] then {} else (if blocks[0].Child? then {blocks[0].prev} else {}) + Prevs(blocks[1..])
  }

  /** The manager after some of a path, from its old end, is finalized. */
  function Partly(m: Manager, done: seq<Block>): Manager
    requires forall h :: h in done ==> h in m.snaps
  {
    Manager(m.forks - Prevs(done), m.parent - SetOf(done), m.snaps - SetOf(done), Committed(m.base, done, m.snaps))
  }

  /** And after the discarded blocks are dropped. */
  function Without(m: Manager, gone: set<Block>): Manager {
    Manager(m.forks - gone, m.parent - gone, m.snaps - gone, m.base)
  }

  /** The oldest part of the path that has snapshots throughout. */
  function OldestSaved(path: seq<Block>, snaps: map<Block, StateOverlay>): (done: seq<Block>)
    ensures forall h :: h in done ==> h in snaps && h in path
  {
    if path == [] then []
    else
      var rest := OldestSaved(path[1..], snaps);
      if |rest| + 1 == |path| && path[0] in snaps then [path[0]] + rest else rest
  }

  /** Exactly if `b` and all its known ancestors have been saved, finalizing `b` succeeds. */
  predicate Succeeds(m: Manager, b: Block) {
    b.Child? && b in m.snaps && forall h :: h in Up(m, b) ==> h in m.snaps
  }

  function Finalized(m: Manager, b: Block): Manager
    requires Succeeds(m, b)
  {
    Without(Partly(m, Up(m, b)), Discards(m, b))
  }

  /** What a call commits: nothing without a snapshot of `b`, else the path from its old end as far as it is saved. */
  function Commits(m: Manager, b: Block): (done: seq<Block>)
    ensures forall h :: h in done ==> h in m.snaps
  {
    if b.Child? && b in m.snaps then OldestSaved(Up(m, b), m.snaps) else []
  }

  /** What a call of `finalize` leaves, and whether it returns without an error. */
  function Finalize(m: Manager, b: Block): (Manager, bool) {
    if Succeeds(m, b) then (Finalized(m, b), true) else (Partly(m, Commits(m, b)), false)
  }

  // ------------------------------------------------------------------- the invariant

  ghost predicate Parented(m: Manager) {
    forall h :: h in m.parent ==> h.Child? && m.parent[h] == h.prev
  }

  ghost predicate AreChildren(m: Manager, p: Block, list: seq<Block>) {
    forall c {:trigger c in list} :: c in list ==> c in m.parent && c.Child? && c.prev == p
  }

  ghost predicate ListsAreRight(m: Manager) {
    forall p :: p in m.forks ==> AreChildren(m, p, m.forks[p])
  }

  /** The entries of both fork tables are right; every call keeps that. */
  ghost predicate Sound(m: Manager) { Parented(m) && ListsAreRight(m) }

  ghost predicate AllAreListed(m: Manager) {
    forall c {:trigger IsListed(m, c)} :: c in m.parent ==> IsListed(m, c)
  }

  /** The fork lists are the parent table turned round. */
  ghost predicate Orderly(m: Manager) { Sound(m) && AllAreListed(m) }

  predicate IsSaved(m: Manager, h: Block) { h in m.snaps }

  /** Only blocks have been saved that were created. */
  ghost predicate SavedAreKnown(m: Manager) {
    forall h {:trigger IsSaved(m, h)} :: IsSaved(m, h) ==> h in m.parent
  }

  lemma EmptyIsOrderly(base: Stores)
    ensures Orderly(Empty(base)) && SavedAreKnown(Empty(base))
  {
  }

  lemma CreateKeepsSound(m: Manager, b: Block)
    requires Sound(m) && b.Child?
    ensures Sound(Created(m, b))
  {
    var after := Created(m, b);
    if b !in m.parent {
      forall p | p in after.forks ensures AreChildren(after, p, after.forks[p]) {
        if p in m.forks {
          assert AreChildren(m, p, m.forks[p]);
        }
      }
    }
  }

  lemma CreateKeepsOrderly(m: Manager, b: Block)
    requires Orderly(m) && b.Child?
    ensures Orderly(Created(m, b))
    ensures SavedAreKnown(m) ==> SavedAreKnown(Created(m, b))
  {
    var after := Created(m, b);
    CreateKeepsSound(m, b);
    if b !in m.parent {
      forall c | c in after.parent ensures IsListed(after, c) {
        if c != b {
          assert IsListed(m, c);
        }
      }
    }
    forall h | SavedAreKnown(m) && IsSaved(after, h) ensures h in after.parent {
      assert IsSaved(m, h);
    }
  }

  /** Saving changes no fork; what was saved stays known if and only if the block was created. */
  lemma SaveKeepsOrderly(m: Manager, b: Block, o: StateOverlay)
    requires Sound(m)
    ensures Sound(Saved(m, b, o))
    ensures Orderly(m) ==> Orderly(Saved(m, b, o))
    ensures SavedAreKnown(m) ==> (SavedAreKnown(Saved(m, b, o)) <==> b in m.parent)
  {
    var after := Saved(m, b, o);
    forall p | p in after.forks ensures AreChildren(after, p, after.forks[p]) {
      assert AreChildren(m, p, m.forks[p]);
    }
    forall c | Orderly(m) && c in after.parent ensures IsListed(after, c) {
      assert IsListed(m, c);
    }
    assert IsSaved(after, b);
    forall h | IsSaved(after, h) && h != b ensures IsSaved(m, h) {
    }
  }

  // -------------------------------------------------------------------- paths and roots

  lemma {:induction false} UpIsPath(m: Manager, b: Block)
    requires b.Child?
    ensures Below(RootOf(m, b), b) && Up(m, b) == Path(RootOf(m, b), b)
    ensures !(RootOf(m, b).Child? && RootOf(m, b) in m.parent)
  {
    if b.prev.Child? && b.prev in m.parent {
      UpIsPath(m, b.prev);
      BelowIsHigher(RootOf(m, b), b.prev);
    }
  }

  /** `h` is known, and known blocks lead from it to `root`. */
  predicate Reaches(m: Manager, root: Block, h: Block) {
    h.Child? && h in m.parent && (h.prev == root || Reaches(m, root, h.prev))
  }

  lemma {:induction false} PathIsKnown(m: Manager, b: Block, h: Block)
    requires b.Child? && h in Up(m, b)
    ensures h.Child? && (h == b || Reaches(m, RootOf(m, b), h))
    ensures h == b && b in m.parent ==> Reaches(m, RootOf(m, b), b)
    decreases b
  {
    if b.prev.Child? && b.prev in m.parent {
      PathIsKnown(m, b.prev, b.prev);
      if h != b {
        PathIsKnown(m, b.prev, h);
      }
    }
  }

  lemma {:induction false} ReachesIsBelow(m: Manager, root: Block, h: Block)
    requires Reaches(m, root, h)
    ensures Below(root, h)
  {
    if h.prev != root {
      ReachesIsBelow(m, root, h.prev);
    }
  }

  /** The blocks of the path are not above `b`, and only one of them is at each height. */
  lemma PathIsNotHigher(m: Manager, b: Block, h: Block)
    requires b.Child? && h in Up(m, b)
    ensures (h == b || Below(h, b)) && Height(h) <= Height(b) && !Below(b, h)
  {
    UpIsPath(m, b);
    PathIsBetween(RootOf(m, b), b, h);
    if h != b {
      BelowIsHigher(h, b);
    }
    if Below(b, h) {
      BelowIsHigher(b, h);
    }
  }

  /** A block of the path builds on the root, or on another block of the path that is not `b`. */
  lemma {:induction false} PathBuildsOnPath(m: Manager, b: Block, h: Block)
    requires b.Child? && h in Up(m, b)
    ensures h.Child? && (h.prev == RootOf(m, b) || (h.prev in Up(m, b) && h.prev != b))
    decreases b
  {
    if b.prev.Child? && b.prev in m.parent {
      if h != b {
        PathBuildsOnPath(m, b.prev, h);
        if h.prev in Up(m, b.prev) {
          PathIsNotHigher(m, b.prev, h.prev);
        }
      } else {
        assert b.prev == Up(m, b.prev)[0];
      }
    }
  }
}
