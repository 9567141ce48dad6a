/**
 The flat state: a live store with the latest values and an archival store with
 every version, written one after the other.  A crash between the two writes
 leaves the archival store one version ahead; recovery takes that version back.
 */
module FlatState {
  import opened Wrappers
  import opened Bytes
  import opened KeyCodec
  import opened VersionedReads
  import opened AccessoryStore
  import opened HistoricalState
  import opened Overlays

  type LiveTable = map<Key, seq<byte>>
  type Roots = map<Version, RootHash>

  /** The versions of one namespace, and which keys were written at which version. */
  datatype Archive = Archive(history: Table, byVersion: set<Entry>)

  datatype Live = Live(user: LiveTable, kernel: LiveTable, roots: Roots)
  datatype Archival = Archival(user: Archive, kernel: Archive, roots: Roots)
  datatype Flat = Flat(live: Live, archival: Archival)

  const EMPTY_LIVE := Live(map[], map[], map[])
  const EMPTY_ARCHIVE := Archive(map[], {})
  const EMPTY_ARCHIVAL := Archival(EMPTY_ARCHIVE, EMPTY_ARCHIVE, map[])

  // ------------------------------------------------------- one atomic batch

  function UpdateLive(m: LiveTable, c: Changes): LiveTable { Apply(m, c) }

  /** A commit adds the changes as entries of the version, a rollback removes those entries. */
  function UpdateArchive(a: Archive, c: Changes, v: Version, isCommit: bool): Archive {
    if isCommit then Archive(a.history + AtVersion(c, v), a.byVersion + KeysAt(c, v))
    else Archive(a.history - KeysAt(c, v), a.byVersion - KeysAt(c, v))
  }

  function UpdateRoots(roots: Roots, r: RootChange): Roots {
    match r
    case PutRoot(v, hash) => roots[v := hash]
    case DeleteRoot(v) => roots - {v}
  }

  function WriteLive(l: Live, c: StateChanges): Live {
    Live(UpdateLive(l.user, c.user), UpdateLive(l.kernel, c.kernel), UpdateRoots(l.roots, c.root))
  }

  function WriteArchival(a: Archival, c: StateChanges, v: Version, isCommit: bool): Archival {
    Archival(UpdateArchive(a.user, c.user, v, isCommit), UpdateArchive(a.kernel, c.kernel, v, isCommit),
             UpdateRoots(a.roots, c.root))
  }

  // ----------------------------------------------------------------- commit

  datatype Crash = NoCrash | BeforeArchival | BeforeLive

  function CommitInternal(f: Flat, c: StateChanges, v: Version, isCommit: bool, crash: Crash): Flat {
    if crash == BeforeArchival then f
    else
      var archival := WriteArchival(f.archival, c, v, isCommit);
      if crash == BeforeLive || !isCommit then f.(archival := archival)
      else Flat(WriteLive(f.live, c), archival)
  }

  /** The latest version of a store, with its root hash. */
  ghost function LatestOf(roots: Roots): Option<(Version, RootHash)> {
    if roots == map[] then None else var v := LargestRoot(roots); Some((v, roots[v]))
  }

  /** The version a commit writes; it starts over after the largest one. */
  ghost function NextVersion(l: Live): Version {
    match LatestOf(l.roots)
    case None => 0
    case Some((v, _)) => if v == U64_MAX then 0 else v + 1
  }

  ghost function Commit(f: Flat, c: StateChanges, crash: Crash): Flat {
    CommitInternal(f, c, NextVersion(f.live), true, crash)
  }

  // --------------------------------------------------------------- recovery

  datatype Outcome =
    | Recovered
    | LiveEmpty           // "The Live DB is empty; please remove the Archival DB manually."
    | MaterializeFailed   // the error of materialize_user_and_kernel_values
    | AssertionFailed

  /** `get_prev` on the root hashes: the hash of the greatest version not above `v`. */
  function RootAt(roots: Roots, v: Version): Option<RootHash> {
    if v in roots then Some(roots[v]) else if v == 0 then None else RootAt(roots, v - 1)
  }

  function KeysOf(es: set<Entry>): set<Key> {
    set e | e in es :: e.key
  }

  function DeleteAll(es: set<Entry>): Changes {
    map k | k in KeysOf(es) :: None
  }

  function WrittenAt(a: Archive, v: Version): set<Entry> {
    set e | e in a.byVersion && e.version == v
  }

  function RollbackArchival(f: Flat, v: Version): (Flat, Outcome) {
    var user, kernel := DeleteAll(WrittenAt(f.archival.user, v)), DeleteAll(WrittenAt(f.archival.kernel, v));
    if user != map[] && kernel == map[] then (f, MaterializeFailed)
    else (CommitInternal(f, StateChanges(user, kernel, DeleteRoot(v)), v, false, NoCrash), Recovered)
  }

  ghost function Recover(f: Flat): (Flat, Outcome) {
    match (LatestOf(f.archival.roots), LatestOf(f.live.roots))
    case (None, live) => (f, if live.None? then Recovered else AssertionFailed)
    case (Some((va, ra)), None) => (f, if va == 0 then LiveEmpty else AssertionFailed)
    case (Some((va, ra)), Some((vl, rl))) =>
      if va == vl then (f, if ra == rl then Recovered else AssertionFailed)
      else if va as int != vl as int + 1 || RootAt(f.archival.roots, vl) != Some(rl) then (f, AssertionFailed)
      else RollbackArchival(f, va)
  }

  // ---------------------------------------------------------------- history

  /** The slots that were committed, oldest first; the version is the index. */
  type History = seq<Slot>

  const MAX_SLOTS := U64_MAX + 1

  datatype Namespace = User | Kernel

  function In(b: Slot, ns: Namespace): Changes {
    match ns
    case User => b.user
    case Kernel => b.kernel
  }

  function TableAfter(h: History, ns: Namespace): LiveTable {
    if h == [] then map[] else UpdateLive(TableAfter(h[..|h| - 1], ns), In(h[|h| - 1], ns))
  }

  function ArchiveAfter(h: History, ns: Namespace): Archive
    requires |h| <= MAX_SLOTS
  {
    if h == [] then EMPTY_ARCHIVE
    else UpdateArchive(ArchiveAfter(h[..|h| - 1], ns), In(h[|h| - 1], ns), |h| - 1, true)
  }

  function RootsOf(h: History): Roots
    requires |h| <= MAX_SLOTS
  {
    if h == [] then map[] else RootsOf(h[..|h| - 1])[|h| - 1 := h[|h| - 1].root]
  }

  lemma {:induction false} RootsByIndex(h: History, v: Version)
    requires |h| <= MAX_SLOTS
    ensures v in RootsOf(h) <==> v < |h|
    ensures v in RootsOf(h) ==> RootsOf(h)[v] == h[v].root
  {
    if h != [] && v != |h| - 1 {
      RootsByIndex(h[..|h| - 1], v);
    }
  }

  function LiveAfter(h: History): Live
    requires |h| <= MAX_SLOTS
  {
    Live(TableAfter(h, User), TableAfter(h, Kernel), RootsOf(h))
  }

  function ArchivalAfter(h: History): Archival
    requires |h| <= MAX_SLOTS
  {
    Archival(ArchiveAfter(h, User), ArchiveAfter(h, Kernel), RootsOf(h))
  }

  lemma OneMoreInNamespace(h: History, b: Slot, ns: Namespace)
    requires |h| < MAX_SLOTS
    ensures TableAfter(h + [b], ns) == UpdateLive(TableAfter(h, ns), In(b, ns))
    ensures ArchiveAfter(h + [b], ns) == UpdateArchive(ArchiveAfter(h, ns), In(b, ns), |h|, true)
    ensures RootsOf(h + [b]) == RootsOf(h)[|h| := b.root]
  {
    assert (h + [b])[..|h|] == h;
  }

  /** One more slot is one more batch in each store. */
  lemma OneMoreSlot(h: History, b: Slot)
    requires |h| < MAX_SLOTS
    ensures LiveAfter(h + [b]) == WriteLive(LiveAfter(h), At(b, |h|))
    ensures ArchivalAfter(h + [b]) == WriteArchival(ArchivalAfter(h), At(b, |h|), |h|, true)
  {
    OneMoreInNamespace(h, b, User);
    OneMoreInNamespace(h, b, Kernel);
  }

  ghost function LatestSlot(h: History): Option<(Version, RootHash)>
    requires |h| <= MAX_SLOTS
  {
    if h == [] then None else Some((|h| - 1, h[|h| - 1].root))
  }

  lemma LatestRootOf(h: History)
    requires |h| <= MAX_SLOTS
    ensures LatestOf(RootsOf(h)) == LatestSlot(h)
  {
    if h != [] {
      RootsByIndex(h, |h| - 1);
      RootsByIndex(h, LargestRoot(RootsOf(h)));
    }
  }

  /** The two parts of an archive agree, and hold nothing of version `v` or later. */
  ghost predicate ArchiveBefore(a: Archive, v: int) {
    a.history.Keys == a.byVersion && forall e :: e in a.byVersion ==> e.version < v
  }

  lemma ArchiveGrows(a: Archive, c: Changes, v: Version)
    requires ArchiveBefore(a, v)
    ensures ArchiveBefore(UpdateArchive(a, c, v, true), v + 1)
  {
    assert AtVersion(c, v).Keys == KeysAt(c, v);
  }

  lemma {:induction false} EntriesAfter(h: History, ns: Namespace)
    requires |h| <= MAX_SLOTS
    ensures ArchiveBefore(ArchiveAfter(h, ns), |h|)
  {
    if h != [] {
      EntriesAfter(h[..|h| - 1], ns);
      ArchiveGrows(ArchiveAfter(h[..|h| - 1], ns), In(h[|h| - 1], ns), |h| - 1);
    }
  }

  // ------------------------------------------------- rollback is an inverse

  lemma ArchiveUndone(a: Archive, c: Changes, v: Version)
    requires ArchiveBefore(a, v)
    ensures var b := UpdateArchive(a, c, v, true);
            && WrittenAt(b, v) == KeysAt(c, v)
            && DeleteAll(WrittenAt(b, v)).Keys == c.Keys
            && UpdateArchive(b, DeleteAll(WrittenAt(b, v)), v, false) == a
  {
    var b := UpdateArchive(a, c, v, true);
    assert WrittenAt(b, v) == KeysAt(c, v);
    var d := DeleteAll(WrittenAt(b, v));
    forall k: Key ensures k in d <==> k in c {
      if k in c { assert Entry(k, v) in KeysAt(c, v) && Entry(k, v).key == k; }
    }
    assert d.Keys == c.Keys;
    assert KeysAt(d, v) == KeysAt(c, v);
    assert AtVersion(c, v).Keys == KeysAt(c, v);
    assert b.history - KeysAt(c, v) == a.history;
    assert b.byVersion - KeysAt(c, v) == a.byVersion;
  }

  lemma EmptyTogether(c: Changes, d: Changes)
    requires c.Keys == d.Keys
    ensures c == map[] <==> d == map[]
  {
    if c == map[] {
      assert d.Keys == {};
    }
    if d == map[] {
      assert c.Keys == {};
    }
  }

  lemma RootUndone(roots: Roots, v: Version, r: RootHash)
    requires v !in roots
    ensures UpdateRoots(UpdateRoots(roots, PutRoot(v, r)), DeleteRoot(v)) == roots
  {
  }

  lemma ArchivalUndone(a: Archival, b: Slot, v: Version, live: Live)
    requires ArchiveBefore(a.user, v) && ArchiveBefore(a.kernel, v) && v !in a.roots && WellFormed(b)
    ensures RollbackArchival(Flat(live, WriteArchival(a, At(b, v), v, true)), v) == (Flat(live, a), Recovered)
  {
    ArchiveUndone(a.user, b.user, v);
    ArchiveUndone(a.kernel, b.kernel, v);
    RootUndone(a.roots, v, b.root);
    var w := WriteArchival(a, At(b, v), v, true);
    EmptyTogether(DeleteAll(WrittenAt(w.user, v)), b.user);
    EmptyTogether(DeleteAll(WrittenAt(w.kernel, v)), b.kernel);
  }

  /** Taking back the last version restores the archival store exactly, and never trips over its own check. */
  lemma RollbackIsInverse(h: History, b: Slot, live: Live)
    requires |h| < MAX_SLOTS && WellFormed(b)
    ensures RollbackArchival(Flat(live, ArchivalAfter(h + [b])), |h|) == (Flat(live, ArchivalAfter(h)), Recovered)
  {
    EntriesAfter(h, User);
    EntriesAfter(h, Kernel);
    OneMoreSlot(h, b);
    RootsByIndex(h, |h|);
    ArchivalUndone(ArchivalAfter(h), b, |h|, live);
  }

  // ------------------------------------------------------- what is readable

  function LiveValue(m: LiveTable, k: Key): Value {
    if k in m then Some(m[k]) else None
  }

  lemma LiveUpdated(m: LiveTable, c: Changes, k: Key)
    ensures LiveValue(UpdateLive(m, c), k) == if k in c then c[k] else LiveValue(m, k)
  {
  }

  /** A commit leaves the reads at older versions alone. */
  lemma OlderReads(a: Archive, c: Changes, last: Version, k: Key, v: Version)
    requires v < last
    ensures Latest(UpdateArchive(a, c, last, true).history, k, v) == Latest(a.history, k, v)
  {
    LatestAgrees(UpdateArchive(a, c, last, true).history, a.history, k, v);
  }

  /** At the new version a key reads what the commit wrote, or else what it read before. */
  lemma NewestReads(a: Archive, c: Changes, last: Version, k: Key)
    requires ArchiveBefore(a, last)
    ensures Latest(UpdateArchive(a, c, last, true).history, k, last) ==
            if k in c then c[k] else if last == 0 then None else Latest(a.history, k, last - 1)
  {
    var t := UpdateArchive(a, c, last, true).history;
    if k in c {
      assert Entry(k, last) in AtVersion(c, last);
    } else {
      assert Entry(k, last) !in t;
      if last > 0 {
        LatestAgrees(t, a.history, k, last - 1);
      }
    }
  }

  /** The latest of `n` versions of an archive reads like a live table. */
  predicate ReadsLike(a: Archive, m: LiveTable, n: int, k: Key)
    requires 0 <= n <= MAX_SLOTS
  {
    LiveValue(m, k) == if n == 0 then None else Latest(a.history, k, n - 1)
  }

  lemma StepReads(a: Archive, m: LiveTable, c: Changes, n: Version, k: Key)
    requires ArchiveBefore(a, n) && ReadsLike(a, m, n, k)
    ensures ReadsLike(UpdateArchive(a, c, n, true), UpdateLive(m, c), n + 1, k)
  {
    NewestReads(a, c, n, k);
    LiveUpdated(m, c, k);
  }

  /** At its latest version the archival store reads like the live store. */
  lemma {:induction false} LatestVersionReads(h: History, ns: Namespace, k: Key)
    requires |h| <= MAX_SLOTS
    ensures ReadsLike(ArchiveAfter(h, ns), TableAfter(h, ns), |h|, k)
    decreases |h|
  {
    if h != [] {
      var init := h[..|h| - 1];
      LatestVersionReads(init, ns, k);
      EntriesAfter(init, ns);
      StepReads(ArchiveAfter(init, ns), TableAfter(init, ns), In(h[|h| - 1], ns), |init|, k);
    }
  }

  function ReadAt(h: History, ns: Namespace, k: Key, v: Version): Value
    requires |h| <= MAX_SLOTS
  {
    Latest(ArchiveAfter(h, ns).history, k, v)
  }

  lemma LastSlot(h: History, ns: Namespace)
    requires 0 < |h| <= MAX_SLOTS
    ensures ArchiveAfter(h, ns) ==
            UpdateArchive(ArchiveAfter(h[..|h| - 1], ns), In(h[|h| - 1], ns), |h| - 1, true)
  {
  }

  lemma LastSlotIsNewer(h: History, ns: Namespace, k: Key, v: Version)
    requires v < |h| - 1 < MAX_SLOTS
    ensures ReadAt(h, ns, k, v) == ReadAt(h[..|h| - 1], ns, k, v)
  {
    var a, c, last: Version := ArchiveAfter(h[..|h| - 1], ns), In(h[|h| - 1], ns), |h| - 1;
    LastSlot(h, ns);
    OlderReads(a, c, last, k, v);
  }

  /** What a version reads is settled once it is committed. */
  lemma {:induction false} ReadsAreSettled(h: History, ns: Namespace, k: Key, v: Version)
    requires v < |h| <= MAX_SLOTS
    ensures ReadAt(h, ns, k, v) == ReadAt(h[..v + 1], ns, k, v)
    decreases |h|
  {
    if v == |h| - 1 {
      assert h[..v + 1] == h;
    } else {
      LastSlotIsNewer(h, ns, k, v);
      ReadsAreSettled(h[..|h| - 1], ns, k, v);
      assert h[..|h| - 1][..v + 1] == h[..v + 1];
    }
  }

  /** At any version the archival store reads like the live store right after that version's commit. */
  lemma ArchiveReads(h: History, ns: Namespace, k: Key, v: Version)
    requires v < |h| <= MAX_SLOTS
    ensures ReadAt(h, ns, k, v) == LiveValue(TableAfter(h[..v + 1], ns), k)
  {
    ReadsAreSettled(h, ns, k, v);
    LatestVersionReads(h[..v + 1], ns, k);
  }
}
