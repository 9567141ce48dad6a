/** Overlays of uncommitted state over the two NOMT databases, and sessions that read through them. */
module NomtSessions {
  import opened Wrappers
  import opened Bytes
  import opened Overlays

  type Value = seq<byte>
  type KeyPath = seq<byte>

  /** The writes of one block to one namespace; None deletes. */
  type Overlay = map<KeyPath, Option<Value>>

  datatype StateOverlay = StateOverlay(user: Overlay, kernel: Overlay)

  type Store = map<KeyPath, Value>

  datatype Stores = Stores(user: Store, kernel: Store)

  function Get(s: Store, k: KeyPath): Option<Value> {
    if k in s then Some(s[k]) else None
  }

  function ApplyBoth(s: Stores, o: StateOverlay): Stores {
    Stores(Apply(s.user, o.user), Apply(s.kernel, o.kernel))
  }

  /** What a session reads: the newest overlay that knows the key, or else the store. */
  function View(overlays: seq<Overlay>, base: Store, k: KeyPath): Option<Value> {
    if overlays == [] then Get(base, k)
    else if k in overlays[0] then overlays[0][k]
    else View(overlays[1..], base, k)
  }

  /** Committing the oldest overlay underneath a session does not show. */
  lemma {:induction false} CommitUnderneath(overlays: seq<Overlay>, base: Store, o: Overlay, k: KeyPath)
    ensures View(overlays, Apply(base, o), k) == View(overlays + [o], base, k)
    decreases |overlays|
  {
    if overlays == [] {
      assert ([] + [o])[1..] == [];
    } else {
      assert (overlays + [o])[1..] == overlays[1..] + [o];
      CommitUnderneath(overlays[1..], base, o, k);
    }
  }

  function Users(all: seq<StateOverlay>): seq<Overlay> { seq(|all|, i requires 0 <= i < |all| => all[i].user) }
  function Kernels(all: seq<StateOverlay>): seq<Overlay> { seq(|all|, i requires 0 <= i < |all| => all[i].kernel) }

  class NomtStateDb {
    var user: Store
    var kernel: Store

    function Value(): Stores
      reads this
    {
      Stores(user, kernel)
    }

    constructor ()
      ensures Value() == Stores(map[], map[])
    {
      user, kernel := map[], map[];
    }

    /** Kernel first, then user. */
    method Commit(overlay: StateOverlay)
      modifies this
      ensures Value() == ApplyBoth(old(Value()), overlay)
      ensures user == Apply(old(user), overlay.user) && kernel == Apply(old(kernel), overlay.kernel)
    {
      kernel := Apply(kernel, overlay.kernel);
      user := Apply(user, overlay.user);
    }
  }

  /** The snapshots of all blocks, shared between the storage manager and the session builders. */
  class Snapshots<Ref(==)> {
    var all: map<Ref, StateOverlay>

    constructor ()
      ensures all == map[]
    {
      all := map[];
    }
  }

  /** The overlays that the references still lead to, in the order of the references. */
  function Found<Ref>(refs: seq<Ref>, all: map<Ref, StateOverlay>): seq<StateOverlay> {
    if refs == [] then []
    else (if refs[0] in all then [all[refs[0]]] else []) + Found(refs[1..], all)
  }

  lemma {:induction false} FoundAppend<Ref>(a: seq<Ref>, b: seq<Ref>, all: map<Ref, StateOverlay>)
    ensures Found(a + b, all) == Found(a, all) + Found(b, all)
    decreases |a|
  {
    if a == [] {
      assert a + b == b;
    } else {
      assert (a + b)[1..] == a[1..] + b;
      FoundAppend(a[1..], b, all);
    }
  }

  lemma FoundOneMore<Ref>(refs: seq<Ref>, i: nat, all: map<Ref, StateOverlay>)
    requires i < |refs|
    ensures Found(refs[..i + 1], all) == Found(refs[..i], all) + if refs[i] in all then [all[refs[i]]] else []
  {
    assert refs[..i + 1] == refs[..i] + [refs[i]];
    FoundAppend(refs[..i], [refs[i]], all);
    assert [refs[i]][1..] == [];
  }

  /** A session: overlays, newest first, over the database of its namespace. */
  datatype Session = Session(overlays: seq<Overlay>, base: Store) {
    function Read(k: KeyPath): Option<Value> { View(overlays, base, k) }
  }

  class NomtSessionBuilder<Ref(==)> {
    const stateDb: NomtStateDb
    const refs: seq<Ref>
    const snapshots: Snapshots<Ref>

    constructor (stateDb: NomtStateDb, refs: seq<Ref>, snapshots: Snapshots<Ref>)
      ensures this.stateDb == stateDb && this.refs == refs && this.snapshots == snapshots
    {
      this.stateDb, this.refs, this.snapshots := stateDb, refs, snapshots;
    }

    method BeginUserSession() returns (session: Session)
      ensures session == Session(Users(Found(refs, snapshots.all)), stateDb.user)
    {
      var overlays: seq<Overlay> := [];
      for i := 0 to |refs|
        invariant overlays == Users(Found(refs[..i], snapshots.all))
      {
        FoundOneMore(refs, i, snapshots.all);
        if refs[i] in snapshots.all {
          overlays := overlays + [snapshots.all[refs[i]].user];
        }
      }
      assert refs[..|refs|] == refs;
      session := Session(overlays, stateDb.user);
    }

    method BeginKernelSession() returns (session: Session)
      ensures session == Session(Kernels(Found(refs, snapshots.all)), stateDb.kernel)
    {
      var overlays: seq<Overlay> := [];
      for i := 0 to |refs|
        invariant overlays == Kernels(Found(refs[..i], snapshots.all))
      {
        FoundOneMore(refs, i, snapshots.all);
        if refs[i] in snapshots.all {
          overlays := overlays + [snapshots.all[refs[i]].kernel];
        }
      }
      assert refs[..|refs|] == refs;
      session := Session(overlays, stateDb.kernel);
    }

    /** Both sessions are built from the same snapshots, and so at the same cut. */
    method BeginBothSessions() returns (user: Session, kernel: Session)
      ensures user == Session(Users(Found(refs, snapshots.all)), stateDb.user)
      ensures kernel == Session(Kernels(Found(refs, snapshots.all)), stateDb.kernel)
    {
      var kernels: seq<Overlay>, users: seq<Overlay> := [], [];
      for i := 0 to |refs|
        invariant kernels == Kernels(Found(refs[..i], snapshots.all))
        invariant users == Users(Found(refs[..i], snapshots.all))
      {
        FoundOneMore(refs, i, snapshots.all);
        if refs[i] in snapshots.all {
          kernels := kernels + [snapshots.all[refs[i]].kernel];
          users := users + [snapshots.all[refs[i]].user];
        }
      }
      assert refs[..|refs|] == refs;
      kernel := Session(kernels, stateDb.kernel);
      user := Session(users, stateDb.user);
    }
  }
}
