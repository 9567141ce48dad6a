/** Change sets for the flat state: last writes per key, in two namespaces, plus a root hash. */
module HistoricalState {
  import opened Wrappers
  import opened Bytes
  import opened KeyCodec
  import opened VersionedReads
  import opened AccessoryStore

  type Changes = map<Key, Value>

  datatype RootChange = PutRoot(version: Version, root: RootHash) | DeleteRoot(version: Version)

  datatype StateChanges = StateChanges(user: Changes, kernel: Changes, root: RootChange)

  const USER_WITHOUT_KERNEL := "User namespace got updated without kernel namespace, but always should be."

  method CollectBatch(pairs: seq<(Key, Value)>) returns (batch: Changes, updated: bool)
    ensures batch == LastWrites(pairs) && (updated <==> pairs != [])
  {
    batch, updated := map[], false;
    for i := 0 to |pairs|
      invariant batch == LastWrites(pairs[..i]) && (updated <==> i > 0)
    {
      var (key, value) := pairs[i];
      batch := batch[key := value];
      updated := true;
      assert pairs[..i + 1][..i] == pairs[..i];
    }
    assert pairs[..|pairs|] == pairs;
  }

  method MaterializeUserAndKernelValues(user: seq<(Key, Value)>, kernel: seq<(Key, Value)>)
    returns (r: Result<(Changes, Changes), string>)
    ensures r.Err? <==> user != [] && kernel == []
    ensures r.Ok? ==> r.value == (LastWrites(user), LastWrites(kernel))
  {
    var kernelBatch, hasKernelBeenUpdated := CollectBatch(kernel);
    var userBatch, hasUserBeenUpdated := CollectBatch(user);
    if hasUserBeenUpdated && !hasKernelBeenUpdated {
      return Err(USER_WITHOUT_KERNEL);
    }
    r := Ok((userBatch, kernelBatch));
  }

  /** What one slot changes. */
  datatype Slot = Slot(user: Changes, kernel: Changes, root: RootHash)

  /** User changes never come without kernel changes. */
  predicate WellFormed(b: Slot) { b.user != map[] ==> b.kernel != map[] }

  /** The change set of a slot that is committed as version `v`. */
  function At(b: Slot, v: Version): StateChanges {
    StateChanges(b.user, b.kernel, PutRoot(v, b.root))
  }

  method MaterializeValues(user: seq<(Key, Value)>, kernel: seq<(Key, Value)>, root: RootHash, version: Version)
    returns (r: Result<StateChanges, string>)
    ensures r.Err? <==> user != [] && kernel == []
    ensures r.Ok? ==>
              var b := Slot(LastWrites(user), LastWrites(kernel), root);
              WellFormed(b) && r.value == At(b, version)
  {
    var batches := MaterializeUserAndKernelValues(user, kernel);
    if batches.Err? {
      return Err(batches.error);
    }
    if user != [] {
      assert kernel[|kernel| - 1].0 in LastWrites(kernel);
    }
    r := Ok(StateChanges(batches.value.0, batches.value.1, PutRoot(version, root)));
  }
}
