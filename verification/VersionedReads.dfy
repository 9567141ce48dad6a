/** Reading a versioned table: the greatest entry at or below a key and version. */
module VersionedReads {
  import opened Wrappers
  import opened Bytes
  import opened KeyCodec

  /** `None` is a deletion that is kept as an entry of its own. */
  type Value = Option<seq<byte>>

  type Table = map<Entry, Value>

  /** `ensure_version_is_correct`: what to make of the entry a backwards seek has found. */
  function EnsureVersionIsCorrect(key: Key, version: Version, found: Option<(Entry, Value)>): Result<Value, string> {
    match found
    case None => Ok(None)
    case Some((e, value)) =>
      if e.key != key then Ok(None)
      else if e.version <= version then Ok(value)
      else Err("Bug! iterator isn't returning expected values.")
  }

  /** `e` is the greatest entry of the table that is not above `at`. */
  ghost predicate IsPrev(t: Table, at: Entry, e: Entry) {
    && e in t && !EntryLt(at, e)
    && forall x :: x in t && !EntryLt(at, x) ==> !EntryLt(e, x)
  }

  ghost function GetPrev(t: Table, at: Entry): Option<(Entry, Value)> {
    if exists e :: IsPrev(t, at, e) then var e :| IsPrev(t, at, e); Some((e, t[e])) else None
  }

  ghost function GetValueOption(t: Table, key: Key, version: Version): Result<Value, string> {
    EnsureVersionIsCorrect(key, version, GetPrev(t, Entry(key, version)))
  }

  /** The value of the newest entry of `key` at or below `version`. */
  function Latest(t: Table, key: Key, version: Version): Value {
    if Entry(key, version) in t then t[Entry(key, version)]
    else if version == 0 then None
    else Latest(t, key, version - 1)
  }

  /** The version that entry has, if there is one. */
  function Newest(t: Table, key: Key, version: Version): (o: Option<Version>)
    ensures o.None? ==> (forall w :: 0 <= w <= version ==> Entry(key, w) !in t) && Latest(t, key, version) == None
    ensures o.Some? ==>
              && o.value <= version && Entry(key, o.value) in t
              && Latest(t, key, version) == t[Entry(key, o.value)]
              && forall w :: o.value < w <= version ==> Entry(key, w) !in t
  {
    if Entry(key, version) in t then Some(version)
    else if version == 0 then None
    else Newest(t, key, version - 1)
  }

  lemma PrevIsUnique(t: Table, at: Entry, d: Entry, e: Entry)
    requires IsPrev(t, at, d) && IsPrev(t, at, e)
    ensures d == e
  {
    EntryTotal(d, e);
  }

  lemma NewestIsPrev(t: Table, key: Key, version: Version)
    requires Newest(t, key, version).Some?
    ensures IsPrev(t, Entry(key, version), Entry(key, Newest(t, key, version).value))
  {
    var at, e := Entry(key, version), Entry(key, Newest(t, key, version).value);
    EntryTotal(at, e);
    KeyTotal(key, key);
    forall x | x in t && !EntryLt(at, x) ensures !EntryLt(e, x) {
      if EntryLt(e, x) {
        EntryTotal(at, x);
        if x != at {
          VersionsAreNeighbours(e, x, at);
        }
        assert false;
      }
    }
  }

  /** A versioned read finds the newest entry not above the version, and never reports its "Bug!". */
  lemma ReadsLatest(t: Table, key: Key, version: Version)
    ensures GetValueOption(t, key, version) == Ok(Latest(t, key, version))
  {
    var at := Entry(key, version);
    var o := Newest(t, key, version);
    if o.Some? {
      var e := Entry(key, o.value);
      NewestIsPrev(t, key, version);
      var d :| IsPrev(t, at, d) && GetPrev(t, at) == Some((d, t[d]));
      PrevIsUnique(t, at, d, e);
    } else if GetPrev(t, at).Some? {
      var d :| IsPrev(t, at, d) && GetPrev(t, at) == Some((d, t[d]));
      if d.key == key {
        assert false;
      }
    }
  }

  /** Reads at a version depend only on the entries at or below it. */
  lemma {:induction false} LatestAgrees(t: Table, u: Table, key: Key, version: Version)
    requires forall w: Version :: w <= version ==>
               && (Entry(key, w) in t <==> Entry(key, w) in u)
               && (Entry(key, w) in t ==> t[Entry(key, w)] == u[Entry(key, w)])
    ensures Latest(t, key, version) == Latest(u, key, version)
  {
    if Entry(key, version) !in t && version > 0 {
      LatestAgrees(t, u, key, version - 1);
    }
  }

  /** An entry with nothing above it up to `version` is what a read at `version` gives. */
  lemma {:induction false} LatestIs(t: Table, key: Key, w: Version, version: Version)
    requires w <= version && Entry(key, w) in t
    requires forall x: Version :: w < x <= version ==> Entry(key, x) !in t
    ensures Latest(t, key, version) == t[Entry(key, w)]
    decreases version
  {
    if w < version {
      assert Entry(key, version) !in t;
      LatestIs(t, key, w, version - 1);
    }
  }
}
