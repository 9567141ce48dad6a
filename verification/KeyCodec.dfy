/**
 The encodings of the accessory tables' keys, and the order they induce.

 The tables are ordered by the bytes of the encoded key.  A key is written
 borsh-style, with its length first, so two versions of one key are neighbours
 and no other key can come between them.
 */
module KeyCodec {
  import opened Bytes

  type Key = k: seq<byte> | |k| < U32_LIMIT witness []
  type Version = v: nat | v <= U64_MAX

  datatype Entry = Entry(key: Key, version: Version)

  function Borsh(k: Key): seq<byte> {
    Widths();
    LittleEndian(4, |k|) + k
  }

  /** Key of the main table: the key's bytes, then the version in big-endian order. */
  function EncodeEntry(e: Entry): seq<byte> {
    Widths();
    Borsh(e.key) + BigEndian(8, e.version)
  }

  /** Key of the by-version index: the version first. */
  function EncodeIndex(e: Entry): seq<byte> {
    Widths();
    BigEndian(8, e.version) + Borsh(e.key)
  }

  predicate KeyLt(a: Key, b: Key) { LexLt(Borsh(a), Borsh(b)) }

  predicate EntryLt(a: Entry, b: Entry) {
    KeyLt(a.key, b.key) || (a.key == b.key && a.version < b.version)
  }

  predicate IndexLt(a: Entry, b: Entry) {
    a.version < b.version || (a.version == b.version && KeyLt(a.key, b.key))
  }

  /** The encodings of two different keys differ before either ends. */
  lemma BorshDecides(a: Key, b: Key, x: seq<byte>, y: seq<byte>)
    ensures LexLt(Borsh(a) + x, Borsh(b) + y) <==> KeyLt(a, b) || (a == b && LexLt(x, y))
    ensures Borsh(a) == Borsh(b) <==> a == b
  {
    Widths();
    var m, n := LittleEndian(4, |a|), LittleEndian(4, |b|);
    LittleEndianRoundTrip(4, |a|);
    LittleEndianRoundTrip(4, |b|);
    assert Borsh(a) + x == m + (a + x) && Borsh(b) + y == n + (b + y);
    LexByHead(m, n, a + x, b + y);
    LexByHead(m, n, a, b);
    if |a| == |b| {
      LexByHead(a, b, x, y);
    }
    assert Borsh(a)[..4] == m && Borsh(b)[..4] == n && Borsh(a)[4..] == a && Borsh(b)[4..] == b;
  }

  /** In the main table, entries are ordered by key and then by version. */
  lemma EncodedEntryOrder(a: Entry, b: Entry)
    ensures LexLt(EncodeEntry(a), EncodeEntry(b)) <==> EntryLt(a, b)
  {
    Widths();
    BorshDecides(a.key, b.key, BigEndian(8, a.version), BigEndian(8, b.version));
    BigEndianMonotone(8, a.version, b.version);
  }

  /** In the index, entries are ordered by version and then by key. */
  lemma EncodedIndexOrder(a: Entry, b: Entry)
    ensures LexLt(EncodeIndex(a), EncodeIndex(b)) <==> IndexLt(a, b)
  {
    Widths();
    LexByHead(BigEndian(8, a.version), BigEndian(8, b.version), Borsh(a.key), Borsh(b.key));
    BigEndianMonotone(8, a.version, b.version);
  }

  lemma KeyTotal(a: Key, b: Key)
    ensures !KeyLt(a, a)
    ensures KeyLt(a, b) ==> !KeyLt(b, a)
    ensures a != b ==> KeyLt(a, b) || KeyLt(b, a)
  {
    LexTotal(Borsh(a), Borsh(b));
    BorshDecides(a, b, [], []);
  }

  lemma EntryTotal(a: Entry, b: Entry)
    ensures !EntryLt(a, a)
    ensures EntryLt(a, b) ==> !EntryLt(b, a)
    ensures a != b ==> EntryLt(a, b) || EntryLt(b, a)
  {
    KeyTotal(a.key, b.key);
  }

  lemma EntryTransitive(a: Entry, b: Entry, c: Entry)
    requires EntryLt(a, b) && EntryLt(b, c)
    ensures EntryLt(a, c)
  {
    if KeyLt(a.key, b.key) && KeyLt(b.key, c.key) {
      LexTransitive(Borsh(a.key), Borsh(b.key), Borsh(c.key));
    }
  }

  /** Nothing sorts between two versions of one key but other versions of it. */
  lemma VersionsAreNeighbours(a: Entry, b: Entry, c: Entry)
    requires a.key == c.key && EntryLt(a, b) && EntryLt(b, c)
    ensures b.key == a.key && a.version < b.version < c.version
  {
    KeyTotal(a.key, b.key);
  }

  lemma {:induction false} ZerosFirst(n: nat, v: nat, x: seq<byte>)
    requires 0 < v < Power256(n)
    ensures LexLt(LittleEndian(n, 0), LittleEndian(n, v) + x)
  {
    var a, b := LittleEndian(n, 0), LittleEndian(n, v);
    assert a[0] == 0 && (b + x)[0] == b[0] == v % 256;
    if v % 256 == 0 {
      ZerosFirst(n - 1, v / 256, x);
      assert a[1..] == LittleEndian(n - 1, 0) && (b + x)[1..] == LittleEndian(n - 1, v / 256) + x;
    }
  }

  lemma EmptyKeyFirst(k: Key)
    requires k != []
    ensures KeyLt([], k)
  {
    Widths();
    ZerosFirst(4, |k|, k);
    assert Borsh([]) == LittleEndian(4, 0);
  }

  /** The half-open range from (v, empty) to (v + 1, empty) holds exactly the index entries of version v. */
  lemma RangeIsOneVersion(v: Version, e: Entry)
    requires v < U64_MAX
    ensures !IndexLt(e, Entry([], v)) && IndexLt(e, Entry([], v + 1)) <==> e.version == v
  {
    if e.key != [] {
      EmptyKeyFirst(e.key);
    }
    KeyTotal(e.key, []);
  }
}
