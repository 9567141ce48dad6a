/** Slot keys: one byte string, kept in a fixed array or, if it is too long, on the heap. */
module SlotKey {
  import opened Wrappers
  import opened Bytes
  import opened KeyCodec

  const INLINE_KEY_BYTES: nat := 70
  const INLINE_KEY_METADATA_BYTES: nat := 3
  const MAX_INLINE_KEY_LEN: nat := INLINE_KEY_BYTES - INLINE_KEY_METADATA_BYTES

  datatype Prefix = Prefix(moduleTag: byte, itemTag: byte)

  /** Inline: length, module tag, item tag, key bytes, and whatever follows them. */
  datatype KeyContents = Inline(cells: seq<byte>) | Reference(bytes: seq<byte>)

  /** Contents that every reader below can read. */
  predicate Readable(c: KeyContents) {
    match c
    case Inline(cells) => |cells| == INLINE_KEY_BYTES && cells[0] <= MAX_INLINE_KEY_LEN
    case Reference(bytes) => |bytes| >= 2
  }

  // -------------------------------------------------------------------- reading

  function WithPrefix(c: KeyContents): seq<byte>
    requires Readable(c)
  {
    match c
    case Inline(cells) => cells[1..3 + cells[0]]
    case Reference(bytes) => bytes
  }

  function WithoutPrefix(c: KeyContents): seq<byte>
    requires Readable(c)
  {
    match c
    case Inline(cells) => cells[3..3 + cells[0]]
    case Reference(bytes) => bytes[2..]
  }

  function Len(c: KeyContents): nat
    requires Readable(c)
  {
    match c
    case Inline(cells) => cells[0] + 2
    case Reference(bytes) => |bytes|
  }

  function PrefixOf(c: KeyContents): Prefix
    requires Readable(c)
  {
    match c
    case Inline(cells) => Prefix(cells[1], cells[2])
    case Reference(bytes) => Prefix(bytes[0], bytes[1])
  }

  /** The readers agree: they read one byte string, which starts with the prefix. */
  lemma ReadersAgree(c: KeyContents)
    requires Readable(c)
    ensures WithPrefix(c) == [PrefixOf(c).moduleTag, PrefixOf(c).itemTag] + WithoutPrefix(c)
    ensures Len(c) == |WithPrefix(c)| == |WithoutPrefix(c)| + 2
  {
  }

  // ------------------------------------------------------------------- canonical

  function Zeros(n: nat): seq<byte> { seq(n, _ => 0) }

  /** The one representation of a prefix and key material. */
  function Canonical(p: Prefix, material: seq<byte>): KeyContents {
    if |material| <= MAX_INLINE_KEY_LEN then
      Inline([|material|, p.moduleTag, p.itemTag] + material + Zeros(MAX_INLINE_KEY_LEN - |material|))
    else
      Reference([p.moduleTag, p.itemTag] + material)
  }

  predicate IsCanonical(c: KeyContents) {
    Readable(c) && c == Canonical(PrefixOf(c), WithoutPrefix(c))
  }

  /** What is put in is what is read, in either form. */
  lemma CanonicalReads(p: Prefix, material: seq<byte>)
    ensures var c := Canonical(p, material);
            && Readable(c) && IsCanonical(c)
            && PrefixOf(c) == p && WithoutPrefix(c) == material
            && WithPrefix(c) == [p.moduleTag, p.itemTag] + material && Len(c) == |material| + 2
            && (c.Inline? ==> c.cells[3 + |material|..] == seq(INLINE_KEY_BYTES - 3 - |material|, _ => 0))
  {
  }

  /** Canonical keys that read the same are the same, so comparing bytes compares keys. */
  lemma CanonicalIsUnique(a: KeyContents, b: KeyContents)
    requires IsCanonical(a) && IsCanonical(b)
    ensures a == b <==> WithPrefix(a) == WithPrefix(b)
  {
    ReadersAgree(a);
    ReadersAgree(b);
    if WithPrefix(a) == WithPrefix(b) {
      assert WithoutPrefix(a) == WithPrefix(a)[2..] == WithoutPrefix(b);
      assert PrefixOf(a) == PrefixOf(b) by {
        assert WithPrefix(a)[0] == PrefixOf(a).moduleTag && WithPrefix(a)[1] == PrefixOf(a).itemTag;
        assert WithPrefix(b)[0] == PrefixOf(b).moduleTag && WithPrefix(b)[1] == PrefixOf(b).itemTag;
      }
    }
  }

  /** The order of keys, whatever their forms: by prefix, then by key material. */
  predicate KeyBefore(a: KeyContents, b: KeyContents)
    requires Readable(a) && Readable(b)
  {
    LexLt(WithPrefix(a), WithPrefix(b))
  }

  lemma OrderIsByPrefixThenMaterial(a: KeyContents, b: KeyContents)
    requires Readable(a) && Readable(b)
    ensures KeyBefore(a, b) <==>
            var p, q := PrefixOf(a), PrefixOf(b);
            || p.moduleTag < q.moduleTag
            || (p.moduleTag == q.moduleTag && p.itemTag < q.itemTag)
            || (p == q && LexLt(WithoutPrefix(a), WithoutPrefix(b)))
  {
    var p, q := PrefixOf(a), PrefixOf(b);
    ReadersAgree(a);
    ReadersAgree(b);
    var x, y := WithoutPrefix(a), WithoutPrefix(b);
    LexByHead([p.moduleTag, p.itemTag], [q.moduleTag, q.itemTag], x, y);
    LexByHead([p.moduleTag], [q.moduleTag], [p.itemTag], [q.itemTag]);
    assert [p.moduleTag] + [p.itemTag] == [p.moduleTag, p.itemTag];
    assert [q.moduleTag] + [q.itemTag] == [q.moduleTag, q.itemTag];
  }

  /** For canonical keys the order is total, with equality of keys as its equality. */
  lemma OrderIsTotal(a: KeyContents, b: KeyContents)
    requires IsCanonical(a) && IsCanonical(b)
    ensures a == b || KeyBefore(a, b) || KeyBefore(b, a)
    ensures !(KeyBefore(a, b) && KeyBefore(b, a)) && (a == b ==> !KeyBefore(a, b))
  {
    CanonicalIsUnique(a, b);
    LexTotal(WithPrefix(a), WithPrefix(b));
  }

  // ----------------------------------------------------------------- the builder

  /** The cells with a new length, and `other` behind the old key. */
  function Written(cells: seq<byte>, oldLen: nat, other: seq<byte>): seq<byte>
    requires |cells| == INLINE_KEY_BYTES && oldLen + |other| <= MAX_INLINE_KEY_LEN
  {
    [oldLen + |other|] + cells[1..3 + oldLen] + other + cells[3 + oldLen + |other|..]
  }

  lemma CopyIsWritten(before: seq<byte>, after: seq<byte>, oldLen: nat, other: seq<byte>)
    requires |before| == |after| == INLINE_KEY_BYTES && oldLen + |other| <= MAX_INLINE_KEY_LEN
    requires after[0] == oldLen + |other|
    requires forall i :: 0 < i < 3 + oldLen ==> after[i] == before[i]
    requires forall i :: 0 <= i < |other| ==> after[3 + oldLen + i] == other[i]
    requires forall i :: 3 + oldLen + |other| <= i < INLINE_KEY_BYTES ==> after[i] == before[i]
    ensures after == Written(before, oldLen, other)
  {
    var end := 3 + oldLen + |other|;
    assert after[1..3 + oldLen] == before[1..3 + oldLen];
    assert after[3 + oldLen..end] == other;
    assert after[end..] == before[end..];
    assert after == [after[0]] + after[1..3 + oldLen] + after[3 + oldLen..end] + after[end..];
  }

  lemma WrittenIsCanonical(p: Prefix, material: seq<byte>, other: seq<byte>)
    requires |material| + |other| <= MAX_INLINE_KEY_LEN
    ensures Inline(Written(Canonical(p, material).cells, |material|, other)) == Canonical(p, material + other)
  {
  }

  class InlineKey {
    const cells: array<byte>

    ghost predicate Valid()
      reads this, cells
    {
      cells.Length == INLINE_KEY_BYTES && cells[0] <= MAX_INLINE_KEY_LEN
    }

    function Contents(): KeyContents
      reads this, cells
    {
      Inline(cells[..])
    }

    function LenExcludingPrefix(): nat
      requires Valid()
      reads this, cells
    {
      cells[0]
    }

    /** Without any key material. */
    constructor (p: Prefix)
      ensures Valid() && fresh(cells) && Contents() == Canonical(p, [])
    {
      cells := new byte[INLINE_KEY_BYTES](_ => 0);
      new;
      cells[1] := p.moduleTag;
      cells[2] := p.itemTag;
      assert cells[..] == [0, p.moduleTag, p.itemTag] + [] + Zeros(MAX_INLINE_KEY_LEN);
    }

    /** Appends in place; without room for all of it, nothing is changed. */
    method TryExtend(other: seq<byte>, ghost p: Prefix, ghost material: seq<byte>) returns (ok: bool)
      requires Valid() && |material| <= MAX_INLINE_KEY_LEN && Contents() == Canonical(p, material)
      modifies cells
      ensures Valid() && ok == (|material| + |other| <= MAX_INLINE_KEY_LEN)
      ensures Contents() == if ok then Canonical(p, material + other) else old(Contents())
    {
      CanonicalReads(p, material);
      var originalLen := LenExcludingPrefix();
      var newLen := originalLen + |other|;
      if newLen > MAX_INLINE_KEY_LEN {
        return false;
      }
      ghost var before := cells[..];
      cells[0] := newLen;
      forall i | 0 <= i < |other| {
        cells[3 + originalLen + i] := other[i];
      }
      ok := true;
      CopyIsWritten(before, cells[..], originalLen, other);
      WrittenIsCanonical(p, material, other);
    }
  }

  datatype Form = InlineForm(key: InlineKey) | ReferenceForm(bytes: seq<byte>)

  class SlotKeyBuilder {
    var form: Form
    ghost const prefix: Prefix
    ghost var material: seq<byte>

    function Contents(): KeyContents
      reads this, if form.InlineForm? then {form.key, form.key.cells} else {}
    {
      match form
      case InlineForm(key) => key.Contents()
      case ReferenceForm(bytes) => Reference(bytes)
    }

    ghost predicate Valid()
      reads this, if form.InlineForm? then {form.key, form.key.cells} else {}
    {
      Contents() == Canonical(prefix, material) && (form.InlineForm? ==> form.key.Valid())
    }

    constructor (p: Prefix)
      ensures Valid() && prefix == p && material == []
      ensures form.InlineForm? ==> fresh(form.key.cells)
    {
      var key := new InlineKey(p);
      form := InlineForm(key);
      prefix := p;
      material := [];
    }

    /** Writes are appended; the first one that does not fit moves the key to the heap. */
    method Write(buf: seq<byte>) returns (n: nat)
      requires Valid()
      modifies this, if form.InlineForm? then {form.key.cells} else {}
      ensures Valid() && material == old(material) + buf && n == |buf|
      ensures form.InlineForm? ==> old(form) == form
    {
      match form {
        case InlineForm(key) =>
          CanonicalReads(prefix, material);
          var ok := key.TryExtend(buf, prefix, material);
          if !ok {
            var bytes := WithPrefix(key.Contents());
            form := ReferenceForm(bytes + buf);
          }
        case ReferenceForm(bytes) =>
          form := ReferenceForm(bytes + buf);
      }
      ghost var tags: seq<byte> := [prefix.moduleTag, prefix.itemTag];
      assert tags + (material + buf) == tags + material + buf;
      material := material + buf;
      n := |buf|;
    }
  }

  function Concat(writes: seq<seq<byte>>): seq<byte> {
    if writes == [] then [] else Concat(writes[..|writes| - 1]) + writes[|writes| - 1]
  }

  /** However the material is cut into writes, the key is the canonical one. */
  method Build(p: Prefix, writes: seq<seq<byte>>) returns (key: KeyContents)
    ensures key == Canonical(p, Concat(writes))
  {
    var b := new SlotKeyBuilder(p);
    for i := 0 to |writes|
      invariant fresh(b) && (b.form.InlineForm? ==> fresh(b.form.key.cells))
      invariant b.Valid() && b.prefix == p && b.material == Concat(writes[..i])
    {
      var n := b.Write(writes[i]);
      assert writes[..i + 1][..i] == writes[..i];
    }
    assert writes[..|writes|] == writes;
    key := b.Contents();
  }

  // ------------------------------------------------------------ from and to bytes

  /** The source panics on slices without a prefix. */
  method FromSliceIncludingPrefix(slice: seq<byte>) returns (key: KeyContents)
    requires |slice| >= 2
    ensures key == Canonical(Prefix(slice[0], slice[1]), slice[2..])
    ensures IsCanonical(key) && WithPrefix(key) == slice
  {
    key := Build(Prefix(slice[0], slice[1]), [slice[2..]]);
    OneWrite(slice[2..]);
    CanonicalReads(Prefix(slice[0], slice[1]), slice[2..]);
  }

  lemma OneWrite(w: seq<byte>)
    ensures Concat([w]) == w
  {
    assert [w][..0] == [];
  }

  /** The first bytes of the material under the same prefix, or nothing if there are not so many. */
  method TruncateTo(key: KeyContents, n: nat) returns (r: Option<KeyContents>)
    requires Readable(key)
    ensures r.None? <==> n > |WithoutPrefix(key)|
    ensures r.Some? ==> r.value == Canonical(PrefixOf(key), WithoutPrefix(key)[..n])
  {
    ReadersAgree(key);
    if n > Len(key) - 2 {
      return None;
    }
    var short := Build(PrefixOf(key), [WithoutPrefix(key)[..n]]);
    OneWrite(WithoutPrefix(key)[..n]);
    r := Some(short);
  }

  /** Borsh writes the byte string with its length; it refuses lengths of 2^32 and more. */
  function Serialize(c: KeyContents): Option<seq<byte>>
    requires Readable(c)
  {
    var bytes := WithPrefix(c);
    if |bytes| < U32_LIMIT then Some(Borsh(bytes)) else None
  }

  datatype ReadError = UnexpectedEnd | TooShort

  /** A byte string with its length in front, and what follows it. */
  function ReadBytes(input: seq<byte>): Result<(seq<byte>, seq<byte>), ReadError> {
    if |input| < 4 then Err(UnexpectedEnd)
    else
      var len := FromLittleEndian(input[..4]);
      if |input| < 4 + len then Err(UnexpectedEnd)
      else Ok((input[4..4 + len], input[4 + len..]))
  }

  /** Reads one key and leaves what follows it. */
  function Deserialize(input: seq<byte>): Result<(KeyContents, seq<byte>), ReadError> {
    var r := ReadBytes(input);
    if r.Err? then Err(r.error)
    else
      var (bytes, rest) := r.value;
      if |bytes| < 2 then Err(TooShort)
      else Ok((Canonical(Prefix(bytes[0], bytes[1]), bytes[2..]), rest))
  }

  lemma ReadBytesInverts(bytes: Key, rest: seq<byte>)
    ensures ReadBytes(Borsh(bytes) + rest) == Ok((bytes, rest))
  {
    Widths();
    var input := Borsh(bytes) + rest;
    LittleEndianRoundTrip(4, |bytes|);
    assert input[..4] == LittleEndian(4, |bytes|);
    assert input[4..4 + |bytes|] == bytes && input[4 + |bytes|..] == rest;
  }

  lemma ReadBytesIsWritten(input: seq<byte>)
    requires ReadBytes(input).Ok?
    ensures var (bytes, rest) := ReadBytes(input).value; |bytes| < U32_LIMIT && input == Borsh(bytes) + rest
  {
    Widths();
    var (bytes, rest) := ReadBytes(input).value;
    LittleEndianIsOnto(input[..4]);
    assert input == input[..4] + bytes + rest;
  }

  /** A written key is read back as it was, and the reader stops at its end. */
  lemma RoundTrip(c: KeyContents, rest: seq<byte>)
    requires IsCanonical(c) && Serialize(c).Some?
    ensures Deserialize(Serialize(c).value + rest) == Ok((c, rest))
  {
    var bytes := WithPrefix(c);
    ReadBytesInverts(bytes, rest);
    ReadersAgree(c);
    assert bytes[2..] == WithoutPrefix(c);
    assert bytes[0] == PrefixOf(c).moduleTag && bytes[1] == PrefixOf(c).itemTag;
  }

  /** And nothing else is accepted: what is read is a canonical key whose encoding was there. */
  lemma ReadIsWritten(input: seq<byte>)
    requires Deserialize(input).Ok?
    ensures var (c, rest) := Deserialize(input).value;
            IsCanonical(c) && Serialize(c).Some? && input == Serialize(c).value + rest
  {
    ReadBytesIsWritten(input);
    var (bytes, rest) := ReadBytes(input).value;
    CanonicalReads(Prefix(bytes[0], bytes[1]), bytes[2..]);
    assert [bytes[0], bytes[1]] + bytes[2..] == bytes;
  }

  ghost predicate StartsWithString(input: seq<byte>) {
    exists bytes: Key, rest: seq<byte> :: input == Borsh(bytes) + rest
  }

  /** Why an input is refused: no whole byte string in front, or one that is too short for a prefix. */
  lemma RefusedExactly(input: seq<byte>)
    ensures Deserialize(input) == Err(UnexpectedEnd) <==> !StartsWithString(input)
    ensures Deserialize(input) == Err(TooShort) <==>
            exists bytes: Key, rest: seq<byte> :: |bytes| < 2 && input == Borsh(bytes) + rest
  {
    if ReadBytes(input).Ok? {
      ReadBytesIsWritten(input);
    }
    forall bytes: Key, rest: seq<byte> | input == Borsh(bytes) + rest
      ensures ReadBytes(input) == Ok((bytes, rest))
    {
      ReadBytesInverts(bytes, rest);
    }
  }
}
