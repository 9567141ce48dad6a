/** Blocks of the data availability chain, told apart by their hashes, and so by all their ancestors. */
module BlockTree {
  datatype Block = Genesis | Child(prev: Block, tag: nat)

  /** `h` is a strict descendant of `a`. */
  predicate Below(a: Block, h: Block) {
    h.Child? && (h.prev == a || Below(a, h.prev))
  }

  /** The blocks from `b` (first) down to, and without, `a`. */
  function Path(a: Block, b: Block): seq<Block>
    requires Below(a, b)
  {
    [b] + if b.prev == a then [] else Path(a, b.prev)
  }

  function Height(b: Block): nat {
    if b.Genesis? then 0 else 1 + Height(b.prev)
  }

  lemma {:induction false} BelowIsHigher(a: Block, h: Block)
    requires Below(a, h)
    ensures Height(a) < Height(h)
  {
    if h.prev != a {
      BelowIsHigher(a, h.prev);
    }
  }

  lemma {:induction false} BelowTransitive(a: Block, b: Block, c: Block)
    requires Below(a, b) && Below(b, c)
    ensures Below(a, c)
  {
    if c.prev != b {
      BelowTransitive(a, b, c.prev);
    }
  }

  /** Two ancestors of one block lie on one line. */
  lemma {:induction false} Comparable(a: Block, b: Block, h: Block)
    requires Below(a, h) && Below(b, h)
    ensures a == b || Below(a, b) || Below(b, a)
  {
    if h.prev != a && h.prev != b {
      Comparable(a, b, h.prev);
    }
  }

  lemma {:induction false} PathIsBetween(a: Block, b: Block, h: Block)
    requires Below(a, b)
    ensures h in Path(a, b) <==> Below(a, h) && (h == b || Below(h, b))
  {
    if h == b {
    } else if b.prev == a {
      if Below(a, h) && Below(h, b) {
        BelowIsHigher(a, h);
        BelowIsHigher(h, b);
      }
    } else {
      PathIsBetween(a, b.prev, h);
    }
  }
}
