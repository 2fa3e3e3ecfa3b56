/** Machine words as bytes: 64-bit, little-endian. */
module LittleEndian {
  type Byte = b: nat | b < 256

  const TWO_63: nat := 0x8000_0000_0000_0000
  const TWO_64: nat := 0x1_0000_0000_0000_0000

  function Limit(n: nat): (l: nat)
    ensures l > 0
  {
    if n == 0 then 1 else 256 * Limit(n - 1)
  }

  function LeBytes(v: nat, n: nat): (s: seq<Byte>)
    ensures |s| == n
  {
    if n == 0 then [] else [v % 256] + LeBytes(v / 256, n - 1)
  }

  function LeVal(s: seq<Byte>): nat {
    if s == [] then 0 else s[0] + 256 * LeVal(s[1..])
  }

  lemma {:induction false} ValBound(s: seq<Byte>)
    ensures LeVal(s) < Limit(|s|)
  {
    if s != [] {
      ValBound(s[1..]);
    }
  }

  lemma {:induction false} ValOfBytes(v: nat, n: nat)
    requires v < Limit(n)
    ensures LeVal(LeBytes(v, n)) == v
  {
    if n > 0 {
      ValOfBytes(v / 256, n - 1);
      assert LeBytes(v, n)[1..] == LeBytes(v / 256, n - 1);
    }
  }

  lemma {:induction false} BytesOfVal(s: seq<Byte>)
    ensures LeBytes(LeVal(s), |s|) == s
  {
    if s != [] {
      BytesOfVal(s[1..]);
      assert LeVal(s) / 256 == LeVal(s[1..]) && LeVal(s) % 256 == s[0];
      assert s == [s[0]] + s[1..];
    }
  }

  lemma {:induction false} LastByte(s: seq<Byte>)
    requires s != []
    ensures LeVal(s) == LeVal(s[..|s| - 1]) + Limit(|s| - 1) * s[|s| - 1]
  {
    if |s| > 1 {
      LastByte(s[1..]);
      assert s[1..][..|s| - 2] == s[..|s| - 1][1..];
      assert LeVal(s) == s[0] + 256 * LeVal(s[1..]) && LeVal(s[..|s| - 1]) == s[0] + 256 * LeVal(s[..|s| - 1][1..]);
      assert Limit(|s| - 1) == 256 * Limit(|s| - 2);
      Shift(s[0], LeVal(s[..|s| - 1][1..]), Limit(|s| - 2), s[|s| - 1]);
    }
    hide LeVal, Limit;
  }

  lemma Shift(first: nat, middle: nat, limit: nat, last: nat)
    ensures first + 256 * (middle + limit * last) == first + 256 * middle + (256 * limit) * last
  {
    assert (256 * limit) * last == 256 * (limit * last);
  }

  lemma Limits()
    ensures Limit(7) == 0x100_0000_0000_0000 && Limit(8) == TWO_64
  {
    assert Limit(1) == 0x100;
    assert Limit(2) == 0x1_0000;
    assert Limit(3) == 0x100_0000;
    assert Limit(4) == 0x1_0000_0000;
    assert Limit(5) == 0x100_0000_0000;
    assert Limit(6) == 0x1_0000_0000_0000;
  }

  /** The sign of a word is the top bit of its last byte. */
  lemma TopBit(s: seq<Byte>)
    requires |s| == 8
    ensures LeVal(s) < TWO_64
    ensures LeVal(s) >= TWO_63 <==> s[7] >= 128
  {
    Limits();
    ValBound(s);
    LastByte(s);
    ValBound(s[..7]);
    hide LeVal, Limit;
    var low: nat, top: nat := LeVal(s[..7]), s[7];
    assert LeVal(s) == low + 0x100_0000_0000_0000 * top;
  }
}

/** Byte-addressed memory and the global allocator's blocks in it. */
module RawMemory {
  import opened LittleEndian

  /** An outcome of an operation that may abort the program. */
  datatype Outcome<T> = Done(value: T) | Overflow | OutOfMemory | InvalidUtf8

  datatype Layout = Layout(size: nat, align: nat)

  /** What the global allocator answers: null, or an address and whatever lies there. */
  datatype Place = Null | Block(base: nat, contents: seq<Byte>)

  type Bytes = map<nat, Byte>

  predicate Within(a: nat, p: nat, n: nat) {
    p <= a < p + n
  }

  function Placed(p: nat, s: seq<Byte>): Bytes {
    map a | p <= a < p + |s| && Within(a, p, |s|) :: s[a - p]
  }

  /** Memory with `s` written at p. */
  function Overlay(m: Bytes, p: nat, s: seq<Byte>): Bytes {
    m + Placed(p, s)
  }

  function Range(p: nat, n: nat): set<nat> {
    set a | p <= a < p + n && Within(a, p, n)
  }

  ghost predicate Mapped(m: Bytes, p: nat, n: nat) {
    forall a :: p <= a < p + n ==> a in m
  }

  function Read(m: Bytes, p: nat, n: nat): (s: seq<Byte>)
    requires Mapped(m, p, n)
    ensures |s| == n
  {
    seq(n, i requires 0 <= i < n => m[p + i])
  }

  function Word(m: Bytes, p: nat): nat
    requires Mapped(m, p, 8)
  {
    LeVal(Read(m, p, 8))
  }

  ghost predicate Apart(p: nat, n: nat, q: nat, k: nat) {
    p + n <= q || q + k <= p
  }

  // ----- reading what was written -----

  lemma ReadBack(m: Bytes, p: nat, s: seq<Byte>)
    ensures Mapped(Overlay(m, p, s), p, |s|) && Read(Overlay(m, p, s), p, |s|) == s
  {
    var m' := Overlay(m, p, s);
    forall i | 0 <= i < |s| ensures Read(m', p, |s|)[i] == s[i] {
      assert p + i in Placed(p, s);
    }
  }

  lemma ReadElsewhere(m: Bytes, p: nat, s: seq<Byte>, q: nat, k: nat)
    requires Mapped(m, q, k) && Apart(p, |s|, q, k)
    ensures Mapped(Overlay(m, p, s), q, k) && Read(Overlay(m, p, s), q, k) == Read(m, q, k)
  {
  }

  lemma ReadJoin(m: Bytes, p: nat, n: nat, k: nat)
    requires Mapped(m, p, n + k)
    ensures Mapped(m, p, n) && Mapped(m, p + n, k)
    ensures Read(m, p, n + k) == Read(m, p, n) + Read(m, p + n, k)
  {
  }

  lemma WordBack(m: Bytes, p: nat, v: nat)
    requires v < TWO_64
    ensures var m' := Overlay(m, p, LeBytes(v, 8)); Mapped(m', p, 8) && Word(m', p) == v
  {
    ReadBack(m, p, LeBytes(v, 8));
    Limits();
    ValOfBytes(v, 8);
  }

  /** Nothing that was mapped is lost or changed, apart from one range. */
  ghost predicate KeptOutside(m: Bytes, m': Bytes, p: nat, n: nat) {
    forall a :: a in m && !(p <= a < p + n) ==> a in m' && m'[a] == m[a]
  }

  lemma ReadKept(m: Bytes, m': Bytes, p: nat, n: nat, q: nat, k: nat)
    requires KeptOutside(m, m', p, n) && Mapped(m, q, k) && Apart(p, n, q, k)
    ensures Mapped(m', q, k) && Read(m', q, k) == Read(m, q, k)
  {
  }

  // ----- the global allocator -----

  /** What the allocator guarantees of the place it grants for a layout: it is aligned,
      fits the address space, and nothing lives there. */
  ghost predicate Grants(m: Bytes, place: Place, layout: Layout) {
    place.Block? ==>
      && layout.align > 0 && place.base > 0 && place.base + layout.size <= TWO_64 && place.base % layout.align == 0
      && |place.contents| == layout.size
      && (forall a | place.base <= a < place.base + layout.size :: a !in m)
  }

  ghost predicate BlockOk(m: Bytes, b: nat, layout: Layout) {
    layout.align > 0 && b > 0 && b % layout.align == 0 && 0 < layout.size && b + layout.size <= TWO_64 &&
      Mapped(m, b, layout.size)
  }

  ghost predicate BlocksOk(m: Bytes, blocks: map<nat, Layout>) {
    && (forall b <- blocks :: BlockOk(m, b, blocks[b]))
    && (forall b, c | b in blocks && c in blocks && b != c :: Apart(b, blocks[b].size, c, blocks[c].size))
  }

  lemma GrantIsApart(m: Bytes, blocks: map<nat, Layout>, place: Place, layout: Layout, b: nat)
    requires BlocksOk(m, blocks) && place.Block? && layout.size > 0 && Grants(m, place, layout) && b in blocks
    ensures b != place.base && Apart(place.base, layout.size, b, blocks[b].size)
  {
    assert BlockOk(m, b, blocks[b]);
    var meet := if b < place.base then place.base else b;
    assert meet == b || meet == place.base;
    assert b <= meet < b + blocks[b].size ==> meet in m;
    assert place.base <= meet < place.base + layout.size ==> meet !in m;
  }

  lemma BlocksGrow(m: Bytes, blocks: map<nat, Layout>, place: Place, layout: Layout)
    requires BlocksOk(m, blocks) && place.Block? && layout.size > 0 && Grants(m, place, layout)
    ensures place.base !in blocks && BlocksOk(Overlay(m, place.base, place.contents), blocks[place.base := layout])
  {
    var m', blocks' := Overlay(m, place.base, place.contents), blocks[place.base := layout];
    ReadBack(m, place.base, place.contents);
    forall b <- blocks
      ensures BlockOk(m', b, blocks[b]) && b != place.base && Apart(place.base, layout.size, b, blocks[b].size) {
      assert BlockOk(m, b, blocks[b]);
      GrantIsApart(m, blocks, place, layout, b);
    }
    forall b, c | b in blocks' && c in blocks' && b != c ensures Apart(b, blocks'[b].size, c, blocks'[c].size) {
      assert b in blocks || c in blocks;
    }
  }

  lemma BlocksShrink(m: Bytes, blocks: map<nat, Layout>, base: nat)
    requires BlocksOk(m, blocks) && base in blocks
    ensures BlocksOk(m - Range(base, blocks[base].size), blocks - {base})
  {
    forall b <- blocks | b != base ensures BlockOk(m - Range(base, blocks[base].size), b, blocks[b]) {
      assert BlockOk(m, b, blocks[b]);
      assert Apart(b, blocks[b].size, base, blocks[base].size);
    }
  }

  class Memory {
    var bytes: Bytes
    var blocks: map<nat, Layout>

    ghost predicate Valid()
      reads this
    {
      BlocksOk(bytes, blocks)
    }

    constructor ()
      ensures Valid() && bytes == map[] && blocks == map[]
    {
      bytes, blocks := map[], map[];
    }

    /** `std::alloc::alloc`, when it does not return null. */
    method Alloc(place: Place, layout: Layout)
      requires Valid() && place.Block? && layout.size > 0 && Grants(bytes, place, layout)
      modifies this
      ensures Valid() && bytes == Overlay(old(bytes), place.base, place.contents)
      ensures place.base !in old(blocks) && blocks == old(blocks)[place.base := layout]
    {
      BlocksGrow(bytes, blocks, place, layout);
      bytes := Overlay(bytes, place.base, place.contents);
      blocks := blocks[place.base := layout];
    }

    /** `std::alloc::dealloc`: the base and layout must be those of a live block.  The
        block's bytes are gone afterwards. */
    method Dealloc(base: nat, layout: Layout)
      requires Valid() && base in blocks && blocks[base] == layout
      modifies this
      ensures Valid() && bytes == old(bytes) - Range(base, layout.size) && blocks == old(blocks) - {base}
    {
      BlocksShrink(bytes, blocks, base);
      bytes := bytes - Range(base, layout.size);
      blocks := blocks - {base};
    }

    /** `std::alloc::realloc`, when it does not return null: the block moves (or stays) and
        keeps as many of its first bytes as fit. */
    method Realloc(base: nat, layout: Layout, size: nat, place: Place)
      requires Valid() && base in blocks && blocks[base] == layout && size > 0
      requires place.Block? && Grants(bytes - Range(base, layout.size), place, Layout(size, layout.align))
      requires var keep := if size < layout.size then size else layout.size;
               Mapped(bytes, base, keep) && place.contents[..keep] == Read(bytes, base, keep)
      modifies this
      ensures Valid() && bytes == Overlay(old(bytes) - Range(base, layout.size), place.base, place.contents)
      ensures blocks == (old(blocks) - {base})[place.base := Layout(size, layout.align)]
    {
      Dealloc(base, layout);
      Alloc(place, Layout(size, layout.align));
    }

    method Store(p: nat, s: seq<Byte>)
      requires Valid() && Mapped(bytes, p, |s|)
      modifies this`bytes
      ensures Valid() && bytes == Overlay(old(bytes), p, s) && bytes.Keys == old(bytes).Keys
    {
      KeysKept(bytes, p, s);
      bytes := Overlay(bytes, p, s);
      forall b <- blocks ensures BlockOk(bytes, b, blocks[b]) {
        assert BlockOk(old(bytes), b, blocks[b]);
      }
    }

    method StoreWord(p: nat, v: nat)
      requires Valid() && Mapped(bytes, p, 8) && v < TWO_64
      modifies this`bytes
      ensures Valid() && bytes == Overlay(old(bytes), p, LeBytes(v, 8)) && bytes.Keys == old(bytes).Keys
      ensures Mapped(bytes, p, 8) && Word(bytes, p) == v && KeptOutside(old(bytes), bytes, p, 8)
    {
      WordBack(bytes, p, v);
      Store(p, LeBytes(v, 8));
    }
  }

  lemma KeysKept(m: Bytes, p: nat, s: seq<Byte>)
    requires Mapped(m, p, |s|)
    ensures Overlay(m, p, s).Keys == m.Keys
  {
    assert Placed(p, s).Keys <= m.Keys;
  }
}
