/** Where things lie in an allocation: below the data pointer a header with the refcount
    word (and, for lists and boxes of refcounted values, a count word), below that the
    allocator's size word. */
module RocLayout {
  import opened LittleEndian
  import opened RawMemory
  import opened DefaultAllocators

  predicate PowerOfTwo(n: nat) {
    n == 1 || (n > 0 && n % 2 == 0 && PowerOfTwo(n / 2))
  }

  function Larger(a: nat, b: nat): nat {
    if a < b then b else a
  }

  /** Bytes between the allocation's user pointer and the data. */
  function Header(alignment: nat, refcounted: bool): nat {
    Larger(if refcounted then 16 else 8, alignment)
  }

  function AllocAlign(alignment: nat): nat {
    Larger(8, alignment)
  }

  lemma {:induction false} PowersDivide(a: nat, b: nat)
    requires PowerOfTwo(a) && PowerOfTwo(b) && a <= b
    ensures b % a == 0
  {
    if a > 1 {
      PowersDivide(a / 2, b / 2);
      var k := (b / 2) / (a / 2);
      assert b / 2 == k * (a / 2);
      Multiple(a, b, k);
    }
  }

  lemma Multiple(a: nat, b: nat, k: nat)
    requires a > 0 && a % 2 == 0 && b % 2 == 0 && b / 2 == k * (a / 2)
    ensures b % a == 0
  {
    assert b == k * a;
    ModOfMultiple(k, a);
  }

  lemma ModOfMultiple(k: nat, a: nat)
    requires a > 0
    ensures (k * a) % a == 0
  {
    var q, r := (k * a) / a, (k * a) % a;
    assert (k - q) * a == r by {
      assert k * a == q * a + r;
    }
    if k - q >= 1 {
      AtLeast(k - q, a);
    } else if k - q <= -1 {
      AtLeast(q - k, a);
    }
  }

  lemma AtLeast(t: nat, a: nat)
    requires t >= 1
    ensures t * a >= a
  {
    assert t * a == (t - 1) * a + a;
  }

  lemma SumDivides(x: nat, y: nat, a: nat)
    requires a > 0 && x % a == 0 && y % a == 0
    ensures (x + y) % a == 0
  {
    ModOfMultiple(x / a + y / a, a);
    assert x + y == (x / a + y / a) * a;
  }

  /** The parts of an allocation: size word, count word if there is one, refcount word,
      payload.  Each is a start and a length. */
  function Parts(base: nat, size: nat, alignment: nat, refcounted: bool): seq<(nat, nat)>
  {
    var ptr := base + MinAlign(AllocAlign(alignment));
    var data := ptr + Header(alignment, refcounted);
    [(ptr - 8, 8)] + (if refcounted then [(data - 16, 8)] else []) + [(data - 8, 8), (data, size)]
  }

  /** For every size, alignment and kind, the parts follow one another without overlap,
      and fill the block from the size word to its end. */
  lemma PartsAreApart(base: nat, size: nat, alignment: nat, refcounted: bool)
    ensures var parts := Parts(base, size, alignment, refcounted);
            var total := ObjectLayout(size, alignment, refcounted).size;
            && (forall i, j | 0 <= i < j < |parts| :: parts[i].0 + parts[i].1 <= parts[j].0)
            && (forall i | 0 <= i < |parts| :: base <= parts[i].0 && parts[i].0 + parts[i].1 <= base + total)
            && parts[|parts| - 1].0 + size == base + total
  {
  }

  /** For every power-of-two alignment, the data is aligned for its elements and for a word. */
  lemma DataIsAligned(base: nat, alignment: nat, refcounted: bool)
    requires PowerOfTwo(alignment) && base % AllocAlign(alignment) == 0
    ensures var data := base + AllocAlign(alignment) + Header(alignment, refcounted);
            data % alignment == 0 && data % 8 == 0
  {
    var pad, header := AllocAlign(alignment), Header(alignment, refcounted);
    Powers(alignment, refcounted);
    hide PowerOfTwo;
    DataDivides(base, pad, header, 8);
    DataDivides(base, pad, header, alignment);
  }

  lemma Powers(alignment: nat, refcounted: bool)
    requires PowerOfTwo(alignment)
    ensures PowerOfTwo(8) && PowerOfTwo(AllocAlign(alignment)) && PowerOfTwo(Header(alignment, refcounted))
  {
    assert PowerOfTwo(2) && PowerOfTwo(4) && PowerOfTwo(8) && PowerOfTwo(16);
  }

  lemma DataDivides(base: nat, pad: nat, header: nat, a: nat)
    requires PowerOfTwo(pad) && PowerOfTwo(header) && PowerOfTwo(a) && a <= pad && a <= header && base % pad == 0
    ensures (base + pad + header) % a == 0
  {
    PowersDivide(a, pad);
    PowersDivide(a, header);
    Through(base, pad, a);
    SumDivides(base, pad, a);
    SumDivides(base + pad, header, a);
  }

  lemma Through(x: nat, b: nat, a: nat)
    requires a > 0 && b > 0 && b % a == 0 && x % b == 0
    ensures x % a == 0
  {
    var k, l := x / b, b / a;
    assert x == (k * l) * a by {
      assert x == k * b && b == l * a;
      assert k * (l * a) == (k * l) * a;
    }
    ModOfMultiple(k * l, a);
  }

  /** A box, list or string: `data` points at `size` payload bytes above its header. */
  ghost predicate Object(m: Bytes, blocks: map<nat, Layout>, data: nat, size: nat, alignment: nat, refcounted: bool) {
    var header := Header(alignment, refcounted);
    && data >= header + AllocAlign(alignment)
    && UserBlock(m, blocks, data - header, header + size, AllocAlign(alignment))
    && Mapped(m, data - header, header + size)
  }

  ghost predicate SameOutside(m: Bytes, blocks: map<nat, Layout>, m': Bytes, blocks': map<nat, Layout>, base: nat,
                              layout: Layout) {
    base !in blocks && blocks' == blocks[base := layout] && Extends(m, m', base, layout.size)
  }

  function ObjectBase(data: nat, alignment: nat, refcounted: bool): int {
    data - Header(alignment, refcounted) - AllocAlign(alignment)
  }

  function ObjectLayout(size: nat, alignment: nat, refcounted: bool): Layout {
    BlockLayout(Header(alignment, refcounted) + size, AllocAlign(alignment))
  }

  lemma WordBytes(v: nat)
    requires v < TWO_64
    ensures LeVal(LeBytes(v, 8)) == v
  {
    Limits();
    ValOfBytes(v, 8);
  }

  /** The two parts of the header-and-payload contract: no overlap, right alignment. */
  lemma LayoutIsSound(base: nat, size: nat, alignment: nat, refcounted: bool)
    requires PowerOfTwo(alignment) && base % AllocAlign(alignment) == 0
    ensures var parts := Parts(base, size, alignment, refcounted);
            var total := ObjectLayout(size, alignment, refcounted).size;
            && (forall i, j | 0 <= i < j < |parts| :: parts[i].0 + parts[i].1 <= parts[j].0)
            && (forall i | 0 <= i < |parts| :: base <= parts[i].0 && parts[i].0 + parts[i].1 <= base + total)
            && parts[|parts| - 1].0 + size == base + total
            && parts[|parts| - 1].0 % alignment == 0 && parts[|parts| - 1].0 % 8 == 0
  {
    PartsAreApart(base, size, alignment, refcounted);
    DataIsAligned(base, alignment, refcounted);
    hide PowerOfTwo;
  }

  /** No byte is wasted: the header is the least that holds its words and keeps the data
      aligned, and so is what lies below it for the size word. */
  lemma HeaderIsLeast(alignment: nat, refcounted: bool, h: nat)
    requires PowerOfTwo(alignment)
    ensures var words := if refcounted then 16 else 8;
            && Header(alignment, refcounted) >= words && Header(alignment, refcounted) % alignment == 0
            && (h >= words && h % alignment == 0 ==> h >= Header(alignment, refcounted))
    ensures AllocAlign(alignment) == MinAlign(AllocAlign(alignment)) == MinAlign(alignment)
    ensures AllocAlign(alignment) >= 8 && AllocAlign(alignment) % alignment == 0
    ensures h >= 8 && h % alignment == 0 ==> h >= AllocAlign(alignment)
  {
    Powers(alignment, refcounted);
    hide PowerOfTwo;
    PowersDivide(alignment, Header(alignment, refcounted));
    PowersDivide(alignment, AllocAlign(alignment));
    if h > 0 && h % alignment == 0 {
      MultipleIsLarger(h, alignment);
    }
  }

  lemma MultipleIsLarger(h: nat, a: nat)
    requires a > 0 && h > 0 && h % a == 0
    ensures h >= a
  {
    AtLeast(h / a, a);
  }

  /** `decref_box` assumes a word-aligned box with a one-word header.  It finds the base and
      the layout the box was allocated with exactly if the box is one of those. */
  lemma DecrefBoxFits(data: nat, size: nat, alignment: nat, refcounted: bool)
    ensures (ObjectBase(data, 8, false) == ObjectBase(data, alignment, refcounted) &&
             ObjectLayout(size, 8, false) == ObjectLayout(size, alignment, refcounted))
            <==> !refcounted && alignment <= 8
  {
  }

  /** A fresh allocation with its refcount word set to one; `allocate_box`, and the common
      part of string, list and callable allocation. */
  method AllocateData(mem: Memory, place: Place, size: nat, alignment: nat, refcounted: bool) returns (r: Outcome<nat>)
    requires mem.Valid() && Grants(mem.bytes, place, ObjectLayout(size, alignment, refcounted))
    modifies mem
    ensures mem.Valid() && Fails(r, ObjectLayout(size, alignment, refcounted).size, place)
    ensures !r.Done? ==> mem.bytes == old(mem.bytes) && mem.blocks == old(mem.blocks)
    ensures r.Done? ==>
              && place.Block? && r.value == place.base + AllocAlign(alignment) + Header(alignment, refcounted)
              && Object(mem.bytes, mem.blocks, r.value, size, alignment, refcounted)
              && CountIs(mem.bytes, r.value, 1)
              && SameOutside(old(mem.bytes), old(mem.blocks), mem.bytes, mem.blocks, place.base,
                             ObjectLayout(size, alignment, refcounted))
  {
    hide UserBlock, Overlay, Read, BlocksOk, LeVal, LeBytes, Grants, Extends;
    var header := Header(alignment, refcounted);
    if header + size >= TWO_64 {
      return Overflow;
    }
    var base := RocAlloc(mem, place, header + size, AllocAlign(alignment));
    if !base.Done? {
      r := base;
      return;
    }
    var data := base.value + header;
    StillExtends(old(mem.bytes), mem.bytes, place.base, ObjectLayout(size, alignment, refcounted).size, data - 8,
                 LeBytes(1, 8));
    StoreInside(mem, data - 8, LeBytes(1, 8), data, size, alignment, refcounted);
    WordBytes(1);
    r := Done(data);
  }

  /** Writing above the size word leaves the object an object. */
  method StoreInside(mem: Memory, p: nat, s: seq<Byte>, ghost data: nat, ghost size: nat, ghost alignment: nat,
                     ghost refcounted: bool)
    requires mem.Valid() && Object(mem.bytes, mem.blocks, data, size, alignment, refcounted)
    requires data - Header(alignment, refcounted) <= p && p + |s| <= data + size
    modifies mem`bytes
    ensures mem.Valid() && mem.bytes == Overlay(old(mem.bytes), p, s) && mem.bytes.Keys == old(mem.bytes).Keys
    ensures Object(mem.bytes, mem.blocks, data, size, alignment, refcounted)
    ensures Mapped(mem.bytes, p, |s|) && Read(mem.bytes, p, |s|) == s && KeptOutside(old(mem.bytes), mem.bytes, p, |s|)
  {
    hide UserBlock, Overlay, Read, BlocksOk, LeVal;
    assert Mapped(mem.bytes, p, |s|);
    StoreKeeps(mem.bytes, p, s);
    ObjectBlock(mem.bytes, mem.blocks, data, size, alignment, refcounted);
    ReadBack(mem.bytes, p, s);
    mem.Store(p, s);
    ObjectKept(old(mem.bytes), mem.blocks, mem.bytes, mem.blocks, p, |s|, data, size, alignment, refcounted);
  }

  lemma ObjectBlock(m: Bytes, blocks: map<nat, Layout>, data: nat, size: nat, alignment: nat, refcounted: bool)
    requires Object(m, blocks, data, size, alignment, refcounted)
    ensures var base := ObjectBase(data, alignment, refcounted);
            base in blocks && blocks[base] == ObjectLayout(size, alignment, refcounted) && blocks[base].size < TWO_64
  {
    hide Word, Mapped;
  }

  lemma StoreKeeps(m: Bytes, p: nat, s: seq<Byte>)
    ensures KeptOutside(m, Overlay(m, p, s), p, |s|)
  {
  }

  lemma ObjectKept(m: Bytes, blocks: map<nat, Layout>, m': Bytes, blocks': map<nat, Layout>, p: nat, n: nat,
                   data: nat, size: nat, alignment: nat, refcounted: bool)
    requires Object(m, blocks, data, size, alignment, refcounted) && KeptOutside(m, m', p, n)
    requires Apart(p, n, data - Header(alignment, refcounted) - 8, 8)
    requires Mapped(m', data - Header(alignment, refcounted), Header(alignment, refcounted) + size)
    requires var base := ObjectBase(data, alignment, refcounted); base in blocks' && blocks'[base] == blocks[base]
    ensures Object(m', blocks', data, size, alignment, refcounted)
  {
    var header := Header(alignment, refcounted);
    assert MinAlign(AllocAlign(alignment)) == AllocAlign(alignment);
    UserBlockKept(m, blocks, m', blocks', p, n, data - header, header + size, AllocAlign(alignment));
    hide Header, AllocAlign, UserBlock;
  }

  /** `free_box_allocation` and its like: the base and layout given back are the block's. */
  method FreeData(mem: Memory, data: nat, alignment: nat, refcounted: bool, ghost size: nat)
    requires mem.Valid() && Object(mem.bytes, mem.blocks, data, size, alignment, refcounted)
    modifies mem
    ensures mem.Valid() && Gone(old(mem.bytes), old(mem.blocks), mem.bytes, mem.blocks, data, size, alignment,
                                refcounted)
  {
    hide Word, Mapped, BlocksOk;
    ObjectBlock(mem.bytes, mem.blocks, data, size, alignment, refcounted);
    RocDealloc(mem, data - Header(alignment, refcounted), AllocAlign(alignment), Header(alignment, refcounted) + size);
  }

  /** The object's block, and only that, has left the memory. */
  ghost predicate Gone(m: Bytes, blocks: map<nat, Layout>, m': Bytes, blocks': map<nat, Layout>,
                       data: nat, size: nat, alignment: nat, refcounted: bool) {
    var base, layout := ObjectBase(data, alignment, refcounted), ObjectLayout(size, alignment, refcounted);
    base >= 0 && m' == m - Range(base, layout.size) && blocks' == blocks - {base}
  }

  /** One owner gave up its reference: the word counted down, static data (count zero)
      stayed untouched, and the last owner freed the block. */
  ghost predicate Dropped(m: Bytes, blocks: map<nat, Layout>, m': Bytes, blocks': map<nat, Layout>,
                          data: nat, size: nat, alignment: nat, refcounted: bool)
  {
    && data >= 8 && Mapped(m, data - 8, 8)
    && var count := Word(m, data - 8);
       if count == 0 then m' == m && blocks' == blocks
       else if count == 1 then Gone(m, blocks, m', blocks', data, size, alignment, refcounted)
       else
         && Object(m', blocks', data, size, alignment, refcounted) && CountIs(m', data, count - 1)
         && KeptOutside(m, m', data - 8, 8) && m'.Keys == m.Keys && blocks' == blocks
  }

  /** The refcount word below `data` reads n. */
  ghost predicate CountIs(m: Bytes, data: nat, n: nat) {
    data >= 8 && Mapped(m, data - 8, 8) && Word(m, data - 8) == n
  }

  method DropData(mem: Memory, data: nat, alignment: nat, refcounted: bool, ghost size: nat)
    requires mem.Valid() && Object(mem.bytes, mem.blocks, data, size, alignment, refcounted)
    modifies mem
    ensures mem.Valid() && Dropped(old(mem.bytes), old(mem.blocks), mem.bytes, mem.blocks, data, size, alignment,
                                   refcounted)
  {
    hide BlocksOk, LeVal, LeBytes, UserBlock, Overlay;
    var count := Word(mem.bytes, data - 8);
    if count == 0 {
      return;
    }
    WordInRange(mem.bytes, data - 8);
    WordBytes(count - 1);
    ObjectBlock(mem.bytes, mem.blocks, data, size, alignment, refcounted);
    StoreInside(mem, data - 8, LeBytes(count - 1, 8), data, size, alignment, refcounted);
    if count == 1 {
      StoreThenRemove(old(mem.bytes), mem.bytes, data - 8, 8, ObjectBase(data, alignment, refcounted),
                      ObjectLayout(size, alignment, refcounted).size);
      FreeData(mem, data, alignment, refcounted, size);
    }
  }

  /** So many drops of an object with so many owners: the last owner's frees it, and none
      before does anything but count. */
  method DropSome(mem: Memory, data: nat, alignment: nat, refcounted: bool, drops: nat, ghost owners: nat,
                  ghost size: nat)
    requires mem.Valid() && Object(mem.bytes, mem.blocks, data, size, alignment, refcounted)
    requires CountIs(mem.bytes, data, owners) && 0 < owners && drops <= owners
    modifies mem
    ensures mem.Valid()
    ensures drops < owners ==>
              && Object(mem.bytes, mem.blocks, data, size, alignment, refcounted)
              && CountIs(mem.bytes, data, owners - drops) && KeptOutside(old(mem.bytes), mem.bytes, data - 8, 8)
              && mem.bytes.Keys == old(mem.bytes).Keys && mem.blocks == old(mem.blocks)
    ensures drops == owners ==> Gone(old(mem.bytes), old(mem.blocks), mem.bytes, mem.blocks, data, size, alignment,
                                     refcounted)
  {
    hide UserBlock, BlocksOk, Word, Mapped;
    var i := 0;
    while i < drops
      invariant 0 <= i <= drops && mem.Valid()
      invariant i < owners ==>
                  && Object(mem.bytes, mem.blocks, data, size, alignment, refcounted)
                  && CountIs(mem.bytes, data, owners - i) && KeptOutside(old(mem.bytes), mem.bytes, data - 8, 8)
                  && mem.bytes.Keys == old(mem.bytes).Keys && mem.blocks == old(mem.blocks)
      invariant i == owners ==> Gone(old(mem.bytes), old(mem.blocks), mem.bytes, mem.blocks, data, size, alignment,
                                     refcounted)
    {
      ghost var before := mem.bytes;
      ObjectBlock(before, mem.blocks, data, size, alignment, refcounted);
      StoreThenRemove(old(mem.bytes), before, data - 8, 8, ObjectBase(data, alignment, refcounted),
                      ObjectLayout(size, alignment, refcounted).size);
      DropData(mem, data, alignment, refcounted, size);
      i := i + 1;
    }
  }

  lemma WordInRange(m: Bytes, p: nat)
    requires Mapped(m, p, 8)
    ensures Word(m, p) < TWO_64
  {
    TopBit(Read(m, p, 8));
  }

  lemma StoreThenRemove(m: Bytes, m': Bytes, p: nat, n: nat, base: nat, size: nat)
    requires KeptOutside(m, m', p, n) && m'.Keys == m.Keys && base <= p && p + n <= base + size
    ensures m' - Range(base, size) == m - Range(base, size)
  {
    forall a | a in m && a !in Range(base, size) ensures m'[a] == m[a] {
      assert !Within(a, base, size);
    }
  }

  /** Whatever was allocated, filled and dropped leaves the memory as it was, to the byte. */
  method AllocateFillDrop(mem: Memory, place: Place, payload: seq<Byte>, alignment: nat, refcounted: bool)
    returns (r: Outcome<nat>)
    requires mem.Valid() && Grants(mem.bytes, place, ObjectLayout(|payload|, alignment, refcounted))
    modifies mem
    ensures mem.Valid() && Fails(r, ObjectLayout(|payload|, alignment, refcounted).size, place)
    ensures mem.bytes == old(mem.bytes) && mem.blocks == old(mem.blocks)
  {
    hide BlocksOk, Object, Grants, ObjectLayout, Overlay, LeVal;
    r := AllocateData(mem, place, |payload|, alignment, refcounted);
    if r.Done? {
      ghost var layout := ObjectLayout(|payload|, alignment, refcounted);
      ghost var filled := mem.bytes;
      FillIsInside(filled, mem.blocks, r.value, payload, alignment, refcounted);
      StillExtends(old(mem.bytes), filled, place.base, layout.size, r.value, payload);
      StoreInside(mem, r.value, payload, r.value, |payload|, alignment, refcounted);
      ReadKept(filled, mem.bytes, r.value, |payload|, r.value - 8, 8);
      ExtendThenShrink(old(mem.bytes), mem.bytes, place.base, layout.size);
      DropData(mem, r.value, alignment, refcounted, |payload|);
    }
  }

  lemma FillIsInside(m: Bytes, blocks: map<nat, Layout>, data: nat, payload: seq<Byte>, alignment: nat,
                     refcounted: bool)
    requires Object(m, blocks, data, |payload|, alignment, refcounted)
    ensures data >= Header(alignment, refcounted) + AllocAlign(alignment) && Mapped(m, data - 8, 8)
    ensures ObjectBase(data, alignment, refcounted) + ObjectLayout(|payload|, alignment, refcounted).size ==
              data + |payload|
  {
    hide Word, UserBlock;
  }
}
