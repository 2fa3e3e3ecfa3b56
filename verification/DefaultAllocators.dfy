/** `roc_alloc`, `roc_dealloc` and `roc_realloc`: below every block the host hides a word
    holding the block's total size, which is all that freeing has to go by. */
module DefaultAllocators {
  import opened LittleEndian
  import opened RawMemory

  function MinAlign(alignment: nat): nat {
    if alignment < 8 then 8 else alignment
  }

  function BlockLayout(length: nat, alignment: nat): Layout {
    Layout(length + MinAlign(alignment), MinAlign(alignment))
  }

  /** `ptr` is a live block of `length` user bytes, with its size word in place. */
  ghost predicate UserBlock(m: Bytes, blocks: map<nat, Layout>, ptr: nat, length: nat, alignment: nat) {
    var pad := MinAlign(alignment);
    && ptr >= pad && ptr - pad in blocks && blocks[ptr - pad] == BlockLayout(length, alignment)
    && length + pad < TWO_64
    && Mapped(m, ptr - 8, 8) && Word(m, ptr - 8) == length + pad
  }

  /** The two ways of not getting memory leave the memory alone. */
  ghost predicate Fails<T>(r: Outcome<T>, total: nat, place: Place) {
    && (r.Overflow? <==> total >= TWO_64)
    && (r.OutOfMemory? <==> total < TWO_64 && place.Null?)
    && !r.InvalidUtf8?
  }

  /** The memory `m` with one new block in it. */
  ghost predicate Extends(m: Bytes, m': Bytes, base: nat, size: nat) {
    m'.Keys == m.Keys + Range(base, size) && KeptOutside(m, m', base, size) &&
      (forall a :: base <= a < base + size ==> a !in m)
  }

  /** A block disappears without a trace. */
  lemma ExtendThenShrink(m: Bytes, m': Bytes, base: nat, size: nat)
    requires Extends(m, m', base, size)
    ensures m' - Range(base, size) == m
  {
    forall a ensures a in m' - Range(base, size) <==> a in m {
      assert a in Range(base, size) <==> Within(a, base, size);
    }
  }

  lemma UserBlockKept(m: Bytes, blocks: map<nat, Layout>, m': Bytes, blocks': map<nat, Layout>, p: nat, n: nat,
                      ptr: nat, length: nat, alignment: nat)
    requires UserBlock(m, blocks, ptr, length, alignment) && KeptOutside(m, m', p, n) && Apart(p, n, ptr - 8, 8)
    requires ptr - MinAlign(alignment) in blocks' &&
             blocks'[ptr - MinAlign(alignment)] == blocks[ptr - MinAlign(alignment)]
    ensures UserBlock(m', blocks', ptr, length, alignment)
  {
    ReadKept(m, m', p, n, ptr - 8, 8);
  }

  /** Allocation adds one block and writes its size word below the user's bytes. */
  method RocAlloc(mem: Memory, place: Place, length: nat, alignment: nat) returns (r: Outcome<nat>)
    requires mem.Valid() && Grants(mem.bytes, place, BlockLayout(length, alignment))
    modifies mem
    ensures mem.Valid() && Fails(r, length + MinAlign(alignment), place)
    ensures !r.Done? ==> mem.bytes == old(mem.bytes) && mem.blocks == old(mem.blocks)
    ensures r.Done? ==>
              && place.Block? && r.value == place.base + MinAlign(alignment)
              && UserBlock(mem.bytes, mem.blocks, r.value, length, alignment)
              && Mapped(mem.bytes, r.value, length)
              && Read(mem.bytes, r.value, length) == place.contents[MinAlign(alignment)..]
              && place.base !in old(mem.blocks)
              && mem.blocks == old(mem.blocks)[place.base := BlockLayout(length, alignment)]
              && Extends(old(mem.bytes), mem.bytes, place.base, length + MinAlign(alignment))
  {
    hide Grants, BlocksOk, Overlay, Read, Word, Mapped, Extends, LeBytes, LeVal, KeptOutside, Range;
    var minAlignment := MinAlign(alignment);
    var total := length + minAlignment;
    if total >= TWO_64 {
      return Overflow;
    }
    if place.Null? {
      return OutOfMemory;
    }
    NewBlock(mem.bytes, place, length, alignment);
    mem.Alloc(place, Layout(total, minAlignment));
    mem.StoreWord(place.base + minAlignment - 8, total);
    r := Done(place.base + minAlignment);
  }

  /** Memory once a granted place carries its size word. */
  ghost function WithBlock(m: Bytes, place: Place, length: nat, alignment: nat): Bytes
    requires place.Block?
  {
    var pad := MinAlign(alignment);
    Overlay(Overlay(m, place.base, place.contents), place.base + pad - 8, LeBytes(length + pad, 8))
  }

  ghost predicate HasBlock(m: Bytes, m': Bytes, place: Place, length: nat, alignment: nat)
    requires place.Block?
  {
    var pad := MinAlign(alignment);
    && Extends(m, m', place.base, length + pad)
    && Mapped(m', place.base + pad - 8, 8) && Word(m', place.base + pad - 8) == length + pad
    && |place.contents| >= pad
    && Mapped(m', place.base + pad, length) && Read(m', place.base + pad, length) == place.contents[pad..]
  }

  lemma NewBlock(m: Bytes, place: Place, length: nat, alignment: nat)
    requires place.Block? && Grants(m, place, BlockLayout(length, alignment)) && length + MinAlign(alignment) < TWO_64
    ensures HasBlock(m, WithBlock(m, place, length, alignment), place, length, alignment)
    ensures Mapped(Overlay(m, place.base, place.contents), place.base + MinAlign(alignment) - 8, 8)
  {
    hide LeBytes, LeVal, Grants, Overlay, Extends, Read, Word, Mapped;
    var pad := MinAlign(alignment);
    var filled, m' := Overlay(m, place.base, place.contents), WithBlock(m, place, length, alignment);
    Contents(m, place, length, alignment);
    assert |place.contents| == length + pad by { GrantSize(m, place, length, alignment); }
    var p := place.base + pad - 8;
    WordBack(filled, p, length + pad);
    ReadElsewhere(filled, p, LeBytes(length + pad, 8), place.base + pad, length);
    StillExtends(m, filled, place.base, length + pad, p, LeBytes(length + pad, 8));
  }

  lemma StillExtends(m: Bytes, m': Bytes, base: nat, size: nat, p: nat, s: seq<Byte>)
    requires Extends(m, m', base, size) && base <= p && p + |s| <= base + size
    ensures Extends(m, Overlay(m', p, s), base, size)
  {
    forall a | p <= a < p + |s| ensures a in m' {
      assert a in Range(base, size) <==> Within(a, base, size);
    }
    KeysKept(m', p, s);
  }

  lemma GrantSize(m: Bytes, place: Place, length: nat, alignment: nat)
    requires place.Block? && Grants(m, place, BlockLayout(length, alignment))
    ensures |place.contents| == length + MinAlign(alignment)
  {
  }

  lemma Contents(m: Bytes, place: Place, length: nat, alignment: nat)
    requires place.Block? && Grants(m, place, BlockLayout(length, alignment))
    ensures var pad, filled := MinAlign(alignment), Overlay(m, place.base, place.contents);
            && Extends(m, filled, place.base, length + pad)
            && Mapped(filled, place.base + pad - 8, 8)
            && Mapped(filled, place.base + pad, length)
            && Read(filled, place.base + pad, length) == place.contents[pad..]
  {
    var pad, filled := MinAlign(alignment), Overlay(m, place.base, place.contents);
    ReadBack(m, place.base, place.contents);
    ReadJoin(filled, place.base, pad, length);
    assert place.contents == place.contents[..pad] + place.contents[pad..];
    forall a ensures a in filled <==> a in m || a in Range(place.base, length + pad) {
      assert a in Range(place.base, length + pad) <==> Within(a, place.base, length + pad);
    }
  }

  /** Freeing reads the size word, and so finds the base and layout the block has. */
  method RocDealloc(mem: Memory, ptr: nat, alignment: nat, ghost length: nat)
    requires mem.Valid() && UserBlock(mem.bytes, mem.blocks, ptr, length, alignment)
    modifies mem
    ensures mem.Valid()
    ensures var base, layout := ptr - MinAlign(alignment), BlockLayout(length, alignment);
            mem.bytes == old(mem.bytes) - Range(base, layout.size) && mem.blocks == old(mem.blocks) - {base}
  {
    var minAlignment := MinAlign(alignment);
    var total := Word(mem.bytes, ptr - 8);
    mem.Dealloc(ptr - minAlignment, Layout(total, minAlignment));
  }

  function Shorter(a: nat, b: nat): nat {
    if a < b then a else b
  }

  /** What the global allocator's `realloc` guarantees of the place it grants. */
  ghost predicate Regrants(m: Bytes, place: Place, ptr: nat, length: nat, newLength: nat, alignment: nat)
    requires ptr >= MinAlign(alignment)
  {
    var base, layout, layout' := ptr - MinAlign(alignment), BlockLayout(length, alignment),
        BlockLayout(newLength, alignment);
    var keep := Shorter(layout.size, layout'.size);
    place.Block? ==>
      && Grants(m - Range(base, layout.size), place, layout')
      && Mapped(m, base, keep) && place.contents[..keep] == Read(m, base, keep)
  }

  /** Reallocation keeps the common prefix of the user's bytes and renews the size word. */
  method RocRealloc(mem: Memory, place: Place, ptr: nat, newLength: nat, alignment: nat, ghost length: nat)
    returns (r: Outcome<nat>)
    requires mem.Valid() && UserBlock(mem.bytes, mem.blocks, ptr, length, alignment) && Mapped(mem.bytes, ptr, length)
    requires Regrants(mem.bytes, place, ptr, length, newLength, alignment)
    modifies mem
    ensures mem.Valid() && Fails(r, newLength + MinAlign(alignment), place)
    ensures !r.Done? ==> mem.bytes == old(mem.bytes) && mem.blocks == old(mem.blocks)
    ensures r.Done? ==>
              && place.Block? && r.value == place.base + MinAlign(alignment)
              && UserBlock(mem.bytes, mem.blocks, r.value, newLength, alignment)
              && Mapped(mem.bytes, r.value, newLength)
              && Read(mem.bytes, r.value, newLength)[..Shorter(length, newLength)] ==
                   Read(old(mem.bytes), ptr, length)[..Shorter(length, newLength)]
              && mem.blocks ==
                 (old(mem.blocks) - {ptr - MinAlign(alignment)})[place.base := BlockLayout(newLength, alignment)]
              && KeptElsewhere(old(mem.bytes), mem.bytes, ptr, length, alignment, place, newLength)
  {
    hide Grants, BlocksOk, Overlay, Read, Word, Mapped, LeBytes, LeVal, KeptOutside, Range;
    var minAlignment := MinAlign(alignment);
    var oldTotal := Word(mem.bytes, ptr - 8);
    var total := newLength + minAlignment;
    if total >= TWO_64 {
      return Overflow;
    }
    if place.Null? {
      return OutOfMemory;
    }
    var base := ptr - minAlignment;
    KeptPrefix(mem.bytes, place, ptr, length, newLength, alignment);
    hide Grants, BlocksOk, Overlay, Read, Word, Mapped, LeBytes, KeptOutside;
    NewBlock(mem.bytes - Range(base, length + minAlignment), place, newLength, alignment);
    mem.Realloc(base, Layout(oldTotal, minAlignment), total, place);
    mem.StoreWord(place.base + minAlignment - 8, total);
    r := Done(place.base + minAlignment);
  }

  /** What lives outside the old and the new block is not touched. */
  ghost predicate KeptElsewhere(m: Bytes, m': Bytes, ptr: nat, length: nat, alignment: nat, place: Place,
                                newLength: nat)
    requires ptr >= MinAlign(alignment) && place.Block?
  {
    KeptOutside(m - Range(ptr - MinAlign(alignment), length + MinAlign(alignment)), m', place.base,
                newLength + MinAlign(alignment))
  }

  lemma KeptPrefix(m: Bytes, place: Place, ptr: nat, length: nat, newLength: nat, alignment: nat)
    requires ptr >= MinAlign(alignment) && place.Block? && Regrants(m, place, ptr, length, newLength, alignment) &&
             Mapped(m, ptr, length)
    ensures var pad, keep := MinAlign(alignment), Shorter(length, newLength);
            place.contents[pad..][..keep] == Read(m, ptr, length)[..keep]
  {
    var pad, keep := MinAlign(alignment), Shorter(length, newLength);
    assert Read(m, ptr - pad, pad + keep) == place.contents[..pad + keep];
    forall i | 0 <= i < keep ensures place.contents[pad..][i] == Read(m, ptr, length)[i] {
      assert place.contents[pad + i] == Read(m, ptr - pad, pad + keep)[pad + i];
    }
  }

  /** A global allocator's `realloc`, as a function of the memory, the block (its user
      pointer and length) and the new length. */
  type Reallocator = (Bytes, nat, nat, nat) -> Place

  ghost predicate Honest(g: Reallocator, alignment: nat) {
    forall m: Bytes, ptr, length, newLength | ptr >= MinAlign(alignment) ::
      Regrants(m, g(m, ptr, length, newLength), ptr, length, newLength, alignment)
  }

  /** One resize after another, until one fails: the user still has the bytes that fitted
      into every size so far. */
  method ReallocChain(mem: Memory, g: Reallocator, ptr: nat, length: nat, alignment: nat, sizes: seq<nat>)
    returns (p: nat, n: nat, done: nat)
    requires mem.Valid() && UserBlock(mem.bytes, mem.blocks, ptr, length, alignment) && Mapped(mem.bytes, ptr, length)
    requires Honest(g, alignment)
    modifies mem
    ensures mem.Valid() && UserBlock(mem.bytes, mem.blocks, p, n, alignment) && Mapped(mem.bytes, p, n)
    ensures done <= |sizes| && n == if done == 0 then length else sizes[done - 1]
    ensures var keep := Shortest(length, sizes[..done]);
            keep <= n && Read(mem.bytes, p, n)[..keep] == Read(old(mem.bytes), ptr, length)[..keep]
  {
    hide UserBlock, Regrants;
    p, n, done := ptr, length, 0;
    while done < |sizes|
      invariant mem.Valid() && UserBlock(mem.bytes, mem.blocks, p, n, alignment) && Mapped(mem.bytes, p, n)
      invariant done <= |sizes| && n == if done == 0 then length else sizes[done - 1]
      invariant var keep := Shortest(length, sizes[..done]);
                keep <= n && Read(mem.bytes, p, n)[..keep] == Read(old(mem.bytes), ptr, length)[..keep]
    {
      UserBlockAbove(mem.bytes, mem.blocks, p, n, alignment);
      var place := g(mem.bytes, p, n, sizes[done]);
      ghost var before := Read(mem.bytes, p, n);
      var r := RocRealloc(mem, place, p, sizes[done], alignment, n);
      if !r.Done? {
        return;
      }
      assert sizes[..done + 1][..done] == sizes[..done];
      PrefixOfPrefix(Read(old(mem.bytes), ptr, length), before, Read(mem.bytes, r.value, sizes[done]),
                     Shortest(length, sizes[..done]), Shorter(n, sizes[done]));
      p, n, done := r.value, sizes[done], done + 1;
    }
  }

  lemma UserBlockAbove(m: Bytes, blocks: map<nat, Layout>, ptr: nat, length: nat, alignment: nat)
    requires UserBlock(m, blocks, ptr, length, alignment)
    ensures ptr >= MinAlign(alignment)
  {
  }

  lemma PrefixOfPrefix(first: seq<Byte>, before: seq<Byte>, after: seq<Byte>, keep: nat, common: nat)
    requires keep <= |before| && keep <= |first| && before[..keep] == first[..keep]
    requires common <= |before| && common <= |after| && after[..common] == before[..common]
    ensures after[..Shorter(keep, common)] == first[..Shorter(keep, common)]
  {
    var k := Shorter(keep, common);
    assert after[..k] == after[..common][..k] && before[..k] == before[..common][..k];
    assert before[..k] == before[..keep][..k] && first[..k] == first[..keep][..k];
  }

  function Shortest(length: nat, sizes: seq<nat>): (s: nat)
    ensures s <= length && forall n <- sizes :: s <= n
  {
    if sizes == [] then length
    else
      assert sizes == sizes[..|sizes| - 1] + [sizes[|sizes| - 1]];
      Shorter(Shortest(length, sizes[..|sizes| - 1]), sizes[|sizes| - 1])
  }
}
