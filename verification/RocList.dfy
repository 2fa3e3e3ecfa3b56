/** Lists and callables at byte level.  A list of refcounted elements keeps the element
    count of its allocation below the refcount word, where slices of it find it. */
module RocLists {
  import opened LittleEndian
  import opened RawMemory
  import opened DefaultAllocators
  import opened RocLayout
  import opened RocStrs

  datatype RocList = RocList(elements: nat, length: nat, cap: nat)

  /** The element type, as far as the layout depends on it. */
  datatype Element = Element(size: nat, align: nat, refcounted: bool)

  function EmptyList(): RocList {
    RocList(0, 0, 0)
  }

  predicate IsSlice(l: RocList) {
    l.cap % 2 == 1
  }

  function Backing(l: RocList): nat {
    if IsSlice(l) then l.cap - 1 else l.elements
  }

  function DataBytes(length: nat, e: Element): nat {
    length * e.size
  }

  function ListLayout(length: nat, e: Element): Layout {
    ObjectLayout(DataBytes(length, e), e.align, e.refcounted)
  }

  /** Element i of a list starts i sizes into the data, at an address that suits it; the last
      one ends where the block ends. */
  lemma ElementsFit(base: nat, length: nat, e: Element, i: nat)
    requires PowerOfTwo(e.align) && base % AllocAlign(e.align) == 0 && e.size % e.align == 0 && i < length
    ensures var data := base + AllocAlign(e.align) + Header(e.align, e.refcounted);
            var end := base + ListLayout(length, e).size;
            && (data + i * e.size) % e.align == 0 && data + i * e.size + e.size <= end
            && (i == length - 1 ==> data + i * e.size + e.size == end)
  {
    var data := base + AllocAlign(e.align) + Header(e.align, e.refcounted);
    DataIsAligned(base, e.align, e.refcounted);
    hide PowerOfTwo;
    ElementBytes(length, e, i);
    SumDivides(data, i * e.size, e.align);
  }

  lemma ElementBytes(length: nat, e: Element, i: nat)
    requires e.align > 0 && e.size % e.align == 0 && i < length
    ensures (i * e.size) % e.align == 0 && i * e.size + e.size <= DataBytes(length, e)
    ensures i == length - 1 ==> i * e.size + e.size == DataBytes(length, e)
  {
    var k := e.size / e.align;
    assert i * e.size == (i * k) * e.align by {
      assert e.size == k * e.align;
      assert i * (k * e.align) == (i * k) * e.align;
    }
    ModOfMultiple(i * k, e.align);
    assert i * e.size + e.size == (i + 1) * e.size;
    Longer(i + 1, length, e.size);
  }

  lemma Longer(i: nat, n: nat, size: nat)
    requires i <= n
    ensures i * size <= n * size
  {
    assert n * size == i * size + (n - i) * size;
  }

  /** A list that is the whole of its allocation. */
  ghost predicate IsWhole(m: Bytes, blocks: map<nat, Layout>, l: RocList, e: Element) {
    && 0 < l.length < TWO_63 && l.cap == ShiftedCapacity(l.length)
    && Object(m, blocks, l.elements, DataBytes(l.length, e), e.align, e.refcounted)
    && (e.refcounted ==> Mapped(m, l.elements - 16, 8) && Word(m, l.elements - 16) == l.length)
  }

  /** `l` is the list itself, or a slice of it. */
  predicate PartOf(l: RocList, whole: RocList) {
    l == whole || (l.elements != 0 && l.cap == whole.elements + 1 && whole.elements % 2 == 0)
  }

  /** `allocate`: refcount one, and the count word if the elements are refcounted. */
  method Allocate(mem: Memory, place: Place, length: nat, e: Element) returns (r: Outcome<RocList>)
    requires mem.Valid() && length < TWO_63 && (length > 0 ==> Grants(mem.bytes, place, ListLayout(length, e)))
    modifies mem
    ensures mem.Valid()
    ensures length == 0 ==> r == Done(EmptyList())
    ensures length > 0 ==> Fails(r, ListLayout(length, e).size, place)
    ensures r.Done? && length > 0 ==>
              && place.Block? && r.value.length == length && IsWhole(mem.bytes, mem.blocks, r.value, e)
              && r.value.cap / 2 == length && CountIs(mem.bytes, r.value.elements, 1)
              && SameOutside(old(mem.bytes), old(mem.blocks), mem.bytes, mem.blocks, place.base, ListLayout(length, e))
              && ObjectBase(r.value.elements, e.align, e.refcounted) == place.base
    ensures !r.Done? || length == 0 ==> mem.bytes == old(mem.bytes) && mem.blocks == old(mem.blocks)
  {
    hide BlocksOk, Grants, Extends, Object, Overlay, LeVal, LeBytes;
    if length == 0 {
      return Done(EmptyList());
    }
    var size := DataBytes(length, e);
    if size >= TWO_64 {
      return Overflow;
    }
    var data := AllocateData(mem, place, size, e.align, e.refcounted);
    if !data.Done? {
      return match data case Overflow => Overflow case _ => OutOfMemory;
    }
    HeaderIsMapped(mem.bytes, mem.blocks, data.value, size, e.align, e.refcounted);
    if e.refcounted {
      ghost var before := mem.bytes;
      StillExtends(old(mem.bytes), before, place.base, ListLayout(length, e).size, data.value - 16, LeBytes(length, 8));
      StoreInside(mem, data.value - 16, LeBytes(length, 8), data.value, size, e.align, e.refcounted);
      WordBytes(length);
      ReadKept(before, mem.bytes, data.value - 16, 8, data.value - 8, 8);
    }
    CapacityComesBack(length);
    r := Done(RocList(data.value, length, ShiftedCapacity(length)));
  }

  lemma HeaderIsMapped(m: Bytes, blocks: map<nat, Layout>, data: nat, size: nat, alignment: nat, refcounted: bool)
    requires Object(m, blocks, data, size, alignment, refcounted)
    ensures data >= Header(alignment, refcounted) + AllocAlign(alignment)
    ensures Mapped(m, data - Header(alignment, refcounted), Header(alignment, refcounted) + size)
    ensures ObjectBase(data, alignment, refcounted) + ObjectLayout(size, alignment, refcounted).size == data + size
  {
    hide Word, UserBlock;
  }

  /** `from_slice`: a shallow copy of the elements' bytes. */
  method FromElements(mem: Memory, place: Place, contents: seq<Byte>, length: nat, e: Element)
    returns (r: Outcome<RocList>)
    requires mem.Valid() && |contents| == DataBytes(length, e) && length < TWO_63
    requires length > 0 ==> Grants(mem.bytes, place, ListLayout(length, e))
    modifies mem
    ensures mem.Valid()
    ensures length == 0 ==> r == Done(EmptyList())
    ensures length > 0 ==> Fails(r, ListLayout(length, e).size, place)
    ensures r.Done? && length > 0 ==>
              && place.Block? && r.value.length == length && IsWhole(mem.bytes, mem.blocks, r.value, e)
              && CountIs(mem.bytes, r.value.elements, 1)
              && Mapped(mem.bytes, r.value.elements, |contents|)
              && Read(mem.bytes, r.value.elements, |contents|) == contents
              && SameOutside(old(mem.bytes), old(mem.blocks), mem.bytes, mem.blocks, place.base, ListLayout(length, e))
              && ObjectBase(r.value.elements, e.align, e.refcounted) == place.base
    ensures !r.Done? || length == 0 ==> mem.bytes == old(mem.bytes) && mem.blocks == old(mem.blocks)
  {
    hide BlocksOk, Grants, Extends, Object, Overlay, LeVal, LeBytes;
    r := Allocate(mem, place, length, e);
    if length > 0 && r.Done? {
      ghost var before, data := mem.bytes, r.value.elements;
      HeaderIsMapped(before, mem.blocks, data, |contents|, e.align, e.refcounted);
      StillExtends(old(mem.bytes), before, place.base, ListLayout(length, e).size, data, contents);
      StoreInside(mem, r.value.elements, contents, data, |contents|, e.align, e.refcounted);
      ReadKept(before, mem.bytes, data, |contents|, data - 8, 8);
      if e.refcounted {
        ReadKept(before, mem.bytes, data, |contents|, data - 16, 8);
      }
    }
  }

  /** `allocation_element_count`: for refcounted elements a slice finds how many the whole
      allocation holds; otherwise it only knows its own length. */
  method ElementCount(mem: Memory, l: RocList, e: Element, ghost whole: RocList) returns (n: nat)
    requires Backing(l) != 0 ==> IsWhole(mem.bytes, mem.blocks, whole, e) && PartOf(l, whole)
    ensures Backing(l) != 0 ==> n == if e.refcounted || l == whole then whole.length else l.length
    ensures Backing(l) == 0 ==> n == if e.refcounted && IsSlice(l) then 0 else l.length
  {
    if whole.length < TWO_64 {
      CapacityComesBack(whole.length);
    }
    if IsSlice(l) && e.refcounted {
      var data := Backing(l);
      if data == 0 {
        return 0;
      }
      n := Word(mem.bytes, data - 16);
    } else {
      n := l.length;
    }
  }

  /** `decref`: a slice releases the allocation it was cut from. */
  method DecrefList(mem: Memory, l: RocList, e: Element, ghost whole: RocList)
    requires mem.Valid() && (l.elements != 0 && Backing(l) != 0 ==>
                               IsWhole(mem.bytes, mem.blocks, whole, e) && PartOf(l, whole))
    modifies mem
    ensures mem.Valid()
    ensures l.elements == 0 || Backing(l) == 0 ==> mem.bytes == old(mem.bytes) && mem.blocks == old(mem.blocks)
    ensures l.elements != 0 && Backing(l) != 0 ==>
              Dropped(old(mem.bytes), old(mem.blocks), mem.bytes, mem.blocks, whole.elements,
                      DataBytes(whole.length, e), e.align, e.refcounted)
  {
    hide BlocksOk, Dropped, UserBlock, LeVal, DataBytes;
    if whole.length < TWO_64 {
      CapacityComesBack(whole.length);
    }
    if l.elements == 0 {
      return;
    }
    var data := Backing(l);
    if data == 0 {
      return;
    }
    DropData(mem, data, e.align, e.refcounted, DataBytes(whole.length, e));
  }

  /** Making a list, then dropping it, or any slice of it, restores the memory. */
  method ListRoundTrip(mem: Memory, place: Place, contents: seq<Byte>, length: nat, e: Element, cut: Cut)
    returns (r: Outcome<seq<Byte>>)
    requires mem.Valid() && |contents| == DataBytes(length, e) && length < TWO_63 && PowerOfTwo(e.align)
    requires length > 0 ==> Grants(mem.bytes, place, ListLayout(length, e))
    modifies mem
    ensures length > 0 ==> Fails(r, ListLayout(length, e).size, place)
    ensures r.Done? ==> r.value == contents
    ensures mem.bytes == old(mem.bytes) && mem.blocks == old(mem.blocks)
  {
    hide BlocksOk, Grants, Extends, Object, LeVal;
    if length > 0 {
      PlacedEvenly(mem.bytes, place, length, e);
    }
    var l := FromElements(mem, place, contents, length, e);
    if length == 0 {
      return Done([]);
    }
    if !l.Done? {
      return match l case Overflow => Overflow case _ => OutOfMemory;
    }
    r := Done(Read(mem.bytes, l.value.elements, |contents|));
    ExtendThenShrink(old(mem.bytes), mem.bytes, place.base, ListLayout(length, e).size);
    var dropped := match cut
      case Whole => l.value
      case Slice(offset, n) => RocList(l.value.elements + offset, n, l.value.elements + 1);
    assert PartOf(dropped, l.value) by {
      AtLeastHeader(place, l.value, e);
    }
    DecrefList(mem, dropped, e, l.value);
  }

  /** What is dropped: the list itself, or a slice that starts so many bytes into it. */
  datatype Cut = Whole | Slice(offset: nat, length: nat)

  /** Data pointers are even, so that the slice tag can be told from the address. */
  lemma PlacedEvenly(m: Bytes, place: Place, length: nat, e: Element)
    requires PowerOfTwo(e.align) && Grants(m, place, ListLayout(length, e))
    ensures place.Block? ==> (place.base + AllocAlign(e.align) + Header(e.align, e.refcounted)) % 8 == 0
  {
    if place.Block? {
      DataIsAligned(place.base, e.align, e.refcounted);
    }
  }

  lemma AtLeastHeader(place: Place, l: RocList, e: Element)
    requires place.Block? && ObjectBase(l.elements, e.align, e.refcounted) == place.base
    requires (place.base + AllocAlign(e.align) + Header(e.align, e.refcounted)) % 8 == 0
    ensures l.elements != 0 && l.elements % 2 == 0
  {
    assert l.elements == place.base + AllocAlign(e.align) + Header(e.align, e.refcounted);
    assert Header(e.align, e.refcounted) >= 8;
    hide AllocAlign, Header, ObjectBase;
    Through(l.elements, 8, 2);
  }

  /** `roc_erased_callable_allocate`: two code pointers, then the captures. */
  method AllocateCallable(mem: Memory, place: Place, code: Word64, onDrop: Word64, captures: nat)
    returns (r: Outcome<nat>)
    requires mem.Valid() && Grants(mem.bytes, place, ObjectLayout(16 + captures, 16, false))
    modifies mem
    ensures mem.Valid() && Fails(r, ObjectLayout(16 + captures, 16, false).size, place)
    ensures r.Done? ==>
              && Object(mem.bytes, mem.blocks, r.value, 16 + captures, 16, false) && r.value % 16 == 0
              && CountIs(mem.bytes, r.value, 1)
              && Mapped(mem.bytes, r.value, 16) && Word(mem.bytes, r.value) == code
              && Word(mem.bytes, r.value + 8) == onDrop
  {
    hide BlocksOk, Extends, Object, Overlay, LeVal, LeBytes;
    assert place.Block? ==> place.base % 16 == 0;
    hide Grants;
    var data := AllocateData(mem, place, 16 + captures, 16, false);
    if !data.Done? {
      return data;
    }
    ghost var before := mem.bytes;
    HeaderIsMapped(before, mem.blocks, data.value, 16 + captures, 16, false);
    StoreInside(mem, data.value, LeBytes(code, 8) + LeBytes(onDrop, 8), data.value, 16 + captures, 16, false);
    ReadKept(before, mem.bytes, data.value, 16, data.value - 8, 8);
    ReadJoin(mem.bytes, data.value, 8, 8);
    TwoWords(code, onDrop, Read(mem.bytes, data.value, 8), Read(mem.bytes, data.value + 8, 8));
    r := Done(data.value);
  }

  lemma TwoWords(v: Word64, w: Word64, s: seq<Byte>, t: seq<Byte>)
    requires |s| == 8 && |t| == 8 && s + t == LeBytes(v, 8) + LeBytes(w, 8)
    ensures LeVal(s) == v && LeVal(t) == w
  {
    WordBytes(v);
    WordBytes(w);
    hide LeVal, LeBytes;
    assert s == (s + t)[..8] && t == (s + t)[8..];
  }
}
