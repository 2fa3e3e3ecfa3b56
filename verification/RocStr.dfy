/** Strings at byte level.  A RocStr is three words; a small string hides its bytes in
    those words themselves, and the top bit of the last one tells which it is. */
module RocStrs {
  import opened LittleEndian
  import opened RawMemory
  import opened DefaultAllocators
  import opened RocLayout
  import opened Utf8Text

  type Word64 = w: nat | w < TWO_64

  datatype RocStr = RocStr(bytes: Word64, cap: Word64, length: Word64)

  const STR_SIZE: nat := 24

  // ----- the two views of the three words -----

  function Image(s: RocStr): (i: seq<Byte>)
    ensures |i| == STR_SIZE
  {
    LeBytes(s.bytes, 8) + LeBytes(s.cap, 8) + LeBytes(s.length, 8)
  }

  function FromImage(i: seq<Byte>): RocStr
    requires |i| == STR_SIZE
  {
    TopBit(i[..8]);
    TopBit(i[8..16]);
    TopBit(i[16..]);
    RocStr(LeVal(i[..8]), LeVal(i[8..16]), LeVal(i[16..]))
  }

  lemma ImageOfImage(i: seq<Byte>)
    requires |i| == STR_SIZE
    ensures Image(FromImage(i)) == i
  {
    BytesOfVal(i[..8]);
    BytesOfVal(i[8..16]);
    BytesOfVal(i[16..]);
    hide LeBytes, LeVal;
    assert i == i[..8] + i[8..16] + i[16..];
  }

  lemma StrOfImage(s: RocStr)
    ensures FromImage(Image(s)) == s
  {
    WordBytes(s.bytes);
    WordBytes(s.cap);
    WordBytes(s.length);
    hide LeBytes, LeVal;
    var i := Image(s);
    assert i[..8] == LeBytes(s.bytes, 8) && i[8..16] == LeBytes(s.cap, 8) && i[16..] == LeBytes(s.length, 8);
  }

  function AsIsize(w: Word64): int {
    if w < TWO_63 then w else w - TWO_64
  }

  /** `length as isize < 0` */
  predicate IsSmall(s: RocStr) {
    AsIsize(s.length) < 0
  }

  function FlipTop(b: Byte): Byte {
    if b < 128 then b + 128 else b - 128
  }

  function SetTop(b: Byte): Byte {
    if b < 128 then b + 128 else b
  }

  function Len(s: RocStr): nat {
    if IsSmall(s) then FlipTop(Image(s)[STR_SIZE - 1]) else s.length
  }

  predicate IsSeamlessSlice(s: RocStr) {
    !IsSmall(s) && s.cap % 2 == 1
  }

  /** Where the refcount word is to be found. */
  function AllocationPtr(s: RocStr): nat {
    if IsSeamlessSlice(s) then s.cap - 1 else s.bytes
  }

  /** The sign of the length field is the top bit of the last byte in memory. */
  lemma TagViewsAgree(s: RocStr)
    ensures IsSmall(s) <==> Image(s)[STR_SIZE - 1] >= 128
    ensures Len(s) < TWO_63
  {
    WordBytes(s.length);
    TopBit(LeBytes(s.length, 8));
    hide LeBytes, LeVal;
    assert Image(s)[STR_SIZE - 1] == LeBytes(s.length, 8)[7];
  }

  // ----- contents -----

  /** `s` is a string with the bytes b: either inline, or in an allocation of its own. */
  ghost predicate Shows(m: Bytes, blocks: map<nat, Layout>, s: RocStr, b: seq<Byte>) {
    if |b| < STR_SIZE then
      IsSmall(s) && Image(s)[..|b|] == b && Image(s)[STR_SIZE - 1] == |b| + 128
    else
      && |b| < TWO_63 && s.length == |b| && s.cap == ShiftedCapacity(|b|)
      && Object(m, blocks, s.bytes, |b|, 8, false)
      && Read(m, s.bytes, |b|) == b
  }

  /** `capacity << 1`: only the shift amount is checked, so a top bit is lost. */
  function ShiftedCapacity(c: Word64): Word64 {
    (c * 2) % TWO_64
  }

  /** The shifted form is never taken for a slice, and gives the capacity back exactly
      when the capacity is below 2^63. */
  lemma CapacityComesBack(c: Word64)
    ensures ShiftedCapacity(c) % 2 == 0
    ensures ShiftedCapacity(c) / 2 == c <==> c < TWO_63
  {
    if c < TWO_63 {
      assert ShiftedCapacity(c) == c * 2;
    } else {
      assert ShiftedCapacity(c) == c * 2 - TWO_64;
    }
  }

  /** The bytes that `as_slice` can reach. */
  ghost predicate Readable(m: Bytes, s: RocStr) {
    if IsSmall(s) then Len(s) <= STR_SIZE else Mapped(m, s.bytes, s.length)
  }

  /** `as_slice` */
  method AsSlice(mem: Memory, s: RocStr) returns (b: seq<Byte>)
    requires Readable(mem.bytes, s)
    ensures b == Slice(mem.bytes, s)
  {
    if IsSmall(s) {
      b := Image(s)[..Len(s)];
    } else {
      b := Read(mem.bytes, s.bytes, s.length);
    }
  }

  function Slice(m: Bytes, s: RocStr): seq<Byte>
    requires Readable(m, s)
  {
    if IsSmall(s) then Image(s)[..Len(s)] else Read(m, s.bytes, s.length)
  }

  /** Reading back: the contents are all there, the string is small exactly up to 23 bytes,
      and it is never taken for a slice of something else. */
  lemma ShowsIsRead(m: Bytes, blocks: map<nat, Layout>, s: RocStr, b: seq<Byte>)
    requires Shows(m, blocks, s, b)
    ensures Readable(m, s) && Slice(m, s) == b && Len(s) == |b|
    ensures IsSmall(s) <==> |b| <= 23
    ensures !IsSeamlessSlice(s) && AllocationPtr(s) == s.bytes && (|b| > 23 ==> s.cap / 2 == |b|)
  {
    hide UserBlock;
    if |b| >= STR_SIZE {
      CapacityComesBack(|b|);
    }
  }

  /** Contents pin the string down: two inline strings that show the same bytes differ at
      most in the bytes that do not count. */
  lemma SameContents(m: Bytes, blocks: map<nat, Layout>, s: RocStr, b: seq<Byte>, c: seq<Byte>)
    requires Shows(m, blocks, s, b) && Shows(m, blocks, s, c)
    ensures b == c
  {
    ShowsIsRead(m, blocks, s, b);
    ShowsIsRead(m, blocks, s, c);
  }

  function Empty(): RocStr {
    RocStr(0, 0, TWO_63)
  }

  /** The inline form: the bytes are copied over the three words and the last byte gets
      the length and the tag. */
  method SmallFromSlice(slice: seq<Byte>) returns (s: RocStr)
    requires |slice| < STR_SIZE
    ensures forall m, blocks :: Shows(m, blocks, s, slice)
  {
    var image := new Byte[STR_SIZE](i requires 0 <= i < STR_SIZE => Image(Empty())[i]);
    forall i | 0 <= i < |slice| {
      image[i] := slice[i];
    }
    image[STR_SIZE - 1] := SetTop(|slice|);
    s := FromImage(image[..]);
    ImageOfImage(image[..]);
    TagViewsAgree(s);
    hide Image, FromImage, LeBytes, LeVal;
    assert image[..][..|slice|] == slice;
  }

  /** `from_slice`.  Rust slices are shorter than 2^63 bytes. */
  method FromSlice(mem: Memory, place: Place, slice: seq<Byte>) returns (r: Outcome<RocStr>)
    requires mem.Valid() && |slice| < TWO_63 &&
             (|slice| >= STR_SIZE ==> Grants(mem.bytes, place, ObjectLayout(|slice|, 8, false)))
    modifies mem
    ensures mem.Valid() && !r.Overflow? && (r.InvalidUtf8? <==> !IsText(slice))
    ensures r.OutOfMemory? <==> IsText(slice) && |slice| >= STR_SIZE && place.Null?
    ensures r.Done? ==> Shows(mem.bytes, mem.blocks, r.value, slice)
    ensures r.Done? && |slice| >= STR_SIZE ==>
              && place.Block? && ObjectBase(r.value.bytes, 8, false) == place.base
              && CountIs(mem.bytes, r.value.bytes, 1)
              && SameOutside(old(mem.bytes), old(mem.blocks), mem.bytes, mem.blocks, place.base,
                             ObjectLayout(|slice|, 8, false))
    ensures !r.Done? || |slice| < STR_SIZE ==> mem.bytes == old(mem.bytes) && mem.blocks == old(mem.blocks)
  {
    Utf8Exactly(slice);
    hide IsText;
    if !Utf8(slice) {
      return InvalidUtf8;
    }
    if |slice| < STR_SIZE {
      var s := SmallFromSlice(slice);
      return Done(s);
    }
    hide Utf8, Grants, BlocksOk, Shows, SameOutside;
    r := HeapFromSlice(mem, place, slice);
  }

  /** The allocated form: refcount one, the bytes copied after it. */
  method HeapFromSlice(mem: Memory, place: Place, slice: seq<Byte>) returns (r: Outcome<RocStr>)
    requires mem.Valid() && STR_SIZE <= |slice| < TWO_63 && Grants(mem.bytes, place, ObjectLayout(|slice|, 8, false))
    modifies mem
    ensures mem.Valid() && (r.Done? <==> place.Block?) && (r.OutOfMemory? <==> place.Null?)
    ensures r.Done? ==>
              && Shows(mem.bytes, mem.blocks, r.value, slice)
              && ObjectBase(r.value.bytes, 8, false) == place.base && CountIs(mem.bytes, r.value.bytes, 1)
              && SameOutside(old(mem.bytes), old(mem.blocks), mem.bytes, mem.blocks, place.base,
                             ObjectLayout(|slice|, 8, false))
    ensures !r.Done? ==> mem.bytes == old(mem.bytes) && mem.blocks == old(mem.blocks)
  {
    hide Grants, Overlay, BlocksOk, LeVal, LeBytes, Object, Extends;
    var data := AllocateData(mem, place, |slice|, 8, false);
    if !data.Done? {
      return OutOfMemory;
    }
    FillIsInside(mem.bytes, mem.blocks, data.value, slice, 8, false);
    StillExtends(old(mem.bytes), mem.bytes, place.base, ObjectLayout(|slice|, 8, false).size, data.value, slice);
    ghost var before := mem.bytes;
    StoreInside(mem, data.value, slice, data.value, |slice|, 8, false);
    ReadKept(before, mem.bytes, data.value, |slice|, data.value - 8, 8);
    DataInRange(mem.bytes, mem.blocks, data.value, |slice|, 8, false);
    r := Done(RocStr(data.value, ShiftedCapacity(|slice|), |slice|));
  }

  lemma DataInRange(m: Bytes, blocks: map<nat, Layout>, data: nat, size: nat, alignment: nat, refcounted: bool)
    requires BlocksOk(m, blocks) && Object(m, blocks, data, size, alignment, refcounted) && size > 0
    ensures data < TWO_64
  {
    hide UserBlock, Mapped;
    ObjectBlock(m, blocks, data, size, alignment, refcounted);
    var base := ObjectBase(data, alignment, refcounted);
    assert BlockOk(m, base, blocks[base]);
  }

  /** `decref`.  The owned reference is to the allocation the string shows, or, for a slice,
      to the one it was cut from. */
  method Decref(mem: Memory, s: RocStr, ghost size: nat)
    requires mem.Valid() && (Counted(s) ==> Object(mem.bytes, mem.blocks, AllocationPtr(s), size, 8, false))
    modifies mem
    ensures mem.Valid()
    ensures !Counted(s) ==> mem.bytes == old(mem.bytes) && mem.blocks == old(mem.blocks)
    ensures Counted(s) ==> Dropped(old(mem.bytes), old(mem.blocks), mem.bytes, mem.blocks, AllocationPtr(s), size, 8,
                                   false)
  {
    hide BlocksOk, UserBlock, Dropped;
    if IsSmall(s) {
      return;
    }
    var data := AllocationPtr(s);
    if data == 0 {
      return;
    }
    DropData(mem, data, 8, false, size);
  }

  predicate Counted(s: RocStr) {
    !IsSmall(s) && AllocationPtr(s) != 0
  }

  /** Making a string, reading it and dropping it: the bytes come back, and the memory is
      what it was. */
  method RoundTrip(mem: Memory, place: Place, slice: seq<Byte>) returns (b: Outcome<seq<Byte>>)
    requires mem.Valid() && |slice| < TWO_63 &&
             (|slice| >= STR_SIZE ==> Grants(mem.bytes, place, ObjectLayout(|slice|, 8, false)))
    modifies mem
    ensures b.Done? <==> IsText(slice) && (|slice| <= 23 || place.Block?)
    ensures b.Done? ==> b.value == slice
    ensures mem.bytes == old(mem.bytes) && mem.blocks == old(mem.blocks)
  {
    hide BlocksOk, UserBlock, Grants, IsText, LeVal, LeBytes, Image, Extends;
    var s := FromSlice(mem, place, slice);
    if !s.Done? {
      return if s.OutOfMemory? then OutOfMemory else InvalidUtf8;
    }
    ShowsIsRead(mem.bytes, mem.blocks, s.value, slice);
    var read := AsSlice(mem, s.value);
    if |slice| >= STR_SIZE {
      ExtendThenShrink(old(mem.bytes), mem.bytes, place.base, ObjectLayout(|slice|, 8, false).size);
    }
    Decref(mem, s.value, |slice|);
    b := Done(read);
  }

  /** A string keeps its contents whatever else is allocated. */
  lemma ShowsAfterAllocation(m: Bytes, blocks: map<nat, Layout>, m': Bytes, blocks': map<nat, Layout>, base: nat,
                             layout: Layout,
                             s: RocStr, b: seq<Byte>)
    requires BlocksOk(m, blocks) && SameOutside(m, blocks, m', blocks', base, layout) && BlocksOk(m', blocks')
    requires Shows(m, blocks, s, b)
    ensures Shows(m', blocks', s, b)
  {
    if |b| >= STR_SIZE {
      hide UserBlock, Read, Mapped, BlocksOk, Word, KeptOutside, LeBytes, LeVal;
      ObjectBlock(m, blocks, s.bytes, |b|, 8, false);
      hide Object, Shows;
      NewIsApart(m', blocks, base, layout, ObjectBase(s.bytes, 8, false));
      ShowsKept(m, blocks, m', blocks', base, layout.size, s, b);
    }
  }

  lemma NewIsApart(m': Bytes, blocks: map<nat, Layout>, base: nat, layout: Layout, own: nat)
    requires BlocksOk(m', blocks[base := layout]) && base !in blocks && own in blocks
    ensures Apart(base, layout.size, own, blocks[own].size)
  {
    var blocks' := blocks[base := layout];
    assert Apart(base, blocks'[base].size, own, blocks'[own].size);
  }

  lemma ShowsKept(m: Bytes, blocks: map<nat, Layout>, m': Bytes, blocks': map<nat, Layout>, p: nat, n: nat, s: RocStr,
                  b: seq<Byte>)
    requires Shows(m, blocks, s, b) && |b| >= STR_SIZE && KeptOutside(m, m', p, n)
    requires Apart(p, n, ObjectBase(s.bytes, 8, false), ObjectLayout(|b|, 8, false).size)
    requires ObjectBase(s.bytes, 8, false) in blocks' &&
             blocks'[ObjectBase(s.bytes, 8, false)] == blocks[ObjectBase(s.bytes, 8, false)]
    ensures Shows(m', blocks', s, b)
  {
    hide UserBlock, Word;
    ObjectKept(m, blocks, m', blocks', p, n, s.bytes, |b|, 8, false);
    ReadKept(m, m', p, n, s.bytes, |b|);
  }

  /** A string keeps its contents whatever reference is dropped, except the last one to its
      own allocation. */
  lemma ShowsAfterDrop(m: Bytes, blocks: map<nat, Layout>, m': Bytes, blocks': map<nat, Layout>,
                       data: nat, size: nat, alignment: nat, refcounted: bool, s: RocStr, b: seq<Byte>)
    requires BlocksOk(m, blocks) && Object(m, blocks, data, size, alignment, refcounted)
    requires Dropped(m, blocks, m', blocks', data, size, alignment, refcounted)
    requires Shows(m, blocks, s, b)
    requires ObjectBase(s.bytes, 8, false) == ObjectBase(data, alignment, refcounted) && |b| >= STR_SIZE ==>
               s.bytes == data && !CountIs(m, data, 1)
    ensures Shows(m', blocks', s, b)
  {
    if |b| >= STR_SIZE && Word(m, data - 8) != 0 {
      hide UserBlock, Word, Read, BlockOk;
      ObjectBlock(m, blocks, s.bytes, |b|, 8, false);
      ObjectBlock(m, blocks, data, size, alignment, refcounted);
      var own, base := ObjectBase(s.bytes, 8, false), ObjectBase(data, alignment, refcounted);
      if Word(m, data - 8) == 1 {
        assert Apart(own, blocks[own].size, base, blocks[base].size);
        hide BlocksOk, Shows, Object, Mapped;
        Removed(m, base, blocks[base].size);
        ShowsKept(m, blocks, m', blocks', base, blocks[base].size, s, b);
      } else {
        CountIsApart(m, blocks, data, size, alignment, refcounted, s, b);
        hide BlocksOk, Shows, Object, Mapped;
        ShowsCounted(m, m', blocks, data, s, b);
      }
    }
  }

  lemma Removed(m: Bytes, p: nat, n: nat)
    ensures KeptOutside(m, m - Range(p, n), p, n)
  {
  }

  /** The refcount word of an allocation is not part of any string's bytes or size word. */
  lemma CountIsApart(m: Bytes, blocks: map<nat, Layout>, data: nat, size: nat, alignment: nat, refcounted: bool,
                     s: RocStr, b: seq<Byte>)
    requires BlocksOk(m, blocks) && Object(m, blocks, data, size, alignment, refcounted) && Shows(m, blocks, s, b) &&
             |b| >= STR_SIZE
    requires ObjectBase(s.bytes, 8, false) == ObjectBase(data, alignment, refcounted) ==> s.bytes == data
    ensures Apart(data - 8, 8, s.bytes - 16, 8) && Apart(data - 8, 8, s.bytes, |b|)
  {
    hide UserBlock, Word, Read, BlockOk, Mapped;
    ObjectBlock(m, blocks, s.bytes, |b|, 8, false);
    ObjectBlock(m, blocks, data, size, alignment, refcounted);
    var own, base := ObjectBase(s.bytes, 8, false), ObjectBase(data, alignment, refcounted);
    assert own != base ==> Apart(own, blocks[own].size, base, blocks[base].size);
  }

  lemma ShowsCounted(m: Bytes, m': Bytes, blocks: map<nat, Layout>, data: nat, s: RocStr, b: seq<Byte>)
    requires Shows(m, blocks, s, b) && |b| >= STR_SIZE && data >= 8 && KeptOutside(m, m', data - 8, 8) &&
             m'.Keys == m.Keys
    requires Apart(data - 8, 8, s.bytes - 16, 8) && Apart(data - 8, 8, s.bytes, |b|)
    ensures Shows(m', blocks, s, b)
  {
    hide UserBlock, Word;
    ObjectBlock(m, blocks, s.bytes, |b|, 8, false);
    ObjectKept(m, blocks, m', blocks, data - 8, 8, s.bytes, |b|, 8, false);
    ReadKept(m, m', data - 8, 8, s.bytes, |b|);
  }

  /** A slice finds its way back to the allocation it was cut from exactly when that one's
      address is even, and allocations are eight-aligned. */
  lemma SliceFindsOwner(owner: Word64, offset: nat, n: nat)
    requires owner + offset < TWO_64 && n < TWO_63 && owner < TWO_64 - 1
    ensures var slice := SliceOf(owner, offset, n);
            IsSeamlessSlice(slice) && Len(slice) == n && (AllocationPtr(slice) == owner <==> owner % 2 == 0)
  {
  }

  /** Slices of the strings that `from_slice` makes share their refcount word. */
  lemma StringSlice(m: Bytes, blocks: map<nat, Layout>, s: RocStr, b: seq<Byte>, offset: nat, n: nat)
    requires BlocksOk(m, blocks) && Shows(m, blocks, s, b) && |b| >= STR_SIZE && offset < |b| && offset + n <= |b|
    ensures s.bytes + offset < TWO_64 && s.bytes < TWO_64 - 1
    ensures var slice := SliceOf(s.bytes, offset, n);
            && AllocationPtr(slice) == AllocationPtr(s) && Readable(m, slice)
            && Slice(m, slice) == b[offset..offset + n]
  {
    DataInMemory(m, blocks, s.bytes, |b|);
    hide BlocksOk, UserBlock, Word;
    ShowsIsRead(m, blocks, s, b);
    SliceFindsOwner(s.bytes, offset, n);
    ReadPart(m, s.bytes, |b|, offset, n);
    hide Shows, Image, Object, Read;
  }

  lemma DataInMemory(m: Bytes, blocks: map<nat, Layout>, data: nat, size: nat)
    requires BlocksOk(m, blocks) && Object(m, blocks, data, size, 8, false)
    ensures data + size <= TWO_64 && data % 2 == 0
  {
    hide BlocksOk, Object, ObjectBase, ObjectLayout;
    ObjectBlock(m, blocks, data, size, 8, false);
    StringBlock(data, size);
    BlockInMemory(m, blocks, data - 16);
    EvenAbove(data - 16);
  }

  lemma StringBlock(data: nat, size: nat)
    ensures ObjectBase(data, 8, false) == data - 16 && ObjectLayout(size, 8, false) == Layout(size + 16, 8)
  {
  }

  lemma EvenAbove(base: nat)
    requires base % 8 == 0
    ensures (base + 16) % 2 == 0
  {
    var k := base / 8;
    assert base == 8 * k && base + 16 == 2 * (4 * k + 8);
  }

  lemma BlockInMemory(m: Bytes, blocks: map<nat, Layout>, base: nat)
    requires BlocksOk(m, blocks) && base in blocks
    ensures blocks[base].align > 0 && base % blocks[base].align == 0 && base + blocks[base].size <= TWO_64
  {
    assert BlockOk(m, base, blocks[base]);
    hide Mapped;
  }

  lemma ReadPart(m: Bytes, p: nat, k: nat, offset: nat, n: nat)
    requires Mapped(m, p, k) && offset + n <= k
    ensures Mapped(m, p + offset, n) && Read(m, p + offset, n) == Read(m, p, k)[offset..offset + n]
  {
  }

  /** `alloc_ptr | 1` */
  function SliceOf(owner: Word64, offset: nat, n: nat): RocStr
    requires owner + offset < TWO_64 && n < TWO_64 && owner < TWO_64 - 1
  {
    RocStr(owner + offset, if owner % 2 == 0 then owner + 1 else owner, n)
  }
}
