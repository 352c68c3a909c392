/**
  Translation table descriptors and table indices for a 48-bit address space with four levels, as in
  section D8.3 of the Arm Architecture Reference Manual (DDI 0487), for the 4 KiB and 16 KiB granules.
*/
module Descriptors {
  import opened Abi
  import opened Bits

  datatype Granule = K4 | K16

  function PageShift(g: Granule): nat {
    match g case K4 => 12 case K16 => 14
  }

  /** The page size. */
  function Size(g: Granule): (n: nat)
    ensures n > 0
  {
    match g case K4 => 4096 case K16 => 16384
  }

  /** Entries per table. */
  function Entries(g: Granule): nat {
    match g case K4 => 512 case K16 => 2048
  }

  function BitsPerLevel(g: Granule): nat {
    PageShift(g) - 3
  }

  /** A granule-aligned physical address the descriptors can name. */
  predicate IsFrame(g: Granule, pa: int) {
    0 <= pa < TWO_48 && pa % Size(g) == 0
  }

  // ---------------------------------------------------------------- attribute bits

  const DESC_VALID := 3            // the same two bits mark a table and a page
  const ATTR_AF := 0x400           // 1 << 10
  const SH_INNER := 0x300          // 0b11 << 8
  const SH_OUTER := 0x200          // 0b10 << 8
  const AP_RO := 0x80              // 0b10 << 6
  const AP_RW := 0x00              // 0b00 << 6
  const AP_RO_ALL := 0xC0          // 0b11 << 6
  const AP_RW_ALL := 0x40          // 0b01 << 6
  const IDX_DEVICE := 0x4          // 1 << 2
  const PXN := 0x20_0000_0000_0000 // 1 << 53
  const UXN := 0x40_0000_0000_0000 // 1 << 54

  datatype KernelPerm = Text | Ro | Rw | Device

  /** `Perm::attrs`; the named bits are distinct, so `|` is `+`. */
  function KernelAttrs(p: KernelPerm): nat {
    match p
    case Text => DESC_VALID + ATTR_AF + SH_INNER + AP_RO + UXN
    case Ro => DESC_VALID + ATTR_AF + SH_INNER + AP_RO + UXN + PXN
    case Rw => DESC_VALID + ATTR_AF + SH_INNER + AP_RW + UXN + PXN
    case Device => DESC_VALID + ATTR_AF + SH_OUTER + AP_RW + IDX_DEVICE + UXN + PXN
  }

  datatype UserPerm = TextUser | RoUser | RwUser

  /** `UserPerm::attrs`. */
  function UserAttrs(p: UserPerm): nat {
    match p
    case TextUser => DESC_VALID + ATTR_AF + SH_INNER + AP_RO_ALL + PXN
    case RoUser => DESC_VALID + ATTR_AF + SH_INNER + AP_RO_ALL + UXN + PXN
    case RwUser => DESC_VALID + ATTR_AF + SH_INNER + AP_RW_ALL + UXN + PXN
  }

  /** Attributes sit in bits 0 to 11 and from bit 48 up, and mark the entry valid. */
  predicate IsAttrs(a: nat) {
    a % TWO_48 < 4096 && a % 4 == 3 && a < TWO_64
  }

  // What the hardware reads out of a leaf descriptor.
  predicate ElZeroAccess(e: nat) { e / 0x40 % 2 == 1 }
  predicate ReadOnly(e: nat) { e / 0x80 % 2 == 1 }
  predicate UserNeverExecutes(e: nat) { e / UXN % 2 == 1 }
  predicate KernelNeverExecutes(e: nat) { e / PXN % 2 == 1 }
  predicate Accessed(e: nat) { e / 0x400 % 2 == 1 }

  /** Bits 2 to 4 select the memory type: 0 is normal memory, 1 is a device. */
  function MemoryType(e: nat): nat { e / 4 % 8 }

  /** Bits 8 and 9: 3 is inner shareable, 2 is outer shareable. */
  function Shareability(e: nat): nat { e / 0x100 % 4 }

  /** The first access does not fault, and the memory is ordinary RAM or a device. */
  predicate RamLeaf(e: nat) { e % 4 == 3 && Accessed(e) && MemoryType(e) == 0 && Shareability(e) == 3 }
  predicate DeviceLeaf(e: nat) { e % 4 == 3 && Accessed(e) && MemoryType(e) == 1 && Shareability(e) == 2 }

  predicate UserWritable(e: nat) { e % 4 == 3 && ElZeroAccess(e) && !ReadOnly(e) }
  predicate UserExecutable(e: nat) { e % 4 == 3 && ElZeroAccess(e) && !UserNeverExecutes(e) }

  // ---------------------------------------------------------------- building and reading descriptors

  function Link(pa: nat): nat {
    Or(pa, DESC_VALID)
  }

  function Leaf(pa: nat, attrs: nat): nat {
    Or(pa, attrs)
  }

  /** `e & 0b11`. */
  function TypeBits(e: nat): nat {
    And(e, 3)
  }

  /** `e & ADDR_MASK`. */
  function AddrOf(g: Granule, e: nat): nat {
    And(e, 0x1_0000_0000_0000 - Size(g))
  }

  lemma AndMask(k: nat, e: nat)
    ensures And(e, Pow2(k) - 1) == e % Pow2(k)
  {
    hide And, Pow2;
    var p := Pow2(k);
    assert e == (e / p) * p + e % p;
    AndOnes(k, e % p);
    AndSplit(k, e / p, e % p, 0, p - 1);
    AndNone(e / p);
  }

  lemma AndNone(a: nat)
    ensures And(a, 0) == 0
  {
  }

  lemma TypeBitsAre(e: nat)
    ensures TypeBits(e) == e % 4
  {
    AndMask(2, e);
    assert Pow2(2) == 4;
  }

  lemma Powers(g: Granule)
    ensures Pow2(48) == TWO_48 && Pow2(PageShift(g)) == Size(g)
    ensures Pow2(48 - PageShift(g)) == match g case K4 => 0x10_0000_0000 case K16 => 0x4_0000_0000
  {
    assert Pow2(12) == 0x1000 && Pow2(14) == 0x4000;
    assert Pow2(24) == 0x100_0000;
    assert Pow2(34) == 0x4_0000_0000 && Pow2(36) == 0x10_0000_0000;
    assert Pow2(48) == 0x1_0000_0000_0000;
  }

  /** The address field of any word, as arithmetic. */
  lemma AddrOfIs(g: Granule, e: nat)
    ensures AddrOf(g, e) == (e % TWO_48) / Size(g) * Size(g)
  {
    Powers(g);
    hide And, Pow2;
    var m, k := Size(g), 48 - PageShift(g);
    var r := e % TWO_48;
    MaskParts(g, e, r);
    AndSplit(48, e / TWO_48, r, 0, TWO_48 - m);
    AndNone(e / TWO_48);
    AndSplit(PageShift(g), r / m, r % m, Pow2(k) - 1, 0);
    AndNone(r % m);
    AndMask(k, r / m);
    MaskKeeps(g, r);
  }

  lemma MaskParts(g: Granule, e: nat, r: nat)
    requires r == e % TWO_48
    ensures e == (e / TWO_48) * TWO_48 + r && r < TWO_48
    ensures r == (r / Size(g)) * Size(g) + r % Size(g)
    ensures TWO_48 - Size(g) == ((match g case K4 => 0x10_0000_0000 case K16 => 0x4_0000_0000) - 1) * Size(g) + 0
  {
  }

  lemma MaskKeeps(g: Granule, r: nat)
    requires r < TWO_48
    ensures r / Size(g) % (match g case K4 => 0x10_0000_0000 case K16 => 0x4_0000_0000) == r / Size(g)
  {
    match g
    case K4 => assert r / 4096 < 0x10_0000_0000;
    case K16 => assert r / 16384 < 0x4_0000_0000;
  }

  /** A frame address and a set of attributes do not share bits, so `|` keeps both. */
  lemma LeafIs(g: Granule, pa: nat, attrs: nat)
    requires IsFrame(g, pa) && IsAttrs(attrs)
    ensures Leaf(pa, attrs) == pa + attrs
    ensures AddrOf(g, Leaf(pa, attrs)) == pa
    ensures TypeBits(Leaf(pa, attrs)) == 3 && Leaf(pa, attrs) < TWO_64
  {
    hide Or, And;
    FrameAligned(g, pa);
    LeafSum(pa, attrs);
    AddrOfIs(g, pa + attrs);
    TypeBitsAre(pa + attrs);
    LeafFields(g, pa, attrs);
  }

  lemma AttrParts(attrs: nat)
    ensures attrs == attrs / TWO_48 * 0x10_0000_0000 * 4096 + attrs % TWO_48
  {
  }

  lemma LeafSum(pa: nat, attrs: nat)
    requires pa % 4096 == 0 && pa < TWO_48 && IsAttrs(attrs)
    ensures Or(pa, attrs) == pa + attrs
  {
    Powers(K4);
    hide Or, Pow2;
    var lo, hi := attrs % TWO_48, attrs / TWO_48;
    AttrParts(attrs);
    OrSplit(12, pa / 4096, 0, hi * 0x10_0000_0000, lo);
    OrSplit(36, 0, pa / 4096, hi, 0);
    OrNone(lo);
    OrNone(hi);
    OrNone(pa / 4096);
  }

  lemma LeafFields(g: Granule, pa: nat, attrs: nat)
    requires IsFrame(g, pa) && IsAttrs(attrs)
    ensures (pa + attrs) % 4 == 3 && pa + attrs < TWO_64
    ensures (pa + attrs) % TWO_48 / Size(g) * Size(g) == pa
  {
    FrameAligned(g, pa);
    LowSum(pa, attrs);
    FrameAlone(g, pa, attrs % TWO_48);
    hide *;
  }

  lemma Div48(x: nat, q: nat, r: nat)
    requires x == TWO_48 * q + r && r < TWO_48
    ensures x / TWO_48 == q && x % TWO_48 == r
  {
  }

  lemma LowSum(pa: nat, attrs: nat)
    requires pa % 4096 == 0 && pa < TWO_48 && IsAttrs(attrs)
    ensures (pa + attrs) % TWO_48 == pa + attrs % TWO_48
    ensures (pa + attrs) / TWO_48 == attrs / TWO_48
    ensures (pa + attrs) % 4 == 3 && pa + attrs < TWO_64
  {
    var hi, lo := attrs / TWO_48, attrs % TWO_48;
    BelowTop(pa);
    Word48(attrs);
    Div48(pa + attrs, hi, pa + lo);
    LowTwo(pa, attrs);
  }

  lemma BelowTop(pa: nat)
    requires pa % 4096 == 0 && pa < TWO_48
    ensures pa + 4096 <= TWO_48
  {
    assert pa == 4096 * (pa / 4096);
  }

  lemma Word48(a: nat)
    requires a < TWO_64
    ensures a == TWO_48 * (a / TWO_48) + a % TWO_48 && a / TWO_48 < 0x1_0000
  {
  }

  lemma LowTwo(pa: nat, attrs: nat)
    requires pa % 4096 == 0 && attrs % 4 == 3
    ensures (pa + attrs) % 4 == 3
  {
    assert pa == 4096 * (pa / 4096) && attrs == 4 * (attrs / 4) + 3;
    assert pa + attrs == 4 * (1024 * (pa / 4096) + attrs / 4) + 3;
  }

  lemma FrameAlone(g: Granule, pa: nat, lo: nat)
    requires IsFrame(g, pa) && lo < 4096
    ensures (pa + lo) / Size(g) * Size(g) == pa
  {
  }

  lemma OrNone(a: nat)
    ensures Or(0, a) == a && Or(a, 0) == a
  {
  }

  lemma LinkIs(g: Granule, pa: nat)
    requires IsFrame(g, pa)
    ensures Link(pa) == pa + 3 && Link(pa) < TWO_64
    ensures AddrOf(g, Link(pa)) == pa && TypeBits(Link(pa)) == 3 && Link(pa) % 4 == 3
  {
    hide Or, And, IsFrame;
    LeafIs(g, pa, DESC_VALID);
    TypeBitsAre(Link(pa));
  }

  /** Address bits do not disturb the attribute bits of a leaf. */
  lemma LeafBits(pa: nat, attrs: nat)
    requires pa % 4096 == 0 && pa < TWO_48 && IsAttrs(attrs)
    ensures (pa + attrs) % 4 == 3
    ensures ElZeroAccess(pa + attrs) == ElZeroAccess(attrs)
    ensures ReadOnly(pa + attrs) == ReadOnly(attrs)
    ensures UserNeverExecutes(pa + attrs) == UserNeverExecutes(attrs)
    ensures KernelNeverExecutes(pa + attrs) == KernelNeverExecutes(attrs)
  {
    hide *;
    LowSum(pa, attrs);
    Bit6(pa, attrs);
    Bit7(pa, attrs);
    Bit53(pa + attrs);
    Bit53(attrs);
    Bit54(pa + attrs);
    Bit54(attrs);
  }

  lemma LeafKind(pa: nat, a: nat)
    requires pa % 4096 == 0 && a % 4 == 3
    ensures RamLeaf(pa + a) == RamLeaf(a) && DeviceLeaf(pa + a) == DeviceLeaf(a)
  {
    hide Accessed, MemoryType, Shareability;
    LowTwo(pa, a);
    Bit10(pa, a);
    Field2(pa, a);
    Field8(pa, a);
  }

  lemma Bit10(pa: nat, a: nat)
    requires pa % 4096 == 0
    ensures Accessed(pa + a) == Accessed(a)
  {
    var k, x := pa / 4096, a / 0x400;
    assert pa + a == 0x400 * (4 * k + x) + a % 0x400;
    assert (pa + a) / 0x400 == 2 * (2 * k) + x;
  }

  lemma Field2(pa: nat, a: nat)
    requires pa % 4096 == 0
    ensures MemoryType(pa + a) == MemoryType(a)
  {
    var k, x := pa / 4096, a / 4;
    assert pa + a == 4 * (1024 * k + x) + a % 4;
    assert (pa + a) / 4 == 8 * (128 * k) + x;
  }

  lemma Field8(pa: nat, a: nat)
    requires pa % 4096 == 0
    ensures Shareability(pa + a) == Shareability(a)
  {
    var k, x := pa / 4096, a / 0x100;
    assert pa + a == 0x100 * (16 * k + x) + a % 0x100;
    assert (pa + a) / 0x100 == 4 * (4 * k) + x;
  }

  lemma Bit6(pa: nat, a: nat)
    requires pa % 4096 == 0
    ensures ElZeroAccess(pa + a) == ElZeroAccess(a)
  {
    var k, x := pa / 4096, a / 0x40;
    assert pa + a == 0x40 * (64 * k + x) + a % 0x40;
    assert (pa + a) / 0x40 == 2 * (32 * k) + x;
  }

  lemma Bit7(pa: nat, a: nat)
    requires pa % 4096 == 0
    ensures ReadOnly(pa + a) == ReadOnly(a)
  {
    var k, x := pa / 4096, a / 0x80;
    assert pa + a == 0x80 * (32 * k + x) + a % 0x80;
    assert (pa + a) / 0x80 == 2 * (16 * k) + x;
  }

  lemma Bit53(e: nat)
    ensures KernelNeverExecutes(e) <==> e / TWO_48 / 0x20 % 2 == 1
  {
  }

  lemma Bit54(e: nat)
    ensures UserNeverExecutes(e) <==> e / TWO_48 / 0x40 % 2 == 1
  {
  }

  /** The permissions keep W^X: what EL0 can write it cannot execute, and the kernel never runs user pages. */
  lemma UserPermsKeepWX(g: Granule, pa: nat, p: UserPerm)
    requires IsFrame(g, pa)
    ensures IsAttrs(UserAttrs(p))
    ensures var e := Leaf(pa, UserAttrs(p));
            && !(UserWritable(e) && UserExecutable(e)) && KernelNeverExecutes(e) && ElZeroAccess(e)
            && (UserWritable(e) <==> p == RwUser) && (UserExecutable(e) <==> p == TextUser) && RamLeaf(e)
  {
    hide Or;
    UserAttrBits(p);
    hide UserAttrs, ElZeroAccess, ReadOnly, UserNeverExecutes, KernelNeverExecutes, IsAttrs, RamLeaf, DeviceLeaf;
    FrameAligned(g, pa);
    LeafSum(pa, UserAttrs(p));
    LeafBits(pa, UserAttrs(p));
    LeafKind(pa, UserAttrs(p));
  }

  lemma UserAttrBits(p: UserPerm)
    ensures IsAttrs(UserAttrs(p)) && ElZeroAccess(UserAttrs(p)) && KernelNeverExecutes(UserAttrs(p))
    ensures ReadOnly(UserAttrs(p)) <==> p != RwUser
    ensures UserNeverExecutes(UserAttrs(p)) <==> p != TextUser
    ensures RamLeaf(UserAttrs(p))
  {
  }

  lemma Multiple4096(j: nat)
    ensures (4096 * j) % 4096 == 0
  {
  }

  lemma FrameAligned(g: Granule, pa: nat)
    requires IsFrame(g, pa)
    ensures pa % 4096 == 0
  {
    if g == K16 {
      assert pa == 0x4000 * (pa / 0x4000);
      Multiple4096(4 * (pa / 0x4000));
    }
  }

  lemma KernelPermsKeepWX(g: Granule, pa: nat, p: KernelPerm)
    requires IsFrame(g, pa)
    ensures IsAttrs(KernelAttrs(p))
    ensures var e := Leaf(pa, KernelAttrs(p));
            && !ElZeroAccess(e) && UserNeverExecutes(e)
            && (ReadOnly(e) <==> p == Text || p == Ro) && (!KernelNeverExecutes(e) <==> p == Text)
            && (DeviceLeaf(e) <==> p == Device) && (RamLeaf(e) <==> p != Device)
  {
    hide Or;
    KernelAttrBits(p);
    KernelAttrKind(p);
    hide KernelAttrs, ElZeroAccess, ReadOnly, UserNeverExecutes, KernelNeverExecutes, IsAttrs, RamLeaf, DeviceLeaf;
    FrameAligned(g, pa);
    LeafSum(pa, KernelAttrs(p));
    LeafBits(pa, KernelAttrs(p));
    LeafKind(pa, KernelAttrs(p));
  }

  lemma KernelAttrBits(p: KernelPerm)
    ensures IsAttrs(KernelAttrs(p)) && !ElZeroAccess(KernelAttrs(p)) && UserNeverExecutes(KernelAttrs(p))
    ensures ReadOnly(KernelAttrs(p)) <==> p == Text || p == Ro
    ensures KernelNeverExecutes(KernelAttrs(p)) <==> p != Text
  {
  }

  lemma KernelAttrKind(p: KernelPerm)
    ensures (DeviceLeaf(KernelAttrs(p)) <==> p == Device) && (RamLeaf(KernelAttrs(p)) <==> p != Device)
  {
  }

  /** A leaf for EL0 at `pa`, read by the hardware: ordinary memory that EL1 never executes. */
  predicate UserLeaf(g: Granule, e: nat, pa: nat, writable: bool, executable: bool) {
    && AddrOf(g, e) == pa && RamLeaf(e) && ElZeroAccess(e) && KernelNeverExecutes(e)
    && UserWritable(e) == writable && UserExecutable(e) == executable
  }

  lemma UserLeafIs(g: Granule, pa: nat, p: UserPerm)
    requires IsFrame(g, pa)
    ensures UserLeaf(g, Leaf(pa, UserAttrs(p)), pa, p == RwUser, p == TextUser)
  {
    hide Leaf, UserAttrs, AddrOf, TypeBits, RamLeaf, ElZeroAccess, KernelNeverExecutes, UserWritable, UserExecutable;
    UserPermsKeepWX(g, pa, p);
    LeafIs(g, pa, UserAttrs(p));
  }

  /** A leaf for EL1 at `pa`, read by the hardware: EL0 neither accesses nor executes it. */
  predicate KernelLeaf(g: Granule, e: nat, pa: nat, readOnly: bool, executable: bool, device: bool) {
    && AddrOf(g, e) == pa && !ElZeroAccess(e) && UserNeverExecutes(e)
    && ReadOnly(e) == readOnly && KernelNeverExecutes(e) == !executable
    && (if device then DeviceLeaf(e) else RamLeaf(e))
  }

  lemma KernelLeafIs(g: Granule, pa: nat, p: KernelPerm)
    requires IsFrame(g, pa)
    ensures Leaf(pa, KernelAttrs(p)) != 0
    ensures KernelLeaf(g, Leaf(pa, KernelAttrs(p)), pa, p == Text || p == Ro, p == Text, p == Device)
  {
    hide Leaf, KernelAttrs, AddrOf, TypeBits, RamLeaf, DeviceLeaf, ElZeroAccess, UserNeverExecutes, ReadOnly,
         KernelNeverExecutes;
    KernelPermsKeepWX(g, pa, p);
    LeafIs(g, pa, KernelAttrs(p));
    TypeBitsAre(Leaf(pa, KernelAttrs(p)));
    TypeBitsAre(0);
  }

  // ---------------------------------------------------------------- table indices

  /** Bytes covered by one entry of a table at the given level. */
  function Span(g: Granule, level: nat): (n: nat)
    requires level <= 3
    ensures n > 0
  {
    match g
    case K4 => (match level case 0 => 0x80_0000_0000 case 1 => 0x4000_0000 case 2 => 0x20_0000 case _ => 0x1000)
    case K16 => (match level case 0 => 0x8000_0000_0000 case 1 => 0x10_0000_0000 case 2 => 0x200_0000 case _ => 0x4000)
  }

  /** Usable entries at the given level; the 16 KiB granule needs only two at the top. */
  function Ways(g: Granule, level: nat): (n: nat)
    requires level <= 3
    ensures 0 < n <= Entries(g)
  {
    match g
    case K4 => 512
    case K16 => if level == 0 then 2 else 2048
  }

  /** `index`: shift the address down to the level and mask. */
  function Index(g: Granule, va: nat, level: nat): (i: nat)
    requires level <= 3
    ensures i < Entries(g)
  {
    va / Span(g, level) % Ways(g, level)
  }

  /** The shift and the mask width of the source, for both granules and all levels. */
  lemma SpanIsShift(g: Granule, level: nat)
    requires level <= 3
    ensures Span(g, level) == Pow2(PageShift(g) + BitsPerLevel(g) * (3 - level))
    ensures var shift := PageShift(g) + BitsPerLevel(g) * (3 - level);
            shift <= 48 && Ways(g, level) == Pow2(if level == 0 then 48 - shift else BitsPerLevel(g))
  {
    PowersK4();
    PowersK16();
    hide Pow2;
    match level
    case 0 =>
    case 1 =>
    case 2 =>
    case 3 =>
  }

  lemma PowersK4()
    ensures Pow2(9) == 512 && Pow2(12) == 0x1000 && Pow2(21) == 0x20_0000
    ensures Pow2(30) == 0x4000_0000 && Pow2(39) == 0x80_0000_0000
  {
    assert Pow2(9) == 512;
    assert Pow2(12) == 0x1000;
    assert Pow2(21) == 0x20_0000;
    assert Pow2(30) == 0x4000_0000;
  }

  lemma PowersK16()
    ensures Pow2(1) == 2 && Pow2(11) == 2048 && Pow2(14) == 0x4000 && Pow2(25) == 0x200_0000
    ensures Pow2(36) == 0x10_0000_0000 && Pow2(47) == 0x8000_0000_0000
  {
    assert Pow2(11) == 2048;
    assert Pow2(14) == 0x4000;
    assert Pow2(25) == 0x200_0000;
    assert Pow2(36) == 0x10_0000_0000;
  }

  /** The page number within the 48-bit address space. */
  function Page(g: Granule, va: nat): nat {
    va % TWO_48 / Size(g)
  }

  /** The index at a level is a digit of the page number; higher address bits do not matter. */
  lemma PageIndex(g: Granule, va: nat, level: nat)
    requires level <= 3
    ensures Index(g, va, level) == Page(g, va) / Below(g, level) % Ways(g, level)
  {
    match g
    case K4 => PageIndexK4(va);
    case K16 => PageIndexK16(va);
  }

  lemma PageIndexK4(va: nat)
    ensures var p := va % TWO_48 / 0x1000;
            && va / 0x80_0000_0000 % 512 == p / 0x800_0000 % 512
            && va / 0x4000_0000 % 512 == p / 0x4_0000 % 512
            && va / 0x20_0000 % 512 == p / 0x200 % 512
            && va / 0x1000 % 512 == p / 1 % 512
  {
    var q := va / 0x1000;
    PageLowK4(va);
    PageShiftK4(va);
    DigitK4(q);
    hide *;
  }

  lemma PageLowK4(va: nat)
    ensures va % 0x1_0000_0000_0000 / 0x1000 == va / 0x1000 % 0x10_0000_0000
  {
    var hi, low := va / 0x1_0000_0000_0000, va % 0x1_0000_0000_0000;
    assert va / 0x1000 == 0x10_0000_0000 * hi + low / 0x1000;
  }

  lemma PageShiftK4(va: nat)
    ensures va / 0x80_0000_0000 == va / 0x1000 / 0x800_0000
    ensures va / 0x4000_0000 == va / 0x1000 / 0x4_0000
    ensures va / 0x20_0000 == va / 0x1000 / 0x200
  {
  }

  lemma DigitK4(q: nat)
    ensures var p := q % 0x10_0000_0000;
            && q / 0x800_0000 % 512 == p / 0x800_0000 % 512
            && q / 0x4_0000 % 512 == p / 0x4_0000 % 512
            && q / 0x200 % 512 == p / 0x200 % 512
            && q % 512 == p % 512
  {
    DigitK4At0(q);
    DigitK4At1(q);
    DigitK4At2(q);
    DigitK4At3(q);
  }

  lemma DigitK4At3(q: nat)
    ensures q % 512 == q % 0x10_0000_0000 % 512
  {
    var p, k := q % 0x10_0000_0000, q / 0x10_0000_0000;
    assert q == 512 * (0x800_0000 * k) + p;
    Mod512(0x800_0000 * k, p);
  }

  lemma DigitK4At0(q: nat)
    ensures q / 0x800_0000 % 512 == q % 0x10_0000_0000 / 0x800_0000 % 512
  {
    var p, k := q % 0x10_0000_0000, q / 0x10_0000_0000;
    assert q == 0x800_0000 * (512 * k + p / 0x800_0000) + p % 0x800_0000;
    assert q / 0x800_0000 == 512 * k + p / 0x800_0000;
  }

  lemma DigitK4At1(q: nat)
    ensures q / 0x4_0000 % 512 == q % 0x10_0000_0000 / 0x4_0000 % 512
  {
    var p, k := q % 0x10_0000_0000, q / 0x10_0000_0000;
    assert q == 0x4_0000 * (0x4_0000 * k + p / 0x4_0000) + p % 0x4_0000;
    assert q / 0x4_0000 == 512 * (512 * k) + p / 0x4_0000;
    Mod512(512 * k, p / 0x4_0000);
  }

  lemma DigitK4At2(q: nat)
    ensures q / 0x200 % 512 == q % 0x10_0000_0000 / 0x200 % 512
  {
    var p, k := q % 0x10_0000_0000, q / 0x10_0000_0000;
    assert q == 0x200 * (0x800_0000 * k + p / 0x200) + p % 0x200;
    assert q / 0x200 == 512 * (0x4_0000 * k) + p / 0x200;
    Mod512(0x4_0000 * k, p / 0x200);
  }

  lemma PageIndexK16(va: nat)
    ensures var p := va % TWO_48 / 0x4000;
            && va / 0x8000_0000_0000 % 2 == p / 0x2_0000_0000 % 2
            && va / 0x10_0000_0000 % 2048 == p / 0x40_0000 % 2048
            && va / 0x200_0000 % 2048 == p / 0x800 % 2048
            && va / 0x4000 % 2048 == p / 1 % 2048
  {
    var q := va / 0x4000;
    PageLowK16(va);
    PageShiftK16(va);
    DigitK16(q);
    hide *;
  }

  lemma PageLowK16(va: nat)
    ensures va % 0x1_0000_0000_0000 / 0x4000 == va / 0x4000 % 0x4_0000_0000
  {
    var hi, low := va / 0x1_0000_0000_0000, va % 0x1_0000_0000_0000;
    assert va / 0x4000 == 0x4_0000_0000 * hi + low / 0x4000;
  }

  lemma PageShiftK16(va: nat)
    ensures va / 0x8000_0000_0000 == va / 0x4000 / 0x2_0000_0000
    ensures va / 0x10_0000_0000 == va / 0x4000 / 0x40_0000
    ensures va / 0x200_0000 == va / 0x4000 / 0x800
  {
  }

  lemma DigitK16(q: nat)
    ensures var p := q % 0x4_0000_0000;
            && q / 0x2_0000_0000 % 2 == p / 0x2_0000_0000 % 2
            && q / 0x40_0000 % 2048 == p / 0x40_0000 % 2048
            && q / 0x800 % 2048 == p / 0x800 % 2048
            && q % 2048 == p % 2048
  {
    DigitK16At0(q);
    DigitK16At1(q);
    DigitK16At2(q);
    DigitK16At3(q);
  }

  lemma DigitK16At3(q: nat)
    ensures q % 2048 == q % 0x4_0000_0000 % 2048
  {
    var p, k := q % 0x4_0000_0000, q / 0x4_0000_0000;
    assert q == 2048 * (0x80_0000 * k) + p;
    Mod2048(0x80_0000 * k, p);
  }

  lemma DigitK16At0(q: nat)
    ensures q / 0x2_0000_0000 % 2 == q % 0x4_0000_0000 / 0x2_0000_0000 % 2
  {
    var p, k := q % 0x4_0000_0000, q / 0x4_0000_0000;
    assert q == 0x2_0000_0000 * (2 * k + p / 0x2_0000_0000) + p % 0x2_0000_0000;
    assert q / 0x2_0000_0000 == 2 * k + p / 0x2_0000_0000;
  }

  lemma DigitK16At1(q: nat)
    ensures q / 0x40_0000 % 2048 == q % 0x4_0000_0000 / 0x40_0000 % 2048
  {
    var p, k := q % 0x4_0000_0000, q / 0x4_0000_0000;
    assert q == 0x40_0000 * (0x1000 * k + p / 0x40_0000) + p % 0x40_0000;
    assert q / 0x40_0000 == 2048 * (2 * k) + p / 0x40_0000;
    Mod2048(2 * k, p / 0x40_0000);
  }

  lemma DigitK16At2(q: nat)
    ensures q / 0x800 % 2048 == q % 0x4_0000_0000 / 0x800 % 2048
  {
    var p, k := q % 0x4_0000_0000, q / 0x4_0000_0000;
    assert q == 0x800 * (0x80_0000 * k + p / 0x800) + p % 0x800;
    assert q / 0x800 == 2048 * (0x1000 * k) + p / 0x800;
    Mod2048(0x1000 * k, p / 0x800);
  }

  lemma Mod512(j: nat, x: nat)
    ensures (512 * j + x) % 512 == x % 512
  {
  }

  lemma Mod2048(j: nat, x: nat)
    ensures (2048 * j + x) % 2048 == x % 2048
  {
  }

  /** Pages covered by one entry at the given level. */
  function Below(g: Granule, level: nat): (n: nat)
    requires level <= 3
    ensures n > 0
  {
    match g
    case K4 => (match level case 0 => 0x800_0000 case 1 => 0x4_0000 case 2 => 0x200 case _ => 1)
    case K16 => (match level case 0 => 0x2_0000_0000 case 1 => 0x40_0000 case 2 => 0x800 case _ => 1)
  }

  /** The four indices are the digits of the page number: they name a page, and only that page. */
  lemma IndicesNamePage(g: Granule, va: nat)
    ensures Page(g, va) ==
            ((Index(g, va, 0) * Ways(g, 1) + Index(g, va, 1)) * Ways(g, 2) + Index(g, va, 2)) * Ways(g, 3)
            + Index(g, va, 3)
  {
    match g
    case K4 =>
      IndicesK4(va);
      hide Index;
      DigitsK4(va % 0x1_0000_0000_0000 / 0x1000);
    case K16 =>
      IndicesK16(va);
      hide Index;
      DigitsK16(va % 0x1_0000_0000_0000 / 0x4000);
  }

  lemma IndicesK4(va: nat)
    ensures var p := va % 0x1_0000_0000_0000 / 0x1000;
            && Index(K4, va, 0) == p / 0x800_0000 % 512 && Index(K4, va, 1) == p / 0x4_0000 % 512
            && Index(K4, va, 2) == p / 0x200 % 512 && Index(K4, va, 3) == p / 1 % 512
  {
    PageIndexK4(va);
  }

  lemma IndicesK16(va: nat)
    ensures var p := va % 0x1_0000_0000_0000 / 0x4000;
            && Index(K16, va, 0) == p / 0x2_0000_0000 % 2 && Index(K16, va, 1) == p / 0x40_0000 % 2048
            && Index(K16, va, 2) == p / 0x800 % 2048 && Index(K16, va, 3) == p / 1 % 2048
  {
    PageIndexK16(va);
  }

  lemma DigitChainK4(p: nat)
    ensures p / 0x4_0000 == p / 0x200 / 512 && p / 0x800_0000 == p / 0x4_0000 / 512
  {
  }

  lemma DigitsK4(p: nat)
    requires p < 0x10_0000_0000
    ensures p == ((p / 0x800_0000 % 512 * 512 + p / 0x4_0000 % 512) * 512 + p / 0x200 % 512) * 512 + p / 1 % 512
  {
    var a, b, c := p / 0x200, p / 0x4_0000, p / 0x800_0000;
    DigitChainK4(p);
    assert p == 512 * a + p % 512 && a == 512 * b + a % 512 && b == 512 * c + b % 512;
    hide *;
  }

  lemma DigitChainK16(p: nat)
    ensures p / 0x40_0000 == p / 0x800 / 2048 && p / 0x2_0000_0000 == p / 0x40_0000 / 2048
  {
  }

  lemma DigitsK16(p: nat)
    requires p < 0x4_0000_0000
    ensures p == ((p / 0x2_0000_0000 % 2 * 2048 + p / 0x40_0000 % 2048) * 2048 + p / 0x800 % 2048) * 2048 + p / 1 % 2048
  {
    var a, b, c := p / 0x800, p / 0x40_0000, p / 0x2_0000_0000;
    DigitChainK16(p);
    assert p == 2048 * a + p % 2048 && a == 2048 * b + a % 2048 && b == 2048 * c + b % 2048;
    hide *;
  }

  lemma SamePageSameIndex(g: Granule, va: nat, va': nat, level: nat)
    requires level <= 3 && Page(g, va) == Page(g, va')
    ensures Index(g, va, level) == Index(g, va', level)
  {
    PageIndex(g, va, level);
    PageIndex(g, va', level);
  }

  lemma SameIndicesSamePage(g: Granule, va: nat, va': nat)
    requires forall level :: 0 <= level <= 3 ==> Index(g, va, level) == Index(g, va', level)
    ensures Page(g, va) == Page(g, va')
  {
    IndicesNamePage(g, va);
    IndicesNamePage(g, va');
    assert Index(g, va, 0) == Index(g, va', 0) && Index(g, va, 1) == Index(g, va', 1);
    assert Index(g, va, 2) == Index(g, va', 2) && Index(g, va, 3) == Index(g, va', 3);
  }
}
