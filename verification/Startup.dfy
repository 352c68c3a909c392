/** Boot from the parsed memory map to the handoff, and that it leaves a machine satisfying the joint invariant. */
module Startup {
  import opened Abi
  import opened Descriptors
  import opened Tables
  import opened Tallies
  import opened Paging
  import opened UserMemory
  import opened UserPages
  import opened Spawn
  import opened Tasks
  import opened Ipc
  import IpcMachine
  import opened IpcOutcomes
  import opened Caps
  import opened Retype
  import opened Window
  import opened Syscalls
  import opened Ownership
  import opened OwnershipRuns
  import opened Kernel
  import FdtBytes
  import Fdt
  import FdtPaths

  /** What the linker script, the device tree and the platform fix before boot. */
  datatype Board = Board(place: Place, layout: KernelLayout, kernel: PhysRegion, dtb: PhysRegion,
                         memory: seq<PhysRegion>, firmware: seq<PhysRegion>, rootTcb: Ptr)

  predicate Within(r: Range, k: PhysRegion) {
    k.base <= r.start && r.end <= k.End()
  }

  function PoolRange(p: Place): Range {
    Range(p.base, p.base + p.len * Size(p.g))
  }

  /** Segments, table pool and root TCB lie in the kernel image; memory ends at or below 2^48. */
  predicate BoardOk(d: Board) {
    && d.place.Ok() && Within(PoolRange(d.place), d.kernel) && d.layout.InRange(d.place.g)
    && Within(d.layout.text, d.kernel) && Within(d.layout.rodata, d.kernel)
    && Within(d.layout.rw0, d.kernel) && Within(d.layout.rw1, d.kernel)
    && d.layout.dtb == Range(d.dtb.base, d.dtb.End()) && d.dtb.Sound() && d.kernel.Sound()
    && d.rootTcb >= KERNEL_VA_OFFSET && d.kernel.Has(d.rootTcb - KERNEL_VA_OFFSET)
    && |d.memory| <= 8 && |d.firmware| <= 8
    && (forall i :: 0 <= i < |d.memory| ==> d.memory[i].Sound() && d.memory[i].End() <= TWO_48)
    && (forall i :: 0 <= i < |d.firmware| ==> d.firmware[i].Sound())
  }

  function PhysOf(rs: seq<Fdt.Region>): seq<PhysRegion> {
    seq(|rs|, i requires 0 <= i < |rs| => PhysRegion(rs[i].base, rs[i].size))
  }

  /** Whatever the parser accepts meets what boot asks of the memory map, except the 48-bit bound. */
  lemma ParsedMeetsBoot(blob: FdtBytes.Bytes)
    requires Fdt.Parse(blob).Ok?
    ensures var memory, firmware := PhysOf(Fdt.Parse(blob).value.memory), PhysOf(Fdt.Parse(blob).value.reserved);
            var info := Fdt.Parse(blob).value;
            && 0 < |memory| == |info.memory| <= 8 && |firmware| == |info.reserved| <= 8
            && (forall i :: 0 <= i < |memory| ==>
                  memory[i].Sound() && memory[i].base == info.memory[i].base && memory[i].size == info.memory[i].size)
            && (forall i :: 0 <= i < |firmware| ==>
                  && firmware[i].Sound()
                  && firmware[i].base == info.reserved[i].base && firmware[i].size == info.reserved[i].size)
  {
    FdtPaths.ParseLimits(blob);
    hide Fdt.Parse;
  }

  predicate Clash(dev: Range, m: PhysRegion) {
    dev.start < dev.end && m.base < dev.end && dev.start < m.End()
  }

  /** A device window clashes with a memory region exactly when they share an address. */
  lemma ClashIsSharing(dev: Range, m: PhysRegion)
    requires m.Sound()
    ensures Clash(dev, m) <==> exists a: nat :: dev.Has(a) && m.Has(a)
  {
    if Clash(dev, m) {
      assert dev.Has(if dev.start < m.base then m.base else dev.start);
    }
  }

  /** `check_memory_map`: no memory region may claim a device window. */
  method CheckMemoryMap(devices: seq<Range>, memory: seq<PhysRegion>) returns (ok: bool)
    ensures ok <==> forall i, k :: 0 <= i < |devices| && 0 <= k < |memory| ==> !Clash(devices[i], memory[k])
  {
    for i := 0 to |devices|
      invariant forall j, k :: 0 <= j < i && 0 <= k < |memory| ==> !Clash(devices[j], memory[k])
    {
      for k := 0 to |memory|
        invariant forall l :: 0 <= l < k ==> !Clash(devices[i], memory[l])
      {
        if Clash(devices[i], memory[k]) {
          return false;
        }
      }
    }
    ok := true;
  }

  // ---------------------------------------------------------------- the kernel's own mappings

  /** The reserved list: the kernel image, the DTB and the window, then what the firmware reserved. */
  function ReservedList(d: Board, window: PhysRegion): seq<PhysRegion> {
    [d.kernel, d.dtb, window] + d.firmware
  }

  function BootOf(d: Board, window: PhysRegion, root: Word): Boot {
    Boot(d.place.g, d.memory, ReservedList(d, window), window, d.kernel, PoolRegion(d.place), root, d.rootTcb)
  }

  /** What the machine takes to be its memory, its image and its table pool are those of the board. */
  predicate SameBoard(d: Board, b: Boot) {
    && b.g == d.place.g && b.memory == d.memory && b.kernel == d.kernel && b.rootTcb == d.rootTcb
    && b.pool == PhysRegion(d.place.base, d.place.len * Size(d.place.g))
  }

  function KernelSegments(d: Board): seq<Segment> {
    d.layout.Segments(d.place.g) + d.layout.Devices()
  }

  lemma {:induction false} LeafForIn(segs: seq<Segment>, f: nat)
    requires LeafFor(segs, f) != 0
    ensures exists i :: 0 <= i < |segs| && segs[i].start <= f < segs[i].end
  {
    hide Leaf;
    var n := |segs| - 1;
    if !(segs[n].start <= f < segs[n].end) {
      LeafForIn(segs[..n], f);
      var i :| 0 <= i < n && segs[..n][i].start <= f < segs[..n][i].end;
      assert segs[i] == segs[..n][i];
    }
  }

  lemma ReservedAt(rs: seq<PhysRegion>, i: nat, pa: nat)
    requires i < |rs| && rs[i].Has(pa)
    ensures Reserved(rs, pa)
  {
  }

  /** Rounding the DTB out to granules takes in no granule that is wholly free. */
  lemma RoundedMeets(g: Granule, r: PhysRegion, f: nat) returns (pa: nat)
    requires r.size > 0 && IsFrame(g, f) && AlignDown(g, r.base) <= f < AlignUp(g, r.End())
    ensures f <= pa < f + Size(g) && r.Has(pa)
  {
    pa := if f > r.base then f else r.base;
    DownBelow(g, r.base, f);
    UpAbove(g, r.End(), f);
  }

  lemma DownBelow(g: Granule, a: nat, f: nat)
    requires f % Size(g) == 0 && AlignDown(g, a) <= f
    ensures a < f + Size(g)
  {
  }

  lemma UpAbove(g: Granule, a: nat, f: nat)
    requires f % Size(g) == 0 && f < AlignUp(g, a)
    ensures f < a
  {
    if a <= f {
      RoundUpLeast(g, a, f);
    }
  }

  lemma SegmentTaken(d: Board, window: PhysRegion, root: Word, f: nat, i: nat)
    requires BoardOk(d) && IsFrame(d.place.g, f)
    requires var segs := d.layout.Segments(d.place.g); i < |segs| && segs[i].start <= f < segs[i].end
    ensures !FreeGranule(BootOf(d, window, root), f)
  {
    var b := BootOf(d, window, root);
    if i < 4 {
      ReservedAt(b.reserved, 0, f);
      assert !FreeRam(b.memory, b.reserved, f);
    } else {
      var pa := RoundedMeets(d.place.g, d.dtb, f);
      ReservedAt(b.reserved, 1, pa);
      assert !FreeRam(b.memory, b.reserved, pa);
    }
  }

  lemma DeviceTaken(d: Board, window: PhysRegion, root: Word, f: nat, i: nat)
    requires i < |d.layout.devices| && d.layout.devices[i].start <= f < d.layout.devices[i].end
    requires forall k :: 0 <= k < |d.memory| ==> !Clash(d.layout.devices[i], d.memory[k])
    ensures !FreeGranule(BootOf(d, window, root), f)
  {
    var b := BootOf(d, window, root);
    assert !FreeRam(b.memory, b.reserved, f);
  }

  /** At handoff the kernel alias covers no granule that can still be carved. */
  lemma BootAlias(d: Board, window: PhysRegion, root: Word, caps: seq<Cap>)
    requires BoardOk(d) && forall i, k :: 0 <= i < |d.layout.devices| && 0 <= k < |d.memory| ==>
               !Clash(d.layout.devices[i], d.memory[k])
    ensures AliasApart(BootOf(d, window, root), caps, KernelSegments(d) + [Segment(window.base, window.End(), Rw)])
  {
    hide FreeGranule, LeafFor, ObjectAt, IsFrame, BoardOk;
    var b, segs := BootOf(d, window, root), d.layout.Segments(d.place.g);
    var alias := KernelSegments(d) + [Segment(window.base, window.End(), Rw)];
    forall f: nat | IsFrame(b.g, f) && LeafFor(alias, f) != 0
      ensures !FreeGranule(b, f)
    {
      LeafForIn(alias, f);
      var i :| 0 <= i < |alias| && alias[i].start <= f < alias[i].end;
      if i < |segs| {
        SegmentTaken(d, window, root, f, i);
      } else if i < |KernelSegments(d)| {
        DeviceTaken(d, window, root, f, i - |segs|);
      } else {
        WindowTaken(b, f);
      }
    }
  }

  lemma WindowTaken(b: Boot, f: nat)
    requires |b.reserved| > 2 && b.reserved[2] == b.window && b.window.Has(f)
    ensures !FreeGranule(b, f)
  {
    ReservedAt(b.reserved, 2, f);
    assert !FreeRam(b.memory, b.reserved, f);
  }

  lemma BoardBoots(d: Board, window: PhysRegion, root: Word)
    requires BoardOk(d) && d.kernel.End() <= window.base
    ensures BootOk(BootOf(d, window, root))
  {
    var rs := ReservedList(d, window);
    assert rs[0] == d.kernel && rs[2] == window;
  }

  /** Everything the builder made lies in the window. */
  lemma InTheWindow(b: Boot, mem: Mem, sh: Shape, next: nat, pages: Pages)
    requires Owned(b.g, mem, sh, b.root, pages)
    requires AllBelow(mem, next) && AllAbove(mem, b.window.base) && next <= b.window.End() && next % Size(b.g) == 0
    ensures forall a :: a in sh.level ==> InWindow(b, a)
    ensures forall p :: p in pages ==> InWindow(b, pages[p].0)
  {
    hide Translates, OneToOne, InWindow, LinksOk;
    forall a | a in sh.level
      ensures InWindow(b, a)
    {
      FrameBelow(b, a, next);
    }
    forall p | p in pages
      ensures InWindow(b, pages[p].0)
    {
      FrameBelow(b, pages[p].0, next);
    }
  }

  lemma FrameBelow(b: Boot, a: nat, next: nat)
    requires IsFrame(b.g, a) && b.window.base <= a < next <= b.window.End() && next % Size(b.g) == 0
    ensures InWindow(b, a)
  {
    AlignedApart(b.g, a, next);
  }

  // ---------------------------------------------------------------- why boot parks

  datatype Park =
    | PagingFailed(e: MmuError)
    | MemoryClash
    | NoWindow
    | WindowFailed(e: MmuError)
    | SpawnFailed(s: SpawnError)
    | CapsFailed(c: CapError)

  ghost predicate PagingCause(d: Board, supported: bool, e: MmuError) {
    match e
    case GranuleUnsupported => !supported
    case Misaligned => LayoutUneven(d.place.g, d.layout)
    case Overlap => LayoutClashes(d.place.g, d.layout)
    case OutOfTables => TablesNeeded(d.place, d.layout) > d.place.len
    case _ => false
  }

  ghost predicate UsableIn(d: Board, w: nat) {
    Usable(d.place.g, d.memory, [d.dtb] + d.firmware, d.kernel.End(), w)
  }

  /** The window boot picks: the lowest that fits. */
  ghost predicate Picked(d: Board, w: nat) {
    UsableIn(d, w) && forall v: nat :: UsableIn(d, v) ==> w <= v
  }

  /** The tables of the layout, and those of the window at its alias. */
  function WindowKeys(d: Board, w: nat): Keys {
    LayoutKeys(d.place, 0, 1, KernelSegments(d))
    + RangeKeys(d.place.g, Pa(d.place.g, d.place.base, 1), w + KERNEL_VA_OFFSET, WINDOW_SIZE / Size(d.place.g))
  }

  ghost predicate WindowCause(d: Board, w: nat, e: MmuError) {
    match e
    case Overlap => Clashes(d.place.g, KernelSegments(d), Segment(w, w + WINDOW_SIZE, Rw))
    case OutOfTables => 2 + |WindowKeys(d, w)| > d.place.len
    case _ => false
  }

  ghost predicate CapsCause(d: Board, w: nat, e: CapError) {
    var reserved := ReservedList(d, PhysRegion(w, WINDOW_SIZE));
    match e
    case BadRegion => !GoodMemory(d.memory) || (d.memory != [] && !GoodReserved(reserved))
    case OutOfSlots => exists ut :: |ut| + 4 == CNODE_SLOTS && MemoryShort(d.memory, reserved, ut)
  }

  /** What is wrong with the board, the image or the processor when boot parks. */
  ghost predicate ParkCause(d: Board, supported: bool, len: nat, base: nat, entry: nat, segs: seq<LoadSeg>,
                            park: Park) {
    match park
    case PagingFailed(e) => PagingCause(d, supported, e)
    case MemoryClash =>
      exists i, k :: 0 <= i < |d.layout.devices| && 0 <= k < |d.memory| && Clash(d.layout.devices[i], d.memory[k])
    case NoWindow => forall w: nat :: !UsableIn(d, w)
    case WindowFailed(e) => exists w: nat :: Picked(d, w) && WindowCause(d, w, e)
    case SpawnFailed(e) =>
      exists w: nat ::
        Picked(d, w) && SpawnCause(d.place.g, len, base, entry, segs, w + Size(d.place.g), w + WINDOW_SIZE, e)
    case CapsFailed(e) => exists w: nat :: Picked(d, w) && CapsCause(d, w, e)
  }

  /** The root task fits the window that boot picks. */
  ghost predicate RootFits(d: Board, len: nat, base: nat, entry: nat, segs: seq<LoadSeg>) {
    exists w: nat ::
      Picked(d, w) && SpawnFits(d.place.g, len, base, entry, segs, w + Size(d.place.g), w + WINDOW_SIZE)
  }

  // ---------------------------------------------------------------- boot

  /** Phase one: paging on, the memory map checked, and the frame window chosen and opened. */
  method OpenWindow(pool: Pool, d: Board, supported: bool) returns (r: Result<PhysRegion, Park>)
    requires BoardOk(d) && pool.p == d.place && pool.Valid() && !pool.enabled && pool.used == 0
    requires ZeroFrom(pool.tables, 0)
    modifies pool
    ensures r.Ok? ==> pool.Valid() && pool.enabled && pool.RootTable(pool.root1)
    ensures r.Ok? ==> HalfMap(d.place.g, pool.Mem(), Pa(d.place.g, d.place.base, pool.root1), KERNEL_VA_OFFSET,
                              KernelSegments(d) + [Segment(r.value.base, r.value.End(), Rw)])
    ensures r.Ok? ==>
              AliasOpen(d.place.g, pool.Mem(), Pa(d.place.g, d.place.base, pool.root1), r.value.base, r.value.End())
    ensures r.Ok? ==> forall i, k :: 0 <= i < |d.layout.devices| && 0 <= k < |d.memory| ==>
              !Clash(d.layout.devices[i], d.memory[k])
    ensures r.Ok? ==>
              && d.kernel.End() <= r.value.base && Aligned(d.place.g, r.value.base)
              && r.value.size == WINDOW_SIZE == 0x20_0000 && r.value.End() <= TWO_48
    ensures r.Ok? ==> Picked(d, r.value.base)
    ensures r.Err? ==> !r.error.SpawnFailed? && !r.error.CapsFailed?
    ensures r.Err? ==> forall len: nat, base: nat, entry: nat, segs: seq<LoadSeg> ::
              ParkCause(d, supported, len, base, entry, segs, r.error)
  {
    hide PoolOk, Paging.View, HalfMap, Pa, IsRoot, Size, MapsRange, KernelAttrs, Walk, Usable, Counted, LayoutKeys,
         RangeKeys, LayoutUneven, LayoutClashes, Clash, WindowCause, Picked, ParkCause, TablesNeeded, LayoutMapped,
         AliasOpen;
    var g := d.place.g;
    var on := pool.EnablePaging(d.layout, supported);
    if on.Err? {
      PagingParks(d, supported, on.error);
      return Err(PagingFailed(on.error));
    }
    var clear := CheckMemoryMap(d.layout.devices, d.memory);
    if !clear {
      ClashParks(d, supported);
      return Err(MemoryClash);
    }
    var start := PickWindow(g, d.memory, d.firmware, d.dtb, d.kernel.End());
    if start.None? {
      NowhereParks(d, supported);
      return Err(NoWindow);
    }
    UsableFits(d, start.value);
    LowestPicked(d, start.value);
    ghost var mem0, root := pool.Mem(), Pa(g, d.place.base, pool.root1);
    var mapped;
    ghost var n;
    mapped, n := pool.MapKernelWindow(start.value, start.value + WINDOW_SIZE);
    if mapped.Err? {
      WindowWhole(g, start.value);
      WindowFails(d, mem0, start.value, n, mapped.error);
      WindowParks(d, supported, start.value, mapped.error);
      return Err(WindowFailed(mapped.error));
    }
    HalfExtends(g, mem0, pool.Mem(), pool.sh, root, KERNEL_VA_OFFSET, KernelSegments(d),
                Segment(start.value, start.value + WINDOW_SIZE, Rw), n);
    r := Ok(PhysRegion(start.value, WINDOW_SIZE));
  }

  lemma PagingParks(d: Board, supported: bool, e: MmuError)
    requires PagingCause(d, supported, e)
    ensures forall len: nat, base: nat, entry: nat, segs: seq<LoadSeg> ::
              ParkCause(d, supported, len, base, entry, segs, PagingFailed(e))
  {
    hide PagingCause;
  }

  lemma ClashParks(d: Board, supported: bool)
    requires !forall i, k :: 0 <= i < |d.layout.devices| && 0 <= k < |d.memory| ==>
               !Clash(d.layout.devices[i], d.memory[k])
    ensures forall len: nat, base: nat, entry: nat, segs: seq<LoadSeg> ::
              ParkCause(d, supported, len, base, entry, segs, MemoryClash)
  {
    hide Clash;
  }

  lemma NowhereParks(d: Board, supported: bool)
    requires forall w :: !Usable(d.place.g, d.memory, [d.dtb] + d.firmware, d.kernel.End(), w)
    ensures forall len: nat, base: nat, entry: nat, segs: seq<LoadSeg> ::
              ParkCause(d, supported, len, base, entry, segs, NoWindow)
  {
    hide Usable;
  }

  lemma LowestPicked(d: Board, w: nat)
    requires Usable(d.place.g, d.memory, [d.dtb] + d.firmware, d.kernel.End(), w)
    requires forall v :: Usable(d.place.g, d.memory, [d.dtb] + d.firmware, d.kernel.End(), v) ==> w <= v
    ensures Picked(d, w)
  {
    hide Usable;
  }

  lemma WindowParks(d: Board, supported: bool, w: nat, e: MmuError)
    requires Picked(d, w) && WindowCause(d, w, e)
    ensures forall len: nat, base: nat, entry: nat, segs: seq<LoadSeg> ::
              ParkCause(d, supported, len, base, entry, segs, WindowFailed(e))
  {
    hide Picked, WindowCause;
  }

  lemma WindowWhole(g: Granule, w: nat)
    requires w % Size(g) == 0
    ensures (w + WINDOW_SIZE) % Size(g) == 0 && WINDOW_SIZE % Size(g) == 0
  {
    match g
    case K4 => assert w + WINDOW_SIZE == 4096 * (w / 4096 + 512);
    case K16 => assert w + WINDOW_SIZE == 16384 * (w / 16384 + 128);
  }

  lemma WindowFails(d: Board, mem: Mem, w: nat, n: nat, e: MmuError)
    requires w % Size(d.place.g) == 0 && w + WINDOW_SIZE <= TWO_48 && WINDOW_SIZE % Size(d.place.g) == 0
    requires n * Size(d.place.g) < WINDOW_SIZE && (e == Overlap || e == OutOfTables)
    requires var root := Pa(d.place.g, d.place.base, 1);
             && HalfMap(d.place.g, mem, root, KERNEL_VA_OFFSET, KernelSegments(d))
             && (e == Overlap ==> Walk(d.place.g, mem, root, w + KERNEL_VA_OFFSET + n * Size(d.place.g)) != 0)
             && (e == OutOfTables ==>
                   2 + |LayoutKeys(d.place, 0, 1, KernelSegments(d))
                        + RangeKeys(d.place.g, root, w + KERNEL_VA_OFFSET, n + 1)| > d.place.len)
    ensures WindowCause(d, w, e)
  {
    hide HalfMap, Pa, Walk, LayoutKeys, RangeKeys, KernelSegments;
    var g, root, made := d.place.g, Pa(d.place.g, d.place.base, 1), LayoutKeys(d.place, 0, 1, KernelSegments(d));
    if e == Overlap {
      hide Size;
      ClashAt(g, mem, root, KERNEL_VA_OFFSET, KernelSegments(d), Segment(w, w + WINDOW_SIZE, Rw), n);
    } else {
      PagesBefore(g, n, WINDOW_SIZE);
      RangeKeysGrow(g, root, w + KERNEL_VA_OFFSET, n + 1, WINDOW_SIZE / Size(g));
      SmallerSet(made + RangeKeys(g, root, w + KERNEL_VA_OFFSET, n + 1), WindowKeys(d, w));
    }
  }

  lemma UsableFits(d: Board, w: nat)
    requires BoardOk(d) && Usable(d.place.g, d.memory, [d.dtb] + d.firmware, d.kernel.End(), w)
    ensures d.kernel.End() <= w && w + WINDOW_SIZE <= TWO_48 && w % Size(d.place.g) == 0
  {
    var i :| 0 <= i < |d.memory| && Window.Inside(d.memory[i], w);
  }

  /** Phase two: the boot information frame and the root task, in the window. */
  method LoadRoot(g: Granule, window: PhysRegion, image: seq<Table>, len: nat, base: nat, entry: nat,
                  segs: seq<LoadSeg>)
    returns (phys: Phys, r: Result<Word, SpawnError>, ghost pages: Pages, ghost at: Loaded)
    requires window.size == WINDOW_SIZE && window.End() <= TWO_48 && Aligned(g, window.base)
    requires len % Size(g) == 0 ==> len == |image| * Size(g)
    ensures fresh(phys) && phys.g == g && phys.Booting() && phys.start == window.base && phys.end == window.End()
    ensures r.Ok? ==> Owned(g, phys.mem, phys.sh, r.value, pages)
    ensures r.Ok? ==> RootSeen(g, phys.mem, r.value, base, segs, at) && ImageLoaded(g, phys.mem, at.frames, image)
    ensures r.Ok? <==> SpawnFits(g, len, base, entry, segs, window.base + Size(g), window.End())
    ensures r.Err? ==> SpawnCause(g, len, base, entry, segs, window.base + Size(g), window.End(), r.error)
  {
    hide Forest, Owned, Size, RootLayoutOk, ImageLoaded, RootApart, RootPages, IsFrame, ClearRange, PagesApart, InSpace,
         RootTables, OutOfSpace, RootSeen;
    WindowEnd(g, window);
    var frames := OpenFrames(g, window.base, window.End());
    phys := frames.value;
    pages, at := map[], Loaded(0, 0, 0);
    NotNegative(g, |RootTables(g, window.base + Size(g) + len, segs)|);
    var info := phys.AllocContig(1);
    if info.Err? {
      return phys, Err(Mmu(info.error)), pages, at;
    }
    InfoFrame(g, info.value);
    var root;
    root, at := SpawnRoot(phys, image, len, base, entry, segs, info.value);
    if root.Err? {
      return phys, Err(root.error), pages, at;
    }
    RootIsWord(g, phys.mem, phys.sh, root.value, RootPages(g, base, segs, at));
    return phys, Ok(root.value), RootPages(g, base, segs, at), at;
  }

  lemma WindowEnd(g: Granule, window: PhysRegion)
    requires window.size == WINDOW_SIZE && Aligned(g, window.base)
    ensures window.base % Size(g) == 0 && window.End() % Size(g) == 0
  {
    match g
    case K4 => assert window.End() == 4096 * (window.base / 4096 + 512);
    case K16 => assert window.End() == 16384 * (window.base / 16384 + 128);
  }

  lemma InfoFrame(g: Granule, a: nat)
    requires a % Size(g) == 0 && a + 1 * Size(g) <= TWO_48
    ensures IsFrame(g, a) && a in ClearRange(g, map[], a, 1) && a + Size(g) == a + 1 * Size(g)
  {
    ClearRangeHas(g, map[], a, 1, 0);
  }

  lemma RootIsWord(g: Granule, mem: Mem, sh: Shape, root: nat, pages: Pages)
    requires Owned(g, mem, sh, root, pages)
    ensures root < TWO_64
  {
    hide LinksOk, Translates, OneToOne, TargetsOk;
    assert IsRoot(sh, root);
  }

  /** The image lies in the frames behind the root task's segments, as the hardware walk finds them. */
  ghost predicate RootInPlace(g: Granule, mem: Mem, root: nat, image: seq<Table>, base: nat, segs: seq<LoadSeg>) {
    exists at :: RootSeen(g, mem, root, base, segs, at) && ImageLoaded(g, mem, at.frames, image)
  }

  /** The root task's registers when it is entered. */
  function EntryContext(entry: Word): Context {
    ZERO_CONTEXT.(elr := entry, sp := USER_STACK_TOP)
  }

  /** The root task runs and there is nothing else: it starts at its entry with its stack full and clear registers. */
  ghost predicate RootRuns(s: Sys, t: Ptr, entry: Word, root: nat) {
    && s.state == map[t := Running] && s.current == t && s.ready == [] && s.eps == map[] && !s.halted
    && s.replyTo == map[t := 0] && s.ttbr0 == map[t := root]
    && s.ctx.Keys == {t} && Blank(s.ctx[t], entry, 0x1000_0000)
  }

  /**
    What the root task owns: nothing in slot 0, its TCB, its address space and the console, and then untyped
    memory, which is all RAM but the kernel image, the DTB, the window and what the firmware reserved.
  */
  ghost predicate RootOwns(d: Board, window: PhysRegion, root: nat, caps: seq<Cap>) {
    && 4 <= |caps| <= CNODE_SLOTS
    && caps[0] == Empty && caps[1] == RootTcb && caps[2] == AddrSpace(root) && caps[3] == Console
    && FreshUntypeds(caps[4..])
    && forall pa :: CoveredBy(caps[4..], pa) <==>
         && (exists i :: 0 <= i < |d.memory| && d.memory[i].Has(pa))
         && !d.kernel.Has(pa) && !d.dtb.Has(pa) && !window.Has(pa)
         && forall i :: 0 <= i < |d.firmware| ==> !d.firmware[i].Has(pa)
  }

  lemma RootRunsFirst(t: Ptr, entry: Word, root: Word)
    ensures RootRuns(Handoff(t, EntryContext(entry), root), t, entry, root)
  {
  }

  lemma OwnsFreeRam(d: Board, window: PhysRegion, root: nat, caps: seq<Cap>, ut: seq<Cap>)
    requires |caps| == 4 + |ut| <= CNODE_SLOTS && caps[4..] == ut && MemoryDone(d.memory, ReservedList(d, window), ut)
    requires caps[0] == Empty && caps[1] == RootTcb && caps[2] == AddrSpace(root) && caps[3] == Console
    ensures RootOwns(d, window, root, caps)
  {
    hide CoveredBy, FreshUntypeds, AllMaximal;
    var reserved := ReservedList(d, window);
    forall pa
      ensures (exists i :: 0 <= i < |reserved| && reserved[i].Has(pa)) <==>
              || d.kernel.Has(pa) || d.dtb.Has(pa) || window.Has(pa)
              || exists i :: 0 <= i < |d.firmware| && d.firmware[i].Has(pa)
    {
      assert reserved[0] == d.kernel && reserved[1] == d.dtb && reserved[2] == window;
      forall i | 0 <= i < |d.firmware|
        ensures reserved[i + 3] == d.firmware[i]
      {
      }
      if i :| 0 <= i < |reserved| && reserved[i].Has(pa) {
        assert i >= 3 ==> d.firmware[i - 3].Has(pa);
      }
    }
  }

  /** Phase three: the CNode is filled and the root task registered. */
  method HandOver(pool: Pool, phys: Phys, d: Board, window: PhysRegion, root: Word, entry: Word, ghost pages: Pages)
    returns (r: Result<Kernel.Machine, CapError>)
    requires BoardOk(d) && pool.p == d.place && phys.g == d.place.g && window.size == WINDOW_SIZE
    requires pool.Valid() && pool.enabled && pool.RootTable(pool.root1)
    requires HalfMap(d.place.g, pool.Mem(), Pa(d.place.g, d.place.base, pool.root1), KERNEL_VA_OFFSET,
                     KernelSegments(d) + [Segment(window.base, window.End(), Rw)])
    requires forall i, k :: 0 <= i < |d.layout.devices| && 0 <= k < |d.memory| ==>
               !Clash(d.layout.devices[i], d.memory[k])
    requires d.kernel.End() <= window.base && phys.start == window.base && phys.end == window.End()
    requires phys.Booting() && Owned(d.place.g, phys.mem, phys.sh, root, pages)
    ensures r.Ok? ==> r.value.Valid() && r.value.Closed() && !r.value.tasks.halted && !r.value.parked
    ensures r.Ok? ==> r.value.View().sys == Handoff(d.rootTcb, EntryContext(entry), r.value.b.root)
    ensures r.Ok? ==> r.value.phys == phys && r.value.b.root == root && SameBoard(d, r.value.b)
    ensures r.Ok? ==> r.value.b.window == window && RootOwns(d, window, root, r.value.View().caps)
    ensures r.Err? ==> CapsCause(d, window.base, r.error)
  {
    hide BoardOk, PoolOk, Paging.View, HalfMap, Pa, IsRoot, Size, Owned, Sound, AliasApart, MemoryDone, MemoryShort,
         Inv, Forest, KernelSegments, Handoff, IpcMachine.Represents, GoodMemory, GoodReserved, RootOwns;
    PlaceOk(d);
    var b := BootOf(d, window, root);
    var cnode := new CNode();
    var filled;
    ghost var ut;
    filled, ut := cnode.Populate(b.memory, b.reserved, b.root);
    assert window == PhysRegion(window.base, WINDOW_SIZE);
    if filled.Err? {
      return Err(filled.error);
    }
    var tasks := new IpcMachine.Machine(d.rootTcb, EntryContext(entry), b.root);
    BoardBoots(d, window, root);
    BootAlias(d, window, root, cnode.Contents());
    InTheWindow(b, phys.mem, phys.sh, phys.next, pages);
    OwnsFreeRam(d, window, root, cnode.Contents(), ut);
    HandoffSound(b, EntryContext(entry), phys.mem, phys.sh, pages, ut);
    ghost var alias := KernelSegments(d) + [Segment(window.base, window.End(), Rw)];
    var kernel := new Kernel.Machine(b, tasks, cnode, pool, phys, pages, alias);
    kernel.StaysClosed();
    r := Ok(kernel);
  }

  /**
    `kernel_init` and `kernel_main`: if boot does not park, the machine it hands over satisfies the
    joint invariant, so every theorem about runs applies to it; if it parks, the board, the image or the
    processor gives the cause.
  */
  method Start(d: Board, supported: bool, image: seq<Table>, len: nat, base: nat, entry: Word, segs: seq<LoadSeg>)
    returns (r: Result<Kernel.Machine, Park>)
    requires BoardOk(d) && (len % Size(d.place.g) == 0 ==> len == |image| * Size(d.place.g))
    ensures r.Ok? ==> r.value.Valid() && r.value.Closed() && !r.value.tasks.halted && !r.value.parked
    ensures r.Ok? ==> r.value.View().sys == Handoff(d.rootTcb, EntryContext(entry), r.value.b.root)
    ensures r.Ok? ==> SameBoard(d, r.value.b)
    ensures r.Ok? ==> RootRuns(r.value.View().sys, d.rootTcb, entry, r.value.b.root)
    ensures r.Ok? ==> RootOwns(d, r.value.b.window, r.value.b.root, r.value.View().caps)
    ensures r.Ok? ==> RootInPlace(d.place.g, r.value.phys.mem, r.value.b.root, image, base, segs)
    ensures r.Ok? ==> RootFits(d, len, base, entry, segs)
    ensures r.Err? ==> ParkCause(d, supported, len, base, entry, segs, r.error)
  {
    hide BoardOk, PoolOk, Paging.View, HalfMap, Pa, IsRoot, Size, Owned, Sound, Inv, Forest, KernelSegments, Handoff,
         IpcMachine.Represents, SpawnFits, SpawnCause, Picked, CapsCause, Clash, EntryContext, ParkCause, RootFits,
         RootSeen, ImageLoaded, RootRuns, RootOwns;
    PlaceOk(d);
    var pool := new Pool(d.place);
    var window := OpenWindow(pool, d, supported);
    if window.Err? {
      return Err(window.error);
    }
    var phys, root;
    ghost var pages;
    ghost var at;
    phys, root, pages, at := LoadRoot(d.place.g, window.value, image, len, base, entry, segs);
    if root.Err? {
      SpawnParks(d, supported, len, base, entry, segs, window.value, root.error);
      return Err(SpawnFailed(root.error));
    }
    RootFitsAt(d, len, base, entry, segs, window.value);
    var made := HandOver(pool, phys, d, window.value, root.value, entry, pages);
    if made.Err? {
      CapsPark(d, supported, len, base, entry, segs, window.value, made.error);
      return Err(CapsFailed(made.error));
    }
    RootRunsFirst(d.rootTcb, entry, root.value);
    r := Ok(made.value);
  }

  lemma SpawnParks(d: Board, supported: bool, len: nat, base: nat, entry: nat, segs: seq<LoadSeg>, window: PhysRegion,
                   e: SpawnError)
    requires Picked(d, window.base) && window.size == WINDOW_SIZE
    requires SpawnCause(d.place.g, len, base, entry, segs, window.base + Size(d.place.g), window.End(), e)
    ensures ParkCause(d, supported, len, base, entry, segs, SpawnFailed(e))
  {
    hide Picked, SpawnCause, Size;
  }

  lemma CapsPark(d: Board, supported: bool, len: nat, base: nat, entry: nat, segs: seq<LoadSeg>, window: PhysRegion,
                 e: CapError)
    requires Picked(d, window.base) && CapsCause(d, window.base, e)
    ensures ParkCause(d, supported, len, base, entry, segs, CapsFailed(e))
  {
    hide Picked, CapsCause;
  }

  lemma RootFitsAt(d: Board, len: nat, base: nat, entry: nat, segs: seq<LoadSeg>, window: PhysRegion)
    requires Picked(d, window.base) && window.size == WINDOW_SIZE
    requires SpawnFits(d.place.g, len, base, entry, segs, window.base + Size(d.place.g), window.End())
    ensures RootFits(d, len, base, entry, segs)
  {
    hide Picked, SpawnFits, Size;
  }

  lemma PlaceOk(d: Board)
    requires BoardOk(d)
    ensures d.place.Ok() && d.rootTcb != 0
  {
  }
}
