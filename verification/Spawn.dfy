/** Loading the root task: its image, stack and boot information page become the first user pages. */
module Spawn {
  import opened Abi
  import opened Descriptors
  import opened Tables
  import opened Tallies
  import opened Paging
  import opened UserMemory
  import opened UserPages

  const USER_STACK_TOP := 0x1000_0000
  const USER_STACK_SIZE := 0x1_0000
  const BOOTINFO_VA := 0x0F00_0000

  datatype SegKind = TextSeg | RoSeg | RwSeg

  datatype LoadSeg = LoadSeg(va: nat, memsz: nat, kind: SegKind) {
    predicate Has(a: nat) {
      va <= a < va + memsz
    }
  }

  datatype SpawnError = BadLayout | Mmu(e: MmuError)

  function PermOf(k: SegKind): UserPerm {
    match k
    case TextSeg => TextUser
    case RoSeg => RoUser
    case RwSeg => RwUser
  }

  // ---------------------------------------------------------------- what is accepted

  predicate SegOk(g: Granule, base: nat, end: nat, s: LoadSeg) {
    base <= s.va && s.va + s.memsz <= end && s.va + s.memsz < TWO_64 && s.va % Size(g) == 0 && s.memsz != 0
  }

  /** Every segment lies in the image, and the entry point in none but a text segment. */
  predicate SegsOk(g: Granule, base: nat, end: nat, entry: nat, segs: seq<LoadSeg>) {
    forall i :: 0 <= i < |segs| ==> SegOk(g, base, end, segs[i]) && (segs[i].Has(entry) ==> segs[i].kind == TextSeg)
  }

  predicate HeadOk(g: Granule, len: nat, base: nat, segs: seq<LoadSeg>) {
    base % Size(g) == 0 && len % Size(g) == 0 && len != 0 && segs != [] && base + len < TWO_64
  }

  // ---------------------------------------------------------------- what is mapped

  function PagesOf(g: Granule, s: LoadSeg): nat {
    (s.memsz + Size(g) - 1) / Size(g)
  }

  function SegPages(g: Granule, base: nat, frames: nat, s: LoadSeg): Pages {
    RangePages(g, s.va, if s.va < base then 0 else frames + (s.va - base), PagesOf(g, s), PermOf(s.kind))
  }

  /** The pages of the segments, each behind its own frames of the image. */
  function ImagePages(g: Granule, base: nat, frames: nat, segs: seq<LoadSeg>): Pages {
    if segs == [] then map[]
    else ImagePages(g, base, frames, segs[..|segs| - 1]) + SegPages(g, base, frames, segs[|segs| - 1])
  }

  /** No two segments share a page. */
  ghost predicate ImageApart(g: Granule, base: nat, frames: nat, segs: seq<LoadSeg>) {
    segs == [] ||
    var init := segs[..|segs| - 1];
    && ImageApart(g, base, frames, init)
    && ImagePages(g, base, frames, init).Keys !! SegPages(g, base, frames, segs[|segs| - 1]).Keys
  }

  function StackPages(g: Granule, stack: nat): Pages {
    RangePages(g, USER_STACK_TOP - USER_STACK_SIZE, stack, USER_STACK_SIZE / Size(g), RwUser)
  }

  function InfoPages(g: Granule, info: nat): Pages {
    RangePages(g, BOOTINFO_VA, info, 1, RoUser)
  }

  /** Image pages are the image moved by a constant. */
  ghost predicate ImageTargets(g: Granule, base: nat, frames: nat, len: nat, pages: Pages) {
    forall p :: p in pages ==> base <= p * Size(g) < base + len && pages[p].0 + base == frames + p * Size(g)
  }

  lemma SegTargets(g: Granule, base: nat, frames: nat, len: nat, s: LoadSeg)
    requires base % Size(g) == 0 && len % Size(g) == 0 && SegOk(g, base, base + len, s)
    requires s.va + PagesOf(g, s) * Size(g) <= TWO_48
    ensures ImageTargets(g, base, frames, len, SegPages(g, base, frames, s))
  {
    hide Page;
    var pages := SegPages(g, base, frames, s);
    SegEnd(g, base, len, s);
    forall p | p in pages
      ensures base <= p * Size(g) < base + len && pages[p].0 + base == frames + p * Size(g)
    {
      StepsBelow(g, p - Page(g, s.va) + 1, PagesOf(g, s));
      Times(g, Page(g, s.va), p);
    }
  }

  lemma Times(g: Granule, a: nat, b: nat)
    requires a <= b
    ensures b * Size(g) == a * Size(g) + (b - a) * Size(g)
  {
  }

  /** Rounding a segment up to whole pages does not leave the image. */
  lemma SegEnd(g: Granule, base: nat, len: nat, s: LoadSeg)
    requires base % Size(g) == 0 && len % Size(g) == 0 && SegOk(g, base, base + len, s)
    requires s.va + PagesOf(g, s) * Size(g) <= TWO_48
    ensures Page(g, s.va) * Size(g) == s.va && s.va + PagesOf(g, s) * Size(g) <= base + len
    ensures PagesOf(g, s) > 0
  {
    Whole(g, base);
    Whole(g, len);
    Whole(g, s.va);
    hide PagesOf, Size;
    var room: nat := Room(g, base / Size(g), len / Size(g), s.va / Size(g), s.memsz);
    Ceiling(g, s, room);
    StepsBelow(g, PagesOf(g, s), room);
    LowPage(g, s.va, PagesOf(g, s));
  }

  lemma Whole(g: Granule, a: nat)
    requires a % Size(g) == 0
    ensures a == a / Size(g) * Size(g)
  {
  }

  lemma Room(g: Granule, b: nat, l: nat, v: nat, memsz: nat) returns (room: nat)
    requires v * Size(g) + memsz <= b * Size(g) + l * Size(g)
    ensures memsz <= room * Size(g) && v * Size(g) + room * Size(g) == b * Size(g) + l * Size(g)
  {
    match g {
      case K4 => room := b + l - v;
      case K16 => room := b + l - v;
    }
  }

  lemma Ceiling(g: Granule, s: LoadSeg, room: nat)
    requires s.memsz <= room * Size(g)
    ensures PagesOf(g, s) <= room && (s.memsz > 0 ==> PagesOf(g, s) > 0)
  {
  }

  lemma LowPage(g: Granule, va: nat, n: nat)
    requires va == va / Size(g) * Size(g) && va + n * Size(g) <= TWO_48 && n > 0
    ensures Page(g, va) == va / Size(g)
  {
  }

  lemma ImageOneToOne(g: Granule, base: nat, frames: nat, len: nat, pages: Pages)
    requires ImageTargets(g, base, frames, len, pages)
    ensures OneToOne(pages)
    ensures forall p :: p in pages ==> frames <= pages[p].0 < frames + len
  {
    forall p, q | p in pages && q in pages && pages[p].0 == pages[q].0
      ensures p == q
    {
      assert p * Size(g) == q * Size(g);
    }
  }

  // ---------------------------------------------------------------- blocks of frames

  /** The granules of [lo, hi) are memory, and none of them is a table. */
  ghost predicate Block(g: Granule, mem: Mem, sh: Shape, lo: nat, hi: nat) {
    forall a :: lo <= a < hi && a % Size(g) == 0 ==> a in mem && a !in sh.level
  }

  lemma BlockGrows(g: Granule, mem0: Mem, sh0: Shape, next0: nat, mem: Mem, sh: Shape, next: nat, lo: nat, hi: nat)
    requires Block(g, mem0, sh0, lo, hi) && hi <= next0 && Grows(mem0, sh0, next0, mem, sh, next)
    ensures Block(g, mem, sh, lo, hi)
    ensures forall a :: lo <= a < hi && a % Size(g) == 0 ==> mem[a] == mem0[a]
  {
    hide Size;
  }

  lemma BlockAllocated(g: Granule, mem: Mem, sh: Shape, base: nat, n: nat)
    requires Forest(g, mem, sh) && AllBelow(mem, base) && base % Size(g) == 0
    ensures Block(g, ClearRange(g, mem, base, n), sh, base, base + n * Size(g))
  {
    forall a | base <= a < base + n * Size(g) && a % Size(g) == 0
      ensures a in ClearRange(g, mem, base, n) && a !in sh.level
    {
      var i := StepTo(g, base, a, n);
      ClearRangeHas(g, mem, base, n, i);
    }
  }

  lemma StepTo(g: Granule, base: nat, a: nat, n: nat) returns (i: nat)
    requires base % Size(g) == 0 && a % Size(g) == 0 && base <= a < base + n * Size(g)
    ensures i < n && a == base + i * Size(g)
  {
    Whole(g, base);
    Whole(g, a);
    var p, q := base / Size(g), a / Size(g);
    hide Size;
    assert p <= q;
    i := q - p;
    Times(g, p, q);
    if n <= i {
      StepsBelow(g, n, i);
    }
  }

  /** Copying the image fills its frames granule by granule and changes nothing else. */
  method CopyImage(phys: Phys, frames: nat, image: seq<Table>)
    requires phys.Booting() && phys.sh.level == map[] && frames % Size(phys.g) == 0
    requires Block(phys.g, phys.mem, phys.sh, frames, frames + |image| * Size(phys.g))
    modifies phys`mem
    ensures phys.Booting() && phys.mem.Keys == old(phys.mem.Keys)
    ensures Block(phys.g, phys.mem, phys.sh, frames, frames + |image| * Size(phys.g))
    ensures ImageLoaded(phys.g, phys.mem, frames, image)
  {
    hide Size, Forest, Block;
    var i := 0;
    while i < |image|
      invariant i <= |image| && phys.Booting() && phys.mem.Keys == old(phys.mem.Keys)
      invariant ImageLoaded(phys.g, phys.mem, frames, image[..i])
    {
      SameBlock(phys.g, old(phys.mem), phys.mem, phys.sh, frames, frames + |image| * Size(phys.g));
      GranuleAt(phys.g, phys.mem, phys.sh, frames, |image|, i);
      OtherGranuleForest(phys.g, phys.mem, phys.sh, frames + i * Size(phys.g), image[i]);
      LoadOne(phys.g, phys.mem, frames, image, i);
      phys.mem := phys.mem[frames + i * Size(phys.g) := image[i]];
      i := i + 1;
    }
    assert image[..i] == image;
    SameBlock(phys.g, old(phys.mem), phys.mem, phys.sh, frames, frames + |image| * Size(phys.g));
  }

  lemma SameBlock(g: Granule, mem0: Mem, mem: Mem, sh: Shape, lo: nat, hi: nat)
    requires Block(g, mem0, sh, lo, hi) && mem.Keys == mem0.Keys
    ensures Block(g, mem, sh, lo, hi)
  {
    hide Size;
  }

  lemma LoadOne(g: Granule, mem: Mem, frames: nat, image: seq<Table>, i: nat)
    requires i < |image| && ImageLoaded(g, mem, frames, image[..i])
    ensures ImageLoaded(g, mem[frames + i * Size(g) := image[i]], frames, image[..i + 1])
  {
    hide Size;
    var mem' := mem[frames + i * Size(g) := image[i]];
    forall k | 0 <= k < i + 1
      ensures frames + k * Size(g) in mem' && mem'[frames + k * Size(g)] == image[..i + 1][k]
    {
      SameStep(g, k, i);
      if k < i {
        assert image[..i][k] == image[k];
      }
    }
  }

  lemma GranuleAt(g: Granule, mem: Mem, sh: Shape, lo: nat, n: nat, i: nat)
    requires Block(g, mem, sh, lo, lo + n * Size(g)) && lo % Size(g) == 0 && i < n
    ensures lo + i * Size(g) in mem && lo + i * Size(g) !in sh.level
  {
    StillAligned(g, lo, i);
    StepsBelow(g, i + 1, n);
  }

  /** Map every segment over its part of the image. */
  method MapImage(phys: Phys, root: nat, base: nat, len: nat, entry: nat, segs: seq<LoadSeg>, frames: nat,
                  ghost spent: nat)
    returns (r: Result<(), SpawnError>)
    requires phys.Booting() && IsRoot(phys.sh, root) && Translates(phys.g, phys.mem, root, map[])
    requires HeadOk(phys.g, len, base, segs) && frames % Size(phys.g) == 0 && frames + len <= TWO_48
    requires Funded(phys.g, phys.mem, phys.sh, phys.next, spent, {})
    modifies phys
    ensures phys.Booting() && Grows(old(phys.mem), old(phys.sh), old(phys.next), phys.mem, phys.sh, phys.next)
    ensures r.Ok? ==> SegsOk(phys.g, base, base + len, entry, segs)
    ensures r == Err(BadLayout) ==> !SegsOk(phys.g, base, base + len, entry, segs)
    ensures r.Ok? ==> Translates(phys.g, phys.mem, root, ImagePages(phys.g, base, frames, segs))
    ensures r.Ok? ==> ImageApart(phys.g, base, frames, segs)
    ensures r.Ok? ==> ImageTargets(phys.g, base, frames, len, ImagePages(phys.g, base, frames, segs))
    ensures r.Ok? ==> InSpace(phys.g, segs)
    ensures r == Err(Mmu(Overlap)) ==> !ImageApart(phys.g, base, frames, segs)
    ensures r.Ok? ==> Funded(phys.g, phys.mem, phys.sh, phys.next, spent, ImageTables(phys.g, root, segs))
    ensures r == Err(Mmu(OutOfFrames)) ==> spent + TableBytes(phys.g, ImageTables(phys.g, root, segs)) > phys.end
    ensures r.Err? && r.error.Mmu? && r.error.e != Overlap && r.error.e != OutOfFrames ==>
              OutOfSpace(phys.g, segs, r.error.e)
  {
    hide Forest, Walk, MapsRange, UserAttrs, Page, Size, Grows, RangePages, RangeArgs, Translates, ImageTargets, IsRoot,
         ImageApart, ImagePages, OutOfSpace, InSpace, Funded, RangeKeys, ImageTables;
    var g := phys.g;
    GrowsRefl(phys.mem, phys.sh, phys.next);
    NoTargets(g, base, frames, len);
    NoImage(g, base, frames);
    NoTables(g, root);
    NoSpace(g);
    var k := 0;
    while k < |segs|
      invariant k <= |segs| && phys.Booting() && IsRoot(phys.sh, root)
      invariant Grows(old(phys.mem), old(phys.sh), old(phys.next), phys.mem, phys.sh, phys.next)
      invariant SegsOk(g, base, base + len, entry, segs[..k])
      invariant Translates(g, phys.mem, root, ImagePages(g, base, frames, segs[..k]))
      invariant ImageApart(g, base, frames, segs[..k])
      invariant ImageTargets(g, base, frames, len, ImagePages(g, base, frames, segs[..k]))
      invariant Funded(g, phys.mem, phys.sh, phys.next, spent, ImageTables(g, root, segs[..k]))
      invariant InSpace(g, segs[..k])
    {
      var s := segs[k];
      assert segs[..k + 1][..k] == segs[..k] && segs[..k + 1][k] == s;
      if s.va + s.memsz >= TWO_64 || s.va < base || s.va + s.memsz > base + len || s.va % Size(g) != 0 || s.memsz == 0 {
        return Err(BadLayout);
      }
      var mapped := PagesOf(g, s) * Size(g);
      ghost var mem1, sh1, next1 := phys.mem, phys.sh, phys.next;
      var done := phys.BuildRange(root, s.va, frames + (s.va - base), mapped, PermOf(s.kind));
      GrowsTrans(old(phys.mem), old(phys.sh), old(phys.next), mem1, sh1, next1, phys.mem, phys.sh, phys.next, root);
      TablesMore(g, root, segs, k);
      Quotient(g, PagesOf(g, s), mapped);
      SegPaid(g, phys.mem, phys.sh, phys.next, phys.end, spent, root, segs, k, done);
      if done.Err? {
        SegFails(g, mem1, root, base, len, frames, segs, k, done);
        return Err(Mmu(done.error));
      }
      SegMapped(g, mem1, phys.mem, phys.sh, root, base, frames, len, segs[..k], s);
      ImageMore(g, base, frames, segs, k);
      SpaceMore(g, segs, k, frames + (s.va - base));
      if s.Has(entry) && s.kind != TextSeg {
        assert segs[k] == s;
        return Err(BadLayout);
      }
      k := k + 1;
    }
    assert segs[..k] == segs;
    r := Ok(());
  }

  /** The tables below `root` that the segments take. */
  function ImageTables(g: Granule, root: nat, segs: seq<LoadSeg>): Keys {
    if segs == [] then {}
    else
      var s := segs[|segs| - 1];
      ImageTables(g, root, segs[..|segs| - 1]) + RangeKeys(g, root, s.va, PagesOf(g, s))
  }

  lemma NoTables(g: Granule, root: nat)
    ensures ImageTables(g, root, []) == {}
  {
  }

  lemma TablesMore(g: Granule, root: nat, segs: seq<LoadSeg>, k: nat)
    requires k < |segs|
    ensures ImageTables(g, root, segs[..k + 1]) ==
            ImageTables(g, root, segs[..k]) + RangeKeys(g, root, segs[k].va, PagesOf(g, segs[k]))
  {
    hide RangeKeys, PagesOf;
    assert segs[..k + 1][..k] == segs[..k];
  }

  lemma {:induction false} TablesPrefix(g: Granule, root: nat, segs: seq<LoadSeg>, k: nat)
    requires k <= |segs|
    ensures ImageTables(g, root, segs[..k]) <= ImageTables(g, root, segs)
    decreases |segs|
  {
    hide RangeKeys, PagesOf;
    if k < |segs| {
      TablesPrefix(g, root, segs[..|segs| - 1], k);
      assert segs[..|segs| - 1][..k] == segs[..k];
    } else {
      assert segs[..k] == segs;
    }
  }

  function TableBytes(g: Granule, made: Keys): nat {
    |made| * Size(g)
  }

  lemma FewerTables(g: Granule, a: Keys, b: Keys)
    requires a <= b
    ensures TableBytes(g, a) <= TableBytes(g, b)
  {
    SmallerSet(a, b);
  }

  /** The tables of one more segment are paid for, or the window cannot pay for those of the image. */
  lemma SegPaid(g: Granule, mem: Mem, sh: Shape, next: nat, end: nat, spent: nat, root: nat, segs: seq<LoadSeg>, k: nat,
                r: Outcome)
    requires k < |segs|
    requires RangePaid(g, mem, sh, next, end, spent, ImageTables(g, root, segs[..k]), root, segs[k].va,
                       PagesOf(g, segs[k]), r)
    ensures r.Ok? ==> Funded(g, mem, sh, next, spent, ImageTables(g, root, segs[..k + 1]))
    ensures r == Err(OutOfFrames) ==> spent + TableBytes(g, ImageTables(g, root, segs)) > end
  {
    hide RangeKeys, PagesOf, ImageTables, Funded, Size;
    TablesMore(g, root, segs, k);
    TablesPrefix(g, root, segs, k + 1);
    FewerTables(g, ImageTables(g, root, segs[..k + 1]), ImageTables(g, root, segs));
  }

  /** Every segment lies above the first page and below 2^48. */
  predicate InSpace(g: Granule, segs: seq<LoadSeg>) {
    forall i :: 0 <= i < |segs| ==> Size(g) <= segs[i].va && segs[i].va + PagesOf(g, segs[i]) * Size(g) <= TWO_48
  }

  lemma NoSpace(g: Granule)
    ensures InSpace(g, [])
  {
  }

  lemma SpaceMore(g: Granule, segs: seq<LoadSeg>, k: nat, pa: nat)
    requires k < |segs| && InSpace(g, segs[..k])
    requires RangeArgs(g, segs[k].va, pa, PagesOf(g, segs[k]) * Size(g)).Ok?
    ensures InSpace(g, segs[..k + 1])
  {
    hide PagesOf, Size;
    forall i | 0 <= i < k + 1
      ensures Size(g) <= segs[i].va && segs[i].va + PagesOf(g, segs[i]) * Size(g) <= TWO_48
    {
      assert i < k ==> segs[..k][i] == segs[i];
    }
  }

  /** Why the builder refuses the address range of some segment. */
  ghost predicate OutOfSpace(g: Granule, segs: seq<LoadSeg>, e: MmuError) {
    exists i :: 0 <= i < |segs|
      && (|| (e == NullPage && segs[i].va < Size(g))
          || (e == Misaligned && segs[i].va + PagesOf(g, segs[i]) * Size(g) > TWO_48))
  }

  lemma NoImage(g: Granule, base: nat, frames: nat)
    ensures ImagePages(g, base, frames, []) == map[] && ImageApart(g, base, frames, [])
  {
  }

  lemma ImageMore(g: Granule, base: nat, frames: nat, segs: seq<LoadSeg>, k: nat)
    requires k < |segs|
    ensures ImagePages(g, base, frames, segs[..k + 1]) ==
            ImagePages(g, base, frames, segs[..k]) + SegPages(g, base, frames, segs[k])
    ensures ImageApart(g, base, frames, segs[..k + 1]) <==>
            && ImageApart(g, base, frames, segs[..k])
            && ImagePages(g, base, frames, segs[..k]).Keys !! SegPages(g, base, frames, segs[k]).Keys
  {
    hide SegPages;
    assert segs[..k + 1][..k] == segs[..k];
  }

  lemma {:induction false} ApartPrefix(g: Granule, base: nat, frames: nat, segs: seq<LoadSeg>, k: nat)
    requires k <= |segs| && ImageApart(g, base, frames, segs)
    ensures ImageApart(g, base, frames, segs[..k])
    decreases |segs|
  {
    hide SegPages, ImagePages;
    if k < |segs| {
      ApartPrefix(g, base, frames, segs[..|segs| - 1], k);
      assert segs[..|segs| - 1][..k] == segs[..k];
    } else {
      assert segs[..k] == segs;
    }
  }

  /** A mapped page inside a range means that the range is not new. */
  lemma RangeIsOld(g: Granule, mem: Mem, root: nat, pages: Pages, va: nat, pa: nat, n: nat, perm: UserPerm, k: nat)
    requires Translates(g, mem, root, pages) && va % TWO_48 + n * Size(g) <= TWO_48
    requires k < n && Walk(g, mem, root, va + k * Size(g)) != 0
    ensures !(pages.Keys !! RangePages(g, va, pa, n, perm).Keys)
  {
    hide Walk, Page, Leaf, UserAttrs;
    PageInRange(g, va, n, k);
    assert Page(g, va + k * Size(g)) in pages.Keys && Page(g, va + k * Size(g)) in RangePages(g, va, pa, n, perm).Keys;
  }

  /** What the builder's `map_range` reports, and what that says about the memory it started from. */
  ghost predicate RangeFailed(g: Granule, mem: Mem, root: nat, va: nat, pa: nat, len: nat, r: Outcome) {
    && r.Err?
    && (r == RangeArgs(g, va, pa, len) || (RangeArgs(g, va, pa, len).Ok? && r.error in {OutOfFrames, Overlap}))
    && (r == Err(Overlap) ==> exists j: nat :: j * Size(g) < len && Walk(g, mem, root, va + j * Size(g)) != 0)
  }

  lemma RangeOverlaps(g: Granule, mem: Mem, root: nat, pages: Pages, va: nat, pa: nat, n: nat, perm: UserPerm)
    requires Translates(g, mem, root, pages) && RangeFailed(g, mem, root, va, pa, n * Size(g), Err(Overlap))
    ensures !(pages.Keys !! RangePages(g, va, pa, n, perm).Keys)
  {
    hide Walk, Translates, RangePages;
    var j: nat :| j * Size(g) < n * Size(g) && Walk(g, mem, root, va + j * Size(g)) != 0;
    RangeLow(g, va, pa, n * Size(g));
    hide RangeArgs;
    FewerSteps(g, j, n);
    RangeIsOld(g, mem, root, pages, va, pa, n, perm, j);
  }

  /** Why a segment that lies in the image is not mapped. */
  lemma SegFails(g: Granule, mem: Mem, root: nat, base: nat, len: nat, frames: nat, segs: seq<LoadSeg>, k: nat,
                 r: Outcome)
    requires k < |segs| && HeadOk(g, len, base, segs) && frames % Size(g) == 0 && SegOk(g, base, base + len, segs[k])
    requires Translates(g, mem, root, ImagePages(g, base, frames, segs[..k]))
    requires RangeFailed(g, mem, root, segs[k].va, frames + (segs[k].va - base), PagesOf(g, segs[k]) * Size(g), r)
    ensures r == Err(Overlap) ==> !ImageApart(g, base, frames, segs)
    ensures r.error != Overlap && r.error != OutOfFrames ==> OutOfSpace(g, segs, r.error)
  {
    hide Walk, Translates, RangePages, ImagePages, ImageApart, PagesOf;
    var s := segs[k];
    if r == Err(Overlap) {
      RangeOverlaps(g, mem, root, ImagePages(g, base, frames, segs[..k]), s.va, frames + (s.va - base), PagesOf(g, s),
                    PermOf(s.kind));
      ImageMore(g, base, frames, segs, k);
      if ImageApart(g, base, frames, segs) {
        ApartPrefix(g, base, frames, segs, k + 1);
      }
    } else if r.error != OutOfFrames {
      PlaceAligned(g, base, frames, s);
      SomePages(g, s);
      WholePages(g, PagesOf(g, s));
    }
  }

  lemma FewerSteps(g: Granule, j: nat, n: nat)
    requires j * Size(g) < n * Size(g)
    ensures j < n
  {
  }

  lemma PlaceAligned(g: Granule, base: nat, frames: nat, s: LoadSeg)
    requires base % Size(g) == 0 && frames % Size(g) == 0 && s.va % Size(g) == 0 && base <= s.va
    ensures (frames + (s.va - base)) % Size(g) == 0
  {
    var f, v, b := frames / Size(g), s.va / Size(g), base / Size(g);
    Multiple(g, frames);
    Multiple(g, s.va);
    Multiple(g, base);
    hide Size;
    assert frames + (s.va - base) == (f + v - b) * Size(g);
    Multiple(g, (f + v - b) * Size(g));
  }

  lemma Multiple(g: Granule, a: int)
    ensures a % Size(g) == 0 ==> a == a / Size(g) * Size(g)
    ensures forall k: int :: a == k * Size(g) ==> a % Size(g) == 0
  {
  }

  lemma SomePages(g: Granule, s: LoadSeg)
    requires s.memsz > 0
    ensures PagesOf(g, s) > 0
  {
  }

  lemma WholePages(g: Granule, n: nat)
    ensures (n * Size(g)) % Size(g) == 0 && (n > 0 ==> n * Size(g) > 0)
  {
  }

  lemma NoTargets(g: Granule, base: nat, frames: nat, len: nat)
    ensures ImageTargets(g, base, frames, len, map[])
  {
  }

  lemma SegMapped(g: Granule, mem0: Mem, mem: Mem, sh: Shape, root: nat, base: nat, frames: nat, len: nat,
                  done: seq<LoadSeg>, s: LoadSeg)
    requires base % Size(g) == 0 && len % Size(g) == 0 && frames % Size(g) == 0 && frames + len <= TWO_48
    requires SegOk(g, base, base + len, s) && IsRoot(sh, root)
    requires var pages := ImagePages(g, base, frames, done);
             Translates(g, mem0, root, pages) && ImageTargets(g, base, frames, len, pages)
    requires var mapped := PagesOf(g, s) * Size(g);
             && RangeArgs(g, s.va, frames + (s.va - base), mapped).Ok?
             && MapsRange(g, mem0, mem, sh, root, s.va, frames + (s.va - base), mapped / Size(g),
                          UserAttrs(PermOf(s.kind)))
             && forall k: nat :: k < mapped / Size(g) ==> Walk(g, mem0, root, s.va + k * Size(g)) == 0
    ensures var pages := ImagePages(g, base, frames, done);
            var pages' := pages + SegPages(g, base, frames, s);
            && Translates(g, mem, root, pages') && ImageTargets(g, base, frames, len, pages')
            && pages.Keys !! SegPages(g, base, frames, s).Keys
  {
    hide Walk, MapsRange, UserAttrs, Page, Size, RangePages, Translates, IsRoot;
    var n, pa, perm := PagesOf(g, s), frames + (s.va - base), PermOf(s.kind);
    var pages := ImagePages(g, base, frames, done);
    Quotient(g, n, n * Size(g));
    RangeLow(g, s.va, pa, n * Size(g));
    RangeEnds(g, s.va, pa, n * Size(g));
    TranslatesRange(g, mem0, mem, sh, root, pages, s.va, pa, n, perm);
    ImageFrames(g, base, frames, len, pages);
    RangeIsNew(g, mem0, root, pages, s.va, pa, n, perm);
    SegTargets(g, base, frames, len, s);
    JoinTargets(g, base, frames, len, pages, SegPages(g, base, frames, s));
  }

  lemma RangeEnds(g: Granule, va: nat, pa: nat, len: nat)
    requires RangeArgs(g, va, pa, len).Ok?
    ensures va + len <= TWO_48
  {
  }

  lemma JoinTargets(g: Granule, base: nat, frames: nat, len: nat, a: Pages, b: Pages)
    requires ImageTargets(g, base, frames, len, a) && ImageTargets(g, base, frames, len, b)
    ensures ImageTargets(g, base, frames, len, a + b)
  {
  }

  lemma ImageFrames(g: Granule, base: nat, frames: nat, len: nat, pages: Pages)
    requires ImageTargets(g, base, frames, len, pages) && base % Size(g) == 0 && frames % Size(g) == 0
    requires frames + len <= TWO_48
    ensures forall p :: p in pages ==> IsFrame(g, pages[p].0)
  {
    forall p | p in pages
      ensures IsFrame(g, pages[p].0)
    {
      MovedFrame(g, base, frames, p, pages[p].0);
    }
  }

  lemma MovedFrame(g: Granule, base: nat, frames: nat, p: nat, a: nat)
    requires base % Size(g) == 0 && frames % Size(g) == 0 && a + base == frames + p * Size(g)
    ensures a % Size(g) == 0
  {
    match g
    case K4 => assert a == 4096 * (frames / 4096 + p - base / 4096);
    case K16 => assert a == 16384 * (frames / 16384 + p - base / 16384);
  }

  // ---------------------------------------------------------------- the whole root task

  /** Where the loaded parts lie. */
  datatype Loaded = Loaded(frames: nat, stack: nat, info: nat)

  function RootPages(g: Granule, base: nat, segs: seq<LoadSeg>, at: Loaded): Pages {
    ImagePages(g, base, at.frames, segs) + StackPages(g, at.stack) + InfoPages(g, at.info)
  }

  /** The segments, the stack and the boot information take pages of their own. */
  ghost predicate RootApart(g: Granule, base: nat, segs: seq<LoadSeg>, at: Loaded) {
    var image := ImagePages(g, base, at.frames, segs);
    && ImageApart(g, base, at.frames, segs)
    && image.Keys !! StackPages(g, at.stack).Keys
    && (image + StackPages(g, at.stack)).Keys !! InfoPages(g, at.info).Keys
  }

  /** The same, wherever the parts are loaded. */
  ghost predicate PagesApart(g: Granule, base: nat, segs: seq<LoadSeg>) {
    RootApart(g, base, segs, Loaded(0, 0, 0))
  }

  lemma {:induction false} ImageKeys(g: Granule, base: nat, frames: nat, frames': nat, segs: seq<LoadSeg>)
    ensures ImagePages(g, base, frames, segs).Keys == ImagePages(g, base, frames', segs).Keys
    ensures ImageApart(g, base, frames, segs) <==> ImageApart(g, base, frames', segs)
    decreases |segs|
  {
    hide Page, FrameFor, PagesOf;
    if segs != [] {
      ImageKeys(g, base, frames, frames', segs[..|segs| - 1]);
      RangeKeysSame(g, segs[|segs| - 1].va, PagesOf(g, segs[|segs| - 1]));
    }
  }

  lemma RangeKeysSame(g: Granule, va: nat, n: nat)
    ensures forall pa: nat, pa': nat, perm: UserPerm ::
              RangePages(g, va, pa, n, perm).Keys == RangePages(g, va, pa', n, perm).Keys
  {
    hide Page, FrameFor;
  }

  lemma ApartAnywhere(g: Granule, base: nat, segs: seq<LoadSeg>, at: Loaded)
    ensures RootApart(g, base, segs, at) <==> PagesApart(g, base, segs)
  {
    hide RangePages, ImagePages, ImageApart;
    ImageKeys(g, base, at.frames, 0, segs);
    RangeKeysSame(g, USER_STACK_TOP - USER_STACK_SIZE, USER_STACK_SIZE / Size(g));
    RangeKeysSame(g, BOOTINFO_VA, 1);
  }

  // ---------------------------------------------------------------- the root task as the hardware sees it

  /** The page of `va` overlaps the segment. */
  predicate Touches(g: Granule, s: LoadSeg, va: nat) {
    s.va <= va && va / Size(g) * Size(g) < s.va + s.memsz
  }

  /**
    What the walk must find at `va`: in a segment the frame of that part of the image, writable exactly for
    Rw and executable exactly for Text; below the top of the stack its writable frame; the boot information
    frame read-only at its own page; and nothing anywhere else.
  */
  ghost predicate SeenAt(g: Granule, base: nat, segs: seq<LoadSeg>, at: Loaded, va: nat, e: nat) {
    var page := va / Size(g) * Size(g);
    var stack, info := 0x0FFF_0000 <= va < 0x1000_0000, 0x0F00_0000 <= va < 0x0F00_0000 + Size(g);
    && (forall i :: 0 <= i < |segs| && Touches(g, segs[i], va) ==>
          && base <= page
          && UserLeaf(g, e, at.frames + (page - base), segs[i].kind == RwSeg, segs[i].kind == TextSeg))
    && (stack ==> page >= 0x0FFF_0000 && UserLeaf(g, e, at.stack + (page - 0x0FFF_0000), true, false))
    && (info ==> UserLeaf(g, e, at.info, false, false))
    && (e != 0 ==> stack || info || exists i :: 0 <= i < |segs| && Touches(g, segs[i], va))
  }

  ghost predicate RootSeen(g: Granule, mem: Mem, root: nat, base: nat, segs: seq<LoadSeg>, at: Loaded) {
    forall va: nat :: va < TWO_48 ==> SeenAt(g, base, segs, at, va, Walk(g, mem, root, va))
  }

  lemma PageLow(g: Granule, va: nat)
    requires va < TWO_48
    ensures Page(g, va) == va / Size(g)
  {
  }

  lemma RangeHas(g: Granule, va: nat, pa: nat, n: nat, perm: UserPerm, v: nat)
    requires va % Size(g) == 0 && va < TWO_48 && v < TWO_48
    ensures var more, page := RangePages(g, va, pa, n, perm), v / Size(g) * Size(g);
            && (Page(g, v) in more <==> va <= v && page < va + n * Size(g))
            && (Page(g, v) in more ==> va <= page && more[Page(g, v)] == (pa + (page - va), perm))
  {
    hide Page, Size;
    PageLow(g, va);
    PageLow(g, v);
    PagesBetween(g, va, v, n);
  }

  /** Counting in pages from an aligned address is counting in bytes. */
  lemma PagesBetween(g: Granule, va: nat, v: nat, n: nat)
    requires va % Size(g) == 0
    ensures var a, q := va / Size(g), v / Size(g);
            && (a <= q <==> va <= v) && (q < a + n <==> q * Size(g) < va + n * Size(g))
            && (a <= q ==> va <= q * Size(g) && (q - a) * Size(g) == q * Size(g) - va)
  {
    match g
    case K4 => assert va == 4096 * (va / 4096);
    case K16 => assert va == 16384 * (va / 16384);
  }

  lemma LastPage(g: Granule, s: LoadSeg, va: nat)
    requires s.va % Size(g) == 0
    ensures var page := va / Size(g) * Size(g);
            page < s.va + PagesOf(g, s) * Size(g) <==> page < s.va + s.memsz
  {
    match g
    case K4 => assert s.va == 4096 * (s.va / 4096);
    case K16 => assert s.va == 16384 * (s.va / 16384);
  }

  lemma SegHas(g: Granule, base: nat, frames: nat, end: nat, s: LoadSeg, va: nat)
    requires SegOk(g, base, end, s) && s.va + PagesOf(g, s) * Size(g) <= TWO_48 && va < TWO_48
    ensures var more, page := SegPages(g, base, frames, s), va / Size(g) * Size(g);
            && (Page(g, va) in more <==> Touches(g, s, va))
            && (Page(g, va) in more ==>
                  base <= page && more[Page(g, va)] == (frames + (page - base), PermOf(s.kind)))
  {
    hide Page, RangePages;
    LastPage(g, s, va);
    AtLeastOnePage(g, s);
    RangeHas(g, s.va, frames + (s.va - base), PagesOf(g, s), PermOf(s.kind), va);
  }

  lemma AtLeastOnePage(g: Granule, s: LoadSeg)
    requires s.memsz != 0
    ensures PagesOf(g, s) * Size(g) > 0
  {
  }

  lemma {:induction false} ImageHas(g: Granule, base: nat, frames: nat, segs: seq<LoadSeg>, i: nat, p: nat)
    requires ImageApart(g, base, frames, segs) && i < |segs| && p in SegPages(g, base, frames, segs[i])
    ensures p in ImagePages(g, base, frames, segs)
    ensures ImagePages(g, base, frames, segs)[p] == SegPages(g, base, frames, segs[i])[p]
    decreases |segs|
  {
    hide SegPages;
    if i < |segs| - 1 {
      ImageHas(g, base, frames, segs[..|segs| - 1], i, p);
    }
  }

  lemma {:induction false} ImageFrom(g: Granule, base: nat, frames: nat, segs: seq<LoadSeg>, p: nat)
    requires p in ImagePages(g, base, frames, segs)
    ensures exists i :: 0 <= i < |segs| && p in SegPages(g, base, frames, segs[i])
    decreases |segs|
  {
    hide SegPages;
    var init := segs[..|segs| - 1];
    if p !in SegPages(g, base, frames, segs[|segs| - 1]) {
      ImageFrom(g, base, frames, init, p);
      var i :| 0 <= i < |init| && p in SegPages(g, base, frames, init[i]);
      assert init[i] == segs[i];
    }
  }

  lemma StackHas(g: Granule, stack: nat, va: nat)
    requires va < TWO_48
    ensures var more, page := StackPages(g, stack), va / Size(g) * Size(g);
            && (Page(g, va) in more <==> 0x0FFF_0000 <= va < 0x1000_0000)
            && (Page(g, va) in more ==>
                  0x0FFF_0000 <= page && more[Page(g, va)] == (stack + (page - 0x0FFF_0000), RwUser))
  {
    hide Page, RangePages;
    RangeHas(g, 0x0FFF_0000, stack, 0x1_0000 / Size(g), RwUser, va);
  }

  lemma InfoHas(g: Granule, info: nat, va: nat)
    requires va < TWO_48
    ensures var more := InfoPages(g, info);
            && (Page(g, va) in more <==> 0x0F00_0000 <= va < 0x0F00_0000 + Size(g))
            && (Page(g, va) in more ==> more[Page(g, va)] == (info, RoUser))
  {
    hide Page, RangePages;
    RangeHas(g, 0x0F00_0000, info, 1, RoUser, va);
  }

  lemma PageSeen(g: Granule, mem: Mem, sh: Shape, root: nat, pages: Pages, va: nat)
    requires Owned(g, mem, sh, root, pages)
    ensures var e := Walk(g, mem, root, va);
            && (e != 0 ==> Page(g, va) in pages)
            && (Page(g, va) in pages ==>
                  var (pa, perm) := pages[Page(g, va)];
                  UserLeaf(g, e, pa, perm == RwUser, perm == TextUser))
  {
    hide Forest, Walk, Page, OneToOne, UserLeaf, Leaf, UserAttrs, IsFrame;
    assert Walk(g, mem, root, va) == LeafOf(pages, Page(g, va));
    if Page(g, va) in pages {
      UserLeafIs(g, pages[Page(g, va)].0, pages[Page(g, va)].1);
    }
  }

  lemma RootSeenAt(g: Granule, base: nat, len: nat, entry: nat, segs: seq<LoadSeg>, at: Loaded, va: nat, e: nat)
    requires RootLayoutOk(g, len, base, entry, segs) && InSpace(g, segs) && RootApart(g, base, segs, at) && va < TWO_48
    requires var pages := RootPages(g, base, segs, at);
             && (e != 0 ==> Page(g, va) in pages)
             && (Page(g, va) in pages ==>
                   var (pa, perm) := pages[Page(g, va)];
                   UserLeaf(g, e, pa, perm == RwUser, perm == TextUser))
    ensures SeenAt(g, base, segs, at, va, e)
  {
    hide Page, UserLeaf, ImagePages, ImageApart, SegPages, StackPages, InfoPages, Size, Touches, SegOk, PagesOf;
    var p, image := Page(g, va), ImagePages(g, base, at.frames, segs);
    StackHas(g, at.stack, va);
    InfoHas(g, at.info, va);
    forall i | 0 <= i < |segs|
      ensures p in SegPages(g, base, at.frames, segs[i]) <==> Touches(g, segs[i], va)
      ensures var page := va / Size(g) * Size(g);
              Touches(g, segs[i], va) ==>
                base <= page && p in image && image[p] == (at.frames + (page - base), PermOf(segs[i].kind))
    {
      SegHas(g, base, at.frames, base + len, segs[i], va);
      if Touches(g, segs[i], va) {
        ImageHas(g, base, at.frames, segs, i, p);
      }
    }
    if p in image {
      ImageFrom(g, base, at.frames, segs, p);
    }
  }

  lemma RootAsSeen(g: Granule, mem: Mem, sh: Shape, root: nat, base: nat, len: nat, entry: nat, segs: seq<LoadSeg>,
                   at: Loaded)
    requires RootLayoutOk(g, len, base, entry, segs) && InSpace(g, segs) && RootApart(g, base, segs, at)
    requires Owned(g, mem, sh, root, RootPages(g, base, segs, at))
    ensures RootSeen(g, mem, root, base, segs, at)
  {
    hide RootLayoutOk, InSpace, RootApart, Owned, RootPages, SeenAt, Walk;
    forall va: nat | va < TWO_48
      ensures SeenAt(g, base, segs, at, va, Walk(g, mem, root, va))
    {
      PageSeen(g, mem, sh, root, RootPages(g, base, segs, at), va);
      RootSeenAt(g, base, len, entry, segs, at, va, Walk(g, mem, root, va));
    }
  }

  ghost predicate ImageLoaded(g: Granule, mem: Mem, frames: nat, image: seq<Table>) {
    forall i :: 0 <= i < |image| ==> frames + i * Size(g) in mem && mem[frames + i * Size(g)] == image[i]
  }

  predicate RootLayoutOk(g: Granule, len: nat, base: nat, entry: nat, segs: seq<LoadSeg>) {
    HeadOk(g, len, base, segs) && SegsOk(g, base, base + len, entry, segs) && base <= entry < base + len
  }

  /** What later steps must not disturb: the loaded image, the boot information page, and where tables lie. */
  ghost predicate Kept(g: Granule, mem: Mem, sh: Shape, next: nat, frames: nat, image: seq<Table>, info: nat) {
    && frames % Size(g) == 0 && frames + |image| * Size(g) <= next && info + Size(g) <= frames
    && Block(g, mem, sh, frames, frames + |image| * Size(g)) && Block(g, mem, sh, info, info + Size(g))
    && ImageLoaded(g, mem, frames, image)
    && forall a :: a in sh.level ==> frames <= a < next
  }

  lemma KeptGrows(g: Granule, mem0: Mem, sh0: Shape, next0: nat, mem: Mem, sh: Shape, next: nat, frames: nat,
                  image: seq<Table>, info: nat)
    requires Kept(g, mem0, sh0, next0, frames, image, info) && Grows(mem0, sh0, next0, mem, sh, next)
    ensures Kept(g, mem, sh, next, frames, image, info)
  {
    hide Size, Block, ImageLoaded;
    BlockGrows(g, mem0, sh0, next0, mem, sh, next, frames, frames + |image| * Size(g));
    BlockGrows(g, mem0, sh0, next0, mem, sh, next, info, info + Size(g));
    LoadedGrows(g, mem0, mem, sh, frames, image);
  }

  lemma LoadedGrows(g: Granule, mem0: Mem, mem: Mem, sh: Shape, frames: nat, image: seq<Table>)
    requires ImageLoaded(g, mem0, frames, image) && frames % Size(g) == 0
    requires Block(g, mem, sh, frames, frames + |image| * Size(g))
    requires forall a :: a in mem0 && a in mem && a !in sh.level ==> mem[a] == mem0[a]
    ensures ImageLoaded(g, mem, frames, image)
  {
    hide Size, Block;
    forall i | 0 <= i < |image|
      ensures frames + i * Size(g) in mem && mem[frames + i * Size(g)] == image[i]
    {
      GranuleAt(g, mem, sh, frames, |image|, i);
      assert frames + i * Size(g) in mem0;
    }
  }

  /** Reserving cleared frames disturbs nothing and counts as growth. */
  lemma AllocGrows(g: Granule, mem: Mem, sh: Shape, next: nat, n: nat, root: nat, pages: Pages)
    requires Forest(g, mem, sh) && AllBelow(mem, next) && next % Size(g) == 0
    requires IsRoot(sh, root) && Translates(g, mem, root, pages)
    ensures var mem' := ClearRange(g, mem, next, n);
            && Grows(mem, sh, next, mem', sh, next + n * Size(g))
            && Block(g, mem', sh, next, next + n * Size(g))
            && Translates(g, mem', root, pages)
  {
    hide Forest, Walk, Size, Page;
    ClearRangeOk(g, mem, sh, next, n);
    BlockAllocated(g, mem, sh, next, n);
  }

  /** The stack and the boot information page, after the image. */
  method MapRest(phys: Phys, root: nat, frames: nat, ghost image: seq<Table>, info: nat, ghost base: nat,
                 ghost segs: seq<LoadSeg>, ghost spent: nat)
    returns (r: Outcome, ghost at: Loaded)
    requires phys.Booting() && OnlyRoot(phys.sh, root) && IsRoot(phys.sh, root) && IsFrame(phys.g, info)
    requires Kept(phys.g, phys.mem, phys.sh, phys.next, frames, image, info) && base % Size(phys.g) == 0
    requires var pages := ImagePages(phys.g, base, frames, segs);
             && Translates(phys.g, phys.mem, root, pages)
             && ImageTargets(phys.g, base, frames, |image| * Size(phys.g), pages)
             && ImageApart(phys.g, base, frames, segs)
    requires Funded(phys.g, phys.mem, phys.sh, phys.next, spent, ImageTables(phys.g, root, segs))
    modifies phys
    ensures phys.Booting() && phys.next >= old(phys.next)
    ensures r.Ok? ==> at == Loaded(frames, old(phys.next), info) && at.stack + USER_STACK_SIZE <= phys.next
    ensures r.Ok? ==> Owned(phys.g, phys.mem, phys.sh, root, RootPages(phys.g, base, segs, at))
    ensures r.Ok? ==> RootApart(phys.g, base, segs, at)
    ensures r.Ok? ==> Kept(phys.g, phys.mem, phys.sh, phys.next, frames, image, info)
    ensures r == Err(Overlap) ==> !PagesApart(phys.g, base, segs)
    ensures r.Err? ==> r.error == Overlap || r.error == OutOfFrames
    ensures r.Ok? ==> phys.next == spent + USER_STACK_SIZE + TableBytes(phys.g, RootTables(phys.g, root, segs))
    ensures r == Err(OutOfFrames) ==>
              spent + USER_STACK_SIZE + TableBytes(phys.g, RootTables(phys.g, root, segs)) > phys.end
  {
    hide Forest, Walk, Size, RangePages, Translates, ImageTargets, IsRoot, Block, ImageApart, ImagePages, IsFrame,
         Owned, StackPages, InfoPages, OnlyRoot, PagesApart, RangeArgs, Funded, RangePaid, ImageTables;
    var g := phys.g;
    at := Loaded(frames, phys.next, info);
    ghost var pages, stack := ImagePages(g, base, frames, segs), phys.next;
    KeptEnd(g, phys.mem, phys.sh, phys.next, frames, image, info);
    ImageFrames(g, base, frames, |image| * Size(g), pages);
    NoBlock(g, phys.mem, phys.sh);
    hide Kept;
    ApartAnywhere(g, base, segs, at);
    ghost var made := ImageTables(g, root, segs);
    r, stack := MapStack(phys, root, frames, image, info, pages);
    StackPaid(g, phys.mem, phys.sh, phys.next, phys.end, spent, root, segs, r);
    if r.Err? {
      return;
    }
    OneFrame(g, info);
    InfoArgs(g, info);
    InfoIs(g, info);
    r := AddRange(phys, root, BOOTINFO_VA, info, 1, RoUser, frames, image, info, stack, stack + USER_STACK_SIZE,
                  pages + StackPages(g, stack));
    InfoPaid(g, phys.mem, phys.sh, phys.next, phys.end, spent, root, segs, r);
    if r.Ok? {
      SpawnOwned(g, phys.mem, phys.sh, phys.next, root, base, image, segs, at);
    }
  }

  function StackTables(g: Granule, root: nat, segs: seq<LoadSeg>): Keys {
    ImageTables(g, root, segs) + RangeKeys(g, root, USER_STACK_TOP - USER_STACK_SIZE, USER_STACK_SIZE / Size(g))
  }

  /** The tables below `root` that the segments, the stack and the boot information take. */
  function RootTables(g: Granule, root: nat, segs: seq<LoadSeg>): Keys {
    StackTables(g, root, segs) + RangeKeys(g, root, BOOTINFO_VA, 1)
  }

  lemma StackPaid(g: Granule, mem: Mem, sh: Shape, next: nat, end: nat, spent: nat, root: nat, segs: seq<LoadSeg>,
                  r: Outcome)
    requires RangePaid(g, mem, sh, next, end, spent + USER_STACK_SIZE, ImageTables(g, root, segs), root,
                       USER_STACK_TOP - USER_STACK_SIZE, USER_STACK_SIZE / Size(g), r)
    ensures r.Ok? ==> Funded(g, mem, sh, next, spent + USER_STACK_SIZE, StackTables(g, root, segs))
    ensures r == Err(OutOfFrames) ==> spent + USER_STACK_SIZE + TableBytes(g, RootTables(g, root, segs)) > end
  {
    hide Funded, RangeKeys, ImageTables;
    FewerTables(g, StackTables(g, root, segs), RootTables(g, root, segs));
  }

  lemma InfoPaid(g: Granule, mem: Mem, sh: Shape, next: nat, end: nat, spent: nat, root: nat, segs: seq<LoadSeg>,
                 r: Outcome)
    requires RangePaid(g, mem, sh, next, end, spent + USER_STACK_SIZE, StackTables(g, root, segs), root,
                       BOOTINFO_VA, 1, r)
    ensures r.Ok? ==> next == spent + USER_STACK_SIZE + TableBytes(g, RootTables(g, root, segs))
    ensures r == Err(OutOfFrames) ==> spent + USER_STACK_SIZE + TableBytes(g, RootTables(g, root, segs)) > end
  {
    hide RangeKeys, StackTables, Tally;
  }

  lemma InfoArgs(g: Granule, info: nat)
    requires IsFrame(g, info)
    ensures RangeArgs(g, BOOTINFO_VA, info, 1 * Size(g)).Ok? && Size(g) <= USER_STACK_SIZE
  {
  }

  lemma StackArgs(g: Granule, stack: nat)
    requires stack % Size(g) == 0
    ensures RangeArgs(g, USER_STACK_TOP - USER_STACK_SIZE, stack, USER_STACK_SIZE / Size(g) * Size(g)).Ok?
    ensures Size(g) <= USER_STACK_SIZE
  {
  }

  lemma InfoIs(g: Granule, info: nat)
    ensures InfoPages(g, info) == RangePages(g, BOOTINFO_VA, info, 1, RoUser)
  {
  }

  lemma KeptEnd(g: Granule, mem: Mem, sh: Shape, next: nat, frames: nat, image: seq<Table>, info: nat)
    requires Kept(g, mem, sh, next, frames, image, info)
    ensures frames % Size(g) == 0 && frames + |image| * Size(g) <= next
    ensures ImageLoaded(g, mem, frames, image) && forall a :: a in sh.level ==> frames <= a < next
  {
  }

  /**
    `spawn_root`: on success the hardware walk finds the segments with their permissions, the stack and
    the boot information, and nothing else; each frame is behind one page and no frame is both a page and
    a table; the image is in place; and every table and frame comes from the window.
  */
  method SpawnRoot(phys: Phys, image: seq<Table>, len: nat, base: nat, entry: nat, segs: seq<LoadSeg>, info: nat)
    returns (r: Result<nat, SpawnError>, ghost at: Loaded)
    requires phys.Booting() && phys.sh == Shape(map[], map[])
    requires info in phys.mem && IsFrame(phys.g, info) && info + Size(phys.g) <= phys.next
    requires len % Size(phys.g) == 0 ==> len == |image| * Size(phys.g)
    modifies phys
    ensures phys.Booting() && phys.next >= old(phys.next)
    ensures r.Ok? ==> RootLayoutOk(phys.g, len, base, entry, segs)
    ensures r == Err(BadLayout) ==> !RootLayoutOk(phys.g, len, base, entry, segs)
    ensures r.Ok? ==>
              && at.info == info && at.frames == old(phys.next)
              && at.frames + len <= at.stack && at.stack + USER_STACK_SIZE <= phys.next
    ensures r.Ok? ==> Owned(phys.g, phys.mem, phys.sh, r.value, RootPages(phys.g, base, segs, at))
    ensures r.Ok? ==> RootApart(phys.g, base, segs, at) && PagesApart(phys.g, base, segs)
    ensures r.Ok? ==> RootSeen(phys.g, phys.mem, r.value, base, segs, at)
    ensures r.Ok? ==> ImageLoaded(phys.g, phys.mem, at.frames, image)
    ensures r.Ok? ==> forall a :: a in phys.sh.level ==> old(phys.next) <= a < phys.next
    ensures r.Ok? <==> SpawnFits(phys.g, len, base, entry, segs, old(phys.next), phys.end)
    ensures r.Err? ==> SpawnCause(phys.g, len, base, entry, segs, old(phys.next), phys.end, r.error)
  {
    hide Forest, Walk, MapsRange, Page, Size, Grows, RangePages, RangeArgs, Translates, ImageTargets, IsRoot, Block,
         ImageLoaded, ClearRange, SegsOk, ImageApart, ImagePages, IsFrame, Owned, RootApart, RootPages, UserAttrs,
         Kept, OnlyRoot, PagesApart, OutOfSpace, InSpace, Funded, ImageTables, RootTables, TableBytes, SpawnFits,
         SpawnCause, RootLayoutOk, RootSeen;
    var g := phys.g;
    at := Loaded(0, 0, info);
    ghost var next, end := phys.next, phys.end;
    if base % Size(g) != 0 || len % Size(g) != 0 || len == 0 || segs == [] || base + len >= TWO_64 {
      HeadFails(g, len, base, entry, segs, next, end);
      return Err(BadLayout), at;
    }
    var root, frames := LoadImage(phys, image, len, info);
    if root.Err? {
      LoadFails(g, len, base, entry, segs, next, end);
      return Err(Mmu(root.error)), at;
    }
    ghost var mem1, sh1, next1 := phys.mem, phys.sh, phys.next;
    var mapped := MapImage(phys, root.value, base, len, entry, segs, frames, phys.next);
    GrowsNext(mem1, sh1, next1, phys.mem, phys.sh, phys.next);
    if mapped.Err? {
      ImageFails(g, len, base, entry, segs, next, end, mapped.error);
      return Err(mapped.error), at;
    }
    if !(base <= entry < base + len) {
      EntryFails(g, len, base, entry, segs, next, end);
      return Err(BadLayout), at;
    }
    KeptGrows(g, mem1, sh1, next1, phys.mem, phys.sh, phys.next, frames, image, info);
    GrowsOnly(mem1, sh1, next1, phys.mem, phys.sh, phys.next, root.value);
    KeptEnd(g, phys.mem, phys.sh, phys.next, frames, image, info);
    var done;
    done, at := MapRest(phys, root.value, frames, image, info, base, segs, next1);
    if done.Err? {
      RestFails(g, len, base, entry, segs, next, end, done.error);
      return Err(Mmu(done.error)), at;
    }
    KeptEnd(g, phys.mem, phys.sh, phys.next, frames, image, info);
    ApartAnywhere(g, base, segs, at);
    NothingFails(g, len, base, entry, segs, next, end);
    RootAsSeen(g, phys.mem, phys.sh, root.value, base, len, entry, segs, at);
    r := Ok(root.value);
  }

  /** Where the window must reach: the image, the stack, a root table and every other table that the pages take. */
  function SpawnNeeds(g: Granule, next: nat, len: nat, segs: seq<LoadSeg>): nat {
    next + len + Size(g) + USER_STACK_SIZE + TableBytes(g, RootTables(g, next + len, segs))
  }

  /** What it takes to spawn the root task. */
  ghost predicate SpawnFits(g: Granule, len: nat, base: nat, entry: nat, segs: seq<LoadSeg>, next: nat, end: nat) {
    && RootLayoutOk(g, len, base, entry, segs) && PagesApart(g, base, segs) && InSpace(g, segs)
    && SpawnNeeds(g, next, len, segs) <= end
  }

  lemma NotInSpace(g: Granule, segs: seq<LoadSeg>)
    ensures forall e :: OutOfSpace(g, segs, e) ==> !InSpace(g, segs)
  {
    hide PagesOf;
  }

  /**
    Why the root task is not spawned: its layout is refused, two of its ranges share a page, a segment lies
    outside the user address space, or the window is too short.
  */
  ghost predicate SpawnCause(g: Granule, len: nat, base: nat, entry: nat, segs: seq<LoadSeg>, next: nat, end: nat,
                             e: SpawnError) {
    match e
    case BadLayout => !RootLayoutOk(g, len, base, entry, segs)
    case Mmu(e) =>
      if e == Overlap then !PagesApart(g, base, segs)
      else if e == OutOfFrames then SpawnNeeds(g, next, len, segs) > end
      else OutOfSpace(g, segs, e)
  }

  lemma HeadFails(g: Granule, len: nat, base: nat, entry: nat, segs: seq<LoadSeg>, next: nat, end: nat)
    requires !HeadOk(g, len, base, segs)
    ensures SpawnCause(g, len, base, entry, segs, next, end, BadLayout)
    ensures !SpawnFits(g, len, base, entry, segs, next, end) && !RootLayoutOk(g, len, base, entry, segs)
  {
    hide Size, PagesApart, InSpace;
  }

  lemma EntryFails(g: Granule, len: nat, base: nat, entry: nat, segs: seq<LoadSeg>, next: nat, end: nat)
    requires !(base <= entry < base + len)
    ensures SpawnCause(g, len, base, entry, segs, next, end, BadLayout)
    ensures !SpawnFits(g, len, base, entry, segs, next, end) && !RootLayoutOk(g, len, base, entry, segs)
  {
    hide Size, PagesApart, InSpace;
  }

  lemma LoadFails(g: Granule, len: nat, base: nat, entry: nat, segs: seq<LoadSeg>, next: nat, end: nat)
    requires next + len + Size(g) > end
    ensures SpawnCause(g, len, base, entry, segs, next, end, Mmu(OutOfFrames))
    ensures !SpawnFits(g, len, base, entry, segs, next, end)
  {
    hide Size, PagesApart, InSpace, RootLayoutOk, TableBytes;
  }

  lemma ImageFails(g: Granule, len: nat, base: nat, entry: nat, segs: seq<LoadSeg>, next: nat, end: nat, e: SpawnError)
    requires e == BadLayout ==> !SegsOk(g, base, base + len, entry, segs)
    requires e == Mmu(Overlap) ==> !ImageApart(g, base, next, segs)
    requires e == Mmu(OutOfFrames) ==>
               next + len + Size(g) + TableBytes(g, ImageTables(g, next + len, segs)) > end
    requires e.Mmu? && e.e != Overlap && e.e != OutOfFrames ==> OutOfSpace(g, segs, e.e)
    ensures SpawnCause(g, len, base, entry, segs, next, end, e) && !SpawnFits(g, len, base, entry, segs, next, end)
    ensures e == BadLayout ==> !RootLayoutOk(g, len, base, entry, segs)
  {
    hide Size, PagesApart, InSpace, SegsOk, TableBytes, ImageTables, RootTables, OutOfSpace, ImageApart;
    ImageWithin(g, next + len, segs);
    ClashStays(g, base, next, segs);
    NotInSpace(g, segs);
  }

  lemma RestFails(g: Granule, len: nat, base: nat, entry: nat, segs: seq<LoadSeg>, next: nat, end: nat, e: MmuError)
    requires e == Overlap || e == OutOfFrames
    requires e == Overlap ==> !PagesApart(g, base, segs)
    requires e == OutOfFrames ==>
               next + len + Size(g) + USER_STACK_SIZE + TableBytes(g, RootTables(g, next + len, segs)) > end
    ensures SpawnCause(g, len, base, entry, segs, next, end, Mmu(e)) && !SpawnFits(g, len, base, entry, segs, next, end)
  {
    hide Size, PagesApart, InSpace, RootLayoutOk, TableBytes, RootTables;
  }

  lemma NothingFails(g: Granule, len: nat, base: nat, entry: nat, segs: seq<LoadSeg>, next: nat, end: nat)
    requires HeadOk(g, len, base, segs) && SegsOk(g, base, base + len, entry, segs) && base <= entry < base + len
    requires PagesApart(g, base, segs) && InSpace(g, segs)
    requires next + len + Size(g) + USER_STACK_SIZE + TableBytes(g, RootTables(g, next + len, segs)) <= end
    ensures SpawnFits(g, len, base, entry, segs, next, end) && RootLayoutOk(g, len, base, entry, segs)
  {
    hide Size, PagesApart, InSpace, SegsOk, TableBytes, RootTables;
  }

  lemma ImageWithin(g: Granule, root: nat, segs: seq<LoadSeg>)
    ensures TableBytes(g, ImageTables(g, root, segs)) <= TableBytes(g, RootTables(g, root, segs))
  {
    hide ImageTables, RangeKeys;
    FewerTables(g, ImageTables(g, root, segs), RootTables(g, root, segs));
  }

  lemma ClashStays(g: Granule, base: nat, frames: nat, segs: seq<LoadSeg>)
    ensures !ImageApart(g, base, frames, segs) ==> !PagesApart(g, base, segs)
  {
    hide ImagePages, ImageApart, StackPages, InfoPages;
    ImageKeys(g, base, frames, 0, segs);
  }

  lemma NoBlock(g: Granule, mem: Mem, sh: Shape)
    ensures Block(g, mem, sh, 0, 0)
  {
  }

  lemma OneFrame(g: Granule, info: nat)
    requires IsFrame(g, info)
    ensures info + 1 * Size(g) <= TWO_48
  {
  }

  ghost predicate OnlyRoot(sh: Shape, root: nat) {
    forall r :: IsRoot(sh, r) <==> r == root
  }

  lemma GrowsOnly(mem0: Mem, sh0: Shape, next0: nat, mem: Mem, sh: Shape, next: nat, root: nat)
    requires Grows(mem0, sh0, next0, mem, sh, next) && OnlyRoot(sh0, root)
    ensures OnlyRoot(sh, root) && IsRoot(sh, root)
  {
    hide IsRoot;
  }

  /** The image in fresh frames. */
  method CopyIn(phys: Phys, image: seq<Table>, len: nat, info: nat) returns (r: Outcome, frames: nat)
    requires phys.Booting() && phys.sh == Shape(map[], map[]) && info in phys.mem
    requires len == |image| * Size(phys.g) && len > 0
    modifies phys
    ensures phys.Booting() && phys.sh == old(phys.sh) && phys.next >= old(phys.next) && frames == old(phys.next)
    ensures r.Ok? ==> frames % Size(phys.g) == 0 && phys.next == frames + len && info in phys.mem
    ensures r.Ok? ==> Block(phys.g, phys.mem, phys.sh, frames, frames + |image| * Size(phys.g))
    ensures r.Ok? ==> ImageLoaded(phys.g, phys.mem, frames, image)
    ensures r.Err? ==> r.error == OutOfFrames && old(phys.next) + len > phys.end
  {
    hide Forest, Size, Block, ClearRange, ImageLoaded;
    var g := phys.g;
    frames := phys.next;
    Quotient(g, |image|, len);
    var n: nat := len / Size(g);
    var got := phys.AllocContig(n);
    if got.Err? {
      return Err(got.error), frames;
    }
    BlockAllocated(g, old(phys.mem), phys.sh, frames, |image|);
    StillThere(g, old(phys.mem), phys.sh, frames, |image|, info);
    CopyImage(phys, frames, image);
    r := Ok(());
  }

  /** The image in fresh frames, and an empty address space. */
  method LoadImage(phys: Phys, image: seq<Table>, len: nat, info: nat) returns (r: Result<nat, MmuError>, frames: nat)
    requires phys.Booting() && phys.sh == Shape(map[], map[])
    requires info in phys.mem && IsFrame(phys.g, info) && info + Size(phys.g) <= phys.next
    requires len == |image| * Size(phys.g) && len > 0
    modifies phys
    ensures phys.Booting() && phys.next >= old(phys.next)
    ensures r.Ok? ==> frames == old(phys.next) && frames % Size(phys.g) == 0 && frames + len <= TWO_48
    ensures r.Ok? ==>
              IsRoot(phys.sh, r.value) && OnlyRoot(phys.sh, r.value) && Translates(phys.g, phys.mem, r.value, map[])
    ensures r.Ok? ==> Kept(phys.g, phys.mem, phys.sh, phys.next, frames, image, info)
    ensures r.Ok? ==> r.value == frames + len && Funded(phys.g, phys.mem, phys.sh, phys.next, phys.next, {})
    ensures r.Ok? ==> phys.next == frames + len + Size(phys.g)
    ensures r.Err? ==> r.error == OutOfFrames && old(phys.next) + len + Size(phys.g) > phys.end
  {
    hide Forest, Walk, Size, Block, ClearRange, IsFrame, Translates, OnlyRoot, ImageLoaded, Kept, SameTranslations,
         Funded;
    var g := phys.g;
    AtLeastOne(g, 1);
    var copied;
    copied, frames := CopyIn(phys, image, len, info);
    if copied.Err? {
      return Err(copied.error), frames;
    }
    ghost var mem1 := phys.mem;
    r := phys.NewSpace();
    if r.Ok? {
      EmptySpace(g, phys.mem, phys.sh, r.value);
      NothingFunded(g, phys.mem, phys.sh, r.value, phys.next);
      LoadKept(g, mem1, phys.mem, phys.sh, phys.next, frames, image, info, r.value);
    }
  }

  lemma StillThere(g: Granule, mem: Mem, sh: Shape, base: nat, n: nat, a: nat)
    requires Forest(g, mem, sh) && AllBelow(mem, base) && a in mem
    ensures a in ClearRange(g, mem, base, n)
  {
    ClearRangeOk(g, mem, sh, base, n);
  }

  lemma EmptySpace(g: Granule, mem: Mem, sh: Shape, root: nat)
    requires sh == Shape(map[root := 0], map[]) && forall va :: Walk(g, mem, root, va) == 0
    ensures Translates(g, mem, root, map[]) && OnlyRoot(sh, root) && IsRoot(sh, root)
  {
    hide Walk;
  }

  lemma NothingFunded(g: Granule, mem: Mem, sh: Shape, root: nat, next: nat)
    requires Forest(g, mem, sh) && sh == Shape(map[root := 0], map[])
    ensures Funded(g, mem, sh, next, next, {})
  {
    hide Forest, TableAt, Trail;
    forall r: nat, v: nat, k: nat | 1 <= k <= 3 && IsRoot(sh, r)
      ensures TableAt(g, mem, r, v, k).None?
    {
      LevelOf(g, mem, sh, r, v, k);
    }
  }

  lemma LoadKept(g: Granule, mem1: Mem, mem: Mem, sh: Shape, next: nat, frames: nat, image: seq<Table>, info: nat,
                 root: nat)
    requires frames % Size(g) == 0 && info + Size(g) <= frames && IsFrame(g, info) && info in mem1
    requires root == frames + |image| * Size(g) < next && sh == Shape(map[root := 0], map[])
    requires Block(g, mem1, Shape(map[], map[]), frames, frames + |image| * Size(g))
    requires ImageLoaded(g, mem1, frames, image)
    requires mem1.Keys <= mem.Keys && forall a :: a in mem1 ==> mem[a] == mem1[a]
    ensures Kept(g, mem, sh, next, frames, image, info)
  {
    hide Size, IsFrame, ImageLoaded;
    NotNegative(g, |image|);
    InfoBlock(g, mem, sh, info);
    LoadedStays(g, mem1, mem, frames, image);
  }

  lemma NotNegative(g: Granule, n: nat)
    ensures n * Size(g) >= 0
  {
  }

  lemma LoadedStays(g: Granule, mem1: Mem, mem: Mem, frames: nat, image: seq<Table>)
    requires ImageLoaded(g, mem1, frames, image) && mem1.Keys <= mem.Keys && forall a :: a in mem1 ==> mem[a] == mem1[a]
    ensures ImageLoaded(g, mem, frames, image)
  {
    hide Size;
    forall i | 0 <= i < |image|
      ensures frames + i * Size(g) in mem && mem[frames + i * Size(g)] == image[i]
    {
      assert frames + i * Size(g) in mem1;
    }
  }

  lemma InfoBlock(g: Granule, mem: Mem, sh: Shape, info: nat)
    requires IsFrame(g, info) && info in mem && info !in sh.level
    ensures Block(g, mem, sh, info, info + Size(g))
  {
  }

  /** Frames that later steps may not turn into tables, so far: the image, the boot information and [lo, hi). */
  ghost predicate Mapped(g: Granule, mem: Mem, sh: Shape, next: nat, root: nat, frames: nat, image: seq<Table>,
                         info: nat, lo: nat, hi: nat, pages: Pages) {
    && OnlyRoot(sh, root) && IsRoot(sh, root)
    && Kept(g, mem, sh, next, frames, image, info)
    && hi <= next && Block(g, mem, sh, lo, hi)
    && Translates(g, mem, root, pages)
    && forall p :: p in pages ==> IsFrame(g, pages[p].0)
  }

  /** A good range is refused exactly when one of its pages is taken, or the window is used up. */
  ghost predicate RangeVerdict(g: Granule, pages: Pages, va: nat, pa: nat, n: nat, perm: UserPerm, r: Outcome) {
    var apart := pages.Keys !! RangePages(g, va, pa, n, perm).Keys;
    && (r.Ok? ==> apart)
    && (r == Err(Overlap) ==> !apart)
    && (RangeArgs(g, va, pa, n * Size(g)).Ok? && r.Err? ==> r.error == Overlap || r.error == OutOfFrames)
  }

  /** One more linear range of pages. */
  method AddRange(phys: Phys, root: nat, va: nat, pa: nat, n: nat, perm: UserPerm,
                  ghost frames: nat, ghost image: seq<Table>, ghost info: nat, ghost lo: nat, ghost hi: nat,
                  ghost pages: Pages)
    returns (r: Outcome)
    requires phys.Booting() && Mapped(phys.g, phys.mem, phys.sh, phys.next, root, frames, image, info, lo, hi, pages)
    requires pa + n * Size(phys.g) <= TWO_48
    modifies phys
    ensures phys.Booting() && phys.next >= old(phys.next)
    ensures r.Ok? ==>
              Mapped(phys.g, phys.mem, phys.sh, phys.next, root, frames, image, info, lo, hi,
                     pages + RangePages(phys.g, va, pa, n, perm))
    ensures RangeVerdict(phys.g, pages, va, pa, n, perm, r)
    ensures forall made: Keys, spent: nat ::
              Funded(phys.g, old(phys.mem), old(phys.sh), old(phys.next), spent, made) ==>
              RangePaid(phys.g, phys.mem, phys.sh, phys.next, phys.end, spent, made, root, va, n, r)
  {
    hide Forest, Walk, MapsRange, Page, Size, Grows, RangePages, RangeArgs, Translates, Kept, OnlyRoot, IsRoot, Block,
         UserAttrs, IsFrame, Funded, RangePaid;
    var g := phys.g;
    ghost var mem0, sh0, next0 := phys.mem, phys.sh, phys.next;
    Quotient(g, n, n * Size(g));
    r := phys.BuildRange(root, va, pa, n * Size(g), perm);
    KeptGrows(g, mem0, sh0, next0, phys.mem, phys.sh, phys.next, frames, image, info);
    GrowsOnly(mem0, sh0, next0, phys.mem, phys.sh, phys.next, root);
    GrowsNext(mem0, sh0, next0, phys.mem, phys.sh, phys.next);
    BlockGrows(g, mem0, sh0, next0, phys.mem, phys.sh, phys.next, lo, hi);
    if r == Err(Overlap) {
      RangeOverlaps(g, mem0, root, pages, va, pa, n, perm);
    }
    if r.Ok? {
      RangeLow(g, va, pa, n * Size(g));
      TranslatesRange(g, mem0, phys.mem, phys.sh, root, pages, va, pa, n, perm);
      RangeIsNew(g, mem0, root, pages, va, pa, n, perm);
      RangeFrames(g, va, pa, n, perm);
    }
  }

  lemma GrowsNext(mem0: Mem, sh0: Shape, next0: nat, mem: Mem, sh: Shape, next: nat)
    requires Grows(mem0, sh0, next0, mem, sh, next)
    ensures next0 <= next
  {
  }

  lemma RangeFrames(g: Granule, va: nat, pa: nat, n: nat, perm: UserPerm)
    requires RangeArgs(g, va, pa, n * Size(g)).Ok? && pa + n * Size(g) <= TWO_48
    ensures var more := RangePages(g, va, pa, n, perm);
            forall p :: p in more ==> IsFrame(g, more[p].0) && pa <= more[p].0 < pa + n * Size(g)
  {
    hide Page, IsFrame;
    var more := RangePages(g, va, pa, n, perm);
    forall p | p in more
      ensures IsFrame(g, more[p].0) && pa <= more[p].0 < pa + n * Size(g)
    {
      var k: nat := p - Page(g, va);
      StepsBelow(g, k + 1, n);
      StillAligned(g, pa, k);
      FrameIs(g, more[p].0);
    }
  }

  lemma FrameIs(g: Granule, a: nat)
    requires a % Size(g) == 0 && a < TWO_48
    ensures IsFrame(g, a)
  {
  }

  /** The stack: fresh frames, mapped read-write below its top. */
  method MapStack(phys: Phys, root: nat, ghost frames: nat, ghost image: seq<Table>, ghost info: nat,
                  ghost pages: Pages)
    returns (r: Outcome, ghost stack: nat)
    requires phys.Booting() && Mapped(phys.g, phys.mem, phys.sh, phys.next, root, frames, image, info, 0, 0, pages)
    modifies phys
    ensures phys.Booting() && phys.next >= old(phys.next)
    ensures r.Ok? ==> stack == old(phys.next) && stack % Size(phys.g) == 0 && stack + USER_STACK_SIZE <= phys.end
    ensures r.Ok? ==>
              Mapped(phys.g, phys.mem, phys.sh, phys.next, root, frames, image, info, stack, stack + USER_STACK_SIZE,
                             pages + StackPages(phys.g, stack))
    ensures r.Ok? ==> pages.Keys !! StackPages(phys.g, stack).Keys
    ensures r == Err(Overlap) ==> !(pages.Keys !! StackPages(phys.g, old(phys.next)).Keys)
    ensures r.Err? ==> r.error == Overlap || r.error == OutOfFrames
    ensures forall made: Keys, spent: nat ::
              Funded(phys.g, old(phys.mem), old(phys.sh), old(phys.next), spent, made) ==>
              RangePaid(phys.g, phys.mem, phys.sh, phys.next, phys.end, spent + USER_STACK_SIZE, made, root,
                        USER_STACK_TOP - USER_STACK_SIZE, USER_STACK_SIZE / Size(phys.g), r)
  {
    hide Forest, Walk, Size, Grows, RangePages, Translates, Kept, OnlyRoot, IsRoot, Block, IsFrame, ClearRange,
         RangeArgs, Funded, RangePaid;
    var g := phys.g;
    stack := phys.next;
    StackFrames(g);
    StackArgs(g, phys.next);
    ghost var mem0, sh0, next0 := phys.mem, phys.sh, phys.next;
    var got := phys.AllocContig(USER_STACK_SIZE / Size(g));
    if got.Err? {
      NoStack(g, phys.mem, phys.sh, phys.next, phys.end, root);
      return Err(got.error), stack;
    }
    FundedAlloc(g, mem0, sh0, next0, USER_STACK_SIZE / Size(g));
    AllocGrows(g, mem0, sh0, next0, USER_STACK_SIZE / Size(g), root, pages);
    KeptGrows(g, mem0, sh0, next0, phys.mem, phys.sh, phys.next, frames, image, info);
    r := AddRange(phys, root, USER_STACK_TOP - USER_STACK_SIZE, got.value, USER_STACK_SIZE / Size(g), RwUser,
                  frames, image, info, stack, stack + USER_STACK_SIZE, pages);
  }

  /** Reserving frames makes no tables. */
  lemma FundedAlloc(g: Granule, mem: Mem, sh: Shape, next: nat, n: nat)
    requires Forest(g, mem, sh) && AllBelow(mem, next)
    ensures forall made: Keys, spent: nat :: Funded(g, mem, sh, next, spent, made) ==>
              Funded(g, ClearRange(g, mem, next, n), sh, next + n * Size(g), spent + n * Size(g), made)
  {
    hide Forest, TableAt, Trail, ClearRange, Size;
    forall r: nat, v: nat, k: nat | 1 <= k <= 3 && IsRoot(sh, r)
      ensures TableAt(g, ClearRange(g, mem, next, n), r, v, k) == TableAt(g, mem, r, v, k)
    {
      ClearedTables(g, mem, sh, next, n, r, v, k);
    }
  }

  lemma {:induction false} ClearedTables(g: Granule, mem: Mem, sh: Shape, base: nat, n: nat, r: nat, v: nat, k: nat)
    requires Forest(g, mem, sh) && AllBelow(mem, base) && IsRoot(sh, r) && k <= 3
    ensures TableAt(g, ClearRange(g, mem, base, n), r, v, k) == TableAt(g, mem, r, v, k)
  {
    hide Forest, TableAt, IsRoot, Size, ClearRow;
    if n > 0 {
      ClearedTables(g, mem, sh, base, n - 1, r, v, k);
      var mid, a := ClearRange(g, mem, base, n - 1), base + (n - 1) * Size(g);
      ClearRangeOk(g, mem, sh, base, n - 1);
      NotATable(g, mid, sh, a);
      OtherGranuleTables(g, mid, sh, a, ClearRow(g), r, v, k);
    }
  }

  lemma NoStack(g: Granule, mem: Mem, sh: Shape, next: nat, end: nat, root: nat)
    requires next + USER_STACK_SIZE > end
    ensures forall made: Keys, spent: nat :: Funded(g, mem, sh, next, spent, made) ==>
              RangePaid(g, mem, sh, next, end, spent + USER_STACK_SIZE, made, root,
                        USER_STACK_TOP - USER_STACK_SIZE, USER_STACK_SIZE / Size(g), Err(OutOfFrames))
  {
    hide Tally, RangeKeys;
    var va, n := USER_STACK_TOP - USER_STACK_SIZE, USER_STACK_SIZE / Size(g);
    forall made: Keys, spent: nat | Funded(g, mem, sh, next, spent, made)
      ensures spent + USER_STACK_SIZE + |made + RangeKeys(g, root, va, n)| * Size(g) > end
    {
      FewerTables(g, made, made + RangeKeys(g, root, va, n));
    }
  }

  lemma StackFrames(g: Granule)
    ensures USER_STACK_SIZE / Size(g) * Size(g) == USER_STACK_SIZE
  {
  }

  lemma SpawnOwned(g: Granule, mem: Mem, sh: Shape, next: nat, root: nat, base: nat, image: seq<Table>,
                   segs: seq<LoadSeg>, at: Loaded)
    requires Forest(g, mem, sh) && next <= TWO_48 && base % Size(g) == 0
    requires Mapped(g, mem, sh, next, root, at.frames, image, at.info, at.stack, at.stack + USER_STACK_SIZE,
                    RootPages(g, base, segs, at))
    requires ImageTargets(g, base, at.frames, |image| * Size(g), ImagePages(g, base, at.frames, segs))
    requires at.frames + |image| * Size(g) <= at.stack && at.stack % Size(g) == 0
    ensures Owned(g, mem, sh, root, RootPages(g, base, segs, at))
  {
    hide Forest, Translates, Size, RootPages, ImagePages, IsFrame, OneToOne, Block, ImageLoaded, ImageTargets;
    SpawnOneToOne(g, base, |image| * Size(g), segs, at);
    SpawnTargets(g, mem, sh, base, |image| * Size(g), segs, at);
  }

  lemma SpawnOneToOne(g: Granule, base: nat, len: nat, segs: seq<LoadSeg>, at: Loaded)
    requires ImageTargets(g, base, at.frames, len, ImagePages(g, base, at.frames, segs))
    requires at.info + Size(g) <= at.frames && at.frames + len <= at.stack
    ensures OneToOne(RootPages(g, base, segs, at))
  {
    hide Size, RangePages, ImagePages, ImageTargets, OneToOne, StackPages, InfoPages;
    var pages, stacked := ImagePages(g, base, at.frames, segs), StackPages(g, at.stack);
    ImageOneToOne(g, base, at.frames, len, pages);
    StackFrames(g);
    StackTargets(g, at.stack);
    JoinStack(g, pages, at.frames, at.stack);
    JoinInfo(g, pages + stacked, at.info);
  }

  lemma JoinStack(g: Granule, pages: Pages, frames: nat, stack: nat)
    requires OneToOne(pages) && forall p :: p in pages ==> frames <= pages[p].0 < stack
    ensures OneToOne(pages + StackPages(g, stack))
  {
    hide OneToOne, RangePages;
    OneToOneRange(g, pages, USER_STACK_TOP - USER_STACK_SIZE, stack, USER_STACK_SIZE / Size(g), RwUser);
  }

  lemma JoinInfo(g: Granule, pages: Pages, info: nat)
    requires OneToOne(pages) && forall p :: p in pages ==> info + Size(g) <= pages[p].0
    ensures OneToOne(pages + InfoPages(g, info))
  {
    hide OneToOne, RangePages;
    OneToOneRange(g, pages, BOOTINFO_VA, info, 1, RoUser);
  }

  lemma SpawnTargets(g: Granule, mem: Mem, sh: Shape, base: nat, len: nat, segs: seq<LoadSeg>, at: Loaded)
    requires ImageTargets(g, base, at.frames, len, ImagePages(g, base, at.frames, segs))
    requires Block(g, mem, sh, at.frames, at.frames + len) && Block(g, mem, sh, at.stack, at.stack + USER_STACK_SIZE)
    requires Block(g, mem, sh, at.info, at.info + Size(g))
    requires forall p :: p in RootPages(g, base, segs, at) ==> IsFrame(g, RootPages(g, base, segs, at)[p].0)
    ensures TargetsOk(g, mem, sh, RootPages(g, base, segs, at))
  {
    ImageOneToOne(g, base, at.frames, len, ImagePages(g, base, at.frames, segs));
    StackTargets(g, at.stack);
    InfoTargets(g, at.info);
    hide ImagePages, ImageTargets, OneToOne, StackPages, InfoPages, Size, IsFrame;
    var pages := RootPages(g, base, segs, at);
    forall p | p in pages
      ensures pages[p].0 in mem && pages[p].0 !in sh.level
    {
      FrameAlignedTo(g, pages[p].0);
    }
  }

  lemma FrameAlignedTo(g: Granule, a: nat)
    requires IsFrame(g, a)
    ensures a % Size(g) == 0
  {
  }

  lemma StackTargets(g: Granule, stack: nat)
    ensures var more := StackPages(g, stack);
            forall p :: p in more ==> stack <= more[p].0 < stack + USER_STACK_SIZE
  {
    hide Page;
    StackFrames(g);
    forall p | p in StackPages(g, stack)
      ensures stack <= StackPages(g, stack)[p].0 < stack + USER_STACK_SIZE
    {
      StepsBelow(g, p - Page(g, USER_STACK_TOP - USER_STACK_SIZE) + 1, USER_STACK_SIZE / Size(g));
    }
  }

  lemma InfoTargets(g: Granule, info: nat)
    ensures var more := InfoPages(g, info);
            forall p :: p in more ==> more[p].0 == info
  {
  }
}
