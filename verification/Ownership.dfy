/** Who owns which frame, over every run: the joint invariant of tasks, capabilities and user tables. */
module Ownership {
  import opened Abi
  import opened Descriptors
  import opened Tables
  import opened UserSpace
  import opened UserMemory
  import opened UserPages
  import opened Tasks
  import opened IpcSpaces
  import opened Caps
  import opened Retype
  import opened Syscalls

  // ---------------------------------------------------------------- the invariant

  /** The granule at `a` lies in the boot frame window. */
  predicate InWindow(b: Boot, a: nat) {
    b.window.base <= a && a + Size(b.g) <= b.window.End()
  }

  /** What boot must have arranged: reservations, tables in the image, the window behind it, 48-bit memory. */
  ghost predicate BootOk(b: Boot) {
    && b.kernel in b.reserved && b.window in b.reserved && b.kernel.End() <= b.window.base
    && b.rootTcb >= KERNEL_VA_OFFSET && b.kernel.Has(b.rootTcb - KERNEL_VA_OFFSET)
    && b.kernel.base <= b.pool.base && b.pool.End() <= b.kernel.End()
    && forall i :: 0 <= i < |b.memory| ==> b.memory[i].End() <= TWO_48
  }

  /** TCBs and endpoints are exactly the objects the capabilities name, and the root TCB. */
  ghost predicate TasksMatch(b: Boot, sys: Sys, caps: seq<Cap>) {
    && (forall t :: t in sys.state <==>
          t == b.rootTcb || (t >= KERNEL_VA_OFFSET && Cap.Tcb(t - KERNEL_VA_OFFSET) in caps))
    && (forall e :: e in sys.eps <==> e >= KERNEL_VA_OFFSET && Cap.Endpoint(e - KERNEL_VA_OFFSET) in caps)
  }

  ghost predicate OneAddrSpace(b: Boot, caps: seq<Cap>) {
    forall r :: AddrSpace(r) in caps ==> r == b.root
  }

  /** Every table and every page target is accounted for by the window or by a spent capability. */
  ghost predicate Accounted(b: Boot, caps: seq<Cap>, mem: Mem, sh: Shape, pages: Pages) {
    && (forall a :: a in sh.level ==> InWindow(b, a) || PageTable(a, true) in caps)
    && (forall p :: p in pages ==>
          InWindow(b, pages[p].0) || (Frame(pages[p].0, true) in caps && pages[p].1 != TextUser))
    && (forall a :: PageTable(a, false) in caps ==> FreshTable(b.g, mem, sh, a))
    && (forall a :: Frame(a, false) in caps ==> a in mem)
  }

  ghost predicate MemoryOk(b: Boot, caps: seq<Cap>, mem: Mem, sh: Shape, pages: Pages) {
    Owned(b.g, mem, sh, b.root, pages) && Accounted(b, caps, mem, sh, pages)
  }

  ghost predicate CNodeOk(b: Boot, caps: seq<Cap>) {
    CapsOk(b.g, b.memory, b.reserved, caps) && |caps| <= CNODE_SLOTS && OneAddrSpace(b, caps)
  }

  ghost predicate Sound(b: Boot, s: System, sh: Shape, pages: Pages) {
    && BootOk(b)
    && Safe(s.sys) && OneSpace(s.sys, b.root)
    && CNodeOk(b, s.caps)
    && TasksMatch(b, s.sys, s.caps)
    && MemoryOk(b, s.caps, s.mem, sh, pages)
    && !s.corrupt
  }

  // ---------------------------------------------------------------- objects

  lemma UniqueObj(b: Boot, caps: seq<Cap>, c: Cap, d: Cap)
    requires CNodeOk(b, caps) && c in caps && d in caps && IsObj(c) && ObjBase(c) == ObjBase(d)
    ensures c == d
  {
    hide UntypedsOk, Size;
    var i :| 0 <= i < |caps| && caps[i] == c;
    var j :| 0 <= j < |caps| && caps[j] == d;
  }

  /** An object's granule is whole, below 48 bits, and disjoint from everything reserved. */
  lemma ObjIsFree(b: Boot, caps: seq<Cap>, c: Cap)
    requires BootOk(b) && CNodeOk(b, caps) && c in caps && IsObj(c)
    ensures var a := ObjBase(c).value;
            && IsFrame(b.g, a) && !InWindow(b, a)
            && forall pa :: a <= pa < a + Size(b.g) ==> FreeRam(b.memory, b.reserved, pa)
  {
    var i :| 0 <= i < |caps| && caps[i] == c;
    var a := ObjBase(c).value;
    assert Aligned(b.g, a) && Carved(b.g, caps, c);
    var k :| 0 <= k < |caps| && CarvedFrom(b.g, caps[k], c);
    forall pa: nat | a <= pa < a + Size(b.g)
      ensures FreeRam(b.memory, b.reserved, pa)
    {
      assert Covers(caps[k], pa);
    }
    FreeIsFrame(b, a);
  }

  lemma FreeIsFrame(b: Boot, a: nat)
    requires BootOk(b) && Aligned(b.g, a) && forall pa :: a <= pa < a + Size(b.g) ==> FreeRam(b.memory, b.reserved, pa)
    ensures IsFrame(b.g, a) && !InWindow(b, a)
    ensures Alias(a) != b.rootTcb
  {
    assert FreeRam(b.memory, b.reserved, a);
    var i :| 0 <= i < |b.memory| && b.memory[i].Has(a);
    var w :| 0 <= w < |b.reserved| && b.reserved[w] == b.window;
    var k :| 0 <= k < |b.reserved| && b.reserved[k] == b.kernel;
    assert !b.reserved[w].Has(a) && !b.reserved[k].Has(a);
  }

  /** Only the mapped flag or the installed flag of one object changes. */
  lemma FlagKeepsCNode(b: Boot, caps: seq<Cap>, slot: nat, c: Cap)
    requires CNodeOk(b, caps) && slot < |caps| && IsObj(caps[slot]) && IsObj(c) && ObjBase(c) == ObjBase(caps[slot])
    ensures CNodeOk(b, caps[slot := c])
  {
    var caps' := caps[slot := c];
    forall i | 0 <= i < |caps'| && IsObj(caps'[i])
      ensures Aligned(b.g, ObjBase(caps'[i]).value) && Carved(b.g, caps', caps'[i])
    {
      assert Carved(b.g, caps, caps[i]);
      var j :| 0 <= j < |caps| && CarvedFrom(b.g, caps[j], caps[i]);
      assert CarvedFrom(b.g, caps'[j], caps'[i]);
    }
  }

  lemma ReplaceCap(b: Boot, caps: seq<Cap>, slot: nat, c: Cap)
    requires CNodeOk(b, caps) && slot < |caps| && IsObj(caps[slot]) && IsObj(c) && ObjBase(c) == ObjBase(caps[slot])
    ensures forall d :: d in caps[slot := c] <==> d == c || (d in caps && d != caps[slot])
  {
    hide CapsOk;
    var caps' := caps[slot := c];
    forall d
      ensures d in caps' <==> d == c || (d in caps && d != caps[slot])
    {
      assert caps'[slot] == c;
      if d in caps && d != caps[slot] {
        var i :| 0 <= i < |caps| && caps[i] == d;
        assert caps'[i] == d;
      }
      if d in caps' && d != c {
        var i :| 0 <= i < |caps'| && caps'[i] == d;
        assert caps[i] == d;
        if d == caps[slot] {
          SameSlot(b, caps, i, slot);
        }
      }
    }
  }

  lemma SameSlot(b: Boot, caps: seq<Cap>, i: nat, j: nat)
    requires CNodeOk(b, caps) && i < |caps| && j < |caps| && caps[i] == caps[j] && IsObj(caps[i])
    ensures i == j
  {
    hide UntypedsOk;
  }

  // ---------------------------------------------------------------- RETYPE

  lemma NotAccounted(b: Boot, caps: seq<Cap>, mem: Mem, sh: Shape, pages: Pages, a: nat)
    requires Accounted(b, caps, mem, sh, pages) && !InWindow(b, a)
    requires PageTable(a, true) !in caps && Frame(a, true) !in caps
    ensures a !in sh.level && forall p :: p in pages ==> pages[p].0 != a
  {
    hide FreshTable, InWindow;
  }

  lemma RetypeMemory(b: Boot, caps: seq<Cap>, mem: Mem, sh: Shape, pages: Pages, slot: nat, kind: ObjKind)
    requires BootOk(b) && CNodeOk(b, caps) && MemoryOk(b, caps, mem, sh, pages) && CarveAt(caps, slot, b.g).Ok?
    ensures var carve := CarveAt(caps, slot, b.g).value;
            MemoryOk(b, Commit(caps, slot, kind, carve, b.g), mem[carve := ClearRow(b.g)], sh, pages)
  {
    hide CarveAt, CapsOk, Owned, Accounted;
    var carve := CarveAt(caps, slot, b.g).value;
    CarveFresh(b, caps, slot, kind);
    NotAccounted(b, caps, mem, sh, pages, carve);
    OwnedOther(b.g, mem, sh, b.root, pages, carve, ClearRow(b.g));
    RetypeAccounted(b, caps, mem, sh, pages, slot, kind, carve);
  }

  /** The carved granule is new to everyone. */
  lemma CarveFresh(b: Boot, caps: seq<Cap>, slot: nat, kind: ObjKind)
    requires BootOk(b) && CNodeOk(b, caps) && CarveAt(caps, slot, b.g).Ok?
    ensures var carve := CarveAt(caps, slot, b.g).value;
            && IsFrame(b.g, carve) && !InWindow(b, carve) && Alias(carve) != b.rootTcb
            && (forall c :: c in caps && IsObj(c) ==> ObjBase(c) != Some(carve))
            && (forall f :: PageTable(carve, f) !in caps && Frame(carve, f) !in caps)
            && Cap.Tcb(carve) !in caps && Cap.Endpoint(carve) !in caps
            && CNodeOk(b, Commit(caps, slot, kind, carve, b.g))
  {
    RetypeKeepsCaps(b.g, b.memory, b.reserved, caps, slot, kind);
    hide CapsOk, Size;
    var carve := CarveAt(caps, slot, b.g).value;
    FreeIsFrame(b, carve);
    hide BootOk;
    forall c | c in caps && IsObj(c)
      ensures ObjBase(c) != Some(carve)
    {
      var i :| 0 <= i < |caps| && caps[i] == c;
    }
    forall f
      ensures PageTable(carve, f) !in caps && Frame(carve, f) !in caps
    {
      assert ObjBase(PageTable(carve, f)) == Some(carve) && ObjBase(Frame(carve, f)) == Some(carve);
    }
    assert ObjBase(Cap.Tcb(carve)) == Some(carve) && ObjBase(Cap.Endpoint(carve)) == Some(carve);
    CommitMembers(caps, slot, kind, carve, b.g);
  }

  /** Writing a granule that is no table and no target changes no translation. */
  lemma OwnedOther(g: Granule, mem: Mem, sh: Shape, root: nat, pages: Pages, a: nat, row: Table)
    requires Owned(g, mem, sh, root, pages) && a !in sh.level
    ensures Owned(g, mem[a := row], sh, root, pages)
  {
    hide Forest, Walk, OneToOne, Page;
    OtherGranule(g, mem, sh, a, row);
    assert IsRoot(sh, root);
    forall va
      ensures Walk(g, mem[a := row], root, va) == LeafOf(pages, Page(g, va))
    {
      assert Walk(g, mem, root, va) == LeafOf(pages, Page(g, va));
    }
  }

  /** After a retype the capabilities are the old ones, one with a new watermark, and the new object. */
  lemma CommitMembers(caps: seq<Cap>, slot: nat, kind: ObjKind, carve: nat, g: Granule)
    requires slot < |caps| && caps[slot].Untyped? && carve + Size(g) >= caps[slot].base
    ensures var caps' := Commit(caps, slot, kind, carve, g);
            forall c: Cap :: !c.Untyped? ==> (c in caps' <==> c in caps || c == NewCap(kind, carve))
  {
    hide Size;
    var caps' := Commit(caps, slot, kind, carve, g);
    forall c: Cap | !c.Untyped?
      ensures c in caps' <==> c in caps || c == NewCap(kind, carve)
    {
      assert caps'[|caps|] == NewCap(kind, carve);
      if c in caps {
        var i :| 0 <= i < |caps| && caps[i] == c;
        assert caps'[i] == c;
      }
      if c in caps' {
        var i :| 0 <= i < |caps'| && caps'[i] == c;
        assert i < |caps| && i != slot ==> caps[i] == c;
      }
    }
  }

  lemma RetypeAccounted(b: Boot, caps: seq<Cap>, mem: Mem, sh: Shape, pages: Pages, slot: nat, kind: ObjKind,
                        carve: nat)
    requires Accounted(b, caps, mem, sh, pages) && slot < |caps| && caps[slot].Untyped? && caps[slot].base <= carve
    requires IsFrame(b.g, carve) && carve !in sh.level
    requires forall f :: PageTable(carve, f) !in caps && Frame(carve, f) !in caps
    ensures Accounted(b, Commit(caps, slot, kind, carve, b.g), mem[carve := ClearRow(b.g)], sh, pages)
  {
    CommitMembers(caps, slot, kind, carve, b.g);
    hide Commit, InWindow, IsFrame, Size;
    var caps', mem' := Commit(caps, slot, kind, carve, b.g), mem[carve := ClearRow(b.g)];
    forall a | PageTable(a, false) in caps'
      ensures FreshTable(b.g, mem', sh, a)
    {
      if a != carve {
        assert PageTable(a, false) in caps;
      }
    }
    forall a | Frame(a, false) in caps'
      ensures a in mem'
    {
      if a != carve {
        assert Frame(a, false) in caps;
      }
    }
  }

  // ---------------------------------------------------------------- MAP of a frame

  lemma MapFrameMemory(b: Boot, caps: seq<Cap>, mem: Mem, sh: Shape, pages: Pages, slot: nat, base: nat, va: nat,
                       perm: UserPerm)
    requires BootOk(b) && CNodeOk(b, caps) && MemoryOk(b, caps, mem, sh, pages) && perm != TextUser
    requires slot < |caps| && caps[slot] == Frame(base, false) && MapFrame(b.g, mem, b.root, va, base, perm).Ok?
    ensures var mem' := MapFrame(b.g, mem, b.root, va, base, perm).value;
            && Page(b.g, va) !in pages
            && MemoryOk(b, caps[slot := Frame(base, true)], mem', sh, pages[Page(b.g, va) := (base, perm)])
            && CNodeOk(b, caps[slot := Frame(base, true)])
  {
    hide CapsOk, Owned, Accounted, MapFrame;
    FrameUnused(b, caps, mem, sh, pages, slot, base);
    OwnedFrame(b.g, mem, sh, b.root, pages, base, va, perm);
    FlagKeepsCNode(b, caps, slot, Frame(base, true));
    MapAccounted(b, caps, mem, sh, pages, slot, base, va, perm);
  }

  /** A frame whose mapped flag is clear is no table and nobody's target. */
  lemma FrameUnused(b: Boot, caps: seq<Cap>, mem: Mem, sh: Shape, pages: Pages, slot: nat, base: nat)
    requires BootOk(b) && CNodeOk(b, caps) && Accounted(b, caps, mem, sh, pages)
    requires slot < |caps| && caps[slot] == Frame(base, false)
    ensures IsFrame(b.g, base) && base in mem && base !in sh.level && forall p :: p in pages ==> pages[p].0 != base
  {
    hide CapsOk, CNodeOk, BootOk, FreshTable, InWindow, IsFrame;
    var c := caps[slot];
    assert c in caps;
    ObjIsFree(b, caps, c);
    assert ObjBase(PageTable(base, true)) == ObjBase(c) && ObjBase(Frame(base, true)) == ObjBase(c);
    if PageTable(base, true) in caps {
      UniqueObj(b, caps, c, PageTable(base, true));
    }
    if Frame(base, true) in caps {
      UniqueObj(b, caps, c, Frame(base, true));
    }
    NotAccounted(b, caps, mem, sh, pages, base);
  }

  lemma OwnedFrame(g: Granule, mem: Mem, sh: Shape, root: nat, pages: Pages, base: nat, va: nat, perm: UserPerm)
    requires Owned(g, mem, sh, root, pages) && MapFrame(g, mem, root, va, base, perm).Ok?
    requires IsFrame(g, base) && base in mem && base !in sh.level && forall p :: p in pages ==> pages[p].0 != base
    ensures var mem' := MapFrame(g, mem, root, va, base, perm).value;
            && mem'.Keys == mem.Keys && Page(g, va) !in pages
            && Owned(g, mem', sh, root, pages[Page(g, va) := (base, perm)])
  {
    hide Forest, Walk, Page, MapFrame, Leaf, UserAttrs;
    assert IsRoot(sh, root);
    MapFrameExact(g, mem, sh, root, va, base, perm);
    OwnedWalk(g, mem, sh, root, pages, va);
    var mem', pages' := MapFrame(g, mem, root, va, base, perm).value, pages[Page(g, va) := (base, perm)];
    forall v
      ensures Walk(g, mem', root, v) == LeafOf(pages', Page(g, v))
    {
      assert Walk(g, mem, root, v) == LeafOf(pages, Page(g, v));
    }
  }

  lemma MapAccounted(b: Boot, caps: seq<Cap>, mem: Mem, sh: Shape, pages: Pages, slot: nat, base: nat, va: nat,
                     perm: UserPerm)
    requires CNodeOk(b, caps) && Owned(b.g, mem, sh, b.root, pages) && Accounted(b, caps, mem, sh, pages)
    requires perm != TextUser
    requires slot < |caps| && caps[slot] == Frame(base, false) && MapFrame(b.g, mem, b.root, va, base, perm).Ok?
    ensures var mem' := MapFrame(b.g, mem, b.root, va, base, perm).value;
            Accounted(b, caps[slot := Frame(base, true)], mem', sh, pages[Page(b.g, va) := (base, perm)])
  {
    hide CNodeOk, Owned, MapFrame, Page, Accounted;
    ReplaceCap(b, caps, slot, Frame(base, true));
    MapWrites(b.g, mem, sh, b.root, pages, base, va, perm);
    Remapped(b, caps, caps[slot := Frame(base, true)], mem, MapFrame(b.g, mem, b.root, va, base, perm).value, sh, pages,
             Page(b.g, va), base, perm);
  }

  lemma StaysFresh(g: Granule, mem: Mem, mem': Mem, sh: Shape, sh': Shape, a: nat)
    requires FreshTable(g, mem, sh, a) && a in mem' && a !in sh'.level
    requires forall u :: u in mem && u in mem' && u !in sh.level ==> mem'[u] == mem[u]
    ensures FreshTable(g, mem', sh', a)
  {
  }

  lemma Remapped(b: Boot, caps: seq<Cap>, caps': seq<Cap>, mem: Mem, mem': Mem, sh: Shape, pages: Pages, page: nat,
                 base: nat, perm: UserPerm)
    requires Accounted(b, caps, mem, sh, pages) && perm != TextUser
    requires forall d :: d in caps' <==> d == Frame(base, true) || (d in caps && d != Frame(base, false))
    requires mem'.Keys == mem.Keys && forall a :: a in mem && a !in sh.level ==> mem'[a] == mem[a]
    ensures Accounted(b, caps', mem', sh, pages[page := (base, perm)])
  {
    hide InWindow;
    forall a | PageTable(a, false) in caps'
      ensures FreshTable(b.g, mem', sh, a)
    {
      assert PageTable(a, false) in caps;
      assert FreshTable(b.g, mem, sh, a);
      StaysFresh(b.g, mem, mem', sh, sh, a);
    }
    hide FreshTable;
  }

  /** Mapping writes only a table. */
  lemma MapWrites(g: Granule, mem: Mem, sh: Shape, root: nat, pages: Pages, base: nat, va: nat, perm: UserPerm)
    requires Owned(g, mem, sh, root, pages) && MapFrame(g, mem, root, va, base, perm).Ok?
    ensures var mem' := MapFrame(g, mem, root, va, base, perm).value;
            mem'.Keys == mem.Keys && forall a :: a in mem && a !in sh.level ==> mem'[a] == mem[a]
  {
    hide Forest, Translates, OneToOne, TargetsOk, Index, Leaf, UserAttrs;
    assert IsRoot(sh, root);
    FollowIs(g, mem, sh, root, va, 0);
    LevelOf(g, mem, sh, root, va, 3);
  }

  // ---------------------------------------------------------------- MAP of a page table

  lemma InstallMemory(b: Boot, caps: seq<Cap>, mem: Mem, sh: Shape, pages: Pages, slot: nat, base: nat, va: nat)
    requires BootOk(b) && CNodeOk(b, caps) && MemoryOk(b, caps, mem, sh, pages)
    requires slot < |caps| && caps[slot] == PageTable(base, false) && InstallTable(b.g, mem, b.root, va, base).Ok?
    ensures var mem' := InstallTable(b.g, mem, b.root, va, base).value;
            var sh' := InstalledShape(b.g, mem, sh, b.root, va, base);
            && MemoryOk(b, caps[slot := PageTable(base, true)], mem', sh', pages)
            && CNodeOk(b, caps[slot := PageTable(base, true)])
  {
    hide CapsOk, Owned, InstallTable, InstalledShape, FreshTable, InWindow;
    assert caps[slot] in caps;
    TableUnused(b, caps, mem, sh, pages, slot, base);
    OwnedInstall(b.g, mem, sh, b.root, pages, base, va);
    FlagKeepsCNode(b, caps, slot, PageTable(base, true));
    InstallAccounted(b, caps, mem, sh, pages, slot, base, va);
  }

  lemma TableUnused(b: Boot, caps: seq<Cap>, mem: Mem, sh: Shape, pages: Pages, slot: nat, base: nat)
    requires BootOk(b) && CNodeOk(b, caps) && Accounted(b, caps, mem, sh, pages)
    requires slot < |caps| && caps[slot] == PageTable(base, false)
    ensures FreshTable(b.g, mem, sh, base) && forall p :: p in pages ==> pages[p].0 != base
  {
    hide CapsOk, CNodeOk, BootOk, FreshTable, InWindow, IsFrame;
    var c := caps[slot];
    assert c in caps;
    ObjIsFree(b, caps, c);
    assert ObjBase(PageTable(base, true)) == ObjBase(c) && ObjBase(Frame(base, true)) == ObjBase(c);
    if PageTable(base, true) in caps {
      UniqueObj(b, caps, c, PageTable(base, true));
    }
    if Frame(base, true) in caps {
      UniqueObj(b, caps, c, Frame(base, true));
    }
    NotAccounted(b, caps, mem, sh, pages, base);
  }

  lemma OwnedInstall(g: Granule, mem: Mem, sh: Shape, root: nat, pages: Pages, base: nat, va: nat)
    requires Owned(g, mem, sh, root, pages) && InstallTable(g, mem, root, va, base).Ok?
    requires FreshTable(g, mem, sh, base) && forall p :: p in pages ==> pages[p].0 != base
    ensures var mem', sh' := InstallTable(g, mem, root, va, base).value, InstalledShape(g, mem, sh, root, va, base);
            && mem'.Keys == mem.Keys && (forall a :: a in sh'.level <==> a in sh.level || a == base)
            && (forall u :: u in mem && u !in sh.level ==> mem'[u] == mem[u])
            && Owned(g, mem', sh', root, pages)
  {
    hide Forest, Walk, Page, InstallTable, InstalledShape, FreshTable, OneToOne;
    assert IsRoot(sh, root);
    InstallExact(g, mem, sh, root, va, base);
    var mem', sh' := InstallTable(g, mem, root, va, base).value, InstalledShape(g, mem, sh, root, va, base);
    forall v
      ensures Walk(g, mem', root, v) == LeafOf(pages, Page(g, v))
    {
      assert Walk(g, mem, root, v) == LeafOf(pages, Page(g, v));
    }
    forall a
      ensures a in sh'.level <==> a in sh.level || a == base
    {
      assert a in sh'.level.Keys <==> a in sh.level.Keys + {base};
    }
  }

  lemma InstallAccounted(b: Boot, caps: seq<Cap>, mem: Mem, sh: Shape, pages: Pages, slot: nat, base: nat, va: nat)
    requires CNodeOk(b, caps) && Owned(b.g, mem, sh, b.root, pages) && Accounted(b, caps, mem, sh, pages)
    requires slot < |caps| && caps[slot] == PageTable(base, false) && InstallTable(b.g, mem, b.root, va, base).Ok?
    requires FreshTable(b.g, mem, sh, base) && forall p :: p in pages ==> pages[p].0 != base
    ensures var mem' := InstallTable(b.g, mem, b.root, va, base).value;
            var sh' := InstalledShape(b.g, mem, sh, b.root, va, base);
            Accounted(b, caps[slot := PageTable(base, true)], mem', sh', pages)
  {
    hide CNodeOk, Owned, InstallTable, InstalledShape, FreshTable, Accounted;
    ReplaceCap(b, caps, slot, PageTable(base, true));
    OwnedInstall(b.g, mem, sh, b.root, pages, base, va);
    Installed(b, caps, caps[slot := PageTable(base, true)], mem, InstallTable(b.g, mem, b.root, va, base).value,
              sh, InstalledShape(b.g, mem, sh, b.root, va, base), pages, base);
  }

  lemma Installed(b: Boot, caps: seq<Cap>, caps': seq<Cap>, mem: Mem, mem': Mem, sh: Shape, sh': Shape, pages: Pages,
                  base: nat)
    requires Accounted(b, caps, mem, sh, pages)
    requires forall d :: d in caps' <==> d == PageTable(base, true) || (d in caps && d != PageTable(base, false))
    requires mem'.Keys == mem.Keys && forall a :: a in mem && a !in sh.level ==> mem'[a] == mem[a]
    requires forall a :: a in sh'.level <==> a in sh.level || a == base
    ensures Accounted(b, caps', mem', sh', pages)
  {
    hide InWindow;
    forall a | PageTable(a, false) in caps'
      ensures FreshTable(b.g, mem', sh', a)
    {
      assert PageTable(a, false) in caps;
      assert FreshTable(b.g, mem, sh, a);
      StaysFresh(b.g, mem, mem', sh, sh', a);
    }
    hide FreshTable;
  }

  // ---------------------------------------------------------------- MAP as a whole

  /** Pages are only added, and never executable ones. */
  ghost predicate Extends(pages: Pages, pages': Pages) {
    && (forall p :: p in pages ==> p in pages' && pages'[p] == pages[p])
    && (forall p :: p in pages' && p !in pages ==> pages'[p].1 != TextUser)
  }

  ghost function MapShape(b: Boot, caps: seq<Cap>, mem: Mem, sh: Shape, slot: nat, va: nat, aspace: nat): Shape {
    match CapAt(caps, slot)
    case Some(PageTable(base, false)) =>
      if SpaceAt(caps, aspace).Ok? && InstallTable(b.g, mem, b.root, va, base).Ok?
      then InstalledShape(b.g, mem, sh, b.root, va, base) else sh
    case _ => sh
  }

  ghost function MapPages(b: Boot, caps: seq<Cap>, mem: Mem, pages: Pages, slot: nat, va: nat, perm: nat,
                          aspace: nat): Pages {
    match CapAt(caps, slot)
    case Some(Frame(base, false)) =>
      if SpaceAt(caps, aspace).Ok? && PermAt(perm).Some? && MapFrame(b.g, mem, b.root, va, base, PermAt(perm).value).Ok?
      then pages[Page(b.g, va) := (base, PermAt(perm).value)] else pages
    case _ => pages
  }

  lemma SpaceIsRoot(b: Boot, caps: seq<Cap>, aspace: nat)
    requires OneAddrSpace(b, caps) && SpaceAt(caps, aspace).Ok?
    ensures SpaceAt(caps, aspace).value == b.root
  {
    assert caps[aspace] in caps;
  }

  /** Ownership after MAP: no corrupt table was met, and no TCB or endpoint came or went. */
  ghost predicate MapsWell(b: Boot, caps: seq<Cap>, pages: Pages, m: Mapping, sh': Shape, pages': Pages) {
    && m.code.Some? && CNodeOk(b, m.caps) && MemoryOk(b, m.caps, m.mem, sh', pages') && Extends(pages, pages')
    && (forall a :: Cap.Tcb(a) in m.caps <==> Cap.Tcb(a) in caps)
    && (forall a :: Cap.Endpoint(a) in m.caps <==> Cap.Endpoint(a) in caps)
  }

  lemma MapKeepsFrame(b: Boot, caps: seq<Cap>, mem: Mem, sh: Shape, pages: Pages, slot: nat, va: nat, perm: nat,
                      aspace: nat, base: nat)
    requires BootOk(b) && CNodeOk(b, caps) && MemoryOk(b, caps, mem, sh, pages)
    requires SpaceAt(caps, aspace) == Ok(b.root) && CapAt(caps, slot) == Some(Frame(base, false))
    ensures MapsWell(b, caps, pages, DoMap(b.g, caps, mem, slot, va, perm, aspace), sh,
                     MapPages(b, caps, mem, pages, slot, va, perm, aspace))
  {
    hide BootOk, CNodeOk, MemoryOk, MapFrame, Page, SpaceAt;
    MapRoot(b, caps, mem, sh, pages);
    if PermAt(perm).Some? {
      MapFrameExact(b.g, mem, sh, b.root, va, base, PermAt(perm).value);
      if MapFrame(b.g, mem, b.root, va, base, PermAt(perm).value).Ok? {
        MapFrameMemory(b, caps, mem, sh, pages, slot, base, va, PermAt(perm).value);
        ReplaceCap(b, caps, slot, Frame(base, true));
      }
    }
  }

  lemma MapKeepsTable(b: Boot, caps: seq<Cap>, mem: Mem, sh: Shape, pages: Pages, slot: nat, va: nat, perm: nat,
                      aspace: nat, base: nat)
    requires BootOk(b) && CNodeOk(b, caps) && MemoryOk(b, caps, mem, sh, pages)
    requires SpaceAt(caps, aspace) == Ok(b.root) && CapAt(caps, slot) == Some(PageTable(base, false))
    ensures MapsWell(b, caps, pages, DoMap(b.g, caps, mem, slot, va, perm, aspace),
                     MapShape(b, caps, mem, sh, slot, va, aspace), pages)
  {
    hide BootOk, CNodeOk, MemoryOk, InstallTable, InstalledShape, SpaceAt;
    MapRoot(b, caps, mem, sh, pages);
    UninstalledFresh(b, caps, mem, sh, pages, slot, base);
    InstallExact(b.g, mem, sh, b.root, va, base);
    if InstallTable(b.g, mem, b.root, va, base).Ok? {
      InstallMemory(b, caps, mem, sh, pages, slot, base, va);
      ReplaceCap(b, caps, slot, PageTable(base, true));
    }
  }

  /** Whatever MAP is asked for, ownership is kept and no corrupt table is met. */
  lemma MapKeeps(b: Boot, caps: seq<Cap>, mem: Mem, sh: Shape, pages: Pages, slot: nat, va: nat, perm: nat, aspace: nat)
    requires BootOk(b) && CNodeOk(b, caps) && MemoryOk(b, caps, mem, sh, pages)
    ensures MapsWell(b, caps, pages, DoMap(b.g, caps, mem, slot, va, perm, aspace),
                     MapShape(b, caps, mem, sh, slot, va, aspace),
                     MapPages(b, caps, mem, pages, slot, va, perm, aspace))
  {
    hide BootOk, CNodeOk, MemoryOk, MapFrame, InstallTable, InstalledShape, Page, SpaceAt;
    if SpaceAt(caps, aspace).Ok? {
      MapRoot(b, caps, mem, sh, pages);
      SpaceIsRoot(b, caps, aspace);
      match CapAt(caps, slot)
      case Some(Frame(base, false)) => MapKeepsFrame(b, caps, mem, sh, pages, slot, va, perm, aspace, base);
      case Some(PageTable(base, false)) => MapKeepsTable(b, caps, mem, sh, pages, slot, va, perm, aspace, base);
      case _ =>
    }
  }

  lemma MapRoot(b: Boot, caps: seq<Cap>, mem: Mem, sh: Shape, pages: Pages)
    requires CNodeOk(b, caps) && MemoryOk(b, caps, mem, sh, pages)
    ensures Forest(b.g, mem, sh) && IsRoot(sh, b.root) && OneAddrSpace(b, caps)
  {
    hide Forest, CapsOk, Accounted, Translates;
  }

  lemma UninstalledFresh(b: Boot, caps: seq<Cap>, mem: Mem, sh: Shape, pages: Pages, slot: nat, base: nat)
    requires MemoryOk(b, caps, mem, sh, pages) && slot < |caps| && caps[slot] == PageTable(base, false)
    ensures FreshTable(b.g, mem, sh, base)
  {
    hide Owned, FreshTable;
    assert caps[slot] in caps;
  }

  // ---------------------------------------------------------------- user stores

  /** A store through a writable page hits a frame that is no table, so it changes no translation. */
  lemma StoreMemory(b: Boot, caps: seq<Cap>, mem: Mem, sh: Shape, pages: Pages, va: nat, i: nat, w: Word)
    requires BootOk(b) && CNodeOk(b, caps) && MemoryOk(b, caps, mem, sh, pages)
    requires UserWritable(Walk(b.g, mem, b.root, va))
    ensures MemoryOk(b, caps, PutEntry(mem, AddrOf(b.g, Walk(b.g, mem, b.root, va)), i, w), sh, pages)
  {
    hide BootOk, CNodeOk, Walk, AddrOf, UserWritable, Accounted;
    var a := AddrOf(b.g, Walk(b.g, mem, b.root, va));
    NotMapped();
    OwnedWalk(b.g, mem, sh, b.root, pages, va);
    WrittenIsTarget(b, mem, sh, pages, va);
    if a in mem && i < |mem[a]| {
      var row: Table := mem[a][i := w];
      hide Owned;
      OwnedOther(b.g, mem, sh, b.root, pages, a, row);
      StoreAccounted(b, caps, mem, sh, pages, a, row);
    }
  }

  lemma NotMapped()
    ensures !UserWritable(0)
  {
  }

  lemma WrittenIsTarget(b: Boot, mem: Mem, sh: Shape, pages: Pages, va: nat)
    requires Owned(b.g, mem, sh, b.root, pages) && Walk(b.g, mem, b.root, va) != 0
    ensures Page(b.g, va) in pages && AddrOf(b.g, Walk(b.g, mem, b.root, va)) == pages[Page(b.g, va)].0
    ensures pages[Page(b.g, va)].0 !in sh.level
  {
    hide Forest, Walk, AddrOf, Page, Translates;
    OwnedWalk(b.g, mem, sh, b.root, pages, va);
  }

  lemma StoreAccounted(b: Boot, caps: seq<Cap>, mem: Mem, sh: Shape, pages: Pages, a: nat, row: Table)
    requires BootOk(b) && CNodeOk(b, caps) && Accounted(b, caps, mem, sh, pages) && a in mem
    requires exists p :: p in pages && pages[p].0 == a
    ensures Accounted(b, caps, mem[a := row], sh, pages)
  {
    hide BootOk, CNodeOk, InWindow;
    forall t | PageTable(t, false) in caps
      ensures FreshTable(b.g, mem[a := row], sh, t)
    {
      var i :| 0 <= i < |caps| && caps[i] == PageTable(t, false);
      TableUnused(b, caps, mem, sh, pages, i, t);
    }
    hide FreshTable;
  }
}
