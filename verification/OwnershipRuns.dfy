/** The joint invariant holds over every run, and what that means for the hardware. */
module OwnershipRuns {
  import opened Abi
  import opened Descriptors
  import opened Tables
  import opened UserSpace
  import opened UserPages
  import opened Tasks
  import opened Ipc
  import opened IpcRuns
  import opened IpcSpaces
  import opened Caps
  import opened Retype
  import opened Syscalls
  import opened Ownership

  // ---------------------------------------------------------------- events are well formed

  lemma RetypeEnabled(b: Boot, s: System, slot: nat, kind: nat, ready: bool)
    requires BootOk(b) && CNodeOk(b, s.caps) && TasksMatch(b, s.sys, s.caps) && !s.sys.halted
    ensures Enabled(s.sys, RetypeEvent(b.g, s.caps, slot, kind, ready))
  {
    hide BootOk, CNodeOk, CarveAt;
    var plan := RetypePlan(b.g, s.caps, slot, kind, ready);
    if plan.Ok? {
      CarveFresh(b, s.caps, slot, plan.value.1);
    }
  }

  lemma TcbKnown(b: Boot, s: System, slot: nat)
    requires TasksMatch(b, s.sys, s.caps) && TcbAt(s.caps, slot).Ok?
    ensures TcbAt(s.caps, slot).value in s.sys.state
  {
    assert s.caps[slot] in s.caps;
  }

  lemma EndpointKnown(b: Boot, s: System, slot: nat)
    requires TasksMatch(b, s.sys, s.caps) && EndpointAt(s.caps, slot).Ok?
    ensures EndpointAt(s.caps, slot).value in s.sys.eps
  {
    assert s.caps[slot] in s.caps;
  }

  /** Every trap is an event the task rules allow; a task is only ever configured for the one address space. */
  lemma EventEnabled(b: Boot, s: System, e: Trap)
    requires BootOk(b) && CNodeOk(b, s.caps) && TasksMatch(b, s.sys, s.caps) && CanStep(b, s, e)
    ensures Enabled(s.sys, EventOf(b, s, e))
    ensures EventOf(b, s, e).Configure? ==> EventOf(b, s, e).root == b.root
  {
    hide BootOk, CNodeOk, TasksMatch, TcbAt, EndpointAt, SpaceAt, RetypeEvent, UserWritable, Walk, MapOf, BadEntry,
         BadStack;
    if e.Svc? {
      var c := CtxOf(s.sys, s.sys.current);
      RetypeEnabled(b, s, c.x0, c.x1, e.ready);
      RetypeNoConfigure(b.g, s.caps, c.x0, c.x1, e.ready);
      if TcbAt(s.caps, c.x0).Ok? {
        TcbKnown(b, s, c.x0);
      }
      if EndpointAt(s.caps, c.x0).Ok? {
        EndpointKnown(b, s, c.x0);
      }
      OneSpaceOf(b, s.caps);
      if SpaceAt(s.caps, c.mr.m1).Ok? {
        SpaceIsRoot(b, s.caps, c.mr.m1);
      }
    }
  }

  lemma OneSpaceOf(b: Boot, caps: seq<Cap>)
    requires CNodeOk(b, caps)
    ensures OneAddrSpace(b, caps)
  {
  }

  lemma RetypeNoConfigure(g: Granule, caps: seq<Cap>, slot: nat, kind: nat, ready: bool)
    ensures !RetypeEvent(g, caps, slot, kind, ready).Configure?
  {
    hide RetypePlan;
  }

  // ---------------------------------------------------------------- tasks and capabilities stay matched

  lemma RetypeTasks(b: Boot, s: System, slot: nat, kind: nat, ready: bool)
    requires BootOk(b) && CNodeOk(b, s.caps) && TasksMatch(b, s.sys, s.caps) && Safe(s.sys) && !s.sys.halted
    ensures var plan := RetypePlan(b.g, s.caps, slot, kind, ready);
            TasksMatch(b, Next(s.sys, RetypeEvent(b.g, s.caps, slot, kind, ready)),
                       if plan.Ok? then Commit(s.caps, slot, plan.value.1, plan.value.0, b.g) else s.caps)
  {
    hide BootOk, CNodeOk, CarveAt, Inv, Next, Commit, TasksMatch;
    var plan, ev := RetypePlan(b.g, s.caps, slot, kind, ready), RetypeEvent(b.g, s.caps, slot, kind, ready);
    RetypeEnabled(b, s, slot, kind, ready);
    NextObjects(s.sys, ev);
    if plan.Ok? {
      CommitMembers(s.caps, slot, plan.value.1, plan.value.0, b.g);
      NewObjectMatches(b, s.sys, Next(s.sys, ev), s.caps, Commit(s.caps, slot, plan.value.1, plan.value.0, b.g), ev,
                       plan.value.1, plan.value.0);
    } else {
      StillMatch(b, s.sys, Next(s.sys, ev), s.caps, s.caps, ev);
    }
  }

  lemma NewObjectMatches(b: Boot, sys: Sys, sys': Sys, caps: seq<Cap>, caps': seq<Cap>, ev: Event, kind: ObjKind,
                         carve: nat)
    requires TasksMatch(b, sys, caps) && ObjectsAfter(sys, ev, sys')
    requires forall c: Cap :: !c.Untyped? ==> (c in caps' <==> c in caps || c == NewCap(kind, carve))
    requires match kind
             case TcbObj => ev.NewTcb? && ev.p == Alias(carve)
             case EndpointObj => ev.NewEndpoint? && ev.p == Alias(carve)
             case _ => ev.Return?
    ensures TasksMatch(b, sys', caps')
  {
  }

  lemma StillMatch(b: Boot, sys: Sys, sys': Sys, caps: seq<Cap>, caps': seq<Cap>, ev: Event)
    requires TasksMatch(b, sys, caps) && ObjectsAfter(sys, ev, sys') && !ev.NewTcb? && !ev.NewEndpoint?
    requires forall a :: Cap.Tcb(a) in caps' <==> Cap.Tcb(a) in caps
    requires forall a :: Cap.Endpoint(a) in caps' <==> Cap.Endpoint(a) in caps
    ensures TasksMatch(b, sys', caps')
  {
  }

  // ---------------------------------------------------------------- one step

  ghost function ShapeAfter(b: Boot, s: System, sh: Shape, e: Trap): Shape {
    var c := CtxOf(s.sys, s.sys.current);
    if e.Svc? && Calls(s, SYS_MAP) then MapShape(b, s.caps, s.mem, sh, c.x0, c.x1, c.mr.m1) else sh
  }

  ghost function PagesAfter(b: Boot, s: System, pages: Pages, e: Trap): Pages {
    var c := CtxOf(s.sys, s.sys.current);
    if e.Svc? && Calls(s, SYS_MAP) then MapPages(b, s.caps, s.mem, pages, c.x0, c.x1, c.mr.m0, c.mr.m1) else pages
  }

  /** Capabilities and memory after any trap. */
  lemma StoresKept(b: Boot, s: System, sh: Shape, pages: Pages, e: Trap)
    requires BootOk(b) && CNodeOk(b, s.caps) && MemoryOk(b, s.caps, s.mem, sh, pages) && CanStep(b, s, e)
    requires SpaceOf(s) == b.root
    ensures CNodeOk(b, CapsAfter(b, s, e))
    ensures MemoryOk(b, CapsAfter(b, s, e), MemAfter(b, s, e), ShapeAfter(b, s, sh, e), PagesAfter(b, s, pages, e))
    ensures Extends(pages, PagesAfter(b, s, pages, e)) && !Step(b, s, e).corrupt
  {
    hide BootOk, CNodeOk, MemoryOk, DoMap, MapShape, MapPages, RetypePlan, Commit, UserWritable, Walk, AddrOf,
         PutEntry, Next;
    var c := CtxOf(s.sys, s.sys.current);
    MapKeeps(b, s.caps, s.mem, sh, pages, c.x0, c.x1, c.mr.m0, c.mr.m1);
    if e.Svc? && Calls(s, SYS_RETYPE) {
      var plan := RetypePlan(b.g, s.caps, c.x0, c.x1, e.ready);
      if plan.Ok? {
        CarveFresh(b, s.caps, c.x0, plan.value.1);
        RetypeMemory(b, s.caps, s.mem, sh, pages, c.x0, plan.value.1);
      }
    } else if e.UserStore? {
      StoreMemory(b, s.caps, s.mem, sh, pages, e.va, e.i, e.w);
    }
  }

  lemma TasksAfter(b: Boot, s: System, sh: Shape, pages: Pages, e: Trap)
    requires Sound(b, s, sh, pages) && CanStep(b, s, e)
    ensures TasksMatch(b, Next(s.sys, EventOf(b, s, e)), CapsAfter(b, s, e))
  {
    hide BootOk, CNodeOk, MemoryOk, DoMap, MapShape, MapPages, RetypePlan, RetypeEvent, Commit, UserWritable, Walk,
         Next, Inv, TasksMatch, OneSpace,
         MapOf, IpcEvent, ConfigureEvent, ResumeEvent, PutcCode;
    var c := CtxOf(s.sys, s.sys.current);
    if e.Svc? && Calls(s, SYS_RETYPE) {
      RetypeTasks(b, s, c.x0, c.x1, e.ready);
    } else {
      EventEnabled(b, s, e);
      NextObjects(s.sys, EventOf(b, s, e));
      NoNewObject(b, s, e);
      MapObjects(b, s, sh, pages);
      StillMatch(b, s.sys, Next(s.sys, EventOf(b, s, e)), s.caps, CapsAfter(b, s, e), EventOf(b, s, e));
    }
  }

  lemma NoNewObject(b: Boot, s: System, e: Trap)
    requires !(e.Svc? && Calls(s, SYS_RETYPE))
    ensures !EventOf(b, s, e).NewTcb? && !EventOf(b, s, e).NewEndpoint?
  {
    hide RetypeEvent, MapOf;
  }

  lemma MapObjects(b: Boot, s: System, sh: Shape, pages: Pages)
    requires BootOk(b) && CNodeOk(b, s.caps) && MemoryOk(b, s.caps, s.mem, sh, pages)
    ensures forall a :: Cap.Tcb(a) in MapOf(b, s).caps <==> Cap.Tcb(a) in s.caps
    ensures forall a :: Cap.Endpoint(a) in MapOf(b, s).caps <==> Cap.Endpoint(a) in s.caps
  {
    hide BootOk, CNodeOk, MemoryOk, DoMap, MapShape, MapPages;
    var c := CtxOf(s.sys, s.sys.current);
    MapKeeps(b, s.caps, s.mem, sh, pages, c.x0, c.x1, c.mr.m0, c.mr.m1);
  }

  lemma CurrentSpace(b: Boot, s: System)
    requires Safe(s.sys) && OneSpace(s.sys, b.root) && !s.sys.halted
    ensures SpaceOf(s) == b.root
  {
    hide Inv;
    Facts(s.sys, {}, false);
  }

  /** Every trap keeps the joint invariant. */
  lemma StepSound(b: Boot, s: System, sh: Shape, pages: Pages, e: Trap)
    requires Sound(b, s, sh, pages) && CanStep(b, s, e)
    ensures Sound(b, Step(b, s, e), ShapeAfter(b, s, sh, e), PagesAfter(b, s, pages, e))
    ensures Extends(pages, PagesAfter(b, s, pages, e))
  {
    hide BootOk, CNodeOk, MemoryOk, EventOf, CapsAfter, MemAfter, ShapeAfter, PagesAfter, Next, Inv, TasksMatch,
         OneSpace, UserWritable, Walk, MapOf;
    CurrentSpace(b, s);
    EventEnabled(b, s, e);
    NextSafe(s.sys, EventOf(b, s, e));
    NextSpace(s.sys, EventOf(b, s, e), b.root);
    StoresKept(b, s, sh, pages, e);
    TasksAfter(b, s, sh, pages, e);
  }

  // ---------------------------------------------------------------- handoff

  /** What boot hands over satisfies the invariant: the window holds all tables and user frames so far. */
  lemma HandoffSound(b: Boot, entry: Context, mem: Mem, sh: Shape, pages: Pages, ut: seq<Cap>)
    requires BootOk(b) && Owned(b.g, mem, sh, b.root, pages)
    requires forall a :: a in sh.level ==> InWindow(b, a)
    requires forall p :: p in pages ==> InWindow(b, pages[p].0)
    requires MemoryDone(b.memory, b.reserved, ut) && |BootCaps(b.root) + ut| <= CNODE_SLOTS
    ensures Sound(b, System(Handoff(b.rootTcb, entry, b.root), BootCaps(b.root) + ut, mem, false), sh, pages)
  {
    hide Owned, Inv, InWindow, FreshTable, CapsOk;
    HandoffSafe(b.rootTcb, entry, b.root);
    BootCapsOk(b.g, b.memory, b.reserved, b.root, ut);
    var caps := BootCaps(b.root) + ut;
    forall c | c in caps
      ensures c.Untyped? || c in BootCaps(b.root)
    {
      var i :| 0 <= i < |caps| && caps[i] == c;
    }
  }

  // ---------------------------------------------------------------- runs

  ghost predicate KernelRun(b: Boot, ss: seq<System>, es: seq<Trap>) {
    && |ss| == |es| + 1
    && forall i :: 0 <= i < |es| ==> CanStep(b, ss[i], es[i]) && ss[i + 1] == Step(b, ss[i], es[i])
  }

  lemma ExtendsTwice(a: Pages, b: Pages, c: Pages)
    requires Extends(a, b) && Extends(b, c)
    ensures Extends(a, c)
  {
  }

  lemma {:induction false} RunSound(b: Boot, ss: seq<System>, es: seq<Trap>, sh: Shape, pages: Pages, n: nat)
    returns (sh': Shape, pages': Pages)
    requires KernelRun(b, ss, es) && n < |ss| && Sound(b, ss[0], sh, pages)
    ensures Sound(b, ss[n], sh', pages') && Extends(pages, pages')
  {
    hide Sound, Step, CanStep;
    sh', pages' := sh, pages;
    if n > 0 {
      sh', pages' := RunSound(b, ss, es, sh, pages, n - 1);
      StepSound(b, ss[n - 1], sh', pages', es[n - 1]);
      ExtendsTwice(pages, pages', PagesAfter(b, ss[n - 1], pages', es[n - 1]));
      sh', pages' := ShapeAfter(b, ss[n - 1], sh', es[n - 1]), PagesAfter(b, ss[n - 1], pages', es[n - 1]);
    }
  }

  function TasksOf(ss: seq<System>): seq<Sys> {
    seq(|ss|, i requires 0 <= i < |ss| => ss[i].sys)
  }

  function EventsOf(b: Boot, ss: seq<System>, es: seq<Trap>): seq<Event>
    requires |ss| == |es| + 1
  {
    seq(|es|, i requires 0 <= i < |es| => EventOf(b, ss[i], es[i]))
  }

  /** The tasks of any kernel run follow the rules of module `Ipc`, so everything proved there holds here. */
  lemma TasksRun(b: Boot, ss: seq<System>, es: seq<Trap>, sh: Shape, pages: Pages)
    requires KernelRun(b, ss, es) && Sound(b, ss[0], sh, pages)
    ensures IsRun(TasksOf(ss), EventsOf(b, ss, es))
  {
    hide CanStep, EventOf, Next, CNodeOk, BootOk, MemoryOk, TasksMatch, OneSpace, Inv;
    forall i: nat | i < |es|
      ensures Enabled(ss[i].sys, EventOf(b, ss[i], es[i])) && ss[i + 1].sys == Next(ss[i].sys, EventOf(b, ss[i], es[i]))
    {
      var sh', pages' := RunSound(b, ss, es, sh, pages, i);
      EventEnabled(b, ss[i], es[i]);
    }
  }

  /** No byte of the granule is in the kernel image or in its table pool. */
  ghost predicate OutsideKernel(b: Boot, a: nat) {
    forall pa :: a <= pa < a + Size(b.g) ==> !b.kernel.Has(pa) && !b.pool.Has(pa)
  }

  lemma TargetOutsideKernel(b: Boot, caps: seq<Cap>, mem: Mem, sh: Shape, pages: Pages, p: nat)
    requires BootOk(b) && CNodeOk(b, caps) && Accounted(b, caps, mem, sh, pages) && p in pages
    ensures OutsideKernel(b, pages[p].0)
  {
    hide CNodeOk, FreshTable;
    if !InWindow(b, pages[p].0) {
      ObjIsFree(b, caps, Frame(pages[p].0, true));
      var k :| 0 <= k < |b.reserved| && b.reserved[k] == b.kernel;
      forall pa: nat | pages[p].0 <= pa < pages[p].0 + Size(b.g)
        ensures !b.kernel.Has(pa) && !b.pool.Has(pa)
      {
        assert FreeRam(b.memory, b.reserved, pa) && (b.reserved[k].Has(pa) ==> Reserved(b.reserved, pa));
      }
    }
  }

  lemma TargetNotObject(b: Boot, caps: seq<Cap>, mem: Mem, sh: Shape, pages: Pages, p: nat, c: Cap)
    requires BootOk(b) && CNodeOk(b, caps) && Accounted(b, caps, mem, sh, pages) && p in pages
    requires c in caps && IsObj(c) && ObjBase(c) == Some(pages[p].0)
    ensures c == Frame(pages[p].0, true)
  {
    hide BootOk, CNodeOk, FreshTable, InWindow;
    ObjIsFree(b, caps, c);
    UniqueObj(b, caps, c, Frame(pages[p].0, true));
  }

  lemma TableNotTarget(g: Granule, mem: Mem, sh: Shape, root: nat, pages: Pages, p: nat, va: nat, level: nat)
    requires Owned(g, mem, sh, root, pages) && p in pages && level <= 3
    ensures TableAt(g, mem, root, va, level) != Some(pages[p].0)
  {
    hide Forest, Translates, Index;
    assert IsRoot(sh, root);
    LevelOf(g, mem, sh, root, va, level);
  }

  /**
    In every state of every run, whatever the user stores, a page EL0 can reach is backed by a frame
    that is no TCB, endpoint or page-table object, no table of the walk, and no part of the kernel
    image or of the kernel's own tables;
    MAP never meets a corrupt table.
  */
  lemma NothingExposed(b: Boot, ss: seq<System>, es: seq<Trap>, sh: Shape, pages: Pages, n: nat, va: nat)
    requires KernelRun(b, ss, es) && n < |ss| && Sound(b, ss[0], sh, pages)
    ensures !ss[n].corrupt
    ensures var s, e := ss[n], Walk(b.g, ss[n].mem, b.root, va);
            var a := AddrOf(b.g, e);
            e != 0 ==>
              && OutsideKernel(b, a)
              && (forall c :: c in s.caps && ObjBase(c) == Some(a) ==> c.Frame?)
              && (forall v, k: nat :: k <= 3 ==> TableAt(b.g, s.mem, b.root, v, k) != Some(a))
  {
    hide KernelRun, BootOk, CNodeOk, Inv, OneSpace, TasksMatch, Owned, Accounted, Walk, AddrOf, Page, OutsideKernel,
         TableAt;
    var sh', pages' := RunSound(b, ss, es, sh, pages, n);
    var s, e := ss[n], Walk(b.g, ss[n].mem, b.root, va);
    OwnedWalk(b.g, s.mem, sh', b.root, pages', va);
    if e != 0 {
      var p := Page(b.g, va);
      TargetOutsideKernel(b, s.caps, s.mem, sh', pages', p);
      forall c | c in s.caps && ObjBase(c) == Some(pages'[p].0)
        ensures c.Frame?
      {
        TargetNotObject(b, s.caps, s.mem, sh', pages', p, c);
      }
      forall v, k: nat | k <= 3
        ensures TableAt(b.g, s.mem, b.root, v, k) != Some(pages'[p].0)
      {
        TableNotTarget(b.g, s.mem, sh', b.root, pages', p, v, k);
      }
    }
  }

  /** In every state of every run no frame is writable through one address and executable through another. */
  lemma RunKeepsWX(b: Boot, ss: seq<System>, es: seq<Trap>, sh: Shape, pages: Pages, n: nat, va: nat, va': nat)
    requires KernelRun(b, ss, es) && n < |ss| && Sound(b, ss[0], sh, pages)
    requires UserWritable(Walk(b.g, ss[n].mem, b.root, va)) && UserExecutable(Walk(b.g, ss[n].mem, b.root, va'))
    ensures AddrOf(b.g, Walk(b.g, ss[n].mem, b.root, va)) != AddrOf(b.g, Walk(b.g, ss[n].mem, b.root, va'))
  {
    hide KernelRun, BootOk, CNodeOk, Inv, OneSpace, TasksMatch, Owned, Accounted, Walk, AddrOf, UserWritable,
         UserExecutable;
    var sh', pages' := RunSound(b, ss, es, sh, pages, n);
    OwnedKeepsWX(b.g, ss[n].mem, sh', b.root, pages', va, va');
  }

  /** Executable pages never grow: what can be executed later could be executed at handoff, from the same frame. */
  lemma ExecutableFixed(b: Boot, ss: seq<System>, es: seq<Trap>, sh: Shape, pages: Pages, n: nat, va: nat)
    requires KernelRun(b, ss, es) && n < |ss| && Sound(b, ss[0], sh, pages)
    requires UserExecutable(Walk(b.g, ss[n].mem, b.root, va))
    ensures Walk(b.g, ss[0].mem, b.root, va) == Walk(b.g, ss[n].mem, b.root, va)
  {
    hide KernelRun, BootOk, CNodeOk, Inv, OneSpace, TasksMatch, Accounted, Walk, AddrOf, UserWritable, Page, Forest,
         OneToOne, TargetsOk;
    var sh', pages' := RunSound(b, ss, es, sh, pages, n);
    OwnedWalk(b.g, ss[n].mem, sh', b.root, pages', va);
    assert Walk(b.g, ss[n].mem, b.root, va) == LeafOf(pages', Page(b.g, va));
    assert Walk(b.g, ss[0].mem, b.root, va) == LeafOf(pages, Page(b.g, va));
    NotExecutable();
  }

  lemma NotExecutable()
    ensures !UserExecutable(0)
  {
  }

  // ---------------------------------------------------------------- what is not writable never changes

  lemma MapKeepsContent(b: Boot, caps: seq<Cap>, mem: Mem, sh: Shape, pages: Pages, slot: nat, va: nat, perm: nat,
                        aspace: nat, a: nat)
    requires BootOk(b) && CNodeOk(b, caps) && MemoryOk(b, caps, mem, sh, pages) && a in mem && a !in sh.level
    ensures var mem' := DoMap(b.g, caps, mem, slot, va, perm, aspace).mem;
            a in mem' && mem'[a] == mem[a]
  {
    hide BootOk, CNodeOk, MapFrame, InstallTable, InstalledShape, SpaceAt, Accounted, Owned;
    if SpaceAt(caps, aspace).Ok? {
      MapRoot(b, caps, mem, sh, pages);
      SpaceIsRoot(b, caps, aspace);
      match CapAt(caps, slot)
      case Some(Frame(base, false)) =>
        if PermAt(perm).Some? && MapFrame(b.g, mem, b.root, va, base, PermAt(perm).value).Ok? {
          MapWrites(b.g, mem, sh, b.root, pages, base, va, PermAt(perm).value);
        }
      case Some(PageTable(base, false)) =>
        TableUnused(b, caps, mem, sh, pages, slot, base);
        if InstallTable(b.g, mem, b.root, va, base).Ok? {
          OwnedInstall(b.g, mem, sh, b.root, pages, base, va);
        }
      case _ =>
    }
  }

  lemma StoreKeepsContent(b: Boot, mem: Mem, sh: Shape, pages: Pages, va: nat, i: nat, w: Word, p: nat)
    requires Owned(b.g, mem, sh, b.root, pages) && UserWritable(Walk(b.g, mem, b.root, va))
    requires p in pages && pages[p].1 != RwUser && pages[p].0 in mem
    ensures var a, mem' := pages[p].0, PutEntry(mem, AddrOf(b.g, Walk(b.g, mem, b.root, va)), i, w);
            a in mem' && mem'[a] == mem[a]
  {
    hide Forest, Walk, AddrOf, UserWritable, Page, Translates, TargetsOk;
    NotMapped();
    OwnedWalk(b.g, mem, sh, b.root, pages, va);
  }

  /** One trap leaves the contents of every page that EL0 cannot write alone. */
  lemma ContentKept(b: Boot, s: System, sh: Shape, pages: Pages, e: Trap, p: nat)
    requires Sound(b, s, sh, pages) && CanStep(b, s, e) && p in pages && pages[p].1 != RwUser
    ensures var a, mem' := pages[p].0, MemAfter(b, s, e);
            a in s.mem && a in mem' && mem'[a] == s.mem[a]
  {
    hide BootOk, CNodeOk, Inv, OneSpace, TasksMatch, DoMap, RetypePlan, UserWritable, Walk, AddrOf, PutEntry,
         Accounted, Forest, Translates, OneToOne;
    var c, a := CtxOf(s.sys, s.sys.current), pages[p].0;
    CurrentSpace(b, s);
    assert a in s.mem && a !in sh.level;
    hide Owned, TargetsOk;
    if e.Svc? && Calls(s, SYS_RETYPE) {
      var plan := RetypePlan(b.g, s.caps, c.x0, c.x1, e.ready);
      if plan.Ok? {
        CarveFresh(b, s.caps, c.x0, plan.value.1);
        NotAccounted(b, s.caps, s.mem, sh, pages, plan.value.0);
      }
    } else if e.Svc? && Calls(s, SYS_MAP) {
      MapKeepsContent(b, s.caps, s.mem, sh, pages, c.x0, c.x1, c.mr.m0, c.mr.m1, a);
    } else if e.UserStore? {
      StoreKeepsContent(b, s.mem, sh, pages, e.va, e.i, e.w, p);
    }
  }

  lemma {:induction false} ContentRun(b: Boot, ss: seq<System>, es: seq<Trap>, sh: Shape, pages: Pages, n: nat, p: nat)
    returns (sh': Shape, pages': Pages)
    requires KernelRun(b, ss, es) && n < |ss| && Sound(b, ss[0], sh, pages) && p in pages && pages[p].1 != RwUser
    ensures Sound(b, ss[n], sh', pages') && p in pages' && pages'[p] == pages[p]
    ensures var a := pages[p].0; a in ss[0].mem && a in ss[n].mem && ss[n].mem[a] == ss[0].mem[a]
  {
    hide CanStep, BootOk, CNodeOk, Inv, OneSpace, TasksMatch, Accounted, Forest, Translates, OneToOne, Next, EventOf,
         CapsAfter, MemAfter, MapOf;
    sh', pages' := sh, pages;
    if n > 0 {
      sh', pages' := ContentRun(b, ss, es, sh, pages, n - 1, p);
      hide Sound;
      ContentKept(b, ss[n - 1], sh', pages', es[n - 1], p);
      StepSound(b, ss[n - 1], sh', pages', es[n - 1]);
      sh', pages' := ShapeAfter(b, ss[n - 1], sh', es[n - 1]), PagesAfter(b, ss[n - 1], pages', es[n - 1]);
    }
  }

  /** A mapped page that EL0 cannot write, code above all, keeps its frame and its contents for the rest of the run. */
  lemma ReadOnlyFixed(b: Boot, ss: seq<System>, es: seq<Trap>, sh: Shape, pages: Pages, m: nat, n: nat, va: nat)
    requires KernelRun(b, ss, es) && m <= n < |ss| && Sound(b, ss[0], sh, pages)
    requires var e := Walk(b.g, ss[m].mem, b.root, va); e != 0 && !UserWritable(e)
    ensures var e := Walk(b.g, ss[m].mem, b.root, va);
            var a := AddrOf(b.g, e);
            && Walk(b.g, ss[n].mem, b.root, va) == e
            && a in ss[m].mem && a in ss[n].mem && ss[n].mem[a] == ss[m].mem[a]
  {
    hide CanStep, BootOk, CNodeOk, Inv, OneSpace, TasksMatch, Accounted, Walk, AddrOf, UserWritable, Page, Forest,
         OneToOne, TargetsOk, Step;
    var sh1, pages1 := RunSound(b, ss, es, sh, pages, m);
    OwnedWalk(b.g, ss[m].mem, sh1, b.root, pages1, va);
    var p := Page(b.g, va);
    assert KernelRun(b, ss[m..], es[m..]);
    var sh2, pages2 := ContentRun(b, ss[m..], es[m..], sh1, pages1, n - m, p);
    assert ss[m..][0] == ss[m] && ss[m..][n - m] == ss[n];
    assert Walk(b.g, ss[m].mem, b.root, va) == LeafOf(pages1, p);
    assert Walk(b.g, ss[n].mem, b.root, va) == LeafOf(pages2, p);
  }
}
