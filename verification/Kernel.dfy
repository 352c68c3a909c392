/** The kernel as it runs: system call handlers over the TCBs, the root CNode, the table pool and user memory. */
module Kernel {
  import opened Abi
  import opened Descriptors
  import opened Tables
  import opened Paging
  import opened UserSpace
  import opened UserMemory
  import opened UserPages
  import opened Tasks
  import opened Ipc
  import IpcMachine
  import opened Caps
  import opened Retype
  import opened Syscalls
  import opened Ownership
  import opened OwnershipRuns
  import opened Outcomes

  // ---------------------------------------------------------------- the kernel alias

  ghost predicate FreeGranule(b: Boot, f: nat) {
    forall pa :: f <= pa < f + Size(b.g) ==> FreeRam(b.memory, b.reserved, pa)
  }

  ghost predicate ObjectAt(caps: seq<Cap>, f: nat) {
    exists c :: c in caps && ObjBase(c) == Some(f)
  }

  /** What the kernel has mapped for itself is reserved, outside RAM, or already an object. */
  ghost predicate AliasApart(b: Boot, caps: seq<Cap>, alias: seq<Segment>) {
    forall f: nat :: IsFrame(b.g, f) && LeafFor(alias, f) != 0 ==> !FreeGranule(b, f) || ObjectAt(caps, f)
  }

  lemma ObjectsStay(b: Boot, caps: seq<Cap>, caps': seq<Cap>, alias: seq<Segment>)
    requires AliasApart(b, caps, alias)
    requires forall f :: ObjectAt(caps, f) ==> ObjectAt(caps', f)
    ensures AliasApart(b, caps', alias)
  {
    hide FreeGranule, IsFrame, LeafFor, ObjectAt;
  }

  lemma CommitKeepsObjects(caps: seq<Cap>, slot: nat, kind: ObjKind, carve: nat, g: Granule)
    requires slot < |caps| && caps[slot].Untyped? && carve + Size(g) >= caps[slot].base
    ensures forall f :: ObjectAt(caps, f) ==> ObjectAt(Commit(caps, slot, kind, carve, g), f)
    ensures ObjectAt(Commit(caps, slot, kind, carve, g), carve)
  {
    CommitMembers(caps, slot, kind, carve, g);
    hide Commit;
    assert ObjBase(NewCap(kind, carve)) == Some(carve);
  }

  lemma FlagKeepsObjects(caps: seq<Cap>, slot: nat, c: Cap)
    requires slot < |caps| && ObjBase(c) == ObjBase(caps[slot])
    ensures forall f :: ObjectAt(caps, f) ==> ObjectAt(caps[slot := c], f)
  {
    var caps' := caps[slot := c];
    forall f: nat | ObjectAt(caps, f)
      ensures ObjectAt(caps', f)
    {
      var d :| d in caps && ObjBase(d) == Some(f);
      var i :| 0 <= i < |caps| && caps[i] == d;
      assert caps'[i] in caps' && ObjBase(caps'[i]) == Some(f);
    }
  }

  /** The page a retype opens for the kernel is never mapped already. */
  lemma CarveUnmapped(b: Boot, caps: seq<Cap>, alias: seq<Segment>, slot: nat)
    requires BootOk(b) && CNodeOk(b, caps) && AliasApart(b, caps, alias) && CarveAt(caps, slot, b.g).Ok?
    ensures var carve := CarveAt(caps, slot, b.g).value;
            IsFrame(b.g, carve) && carve + Size(b.g) <= TWO_48 && LeafFor(alias, carve) == 0
  {
    RetypeKeepsCaps(b.g, b.memory, b.reserved, caps, slot, FrameObj);
    CarveFresh(b, caps, slot, FrameObj);
    hide CarveAt, BootOk, CNodeOk, CapsOk, LeafFor;
    var carve := CarveAt(caps, slot, b.g).value;
    assert FreeGranule(b, carve);
    assert !ObjectAt(caps, carve);
    FrameFits(b.g, carve);
  }

  lemma FrameFits(g: Granule, a: nat)
    requires IsFrame(g, a)
    ensures a % Size(g) == 0 && a < TWO_48 && a + Size(g) <= TWO_48 && (a + Size(g)) % Size(g) == 0
  {
    match g
    case K4 => assert a == 4096 * (a / 4096);
    case K16 => assert a == 16384 * (a / 16384);
  }

  lemma AliasGrows(b: Boot, caps: seq<Cap>, alias: seq<Segment>, slot: nat, kind: ObjKind)
    requires AliasApart(b, caps, alias) && CarveAt(caps, slot, b.g).Ok? && IsFrame(b.g, CarveAt(caps, slot, b.g).value)
    ensures var carve := CarveAt(caps, slot, b.g).value;
            AliasApart(b, Commit(caps, slot, kind, carve, b.g), alias + [Segment(carve, carve + Size(b.g), Rw)])
  {
    hide CarveAt, FreeGranule, Commit;
    var carve := CarveAt(caps, slot, b.g).value;
    var caps', seg := Commit(caps, slot, kind, carve, b.g), Segment(carve, carve + Size(b.g), Rw);
    CommitKeepsObjects(caps, slot, kind, carve, b.g);
    hide ObjectAt;
    assert (alias + [seg])[..|alias|] == alias;
    forall f: nat | IsFrame(b.g, f) && LeafFor(alias + [seg], f) != 0
      ensures !FreeGranule(b, f) || ObjectAt(caps', f)
    {
      if carve <= f < carve + Size(b.g) {
        AlignedSame(b.g, carve, f);
      }
    }
  }

  lemma AlignedSame(g: Granule, a: nat, f: nat)
    requires IsFrame(g, a) && IsFrame(g, f) && a <= f < a + Size(g)
    ensures f == a
  {
    match g
    case K4 => assert a == 4096 * (a / 4096) && f == 4096 * (f / 4096);
    case K16 => assert a == 16384 * (a / 16384) && f == 16384 * (f / 16384);
  }

  /** A refused retype changes nothing; a granted one moves the watermark, adds the object and clears its granule. */
  ghost predicate Retyped(g: Granule, caps: seq<Cap>, mem: Mem, slot: nat, kind: ObjKind, r: Result<nat, RetypeError>,
                          caps': seq<Cap>, mem': Mem) {
    match r
    case Err(_) => caps' == caps && mem' == mem
    case Ok(carve) =>
      CarveAt(caps, slot, g) == r && caps' == Commit(caps, slot, kind, carve, g) && mem' == mem[carve := ClearRow(g)]
  }

  function PoolRegion(p: Place): PhysRegion {
    PhysRegion(p.base, p.len * Size(p.g))
  }

  // ---------------------------------------------------------------- the handlers

  class Machine {
    const b: Boot
    const tasks: IpcMachine.Machine
    const cnode: CNode
    const pool: Pool
    const phys: Phys
    // MAP has met a corrupt table.
    var parked: bool
    ghost var pages: Pages
    ghost var alias: seq<Segment>

    ghost function View(): System
      requires cnode.Valid()
      reads this, tasks, cnode, cnode.slots, phys
    {
      System(tasks.View(), cnode.Contents(), phys.mem, parked)
    }

    lemma StoresFacts()
      requires Stores()
      ensures cnode.Valid() && phys.g == b.g && pool.p.g == b.g
    {
    }

    ghost predicate Parts()
      reads `alias, tasks, cnode, cnode.slots, pool
    {
      tasks.Valid() && Stores()
    }

    /** The stores are well formed, and the kernel alias of RAM is exactly `alias`. */
    ghost predicate Stores()
      reads `alias, cnode, cnode.slots, pool
    {
      && cnode.Valid() && pool.Valid() && pool.enabled && pool.RootTable(pool.root1)
      && phys.g == b.g && pool.p.g == b.g && PoolRegion(pool.p) == b.pool
      && HalfMap(b.g, pool.Mem(), Pa(b.g, pool.p.base, pool.root1), KERNEL_VA_OFFSET, alias)
      && AliasApart(b, cnode.Contents(), alias)
    }

    ghost predicate Valid()
      reads this, tasks, cnode, cnode.slots, pool, phys
    {
      Parts() && Sound(b, View(), phys.sh, pages)
    }

    /** Everything boot has built, at the moment of handoff. */
    constructor (b: Boot, tasks: IpcMachine.Machine, cnode: CNode, pool: Pool, phys: Phys, ghost pages: Pages,
                 ghost alias: seq<Segment>)
      requires tasks.Valid() && cnode.Valid() && pool.Valid() && pool.enabled && pool.RootTable(pool.root1)
      requires phys.g == b.g && pool.p.g == b.g && PoolRegion(pool.p) == b.pool
      requires HalfMap(b.g, pool.Mem(), Pa(b.g, pool.p.base, pool.root1), KERNEL_VA_OFFSET, alias)
      requires AliasApart(b, cnode.Contents(), alias)
      requires Sound(b, System(tasks.View(), cnode.Contents(), phys.mem, false), phys.sh, pages)
      ensures Valid() && View() == System(tasks.View(), cnode.Contents(), phys.mem, false)
      ensures this.b == b && this.tasks == tasks && this.cnode == cnode && this.pool == pool && this.phys == phys
    {
      hide Sound, HalfMap, AliasApart, PoolOk, Safe, IpcMachine.Represents, IsRoot, Pa;
      this.b, this.tasks, this.cnode, this.pool, this.phys := b, tasks, cnode, pool, phys;
      this.pages, this.alias := pages, alias;
      parked := false;
    }

    /** Whether the pool can still map one more page of the alias. */
    ghost predicate PoolHolds(carve: nat)
      reads this, pool
    {
      pool.used + Missing(b.g, pool.Mem(), Pa(b.g, pool.p.base, pool.root1), carve + KERNEL_VA_OFFSET) <= pool.p.len
    }

    /** The `prep` callback of RETYPE: it fails only when the pool is exhausted, and then changes nothing. */
    method Prepare(slot: nat, carve: nat) returns (ok: bool)
      requires Valid() && CarveAt(cnode.Contents(), slot, b.g) == Ok(carve)
      modifies pool, phys`mem, this`alias
      ensures ok <==> old(PoolHolds(carve))
      ensures !ok ==> pool.tables == old(pool.tables) && pool.used == old(pool.used) && pool.sh == old(pool.sh)
      ensures !ok ==> phys.mem == old(phys.mem) && alias == old(alias)
      ensures ok ==>
                && phys.mem == old(phys.mem)[carve := ClearRow(b.g)]
                && alias == old(alias) + [Segment(carve, carve + Size(b.g), Rw)]
      ensures pool.Valid() && pool.enabled && pool.root1 == old(pool.root1) && pool.RootTable(pool.root1)
      ensures HalfMap(b.g, pool.Mem(), Pa(b.g, pool.p.base, pool.root1), KERNEL_VA_OFFSET, alias)
    {
      hide Sound, CarveAt, PoolOk, Paging.View, HalfMap, Walk, Size, Pa, AliasApart, MapsRange, KernelAttrs, IsRoot,
           LeafFor, Missing,
           BootOk, CNodeOk, TasksMatch, MemoryOk, Safe, IpcMachine.Represents, IsFrame, ClearRow;
      SoundParts(b, View(), phys.sh, pages);
      CarveUnmapped(b, cnode.Contents(), alias, slot);
      FrameFits(b.g, carve);
      ghost var mem0, root := pool.Mem(), Pa(b.g, pool.p.base, pool.root1);
      AliasWalk(b.g, mem0, root, alias, carve);
      var mapped;
      ghost var n;
      mapped, n := pool.MapKernelWindow(carve, carve + Size(b.g));
      if mapped.Err? {
        return false;
      }
      HalfExtends(b.g, mem0, pool.Mem(), pool.sh, root, KERNEL_VA_OFFSET, alias, Segment(carve, carve + Size(b.g), Rw),
                  n);
      alias := alias + [Segment(carve, carve + Size(b.g), Rw)];
      phys.mem := phys.mem[carve := ClearRow(b.g)];
      ok := true;
    }

    /** The registers of the caller. */
    ghost function Caller(): Context
      reads tasks
    {
      CtxOf(tasks.View(), tasks.current)
    }

    /**
      `CNode::retype` with its callback: an object is made exactly when the request is sound and the
      pool has room for its alias; otherwise capabilities, kernel tables and memory are as before.
    */
    method RetypeObject(slot: nat, kind: ObjKind) returns (r: Result<nat, RetypeError>)
      requires Valid()
      modifies cnode, cnode.slots, pool, phys`mem, `alias
      ensures Stores()
      ensures var at := CarveAt(old(cnode.Contents()), slot, b.g);
              if at.Err? then r == Err(at.error)
              else r == if old(PoolHolds(at.value)) then Ok(at.value) else Err(PrepFailed)
      ensures r.Err? ==> pool.tables == old(pool.tables) && pool.used == old(pool.used)
      ensures Retyped(b.g, old(cnode.Contents()), old(phys.mem), slot, kind, r, cnode.Contents(), phys.mem)
    {
      hide Sound, CarveAt, PoolOk, Paging.View, HalfMap, Size, Pa, AliasApart, IsRoot, Missing, Commit,
           BootOk, CNodeOk, TasksMatch, MemoryOk, Safe, IpcMachine.Represents, ClearRow;
      SoundParts(b, View(), phys.sh, pages);
      var caps := cnode.Contents();
      r := CarveAt(caps, slot, b.g);
      if r.Err? {
        return;
      }
      var ok := Prepare(slot, r.value);
      if !ok {
        return Err(PrepFailed);
      }
      CarveUnmapped(b, caps, old(alias), slot);
      AliasGrows(b, caps, old(alias), slot, kind);
      CommitCarve(cnode, slot, kind, r.value, b.g);
    }

    /** `sys_retype`: the new slot or the error code, and the new object among the tasks. */
    method SysRetype() returns (ghost ready: bool)
      requires Valid() && !tasks.halted && Calls(View(), SYS_RETYPE)
      modifies tasks, cnode, cnode.slots, pool, phys`mem, `alias
      ensures Parts() && View() == Step(b, old(View()), Svc(ready)) && !tasks.halted
      ensures var c := old(Caller());
              var at := CarveAt(old(cnode.Contents()), c.x0, b.g);
              1 <= c.x1 <= 4 && at.Ok? ==> (ready <==> old(PoolHolds(at.value)))
      ensures Retypes(b, old(View()), ready, View())
      ensures RetypePlan(b.g, old(cnode.Contents()), old(Caller()).x0, old(Caller()).x1, ready).Err? ==>
                && cnode.Contents() == old(cnode.Contents()) && phys.mem == old(phys.mem)
                && pool.tables == old(pool.tables) && pool.used == old(pool.used)
    {
      hide Sound, Stores, CarveAt, PoolHolds, Commit, BootOk, CNodeOk, TasksMatch, MemoryOk, Inv,
           IpcMachine.Represents, ClearRow, Next, Step, SlotWord, Retypes;
      StoresFacts();
      ghost var s := View();
      SoundParts(b, s, phys.sh, pages);
      Facts(tasks.View(), {}, false);
      var c := tasks.ctx[tasks.current];
      var slot := SlotWord(cnode.Contents());
      ready := false;
      var kind := KindOf(c.x1);
      if kind.None? {
        RetypeStep(b, s, false);
        RetypeMeets(b, s, false);
        tasks.ReturnX0(AsWord(BAD_TYPE));
        return;
      }
      var made := RetypeObject(c.x0, kind.value);
      StoresFacts();
      ready := made.Ok?;
      RetypeStep(b, s, ready);
      RetypeMeets(b, s, ready);
      if made.Err? {
        tasks.ReturnX0(RetypeCode(made.error));
        return;
      }
      RetypeEnabled(b, s, c.x0, c.x1, true);
      AddObject(kind.value, made.value, slot);
    }

    /** The body of `sys_map` once the address space is known. */
    method MapCap(slot: nat, va: nat, perm: nat, aspace: nat, root: nat) returns (code: Option<Word>)
      requires cnode.Valid() && SpaceAt(cnode.Contents(), aspace) == Ok(root) && phys.g == b.g
      modifies cnode.slots, phys`mem
      ensures cnode.Valid()
      ensures Mapping(code, cnode.Contents(), phys.mem) ==
              DoMap(b.g, old(cnode.Contents()), old(phys.mem), slot, va, perm, aspace)
    {
      hide MapFrame, InstallTable;
      if slot >= cnode.used {
        return Some(AsWord(BAD_SLOT));
      }
      var done;
      match cnode.slots[slot] {
        case Frame(base, mapped) =>
          if mapped {
            return Some(AsWord(ALREADY_MAPPED));
          }
          var p := PermAt(perm);
          if p.None? {
            return Some(AsWord(BAD_PERM));
          }
          done := phys.UserMapFrame(root, va, base, p.value);
          if done.Ok? {
            cnode.SetCap(slot, Frame(base, true));
          }
        case PageTable(base, installed) =>
          if installed {
            return Some(AsWord(ALREADY_MAPPED));
          }
          done := phys.UserInstallTable(root, va, base);
          if done.Ok? {
            cnode.SetCap(slot, PageTable(base, true));
          }
        case _ =>
          return Some(AsWord(BAD_CAP));
      }
      code := if done.Ok? then Some(0) else MmuCode(done.error);
    }

    /** `sys_map`: the park on a corrupt table is never taken. */
    method SysMap()
      requires Valid() && !tasks.halted && Calls(View(), SYS_MAP)
      modifies tasks, cnode.slots, phys`mem, this`parked
      ensures Parts() && View() == Step(b, old(View()), Svc(false)) && !parked && !tasks.halted
      ensures Maps(b, old(View()), View())
    {
      hide Sound, PoolOk, Paging.View, HalfMap, Walk, Size, Pa, AliasApart, IsRoot, MapShape, MapPages, Extends,
           BootOk, CNodeOk, TasksMatch, MemoryOk, Inv, IpcMachine.Represents, Next, Step, DoMap, Maps;
      ghost var s := View();
      SoundParts(b, s, phys.sh, pages);
      MapMeets(b, s, phys.sh, pages, false);
      Facts(tasks.View(), {}, false);
      var c := tasks.ctx[tasks.current];
      MapStep(b, s, false);
      MapKeeps(b, s.caps, s.mem, phys.sh, pages, c.x0, c.x1, c.mr.m0, c.mr.m1);
      MapAlias(b, s.caps, s.mem, c.x0, c.x1, c.mr.m0, c.mr.m1, alias);
      var space := SpaceAt(cnode.Contents(), c.mr.m1);
      if space.Err? {
        MapNowhere(b.g, s.caps, s.mem, c.x0, c.x1, c.mr.m0, c.mr.m1);
        tasks.ReturnX0(space.error);
        return;
      }
      var code := MapCap(c.x0, c.x1, c.mr.m0, c.mr.m1, space.value);
      parked := code.None?;
      if code.Some? {
        tasks.ReturnX0(code.value);
      }
    }

    /** `sys_tcb_configure` and `sys_tcb_resume`. */
    method SysTcb()
      requires Valid() && !tasks.halted && (Calls(View(), SYS_TCB_CONFIGURE) || Calls(View(), SYS_TCB_RESUME))
      modifies tasks
      ensures Parts() && View() == Step(b, old(View()), Svc(false)) && !tasks.halted
    {
      hide Sound, Stores, BootOk, CNodeOk, TasksMatch, MemoryOk, Inv, IpcMachine.Represents, Next, Step, TcbAt,
           ConfigureEvent, ResumeEvent;
      StoresFacts();
      ghost var s := View();
      SoundParts(b, s, phys.sh, pages);
      Facts(tasks.View(), {}, false);
      PlainStep(b, s, false);
      var c := tasks.ctx[tasks.current];
      if TcbAt(cnode.Contents(), c.x0).Ok? {
        TcbKnown(b, s, c.x0);
      }
      if c.x8 == SYS_TCB_CONFIGURE {
        ConfigureCall(cnode.Contents(), c.x0, c.x1, c.mr.m0, c.mr.m1);
      } else {
        ResumeCall(cnode.Contents(), c.x0);
      }
    }

    method ConfigureCall(caps: seq<Cap>, slot: nat, entry: Word, stack: Word, aspace: nat)
      requires tasks.Valid() && !tasks.halted && (TcbAt(caps, slot).Ok? ==> TcbAt(caps, slot).value in tasks.state)
      modifies tasks
      ensures tasks.Valid()
      ensures tasks.View() == Next(old(tasks.View()), ConfigureEvent(b.g, caps, slot, entry, stack, aspace))
      ensures !tasks.halted
    {
      hide Inv, IpcMachine.Represents, Next, BadEntry, BadStack, TcbAt, SpaceAt;
      if BadEntry(b.g, entry) || BadStack(b.g, stack) {
        tasks.ReturnX0(AsWord(BAD_VA));
        return;
      }
      var space := SpaceAt(caps, aspace);
      if space.Err? {
        tasks.ReturnX0(space.error);
        return;
      }
      var t := TcbAt(caps, slot);
      if t.Err? {
        tasks.ReturnX0(t.error);
        return;
      }
      tasks.TcbConfigure(t.value, entry, stack, if space.value < TWO_64 then space.value else 0);
    }

    method ResumeCall(caps: seq<Cap>, slot: nat)
      requires tasks.Valid() && !tasks.halted && (TcbAt(caps, slot).Ok? ==> TcbAt(caps, slot).value in tasks.state)
      modifies tasks
      ensures tasks.Valid() && tasks.View() == Next(old(tasks.View()), ResumeEvent(caps, slot)) && !tasks.halted
    {
      hide Inv, IpcMachine.Represents, Next, TcbAt;
      var t := TcbAt(caps, slot);
      if t.Err? {
        tasks.ReturnX0(t.error);
      } else {
        tasks.TcbResume(t.value);
      }
    }

    method IpcCall(number: Word, ep: Result<Ptr, Word>) returns (ok: bool)
      requires tasks.Valid() && !tasks.halted && SYS_SEND <= number <= SYS_REPLY_RECV
      requires ep.Ok? ==> ep.value in tasks.View().eps
      modifies tasks
      ensures tasks.Valid() && tasks.View() == Next(old(tasks.View()), IpcEvent(number, ep)) && ok == !tasks.halted
    {
      hide Inv, IpcMachine.Represents, Next;
      IpcMachine.EpKeys(tasks.next, tasks.head, tasks.tail, tasks.eps, tasks.ready, tasks.queues);
      if number == SYS_SEND {
        ok := tasks.SysSend(ep);
      } else if number == SYS_RECV {
        ok := tasks.SysRecv(ep);
      } else if number == SYS_CALL {
        ok := tasks.SysCall(ep);
      } else {
        ok := tasks.SysReplyRecv(ep);
      }
    }

    /** SEND, RECV, CALL and REPLY_RECV; false reports that nothing is ready. */
    method SysIpc() returns (ok: bool)
      requires Valid() && !tasks.halted && SYS_SEND <= Caller().x8 <= SYS_REPLY_RECV
      modifies tasks
      ensures Parts() && View() == Step(b, old(View()), Svc(false)) && ok == !tasks.halted
      ensures OnEndpoint(old(View()), View())
    {
      hide Sound, Stores, BootOk, CNodeOk, TasksMatch, MemoryOk, Inv, IpcMachine.Represents, Next, Step, EndpointAt,
           IpcEvent, OnEndpoint;
      StoresFacts();
      ghost var s := View();
      SoundParts(b, s, phys.sh, pages);
      EndpointMeets(b, s, false);
      Facts(tasks.View(), {}, false);
      PlainStep(b, s, false);
      var c := tasks.ctx[tasks.current];
      var ep := EndpointAt(cnode.Contents(), c.x0);
      if ep.Ok? {
        EndpointKnown(b, s, c.x0);
      }
      ok := IpcCall(c.x8, ep);
    }

    /** `sys_putc`, YIELD, EXIT and unknown numbers. */
    method SysPlain() returns (ok: bool)
      requires Valid() && !tasks.halted && (Caller().x8 <= SYS_EXIT || Caller().x8 > SYS_REPLY_RECV)
      modifies tasks
      ensures Parts() && View() == Step(b, old(View()), Svc(false)) && ok == !tasks.halted
    {
      hide Sound, Stores, BootOk, CNodeOk, TasksMatch, MemoryOk, Inv, IpcMachine.Represents, Next, Step, PutcCode;
      StoresFacts();
      ghost var s := View();
      SoundParts(b, s, phys.sh, pages);
      Facts(tasks.View(), {}, false);
      PlainStep(b, s, false);
      var c := tasks.ctx[tasks.current];
      ok := true;
      if c.x8 == SYS_DEBUG_PUTC {
        tasks.ReturnX0(PutcCode(cnode.Contents(), c.x0));
      } else if c.x8 == SYS_YIELD {
        tasks.SysYield();
      } else {
        ok := tasks.KillCurrent();
      }
    }

    /** The `match` on the call number. */
    method Dispatch() returns (ok: bool, ghost ready: bool)
      requires Valid() && !tasks.halted
      modifies `parked, `alias, tasks, cnode, cnode.slots, pool, phys`mem
      ensures Parts() && View() == Step(b, old(View()), Svc(ready)) && ok == !tasks.halted
    {
      hide Sound, Stores, BootOk, CNodeOk, TasksMatch, MemoryOk, Inv, IpcMachine.Represents, Next, Step, CarveAt,
           RetypePlan, PoolHolds;
      StoresFacts();
      Facts(tasks.View(), {}, false);
      ok, ready := true, false;
      var number := tasks.ctx[tasks.current].x8;
      if number == SYS_RETYPE {
        ready := SysRetype();
      } else if number == SYS_MAP {
        SysMap();
      } else if number == SYS_TCB_CONFIGURE || number == SYS_TCB_RESUME {
        SysTcb();
      } else if SYS_SEND <= number <= SYS_REPLY_RECV {
        ok := SysIpc();
      } else {
        ok := SysPlain();
      }
    }

    /** `k0_syscall`: one system call is one step of the machine, and the joint invariant holds after it. */
    method Syscall() returns (ok: bool, ghost ready: bool)
      requires Valid() && !tasks.halted
      modifies `parked, `alias, `pages, tasks, cnode, cnode.slots, pool, phys`mem, phys`sh
      ensures Valid() && View() == Step(b, old(View()), Svc(ready))
      ensures CallOutcome(b, old(View()), ready, View())
      ensures ok == !tasks.halted && !parked
    {
      hide Sound, Stores, Inv, IpcMachine.Represents, Step, ShapeAfter, PagesAfter, Extends, CallOutcome;
      StoresFacts();
      ghost var s := View();
      NotParked(b, s, phys.sh, pages);
      ok, ready := Dispatch();
      CallMeetsOutcome(b, s, old(phys.sh), old(pages), ready);
      StoresFacts();
      StepSound(b, s, phys.sh, pages, Svc(ready));
      phys.sh, pages := ShapeAfter(b, s, phys.sh, Svc(ready)), PagesAfter(b, s, pages, Svc(ready));
      NotParked(b, View(), phys.sh, pages);
    }

    /** `k0_fault` and `k0_preempt`. */
    method Interrupt(fault: bool) returns (ok: bool)
      requires Valid() && !tasks.halted
      modifies tasks
      ensures Valid() && View() == Step(b, old(View()), if fault then Fault else Timer) && ok == !tasks.halted
    {
      hide Sound, Stores, Inv, IpcMachine.Represents, Step, Next, ShapeAfter, PagesAfter, Extends;
      StoresFacts();
      ghost var s, e := View(), if fault then Fault else Timer;
      NotParked(b, s, phys.sh, pages);
      InterruptStep(b, s, phys.sh, pages, e);
      ok := true;
      if fault {
        ok := tasks.KillCurrent();
      } else {
        tasks.Preempt();
      }
      StepSound(b, s, phys.sh, pages, e);
    }

    // ---------------------------------------------------------------- what EL0 does, and whole runs

    /** No address of the TTBR1 half is open to EL0, and no table or image byte is behind a user page. */
    ghost predicate Closed()
      reads this, pool, phys
    {
      && (forall va: nat :: Closes(va))
      && (forall va: nat :: Walk(b.g, phys.mem, b.root, va) != 0 ==>
            OutsideKernel(b, AddrOf(b.g, Walk(b.g, phys.mem, b.root, va))))
    }

    ghost predicate Closes(va: nat)
      reads pool
    {
      var e := Walk(b.g, pool.Mem(), Pa(b.g, pool.p.base, pool.root1), va);
      e != 0 ==> KernelOnly(e)
    }

    lemma StaysClosed()
      requires Valid()
      ensures Closed()
    {
      hide Sound, BootOk, CNodeOk, PoolOk, HalfMap, AliasApart, Walk, AddrOf, OutsideKernel, KernelOnly, Pa, Safe,
           IpcMachine.Represents;
      forall va: nat
        ensures Closes(va)
      {
        if Walk(b.g, pool.Mem(), Pa(b.g, pool.p.base, pool.root1), va) != 0 {
          HalfClosed(b.g, pool.Mem(), Pa(b.g, pool.p.base, pool.root1), alias, va);
        }
      }
      forall va: nat | Walk(b.g, phys.mem, b.root, va) != 0
        ensures OutsideKernel(b, AddrOf(b.g, Walk(b.g, phys.mem, b.root, va)))
      {
        NothingExposed(b, [View()], [], phys.sh, pages, 0, va);
      }
    }

    /** The current task computes, or stores to a page it may write; any other store faults. */
    method UserTurn(e: Trap) returns (ghost t: Trap)
      requires Valid() && !tasks.halted && (e.UserStep? || e.UserStore?)
      modifies tasks, phys`mem
      ensures Valid() && View() == Step(b, old(View()), t) && CanStep(b, old(View()), t)
      ensures t == e || (t == Fault && e.UserStore? && !old(CanStep(b, View(), e)))
    {
      hide Sound, Stores, Inv, IpcMachine.Represents, Step, Next, ShapeAfter, PagesAfter, Extends, Walk, UserWritable;
      StoresFacts();
      ghost var s := View();
      NotParked(b, s, phys.sh, pages);
      var leaf := if e.UserStore? then Walk(b.g, phys.mem, tasks.space, e.va) else 0;
      if e.UserStore? && !UserWritable(leaf) {
        var _ := Interrupt(true);
        return Fault;
      }
      t := e;
      UserTurnStep(b, s, phys.sh, pages, e);
      StepSound(b, s, phys.sh, pages, e);
      if e.UserStep? {
        tasks.RunUser(e.ctx);
      } else {
        Facts(tasks.View(), {}, false);
        var c := tasks.ctx[tasks.current];
        tasks.RunUser(c);
        phys.mem := PutEntry(phys.mem, AddrOf(b.g, leaf), e.i, e.w);
      }
    }

    /** One turn of the machine; a system call decides for itself whether its memory can be prepared. */
    method Handle(e: Trap) returns (ghost t: Trap)
      requires Valid() && !tasks.halted
      modifies `parked, `alias, `pages, tasks, cnode, cnode.slots, pool, phys`mem, phys`sh
      ensures Valid() && CanStep(b, old(View()), t) && View() == Step(b, old(View()), t)
      ensures TrapOutcome(b, old(View()), t, View())
      ensures e.Svc? <==> t.Svc?
      ensures e.Svc? || t == e || (t == Fault && e.UserStore? && !old(CanStep(b, View(), e)))
    {
      hide Sound, Stores, Inv, IpcMachine.Represents, Step, Walk, UserWritable, TrapOutcome, CallOutcome;
      StoresFacts();
      ghost var s := View();
      NotParked(b, s, phys.sh, pages);
      match e {
        case UserStep(_) => t := UserTurn(e);
        case UserStore(_, _, _) => t := UserTurn(e);
        case Timer =>
          var _ := Interrupt(false);
          t := Timer;
        case Fault =>
          var _ := Interrupt(true);
          t := Fault;
        case Svc(_) =>
          var ok;
          ghost var ready;
          ok, ready := Syscall();
          t := Svc(ready);
      }
      TrapMeets(b, s, old(phys.sh), old(pages), t);
    }

    /** Any exceptions, system calls and user stores in any order: a run of the machine, closed to EL0 at its end. */
    method Run(es: seq<Trap>) returns (ghost ss: seq<System>, ghost ts: seq<Trap>)
      requires Valid()
      modifies `parked, `alias, `pages, tasks, cnode, cnode.slots, pool, phys`mem, phys`sh
      ensures Valid() && Closed()
      ensures KernelRun(b, ss, ts) && ss[0] == old(View()) && ss[|ts|] == View()
      ensures |ts| <= |es| && (|ts| < |es| ==> tasks.halted)
      ensures forall k :: 0 <= k < |ts| ==>
                (es[k].Svc? <==> ts[k].Svc?) && (es[k].Svc? || ts[k] == es[k] || ts[k] == Fault)
    {
      hide Sound, Stores, Inv, IpcMachine.Represents, Step, CanStep, TrapOutcome;
      StoresFacts();
      ss, ts := [View()], [];
      var i := 0;
      while i < |es| && !tasks.halted
        invariant 0 <= i <= |es| && |ts| == i && Valid()
        invariant cnode.Valid() && KernelRun(b, ss, ts) && ss[0] == old(View()) && ss[i] == View()
        invariant forall k :: 0 <= k < i ==>
                    (es[k].Svc? <==> ts[k].Svc?) && (es[k].Svc? || ts[k] == es[k] || ts[k] == Fault)
      {
        ghost var t := Handle(es[i]);
        StoresFacts();
        ss, ts := ss + [View()], ts + [t];
        i := i + 1;
      }
      StaysClosed();
    }

    /** The cleared granule is the new object. */
    method AddObject(kind: ObjKind, carve: nat, slot: Word)
      requires tasks.Valid() && Enabled(tasks.View(), ObjectEvent(kind, carve, slot))
      modifies tasks
      ensures tasks.Valid() && tasks.View() == Next(old(tasks.View()), ObjectEvent(kind, carve, slot)) && !tasks.halted
    {
      hide Inv, IpcMachine.Represents, Next;
      match kind {
        case TcbObj => tasks.CreateTcb(Alias(carve), slot);
        case EndpointObj => tasks.CreateEndpoint(Alias(carve), slot);
        case _ => tasks.ReturnX0(slot);
      }
    }
  }

  lemma NotParked(b: Boot, s: System, sh: Shape, pages: Pages)
    requires Sound(b, s, sh, pages)
    ensures !s.corrupt
  {
  }

  lemma InterruptStep(b: Boot, s: System, sh: Shape, pages: Pages, e: Trap)
    requires e.Fault? || e.Timer?
    ensures Step(b, s, e) == System(Next(s.sys, if e.Fault? then Kill else Tick), s.caps, s.mem, s.corrupt)
    ensures ShapeAfter(b, s, sh, e) == sh && PagesAfter(b, s, pages, e) == pages
  {
    hide Next;
  }

  lemma UserTurnStep(b: Boot, s: System, sh: Shape, pages: Pages, e: Trap)
    requires e.UserStep? || e.UserStore?
    ensures var c := if e.UserStep? then e.ctx else CtxOf(s.sys, s.sys.current);
            var mem := if e.UserStep? then s.mem
                       else PutEntry(s.mem, AddrOf(b.g, Walk(b.g, s.mem, SpaceOf(s), e.va)), e.i, e.w);
            Step(b, s, e) == System(Next(s.sys, UserRuns(c)), s.caps, mem, s.corrupt)
    ensures ShapeAfter(b, s, sh, e) == sh && PagesAfter(b, s, pages, e) == pages
  {
    hide Next, Walk, AddrOf, PutEntry;
  }

  lemma MapNowhere(g: Granule, caps: seq<Cap>, mem: Mem, slot: nat, va: nat, perm: nat, aspace: nat)
    requires SpaceAt(caps, aspace).Err?
    ensures DoMap(g, caps, mem, slot, va, perm, aspace) == Mapping(Some(SpaceAt(caps, aspace).error), caps, mem)
  {
  }

  lemma MapAlias(b: Boot, caps: seq<Cap>, mem: Mem, slot: nat, va: nat, perm: nat, aspace: nat, alias: seq<Segment>)
    requires AliasApart(b, caps, alias)
    ensures AliasApart(b, DoMap(b.g, caps, mem, slot, va, perm, aspace).caps, alias)
  {
    hide MapFrame, InstallTable, AliasApart, SpaceAt;
    match CapAt(caps, slot)
    case Some(Frame(base, _)) =>
      FlagKeepsObjects(caps, slot, Frame(base, true));
      ObjectsStay(b, caps, caps[slot := Frame(base, true)], alias);
    case Some(PageTable(base, _)) =>
      FlagKeepsObjects(caps, slot, PageTable(base, true));
      ObjectsStay(b, caps, caps[slot := PageTable(base, true)], alias);
    case _ =>
  }

  /** The commit of `retype`: advance the watermark, then record the object in a fresh slot. */
  method CommitCarve(cnode: CNode, slot: nat, kind: ObjKind, carve: nat, g: Granule)
    requires cnode.Valid() && CarveAt(cnode.Contents(), slot, g) == Ok(carve)
    modifies cnode`used, cnode.slots
    ensures cnode.Valid() && cnode.Contents() == Commit(old(cnode.Contents()), slot, kind, carve, g)
  {
    var c := cnode.slots[slot];
    cnode.SetCap(slot, c.(used := carve + Size(g) - c.base));
    var pushed := cnode.Push(NewCap(kind, carve));
  }

  lemma SoundParts(b: Boot, s: System, sh: Shape, pages: Pages)
    requires Sound(b, s, sh, pages)
    ensures BootOk(b) && CNodeOk(b, s.caps) && TasksMatch(b, s.sys, s.caps) && MemoryOk(b, s.caps, s.mem, sh, pages)
    ensures !s.corrupt
    ensures Safe(s.sys)
  {
  }

  lemma AliasWalk(g: Granule, mem: Mem, root: nat, alias: seq<Segment>, f: nat)
    requires HalfMap(g, mem, root, KERNEL_VA_OFFSET, alias) && IsFrame(g, f)
    ensures Walk(g, mem, root, f + KERNEL_VA_OFFSET) == LeafFor(alias, f)
  {
  }
}
