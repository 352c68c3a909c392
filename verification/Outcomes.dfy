/**
  What each exception does to the whole machine, call number by call number: the code in x0, the slots,
  the words of memory, the translations the hardware walk finds, and the tasks.  The relations decide on
  the registers of the caller and on the capabilities alone, with the numbers of the binary interface
  written out, and every step is proved to meet them.
*/
module Outcomes {
  import opened Abi
  import opened Descriptors
  import opened Tables
  import opened UserSpace
  import opened UserPages
  import opened Tasks
  import opened Ipc
  import opened IpcOutcomes
  import opened IpcSpaces
  import opened Caps
  import opened Retype
  import opened Syscalls
  import opened Ownership
  import opened OwnershipRuns
  import opened Answers

  /** The call returns `code` and changes nothing else at all. */
  ghost predicate OnlyReturns(s: System, code: int, s': System) {
    s' == s.(sys := s'.sys) && Returns(s.sys, code, s'.sys)
  }

  /** A slot that is out of range, or that holds the wrong kind of capability. */
  function SlotError(caps: seq<Cap>, slot: nat): int {
    if slot >= |caps| then -1 else -12
  }

  // ---------------------------------------------------------------- calls that only move tasks

  ghost predicate IpcOutcome(number: nat, s: Sys, e: Ptr, s': Sys) {
    if number == 7 then Sends(s, e, s')
    else if number == 8 then Receives(s, e, s')
    else if number == 9 then CallsOut(s, e, s')
    else RepliesReceives(s, e, s')
  }

  /** SEND is 7, RECV 8, CALL 9 and REPLY_RECV 10. */
  ghost predicate OnEndpoint(s: System, s': System) {
    var c := CtxOf(s.sys, s.sys.current);
    if c.x0 < |s.caps| && s.caps[c.x0].Endpoint? then
      s' == s.(sys := s'.sys) && IpcOutcome(c.x8, s.sys, s.caps[c.x0].base + 0xFFFF_0000_0000_0000, s'.sys)
    else OnlyReturns(s, SlotError(s.caps, c.x0), s')
  }

  /** DEBUG_PUTC is 0. */
  ghost predicate PutsChar(s: System, s': System) {
    var slot := CtxOf(s.sys, s.sys.current).x0;
    OnlyReturns(s, if slot < |s.caps| && s.caps[slot].Console? then 0 else SlotError(s.caps, slot), s')
  }

  /** YIELD is 1. */
  ghost predicate Yields(s: System, s': System) {
    s' == s.(sys := s'.sys) && exists mid :: Returns(s.sys, 0, mid) && TurnEnds(mid, s'.sys)
  }

  /** EXIT is 2, and so is in effect every number that is not a call. */
  ghost predicate Exits(s: System, s': System) {
    s' == s.(sys := s'.sys) && Dies(s.sys, s'.sys)
  }

  /** TCB_CONFIGURE is 5. */
  ghost predicate ConfiguresTcb(b: Boot, s: System, s': System) {
    var c, caps := CtxOf(s.sys, s.sys.current), s.caps;
    var slot, aspace := c.x0, c.mr.m1;
    if !GoodAddresses(b.g, c.x1, c.mr.m0) then OnlyReturns(s, -6, s')
    else if aspace >= |caps| || !caps[aspace].AddrSpace? then OnlyReturns(s, SlotError(caps, aspace), s')
    else if slot >= |caps| || !caps[slot].Tcb? then OnlyReturns(s, SlotError(caps, slot), s')
    else
      && s' == s.(sys := s'.sys)
      && Configures(s.sys, caps[slot].base + 0xFFFF_0000_0000_0000, c.x1, c.mr.m0, b.root, s'.sys)
  }

  /** TCB_RESUME is 6. */
  ghost predicate ResumesTcb(s: System, s': System) {
    var slot := CtxOf(s.sys, s.sys.current).x0;
    if slot < |s.caps| && s.caps[slot].Tcb? then
      s' == s.(sys := s'.sys) && Resumes(s.sys, s.caps[slot].base + 0xFFFF_0000_0000_0000, s'.sys)
    else OnlyReturns(s, SlotError(s.caps, slot), s')
  }

  // ---------------------------------------------------------------- RETYPE

  /** The object types are 1 for a frame, 2 for a page table, 3 for a TCB and 4 for an endpoint. */
  predicate ObjectOf(kind: nat, a: nat, c: Cap) {
    && (kind == 1 ==> c == Frame(a, false)) && (kind == 2 ==> c == PageTable(a, false))
    && (kind == 3 ==> c == Cap.Tcb(a)) && (kind == 4 ==> c == Cap.Endpoint(a))
  }

  ghost predicate TaskObject(kind: nat, s: Sys, p: Ptr, slot: nat, s': Sys) {
    if kind == 3 then AddsTcb(s, p, slot, s')
    else if kind == 4 then AddsEndpoint(s, p, slot, s')
    else Returns(s, slot, s')
  }

  /**
    The granule `a` is carved: it is the lowest that is free, its memory is clear, the watermark moves to
    its end, and the returned number is that of the new slot, which holds the new object.
  */
  ghost predicate Carves(b: Boot, s: System, a: nat, s': System) {
    var c, n := CtxOf(s.sys, s.sys.current), |s.caps|;
    var slot := c.x0;
    && slot < n && s.caps[slot].Untyped? && |s'.caps| == n + 1
    && !NoRoomAt(b.g, s.caps[slot], a) && (forall x: nat :: x < a ==> NoRoomAt(b.g, s.caps[slot], x))
    && s'.caps[slot] == s.caps[slot].(used := a + Size(b.g) - s.caps[slot].base)
    && (forall i: nat :: i < n && i != slot ==> s'.caps[i] == s.caps[i])
    && ObjectOf(c.x1, a, s'.caps[n]) && TaskObject(c.x1, s.sys, a + 0xFFFF_0000_0000_0000, n, s'.sys)
    && a in s'.mem && s'.mem == s.mem[a := s'.mem[a]] && |s'.mem[a]| == Entries(b.g)
    && (forall i :: 0 <= i < |s'.mem[a]| ==> s'.mem[a][i] == 0)
    && s'.corrupt == s.corrupt
  }

  /** RETYPE is 3. */
  ghost predicate Retypes(b: Boot, s: System, ready: bool, s': System) {
    var c, caps := CtxOf(s.sys, s.sys.current), s.caps;
    var slot := c.x0;
    if !(1 <= c.x1 <= 4) then OnlyReturns(s, -5, s')
    else if slot >= |caps| then OnlyReturns(s, -1, s')
    else if !caps[slot].Untyped? then OnlyReturns(s, -2, s')
    else if |caps| == 32 then OnlyReturns(s, -4, s')
    else if NoRoom(b.g, caps[slot]) then OnlyReturns(s, -3, s')
    else if !ready then OnlyReturns(s, -11, s')
    else exists a: nat :: Carves(b, s, a, s')
  }

  // ---------------------------------------------------------------- MAP

  ghost predicate OneWordWritten(mem: Mem, mem': Mem) {
    exists t, i :: t in mem && t in mem' && 0 <= i < |mem[t]| == |mem'[t]| && mem' == mem[t := mem[t][i := mem'[t][i]]]
  }

  /** The page at `va` now is the frame, writable exactly for permission 1; no other translation differs. */
  ghost predicate MapsPage(b: Boot, s: System, slot: nat, va: nat, perm: nat, s': System) {
    && slot < |s.caps| && s.caps[slot].Frame? && s' == s.(sys := s'.sys, caps := s'.caps, mem := s'.mem)
    && Returns(s.sys, 0, s'.sys) && s'.caps == s.caps[slot := Frame(s.caps[slot].base, true)]
    && UserLeaf(b.g, Walk(b.g, s'.mem, b.root, va), s.caps[slot].base, perm == 1, false)
    && (forall v: nat :: Page(b.g, v) != Page(b.g, va) ==> Walk(b.g, s'.mem, b.root, v) == Walk(b.g, s.mem, b.root, v))
    && OneWordWritten(s.mem, s'.mem)
  }

  /** One gap on the path to `va` is closed; no translation differs. */
  ghost predicate ClosesGap(b: Boot, s: System, slot: nat, va: nat, s': System) {
    && slot < |s.caps| && s.caps[slot].PageTable? && s' == s.(sys := s'.sys, caps := s'.caps, mem := s'.mem)
    && Returns(s.sys, 0, s'.sys) && s'.caps == s.caps[slot := PageTable(s.caps[slot].base, true)]
    && (forall v: nat :: Walk(b.g, s'.mem, b.root, v) == Walk(b.g, s.mem, b.root, v))
    && Missing(b.g, s'.mem, b.root, va) == Missing(b.g, s.mem, b.root, va) - 1
    && OneWordWritten(s.mem, s'.mem)
  }

  ghost predicate MapsFrame(b: Boot, s: System, slot: nat, va: nat, perm: nat, s': System)
    requires slot < |s.caps| && s.caps[slot].Frame?
  {
    if s.caps[slot].mapped then OnlyReturns(s, -8, s')
    else if perm > 1 then OnlyReturns(s, -7, s')
    else if !GoodPage(b.g, va) then OnlyReturns(s, -6, s')
    else if Missing(b.g, s.mem, b.root, va) > 0 then OnlyReturns(s, -9, s')
    else if Walk(b.g, s.mem, b.root, va) != 0 then OnlyReturns(s, -10, s')
    else MapsPage(b, s, slot, va, perm, s')
  }

  ghost predicate MapsTable(b: Boot, s: System, slot: nat, va: nat, s': System)
    requires slot < |s.caps| && s.caps[slot].PageTable?
  {
    if s.caps[slot].installed then OnlyReturns(s, -8, s')
    else if va >= 0x1_0000_0000_0000 then OnlyReturns(s, -6, s')
    else if Missing(b.g, s.mem, b.root, va) == 0 then OnlyReturns(s, -10, s')
    else ClosesGap(b, s, slot, va, s')
  }

  /** MAP is 4. */
  ghost predicate Maps(b: Boot, s: System, s': System) {
    var c, caps := CtxOf(s.sys, s.sys.current), s.caps;
    var slot, va, perm, aspace := c.x0, c.x1, c.mr.m0, c.mr.m1;
    if aspace >= |caps| || !caps[aspace].AddrSpace? then OnlyReturns(s, SlotError(caps, aspace), s')
    else if slot < |caps| && caps[slot].Frame? then MapsFrame(b, s, slot, va, perm, s')
    else if slot < |caps| && caps[slot].PageTable? then MapsTable(b, s, slot, va, s')
    else OnlyReturns(s, SlotError(caps, slot), s')
  }

  // ---------------------------------------------------------------- every exception

  ghost predicate CallOutcome(b: Boot, s: System, ready: bool, s': System) {
    var number := CtxOf(s.sys, s.sys.current).x8;
    if number == 0 then PutsChar(s, s')
    else if number == 1 then Yields(s, s')
    else if number == 3 then Retypes(b, s, ready, s')
    else if number == 4 then Maps(b, s, s')
    else if number == 5 then ConfiguresTcb(b, s, s')
    else if number == 6 then ResumesTcb(s, s')
    else if 7 <= number <= 10 then OnEndpoint(s, s')
    else Exits(s, s')
  }

  /** A store through a writable page of the current address space writes one word of its frame. */
  ghost predicate Stores(b: Boot, s: System, va: nat, i: nat, w: Word, s': System) {
    var a := AddrOf(b.g, Walk(b.g, s.mem, b.root, va));
    if a in s.mem && i < |s.mem[a]| then
      var row: Table := s.mem[a][i := w];
      s' == s.(mem := s.mem[a := row])
    else s' == s
  }

  ghost predicate TrapOutcome(b: Boot, s: System, e: Trap, s': System) {
    match e
    case UserStep(c) => s' == s.(sys := s.sys.(ctx := s.sys.ctx[s.sys.current := c]))
    case UserStore(va, i, w) => Stores(b, s, va, i, w, s')
    case Timer => s' == s.(sys := s'.sys) && TurnEnds(s.sys, s'.sys)
    case Fault => Exits(s, s')
    case Svc(ready) => CallOutcome(b, s, ready, s')
  }

  // ---------------------------------------------------------------- calls that only move tasks meet theirs

  lemma ReturnTells(s: Sys, code: Word)
    ensures Returns(s, Signed(code), Next(s, Return(code)))
  {
    hide Returns, DoSend, DoRecv, DoCall, DoKill, Reply, Rotate, DoConfigure, DoResume;
    ReturnMeets(s, code);
  }

  lemma EventReturns(s: System, code: Word, s': System)
    requires s' == s.(sys := Next(s.sys, Return(code)))
    ensures OnlyReturns(s, Signed(code), s')
  {
    hide Returns, Next;
    ReturnTells(s.sys, code);
  }

  lemma PutcMeets(b: Boot, s: System, ready: bool)
    requires Calls(s, 0)
    ensures PutsChar(s, Step(b, s, Svc(ready)))
  {
    hide Next, OnlyReturns, Step;
    PlainStep(b, s, ready);
    EventReturns(s, PutcCode(s.caps, CtxOf(s.sys, s.sys.current).x0), Step(b, s, Svc(ready)));
  }

  lemma YieldMeets(b: Boot, s: System, ready: bool)
    requires Safe(s.sys) && !s.sys.halted && Calls(s, 1)
    ensures Yields(s, Step(b, s, Svc(ready)))
  {
    hide Inv, Rotate, Step, Returns, TurnEnds, DoSend, DoRecv, DoCall, DoKill, Reply, DoConfigure, DoResume;
    PlainStep(b, s, ready);
    ReturnMeets(s.sys, 0);
    Facts(s.sys, {}, false);
    KeepCtx(s.sys, {}, false, s.sys.current, CtxOf(s.sys, s.sys.current).(x0 := 0));
    TurnMeets(SetX0(s.sys, s.sys.current, 0));
  }

  lemma ExitMeets(b: Boot, s: System, ready: bool)
    requires Calls(s, 2) || CtxOf(s.sys, s.sys.current).x8 > 10
    ensures Exits(s, Step(b, s, Svc(ready)))
  {
    hide Step, Dies, DoSend, DoRecv, DoCall, DoKill, Reply, DoConfigure, DoResume, Rotate;
    PlainStep(b, s, ready);
    KillMeets(s.sys);
  }

  lemma IpcEventMeets(number: Word, s: Sys, e: Ptr)
    requires Safe(s) && !s.halted && e in s.eps && 7 <= number <= 10
    ensures IpcOutcome(number, s, e, Next(s, IpcEvent(number, Ok(e))))
  {
    hide Inv, DoSend, DoRecv, DoCall, DoKill, Reply, DoConfigure, DoResume, Rotate, Sends, Receives, CallsOut,
         RepliesReceives;
    SendMeets(s, e);
    RecvMeets(s, e);
    CallMeets(s, e);
    ReplyRecvMeets(s, e);
  }

  /** The outcome of an IPC call is that relation and nothing else. */
  lemma IpcExact(number: Word, s: Sys, e: Ptr, s': Sys)
    requires Safe(s) && !s.halted && e in s.eps && 7 <= number <= 10
    ensures IpcOutcome(number, s, e, s') <==> s' == Next(s, IpcEvent(number, Ok(e)))
  {
    hide Inv, Next, IpcEvent, Sends, Receives, CallsOut, RepliesReceives;
    IpcEventMeets(number, s, e);
    var x := Next(s, IpcEvent(number, Ok(e)));
    if IpcOutcome(number, s, e, s') {
      if number == 7 {
        SendsOnce(s, e, x, s');
      } else if number == 8 {
        ReceivesOnce(s, e, x, s');
      } else if number == 9 {
        CallsOutOnce(s, e, x, s');
      } else {
        RepliesReceivesOnce(s, e, x, s');
      }
    }
  }

  lemma EndpointMeets(b: Boot, s: System, ready: bool)
    requires Safe(s.sys) && !s.sys.halted && TasksMatch(b, s.sys, s.caps)
    requires 7 <= CtxOf(s.sys, s.sys.current).x8 <= 10
    ensures OnEndpoint(s, Step(b, s, Svc(ready)))
  {
    hide Inv, TasksMatch, Step, Next, OnlyReturns, IpcOutcome;
    var c := CtxOf(s.sys, s.sys.current);
    PlainStep(b, s, ready);
    if EndpointAt(s.caps, c.x0).Ok? {
      EndpointKnown(b, s, c.x0);
      IpcEventMeets(c.x8, s.sys, EndpointAt(s.caps, c.x0).value);
    } else {
      EventReturns(s, EndpointAt(s.caps, c.x0).error, Step(b, s, Svc(ready)));
    }
  }

  lemma ResumeTcbMeets(b: Boot, s: System, ready: bool)
    requires Safe(s.sys) && !s.sys.halted && TasksMatch(b, s.sys, s.caps) && Calls(s, 6)
    ensures ResumesTcb(s, Step(b, s, Svc(ready)))
  {
    hide Inv, TasksMatch, Step, OnlyReturns, Resumes, DoSend, DoRecv, DoCall, DoKill, Reply, DoConfigure, DoResume,
         Rotate;
    var slot := CtxOf(s.sys, s.sys.current).x0;
    PlainStep(b, s, ready);
    if TcbAt(s.caps, slot).Ok? {
      TcbKnown(b, s, slot);
      ResumeMeets(s.sys, TcbAt(s.caps, slot).value);
    } else {
      EventReturns(s, TcbAt(s.caps, slot).error, Step(b, s, Svc(ready)));
    }
  }

  lemma ConfigureTcbMeets(b: Boot, s: System, ready: bool)
    requires Safe(s.sys) && !s.sys.halted && TasksMatch(b, s.sys, s.caps) && OneAddrSpace(b, s.caps) && Calls(s, 5)
    ensures ConfiguresTcb(b, s, Step(b, s, Svc(ready)))
  {
    hide Inv, TasksMatch, Step, OnlyReturns, Configures, DoSend, DoRecv, DoCall, DoKill, Reply, DoConfigure, DoResume,
         Rotate, Size;
    var c := CtxOf(s.sys, s.sys.current);
    PlainStep(b, s, ready);
    var ev := ConfigureEvent(b.g, s.caps, c.x0, c.x1, c.mr.m0, c.mr.m1);
    if SpaceAt(s.caps, c.mr.m1).Ok? {
      SpaceIsRoot(b, s.caps, c.mr.m1);
    }
    if ev.Configure? {
      TcbKnown(b, s, c.x0);
      ConfigureMeets(s.sys, ev.t, ev.entry, ev.stack, ev.root);
    } else {
      EventReturns(s, ev.x0, Step(b, s, Svc(ready)));
    }
  }

  // ---------------------------------------------------------------- RETYPE and MAP meet theirs

  lemma UntypedEnds(b: Boot, caps: seq<Cap>, slot: nat)
    requires CNodeOk(b, caps)
    ensures slot < |caps| && caps[slot].Untyped? ==>
              caps[slot].base + caps[slot].size < TWO_64 && caps[slot].used <= caps[slot].size
  {
  }

  lemma ObjectEventMeets(s: Sys, k: ObjKind, kind: nat, a: nat, slot: Word)
    requires Safe(s) && !s.halted && KindOf(kind) == Some(k) && Enabled(s, ObjectEvent(k, a, slot))
    requires slot < 0x8000_0000_0000_0000
    ensures TaskObject(kind, s, a + 0xFFFF_0000_0000_0000, slot, Next(s, ObjectEvent(k, a, slot)))
    ensures ObjectOf(kind, a, NewCap(k, a))
  {
    hide Inv, AddsTcb, AddsEndpoint, Returns, DoSend, DoRecv, DoCall, DoKill, Reply, DoConfigure, DoResume, Rotate;
    if k == TcbObj || k == EndpointObj {
      ObjectMeets(s, Alias(a), slot);
    }
    ReturnMeets(s, slot);
  }

  lemma CarveMeets(b: Boot, s: System, ready: bool)
    requires BootOk(b) && CNodeOk(b, s.caps) && TasksMatch(b, s.sys, s.caps) && Safe(s.sys) && !s.sys.halted
    requires Calls(s, 3)
    requires var c := CtxOf(s.sys, s.sys.current); RetypePlan(b.g, s.caps, c.x0, c.x1, ready).Ok?
    ensures var c := CtxOf(s.sys, s.sys.current);
            Carves(b, s, RetypePlan(b.g, s.caps, c.x0, c.x1, ready).value.0, Step(b, s, Svc(ready)))
  {
    hide Step, BootOk, CNodeOk, TasksMatch, Inv, Next, ObjectEvent, NewCap, ObjectOf, TaskObject, Size, Enabled;
    var c := CtxOf(s.sys, s.sys.current);
    var plan := RetypePlan(b.g, s.caps, c.x0, c.x1, ready);
    var a := plan.value.0;
    RetypeStep(b, s, ready);
    UntypedEnds(b, s.caps, c.x0);
    CarveIsLowest(s.caps, c.x0, b.g);
    RetypeEnabled(b, s, c.x0, c.x1, ready);
    SlotFits(b, s.caps);
    ObjectEventMeets(s.sys, plan.value.1, c.x1, a, SlotWord(s.caps));
    hide CarveAt, Aligned;
  }

  lemma SlotFits(b: Boot, caps: seq<Cap>)
    requires CNodeOk(b, caps)
    ensures SlotWord(caps) == |caps| < 0x8000_0000_0000_0000
  {
  }

  lemma RetypeMeets(b: Boot, s: System, ready: bool)
    requires BootOk(b) && CNodeOk(b, s.caps) && TasksMatch(b, s.sys, s.caps) && Safe(s.sys) && !s.sys.halted
    requires Calls(s, 3)
    ensures Retypes(b, s, ready, Step(b, s, Svc(ready)))
  {
    hide Step, BootOk, CNodeOk, TasksMatch, Inv, Next, Carves, OnlyReturns, NoRoom, RetypePlan;
    var c := CtxOf(s.sys, s.sys.current);
    UntypedEnds(b, s.caps, c.x0);
    RetypeAnswers(b.g, s.caps, c.x0, c.x1, ready);
    RetypeStep(b, s, ready);
    var plan := RetypePlan(b.g, s.caps, c.x0, c.x1, ready);
    if plan.Ok? {
      CarveMeets(b, s, ready);
    } else {
      EventReturns(s, plan.error, Step(b, s, Svc(ready)));
    }
  }

  lemma PutWrites(mem: Mem, t: nat, i: nat, e: nat)
    requires t in mem && i < |mem[t]|
    ensures OneWordWritten(mem, PutEntry(mem, t, i, e))
  {
    var mem' := PutEntry(mem, t, i, e);
    assert mem' == mem[t := mem[t][i := mem'[t][i]]];
  }

  lemma MapPageMeets(b: Boot, caps: seq<Cap>, mem: Mem, sh: Shape, pages: Pages, slot: nat, va: nat, p: UserPerm)
    requires BootOk(b) && CNodeOk(b, caps) && MemoryOk(b, caps, mem, sh, pages) && FreshFrame(caps, slot)
    requires MapFrame(b.g, mem, b.root, va, caps[slot].base, p).Ok?
    ensures var mem' := MapFrame(b.g, mem, b.root, va, caps[slot].base, p).value;
            && UserLeaf(b.g, Walk(b.g, mem', b.root, va), caps[slot].base, p == RwUser, p == TextUser)
            && OneWordWritten(mem, mem')
            && forall v: nat :: Page(b.g, v) != Page(b.g, va) ==>
                 Walk(b.g, mem', b.root, v) == Walk(b.g, mem, b.root, v)
  {
    hide BootOk, CNodeOk, MemoryOk, Walk, UserLeaf, UserAttrs, Leaf, Page, Forest, Index, Follow, OneWordWritten,
         PutEntry, IsFrame;
    var base := caps[slot].base;
    MapRoot(b, caps, mem, sh, pages);
    assert caps[slot] in caps;
    ObjIsFree(b, caps, caps[slot]);
    MapFrameExact(b.g, mem, sh, b.root, va, base, p);
    UserLeafIs(b.g, base, p);
    FollowIs(b.g, mem, sh, b.root, va, 0);
    var t := Follow(b.g, mem, b.root, va, 0).value;
    LevelOf(b.g, mem, sh, b.root, va, 3);
    EntryOk(b.g, mem, sh, t, Index(b.g, va, 3));
    PutWrites(mem, t, Index(b.g, va, 3), Leaf(base, UserAttrs(p)));
  }

  lemma GapMeets(b: Boot, caps: seq<Cap>, mem: Mem, sh: Shape, pages: Pages, slot: nat, va: nat)
    requires CNodeOk(b, caps) && MemoryOk(b, caps, mem, sh, pages) && FreshPageTable(caps, slot)
    requires InstallTable(b.g, mem, b.root, va, caps[slot].base).Ok?
    ensures var mem' := InstallTable(b.g, mem, b.root, va, caps[slot].base).value;
            && (forall v: nat :: Walk(b.g, mem', b.root, v) == Walk(b.g, mem, b.root, v))
            && Missing(b.g, mem', b.root, va) == Missing(b.g, mem, b.root, va) - 1
            && OneWordWritten(mem, mem')
  {
    hide CNodeOk, MemoryOk, Walk, Missing, Link, Forest, Index, FirstGap, OneWordWritten, PutEntry, FreshTable,
         InstalledShape;
    var base := caps[slot].base;
    MapRoot(b, caps, mem, sh, pages);
    UninstalledFresh(b, caps, mem, sh, pages, slot, base);
    InstallExact(b.g, mem, sh, b.root, va, base);
    FirstGapIs(b.g, mem, sh, b.root, va, 0);
    var gap := FirstGap(b.g, mem, b.root, va, 0).value;
    PutWrites(mem, gap.0, Index(b.g, va, gap.1), Link(base));
  }

  lemma MapFrameMeets(b: Boot, s: System, sh: Shape, pages: Pages, ready: bool)
    requires BootOk(b) && CNodeOk(b, s.caps) && MemoryOk(b, s.caps, s.mem, sh, pages) && Calls(s, 4)
    requires var c := CtxOf(s.sys, s.sys.current);
             IsSpace(s.caps, c.mr.m1) && c.x0 < |s.caps| && s.caps[c.x0].Frame?
    ensures var c := CtxOf(s.sys, s.sys.current);
            MapsFrame(b, s, c.x0, c.x1, c.mr.m0, Step(b, s, Svc(ready)))
  {
    hide Step, BootOk, CNodeOk, MemoryOk, Next, OnlyReturns, Returns, UserLeaf, Walk, Page, Missing, MapFrame,
         OneWordWritten, GoodPage, MapPages, MapShape, OneAddrSpace;
    var c, s' := CtxOf(s.sys, s.sys.current), Step(b, s, Svc(ready));
    MapStep(b, s, ready);
    MapRoot(b, s.caps, s.mem, sh, pages);
    SpaceIsRoot(b, s.caps, c.mr.m1);
    MapAnswers(b, s.caps, s.mem, sh, pages, c.x0, c.x1, c.mr.m0, c.mr.m1);
    MapKeeps(b, s.caps, s.mem, sh, pages, c.x0, c.x1, c.mr.m0, c.mr.m1);
    var m := DoMap(b.g, s.caps, s.mem, c.x0, c.x1, c.mr.m0, c.mr.m1);
    if m.code == Some(0) {
      MapPageMeets(b, s.caps, s.mem, sh, pages, c.x0, c.x1, PermAt(c.mr.m0).value);
      ReturnTells(s.sys, 0);
    } else {
      EventReturns(s, m.code.value, s');
    }
  }

  lemma MapTableMeets(b: Boot, s: System, sh: Shape, pages: Pages, ready: bool)
    requires BootOk(b) && CNodeOk(b, s.caps) && MemoryOk(b, s.caps, s.mem, sh, pages) && Calls(s, 4)
    requires var c := CtxOf(s.sys, s.sys.current);
             IsSpace(s.caps, c.mr.m1) && c.x0 < |s.caps| && s.caps[c.x0].PageTable?
    ensures var c := CtxOf(s.sys, s.sys.current);
            MapsTable(b, s, c.x0, c.x1, Step(b, s, Svc(ready)))
  {
    hide Step, BootOk, CNodeOk, MemoryOk, Next, OnlyReturns, Returns, Walk, Missing, InstallTable, OneWordWritten,
         MapPages, MapShape, OneAddrSpace;
    var c, s' := CtxOf(s.sys, s.sys.current), Step(b, s, Svc(ready));
    MapStep(b, s, ready);
    MapRoot(b, s.caps, s.mem, sh, pages);
    SpaceIsRoot(b, s.caps, c.mr.m1);
    MapAnswers(b, s.caps, s.mem, sh, pages, c.x0, c.x1, c.mr.m0, c.mr.m1);
    MapKeeps(b, s.caps, s.mem, sh, pages, c.x0, c.x1, c.mr.m0, c.mr.m1);
    var m := DoMap(b.g, s.caps, s.mem, c.x0, c.x1, c.mr.m0, c.mr.m1);
    if m.code == Some(0) {
      GapMeets(b, s.caps, s.mem, sh, pages, c.x0, c.x1);
      ReturnTells(s.sys, 0);
    } else {
      EventReturns(s, m.code.value, s');
    }
  }

  lemma MapMeets(b: Boot, s: System, sh: Shape, pages: Pages, ready: bool)
    requires BootOk(b) && CNodeOk(b, s.caps) && MemoryOk(b, s.caps, s.mem, sh, pages) && Calls(s, 4)
    ensures Maps(b, s, Step(b, s, Svc(ready)))
  {
    hide Step, BootOk, CNodeOk, MemoryOk, Next, OnlyReturns, MapsFrame, MapsTable, MapFrame, InstallTable;
    var c, s' := CtxOf(s.sys, s.sys.current), Step(b, s, Svc(ready));
    if IsSpace(s.caps, c.mr.m1) && c.x0 < |s.caps| && s.caps[c.x0].Frame? {
      MapFrameMeets(b, s, sh, pages, ready);
    } else if IsSpace(s.caps, c.mr.m1) && c.x0 < |s.caps| && s.caps[c.x0].PageTable? {
      MapTableMeets(b, s, sh, pages, ready);
    } else {
      MapStep(b, s, ready);
      EventReturns(s, DoMap(b.g, s.caps, s.mem, c.x0, c.x1, c.mr.m0, c.mr.m1).code.value, s');
    }
  }

  /** Every system call, with whatever registers, on every sound state does what its number promises. */
  lemma CallMeetsOutcome(b: Boot, s: System, sh: Shape, pages: Pages, ready: bool)
    requires Sound(b, s, sh, pages) && !s.sys.halted
    ensures CallOutcome(b, s, ready, Step(b, s, Svc(ready)))
  {
    hide Step, BootOk, CapsOk, TasksMatch, MemoryOk, Inv, PutsChar, Yields, Retypes, Maps, ConfiguresTcb, ResumesTcb,
         OnEndpoint, Exits;
    var number := CtxOf(s.sys, s.sys.current).x8;
    if number == 0 {
      PutcMeets(b, s, ready);
    } else if number == 1 {
      YieldMeets(b, s, ready);
    } else if number == 3 {
      RetypeMeets(b, s, ready);
    } else if number == 4 {
      MapMeets(b, s, sh, pages, ready);
    } else if number == 5 {
      ConfigureTcbMeets(b, s, ready);
    } else if number == 6 {
      ResumeTcbMeets(b, s, ready);
    } else if 7 <= number <= 10 {
      EndpointMeets(b, s, ready);
    } else {
      ExitMeets(b, s, ready);
    }
  }

  lemma StoreMeets(b: Boot, s: System, va: nat, i: nat, w: Word)
    requires Safe(s.sys) && OneSpace(s.sys, b.root) && !s.sys.halted
    ensures Stores(b, s, va, i, w, Step(b, s, UserStore(va, i, w)))
  {
    hide Inv, OneSpace, Walk, AddrOf, DoSend, DoRecv, DoCall, DoKill, Reply, Rotate, DoConfigure, DoResume;
    CurrentSpace(b, s);
    Facts(s.sys, {}, false);
    var c := CtxOf(s.sys, s.sys.current);
    assert s.sys.ctx[s.sys.current := c] == s.sys.ctx;
  }

  lemma TimerMeets(b: Boot, s: System)
    requires Safe(s.sys) && !s.sys.halted
    ensures TrapOutcome(b, s, Timer, Step(b, s, Timer)) && TrapOutcome(b, s, Fault, Step(b, s, Fault))
  {
    hide Inv, TurnEnds, Dies, DoSend, DoRecv, DoCall, DoKill, Reply, Rotate, DoConfigure, DoResume;
    TurnMeets(s.sys);
    KillMeets(s.sys);
  }

  /** Every exception and every user step does what it promises. */
  lemma TrapMeets(b: Boot, s: System, sh: Shape, pages: Pages, e: Trap)
    requires Sound(b, s, sh, pages) && CanStep(b, s, e)
    ensures TrapOutcome(b, s, e, Step(b, s, e))
  {
    hide BootOk, CNodeOk, TasksMatch, MemoryOk, Inv, OneSpace, CallOutcome, Stores, TurnEnds, Exits, Walk, UserWritable;
    match e
    case UserStep(c) =>
    case UserStore(va, i, w) =>
      hide Step;
      StoreMeets(b, s, va, i, w);
    case Svc(ready) =>
      hide Step;
      CallMeetsOutcome(b, s, sh, pages, ready);
    case _ =>
      hide Step;
      TimerMeets(b, s);
  }

  /** So does every step of every run. */
  lemma RunMeets(b: Boot, ss: seq<System>, es: seq<Trap>, sh: Shape, pages: Pages, k: nat)
    requires KernelRun(b, ss, es) && Sound(b, ss[0], sh, pages) && k < |es|
    ensures TrapOutcome(b, ss[k], es[k], ss[k + 1])
  {
    hide Sound, CanStep, Step, TrapOutcome;
    var sh', pages' := RunSound(b, ss, es, sh, pages, k);
    TrapMeets(b, ss[k], sh', pages', es[k]);
  }
}
