/**
  A caller that never wakes up, on the whole machine: from what boot hands over, by system calls the
  kernel accepts, to a CALL that stays open while the tasks go on taking turns.
*/
module Stalls {
  import opened Abi
  import opened Descriptors
  import opened Tables
  import opened Paging
  import opened UserMemory
  import opened UserPages
  import opened Tasks
  import opened Ipc
  import opened IpcRuns
  import opened IpcSpaces
  import opened IpcCalls
  import opened IpcWaiting
  import opened IpcStalls
  import opened Caps
  import opened Retype
  import opened Syscalls
  import opened Ownership
  import opened OwnershipRuns
  import opened Answers

  // ---------------------------------------------------------------- runs by their traps

  /** The machine after a list of traps. */
  function After(b: Boot, s: System, es: seq<Trap>): System {
    if es == [] then s else Step(b, After(b, s, es[..|es| - 1]), es[|es| - 1])
  }

  function States(b: Boot, s: System, es: seq<Trap>): seq<System> {
    seq(|es| + 1, k requires 0 <= k <= |es| => After(b, s, es[..k]))
  }

  /** Each trap of the list can happen when it comes. */
  ghost predicate Happens(b: Boot, s: System, es: seq<Trap>) {
    forall k :: 0 <= k < |es| ==> CanStep(b, After(b, s, es[..k]), es[k])
  }

  lemma HappensIsRun(b: Boot, s: System, es: seq<Trap>)
    requires Happens(b, s, es)
    ensures KernelRun(b, States(b, s, es), es) && States(b, s, es)[0] == s
  {
    hide Step, CanStep;
    var ss := States(b, s, es);
    assert es[..0] == [];
    forall k | 0 <= k < |es|
      ensures CanStep(b, ss[k], es[k]) && ss[k + 1] == Step(b, ss[k], es[k])
    {
      assert es[..k + 1][..k] == es[..k];
    }
  }

  lemma HappensMore(b: Boot, s: System, es: seq<Trap>, e: Trap)
    requires Happens(b, s, es) && CanStep(b, After(b, s, es), e)
    ensures Happens(b, s, es + [e]) && After(b, s, es + [e]) == Step(b, After(b, s, es), e)
  {
    hide Step, CanStep;
    assert (es + [e])[..|es|] == es;
    forall k | 0 <= k < |es| + 1
      ensures CanStep(b, After(b, s, (es + [e])[..k]), (es + [e])[k])
    {
      if k < |es| {
        assert (es + [e])[..k] == es[..k];
      }
    }
  }

  // ---------------------------------------------------------------- the tasks, event by event

  /** A task in the given state that does not run and holds no right. */
  ghost predicate Standing(s: Sys, x: Ptr, st: TaskState) {
    x in s.state && s.state[x] == st && ReplyOf(s, x) == 0 && x != s.current
  }

  /** Root runs, nobody waits on the endpoint, and the tasks in `line` are ready and hold no right. */
  ghost predicate Stage(s: Sys, root: Ptr, e: Ptr, line: seq<Ptr>) {
    && s.current == root && !s.halted && root in s.state && e in s.eps && s.eps[e] == [] && s.ready == line
    && forall x :: x in line ==> Standing(s, x, Ready)
  }

  /** Everyone but `p` stands as before. */
  ghost predicate OthersStand(s: Sys, s': Sys, p: Ptr) {
    forall x, st :: x != p && Standing(s, x, st) ==> Standing(s', x, st)
  }

  lemma RegistersSet(s: Sys, root: Ptr, e: Ptr, line: seq<Ptr>, c: Context)
    requires Stage(s, root, e, line)
    ensures var s' := SetCtx(s, s.current, c);
            Stage(s', root, e, line) && OthersStand(s, s', root) && CtxOf(s', root) == c && s'.current == root
  {
    var s' := SetCtx(s, s.current, c);
    assert forall x, st :: Standing(s, x, st) ==> Standing(s', x, st);
  }

  lemma EndpointMade(s: Sys, root: Ptr, e: Ptr, slot: Word)
    requires s.current == root && root in s.state && !s.halted && s.ready == [] && Enabled(s, NewEndpoint(e, slot))
    ensures Stage(Next(s, NewEndpoint(e, slot)), root, e, [])
  {
  }

  lemma TaskMade(s: Sys, root: Ptr, e: Ptr, line: seq<Ptr>, p: Ptr, slot: Word)
    requires Stage(s, root, e, line) && Enabled(s, NewTcb(p, slot))
    ensures var s' := Next(s, NewTcb(p, slot));
            Stage(s', root, e, line) && Standing(s', p, Inactive) && OthersStand(s, s', p)
  {
    var s' := Next(s, NewTcb(p, slot));
    forall x, st | x != p && Standing(s, x, st)
      ensures Standing(s', x, st)
    {
    }
  }

  lemma TaskConfigured(s: Sys, root: Ptr, e: Ptr, line: seq<Ptr>, p: Ptr, entry: Word, stack: Word, space: Word)
    requires Stage(s, root, e, line) && Standing(s, p, Inactive)
    ensures var s' := Next(s, Configure(p, entry, stack, space));
            Stage(s', root, e, line) && Standing(s', p, Stopped) && OthersStand(s, s', p)
  {
    var s' := Next(s, Configure(p, entry, stack, space));
    forall x, st | x != p && Standing(s, x, st)
      ensures Standing(s', x, st)
    {
    }
    assert p !in line;
  }

  lemma TaskResumed(s: Sys, root: Ptr, e: Ptr, line: seq<Ptr>, p: Ptr)
    requires Stage(s, root, e, line) && Standing(s, p, Stopped)
    ensures var s' := Next(s, Resume(p));
            Stage(s', root, e, line + [p]) && OthersStand(s, s', p)
  {
    var s' := Next(s, Resume(p));
    forall x, st | x != p && Standing(s, x, st)
      ensures Standing(s', x, st)
    {
    }
    assert Standing(s', p, Ready);
  }

  /** Root is queued with its CALL, the server runs, and the bystander is next in line. */
  ghost predicate Called(s: Sys, root: Ptr, e: Ptr, p: Ptr, q: Ptr, words: Message) {
    && !s.halted && s.current == p && s.ready == [q] && e in s.eps && s.eps[e] == [root]
    && StateOf(s, root) == BlockedCall && CtxOf(s, root).mr == words && root != p && ReplyOf(s, p) == 0
  }

  lemma CallBlocks(s: Sys, root: Ptr, e: Ptr, p: Ptr, q: Ptr)
    requires Stage(s, root, e, [p, q]) && !Nonblock(CtxOf(s, root))
    ensures Called(Next(s, Call(e)), root, e, p, q, CtxOf(s, root).mr)
  {
    assert p in s.ready && Standing(s, p, Ready);
    assert DoCall(s, e) == Block(s, e, BlockedCall);
    assert s.ready[1..] == [q];
  }

  lemma CalledSet(s: Sys, root: Ptr, e: Ptr, p: Ptr, q: Ptr, words: Message, c: Context)
    requires Called(s, root, e, p, q, words)
    ensures Called(SetCtx(s, s.current, c), root, e, p, q, words)
  {
  }

  /** The server runs with the right of the caller and its words, and the bystander is next in line. */
  ghost predicate Taken(s: Sys, root: Ptr, p: Ptr, q: Ptr, words: Message) {
    && !s.halted && s.current == p && s.ready == [q]
    && StateOf(s, root) == BlockedReply && Holds(s.replyTo, p, root)
    && CtxOf(s, p).mr == words && CtxOf(s, p).x0 == 0
  }

  lemma ServerTakes(s: Sys, root: Ptr, e: Ptr, p: Ptr, q: Ptr, words: Message)
    requires Called(s, root, e, p, q, words) && root != 0
    ensures Taken(Next(s, Recv(e)), root, p, q, words)
  {
    assert DoRecv(s, e) == Receive(s, e);
  }

  // ---------------------------------------------------------------- one system call

  /** The current task sets its registers and makes a system call; the table pool is not exhausted. */
  function Ask(b: Boot, s: System, c: Context): System {
    Step(b, Step(b, s, UserStep(c)), Svc(true))
  }

  function Loaded(s: System, c: Context): System {
    s.(sys := SetCtx(s.sys, s.sys.current, c))
  }

  lemma UserLoads(b: Boot, s: System, c: Context)
    ensures Step(b, s, UserStep(c)) == Loaded(s, c)
    ensures CtxOf(Loaded(s, c).sys, s.sys.current) == c && Loaded(s, c).sys.current == s.sys.current
  {
    hide DoSend, DoRecv, DoCall, DoKill, Reply, Rotate, DoConfigure, DoResume, Walk;
  }

  /** RETYPE of an untyped capability with room. */
  lemma AskRetype(b: Boot, s: System, c: Context, k: ObjKind, carve: nat)
    requires c.x8 == SYS_RETYPE && KindOf(c.x1) == Some(k) && CarveAt(s.caps, c.x0, b.g) == Ok(carve)
    requires carve + Size(b.g) >= s.caps[c.x0].base
    ensures EventOf(b, Loaded(s, c), Svc(true)) == ObjectEvent(k, carve, SlotWord(s.caps))
    ensures var sys := Next(Loaded(s, c).sys, ObjectEvent(k, carve, SlotWord(s.caps)));
            Ask(b, s, c) == System(sys, Commit(s.caps, c.x0, k, carve, b.g), s.mem[carve := ClearRow(b.g)], s.corrupt)
  {
    UserLoads(b, s, c);
    hide Next, CarveAt, Commit, DoMap, ObjectEvent;
  }

  /** Every other call but MAP changes the tasks only. */
  lemma AskPlain(b: Boot, s: System, c: Context)
    requires c.x8 != SYS_RETYPE && c.x8 != SYS_MAP
    ensures Ask(b, s, c) == s.(sys := Next(Loaded(s, c).sys, EventOf(b, Loaded(s, c), Svc(true))))
  {
    UserLoads(b, s, c);
    hide Next, SvcEvent, MapOf;
  }

  ghost predicate Sounds(b: Boot, s: System) {
    exists sh: Shape, pages: Pages :: Sound(b, s, sh, pages)
  }

  lemma AskSounds(b: Boot, s: System, c: Context)
    requires Sounds(b, s) && !s.sys.halted
    ensures CanStep(b, s, UserStep(c)) && CanStep(b, Loaded(s, c), Svc(true)) && Step(b, s, UserStep(c)) == Loaded(s, c)
    ensures Sounds(b, Loaded(s, c)) && Enabled(Loaded(s, c).sys, EventOf(b, Loaded(s, c), Svc(true)))
    ensures Sounds(b, Ask(b, s, c)) && CNodeOk(b, s.caps)
  {
    hide BootOk, CNodeOk, MemoryOk, TasksMatch, OneSpace, Inv, Step, EventOf, Loaded;
    UserLoads(b, s, c);
    LoadedRuns(s, c);
    var sh, pages :| Sound(b, s, sh, pages);
    StepSound(b, s, sh, pages, UserStep(c));
    var sh1, pages1 := ShapeAfter(b, s, sh, UserStep(c)), PagesAfter(b, s, pages, UserStep(c));
    EventEnabled(b, Loaded(s, c), Svc(true));
    StepSound(b, Loaded(s, c), sh1, pages1, Svc(true));
  }

  lemma LoadedRuns(s: System, c: Context)
    ensures Loaded(s, c).sys.halted == s.sys.halted && Loaded(s, c).corrupt == s.corrupt && Loaded(s, c).caps == s.caps
  {
  }

  // ---------------------------------------------------------------- the capabilities

  /** An aligned block of n granules is left in the untyped memory. */
  ghost predicate Room(g: Granule, c: Cap, n: nat) {
    c.Untyped? && exists a: nat :: Aligned(g, a) && c.base + c.used <= a && a + n * Size(g) <= c.base + c.size
  }

  /**
    The untyped capability in slot `u` has room for `left` objects, the CNode has slots for them, slot 2
    is the address space, and the slots from `n` on hold the objects made so far.
  */
  ghost predicate Kit(b: Boot, caps: seq<Cap>, u: nat, n: nat, objs: seq<Cap>, left: nat) {
    && u < n && 2 < n && n + |objs| + left <= CNODE_SLOTS && |caps| == n + |objs| && caps[n..] == objs
    && Room(b.g, caps[u], left) && caps[2] == AddrSpace(b.root)
  }

  lemma KitGrows(b: Boot, caps: seq<Cap>, u: nat, n: nat, objs: seq<Cap>, left: nat, k: ObjKind) returns (carve: nat)
    requires Kit(b, caps, u, n, objs, left) && left > 0 && CNodeOk(b, caps)
    ensures CarveAt(caps, u, b.g) == Ok(carve) && carve + Size(b.g) >= caps[u].base
    ensures Kit(b, Commit(caps, u, k, carve, b.g), u, n, objs + [NewCap(k, carve)], left - 1)
  {
    var c := caps[u];
    var a: nat :| Aligned(b.g, a) && c.base + c.used <= a && a + left * Size(b.g) <= c.base + c.size;
    CarveIsLowest(caps, u, b.g);
    hide CarveAt, ObjectsOk;
    OneMore(b.g, left);
    carve := CarveAt(caps, u, b.g).value;
    var c' := Commit(caps, u, k, carve, b.g)[u];
    NextAligned(b.g, a);
    assert Aligned(b.g, a + Size(b.g)) && c'.base + c'.used <= a + Size(b.g);
    assert a + Size(b.g) + (left - 1) * Size(b.g) <= c'.base + c'.size;
  }

  lemma OneMore(g: Granule, n: nat)
    requires n > 0
    ensures n * Size(g) == (n - 1) * Size(g) + Size(g) && n * Size(g) >= Size(g)
  {
  }

  lemma NextAligned(g: Granule, a: nat)
    requires Aligned(g, a)
    ensures Aligned(g, a + Size(g))
  {
  }

  // ---------------------------------------------------------------- the scenes

  /** The machine with root running, the objects made so far, and the tasks in `line` ready. */
  ghost predicate Scene(b: Boot, s: System, u: nat, n: nat, objs: seq<Cap>, left: nat, e: Ptr, line: seq<Ptr>) {
    Sounds(b, s) && Kit(b, s.caps, u, n, objs, left) && Stage(s.sys, b.rootTcb, e, line)
  }

  function Regs(home: Context, number: Word, x0: Word, x1: Word, m0: Word, m1: Word): Context {
    home.(x8 := number, x0 := x0, x1 := x1, mr := Message(m0, m1, 0, 0))
  }

  lemma SceneEndpoint(b: Boot, s: System, u: nat, n: nat, home: Context) returns (e: nat)
    requires Sounds(b, s) && Kit(b, s.caps, u, n, [], 3)
    requires s.sys.current == b.rootTcb && !s.sys.halted && s.sys.ready == []
    ensures Scene(b, Ask(b, s, Regs(home, SYS_RETYPE, u, OBJ_ENDPOINT, 0, 0)), u, n, [Endpoint(e)], 2, Alias(e), [])
  {
    hide Sounds, Kit, Next, CarveAt, Commit, Stage, CNodeOk;
    KitSmall(b, s.caps, u, n, [], 3);
    var c := Regs(home, SYS_RETYPE, u, OBJ_ENDPOINT, 0, 0);
    AskSounds(b, s, c);
    e := KitGrows(b, s.caps, u, n, [], 3, EndpointObj);
    AskRetype(b, s, c, EndpointObj, e);
    CurrentKnown(b, s);
    EndpointMade(Loaded(s, c).sys, b.rootTcb, Alias(e), SlotWord(s.caps));
    assert [] + [Endpoint(e)] == [Endpoint(e)];
  }

  lemma KitSmall(b: Boot, caps: seq<Cap>, u: nat, n: nat, objs: seq<Cap>, left: nat)
    requires Kit(b, caps, u, n, objs, left)
    ensures u < n <= 32 && n <= |caps| && caps[u].Untyped?
  {
  }

  lemma CurrentKnown(b: Boot, s: System)
    requires Sounds(b, s)
    ensures s.sys.current in s.sys.state
  {
    hide Inv, BootOk, CNodeOk, MemoryOk, TasksMatch, OneSpace;
    Facts(s.sys, {}, s.sys.halted);
  }

  lemma SceneTask(b: Boot, s: System, u: nat, n: nat, objs: seq<Cap>, left: nat, e: Ptr, line: seq<Ptr>, home: Context)
    returns (p: nat)
    requires Scene(b, s, u, n, objs, left, e, line) && left > 0
    ensures var s' := Ask(b, s, Regs(home, SYS_RETYPE, u, OBJ_TCB, 0, 0));
            && Scene(b, s', u, n, objs + [Cap.Tcb(p)], left - 1, e, line) && Alias(p) !in s.sys.state
            && Standing(s'.sys, Alias(p), Inactive) && OthersStand(s.sys, s'.sys, Alias(p))
  {
    hide Sounds, Kit, Next, CarveAt, Commit, CNodeOk, Standing;
    KitSmall(b, s.caps, u, n, objs, left);
    var c := Regs(home, SYS_RETYPE, u, OBJ_TCB, 0, 0);
    AskSounds(b, s, c);
    p := KitGrows(b, s.caps, u, n, objs, left, TcbObj);
    AskRetype(b, s, c, TcbObj, p);
    RegistersSet(s.sys, b.rootTcb, e, line, c);
    TaskMade(Loaded(s, c).sys, b.rootTcb, e, line, Alias(p), SlotWord(s.caps));
    NotRoot(s.sys, b.rootTcb);
  }

  lemma NotRoot(s: Sys, root: Ptr)
    requires s.current == root
    ensures forall x, st :: Standing(s, x, st) ==> x != root
  {
  }

  /** The kit finds the object made as number i, and the address space. */
  lemma KitSlots(b: Boot, caps: seq<Cap>, u: nat, n: nat, objs: seq<Cap>, left: nat, i: nat)
    requires Kit(b, caps, u, n, objs, left) && i < |objs|
    ensures n + i < 32 && n + i < |caps| && caps[n + i] == objs[i] && 2 < |caps| && caps[2] == AddrSpace(b.root)
  {
    assert caps[n..][i] == caps[n + i];
  }

  lemma ConfigureAsked(b: Boot, s: System, slot: Word, p: nat, c: Context)
    requires c.x8 == SYS_TCB_CONFIGURE && c.x0 == slot && GoodAddresses(b.g, c.x1, c.mr.m0) && c.mr.m1 == 2
    requires 2 < |s.caps| && s.caps[2] == AddrSpace(b.root) && slot < |s.caps| && s.caps[slot] == Cap.Tcb(p)
    ensures EventOf(b, Loaded(s, c), Svc(true)) == Configure(Alias(p), c.x1, c.mr.m0, b.root)
  {
    hide RetypeEvent, DoMap, Size;
    UserLoads(b, s, c);
  }

  lemma SceneConfigure(b: Boot, s: System, u: nat, n: nat, objs: seq<Cap>, left: nat, e: Ptr, line: seq<Ptr>,
                       home: Context, i: nat, p: nat, entry: Word, stack: Word)
    requires Scene(b, s, u, n, objs, left, e, line) && i < |objs| && objs[i] == Cap.Tcb(p) && n + i < 32
    requires Standing(s.sys, Alias(p), Inactive) && GoodAddresses(b.g, entry, stack)
    ensures var s' := Ask(b, s, Regs(home, SYS_TCB_CONFIGURE, n + i, entry, stack, 2));
            && Scene(b, s', u, n, objs, left, e, line)
            && Standing(s'.sys, Alias(p), Stopped) && OthersStand(s.sys, s'.sys, Alias(p))
  {
    hide Sounds, Kit, Next, CNodeOk, Standing, GoodAddresses, EventOf;
    var c := Regs(home, SYS_TCB_CONFIGURE, n + i, entry, stack, 2);
    KitSlots(b, s.caps, u, n, objs, left, i);
    AskSounds(b, s, c);
    ConfigureAsked(b, s, n + i, p, c);
    AskPlain(b, s, c);
    RegistersSet(s.sys, b.rootTcb, e, line, c);
    NotRoot(s.sys, b.rootTcb);
    TaskConfigured(Loaded(s, c).sys, b.rootTcb, e, line, Alias(p), entry, stack, b.root);
  }

  lemma ResumeAsked(b: Boot, s: System, slot: Word, p: nat, c: Context)
    requires c.x8 == SYS_TCB_RESUME && c.x0 == slot && slot < |s.caps| && s.caps[slot] == Cap.Tcb(p)
    ensures EventOf(b, Loaded(s, c), Svc(true)) == Resume(Alias(p))
  {
    hide RetypeEvent, DoMap, ConfigureEvent;
    UserLoads(b, s, c);
  }

  lemma SceneResume(b: Boot, s: System, u: nat, n: nat, objs: seq<Cap>, left: nat, e: Ptr, line: seq<Ptr>,
                    home: Context, i: nat, p: nat)
    requires Scene(b, s, u, n, objs, left, e, line) && i < |objs| && objs[i] == Cap.Tcb(p) && n + i < 32
    requires Standing(s.sys, Alias(p), Stopped)
    ensures var s' := Ask(b, s, Regs(home, SYS_TCB_RESUME, n + i, 0, 0, 0));
            Scene(b, s', u, n, objs, left, e, line + [Alias(p)]) && OthersStand(s.sys, s'.sys, Alias(p))
  {
    hide Sounds, Kit, Next, CNodeOk, Standing, EventOf;
    var c := Regs(home, SYS_TCB_RESUME, n + i, 0, 0, 0);
    KitSlots(b, s.caps, u, n, objs, left, i);
    AskSounds(b, s, c);
    ResumeAsked(b, s, n + i, p, c);
    AskPlain(b, s, c);
    RegistersSet(s.sys, b.rootTcb, e, line, c);
    NotRoot(s.sys, b.rootTcb);
    TaskResumed(Loaded(s, c).sys, b.rootTcb, e, line, Alias(p));
  }

  lemma IpcAsked(b: Boot, s: System, slot: Word, e: nat, c: Context)
    requires (c.x8 == SYS_CALL || c.x8 == SYS_RECV) && c.x0 == slot
    requires slot < |s.caps| && s.caps[slot] == Cap.Endpoint(e)
    ensures EventOf(b, Loaded(s, c), Svc(true)) == if c.x8 == SYS_CALL then Call(Alias(e)) else Recv(Alias(e))
  {
    hide RetypeEvent, DoMap, ConfigureEvent, ResumeEvent;
    UserLoads(b, s, c);
  }

  /** The words root sends. */
  const WORDS := Message(0, 0, 0, 0)

  lemma SceneCall(b: Boot, s: System, u: nat, n: nat, objs: seq<Cap>, e: nat, p: Ptr, q: Ptr, home: Context)
    requires Scene(b, s, u, n, objs, 0, Alias(e), [p, q]) && 0 < |objs| && objs[0] == Cap.Endpoint(e) && n < 32
    ensures var c := Regs(home, SYS_CALL, n, 0, 0, 0);
            && Sounds(b, Ask(b, s, c)) && Ask(b, s, c).caps == s.caps
            && EventOf(b, Loaded(s, c), Svc(true)) == Call(Alias(e))
            && CtxOf(Loaded(s, c).sys, b.rootTcb).mr == WORDS && Loaded(s, c).sys.current == b.rootTcb
            && Called(Ask(b, s, c).sys, b.rootTcb, Alias(e), p, q, WORDS)
  {
    hide Sounds, Kit, Next, CNodeOk, Standing, EventOf, Called;
    var c := Regs(home, SYS_CALL, n, 0, 0, 0);
    KitSlots(b, s.caps, u, n, objs, 0, 0);
    AskSounds(b, s, c);
    IpcAsked(b, s, n, e, c);
    AskPlain(b, s, c);
    RegistersSet(s.sys, b.rootTcb, Alias(e), [p, q], c);
    CallBlocks(Loaded(s, c).sys, b.rootTcb, Alias(e), p, q);
  }

  lemma SceneRecv(b: Boot, s: System, n: Word, e: nat, p: Ptr, q: Ptr, home: Context)
    requires Sounds(b, s) && n < |s.caps| && s.caps[n] == Cap.Endpoint(e) && b.rootTcb != 0
    requires Called(s.sys, b.rootTcb, Alias(e), p, q, WORDS)
    ensures var c := Regs(home, SYS_RECV, n, 0, 0, 0);
            && Sounds(b, Ask(b, s, c)) && Called(Loaded(s, c).sys, b.rootTcb, Alias(e), p, q, WORDS)
            && Taken(Ask(b, s, c).sys, b.rootTcb, p, q, WORDS)
  {
    hide Sounds, Next, CNodeOk, EventOf, Taken;
    var c := Regs(home, SYS_RECV, n, 0, 0, 0);
    AskSounds(b, s, c);
    IpcAsked(b, s, n, e, c);
    AskPlain(b, s, c);
    CalledSet(s.sys, b.rootTcb, Alias(e), p, q, WORDS, c);
    ServerTakes(Loaded(s, c).sys, b.rootTcb, Alias(e), p, q, WORDS);
  }

  // ---------------------------------------------------------------- the script

  /** The traps of a list of system calls. */
  function Asks(cs: seq<Context>): seq<Trap> {
    if cs == [] then [] else Asks(cs[..|cs| - 1]) + [UserStep(cs[|cs| - 1])] + [Svc(true)]
  }

  lemma AsksMore(cs: seq<Context>, c: Context)
    ensures Asks(cs + [c]) == Asks(cs) + [UserStep(c)] + [Svc(true)]
  {
    assert (cs + [c])[..|cs|] == cs;
  }

  ghost predicate Reached(b: Boot, s0: System, cs: seq<Context>, s: System) {
    Happens(b, s0, Asks(cs)) && After(b, s0, Asks(cs)) == s
  }

  lemma ReachedMore(b: Boot, s0: System, cs: seq<Context>, s: System, c: Context)
    requires Reached(b, s0, cs, s) && Sounds(b, s) && !s.sys.halted
    ensures Reached(b, s0, cs + [c], Ask(b, s, c)) && After(b, s0, Asks(cs) + [UserStep(c)]) == Loaded(s, c)
  {
    hide Happens, After, Step, CanStep, Asks, Sounds, Loaded;
    AsksMore(cs, c);
    AskSounds(b, s, c);
    HappensMore(b, s0, Asks(cs), UserStep(c));
    HappensMore(b, s0, Asks(cs) + [UserStep(c)], Svc(true));
  }

  lemma SceneRuns(b: Boot, s: System, u: nat, n: nat, objs: seq<Cap>, left: nat, e: Ptr, line: seq<Ptr>)
    requires Scene(b, s, u, n, objs, left, e, line)
    ensures Sounds(b, s) && !s.sys.halted
  {
  }

  /** Three RETYPEs. */
  function Making(home: Context, u: Word): seq<Context> {
    [Regs(home, SYS_RETYPE, u, OBJ_ENDPOINT, 0, 0)]
    + [Regs(home, SYS_RETYPE, u, OBJ_TCB, 0, 0)] + [Regs(home, SYS_RETYPE, u, OBJ_TCB, 0, 0)]
  }

  /** One TCB_CONFIGURE and one TCB_RESUME. */
  function Starting(home: Context, slot: Word, entry: Word, stack: Word): seq<Context> {
    [Regs(home, SYS_TCB_CONFIGURE, slot, entry, stack, 2)] + [Regs(home, SYS_TCB_RESUME, slot, 0, 0, 0)]
  }

  /** Root is alone and runs, with the kit to make three objects. */
  ghost predicate Equipped(b: Boot, s: System, u: nat, n: nat) {
    && Sounds(b, s) && Kit(b, s.caps, u, n, [], 3)
    && s.sys.current == b.rootTcb && !s.sys.halted && s.sys.ready == []
  }

  lemma EndpointAdded(b: Boot, s0: System, u: nat, n: nat, home: Context) returns (s: System, e: nat)
    requires Equipped(b, s0, u, n) && u < 32
    ensures Reached(b, s0, [Regs(home, SYS_RETYPE, u, OBJ_ENDPOINT, 0, 0)], s)
    ensures Scene(b, s, u, n, [Endpoint(e)], 2, Alias(e), [])
  {
    hide Scene, Sounds, Kit, Ask, Reached, Regs, Alias;
    var c := Regs(home, SYS_RETYPE, u, OBJ_ENDPOINT, 0, 0);
    e := SceneEndpoint(b, s0, u, n, home);
    NothingReached(b, s0);
    ReachedMore(b, s0, [], s0, c);
    assert [] + [c] == [c];
    s := Ask(b, s0, c);
  }

  lemma TaskAdded(b: Boot, s0: System, cs: seq<Context>, s: System, u: nat, n: nat, objs: seq<Cap>, left: nat, e: Ptr,
                  home: Context) returns (s': System, p: nat)
    requires Reached(b, s0, cs, s) && Scene(b, s, u, n, objs, left, e, []) && left > 0 && u < 32
    ensures Reached(b, s0, cs + [Regs(home, SYS_RETYPE, u, OBJ_TCB, 0, 0)], s')
    ensures Scene(b, s', u, n, objs + [Cap.Tcb(p)], left - 1, e, []) && Standing(s'.sys, Alias(p), Inactive)
    ensures forall x, st :: Standing(s.sys, x, st) ==> x != Alias(p) && Standing(s'.sys, x, st)
  {
    hide Scene, Sounds, Ask, Reached, Regs, Alias;
    SceneRuns(b, s, u, n, objs, left, e, []);
    p := SceneTask(b, s, u, n, objs, left, e, [], home);
    ReachedMore(b, s0, cs, s, Regs(home, SYS_RETYPE, u, OBJ_TCB, 0, 0));
    s' := Ask(b, s, Regs(home, SYS_RETYPE, u, OBJ_TCB, 0, 0));
  }

  lemma ObjectsMade(b: Boot, s0: System, u: nat, n: nat, home: Context) returns (s: System, e: nat, p: nat, q: nat)
    requires Equipped(b, s0, u, n) && u < 32
    ensures Reached(b, s0, Making(home, u), s) && Alias(p) != Alias(q)
    ensures Scene(b, s, u, n, [Endpoint(e)] + [Cap.Tcb(p)] + [Cap.Tcb(q)], 0, Alias(e), [])
    ensures Standing(s.sys, Alias(p), Inactive) && Standing(s.sys, Alias(q), Inactive)
  {
    hide Scene, Standing, Reached, Regs, Alias, Equipped;
    var c1, c2 := Regs(home, SYS_RETYPE, u, OBJ_ENDPOINT, 0, 0), Regs(home, SYS_RETYPE, u, OBJ_TCB, 0, 0);
    var s1, s2;
    s1, e := EndpointAdded(b, s0, u, n, home);
    s2, p := TaskAdded(b, s0, [c1], s1, u, n, [Endpoint(e)], 2, Alias(e), home);
    s, q := TaskAdded(b, s0, [c1] + [c2], s2, u, n, [Endpoint(e)] + [Cap.Tcb(p)], 1, Alias(e), home);
  }

  lemma NothingReached(b: Boot, s: System)
    ensures Reached(b, s, [], s)
  {
  }

  lemma TaskStarted(b: Boot, s0: System, cs: seq<Context>, s: System, u: nat, n: nat, objs: seq<Cap>, e: Ptr,
                    line: seq<Ptr>, home: Context, i: nat, p: nat, entry: Word, stack: Word) returns (s': System)
    requires Reached(b, s0, cs, s) && Scene(b, s, u, n, objs, 0, e, line) && i < |objs| && objs[i] == Cap.Tcb(p)
    requires Standing(s.sys, Alias(p), Inactive) && GoodAddresses(b.g, entry, stack) && n + i < 32
    ensures Reached(b, s0, cs + Starting(home, n + i, entry, stack), s')
    ensures Scene(b, s', u, n, objs, 0, e, line + [Alias(p)]) && OthersStand(s.sys, s'.sys, Alias(p))
  {
    hide Scene, Sounds, Ask, Standing, Reached, Regs, Alias, GoodAddresses;
    var c1, c2 := Regs(home, SYS_TCB_CONFIGURE, n + i, entry, stack, 2), Regs(home, SYS_TCB_RESUME, n + i, 0, 0, 0);
    SceneRuns(b, s, u, n, objs, 0, e, line);
    SceneConfigure(b, s, u, n, objs, 0, e, line, home, i, p, entry, stack);
    ReachedMore(b, s0, cs, s, c1);
    var s1 := Ask(b, s, c1);
    SceneRuns(b, s1, u, n, objs, 0, e, line);
    SceneResume(b, s1, u, n, objs, 0, e, line, home, i, p);
    ReachedMore(b, s0, cs + [c1], s1, c2);
    s' := Ask(b, s1, c2);
    assert cs + [c1] + [c2] == cs + ([c1] + [c2]);
  }

  /** Root makes an endpoint, a server and a bystander and starts both tasks. */
  function Opening(home: Context, u: Word, n: Word, entry: Word, stack: Word): seq<Context>
    requires n <= 29
  {
    Making(home, u) + Starting(home, n + 1, entry, stack) + Starting(home, n + 2, entry, stack)
  }

  lemma Opened(b: Boot, s0: System, u: nat, n: nat, home: Context, entry: Word, stack: Word)
    returns (s: System, e: nat, p: nat, q: nat)
    requires Equipped(b, s0, u, n) && u < 32 && n <= 29 && GoodAddresses(b.g, entry, stack)
    ensures Reached(b, s0, Opening(home, u, n, entry, stack), s)
    ensures Scene(b, s, u, n, [Endpoint(e), Cap.Tcb(p), Cap.Tcb(q)], 0, Alias(e), [Alias(p), Alias(q)])
  {
    hide Scene, Standing, Reached, Alias, GoodAddresses, Making, Starting, Equipped;
    var s1;
    s1, e, p, q := ObjectsMade(b, s0, u, n, home);
    var objs := [Endpoint(e)] + [Cap.Tcb(p)] + [Cap.Tcb(q)];
    assert objs == [Endpoint(e), Cap.Tcb(p), Cap.Tcb(q)];
    var s2 := TaskStarted(b, s0, Making(home, u), s1, u, n, objs, Alias(e), [], home, 1, p, entry, stack);
    s := TaskStarted(b, s0, Making(home, u) + Starting(home, n + 1, entry, stack), s2, u, n, objs, Alias(e),
                     [] + [Alias(p)], home, 2, q, entry, stack);
    assert [] + [Alias(p)] + [Alias(q)] == [Alias(p), Alias(q)];
  }

  function CallRegs(home: Context, n: Word): Context {
    Regs(home, SYS_CALL, n, 0, 0, 0)
  }

  /** The server as TCB_CONFIGURE left it, but for the registers of its first call. */
  function RecvRegs(n: Word, entry: Word, stack: Word): Context {
    Regs(ZERO_CONTEXT.(elr := entry, sp := stack), SYS_RECV, n, 0, 0, 0)
  }

  /** Then root calls the server, which receives. */
  function Script(home: Context, u: Word, n: Word, entry: Word, stack: Word): seq<Context>
    requires n <= 29
  {
    Opening(home, u, n, entry, stack) + [CallRegs(home, n)] + [RecvRegs(n, entry, stack)]
  }

  /** The four states around the CALL and the RECV. */
  ghost predicate Delivered(b: Boot, s15: System, s16: System, s17: System, s18: System, p: Ptr, q: Ptr) {
    && EventOf(b, s15, Svc(true)).Call? && s15.sys.current == b.rootTcb && CtxOf(s15.sys, b.rootTcb).mr == WORDS
    && StateOf(s16.sys, b.rootTcb) == BlockedCall && StateOf(s17.sys, b.rootTcb) == BlockedCall
    && Taken(s18.sys, b.rootTcb, p, q, WORDS)
  }

  lemma ScriptRuns(b: Boot, s0: System, u: nat, n: nat, home: Context, entry: Word, stack: Word)
    returns (p: Ptr, q: Ptr)
    requires Equipped(b, s0, u, n) && u < 32 && n <= 29 && b.rootTcb != 0 && GoodAddresses(b.g, entry, stack)
    ensures var before, call := Opening(home, u, n, entry, stack), CallRegs(home, n);
            var es, recv := Asks(Script(home, u, n, entry, stack)), RecvRegs(n, entry, stack);
            && Happens(b, s0, es) && Sounds(b, After(b, s0, es))
            && Delivered(b, After(b, s0, Asks(before) + [UserStep(call)]), After(b, s0, Asks(before + [call])),
                         After(b, s0, Asks(before + [call]) + [UserStep(recv)]), After(b, s0, es), p, q)
  {
    hide Scene, Sounds, Opening, Regs, Happens, After, Asks, Ask, Loaded, Equipped, GoodAddresses, Taken, EventOf;
    var before, call, recv := Opening(home, u, n, entry, stack), CallRegs(home, n), RecvRegs(n, entry, stack);
    var s, e, p', q' := Opened(b, s0, u, n, home, entry, stack);
    p, q := Alias(p'), Alias(q');
    var objs := [Endpoint(e), Cap.Tcb(p'), Cap.Tcb(q')];
    hide Alias;
    SceneRuns(b, s, u, n, objs, 0, Alias(e), [p, q]);
    SceneCall(b, s, u, n, objs, e, p, q, home);
    ReachedMore(b, s0, before, s, call);
    var s1 := Ask(b, s, call);
    EndpointSlot(b, s, u, n, objs, e, [p, q]);
    SceneRecv(b, s1, n, e, p, q, ZERO_CONTEXT.(elr := entry, sp := stack));
    ReachedMore(b, s0, before + [call], s1, recv);
  }

  lemma EndpointSlot(b: Boot, s: System, u: nat, n: nat, objs: seq<Cap>, e: nat, line: seq<Ptr>)
    requires Scene(b, s, u, n, objs, 0, Alias(e), line) && 0 < |objs| && objs[0] == Cap.Endpoint(e)
    ensures n < |s.caps| && s.caps[n] == Cap.Endpoint(e)
  {
    hide Sounds, Stage;
    KitSlots(b, s.caps, u, n, objs, 0, 0);
  }

  // ---------------------------------------------------------------- the timer wakes nobody

  function Timers(m: nat): seq<Trap> {
    seq(m, _ => Timer)
  }

  lemma TimerStep(b: Boot, s: System)
    requires Sounds(b, s) && !s.sys.halted && s.sys.ready != []
    ensures CanStep(b, s, Timer) && EventOf(b, s, Timer) == Tick
    ensures var s' := Step(b, s, Timer);
            Sounds(b, s') && !s'.sys.halted && s'.sys.ready != [] && Switches(s.sys, s'.sys)
  {
    hide BootOk, CNodeOk, MemoryOk, TasksMatch, OneSpace, Inv, Walk, ShapeAfter, PagesAfter;
    var sh, pages :| Sound(b, s, sh, pages);
    StepSound(b, s, sh, pages, Timer);
    TickSwitches(s.sys, Tick);
    TickRuns(s.sys);
  }

  lemma TickRuns(s: Sys)
    ensures Next(s, Tick).halted == s.halted
  {
  }

  lemma {:induction false} TimersHappen(b: Boot, s0: System, es: seq<Trap>, m: nat)
    requires Happens(b, s0, es) && Sounds(b, After(b, s0, es))
    requires !After(b, s0, es).sys.halted && After(b, s0, es).sys.ready != []
    ensures var s := After(b, s0, es + Timers(m));
            && Happens(b, s0, es + Timers(m)) && Sounds(b, s) && !s.sys.halted && s.sys.ready != []
            && Switches(s.sys, Step(b, s, Timer).sys)
  {
    hide Happens, After, Step, CanStep, EventOf, Switches, Sounds;
    if m == 0 {
      assert es + Timers(0) == es;
    } else {
      TimersHappen(b, s0, es, m - 1);
      var es' := es + Timers(m - 1);
      TimerStep(b, After(b, s0, es'));
      HappensMore(b, s0, es', Timer);
      assert es' + [Timer] == es + Timers(m);
    }
    TimerStep(b, After(b, s0, es + Timers(m)));
  }

  // ---------------------------------------------------------------- the theorem

  /**
    What boot hands over, with three granules left in one untyped capability, three slots left in the
    CNode, and the address space in slot 2.
  */
  ghost predicate Spare(b: Boot, s: System, u: nat) {
    && s.sys == Handoff(b.rootTcb, CtxOf(s.sys, b.rootTcb), b.root)
    && u < |s.caps| && 2 < |s.caps| <= 29 && Room(b.g, s.caps[u], 3) && s.caps[2] == AddrSpace(b.root)
  }

  lemma SpareEquips(b: Boot, s: System, sh: Shape, pages: Pages, u: nat)
    requires Sound(b, s, sh, pages) && Spare(b, s, u)
    ensures Equipped(b, s, u, |s.caps|) && b.rootTcb != 0
  {
    hide CNodeOk, MemoryOk, TasksMatch, OneSpace, Inv, Room;
    assert Sounds(b, s);
    assert s.caps[|s.caps|..] == [];
  }

  /** Root makes three objects, starts two tasks and calls one of them, which receives; then the timer ticks. */
  function StallTraps(home: Context, u: Word, n: Word, entry: Word, stack: Word, m: nat): seq<Trap>
    requires n <= 29
  {
    Asks(Script(home, u, n, entry, stack)) + Timers(m)
  }

  lemma {:induction false} AsksLength(cs: seq<Context>)
    ensures |Asks(cs)| == 2 * |cs|
  {
    if cs != [] {
      AsksLength(cs[..|cs| - 1]);
    }
  }

  lemma TrapPrefixes(home: Context, u: Word, n: Word, entry: Word, stack: Word, m: nat)
    requires n <= 29
    ensures var before, call := Opening(home, u, n, entry, stack), CallRegs(home, n);
            var es, recv := StallTraps(home, u, n, entry, stack, m), RecvRegs(n, entry, stack);
            && |es| == 18 + m && es[15] == Svc(true)
            && es[..15] == Asks(before) + [UserStep(call)] && es[..16] == Asks(before + [call])
            && es[..17] == Asks(before + [call]) + [UserStep(recv)]
            && es[..18] == Asks(Script(home, u, n, entry, stack))
            && (forall k: nat :: k <= m ==> es[..18 + k] == Asks(Script(home, u, n, entry, stack)) + Timers(k))
            && (forall k: nat :: 18 <= k < 18 + m ==> es[k] == Timer)
  {
    hide Asks, Regs;
    var before, call, recv := Opening(home, u, n, entry, stack), CallRegs(home, n), RecvRegs(n, entry, stack);
    assert |before| == 7;
    hide Opening;
    AsksLength(before);
    AsksMore(before, call);
    AsksMore(before + [call], recv);
  }

  /**
    The promise that a caller always wakes up fails: from everything boot hands over with room for three
    objects there is, for every number of ticks, a run of the machine in which the CALL of root, taken by
    the server, stays open although at every one of the ticks another task gets the processor.
  */
  lemma CallerMayNeverWake(b: Boot, s0: System, sh: Shape, pages: Pages, u: nat, home: Context, entry: Word,
                           stack: Word, m: nat)
    requires Sound(b, s0, sh, pages) && Spare(b, s0, u) && GoodAddresses(b.g, entry, stack)
    ensures var es := StallTraps(home, u, |s0.caps|, entry, stack, m);
            var ss := States(b, s0, es);
            && ss[0] == s0 && KernelRun(b, ss, es) && |es| == 18 + m
            && OpenCall(TasksOf(ss), EventsOf(b, ss, es), 15, 18 + m, b.rootTcb)
            && Custody(TasksOf(ss), 15, 18, 18 + m, ss[18].sys.current, b.rootTcb)
            && forall k :: 18 <= k < 18 + m ==> es[k] == Timer && Switches(ss[k].sys, ss[k + 1].sys)
  {
    hide Sound, Happens, After, Step, CanStep, EventOf, Switches, Sounds, Equipped, GoodAddresses, Asks, Script,
         Opening, Regs, Room, KernelRun, IsRun, OpenCall, Custody, Handoff;
    var n := |s0.caps|;
    SpareEquips(b, s0, sh, pages, u);
    var p, q := ScriptRuns(b, s0, u, n, home, entry, stack);
    var script, es := Asks(Script(home, u, n, entry, stack)), StallTraps(home, u, n, entry, stack, m);
    var ss := States(b, s0, es);
    TrapPrefixes(home, u, n, entry, stack, m);
    TimersHappen(b, s0, script, m);
    HappensIsRun(b, s0, es);
    forall k | 18 <= k < 18 + m
      ensures Switches(ss[k].sys, ss[k + 1].sys)
    {
      TimersHappen(b, s0, script, k - 18);
      RunStepIs(b, ss, es, k);
    }
    TasksRun(b, ss, es, sh, pages);
    StaysOpen(b, ss, es, m, p, q);
  }

  lemma RunStepIs(b: Boot, ss: seq<System>, es: seq<Trap>, k: nat)
    requires KernelRun(b, ss, es) && k < |es|
    ensures |ss| == |es| + 1 && ss[k + 1] == Step(b, ss[k], es[k])
  {
    hide Step, CanStep;
  }

  /** Around the delivery and through the ticks, read off the tasks. */
  lemma StaysOpen(b: Boot, ss: seq<System>, es: seq<Trap>, m: nat, p: Ptr, q: Ptr)
    requires |es| == 18 + m && |ss| == 19 + m && IsRun(TasksOf(ss), EventsOf(b, ss, es)) && es[15] == Svc(true)
    requires Delivered(b, ss[15], ss[16], ss[17], ss[18], p, q)
    requires forall k :: 18 <= k < 18 + m ==> es[k] == Timer
    ensures ss[18].sys.current == p
    ensures OpenCall(TasksOf(ss), EventsOf(b, ss, es), 15, 18 + m, b.rootTcb)
    ensures Custody(TasksOf(ss), 15, 18, 18 + m, p, b.rootTcb)
  {
    hide IsRun, SvcEvent;
    var tasks, evs := TasksOf(ss), EventsOf(b, ss, es);
    assert OpenCall(tasks, evs, 15, 18, b.rootTcb) by {
      assert evs[15] == EventOf(b, ss[15], Svc(true));
    }
    assert Custody(tasks, 15, 18, 18, p, b.rootTcb);
    assert forall k :: 18 <= k < 18 + m ==> evs[k] == Tick;
    OpenUntilCompleted(tasks, evs, 15, 18, 18 + m, p, b.rootTcb);
  }

  // ---------------------------------------------------------------- such a machine exists

  /** 16 MiB of RAM with the image and the frame window at its start; the rest is one untyped capability. */
  function SmallBoard(g: Granule): Boot {
    var kernel, window := PhysRegion(0x4000_0000, 0x20_0000), PhysRegion(0x4020_0000, 0x20_0000);
    Boot(g, [PhysRegion(0x4000_0000, 0x100_0000)], [kernel, window], window, kernel, PhysRegion(0x4000_0000, 0x10_0000),
         0x4020_0000, 0x4010_0000 + KERNEL_VA_OFFSET)
  }

  const REST := Untyped(0x4040_0000, 0xC0_0000, 0)

  lemma RestIsRest(g: Granule)
    ensures MemoryDone(SmallBoard(g).memory, SmallBoard(g).reserved, [REST])
  {
    var b := SmallBoard(g);
    forall pa: nat
      ensures CoveredBy([REST], pa) <==> FreeRam(b.memory, b.reserved, pa)
    {
      assert [REST][0] == REST && b.memory[0].Has(pa) == (0x4000_0000 <= pa < 0x4100_0000);
      assert b.reserved[0].Has(pa) == (0x4000_0000 <= pa < 0x4020_0000);
      assert b.reserved[1].Has(pa) == (0x4020_0000 <= pa < 0x4040_0000);
    }
    assert b.reserved[1].Has(REST.base - 1);
    assert Maximal(b.memory[0], b.reserved, REST);
  }

  lemma EmptyOwned(g: Granule, mem: Mem, sh: Shape, root: nat)
    requires root == 0x4020_0000 && mem == map[root := ClearRow(g)] && sh == Shape(map[root := 0], map[])
    ensures Owned(g, mem, sh, root, map[])
  {
    assert IsFrame(g, root);
    hide IsFrame, Walk;
    forall va
      ensures Walk(g, mem, root, va) == 0
    {
      EmptyRoot(g, mem, root, va);
    }
  }

  /** The joint invariant and the room the stall needs can be met, for both granules and any entry registers. */
  lemma SpareIsMet(g: Granule, home: Context)
    ensures exists s: System, sh: Shape, pages: Pages ::
              && Sound(SmallBoard(g), s, sh, pages) && Spare(SmallBoard(g), s, 4)
              && CtxOf(s.sys, SmallBoard(g).rootTcb) == home
  {
    hide Sound, Inv, MemoryDone;
    var b := SmallBoard(g);
    var mem: Mem, sh: Shape := map[b.root := ClearRow(g)], Shape(map[b.root := 0], map[]);
    EmptyOwned(g, mem, sh, b.root);
    RestIsRest(g);
    assert b.reserved[0] == b.kernel && b.reserved[1] == b.window;
    HandoffSound(b, home, mem, sh, map[], [REST]);
    var s := System(Handoff(b.rootTcb, home, b.root), BootCaps(b.root) + [REST], mem, false);
    assert s.caps[4] == REST && Aligned(g, 0x4040_0000);
    assert Spare(b, s, 4);
  }
}
