/**
  One kernel entry on the whole machine: the tasks, the root CNode and physical memory.  A system
  call is decoded from the registers of the current task; its effect on tasks is an event of module
  `Ipc`, its effect on capabilities that of `Retype`, and its effect on memory that of `UserSpace`.
*/
module Syscalls {
  import opened Abi
  import opened Descriptors
  import opened Tables
  import opened Paging
  import opened UserSpace
  import opened UserMemory
  import opened Tasks
  import opened Ipc
  import opened Caps
  import opened Retype

  /** What boot fixes for the whole run.  `pool` is the memory of the kernel's own tables. */
  datatype Boot = Boot(g: Granule, memory: seq<PhysRegion>, reserved: seq<PhysRegion>,
                       window: PhysRegion, kernel: PhysRegion, pool: PhysRegion, root: Word, rootTcb: Ptr)

  /** `corrupt` is the park that MAP takes on a corrupt table. */
  datatype System = System(sys: Sys, caps: seq<Cap>, mem: Mem, corrupt: bool)

  /** What can happen next.  `ready` says whether RETYPE, if asked for, finds its memory prepared. */
  datatype Trap =
    | UserStep(ctx: Context)
    | UserStore(va: nat, i: nat, w: Word)
    | Timer
    | Fault
    | Svc(ready: bool)

  // ---------------------------------------------------------------- decoding

  function CapAt(caps: seq<Cap>, slot: nat): Option<Cap> {
    if slot < |caps| then Some(caps[slot]) else None
  }

  function Alias(base: nat): Ptr {
    base + KERNEL_VA_OFFSET
  }

  function PutcCode(caps: seq<Cap>, slot: nat): Word {
    match CapAt(caps, slot)
    case Some(Console) => 0
    case Some(_) => AsWord(BAD_CAP)
    case None => AsWord(BAD_SLOT)
  }

  /** `ep_of`. */
  function EndpointAt(caps: seq<Cap>, slot: nat): Result<Ptr, Word> {
    match CapAt(caps, slot)
    case Some(Endpoint(base)) => Ok(Alias(base))
    case Some(_) => Err(AsWord(BAD_CAP))
    case None => Err(AsWord(BAD_SLOT))
  }

  function TcbAt(caps: seq<Cap>, slot: nat): Result<Ptr, Word> {
    match CapAt(caps, slot)
    case Some(Tcb(base)) => Ok(Alias(base))
    case Some(_) => Err(AsWord(BAD_CAP))
    case None => Err(AsWord(BAD_SLOT))
  }

  function SpaceAt(caps: seq<Cap>, slot: nat): Result<nat, Word> {
    match CapAt(caps, slot)
    case Some(AddrSpace(root)) => Ok(root)
    case Some(_) => Err(AsWord(BAD_CAP))
    case None => Err(AsWord(BAD_SLOT))
  }

  function KindOf(kind: nat): Option<ObjKind> {
    if kind == OBJ_FRAME then Some(FrameObj)
    else if kind == OBJ_PAGE_TABLE then Some(PageTableObj)
    else if kind == OBJ_TCB then Some(TcbObj)
    else if kind == OBJ_ENDPOINT then Some(EndpointObj)
    else None
  }

  function RetypeCode(e: RetypeError): Word {
    match e
    case BadSlot => AsWord(BAD_SLOT)
    case NotUntyped => AsWord(NOT_UNTYPED)
    case Exhausted => AsWord(EXHAUSTED)
    case NoFreeSlot => AsWord(OUT_OF_SLOTS)
    case PrepFailed => AsWord(KERNEL_RESOURCE)
  }

  /** `mmu_err`; None is the park on a corrupt table. */
  function MmuCode(e: MmuError): Option<Word> {
    match e
    case Misaligned => Some(AsWord(BAD_VA))
    case NullPage => Some(AsWord(BAD_VA))
    case Overlap => Some(AsWord(OVERLAP))
    case MissingTable => Some(AsWord(MISSING_TABLE))
    case BadTable => None
    case _ => Some(AsWord(KERNEL_RESOURCE))
  }

  function PermAt(perm: nat): Option<UserPerm> {
    if perm == PERM_RO then Some(RoUser) else if perm == PERM_RW then Some(RwUser) else None
  }

  // ---------------------------------------------------------------- TCB_CONFIGURE and TCB_RESUME

  predicate BadEntry(g: Granule, entry: nat) {
    entry % 4 != 0 || entry < Size(g) || entry >= TWO_48
  }

  predicate BadStack(g: Granule, stack: nat) {
    stack % 16 != 0 || stack < Size(g) || stack > TWO_48
  }

  function ConfigureEvent(g: Granule, caps: seq<Cap>, slot: nat, entry: Word, stack: Word, aspace: nat): Event {
    if BadEntry(g, entry) || BadStack(g, stack) then Return(AsWord(BAD_VA))
    else
      match SpaceAt(caps, aspace)
      case Err(e) => Return(e)
      case Ok(root) =>
        match TcbAt(caps, slot)
        case Err(e) => Return(e)
        case Ok(t) => Configure(t, entry, stack, if root < TWO_64 then root else 0)
  }

  function ResumeEvent(caps: seq<Cap>, slot: nat): Event {
    match TcbAt(caps, slot)
    case Err(e) => Return(e)
    case Ok(t) => Resume(t)
  }

  // ---------------------------------------------------------------- RETYPE

  /** The address and kind of the new object, or the code to return. */
  function RetypePlan(g: Granule, caps: seq<Cap>, slot: nat, kind: nat, ready: bool): (r: Result<(nat, ObjKind), Word>)
    ensures r.Ok? ==> ready && KindOf(kind) == Some(r.value.1) && CarveAt(caps, slot, g) == Ok(r.value.0)
  {
    match KindOf(kind)
    case None => Err(AsWord(BAD_TYPE))
    case Some(k) =>
      match CarveAt(caps, slot, g)
      case Err(e) => Err(RetypeCode(e))
      case Ok(carve) =>
        if ready then Ok((carve, k)) else Err(RetypeCode(PrepFailed))
  }

  function SlotWord(caps: seq<Cap>): Word {
    if |caps| < TWO_64 then |caps| else 0
  }

  function RetypeEvent(g: Granule, caps: seq<Cap>, slot: nat, kind: nat, ready: bool): Event {
    match RetypePlan(g, caps, slot, kind, ready)
    case Err(e) => Return(e)
    case Ok((carve, k)) => ObjectEvent(k, carve, SlotWord(caps))
  }

  /** A cleared granule is a valid Inactive TCB, and a valid empty endpoint. */
  function ObjectEvent(k: ObjKind, carve: nat, slot: Word): Event {
    match k
    case TcbObj => NewTcb(Alias(carve), slot)
    case EndpointObj => NewEndpoint(Alias(carve), slot)
    case _ => Return(slot)
  }

  // ---------------------------------------------------------------- MAP

  datatype Mapping = Mapping(code: Option<Word>, caps: seq<Cap>, mem: Mem)

  /** `sys_map`: a frame becomes a leaf, a page table goes into the first gap, each at most once. */
  function DoMap(g: Granule, caps: seq<Cap>, mem: Mem, slot: nat, va: nat, perm: nat, aspace: nat): Mapping {
    match SpaceAt(caps, aspace)
    case Err(e) => Mapping(Some(e), caps, mem)
    case Ok(root) =>
      match CapAt(caps, slot)
      case Some(Frame(base, mapped)) =>
        if mapped then Mapping(Some(AsWord(ALREADY_MAPPED)), caps, mem)
        else if PermAt(perm).None? then Mapping(Some(AsWord(BAD_PERM)), caps, mem)
        else
          (match MapFrame(g, mem, root, va, base, PermAt(perm).value)
           case Ok(mem') => Mapping(Some(0), caps[slot := Frame(base, true)], mem')
           case Err(e) => Mapping(MmuCode(e), caps, mem))
      case Some(PageTable(base, installed)) =>
        if installed then Mapping(Some(AsWord(ALREADY_MAPPED)), caps, mem)
        else
          (match InstallTable(g, mem, root, va, base)
           case Ok(mem') => Mapping(Some(0), caps[slot := PageTable(base, true)], mem')
           case Err(e) => Mapping(MmuCode(e), caps, mem))
      case Some(_) => Mapping(Some(AsWord(BAD_CAP)), caps, mem)
      case None => Mapping(Some(AsWord(BAD_SLOT)), caps, mem)
  }

  // ---------------------------------------------------------------- one entry

  function IpcEvent(number: Word, ep: Result<Ptr, Word>): Event {
    match ep
    case Err(e) => Return(e)
    case Ok(e) =>
      if number == SYS_SEND then Send(e)
      else if number == SYS_RECV then Recv(e)
      else if number == SYS_CALL then Call(e)
      else ReplyRecv(e)
  }

  function MapOf(b: Boot, s: System): Mapping {
    var c := CtxOf(s.sys, s.sys.current);
    DoMap(b.g, s.caps, s.mem, c.x0, c.x1, c.mr.m0, c.mr.m1)
  }

  /** `k0_syscall`: what the call does to the tasks. */
  function SvcEvent(b: Boot, s: System, ready: bool): Event {
    var c := CtxOf(s.sys, s.sys.current);
    if c.x8 == SYS_DEBUG_PUTC then Return(PutcCode(s.caps, c.x0))
    else if c.x8 == SYS_YIELD then Yield
    else if c.x8 == SYS_EXIT then Kill
    else if c.x8 == SYS_RETYPE then RetypeEvent(b.g, s.caps, c.x0, c.x1, ready)
    else if c.x8 == SYS_MAP then
      (match MapOf(b, s).code case Some(code) => Return(code) case None => Return(0))
    else if c.x8 == SYS_TCB_CONFIGURE then ConfigureEvent(b.g, s.caps, c.x0, c.x1, c.mr.m0, c.mr.m1)
    else if c.x8 == SYS_TCB_RESUME then ResumeEvent(s.caps, c.x0)
    else if SYS_SEND <= c.x8 <= SYS_REPLY_RECV then IpcEvent(c.x8, EndpointAt(s.caps, c.x0))
    else Kill
  }

  function EventOf(b: Boot, s: System, e: Trap): Event {
    match e
    case UserStep(c) => UserRuns(c)
    case UserStore(_, _, _) => UserRuns(CtxOf(s.sys, s.sys.current))
    case Timer => Tick
    case Fault => Kill
    case Svc(ready) => SvcEvent(b, s, ready)
  }

  predicate Calls(s: System, number: nat) {
    CtxOf(s.sys, s.sys.current).x8 == number
  }

  function SpaceOf(s: System): nat {
    if s.sys.current in s.sys.ttbr0 then s.sys.ttbr0[s.sys.current] else 0
  }

  function CapsAfter(b: Boot, s: System, e: Trap): seq<Cap> {
    var c := CtxOf(s.sys, s.sys.current);
    if e.Svc? && Calls(s, SYS_RETYPE) then
      (match RetypePlan(b.g, s.caps, c.x0, c.x1, e.ready)
       case Ok((carve, k)) => Commit(s.caps, c.x0, k, carve, b.g)
       case Err(_) => s.caps)
    else if e.Svc? && Calls(s, SYS_MAP) then MapOf(b, s).caps
    else s.caps
  }

  function MemAfter(b: Boot, s: System, e: Trap): Mem {
    var c := CtxOf(s.sys, s.sys.current);
    if e.Svc? && Calls(s, SYS_RETYPE) then
      (match RetypePlan(b.g, s.caps, c.x0, c.x1, e.ready)
       case Ok((carve, _)) => s.mem[carve := ClearRow(b.g)]
       case Err(_) => s.mem)
    else if e.Svc? && Calls(s, SYS_MAP) then MapOf(b, s).mem
    else if e.UserStore? then PutEntry(s.mem, AddrOf(b.g, Walk(b.g, s.mem, SpaceOf(s), e.va)), e.i, e.w)
    else s.mem
  }

  function Step(b: Boot, s: System, e: Trap): System {
    System(Next(s.sys, EventOf(b, s, e)), CapsAfter(b, s, e), MemAfter(b, s, e),
           s.corrupt || (e.Svc? && Calls(s, SYS_MAP) && MapOf(b, s).code.None?))
  }

  /** The machine has not parked, and user stores hit only pages writable through the current tables. */
  ghost predicate CanStep(b: Boot, s: System, e: Trap) {
    && !s.corrupt && !s.sys.halted
    && (e.UserStore? ==> UserWritable(Walk(b.g, s.mem, SpaceOf(s), e.va)))
  }

  lemma RetypeStep(b: Boot, s: System, ready: bool)
    requires Calls(s, SYS_RETYPE)
    ensures var c := CtxOf(s.sys, s.sys.current);
            var plan := RetypePlan(b.g, s.caps, c.x0, c.x1, ready);
            Step(b, s, Svc(ready)) ==
              System(Next(s.sys, RetypeEvent(b.g, s.caps, c.x0, c.x1, ready)),
                     if plan.Ok? then Commit(s.caps, c.x0, plan.value.1, plan.value.0, b.g) else s.caps,
                     if plan.Ok? then s.mem[plan.value.0 := ClearRow(b.g)] else s.mem, s.corrupt)
  {
    hide Next, RetypePlan, RetypeEvent, Commit, ClearRow, MapOf;
  }

  /** Calls other than RETYPE and MAP only move tasks. */
  lemma PlainStep(b: Boot, s: System, ready: bool)
    requires !Calls(s, SYS_RETYPE) && !Calls(s, SYS_MAP)
    ensures Step(b, s, Svc(ready)) == System(Next(s.sys, SvcEvent(b, s, ready)), s.caps, s.mem, s.corrupt)
  {
    hide Next, SvcEvent;
  }

  lemma MapStep(b: Boot, s: System, ready: bool)
    requires Calls(s, SYS_MAP)
    ensures var c := CtxOf(s.sys, s.sys.current);
            var m := DoMap(b.g, s.caps, s.mem, c.x0, c.x1, c.mr.m0, c.mr.m1);
            m.code.Some? ==>
              Step(b, s, Svc(ready)) == System(Next(s.sys, Return(m.code.value)), m.caps, m.mem, s.corrupt)
  {
    hide Next, RetypePlan, RetypeEvent, DoMap;
  }

  /** An IPC call on a bad slot returns the error code and does nothing else; in particular it spends no reply right. */
  lemma BadSlotSpendsNothing(b: Boot, s: System, ready: bool)
    requires var c := CtxOf(s.sys, s.sys.current); SYS_SEND <= c.x8 <= SYS_REPLY_RECV && EndpointAt(s.caps, c.x0).Err?
    ensures var code := EndpointAt(s.caps, CtxOf(s.sys, s.sys.current).x0).error;
            && Step(b, s, Svc(ready)) == s.(sys := SetX0(s.sys, s.sys.current, code))
            && Step(b, s, Svc(ready)).sys.replyTo == s.sys.replyTo
  {
    hide DoSend, DoRecv, DoCall, DoKill, Reply, Rotate, DoConfigure, DoResume, RetypeEvent, RetypePlan, DoMap;
  }
}
