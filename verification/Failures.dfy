/** A system call that fails has done nothing. */
module Failures {
  import opened Abi
  import opened Tasks
  import opened Ipc
  import opened IpcEffects
  import opened IpcRuns
  import opened IpcMessages
  import opened IpcSpaces
  import opened Tables
  import opened UserPages
  import opened UserSpace
  import opened Caps
  import opened Retype
  import opened Syscalls
  import opened Ownership
  import opened OwnershipRuns

  /** Error codes are negative; successful calls return 0 or a slot number. */
  predicate IsError(x: Word) {
    x >= 0x8000_0000_0000_0000
  }

  /** The task is still running and has been told an error. */
  predicate Refused(s: Sys, t: Ptr) {
    StateOf(s, t) == Running && IsError(CtxOf(s, t).x0)
  }

  /** A caller that found its receiver does not run on. */
  lemma CallerWaits(s: Sys, e: Ptr)
    requires Safe(s) && !s.halted && e in s.eps && ReceiverWaits(s, e)
    ensures StateOf(Next(s, Call(e)), s.current) == BlockedReply
  {
    hide Inv, AbortReply, SwitchNext;
    NextSafe(s, Call(e));
    Facts(s, {}, false);
    HeadFacts(s, {}, false, e);
    var rcv, s' := Queue(s, e)[0], Next(s, Call(e));
    SwitchEffect(CallNow(s, e));
    assert Holds(s'.replyTo, rcv, s.current);
    NextObjects(s, Call(e));
    PlaceFacts(s', s.current);
    assert Held(s'.replyTo, s.current);
  }

  /** An IPC call that fails has only delivered the reply of a REPLY_RECV. */
  lemma IpcRefused(s: Sys, ev: Event, e: Ptr)
    requires Safe(s) && Enabled(s, ev) && (SendsTo(ev, e) || ReceivesFrom(ev, e))
    requires Refused(Next(s, ev), s.current)
    ensures Next(s, ev) == SetX0(if ev.ReplyRecv? then Reply(s) else s, s.current, AsWord(WOULD_BLOCK))
  {
    hide Inv, Next, Reply;
    if Takes(s, ev, e) {
      DeliveredWords(s, ev, e);
      if ev.Call? {
        CallerWaits(s, e);
      } else if ev.Send? {
        SendTaken(s, e);
      }
    } else if Joins(s, ev, e) {
      JoinState(s, ev, e);
    } else {
      NonblockReturns(s, ev, e);
    }
  }

  lemma SendTaken(s: Sys, e: Ptr)
    requires Safe(s) && Enabled(s, Send(e)) && ReceiverWaits(s, e)
    ensures CtxOf(Next(s, Send(e)), s.current).x0 == 0
  {
    hide Inv, DoSend;
    SendReturns(s, e);
  }

  // ---------------------------------------------------------------- the whole machine

  /** What a failed call leaves: only x0 differs, or REPLY_RECV has delivered its reply and found no sender. */
  ghost predicate Untouched(s: System, s': System) {
    var cur := s.sys.current;
    var code := CtxOf(s'.sys, cur).x0;
    || s' == s.(sys := SetX0(s.sys, cur, code))
    || (&& Calls(s, SYS_REPLY_RECV) && code == AsWord(WOULD_BLOCK)
        && s' == s.(sys := SetX0(Reply(s.sys), cur, code)))
  }

  lemma ReturnOnly(s: System, s': System, code: Word)
    requires s' == s.(sys := Next(s.sys, Return(code)))
    ensures Untouched(s, s')
  {
  }

  lemma RetypeRefused(b: Boot, s: System, ready: bool)
    requires Calls(s, SYS_RETYPE) && |s.caps| <= CNODE_SLOTS && Refused(Step(b, s, Svc(ready)).sys, s.sys.current)
    ensures Untouched(s, Step(b, s, Svc(ready)))
  {
    hide Next, RetypePlan, Commit, DoMap, Untouched, ObjectEvent;
    var c := CtxOf(s.sys, s.sys.current);
    var plan := RetypePlan(b.g, s.caps, c.x0, c.x1, ready);
    if plan.Err? {
      ReturnOnly(s, Step(b, s, Svc(ready)), plan.error);
    } else {
      ObjectTold(s.sys, plan.value.1, plan.value.0, SlotWord(s.caps));
    }
  }

  lemma ObjectTold(s: Sys, k: ObjKind, carve: nat, slot: Word)
    ensures CtxOf(Next(s, ObjectEvent(k, carve, slot)), s.current).x0 == slot
  {
    hide DoSend, DoRecv, DoCall, DoKill, Reply, Rotate, DoConfigure, DoResume;
  }

  lemma MapRefused(b: Boot, s: System, ready: bool)
    requires Calls(s, SYS_MAP) && Refused(Step(b, s, Svc(ready)).sys, s.sys.current)
    ensures Untouched(s, Step(b, s, Svc(ready)))
  {
    hide DoSend, DoRecv, DoCall, DoKill, Reply, Rotate, DoConfigure, DoResume, RetypePlan, Commit, Untouched, DoMap;
    var code := MapOf(b, s).code;
    if code.Some? {
      MapErrors(b, s);
      ReturnOnly(s, Step(b, s, Svc(ready)), code.value);
    }
  }

  lemma MapErrors(b: Boot, s: System)
    ensures var m := MapOf(b, s); m.code != Some(0) ==> m.caps == s.caps && m.mem == s.mem
  {
    hide MapFrame, InstallTable;
  }

  lemma TcbRefused(b: Boot, s: System, ready: bool)
    requires Calls(s, SYS_TCB_CONFIGURE) || Calls(s, SYS_TCB_RESUME)
    requires Refused(Step(b, s, Svc(ready)).sys, s.sys.current)
    ensures Untouched(s, Step(b, s, Svc(ready)))
  {
    hide Next, Reply, RetypePlan, Commit, DoMap, Refused;
    TcbEventRefused(s.sys, EventOf(b, s, Svc(ready)));
  }

  lemma TcbEventRefused(s: Sys, ev: Event)
    requires (ev.Return? || ev.Configure? || ev.Resume?) && Refused(Next(s, ev), s.current)
    ensures Next(s, ev) == SetX0(s, s.current, CtxOf(Next(s, ev), s.current).x0)
  {
    hide DoConfigure, DoResume;
    if ev.Configure? {
      ConfigureTold(s, ev.t, ev.entry, ev.stack, ev.root);
    } else if ev.Resume? {
      ResumeTold(s, ev.t);
    }
  }

  lemma ConfigureTold(s: Sys, t: Ptr, entry: Word, stack: Word, root: Word)
    ensures var s' := DoConfigure(s, t, entry, stack, root);
            CtxOf(s', s.current).x0 == 0 || s' == SetX0(s, s.current, AsWord(BAD_STATE))
  {
  }

  lemma ResumeTold(s: Sys, t: Ptr)
    ensures var s' := DoResume(s, t); CtxOf(s', s.current).x0 == 0 || s' == SetX0(s, s.current, AsWord(BAD_STATE))
  {
  }

  lemma IpcCallRefused(b: Boot, s: System, ready: bool)
    requires Safe(s.sys) && Enabled(s.sys, EventOf(b, s, Svc(ready)))
    requires SYS_SEND <= CtxOf(s.sys, s.sys.current).x8 <= SYS_REPLY_RECV
    requires Refused(Step(b, s, Svc(ready)).sys, s.sys.current)
    ensures Untouched(s, Step(b, s, Svc(ready)))
  {
    hide Inv, Next, Reply, DoMap, RetypePlan, Commit, EndpointAt, Refused;
    var c := CtxOf(s.sys, s.sys.current);
    var ep := EndpointAt(s.caps, c.x0);
    if ep.Err? {
      BadSlotSpendsNothing(b, s, ready);
    } else {
      IpcRefused(s.sys, IpcEvent(c.x8, ep), ep.value);
    }
  }

  lemma PlainRefused(b: Boot, s: System, ready: bool)
    requires Safe(s.sys) && !s.sys.halted && Refused(Step(b, s, Svc(ready)).sys, s.sys.current)
    requires var n := CtxOf(s.sys, s.sys.current).x8;
             n == SYS_DEBUG_PUTC || n == SYS_YIELD || n == SYS_EXIT || n > SYS_REPLY_RECV
    ensures Untouched(s, Step(b, s, Svc(ready)))
  {
    hide Inv, Next, Reply, RetypePlan, Commit, DoMap, PutcCode, Refused;
    PlainEventRefused(s.sys, EventOf(b, s, Svc(ready)));
  }

  lemma PlainEventRefused(s: Sys, ev: Event)
    requires Safe(s) && !s.halted && (ev.Return? || ev.Yield? || ev.Kill?) && Refused(Next(s, ev), s.current)
    ensures Next(s, ev) == SetX0(s, s.current, CtxOf(Next(s, ev), s.current).x0)
  {
    hide Inv, DoKill;
    Facts(s, {}, false);
    ReadyFacts(s, {}, false);
    if ev.Kill? {
      KilledStops(s);
    }
  }

  lemma KilledStops(s: Sys)
    requires Safe(s) && !s.halted
    ensures StateOf(DoKill(s), s.current) == Dead
  {
    hide Inv, AbortReply;
    Facts(s, {}, false);
    ReadyFacts(s, {}, false);
    RightFacts(s, {}, false, s.current);
    AbortEffect(s, s.current);
    assert s.ready != [] ==> (s.ready + OneOrNone(ReplyOf(s, s.current)))[0] == s.ready[0];
  }

  /**
    A system call that goes on with an error code has changed nothing: no capability, no memory, no
    task and no register but x0.  Only the reply of a REPLY_RECV that then finds no sender is out.
  */
  lemma FailureIsAtomic(b: Boot, s: System, sh: Shape, pages: Pages, ready: bool)
    requires Sound(b, s, sh, pages) && !s.sys.halted
    requires Refused(Step(b, s, Svc(ready)).sys, s.sys.current)
    ensures Untouched(s, Step(b, s, Svc(ready)))
  {
    hide Inv, Next, Reply, BootOk, TasksMatch, MemoryOk, OneSpace, Untouched, EventOf, CapsAfter, MemAfter;
    EventEnabled(b, s, Svc(ready));
    var number := CtxOf(s.sys, s.sys.current).x8;
    if number == SYS_RETYPE {
      RetypeRefused(b, s, ready);
    } else if number == SYS_MAP {
      MapRefused(b, s, ready);
    } else if number == SYS_TCB_CONFIGURE || number == SYS_TCB_RESUME {
      TcbRefused(b, s, ready);
    } else if SYS_SEND <= number <= SYS_REPLY_RECV {
      IpcCallRefused(b, s, ready);
    } else {
      PlainRefused(b, s, ready);
    }
  }
}
