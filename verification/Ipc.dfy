/**
  The kernel entries that move tasks: SEND, RECV, CALL, REPLY_RECV, YIELD, the timer tick, EXIT and
  faults, and the life of a TCB.  Each entry is atomic, because the kernel runs on one core with
  interrupts masked.  `Next` composes the primitives of module `Tasks` exactly as the handlers do.
*/
module Ipc {
  import opened Abi
  import opened Tasks

  /** `deliver`: the message registers move, x0 and x1 are cleared, nothing else is exposed. */
  function Deliver(src: Context, dst: Context): Context {
    dst.(mr := src.mr, x0 := 0, x1 := 0)
  }

  predicate Nonblock(c: Context) {
    c.x1 % 2 == 1
  }

  predicate ReceiverWaits(s: Sys, e: Ptr) {
    Queue(s, e) != [] && StateOf(s, Queue(s, e)[0]) == BlockedRecv
  }

  predicate SenderWaits(s: Sys, e: Ptr) {
    Queue(s, e) != [] && StateOf(s, Queue(s, e)[0]) != BlockedRecv
  }

  /** What the kernel can be entered for, with slot numbers already resolved to objects. */
  datatype Event =
    | UserRuns(ctx: Context)
    | Tick
    | Kill
    | Yield
    | Return(x0: Word)
    | NewTcb(p: Ptr, slot: Word)
    | NewEndpoint(p: Ptr, slot: Word)
    | Configure(t: Ptr, entry: Word, stack: Word, root: Word)
    | Resume(t: Ptr)
    | Send(e: Ptr)
    | Recv(e: Ptr)
    | Call(e: Ptr)
    | ReplyRecv(e: Ptr)

  ghost predicate Enabled(s: Sys, ev: Event) {
    && !s.halted
    && match ev
       case NewTcb(p, _) => p != 0 && p !in s.state && p !in s.eps
       case NewEndpoint(p, _) => p != 0 && p !in s.state && p !in s.eps
       case Configure(t, _, _, _) => t in s.state
       case Resume(t) => t in s.state
       case Send(e) => e in s.eps
       case Recv(e) => e in s.eps
       case Call(e) => e in s.eps
       case ReplyRecv(e) => e in s.eps
       case _ => true
  }

  function AbortReply(s: Sys, h: Ptr): Sys {
    var c := ReplyOf(s, h);
    if c == 0 then s
    else Enqueue(SetX0(SetReply(s, h, 0), c, AsWord(NO_REPLY)), c)
  }

  function Rotate(s: Sys): Sys {
    if s.ready == [] then s
    else RunTask(Enqueue(PopReady(s), s.current), s.ready[0])
  }

  function DoKill(s: Sys): Sys {
    SwitchNext(SetState(AbortReply(s, s.current), s.current, Dead))
  }

  function Block(s: Sys, e: Ptr, st: TaskState): Sys {
    SwitchNext(PushEp(SetState(s, s.current, st), e, s.current))
  }

  function DoSend(s: Sys, e: Ptr): Sys {
    var cur := s.current;
    if ReceiverWaits(s, e) then
      var rcv := Queue(s, e)[0];
      SetX0(Enqueue(SetCtx(PopEp(s, e), rcv, Deliver(CtxOf(s, cur), CtxOf(s, rcv))), rcv), cur, 0)
    else if Nonblock(CtxOf(s, cur)) then
      SetX0(s, cur, AsWord(WOULD_BLOCK))
    else
      Block(s, e, BlockedSend)
  }

  /** Take the message at the head of the queue; a CALL leaves its reply right with the receiver. */
  function Receive(s: Sys, e: Ptr): Sys
    requires SenderWaits(s, e)
  {
    var cur := s.current;
    var snd := Queue(s, e)[0];
    var s1 := SetCtx(PopEp(s, e), cur, Deliver(CtxOf(s, snd), CtxOf(s, cur)));
    if StateOf(s, snd) == BlockedCall then
      SetReply(SetState(AbortReply(s1, cur), snd, BlockedReply), cur, snd)
    else
      Enqueue(SetX0(s1, snd, 0), snd)
  }

  function DoRecv(s: Sys, e: Ptr): Sys {
    if SenderWaits(s, e) then Receive(s, e)
    else if Nonblock(CtxOf(s, s.current)) then SetX0(s, s.current, AsWord(WOULD_BLOCK))
    else Block(s, e, BlockedRecv)
  }

  /** Deliver to the waiting receiver and leave the caller behind its reply right. */
  function CallNow(s: Sys, e: Ptr): Sys
    requires ReceiverWaits(s, e)
  {
    var cur := s.current;
    var rcv := Queue(s, e)[0];
    var s1 := SetCtx(PopEp(s, e), rcv, Deliver(CtxOf(s, cur), CtxOf(s, rcv)));
    Enqueue(SetState(SetReply(AbortReply(s1, rcv), rcv, cur), cur, BlockedReply), rcv)
  }

  function DoCall(s: Sys, e: Ptr): Sys {
    if ReceiverWaits(s, e) then SwitchNext(CallNow(s, e))
    else if Nonblock(CtxOf(s, s.current)) then SetX0(s, s.current, AsWord(WOULD_BLOCK))
    else Block(s, e, BlockedCall)
  }

  /** The reply half of REPLY_RECV: the right is spent and the caller becomes Ready with the words. */
  function Reply(s: Sys): Sys {
    var cur := s.current;
    var c := ReplyOf(s, cur);
    if c == 0 then s
    else Enqueue(SetCtx(SetReply(s, cur, 0), c, Deliver(CtxOf(s, cur), CtxOf(s, c))), c)
  }

  /** A fresh TCB is a cleared granule: Inactive, in no queue, holding no right. */
  function AddTcb(s: Sys, p: Ptr): Sys {
    s.(state := s.state[p := Inactive], replyTo := s.replyTo[p := 0],
       ctx := s.ctx[p := ZERO_CONTEXT], ttbr0 := s.ttbr0[p := 0])
  }

  function DoConfigure(s: Sys, t: Ptr, entry: Word, stack: Word, root: Word): Sys {
    if StateOf(s, t) != Inactive then SetX0(s, s.current, AsWord(BAD_STATE))
    else
      var s1 := SetCtx(s, t, ZERO_CONTEXT.(elr := entry, sp := stack));
      SetX0(SetState(s1, t, Stopped).(ttbr0 := s.ttbr0[t := root]), s.current, 0)
  }

  function DoResume(s: Sys, t: Ptr): Sys {
    if StateOf(s, t) != Stopped then SetX0(s, s.current, AsWord(BAD_STATE))
    else SetX0(Enqueue(s, t), s.current, 0)
  }

  function Next(s: Sys, ev: Event): Sys {
    match ev
    case UserRuns(c) => SetCtx(s, s.current, c)
    case Tick => Rotate(s)
    case Kill => DoKill(s)
    case Yield => Rotate(SetX0(s, s.current, 0))
    case Return(x0) => SetX0(s, s.current, x0)
    case NewTcb(p, slot) => SetX0(AddTcb(s, p), s.current, slot)
    case NewEndpoint(p, slot) => SetX0(s.(eps := s.eps[p := []]), s.current, slot)
    case Configure(t, entry, stack, root) => DoConfigure(s, t, entry, stack, root)
    case Resume(t) => DoResume(s, t)
    case Send(e) => DoSend(s, e)
    case Recv(e) => DoRecv(s, e)
    case Call(e) => DoCall(s, e)
    case ReplyRecv(e) => DoRecv(Reply(s), e)
  }

  /** The state `handoff` leaves: the root task runs, and there is nothing else. */
  function Handoff(root: Ptr, entry: Context, rootPa: Word): Sys {
    Sys(map[root := Running], map[root := 0], map[root := entry], map[root := rootPa], map[], [], root, false)
  }

  // ---------------------------------------------------------------- every entry keeps the invariant

  lemma HandoffSafe(root: Ptr, entry: Context, rootPa: Word)
    requires root != 0
    ensures Safe(Handoff(root, entry, rootPa))
  {
    assert Ranked(Handoff(root, entry, rootPa).replyTo, map[]);
  }

  // What the handlers need to know about a task without looking at the whole invariant.

  lemma Facts(s: Sys, limbo: set<Ptr>, idle: bool)
    requires Inv(s, limbo, idle)
    ensures s.current in s.state && s.current in s.ctx && s.current in s.replyTo && 0 !in s.state
    ensures !idle ==> s.state[s.current] == Running && s.current !in limbo
  {
    hide QueuesOk, RightsOk;
  }

  lemma SpaceFacts(s: Sys, limbo: set<Ptr>, idle: bool, t: Ptr)
    requires Inv(s, limbo, idle) && t in s.state
    ensures t in s.ttbr0
  {
    hide RunnersOk, QueuesOk, RightsOk;
  }

  lemma RightFacts(s: Sys, limbo: set<Ptr>, idle: bool, h: Ptr)
    requires Inv(s, limbo, idle) && h in s.state
    ensures h in s.replyTo && h in s.ctx && ReplyOf(s, h) == s.replyTo[h]
    ensures s.replyTo[h] != 0 ==> Holds(s.replyTo, h, s.replyTo[h])
    ensures var c := s.replyTo[h];
            c != 0 ==> c in s.state && c in s.ctx && c !in limbo && s.state[c] == BlockedReply && c != h
    ensures Idle(s.state[h]) ==> s.replyTo[h] == 0
    ensures h in limbo || s.state[h] != BlockedReply ==> !Held(s.replyTo, h)
  {
    hide RunnersOk, QueuesOk, RightsOk;
    RightsHeld(s.state, s.replyTo, limbo, h);
  }

  lemma QueueFacts(s: Sys, limbo: set<Ptr>, idle: bool, e: Ptr, t: Ptr)
    requires Inv(s, limbo, idle) && e in s.eps && t in s.eps[e]
    ensures t in s.state && t in s.ctx && t !in limbo && Waiting(s.state[t])
    ensures s.eps[e][0] in s.state && (s.state[t] == BlockedRecv <==> s.state[s.eps[e][0]] == BlockedRecv)
  {
    hide RunnersOk, QueuesOk, RightsOk;
    QueuesMember(s.state, s.eps, limbo, e, t);
  }

  lemma HeadFacts(s: Sys, limbo: set<Ptr>, idle: bool, e: Ptr)
    requires Inv(s, limbo, idle) && e in s.eps
    ensures s.eps[e] != [] ==>
              var t := s.eps[e][0];
              t in s.state && t in s.ctx && t !in limbo && Waiting(s.state[t])
  {
    hide Inv;
    if s.eps[e] != [] {
      QueueFacts(s, limbo, idle, e, s.eps[e][0]);
    }
  }

  lemma ReadyFacts(s: Sys, limbo: set<Ptr>, idle: bool)
    requires Inv(s, limbo, idle)
    ensures s.ready != [] ==>
              var t := s.ready[0];
              t in s.state && t in s.ctx && t !in limbo && s.state[t] == Ready
  {
    hide RunnersOk, QueuesOk, RightsOk;
    RunnersHead(s.state, s.ready, s.current, limbo, idle);
  }

  lemma KeepCtx(s: Sys, limbo: set<Ptr>, idle: bool, t: Ptr, c: Context)
    requires Inv(s, limbo, idle) && t in s.state
    ensures Inv(SetCtx(s, t, c), limbo, idle)
  {
    hide RunnersOk, QueuesOk, RightsOk;
  }

  /** Waking the caller of a lost reply right. */
  lemma AbortSafe(s: Sys, limbo: set<Ptr>, idle: bool, h: Ptr)
    requires Inv(s, limbo, idle) && h in s.state
    ensures Inv(AbortReply(s, h), limbo, idle)
    ensures ReplyOf(AbortReply(s, h), h) == 0
  {
    hide Inv;
    var c := ReplyOf(s, h);
    RightFacts(s, limbo, idle, h);
    if c != 0 {
      TakeReply(s, limbo, idle, h, c);
      var s1 := SetReply(s, h, 0);
      KeepCtx(s1, limbo + {c}, idle, c, CtxOf(s1, c).(x0 := AsWord(NO_REPLY)));
      PutReady(SetX0(s1, c, AsWord(NO_REPLY)), limbo + {c}, idle, c);
      assert limbo + {c} - {c} == limbo;
    }
  }

  /** Aborting a right moves no task other than the caller it wakes. */
  lemma AbortKeeps(s: Sys, limbo: set<Ptr>, idle: bool, h: Ptr)
    requires Inv(s, limbo, idle) && h in s.state
    ensures var s' := AbortReply(s, h);
            && s'.current == s.current && s'.eps == s.eps && s'.halted == s.halted
            && s'.state.Keys == s.state.Keys && s'.ctx.Keys == s.ctx.Keys
            && (h in limbo ==> s'.state[h] == s.state[h])
  {
    hide Inv;
    RightFacts(s, limbo, idle, h);
  }

  lemma PopEpKeeps(s: Sys, e: Ptr)
    requires Queue(s, e) != []
    ensures PopEp(s, e) == s.(eps := PopEp(s, e).eps)
  {
  }

  lemma ReplySafe(s: Sys)
    requires Safe(s) && !s.halted
    ensures Safe(Reply(s)) && !Reply(s).halted
  {
    hide Inv;
    var c := ReplyOf(s, s.current);
    Facts(s, {}, false);
    RightFacts(s, {}, false, s.current);
    if c != 0 {
      TakeReply(s, {}, false, s.current, c);
      var s1 := SetReply(s, s.current, 0);
      var ctx' := Deliver(CtxOf(s, s.current), CtxOf(s, c));
      KeepCtx(s1, {} + {c}, false, c, ctx');
      PutReady(SetCtx(s1, c, ctx'), {} + {c}, false, c);
      assert {} + {c} - {c} == {};
    }
  }

  lemma RotateSafe(s: Sys)
    requires Safe(s) && !s.halted
    ensures Safe(Rotate(s))
  {
    hide Inv;
    if s.ready != [] {
      var t := s.ready[0];
      var cur := s.current;
      Facts(s, {}, false);
      ReadyFacts(s, {}, false);
      TakeReady(s, {}, false);
      TakeCurrent(PopReady(s), {} + {t});
      PutReady(PopReady(s), {} + {t} + {cur}, true, cur);
      assert {} + {t} + {cur} - {cur} == {t};
      PutRunning(Enqueue(PopReady(s), cur), {t}, t);
      assert {t} - {t} == {};
    }
  }

  /** A task that is idle or dead belongs nowhere. */
  lemma LeaveTransit(s: Sys, idle: bool, t: Ptr)
    requires t in s.state && Idle(s.state[t]) && Inv(s, {t}, idle)
    ensures Inv(s, {}, idle)
  {
    hide Inv;
    assert Inv(s, {t}, idle);
    IdleTransit(s, {t}, idle, t);
    assert {t} - {t} == {};
  }

  lemma IdleTransit(s: Sys, limbo: set<Ptr>, idle: bool, t: Ptr)
    requires t in s.state && Idle(s.state[t]) && Inv(s, limbo, idle)
    ensures Inv(s, limbo - {t}, idle) && Inv(s, limbo + {t}, idle)
  {
    hide RunnersOk, QueuesOk, RightsOk;
    RunnersTransit(s.state, s.ready, s.current, limbo, idle, t);
    QueuesTransit(s.state, s.eps, limbo, t);
    RightsTransit(s.state, s.replyTo, limbo, t);
  }

  lemma KillSafe(s: Sys)
    requires Safe(s) && !s.halted
    ensures Safe(DoKill(s))
  {
    hide Inv;
    var cur := s.current;
    Facts(s, {}, false);
    AbortSafe(s, {}, false, cur);
    var s1 := AbortReply(s, cur);
    Facts(s1, {}, false);
    TakeCurrent(s1, {});
    assert {} + {cur} == {cur};
    KeepState(s1, {cur}, true, cur, Dead);
    LeaveTransit(SetState(s1, cur, Dead), true, cur);
    Switched(SetState(s1, cur, Dead));
  }

  lemma BlockInv(s: Sys, e: Ptr, st: TaskState)
    requires Safe(s) && !s.halted && e in s.eps && Waiting(st)
    requires Queue(s, e) == [] || (StateOf(s, Queue(s, e)[0]) == BlockedRecv <==> st == BlockedRecv)
    ensures var s1 := SetState(s, s.current, st);
            Inv(s1, {s.current}, true) && Inv(PushEp(s1, e, s.current), {}, true)
  {
    hide Inv;
    var cur := s.current;
    Facts(s, {}, false);
    TakeCurrent(s, {});
    assert {} + {cur} == {cur};
    KeepState(s, {cur}, true, cur, st);
    var s1 := SetState(s, cur, st);
    forall u | u in s1.eps[e]
      ensures u in s1.state && (s1.state[u] == BlockedRecv <==> s1.state[cur] == BlockedRecv)
    {
      QueueFacts(s, {cur}, true, e, u);
      HeadFacts(s, {cur}, true, e);
    }
    PutEp(s1, {cur}, true, e, cur);
    assert {cur} - {cur} == {};
  }

  lemma BlockSafe(s: Sys, e: Ptr, st: TaskState)
    requires Safe(s) && !s.halted && e in s.eps && Waiting(st)
    requires Queue(s, e) == [] || (StateOf(s, Queue(s, e)[0]) == BlockedRecv <==> st == BlockedRecv)
    ensures Safe(Block(s, e, st))
  {
    hide Inv;
    BlockInv(s, e, st);
    Switched(PushEp(SetState(s, s.current, st), e, s.current));
  }

  lemma SendSafe(s: Sys, e: Ptr)
    requires Safe(s) && !s.halted && e in s.eps
    ensures Safe(DoSend(s, e))
  {
    hide Inv;
    var cur := s.current;
    Facts(s, {}, false);
    HeadFacts(s, {}, false, e);
    if ReceiverWaits(s, e) {
      var rcv := s.eps[e][0];
      TakeEp(s, {}, false, e);
      assert {} + {rcv} == {rcv};
      var ctx' := Deliver(CtxOf(s, cur), CtxOf(s, rcv));
      KeepCtx(PopEp(s, e), {rcv}, false, rcv, ctx');
      var s1 := SetCtx(PopEp(s, e), rcv, ctx');
      PutReady(s1, {rcv}, false, rcv);
      assert {rcv} - {rcv} == {};
      var s2 := Enqueue(s1, rcv);
      KeepCtx(s2, {}, false, cur, CtxOf(s2, cur).(x0 := 0));
    } else if Nonblock(CtxOf(s, cur)) {
      KeepCtx(s, {}, false, cur, CtxOf(s, cur).(x0 := AsWord(WOULD_BLOCK)));
    } else {
      BlockSafe(s, e, BlockedSend);
    }
  }

  lemma ReceiveSafe(s: Sys, e: Ptr)
    requires Safe(s) && !s.halted && e in s.eps && SenderWaits(s, e)
    ensures Safe(Receive(s, e))
  {
    hide Inv;
    var cur := s.current;
    var snd := s.eps[e][0];
    Facts(s, {}, false);
    HeadFacts(s, {}, false, e);
    TakeEp(s, {}, false, e);
    var l := {snd};
    assert {} + {snd} == l && l - {snd} == {};
    var ctx' := Deliver(CtxOf(s, snd), CtxOf(s, cur));
    KeepCtx(PopEp(s, e), l, false, cur, ctx');
    var s1 := SetCtx(PopEp(s, e), cur, ctx');
    if s.state[snd] == BlockedCall {
      AbortSafe(s1, l, false, cur);
      var s2 := AbortReply(s1, cur);
      Facts(s2, l, false);
      KeepState(s2, l, false, snd, BlockedReply);
      var s3 := SetState(s2, snd, BlockedReply);
      RightFacts(s3, l, false, cur);
      PutReply(s3, l, false, cur, snd);
    } else {
      KeepCtx(s1, l, false, snd, CtxOf(s1, snd).(x0 := 0));
      PutReady(SetX0(s1, snd, 0), l, false, snd);
    }
  }

  lemma RecvSafe(s: Sys, e: Ptr)
    requires Safe(s) && !s.halted && e in s.eps
    ensures Safe(DoRecv(s, e))
  {
    hide Inv;
    Facts(s, {}, false);
    HeadFacts(s, {}, false, e);
    if SenderWaits(s, e) {
      ReceiveSafe(s, e);
    } else if Nonblock(CtxOf(s, s.current)) {
      KeepCtx(s, {}, false, s.current, CtxOf(s, s.current).(x0 := AsWord(WOULD_BLOCK)));
    } else {
      BlockSafe(s, e, BlockedRecv);
    }
  }

  lemma CallNowSafe(s: Sys, e: Ptr)
    requires Safe(s) && !s.halted && e in s.eps && ReceiverWaits(s, e)
    ensures Inv(CallNow(s, e), {}, true) && !CallNow(s, e).halted
  {
    hide Inv;
    var cur := s.current;
    var rcv := s.eps[e][0];
    Facts(s, {}, false);
    HeadFacts(s, {}, false, e);
    TakeEp(s, {}, false, e);
    var l := {rcv};
    assert {} + {rcv} == l && l - {rcv} == {};
    var ctx' := Deliver(CtxOf(s, cur), CtxOf(s, rcv));
    KeepCtx(PopEp(s, e), l, false, rcv, ctx');
    var s1 := SetCtx(PopEp(s, e), rcv, ctx');
    AbortSafe(s1, l, false, rcv);
    var s2 := AbortReply(s1, rcv);
    Facts(s2, l, false);
    CallInv(s2, rcv);
    PutReady(SetState(SetReply(s2, rcv, cur), cur, BlockedReply), l, true, rcv);
  }

  /** The receiver, in transit, takes the right of the current task. */
  lemma CallInv(s: Sys, rcv: Ptr)
    requires Inv(s, {rcv}, false) && rcv in s.state && ReplyOf(s, rcv) == 0 && !Idle(s.state[rcv])
    ensures Inv(SetState(SetReply(s, rcv, s.current), s.current, BlockedReply), {rcv}, true)
  {
    hide Inv;
    var cur, l := s.current, {rcv};
    Facts(s, l, false);
    TakeCurrent(s, l);
    KeepState(s, l + {cur}, true, cur, BlockedReply);
    var s1 := SetState(s, cur, BlockedReply);
    RightFacts(s1, l + {cur}, true, rcv);
    PutReply(s1, l + {cur}, true, rcv, cur);
    assert l + {cur} - {cur} == l;
    assert SetReply(s1, rcv, cur) == SetState(SetReply(s, rcv, cur), cur, BlockedReply);
  }

  lemma CallSafe(s: Sys, e: Ptr)
    requires Safe(s) && !s.halted && e in s.eps
    ensures Safe(DoCall(s, e))
  {
    hide Inv;
    Facts(s, {}, false);
    HeadFacts(s, {}, false, e);
    if ReceiverWaits(s, e) {
      CallNowSafe(s, e);
      Switched(CallNow(s, e));
    } else if Nonblock(CtxOf(s, s.current)) {
      KeepCtx(s, {}, false, s.current, CtxOf(s, s.current).(x0 := AsWord(WOULD_BLOCK)));
    } else {
      BlockSafe(s, e, BlockedCall);
    }
  }

  lemma NewTcbSafe(s: Sys, p: Ptr)
    requires Safe(s) && p != 0 && p !in s.state && p !in s.eps
    ensures Safe(AddTcb(s, p))
  {
    hide RunnersOk, QueuesOk, RightsOk;
    NewTcbRights(s.state, s.replyTo, p);
    NewTcbQueues(s.state, s.eps, p);
    NewTcbRunners(s.state, s.ready, s.current, s.halted, p);
  }

  lemma NewTcbRunners(state: States, ready: seq<Ptr>, current: Ptr, idle: bool, p: Ptr)
    requires RunnersOk(state, ready, current, {}, idle) && p !in state
    ensures RunnersOk(state[p := Inactive], ready, current, {}, idle)
  {
  }

  lemma NewTcbRights(state: States, replyTo: map<Ptr, Ptr>, p: Ptr)
    requires RightsOk(state, replyTo, {}) && p !in state && p !in replyTo
    ensures RightsOk(state[p := Inactive], replyTo[p := 0], {})
  {
    var replyTo' := replyTo[p := 0];
    assert forall h, c :: Holds(replyTo', h, c) <==> Holds(replyTo, h, c);
    var rank :| Ranked(replyTo, rank);
    assert Ranked(replyTo', rank);
    forall c | c in state && state[c] == BlockedReply
      ensures Held(replyTo', c)
    {
      assert Held(replyTo, c);
      var h :| Holds(replyTo, h, c);
      assert Holds(replyTo', h, c);
    }
  }

  lemma NewTcbQueues(state: States, eps: map<Ptr, seq<Ptr>>, p: Ptr)
    requires QueuesOk(state, eps, {}) && p !in state
    ensures QueuesOk(state[p := Inactive], eps, {})
  {
  }

  lemma NewEndpointSafe(s: Sys, p: Ptr)
    requires Safe(s) && p != 0 && p !in s.state && p !in s.eps
    ensures Safe(s.(eps := s.eps[p := []]))
  {
    hide RunnersOk, QueuesOk, RightsOk;
    NewEndpointQueues(s.state, s.eps, p);
  }

  lemma NewEndpointQueues(state: States, eps: map<Ptr, seq<Ptr>>, p: Ptr)
    requires QueuesOk(state, eps, {}) && p !in eps
    ensures QueuesOk(state, eps[p := []], {})
  {
    var eps' := eps[p := []];
    assert forall e, t :: e in eps' && t in eps'[e] ==> e in eps && t in eps[e];
    forall t | t in state && Waiting(state[t])
      ensures Queued(eps', t)
    {
      assert Queued(eps, t);
      var e :| e in eps && t in eps[e];
      assert t in eps'[e];
    }
  }

  lemma ConfigureSafe(s: Sys, t: Ptr, entry: Word, stack: Word, root: Word)
    requires Safe(s) && !s.halted && t in s.state
    ensures Safe(DoConfigure(s, t, entry, stack, root))
  {
    hide Inv;
    Facts(s, {}, false);
    if s.state[t] == Inactive {
      var ctx' := ZERO_CONTEXT.(elr := entry, sp := stack);
      KeepCtx(s, {}, false, t, ctx');
      var s1 := SetCtx(s, t, ctx');
      IdleTransit(s1, {}, false, t);
      assert {} + {t} == {t};
      RightFacts(s1, {}, false, t);
      KeepState(s1, {t}, false, t, Stopped);
      var s2 := SetState(s1, t, Stopped);
      LeaveTransit(s2, false, t);
      KeepRoot(s2, t, root);
      var s3 := s2.(ttbr0 := s.ttbr0[t := root]);
      KeepCtx(s3, {}, false, s.current, CtxOf(s3, s.current).(x0 := 0));
    } else {
      KeepCtx(s, {}, false, s.current, CtxOf(s, s.current).(x0 := AsWord(BAD_STATE)));
    }
  }

  lemma KeepRoot(s: Sys, t: Ptr, root: Word)
    requires Inv(s, {}, false) && t in s.state
    ensures Inv(s.(ttbr0 := s.ttbr0[t := root]), {}, false)
  {
    hide RunnersOk, QueuesOk, RightsOk;
  }

  lemma ResumeSafe(s: Sys, t: Ptr)
    requires Safe(s) && !s.halted && t in s.state
    ensures Safe(DoResume(s, t))
  {
    hide Inv;
    Facts(s, {}, false);
    if s.state[t] == Stopped {
      IdleTransit(s, {}, false, t);
      assert {} + {t} == {t} && {t} - {t} == {};
      PutReady(s, {t}, false, t);
      var s1 := Enqueue(s, t);
      KeepCtx(s1, {}, false, s.current, CtxOf(s1, s.current).(x0 := 0));
    } else {
      KeepCtx(s, {}, false, s.current, CtxOf(s, s.current).(x0 := AsWord(BAD_STATE)));
    }
  }

  lemma SetX0Safe(s: Sys, x0: Word)
    requires Safe(s) && !s.halted
    ensures Safe(SetX0(s, s.current, x0))
  {
    hide Inv;
    Facts(s, {}, false);
    KeepCtx(s, {}, false, s.current, CtxOf(s, s.current).(x0 := x0));
  }

  /** Every kernel entry keeps every task in the place its state names. */
  lemma NextSafe(s: Sys, ev: Event)
    requires Safe(s) && Enabled(s, ev)
    ensures Safe(Next(s, ev))
  {
    hide Inv;
    Facts(s, {}, false);
    match ev
    case UserRuns(c) => KeepCtx(s, {}, false, s.current, c);
    case Tick => RotateSafe(s);
    case Kill => KillSafe(s);
    case Yield =>
      SetX0Safe(s, 0);
      RotateSafe(SetX0(s, s.current, 0));
    case Return(x0) => SetX0Safe(s, x0);
    case NewTcb(p, slot) =>
      NewTcbSafe(s, p);
      SetX0Safe(AddTcb(s, p), slot);
    case NewEndpoint(p, slot) =>
      NewEndpointSafe(s, p);
      SetX0Safe(s.(eps := s.eps[p := []]), slot);
    case Configure(t, entry, stack, root) => ConfigureSafe(s, t, entry, stack, root);
    case Resume(t) => ResumeSafe(s, t);
    case Send(e) => SendSafe(s, e);
    case Recv(e) => RecvSafe(s, e);
    case Call(e) => CallSafe(s, e);
    case ReplyRecv(e) =>
      ReplySafe(s);
      RecvSafe(Reply(s), e);
  }
}
