/**
  What each kernel entry does to the tasks, as a relation between two states: who gets which registers,
  who waits where, who is told what and who runs.  The relations mention only the fields of a state;
  each entry is proved to meet its relation, which fixes the whole new state.
*/
module IpcOutcomes {
  import opened Abi
  import opened Tasks
  import opened Ipc
  import opened IpcEffects
  import opened IpcMessages

  /** x0 as user space reads it, a signed number. */
  function Signed(x: Word): int {
    if x < 0x8000_0000_0000_0000 then x else x - 0x1_0000_0000_0000_0000
  }

  /** `x` is `c` but for x0, which reads as `code`. */
  predicate Told(c: Context, code: int, x: Context) {
    Signed(x.x0) == code && x == c.(x0 := x.x0)
  }

  // The codes are written out: WOULD_BLOCK is -14, NO_REPLY -15 and BAD_STATE -13.

  /** The call returns `code` at once and changes nothing else. */
  ghost predicate Returns(s: Sys, code: int, s': Sys) {
    var cur := s.current;
    Told(CtxOf(s, cur), code, CtxOf(s', cur)) && s' == s.(ctx := s.ctx[cur := CtxOf(s', cur)])
  }

  // ---------------------------------------------------------------- scheduling

  /** The head of the line runs; with nobody in line the machine parks. */
  ghost predicate HeadRuns(s: Sys, s': Sys) {
    if s.ready == [] then s' == s.(halted := true)
    else s' == s.(state := s.state[s.ready[0] := Running], ready := s.ready[1..], current := s.ready[0])
  }

  /** The current task goes to the end of the line and the head runs; alone, it runs on. */
  ghost predicate TurnEnds(s: Sys, s': Sys) {
    if s.ready == [] then s' == s
    else
      var cur, head := s.current, s.ready[0];
      s' == s.(state := s.state[cur := Ready][head := Running], ready := s.ready[1..] + [cur], current := head)
  }

  /** The current task waits at the end of the queue of `e` with all its registers, and the head of the line runs. */
  ghost predicate Waits(s: Sys, e: Ptr, st: TaskState, s': Sys) {
    var cur := s.current;
    HeadRuns(s.(state := s.state[cur := st], eps := s.eps[e := Queue(s, e) + [cur]]), s')
  }

  // ---------------------------------------------------------------- reply rights

  /** The right of `h` is withdrawn: its caller learns NO_REPLY and nothing else, and joins the line. */
  ghost predicate Withdrawn(s: Sys, h: Ptr, s': Sys) {
    var c := ReplyOf(s, h);
    if c == 0 then s' == s
    else
      && Told(CtxOf(s, c), -15, CtxOf(s', c))
      && s' == s.(ctx := s.ctx[c := CtxOf(s', c)], state := s.state[c := Ready], replyTo := s.replyTo[h := 0],
                  ready := s.ready + [c])
  }

  /** The current task spends its right, if it has one: the caller gets the words and joins the line. */
  ghost predicate Replies(s: Sys, s': Sys) {
    var cur, c := s.current, ReplyOf(s, s.current);
    if c == 0 then s' == s
    else
      && Handed(CtxOf(s, cur), CtxOf(s, c), CtxOf(s', c))
      && s' == s.(ctx := s.ctx[c := CtxOf(s', c)], state := s.state[c := Ready], replyTo := s.replyTo[cur := 0],
                  ready := s.ready + [c])
  }

  /** The current task dies; whoever waits for its reply is told, and the head of the line runs. */
  ghost predicate Dies(s: Sys, s': Sys) {
    exists mid :: Withdrawn(s, s.current, mid) && HeadRuns(mid.(state := mid.state[s.current := Dead]), s')
  }

  // ---------------------------------------------------------------- the four calls on an endpoint

  /** With a receiver waiting its message is delivered and the sender goes on; else NONBLOCK, bit 0 of x1, decides. */
  ghost predicate Sends(s: Sys, e: Ptr, s': Sys) {
    var cur, q := s.current, Queue(s, e);
    if q != [] && StateOf(s, q[0]) == BlockedRecv then
      var rcv := q[0];
      && Handed(CtxOf(s, cur), CtxOf(s, rcv), CtxOf(s', rcv)) && Told(CtxOf(s, cur), 0, CtxOf(s', cur))
      && s' == s.(ctx := s.ctx[rcv := CtxOf(s', rcv)][cur := CtxOf(s', cur)], state := s.state[rcv := Ready],
                  ready := s.ready + [rcv], eps := s.eps[e := q[1..]])
    else if CtxOf(s, cur).x1 % 2 == 1 then Returns(s, -14, s')
    else Waits(s, e, BlockedSend, s')
  }

  /** The message of the waiting sender arrives; a sender is released, a caller turns into the right to reply. */
  ghost predicate Receives(s: Sys, e: Ptr, s': Sys) {
    var cur, q := s.current, Queue(s, e);
    if q != [] && StateOf(s, q[0]) != BlockedRecv then
      if StateOf(s, q[0]) == BlockedCall then ReceivesCall(s, e, s') else ReceivesSend(s, e, s')
    else if CtxOf(s, cur).x1 % 2 == 1 then Returns(s, -14, s')
    else Waits(s, e, BlockedRecv, s')
  }

  ghost predicate ReceivesSend(s: Sys, e: Ptr, s': Sys)
    requires Queue(s, e) != []
  {
    var cur, q := s.current, Queue(s, e);
    var snd := q[0];
    && Handed(CtxOf(s, snd), CtxOf(s, cur), CtxOf(s', cur)) && Told(CtxOf(s, snd), 0, CtxOf(s', snd))
    && s' == s.(ctx := s.ctx[cur := CtxOf(s', cur)][snd := CtxOf(s', snd)], state := s.state[snd := Ready],
                ready := s.ready + [snd], eps := s.eps[e := q[1..]])
  }

  /** One right at a time: the caller of an older one is told before the new one is taken. */
  ghost predicate ReceivesCall(s: Sys, e: Ptr, s': Sys)
    requires Queue(s, e) != []
  {
    var cur, q := s.current, Queue(s, e);
    && Handed(CtxOf(s, q[0]), CtxOf(s, cur), CtxOf(s', cur))
    && exists mid :: && Withdrawn(s, cur, mid)
                     && s' == mid.(ctx := mid.ctx[cur := CtxOf(s', cur)], state := mid.state[q[0] := BlockedReply],
                                   replyTo := mid.replyTo[cur := q[0]], eps := s.eps[e := q[1..]])
  }

  /** As SEND, but the caller stays behind the right of its receiver, or waits as a caller. */
  ghost predicate CallsOut(s: Sys, e: Ptr, s': Sys) {
    var cur, q := s.current, Queue(s, e);
    if q != [] && StateOf(s, q[0]) == BlockedRecv then
      && Handed(CtxOf(s, cur), CtxOf(s, q[0]), CtxOf(s', q[0]))
      && exists mid :: && Withdrawn(s, q[0], mid)
                       && HeadRuns(mid.(ctx := mid.ctx[q[0] := CtxOf(s', q[0])],
                                        state := mid.state[cur := BlockedReply][q[0] := Ready],
                                        replyTo := mid.replyTo[q[0] := cur], ready := mid.ready + [q[0]],
                                        eps := s.eps[e := q[1..]]), s')
    else if CtxOf(s, cur).x1 % 2 == 1 then Returns(s, -14, s')
    else Waits(s, e, BlockedCall, s')
  }

  ghost predicate RepliesReceives(s: Sys, e: Ptr, s': Sys) {
    exists mid :: Replies(s, mid) && Receives(mid, e, s')
  }

  // ---------------------------------------------------------------- TCBs and endpoints

  /** Every register is clear but for the program counter and the stack pointer. */
  predicate Blank(c: Context, elr: Word, sp: Word) {
    && c.x0 == 0 && c.x1 == 0 && c.mr == Message(0, 0, 0, 0) && c.x8 == 0 && c.spsr == 0 && c.rest == []
    && c.elr == elr && c.sp == sp
  }

  /** An Inactive TCB is Stopped at its entry with its stack and its address space; any other is refused. */
  ghost predicate Configures(s: Sys, t: Ptr, entry: Word, stack: Word, root: Word, s': Sys) {
    var cur := s.current;
    if StateOf(s, t) == Inactive then
      && Blank(CtxOf(s', t), entry, stack) && Told(CtxOf(s, cur), 0, CtxOf(s', cur))
      && s' == s.(ctx := s.ctx[t := CtxOf(s', t)][cur := CtxOf(s', cur)], state := s.state[t := Stopped],
                  ttbr0 := s.ttbr0[t := root])
    else Returns(s, -13, s')
  }

  /** A Stopped task joins the line; any other is refused. */
  ghost predicate Resumes(s: Sys, t: Ptr, s': Sys) {
    var cur := s.current;
    if StateOf(s, t) == Stopped then
      && Told(CtxOf(s, cur), 0, CtxOf(s', cur))
      && s' == s.(ctx := s.ctx[cur := CtxOf(s', cur)], state := s.state[t := Ready], ready := s.ready + [t])
    else Returns(s, -13, s')
  }

  /** A new TCB: Inactive, blank, without a right and in no queue. */
  ghost predicate AddsTcb(s: Sys, t: Ptr, slot: int, s': Sys) {
    var cur := s.current;
    && Blank(CtxOf(s', t), 0, 0) && Told(CtxOf(s, cur), slot, CtxOf(s', cur))
    && s' == s.(ctx := s.ctx[t := CtxOf(s', t)][cur := CtxOf(s', cur)], state := s.state[t := Inactive],
                replyTo := s.replyTo[t := 0], ttbr0 := s.ttbr0[t := 0])
  }

  /** A new endpoint: nobody waits on it. */
  ghost predicate AddsEndpoint(s: Sys, e: Ptr, slot: int, s': Sys) {
    var cur := s.current;
    && Told(CtxOf(s, cur), slot, CtxOf(s', cur))
    && s' == s.(ctx := s.ctx[cur := CtxOf(s', cur)], eps := s.eps[e := []])
  }

  // ---------------------------------------------------------------- the entries meet them

  lemma ReturnMeets(s: Sys, code: Word)
    ensures Returns(s, Signed(code), SetX0(s, s.current, code))
  {
  }

  lemma TurnMeets(s: Sys)
    requires Safe(s) && !s.halted
    ensures TurnEnds(s, Rotate(s))
  {
    hide Inv;
    Facts(s, {}, false);
    ReadyFacts(s, {}, false);
  }

  lemma AbortMeets(s: Sys, h: Ptr)
    ensures Withdrawn(s, h, AbortReply(s, h))
  {
  }

  lemma SwitchMeets(s: Sys)
    ensures HeadRuns(s, SwitchNext(s))
  {
  }

  lemma BlockMeets(s: Sys, e: Ptr, st: TaskState)
    ensures Waits(s, e, st, Block(s, e, st))
  {
  }

  lemma KillMeets(s: Sys)
    ensures Dies(s, DoKill(s))
  {
    hide AbortReply, SwitchNext, Withdrawn, HeadRuns;
    AbortMeets(s, s.current);
    SwitchMeets(SetState(AbortReply(s, s.current), s.current, Dead));
  }

  lemma ReplyMeets(s: Sys)
    requires Safe(s) && !s.halted
    ensures Replies(s, Reply(s))
  {
    hide Inv;
    Facts(s, {}, false);
    RightFacts(s, {}, false, s.current);
  }

  lemma SendMeets(s: Sys, e: Ptr)
    requires Safe(s) && !s.halted && e in s.eps
    ensures Sends(s, e, DoSend(s, e))
  {
    hide Inv, Block, Waits;
    Facts(s, {}, false);
    HeadFacts(s, {}, false, e);
    BlockMeets(s, e, BlockedSend);
  }

  lemma RecvMeets(s: Sys, e: Ptr)
    requires Safe(s) && !s.halted && e in s.eps
    ensures Receives(s, e, DoRecv(s, e))
  {
    hide Inv, Block, Waits, ReceivesSend, ReceivesCall, Receive;
    Facts(s, {}, false);
    HeadFacts(s, {}, false, e);
    BlockMeets(s, e, BlockedRecv);
    if SenderWaits(s, e) {
      TakeMeets(s, e);
    }
  }

  lemma TakeMeets(s: Sys, e: Ptr)
    requires Safe(s) && !s.halted && e in s.eps && SenderWaits(s, e)
    ensures if StateOf(s, Queue(s, e)[0]) == BlockedCall then ReceivesCall(s, e, Receive(s, e))
            else ReceivesSend(s, e, Receive(s, e))
  {
    hide Inv;
    Facts(s, {}, false);
    HeadFacts(s, {}, false, e);
    RightFacts(s, {}, false, s.current);
    AbortMeets(s, s.current);
  }

  lemma CallMeets(s: Sys, e: Ptr)
    requires Safe(s) && !s.halted && e in s.eps
    ensures CallsOut(s, e, DoCall(s, e))
  {
    hide Inv, Block, Waits, CallNow, HeadRuns, SwitchNext, Withdrawn, AbortReply;
    Facts(s, {}, false);
    BlockMeets(s, e, BlockedCall);
    if ReceiverWaits(s, e) {
      AbortMeets(s, Queue(s, e)[0]);
      MeetingMeets(s, e);
      SwitchMeets(CallNow(s, e));
      SwitchEffect(CallNow(s, e));
    }
  }

  lemma MeetingMeets(s: Sys, e: Ptr)
    requires Safe(s) && !s.halted && e in s.eps && ReceiverWaits(s, e)
    ensures var s1, mid, cur, q := CallNow(s, e), AbortReply(s, Queue(s, e)[0]), s.current, Queue(s, e);
            && Handed(CtxOf(s, cur), CtxOf(s, q[0]), CtxOf(s1, q[0]))
            && s1 == mid.(ctx := mid.ctx[q[0] := CtxOf(s1, q[0])],
                          state := mid.state[cur := BlockedReply][q[0] := Ready],
                          replyTo := mid.replyTo[q[0] := cur], ready := mid.ready + [q[0]], eps := s.eps[e := q[1..]])
  {
    hide Inv;
    HeadFacts(s, {}, false, e);
    RightFacts(s, {}, false, Queue(s, e)[0]);
  }

  lemma ReplyRecvMeets(s: Sys, e: Ptr)
    requires Safe(s) && !s.halted && e in s.eps
    ensures RepliesReceives(s, e, DoRecv(Reply(s), e))
  {
    hide Inv, Reply, DoRecv, Replies, Receives;
    ReplyMeets(s);
    ReplySafe(s);
    ReplyKeeps(s);
    RecvMeets(Reply(s), e);
  }

  lemma ConfigureMeets(s: Sys, t: Ptr, entry: Word, stack: Word, root: Word)
    requires Safe(s) && !s.halted && t in s.state
    ensures Configures(s, t, entry, stack, root, DoConfigure(s, t, entry, stack, root))
  {
    hide Inv;
    Facts(s, {}, false);
  }

  lemma ResumeMeets(s: Sys, t: Ptr)
    requires Safe(s) && !s.halted && t in s.state
    ensures Resumes(s, t, DoResume(s, t))
  {
    hide Inv;
    Facts(s, {}, false);
  }

  lemma ObjectMeets(s: Sys, p: Ptr, slot: Word)
    requires Safe(s) && !s.halted && p !in s.state && p !in s.eps && slot < 0x8000_0000_0000_0000
    ensures AddsTcb(s, p, slot, Next(s, NewTcb(p, slot)))
    ensures AddsEndpoint(s, p, slot, Next(s, NewEndpoint(p, slot)))
  {
    hide Inv, DoSend, DoRecv, DoCall, DoKill, Reply, Rotate, DoConfigure, DoResume;
    Facts(s, {}, false);
  }

  // ---------------------------------------------------------------- each relation fixes the new state

  lemma HandedOnce(from: Context, before: Context, x: Context, y: Context)
    requires Handed(from, before, x) && Handed(from, before, y)
    ensures x == y
  {
  }

  lemma ToldOnce(c: Context, code: int, x: Context, y: Context)
    requires Told(c, code, x) && Told(c, code, y)
    ensures x == y
  {
  }

  lemma WithdrawnOnce(s: Sys, h: Ptr, x: Sys, y: Sys)
    requires Withdrawn(s, h, x) && Withdrawn(s, h, y)
    ensures x == y
  {
    hide Told;
    var c := ReplyOf(s, h);
    if c != 0 {
      ToldOnce(CtxOf(s, c), -15, CtxOf(x, c), CtxOf(y, c));
    }
  }

  lemma RepliesOnce(s: Sys, x: Sys, y: Sys)
    requires Replies(s, x) && Replies(s, y)
    ensures x == y
  {
    hide Handed;
    var c := ReplyOf(s, s.current);
    if c != 0 {
      HandedOnce(CtxOf(s, s.current), CtxOf(s, c), CtxOf(x, c), CtxOf(y, c));
    }
  }

  lemma ReturnsOnce(s: Sys, code: int, x: Sys, y: Sys)
    requires Returns(s, code, x) && Returns(s, code, y)
    ensures x == y
  {
    hide Told;
    ToldOnce(CtxOf(s, s.current), code, CtxOf(x, s.current), CtxOf(y, s.current));
  }

  /** Killing the current task has that outcome and no other. */
  lemma KillExact(s: Sys, s': Sys)
    ensures Dies(s, s') <==> s' == DoKill(s)
  {
    hide Withdrawn, DoKill;
    var x := DoKill(s);
    KillMeets(s);
    if Dies(s, s') {
      var m :| Withdrawn(s, s.current, m) && HeadRuns(m.(state := m.state[s.current := Dead]), x);
      var n :| Withdrawn(s, s.current, n) && HeadRuns(n.(state := n.state[s.current := Dead]), s');
      WithdrawnOnce(s, s.current, m, n);
    }
  }

  lemma SendsOnce(s: Sys, e: Ptr, x: Sys, y: Sys)
    requires Sends(s, e, x) && Sends(s, e, y)
    ensures x == y
  {
    hide Handed, Told, Returns;
    var cur, q := s.current, Queue(s, e);
    if q != [] && StateOf(s, q[0]) == BlockedRecv {
      HandedOnce(CtxOf(s, cur), CtxOf(s, q[0]), CtxOf(x, q[0]), CtxOf(y, q[0]));
      ToldOnce(CtxOf(s, cur), 0, CtxOf(x, cur), CtxOf(y, cur));
    } else if CtxOf(s, cur).x1 % 2 == 1 {
      ReturnsOnce(s, -14, x, y);
    }
  }

  lemma ReceivesOnce(s: Sys, e: Ptr, x: Sys, y: Sys)
    requires Receives(s, e, x) && Receives(s, e, y)
    ensures x == y
  {
    hide Handed, Told, Returns, Withdrawn;
    var cur, q := s.current, Queue(s, e);
    if q != [] && StateOf(s, q[0]) != BlockedRecv {
      HandedOnce(CtxOf(s, q[0]), CtxOf(s, cur), CtxOf(x, cur), CtxOf(y, cur));
      if StateOf(s, q[0]) == BlockedCall {
        ReceivesCallOnce(s, e, x, y);
      } else {
        ToldOnce(CtxOf(s, q[0]), 0, CtxOf(x, q[0]), CtxOf(y, q[0]));
      }
    } else if CtxOf(s, cur).x1 % 2 == 1 {
      ReturnsOnce(s, -14, x, y);
    }
  }

  lemma ReceivesCallOnce(s: Sys, e: Ptr, x: Sys, y: Sys)
    requires Queue(s, e) != [] && ReceivesCall(s, e, x) && ReceivesCall(s, e, y)
    ensures x == y
  {
    hide Handed, Withdrawn;
    var cur, q := s.current, Queue(s, e);
    HandedOnce(CtxOf(s, q[0]), CtxOf(s, cur), CtxOf(x, cur), CtxOf(y, cur));
    forall m, n | Withdrawn(s, cur, m) && Withdrawn(s, cur, n)
      ensures m == n
    {
      WithdrawnOnce(s, cur, m, n);
    }
  }

  lemma CallsOutOnce(s: Sys, e: Ptr, x: Sys, y: Sys)
    requires CallsOut(s, e, x) && CallsOut(s, e, y)
    ensures x == y
  {
    hide Handed, Told, Returns, Withdrawn;
    var cur, q := s.current, Queue(s, e);
    if q != [] && StateOf(s, q[0]) == BlockedRecv {
      HandedOnce(CtxOf(s, cur), CtxOf(s, q[0]), CtxOf(x, q[0]), CtxOf(y, q[0]));
      forall m, n | Withdrawn(s, q[0], m) && Withdrawn(s, q[0], n)
        ensures m == n
      {
        WithdrawnOnce(s, q[0], m, n);
      }
    } else if CtxOf(s, cur).x1 % 2 == 1 {
      ReturnsOnce(s, -14, x, y);
    }
  }

  lemma RepliesReceivesOnce(s: Sys, e: Ptr, x: Sys, y: Sys)
    requires RepliesReceives(s, e, x) && RepliesReceives(s, e, y)
    ensures x == y
  {
    hide Replies, Receives;
    var m :| Replies(s, m) && Receives(m, e, x);
    var n :| Replies(s, n) && Receives(n, e, y);
    RepliesOnce(s, m, n);
    ReceivesOnce(m, e, x, y);
  }
}
