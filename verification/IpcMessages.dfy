/** Message and reply guarantees of the four IPC calls, step by step and over whole runs. */
module IpcMessages {
  import opened Abi
  import opened Tasks
  import opened Ipc
  import opened IpcEffects
  import opened IpcRuns

  // ---------------------------------------------------------------- endpoint queues, one entry

  predicate SendsTo(ev: Event, e: Ptr) {
    ev == Send(e) || ev == Call(e)
  }

  predicate ReceivesFrom(ev: Event, e: Ptr) {
    ev == Recv(e) || ev == ReplyRecv(e)
  }

  /** The entry takes the head of the queue of `e`. */
  predicate Takes(s: Sys, ev: Event, e: Ptr) {
    (SendsTo(ev, e) && ReceiverWaits(s, e)) || (ReceivesFrom(ev, e) && SenderWaits(s, e))
  }

  /** The entry leaves the current task waiting in the queue of `e`. */
  predicate Joins(s: Sys, ev: Event, e: Ptr) {
    && WillBlock(s)
    && ((SendsTo(ev, e) && !ReceiverWaits(s, e)) || (ReceivesFrom(ev, e) && !SenderWaits(s, e)))
  }

  function QueueNext(s: Sys, ev: Event, e: Ptr): seq<Ptr> {
    if Takes(s, ev, e) then Queue(s, e)[1..]
    else if Joins(s, ev, e) then Queue(s, e) + [s.current]
    else Queue(s, e)
  }

  lemma RecvQueue(s: Sys, e: Ptr, f: Ptr)
    ensures Queue(DoRecv(s, e), f) == QueueNext(s, Recv(e), f)
  {
    hide AbortReply, Block;
    if SenderWaits(s, e) {
      AbortEffect(SetCtx(PopEp(s, e), s.current, Deliver(CtxOf(s, Queue(s, e)[0]), CtxOf(s, s.current))), s.current);
    } else if WillBlock(s) {
      BlockEffect(s, e, BlockedRecv);
    }
  }

  lemma SendQueue(s: Sys, e: Ptr, f: Ptr)
    ensures Queue(DoSend(s, e), f) == QueueNext(s, Send(e), f)
  {
    hide Block;
    if !ReceiverWaits(s, e) && WillBlock(s) {
      BlockEffect(s, e, BlockedSend);
    }
  }

  lemma CallQueue(s: Sys, e: Ptr, f: Ptr)
    ensures Queue(DoCall(s, e), f) == QueueNext(s, Call(e), f)
  {
    hide AbortReply, Block, SwitchNext;
    if ReceiverWaits(s, e) {
      var rcv := Queue(s, e)[0];
      AbortEffect(SetCtx(PopEp(s, e), rcv, Deliver(CtxOf(s, s.current), CtxOf(s, rcv))), rcv);
      SwitchEffect(CallNow(s, e));
    } else if WillBlock(s) {
      BlockEffect(s, e, BlockedCall);
    }
  }

  /** Every entry is append, remove-first or nothing on each endpoint queue. */
  lemma NextQueue(s: Sys, ev: Event, e: Ptr)
    requires Safe(s) && Enabled(s, ev)
    ensures Queue(Next(s, ev), e) == QueueNext(s, ev, e)
  {
    hide Inv, DoSend, DoRecv, DoCall, DoKill, Reply, Rotate;
    match ev
    case Send(f) => SendQueue(s, f, e);
    case Recv(f) => RecvQueue(s, f, e);
    case Call(f) => CallQueue(s, f, e);
    case ReplyRecv(f) => ReplyRecvQueue(s, f, e);
    case Kill => KillQueue(s, e);
    case Tick => RotateQueue(s, e);
    case Yield => RotateQueue(SetX0(s, s.current, 0), e);
    case _ =>
  }

  lemma ReplyRecvQueue(s: Sys, f: Ptr, e: Ptr)
    requires Safe(s) && !s.halted && f in s.eps
    ensures Queue(DoRecv(Reply(s), f), e) == QueueNext(s, ReplyRecv(f), e)
  {
    hide Inv, DoRecv, Reply;
    ReplyLeavesQueue(s, f);
    ReplyKeeps(s);
    RecvQueue(Reply(s), f, e);
  }

  lemma ReplyKeeps(s: Sys)
    ensures Reply(s).eps == s.eps && Reply(s).current == s.current && Reply(s).halted == s.halted
    ensures s.current != ReplyOf(s, s.current) ==> CtxOf(Reply(s), s.current) == CtxOf(s, s.current)
  {
  }

  lemma KillQueue(s: Sys, e: Ptr)
    ensures Queue(DoKill(s), e) == Queue(s, e)
  {
    hide AbortReply, SwitchNext;
    AbortEffect(s, s.current);
    SwitchEffect(SetState(AbortReply(s, s.current), s.current, Dead));
  }

  lemma RotateQueue(s: Sys, e: Ptr)
    ensures Queue(Rotate(s), e) == Queue(s, e)
  {
  }

  /** A waiting task that is not taken off its queue keeps its registers, its state and its right. */
  lemma WaiterSpared(s: Sys, ev: Event, e: Ptr, i: nat)
    requires Safe(s) && Enabled(s, ev) && e in s.eps && i < |s.eps[e]|
    requires !(Takes(s, ev, e) && i == 0)
    ensures SameTcb(s, Next(s, ev), s.eps[e][i])
  {
    hide Inv, Next;
    var u := s.eps[e][i];
    assert u in s.eps[e];
    Facts(s, {}, false);
    QueueFacts(s, {}, false, e, u);
    NextEffect(s, ev);
    NextSafe(s, ev);
    WaiterNotTouched(s, ev, e, i);
    assert Spared(s, Next(s, ev), u);
    if StateOf(Next(s, ev), u) == Running {
      NextQueue(s, ev, e);
      StaysQueued(s, ev, e, i);
      QueueFacts(Next(s, ev), {}, Next(s, ev).halted, e, u);
    }
  }

  lemma StaysQueued(s: Sys, ev: Event, e: Ptr, i: nat)
    requires e in s.eps && i < |s.eps[e]| && !(Takes(s, ev, e) && i == 0)
    requires Queue(Next(s, ev), e) == QueueNext(s, ev, e)
    ensures e in Next(s, ev).eps && s.eps[e][i] in Next(s, ev).eps[e]
  {
    hide Next;
    var q := QueueNext(s, ev, e);
    if Takes(s, ev, e) {
      assert q[i - 1] == s.eps[e][i];
    } else {
      assert q[i] == s.eps[e][i];
    }
  }

  lemma WaiterNotTouched(s: Sys, ev: Event, e: Ptr, i: nat)
    requires Safe(s) && Enabled(s, ev) && e in s.eps && i < |s.eps[e]|
    requires !(Takes(s, ev, e) && i == 0)
    ensures s.eps[e][i] !in Touched(s, ev)
  {
    hide Inv;
    var u := s.eps[e][i];
    assert u in s.eps[e];
    Facts(s, {}, false);
    WaiterFacts(s, e, u, s.current);
    match ev
    case Send(f) => HeadDiffers(s, f, e, i);
    case Recv(f) => HeadDiffers(s, f, e, i);
    case Call(f) =>
      HeadDiffers(s, f, e, i);
      HeadFacts(s, {}, false, f);
      if ReceiverWaits(s, f) {
        WaiterFacts(s, e, u, Queue(s, f)[0]);
      }
    case ReplyRecv(f) => HeadDiffers(s, f, e, i);
    case _ =>
  }

  /** A waiting task does not run and is nobody's caller. */
  lemma WaiterFacts(s: Sys, e: Ptr, u: Ptr, h: Ptr)
    requires Safe(s) && !s.halted && e in s.eps && u in s.eps[e] && h in s.state
    ensures u in s.state && Waiting(s.state[u]) && u != s.current && u != 0 && ReplyOf(s, h) != u
  {
    hide Inv;
    Facts(s, {}, false);
    QueueFacts(s, {}, false, e, u);
    RightFacts(s, {}, false, h);
  }

  lemma HeadDiffers(s: Sys, f: Ptr, e: Ptr, i: nat)
    requires Safe(s) && e in s.eps && i < |s.eps[e]|
    ensures Queue(s, f) != [] && (f != e || i > 0) ==> Queue(s, f)[0] != s.eps[e][i]
  {
    hide Inv;
    var u := s.eps[e][i];
    assert u in s.eps[e];
    QueueFacts(s, {}, s.halted, e, u);
    PlaceFacts(s, u);
    if Queue(s, f) != [] {
      assert Queue(s, f)[0] in s.eps[f];
    }
  }

  // ---------------------------------------------------------------- what a delivery writes

  /** `after` is `before` with a message of `from`: the four words and a cleared x0 and x1, and no other register. */
  predicate Handed(from: Context, before: Context, after: Context) {
    && after.mr == from.mr && after.x0 == 0 && after.x1 == 0
    && after.x8 == before.x8 && after.elr == before.elr && after.sp == before.sp && after.spsr == before.spsr
    && after.rest == before.rest
  }

  /** The two ends of a delivery: the receiver gets the sender's words and keeps its other registers but x0 and x1. */
  lemma DeliveredWords(s: Sys, ev: Event, e: Ptr)
    requires Safe(s) && Enabled(s, ev) && Takes(s, ev, e)
    ensures var s', partner := Next(s, ev), Queue(s, e)[0];
            && (SendsTo(ev, e) ==> Handed(CtxOf(s, s.current), CtxOf(s, partner), CtxOf(s', partner)))
            && (ReceivesFrom(ev, e) ==> Handed(CtxOf(s, partner), CtxOf(s, s.current), CtxOf(s', s.current)))
  {
    hide Inv, DoSend, DoCall, DoRecv, Reply, DoKill, Rotate, DoConfigure, DoResume;
    match ev
    case Send(_) => SentWords(s, e);
    case Call(_) => CalledWords(s, e);
    case Recv(_) => ReceivedWords(s, e);
    case ReplyRecv(_) =>
      ReplyLeavesQueue(s, e);
      ReplyKeeps(s);
      ReplySafe(s);
      assert Queue(s, e)[0] in Queue(s, e);
      ReceivedWords(Reply(s), e);
  }

  lemma SentWords(s: Sys, e: Ptr)
    requires Safe(s) && !s.halted && e in s.eps && ReceiverWaits(s, e)
    ensures var t := Queue(s, e)[0]; Handed(CtxOf(s, s.current), CtxOf(s, t), CtxOf(DoSend(s, e), t))
  {
    hide Inv, Block;
    Facts(s, {}, false);
    HeadFacts(s, {}, false, e);
  }

  lemma CalledWords(s: Sys, e: Ptr)
    requires Safe(s) && !s.halted && e in s.eps && ReceiverWaits(s, e)
    ensures var t := Queue(s, e)[0]; Handed(CtxOf(s, s.current), CtxOf(s, t), CtxOf(DoCall(s, e), t))
  {
    hide Inv, Block, AbortReply, SwitchNext;
    var t := Queue(s, e)[0];
    Facts(s, {}, false);
    HeadFacts(s, {}, false, e);
    RightFacts(s, {}, false, t);
    AbortWords(SetCtx(PopEp(s, e), t, Deliver(CtxOf(s, s.current), CtxOf(s, t))), t, t);
    SwitchEffect(CallNow(s, e));
  }

  lemma AbortWords(s: Sys, h: Ptr, t: Ptr)
    requires t !in OneOrNone(ReplyOf(s, h))
    ensures CtxOf(AbortReply(s, h), t) == CtxOf(s, t)
    ensures StateOf(AbortReply(s, h), t) == StateOf(s, t)
  {
  }

  lemma ReceivedWords(s: Sys, e: Ptr)
    requires Safe(s) && !s.halted && e in s.eps && SenderWaits(s, e)
    ensures Handed(CtxOf(s, Queue(s, e)[0]), CtxOf(s, s.current), CtxOf(DoRecv(s, e), s.current))
    ensures StateOf(s, Queue(s, e)[0]) == BlockedCall ==>
              var s', snd := DoRecv(s, e), Queue(s, e)[0];
              && StateOf(s', snd) == BlockedReply && CtxOf(s', snd) == CtxOf(s, snd)
              && Holds(s'.replyTo, s.current, snd)
  {
    hide Inv, Block, AbortReply;
    var snd := Queue(s, e)[0];
    HeadFacts(s, {}, false, e);
    Facts(s, {}, false);
    RightFacts(s, {}, false, s.current);
    var s1 := SetCtx(PopEp(s, e), s.current, Deliver(CtxOf(s, snd), CtxOf(s, s.current)));
    AbortWords(s1, s.current, s.current);
    AbortWords(s1, s.current, snd);
  }

  // ---------------------------------------------------------------- what the two sides are told

  /** A partner is waiting for this call. */
  predicate PartnerWaits(s: Sys, ev: Event, e: Ptr) {
    if SendsTo(ev, e) then ReceiverWaits(s, e) else SenderWaits(s, e)
  }

  /**
    A SEND that finds its receiver returns 0 and goes on running; with NONBLOCK and nobody waiting it
    returns WOULD_BLOCK and changes nothing else; otherwise the sender waits with its registers intact.
  */
  lemma SendReturns(s: Sys, e: Ptr)
    requires Safe(s) && !s.halted && e in s.eps
    ensures var s', cur := DoSend(s, e), s.current;
            if ReceiverWaits(s, e) then
              && CtxOf(s', cur) == CtxOf(s, cur).(x0 := 0) && s'.current == cur && StateOf(s', cur) == Running
              && StateOf(s', Queue(s, e)[0]) == Ready
            else if Nonblock(CtxOf(s, cur)) then s' == SetX0(s, cur, AsWord(WOULD_BLOCK))
            else CtxOf(s', cur) == CtxOf(s, cur) && StateOf(s', cur) == BlockedSend
  {
    hide Inv, Block;
    Facts(s, {}, false);
    HeadFacts(s, {}, false, e);
    ReadyFacts(s, {}, false);
    BlockedWords(s, e, BlockedSend);
  }

  lemma BlockedWords(s: Sys, e: Ptr, st: TaskState)
    requires Safe(s) && !s.halted
    ensures CtxOf(Block(s, e, st), s.current) == CtxOf(s, s.current)
    ensures StateOf(Block(s, e, st), s.current) == st
  {
    hide Inv;
    Facts(s, {}, false);
    ReadyFacts(s, {}, false);
  }

  /** NONBLOCK without a partner: the caller learns WOULD_BLOCK, and only a held reply has been delivered. */
  lemma NonblockReturns(s: Sys, ev: Event, e: Ptr)
    requires Safe(s) && Enabled(s, ev) && (SendsTo(ev, e) || ReceivesFrom(ev, e))
    requires Nonblock(CtxOf(s, s.current)) && !PartnerWaits(s, ev, e)
    ensures Next(s, ev) == SetX0(if ev.ReplyRecv? then Reply(s) else s, s.current, AsWord(WOULD_BLOCK))
  {
    hide Inv, Block, CallNow, Reply, AbortReply;
    if ev.ReplyRecv? {
      ReplyLeavesQueue(s, e);
      ReplyKeeps(s);
    }
  }

  /** A blocked SEND that is received returns 0 to its sender, who keeps every other register and becomes Ready. */
  lemma SenderReleased(s: Sys, e: Ptr)
    requires Safe(s) && !s.halted && e in s.eps && SenderWaits(s, e) && StateOf(s, Queue(s, e)[0]) == BlockedSend
    ensures var s', snd := DoRecv(s, e), Queue(s, e)[0];
            && CtxOf(s', snd) == CtxOf(s, snd).(x0 := 0) && StateOf(s', snd) == Ready && snd in s'.ready
            && ReplyOf(s', s.current) == ReplyOf(s, s.current)
  {
    hide Inv, Block;
    Facts(s, {}, false);
    HeadFacts(s, {}, false, e);
    assert DoRecv(s, e).ready[|s.ready|] == Queue(s, e)[0];
  }

  // ---------------------------------------------------------------- conservation of messages

  /** The messages of the senders waiting on `e`, oldest first. */
  function Pending(s: Sys, e: Ptr): seq<(Ptr, Message)> {
    if !SenderWaits(s, e) then []
    else
      var q := Queue(s, e);
      seq(|q|, i requires 0 <= i < |q| => (q[i], CtxOf(s, q[i]).mr))
  }

  /** The message an entry accepts onto `e`: the words in x2 to x5 when the sender trapped. */
  function Accepted(s: Sys, ev: Event, e: Ptr): seq<(Ptr, Message)> {
    if SendsTo(ev, e) && (ReceiverWaits(s, e) || WillBlock(s)) then [(s.current, CtxOf(s, s.current).mr)] else []
  }

  /** The message an entry delivers from `e`, read from the receiver's registers afterwards. */
  function Delivered(s: Sys, ev: Event, s': Sys, e: Ptr): seq<(Ptr, Message)> {
    if !Takes(s, ev, e) then []
    else if SendsTo(ev, e) then [(s.current, CtxOf(s', Queue(s, e)[0]).mr)]
    else [(Queue(s, e)[0], CtxOf(s', s.current).mr)]
  }

  lemma SenderAfter(s: Sys, ev: Event, e: Ptr)
    requires Safe(s) && Enabled(s, ev)
    ensures var s' := Next(s, ev);
            && (Takes(s, ev, e) && SendsTo(ev, e) ==> !SenderWaits(s', e))
            && (Takes(s, ev, e) && ReceivesFrom(ev, e) ==> (SenderWaits(s', e) <==> |Queue(s, e)| > 1))
            && (Joins(s, ev, e) ==> (SenderWaits(s', e) <==> SendsTo(ev, e)))
            && (!Takes(s, ev, e) && !Joins(s, ev, e) ==> (SenderWaits(s', e) <==> SenderWaits(s, e)))
  {
    hide Inv, Next;
    var s', q := Next(s, ev), Queue(s, e);
    NextQueue(s, ev, e);
    NextSafe(s, ev);
    if q != [] {
      HeadFacts(s, {}, false, e);
    }
    if Takes(s, ev, e) {
      if |q| > 1 {
        WaiterSpared(s, ev, e, 1);
        assert q[1] in q;
        QueueFacts(s, {}, false, e, q[1]);
      }
    } else if q != [] {
      WaiterSpared(s, ev, e, 0);
    } else if Joins(s, ev, e) {
      JoinState(s, ev, e);
    }
  }

  /** The state a task waits in, by the call it made. */
  function WaitState(ev: Event): TaskState {
    match ev
    case Send(_) => BlockedSend
    case Call(_) => BlockedCall
    case _ => BlockedRecv
  }

  /** A task that joins a queue carries the state of its call and keeps its registers. */
  lemma JoinState(s: Sys, ev: Event, e: Ptr)
    requires Safe(s) && Enabled(s, ev) && Joins(s, ev, e)
    ensures var s' := Next(s, ev);
            && CtxOf(s', s.current) == CtxOf(s, s.current)
            && StateOf(s', s.current) == WaitState(ev)
  {
    hide Inv, SwitchNext, AbortReply, Reply, DoKill, Rotate, DoConfigure, DoResume, Receive, CallNow;
    Facts(s, {}, false);
    match ev
    case Send(_) => BlockedWords(s, e, BlockedSend);
    case Call(_) => BlockedWords(s, e, BlockedCall);
    case Recv(_) => BlockedWords(s, e, BlockedRecv);
    case ReplyRecv(_) =>
      ReplyLeavesQueue(s, e);
      ReplyKeeps(s);
      ReplySafe(s);
      BlockedWords(Reply(s), e, BlockedRecv);
  }

  /** One entry neither loses, invents, reorders nor alters a message. */
  lemma MessageStep(s: Sys, ev: Event, e: Ptr)
    requires Safe(s) && Enabled(s, ev)
    ensures Pending(s, e) + Accepted(s, ev, e) == Delivered(s, ev, Next(s, ev), e) + Pending(Next(s, ev), e)
  {
    hide Inv, Next, Takes, Joins, Waiting;
    var s', q := Next(s, ev), Queue(s, e);
    NextQueue(s, ev, e);
    SenderAfter(s, ev, e);
    forall i | 0 <= i < |q| && !(Takes(s, ev, e) && i == 0)
      ensures CtxOf(s', q[i]) == CtxOf(s, q[i])
    {
      WaiterSpared(s, ev, e, i);
    }
    if Takes(s, ev, e) {
      DeliveredWords(s, ev, e);
      TakesIs(s, ev, e);
      TakeStep(s, s', e, SendsTo(ev, e));
    } else if Joins(s, ev, e) {
      JoinState(s, ev, e);
      JoinsIs(s, ev, e);
      KeepStep(s, s', e, if SendsTo(ev, e) then [s.current] else []);
    } else {
      JoinsIs(s, ev, e);
      KeepStep(s, s', e, []);
    }
  }

  lemma TakesIs(s: Sys, ev: Event, e: Ptr)
    requires Takes(s, ev, e)
    ensures Queue(s, e) != [] && (SendsTo(ev, e) <==> !ReceivesFrom(ev, e))
    ensures SendsTo(ev, e) <==> ReceiverWaits(s, e)
    ensures SendsTo(ev, e) <==> !SenderWaits(s, e)
  {
  }

  lemma JoinsIs(s: Sys, ev: Event, e: Ptr)
    requires !Takes(s, ev, e)
    ensures Joins(s, ev, e) && SendsTo(ev, e) <==> Accepted(s, ev, e) != []
    ensures SendsTo(ev, e) && Queue(s, e) != [] ==> SenderWaits(s, e)
    ensures Joins(s, ev, e) && !SendsTo(ev, e) ==> !SenderWaits(s, e)
  {
  }

  /** Taking the head: either the queue held receivers, or its first message leaves. */
  lemma TakeStep(s: Sys, s': Sys, e: Ptr, sends: bool)
    requires Queue(s, e) != [] && Queue(s', e) == Queue(s, e)[1..]
    requires sends <==> !SenderWaits(s, e)
    requires sends ==> !SenderWaits(s', e)
    requires !sends ==> (SenderWaits(s', e) <==> |Queue(s, e)| > 1)
    requires forall i :: 0 < i < |Queue(s, e)| ==> CtxOf(s', Queue(s, e)[i]) == CtxOf(s, Queue(s, e)[i])
    ensures Pending(s, e) == (if sends then [] else [(Queue(s, e)[0], CtxOf(s, Queue(s, e)[0]).mr)]) + Pending(s', e)
  {
  }

  /** Nothing is taken: the waiting messages stay, and a blocked sender's message comes last. */
  lemma KeepStep(s: Sys, s': Sys, e: Ptr, joined: seq<Ptr>)
    requires |joined| <= 1
    requires SenderWaits(s', e) <==> SenderWaits(s, e) || joined != []
    requires SenderWaits(s, e) || joined != [] ==> Queue(s', e) == Queue(s, e) + joined
    requires joined != [] && Queue(s, e) != [] ==> SenderWaits(s, e)
    requires forall t :: t in joined ==> CtxOf(s', t) == CtxOf(s, t)
    requires forall i :: 0 <= i < |Queue(s, e)| ==> CtxOf(s', Queue(s, e)[i]) == CtxOf(s, Queue(s, e)[i])
    ensures Pending(s', e) == Pending(s, e) + (if joined == [] then [] else [(joined[0], CtxOf(s, joined[0]).mr)])
  {
  }

  function AcceptedIn(ss: seq<Sys>, evs: seq<Event>, e: Ptr, n: nat): seq<(Ptr, Message)>
    requires n <= |evs| < |ss|
  {
    if n == 0 then [] else AcceptedIn(ss, evs, e, n - 1) + Accepted(ss[n - 1], evs[n - 1], e)
  }

  function DeliveredIn(ss: seq<Sys>, evs: seq<Event>, e: Ptr, n: nat): seq<(Ptr, Message)>
    requires n <= |evs| < |ss|
  {
    if n == 0 then [] else DeliveredIn(ss, evs, e, n - 1) + Delivered(ss[n - 1], evs[n - 1], ss[n], e)
  }

  /**
    Over any run, the messages accepted onto an endpoint are exactly those delivered from it,
    followed by those still waiting, in the same order and with the same words and senders.
  */
  lemma {:induction false} MessagesConserved(ss: seq<Sys>, evs: seq<Event>, e: Ptr, n: nat)
    requires IsRun(ss, evs) && n <= |evs|
    ensures Pending(ss[0], e) + AcceptedIn(ss, evs, e, n) == DeliveredIn(ss, evs, e, n) + Pending(ss[n], e)
  {
    hide Inv, Next, Pending, Accepted, Delivered;
    if n > 0 {
      MessagesConserved(ss, evs, e, n - 1);
      RunSafe(ss, evs, n - 1);
      MessageStep(ss[n - 1], evs[n - 1], e);
      var p0, a, d := Pending(ss[0], e), AcceptedIn(ss, evs, e, n - 1), DeliveredIn(ss, evs, e, n - 1);
      var p, p' := Pending(ss[n - 1], e), Pending(ss[n], e);
      var a1, d1 := Accepted(ss[n - 1], evs[n - 1], e), Delivered(ss[n - 1], evs[n - 1], ss[n], e);
      calc {
        p0 + (a + a1);
        (p0 + a) + a1;
        d + (p + a1);
        d + (d1 + p');
        (d + d1) + p';
      }
    }
  }

  // ---------------------------------------------------------------- receivers are served in order

  function WaitingReceivers(s: Sys, e: Ptr): seq<Ptr> {
    if ReceiverWaits(s, e) then Queue(s, e) else []
  }

  function ReceiverJoined(s: Sys, ev: Event, e: Ptr): seq<Ptr> {
    if Joins(s, ev, e) && ReceivesFrom(ev, e) then [s.current] else []
  }

  function ReceiverServed(s: Sys, ev: Event, e: Ptr): seq<Ptr> {
    if Takes(s, ev, e) && SendsTo(ev, e) then [Queue(s, e)[0]] else []
  }

  function ReceiversJoined(ss: seq<Sys>, evs: seq<Event>, e: Ptr, n: nat): seq<Ptr>
    requires n <= |evs| < |ss|
  {
    if n == 0 then [] else ReceiversJoined(ss, evs, e, n - 1) + ReceiverJoined(ss[n - 1], evs[n - 1], e)
  }

  function ReceiversServed(ss: seq<Sys>, evs: seq<Event>, e: Ptr, n: nat): seq<Ptr>
    requires n <= |evs| < |ss|
  {
    if n == 0 then [] else ReceiversServed(ss, evs, e, n - 1) + ReceiverServed(ss[n - 1], evs[n - 1], e)
  }

  lemma ReceiverStep(s: Sys, ev: Event, e: Ptr)
    requires Safe(s) && Enabled(s, ev)
    ensures WaitingReceivers(s, e) + ReceiverJoined(s, ev, e) ==
            ReceiverServed(s, ev, e) + WaitingReceivers(Next(s, ev), e)
  {
    hide Inv, Next;
    var q := Queue(s, e);
    NextQueue(s, ev, e);
    SenderAfter(s, ev, e);
    if Takes(s, ev, e) && SendsTo(ev, e) {
      assert q == [q[0]] + q[1..];
    }
  }

  /** Over any run, receivers that had to wait on an endpoint are served first come, first served. */
  lemma {:induction false} ReceiversInOrder(ss: seq<Sys>, evs: seq<Event>, e: Ptr, n: nat)
    requires IsRun(ss, evs) && n <= |evs|
    ensures WaitingReceivers(ss[0], e) + ReceiversJoined(ss, evs, e, n)
         == ReceiversServed(ss, evs, e, n) + WaitingReceivers(ss[n], e)
  {
    hide Inv, Next, WaitingReceivers, ReceiverJoined, ReceiverServed;
    if n > 0 {
      ReceiversInOrder(ss, evs, e, n - 1);
      RunSafe(ss, evs, n - 1);
      ReceiverStep(ss[n - 1], evs[n - 1], e);
      var w0 := WaitingReceivers(ss[0], e);
      var j, v := ReceiversJoined(ss, evs, e, n - 1), ReceiversServed(ss, evs, e, n - 1);
      var w, w' := WaitingReceivers(ss[n - 1], e), WaitingReceivers(ss[n], e);
      var j1, v1 := ReceiverJoined(ss[n - 1], evs[n - 1], e), ReceiverServed(ss[n - 1], evs[n - 1], e);
      calc {
        w0 + (j + j1);
        (w0 + j) + j1;
        v + (w + j1);
        v + (v1 + w');
        (v + v1) + w';
      }
    }
  }

  // ---------------------------------------------------------------- how a wait ends

  /**
    How the wait of the head `t` of a queue ends at an entry of `s.current`: a SEND is received and
    returns 0, a RECV gets the words of the sender, a CALL turns into the wait for its reply.
  */
  ghost predicate WaitOver(s: Sys, s': Sys, t: Ptr) {
    var other := s.current;
    match StateOf(s, t)
    case BlockedSend =>
      Handed(CtxOf(s, t), CtxOf(s, other), CtxOf(s', other)) && CtxOf(s', t) == CtxOf(s, t).(x0 := 0) && Awake(s', t)
    case BlockedRecv => Handed(CtxOf(s, other), CtxOf(s, t), CtxOf(s', t)) && Awake(s', t)
    case BlockedCall =>
      && Handed(CtxOf(s, t), CtxOf(s, other), CtxOf(s', other))
      && CtxOf(s', t) == CtxOf(s, t) && StateOf(s', t) == BlockedReply
    case _ => false
  }

  predicate Awake(s: Sys, t: Ptr) {
    StateOf(s, t) == Ready || StateOf(s, t) == Running
  }

  lemma TakenFromRecv(s: Sys, e: Ptr)
    requires Safe(s) && !s.halted && e in s.eps && SenderWaits(s, e)
    ensures WaitOver(s, DoRecv(s, e), Queue(s, e)[0])
  {
    hide Inv, DoRecv;
    HeadFacts(s, {}, false, e);
    ReceivedWords(s, e);
    if StateOf(s, Queue(s, e)[0]) == BlockedSend {
      SenderReleased(s, e);
    }
  }

  /** The head that an entry takes off a queue has its wait ended as its call promises. */
  lemma TakenEnds(s: Sys, ev: Event, e: Ptr)
    requires Safe(s) && Enabled(s, ev) && Takes(s, ev, e)
    ensures WaitOver(s, Next(s, ev), Queue(s, e)[0])
  {
    hide Inv, DoSend, DoCall, DoRecv, Reply, DoKill, Rotate, DoConfigure, DoResume;
    var t := Queue(s, e)[0];
    Facts(s, {}, false);
    HeadFacts(s, {}, false, e);
    match ev
    case Send(_) =>
      SentWords(s, e);
      SendReturns(s, e);
    case Call(_) =>
      CalledWords(s, e);
      CalledWakes(s, e);
    case Recv(_) => TakenFromRecv(s, e);
    case ReplyRecv(_) =>
      ReplyLeavesQueue(s, e);
      ReplyKeeps(s);
      ReplySafe(s);
      ReplyEffect(s);
      WaiterFacts(s, e, t, s.current);
      TakenFromRecv(Reply(s), e);
  }

  lemma CalledWakes(s: Sys, e: Ptr)
    requires Safe(s) && !s.halted && e in s.eps && ReceiverWaits(s, e)
    ensures Awake(DoCall(s, e), Queue(s, e)[0])
  {
    hide AbortReply, SwitchNext, Inv;
    Facts(s, {}, false);
    HeadFacts(s, {}, false, e);
    SwitchEffect(CallNow(s, e));
    assert StateOf(CallNow(s, e), Queue(s, e)[0]) == Ready;
    assert Spared(CallNow(s, e), SwitchNext(CallNow(s, e)), Queue(s, e)[0]);
  }

  /** One entry leaves a waiting task in its queue and untouched, or takes it as the head and ends its wait. */
  lemma WaitStep(s: Sys, ev: Event, e: Ptr, t: Ptr)
    requires Safe(s) && Enabled(s, ev) && t in Queue(s, e)
    ensures (t in Queue(Next(s, ev), e) && SameTcb(s, Next(s, ev), t) && Waiting(StateOf(s, t)))
         || (Takes(s, ev, e) && Queue(s, e)[0] == t && WaitOver(s, Next(s, ev), t))
  {
    hide Inv, Next, WaitOver;
    var i :| 0 <= i < |Queue(s, e)| && Queue(s, e)[i] == t;
    QueueFacts(s, {}, false, e, t);
    if Takes(s, ev, e) && i == 0 {
      TakenEnds(s, ev, e);
    } else {
      WaiterSpared(s, ev, e, i);
      NextQueue(s, ev, e);
      StaysQueued(s, ev, e, i);
    }
  }

  /** The task that blocked on `e` at entry `i` waits in every state up to `j`. */
  ghost predicate OpenWait(ss: seq<Sys>, evs: seq<Event>, i: nat, j: nat, e: Ptr) {
    && IsRun(ss, evs) && i < j <= |evs| && Joins(ss[i], evs[i], e)
    && forall k :: i < k <= j ==> Waiting(StateOf(ss[k], ss[i].current))
  }

  lemma {:induction false} OpenWaitFacts(ss: seq<Sys>, evs: seq<Event>, i: nat, j: nat, e: Ptr)
    requires OpenWait(ss, evs, i, j, e)
    ensures var t := ss[i].current;
            t in Queue(ss[j], e) && CtxOf(ss[j], t) == CtxOf(ss[i], t) && StateOf(ss[j], t) == StateOf(ss[i + 1], t)
    decreases j
  {
    hide Inv, Next, WaitOver;
    RunSafe(ss, evs, j - 1);
    var t := ss[i].current;
    if j == i + 1 {
      NextQueue(ss[i], evs[i], e);
      JoinState(ss[i], evs[i], e);
      assert QueueNext(ss[i], evs[i], e)[|Queue(ss[i], e)|] == t;
    } else {
      OpenWaitFacts(ss, evs, i, j - 1, e);
      WaitStep(ss[j - 1], evs[j - 1], e, t);
      NotWaiting(ss[j - 1], ss[j], t);
    }
  }

  lemma NotWaiting(s: Sys, s': Sys, t: Ptr)
    ensures WaitOver(s, s', t) ==> !Waiting(StateOf(s', t))
  {
  }

  /**
    Every wait on an endpoint ends at most once and in full: until then the task's registers and state
    are as when it blocked; then it is the head of the queue, and the entry that takes it hands the very
    words of the blocked call over, or the words of the sender in, and reports 0.
  */
  lemma WaitCompletesOnce(ss: seq<Sys>, evs: seq<Event>, i: nat, j: nat, e: Ptr)
    requires OpenWait(ss, evs, i, j, e) && j < |evs| && !Waiting(StateOf(ss[j + 1], ss[i].current))
    ensures var t := ss[i].current;
            && (forall k :: i < k <= j ==> CtxOf(ss[k], t) == CtxOf(ss[i], t) && t in Queue(ss[k], e))
            && StateOf(ss[j], t) == WaitState(evs[i])
            && Takes(ss[j], evs[j], e) && Queue(ss[j], e)[0] == t
            && WaitOver(ss[j], ss[j + 1], t)
  {
    hide Inv, Next, WaitOver;
    var t := ss[i].current;
    forall k | i < k <= j
      ensures CtxOf(ss[k], t) == CtxOf(ss[i], t) && t in Queue(ss[k], e)
    {
      OpenWaitFacts(ss, evs, i, k, e);
    }
    OpenWaitFacts(ss, evs, i, j, e);
    RunSafe(ss, evs, i);
    JoinState(ss[i], evs[i], e);
    RunSafe(ss, evs, j);
    WaitStep(ss[j], evs[j], e, t);
  }
}
