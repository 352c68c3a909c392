/**
  Task control blocks, endpoints and the scheduler, with every queue as a plain sequence.

  `Sys` is the state seen between two kernel entries.  Memory is modelled one map per TCB field,
  each indexed by the kernel address of the TCB.  The linked representation (one `next` field
  shared by the ready queue and all endpoint queues) is in module `IpcMachine`, which is proved
  to implement the operations below.
*/
module Tasks {
  import opened Abi

  /** Kernel address of a TCB or an endpoint; 0 means none. */
  type Ptr = nat

  datatype TaskState =
    | Inactive | Stopped | Ready | Running | Dead
    | BlockedSend | BlockedRecv | BlockedReply | BlockedCall

  /** The message registers MR0 to MR3 (x2 to x5). */
  datatype Message = Message(m0: Word, m1: Word, m2: Word, m3: Word)

  /** A saved user context.  `rest` stands for every register the kernel neither reads nor writes. */
  datatype Context = Context(x0: Word, x1: Word, mr: Message, x8: Word,
                             elr: Word, sp: Word, spsr: Word, rest: seq<Word>)

  const ZERO_CONTEXT := Context(0, 0, Message(0, 0, 0, 0), 0, 0, 0, 0, [])

  datatype Sys = Sys(
    state: map<Ptr, TaskState>,
    replyTo: map<Ptr, Ptr>,
    ctx: map<Ptr, Context>,
    ttbr0: map<Ptr, Word>,
    eps: map<Ptr, seq<Ptr>>,
    ready: seq<Ptr>,
    current: Ptr,
    halted: bool)

  predicate Waiting(st: TaskState) {
    st == BlockedSend || st == BlockedRecv || st == BlockedCall
  }

  predicate Idle(st: TaskState) {
    st == Inactive || st == Stopped || st == Dead
  }

  predicate NoDup(q: seq<Ptr>) {
    forall i, j :: 0 <= i < j < |q| ==> q[i] != q[j]
  }

  // ---------------------------------------------------------------- the global invariant

  // Inside one kernel entry a task can be in transit: taken out of its old place and not yet
  // put into a new one.  `limbo` is the set of such tasks; it is empty between entries.

  /** The ready queue holds exactly the Ready tasks, each once. */
  ghost predicate ReadyPlaced(state: map<Ptr, TaskState>, ready: seq<Ptr>, limbo: set<Ptr>) {
    && NoDup(ready)
    && (forall t :: t in ready ==> t in state && t !in limbo && state[t] == Ready)
    && (forall t :: t in state && t !in limbo && state[t] == Ready ==> t in ready)
  }

  /** Every endpoint queue has no duplicates and holds only waiting tasks. */
  ghost predicate QueuesPlaced(state: map<Ptr, TaskState>, eps: map<Ptr, seq<Ptr>>, limbo: set<Ptr>) {
    && (forall e :: e in eps ==> NoDup(eps[e]))
    && (forall e, t :: e in eps && t in eps[e] ==> t in state && t !in limbo && Waiting(state[t]))
  }

  /** No task is in two endpoint queues. */
  ghost predicate QueuesDisjoint(eps: map<Ptr, seq<Ptr>>) {
    forall e, f, t :: e in eps && f in eps && t in eps[e] && t in eps[f] ==> e == f
  }

  ghost predicate Queued(eps: map<Ptr, seq<Ptr>>, t: Ptr) {
    exists e :: e in eps && t in eps[e]
  }

  /** Every waiting task is in some endpoint queue. */
  ghost predicate WaitersQueued(state: map<Ptr, TaskState>, eps: map<Ptr, seq<Ptr>>, limbo: set<Ptr>) {
    forall t {:trigger Queued(eps, t)} :: t in state && t !in limbo && Waiting(state[t]) ==> Queued(eps, t)
  }

  /** One endpoint queue never mixes receivers and senders. */
  ghost predicate OneSided(state: map<Ptr, TaskState>, eps: map<Ptr, seq<Ptr>>) {
    forall e, t, u :: e in eps && t in eps[e] && u in eps[e] && t in state && u in state ==>
      (state[t] == BlockedRecv <==> state[u] == BlockedRecv)
  }

  /** The Running task is `current`; an idle processor has none. */
  ghost predicate CurrentPlaced(state: map<Ptr, TaskState>, current: Ptr, limbo: set<Ptr>, idle: bool) {
    && current in state
    && (forall t :: t in state && t !in limbo && state[t] == Running ==> t == current && !idle)
    && (!idle ==> current !in limbo && state[current] == Running)
  }

  /** `h` holds the reply right of caller `c`. */
  predicate Holds(replyTo: map<Ptr, Ptr>, h: Ptr, c: Ptr) {
    h in replyTo && c != 0 && replyTo[h] == c
  }

  ghost predicate Held(replyTo: map<Ptr, Ptr>, c: Ptr) {
    exists h :: Holds(replyTo, h, c)
  }

  /** Reply rights and BlockedReply callers correspond one to one; idle and dead tasks hold none. */
  ghost predicate RepliesPlaced(state: map<Ptr, TaskState>, replyTo: map<Ptr, Ptr>, limbo: set<Ptr>) {
    && (forall h, c :: Holds(replyTo, h, c) ==> c in state && c !in limbo && state[c] == BlockedReply)
    && (forall h, g, c :: Holds(replyTo, h, c) && Holds(replyTo, g, c) ==> h == g)
    && (forall c {:trigger Held(replyTo, c)} :: c in state && c !in limbo && state[c] == BlockedReply ==>
          Held(replyTo, c))
    && (forall h :: h in state && h in replyTo && Idle(state[h]) ==> replyTo[h] == 0)
  }

  /** A rank that strictly grows from each holder to its caller: chains of rights cannot loop. */
  ghost predicate Ranked(replyTo: map<Ptr, Ptr>, rank: map<Ptr, nat>) {
    forall h, c :: Holds(replyTo, h, c) ==> h in rank && c in rank && rank[h] < rank[c]
  }

  ghost predicate Acyclic(replyTo: map<Ptr, Ptr>) {
    exists rank :: Ranked(replyTo, rank)
  }

  ghost predicate WellTyped(s: Sys) {
    && s.replyTo.Keys == s.ctx.Keys == s.ttbr0.Keys == s.state.Keys
    && 0 !in s.state && 0 !in s.eps
    && s.state.Keys !! s.eps.Keys
  }

  ghost predicate RunnersOk(state: map<Ptr, TaskState>, ready: seq<Ptr>, current: Ptr, limbo: set<Ptr>, idle: bool) {
    ReadyPlaced(state, ready, limbo) && CurrentPlaced(state, current, limbo, idle)
  }

  ghost predicate QueuesOk(state: map<Ptr, TaskState>, eps: map<Ptr, seq<Ptr>>, limbo: set<Ptr>) {
    && QueuesPlaced(state, eps, limbo)
    && QueuesDisjoint(eps)
    && WaitersQueued(state, eps, limbo)
    && OneSided(state, eps)
  }

  ghost predicate RightsOk(state: map<Ptr, TaskState>, replyTo: map<Ptr, Ptr>, limbo: set<Ptr>) {
    RepliesPlaced(state, replyTo, limbo) && Acyclic(replyTo)
  }

  ghost predicate Inv(s: Sys, limbo: set<Ptr>, idle: bool) {
    && WellTyped(s)
    && RunnersOk(s.state, s.ready, s.current, limbo, idle)
    && QueuesOk(s.state, s.eps, limbo)
    && RightsOk(s.state, s.replyTo, limbo)
  }

  /** What holds between kernel entries: nobody is in transit, and a parked machine has nothing to run. */
  ghost predicate Safe(s: Sys) {
    Inv(s, {}, s.halted) && (s.halted ==> s.ready == [])
  }

  // ---------------------------------------------------------------- primitive updates

  function CtxOf(s: Sys, t: Ptr): Context {
    if t in s.ctx then s.ctx[t] else ZERO_CONTEXT
  }

  function StateOf(s: Sys, t: Ptr): TaskState {
    if t in s.state then s.state[t] else Inactive
  }

  function ReplyOf(s: Sys, t: Ptr): Ptr {
    if t in s.replyTo then s.replyTo[t] else 0
  }

  function Queue(s: Sys, e: Ptr): seq<Ptr> {
    if e in s.eps then s.eps[e] else []
  }

  function SetCtx(s: Sys, t: Ptr, c: Context): Sys {
    s.(ctx := s.ctx[t := c])
  }

  function SetX0(s: Sys, t: Ptr, x0: Word): Sys {
    SetCtx(s, t, CtxOf(s, t).(x0 := x0))
  }

  function SetState(s: Sys, t: Ptr, st: TaskState): Sys {
    s.(state := s.state[t := st])
  }

  function SetReply(s: Sys, t: Ptr, c: Ptr): Sys {
    s.(replyTo := s.replyTo[t := c])
  }

  /** `k0_sched::enqueue`. */
  function Enqueue(s: Sys, t: Ptr): Sys {
    SetState(s, t, Ready).(ready := s.ready + [t])
  }

  /** `Endpoint::push`. */
  function PushEp(s: Sys, e: Ptr, t: Ptr): Sys {
    s.(eps := s.eps[e := Queue(s, e) + [t]])
  }

  /** `Endpoint::pop` on a non-empty queue. */
  function PopEp(s: Sys, e: Ptr): Sys
    requires Queue(s, e) != []
  {
    s.(eps := s.eps[e := Queue(s, e)[1..]])
  }

  function PopReady(s: Sys): Sys
    requires s.ready != []
  {
    s.(ready := s.ready[1..])
  }

  /** `switch_to`. */
  function RunTask(s: Sys, t: Ptr): Sys {
    SetState(s, t, Running).(current := t)
  }

  /** The common tail of `block_and_switch` and `exit_current`: park when nothing is ready. */
  function SwitchNext(s: Sys): Sys {
    if s.ready == [] then s.(halted := true)
    else RunTask(PopReady(s), s.ready[0])
  }

  // ---------------------------------------------------------------- the three parts of the invariant, one update each

  type States = map<Ptr, TaskState>

  lemma RunnersKeep(state: States, ready: seq<Ptr>, current: Ptr, limbo: set<Ptr>, idle: bool, t: Ptr, st: TaskState)
    requires RunnersOk(state, ready, current, limbo, idle) && t in limbo && t in state
    ensures RunnersOk(state[t := st], ready, current, limbo, idle)
  {
  }

  /** A task that is neither Ready nor Running enters or leaves transit unnoticed by the scheduler. */
  lemma RunnersTransit(state: States, ready: seq<Ptr>, current: Ptr, limbo: set<Ptr>, idle: bool, t: Ptr)
    requires RunnersOk(state, ready, current, limbo, idle) && t in state
    requires state[t] != Ready && state[t] != Running
    ensures RunnersOk(state, ready, current, limbo + {t}, idle)
    ensures RunnersOk(state, ready, current, limbo - {t}, idle)
  {
  }

  lemma RunnersAppend(state: States, ready: seq<Ptr>, current: Ptr, limbo: set<Ptr>, idle: bool, t: Ptr)
    requires RunnersOk(state, ready, current, limbo, idle) && t in limbo && t in state
    ensures RunnersOk(state[t := Ready], ready + [t], current, limbo - {t}, idle)
  {
    var ready' := ready + [t];
    forall u | u in state && u !in limbo - {t} && state[t := Ready][u] == Ready
      ensures u in ready'
    {
      if u == t {
        assert ready'[|ready|] == u;
      } else {
        assert u in ready;
      }
    }
  }

  lemma RunnersPop(state: States, ready: seq<Ptr>, current: Ptr, limbo: set<Ptr>, idle: bool)
    requires RunnersOk(state, ready, current, limbo, idle) && ready != []
    ensures RunnersOk(state, ready[1..], current, limbo + {ready[0]}, idle)
  {
    assert ready == [ready[0]] + ready[1..];
  }

  lemma QueuesKeep(state: States, eps: map<Ptr, seq<Ptr>>, limbo: set<Ptr>, t: Ptr, st: TaskState)
    requires QueuesOk(state, eps, limbo) && t in limbo
    ensures QueuesOk(state[t := st], eps, limbo)
  {
  }

  lemma QueuesTransit(state: States, eps: map<Ptr, seq<Ptr>>, limbo: set<Ptr>, t: Ptr)
    requires QueuesOk(state, eps, limbo) && t in state && !Waiting(state[t])
    ensures QueuesOk(state, eps, limbo + {t}) && QueuesOk(state, eps, limbo - {t})
  {
  }

  lemma QueuesAppend(state: States, eps: map<Ptr, seq<Ptr>>, limbo: set<Ptr>, e: Ptr, t: Ptr)
    requires QueuesOk(state, eps, limbo)
    requires t in limbo && t in state && e in eps && Waiting(state[t])
    requires forall u :: u in eps[e] && u in state ==> (state[u] == BlockedRecv <==> state[t] == BlockedRecv)
    ensures QueuesOk(state, eps[e := eps[e] + [t]], limbo - {t})
  {
    var eps' := eps[e := eps[e] + [t]];
    assert forall f, u :: f in eps' && u in eps'[f] ==> (f in eps && u in eps[f]) || (f == e && u == t);
    forall u | u in state && u !in limbo - {t} && Waiting(state[u])
      ensures Queued(eps', u)
    {
      if u == t {
        assert eps'[e][|eps[e]|] == u;
        assert u in eps'[e];
      } else {
        assert Queued(eps, u);
        var f :| f in eps && u in eps[f];
        assert u in eps'[f];
      }
    }
  }

  lemma QueuesRemove(state: States, eps: map<Ptr, seq<Ptr>>, limbo: set<Ptr>, e: Ptr)
    requires QueuesOk(state, eps, limbo) && e in eps && eps[e] != []
    ensures QueuesOk(state, eps[e := eps[e][1..]], limbo + {eps[e][0]})
  {
    var eps' := eps[e := eps[e][1..]];
    var t := eps[e][0];
    assert eps[e] == [t] + eps'[e];
    assert forall f, u :: f in eps' && u in eps'[f] ==> f in eps && u in eps[f] && u != t;
    forall u | u in state && u !in limbo + {t} && Waiting(state[u])
      ensures Queued(eps', u)
    {
      assert Queued(eps, u);
      var f :| f in eps && u in eps[f];
      assert u in eps'[f];
    }
  }

  lemma RightsKeep(state: States, replyTo: map<Ptr, Ptr>, limbo: set<Ptr>, t: Ptr, st: TaskState)
    requires RightsOk(state, replyTo, limbo) && t in limbo && t in replyTo
    requires Idle(st) ==> replyTo[t] == 0
    ensures RightsOk(state[t := st], replyTo, limbo)
  {
  }

  lemma RightsTransit(state: States, replyTo: map<Ptr, Ptr>, limbo: set<Ptr>, t: Ptr)
    requires RightsOk(state, replyTo, limbo) && t in state && state[t] != BlockedReply
    ensures RightsOk(state, replyTo, limbo + {t}) && RightsOk(state, replyTo, limbo - {t})
  {
  }

  lemma RightsRemove(state: States, replyTo: map<Ptr, Ptr>, limbo: set<Ptr>, h: Ptr, c: Ptr)
    requires RightsOk(state, replyTo, limbo) && Holds(replyTo, h, c)
    ensures RightsOk(state, replyTo[h := 0], limbo + {c})
  {
    var replyTo' := replyTo[h := 0];
    assert forall g, x :: Holds(replyTo', g, x) <==> Holds(replyTo, g, x) && g != h;
    var rank :| Ranked(replyTo, rank);
    assert Ranked(replyTo', rank);
    forall x | x in state && x !in limbo + {c} && state[x] == BlockedReply
      ensures Held(replyTo', x)
    {
      assert Held(replyTo, x);
      var g :| Holds(replyTo, g, x);
      assert Holds(replyTo', g, x);
    }
  }

  lemma RightsAdd(state: States, replyTo: map<Ptr, Ptr>, limbo: set<Ptr>, h: Ptr, c: Ptr)
    requires RightsOk(state, replyTo, limbo) && h in state && h in replyTo && replyTo[h] == 0
    requires c in state && c in limbo && state[c] == BlockedReply && !Idle(state[h]) && c != 0
    requires h != c && !Held(replyTo, h)
    ensures RightsOk(state, replyTo[h := c], limbo - {c})
  {
    var replyTo' := replyTo[h := c];
    assert forall g, x :: Holds(replyTo', g, x) <==> (Holds(replyTo, g, x) || (g == h && x == c));
    forall x | x in state && x !in limbo - {c} && state[x] == BlockedReply
      ensures Held(replyTo', x)
    {
      if x == c {
        assert Holds(replyTo', h, x);
      } else {
        assert Held(replyTo, x);
        var g :| Holds(replyTo, g, x);
        assert Holds(replyTo', g, x);
      }
    }
    AcyclicAdd(replyTo, h, c);
  }

  /** Attaching a caller below a holder that is itself held by nobody cannot close a cycle. */
  lemma AcyclicAdd(replyTo: map<Ptr, Ptr>, h: Ptr, c: Ptr)
    requires Acyclic(replyTo) && h in replyTo && replyTo[h] == 0 && h != c
    requires !Held(replyTo, h)
    ensures Acyclic(replyTo[h := c])
  {
    var rank :| Ranked(replyTo, rank);
    var base: nat := if h in rank then rank[h] else 0;
    var lifted: map<Ptr, nat> := map x: Ptr | x in rank.Keys + {h, c} ::
      if x == h then base else (if x in rank then rank[x] else 0) + base + 1;
    var replyTo' := replyTo[h := c];
    forall g, x | Holds(replyTo', g, x)
      ensures g in lifted && x in lifted && lifted[g] < lifted[x]
    {
      if g != h {
        assert Holds(replyTo, g, x);
      }
    }
    assert Ranked(replyTo', lifted);
  }

  lemma RunnersYield(state: States, ready: seq<Ptr>, current: Ptr, limbo: set<Ptr>)
    requires RunnersOk(state, ready, current, limbo, false)
    ensures current in state && state[current] == Running
    ensures RunnersOk(state, ready, current, limbo + {current}, true)
  {
  }

  lemma RunnersRun(state: States, ready: seq<Ptr>, current: Ptr, limbo: set<Ptr>, t: Ptr)
    requires RunnersOk(state, ready, current, limbo, true) && t in limbo && t in state
    ensures RunnersOk(state[t := Running], ready, t, limbo - {t}, false)
  {
  }

  lemma RunnersHead(state: States, ready: seq<Ptr>, current: Ptr, limbo: set<Ptr>, idle: bool)
    requires RunnersOk(state, ready, current, limbo, idle)
    ensures current in state && (!idle ==> state[current] == Running && current !in limbo)
    ensures ready != [] ==> ready[0] in state && state[ready[0]] == Ready && ready[0] !in limbo
  {
  }

  lemma QueuesMember(state: States, eps: map<Ptr, seq<Ptr>>, limbo: set<Ptr>, e: Ptr, t: Ptr)
    requires QueuesOk(state, eps, limbo) && e in eps && t in eps[e]
    ensures t in state && t !in limbo && Waiting(state[t])
    ensures eps[e][0] in state && (state[t] == BlockedRecv <==> state[eps[e][0]] == BlockedRecv)
  {
    assert eps[e][0] in eps[e];
  }

  lemma RightsHeld(state: States, replyTo: map<Ptr, Ptr>, limbo: set<Ptr>, h: Ptr)
    requires RightsOk(state, replyTo, limbo) && h in replyTo
    ensures replyTo[h] != 0 ==> Holds(replyTo, h, replyTo[h])
    ensures var c := replyTo[h];
            c != 0 ==> c in state && c !in limbo && state[c] == BlockedReply && c != h
    ensures h in state && Idle(state[h]) ==> replyTo[h] == 0
    ensures h in state && (h in limbo || state[h] != BlockedReply) ==> !Held(replyTo, h)
  {
    if replyTo[h] != 0 {
      assert Holds(replyTo, h, replyTo[h]);
      var rank :| Ranked(replyTo, rank);
    }
  }

  // ---------------------------------------------------------------- each primitive keeps the invariant

  /** The state field of a task in transit is free. */
  lemma KeepState(s: Sys, limbo: set<Ptr>, idle: bool, t: Ptr, st: TaskState)
    requires Inv(s, limbo, idle) && t in limbo && t in s.state
    requires Idle(st) ==> s.replyTo[t] == 0
    ensures Inv(SetState(s, t, st), limbo, idle)
  {
    hide RunnersOk, QueuesOk, RightsOk;
    RunnersKeep(s.state, s.ready, s.current, limbo, idle, t, st);
    QueuesKeep(s.state, s.eps, limbo, t, st);
    RightsKeep(s.state, s.replyTo, limbo, t, st);
  }

  /** The current task can be taken into transit: it is in no queue and waits for no reply. */
  lemma TakeCurrent(s: Sys, limbo: set<Ptr>)
    requires Inv(s, limbo, false)
    ensures Inv(s, limbo + {s.current}, true)
  {
    hide RunnersOk, QueuesOk, RightsOk;
    RunnersYield(s.state, s.ready, s.current, limbo);
    QueuesTransit(s.state, s.eps, limbo, s.current);
    RightsTransit(s.state, s.replyTo, limbo, s.current);
  }

  lemma PutReady(s: Sys, limbo: set<Ptr>, idle: bool, t: Ptr)
    requires Inv(s, limbo, idle) && t in limbo && t in s.state
    ensures Inv(Enqueue(s, t), limbo - {t}, idle)
  {
    hide RunnersOk, QueuesOk, RightsOk;
    var state' := s.state[t := Ready];
    RunnersAppend(s.state, s.ready, s.current, limbo, idle, t);
    QueuesKeep(s.state, s.eps, limbo, t, Ready);
    QueuesTransit(state', s.eps, limbo, t);
    RightsKeep(s.state, s.replyTo, limbo, t, Ready);
    RightsTransit(state', s.replyTo, limbo, t);
  }

  lemma TakeReady(s: Sys, limbo: set<Ptr>, idle: bool)
    requires Inv(s, limbo, idle) && s.ready != []
    ensures Inv(PopReady(s), limbo + {s.ready[0]}, idle)
  {
    hide RunnersOk, QueuesOk, RightsOk;
    var t := s.ready[0];
    RunnersHead(s.state, s.ready, s.current, limbo, idle);
    RunnersPop(s.state, s.ready, s.current, limbo, idle);
    QueuesTransit(s.state, s.eps, limbo, t);
    RightsTransit(s.state, s.replyTo, limbo, t);
  }

  lemma PutRunning(s: Sys, limbo: set<Ptr>, t: Ptr)
    requires Inv(s, limbo, true) && t in limbo && t in s.state
    ensures Inv(RunTask(s, t), limbo - {t}, false)
  {
    hide RunnersOk, QueuesOk, RightsOk;
    var state' := s.state[t := Running];
    RunnersRun(s.state, s.ready, s.current, limbo, t);
    QueuesKeep(s.state, s.eps, limbo, t, Running);
    QueuesTransit(state', s.eps, limbo, t);
    RightsKeep(s.state, s.replyTo, limbo, t, Running);
    RightsTransit(state', s.replyTo, limbo, t);
  }

  lemma PutEp(s: Sys, limbo: set<Ptr>, idle: bool, e: Ptr, t: Ptr)
    requires Inv(s, limbo, idle) && t in limbo && t in s.state && e in s.eps
    requires Waiting(s.state[t])
    requires forall u :: u in s.eps[e] && u in s.state ==> (s.state[u] == BlockedRecv <==> s.state[t] == BlockedRecv)
    ensures Inv(PushEp(s, e, t), limbo - {t}, idle)
  {
    hide RunnersOk, QueuesOk, RightsOk;
    RunnersTransit(s.state, s.ready, s.current, limbo, idle, t);
    QueuesAppend(s.state, s.eps, limbo, e, t);
    RightsTransit(s.state, s.replyTo, limbo, t);
  }

  lemma TakeEp(s: Sys, limbo: set<Ptr>, idle: bool, e: Ptr)
    requires Inv(s, limbo, idle) && e in s.eps && s.eps[e] != []
    ensures Inv(PopEp(s, e), limbo + {s.eps[e][0]}, idle)
  {
    hide RunnersOk, QueuesOk, RightsOk;
    var t := s.eps[e][0];
    assert t in s.eps[e];
    QueuesMember(s.state, s.eps, limbo, e, t);
    RunnersTransit(s.state, s.ready, s.current, limbo, idle, t);
    QueuesRemove(s.state, s.eps, limbo, e);
    RightsTransit(s.state, s.replyTo, limbo, t);
  }

  /** The holder gives its right up; the caller is in transit. */
  lemma TakeReply(s: Sys, limbo: set<Ptr>, idle: bool, h: Ptr, c: Ptr)
    requires Inv(s, limbo, idle) && Holds(s.replyTo, h, c)
    ensures Inv(SetReply(s, h, 0), limbo + {c}, idle)
  {
    hide RunnersOk, QueuesOk, RightsOk;
    RightsHeld(s.state, s.replyTo, limbo, h);
    RunnersTransit(s.state, s.ready, s.current, limbo, idle, c);
    QueuesTransit(s.state, s.eps, limbo, c);
    RightsRemove(s.state, s.replyTo, limbo, h, c);
  }

  /** A task nobody holds takes the right of a caller in transit; the chains stay acyclic. */
  lemma PutReply(s: Sys, limbo: set<Ptr>, idle: bool, h: Ptr, c: Ptr)
    requires Inv(s, limbo, idle) && h in s.state && c in s.state && c in limbo && h != c
    requires s.replyTo[h] == 0 && s.state[c] == BlockedReply && !Idle(s.state[h])
    requires !Held(s.replyTo, h)
    ensures Inv(SetReply(s, h, c), limbo - {c}, idle)
  {
    hide RunnersOk, QueuesOk, RightsOk;
    RunnersTransit(s.state, s.ready, s.current, limbo, idle, c);
    QueuesTransit(s.state, s.eps, limbo, c);
    RightsAdd(s.state, s.replyTo, limbo, h, c);
  }

  /** With the current task put away, the head of the ready queue takes over, or the machine parks. */
  lemma Switched(s: Sys)
    requires Inv(s, {}, true) && !s.halted
    ensures Safe(SwitchNext(s))
  {
    hide RunnersOk, QueuesOk, RightsOk;
    if s.ready != [] {
      var t := s.ready[0];
      RunnersHead(s.state, s.ready, s.current, {}, true);
      TakeReady(s, {}, true);
      PutRunning(PopReady(s), {} + {t}, t);
      assert {} + {t} - {t} == {};
    }
  }
}
