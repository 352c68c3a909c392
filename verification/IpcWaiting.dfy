/** Scheduling guarantees: who runs next, how long a ready task waits, and when the machine parks. */
module IpcWaiting {
  import opened Tasks
  import opened Ipc
  import opened IpcEffects
  import opened IpcRuns

  // ---------------------------------------------------------------- parking

  /**
    The deadlock and exit report is exact.  An entry parks the machine just when the current task
    gives the processor up, nothing was ready, and the entry itself wakes nobody.
  */
  lemma ParksExactly(s: Sys, ev: Event)
    requires Safe(s) && Enabled(s, ev)
    ensures Next(s, ev).halted <==> Leaves(s, ev) && s.ready == [] && Woken(s, ev) == []
    ensures Next(s, ev).halted <==>
              forall t :: t in Next(s, ev).state ==> Next(s, ev).state[t] != Ready && Next(s, ev).state[t] != Running
  {
    hide Inv, Next, Leaves, Woken;
    var s' := Next(s, ev);
    NextEffect(s, ev);
    NextSafe(s, ev);
    Facts(s', {}, s'.halted);
    forall t | t in s'.state && s'.halted
      ensures s'.state[t] != Ready && s'.state[t] != Running
    {
      PlaceFacts(s', t);
    }
  }

  /** CALL to a waiting receiver, REPLY_RECV with a right, and killing a holder never park. */
  lemma WakersNeverPark(s: Sys, ev: Event)
    requires Safe(s) && Enabled(s, ev)
    requires || (ev.Call? && ReceiverWaits(s, ev.e))
             || (ev.ReplyRecv? && ReplyOf(s, s.current) != 0)
             || (ev.Kill? && ReplyOf(s, s.current) != 0)
    ensures !Next(s, ev).halted
  {
    hide Inv, Next;
    ParksExactly(s, ev);
  }

  // ---------------------------------------------------------------- bounded waiting

  /** The processor goes to another task. */
  predicate Switches(s: Sys, s': Sys) {
    s'.current != s.current
  }

  function SwitchCount(ss: seq<Sys>, n: nat): nat
    requires n < |ss|
  {
    if n == 0 then 0 else SwitchCount(ss, n - 1) + if Switches(ss[n - 1], ss[n]) then 1 else 0
  }

  /** Whatever the entry does, the tasks already in line keep their order and move up only by a switch. */
  lemma LineMoves(s: Sys, ev: Event, i: nat)
    requires Safe(s) && Enabled(s, ev) && i < |s.ready|
    ensures var s' := Next(s, ev);
            if !Switches(s, s') then i < |s'.ready| && s'.ready[i] == s.ready[i]
            else if i == 0 then s'.current == s.ready[0]
            else i - 1 < |s'.ready| && s'.ready[i - 1] == s.ready[i]
  {
    hide Inv, Next, Leaves, Woken;
    Facts(s, {}, false);
    NextEffect(s, ev);
    ReadyFacts(s, {}, false);
    var line := s.ready + Woken(s, ev);
    assert line[i] == s.ready[i] && line[0] == s.ready[0];
  }

  lemma TickSwitches(s: Sys, ev: Event)
    requires Safe(s) && Enabled(s, ev) && (ev.Tick? || ev.Yield?)
    ensures Switches(s, Next(s, ev)) <==> s.ready != []
    ensures s.ready != [] ==> Next(s, ev).current == s.ready[0]
    ensures s.ready != [] ==> Next(s, ev).ready == s.ready[1..] + [s.current]
    ensures s.ready == [] ==> Next(s, ev).ready == [] && Next(s, ev).current == s.current
  {
    hide Inv;
    Facts(s, {}, false);
    ReadyFacts(s, {}, false);
  }

  /** A ready task at position i moves up by exactly one per switch, until its turn. */
  lemma {:induction false} PositionAfter(ss: seq<Sys>, evs: seq<Event>, i: nat, n: nat)
    requires IsRun(ss, evs) && n < |ss| && i < |ss[0].ready| && SwitchCount(ss, n) <= i
    ensures i - SwitchCount(ss, n) < |ss[n].ready|
    ensures ss[n].ready[i - SwitchCount(ss, n)] == ss[0].ready[i]
  {
    hide Inv, Next;
    if n > 0 {
      PositionAfter(ss, evs, i, n - 1);
      RunSafe(ss, evs, n - 1);
      LineMoves(ss[n - 1], evs[n - 1], i - SwitchCount(ss, n - 1));
    }
  }

  /** Bounded waiting: the task at position i runs right after the (i+1)-th switch, whatever else happens. */
  lemma RunsAfterTurns(ss: seq<Sys>, evs: seq<Event>, i: nat, n: nat)
    requires IsRun(ss, evs) && n < |evs| && i < |ss[0].ready|
    requires SwitchCount(ss, n) == i && Switches(ss[n], ss[n + 1])
    ensures ss[n + 1].current == ss[0].ready[i]
    ensures forall m :: 0 <= m <= n ==> SwitchCount(ss, m) <= i && ss[0].ready[i] in ss[m].ready
  {
    hide Inv, Next;
    PositionAfter(ss, evs, i, n);
    RunSafe(ss, evs, n);
    LineMoves(ss[n], evs[n], 0);
    forall m | 0 <= m <= n
      ensures SwitchCount(ss, m) <= i && ss[0].ready[i] in ss[m].ready
    {
      CountGrows(ss, m, n);
      PositionAfter(ss, evs, i, m);
    }
  }

  lemma {:induction false} CountGrows(ss: seq<Sys>, m: nat, n: nat)
    requires m <= n < |ss|
    ensures SwitchCount(ss, m) <= SwitchCount(ss, n)
  {
    if m < n {
      CountGrows(ss, m, n - 1);
    }
  }

  // ---------------------------------------------------------------- death

  /** A dead task is never touched again. */
  lemma {:induction false} DeadForever(ss: seq<Sys>, evs: seq<Event>, t: Ptr, n: nat)
    requires IsRun(ss, evs) && n < |ss| && StateOf(ss[0], t) == Dead
    ensures SameTcb(ss[0], ss[n], t)
  {
    hide Inv, Next;
    if n > 0 {
      DeadForever(ss, evs, t, n - 1);
      RunSafe(ss, evs, n - 1);
      DeadStep(ss[n - 1], evs[n - 1], t);
    }
  }

  lemma DeadStep(s: Sys, ev: Event, t: Ptr)
    requires Safe(s) && Enabled(s, ev) && StateOf(s, t) == Dead
    ensures SameTcb(s, Next(s, ev), t)
  {
    hide Inv, Next;
    Facts(s, {}, false);
    PlaceFacts(s, t);
    RightFacts(s, {}, false, s.current);
    DeadNotTouched(s, ev, t);
    NextEffect(s, ev);
    assert Spared(s, Next(s, ev), t);
    assert forall x :: x in s.ready + Woken(s, ev) ==> x in s.ready || x in Touched(s, ev);
  }

  lemma DeadNotTouched(s: Sys, ev: Event, t: Ptr)
    requires Safe(s) && Enabled(s, ev) && t in s.state && s.state[t] == Dead
    ensures t !in Touched(s, ev)
  {
    hide Inv;
    Facts(s, {}, false);
    RightFacts(s, {}, false, s.current);
    match ev
    case Send(e) => HeadFacts(s, {}, false, e);
    case Recv(e) => HeadFacts(s, {}, false, e);
    case ReplyRecv(e) => HeadFacts(s, {}, false, e);
    case Call(e) =>
      HeadFacts(s, {}, false, e);
      if ReceiverWaits(s, e) {
        RightFacts(s, {}, false, Queue(s, e)[0]);
      }
    case _ =>
  }
}
