/**
  Whether a caller wakes up.  The design promises that it always does; the kernel only promises it
  if the task that took the CALL replies, dies or takes another CALL.  Nothing forces it to; module
  `Stalls` has runs of the whole machine in which it does not.
*/
module IpcStalls {
  import opened Tasks
  import opened Ipc
  import opened IpcRuns
  import opened IpcCalls

  /**
    A CALL taken by `h` is still open at `j` if and only if no entry since it was taken is one of
    the completing ones of `h`; as long as it is open `h` is the one that holds the right.
  */
  lemma {:induction false} OpenUntilCompleted(ss: seq<Sys>, evs: seq<Event>, i: nat, d: nat, j: nat, h: Ptr, t: Ptr)
    requires OpenCall(ss, evs, i, d, t) && Custody(ss, i, d, d, h, t) && d <= j <= |evs|
    ensures OpenCall(ss, evs, i, j, t) <==> forall k :: d <= k < j ==> !Completes(ss[k], evs[k], h)
    ensures OpenCall(ss, evs, i, j, t) ==> Custody(ss, i, d, j, h, t)
    decreases j
  {
    hide Inv, Next, Answered, Lost, Completes;
    if d < j {
      OpenUntilCompleted(ss, evs, i, d, j - 1, h, t);
      if OpenCall(ss, evs, i, j - 1, t) {
        RunSafe(ss, evs, j - 1);
        HeldCaller(ss[j - 1], h, t);
        CompletesExactly(ss[j - 1], evs[j - 1], h, t);
        CallStep(ss[j - 1], evs[j - 1], t);
        NotFinished(ss[j - 1], evs[j - 1], ss[j], t);
      }
    }
  }

  lemma HeldCaller(s: Sys, h: Ptr, t: Ptr)
    requires Safe(s) && Holds(s.replyTo, h, t) && InCall(s, t)
    ensures t in s.state && s.state[t] == BlockedReply
  {
    hide Inv;
    assert Held(s.replyTo, t);
    PlaceFacts(s, t);
  }

  // ---------------------------------------------------------------- runs by their events

  /** The state after a list of entries. */
  function Play(s: Sys, evs: seq<Event>): Sys {
    if evs == [] then s else Next(Play(s, evs[..|evs| - 1]), evs[|evs| - 1])
  }

  function Trace(s: Sys, evs: seq<Event>): seq<Sys> {
    seq(|evs| + 1, k requires 0 <= k <= |evs| => Play(s, evs[..k]))
  }

  /** Each entry of the list is enabled when it comes. */
  ghost predicate Plays(s: Sys, evs: seq<Event>) {
    forall k :: 0 <= k < |evs| ==> Enabled(Play(s, evs[..k]), evs[k])
  }

  lemma TraceIsRun(s: Sys, evs: seq<Event>)
    requires Safe(s) && Plays(s, evs)
    ensures IsRun(Trace(s, evs), evs)
  {
    hide Inv, Next, Enabled;
    var ss := Trace(s, evs);
    forall k | 0 <= k < |evs|
      ensures Enabled(ss[k], evs[k]) && ss[k + 1] == Next(ss[k], evs[k])
    {
      assert evs[..k + 1][..k] == evs[..k];
    }
  }

  function Ticks(n: nat): seq<Event> {
    seq(n, _ => Tick)
  }

  // ---------------------------------------------------------------- timer ticks wake no caller

  lemma TickKeepsCall(s: Sys, t: Ptr)
    requires Safe(s) && !s.halted && InCall(s, t)
    ensures Safe(Next(s, Tick)) && !Next(s, Tick).halted
    ensures InCall(Next(s, Tick), t) && CtxOf(Next(s, Tick), t) == CtxOf(s, t)
  {
    hide Inv;
    NextSafe(s, Tick);
    Facts(s, {}, false);
    ReadyFacts(s, {}, false);
  }

  lemma {:induction false} TicksKeepCall(s: Sys, t: Ptr, n: nat)
    requires Safe(s) && !s.halted && InCall(s, t)
    ensures var s' := Play(s, Ticks(n));
            Safe(s') && !s'.halted && InCall(s', t) && CtxOf(s', t) == CtxOf(s, t)
  {
    hide Inv, Next, InCall;
    if n > 0 {
      assert Ticks(n)[..n - 1] == Ticks(n - 1);
      TicksKeepCall(s, t, n - 1);
      TickKeepsCall(Play(s, Ticks(n - 1)), t);
    }
  }

  /**
    From every running state with an unfinished CALL there is a run of any number of timer ticks
    through which the caller waits with its registers untouched and the machine never parks.
  */
  lemma CallerWaitsThroughTicks(s: Sys, t: Ptr, n: nat)
    requires Safe(s) && !s.halted && InCall(s, t)
    ensures IsRun(Trace(s, Ticks(n)), Ticks(n))
    ensures forall x :: x in Trace(s, Ticks(n)) ==> InCall(x, t) && CtxOf(x, t) == CtxOf(s, t) && !x.halted
  {
    hide Inv, Next, InCall;
    forall k | 0 <= k <= n
      ensures Play(s, Ticks(n)[..k]) == Play(s, Ticks(k))
    {
      assert Ticks(n)[..k] == Ticks(k);
    }
    forall k: nat | k <= n
      ensures var s' := Play(s, Ticks(n)[..k]); !s'.halted && InCall(s', t) && CtxOf(s', t) == CtxOf(s, t)
    {
      TicksKeepCall(s, t, k);
    }
    TraceIsRun(s, Ticks(n));
  }
}
