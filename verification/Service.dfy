/** The service object: each method takes the steps it names, uninterrupted. */
module Services {
  import opened Captures
  import opened Wrappers

  datatype Outcome = AlreadyRunning | SingleUse | Passed

  lemma StartSteps(s: State)
    ensures Steps(s, [StartTest, Obtain, SetRunning, Arm]) == After(After(After(After(s, StartTest), Obtain), SetRunning), Arm)
  {
    StepsPush(s, [], StartTest);
    StepsPush(s, [StartTest], Obtain);
    StepsPush(s, [StartTest, Obtain], SetRunning);
    StepsPush(s, [StartTest, Obtain, SetRunning], Arm);
    assert [] + [StartTest] == [StartTest] && [StartTest] + [Obtain] == [StartTest, Obtain];
    assert [StartTest, Obtain] + [SetRunning] == [StartTest, Obtain, SetRunning];
    assert [StartTest, Obtain, SetRunning] + [Arm] == [StartTest, Obtain, SetRunning, Arm];
  }

  /** With nothing under way no flag is set. */
  lemma NoFlags(s: State)
    requires Whole(Sound(s)) && s.life.loop != Running
    ensures s.work.flags == {}
  {
    forall c ensures c !in s.work.flags {
      assert FlagExact(s.work, c) && Outstanding(s.work, c) == 0;
    }
  }

  /** The service's fields. `state` is what all threads have done; each method is the steps it names, uninterrupted. */
  class Service {
    var running: bool
    var stopRequested: bool
    var finalized: bool
    var hasLoop: bool
    var armed: bool // whether the loop's handles are armed
    var inFlight: array<bool> // of the collectors' tasks
    ghost var state: State

    ghost predicate Valid()
      reads this, inFlight
    {
      && running == state.life.running && stopRequested == state.life.stopRequested && finalized == state.life.finalized
      && hasLoop == (state.life.loop != NotStarted && state.life.loop != Tested) && armed == (state.life.loop == Running && !state.life.closed)
      && (forall c :: c in state.work.flags <==> 0 <= c < inFlight.Length && inFlight[c])
      && Whole(Sound(state))
    }

    constructor (collectors: nat)
      ensures Valid() && fresh(inFlight) && inFlight.Length == collectors && state == FRESH
    {
      running, stopRequested, finalized, hasLoop, armed, state := false, false, false, false, false, FRESH;
      inFlight := new bool[collectors](_ => false);
    }

    ghost method Step(op: Op)
      requires Whole(Sound(state)) && Enabled(state, op)
      modifies `state
      ensures Whole(Sound(state)) && state == After(old(state), op)
    {
      SoundStep(state, op);
      state := After(state, op);
    }

    /** The tests of `start`: a second start while running does nothing, and a finalized service never starts again. */
    method TestStart() returns (outcome: Outcome)
      requires Valid() && Enabled(state, StartTest)
      modifies `state
      ensures Valid() && state == After(old(state), StartTest)
      ensures outcome.Passed? <==> !old(state.life.running) && !old(state.life.finalized)
      ensures outcome.SingleUse? <==> !old(state.life.running) && old(state.life.finalized)
      ensures outcome.Passed? ==> state.life.loop == Tested
    {
      Step(StartTest);
      if running {
        return AlreadyRunning;
      }
      if finalized {
        return SingleUse;
      }
      return Passed;
    }

    /** The loop object, and a new task for every collector, none of them in flight. */
    method ObtainLoop()
      requires Valid() && Enabled(state, Obtain)
      modifies `hasLoop, `inFlight, `state
      ensures Valid() && state == After(old(state), Obtain) && hasLoop
      ensures fresh(inFlight) && inFlight.Length == old(inFlight.Length) && forall c :: 0 <= c < inFlight.Length ==> !inFlight[c]
    {
      NoFlags(state);
      Step(Obtain);
      hasLoop := true;
      inFlight := new bool[inFlight.Length](_ => false);
    }

    method MarkRunning()
      requires Valid() && Enabled(state, SetRunning)
      modifies `running, `state
      ensures Valid() && state == After(old(state), SetRunning) && running
    {
      Step(SetRunning);
      running := true;
    }

    /** `EventLoop::run` up to its first callback: whatever was requested before is not looked at. */
    method ArmHandles()
      requires Valid() && Enabled(state, Arm)
      modifies `armed, `state
      ensures Valid() && state == After(old(state), Arm) && armed
    {
      Step(Arm);
      armed := true;
    }

    /** `start` uninterrupted, up to the running loop. */
    method StartLoop() returns (outcome: Outcome)
      requires Valid() && Enabled(state, StartTest)
      modifies this
      ensures Valid() && state == if outcome.Passed? then Steps(old(state), [StartTest, Obtain, SetRunning, Arm]) else old(state)
      ensures outcome.Passed? ==> state.life.loop == Running && running
    {
      StartSteps(state);
      outcome := TestStart();
      if outcome.Passed? {
        ObtainLoop();
        MarkRunning();
        ArmHandles();
      }
    }

    /** The loop thread's answer to being told to close. */
    method CloseHandles()
      requires Valid() && Enabled(state, Close)
      modifies `armed, `state
      ensures Valid() && state == After(old(state), Close) && !armed
    {
      Step(Close);
      armed := false;
    }

    /** A tick queues a capture exactly when the service runs and the collector has none under way; a failed queueing leaves no mark. */
    method QueueCapture(c: nat, accepted: bool)
      requires Valid() && Enabled(state, TickCheck(c)) && c < inFlight.Length
      modifies inFlight, `state
      ensures Valid() && state.life == old(state.life)
      ensures var w, l := old(state.work), old(state.life);
        var touched := w.(dangling := w.dangling || (l.running && l.cleared));
        state.work == if l.running && c !in w.flags && accepted
          then touched.(flags := w.flags + {c}, queued := w.queued + multiset{c}) else touched
    {
      Step(TickCheck(c));
      if !running {
        return;
      }
      var was := Exchange(c);
      if was {
        return;
      }
      Queue(c, accepted);
    }

    /** `in_flight.exchange(true)`. */
    method Exchange(c: nat) returns (was: bool)
      requires Valid() && state.work.phase == Checked(c) && c < inFlight.Length
      modifies inFlight, `state
      ensures Valid() && state == After(old(state), TickClaim) && was == (c in old(state.work.flags))
    {
      Step(TickClaim);
      was := inFlight[c];
      inFlight[c] := true;
    }

    /** `queue_work`, and the mark taken back when it fails. */
    method Queue(c: nat, accepted: bool)
      requires Valid() && state.work.phase == Claimed(c) && c < inFlight.Length
      modifies inFlight, `state
      ensures Valid() && state == After(old(state), TickQueue(accepted))
    {
      Step(TickQueue(accepted));
      if !accepted {
        inFlight[c] := false;
      }
    }

    /** The completion of a capture lets the collector's next tick through. */
    method Complete(c: nat)
      requires Valid() && Enabled(state, Op.Done(c)) && c < inFlight.Length
      modifies inFlight, `state
      ensures Valid() && state == After(old(state), Op.Done(c))
    {
      Step(Op.Done(c));
      inFlight[c] := false;
    }

    /** The work on the pool: nothing is captured once a stop was requested. */
    method PoolWork(c: nat) returns (captured: bool)
      requires Valid() && Enabled(state, WorkCheck(c))
      modifies `state
      ensures Valid() && captured == old(state.life.running)
      ensures var checked := After(old(state), WorkCheck(c)); state == if captured then After(checked, Capture(c)) else checked
    {
      Step(WorkCheck(c));
      if !running {
        return false;
      }
      Step(Capture(c));
      return true;
    }

    /**
     * `request_stop`, uninterrupted, by a thread of its own or by a signal handler. Only the first request asks the loop,
     * which closes exactly when its handles are armed.
     */
    method RequestStop(signal: bool) returns (closes: bool)
      requires Valid() && (signal ==> Enabled(state, Signal))
      modifies `running, `stopRequested, `state
      ensures Valid() && !state.life.running && state.life.stopRequested
      ensures state == if signal then After(old(state), Signal) else RequestedState(old(state))
      ensures closes == (!old(state.life.stopRequested) && old(state.life.loop) == Running && !old(state.life.closed))
    {
      if signal {
        Step(Signal);
      } else {
        RequestSteps();
      }
      running := false;
      if stopRequested {
        return false;
      }
      stopRequested := true;
      return hasLoop && armed;
    }

    ghost method RequestSteps()
      requires Whole(Sound(state))
      modifies `state
      ensures Whole(Sound(state)) && state == RequestedState(old(state))
    {
      HaltedLife(state.life);
      Step(StopCall);
      Step(RequestTest);
      if !state.life.stopRequested {
        AskSteps();
      }
    }

    ghost method AskSteps()
      requires Whole(Sound(state)) && state.life.threads.passing > 0
      modifies `state
      ensures Whole(Sound(state)) && state == old(state).(life := AskedLife(old(state.life)))
    {
      AskingLife(state.life);
      Step(Mark);
      Step(Ask);
    }

    /** The body runs for whoever finds the service not finalized. */
    method FinalizeService() returns (ran: bool)
      requires Valid() && Enabled(state, FinalizeBegin)
      modifies `finalized, `state
      ensures Valid() && ran == !old(state.life.finalized)
      ensures ran ==> state == old(state).(life := FinalizedLife(old(state.life)))
      ensures !ran ==> state == After(old(state), FinalizeBegin)
    {
      if !finalized {
        FinalizingLife(state.life);
      }
      Step(FinalizeBegin);
      if finalized {
        return false;
      }
      Step(FinalizeEnd);
      finalized := true;
      return true;
    }

    /**
     * `stop`, in whatever state the loop is: it finalizes unless someone has. The body overlaps the loop exactly when the
     * loop runs.
     */
    method StopService()
      requires Valid()
      modifies `running, `stopRequested, `finalized, `state
      ensures Valid() && state.life.finalized && !state.life.running && state.work == old(state.work)
      ensures state.life.bodies == old(state.life.bodies) + (if old(state.life.finalized) then 0 else 1)
      ensures state.life.beside <==>
        old(state.life.beside) || (!old(state.life.finalized) && old(state.life.loop) == Running)
      ensures state.life.loop == old(state.life.loop) && state.life.threads == old(state.life.threads)
      ensures state.life.closing == (old(state.life.closing) || (!old(state.life.stopRequested) && old(state.life.loop) == Running))
    {
      var _ := RequestStop(false);
      var _ := FinalizeService();
    }
  }
}
