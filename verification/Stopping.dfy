/** What stops do to a service: when its end is safe, what is still captured, and whether the loop can be left. */
module Stopping {
  import opened Captures

  // ----- Finalizing -----

  /** One finalize body at most, never while the loop runs, and no write to a cleared task. */
  predicate Safe(s: State) {
    s.life.bodies <= 1 && !s.life.beside && !s.work.dangling
  }

  predicate IsCall(op: Op) { op.StartTest? || op.StopCall? }

  /** The steps that are already set in motion: nobody calls `start` or `stop` again. */
  predicate NoCalls(ops: seq<Op>) {
    forall i :: 0 <= i < |ops| ==> !IsCall(ops[i])
  }

  ghost predicate StaysSafe(ops: seq<Op>) {
    forall more :: NoCalls(more) && Possible(ops + more) ==> Safe(Run(ops + more))
  }

  /** Nobody is on the way to `finalize_service`, a request included, or in it. */
  predicate Quiet(l: Life) { Heading(l.threads) == 0 && l.threads.inside == 0 }

  /**
   * When a call may be made: `stop` before any thread is past the tests of `start` and while nobody else finalizes, or when
   * all is over; `start` when it does nothing, or while nobody finalizes.
   */
  predicate May(l: Life, op: Op) {
    match op
    case StopCall => l.finalized || (l.loop == NotStarted && Quiet(l))
    case StartTest => l.running || l.finalized || Quiet(l)
    case _ => true
  }

  /** Every call of a run was made when it may be. */
  predicate Disciplined(ops: seq<Op>) {
    ops == [] || (Disciplined(ops[..|ops| - 1]) && May(Run(ops[..|ops| - 1]).life, ops[|ops| - 1]))
  }

  /** At every point of a run, its end included, what is set in motion ends safely. */
  ghost predicate SafeThroughout(ops: seq<Op>) {
    (ops != [] ==> SafeThroughout(ops[..|ops| - 1])) && StaysSafe(ops)
  }

  /** At most one body is begun or still to come, and the loop neither runs nor is on the way once one is. */
  predicate Calm(l: Life) {
    && !l.beside && l.bodies <= 1
    && (if l.finalized then !Starting(l) else l.bodies + Heading(l.threads) + (if Starting(l) then 1 else 0) <= 1)
  }

  lemma CalmStep(l: Life, op: Op)
    requires Calm(l) && BodiesOk(l) && !IsCall(op) && LifeEnabled(l, op)
    ensures Calm(LifeAfter(l, op))
  {}

  lemma {:induction false} CalmStays(ops: seq<Op>, more: seq<Op>)
    requires Possible(ops + more) && NoCalls(more) && Calm(Run(ops).life)
    ensures Calm(Run(ops + more).life)
  {
    if more == [] {
      assert ops + more == ops;
    } else {
      var init, op := more[..|more| - 1], more[|more| - 1];
      RunLast(ops, more);
      CalmStays(ops, init);
      AlwaysOk(ops + init);
      CalmStep(Run(ops + init).life, op);
    }
  }

  /** Whatever is set in motion ends safely exactly from the calm states. */
  lemma StaysSafeIff(ops: seq<Op>)
    requires Possible(ops)
    ensures StaysSafe(ops) <==> Calm(Run(ops).life)
  {
    if Calm(Run(ops).life) {
      forall more | NoCalls(more) && Possible(ops + more) ensures Safe(Run(ops + more)) {
        CalmStays(ops, more);
        AlwaysOk(ops + more);
      }
    } else {
      var more := Overlap(ops);
      assert NoCalls(more) && Possible(ops + more) && !Safe(Run(ops + more));
    }
  }

  /** The thread in `start` enters the loop unhindered. */
  lemma EnterLoop(ops: seq<Op>) returns (more: seq<Op>)
    requires Possible(ops) && Starting(Run(ops).life)
    ensures NoCalls(more) && Possible(ops + more) && Run(ops + more).work == Run(ops).work
    ensures var l, l' := Run(ops).life, Run(ops + more).life;
      && l'.loop == Running && l'.running == (l.running || !Launched(l)) && l'.stopRequested == l.stopRequested
      && l'.closing == l.closing && l'.closed == l.closed && l'.bodies == l.bodies && (l.bodies > 0 ==> l'.beside)
      && l'.threads == l.threads && l'.finalized == l.finalized
  {
    AlwaysOk(ops);
    more := GetReady(ops);
    if Run(ops + more).life.loop == Ready {
      more := ThenLife(ops, more, Arm);
    }
  }

  lemma GetReady(ops: seq<Op>) returns (more: seq<Op>)
    requires Possible(ops) && Starting(Run(ops).life)
    ensures NoCalls(more) && Possible(ops + more) && Run(ops + more).work == Run(ops).work
    ensures var l, l' := Run(ops).life, Run(ops + more).life;
      if Launched(l) then l' == l else l' == l.(loop := Ready, running := true, cleared := l.cleared && l.loop != Tested)
  {
    more := Begin(ops);
    if Run(ops).life.loop == Tested {
      more := ThenLife(ops, more, Obtain);
    }
    if Run(ops + more).life.loop == Obtained {
      more := ThenLife(ops, more, SetRunning);
    }
  }

  /** From any other state a waiting thread or two go wrong, or the loop is entered after a body. */
  lemma Overlap(ops: seq<Op>) returns (more: seq<Op>)
    requires Possible(ops) && !Calm(Run(ops).life)
    ensures NoCalls(more) && Possible(ops + more) && !Safe(Run(ops + more))
  {
    if Run(ops).life.bodies > 0 || !Safe(Run(ops)) {
      more := OverlapBody(ops);
    } else {
      var first := OneBody(ops);
      var rest := OverlapBody(ops + first);
      Regroup(ops, first, rest);
      more := first + rest;
    }
  }

  /** A thread on its way arrives at `finalize_service`, and changes nothing but the request. */
  lemma Arrive(ops: seq<Op>) returns (more: seq<Op>)
    requires Possible(ops) && Heading(Run(ops).life.threads) > 0
    ensures NoCalls(more) && Possible(ops + more) && Run(ops + more).life.threads.waiting > 0
    ensures var l, l' := Run(ops).life, Run(ops + more).life;
      && l'.loop == l.loop && l'.bodies == l.bodies && l'.beside == l.beside && l'.finalized == l.finalized
      && Heading(l'.threads) == Heading(l.threads) && l'.threads.inside == l.threads.inside
    ensures Run(ops + more).work == Run(ops).work
  {
    more := Begin(ops);
    if Run(ops).life.threads.waiting == 0 {
      if Run(ops).life.threads.asking == 0 {
        more := GetAsking(ops);
      }
      if Run(ops + more).life.threads.waiting == 0 {
        more := ThenLife(ops, more, Ask);
      }
    }
  }

  lemma GetAsking(ops: seq<Op>) returns (more: seq<Op>)
    requires Possible(ops) && Run(ops).life.threads.waiting == Run(ops).life.threads.asking == 0
    requires Heading(Run(ops).life.threads) > 0
    ensures NoCalls(more) && Possible(ops + more) && Run(ops + more).work == Run(ops).work
    ensures var l, l' := Run(ops).life, Run(ops + more).life;
      && l'.loop == l.loop && l'.bodies == l.bodies && l'.beside == l.beside && l'.finalized == l.finalized
      && Heading(l'.threads) == Heading(l.threads) && l'.threads.inside == l.threads.inside
      && (l'.threads.waiting > 0 || l'.threads.asking > 0)
  {
    more := Begin(ops);
    if Run(ops).life.threads.passing == 0 {
      more := ThenLife(ops, more, RequestTest);
    }
    if Run(ops + more).life.threads.waiting == 0 {
      more := ThenLife(ops, more, Mark);
    }
  }

  lemma OneBody(ops: seq<Op>) returns (more: seq<Op>)
    requires Possible(ops) && !Calm(Run(ops).life) && Run(ops).life.bodies == 0 && Safe(Run(ops))
    ensures NoCalls(more) && Possible(ops + more) && !Calm(Run(ops + more).life) && Run(ops + more).life.bodies > 0
  {
    AlwaysOk(ops);
    more := Arrive(ops);
    AlwaysOk(ops + more);
    more := ThenLife(ops, more, FinalizeBegin);
  }

  lemma OverlapBody(ops: seq<Op>) returns (more: seq<Op>)
    requires Possible(ops) && !Calm(Run(ops).life) && (Run(ops).life.bodies > 0 || !Safe(Run(ops)))
    ensures NoCalls(more) && Possible(ops + more) && !Safe(Run(ops + more))
  {
    AlwaysOk(ops);
    more := Begin(ops);
    if Safe(Run(ops)) {
      if Starting(Run(ops).life) {
        more := EnterLoop(ops);
      } else {
        more := Arrive(ops);
        AlwaysOk(ops + more);
        more := ThenLife(ops, more, FinalizeBegin);
      }
    }
  }

  /** A call keeps the calm exactly when it may be made; what is no call always does. */
  lemma CalmKeptIff(s: State, op: Op)
    requires LoopOk(s) && Enabled(s, op) && Calm(s.life)
    ensures Calm(LifeAfter(s.life, op)) <==> May(s.life, op)
  {
    if op == StopCall {
      StopCalm(s.life);
    } else if op == StartTest {
      StartCalm(s.life);
    } else {
      CalmStep(s.life, op);
    }
  }

  lemma StopCalm(l: Life)
    requires BodiesOk(l) && Calm(l)
    ensures Calm(LifeAfter(l, StopCall)) <==> May(l, StopCall)
  {}

  lemma StartCalm(l: Life)
    requires BodiesOk(l) && Calm(l) && LifeEnabled(l, StartTest)
    ensures Calm(LifeAfter(l, StartTest)) <==> May(l, StartTest)
  {}

  /**
   * Over every run: at every point whatever is set in motion ends safely, with one finalize body at most and none beside
   * the loop, exactly when every call of `start` and `stop` was made when it may be.
   */
  lemma {:induction false} SafeIffDisciplined(ops: seq<Op>)
    requires Possible(ops)
    ensures Disciplined(ops) <==> SafeThroughout(ops)
    ensures Disciplined(ops) ==> Calm(Run(ops).life)
  {
    StaysSafeIff(ops);
    if ops != [] {
      var init, op := ops[..|ops| - 1], ops[|ops| - 1];
      SafeIffDisciplined(init);
      StaysSafeIff(init);
      AlwaysOk(init);
      if Calm(Run(init).life) {
        CalmKeptIff(Run(init), op);
      }
    }
  }

  /** In a disciplined run the body runs once at most, with no `start` under way, outside the loop and after all its work. */
  lemma FinalizedOnce(ops: seq<Op>)
    requires Possible(ops) && Disciplined(ops)
    ensures Safe(Run(ops))
    ensures Run(ops).life.bodies > 0 ==> !Starting(Run(ops).life) && NothingLeft(Run(ops).work) && Run(ops).work.flags == {}
  {
    SafeIffDisciplined(ops);
    AlwaysOk(ops);
    InFlightExact(ops);
    var s := Run(ops);
    if s.life.bodies > 0 {
      forall c ensures c !in s.work.flags {
        assert Outstanding(s.work, c) == 0;
      }
    }
  }

  const RUNNING_LIFE := FRESH.life.(loop := Running, running := true)

  lemma Started() returns (ops: seq<Op>)
    ensures Possible(ops) && Run(ops).life == RUNNING_LIFE && Run(ops).work == FRESH.work
  {
    ops := Extended([], StartTest);
    ops := Extended(ops, Obtain);
    ops := Extended(ops, SetRunning);
    ops := Extended(ops, Arm);
  }

  /** A running loop with nothing under way queues a capture. */
  lemma QueueOne(ops: seq<Op>, c: nat) returns (more: seq<Op>)
    requires Possible(ops) && Run(ops).life.loop == Running && Run(ops).life.running && !Run(ops).life.closed
    requires NothingLeft(Run(ops).work) && c !in Run(ops).work.flags
    ensures Possible(ops + more) && Run(ops + more).life == Run(ops).life
    ensures var w := Run(ops).work;
      Run(ops + more).work ==
        w.(flags := w.flags + {c}, queued := multiset{c}, dangling := w.dangling || Run(ops).life.cleared)
  {
    more := Begin(ops);
    more := ThenWork(ops, more, TickCheck(c));
    more := ThenWork(ops, more, TickClaim);
    more := ThenWork(ops, more, TickQueue(true));
  }

  /** And carries it out. */
  lemma CaptureOne(ops: seq<Op>, c: nat) returns (more: seq<Op>)
    requires Possible(ops) && Run(ops).life.loop == Running && Run(ops).life.running && !Run(ops).life.closed
    requires NothingLeft(Run(ops).work) && c !in Run(ops).work.flags
    ensures Possible(ops + more) && Run(ops + more).life == Run(ops).life
    ensures Run(ops + more).work.captured == Run(ops).work.captured + [c] && Run(ops + more).work.working == multiset{}
  {
    more := QueueOne(ops, c);
    more := ThenWork(ops, more, WorkCheck(c));
    more := ThenWork(ops, more, Capture(c));
  }

  lemma OneInFlight() returns (ops: seq<Op>)
    ensures Possible(ops) && Run(ops).work == Work({0}, Idle, multiset{0}, multiset{}, multiset{}, [], [], false)
    ensures Run(ops).life == RUNNING_LIFE
  {
    ops := Started();
    var more := QueueOne(ops, 0);
    ops := ops + more;
  }

  /** A thread that has called `stop` tests whether one was requested. */
  lemma RequestBegun(ops: seq<Op>) returns (more: seq<Op>)
    requires Possible(ops)
    ensures Possible(ops + more) && Run(ops + more).work == Run(ops).work
    ensures Run(ops + more).life == TestedLife(Run(ops).life)
  {
    HaltedLife(Run(ops).life);
    more := Begin(ops);
    more := ThenLife(ops, more, StopCall);
    more := ThenLife(ops, more, RequestTest);
  }

  /** A thread that found none requests it and asks the loop. */
  lemma RequestEnded(ops: seq<Op>) returns (more: seq<Op>)
    requires Possible(ops) && Run(ops).life.threads.passing > 0
    ensures Possible(ops + more) && Run(ops + more).work == Run(ops).work
    ensures Run(ops + more).life == AskedLife(Run(ops).life)
  {
    AskingLife(Run(ops).life);
    more := Begin(ops);
    more := ThenLife(ops, more, Mark);
    more := ThenLife(ops, more, Ask);
  }

  /** An uninterrupted `request_stop` of a thread of its own. */
  lemma Request(ops: seq<Op>) returns (more: seq<Op>)
    requires Possible(ops)
    ensures Possible(ops + more) && Run(ops + more) == RequestedState(Run(ops))
  {
    more := RequestBegun(ops);
    if !Run(ops).life.stopRequested {
      var rest := RequestEnded(ops + more);
      Regroup(ops, more, rest);
      more := more + rest;
    }
  }

  lemma Body(ops: seq<Op>) returns (more: seq<Op>)
    requires Possible(ops) && Run(ops).life.threads.waiting > 0 && !Run(ops).life.finalized
    ensures Possible(ops + more) && Run(ops + more).work == Run(ops).work
    ensures Run(ops + more).life == FinalizedLife(Run(ops).life)
  {
    FinalizingLife(Run(ops).life);
    more := Begin(ops);
    more := ThenLife(ops, more, FinalizeBegin);
    more := ThenLife(ops, more, FinalizeEnd);
  }

  /** And a whole `stop`, where nobody has finalized. */
  lemma Stop(ops: seq<Op>) returns (more: seq<Op>)
    requires Possible(ops) && !Run(ops).life.finalized
    ensures Possible(ops + more) && Run(ops + more).work == Run(ops).work
    ensures var l := Run(ops).life;
      Run(ops + more).life == Requested(l).(bodies := l.bodies + 1, beside := l.beside || l.loop == Running, finalized := true,
                                            cleared := true)
  {
    more := Request(ops);
    var rest := Body(ops + more);
    Regroup(ops, more, rest);
    more := more + rest;
  }

  /** `stop` while the loop runs: the body overlaps a capture, whose completion writes to a cleared task. */
  lemma StopBesideLoop() returns (ops: seq<Op>)
    ensures Possible(ops) && Run(ops).life.beside && Run(ops).work.dangling && Run(ops).life.bodies == 1
  {
    ops := OneInFlight();
    var stop := Stop(ops);
    ops := ops + stop;
    ops := Extended(ops, WorkCheck(0));
    ops := Extended(ops, Done(0));
  }

  lemma TwoWaiting() returns (ops: seq<Op>)
    ensures Possible(ops)
    ensures Run(ops).life == Life(Exited, false, true, true, true, false, false, 0, false, NOBODY.(waiting := 2))
  {
    ops := Started();
    var request := Request(ops);
    ops := ops + request;
    ops := Extended(ops, Close);
    ops := Extended(ops, Exit);
  }

  /** `stop` as the loop is left: two threads run the body. */
  lemma FinalizedTwice() returns (ops: seq<Op>)
    ensures Possible(ops) && Run(ops).life.bodies == 2
  {
    ops := TwoWaiting();
    ops := Extended(ops, FinalizeBegin);
    ops := Extended(ops, FinalizeBegin);
  }

  lemma EnteredAfterBody() returns (ops: seq<Op>)
    ensures Possible(ops) && Run(ops).work == FRESH.work
    ensures Run(ops).life == Life(Running, true, true, false, false, true, false, 1, true, NOBODY)
  {
    ops := Extended([], StartTest);
    var stop := Stop(ops);
    ops := ops + stop;
    ops := Extended(ops, Obtain);
    ops := Extended(ops, SetRunning);
    ops := Extended(ops, Arm);
  }

  /** A thread's whole `stop` once another is past the tests of `start`: captures go on after the body has ended. */
  lemma StopInsideStart() returns (ops: seq<Op>)
    ensures Possible(ops) && Run(ops).work.captured == [0]
    ensures Run(ops).life == Life(Running, true, true, false, false, true, false, 1, true, NOBODY)
  {
    ops := EnteredAfterBody();
    var more := CaptureOne(ops, 0);
    ops := ops + more;
  }

  lemma Extended(ops: seq<Op>, op: Op) returns (more: seq<Op>)
    requires Possible(ops) && Enabled(Run(ops), op)
    ensures more == ops + [op] && Possible(more) && Run(more) == After(Run(ops), op)
  {
    more := ops + [op];
    RunPush(ops, op);
  }

  // ----- Stopping -----

  /** What is carried out or about to be, after a stop. */
  function Committed(w: Work): multiset<nat> {
    multiset(w.captured) + w.working
  }

  /** `running` will not be set any more: it was, or `start` refuses. */
  predicate Final(l: Life) { Launched(l) || (l.finalized && l.loop == NotStarted) }

  predicate Stopped(l: Life) { !l.running && Final(l) }

  lemma CommittedStep(w: Work, l: Life, op: Op)
    requires !l.running && WorkEnabled(w, op)
    ensures Committed(WorkAfter(w, l, op)) == Committed(w)
  {
    match op
    case Capture(c) => CaptureMoves(multiset(w.captured), w.working, c);
    case _ =>
  }

  lemma CaptureMoves(done: multiset<nat>, working: multiset<nat>, c: nat)
    requires c in working
    ensures done + multiset{c} + (working - multiset{c}) == done + working
  {}

  lemma StoppedStep(s: State, op: Op)
    requires Enabled(s, op) && Stopped(s.life)
    ensures Stopped(LifeAfter(s.life, op)) && Committed(WorkAfter(s.work, s.life, op)) == Committed(s.work)
  {
    CommittedStep(s.work, s.life, op);
  }

  /** Once `running` will not be set any more, a stop ends the captures: only those past their check are carried out. */
  lemma {:induction false} NoCaptureAfterStop(ops: seq<Op>, stop: Op, more: seq<Op>)
    requires (stop == StopCall || stop == Signal) && Final(Run(ops).life) && Possible(ops + [stop] + more)
    ensures Stopped(Run(ops + [stop] + more).life)
    ensures Committed(Run(ops + [stop] + more).work) == Committed(Run(ops).work)
  {
    var first := ops + [stop];
    if more == [] {
      assert first + more == first;
      RunPush(ops, stop);
    } else {
      var init, op := more[..|more| - 1], more[|more| - 1];
      RunLast(first, more);
      NoCaptureAfterStop(ops, stop, init);
      StoppedStep(Run(first + init), op);
    }
  }

  /** Before that, `start` goes on after the stop and enters a loop that runs. */
  lemma Restarted(ops: seq<Op>) returns (more: seq<Op>)
    requires Possible(ops) && !Final(Run(ops).life)
    ensures Possible(ops + [StopCall] + more) && Run(ops + [StopCall] + more).work == Run(ops).work
    ensures Run(ops + [StopCall] + more).life.loop == Running && Run(ops + [StopCall] + more).life.running
    ensures !Run(ops + [StopCall] + more).life.closed
    ensures NothingLeft(Run(ops).work) && 0 !in Run(ops).work.flags
  {
    AlwaysOk(ops);
    InFlightExact(ops);
    assert Outstanding(Run(ops).work, 0) == 0;
    var stopped := Extended(ops, StopCall);
    more := PassTests(stopped);
    var rest := EnterLoop(stopped + more);
    AlwaysOk(stopped + more + rest);
    Regroup(stopped, more, rest);
    more := more + rest;
  }

  lemma PassTests(ops: seq<Op>) returns (more: seq<Op>)
    requires Possible(ops) && !Final(Run(ops).life) && !Run(ops).life.running
    ensures Possible(ops + more) && Run(ops + more).work == Run(ops).work
    ensures var l := Run(ops).life; Run(ops + more).life == if l.loop == NotStarted then l.(loop := Tested) else l
  {
    more := Begin(ops);
    if Run(ops).life.loop == NotStarted {
      more := ThenLife(ops, more, StartTest);
    }
  }

  lemma CaptureStill(ops: seq<Op>) returns (more: seq<Op>)
    requires Possible(ops) && !Final(Run(ops).life)
    ensures Possible(ops + [StopCall] + more)
    ensures Committed(Run(ops + [StopCall] + more).work) != Committed(Run(ops).work)
  {
    more := Restarted(ops);
    var rest := CaptureOne(ops + [StopCall] + more, 0);
    Regroup(ops + [StopCall], more, rest);
    more := more + rest;
    assert |Committed(Run(ops + [StopCall] + more).work)| == |Run(ops).work.captured| + 1;
  }

  /** A stop ends the captures exactly then. */
  lemma NoCaptureAfterStopIff(ops: seq<Op>)
    requires Possible(ops)
    ensures (forall more :: Possible(ops + [StopCall] + more) ==>
              Committed(Run(ops + [StopCall] + more).work) == Committed(Run(ops).work))
      <==> Final(Run(ops).life)
  {
    if Final(Run(ops).life) {
      forall more | Possible(ops + [StopCall] + more)
        ensures Committed(Run(ops + [StopCall] + more).work) == Committed(Run(ops).work)
      {
        NoCaptureAfterStop(ops, StopCall, more);
      }
    } else {
      var more := CaptureStill(ops);
      assert Possible(ops + [StopCall] + more);
    }
  }

  /** The loop thread is between ticks, or in one that will find its collector busy. */
  predicate NothingToQueue(w: Work) {
    w.phase.Idle? || (w.phase.Checked? && w.phase.collector in w.flags)
  }

  predicate Unqueued(s: State) {
    Stopped(s.life) && NothingToQueue(s.work) && s.work.late == []
  }

  lemma UnqueuedStep(s: State, op: Op)
    requires Unqueued(s) && Enabled(s, op)
    ensures Unqueued(After(s, op))
  {}

  lemma {:induction false} StaysUnqueued(ops: seq<Op>, more: seq<Op>)
    requires Possible(ops + more) && Unqueued(Run(ops))
    ensures Unqueued(Run(ops + more))
  {
    if more == [] {
      assert ops + more == ops;
    } else {
      var init, op := more[..|more| - 1], more[|more| - 1];
      RunLast(ops, more);
      StaysUnqueued(ops, init);
      UnqueuedStep(Run(ops + init), op);
    }
  }

  /** The stop itself leaves nothing queued behind it. */
  lemma StopUnqueued(ops: seq<Op>, stop: Op)
    requires (stop == StopCall || stop == Signal) && Possible(ops + [stop])
    requires Final(Run(ops).life) && NothingToQueue(Run(ops).work) && Run(ops).work.late == []
    ensures Unqueued(Run(ops + [stop]))
  {
    RunPush(ops, stop);
  }

  /** Any other tick may still queue its capture after the stop. */
  lemma QueuedAfterStop(ops: seq<Op>) returns (more: seq<Op>)
    requires Possible(ops) && !NothingToQueue(Run(ops).work)
    ensures Possible(ops + [StopCall] + more) && Run(ops + [StopCall] + more).work.late != []
  {
    var stopped := Extended(ops, StopCall);
    more := Begin(stopped);
    if Run(ops).work.phase.Checked? {
      more := ThenWork(stopped, more, TickClaim);
    }
    more := ThenWork(stopped, more, TickQueue(true));
  }

  /** And so may a loop that `start` enters after the stop, when it is stopped in its turn. */
  lemma QueuedAfterRestart(ops: seq<Op>) returns (more: seq<Op>)
    requires Possible(ops) && !Final(Run(ops).life)
    ensures Possible(ops + [StopCall] + more) && Run(ops + [StopCall] + more).work.late != []
  {
    more := Restarted(ops);
    var stopped := ops + [StopCall];
    more := ThenWork(stopped, more, TickCheck(0));
    more := ThenWork(stopped, more, TickClaim);
    more := ThenLife(stopped, more, StopCall);
    more := ThenWork(stopped, more, TickQueue(true));
  }

  /**
   * From every state, a stop keeps every later capture from being queued exactly when `running` will not be set any more
   * and the loop thread queues none.
   */
  lemma QueuedAfterStopIff(ops: seq<Op>)
    requires Possible(ops) && Run(ops).work.late == []
    ensures (forall more :: Possible(ops + [StopCall] + more) ==> Run(ops + [StopCall] + more).work.late == [])
      <==> Final(Run(ops).life) && NothingToQueue(Run(ops).work)
  {
    if !Final(Run(ops).life) {
      var more := QueuedAfterRestart(ops);
      assert Possible(ops + [StopCall] + more);
    } else if !NothingToQueue(Run(ops).work) {
      var more := QueuedAfterStop(ops);
      assert Possible(ops + [StopCall] + more);
    } else {
      forall more | Possible(ops + [StopCall] + more) ensures Run(ops + [StopCall] + more).work.late == [] {
        Prefix(ops + [StopCall], more);
        StopUnqueued(ops, StopCall);
        StaysUnqueued(ops + [StopCall], more);
      }
    }
  }

  /** A signal reaches the loop thread between ticks, so nothing is queued after it. */
  lemma NothingQueuedAfterSignal(ops: seq<Op>, more: seq<Op>)
    requires Run(ops).work.late == [] && Possible(ops + [Signal] + more)
    ensures Run(ops + [Signal] + more).work.late == []
  {
    Prefix(ops + [Signal], more);
    RunPush(ops, Signal);
    StopUnqueued(ops, Signal);
    StaysUnqueued(ops + [Signal], more);
  }

  // ----- Leaving the loop -----

  /** How many steps what is under way still takes. */
  function Left(w: Work): nat {
    3 * |w.queued| + 2 * |w.working| + |w.finished|
    + (if w.phase.Checked? then 3 else if w.phase.Claimed? then 2 else 0)
  }

  lemma OneLess(m: multiset<nat>, c: nat)
    requires c in m
    ensures |m - multiset{c}| == |m| - 1
  {
    assert m == (m - multiset{c}) + multiset{c};
  }

  lemma CheckLess(w: Work, l: Life, c: nat)
    requires c in w.queued
    ensures Left(WorkAfter(w, l, WorkCheck(c))) < Left(w)
  {
    OneLess(w.queued, c);
  }

  lemma CaptureLess(w: Work, l: Life, c: nat)
    requires c in w.working
    ensures Left(WorkAfter(w, l, Capture(c))) < Left(w)
  {
    OneLess(w.working, c);
  }

  lemma DoneLess(w: Work, l: Life, c: nat)
    requires c in w.finished
    ensures Left(WorkAfter(w, l, Done(c))) < Left(w)
  {
    OneLess(w.finished, c);
  }

  /** Something under way can take a step that touches none of the service's own flags. */
  lemma NextStep(s: State) returns (op: Op)
    requires !NothingLeft(s.work)
    ensures IsWork(op) && !op.TickCheck? && WorkEnabled(s.work, op) && Left(WorkAfter(s.work, s.life, op)) < Left(s.work)
  {
    var w := s.work;
    if w.phase.Checked? {
      op := TickClaim;
    } else if w.phase.Claimed? {
      op := TickQueue(false);
    } else if w.queued != multiset{} {
      var c :| c in w.queued;
      CheckLess(w, s.life, c);
      op := WorkCheck(c);
    } else if w.working != multiset{} {
      var c :| c in w.working;
      CaptureLess(w, s.life, c);
      op := Capture(c);
    } else {
      var c :| c in w.finished;
      DoneLess(w, s.life, c);
      op := Done(c);
    }
  }

  lemma {:induction false} StepsCons(s: State, op: Op, rest: seq<Op>)
    ensures Steps(s, [op] + rest) == Steps(After(s, op), rest)
    ensures Allowed(s, [op] + rest) <==> Enabled(s, op) && Allowed(After(s, op), rest)
  {
    if rest == [] {
      assert [op] + rest == [] + [op];
      StepsPush(s, [], op);
    } else {
      var init, last := rest[..|rest| - 1], rest[|rest| - 1];
      assert rest == init + [last] && [op] + rest == [op] + init + [last];
      StepsCons(s, op, init);
      StepsPush(s, [op] + init, last);
      StepsPush(After(s, op), init, last);
    }
  }

  lemma {:induction false} RunSteps(ops: seq<Op>, more: seq<Op>)
    requires Possible(ops) && Allowed(Run(ops), more)
    ensures Possible(ops + more) && Run(ops + more) == Steps(Run(ops), more)
  {
    if more == [] {
      assert ops + more == ops;
    } else {
      var init, op := more[..|more| - 1], more[|more| - 1];
      assert more == init + [op];
      Regroup(ops, init, [op]);
      StepsPush(Run(ops), init, op);
      RunSteps(ops, init);
      RunPush(ops + init, op);
    }
  }

  /** Whatever is under way can be brought to its end. */
  lemma {:induction false} CanDrain(s: State) returns (more: seq<Op>)
    ensures Allowed(s, more) && Steps(s, more).life == s.life && NothingLeft(Steps(s, more).work)
    decreases Left(s.work)
  {
    more := [];
    if !NothingLeft(s.work) {
      var op := NextStep(s);
      SameLife(s.life, op);
      var rest := CanDrain(After(s, op));
      StepsCons(s, op, rest);
      more := [op] + rest;
    }
  }

  /**
   * The one request that could close the loop came when it could not, and no thread is still to ask; or there will be no
   * loop. Nothing leaves the loop any more.
   */
  predicate Missed(l: Life) {
    && l.loop != Exited && !l.closing
    && ((l.stopRequested && l.threads.passing == l.threads.asking == 0) || (l.finalized && l.loop == NotStarted))
  }

  lemma MissedStep(s: State, op: Op)
    requires Missed(s.life) && BodiesOk(s.life) && Enabled(s, op)
    ensures Missed(LifeAfter(s.life, op))
  {}

  lemma {:induction false} NeverClosing(ops: seq<Op>, more: seq<Op>)
    requires Possible(ops + more) && Missed(Run(ops).life)
    ensures Missed(Run(ops + more).life)
  {
    if more == [] {
      assert ops + more == ops;
    } else {
      var init, op := more[..|more| - 1], more[|more| - 1];
      RunLast(ops, more);
      NeverClosing(ops, init);
      AlwaysOk(ops + init);
      MissedStep(Run(ops + init), op);
    }
  }

  /** The running loop gets told to close: by whoever is still to ask, or by a new stop. */
  lemma TellToClose(ops: seq<Op>) returns (more: seq<Op>)
    requires Possible(ops) && Run(ops).life.loop == Running && !Missed(Run(ops).life)
    ensures Possible(ops + more) && Run(ops + more).life.loop == Running && Run(ops + more).life.closing
  {
    var l := Run(ops).life;
    more := Begin(ops);
    if !l.closing {
      if l.threads.asking > 0 {
        more := ThenLife(ops, more, Ask);
      } else if l.threads.passing > 0 {
        more := RequestEnded(ops);
      } else {
        more := Request(ops);
      }
    }
  }

  /** A loop told to close drains what is under way, closes its handles and is left. */
  lemma LeaveClosing(ops: seq<Op>) returns (more: seq<Op>)
    requires Possible(ops) && Run(ops).life.loop == Running && Run(ops).life.closing
    ensures Possible(ops + more) && Run(ops + more).life.loop == Exited
  {
    more := CanDrain(Run(ops));
    RunSteps(ops, more);
    if !Run(ops).life.closed {
      more := ThenLife(ops, more, Close);
    }
    more := ThenLife(ops, more, Exit);
  }

  lemma LeaveRunning(ops: seq<Op>) returns (more: seq<Op>)
    requires Possible(ops) && Run(ops).life.loop == Running && !Missed(Run(ops).life)
    ensures Possible(ops + more) && Run(ops + more).life.loop == Exited
  {
    var closing := TellToClose(ops);
    var leaving := LeaveClosing(ops + closing);
    Regroup(ops, closing, leaving);
    more := closing + leaving;
  }

  lemma Leave(ops: seq<Op>) returns (more: seq<Op>)
    requires Possible(ops) && !Missed(Run(ops).life) && Run(ops).life.loop != Exited
    ensures Possible(ops + more) && Run(ops + more).life.loop == Exited
  {
    AlwaysOk(ops);
    var first := Begin(ops);
    if Run(ops).life.loop == NotStarted {
      first := ThenLife(ops, first, StartTest);
    }
    var entering := EnterLoop(ops + first);
    var leaving := LeaveRunning(ops + first + entering);
    Regroup(ops, first, entering);
    Regroup(ops, first + entering, leaving);
    more := first + entering + leaving;
  }

  /**
   * From every state: the loop can be left, now or later, exactly when its closing was not missed. A stop requested before
   * the handles are armed uses up the one request that would close it.
   */
  lemma CanLeaveIff(ops: seq<Op>)
    requires Possible(ops)
    ensures (exists more :: Possible(ops + more) && Run(ops + more).life.loop == Exited)
      <==> !Missed(Run(ops).life)
  {
    if Missed(Run(ops).life) {
      forall more | Possible(ops + more) ensures Run(ops + more).life.loop != Exited {
        NeverClosing(ops, more);
      }
    } else if Run(ops).life.loop == Exited {
      assert ops + [] == ops;
    } else {
      var more := Leave(ops);
    }
  }

  /** A stop between the setting of `running` and the arming of the handles: the loop is entered all the same, and stays. */
  lemma LostStop() returns (ops: seq<Op>)
    ensures Possible(ops)
    ensures Run(ops).life == Life(Running, false, true, false, false, false, false, 0, false, NOBODY.(waiting := 1))
    ensures forall more :: Possible(ops + more) ==> Run(ops + more).life.loop == Running
  {
    ops := Extended([], StartTest);
    ops := Extended(ops, Obtain);
    ops := Extended(ops, SetRunning);
    var request := Request(ops);
    ops := ops + request;
    ops := Extended(ops, Arm);
    forall more | Possible(ops + more) ensures Run(ops + more).life.loop == Running {
      StaysLost(ops, more);
    }
  }

  predicate Lost(l: Life) { l.loop == Running && Missed(l) }

  lemma LostStep(s: State, op: Op)
    requires Lost(s.life) && BodiesOk(s.life) && Enabled(s, op)
    ensures Lost(LifeAfter(s.life, op))
  {
    MissedStep(s, op);
  }

  lemma {:induction false} StaysLost(ops: seq<Op>, more: seq<Op>)
    requires Possible(ops + more) && Lost(Run(ops).life)
    ensures Lost(Run(ops + more).life)
  {
    if more == [] {
      assert ops + more == ops;
    } else {
      var init, op := more[..|more| - 1], more[|more| - 1];
      RunLast(ops, more);
      StaysLost(ops, init);
      AlwaysOk(ops + init);
      LostStep(Run(ops + init), op);
    }
  }
}
