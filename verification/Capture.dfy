/**
 * The service's collectors: `start` in its steps, ticks on the loop thread, captures on the thread pool, and stops that
 * may come from any thread at any time, interleaved step by step.
 */
module Captures {

  /** How far the loop thread is with the tick it is in. */
  datatype Phase = Idle | Checked(collector: nat) | Claimed(collector: nat)

  /**
   * How far the one thread is that got through the tests of `start`: it has obtained the loop object and made the
   * collectors' tasks, has set `running`, and has armed the loop's handles, which enters the loop.
   */
  datatype Loop = NotStarted | Tested | Obtained | Ready | Running | Exited

  /**
   * How many threads are where on the way through `request_stop` and `finalize_service`: they have cleared `running`, have
   * found no stop requested, have set that flag, are about to finalize, or are in the finalize body.
   */
  datatype Threads = Threads(halting: nat, passing: nat, asking: nat, waiting: nat, inside: nat)

  /**
   * The service's own flags. `closing` tells whether the loop was told to close, `closed` whether it has closed its handles.
   * `cleared` tells whether a body has cleared the collectors' tasks, `bodies` counts the bodies begun, and `beside`
   * remembers whether the loop ever ran during a body or after one.
   */
  datatype Life = Life(loop: Loop, running: bool, stopRequested: bool, closing: bool, closed: bool, finalized: bool,
    cleared: bool, bodies: nat, beside: bool, threads: Threads)

  /**
   * The collectors' work. `flags` are the collectors whose `in_flight` is set. A capture is `queued`, then `working` if it
   * found the service still running, then `finished` until the loop thread runs its completion. `captured` lists those
   * carried out, `late` those queued when the service no longer ran; `dangling` remembers whether the loop thread ever
   * wrote to a collector task after those were cleared.
   */
  datatype Work = Work(flags: set<nat>, phase: Phase, queued: multiset<nat>, working: multiset<nat>, finished: multiset<nat>,
    captured: seq<nat>, late: seq<nat>, dangling: bool)

  datatype State = State(life: Life, work: Work)

  datatype Op =
    | StartTest                // `start`: the tests of `running` and `finalized`
    | Obtain                   // the loop object is there, the tasks are made anew
    | SetRunning
    | Arm                      // the loop's handles are armed, and the loop is entered
    | TickCheck(collector: nat)
    | TickClaim
    | TickQueue(queued: bool)  // whether `queue_work` took it
    | WorkCheck(collector: nat)
    | Capture(collector: nat)
    | Done(collector: nat)
    | Signal                   // `request_stop` from a signal handler, on the loop thread
    | StopCall                 // `stop`, on any thread: `request_stop` clears `running`
    | RequestTest              // no stop may have been requested before
    | Mark                     // the stop is requested
    | Ask                      // the loop, if there is one with armed handles, is told to close
    | Close                    // the loop thread closes the handles: no more ticks, no more signals
    | Exit                     // the loop has drained and `run` returns into `start`
    | FinalizeBegin            // `finalize_service`: the test, and the body's first half
    | FinalizeEnd              // collector tasks are cleared and `finalized` is set

  const NOBODY := Threads(0, 0, 0, 0, 0)

  const FRESH := State(Life(NotStarted, false, false, false, false, false, false, 0, false, NOBODY),
                       Work({}, Idle, multiset{}, multiset{}, multiset{}, [], [], false))

  predicate NothingLeft(w: Work) {
    w.phase == Idle && w.queued == w.working == w.finished == multiset{}
  }

  /** What a step asks of the service's own flags: `start` blocks the one thread that gets through its tests. */
  predicate LifeEnabled(l: Life, op: Op) {
    match op
    case StartTest => l.loop == NotStarted || l.running || l.finalized
    case Obtain => l.loop == Tested
    case SetRunning => l.loop == Obtained
    case Arm => l.loop == Ready
    case TickCheck(_) => l.loop == Running && !l.closed
    case Signal => l.loop == Running && !l.closed
    case RequestTest => l.threads.halting > 0
    case Mark => l.threads.passing > 0
    case Ask => l.threads.asking > 0
    case Close => l.loop == Running && l.closing && !l.closed
    case Exit => l.loop == Running && l.closed
    case FinalizeBegin => l.threads.waiting > 0
    case FinalizeEnd => l.threads.inside > 0
    case _ => true
  }

  /** What it asks of the work under way: the loop runs its callbacks one at a time, and drains before it is left. */
  predicate WorkEnabled(w: Work, op: Op) {
    match op
    case TickCheck(_) => w.phase == Idle
    case TickClaim => w.phase.Checked?
    case TickQueue(_) => w.phase.Claimed?
    case WorkCheck(c) => c in w.queued
    case Capture(c) => c in w.working
    case Done(c) => c in w.finished && w.phase == Idle
    case Signal => w.phase == Idle
    case Close => w.phase == Idle
    case Exit => NothingLeft(w)
    case _ => true
  }

  predicate Enabled(s: State, op: Op) { LifeEnabled(s.life, op) && WorkEnabled(s.work, op) }

  /** `EventLoop::stop`: a loop whose handles are not armed drops the request. */
  function Asked(l: Life): Life { l.(closing := l.closing || l.loop == Running) }

  /** An uninterrupted `request_stop`. */
  function Requested(l: Life): Life {
    if l.stopRequested then l.(running := false) else Asked(l.(running := false, stopRequested := true))
  }

  /** A thread moves on; with nobody there nothing happens. */
  function ThreadsAfter(t: Threads, l: Life, op: Op): Threads {
    match op
    case StopCall => t.(halting := t.halting + 1)
    case RequestTest =>
      if t.halting == 0 then t
      else if l.stopRequested then t.(halting := t.halting - 1, waiting := t.waiting + 1)
      else t.(halting := t.halting - 1, passing := t.passing + 1)
    case Mark => if t.passing == 0 then t else t.(passing := t.passing - 1, asking := t.asking + 1)
    case Ask => if t.asking == 0 then t else t.(asking := t.asking - 1, waiting := t.waiting + 1)
    case Exit => t.(waiting := t.waiting + 1)
    case FinalizeBegin =>
      if t.waiting == 0 then t
      else if l.finalized then t.(waiting := t.waiting - 1)
      else t.(waiting := t.waiting - 1, inside := t.inside + 1)
    case FinalizeEnd => if t.inside == 0 then t else t.(inside := t.inside - 1)
    case _ => t
  }

  function FlagsAfter(l: Life, op: Op): Life {
    match op
    case StartTest => if l.running || l.finalized || l.loop != NotStarted then l else l.(loop := Tested)
    case Obtain => l.(loop := Obtained, cleared := false)
    case SetRunning => l.(loop := Ready, running := true)
    case Arm => l.(loop := Running, beside := l.beside || l.bodies > 0)
    case Signal => Requested(l)
    case StopCall => l.(running := false)
    case Mark => l.(stopRequested := true)
    case Ask => Asked(l)
    case Close => l.(closed := true)
    case Exit => l.(loop := Exited)
    case FinalizeBegin => if l.finalized then l else l.(bodies := l.bodies + 1, beside := l.beside || l.loop == Running)
    case FinalizeEnd => l.(finalized := true, cleared := true)
    case _ => l
  }

  function LifeAfter(l: Life, op: Op): Life {
    FlagsAfter(l, op).(threads := ThreadsAfter(l.threads, l, op))
  }

  function WorkAfter(w: Work, l: Life, op: Op): Work {
    match op
    case TickCheck(c) => if l.running then w.(phase := Checked(c)) else w
    case TickClaim =>
      if !w.phase.Checked? then w
      else if w.phase.collector in w.flags then w.(phase := Idle, dangling := w.dangling || l.cleared)
      else w.(phase := Claimed(w.phase.collector), flags := w.flags + {w.phase.collector}, dangling := w.dangling || l.cleared)
    case TickQueue(queued) =>
      if !w.phase.Claimed? then w
      else
        var c := w.phase.collector;
        if queued then w.(phase := Idle, queued := w.queued + multiset{c}, late := if l.running then w.late else w.late + [c])
        else w.(phase := Idle, flags := w.flags - {c}, dangling := w.dangling || l.cleared)
    case WorkCheck(c) =>
      if l.running then w.(queued := w.queued - multiset{c}, working := w.working + multiset{c})
      else w.(queued := w.queued - multiset{c}, finished := w.finished + multiset{c})
    case Capture(c) =>
      w.(working := w.working - multiset{c}, finished := w.finished + multiset{c}, captured := w.captured + [c])
    case Done(c) => w.(finished := w.finished - multiset{c}, flags := w.flags - {c}, dangling := w.dangling || l.cleared)
    case _ => w
  }

  function After(s: State, op: Op): State {
    State(LifeAfter(s.life, op), WorkAfter(s.work, s.life, op))
  }

  /** After an uninterrupted `request_stop` of a thread of its own. */
  function RequestedState(s: State): State {
    var l := Requested(s.life);
    s.(life := l.(threads := l.threads.(waiting := l.threads.waiting + 1)))
  }

  /** The first half of a request: a thread has found out whether a stop was requested. */
  function TestedLife(l: Life): Life {
    var t := l.threads;
    l.(running := false, threads := if l.stopRequested then t.(waiting := t.waiting + 1) else t.(passing := t.passing + 1))
  }

  /** The second half: a thread that found none has requested it and asked the loop. */
  function AskedLife(l: Life): Life
    requires l.threads.passing > 0
  {
    var t := l.threads;
    Asked(l.(stopRequested := true, threads := t.(passing := t.passing - 1, waiting := t.waiting + 1)))
  }

  lemma HaltedLife(l: Life)
    ensures LifeAfter(l, StopCall).threads.halting > 0
    ensures LifeAfter(LifeAfter(l, StopCall), RequestTest) == TestedLife(l)
  {}

  lemma AskingLife(l: Life)
    requires l.threads.passing > 0
    ensures LifeAfter(l, Mark).threads.asking > 0
    ensures LifeAfter(LifeAfter(l, Mark), Ask) == AskedLife(l)
  {}

  /** A thread that found the service not finalized has run the body. */
  function FinalizedLife(l: Life): Life
    requires l.threads.waiting > 0
  {
    l.(bodies := l.bodies + 1, beside := l.beside || l.loop == Running, finalized := true, cleared := true,
       threads := l.threads.(waiting := l.threads.waiting - 1))
  }

  lemma FinalizingLife(l: Life)
    requires l.threads.waiting > 0 && !l.finalized
    ensures LifeAfter(l, FinalizeBegin).threads.inside > 0
    ensures LifeAfter(LifeAfter(l, FinalizeBegin), FinalizeEnd) == FinalizedLife(l)
  {}

  /** Steps taken from a given state, one after the other. */
  function Steps(s: State, more: seq<Op>): State {
    if more == [] then s else After(Steps(s, more[..|more| - 1]), more[|more| - 1])
  }

  predicate Allowed(s: State, more: seq<Op>) {
    more == [] || (Allowed(s, more[..|more| - 1]) && Enabled(Steps(s, more[..|more| - 1]), more[|more| - 1]))
  }

  lemma StepsPush(s: State, more: seq<Op>, op: Op)
    ensures Steps(s, more + [op]) == After(Steps(s, more), op)
    ensures Allowed(s, more + [op]) <==> Allowed(s, more) && Enabled(Steps(s, more), op)
  {
    assert (more + [op])[..|more|] == more;
  }

  function Run(ops: seq<Op>): State { Steps(FRESH, ops) }

  predicate Possible(ops: seq<Op>) { Allowed(FRESH, ops) }

  lemma RunPush(ops: seq<Op>, op: Op)
    ensures Possible(ops + [op]) <==> Possible(ops) && Enabled(Run(ops), op)
    ensures Run(ops + [op]) == After(Run(ops), op)
  {
    StepsPush(FRESH, ops, op);
  }

  lemma Regroup(a: seq<Op>, b: seq<Op>, c: seq<Op>)
    ensures a + (b + c) == a + b + c
  {}

  /** The last step of a continuation. */
  lemma RunLast(ops: seq<Op>, more: seq<Op>)
    requires more != []
    ensures var init, op := more[..|more| - 1], more[|more| - 1];
      && (Possible(ops + more) <==> Possible(ops + init) && Enabled(Run(ops + init), op))
      && Run(ops + more) == After(Run(ops + init), op)
  {
    var init, op := more[..|more| - 1], more[|more| - 1];
    assert ops + more == ops + init + [op];
    RunPush(ops + init, op);
  }

  /** One more step of a continuation. */
  lemma Then(ops: seq<Op>, more: seq<Op>, op: Op) returns (longer: seq<Op>)
    requires Possible(ops + more) && Enabled(Run(ops + more), op)
    ensures longer == more + [op] && Possible(ops + longer) && Run(ops + longer) == After(Run(ops + more), op)
  {
    longer := more + [op];
    Regroup(ops, more, [op]);
    RunPush(ops + more, op);
  }

  /** The steps of ticks and captures; all others are about the service's own flags. */
  predicate IsWork(op: Op) {
    op.TickCheck? || op.TickClaim? || op.TickQueue? || op.WorkCheck? || op.Capture? || op.Done?
  }

  lemma SameLife(l: Life, op: Op)
    requires IsWork(op)
    ensures LifeAfter(l, op) == l
  {}

  lemma SameWork(w: Work, l: Life, op: Op)
    requires !IsWork(op)
    ensures WorkAfter(w, l, op) == w
  {}

  lemma ThenWork(ops: seq<Op>, more: seq<Op>, op: Op) returns (longer: seq<Op>)
    requires IsWork(op) && Possible(ops + more) && Enabled(Run(ops + more), op)
    ensures longer == more + [op] && Possible(ops + longer) && Run(ops + longer).life == Run(ops + more).life
    ensures Run(ops + longer).work == WorkAfter(Run(ops + more).work, Run(ops + more).life, op)
  {
    longer := Then(ops, more, op);
    SameLife(Run(ops + more).life, op);
  }

  lemma ThenLife(ops: seq<Op>, more: seq<Op>, op: Op) returns (longer: seq<Op>)
    requires !IsWork(op) && Possible(ops + more) && Enabled(Run(ops + more), op)
    ensures longer == more + [op] && Possible(ops + longer) && Run(ops + longer).work == Run(ops + more).work
    ensures Run(ops + longer).life == LifeAfter(Run(ops + more).life, op)
  {
    longer := Then(ops, more, op);
    SameWork(Run(ops + more).work, Run(ops + more).life, op);
  }

  lemma Begin(ops: seq<Op>) returns (more: seq<Op>)
    ensures more == [] && ops + more == ops
  {
    more := [];
  }

  // ----- Captures in flight -----

  /** Captures of a collector that are under way, the one being queued included. */
  function Outstanding(w: Work, c: nat): nat {
    w.queued[c] + w.working[c] + w.finished[c] + (if w.phase == Claimed(c) then 1 else 0)
  }

  ghost predicate FlagExact(w: Work, c: nat) {
    Outstanding(w, c) == if c in w.flags then 1 else 0
  }

  ghost predicate FlagsExact(w: Work) {
    forall c :: FlagExact(w, c)
  }

  lemma TickFlags(w: Work, l: Life, op: Op, c: nat)
    requires op.TickClaim? || op.TickQueue?
    requires WorkEnabled(w, op) && FlagExact(w, c) && FlagExact(w, w.phase.collector)
    ensures FlagExact(WorkAfter(w, l, op), c)
  {}

  lemma CheckFlags(w: Work, l: Life, d: nat, c: nat)
    requires d in w.queued && FlagExact(w, c)
    ensures FlagExact(WorkAfter(w, l, WorkCheck(d)), c)
  {}

  lemma CaptureFlags(w: Work, l: Life, d: nat, c: nat)
    requires d in w.working && FlagExact(w, c)
    ensures FlagExact(WorkAfter(w, l, Capture(d)), c)
  {}

  lemma DoneFlags(w: Work, l: Life, d: nat, c: nat)
    requires d in w.finished && FlagExact(w, c) && FlagExact(w, d)
    ensures FlagExact(WorkAfter(w, l, Done(d)), c)
  {}

  lemma FlagsStep(s: State, op: Op, c: nat)
    requires FlagsExact(s.work) && Enabled(s, op)
    ensures FlagExact(WorkAfter(s.work, s.life, op), c)
  {
    FlagOf(s.work, c);
    match op
    case TickClaim =>
      FlagOf(s.work, s.work.phase.collector);
      TickFlags(s.work, s.life, op, c);
    case TickQueue(_) =>
      FlagOf(s.work, s.work.phase.collector);
      TickFlags(s.work, s.life, op, c);
    case WorkCheck(d) => CheckFlags(s.work, s.life, d, c);
    case Capture(d) => CaptureFlags(s.work, s.life, d, c);
    case Done(d) =>
      FlagOf(s.work, d);
      DoneFlags(s.work, s.life, d, c);
    case _ =>
  }

  lemma FlagOf(w: Work, c: nat)
    requires FlagsExact(w)
    ensures FlagExact(w, c)
  {}

  /** In every run `in_flight` is set exactly while one capture of the collector is under way, and there are never two. */
  lemma {:induction false} InFlightExact(ops: seq<Op>)
    requires Possible(ops)
    ensures FlagsExact(Run(ops).work)
    ensures forall c :: Outstanding(Run(ops).work, c) <= 1 && (Outstanding(Run(ops).work, c) == 1 <==> c in Run(ops).work.flags)
  {
    if ops != [] {
      InFlightExact(ops[..|ops| - 1]);
      forall c ensures FlagExact(Run(ops).work, c) {
        FlagsStep(Run(ops[..|ops| - 1]), ops[|ops| - 1], c);
      }
    }
    forall c ensures Outstanding(Run(ops).work, c) <= 1 && (Outstanding(Run(ops).work, c) == 1 <==> c in Run(ops).work.flags) {
      assert FlagExact(Run(ops).work, c);
    }
  }

  // ----- What always holds -----

  /** A thread is past the tests of `start`, and the loop is not left yet. */
  predicate Starting(l: Life) { l.loop != NotStarted && l.loop != Exited }

  /** `running` was set, and will not be set again. */
  predicate Launched(l: Life) { l.loop == Ready || l.loop == Running || l.loop == Exited }

  /** Outside the loop nothing is under way; the loop is told to close only while it runs, and by a stop requested. */
  predicate Drained(s: State) {
    && (s.life.loop != Running ==> NothingLeft(s.work))
    && (s.life.running ==> Launched(s.life))
    && (s.life.closing ==> s.life.stopRequested && (s.life.loop == Running || s.life.loop == Exited))
    && (s.life.loop == Exited ==> s.life.closed) && (s.life.closed ==> s.life.closing)
  }

  /** Late captures are one at most, of a service that has stopped for good. */
  predicate LateOk(s: State) {
    s.work.late != [] ==> !s.life.running && Launched(s.life) && s.work.phase == Idle && |s.work.late| == 1
  }

  /** The threads on the way to `finalize_service`. */
  function Heading(t: Threads): nat { t.halting + t.passing + t.asking + t.waiting }

  /**
   * Whoever left the loop still finalizes, until someone has; before that only a stop requested leads there. Overlaps of
   * bodies and loop are noted.
   */
  predicate BodiesOk(l: Life) {
    && (l.loop == Exited ==> l.finalized || l.threads.waiting > 0 || l.threads.inside > 0)
    && (l.finalized || l.threads.inside > 0 <==> l.bodies > 0) && l.threads.inside <= l.bodies
    && (l.threads.asking > 0 || l.threads.waiting > 0 || l.bodies > 0 || l.closing ==> l.stopRequested)
    && (l.loop == Exited ==> l.closing) && (l.closed ==> l.closing)
    && (l.bodies > 0 && l.loop == Running ==> l.beside) && (l.cleared ==> l.bodies > 0)
  }

  predicate LoopOk(s: State) {
    Drained(s) && LateOk(s) && BodiesOk(s.life) && (s.work.dangling ==> s.life.beside)
  }

  lemma DrainedStep(s: State, op: Op)
    requires Drained(s) && BodiesOk(s.life) && Enabled(s, op)
    ensures Drained(After(s, op))
    ensures op.TickClaim? || op.TickQueue? || op.WorkCheck? || op.Capture? || op.Done? ==> s.life.loop == Running
  {}

  lemma BodiesStep(l: Life, op: Op)
    requires BodiesOk(l) && LifeEnabled(l, op)
    ensures BodiesOk(LifeAfter(l, op)) && (l.beside ==> LifeAfter(l, op).beside)
  {}

  lemma LoopStep(s: State, op: Op)
    requires LoopOk(s) && Enabled(s, op)
    ensures LoopOk(After(s, op))
  {
    DrainedStep(s, op);
    BodiesStep(s.life, op);
  }

  /** In every run: nothing under way outside the loop, at most one late capture, overlaps noted. */
  lemma {:induction false} AlwaysOk(ops: seq<Op>)
    requires Possible(ops)
    ensures LoopOk(Run(ops))
  {
    if ops != [] {
      AlwaysOk(ops[..|ops| - 1]);
      LoopStep(Run(ops[..|ops| - 1]), ops[|ops| - 1]);
    }
  }

  /** What every run keeps. */
  ghost predicate Sound(s: State) { FlagsExact(s.work) && LoopOk(s) }

  lemma SoundStep(s: State, op: Op)
    requires Sound(s) && Enabled(s, op)
    ensures Sound(After(s, op))
  {
    forall c ensures FlagExact(WorkAfter(s.work, s.life, op), c) {
      FlagsStep(s, op, c);
    }
    LoopStep(s, op);
  }

  lemma {:induction false} Prefix(ops: seq<Op>, more: seq<Op>)
    requires Possible(ops + more)
    ensures Possible(ops)
  {
    if more == [] {
      assert ops + more == ops;
    } else {
      var init, op := more[..|more| - 1], more[|more| - 1];
      RunLast(ops, more);
      Prefix(ops, init);
    }
  }
}
