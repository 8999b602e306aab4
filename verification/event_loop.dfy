/** The cross-thread task queue of `EventLoop`: producers push under a lock and may write
    an eventfd; the loop thread polls, drains the eventfd, swaps the queue out and runs
    the batch. Every lock-protected section, system call and flag write is one step, and
    the steps of different threads interleave freely. */
module EventLoopProtocol {

  /** A queued callback, named by its identity. */
  type Functor = nat

  type ThreadId = nat

  /** The largest value an eventfd counter can hold; a write that would pass it fails. */
  const EVENTFD_MAX: nat := 0xFFFF_FFFF_FFFF_FFFE

  /** Where the loop thread is. `Outside` is its own code before and after `loop()`. */
  datatype Pc =
    | Outside
    | Top             // about to test `quit_`
    | Polling         // inside `poller_->poll`
    | Handling        // running the handlers of the active channels
    | BeforeSwap      // `callingPendingFunctors_` set, queue not yet taken
    | Running         // iterating over the swapped-out batch
    | Discarding      // flag cleared, the batch vector being destroyed

  datatype State = State(
    pending: seq<Functor>,     // pendingFunctors_
    calling: bool,             // callingPendingFunctors_
    quit: bool,                // quit_
    counter: nat,              // the eventfd behind wakeupFd_
    pc: Pc,
    wakeActive: bool,          // poll reported the wake-up channel, not yet handled
    batch: seq<Functor>,       // the local vector `functors`
    next: nat,                 // position of the range-for over it
    loopMid: bool,             // the loop thread is between its push and its wakeup
    enqueuing: set<ThreadId>,  // other threads between their push and their wakeup
    quitting: set<ThreadId>,   // other threads between setting quit_ and their wakeup
    queued: seq<Functor>,      // history: everything pushed, in lock order
    executed: seq<Functor>,    // history: everything started, in order
    polls: nat,                // history: how often the loop has polled
    drains: nat                // history: how often the eventfd was read
  )

  const INITIAL := State([], false, false, 0, Outside, false, [], 0, false, {}, {}, [], [], 0, 0)

  datatype Step =
    | ForeignPush(t: ThreadId, f: Functor)
    | ForeignWake(t: ThreadId)
    | ForeignQuit(t: ThreadId)
    | LoopPush(g: Functor)
    | LoopWake
    | LoopQuit
    | Start
    | EnterPoll
    | Exit
    | PollReturn(wake: bool)
    | HandleRead
    | BeginPending
    | Swap
    | RunNext
    | EndPending
    | Discarded

  /** The loop thread has yet to take the queue in this iteration. */
  predicate SwapAhead(pc: Pc) {
    pc == Handling || pc == BeforeSwap
  }

  /** Code supplied by the user runs on the loop thread: its own code outside `loop()`,
      event handlers, a functor of the batch, or a destructor of a captured object. */
  predicate UserCodeRuns(s: State) {
    s.pc == Outside || s.pc == Handling || (s.pc == Running && 0 < s.next) || s.pc == Discarding
  }

  predicate Enabled(s: State, step: Step) {
    match step
    case ForeignPush(t, _) => t !in s.enqueuing && t !in s.quitting
    case ForeignQuit(t) => t !in s.enqueuing && t !in s.quitting
    case ForeignWake(_) => true
    case LoopPush(_) => !s.loopMid && UserCodeRuns(s)
    case LoopQuit => !s.loopMid && UserCodeRuns(s)
    case LoopWake => s.loopMid
    case Start => !s.loopMid && s.pc == Outside
    case EnterPoll => s.pc == Top && !s.quit
    case Exit => s.pc == Top && s.quit
    case PollReturn(wake) => s.pc == Polling && (wake ==> 0 < s.counter)
    case HandleRead => s.pc == Handling && s.wakeActive && !s.loopMid
    case BeginPending => s.pc == Handling && !s.wakeActive && !s.loopMid
    case Swap => s.pc == BeforeSwap
    case RunNext => s.pc == Running && s.next < |s.batch| && !s.loopMid
    case EndPending => s.pc == Running && s.next == |s.batch| && !s.loopMid
    case Discarded => s.pc == Discarding && !s.loopMid
  }

  /** `write(wakeupFd_, 1)`: adds one, or fails and leaves the counter at its maximum. */
  function Written(counter: nat): nat {
    if counter < EVENTFD_MAX then counter + 1 else counter
  }

  function Apply(s: State, step: Step): State
    requires Enabled(s, step)
  {
    match step
    case ForeignPush(t, f) =>
      s.(pending := s.pending + [f], queued := s.queued + [f], enqueuing := s.enqueuing + {t})
    case ForeignQuit(t) => s.(quit := true, quitting := s.quitting + {t})
    case ForeignWake(t) =>
      s.(counter := Written(s.counter), enqueuing := s.enqueuing - {t}, quitting := s.quitting - {t})
    case LoopPush(f) =>
      s.(pending := s.pending + [f], queued := s.queued + [f], loopMid := s.calling)
    case LoopWake => s.(counter := Written(s.counter), loopMid := false)
    case LoopQuit => s.(quit := true)
    case Start => s.(quit := false, pc := Top)
    case EnterPoll => s.(pc := Polling, polls := s.polls + 1)
    case Exit => s.(pc := Outside)
    case PollReturn(wake) => s.(pc := Handling, wakeActive := wake)
    case HandleRead => s.(counter := 0, wakeActive := false, drains := s.drains + 1)
    case BeginPending => s.(calling := true, pc := BeforeSwap)
    case Swap => s.(batch := s.pending, next := 0, pending := [], pc := Running)
    case RunNext => s.(executed := s.executed + [s.batch[s.next]], next := s.next + 1)
    case EndPending => s.(calling := false, pc := Discarding)
    case Discarded => s.(batch := [], next := 0, pc := Top)
  }

  /** A schedule is a list of steps each of which is enabled when its turn comes. */
  ghost predicate Legal(steps: seq<Step>)
    decreases |steps|, 0
  {
    steps != [] ==> Legal(Front(steps)) && Enabled(After(Front(steps)), Last(steps))
  }

  ghost function After(steps: seq<Step>): State
    requires Legal(steps)
    decreases |steps|, 1
  {
    if steps == [] then INITIAL else Apply(After(Front(steps)), Last(steps))
  }

  function Front(steps: seq<Step>): seq<Step>
    requires steps != []
  {
    steps[..|steps| - 1]
  }

  function Last(steps: seq<Step>): Step
    requires steps != []
  {
    steps[|steps| - 1]
  }

  // ---- Functors run exactly once, in lock order ----

  ghost predicate HistoryInv(s: State) {
    && s.next <= |s.batch|
    && (s.pc != Running && s.pc != Discarding ==> s.batch == [])
    && (s.pc == Discarding ==> s.next == |s.batch|)
    && s.executed + s.batch[s.next..] + s.pending == s.queued
  }

  lemma HistoryPush(executed: seq<Functor>, left: seq<Functor>, pending: seq<Functor>, f: Functor)
    ensures executed + left + (pending + [f]) == executed + left + pending + [f]
  {
  }

  lemma HistoryRun(executed: seq<Functor>, batch: seq<Functor>, next: nat, pending: seq<Functor>)
    requires next < |batch|
    ensures executed + [batch[next]] + batch[next + 1..] + pending == executed + batch[next..] + pending
  {
    assert batch[next..] == [batch[next]] + batch[next + 1..];
  }

  lemma HistorySwap(executed: seq<Functor>, batch: seq<Functor>, next: nat, pending: seq<Functor>)
    requires next == |batch|
    ensures executed + pending[0..] + [] == executed + batch[next..] + pending
    ensures executed + [] + pending == executed + batch[next..] + pending
  {
    assert pending[0..] == pending && batch[next..] == [];
  }

  lemma HistoryStep(s: State, step: Step)
    requires HistoryInv(s) && Enabled(s, step)
    ensures HistoryInv(Apply(s, step))
  {
    match step
    case ForeignPush(_, f) => HistoryPush(s.executed, s.batch[s.next..], s.pending, f);
    case LoopPush(f) => HistoryPush(s.executed, s.batch[s.next..], s.pending, f);
    case Swap => HistorySwap(s.executed, s.batch, s.next, s.pending);
    case RunNext => HistoryRun(s.executed, s.batch, s.next, s.pending);
    case Discarded => HistorySwap(s.executed, s.batch, s.next, s.pending);
    case _ =>
  }

  /** In every state of every run, what has been executed, what is left of the running
      batch and what is still queued make up everything queued, in lock order. */
  lemma {:induction false} FunctorsRunOnceInOrder(steps: seq<Step>)
    requires Legal(steps)
    ensures HistoryInv(After(steps))
    ensures var s := After(steps); s.executed + s.batch[s.next..] + s.pending == s.queued
  {
    if steps != [] {
      FunctorsRunOnceInOrder(Front(steps));
      HistoryStep(After(Front(steps)), Last(steps));
    }
  }

  // ---- No lost wake-up ----

  /** Queued work is covered when something is bound to make the loop take it: the eventfd
      is readable, the swap of this iteration lies ahead, or whoever pushed has yet to
      write the eventfd. */
  predicate Covered(s: State) {
    s.pending == [] || 0 < s.counter || SwapAhead(s.pc) || s.loopMid || s.enqueuing != {}
  }

  ghost predicate ControlInv(s: State) {
    && (s.calling <==> s.pc == BeforeSwap || s.pc == Running)
    && (s.loopMid ==> s.pc == Running)
    && (s.pc == Polling && s.quit ==> 0 < s.counter || s.quitting != {})
  }

  /** The test under which a push by the loop thread is safe. It can be made before the
      call: the push happens while the swap lies ahead, or the flag that makes
      `queueInLoop` write the eventfd is set. */
  predicate GuardedPush(s: State) {
    SwapAhead(s.pc) || s.calling
  }

  /** Every push the loop thread made in this schedule was guarded. */
  ghost predicate Guarded(steps: seq<Step>)
    requires Legal(steps)
  {
    steps != [] ==>
      && Guarded(Front(steps))
      && (Last(steps).LoopPush? ==> GuardedPush(After(Front(steps))))
  }

  lemma ControlStep(s: State, step: Step)
    requires ControlInv(s) && Enabled(s, step)
    ensures ControlInv(Apply(s, step))
  {
  }

  lemma {:induction false} ControlHolds(steps: seq<Step>)
    requires Legal(steps)
    ensures ControlInv(After(steps))
  {
    if steps != [] {
      ControlHolds(Front(steps));
      ControlStep(After(Front(steps)), Last(steps));
    }
  }

  /** A push by the loop thread is announced when the guard holds, the eventfd is readable
      anyway, or another enqueuer has yet to write it. */
  predicate Announced(s: State) {
    GuardedPush(s) || 0 < s.counter || s.enqueuing != {}
  }

  /** From covered work a step leads to covered work, unless it is an unannounced push. */
  lemma CoveredStep(s: State, step: Step)
    requires Enabled(s, step) && ControlInv(s) && Covered(s)
    ensures Covered(Apply(s, step)) <==> (step.LoopPush? ==> Announced(s))
  {
  }

  /** Queued work is covered in every state of this schedule. */
  ghost predicate AlwaysCovered(steps: seq<Step>)
    requires Legal(steps)
  {
    Covered(After(steps)) && (steps != [] ==> AlwaysCovered(Front(steps)))
  }

  /** Every push the loop thread made in this schedule was announced. */
  ghost predicate AllAnnounced(steps: seq<Step>)
    requires Legal(steps)
  {
    steps != [] ==>
      && AllAnnounced(Front(steps))
      && (Last(steps).LoopPush? ==> Announced(After(Front(steps))))
  }

  /** No wake-up is lost anywhere in a schedule exactly when every push the loop thread
      makes in it is announced, a test that can be made before each push. */
  lemma {:induction false} AlwaysCoveredIff(steps: seq<Step>)
    requires Legal(steps)
    ensures AlwaysCovered(steps) <==> AllAnnounced(steps)
  {
    if steps != [] {
      AlwaysCoveredIff(Front(steps));
      ControlHolds(Front(steps));
      if AlwaysCovered(Front(steps)) {
        CoveredStep(After(Front(steps)), Last(steps));
      }
    }
  }

  lemma {:induction false} NoLostWakeup(steps: seq<Step>)
    requires Legal(steps) && Guarded(steps)
    ensures Covered(After(steps))
  {
    if steps != [] {
      NoLostWakeup(Front(steps));
      ControlHolds(Front(steps));
      CoveredStep(After(Front(steps)), Last(steps));
    }
  }

  /** The loop never blocks in poll on queued work with no enqueuer in the middle of a call. */
  lemma NeverBlocksOnWork(steps: seq<Step>)
    requires Legal(steps) && Guarded(steps)
    ensures var s := After(steps);
            s.pc == Polling && s.counter == 0 && s.enqueuing == {} ==> s.pending == []
  {
    NoLostWakeup(steps);
    ControlHolds(steps);
  }

  // ---- Quitting ----

  /** Somebody has called `quit()` since `loop()` was last entered. */
  predicate QuitSinceStart(steps: seq<Step>) {
    steps != [] &&
    match Last(steps)
    case Start => false
    case ForeignQuit(_) => true
    case LoopQuit => true
    case _ => QuitSinceStart(Front(steps))
  }

  lemma QuitStep(s: State, step: Step)
    requires Enabled(s, step)
    ensures Apply(s, step).quit == if step.Start? then false else s.quit || step.ForeignQuit? || step.LoopQuit?
  {
  }

  /** The flag holds exactly the calls since `loop()` was last entered: entering it erases
      a quit that came before. */
  lemma {:induction false} QuitFlagIff(steps: seq<Step>)
    requires Legal(steps)
    ensures After(steps).quit <==> QuitSinceStart(steps)
  {
    if steps != [] {
      QuitFlagIff(Front(steps));
      QuitStep(After(Front(steps)), Last(steps));
      hide Apply, Enabled;
    }
  }

  /** A quit called since `loop()` was last entered is never slept through, once the call
      has returned; and the loop leaves at its next test exactly for such a quit. */
  lemma QuitWakesLoop(steps: seq<Step>)
    requires Legal(steps)
    ensures var s := After(steps);
            && (s.pc == Polling && QuitSinceStart(steps) && s.quitting == {} ==> 0 < s.counter)
            && (Enabled(s, Exit) <==> s.pc == Top && QuitSinceStart(steps))
  {
    QuitFlagIff(steps);
    ControlHolds(steps);
  }

  /** A quit before `loop()` is erased: the loop sleeps in poll, with nothing to wake it. */
  lemma EarlyQuitIsErased()
    ensures var steps := [LoopQuit, Start, EnterPoll];
            && Legal(steps)
            && var s := After(steps);
               s.pc == Polling && s.counter == 0 && !s.quit && s.quitting == {}
  {
    LegalEmpty();
    hide Legal, After;
    LegalPrefix([], LoopQuit);
    assert [] + [LoopQuit] == [LoopQuit];
    LegalPrefix([LoopQuit], Start);
    assert [LoopQuit] + [Start] == [LoopQuit, Start];
    LegalPrefix([LoopQuit, Start], EnterPoll);
    assert [LoopQuit, Start] + [EnterPoll] == [LoopQuit, Start, EnterPoll];
  }

  // ---- The eventfd ----

  /** How often the eventfd was written since it was last read. */
  function WritesSinceRead(steps: seq<Step>): nat {
    if steps == [] then 0
    else
      match Last(steps)
      case ForeignWake(_) => WritesSinceRead(Front(steps)) + 1
      case LoopWake => WritesSinceRead(Front(steps)) + 1
      case HandleRead => 0
      case _ => WritesSinceRead(Front(steps))
  }

  /** The eventfd counts the writes since it was last read, up to its maximum: one read
      takes all of them. */
  lemma {:induction false} CounterCounts(steps: seq<Step>)
    requires Legal(steps)
    ensures var n := WritesSinceRead(steps);
            After(steps).counter == if n <= 0xFFFF_FFFF_FFFF_FFFE then n else 0xFFFF_FFFF_FFFF_FFFE
  {
    if steps != [] {
      CounterCounts(Front(steps));
      CounterStep(After(Front(steps)), Last(steps));
      hide Apply, Enabled;
    }
  }

  lemma CounterStep(s: State, step: Step)
    requires Enabled(s, step)
    ensures Apply(s, step).counter ==
      if step.HandleRead? then 0
      else if step.ForeignWake? || step.LoopWake? then
        if s.counter < 0xFFFF_FFFF_FFFF_FFFE then s.counter + 1 else s.counter
      else s.counter
  {
  }

  // ---- A push that nobody announces ----

  /** A push before `loop()` is entered: the loop goes to sleep on it. */
  lemma EarlyPushIsLost()
    ensures var steps := [LoopPush(7), Start, EnterPoll];
            && Legal(steps)
            && var s := After(steps);
               s.pc == Polling && s.pending == [7] && !Covered(s) && Covered(Apply(s, PollReturn(false)))
  {
    LegalEmpty();
    hide Legal, After;
    LegalPrefix([], LoopPush(7));
    assert [] + [LoopPush(7)] == [LoopPush(7)];
    LegalPrefix([LoopPush(7)], Start);
    assert [LoopPush(7)] + [Start] == [LoopPush(7), Start];
    LegalPrefix([LoopPush(7), Start], EnterPoll);
    assert [LoopPush(7), Start] + [EnterPoll] == [LoopPush(7), Start, EnterPoll];
  }

  /** And one from inside `loop()`: an object captured by a functor is destroyed with
      the batch, after the flag was cleared, and its destructor enqueues. The loop then
      sleeps in poll on queued work that nobody will announce, until poll times out. */
  const TAKEN_SCHEDULE := [
    ForeignPush(1, 7), ForeignWake(1), Start, EnterPoll, PollReturn(true), HandleRead, BeginPending, Swap
  ]

  const DESTRUCTOR_SCHEDULE := TAKEN_SCHEDULE + [RunNext] + [EndPending] + [LoopPush(8)] + [Discarded] + [EnterPoll]

  lemma LegalEmpty()
    ensures Legal([]) && After([]) == INITIAL
  {
  }

  lemma {:induction false} LegalPrefix(steps: seq<Step>, step: Step)
    requires Legal(steps) && Enabled(After(steps), step)
    ensures Legal(steps + [step]) && After(steps + [step]) == Apply(After(steps), step)
  {
    assert Front(steps + [step]) == steps;
  }

  lemma WokenUp()
    ensures var p := [ForeignPush(1, 7), ForeignWake(1), Start, EnterPoll];
            Legal(p) && After(p) == INITIAL.(pending := [7], queued := [7], counter := 1, pc := Polling, polls := 1)
  {
    LegalEmpty();
    hide Legal, After;
    LegalPrefix([], ForeignPush(1, 7));
    assert [] + [ForeignPush(1, 7)] == [ForeignPush(1, 7)];
    LegalPrefix([ForeignPush(1, 7)], ForeignWake(1));
    assert [ForeignPush(1, 7)] + [ForeignWake(1)] == [ForeignPush(1, 7), ForeignWake(1)];
    LegalPrefix([ForeignPush(1, 7), ForeignWake(1)], Start);
    var p := [ForeignPush(1, 7), ForeignWake(1), Start];
    assert [ForeignPush(1, 7), ForeignWake(1)] + [Start] == p;
    LegalPrefix(p, EnterPoll);
    assert p + [EnterPoll] == [ForeignPush(1, 7), ForeignWake(1), Start, EnterPoll];
  }

  lemma QueueTaken()
    ensures Legal(TAKEN_SCHEDULE)
    ensures After(TAKEN_SCHEDULE)
         == INITIAL.(calling := true, pc := Running, batch := [7], queued := [7], polls := 1, drains := 1)
  {
    WokenUp();
    hide Legal, After;
    var p4 := [ForeignPush(1, 7), ForeignWake(1), Start, EnterPoll];
    LegalPrefix(p4, PollReturn(true));
    LegalPrefix(p4 + [PollReturn(true)], HandleRead);
    LegalPrefix(p4 + [PollReturn(true)] + [HandleRead], BeginPending);
    LegalPrefix(p4 + [PollReturn(true)] + [HandleRead] + [BeginPending], Swap);
    assert p4 + [PollReturn(true)] + [HandleRead] + [BeginPending] + [Swap] == TAKEN_SCHEDULE;
  }

  lemma DestructorPushIsLost()
    ensures Legal(DESTRUCTOR_SCHEDULE)
    ensures var s := After(DESTRUCTOR_SCHEDULE);
            && s.pc == Polling && s.pending == [8] && s.counter == 0 && s.enqueuing == {} && !s.loopMid
            && !Covered(s) && Covered(Apply(s, PollReturn(false)))
  {
    QueueTaken();
    hide Legal, After;
    var p8 := TAKEN_SCHEDULE;
    LegalPrefix(p8, RunNext);
    LegalPrefix(p8 + [RunNext], EndPending);
    LegalPrefix(p8 + [RunNext] + [EndPending], LoopPush(8));
    LegalPrefix(p8 + [RunNext] + [EndPending] + [LoopPush(8)], Discarded);
    LegalPrefix(p8 + [RunNext] + [EndPending] + [LoopPush(8)] + [Discarded], EnterPoll);
  }

  // ---- The code, as a player of schedules ----

  /** From `s` to `s'` the loop thread stood still: its own locals are as they were and
      nothing was taken from the queue or read from the eventfd. */
  predicate LoopStoodStill(s: State, s': State) {
    && s'.pc == s.pc && s'.calling == s.calling && s'.wakeActive == s.wakeActive
    && s'.batch == s.batch && s'.next == s.next && s'.executed == s.executed
    && s'.polls == s.polls && s'.drains == s.drains
    && s.pending <= s'.pending && s.queued <= s'.queued && s.counter <= s'.counter
  }

  /** `after` continues `before`, and pushes of the loop thread in between were guarded
      if the ones before were. */
  ghost predicate Continues(before: seq<Step>, after: seq<Step>) {
    before <= after && Legal(before) && Legal(after) && (Guarded(before) ==> Guarded(after))
  }

  lemma ContinuesOn(a: seq<Step>, b: seq<Step>, c: seq<Step>)
    requires Continues(a, b) && Continues(b, c)
    ensures Continues(a, c)
  {
    hide Legal, Guarded;
  }

  lemma ContinuesPrefix(a: seq<Step>, b: seq<Step>)
    requires Continues(a, b)
    ensures a <= b
  {
    hide Legal, Guarded;
  }

  /** The loop, with the fields of the original and, as fields, the locals of
      `doPendingFunctors` and the progress of the other threads. `trace` records the
      schedule being played, so that whatever is proved of every legal schedule holds of
      this code. */
  class EventLoop {
    var pendingFunctors: seq<Functor>
    var callingPendingFunctors: bool
    var quitFlag: bool
    var wakeupCount: nat
    var functors: seq<Functor>
    var nextFunctor: nat
    var enqueuing: set<ThreadId>
    var quitting: set<ThreadId>
    ghost var trace: seq<Step>

    ghost predicate Valid()
      reads this
    {
      Legal(trace) &&
      var s := After(trace);
      && pendingFunctors == s.pending && callingPendingFunctors == s.calling
      && quitFlag == s.quit && wakeupCount == s.counter
      && functors == s.batch && nextFunctor == s.next
      && enqueuing == s.enqueuing && quitting == s.quitting
    }

    constructor ()
      ensures Valid() && trace == []
    {
      pendingFunctors, callingPendingFunctors, quitFlag, wakeupCount := [], false, false, 0;
      functors, nextFunctor, enqueuing, quitting, trace := [], 0, {}, {}, [];
    }

    ghost method Record(step: Step)
      requires Legal(trace) && Enabled(After(trace), step)
      modifies this`trace
      ensures trace == old(trace) + [step] && Legal(trace)
      ensures After(trace) == Apply(After(old(trace)), step)
      ensures Guarded(trace) <==>
                Guarded(old(trace)) && (step.LoopPush? ==> GuardedPush(After(old(trace))))
    {
      LegalPrefix(trace, step);
      assert Front(trace + [step]) == trace;
      trace := trace + [step];
    }

    /** The critical section of `queueInLoop`. */
    method PushPending(f: Functor, ghost step: Step)
      requires Valid() && Enabled(After(trace), step)
      requires step == LoopPush(f) || (step.ForeignPush? && step.f == f)
      modifies this`pendingFunctors, this`trace, this`enqueuing
      ensures trace == old(trace) + [step] && Legal(trace)
      ensures pendingFunctors == old(pendingFunctors) + [f] && enqueuing == old(enqueuing)
      ensures After(trace) == Apply(After(old(trace)), step)
      ensures Guarded(trace) <==>
                Guarded(old(trace)) && (step.LoopPush? ==> GuardedPush(After(old(trace))))
    {
      pendingFunctors := pendingFunctors + [f];
      Record(step);
    }

    /** `wakeup`: the write to the eventfd. */
    method WriteEventfd()
      modifies this`wakeupCount
      ensures wakeupCount == Written(old(wakeupCount))
    {
      if wakeupCount < EVENTFD_MAX {
        wakeupCount := wakeupCount + 1;
      }
    }

    /** Another thread's push. */
    method PushFromOutside(t: ThreadId, f: Functor)
      requires Valid() && t !in enqueuing && t !in quitting
      modifies this
      ensures Valid() && Continues(old(trace), trace)
      ensures After(trace) == Apply(After(old(trace)), ForeignPush(t, f))
    {
      hide Legal, After, Guarded;
      PushPending(f, ForeignPush(t, f));
      enqueuing := enqueuing + {t};
    }

    /** Another thread's write of `quit_`. */
    method QuitFromOutside(t: ThreadId)
      requires Valid() && t !in enqueuing && t !in quitting
      modifies this
      ensures Valid() && Continues(old(trace), trace)
      ensures After(trace) == Apply(After(old(trace)), ForeignQuit(t))
    {
      hide Legal, After, Guarded;
      quitFlag, quitting := true, quitting + {t};
      Record(ForeignQuit(t));
    }

    /** Another thread's write to the eventfd, which ends its push or quit. */
    method WakeFromOutside(t: ThreadId)
      requires Valid()
      modifies this
      ensures Valid() && Continues(old(trace), trace)
      ensures After(trace) == Apply(After(old(trace)), ForeignWake(t))
    {
      hide Legal, After, Guarded;
      WriteEventfd();
      enqueuing, quitting := enqueuing - {t}, quitting - {t};
      Record(ForeignWake(t));
    }

    /** One step of another thread: a push, a write of `quit_`, or the write to the eventfd
        that follows either (or a bare call of `wakeup`). */
    method ForeignStep(choice: nat, t: ThreadId, f: Functor)
      requires Valid()
      modifies this
      ensures Valid() && Continues(old(trace), trace)
      ensures LoopStoodStill(After(old(trace)), After(trace))
      ensures After(trace).loopMid == After(old(trace)).loopMid
    {
      hide Legal, After, Guarded, Continues;
      if choice == 0 && t !in enqueuing && t !in quitting {
        PushFromOutside(t, f);
      } else if choice == 1 && t !in enqueuing && t !in quitting {
        QuitFromOutside(t);
      } else {
        WakeFromOutside(t);
      }
    }

    /** What other threads do between two steps of the loop thread: anything, any number
        of times. */
    method Interfere()
      requires Valid()
      modifies this
      ensures Valid() && Continues(old(trace), trace)
      ensures LoopStoodStill(After(old(trace)), After(trace))
      ensures After(trace).loopMid == After(old(trace)).loopMid
    {
      hide Legal, After, Guarded;
      var n: nat := *;
      while 0 < n
        invariant Valid() && Continues(old(trace), trace)
        invariant LoopStoodStill(After(old(trace)), After(trace))
        invariant After(trace).loopMid == After(old(trace)).loopMid
      {
        var choice: nat, t: ThreadId, f: Functor := *, *, *;
        ForeignStep(choice, t, f);
        n := n - 1;
      }
    }

    /** `queueInLoop` called on the loop thread. */
    method QueueInLoop(f: Functor)
      requires Valid() && UserCodeRuns(After(trace)) && !After(trace).loopMid
      modifies this
      ensures Valid() && old(trace) <= trace
      ensures LoopStoodStill(After(old(trace)), After(trace)) && !After(trace).loopMid
      ensures After(old(trace)).queued + [f] <= After(trace).queued
      ensures GuardedPush(After(old(trace))) ==> Continues(old(trace), trace)
    {
      hide Legal, After, Guarded;
      PushPending(f, LoopPush(f));
      Interfere();
      if callingPendingFunctors {
        WriteEventfd();
        Record(LoopWake);
      }
    }

    /** User code running on the loop thread, which may enqueue any number of functors. */
    method RunUserCode(enqueues: bool)
      requires Valid() && UserCodeRuns(After(trace)) && !After(trace).loopMid
      modifies this
      ensures Valid() && old(trace) <= trace
      ensures LoopStoodStill(After(old(trace)), After(trace)) && !After(trace).loopMid
      ensures GuardedPush(After(old(trace))) || !enqueues ==> Continues(old(trace), trace)
    {
      hide Legal, After, Guarded;
      var n: nat := *;
      while 0 < n
        invariant Valid() && old(trace) <= trace
        invariant LoopStoodStill(After(old(trace)), After(trace)) && !After(trace).loopMid
        invariant GuardedPush(After(old(trace))) || !enqueues ==> Continues(old(trace), trace)
      {
        if enqueues {
          var f: Functor := *;
          QueueInLoop(f);
        } else {
          Interfere();
        }
        n := n - 1;
      }
    }

    method HandleRead()
      requires Valid() && Enabled(After(trace), Step.HandleRead)
      modifies this
      ensures Valid() && Continues(old(trace), trace)
      ensures After(trace) == Apply(After(old(trace)), Step.HandleRead)
    {
      wakeupCount := 0;
      Record(Step.HandleRead);
    }

    method SetFlag()
      requires Valid() && Enabled(After(trace), BeginPending)
      modifies this
      ensures Valid() && Continues(old(trace), trace)
      ensures After(trace) == Apply(After(old(trace)), BeginPending)
    {
      hide Legal, After, Guarded;
      callingPendingFunctors := true;
      Record(BeginPending);
    }

    /** The locked section: `functors.swap(pendingFunctors_)`. */
    method SwapQueue()
      requires Valid() && Enabled(After(trace), Step.Swap)
      modifies this
      ensures Valid() && Continues(old(trace), trace)
      ensures After(trace) == Apply(After(old(trace)), Step.Swap)
      ensures After(trace).executed + functors == After(trace).queued
    {
      hide Legal, After, Guarded;
      functors, pendingFunctors := pendingFunctors, [];
      nextFunctor := 0;
      Record(Step.Swap);
      FunctorsRunOnceInOrder(trace);
    }

    /** The start of `doPendingFunctors`: set the flag, take the whole queue. */
    method TakeQueue()
      requires Valid() && Enabled(After(trace), BeginPending)
      modifies this
      ensures Valid() && Continues(old(trace), trace)
      ensures var s := After(trace); s.pc == Running && s.next == 0 && s.loopMid == After(old(trace)).loopMid
      ensures After(old(trace)).queued <= After(trace).queued
      ensures After(trace).executed + functors == After(trace).queued
      ensures After(trace).polls == After(old(trace)).polls && After(trace).drains == After(old(trace)).drains
    {
      hide Legal, After, Guarded, Continues, Valid;
      SetFlag();
      ghost var t1 := trace;
      Interfere();
      ghost var t2 := trace;
      SwapQueue();
      ContinuesOn(old(trace), t1, t2);
      ContinuesOn(old(trace), t2, trace);
    }

    /** The range-for over the batch: runs it all, in order. */
    method RunBatch()
      requires Valid()
      requires var s := After(trace); s.pc == Running && s.next == 0 && !s.loopMid
      modifies this
      ensures Valid() && Continues(old(trace), trace)
      ensures var s := After(trace);
              s.pc == Running && s.next == |s.batch| && !s.loopMid && functors == old(functors)
      ensures After(trace).executed == After(old(trace)).executed + functors
      ensures After(trace).polls == After(old(trace)).polls && After(trace).drains == After(old(trace)).drains
    {
      hide Legal, After, Guarded;
      ControlHolds(trace);
      assert functors[..0] == [];
      while nextFunctor < |functors|
        invariant Valid() && Continues(old(trace), trace) && functors == old(functors)
        invariant var s := After(trace); s.pc == Running && s.calling && !s.loopMid && s.next <= |s.batch|
        invariant After(trace).executed == After(old(trace)).executed + functors[..nextFunctor]
        invariant After(trace).polls == After(old(trace)).polls && After(trace).drains == After(old(trace)).drains
        decreases |functors| - nextFunctor
      {
        Interfere();
        assert functors[..nextFunctor + 1] == functors[..nextFunctor] + [functors[nextFunctor]];
        nextFunctor := nextFunctor + 1;
        Record(RunNext);
        RunUserCode(true);
      }
      assert functors[..nextFunctor] == functors;
    }

    method ClearFlag()
      requires Valid() && Enabled(After(trace), EndPending)
      modifies this
      ensures Valid() && Continues(old(trace), trace)
      ensures After(trace) == Apply(After(old(trace)), EndPending)
    {
      hide Legal, After, Guarded;
      callingPendingFunctors := false;
      Record(EndPending);
    }

    method DropBatch()
      requires Valid() && Enabled(After(trace), Discarded)
      modifies this
      ensures Valid() && Continues(old(trace), trace)
      ensures After(trace) == Apply(After(old(trace)), Discarded)
    {
      hide Legal, After, Guarded;
      functors, nextFunctor := [], 0;
      Record(Discarded);
    }

    /** The end of `doPendingFunctors`: clear the flag, then destroy the batch. */
    method DiscardBatch(destructorsEnqueue: bool)
      requires Valid() && Enabled(After(trace), EndPending)
      modifies this
      ensures Valid() && old(trace) <= trace
      ensures var s := After(trace); s.pc == Top && !s.loopMid
      ensures After(trace).executed == After(old(trace)).executed
      ensures After(trace).polls == After(old(trace)).polls && After(trace).drains == After(old(trace)).drains
      ensures !destructorsEnqueue ==> Continues(old(trace), trace)
    {
      hide Legal, After, Guarded, Continues, Valid;
      Interfere();
      ghost var t1 := trace;
      ClearFlag();
      ghost var t2 := trace;
      RunUserCode(destructorsEnqueue);
      ghost var t3 := trace;
      DropBatch();
      ContinuesOn(old(trace), t1, t2);
      ContinuesPrefix(old(trace), t2);
      ContinuesPrefix(t3, trace);
      if !destructorsEnqueue {
        ContinuesOn(old(trace), t2, t3);
        ContinuesOn(old(trace), t3, trace);
      }
    }

    /** Everything queued before the call has been run when it returns, in order, and the
        functors queued meanwhile are run now or kept. */
    method DoPendingFunctors(destructorsEnqueue: bool)
      requires Valid() && Enabled(After(trace), BeginPending)
      modifies this
      ensures Valid() && old(trace) <= trace
      ensures After(trace).pc == Top && !After(trace).loopMid
      ensures After(old(trace)).queued <= After(trace).executed
      ensures After(trace).executed + pendingFunctors == After(trace).queued
      ensures After(trace).polls == After(old(trace)).polls && After(trace).drains == After(old(trace)).drains
      ensures !destructorsEnqueue ==> Continues(old(trace), trace)
    {
      hide Legal, After, Guarded;
      TakeQueue();
      RunBatch();
      DiscardBatch(destructorsEnqueue);
      FunctorsRunOnceInOrder(trace);
    }

    /** Between `poll` returning and `doPendingFunctors`: the handlers of the active
        channels, among them `handleRead` when the wake-up channel is active. */
    method HandleActiveChannels(wake: bool)
      requires Valid()
      requires var s := After(trace); s.pc == Handling && !s.loopMid && s.wakeActive == wake
      modifies this
      ensures Valid() && Continues(old(trace), trace) && Enabled(After(trace), BeginPending)
      ensures After(old(trace)).queued <= After(trace).queued && After(trace).polls == After(old(trace)).polls
      ensures After(trace).drains == After(old(trace)).drains + if wake then 1 else 0
    {
      hide Legal, After, Guarded;
      RunUserCode(true);
      if wake {
        HandleRead();
        RunUserCode(true);
      }
    }

    /** `poll`, which returns when the eventfd is readable, for some other channel, or when it
        has waited long enough. `reported` is whether the kernel's report has room for the
        eventfd. */
    method Poll(reported: bool) returns (wake: bool)
      requires Valid() && Enabled(After(trace), EnterPoll)
      modifies this
      ensures Valid() && Continues(old(trace), trace)
      ensures var s, t := After(old(trace)), After(trace);
              && t.pc == Handling && t.wakeActive == wake && !t.loopMid
              && t.polls == s.polls + 1 && t.drains == s.drains && s.queued <= t.queued
              && (wake ==> reported) && (reported && 0 < s.counter ==> wake)
    {
      ControlHolds(trace);
      hide Legal, After, Guarded;
      Record(EnterPoll);
      Interfere();
      wake := reported && 0 < wakeupCount;
      Record(PollReturn(wake));
    }

    /** One turn of the loop: block in poll, handle what is active, run the queue. Everything
        queued before the turn has been run when it ends, and a readable eventfd that poll
        reports is read, once. */
    method Turn(reported: bool, destructorsEnqueue: bool)
      requires Valid() && Enabled(After(trace), EnterPoll)
      modifies this
      ensures Valid() && old(trace) <= trace
      ensures After(trace).pc == Top && !After(trace).loopMid
      ensures After(old(trace)).queued <= After(trace).executed <= After(trace).queued
      ensures After(trace).polls == After(old(trace)).polls + 1
      ensures After(trace).drains <= After(old(trace)).drains + 1
      ensures !reported ==> After(trace).drains == After(old(trace)).drains
      ensures reported && 0 < After(old(trace)).counter ==> After(trace).drains == After(old(trace)).drains + 1
      ensures !destructorsEnqueue && Guarded(old(trace)) ==> Guarded(trace)
    {
      hide Legal, After, Guarded;
      var wake := Poll(reported);
      HandleActiveChannels(wake);
      DoPendingFunctors(destructorsEnqueue);
      Interfere();
      FunctorsRunOnceInOrder(trace);
    }

    /** `loop()`, for as long as `rounds` iterations: it makes them all unless it is told to
        quit, every execution is a legal schedule, everything queued before the last
        iteration has been run, and an execution in which destructors do not enqueue keeps
        queued work covered. */
    method Loop(rounds: nat, reported: nat -> bool, destructorsEnqueue: bool)
      requires Valid() && Enabled(After(trace), Start)
      modifies this
      ensures Valid() && old(trace) <= trace && HistoryInv(After(trace))
      ensures 0 < rounds ==> After(old(trace)).queued <= After(trace).executed
      ensures var s := After(trace);
              s.pc == Outside || (s.pc == Top && s.polls == After(old(trace)).polls + rounds)
      ensures After(trace).pc == Outside ==> QuitSinceStart(trace)
      ensures !destructorsEnqueue && Guarded(old(trace)) ==> Guarded(trace) && Covered(After(trace))
    {
      hide Legal, After, Guarded, Valid;
      Enter();
      Iterate(rounds, reported, destructorsEnqueue);
      QuitIsFlag();
      Leave();
      QuitIsFlag();
      FunctorsRunOnceInOrder(trace);
      QuitFlagIff(trace);
      if !destructorsEnqueue && Guarded(old(trace)) {
        NoLostWakeup(trace);
      }
    }

    method Enter()
      requires Valid() && Enabled(After(trace), Start)
      modifies this
      ensures Valid() && Continues(old(trace), trace) && !quitFlag && old(trace) <= trace
      ensures After(trace) == Apply(After(old(trace)), Start)
    {
      hide Legal, After, Guarded;
      quitFlag := false;
      Record(Start);
    }

    /** The loop itself, from its first test on. */
    method Iterate(rounds: nat, reported: nat -> bool, destructorsEnqueue: bool)
      requires Valid() && After(trace).pc == Top && !After(trace).loopMid && !quitFlag
      modifies this
      ensures Valid() && old(trace) <= trace && After(trace).pc == Top && !After(trace).loopMid
      ensures 0 < rounds ==> After(old(trace)).queued <= After(trace).executed
      ensures quitFlag || After(trace).polls == After(old(trace)).polls + rounds
      ensures !destructorsEnqueue && Guarded(old(trace)) ==> Guarded(trace)
    {
      hide Legal, After, Guarded;
      var left: nat := rounds;
      while !quitFlag && 0 < left
        invariant Valid() && old(trace) <= trace && left <= rounds
        invariant After(trace).pc == Top && !After(trace).loopMid
        invariant After(trace).polls == After(old(trace)).polls + rounds - left
        invariant After(old(trace)).queued <= After(trace).queued
        invariant if left < rounds then After(old(trace)).queued <= After(trace).executed else !quitFlag
        invariant !destructorsEnqueue && Guarded(old(trace)) ==> Guarded(trace)
        decreases left
      {
        Turn(reported(left), destructorsEnqueue);
        left := left - 1;
      }
    }

    lemma QuitIsFlag()
      requires Valid()
      ensures Legal(trace) && After(trace).quit == quitFlag
    {
    }

    /** Back to the caller, once told to quit. */
    method Leave()
      requires Valid() && After(trace).pc == Top
      modifies this
      ensures Valid() && old(trace) <= trace
      ensures After(trace) == if old(quitFlag) then Apply(After(old(trace)), Exit) else After(old(trace))
      ensures Guarded(old(trace)) ==> Guarded(trace)
    {
      hide Legal, After, Guarded;
      if quitFlag {
        Record(Exit);
      }
    }
  }
}
