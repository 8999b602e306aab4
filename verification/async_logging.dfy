/** The double-buffered log pipeline: front-end threads append lines under a lock while one
    back-end thread swaps the filled buffers out, writes them to the log file and recycles
    two of them as spares. Every section under the lock and every action of the back end is
    one step. */
module AsyncLoggingProtocol {
  import opened FixedBuffers

  type Line = seq<char>

  /** What a buffer holds, line by line. */
  type Held = seq<Line>

  datatype Option<+T> = None | Some(value: T)

  /** The size of a log buffer. */
  const LARGE_BUFFER: nat := 4000 * 1000

  function Flat(lines: seq<Line>): seq<char> {
    if lines == [] then [] else lines[0] + Flat(lines[1..])
  }

  function Concat(buffers: seq<Held>): seq<Line> {
    if buffers == [] then [] else buffers[0] + Concat(buffers[1..])
  }

  lemma Associate<T>(a: seq<T>, b: seq<T>, c: seq<T>)
    ensures a + b + c == a + (b + c)
  {
  }

  lemma {:induction false} FlatAppend(a: seq<Line>, b: seq<Line>)
    ensures Flat(a + b) == Flat(a) + Flat(b)
  {
    if a == [] {
      assert a + b == b;
    } else {
      FlatAppend(a[1..], b);
      assert (a + b)[0] == a[0] && (a + b)[1..] == a[1..] + b;
      Associate(a[0], Flat(a[1..]), Flat(b));
    }
  }

  lemma {:induction false} ConcatAppend(a: seq<Held>, b: seq<Held>)
    ensures Concat(a + b) == Concat(a) + Concat(b)
  {
    if a == [] {
      assert a + b == b;
    } else {
      ConcatAppend(a[1..], b);
      assert (a + b)[0] == a[0] && (a + b)[1..] == a[1..] + b;
      Associate(a[0], Concat(a[1..]), Concat(b));
    }
  }

  lemma FlatOne(line: Line)
    ensures Flat([line]) == line
  {
    assert [line][1..] == [];
  }

  lemma ConcatOne(held: Held)
    ensures Concat([held]) == held
  {
    assert [held][1..] == [];
  }

  /** Where the back-end thread is in its round. */
  datatype Pc = Top | Locked | Writing | Spare1 | Spare2 | Clearing | Exited

  /** The pointers of the original are options. `crashed` is set where the original would
      dereference a null pointer or take the back of an empty vector. */
  datatype State = State(
    current: Option<Held>,
    next: Option<Held>,
    buffers: seq<Held>,
    spare1: Option<Held>,      // newBuffer1
    spare2: Option<Held>,      // newBuffer2
    toWrite: seq<Held>,        // buffersToWrite
    written: nat,              // how many of them have gone to the file
    running: bool,
    pc: Pc,
    crashed: bool,
    file: seq<Line>,
    log: seq<Line>,            // history: every line handed to append, in lock order
    swaps: nat                 // history: how often the back end took the buffers
  )

  const INITIAL := State(Some([]), Some([]), [], Some([]), Some([]), [], 0, true, Top, false, [], [], 0)

  datatype Step =
    | Append(line: Line)
    | Stop
    | EnterRound
    | Exit
    | Swap
    | WriteNext
    | Resize
    | Recycle1
    | Recycle2
    | Clear

  predicate Enabled(s: State, step: Step) {
    match step
    case Append(_) => true
    case Stop => true
    case EnterRound => s.pc == Top && s.running
    case Exit => s.pc == Top && !s.running
    case Swap => s.pc == Locked
    case WriteNext => s.pc == Writing && s.written < |s.toWrite|
    case Resize => s.pc == Writing && s.written == |s.toWrite|
    case Recycle1 => s.pc == Spare1
    case Recycle2 => s.pc == Spare2
    case Clear => s.pc == Clearing
  }

  /** `FixedBuffer::append`: the whole line or nothing. */
  function Put(held: Held, line: Line): Held {
    if |Flat(held)| + |line| < LARGE_BUFFER then held + [line] else held
  }

  function AfterAppend(s: State, line: Line): State {
    var t := s.(log := s.log + [line]);
    if s.current.None? then t.(crashed := true)
    else if |Flat(s.current.value)| + |line| < LARGE_BUFFER then
      t.(current := Some(Put(s.current.value, line)))
    else
      var replacement := if s.next.Some? then s.next.value else [];
      t.(buffers := s.buffers + [s.current.value], next := None, current := Some(Put(replacement, line)))
  }

  lemma AppendKeeps(s: State, line: Line)
    ensures AfterAppend(s, line).running == s.running && AfterAppend(s, line).file == s.file
    ensures Enabled(s, Append(line)) && Apply(s, Append(line)) == AfterAppend(s, line)
  {
  }

  /** The current buffer put away and another one in its place. */
  function Switched(s: State): State
    requires s.current.Some?
  {
    s.(buffers := s.buffers + [s.current.value], next := None, current := if s.next.Some? then s.next else Some([]))
  }

  function AfterSwap(s: State): State {
    if s.current.None? then s.(crashed := true)
    else
      var fillNext := s.next.None?;
      s.(toWrite := s.buffers + [s.current.value],
         buffers := s.toWrite,
         written := 0,
         current := s.spare1,
         spare1 := None,
         next := if fillNext then s.spare2 else s.next,
         spare2 := if fillNext then None else s.spare2,
         swaps := s.swaps + 1,
         pc := Writing)
  }

  lemma SwapKeeps(s: State)
    requires s.current.Some?
    ensures var t := AfterSwap(s);
            && t.running == s.running && t.file == s.file && t.pc == Writing && t.written == 0
            && t.log == s.log && t.swaps == s.swaps + 1 && t.buffers == s.toWrite && t.current == s.spare1
  {
  }

  function Apply(s: State, step: Step): State
    requires Enabled(s, step)
  {
    match step
    case Append(line) => AfterAppend(s, line)
    case Stop => s.(running := false)
    case EnterRound => s.(pc := Locked)
    case Exit => s.(pc := Exited)
    case Swap => AfterSwap(s)
    case WriteNext => s.(file := s.file + s.toWrite[s.written], written := s.written + 1)
    case Resize => s.(toWrite := if |s.toWrite| > 2 then s.toWrite[..2] else s.toWrite, pc := Spare1)
    case Recycle1 =>
      if s.spare1.Some? then s.(pc := Spare2)
      else if s.toWrite == [] then s.(crashed := true)
      else s.(spare1 := Some([]), toWrite := s.toWrite[..|s.toWrite| - 1], pc := Spare2)
    case Recycle2 =>
      if s.spare2.Some? then s.(pc := Clearing)
      else if s.toWrite == [] then s.(crashed := true)
      else s.(spare2 := Some([]), toWrite := s.toWrite[..|s.toWrite| - 1], pc := Clearing)
    case Clear => s.(toWrite := [], pc := Top)
  }

  ghost predicate Legal(steps: seq<Step>)
    decreases |steps|, 0
  {
    steps != [] ==> Legal(Front(steps)) && Enabled(After(Front(steps)), Last(steps))
  }

  ghost function After(steps: seq<Step>): State
    requires Legal(steps)
    decreases |steps|, 1
  {
    if steps == [] then INITIAL else Apply(After(Front(steps)), Last(steps))
  }

  function Front(steps: seq<Step>): seq<Step>
    requires steps != []
  {
    steps[..|steps| - 1]
  }

  function Last(steps: seq<Step>): Step
    requires steps != []
  {
    steps[|steps| - 1]
  }

  // ---- Recycling is safe ----

  predicate Empty(spare: Option<Held>) {
    spare == Some([])
  }

  /** The unwritten invariant behind the hand-over: a missing `nextBuffer_` means that a
      filled buffer is waiting, so that a round that gives its second spare away has two
      buffers to recycle. */
  ghost predicate RecycleInv(s: State) {
    && !s.crashed
    && s.current.Some?
    && (Empty(s.next) || (s.next.None? && s.buffers != []))
    && (s.spare2.None? || Empty(s.spare2))
    && match s.pc
       case Top => Empty(s.spare1) && Empty(s.spare2) && s.toWrite == []
       case Locked => Empty(s.spare1) && Empty(s.spare2) && s.toWrite == []
       case Exited => Empty(s.spare1) && Empty(s.spare2) && s.toWrite == []
       case Writing =>
         && s.spare1.None? && s.written <= |s.toWrite|
         && (if s.spare2.None? then 2 else 1) <= |s.toWrite|
       case Spare1 => s.spare1.None? && (if s.spare2.None? then 2 else 1) <= |s.toWrite| <= 2
       case Spare2 => Empty(s.spare1) && (s.spare2.None? ==> s.toWrite != []) && |s.toWrite| <= 1
       case Clearing => Empty(s.spare1) && Empty(s.spare2) && |s.toWrite| <= 1
  }

  lemma RecycleStep(s: State, step: Step)
    requires RecycleInv(s) && Enabled(s, step)
    ensures RecycleInv(Apply(s, step))
  {
  }

  /** No run ever dereferences a null buffer or pops an empty vector, whenever the lock is
      free a missing `nextBuffer_` means `buffers_` is not empty, and every round starts
      with two empty spares. */
  lemma {:induction false} RecyclingIsSafe(steps: seq<Step>)
    requires Legal(steps)
    ensures RecycleInv(After(steps))
    ensures var s := After(steps);
            && !s.crashed && s.current.Some?
            && (s.next.None? ==> s.buffers != [])
            && (s.pc == Top ==> s.spare1 == Some([]) && s.spare2 == Some([]))
  {
    if steps != [] {
      RecyclingIsSafe(Front(steps));
      RecycleStep(After(Front(steps)), Last(steps));
    }
  }

  function One(held: Option<Held>): nat {
    if held.Some? then 1 else 0
  }

  /** How many buffers there are. */
  function Owned(s: State): nat {
    One(s.current) + One(s.next) + One(s.spare1) + One(s.spare2) + |s.buffers| + |s.toWrite|
  }

  /** A buffer is made exactly when a line does not fit into the current one and the spare
      is gone, and buffers are released only at the end of a round: all but two before the
      spares are refilled, and then what is left over. */
  lemma BuffersCounted(s: State, step: Step)
    requires RecycleInv(s) && Enabled(s, step)
    ensures Owned(Apply(s, step)) ==
      match step
      case Append(line) =>
        Owned(s) + if |Flat(s.current.value)| + |line| >= LARGE_BUFFER && s.next.None? then 1 else 0
      case Resize => Owned(s) - if |s.toWrite| > 2 then |s.toWrite| - 2 else 0
      case Clear => Owned(s) - |s.toWrite|
      case _ => Owned(s)
  {
    hide Flat, Put;
  }

  /** The back end goes on until it is told to stop. */
  lemma {:induction false} RunsUntilStopped(steps: seq<Step>)
    requires Legal(steps)
    ensures After(steps).running <==> Stop !in steps
    ensures After(steps).pc == Exited ==> Stop in steps
  {
    if steps != [] {
      RunsUntilStopped(Front(steps));
      StopStep(After(Front(steps)), Last(steps));
      assert Stop in steps <==> Stop in Front(steps) || Last(steps) == Stop by {
        assert steps == Front(steps) + [Last(steps)];
      }
      hide Apply, Enabled;
    }
  }

  lemma StopStep(s: State, step: Step)
    requires Enabled(s, step)
    ensures Apply(s, step).running <==> s.running && step != Stop
    ensures Apply(s, step).pc == Exited ==> s.pc == Exited || !s.running
  {
  }

  // ---- Log conservation ----

  /** The lines that `append` can store at all. */
  function Accepted(log: seq<Line>): seq<Line> {
    if log == [] then []
    else
      var rest := Accepted(log[..|log| - 1]);
      var line := log[|log| - 1];
      if |line| < LARGE_BUFFER then rest + [line] else rest
  }

  function Unwritten(s: State): seq<Held>
    requires s.pc == Writing ==> s.written <= |s.toWrite|
  {
    if s.pc == Writing then s.toWrite[s.written..] else []
  }

  /** Everything the pipeline holds or has written, oldest first. */
  function Ledger(s: State): seq<Line>
    requires s.pc == Writing ==> s.written <= |s.toWrite|
  {
    s.file + Concat(Unwritten(s)) + Concat(s.buffers) + (if s.current.Some? then s.current.value else [])
  }

  ghost predicate ConservationInv(s: State) {
    && RecycleInv(s)
    && Ledger(s) == Accepted(s.log)
  }

  lemma ConcatPush(front: seq<Line>, buffers: seq<Held>, held: Held)
    ensures front + Concat(buffers + [held]) == front + Concat(buffers) + held
  {
    ConcatAppend(buffers, [held]);
    ConcatOne(held);
  }

  lemma AcceptedPush(log: seq<Line>, line: Line)
    ensures Accepted(log + [line]) == Accepted(log) + (if |line| < LARGE_BUFFER then [line] else [])
  {
    assert (log + [line])[..|log|] == log;
  }

  lemma AppendInPlace(s: State, line: Line)
    requires ConservationInv(s) && |Flat(s.current.value)| + |line| < LARGE_BUFFER
    ensures Ledger(AfterAppend(s, line)) == Accepted(s.log + [line])
  {
    AcceptedPush(s.log, line);
    var front := s.file + Concat(Unwritten(s)) + Concat(s.buffers);
    assert front + (s.current.value + [line]) == front + s.current.value + [line];
  }

  lemma AppendToReplacement(s: State, line: Line)
    requires ConservationInv(s) && |Flat(s.current.value)| + |line| >= LARGE_BUFFER
    ensures Ledger(AfterAppend(s, line)) == Accepted(s.log + [line])
  {
    AcceptedPush(s.log, line);
    ConcatPush(s.file + Concat(Unwritten(s)), s.buffers, s.current.value);
    assert AfterAppend(s, line).current.value == if |line| < LARGE_BUFFER then [line] else [];
  }

  lemma AppendConserves(s: State, line: Line)
    requires ConservationInv(s)
    ensures ConservationInv(AfterAppend(s, line))
  {
    hide Concat, Accepted;
    RecycleStep(s, Append(line));
    if |Flat(s.current.value)| + |line| < LARGE_BUFFER {
      AppendInPlace(s, line);
    } else {
      AppendToReplacement(s, line);
    }
  }

  lemma SwapConserves(s: State)
    requires ConservationInv(s) && Enabled(s, Swap)
    ensures ConservationInv(AfterSwap(s))
  {
    var s' := AfterSwap(s);
    RecycleStep(s, Swap);
    ConcatPush(s.file, s.buffers, s.current.value);
    assert Unwritten(s') == s'.toWrite && s'.buffers == [] && s'.current == Some([]);
    assert Ledger(s) == s.file + Concat(s.buffers) + s.current.value;
  }

  lemma UnwrittenNext(s: State)
    requires s.pc == Writing && s.written < |s.toWrite|
    ensures Concat(Unwritten(s)) == s.toWrite[s.written] + Concat(Unwritten(s.(written := s.written + 1)))
  {
    var rest := s.toWrite[s.written + 1..];
    assert s.toWrite[s.written..] == [s.toWrite[s.written]] + rest;
    ConcatAppend([s.toWrite[s.written]], rest);
    ConcatOne(s.toWrite[s.written]);
  }

  lemma WriteConserves(s: State)
    requires ConservationInv(s) && Enabled(s, WriteNext)
    ensures ConservationInv(Apply(s, WriteNext))
  {
    RecycleStep(s, WriteNext);
    UnwrittenNext(s);
    var held, rest := s.toWrite[s.written], Unwritten(s.(written := s.written + 1));
    hide Concat, Accepted, RecycleInv;
    Associate(s.file, held, Concat(rest));
  }

  /** At every step of every run, the lines in the file, then those being written, then
      those in the filled buffers, then those in the current buffer are exactly the lines
      handed to `append` that are shorter than a buffer, in lock order. */
  lemma {:induction false} LogConserved(steps: seq<Step>)
    requires Legal(steps)
    ensures ConservationInv(After(steps))
    ensures var s := After(steps);
            s.file + Concat(Unwritten(s)) + Concat(s.buffers) + s.current.value == Accepted(s.log)
  {
    if steps != [] {
      LogConserved(Front(steps));
      var s, step := After(Front(steps)), Last(steps);
      match step
      case Append(line) => AppendConserves(s, line);
      case Swap => SwapConserves(s);
      case WriteNext => WriteConserves(s);
      case _ => RecycleStep(s, step);
    }
  }

  /** Nothing is lost on the way exactly when every line is shorter than a buffer. */
  lemma {:induction false} AcceptedAllIff(log: seq<Line>)
    ensures Accepted(log) == log <==> forall i :: 0 <= i < |log| ==> |log[i]| < LARGE_BUFFER
    ensures |Accepted(log)| <= |log|
  {
    if log != [] {
      var front := log[..|log| - 1];
      AcceptedAllIff(front);
      assert log == front + [log[|log| - 1]];
      if Accepted(log) == log {
        assert Accepted(front) == Accepted(log)[..|log| - 1];
      }
    }
  }

  /** The lines that were appended after the last swap and can be stored at all. */
  function SinceSwap(steps: seq<Step>): seq<Line> {
    if steps == [] then []
    else
      match Last(steps)
      case Swap => []
      case Append(line) => SinceSwap(Front(steps)) + (if |line| < LARGE_BUFFER then [line] else [])
      case _ => SinceSwap(Front(steps))
  }

  /** What the front end holds. */
  function InFront(s: State): seq<Line>
    requires s.current.Some?
  {
    Concat(s.buffers) + s.current.value
  }

  lemma AppendInFront(s: State, line: Line)
    requires s.current.Some? && (s.next.Some? ==> s.next == Some([]))
    ensures AfterAppend(s, line).current.Some?
    ensures InFront(AfterAppend(s, line)) == InFront(s) + (if |line| < LARGE_BUFFER then [line] else [])
  {
    var held, front := s.current.value, Concat(s.buffers);
    assert Put([], line) == if |line| < LARGE_BUFFER then [line] else [];
    ConcatAppend(s.buffers, [held]);
    ConcatOne(held);
    hide Concat, Flat;
    if |Flat(held)| + |line| < LARGE_BUFFER {
      assert front + (held + [line]) == front + held + [line];
    }
  }

  /** The front end holds exactly what was appended since the last swap. */
  lemma {:induction false} FrontIsSinceSwap(steps: seq<Step>)
    requires Legal(steps)
    ensures After(steps).current.Some? && InFront(After(steps)) == SinceSwap(steps)
  {
    RecyclingIsSafe(steps);
    if steps != [] {
      FrontIsSinceSwap(Front(steps));
      RecyclingIsSafe(Front(steps));
      var s := After(Front(steps));
      match Last(steps)
      case Append(line) => AppendInFront(s, line);
      case _ =>
    }
  }

  lemma FileCompleteIff(file: seq<Line>, front: seq<Line>, all: seq<Line>)
    requires file + front == all
    ensures file == all <==> front == []
  {
    assert |file + front| == |file| + |front|;
  }

  /** When the back end has exited, the file is complete exactly when no line that can be
      stored was appended after the last swap: `stop()` does not drain the buffers. */
  lemma ExitCompleteIff(steps: seq<Step>)
    requires Legal(steps) && After(steps).pc == Exited
    ensures var s := After(steps); s.file == Accepted(s.log) <==> SinceSwap(steps) == []
  {
    LogConserved(steps);
    FrontIsSinceSwap(steps);
    var s := After(steps);
    hide Concat, Accepted, Legal, After, RecycleInv, SinceSwap;
    NothingUnwritten(s);
    FileCompleteIff(s.file, InFront(s), Accepted(s.log));
  }

  lemma NothingUnwritten(s: State)
    requires ConservationInv(s) && s.pc == Exited
    ensures s.current.Some? && s.file + InFront(s) == Accepted(s.log)
  {
    assert Concat(Unwritten(s)) == [];
    assert s.file + (Concat(s.buffers) + s.current.value) == s.file + [] + Concat(s.buffers) + s.current.value;
  }

  // ---- Progress ----

  lemma {:induction false} AcceptedAppend(a: seq<Line>, b: seq<Line>)
    ensures Accepted(a + b) == Accepted(a) + Accepted(b)
  {
    if b == [] {
      assert a + b == a;
    } else {
      var front, line := b[..|b| - 1], b[|b| - 1];
      AcceptedAppend(a, front);
      assert (a + b)[..|a + b| - 1] == a + front && (a + b)[|a + b| - 1] == line;
    }
  }

  /** What was stored stays stored. */
  lemma AcceptedPrefix(a: seq<Line>, b: seq<Line>)
    requires a <= b
    ensures Accepted(a) <= Accepted(b)
  {
    AcceptedAppend(a, b[|a|..]);
    assert a + b[|a|..] == b;
  }

  /** Right after a swap everything stored so far is in the file or about to be written. */
  lemma SwappedAll(steps: seq<Step>)
    requires Legal(steps) && After(steps).pc == Writing && After(steps).written == 0
    requires After(steps).buffers == [] && After(steps).current == Some([])
    ensures var s := After(steps); s.file + Concat(s.toWrite) == Accepted(s.log)
  {
    LogConserved(steps);
    var s := After(steps);
    assert s.toWrite[0..] == s.toWrite;
  }

  lemma ConcatNone(buffers: seq<Held>, file: seq<Line>)
    ensures file + Concat(buffers[..0]) == file
  {
  }

  lemma ConcatNext(buffers: seq<Held>, i: nat, file: seq<Line>)
    requires i < |buffers|
    ensures file + Concat(buffers[..i + 1]) == file + Concat(buffers[..i]) + buffers[i]
  {
    assert buffers[..i + 1] == buffers[..i] + [buffers[i]];
    ConcatPush(file, buffers[..i], buffers[i]);
  }

  lemma LegalEmpty()
    ensures Legal([]) && After([]) == INITIAL
  {
  }

  lemma LegalPrefix(steps: seq<Step>, step: Step)
    requires Legal(steps) && Enabled(After(steps), step)
    ensures Legal(steps + [step]) && After(steps + [step]) == Apply(After(steps), step)
  {
    assert Front(steps + [step]) == steps;
  }

  lemma StopLosesTail(line: Line)
    requires |line| < LARGE_BUFFER
    ensures var steps := [Append(line), Stop, Exit];
            Legal(steps) && After(steps).log == [line] && After(steps).file == []
  {
    LegalEmpty();
    LegalPrefix([], Append(line));
    assert [] + [Append(line)] == [Append(line)];
    LegalPrefix([Append(line)], Stop);
    assert [Append(line)] + [Stop] == [Append(line), Stop];
    LegalPrefix([Append(line), Stop], Exit);
    assert [Append(line), Stop] + [Exit] == [Append(line), Stop, Exit];
  }

  // ---- The code, as a player of schedules ----

  /** From `s` to `s'` the back-end thread stood still. */
  predicate BackEndStoodStill(s: State, s': State) {
    && s'.pc == s.pc && s'.toWrite == s.toWrite && s'.written == s.written
    && s'.spare1 == s.spare1 && s'.spare2 == s.spare2 && s'.file == s.file && s.log <= s'.log
    && s'.swaps == s.swaps
  }

  /** The places that can own a buffer. */
  datatype Owner = Current | Next | NewBuffer1 | NewBuffer2 | InBuffers(i: nat) | InToWrite(j: nat)

  /** Who owns a buffer and what it holds. */
  datatype Slot = Slot(owner: Owner, held: Held)

  predicate Owns(slots: map<FixedBuffer, Slot>, buffer: FixedBuffer?, owner: Owner, held: Option<Held>) {
    && (buffer == null <==> held.None?)
    && (buffer != null ==> buffer in slots && slots[buffer] == Slot(owner, held.value))
  }

  /** The owner of position `i` of `buffersToWrite`, or of `buffers_`. */
  function Position(writing: bool, i: nat): Owner {
    if writing then InToWrite(i) else InBuffers(i)
  }

  predicate OwnsAll(slots: map<FixedBuffer, Slot>, buffers: seq<FixedBuffer>, writing: bool, held: seq<Held>) {
    && |buffers| == |held|
    && forall i :: 0 <= i < |buffers| ==>
         buffers[i] in slots && slots[buffers[i]] == Slot(Position(writing, i), held[i])
  }

  /** The buffers and their arrays are as the slots say, and no two buffers share one. */
  ghost predicate Stored(slots: map<FixedBuffer, Slot>, repr: set<object>)
    reads repr
  {
    && (forall b :: b in slots ==>
          && b in repr && b.data in repr && b.Valid() && b.size == LARGE_BUFFER
          && b.Contents() == Flat(slots[b].held))
    && (forall a, b :: a in slots && b in slots && a != b ==> a.data != b.data)
  }

  lemma NothingStored()
    ensures Stored(map[], {})
  {
  }

  /** `new Buffer`, to be owned by `owner`. */
  method Allocate(ghost slots: map<FixedBuffer, Slot>, ghost repr: set<object>, ghost owner: Owner)
    returns (b: FixedBuffer, ghost slots': map<FixedBuffer, Slot>, ghost repr': set<object>)
    requires Stored(slots, repr)
    ensures b !in slots && slots' == slots[b := Slot(owner, [])]
    ensures fresh(repr' - repr) && repr <= repr' && Stored(slots', repr')
  {
    b := new FixedBuffer(LARGE_BUFFER);
    slots' := slots[b := Slot(owner, [])];
    repr' := repr + {b, b.data};
  }

  /** `reset()` of a buffer that passes to `owner`. */
  method ResetStored(b: FixedBuffer, ghost owner: Owner, ghost slots: map<FixedBuffer, Slot>, ghost repr: set<object>)
    requires Stored(slots, repr) && b in slots
    modifies b
    ensures Stored(slots[b := Slot(owner, [])], repr)
  {
    b.Reset();
  }

  /** `append` to a buffer. */
  method AppendStored(b: FixedBuffer, line: Line, ghost slots: map<FixedBuffer, Slot>, ghost repr: set<object>)
    requires Stored(slots, repr) && b in slots && b.data in repr
    modifies b, b.data
    ensures Stored(slots[b := slots[b].(held := Put(slots[b].held, line))], repr)
  {
    FlatAppend(slots[b].held, [line]);
    FlatOne(line);
    hide Flat;
    assert b.cur == |b.Contents()|;
    b.Append(line);
  }

  lemma RelabelStored(slots: map<FixedBuffer, Slot>, repr: set<object>, b: FixedBuffer, owner: Owner)
    requires Stored(slots, repr) && b in slots
    ensures Stored(slots[b := slots[b].(owner := owner)], repr)
  {
  }

  /** The owning pointers of the pipeline, as a value. */
  datatype Pointers = Pointers(
    current: FixedBuffer?,
    next: FixedBuffer?,
    spare1: FixedBuffer?,
    spare2: FixedBuffer?,
    buffers: seq<FixedBuffer>,
    toWrite: seq<FixedBuffer>
  )

  /** Every pointer agrees with the model and, because a buffer has one slot, no two
      owners share a buffer. */
  predicate Agree(p: Pointers, slots: map<FixedBuffer, Slot>, s: State) {
    && Owns(slots, p.current, Current, s.current)
    && Owns(slots, p.next, Next, s.next)
    && Owns(slots, p.spare1, NewBuffer1, s.spare1)
    && Owns(slots, p.spare2, NewBuffer2, s.spare2)
    && OwnsAll(slots, p.buffers, false, s.buffers)
    && OwnsAll(slots, p.toWrite, true, s.toWrite)
  }

  /** `buffers_.push_back(std::move(currentBuffer_))`. */
  lemma PushAgrees(p: Pointers, slots: map<FixedBuffer, Slot>, s: State)
    requires Agree(p, slots, s) && p.current != null
    ensures Agree(p.(buffers := p.buffers + [p.current], current := null),
                  slots[p.current := Slot(InBuffers(|p.buffers|), s.current.value)],
                  s.(buffers := s.buffers + [s.current.value], current := None))
  {
  }

  /** `currentBuffer_ = std::move(nextBuffer_)`. */
  lemma PromoteAgrees(p: Pointers, slots: map<FixedBuffer, Slot>, s: State)
    requires Agree(p, slots, s) && p.current == null && p.next != null
    ensures Agree(p.(current := p.next, next := null),
                  slots[p.next := Slot(Current, s.next.value)],
                  s.(current := s.next, next := None))
  {
  }

  lemma ResetCurrentAgrees(p: Pointers, slots: map<FixedBuffer, Slot>, s: State, b: FixedBuffer)
    requires Agree(p, slots, s) && p.current == null && b !in slots
    ensures Agree(p.(current := b), slots[b := Slot(Current, [])], s.(current := Some([])))
  {
  }

  lemma PutAgrees(p: Pointers, slots: map<FixedBuffer, Slot>, s: State, line: Line)
    requires Agree(p, slots, s) && p.current != null
    ensures var held := Put(s.current.value, line);
            Agree(p, slots[p.current := Slot(Current, held)], s.(current := Some(held)))
  {
  }

  /** Agreement looks at the buffers of a state and at nothing else. */
  lemma AgreeSame(p: Pointers, slots: map<FixedBuffer, Slot>, s: State, s': State)
    requires Agree(p, slots, s)
    requires s'.current == s.current && s'.next == s.next && s'.buffers == s.buffers
    requires s'.spare1 == s.spare1 && s'.spare2 == s.spare2 && s'.toWrite == s.toWrite
    ensures Agree(p, slots, s')
  {
  }

  lemma InitialAgrees(a: FixedBuffer, b: FixedBuffer, c: FixedBuffer, d: FixedBuffer)
    requires a != b && a != c && a != d && b != c && b != d && c != d
    ensures Agree(Pointers(a, b, c, d, [], []),
                  map[][a := Slot(Current, [])][b := Slot(Next, [])]
                    [c := Slot(NewBuffer1, [])][d := Slot(NewBuffer2, [])],
                  INITIAL)
  {
  }

  /** What a swap of `buffers_` and `buffersToWrite` does to the owner of a buffer. */
  function Exchanged(owner: Owner): Owner {
    match owner
    case InBuffers(i) => InToWrite(i)
    case InToWrite(i) => InBuffers(i)
    case _ => owner
  }

  function ExchangedSlots(slots: map<FixedBuffer, Slot>): map<FixedBuffer, Slot> {
    map b | b in slots :: slots[b].(owner := Exchanged(slots[b].owner))
  }

  /** `buffersToWrite.swap(buffers_)`. */
  lemma ExchangeAgrees(p: Pointers, slots: map<FixedBuffer, Slot>, s: State)
    requires Agree(p, slots, s)
    ensures Agree(p.(buffers := p.toWrite, toWrite := p.buffers), ExchangedSlots(slots),
                  s.(buffers := s.toWrite, toWrite := s.buffers))
  {
  }

  lemma ExchangeStored(slots: map<FixedBuffer, Slot>, repr: set<object>)
    requires Stored(slots, repr)
    ensures Stored(ExchangedSlots(slots), repr)
  {
  }

  /** `currentBuffer_ = std::move(newBuffer1)`. */
  lemma TakeSpare1Agrees(p: Pointers, slots: map<FixedBuffer, Slot>, s: State)
    requires Agree(p, slots, s) && p.current == null && p.spare1 != null
    ensures p.spare1 in slots && slots[p.spare1].held == s.spare1.value
    ensures Agree(p.(current := p.spare1, spare1 := null),
                  slots[p.spare1 := Slot(Current, s.spare1.value)],
                  s.(current := s.spare1, spare1 := None))
  {
  }

  /** `nextBuffer_ = std::move(newBuffer2)`. */
  lemma TakeSpare2Agrees(p: Pointers, slots: map<FixedBuffer, Slot>, s: State)
    requires Agree(p, slots, s) && p.next == null && p.spare2 != null
    ensures p.spare2 in slots && slots[p.spare2].held == s.spare2.value
    ensures Agree(p.(next := p.spare2, spare2 := null),
                  slots[p.spare2 := Slot(Next, s.spare2.value)],
                  s.(next := s.spare2, spare2 := None))
  {
  }

  /** Moving the back of `buffersToWrite` to a spare and resetting it. */
  lemma RecycleAgrees(p: Pointers, slots: map<FixedBuffer, Slot>, s: State, first: bool)
    requires Agree(p, slots, s) && p.toWrite != [] && (if first then p.spare1 else p.spare2) == null
    ensures var n := |p.toWrite| - 1;
            var b := p.toWrite[n];
            && b in slots && s.toWrite != []
            && var p' := p.(toWrite := p.toWrite[..n]);
            && var s' := s.(toWrite := s.toWrite[..n]);
            && Agree(if first then p'.(spare1 := b) else p'.(spare2 := b),
                     slots[b := Slot(if first then NewBuffer1 else NewBuffer2, [])],
                     if first then s'.(spare1 := Some([])) else s'.(spare2 := Some([])))
  {
  }

  /** Buffers dropped from the end of `buffersToWrite` are owned by nobody. */
  lemma DropAgrees(p: Pointers, slots: map<FixedBuffer, Slot>, s: State, n: nat)
    requires Agree(p, slots, s) && n <= |p.toWrite|
    ensures n <= |s.toWrite|
    ensures Agree(p.(toWrite := p.toWrite[..n]), slots, s.(toWrite := s.toWrite[..n]))
  {
  }

  lemma PointersHeld(p: Pointers, slots: map<FixedBuffer, Slot>, s: State)
    requires Agree(p, slots, s)
    ensures p.current == null <==> s.current.None?
    ensures p.next == null <==> s.next.None?
    ensures p.spare1 == null <==> s.spare1.None?
    ensures p.spare2 == null <==> s.spare2.None?
    ensures |p.toWrite| == |s.toWrite|
  {
  }

  lemma WrittenHeld(p: Pointers, slots: map<FixedBuffer, Slot>, repr: set<object>, s: State, i: nat)
    requires Agree(p, slots, s) && Stored(slots, repr) && i < |p.toWrite|
    ensures |s.toWrite| == |p.toWrite|
    ensures var b := p.toWrite[i]; b.Valid() && b.Contents() == Flat(s.toWrite[i])
  {
  }

  lemma CurrentHeld(p: Pointers, slots: map<FixedBuffer, Slot>, repr: set<object>, s: State)
    requires Agree(p, slots, s) && Stored(slots, repr) && s.current.Some?
    ensures p.current != null && p.current in slots && slots[p.current] == Slot(Current, s.current.value)
    ensures p.current in repr && p.current.data in repr && p.current.Valid()
    ensures p.current.size == LARGE_BUFFER && p.current.cur == |Flat(s.current.value)|
  {
    assert p.current.cur == |p.current.Contents()|;
  }

  lemma NextHeld(p: Pointers, slots: map<FixedBuffer, Slot>, s: State)
    requires Agree(p, slots, s)
    ensures p.current == null <==> s.current.None?
    ensures p.next == null <==> s.next.None?
    ensures p.next != null ==> p.next in slots && slots[p.next] == Slot(Next, s.next.value)
  {
  }

  /** The four buffers the pipeline starts with. */
  method AllocateFour()
    returns (a: FixedBuffer, b: FixedBuffer, c: FixedBuffer, d: FixedBuffer,
             ghost slots: map<FixedBuffer, Slot>, ghost repr: set<object>)
    ensures fresh(repr) && Stored(slots, repr) && Agree(Pointers(a, b, c, d, [], []), slots, INITIAL)
  {
    hide Agree, Stored;
    NothingStored();
    a, slots, repr := Allocate(map[], {}, Current);
    b, slots, repr := Allocate(slots, repr, Next);
    c, slots, repr := Allocate(slots, repr, NewBuffer1);
    d, slots, repr := Allocate(slots, repr, NewBuffer2);
    InitialAgrees(a, b, c, d);
  }

  /** The pipeline with the owning pointers of the original; the locals of `threadFunc`
      are fields, because the front end runs between its steps. */
  class AsyncLogging {
    var currentBuffer: FixedBuffer?
    var nextBuffer: FixedBuffer?
    var buffers: seq<FixedBuffer>
    var newBuffer1: FixedBuffer?
    var newBuffer2: FixedBuffer?
    var buffersToWrite: seq<FixedBuffer>
    var running: bool
    var output: seq<char>
    ghost var slots: map<FixedBuffer, Slot>
    ghost var Repr: set<object>
    ghost var trace: seq<Step>

    ghost function Owners(): Pointers
      reads this
    {
      Pointers(currentBuffer, nextBuffer, newBuffer1, newBuffer2, buffers, buffersToWrite)
    }

    ghost predicate Valid()
      reads this, Repr
    {
      && this !in Repr && Stored(slots, Repr) && Legal(trace)
      && Agree(Owners(), slots, After(trace))
      && running == After(trace).running
      && output == Flat(After(trace).file)
    }

    ghost method Record(step: Step)
      requires Legal(trace) && Enabled(After(trace), step)
      modifies this`trace
      ensures trace == old(trace) + [step] && Legal(trace)
      ensures After(trace) == Apply(After(old(trace)), step)
    {
      LegalPrefix(trace, step);
      trace := trace + [step];
    }

    constructor ()
      ensures Valid() && trace == [] && fresh(Repr)
    {
      hide Legal, After, Agree, Stored;
      LegalEmpty();
      var a, b, c, d, slots4, repr4 := AllocateFour();
      currentBuffer, nextBuffer, newBuffer1, newBuffer2 := a, b, c, d;
      buffers, buffersToWrite, running, output, trace := [], [], true, [], [];
      slots, Repr := slots4, repr4;
    }

    /** `currentBuffer_->append`. */
    method AppendToCurrent(line: Line, ghost s: State)
      requires this !in Repr && Stored(slots, Repr) && Agree(Owners(), slots, s) && s.current.Some?
      modifies this`slots, Repr
      ensures Stored(slots, Repr)
      ensures Agree(Owners(), slots, s.(current := Some(Put(s.current.value, line))))
    {
      CurrentHeld(Owners(), slots, Repr, s);
      PutAgrees(Owners(), slots, s, line);
      hide Agree, Stored;
      AppendStored(currentBuffer, line, slots, Repr);
      slots := slots[currentBuffer := Slot(Current, Put(s.current.value, line))];
    }

    /** The full buffer joins `buffers_`. */
    method PushCurrent(ghost s: State)
      requires this !in Repr && Stored(slots, Repr) && Agree(Owners(), slots, s) && s.current.Some?
      modifies this`currentBuffer, this`buffers, this`slots
      ensures Stored(slots, Repr) && currentBuffer == null
      ensures Agree(Owners(), slots, s.(buffers := s.buffers + [s.current.value], current := None))
    {
      CurrentHeld(Owners(), slots, Repr, s);
      hide Agree, Stored;
      PushAgrees(Owners(), slots, s);
      RelabelStored(slots, Repr, currentBuffer, InBuffers(|buffers|));
      slots := slots[currentBuffer := Slot(InBuffers(|buffers|), s.current.value)];
      buffers := buffers + [currentBuffer];
      currentBuffer := null;
    }

    /** `currentBuffer_ = std::move(nextBuffer_)`. */
    method PromoteNext(ghost s: State)
      requires this !in Repr && Stored(slots, Repr) && Agree(Owners(), slots, s) && s.current.None? && s.next.Some?
      modifies this`currentBuffer, this`nextBuffer, this`slots
      ensures Stored(slots, Repr) && Agree(Owners(), slots, s.(next := None, current := s.next))
    {
      NextHeld(Owners(), slots, s);
      hide Agree, Stored;
      PromoteAgrees(Owners(), slots, s);
      RelabelStored(slots, Repr, nextBuffer, Current);
      slots := slots[nextBuffer := Slot(Current, s.next.value)];
      currentBuffer, nextBuffer := nextBuffer, null;
    }

    /** `currentBuffer_.reset(new Buffer)`. */
    method AllocateCurrent(ghost s: State)
      requires this !in Repr && Stored(slots, Repr) && Agree(Owners(), slots, s) && s.current.None?
      modifies this`currentBuffer, this`slots, this`Repr
      ensures this !in Repr && Stored(slots, Repr) && fresh(Repr - old(Repr)) && old(Repr) <= Repr
      ensures Agree(Owners(), slots, s.(current := Some([])))
    {
      NextHeld(Owners(), slots, s);
      hide Agree, Stored;
      ghost var p, before := Owners(), slots;
      currentBuffer, slots, Repr := Allocate(slots, Repr, Current);
      ResetCurrentAgrees(p, before, s, currentBuffer);
    }

    /** `nextBuffer_` or a new buffer becomes the current one. */
    method RefillCurrent(ghost s: State)
      requires this !in Repr && Stored(slots, Repr) && Agree(Owners(), slots, s) && s.current.None?
      modifies this`currentBuffer, this`nextBuffer, this`slots, this`Repr
      ensures this !in Repr && Stored(slots, Repr) && fresh(Repr - old(Repr)) && old(Repr) <= Repr
      ensures Agree(Owners(), slots, s.(next := None, current := if s.next.Some? then s.next else Some([])))
    {
      NextHeld(Owners(), slots, s);
      hide Agree, Stored;
      if nextBuffer != null {
        PromoteNext(s);
      } else {
        AllocateCurrent(s);
      }
    }

    /** The full buffer is put away and another one takes its place. */
    method SwitchBuffer(ghost s: State)
      requires this !in Repr && Stored(slots, Repr) && Agree(Owners(), slots, s) && s.current.Some?
      modifies this`currentBuffer, this`nextBuffer, this`buffers, this`slots, this`Repr
      ensures this !in Repr && Stored(slots, Repr) && fresh(Repr - old(Repr)) && old(Repr) <= Repr
      ensures Agree(Owners(), slots, Switched(s))
    {
      hide Agree, Stored;
      PushCurrent(s);
      RefillCurrent(s.(buffers := s.buffers + [s.current.value], current := None));
    }

    /** What `append` does to the buffers. */
    method AppendLine(line: Line, ghost s: State)
      requires this !in Repr && Stored(slots, Repr) && Agree(Owners(), slots, s) && s.current.Some?
      modifies this`currentBuffer, this`nextBuffer, this`buffers, this`slots, this`Repr, Repr
      ensures this !in Repr && Stored(slots, Repr) && fresh(Repr - old(Repr)) && old(Repr) <= Repr
      ensures Agree(Owners(), slots, AfterAppend(s, line))
    {
      hide Agree, Stored, Flat;
      CurrentHeld(Owners(), slots, Repr, s);
      if currentBuffer.Avail() > |line| {
        AppendToCurrent(line, s);
        AgreeSame(Owners(), slots, s.(current := Some(Put(s.current.value, line))), AfterAppend(s, line));
      } else {
        SwitchBuffer(s);
        ghost var t := Switched(s);
        AppendToCurrent(line, t);
        AgreeSame(Owners(), slots, t.(current := Some(Put(t.current.value, line))), AfterAppend(s, line));
      }
    }

    /** `append`: one critical section of a front-end thread. */
    method Append(line: Line)
      requires Valid()
      modifies this, Repr
      ensures Valid() && fresh(Repr - old(Repr))
      ensures trace == old(trace) + [Step.Append(line)]
      ensures After(trace) == AfterAppend(After(old(trace)), line)
      ensures unchanged(this`buffersToWrite, this`newBuffer1, this`newBuffer2)
    {
      hide Legal, After, RecycleInv, Agree, Stored, AfterAppend;
      RecyclingIsSafe(trace);
      AppendKeeps(After(trace), line);
      AppendLine(line, After(trace));
      Record(Step.Append(line));
    }

    /** `stop()`, before it joins the thread. */
    method Stop()
      requires Valid()
      modifies this`running, this`trace
      ensures Valid() && trace == old(trace) + [Step.Stop]
      ensures After(trace) == After(old(trace)).(running := false)
    {
      hide Legal, After, Agree, Stored;
      running := false;
      AgreeSame(Owners(), slots, After(trace), After(trace).(running := false));
      Record(Step.Stop);
    }

    /** `currentBuffer_ = std::move(newBuffer1)`. */
    method TakeSpare1(ghost s: State)
      requires this !in Repr && Stored(slots, Repr) && Agree(Owners(), slots, s) && s.current.None? && s.spare1.Some?
      modifies this`currentBuffer, this`newBuffer1, this`slots
      ensures Stored(slots, Repr) && Agree(Owners(), slots, s.(current := s.spare1, spare1 := None))
    {
      PointersHeld(Owners(), slots, s);
      hide Agree, Stored;
      TakeSpare1Agrees(Owners(), slots, s);
      RelabelStored(slots, Repr, newBuffer1, Current);
      slots := slots[newBuffer1 := Slot(Current, s.spare1.value)];
      currentBuffer, newBuffer1 := newBuffer1, null;
    }

    /** `if(!nextBuffer_) nextBuffer_ = std::move(newBuffer2)`. */
    method FillNext(ghost s: State)
      requires this !in Repr && Stored(slots, Repr) && Agree(Owners(), slots, s) && s.spare2.Some?
      modifies this`nextBuffer, this`newBuffer2, this`slots
      ensures Stored(slots, Repr)
      ensures Agree(Owners(), slots, if s.next.Some? then s else s.(next := s.spare2, spare2 := None))
    {
      PointersHeld(Owners(), slots, s);
      hide Agree, Stored;
      if nextBuffer == null {
        TakeSpare2Agrees(Owners(), slots, s);
        RelabelStored(slots, Repr, newBuffer2, Next);
        slots := slots[newBuffer2 := Slot(Next, s.spare2.value)];
        nextBuffer, newBuffer2 := newBuffer2, null;
      }
    }

    /** `buffers_.swap(buffersToWrite)`. */
    method ExchangeVectors(ghost s: State)
      requires this !in Repr && Stored(slots, Repr) && Agree(Owners(), slots, s)
      modifies this`buffers, this`buffersToWrite, this`slots
      ensures Stored(slots, Repr) && Agree(Owners(), slots, s.(buffers := s.toWrite, toWrite := s.buffers))
    {
      hide Agree, Stored;
      ExchangeAgrees(Owners(), slots, s);
      ExchangeStored(slots, Repr);
      slots := ExchangedSlots(slots);
      buffers, buffersToWrite := buffersToWrite, buffers;
    }

    /** What the critical section of `threadFunc` does to the buffers. */
    method SwapPointers(ghost s: State)
      requires this !in Repr && Stored(slots, Repr) && Agree(Owners(), slots, s)
      requires s.current.Some? && s.spare1.Some? && s.spare2.Some?
      modifies this`currentBuffer, this`nextBuffer, this`buffers, this`slots
      modifies this`newBuffer1, this`newBuffer2, this`buffersToWrite
      ensures Stored(slots, Repr) && Agree(Owners(), slots, AfterSwap(s))
    {
      hide Agree, Stored;
      PushCurrent(s);
      ghost var s1 := s.(buffers := s.buffers + [s.current.value], current := None);
      TakeSpare1(s1);
      ghost var s2 := s1.(current := s1.spare1, spare1 := None);
      ExchangeVectors(s2);
      ghost var s3 := s2.(buffers := s2.toWrite, toWrite := s2.buffers);
      FillNext(s3);
      AgreeSame(Owners(), slots, if s3.next.Some? then s3 else s3.(next := s3.spare2, spare2 := None), AfterSwap(s));
    }

    /** The critical section of `threadFunc`: both vectors and the spares change hands. */
    method SwapBuffers()
      requires Valid() && After(trace).pc == Locked
      modifies this
      ensures Valid() && Repr == old(Repr) && trace == old(trace) + [Swap]
      ensures After(trace) == AfterSwap(After(old(trace)))
      ensures var s, t := After(old(trace)), After(trace);
              && t.pc == Writing && t.written == 0 && t.swaps == s.swaps + 1 && t.log == s.log
              && t.file + Concat(t.toWrite) == Accepted(s.log)
    {
      hide Legal, After, Agree, Stored, AfterSwap, Concat, Accepted;
      RecyclingIsSafe(trace);
      SwapKeeps(After(trace));
      hide RecycleInv;
      SwapPointers(After(trace));
      Record(Swap);
      SwappedAll(trace);
    }

    /** One turn of the range-for that writes to the file. */
    method WriteOne(i: nat)
      requires Valid() && Enabled(After(trace), WriteNext) && After(trace).written == i
      modifies this`output, this`trace
      ensures Valid() && trace == old(trace) + [WriteNext]
      ensures After(trace) == Apply(After(old(trace)), WriteNext)
    {
      hide Legal, After, Agree, Stored;
      ghost var s := After(trace);
      PointersHeld(Owners(), slots, s);
      WrittenHeld(Owners(), slots, Repr, s, i);
      FlatAppend(s.file, s.toWrite[i]);
      var buffer := buffersToWrite[i];
      output := output + buffer.data[..buffer.cur];
      AgreeSame(Owners(), slots, s, Apply(s, WriteNext));
      Record(WriteNext);
    }

    /** Other threads run: any number of calls of `append` with any lines, and of `stop`. */
    method Interfere()
      requires Valid()
      modifies this, Repr
      ensures Valid() && fresh(Repr - old(Repr)) && old(trace) <= trace
      ensures BackEndStoodStill(After(old(trace)), After(trace))
      ensures unchanged(this`buffersToWrite, this`newBuffer1, this`newBuffer2)
    {
      hide Legal, After, Agree, Stored, RecycleInv;
      var n: nat := *;
      while 0 < n
        invariant Valid() && fresh(Repr - old(Repr)) && old(trace) <= trace
        invariant BackEndStoodStill(After(old(trace)), After(trace))
        invariant unchanged(this`buffersToWrite, this`newBuffer1, this`newBuffer2)
      {
        RecyclingIsSafe(trace);
        var stop, line := *, *;
        if stop {
          Stop();
        } else {
          Append(line);
        }
        n := n - 1;
      }
    }

    /** `spare = std::move(buffersToWrite.back()); pop_back(); spare->reset()`. */
    method TakeBack(ghost s: State, first: bool) returns (b: FixedBuffer)
      requires this !in Repr && Stored(slots, Repr) && Agree(Owners(), slots, s)
      requires buffersToWrite != [] && (if first then newBuffer1 else newBuffer2) == null
      modifies this`buffersToWrite, this`slots, Repr
      ensures Stored(slots, Repr)
      ensures s.toWrite != []
      ensures var s' := s.(toWrite := s.toWrite[..|s.toWrite| - 1]);
              Agree(if first then Owners().(spare1 := b) else Owners().(spare2 := b), slots,
                    if first then s'.(spare1 := Some([])) else s'.(spare2 := Some([])))
    {
      hide Agree, Flat;
      ghost var owner := if first then NewBuffer1 else NewBuffer2;
      ghost var p, n := Owners(), |buffersToWrite| - 1;
      PointersHeld(p, slots, s);
      RecycleAgrees(p, slots, s, first);
      b := buffersToWrite[|buffersToWrite| - 1];
      assert b in Repr;
      ResetStored(b, owner, slots, Repr);
      hide Stored;
      buffersToWrite := buffersToWrite[..|buffersToWrite| - 1];
      slots := slots[b := Slot(owner, [])];
      assert Owners() == p.(toWrite := p.toWrite[..n]);
    }

    method ResizeWritten()
      requires Valid() && Enabled(After(trace), Resize)
      modifies this`buffersToWrite, this`trace
      ensures Valid() && trace == old(trace) + [Resize]
      ensures After(trace) == Apply(After(old(trace)), Resize)
    {
      hide Legal, After, Agree, Stored;
      ghost var s := After(trace);
      PointersHeld(Owners(), slots, s);
      if |buffersToWrite| > 2 {
        DropAgrees(Owners(), slots, s, 2);
        buffersToWrite := buffersToWrite[..2];
      }
      AgreeSame(Owners(), slots, s.(toWrite := Apply(s, Resize).toWrite), Apply(s, Resize));
      Record(Resize);
    }

    method RecycleFirst()
      requires Valid() && Enabled(After(trace), Recycle1)
      modifies this`buffersToWrite, this`newBuffer1, this`slots, this`trace, Repr
      ensures Valid() && trace == old(trace) + [Recycle1]
      ensures After(trace) == Apply(After(old(trace)), Recycle1)
      ensures After(trace).pc == Spare2 && newBuffer1 != null && Repr == old(Repr)
    {
      hide Legal, After, Agree, Stored;
      RecyclingIsSafe(trace);
      ghost var s := After(trace);
      hide RecycleInv;
      PointersHeld(Owners(), slots, s);
      if newBuffer1 == null {
        newBuffer1 := TakeBack(s, true);
      }
      ghost var s' := Apply(s, Recycle1);
      AgreeSame(Owners(), slots, s.(toWrite := s'.toWrite, spare1 := s'.spare1), s');
      Record(Recycle1);
    }

    method RecycleSecond()
      requires Valid() && Enabled(After(trace), Recycle2)
      modifies this`buffersToWrite, this`newBuffer2, this`slots, this`trace, Repr
      ensures Valid() && trace == old(trace) + [Recycle2]
      ensures After(trace) == Apply(After(old(trace)), Recycle2)
      ensures After(trace).pc == Clearing && newBuffer2 != null && Repr == old(Repr)
      ensures unchanged(this`newBuffer1)
    {
      hide Legal, After, Agree, Stored;
      RecyclingIsSafe(trace);
      ghost var s := After(trace);
      hide RecycleInv;
      PointersHeld(Owners(), slots, s);
      if newBuffer2 == null {
        newBuffer2 := TakeBack(s, false);
      }
      ghost var s' := Apply(s, Recycle2);
      AgreeSame(Owners(), slots, s.(toWrite := s'.toWrite, spare2 := s'.spare2), s');
      Record(Recycle2);
    }

    method ClearWritten()
      requires Valid() && Enabled(After(trace), Clear)
      modifies this`buffersToWrite, this`trace
      ensures Valid() && trace == old(trace) + [Clear]
      ensures After(trace) == Apply(After(old(trace)), Clear)
    {
      hide Legal, After, Agree, Stored;
      ghost var s := After(trace);
      DropAgrees(Owners(), slots, s, 0);
      buffersToWrite := [];
      AgreeSame(Owners(), slots, s.(toWrite := []), Apply(s, Clear));
      Record(Clear);
    }

    /** Back to two spares: drop all but two written buffers, recycle what is needed and
        release the rest. */
    method RecycleWritten()
      requires Valid() && Enabled(After(trace), Resize)
      modifies this, Repr
      ensures Valid() && Repr == old(Repr) && trace == old(trace) + [Resize, Recycle1, Recycle2, Clear]
      ensures After(trace).pc == Top && newBuffer1 != null && newBuffer2 != null
      ensures var s, t := After(old(trace)), After(trace);
              t.file == s.file && t.swaps == s.swaps && t.log == s.log
    {
      hide Legal, After, Valid;
      ResizeWritten();
      RecycleFirst();
      RecycleSecond();
      ClearWritten();
    }

    /** The range-for that writes everything swapped out, while the front end goes on. */
    method WriteBuffers()
      requires Valid() && After(trace).pc == Writing && After(trace).written == 0
      modifies this, Repr
      ensures Valid() && fresh(Repr - old(Repr)) && old(trace) <= trace
      ensures Enabled(After(trace), Resize)
      ensures var s, t := After(old(trace)), After(trace);
              t.file == s.file + Concat(s.toWrite) && t.swaps == s.swaps && s.log <= t.log
    {
      hide Legal, After, Agree, Stored, RecycleInv, Concat;
      var i := 0;
      ghost var start := After(trace);
      PointersHeld(Owners(), slots, start);
      ConcatNone(start.toWrite, start.file);
      while i < |buffersToWrite|
        invariant Valid() && fresh(Repr - old(Repr)) && old(trace) <= trace
        invariant var s := After(trace); s.pc == Writing && s.written == i <= |s.toWrite| == |buffersToWrite|
        invariant var t := After(trace);
                  && t.toWrite == start.toWrite && t.swaps == start.swaps && start.log <= t.log
                  && t.file == start.file + Concat(start.toWrite[..i])
        decreases |buffersToWrite| - i
      {
        ConcatNext(start.toWrite, i, start.file);
        WriteOne(i);
        i := i + 1;
        Interfere();
      }
      assert start.toWrite[..i] == start.toWrite;
    }

    lemma LegalSoFar()
      requires Valid()
      ensures Legal(trace)
    {
    }

    /** Past the test of `running_`, to the lock. */
    method StartRound()
      requires Valid() && Enabled(After(trace), EnterRound)
      modifies this`trace
      ensures Valid() && old(trace) <= trace && After(trace) == After(old(trace)).(pc := Locked)
    {
      hide Legal, After, Agree, Stored;
      AgreeSame(Owners(), slots, After(trace), Apply(After(trace), EnterRound));
      Record(EnterRound);
    }

    /** The body of the loop in `threadFunc`, after the test of `running_`: every line that
        can be stored and was appended before the round is in the file when it ends. */
    method Round()
      requires Valid() && Enabled(After(trace), EnterRound)
      modifies this, Repr
      ensures Valid() && fresh(Repr - old(Repr)) && old(trace) <= trace
      ensures After(trace).pc == Top && After(trace).swaps == After(old(trace)).swaps + 1
      ensures Accepted(After(old(trace)).log) <= After(trace).file
      ensures After(old(trace)).log <= After(trace).log
    {
      hide Legal, After, Valid, Accepted, Concat;
      LegalSoFar();
      ghost var before := After(trace).log;
      StartRound();
      Interfere();
      LegalSoFar();
      ghost var taken := After(trace).log;
      SwapBuffers();
      Interfere();
      WriteBuffers();
      RecycleWritten();
      Interfere();
      AcceptedPrefix(before, taken);
    }

    /** Out of the loop, when told to stop. */
    method Leave()
      requires Valid() && After(trace).pc == Top
      modifies this`trace
      ensures Valid() && old(trace) <= trace
      ensures After(trace) == if running then After(old(trace)) else After(old(trace)).(pc := Exited)
    {
      hide Legal, After, Agree, Stored;
      if !running {
        AgreeSame(Owners(), slots, After(trace), Apply(After(trace), Exit));
        Record(Exit);
      }
    }

    /** `threadFunc`, for as long as `rounds` iterations, all of which it makes unless it is
        told to stop. Whatever the front end does meanwhile, the file holds a prefix of the
        lines that can be stored, in lock order, and all that were appended before the last
        round. */
    method ThreadFunc(rounds: nat)
      requires Valid() && After(trace).pc == Top
      modifies this, Repr
      ensures Valid() && fresh(Repr - old(Repr)) && old(trace) <= trace
      ensures var s := After(trace);
              output == Flat(s.file) && s.file <= Accepted(s.log)
      ensures 0 < rounds && old(running) ==> Accepted(After(old(trace)).log) <= After(trace).file
      ensures var s := After(trace);
              if running then s.pc == Top && s.swaps == After(old(trace)).swaps + rounds else s.pc == Exited
    {
      hide Legal, After, Agree, Stored, RecycleInv, Accepted;
      var left := rounds;
      while running && 0 < left
        invariant Valid() && fresh(Repr - old(Repr)) && old(trace) <= trace && 0 <= left <= rounds
        invariant After(trace).pc == Top && After(trace).swaps == After(old(trace)).swaps + rounds - left
        invariant After(old(trace)).log <= After(trace).log
        invariant left < rounds ==> Accepted(After(old(trace)).log) <= After(trace).file
        invariant left == rounds ==> running == old(running)
      {
        AcceptedPrefix(After(old(trace)).log, After(trace).log);
        Round();
        left := left - 1;
      }
      Leave();
      LogConserved(trace);
    }
  }
}
