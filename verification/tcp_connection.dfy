/** The output path of a connection: what is written at once, what is kept for later, and
    when the write side is shut down. */
module TcpConnections {
  import opened ByteBuffers

  type Bytes = seq<char>

  datatype Phase = Connecting | Connected | Disconnecting | Disconnected

  /** What a write to the socket returns: how much it took, or an error. */
  datatype WriteResult = Wrote(n: nat) | WouldBlock | Reset | OtherError

  datatype State = State(
    phase: Phase,              // state_
    writing: bool,             // the channel watches for writability
    output: Bytes,             // outputBuffer_
    shutdowns: nat,            // calls of shutdownInLoop on their way to the loop
    wire: Bytes,               // history: what the kernel took
    fin: bool,                 // history: the write side has been shut down
    accepted: seq<Bytes>       // history: the messages taken, whole
  )

  const INITIAL := State(Connecting, false, [], 0, [], false, [])

  datatype Step =
    | Establish
    | Send(data: Bytes, result: WriteResult)
    | Writable(taken: WriteResult)
    | Shutdown
    | ShutdownInLoop
    | Close
    | Destroy

  /** A write takes no more than it is given, and after the write side is shut down it
      fails unless there is nothing to write. */
  predicate Possible(s: State, size: nat, result: WriteResult) {
    result.Wrote? ==> result.n <= size && (s.fin ==> size == 0)
  }

  predicate Enabled(s: State, step: Step) {
    match step
    case Establish => s.phase == Connecting
    case Send(data, result) => Possible(s, |data|, result)
    case Writable(result) => Possible(s, |s.output|, result)
    case ShutdownInLoop => 0 < s.shutdowns
    case _ => true
  }

  /** The guard of the direct write in `sendInLoop`. */
  predicate Idle(s: State) {
    !s.writing && s.output == []
  }

  /** `sendInLoop`: only an idle connection takes a message; with output pending, or when
      the write fails, nothing remains to be queued and the message is gone. */
  function AfterSend(s: State, data: Bytes, result: WriteResult): State
    requires Possible(s, |data|, result)
  {
    if s.phase == Disconnected || !Idle(s) || !result.Wrote? then s
    else
      var t := s.(wire := s.wire + data[..result.n], accepted := s.accepted + [data]);
      if result.n < |data| then t.(output := data[result.n..], writing := true) else t
  }

  lemma SendRefused(s: State, data: Bytes, result: WriteResult)
    requires Possible(s, |data|, result)
    ensures s.phase == Disconnected || !Idle(s) || !result.Wrote? ==> AfterSend(s, data, result) == s
  {
  }

  lemma SendWhole(s: State, data: Bytes, result: WriteResult)
    requires Possible(s, |data|, result) && s.phase != Disconnected && Idle(s) && result.Wrote? && result.n == |data|
    ensures AfterSend(s, data, result) == s.(wire := s.wire + data, accepted := s.accepted + [data])
  {
    assert data[..result.n] == data;
  }

  lemma SendPart(s: State, data: Bytes, result: WriteResult)
    requires Possible(s, |data|, result) && s.phase != Disconnected && Idle(s) && result.Wrote? && result.n < |data|
    ensures AfterSend(s, data, result)
         == s.(wire := s.wire + data[..result.n], accepted := s.accepted + [data],
               output := s.output + data[result.n..], writing := true)
  {
    assert s.output + data[result.n..] == data[result.n..];
  }

  function AfterShutdownInLoop(s: State): State {
    if s.writing then s else s.(fin := true)
  }

  /** `handleWrite`. The test of the state at its end is for `Disconnected`. */
  function AfterWritable(s: State, result: WriteResult): State
    requires Possible(s, |s.output|, result)
  {
    if !s.writing || !result.Wrote? || result.n == 0 then s
    else
      var t := s.(wire := s.wire + s.output[..result.n], output := s.output[result.n..]);
      if t.output != [] then t
      else
        var u := t.(writing := false);
        if u.phase == Disconnected then AfterShutdownInLoop(u) else u
  }

  lemma DrainNothing(s: State, result: WriteResult)
    requires Possible(s, |s.output|, result)
    ensures !s.writing || !result.Wrote? || result.n == 0 ==> AfterWritable(s, result) == s
  {
  }

  lemma DrainPart(s: State, result: WriteResult)
    requires s.writing && result.Wrote? && 0 < result.n < |s.output| && Possible(s, |s.output|, result)
    ensures AfterWritable(s, result)
         == s.(wire := s.wire + s.output[..result.n], output := s.output[result.n..])
  {
  }

  lemma DrainWhole(s: State, result: WriteResult)
    requires s.writing && result.Wrote? && 0 < result.n == |s.output| && Possible(s, |s.output|, result)
    ensures AfterWritable(s, result)
         == s.(wire := s.wire + s.output[..result.n], output := [], writing := false,
               fin := s.fin || s.phase == Disconnected)
  {
    assert s.output[result.n..] == [];
  }

  function Apply(s: State, step: Step): State
    requires Enabled(s, step)
  {
    match step
    case Establish => s.(phase := Connected)
    case Send(data, result) => AfterSend(s, data, result)
    case Writable(result) => AfterWritable(s, result)
    case Shutdown =>
      if s.phase == Connected then s.(phase := Disconnecting, shutdowns := s.shutdowns + 1) else s
    case ShutdownInLoop => AfterShutdownInLoop(s).(shutdowns := s.shutdowns - 1)
    case Close => s.(phase := Disconnected, writing := false)
    case Destroy => if s.phase == Connected then s.(phase := Disconnected, writing := false) else s
  }

  ghost predicate Legal(steps: seq<Step>)
    decreases |steps|, 0
  {
    steps != [] ==> Legal(Front(steps)) && Enabled(After(Front(steps)), Last(steps))
  }

  ghost function After(steps: seq<Step>): State
    requires Legal(steps)
    decreases |steps|, 1
  {
    if steps == [] then INITIAL else Apply(After(Front(steps)), Last(steps))
  }

  function Front(steps: seq<Step>): seq<Step>
    requires steps != []
  {
    steps[..|steps| - 1]
  }

  function Last(steps: seq<Step>): Step
    requires steps != []
  {
    steps[|steps| - 1]
  }

  lemma LegalEmpty()
    ensures Legal([]) && After([]) == INITIAL
  {
  }

  lemma LegalPrefix(steps: seq<Step>, step: Step)
    requires Legal(steps) && Enabled(After(steps), step)
    ensures Legal(steps + [step]) && After(steps + [step]) == Apply(After(steps), step)
  {
    assert Front(steps + [step]) == steps;
  }

  // ---- One stream ----

  function Stream(messages: seq<Bytes>): Bytes {
    if messages == [] then [] else Stream(messages[..|messages| - 1]) + messages[|messages| - 1]
  }

  lemma StreamPush(messages: seq<Bytes>, data: Bytes)
    ensures Stream(messages + [data]) == Stream(messages) + data
  {
    assert (messages + [data])[..|messages|] == messages;
  }

  ghost predicate StreamInv(s: State) {
    && s.wire + s.output == Stream(s.accepted)
    && (s.phase != Disconnected ==> (s.writing <==> s.output != []))
    && (s.phase == Disconnected ==> !s.writing)
    && (s.fin ==> !s.writing)
    && (s.phase == Connecting ==> s.shutdowns == 0)
  }

  lemma SendStep(s: State, data: Bytes, result: WriteResult)
    requires StreamInv(s) && Possible(s, |data|, result)
    ensures StreamInv(AfterSend(s, data, result))
  {
    StreamPush(s.accepted, data);
    hide Stream;
    if result.Wrote? {
      assert data == data[..result.n] + data[result.n..];
      assert s.wire + data[..result.n] + data[result.n..] == s.wire + data;
      assert s.output == [] ==> s.wire + s.output == s.wire;
    }
  }

  lemma WritableStep(s: State, result: WriteResult)
    requires StreamInv(s) && Possible(s, |s.output|, result)
    ensures StreamInv(AfterWritable(s, result))
  {
    hide Stream;
    if result.Wrote? {
      assert s.wire + s.output[..result.n] + s.output[result.n..] == s.wire + s.output;
    }
  }

  lemma StreamStep(s: State, step: Step)
    requires StreamInv(s) && Enabled(s, step)
    ensures StreamInv(Apply(s, step))
  {
    hide Stream;
    match step
    case Send(data, result) => SendStep(s, data, result);
    case Writable(result) => WritableStep(s, result);
    case _ =>
  }

  /** In every state of every run the wire followed by the output buffer is the accepted
      messages one after the other, and while the connection is not closed the channel
      watches for writability exactly when something is left to write. */
  lemma {:induction false} OneStream(steps: seq<Step>)
    requires Legal(steps)
    ensures StreamInv(After(steps))
    ensures var s := After(steps);
            && s.wire + s.output == Stream(s.accepted)
            && (s.phase != Disconnected ==> (s.writing <==> s.output != []))
  {
    if steps != [] {
      OneStream(Front(steps));
      StreamStep(After(Front(steps)), Last(steps));
    }
  }

  /** A message is accepted exactly when the connection is open, nothing is pending and the
      write does not fail; what the kernel takes is on the wire at once and the rest is
      pending. Any other message changes nothing. */
  lemma AcceptedIff(steps: seq<Step>, data: Bytes, result: WriteResult)
    requires Legal(steps) && Enabled(After(steps), Send(data, result))
    ensures var s, s' := After(steps), Apply(After(steps), Send(data, result));
            && (s'.accepted == s.accepted + [data] <==> s.phase != Disconnected && s.output == [] && result.Wrote?)
            && (s'.accepted != s.accepted + [data] ==> s' == s)
            && (s'.accepted == s.accepted + [data] ==>
                  s'.wire == s.wire + data[..result.n] && s'.output == data[result.n..] && s'.phase == s.phase)
  {
    OneStream(steps);
    var s := After(steps);
    assert |s.accepted + [data]| != |s.accepted|;
  }

  /** When the write side of a connection that is not closed is shut down, every accepted
      byte is already on the wire. */
  lemma FinAfterEverything(steps: seq<Step>)
    requires Legal(steps) && Enabled(After(steps), ShutdownInLoop)
    ensures var s, s' := After(steps), Apply(After(steps), ShutdownInLoop);
            && (s'.fin <==> s.fin || !s.writing)
            && (s.phase != Disconnected && !s.fin && s'.fin ==> s.wire == Stream(s.accepted))
  {
    OneStream(steps);
    var s := After(steps);
    assert s.output == [] ==> s.wire + s.output == s.wire;
  }

  /** A shut write side stays shut. That the wire stays as it is, too, is what the kernel
      promises: `Possible` lets no write of data succeed any more. */
  lemma {:induction false} NothingAfterFin(steps: seq<Step>, more: seq<Step>)
    requires Legal(steps) && Legal(steps + more) && After(steps).fin
    ensures After(steps + more).fin && After(steps + more).wire == After(steps).wire
  {
    if more == [] {
      assert steps + more == steps;
    } else {
      assert Front(steps + more) == steps + Front(more);
      NothingAfterFin(steps, Front(more));
      OneStream(Front(steps + more));
    }
  }

  // ---- Closing ----

  /** Once disconnected a connection stays so, unwatched; nothing is accepted any more and
      nothing reaches the wire. */
  lemma {:induction false} DisconnectedForever(steps: seq<Step>, more: seq<Step>)
    requires Legal(steps) && Legal(steps + more) && After(steps).phase == Disconnected
    ensures var s, t := After(steps), After(steps + more);
            && t.phase == Disconnected && !t.writing
            && t.accepted == s.accepted && t.wire == s.wire && t.output == s.output
  {
    if more == [] {
      assert steps + more == steps;
      OneStream(steps);
    } else {
      assert Front(steps + more) == steps + Front(more);
      DisconnectedForever(steps, Front(more));
      OneStream(steps + more);
    }
  }

  /** Whatever follows, a close ends everything: from then on nothing is accepted, and what
      was pending stays where it is. */
  lemma ClosedForever(steps: seq<Step>, more: seq<Step>)
    requires Legal(steps) && Legal(steps + [Close]) && Legal(steps + [Close] + more)
    ensures var s, t := After(steps), After(steps + [Close] + more);
            && t.phase == Disconnected && !t.writing
            && t.accepted == s.accepted && t.wire == s.wire && t.output == s.output
  {
    LegalPrefix(steps, Close);
    hide Stream, StreamInv;
    DisconnectedForever(steps + [Close], more);
  }

  /** `connectDestroyed` does the same to a connected one, and nothing to any other: one
      that is being shut down stays as it is. */
  lemma DestroyedForeverIff(steps: seq<Step>, more: seq<Step>)
    requires Legal(steps) && Legal(steps + [Destroy]) && Legal(steps + [Destroy] + more)
    ensures var s, d, t := After(steps), After(steps + [Destroy]), After(steps + [Destroy] + more);
            && (d.phase == Disconnected <==> s.phase == Connected || s.phase == Disconnected)
            && (d != s <==> s.phase == Connected)
            && (s.phase == Connected ==>
                  && t.phase == Disconnected && !t.writing
                  && t.accepted == s.accepted && t.wire == s.wire && t.output == s.output)
  {
    LegalPrefix(steps, Destroy);
    hide Stream, StreamInv;
    if After(steps).phase == Connected {
      DisconnectedForever(steps + [Destroy], more);
    }
  }

  // ---- A shutdown that finds output pending ----

  /** The test at the end of `handleWrite` never succeeds: a closed connection is not
      watched for writability. */
  lemma NoShutdownFromHandleWrite(steps: seq<Step>, result: WriteResult)
    requires Legal(steps) && Enabled(After(steps), Writable(result))
    ensures Apply(After(steps), Writable(result)).fin == After(steps).fin
  {
    OneStream(steps);
  }

  /** So once `shutdownInLoop` has run and found output pending, the write side is never
      shut down, not even when the output drains. */
  lemma {:induction false} PendingShutdownIsLost(steps: seq<Step>, more: seq<Step>)
    requires Legal(steps) && Legal(steps + more)
    requires var s := After(steps);
             !s.fin && s.shutdowns == 0 && (s.phase == Disconnecting || s.phase == Disconnected)
    ensures var s := After(steps + more);
            !s.fin && s.shutdowns == 0 && (s.phase == Disconnecting || s.phase == Disconnected)
  {
    if more == [] {
      assert steps + more == steps;
    } else {
      assert Front(steps + more) == steps + Front(more);
      PendingShutdownIsLost(steps, Front(more));
      OneStream(Front(steps + more));
    }
  }

  /** At most one shutdown is on its way to the loop, and the write side is not shut down
      before it arrives. */
  predicate ShutdownInv(s: State) {
    && s.shutdowns <= 1
    && (s.shutdowns == 1 ==> !s.fin)
    && (s.shutdowns == 1 || s.fin ==> s.phase == Disconnecting || s.phase == Disconnected)
  }

  lemma ShutdownStep(s: State, step: Step)
    requires ShutdownInv(s) && Enabled(s, step) && (s.phase == Disconnected ==> !s.writing)
    ensures ShutdownInv(Apply(s, step))
  {
    hide Idle;
  }

  lemma {:induction false} OneShutdown(steps: seq<Step>)
    requires Legal(steps)
    ensures ShutdownInv(After(steps))
  {
    if steps != [] {
      OneShutdown(Front(steps));
      OneStream(Front(steps));
      ShutdownStep(After(Front(steps)), Last(steps));
      hide Stream, Apply, Enabled, ShutdownInv;
    }
  }

  /** When the loop runs a shutdown it takes effect exactly when nothing is pending or the
      connection has been closed meanwhile: whatever happens later, then and only then is
      the write side shut down. */
  lemma ShutdownEffectiveIff(steps: seq<Step>, more: seq<Step>)
    requires Legal(steps) && Legal(steps + [ShutdownInLoop]) && Legal(steps + [ShutdownInLoop] + more)
    ensures var s := After(steps);
            After(steps + [ShutdownInLoop] + more).fin <==> s.phase == Disconnected || s.output == []
  {
    OneStream(steps);
    OneShutdown(steps);
    assert Front(steps + [ShutdownInLoop]) == steps;
    LegalPrefix(steps, ShutdownInLoop);
    hide Stream;
    if After(steps).writing {
      PendingShutdownIsLost(steps + [ShutdownInLoop], more);
    } else {
      NothingAfterFin(steps + [ShutdownInLoop], more);
    }
  }

  // ---- Runs that go wrong ----

  lemma Opened()
    ensures Legal([Establish]) && After([Establish]) == INITIAL.(phase := Connected)
  {
    LegalEmpty();
    LegalPrefix([], Establish);
    assert [] + [Establish] == [Establish];
  }

  /** The kernel takes a part of the first message and has room again before the output is
      drained: the second message is gone all the same. */
  lemma MessageIsDropped(first: Bytes, second: Bytes, n: nat, room: nat)
    requires n < |first| && room <= |second|
    ensures var steps := [Establish, Send(first, Wrote(n)), Send(second, Wrote(room))];
            && Legal(steps) && After(steps).phase == Connected
            && After(steps).accepted == [first] && After(steps).output == first[n..] != []
  {
    Opened();
    hide Legal, After;
    LegalPrefix([Establish], Send(first, Wrote(n)));
    assert [Establish] + [Send(first, Wrote(n))] == [Establish, Send(first, Wrote(n))];
    LegalPrefix([Establish, Send(first, Wrote(n))], Send(second, Wrote(room)));
    assert [Establish, Send(first, Wrote(n))] + [Send(second, Wrote(room))]
        == [Establish, Send(first, Wrote(n)), Send(second, Wrote(room))];
  }

  /** A message of which the kernel takes a part, then a shutdown: whatever happens after
      the loop has run it, even when the output drains, the write side is not shut down. */
  lemma ShutdownIsLost(message: Bytes, n: nat, more: seq<Step>)
    requires n < |message|
    requires Legal([Establish, Send(message, Wrote(n)), Step.Shutdown, Step.ShutdownInLoop] + more)
    ensures var steps := [Establish, Send(message, Wrote(n)), Step.Shutdown, Step.ShutdownInLoop];
            && Legal(steps) && After(steps).output == message[n..] != [] && !After(steps).fin
            && !After(steps + more).fin
  {
    Opened();
    var two := [Establish, Send(message, Wrote(n))];
    var three := two + [Step.Shutdown];
    var four := three + [Step.ShutdownInLoop];
    hide Legal, After;
    LegalPrefix([Establish], Send(message, Wrote(n)));
    assert [Establish] + [Send(message, Wrote(n))] == two;
    LegalPrefix(two, Step.Shutdown);
    LegalPrefix(three, Step.ShutdownInLoop);
    assert four == [Establish, Send(message, Wrote(n)), Step.Shutdown, Step.ShutdownInLoop];
    PendingShutdownIsLost(four, more);
  }

  /** The peer closes before the loop comes to run the shutdown: closing unwatches the
      channel, so that the write side is shut down in front of pending output. */
  lemma ClosedShutdownCutsOutput(message: Bytes, n: nat)
    requires n < |message|
    ensures var steps := [Establish, Send(message, Wrote(n)), Step.Shutdown, Close, Step.ShutdownInLoop];
            && Legal(steps) && After(steps).fin
            && After(steps).accepted == [message] && After(steps).wire == message[..n]
            && After(steps).output == message[n..] != []
  {
    Opened();
    var two := [Establish, Send(message, Wrote(n))];
    var three := two + [Step.Shutdown];
    var four := three + [Close];
    hide Legal, After;
    LegalPrefix([Establish], Send(message, Wrote(n)));
    assert [Establish] + [Send(message, Wrote(n))] == two;
    LegalPrefix(two, Step.Shutdown);
    LegalPrefix(three, Close);
    LegalPrefix(four, Step.ShutdownInLoop);
    assert four + [Step.ShutdownInLoop]
        == [Establish, Send(message, Wrote(n)), Step.Shutdown, Close, Step.ShutdownInLoop];
  }

  // ---- The code ----

  /** The sockets of this process as the kernel keeps them: what was taken, and whether the
      write side is shut down. */
  class Socket {
    var taken: Bytes
    var shut: bool

    constructor ()
      ensures taken == [] && !shut
    {
      taken, shut := [], false;
    }

    /** `write`, of which the kernel decides how much it takes. */
    method Write(data: Bytes, result: WriteResult) returns (n: int)
      requires result.Wrote? ==> result.n <= |data| && (shut ==> data == [])
      modifies this
      ensures shut == old(shut)
      ensures n == if result.Wrote? then result.n else -1
      ensures taken == old(taken) + if result.Wrote? then data[..result.n] else []
    {
      n := -1;
      if result.Wrote? {
        taken := taken + data[..result.n];
        n := result.n;
      }
    }
  }

  class TcpConnection {
    var state: Phase
    var writing: bool
    const outputBuffer: Buffer
    const socket: Socket
    ghost var trace: seq<Step>

    /** The fields are what the history `s` ends in. */
    ghost predicate Shows(s: State)
      reads this, outputBuffer, outputBuffer.buffer, socket
    {
      && outputBuffer.Valid()
      && state == s.phase && writing == s.writing && outputBuffer.Readable() == s.output
      && socket.taken == s.wire && socket.shut == s.fin
    }

    ghost predicate Valid()
      reads this, outputBuffer, outputBuffer.buffer, socket
    {
      Legal(trace) && Shows(After(trace))
    }

    constructor ()
      ensures Valid() && trace == []
      ensures fresh(outputBuffer) && fresh(outputBuffer.buffer) && fresh(socket)
    {
      state, writing, trace := Connecting, false, [];
      outputBuffer := new Buffer(INITIAL_SIZE);
      socket := new Socket();
      new;
      LegalEmpty();
    }

    ghost method Record(step: Step)
      requires Legal(trace) && Enabled(After(trace), step)
      modifies this`trace
      ensures trace == old(trace) + [step] && Legal(trace)
      ensures After(trace) == Apply(After(old(trace)), step)
    {
      LegalPrefix(trace, step);
      trace := trace + [step];
    }

    method ConnectEstablished()
      requires Valid() && state == Connecting
      modifies this
      ensures Valid() && trace == old(trace) + [Establish]
      ensures state == Connected && writing == old(writing)
    {
      hide Legal, After;
      state := Connected;
      Record(Establish);
    }

    /** The direct write at the head of `sendInLoop`. Unless it succeeds nothing is left to
        do: `remaining` stays at 0. */
    method WriteNow(data: Bytes, result: WriteResult) returns (nwrote: nat, remaining: nat, faultError: bool)
      requires Valid() && Possible(After(trace), |data|, result)
      modifies socket
      ensures socket.shut == old(socket.shut)
      ensures faultError <==> Idle(After(trace)) && result.Reset?
      ensures Idle(After(trace)) && result.Wrote? ==>
        && nwrote == result.n && remaining == |data| - result.n
        && socket.taken == old(socket.taken) + data[..result.n]
      ensures !Idle(After(trace)) || !result.Wrote? ==>
        nwrote == 0 && remaining == 0 && socket.taken == old(socket.taken)
    {
      hide Legal, After;
      nwrote, remaining, faultError := 0, 0, false;
      if !writing && outputBuffer.ReadableBytes() == 0 {
        var n := socket.Write(data, result);
        if 0 <= n {
          nwrote := n;
          remaining := |data| - nwrote;
        } else if !result.WouldBlock? && result.Reset? {
          faultError := true;
        }
      }
    }

    /** The tail of `sendInLoop`: the rest is queued and the channel watched. */
    method QueueRest(rest: Bytes)
      requires outputBuffer.Valid()
      modifies this`writing, outputBuffer, outputBuffer.buffer
      ensures outputBuffer.Valid() && outputBuffer.Readable() == old(outputBuffer.Readable()) + rest
      ensures outputBuffer.buffer == old(outputBuffer.buffer) || fresh(outputBuffer.buffer)
      ensures writing
    {
      outputBuffer.Append(rest);
      if !writing {
        writing := true;
      }
    }

    /** `sendInLoop`, the socket answering `result` if it is written to. */
    method SendInLoop(data: Bytes, result: WriteResult)
      requires Valid() && Enabled(After(trace), Send(data, result))
      modifies this, outputBuffer, outputBuffer.buffer, socket
      ensures Valid() && trace == old(trace) + [Send(data, result)]
      ensures outputBuffer.buffer == old(outputBuffer.buffer) || fresh(outputBuffer.buffer)
    {
      hide Legal, After;
      ghost var s := After(trace);
      hide AfterSend, Idle;
      SendRefused(s, data, result);
      if state != Disconnected {
        var nwrote, remaining, faultError := WriteNow(data, result);
        if Idle(s) && result.Wrote? {
          if result.n == |data| {
            SendWhole(s, data, result);
            assert data[..result.n] == data;
          } else {
            SendPart(s, data, result);
          }
        }
        if !faultError && remaining > 0 {
          QueueRest(data[nwrote..]);
        }
      }
      Record(Send(data, result));
    }

    /** `shutdownInLoop`, when the loop comes to run it. */
    method ShutdownInLoop()
      requires Valid() && Enabled(After(trace), Step.ShutdownInLoop)
      modifies this, socket
      ensures Valid() && trace == old(trace) + [Step.ShutdownInLoop]
      ensures state == old(state) && writing == old(writing)
      ensures socket.taken == old(socket.taken) && socket.shut == (old(socket.shut) || !writing)
    {
      hide Legal, After;
      CloseWriteSide();
      Record(Step.ShutdownInLoop);
    }

    /** The body of `shutdownInLoop`. */
    method CloseWriteSide()
      modifies socket
      ensures socket.taken == old(socket.taken) && socket.shut == (old(socket.shut) || !writing)
    {
      if !writing {
        socket.shut := true;
      }
    }

    /** `shutdown`, with the loop running `shutdownInLoop` at once or later. */
    method Shutdown(inLoopThread: bool)
      requires Valid()
      modifies this, socket
      ensures Valid()
      ensures trace == old(trace) + [Step.Shutdown]
                       + if old(state) == Connected && inLoopThread then [Step.ShutdownInLoop] else []
      ensures state == if old(state) == Connected then Disconnecting else old(state)
      ensures socket.shut <==> old(socket.shut) || (old(state) == Connected && inLoopThread && !writing)
      ensures writing == old(writing) && socket.taken == old(socket.taken)
    {
      hide Legal, After;
      var connected := state == Connected;
      if connected {
        state := Disconnecting;
      }
      Record(Step.Shutdown);
      if connected && inLoopThread {
        ShutdownInLoop();
      }
    }

    /** `handleWrite`, the socket answering `result` if it is written to. */
    method HandleWrite(result: WriteResult)
      requires Valid() && Enabled(After(trace), Writable(result))
      modifies this, outputBuffer, socket
      ensures Valid() && trace == old(trace) + [Writable(result)]
    {
      hide Legal, After;
      ghost var s := After(trace);
      hide AfterWritable;
      DrainNothing(s, result);
      if writing {
        var pending := outputBuffer.Peek(outputBuffer.ReadableBytes());
        assert pending == s.output;
        if result.Wrote? && 0 < result.n {
          if result.n < |s.output| {
            DrainPart(s, result);
          } else {
            DrainWhole(s, result);
          }
        }
        var n := socket.Write(pending, result);
        if 0 < n {
          outputBuffer.Retrieve(n);
          if outputBuffer.ReadableBytes() == 0 {
            writing := false;
            if state == Disconnected {
              CloseWriteSide();
            }
          }
        }
      }
      Record(Writable(result));
    }

    method HandleClose()
      requires Valid()
      modifies this
      ensures Valid() && trace == old(trace) + [Close]
      ensures state == Disconnected && !writing
    {
      hide Legal, After;
      state := Disconnected;
      writing := false;
      Record(Close);
    }

    method ConnectDestroyed()
      requires Valid()
      modifies this
      ensures Valid() && trace == old(trace) + [Destroy]
      ensures if old(state) == Connected then state == Disconnected && !writing
              else state == old(state) && writing == old(writing)
    {
      hide Legal, After;
      if state == Connected {
        state := Disconnected;
        writing := false;
      }
      Record(Destroy);
    }
  }
}
