/** The network buffer: a byte queue kept in a compacting array. The readable bytes lie
    between two indices; space is made by sliding them down or by growing the array. */
module ByteBuffers {

  const CHEAP_PREPEND: nat := 8
  const INITIAL_SIZE: nat := 1024
  const EXTRA_SIZE: nat := 65536

  /** The position of the first `c`, or the length when there is none. */
  function IndexOf(s: seq<char>, c: char): (i: nat)
    ensures i <= |s|
    ensures i < |s| ==> s[i] == c
    ensures forall k :: 0 <= k < i ==> s[k] != c
  {
    if s == [] || s[0] == c then 0 else 1 + IndexOf(s[1..], c)
  }

  /** There is only one such position. */
  lemma IndexOfUnique(s: seq<char>, c: char, i: nat)
    requires i <= |s| && (i < |s| ==> s[i] == c) && forall k :: 0 <= k < i ==> s[k] != c
    ensures IndexOf(s, c) == i
  {
  }

  lemma SplitAt(queue: seq<char>, data: seq<char>, n: nat)
    requires n <= |data|
    ensures queue + data[..n] + data[n..] == queue + data
    ensures n == |data| ==> data[..n] == data
  {
    assert data[..n] + data[n..] == data;
  }

  class Buffer {
    var buffer: array<char>
    var readerIndex: nat
    var writerIndex: nat

    ghost predicate Valid()
      reads this
    {
      CHEAP_PREPEND <= readerIndex <= writerIndex <= buffer.Length
    }

    /** The queue this array holds. */
    ghost function Readable(): seq<char>
      reads this, buffer
      requires Valid()
    {
      buffer[readerIndex..writerIndex]
    }

    constructor (initialSize: nat)
      ensures Valid() && fresh(buffer) && Readable() == [] && WritableBytes() == initialSize
    {
      buffer := new char[CHEAP_PREPEND + initialSize];
      readerIndex, writerIndex := CHEAP_PREPEND, CHEAP_PREPEND;
    }

    function ReadableBytes(): (n: nat)
      reads this
      requires Valid()
      ensures readerIndex + n == writerIndex
    {
      writerIndex - readerIndex
    }

    function WritableBytes(): (n: nat)
      reads this
      requires Valid()
      ensures writerIndex + n == buffer.Length
    {
      buffer.Length - writerIndex
    }

    /** The `len` bytes behind `peek()`. */
    method Peek(len: nat) returns (bytes: seq<char>)
      requires Valid() && len <= ReadableBytes()
      ensures bytes == Readable()[..len]
    {
      bytes := buffer[readerIndex..readerIndex + len];
    }

    method RetrieveAll()
      requires Valid()
      modifies this`readerIndex, this`writerIndex
      ensures Valid() && Readable() == []
      ensures WritableBytes() == buffer.Length - CHEAP_PREPEND
    {
      readerIndex, writerIndex := CHEAP_PREPEND, CHEAP_PREPEND;
    }

    /** Drops `len` bytes from the front, or all there are. */
    method Retrieve(len: nat)
      requires Valid()
      modifies this`readerIndex, this`writerIndex
      ensures Valid()
      ensures Readable() == if len < |old(Readable())| then old(Readable())[len..] else []
      ensures Readable() == [] ==> WritableBytes() == buffer.Length - CHEAP_PREPEND
    {
      if len < ReadableBytes() {
        readerIndex := readerIndex + len;
      } else {
        RetrieveAll();
      }
    }

    /** `retrieveUntil` with the distance from `peek()`: out of bounds it aborts. */
    method RetrieveUntil(end: int) returns (aborted: bool)
      requires Valid()
      modifies this`readerIndex, this`writerIndex
      ensures Valid()
      ensures aborted <==> !(0 <= end <= |old(Readable())|)
      ensures Readable() == if aborted then old(Readable()) else old(Readable())[end..]
    {
      aborted := end < 0 || end > ReadableBytes();
      if !aborted {
        Retrieve(end);
      }
    }

    /** `retrieveAsString`: asking for more than there is aborts. */
    method RetrieveAsString(len: nat) returns (aborted: bool, result: seq<char>)
      requires Valid()
      modifies this`readerIndex, this`writerIndex
      ensures Valid()
      ensures aborted <==> len > |old(Readable())|
      ensures !aborted ==> result + Readable() == old(Readable()) && |result| == len
      ensures aborted ==> Readable() == old(Readable())
    {
      aborted, result := len > ReadableBytes(), [];
      if !aborted {
        result := buffer[readerIndex..readerIndex + len];
        Retrieve(len);
      }
    }

    /** `buffer_.resize`: the array grows by what `len` bytes need behind the writer. */
    method Grow(len: nat)
      requires Valid()
      modifies this`buffer
      ensures Valid() && fresh(buffer) && Readable() == old(Readable())
      ensures buffer.Length == writerIndex + len
    {
      var larger := new char[writerIndex + len];
      forall i | 0 <= i < writerIndex {
        larger[i] := buffer[i];
      }
      assert larger[readerIndex..writerIndex] == buffer[readerIndex..writerIndex];
      buffer := larger;
    }

    /** The readable bytes slide down to the front of the same array. */
    method SlideDown()
      requires Valid()
      modifies this`readerIndex, this`writerIndex, buffer
      ensures Valid() && Readable() == old(Readable())
      ensures readerIndex == CHEAP_PREPEND
    {
      var readable, i := ReadableBytes(), 0;
      ghost var queue := Readable();
      while i < readable
        invariant 0 <= i <= readable && Valid() && unchanged(this)
        invariant forall k :: 0 <= k < i ==> buffer[CHEAP_PREPEND + k] == queue[k]
        invariant forall k :: i <= k < readable ==> buffer[readerIndex + k] == queue[k]
      {
        buffer[CHEAP_PREPEND + i] := buffer[readerIndex + i];
        i := i + 1;
      }
      readerIndex := CHEAP_PREPEND;
      writerIndex := readerIndex + readable;
    }

    /** Room for `len` more bytes, the readable bytes untouched: a larger array is taken
        exactly when they and the readable ones do not fit into this one. */
    method MakeSpace(len: nat)
      requires Valid()
      modifies this`buffer, this`readerIndex, this`writerIndex, buffer
      ensures Valid() && (buffer == old(buffer) || fresh(buffer))
      ensures len <= WritableBytes() && Readable() == old(Readable())
      ensures buffer == old(buffer) <==> CHEAP_PREPEND + |old(Readable())| + len <= old(buffer.Length)
      ensures buffer != old(buffer) ==> buffer.Length == old(writerIndex) + len
    {
      if WritableBytes() + readerIndex < len + CHEAP_PREPEND {
        Grow(len);
      } else {
        SlideDown();
      }
    }

    method EnsureWriteableBytes(len: nat)
      requires Valid()
      modifies this`buffer, this`readerIndex, this`writerIndex, buffer
      ensures Valid() && (buffer == old(buffer) || fresh(buffer))
      ensures len <= WritableBytes() && Readable() == old(Readable())
      ensures buffer == old(buffer) <==> CHEAP_PREPEND + |old(Readable())| + len <= old(buffer.Length)
      ensures old(WritableBytes()) >= len ==> unchanged(this) && unchanged(buffer)
    {
      if WritableBytes() < len {
        MakeSpace(len);
      }
    }

    /** Bytes put at `beginWrite()`, the writer index not yet moved over them. */
    method CopyIn(data: seq<char>)
      requires Valid() && |data| <= WritableBytes()
      modifies buffer
      ensures Readable() == old(Readable())
      ensures buffer[readerIndex..writerIndex + |data|] == old(Readable()) + data
    {
      forall i | 0 <= i < |data| {
        buffer[writerIndex + i] := data[i];
      }
      assert buffer[writerIndex..writerIndex + |data|] == data;
      assert buffer[readerIndex..writerIndex] == old(buffer[readerIndex..writerIndex]);
    }

    method Append(data: seq<char>)
      requires Valid()
      modifies this, buffer
      ensures Valid() && (buffer == old(buffer) || fresh(buffer))
      ensures Readable() == old(Readable()) + data
      ensures buffer == old(buffer) <==> CHEAP_PREPEND + |old(Readable())| + |data| <= old(buffer.Length)
    {
      EnsureWriteableBytes(|data|);
      CopyIn(data);
      writerIndex := writerIndex + |data|;
    }

    /** The distance from `peek()` of the first carriage return, which is all the search
        looks for. */
    method FindCRLF() returns (found: bool, crlf: nat)
      requires Valid()
      ensures crlf == IndexOf(Readable(), '\r') && (found <==> crlf < |Readable()|)
    {
      crlf := 0;
      while crlf < ReadableBytes() && buffer[readerIndex + crlf] != '\r'
        invariant 0 <= crlf <= ReadableBytes()
        invariant forall k :: 0 <= k < crlf ==> Readable()[k] != '\r'
      {
        crlf := crlf + 1;
      }
      IndexOfUnique(Readable(), '\r', crlf);
      found := crlf < ReadableBytes();
    }

    /** `readFd` when the kernel has `data` for it, or an error. The first of two vectors is
        the free end of the array, the second, used when that is small, an array on the
        stack; what lands there is appended. */
    method ReadFd(failed: bool, data: seq<char>) returns (n: int)
      requires Valid()
      requires |data| <= if WritableBytes() < EXTRA_SIZE then WritableBytes() + EXTRA_SIZE else WritableBytes()
      modifies this, buffer
      ensures Valid() && (buffer == old(buffer) || fresh(buffer))
      ensures Readable() == if failed then old(Readable()) else old(Readable()) + data
      ensures n == if failed then -1 else |data|
    {
      if failed {
        return -1;
      }
      var writable := WritableBytes();
      var direct := if |data| <= writable then |data| else writable;
      SplitAt(Readable(), data, direct);
      CopyIn(data[..direct]);
      n := |data|;
      writerIndex := if n <= writable then writerIndex + n else buffer.Length;
      hide Readable;
      if n > writable {
        Append(data[writable..]);
      }
    }
  }

  /** The calls of the queue. `Read` carries what the kernel has for the descriptor. */
  datatype Call =
    | Push(data: seq<char>)
    | Read(failed: bool, data: seq<char>)
    | Drop(len: nat)
    | DropUntil(end: int)
    | Take(len: nat)
    | DropAll
    | Reserve(room: nat)

  /** What a call does to the readable bytes. */
  function AfterCall(queue: seq<char>, call: Call): seq<char> {
    match call
    case Push(data) => queue + data
    case Read(failed, data) => if failed then queue else queue + data
    case Drop(len) => if len < |queue| then queue[len..] else []
    case DropUntil(end) => if 0 <= end <= |queue| then queue[end..] else queue
    case Take(len) => if len <= |queue| then queue[len..] else queue
    case DropAll => []
    case Reserve(_) => queue
  }

  /** The call aborts the process. */
  predicate Aborts(queue: seq<char>, call: Call) {
    match call
    case DropUntil(end) => !(0 <= end <= |queue|)
    case Take(len) => len > |queue|
    case _ => false
  }

  function Queued(queue: seq<char>, calls: seq<Call>): seq<char> {
    if calls == [] then queue
    else AfterCall(Queued(queue, calls[..|calls| - 1]), calls[|calls| - 1])
  }

  /** `done` is the call as it was carried out: a read may leave the end of what the kernel
      has for the next one, but not of the first 64 kilobytes. */
  predicate CarriedOut(call: Call, done: Call) {
    if call.Read? then
      && done.Read? && done.failed == call.failed && done.data <= call.data
      && (|done.data| < |call.data| ==> EXTRA_SIZE <= |done.data|)
    else done == call
  }

  /** One call, on the array. */
  method PerformOne(b: Buffer, call: Call) returns (aborted: bool, done: Call)
    requires b.Valid()
    modifies b, b.buffer
    ensures b.Valid() && (b.buffer == old(b.buffer) || fresh(b.buffer))
    ensures aborted <==> Aborts(old(b.Readable()), call)
    ensures !aborted ==> CarriedOut(call, done) && b.Readable() == AfterCall(old(b.Readable()), done)
    ensures aborted ==> b.Readable() == old(b.Readable())
  {
    aborted, done := false, call;
    match call {
      case Push(data) => b.Append(data);
      case Read(failed, data) =>
        var writable := b.WritableBytes();
        var room := if writable < EXTRA_SIZE then writable + EXTRA_SIZE else writable;
        var taken := if |data| <= room then data else data[..room];
        var n := b.ReadFd(failed, taken);
        done := Read(failed, taken);
      case Drop(len) => b.Retrieve(len);
      case DropUntil(end) => aborted := b.RetrieveUntil(end);
      case Take(len) =>
        var result;
        aborted, result := b.RetrieveAsString(len);
        assert !aborted ==> result + b.Readable() == old(b.Readable());
      case DropAll => b.RetrieveAll();
      case Reserve(room) => b.EnsureWriteableBytes(room);
    }
  }

  /** Any sequence of calls refines the byte queue, whatever the array does, up to the first
      call that aborts. */
  method Perform(b: Buffer, calls: seq<Call>) returns (aborted: bool, done: seq<Call>)
    requires b.Valid()
    modifies b, b.buffer
    ensures b.Valid() && (b.buffer == old(b.buffer) || fresh(b.buffer))
    ensures b.Readable() == Queued(old(b.Readable()), done)
    ensures |done| <= |calls| && forall i :: 0 <= i < |done| ==> CarriedOut(calls[i], done[i])
    ensures aborted <==> |done| < |calls|
    ensures aborted ==> Aborts(Queued(old(b.Readable()), done), calls[|done|])
  {
    aborted, done := false, [];
    for i := 0 to |calls|
      invariant b.Valid() && (b.buffer == old(b.buffer) || fresh(b.buffer))
      invariant b.Readable() == Queued(old(b.Readable()), done)
      invariant |done| == i && forall k :: 0 <= k < i ==> CarriedOut(calls[k], done[k])
      invariant !aborted
    {
      var one;
      aborted, one := PerformOne(b, calls[i]);
      if aborted {
        return;
      }
      assert (done + [one])[..i] == done;
      done := done + [one];
    }
  }

  /** What a call takes in. */
  function TakesIn(call: Call): seq<char> {
    match call
    case Push(data) => data
    case Read(failed, data) => if failed then [] else data
    case _ => []
  }

  /** What a call takes out of the queue. */
  function TakesOut(queue: seq<char>, call: Call): seq<char> {
    match call
    case Drop(len) => if len < |queue| then queue[..len] else queue
    case DropUntil(end) => if 0 <= end <= |queue| then queue[..end] else []
    case Take(len) => if len <= |queue| then queue[..len] else []
    case DropAll => queue
    case _ => []
  }

  function AllIn(calls: seq<Call>): seq<char> {
    if calls == [] then [] else AllIn(calls[..|calls| - 1]) + TakesIn(calls[|calls| - 1])
  }

  function AllOut(queue: seq<char>, calls: seq<Call>): seq<char> {
    if calls == [] then []
    else
      var before := calls[..|calls| - 1];
      AllOut(queue, before) + TakesOut(Queued(queue, before), calls[|calls| - 1])
  }

  lemma CallConserves(queue: seq<char>, call: Call)
    ensures TakesOut(queue, call) + AfterCall(queue, call) == queue + TakesIn(call)
  {
  }

  /** No byte is lost, invented or moved past another: over any sequence of calls, what was
      there and what came in, in order, is what went out, in order, and what is left. */
  lemma {:induction false} StreamConserved(queue: seq<char>, calls: seq<Call>)
    ensures queue + AllIn(calls) == AllOut(queue, calls) + Queued(queue, calls)
  {
    if calls != [] {
      var before, last := calls[..|calls| - 1], calls[|calls| - 1];
      StreamConserved(queue, before);
      CallConserves(Queued(queue, before), last);
      Regroup(queue, AllIn(before), AllOut(queue, before), Queued(queue, before), TakesIn(last),
              TakesOut(Queued(queue, before), last), AfterCall(Queued(queue, before), last));
    }
  }

  lemma Regroup(queue: seq<char>, given: seq<char>, gone: seq<char>, left: seq<char>,
                more: seq<char>, out: seq<char>, rest: seq<char>)
    requires queue + given == gone + left && out + rest == left + more
    ensures queue + (given + more) == gone + out + rest
  {
    assert queue + (given + more) == queue + given + more;
    assert gone + out + rest == gone + (out + rest);
    assert gone + (left + more) == gone + left + more;
  }
}
