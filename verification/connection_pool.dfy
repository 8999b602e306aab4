/** A pool of database connections: clients lease and return them, one thread makes new ones
    when none is idle and another one destroys those that have been idle for too long. Every
    section under the lock is one step, and the steps of all threads interleave freely. */
module ConnectionPools {

  const NANOS_PER_MILLI := 1_000_000

  /** A connection, named by its identity, and the time it was last refreshed. */
  datatype Conn = Conn(id: nat, aliveTime: nat)

  type Int32 = x: int | -0x8000_0000 <= x < 0x8000_0000

  datatype Config = Config(minSize: Int32, maxSize: Int32, maxIdleTime: Int32) {
    /** How many connections the constructor makes. */
    function Initial(): nat {
      if minSize < 0 then 0 else minSize
    }
  }

  datatype State = State(
    queue: seq<Conn>,          // connectionQueue_
    currentSize: int,          // currentSize_
    leased: multiset<nat>,     // connections handed out and not yet returned
    destroyed: multiset<nat>,  // history: connections deleted
    created: nat,              // history: connections ever made; they are numbered
    now: nat                   // the latest clock reading, in nanoseconds
  )

  datatype Step =
    | Produce(at: nat)
    | Lease
    | Return(id: nat, at: nat)
    | Recycle(at: nat)
    | StopRecycling(at: nat)

  /** A signed number compared with a size is converted to an unsigned one of 64 bits. */
  function SizeT(n: int): nat {
    n % 0x1_0000_0000_0000_0000
  }

  /** `getAliveTime`, in whole milliseconds. */
  function AliveTime(c: Conn, now: nat): int
    requires c.aliveTime <= now
  {
    (now - c.aliveTime) / NANOS_PER_MILLI
  }

  predicate Expired(c: Conn, now: nat, cfg: Config) {
    c.aliveTime <= now && AliveTime(c, now) >= cfg.maxIdleTime
  }

  /** A connection is expired exactly when as many milliseconds have passed since its last
      refresh as it may be idle. */
  lemma ExpiredIff(c: Conn, now: nat, cfg: Config)
    requires c.aliveTime <= now
    ensures Expired(c, now, cfg) <==> now - c.aliveTime >= cfg.maxIdleTime * 1_000_000
  {
    var d := now - c.aliveTime;
    assert d == d / 1_000_000 * 1_000_000 + d % 1_000_000;
  }

  function Live(s: State): nat {
    |s.queue| + |s.leased|
  }

  /** What the constructor leaves: it calls `addConnection`, which counts the connection,
      and counts it again. */
  function Opened(times: seq<nat>): State {
    State(seq(|times|, i requires 0 <= i < |times| => Conn(i, times[i])), 2 * |times|, multiset{}, multiset{},
          |times|, if times == [] then 0 else times[|times| - 1])
  }

  predicate Enabled(s: State, step: Step, cfg: Config) {
    match step
    case Produce(at) => s.queue == [] && s.now <= at
    case Lease => s.queue != []
    case Return(id, at) => id in s.leased && s.now <= at
    case Recycle(at) => s.now <= at && |s.queue| > SizeT(cfg.minSize) && Expired(s.queue[0], at, cfg)
    case StopRecycling(at) => s.now <= at
  }

  function Apply(s: State, step: Step, cfg: Config): State
    requires Enabled(s, step, cfg)
  {
    match step
    case Produce(at) =>
      if s.currentSize < cfg.maxSize
      then s.(queue := s.queue + [Conn(s.created, at)], created := s.created + 1,
              currentSize := s.currentSize + 2, now := at)
      else s.(now := at)
    case Lease =>
      s.(queue := s.queue[1..], leased := s.leased + multiset{s.queue[0].id})
    case Return(id, at) =>
      s.(leased := s.leased - multiset{id}, queue := s.queue + [Conn(id, at)], now := at)
    case Recycle(at) =>
      s.(queue := s.queue[1..], destroyed := s.destroyed + multiset{s.queue[0].id},
         currentSize := s.currentSize - 1, now := at)
    case StopRecycling(at) => s.(now := at)
  }

  ghost predicate Legal(start: State, steps: seq<Step>, cfg: Config)
    decreases |steps|, 0
  {
    steps != [] ==>
      Legal(start, Front(steps), cfg) && Enabled(After(start, Front(steps), cfg), Last(steps), cfg)
  }

  ghost function After(start: State, steps: seq<Step>, cfg: Config): State
    requires Legal(start, steps, cfg)
    decreases |steps|, 1
  {
    if steps == [] then start else Apply(After(start, Front(steps), cfg), Last(steps), cfg)
  }

  function Front(steps: seq<Step>): seq<Step>
    requires steps != []
  {
    steps[..|steps| - 1]
  }

  function Last(steps: seq<Step>): Step
    requires steps != []
  {
    steps[|steps| - 1]
  }

  lemma LegalEmpty(start: State, cfg: Config)
    ensures Legal(start, [], cfg) && After(start, [], cfg) == start
  {
  }

  lemma LegalPrefix(start: State, steps: seq<Step>, step: Step, cfg: Config)
    requires Legal(start, steps, cfg) && Enabled(After(start, steps, cfg), step, cfg)
    ensures Legal(start, steps + [step], cfg)
    ensures After(start, steps + [step], cfg) == Apply(After(start, steps, cfg), step, cfg)
  {
    assert Front(steps + [step]) == steps;
  }

  // ---- Every connection is in one place ----

  /** How often a connection is in the queue. */
  function Occurs(queue: seq<Conn>, id: nat): nat {
    if queue == [] then 0 else (if queue[0].id == id then 1 else 0) + Occurs(queue[1..], id)
  }

  /** In how many places a connection is: idle, leased or destroyed. */
  function Places(s: State, id: nat): nat {
    Occurs(s.queue, id) + s.leased[id] + s.destroyed[id]
  }

  predicate Sorted(queue: seq<Conn>, now: nat) {
    && (forall i, j :: 0 <= i < j < |queue| ==> queue[i].aliveTime <= queue[j].aliveTime)
    && (forall i :: 0 <= i < |queue| ==> queue[i].aliveTime <= now)
  }

  ghost predicate EachInOnePlace(s: State) {
    forall id: nat :: Places(s, id) == if id < s.created then 1 else 0
  }

  ghost predicate PoolInv(s: State) {
    && EachInOnePlace(s)
    && |s.queue| + |s.leased| + |s.destroyed| == s.created
    && Sorted(s.queue, s.now)
    && s.currentSize == Live(s) + s.created
  }

  predicate Ascending(times: seq<nat>) {
    forall i, j :: 0 <= i < j < |times| ==> times[i] <= times[j]
  }

  lemma {:induction false} OccursPush(queue: seq<Conn>, c: Conn, id: nat)
    ensures Occurs(queue + [c], id) == Occurs(queue, id) + if c.id == id then 1 else 0
  {
    if queue != [] {
      OccursPush(queue[1..], c, id);
      assert (queue + [c])[1..] == queue[1..] + [c];
    }
  }

  lemma OccursPop(queue: seq<Conn>, id: nat)
    requires queue != []
    ensures Occurs(queue, id) == Occurs(queue[1..], id) + if queue[0].id == id then 1 else 0
  {
  }

  lemma {:induction false} OpenedOnce(times: seq<nat>, id: nat)
    ensures Occurs(Opened(times).queue, id) == if id < |times| then 1 else 0
  {
    if times != [] {
      var front := times[..|times| - 1];
      OpenedOnce(front, id);
      var c := Conn(|front|, times[|front|]);
      assert Opened(times).queue == Opened(front).queue + [c];
      OccursPush(Opened(front).queue, c, id);
    }
  }

  lemma OpenedInv(times: seq<nat>)
    requires Ascending(times)
    ensures PoolInv(Opened(times))
  {
    hide Occurs;
    forall id: nat
      ensures Places(Opened(times), id) == if id < |times| then 1 else 0
    {
      OpenedOnce(times, id);
    }
  }

  /** A step moves connections about; only the producer adds a place, for a new one. */
  lemma PlacesStep(s: State, step: Step, cfg: Config, id: nat)
    requires Enabled(s, step, cfg)
    ensures var t := Apply(s, step, cfg);
            Places(t, id) == Places(s, id) + if t.created != s.created && id == s.created then 1 else 0
  {
    hide Expired;
    if s.queue != [] {
      OccursPop(s.queue, id);
    }
    hide Occurs;
    match step
    case Produce(at) => OccursPush(s.queue, Conn(s.created, at), id);
    case Return(back, at) => OccursPush(s.queue, Conn(back, at), id);
    case _ =>
  }

  lemma SortedStep(s: State, step: Step, cfg: Config)
    requires Sorted(s.queue, s.now) && Enabled(s, step, cfg)
    ensures var t := Apply(s, step, cfg);
            Sorted(t.queue, t.now) && s.now <= t.now
  {
  }

  lemma LeasedStep(s: State, step: Step, cfg: Config)
    requires Enabled(s, step, cfg)
    ensures |Apply(s, step, cfg).leased| == |s.leased| + if step.Lease? then 1 else if step.Return? then -1 else 0
  {
    hide Expired;
    if step.Return? {
      assert s.leased == s.leased - multiset{step.id} + multiset{step.id};
    }
  }

  /** The size kept moves with the live connections and those ever made together. */
  lemma SizeStep(s: State, step: Step, cfg: Config)
    requires Enabled(s, step, cfg)
    ensures var t := Apply(s, step, cfg);
            && t.currentSize - Live(t) - t.created == s.currentSize - Live(s) - s.created
            && Live(t) + |t.destroyed| - t.created == Live(s) + |s.destroyed| - s.created
  {
    hide Expired;
    if step.Return? {
      assert s.leased == s.leased - multiset{step.id} + multiset{step.id};
    }
  }

  lemma InvStep(s: State, step: Step, cfg: Config)
    requires PoolInv(s) && Enabled(s, step, cfg)
    ensures PoolInv(Apply(s, step, cfg))
  {
    SortedStep(s, step, cfg);
    SizeStep(s, step, cfg);
    hide Places, Sorted, Expired;
    forall id: nat {
      PlacesStep(s, step, cfg, id);
    }
  }

  /** In every state of every run each connection ever made is idle, leased or destroyed,
      exactly one of them and once; the queue is in the order of the last refresh; and the
      size the pool keeps is the live connections plus all those ever made. */
  lemma {:induction false} EachConnectionOnce(times: seq<nat>, steps: seq<Step>, cfg: Config)
    requires Ascending(times) && Legal(Opened(times), steps, cfg)
    ensures PoolInv(After(Opened(times), steps, cfg))
  {
    OpenedInv(times);
    if steps != [] {
      EachConnectionOnce(times, Front(steps), cfg);
      InvStep(After(Opened(times), Front(steps), cfg), Last(steps), cfg);
    }
  }

  /** Connections come into the queue at its end, with the time of the step: new ones,
      under the next number, and returned ones. They leave it at its front. */
  lemma QueueStep(s: State, step: Step, cfg: Config)
    requires Enabled(s, step, cfg)
    ensures var t := Apply(s, step, cfg);
            match step
            case Produce(at) =>
              t.queue == s.queue + if t.created != s.created then [Conn(s.created, at)] else []
            case Return(id, at) => t.queue == s.queue + [Conn(id, at)] && t.leased[id] + 1 == s.leased[id]
            case Lease => s.queue == [s.queue[0]] + t.queue && t.leased[s.queue[0].id] == s.leased[s.queue[0].id] + 1
            case Recycle(_) => s.queue == [s.queue[0]] + t.queue && t.destroyed[s.queue[0].id] > 0
            case StopRecycling(_) => t.queue == s.queue
  {
    hide Expired;
  }

  /** A negative `minSize`, converted to a size, keeps the recycler from ever destroying
      anything: the queue is never that long. */
  lemma NegativeNeverRecycles(s: State, at: nat, cfg: Config)
    requires cfg.minSize < 0 && |s.queue| <= 0x8000_0000_0000_0000
    ensures !Enabled(s, Recycle(at), cfg)
  {
  }

  // ---- Ageing ----

  /** The first connection of the queue is young exactly when all are, so stopping at it
      misses none. */
  lemma FirstYoungAllYoung(times: seq<nat>, steps: seq<Step>, cfg: Config, at: nat)
    requires Ascending(times) && Legal(Opened(times), steps, cfg)
    requires var s := After(Opened(times), steps, cfg); s.queue != [] && s.now <= at
    ensures var queue := After(Opened(times), steps, cfg).queue;
            !Expired(queue[0], at, cfg) <==> NoneExpired(queue, at, cfg)
  {
    EachConnectionOnce(times, steps, cfg);
    YoungFront(After(Opened(times), steps, cfg).queue, at, cfg);
  }

  predicate NoneExpired(queue: seq<Conn>, at: nat, cfg: Config) {
    forall i :: 0 <= i < |queue| ==> !Expired(queue[i], at, cfg)
  }

  lemma YoungFront(queue: seq<Conn>, at: nat, cfg: Config)
    requires queue != [] && Sorted(queue, at)
    ensures !Expired(queue[0], at, cfg) <==> NoneExpired(queue, at, cfg)
  {
    if !Expired(queue[0], at, cfg) {
      forall i | 0 <= i < |queue|
        ensures !Expired(queue[i], at, cfg)
      {
        assert queue[0].aliveTime <= queue[i].aliveTime;
        assert AliveTime(queue[i], at) <= AliveTime(queue[0], at);
      }
    }
  }

  // ---- Sizes ----

  /** The producer makes a connection exactly when the live ones and all those ever made
      are together fewer than `maxSize`. */
  lemma ProducesIff(times: seq<nat>, steps: seq<Step>, cfg: Config, at: nat)
    requires Ascending(times) && Legal(Opened(times), steps, cfg)
    requires Enabled(After(Opened(times), steps, cfg), Produce(at), cfg)
    ensures var s := After(Opened(times), steps, cfg);
            Live(Apply(s, Produce(at), cfg)) == Live(s) + if Live(s) + s.created < cfg.maxSize then 1 else 0
  {
    EachConnectionOnce(times, steps, cfg);
  }

  /** What a run cannot leave: the pool has never made more connections than `maxSize`
      allows at once, apart from the first `minSize`; there are never more than that alive,
      nor fewer than `minSize`; and the size kept never under-counts. */
  ghost predicate SizesInv(s: State, cfg: Config) {
    && cfg.Initial() <= Live(s) <= s.created <= Max(cfg.Initial(), cfg.maxSize)
    && Live(s) <= s.currentSize
  }

  function Max(a: int, b: int): int {
    if a < b then b else a
  }

  lemma {:induction false} SizesBounded(times: seq<nat>, steps: seq<Step>, cfg: Config)
    requires Ascending(times) && |times| == cfg.Initial() && Legal(Opened(times), steps, cfg)
    ensures SizesInv(After(Opened(times), steps, cfg), cfg)
  {
    if steps != [] {
      SizesBounded(times, Front(steps), cfg);
      EachConnectionOnce(times, Front(steps), cfg);
      SizesStep(After(Opened(times), Front(steps), cfg), Last(steps), cfg);
    }
  }

  lemma SizesStep(s: State, step: Step, cfg: Config)
    requires PoolInv(s) && SizesInv(s, cfg) && Enabled(s, step, cfg)
    ensures SizesInv(Apply(s, step, cfg), cfg)
  {
    SizeStep(s, step, cfg);
    LeasedStep(s, step, cfg);
    hide EachInOnePlace, Sorted, Expired;
  }

  /** With `minSize <= maxSize` there are never more than `maxSize` connections alive. */
  lemma NeverTooMany(times: seq<nat>, steps: seq<Step>, cfg: Config)
    requires Ascending(times) && |times| == cfg.minSize <= cfg.maxSize
    requires Legal(Opened(times), steps, cfg)
    ensures Live(After(Opened(times), steps, cfg)) <= cfg.maxSize
  {
    SizesBounded(times, steps, cfg);
  }

  // ---- The double count ----

  /** Counting every connection twice, a pool whose `maxSize` is not above twice its
      `minSize` never grows, however many clients wait. */
  lemma {:induction false} NeverGrows(times: seq<nat>, steps: seq<Step>, cfg: Config)
    requires Ascending(times) && |times| == cfg.Initial() && cfg.maxSize <= 2 * |times|
    requires Legal(Opened(times), steps, cfg)
    ensures After(Opened(times), steps, cfg).created == |times|
  {
    if steps != [] {
      NeverGrows(times, Front(steps), cfg);
      SizesBounded(times, Front(steps), cfg);
      EachConnectionOnce(times, Front(steps), cfg);
    }
  }

  /** `k` leases in a row. */
  function Leases(k: nat): (steps: seq<Step>)
    ensures |steps| == k
  {
    if k == 0 then [] else Leases(k - 1) + [Lease]
  }

  lemma {:induction false} LeaseAll(times: seq<nat>, cfg: Config, k: nat)
    requires k <= |times|
    ensures Legal(Opened(times), Leases(k), cfg)
    ensures var s := After(Opened(times), Leases(k), cfg);
            && s.queue == Opened(times).queue[k..] && s.created == |times|
            && s.currentSize == 2 * |times| && s.now == Opened(times).now
  {
    if k == 0 {
      LegalEmpty(Opened(times), cfg);
    } else {
      LeaseAll(times, cfg, k - 1);
      LegalPrefix(Opened(times), Leases(k - 1), Lease, cfg);
    }
  }

  /** Some run makes the pool larger than it was opened. */
  ghost predicate CanGrow(times: seq<nat>, cfg: Config) {
    exists steps :: Legal(Opened(times), steps, cfg) && After(Opened(times), steps, cfg).created > |times|
  }

  lemma CanGrowIff(times: seq<nat>, cfg: Config)
    requires Ascending(times) && |times| == cfg.Initial()
    ensures CanGrow(times, cfg) <==> 2 * |times| < cfg.maxSize
  {
    if 2 * |times| < cfg.maxSize {
      var k, at := |times|, Opened(times).now;
      LeaseAll(times, cfg, k);
      LegalPrefix(Opened(times), Leases(k), Produce(at), cfg);
      assert After(Opened(times), Leases(k) + [Produce(at)], cfg).created > |times|;
    } else if CanGrow(times, cfg) {
      var steps :| Legal(Opened(times), steps, cfg) && After(Opened(times), steps, cfg).created > |times|;
      NeverGrows(times, steps, cfg);
      assert false;
    }
  }

  // ---- The code ----

  class ConnectionPool {
    const minSize: Int32
    const maxSize: Int32
    const maxIdleTime: Int32
    var connectionQueue: seq<Conn>
    var currentSize: int
    var made: nat  // names the next connection
    ghost const times: seq<nat>
    ghost var trace: seq<Step>

    function Settings(): Config {
      Config(minSize, maxSize, maxIdleTime)
    }

    /** The state this pool's history has led to. */
    ghost function Now(): State
      reads this
      requires Legal(Opened(times), trace, Settings())
    {
      After(Opened(times), trace, Settings())
    }

    ghost predicate Shows(s: State)
      reads this
    {
      connectionQueue == s.queue && currentSize == s.currentSize && made == s.created
    }

    ghost predicate Valid()
      reads this
    {
      && Ascending(times) && |times| == Settings().Initial()
      && Legal(Opened(times), trace, Settings()) && Shows(Now())
    }

    /** The clock is read once for every connection. */
    constructor (minSize: Int32, maxSize: Int32, maxIdleTime: Int32, clock: nat -> nat)
      requires forall i: nat, j: nat :: i <= j ==> clock(i) <= clock(j)
      ensures Valid() && trace == [] && Settings() == Config(minSize, maxSize, maxIdleTime)
      ensures forall i :: 0 <= i < |times| ==> times[i] == clock(i)
    {
      this.minSize, this.maxSize, this.maxIdleTime := minSize, maxSize, maxIdleTime;
      connectionQueue, currentSize, made := [], 0, 0;
      times := seq(Config(minSize, maxSize, maxIdleTime).Initial(), i requires 0 <= i => clock(i));
      trace := [];
      new;
      var i := 0;
      while i < minSize
        invariant 0 <= i <= Settings().Initial() && made == i && currentSize == 2 * i
        invariant connectionQueue == seq(i, k requires 0 <= k < i => Conn(k, clock(k)))
        invariant trace == []
      {
        AddConnection(clock(i));
        currentSize := currentSize + 1;
        i := i + 1;
      }
      LegalEmpty(Opened(times), Settings());
    }

    method AddConnection(at: nat)
      modifies this`connectionQueue, this`made, this`currentSize
      ensures connectionQueue == old(connectionQueue) + [Conn(old(made), at)]
      ensures made == old(made) + 1 && currentSize == old(currentSize) + 1
    {
      var conn := Conn(made, at);
      made := made + 1;
      connectionQueue := connectionQueue + [conn];
      currentSize := currentSize + 1;
    }

    ghost method Record(step: Step)
      requires Legal(Opened(times), trace, Settings()) && Enabled(Now(), step, Settings())
      modifies this`trace
      ensures trace == old(trace) + [step] && Legal(Opened(times), trace, Settings())
      ensures Now() == Apply(old(Now()), step, Settings())
    {
      LegalPrefix(Opened(times), trace, step, Settings());
      trace := trace + [step];
    }

    /** The body of the producer's loop, once it has found the queue empty. */
    method ProduceConnection(at: nat)
      requires Valid() && connectionQueue == [] && Now().now <= at
      modifies this`connectionQueue, this`made, this`currentSize, this`trace
      ensures Valid() && trace == old(trace) + [Produce(at)]
      ensures if old(currentSize) < maxSize
              then connectionQueue == [Conn(old(made), at)] && currentSize == old(currentSize) + 2
              else connectionQueue == [] && currentSize == old(currentSize)
    {
      hide Legal, After;
      if currentSize < maxSize {
        AddConnection(at);
        currentSize := currentSize + 1;
      }
      Record(Produce(at));
    }

    /** One round of the recycler, which reads the clock for each connection it looks at.
        It destroys expired connections only, stops above `minSize` at the latest, and when
        it stops earlier no idle connection is expired. */
    method RecycleConnection(clock: nat -> nat) returns (destroyed: nat)
      requires Valid()
      requires forall i: nat, j: nat :: i <= j ==> Now().now <= clock(i) <= clock(j)
      modifies this`connectionQueue, this`currentSize, this`trace
      ensures Valid()
      ensures destroyed <= |old(connectionQueue)| && connectionQueue == old(connectionQueue)[destroyed..]
      ensures currentSize == old(currentSize) - destroyed
      ensures forall i :: 0 <= i < destroyed ==> Expired(old(connectionQueue)[i], clock(i), Settings())
      ensures |old(connectionQueue)| >= SizeT(minSize) ==> |connectionQueue| >= SizeT(minSize)
      ensures |connectionQueue| <= SizeT(minSize) || NoneExpired(connectionQueue, clock(destroyed), Settings())
      ensures Now().leased == old(Now()).leased && Now().created == old(Now()).created
    {
      hide Legal, After;
      destroyed := 0;
      while |connectionQueue| > SizeT(minSize)
        invariant Valid()
        invariant destroyed <= |old(connectionQueue)| && connectionQueue == old(connectionQueue)[destroyed..]
        invariant currentSize == old(currentSize) - destroyed
        invariant forall i :: 0 <= i < destroyed ==> Expired(old(connectionQueue)[i], clock(i), Settings())
        invariant |old(connectionQueue)| >= SizeT(minSize) ==> |connectionQueue| >= SizeT(minSize)
        invariant forall i: nat :: destroyed <= i ==> Now().now <= clock(i)
        invariant Now().leased == old(Now()).leased && Now().created == old(Now()).created
        decreases |connectionQueue|
      {
        var conn := connectionQueue[0];
        var at := clock(destroyed);
        EachConnectionOnce(times, trace, Settings());
        if AliveTime(conn, at) >= maxIdleTime {
          connectionQueue := connectionQueue[1..];
          currentSize := currentSize - 1;
          Record(Recycle(at));
          destroyed := destroyed + 1;
        } else {
          YoungFront(connectionQueue, at, Settings());
          Record(StopRecycling(at));
          break;
        }
      }
    }

    /** `getConnection`, once it has found the queue not empty. */
    method GetConnection() returns (conn: Conn)
      requires Valid() && connectionQueue != []
      modifies this`connectionQueue, this`trace
      ensures Valid() && trace == old(trace) + [Lease]
      ensures conn == old(connectionQueue)[0] && conn.id in Now().leased
      ensures connectionQueue == old(connectionQueue)[1..]
    {
      hide Legal, After;
      conn := connectionQueue[0];
      connectionQueue := connectionQueue[1..];
      Record(Lease);
    }

    /** The deleter of a lease. */
    method ReturnConnection(conn: Conn, at: nat)
      requires Valid() && conn.id in Now().leased && Now().now <= at
      modifies this`connectionQueue, this`trace
      ensures Valid() && trace == old(trace) + [Return(conn.id, at)]
      ensures connectionQueue == old(connectionQueue) + [Conn(conn.id, at)]
    {
      hide Legal, After;
      var refreshed := conn.(aliveTime := at);
      connectionQueue := connectionQueue + [refreshed];
      Record(Return(conn.id, at));
    }
  }
}
