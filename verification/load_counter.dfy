/** How busy a thread has been lately, from the times at which it goes to sleep and wakes up. */
module ThreadLoadCounters {

  const TWO_TO_THE_63 := 0x8000_0000_0000_0000
  const TWO_TO_THE_64 := 0x1_0000_0000_0000_0000

  /** Unsigned arithmetic on 64 bits. */
  function U64(x: int): (r: nat)
    ensures r < TWO_TO_THE_64
  {
    x % TWO_TO_THE_64
  }

  /** The cast of an unsigned number to `int`. */
  function ToInt(x: nat): int {
    var low := x % 0x1_0000_0000;
    if low < 0x8000_0000 then low else low - 0x1_0000_0000
  }

  datatype TimeRecord = TimeRecord(time: nat, sleep: bool)

  /** The fields of a counter. */
  datatype Counter = Counter(
    maxSize: nat,
    maxUsec: nat,
    sleeping: bool,
    lastSleep: nat,
    lastWake: nat,
    list: seq<TimeRecord>
  )

  // ---- What the operations do ----

  /** A record goes in at the back, and the oldest goes out when there are too many. */
  function Pushed(c: Counter, record: TimeRecord): seq<TimeRecord> {
    var list := c.list + [record];
    if |list| > c.maxSize then list[1..] else list
  }

  function AfterStartSleep(c: Counter, now: nat): Counter {
    c.(sleeping := true, lastSleep := now, list := Pushed(c, TimeRecord(U64(now - c.lastWake), false)))
  }

  function AfterWakeUp(c: Counter, now: nat): Counter {
    c.(sleeping := false, lastWake := now, list := Pushed(c, TimeRecord(U64(now - c.lastSleep), true)))
  }

  /** The sum of the recorded times asleep, or awake. */
  function Total(list: seq<TimeRecord>, sleep: bool): nat {
    if list == [] then 0
    else (if list[0].sleep == sleep then list[0].time else 0) + Total(list[1..], sleep)
  }

  /** The start of an interval that is still going on. */
  function Since(c: Counter, asleep: bool): nat {
    if asleep then c.lastSleep else c.lastWake
  }

  function Mark(c: Counter): nat {
    Since(c, c.sleeping)
  }

  function Current(c: Counter, now: nat, sleep: bool): nat {
    if c.sleeping == sleep then U64(now - Mark(c)) else 0
  }

  function Sum(c: Counter, now: nat, sleep: bool): nat {
    U64(Total(c.list, sleep) + Current(c, now, sleep))
  }

  function SumAll(c: Counter, now: nat): nat {
    U64(Total(c.list, true) + Total(c.list, false) + U64(now - Mark(c)))
  }

  /** The records `load` keeps: the oldest go while the span is too long. */
  function AfterLoad(c: Counter, now: nat): Counter
    decreases |c.list|
  {
    if c.list != [] && (SumAll(c, now) > c.maxUsec || |c.list| > c.maxSize)
    then AfterLoad(c.(list := c.list[1..]), now)
    else c
  }

  /** The percentage computed from what is kept. */
  function Percentage(c: Counter, now: nat): int {
    Percent(Sum(c, now, false), SumAll(c, now))
  }

  function Percent(run: nat, total: nat): int {
    if total == 0 then 0 else Share(run, total)
  }

  function Share(run: nat, total: nat): int
    requires total != 0
  {
    ToInt(U64(run * 100) / total)
  }

  // ---- The thread's life, tick by tick ----

  function Repeat(b: bool, n: nat): (s: seq<bool>)
    ensures |s| == n && forall i :: 0 <= i < n ==> s[i] == b
  {
    seq(n, i => b)
  }

  /** The ticks a list of records stands for. */
  function Expand(list: seq<TimeRecord>): seq<bool> {
    if list == [] then [] else Repeat(list[0].sleep, list[0].time) + Expand(list[1..])
  }

  function Count(ticks: seq<bool>, sleep: bool): nat {
    if ticks == [] then 0 else Count(ticks[..|ticks| - 1], sleep) + if ticks[|ticks| - 1] == sleep then 1 else 0
  }

  predicate EndsIn(life: seq<bool>, tail: seq<bool>) {
    |tail| <= |life| && life[|life| - |tail|..] == tail
  }

  /** A counter, the last time read, whether the thread is asleep, and its history up to
      that time: for every microsecond since the counter was made, whether it was asleep. */
  datatype Moment = Moment(c: Counter, now: nat, asleep: bool, life: seq<bool>)

  datatype Call = StartSleep(at: nat) | WakeUp(at: nat) | Load(at: nat)

  /** The clock does not go back, and its reading is a signed 64-bit number. */
  predicate Enabled(m: Moment, call: Call) {
    m.now <= call.at < TWO_TO_THE_63
  }

  /** Only a thread that is awake goes to sleep, and only one asleep wakes up. */
  predicate TakesTurns(m: Moment, call: Call) {
    match call
    case StartSleep(_) => !m.asleep
    case WakeUp(_) => m.asleep
    case Load(_) => true
  }

  function Apply(m: Moment, call: Call): Moment
    requires Enabled(m, call)
  {
    var life := m.life + Repeat(m.asleep, call.at - m.now);
    match call
    case StartSleep(at) => Moment(AfterStartSleep(m.c, at), at, true, life)
    case WakeUp(at) => Moment(AfterWakeUp(m.c, at), at, false, life)
    case Load(at) => Moment(AfterLoad(m.c, at), at, m.asleep, life)
  }

  /** A new counter takes the thread for asleep, whatever it is. */
  function Created(now: nat, maxSize: nat, maxUsec: nat, asleep: bool): Moment {
    Moment(Counter(maxSize, maxUsec, true, now, now, []), now, asleep, [])
  }

  /** The stretch of time the counter knows about. */
  function Window(c: Counter, asleep: bool, now: nat): seq<bool>
    requires Since(c, asleep) <= now
  {
    Expand(c.list) + Repeat(asleep, now - Since(c, asleep))
  }

  /** Nothing has been recorded yet. */
  predicate Untouched(c: Counter) {
    c.sleeping && c.list == [] && c.lastSleep == c.lastWake
  }

  /** The records and the interval going on tile the end of the thread's life, each tick
      with what the thread did in it; and the counter knows whether the thread is asleep,
      once it has been told. */
  ghost predicate Truthful(m: Moment) {
    && m.c.lastSleep <= m.now && m.c.lastWake <= m.now < TWO_TO_THE_63
    && |m.c.list| <= m.c.maxSize
    && |m.life| <= m.now
    && (m.c.sleeping == m.asleep || Untouched(m.c))
    && EndsIn(m.life, Window(m.c, m.asleep, m.now))
  }

  // ---- Ticks ----

  lemma RepeatAdd(b: bool, m: nat, n: nat)
    ensures Repeat(b, m) + Repeat(b, n) == Repeat(b, m + n)
  {
  }

  lemma {:induction false} ExpandPush(list: seq<TimeRecord>, r: TimeRecord)
    ensures Expand(list + [r]) == Expand(list) + Repeat(r.sleep, r.time)
  {
    if list == [] {
      assert Expand([r]) == Repeat(r.sleep, r.time);
      assert [] + [r] == [r];
    } else {
      ExpandPush(list[1..], r);
      assert (list + [r])[1..] == list[1..] + [r];
    }
  }

  lemma {:induction false} CountAppend(a: seq<bool>, b: seq<bool>, sleep: bool)
    ensures Count(a + b, sleep) == Count(a, sleep) + Count(b, sleep)
  {
    if b == [] {
      assert a + b == a;
    } else {
      assert (a + b)[..|a + b| - 1] == a + b[..|b| - 1];
      CountAppend(a, b[..|b| - 1], sleep);
    }
  }

  lemma {:induction false} CountRepeat(b: bool, n: nat, sleep: bool)
    ensures Count(Repeat(b, n), sleep) == if b == sleep then n else 0
  {
    if n != 0 {
      assert Repeat(b, n)[..n - 1] == Repeat(b, n - 1);
      CountRepeat(b, n - 1, sleep);
    }
  }

  lemma {:induction false} CountExpand(list: seq<TimeRecord>, sleep: bool)
    ensures Count(Expand(list), sleep) == Total(list, sleep)
    ensures |Expand(list)| == Total(list, true) + Total(list, false)
  {
    if list != [] {
      CountAppend(Repeat(list[0].sleep, list[0].time), Expand(list[1..]), sleep);
      CountRepeat(list[0].sleep, list[0].time, sleep);
      CountExpand(list[1..], sleep);
    }
  }

  lemma {:induction false} CountBound(ticks: seq<bool>, sleep: bool)
    ensures Count(ticks, sleep) <= |ticks|
  {
    if ticks != [] {
      CountBound(ticks[..|ticks| - 1], sleep);
    }
  }

  // ---- The records are the truth ----

  lemma Associate(a: seq<bool>, b: seq<bool>, c: seq<bool>)
    ensures a + b + c == a + (b + c)
  {
  }

  lemma DropTail(life: seq<bool>, first: seq<bool>, tail: seq<bool>)
    requires EndsIn(life, first + tail)
    ensures EndsIn(life, tail)
  {
    assert (first + tail)[|first|..] == tail;
  }

  lemma DropKeeps(life: seq<bool>, list: seq<TimeRecord>, rest: seq<bool>)
    requires list != [] && EndsIn(life, Expand(list) + rest)
    ensures EndsIn(life, Expand(list[1..]) + rest)
  {
    var first, others := Repeat(list[0].sleep, list[0].time), Expand(list[1..]);
    Associate(first, others, rest);
    hide Expand, EndsIn;
    DropTail(life, first, others + rest);
  }

  /** Recording the interval that ends now keeps the tiling. */
  lemma PushKeeps(c: Counter, asleep: bool, now: nat, life: seq<bool>)
    requires Since(c, asleep) <= now < TWO_TO_THE_63 && EndsIn(life, Window(c, asleep, now))
    ensures EndsIn(life, Expand(Pushed(c, TimeRecord(U64(now - Since(c, asleep)), asleep))))
  {
    var r := TimeRecord(U64(now - Since(c, asleep)), asleep);
    ExpandPush(c.list, r);
    assert Expand(c.list + [r]) + [] == Expand(c.list + [r]) == Window(c, asleep, now);
    DropKeeps(life, c.list + [r], []);
    assert Expand((c.list + [r])[1..]) + [] == Expand((c.list + [r])[1..]);
  }

  lemma WaitKeeps(c: Counter, asleep: bool, now: nat, at: nat, life: seq<bool>)
    requires Since(c, asleep) <= now <= at && EndsIn(life, Window(c, asleep, now))
    ensures EndsIn(life + Repeat(asleep, at - now), Window(c, asleep, at))
  {
    RepeatAdd(asleep, now - Since(c, asleep), at - now);
    var w, x := Window(c, asleep, now), Repeat(asleep, at - now);
    assert Window(c, asleep, at) == w + x;
    assert (life + x)[|life + x| - |w + x|..] == life[|life| - |w|..] + x;
  }

  lemma {:induction false} LoadKeeps(c: Counter, asleep: bool, now: nat, life: seq<bool>)
    requires Since(c, asleep) <= now && EndsIn(life, Window(c, asleep, now))
    ensures var d := AfterLoad(c, now);
            && d == c.(list := d.list) && |d.list| <= |c.list|
            && EndsIn(life, Window(d, asleep, now))
    decreases |c.list|
  {
    if c.list != [] && (SumAll(c, now) > c.maxUsec || |c.list| > c.maxSize) {
      DropKeeps(life, c.list, Repeat(asleep, now - Since(c, asleep)));
      LoadKeeps(c.(list := c.list[1..]), asleep, now, life);
    }
  }

  lemma CallKeeps(m: Moment, call: Call)
    requires Truthful(m) && Enabled(m, call) && TakesTurns(m, call)
    ensures Truthful(Apply(m, call))
  {
    hide EndsIn, Expand, AfterLoad;
    var life := m.life + Repeat(m.asleep, call.at - m.now);
    WaitKeeps(m.c, m.asleep, m.now, call.at, m.life);
    match call
    case Load(at) => LoadKeeps(m.c, m.asleep, at, life);
    case _ =>
      PushKeeps(m.c, m.asleep, call.at, life);
      var n := Apply(m, call);
      assert Window(n.c, n.asleep, call.at) == Expand(n.c.list);
  }

  /** What a call out of turn records last is not what the thread did last. */
  lemma WrongLastTick(m: Moment, call: Call)
    requires Truthful(m) && Enabled(m, call) && !TakesTurns(m, call) && m.now < call.at && 0 < m.c.maxSize
    ensures var n := Apply(m, call);
            && n.c.lastSleep <= n.now && n.c.lastWake <= n.now
            && var w := Window(n.c, n.asleep, n.now);
               && w != [] && w[|w| - 1] == !m.asleep
               && n.life != [] && n.life[|n.life| - 1] == m.asleep
  {
    hide EndsIn, Expand;
    var n := Apply(m, call);
    Small(call.at - Since(m.c, !m.asleep));
    LastTick(m.c, TimeRecord(call.at - Since(m.c, !m.asleep), !m.asleep));
    assert Since(n.c, n.asleep) == n.now;
    assert Window(n.c, n.asleep, n.now) == Expand(n.c.list) + [] == Expand(n.c.list);
  }

  /** A call that is not its turn spoils the records as soon as the clock has moved: the
      interval it records goes back to the wrong mark, or is of the wrong kind. */
  lemma TruthfulIff(m: Moment, call: Call)
    requires Truthful(m) && Enabled(m, call) && m.now < call.at && 0 < m.c.maxSize
    ensures Truthful(Apply(m, call)) <==> TakesTurns(m, call)
  {
    hide Expand, EndsIn, Apply;
    if TakesTurns(m, call) {
      CallKeeps(m, call);
    } else {
      WrongLastTick(m, call);
      var n := Apply(m, call);
      if EndsIn(n.life, Window(n.c, n.asleep, n.now)) {
        SameEnd(n.life, Window(n.c, n.asleep, n.now));
        assert false;
      }
    }
  }

  lemma SameEnd(life: seq<bool>, tail: seq<bool>)
    requires tail != [] && EndsIn(life, tail)
    ensures life[|life| - 1] == tail[|tail| - 1]
  {
    assert life[|life| - |tail|..][|tail| - 1] == life[|life| - 1];
  }

  lemma LastTick(c: Counter, r: TimeRecord)
    requires 0 < r.time && 0 < c.maxSize
    ensures var ticks := Expand(Pushed(c, r)); ticks != [] && ticks[|ticks| - 1] == r.sleep
  {
    ExpandPush(c.list, r);
    if c.list != [] {
      ExpandPush(c.list[1..], r);
      assert (c.list + [r])[1..] == c.list[1..] + [r];
    }
  }

  // ---- Runs ----

  ghost predicate Legal(start: Moment, calls: seq<Call>)
    decreases |calls|, 0
  {
    calls != [] ==> Legal(start, Front(calls)) && Enabled(After(start, Front(calls)), Last(calls))
  }

  ghost function After(start: Moment, calls: seq<Call>): Moment
    requires Legal(start, calls)
    decreases |calls|, 1
  {
    if calls == [] then start else Apply(After(start, Front(calls)), Last(calls))
  }

  function Front(calls: seq<Call>): seq<Call>
    requires calls != []
  {
    calls[..|calls| - 1]
  }

  function Last(calls: seq<Call>): Call
    requires calls != []
  {
    calls[|calls| - 1]
  }

  /** Every sleep and wake of the run comes in turn. */
  ghost predicate Alternating(start: Moment, calls: seq<Call>)
    requires Legal(start, calls)
    decreases |calls|
  {
    calls != [] ==> Alternating(start, Front(calls)) && TakesTurns(After(start, Front(calls)), Last(calls))
  }

  /** In every alternating run, whether the thread was asleep or awake when its counter was
      made, the records and the interval going on tile one contiguous span that ends now,
      and there are at most `maxSize` of them. */
  lemma {:induction false} RecordsTile(start: Moment, calls: seq<Call>)
    requires start == Created(start.now, start.c.maxSize, start.c.maxUsec, start.asleep)
    requires start.now < TWO_TO_THE_63 && Legal(start, calls) && Alternating(start, calls)
    ensures Truthful(After(start, calls))
  {
    if calls != [] {
      RecordsTile(start, Front(calls));
      CallKeeps(After(start, Front(calls)), Last(calls));
    }
  }

  // ---- No record is dropped but the oldest ----

  /** A report keeps every record, but for the oldest when there are `maxSize` of them
      already, and puts the new one, of the kind that ends, behind them. */
  lemma ReportKeepsRecords(m: Moment, call: Call)
    requires Enabled(m, call) && !call.Load? && |m.c.list| <= m.c.maxSize && 0 < m.c.maxSize
    ensures var old', new' := m.c.list, Apply(m, call).c.list;
            var dropped := if |old'| == m.c.maxSize then 1 else 0;
            && |new'| == |old'| + 1 - dropped
            && (forall i :: 0 <= i < |old'| - dropped ==> new'[i] == old'[i + dropped])
            && new'[|new'| - 1].sleep == call.WakeUp?
            && (var since := if call.WakeUp? then m.c.lastSleep else m.c.lastWake;
                since <= call.at ==> new'[|new'| - 1].time == call.at - since)
  {
    Small(if call.WakeUp? && m.c.lastSleep <= call.at then call.at - m.c.lastSleep else 0);
    Small(if call.StartSleep? && m.c.lastWake <= call.at then call.at - m.c.lastWake else 0);
    hide U64;
  }

  /** So a run of reports keeps one record for each, up to `maxSize` of them. */
  lemma {:induction false} RecordsKept(start: Moment, calls: seq<Call>)
    requires start == Created(start.now, start.c.maxSize, start.c.maxUsec, start.asleep) && Legal(start, calls)
    requires forall i :: 0 <= i < |calls| ==> !calls[i].Load?
    ensures var m := After(start, calls);
            && m.c.maxSize == start.c.maxSize
            && |m.c.list| == if |calls| < start.c.maxSize then |calls| else start.c.maxSize
  {
    if calls != [] {
      RecordsKept(start, Front(calls));
      assert !Last(calls).Load?;
      hide U64, After, Legal;
    }
  }

  /** Unsigned arithmetic keeps the number modulo 2^64, and the cast to `int` modulo 2^32. */
  lemma Congruent(x: nat)
    ensures 0 <= U64(x) < 0x1_0000_0000_0000_0000 && (x - U64(x)) % 0x1_0000_0000_0000_0000 == 0
    ensures -0x8000_0000 <= ToInt(x) < 0x8000_0000 && (x - ToInt(x)) % 0x1_0000_0000 == 0
  {
    Gap(x, 0x1_0000_0000_0000_0000, 0);
    Gap(x, 0x1_0000_0000, 0);
    Gap(x, 0x1_0000_0000, 1);
  }

  /** A number, its remainder taken off and whole moduli added. */
  lemma Gap(x: nat, m: nat, more: nat)
    requires 0 < m
    ensures (x - x % m + more * m) % m == 0
  {
    assert x == x / m * m + x % m;
    Multiple(x / m + more, m);
    assert (x / m + more) * m == x / m * m + more * m;
  }

  lemma Multiple(q: int, m: nat)
    requires 0 < m
    ensures q * m % m == 0
  {
    var r := q * m % m;
    var k := q * m / m;
    assert q * m == k * m + r;
    assert (q - k) * m == r;
    if q != k {
      AtLeast(q - k, m);
    }
  }

  lemma AtLeast(d: int, m: nat)
    requires d != 0
    ensures m <= d * m || d * m + m <= 0
  {
  }

  // ---- The load ----

  lemma SumsAreCounts(c: Counter, now: nat)
    requires Mark(c) <= now && |Window(c, c.sleeping, now)| < TWO_TO_THE_63
    ensures SumAll(c, now) == |Window(c, c.sleeping, now)|
    ensures Sum(c, now, false) == Count(Window(c, c.sleeping, now), false)
  {
    hide U64, Count, Expand, Total;
    var cur := Repeat(c.sleeping, now - Mark(c));
    var w := Window(c, c.sleeping, now);
    CountExpand(c.list, false);
    CountAppend(Expand(c.list), cur, false);
    CountRepeat(c.sleeping, now - Mark(c), false);
    Small(now - Mark(c));
    Small(|w|);
    Small(Count(w, false));
    CountBound(w, false);
  }

  lemma Small(x: nat)
    ensures x < TWO_TO_THE_64 ==> U64(x) == x
  {
  }

  lemma ShorterWindow(c: Counter, now: nat)
    requires Mark(c) <= now && c.list != []
    ensures |Window(c.(list := c.list[1..]), c.sleeping, now)| <= |Window(c, c.sleeping, now)|
  {
  }

  /** What is kept is a suffix of the records that fits into the span, or nothing; and with
      one record more it would not have fitted. */
  lemma {:induction false} LongestSuffix(c: Counter, now: nat)
    requires Mark(c) <= now && |Window(c, c.sleeping, now)| < TWO_TO_THE_63 && |c.list| <= c.maxSize
    ensures var kept := AfterLoad(c, now).list;
            var k := |c.list| - |kept|;
            && 0 <= k && kept == c.list[k..]
            && (kept == [] || |Window(c.(list := kept), c.sleeping, now)| <= c.maxUsec)
            && (0 < k ==> |Window(c.(list := c.list[k - 1..]), c.sleeping, now)| > c.maxUsec)
    decreases |c.list|
  {
    SumsAreCounts(c, now);
    hide U64, SumAll, Expand;
    if c.list != [] && SumAll(c, now) > c.maxUsec {
      ShorterWindow(c, now);
      var d := c.(list := c.list[1..]);
      hide Window;
      LongestSuffix(d, now);
      LoadDrops(d, now);
      SuffixOfRest(c.list, |d.list| - |AfterLoad(d, now).list|);
    }
  }

  lemma SuffixOfRest(list: seq<TimeRecord>, k: nat)
    requires list != [] && k < |list|
    ensures list[1..][k..] == list[k + 1..]
    ensures 0 < k ==> list[1..][k - 1..] == list[k..]
  {
  }

  /** The part of a window spent awake, in whole percent. */
  function AwakePercent(w: seq<bool>): nat {
    if w == [] then 0 else 100 * Count(w, false) / |w|
  }

  /** Some call has told the counter what the thread does. */
  predicate Told(calls: seq<Call>) {
    exists i :: 0 <= i < |calls| && !calls[i].Load?
  }

  lemma ToldStep(calls: seq<Call>)
    requires calls != []
    ensures Told(calls) <==> Told(Front(calls)) || !Last(calls).Load?
  {
    if Told(Front(calls)) {
      var i :| 0 <= i < |Front(calls)| && !Front(calls)[i].Load?;
      assert !calls[i].Load?;
    }
    if Told(calls) {
      var i :| 0 <= i < |calls| && !calls[i].Load?;
      assert i < |calls| - 1 ==> !Front(calls)[i].Load?;
    }
  }

  /** A counter that has been told knows whether the thread is asleep; one that has not is
      as it was made. */
  lemma {:induction false} KnowsOnceTold(start: Moment, calls: seq<Call>)
    requires start == Created(start.now, start.c.maxSize, start.c.maxUsec, start.asleep) && Legal(start, calls)
    ensures var m := After(start, calls);
            if Told(calls) then m.c.sleeping == m.asleep else m.c == start.c && m.asleep == start.asleep
  {
    if calls != [] {
      KnowsOnceTold(start, Front(calls));
      ToldStep(calls);
      var m := After(start, Front(calls));
      hide Told, Legal;
      LoadDrops(m.c, Last(calls).at);
    }
  }

  /** In every alternating run `load` answers the part of its window the thread was awake:
      the window is the true end of the thread's life, nothing underflows and the answer is
      from 0 to 100. The answer is the true one exactly when the thread was asleep when the
      counter was made, or some sleep or wake has been reported, or no time has passed: a
      thread that has been awake from the start and never reported anything is taken for
      asleep. */
  lemma LoadIsExact(start: Moment, calls: seq<Call>, at: nat)
    requires start == Created(start.now, start.c.maxSize, start.c.maxUsec, start.asleep)
    requires start.now < TWO_TO_THE_63 && Legal(start, calls) && Alternating(start, calls)
    requires Enabled(After(start, calls), Load(at))
    ensures var n := Apply(After(start, calls), Load(at));
            && Since(n.c, n.asleep) <= at
            && var w := Window(n.c, n.asleep, at);
               && EndsIn(n.life, w)
               && (100 * |w| < TWO_TO_THE_64 ==>
                     && 0 <= Percentage(n.c, at) <= 100
                     && (Percentage(n.c, at) == AwakePercent(w)
                         <==> start.asleep || Told(calls) || at == start.now))
  {
    hide EndsIn, Expand, AfterLoad, Legal, Alternating, After, Told, Percentage, AwakePercent;
    RecordsTile(start, calls);
    KnowsOnceTold(start, calls);
    var m := After(start, calls);
    CallKeeps(m, Load(at));
    var n := Apply(m, Load(at));
    ExactPercentage(n);
    LoadDrops(m.c, at);
    if !Told(calls) {
      NothingExpanded();
      assert |Window(n.c, n.asleep, at)| == at - start.now;
    }
  }

  lemma NothingExpanded()
    ensures Expand([]) == []
  {
  }

  /** The counter of a thread that was awake when it was made, asked some time later, answers
      0 where the truth is 100. */
  lemma AwakeTakenForAsleep(born: nat, maxSize: nat, maxUsec: nat, at: nat)
    requires born < at < TWO_TO_THE_63
    ensures var n := Apply(Created(born, maxSize, maxUsec, false), Load(at));
            && n.life == Repeat(false, at - born) == Window(n.c, false, at)
            && AwakePercent(n.life) == 100 && Percentage(n.c, at) == 0
  {
    var n := Apply(Created(born, maxSize, maxUsec, false), Load(at));
    NothingExpanded();
    hide Expand, Percentage, AwakePercent;
    assert n.c.list == [];
    UnknownPercentage(n.c, at);
    assert [] + Repeat(false, at - born) == Repeat(false, at - born);
  }

  lemma ExactPercentage(m: Moment)
    requires Truthful(m)
    ensures var w := Window(m.c, m.asleep, m.now);
            100 * |w| < TWO_TO_THE_64 ==>
              && 0 <= Percentage(m.c, m.now) <= 100
              && (Percentage(m.c, m.now) == AwakePercent(w) <==> m.c.sleeping == m.asleep || w == [])
  {
    hide Expand, Count, Sum, SumAll, EndsIn, Percent, AwakePercent;
    if 100 * |Window(m.c, m.asleep, m.now)| >= TWO_TO_THE_64 {
    } else if m.c.sleeping == m.asleep {
      KnownPercentage(m.c, m.now);
    } else {
      UnknownPercentage(m.c, m.now);
    }
  }

  lemma KnownPercentage(c: Counter, now: nat)
    requires Mark(c) <= now && 100 * |Window(c, c.sleeping, now)| < TWO_TO_THE_64
    ensures Percentage(c, now) == AwakePercent(Window(c, c.sleeping, now)) <= 100
  {
    hide Expand, Count, Sum, SumAll;
    var w := Window(c, c.sleeping, now);
    SumsAreCounts(c, now);
    CountBound(w, false);
    PercentExact(Count(w, false), |w|);
  }

  lemma UnknownPercentage(c: Counter, now: nat)
    requires Untouched(c) && c.lastWake <= now
    ensures Percentage(c, now) == 0
    ensures var w := Window(c, false, now);
            AwakePercent(w) == if w == [] then 0 else 100
  {
    var w := Window(c, false, now);
    assert w == Repeat(false, |w|);
    CountRepeat(false, |w|, false);
    assert Sum(c, now, false) == 0;
    hide Sum, SumAll, Window, Count;
    if w != [] {
      Whole(|w|);
    }
    NothingOf(SumAll(c, now));
  }

  lemma Whole(n: nat)
    requires 0 < n
    ensures 100 * n / n == 100
  {
  }

  lemma NothingOf(total: nat)
    ensures Percent(0, total) == 0
  {
    if total != 0 {
      assert 0 / total == 0;
    }
  }

  lemma PercentExact(run: nat, total: nat)
    requires run <= total && 100 * total < TWO_TO_THE_64
    ensures 0 <= Percent(run, total) <= 100
    ensures Percent(run, total) == if total == 0 then 0 else 100 * run / total
  {
    Small(run * 100);
    hide U64;
    if total != 0 {
      QuotientBound(100 * run, total);
    }
  }

  lemma QuotientBound(a: nat, b: nat)
    requires 0 < b && a <= 100 * b
    ensures 0 <= a / b <= 100
  {
    var q := a / b;
    assert a == q * b + a % b;
    if q > 100 {
      Multiply(q, b);
      assert false;
    }
  }

  lemma Multiply(q: int, b: nat)
    requires 0 < b && 101 <= q
    ensures 101 * b <= q * b
  {
  }

  // ---- Only waking up ----

  predicate AllAsleep(list: seq<TimeRecord>) {
    forall i :: 0 <= i < |list| ==> list[i].sleep
  }

  /** A loop that calls only `sleepWakeUp`, before its poll and again after it, never records
      any time as spent awake. */
  lemma {:induction false} OnlyWakingRecordsNoRun(start: Moment, calls: seq<Call>)
    requires start == Created(start.now, start.c.maxSize, start.c.maxUsec, start.asleep) && Legal(start, calls)
    requires forall i :: 0 <= i < |calls| ==> !calls[i].StartSleep?
    ensures AllAsleep(After(start, calls).c.list)
  {
    if calls != [] {
      OnlyWakingRecordsNoRun(start, Front(calls));
      var m := After(start, Front(calls));
      hide U64, AfterLoad, After;
      assert !Last(calls).StartSleep?;
      LoadDrops(m.c, Last(calls).at);
    }
  }

  lemma {:induction false} LoadDrops(c: Counter, now: nat)
    ensures var d := AfterLoad(c, now);
            |d.list| <= |c.list| && d == c.(list := c.list[|c.list| - |d.list|..])
    decreases |c.list|
  {
    if AfterLoad(c, now) != c {
      LoadDrops(c.(list := c.list[1..]), now);
    }
  }

  // ---- The code ----

  class ThreadLoadCounter {
    const maxSize: nat
    const maxUsec: nat
    var sleeping: bool
    var lastSleepTime: nat
    var lastWakeTime: nat
    var timeList: seq<TimeRecord>

    function Fields(): Counter
      reads this
    {
      Counter(maxSize, maxUsec, sleeping, lastSleepTime, lastWakeTime, timeList)
    }

    constructor (now: nat, maxSize: nat, maxUsec: nat)
      ensures forall asleep :: Fields() == Created(now, maxSize, maxUsec, asleep).c
    {
      this.maxSize, this.maxUsec := maxSize, maxUsec;
      sleeping, lastSleepTime, lastWakeTime, timeList := true, now, now, [];
    }

    method StartSleep(now: nat)
      modifies this
      ensures Fields() == AfterStartSleep(old(Fields()), now)
      ensures sleeping && lastSleepTime == now && lastWakeTime == old(lastWakeTime)
      ensures 0 < maxSize && |old(timeList)| <= maxSize ==>
        |timeList| == if |old(timeList)| < maxSize then |old(timeList)| + 1 else maxSize
    {
      sleeping := true;
      var runTime := U64(now - lastWakeTime);
      lastSleepTime := now;
      timeList := timeList + [TimeRecord(runTime, false)];
      if |timeList| > maxSize {
        timeList := timeList[1..];
      }
    }

    method SleepWakeUp(now: nat)
      modifies this
      ensures Fields() == AfterWakeUp(old(Fields()), now)
      ensures !sleeping && lastWakeTime == now && lastSleepTime == old(lastSleepTime)
      ensures 0 < maxSize && |old(timeList)| <= maxSize ==>
        |timeList| == if |old(timeList)| < maxSize then |old(timeList)| + 1 else maxSize
    {
      sleeping := false;
      var sleepTime := U64(now - lastSleepTime);
      lastWakeTime := now;
      timeList := timeList + [TimeRecord(sleepTime, true)];
      if |timeList| > maxSize {
        timeList := timeList[1..];
      }
    }

    /** The first loop of `load`. */
    method Totals() returns (totalSleepTime: nat, totalRunTime: nat)
      ensures totalSleepTime == U64(Total(timeList, true))
      ensures totalRunTime == U64(Total(timeList, false))
    {
      hide U64;
      totalSleepTime, totalRunTime := 0, 0;
      Small(0);
      for i := 0 to |timeList|
        invariant totalSleepTime < TWO_TO_THE_64 && totalRunTime < TWO_TO_THE_64
        invariant U64(totalSleepTime + Total(timeList[i..], true)) == U64(Total(timeList, true))
        invariant U64(totalRunTime + Total(timeList[i..], false)) == U64(Total(timeList, false))
      {
        var rcd := timeList[i];
        assert timeList[i..][1..] == timeList[i + 1..];
        if rcd.sleep {
          Carry(totalSleepTime + rcd.time, Total(timeList[i + 1..], true));
          totalSleepTime := U64(totalSleepTime + rcd.time);
        } else {
          Carry(totalRunTime + rcd.time, Total(timeList[i + 1..], false));
          totalRunTime := U64(totalRunTime + rcd.time);
        }
      }
      Small(totalSleepTime);
      Small(totalRunTime);
    }

    method Load(now: nat) returns (load: int)
      modifies this`timeList
      ensures Fields() == AfterLoad(old(Fields()), now)
      ensures load == Percentage(Fields(), now)
    {
      hide U64, Total, Sum, SumAll, Share;
      var totalSleepTime, totalRunTime := Totals();
      StartSums(Fields(), now);
      if sleeping {
        totalSleepTime := U64(totalSleepTime + U64(now - lastSleepTime));
      } else {
        totalRunTime := U64(totalRunTime + U64(now - lastWakeTime));
      }
      var totalTime := U64(totalRunTime + totalSleepTime);
      SumOfSums(Fields(), now);
      while |timeList| != 0 && (totalTime > maxUsec || |timeList| > maxSize)
        invariant totalSleepTime == Sum(Fields(), now, true) && totalRunTime == Sum(Fields(), now, false)
        invariant totalTime == SumAll(Fields(), now)
        invariant AfterLoad(Fields(), now) == AfterLoad(old(Fields()), now)
        decreases |timeList|
      {
        var rcd := timeList[0];
        DropFirst(Fields(), now);
        if rcd.sleep {
          totalSleepTime := U64(totalSleepTime - rcd.time);
        } else {
          totalRunTime := U64(totalRunTime - rcd.time);
        }
        totalTime := U64(totalTime - rcd.time);
        timeList := timeList[1..];
      }
      if totalTime == 0 {
        return 0;
      }
      load := Share(totalRunTime, totalTime);
    }
  }

  lemma Carry(a: int, b: int)
    ensures U64(U64(a) + b) == U64(a + b)
  {
  }

  lemma StartSums(c: Counter, now: nat)
    ensures Sum(c, now, c.sleeping) == U64(U64(Total(c.list, c.sleeping)) + U64(now - Mark(c)))
    ensures Sum(c, now, !c.sleeping) == U64(Total(c.list, !c.sleeping))
  {
    hide U64;
    Carry(Total(c.list, c.sleeping), U64(now - Mark(c)));
  }

  lemma SumOfSums(c: Counter, now: nat)
    ensures U64(Sum(c, now, false) + Sum(c, now, true)) == SumAll(c, now)
  {
    hide U64;
    var r, s := Total(c.list, false) + Current(c, now, false), Total(c.list, true) + Current(c, now, true);
    Carry(r, U64(s));
    Carry(s, r);
  }

  lemma DropFirst(c: Counter, now: nat)
    requires c.list != []
    ensures var d, r := c.(list := c.list[1..]), c.list[0];
            && SumAll(d, now) == U64(SumAll(c, now) - r.time)
            && Sum(d, now, r.sleep) == U64(Sum(c, now, r.sleep) - r.time)
            && Sum(d, now, !r.sleep) == Sum(c, now, !r.sleep)
  {
    hide U64;
    var r := c.list[0];
    Carry(Total(c.list, r.sleep) + Current(c, now, r.sleep), 0 - r.time);
    Carry(Total(c.list, true) + Total(c.list, false) + U64(now - Mark(c)), 0 - r.time);
  }
}
