/** Ids packed from a millisecond, a data centre, a worker and a running number. */
module Snowflakes {

  const WORKER_ID_BITS: nat := 5
  const DATACENTER_ID_BITS: nat := 5
  const SEQUENCE_BITS: nat := 12
  const MAX_WORKER_ID := Pow2(WORKER_ID_BITS) - 1
  const MAX_DATACENTER_ID := Pow2(DATACENTER_ID_BITS) - 1
  const SEQUENCE_MASK := Pow2(SEQUENCE_BITS) - 1
  const WORKER_ID_SHIFT := SEQUENCE_BITS
  const DATACENTER_ID_SHIFT := SEQUENCE_BITS + WORKER_ID_BITS
  const TIMESTAMP_LEFT_SHIFT := SEQUENCE_BITS + WORKER_ID_BITS + DATACENTER_ID_BITS

  const TWO_TO_THE_41 := 0x200_0000_0000
  const TWO_TO_THE_42 := 0x400_0000_0000
  const TWO_TO_THE_63 := 0x8000_0000_0000_0000
  const TWO_TO_THE_64 := 0x1_0000_0000_0000_0000

  // ---- The operators of the machine, on bit patterns ----

  function Pow2(k: nat): (p: nat)
    ensures p > 0
  {
    if k == 0 then 1 else 2 * Pow2(k - 1)
  }

  function BitOr(a: nat, b: nat): nat {
    if a == 0 && b == 0 then 0
    else 2 * BitOr(a / 2, b / 2) + if a % 2 == 1 || b % 2 == 1 then 1 else 0
  }

  function BitAnd(a: nat, b: nat): nat {
    if a == 0 || b == 0 then 0
    else 2 * BitAnd(a / 2, b / 2) + if a % 2 == 1 && b % 2 == 1 then 1 else 0
  }

  /** `<<` on 64 bits. */
  function ShiftLeft(a: int, k: nat): nat {
    (a * Pow2(k)) % TWO_TO_THE_64
  }

  /** The signed 64-bit number with this pattern. */
  function Signed(pattern: nat): int
    requires pattern < TWO_TO_THE_64
  {
    if pattern < TWO_TO_THE_63 then pattern else pattern - TWO_TO_THE_64
  }

  function Unsigned(id: int): nat {
    id % TWO_TO_THE_64
  }

  lemma OrZero(a: nat)
    ensures BitOr(a, 0) == a
  {
  }

  /** A pattern that ends in `k` zeros keeps the other one intact in them. */
  lemma {:induction false} OrDisjoint(q: nat, b: nat, k: nat)
    requires b < Pow2(k)
    ensures BitOr(q * Pow2(k), b) == q * Pow2(k) + b
  {
    if k == 0 {
      OrZero(q);
    } else {
      assert q * Pow2(k) == 2 * (q * Pow2(k - 1));
      OrDisjoint(q, b / 2, k - 1);
    }
  }

  lemma {:induction false} AndMask(a: nat, k: nat)
    ensures BitAnd(a, Pow2(k) - 1) == a % Pow2(k)
  {
    if k != 0 {
      var p := Pow2(k - 1);
      AndMask(a / 2, k - 1);
      ModOfDouble(a, p);
      assert (Pow2(k) - 1) / 2 == p - 1;
      if a == 0 {
        DivModUnique(0, Pow2(k), 0, 0);
      }
    }
  }

  lemma ModOfDouble(a: nat, p: nat)
    requires p > 0
    ensures a % (2 * p) == 2 * ((a / 2) % p) + a % 2
  {
    var q, r := (a / 2) / p, (a / 2) % p;
    assert a / 2 == q * p + r;
    assert a == q * (2 * p) + (2 * r + a % 2);
    DivModUnique(a, 2 * p, q, 2 * r + a % 2);
  }

  lemma DivModUnique(a: int, m: nat, q: int, r: nat)
    requires r < m && a == q * m + r
    ensures a / m == q && a % m == r
  {
    var d := a / m - q;
    assert a == (a / m) * m + a % m;
    assert d * m == (a / m) * m - q * m;
    if d != 0 {
      AtLeast(d, m);
      assert false;
    }
  }

  lemma AtLeast(d: int, m: nat)
    requires d != 0
    ensures m <= d * m || d * m + m <= 0
  {
  }

  lemma Widths()
    ensures Pow2(0) == 1 && Pow2(5) == 32 && Pow2(12) == 0x1000 && Pow2(17) == 0x2_0000 && Pow2(22) == 0x40_0000
    ensures MAX_WORKER_ID == 31 && MAX_DATACENTER_ID == 31 && SEQUENCE_MASK == 4095
    ensures WORKER_ID_SHIFT == 12 && DATACENTER_ID_SHIFT == 17 && TIMESTAMP_LEFT_SHIFT == 22
  {
  }

  // ---- Packing and unpacking ----

  /** The fields of a generator. */
  datatype Generator = Generator(last: int, worker: int, datacenter: int, sequence: nat)

  predicate Fits(g: Generator) {
    0 <= g.worker < 32 && 0 <= g.datacenter < 32 && g.sequence < 4096
  }

  function Pattern(g: Generator, epoch: int): nat
  {
    BitOr(BitOr(BitOr(
      ShiftLeft(g.last - epoch, TIMESTAMP_LEFT_SHIFT),
      ShiftLeft(g.datacenter, DATACENTER_ID_SHIFT)),
      ShiftLeft(g.worker, WORKER_ID_SHIFT)),
      ShiftLeft(g.sequence, 0))
  }

  /** The id a generator returns once it has set its fields. */
  function Id(g: Generator, epoch: int): int
    requires Fits(g)
  {
    Layout(g, epoch);
    Signed(Pattern(g, epoch))
  }

  /** The four fields side by side. */
  function Packed(g: Generator, epoch: int): nat
    requires Fits(g)
  {
    (((g.last - epoch) % TWO_TO_THE_42 * 32 + g.datacenter) * 32 + g.worker) * 4096 + g.sequence
  }

  /** The bits of the four fields do not overlap, and what is shifted out of 64 bits is the
      offset above 2^42. */
  lemma Layout(g: Generator, epoch: int)
    requires Fits(g)
    ensures Pattern(g, epoch) == Packed(g, epoch) < TWO_TO_THE_64
  {
    hide BitOr, Pow2, ShiftLeft;
    Widths();
    var o := (g.last - epoch) % TWO_TO_THE_42;
    Shifted(g, epoch);
    OrDisjoint(o, g.datacenter * 0x2_0000, 22);
    OrDisjoint(o * 32 + g.datacenter, g.worker * 0x1000, 17);
    OrDisjoint((o * 32 + g.datacenter) * 32 + g.worker, g.sequence, 12);
  }

  lemma Shifted(g: Generator, epoch: int)
    requires Fits(g)
    ensures ShiftLeft(g.last - epoch, 22) == (g.last - epoch) % TWO_TO_THE_42 * 0x40_0000
    ensures ShiftLeft(g.datacenter, 17) == g.datacenter * 0x2_0000
    ensures ShiftLeft(g.worker, 12) == g.worker * 0x1000
    ensures ShiftLeft(g.sequence, 0) == g.sequence
  {
    Widths();
    hide Pow2;
    var x := g.last - epoch;
    var q, o := x / TWO_TO_THE_42, x % TWO_TO_THE_42;
    assert x * 0x40_0000 == q * TWO_TO_THE_64 + o * 0x40_0000;
    DivModUnique(x * 0x40_0000, TWO_TO_THE_64, q, o * 0x40_0000);
  }

  /** What a reader of an id takes out of it, from the low end up. */
  datatype Fields = Fields(offset: nat, datacenter: nat, worker: nat, sequence: nat)

  function Decode(id: int): Fields {
    var u := Unsigned(id);
    var v := u / 4096;
    var w := v / 32;
    Fields(w / 32, w % 32, v % 32, u % 4096)
  }

  lemma DecodesBack(g: Generator, epoch: int)
    requires Fits(g)
    ensures Decode(Id(g, epoch)) == Fields((g.last - epoch) % TWO_TO_THE_42, g.datacenter, g.worker, g.sequence)
  {
    hide BitOr, ShiftLeft, Pattern;
    Layout(g, epoch);
    var o := (g.last - epoch) % TWO_TO_THE_42;
    var w := o * 32 + g.datacenter;
    var v := w * 32 + g.worker;
    var u := v * 4096 + g.sequence;
    assert u == Packed(g, epoch) && Unsigned(Id(g, epoch)) == u;
    hide Packed, Id, Unsigned;
    assert u / 4096 == v && u % 4096 == g.sequence;
    assert v / 32 == w && v % 32 == g.worker;
  }

  /** An id is a non-negative number exactly as long as the offset modulo 2^42 stays below
      2^41, and then the offset can be read off it. */
  lemma NonNegativeIff(g: Generator, epoch: int)
    requires Fits(g)
    ensures 0 <= Id(g, epoch) <==> (g.last - epoch) % TWO_TO_THE_42 < TWO_TO_THE_41
    ensures -TWO_TO_THE_63 <= Id(g, epoch) < TWO_TO_THE_63
    ensures 0 <= g.last - epoch < TWO_TO_THE_41 ==>
      && 0 <= Id(g, epoch) && epoch + Decode(Id(g, epoch)).offset == g.last
      && Id(g, epoch) == (g.last - epoch) * 4194304 + g.datacenter * 131072 + g.worker * 4096 + g.sequence
  {
    hide BitOr, ShiftLeft, Pattern;
    Layout(g, epoch);
    DecodesBack(g, epoch);
  }

  lemma CongruentIff(a: int, b: int)
    ensures a % TWO_TO_THE_42 == b % TWO_TO_THE_42 <==> (a - b) % TWO_TO_THE_42 == 0
  {
    assert a == a / TWO_TO_THE_42 * TWO_TO_THE_42 + a % TWO_TO_THE_42;
    assert b == b / TWO_TO_THE_42 * TWO_TO_THE_42 + b % TWO_TO_THE_42;
    if a % TWO_TO_THE_42 == b % TWO_TO_THE_42 {
      DivModUnique(a - b, TWO_TO_THE_42, a / TWO_TO_THE_42 - b / TWO_TO_THE_42, 0);
    } else if (a - b) % TWO_TO_THE_42 == 0 {
      var q := (a - b) / TWO_TO_THE_42;
      assert a == (b / TWO_TO_THE_42 + q) * TWO_TO_THE_42 + b % TWO_TO_THE_42;
      DivModUnique(a, TWO_TO_THE_42, b / TWO_TO_THE_42 + q, b % TWO_TO_THE_42);
    }
  }

  lemma IdIsPacked(g: Generator, epoch: int)
    requires Fits(g)
    ensures Packed(g, epoch) < TWO_TO_THE_64 && Id(g, epoch) == Signed(Packed(g, epoch))
  {
    hide BitOr, ShiftLeft, Pattern, Packed;
    Layout(g, epoch);
  }

  /** Two ids are equal exactly when they agree in everything but whole turns of the 42 bits
      of the offset; so generators set up differently never collide. */
  lemma SameIdIff(g: Generator, h: Generator, epoch: int)
    requires Fits(g) && Fits(h)
    ensures Id(g, epoch) == Id(h, epoch) <==>
      && g.datacenter == h.datacenter && g.worker == h.worker && g.sequence == h.sequence
      && (g.last - h.last) % TWO_TO_THE_42 == 0
  {
    hide Id, Decode;
    DecodesBack(g, epoch);
    DecodesBack(h, epoch);
    CongruentIff(g.last - epoch, h.last - epoch);
    assert g.last - epoch - (h.last - epoch) == g.last - h.last;
    IdIsPacked(g, epoch);
    IdIsPacked(h, epoch);
    hide Signed;
  }

  // ---- Runs ----

  /** What the steady clock shows, reading after reading: it never goes back, and it does
      not stop for ever. */
  ghost predicate Steady(clock: nat -> int) {
    && (forall i: nat, j: nat :: i <= j ==> clock(i) <= clock(j))
    && (forall t: int, i: nat :: Passes(clock, t, i))
  }

  /** Some reading from `i` on is later than `t`. */
  ghost predicate Passes(clock: nat -> int, t: int, i: nat) {
    exists j: nat :: i <= j && t < clock(j)
  }

  /** The first reading, from `at` on, that is later than `last`. */
  ghost function FirstAfter(clock: nat -> int, at: nat, last: int): (i: nat)
    requires Steady(clock)
    ensures at <= i && last < clock(i)
    ensures forall j: nat :: at <= j < i ==> clock(j) <= last
  {
    assert Passes(clock, last, at);
    var w: nat :| at <= w && last < clock(w);
    FirstUpTo(clock, at, last, w)
  }

  ghost function FirstUpTo(clock: nat -> int, at: nat, last: int, w: nat): (i: nat)
    requires at <= w && last < clock(w)
    ensures at <= i <= w && last < clock(i)
    ensures forall j: nat :: at <= j < i ==> clock(j) <= last
    decreases w - at
  {
    if last < clock(at) then at else FirstUpTo(clock, at + 1, last, w)
  }

  /** A generator and the number of clock readings it has taken. */
  datatype Point = Point(g: Generator, at: nat)

  /** `nextid`. */
  ghost function Next(p: Point, clock: nat -> int): Point
    requires Steady(clock)
  {
    var now := clock(p.at);
    if p.g.last != now then Point(p.g.(last := now, sequence := 0), p.at + 1)
    else
      var s := BitAnd(p.g.sequence + 1, SEQUENCE_MASK);
      if s != 0 then Point(p.g.(sequence := s), p.at + 1)
      else
        var i := FirstAfter(clock, p.at + 1, p.g.last);
        Point(p.g.(last := clock(i), sequence := 0), i + 1)
  }

  ghost function Run(p: Point, clock: nat -> int, n: nat): Point
    requires Steady(clock)
  {
    if n == 0 then p else Next(Run(p, clock, n - 1), clock)
  }

  /** The fields are in range and no reading to come is earlier than the last time. */
  ghost predicate Behind(p: Point, clock: nat -> int) {
    Fits(p.g) && p.g.last <= clock(p.at)
  }

  lemma NextMask(s: nat)
    requires s < 4096
    ensures BitAnd(s + 1, SEQUENCE_MASK) == if s == 4095 then 0 else s + 1
  {
    hide BitAnd, Pow2;
    Widths();
    AndMask(s + 1, 12);
  }

  lemma NextAdvances(p: Point, clock: nat -> int)
    requires Steady(clock) && Behind(p, clock)
    ensures var q := Next(p, clock);
            && Behind(q, clock)
            && p.at < q.at && q.g.last == clock(q.at - 1)
            && q.g.worker == p.g.worker && q.g.datacenter == p.g.datacenter
            && (p.g.last < q.g.last || (p.g.last == q.g.last && q.g.sequence == p.g.sequence + 1))
            && (p.g.last < q.g.last ==> q.g.sequence == 0)
            && (q.g.last == clock(p.at) && q.at == p.at + 1 <==> p.g.last < clock(p.at) || p.g.sequence < 4095)
            && (p.g.last == clock(p.at) && p.g.sequence == 4095 ==>
                  forall i :: p.at <= i < q.at - 1 ==> clock(i) <= p.g.last)
  {
    hide BitAnd;
    NextMask(p.g.sequence);
  }

  /** From any point of a run on, the pair of time and sequence number goes up with every
      id, and 4096 ids later the time itself has gone up. The time of an id is the last
      clock reading taken for it. */
  lemma {:induction false} RunAdvances(p: Point, clock: nat -> int, n: nat, k: nat)
    requires Steady(clock) && Behind(p, clock)
    ensures var a, b := Run(p, clock, n), Run(p, clock, n + k);
            && Behind(a, clock) && Behind(b, clock)
            && a.at + k <= b.at && (0 < n ==> 0 < a.at && a.g.last == clock(a.at - 1))
            && b.g.worker == p.g.worker && b.g.datacenter == p.g.datacenter
            && (a.g.last < b.g.last || (a.g.last == b.g.last && a.g.sequence + k <= b.g.sequence))
            && (4096 <= k ==> a.g.last < b.g.last)
    decreases n + k
  {
    hide Steady, Next;
    if k != 0 {
      RunAdvances(p, clock, n, k - 1);
      NextAdvances(Run(p, clock, n + k - 1), clock);
    } else if n != 0 {
      RunAdvances(p, clock, 0, n - 1);
      NextAdvances(Run(p, clock, n - 1), clock);
    }
  }

  /** The signed window of 2^42 milliseconds an offset lies in: window 0 starts 2^41 before
      the epoch. */
  function Window(offset: int): int {
    (offset + TWO_TO_THE_41) / TWO_TO_THE_42
  }

  /** An offset as the 42 bits of an id show it to a signed reader. */
  function Shown(offset: int): int {
    offset - Window(offset) * TWO_TO_THE_42
  }

  lemma SignedLayout(g: Generator, epoch: int)
    requires Fits(g)
    ensures Id(g, epoch) == ((Shown(g.last - epoch) * 32 + g.datacenter) * 32 + g.worker) * 4096 + g.sequence
  {
    hide BitOr, ShiftLeft, Pattern;
    Layout(g, epoch);
    var x := g.last - epoch;
    var o := x % TWO_TO_THE_42;
    assert x == x / TWO_TO_THE_42 * TWO_TO_THE_42 + o;
    assert Shown(x) == if o < TWO_TO_THE_41 then o else o - TWO_TO_THE_42;
  }

  lemma OrderIff(a: Generator, b: Generator, epoch: int)
    requires Fits(a) && Fits(b) && a.worker == b.worker && a.datacenter == b.datacenter
    requires a.last < b.last || (a.last == b.last && a.sequence < b.sequence)
    ensures b.last - a.last < TWO_TO_THE_42 ==>
      (Id(a, epoch) < Id(b, epoch) <==> Window(a.last - epoch) == Window(b.last - epoch))
  {
    SignedLayout(a, epoch);
    SignedLayout(b, epoch);
    hide Id, Fits;
    var turns := Window(b.last - epoch) - Window(a.last - epoch);
    assert 0 <= turns;
    assert Shown(b.last - epoch) - Shown(a.last - epoch) == b.last - a.last - turns * TWO_TO_THE_42;
  }

  /** The ids of a generator over any run, from any state its last time leaves behind the
      clock: within 2^42 milliseconds no id is given twice, and a later id is the greater
      one exactly as long as both times lie in the same window. In particular, from the
      epoch on ids go up until the offset reaches 2^41. */
  lemma IdsIncrease(p: Point, clock: nat -> int, epoch: int, n: nat, m: nat)
    requires Steady(clock) && Behind(p, clock) && n < m
    ensures var a, b := Run(p, clock, n).g, Run(p, clock, m).g;
            && Fits(a) && Fits(b)
            && (b.last - a.last < TWO_TO_THE_42 ==>
                  && Id(a, epoch) != Id(b, epoch)
                  && (Id(a, epoch) < Id(b, epoch) <==> Window(a.last - epoch) == Window(b.last - epoch)))
            && (epoch <= a.last && b.last - epoch < TWO_TO_THE_41 ==> 0 <= Id(a, epoch) < Id(b, epoch))
  {
    hide BitOr, ShiftLeft, Pattern, Steady, Next, Run;
    RunAdvances(p, clock, n, m - n);
    RunAdvances(p, clock, 0, n);
    var a, b := Run(p, clock, n).g, Run(p, clock, m).g;
    OrderIff(a, b, epoch);
    SameIdIff(a, b, epoch);
    NonNegativeIff(a, epoch);
  }

  /** Two generators set up with different numbers never give the same id, whatever their
      clocks show. */
  lemma NeverCollide(p: Point, clock: nat -> int, n: nat, q: Point, other: nat -> int, m: nat, epoch: int)
    requires Steady(clock) && Behind(p, clock) && Steady(other) && Behind(q, other)
    requires p.g.worker != q.g.worker || p.g.datacenter != q.g.datacenter
    ensures var a, b := Run(p, clock, n).g, Run(q, other, m).g;
            Fits(a) && Fits(b) && Id(a, epoch) != Id(b, epoch)
  {
    hide BitOr, ShiftLeft, Pattern, Steady, Next, Run;
    RunAdvances(p, clock, 0, n);
    RunAdvances(q, other, 0, m);
    assert Run(p, clock, 0 + n) == Run(p, clock, n) && Run(q, other, 0 + m) == Run(q, other, m);
    SameIdIff(Run(p, clock, n).g, Run(q, other, m).g, epoch);
  }

  // ---- The code ----

  datatype Outcome = Accepted | WorkerOutOfRange | DatacenterOutOfRange

  class Snowflake {
    const epoch: int
    const clock: nat -> int
    var readings: nat
    var lastTimestamp: int
    var workerid: int
    var datacenterid: int
    var sequence: nat

    ghost function Now(): Point
      reads this
    {
      Point(Generator(lastTimestamp, workerid, datacenterid, sequence), readings)
    }

    ghost predicate Valid()
      reads this
    {
      Steady(clock) && Behind(Now(), clock)
    }

    /** A clock that starts at or after 1970 is ahead of the -1 that stands for no id yet. */
    constructor (epoch: int, clock: nat -> int)
      requires Steady(clock) && 0 <= clock(0)
      ensures Valid() && this.epoch == epoch && this.clock == clock
      ensures Now() == Point(Generator(-1, 0, 0, 0), 0)
    {
      this.epoch, this.clock := epoch, clock;
      readings, lastTimestamp, workerid, datacenterid, sequence := 0, -1, 0, 0, 0;
    }

    method Init(workerid: int, datacenterid: int) returns (outcome: Outcome)
      requires Valid()
      modifies this`workerid, this`datacenterid
      ensures Valid()
      ensures outcome.Accepted? <==> 0 <= workerid <= 31 && 0 <= datacenterid <= 31
      ensures outcome.WorkerOutOfRange? <==> !(0 <= workerid <= 31)
      ensures Now().g == if outcome.Accepted?
                         then old(Now()).g.(worker := workerid, datacenter := datacenterid)
                         else old(Now()).g
    {
      Widths();
      if workerid > MAX_WORKER_ID || workerid < 0 {
        return WorkerOutOfRange;
      }
      if datacenterid > MAX_DATACENTER_ID || datacenterid < 0 {
        return DatacenterOutOfRange;
      }
      this.workerid := workerid;
      this.datacenterid := datacenterid;
      outcome := Accepted;
    }

    method Millsecond() returns (now: int)
      modifies this`readings
      ensures now == clock(old(readings)) && readings == old(readings) + 1
    {
      now := clock(readings);
      readings := readings + 1;
    }

    method WaitNextMillis(last: int) returns (timestamp: int)
      requires Steady(clock)
      modifies this`readings
      ensures var i := FirstAfter(clock, old(readings), last);
              readings == i + 1 && timestamp == clock(i)
    {
      ghost var first := FirstAfter(clock, readings, last);
      timestamp := Millsecond();
      while timestamp <= last
        invariant old(readings) < readings <= first + 1 && timestamp == clock(readings - 1)
        decreases first + 1 - readings
      {
        timestamp := Millsecond();
      }
    }

    /** `nextid`: the new state is the next point of the run, and the id is the one packed
        from it. */
    method NextId() returns (id: int)
      requires Valid()
      modifies this`readings, this`lastTimestamp, this`sequence
      ensures Valid() && Now() == Next(old(Now()), clock)
      ensures id == Id(Now().g, epoch)
    {
      hide Steady, ShiftLeft, BitOr, BitAnd;
      NextAdvances(Now(), clock);
      NextMask(sequence);
      var timestamp := Millsecond();
      if lastTimestamp == timestamp {
        sequence := BitAnd(sequence + 1, SEQUENCE_MASK);
        if sequence == 0 {
          timestamp := WaitNextMillis(lastTimestamp);
        }
      } else {
        sequence := 0;
      }
      lastTimestamp := timestamp;
      Layout(Now().g, epoch);
      id := Signed(BitOr(BitOr(BitOr(
        ShiftLeft(timestamp - epoch, TIMESTAMP_LEFT_SHIFT),
        ShiftLeft(datacenterid, DATACENTER_ID_SHIFT)),
        ShiftLeft(workerid, WORKER_ID_SHIFT)),
        ShiftLeft(sequence, 0)));
    }
  }
}
