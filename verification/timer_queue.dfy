/** The timer queue: an ordered set keyed by a copy of each timer's expiration, one timerfd
    armed for its first entry, and a handler whose callbacks may add timers while the
    expired ones are out of the set. Times are microseconds. */
module TimerQueues {

  const MICROSECONDS_PER_SECOND: int := 1000 * 1000

  /** The largest pointer value; no object lives there. */
  const UINTPTR_MAX: nat := 0xFFFF_FFFF_FFFF_FFFF

  class Timer {
    const address: nat
    const delta: int       // the interval in microseconds
    const repeats: bool
    var expiration: int

    constructor (address: nat, when: int, delta: int, repeats: bool)
      ensures this.address == address && expiration == when
      ensures this.delta == delta && this.repeats == repeats
    {
      this.address, this.delta, this.repeats, expiration := address, delta, repeats, when;
    }

    method Restart(now: int)
      modifies this
      ensures expiration == if repeats then now + delta else 0
    {
      if repeats {
        expiration := now + delta;
      } else {
        expiration := 0;
      }
    }
  }

  /** A key of the set: the time it was inserted for, and the timer. */
  datatype Entry = Entry(when: int, timer: Timer)

  // ---- std::set<std::pair<Timestamp, Timer*>>, as a sorted sequence ----

  predicate Below(e: Entry, when: int, address: nat) {
    e.when < when || (e.when == when && e.timer.address < address)
  }

  predicate Less(a: Entry, b: Entry) {
    Below(a, b.when, b.timer.address)
  }

  ghost predicate Sorted(s: seq<Entry>) {
    forall i, j :: 0 <= i < j < |s| ==> Less(s[i], s[j])
  }

  /** How many entries lie below a given key: where `lower_bound` points. */
  function LowerBound(s: seq<Entry>, when: int, address: nat): (n: nat)
    ensures n <= |s|
  {
    if s == [] || !Below(s[0], when, address) then 0 else 1 + LowerBound(s[1..], when, address)
  }

  lemma {:induction false} LowerBoundSplits(s: seq<Entry>, when: int, address: nat)
    requires Sorted(s)
    ensures var n := LowerBound(s, when, address);
            && (forall i :: 0 <= i < n ==> Below(s[i], when, address))
            && (forall i :: n <= i < |s| ==> !Below(s[i], when, address))
  {
    if s != [] && Below(s[0], when, address) {
      LowerBoundSplits(s[1..], when, address);
      var n := LowerBound(s, when, address);
      forall i | 0 <= i < n ensures Below(s[i], when, address) {
        assert i > 0 ==> s[i] == s[1..][i - 1];
      }
      forall i | n <= i < |s| ensures !Below(s[i], when, address) {
        assert s[i] == s[1..][i - 1];
      }
    } else if s != [] {
      forall i | 0 <= i < |s| ensures !Below(s[i], when, address) {
        assert i > 0 ==> Less(s[0], s[i]);
      }
    }
  }

  /** `timers_.insert`: nothing when the key is already there. */
  function Inserted(s: seq<Entry>, e: Entry): seq<Entry> {
    var n := LowerBound(s, e.when, e.timer.address);
    if n < |s| && !Less(e, s[n]) then s else s[..n] + [e] + s[n..]
  }

  /** No two entries, nor the new one, have the same address. */
  ghost predicate Distinct(s: seq<Entry>) {
    forall i, j :: 0 <= i < j < |s| ==> s[i].timer.address != s[j].timer.address
  }

  ghost predicate Absent(s: seq<Entry>, address: nat) {
    forall i :: 0 <= i < |s| ==> s[i].timer.address != address
  }

  lemma InsertedWhere(s: seq<Entry>, e: Entry)
    requires Sorted(s) && Absent(s, e.timer.address)
    ensures var n := LowerBound(s, e.when, e.timer.address);
            && Inserted(s, e) == s[..n] + [e] + s[n..]
            && (forall i :: 0 <= i < n ==> Less(s[i], e))
            && (forall i :: n <= i < |s| ==> Less(e, s[i]))
  {
    hide LowerBound, Sorted;
    LowerBoundSplits(s, e.when, e.timer.address);
    var n := LowerBound(s, e.when, e.timer.address);
    forall i | n <= i < |s| ensures Less(e, s[i]) {
      assert !Below(s[i], e.when, e.timer.address);
    }
  }

  lemma InsertedSorted(s: seq<Entry>, e: Entry, n: nat)
    requires Sorted(s) && n <= |s|
    requires forall i :: 0 <= i < n ==> Less(s[i], e)
    requires forall i :: n <= i < |s| ==> Less(e, s[i])
    ensures Sorted(s[..n] + [e] + s[n..])
  {
    hide Less;
    var r := s[..n] + [e] + s[n..];
    assert forall i :: 0 <= i < n ==> r[i] == s[i];
    assert r[n] == e;
    assert forall i :: n < i < |r| ==> r[i] == s[i - 1];
  }

  lemma InsertedDistinct(s: seq<Entry>, e: Entry, n: nat)
    requires Distinct(s) && Absent(s, e.timer.address) && n <= |s|
    ensures Distinct(s[..n] + [e] + s[n..])
  {
    var r := s[..n] + [e] + s[n..];
    assert forall i :: 0 <= i < n ==> r[i] == s[i];
    assert r[n] == e;
    assert forall i :: n < i < |r| ==> r[i] == s[i - 1];
  }

  /** Insertion of a key for a timer that is not in the set keeps it ordered, adds just
      this key, and puts it first exactly when it is below the first. */
  lemma InsertedKeeps(s: seq<Entry>, e: Entry)
    requires Sorted(s) && Distinct(s) && Absent(s, e.timer.address)
    ensures var r := Inserted(s, e);
            && Sorted(r) && Distinct(r) && r != []
            && multiset(r) == multiset(s) + multiset{e}
            && (r[0] == e <==> s == [] || Less(e, s[0]))
            && (s != [] && !Less(e, s[0]) ==> r[0] == s[0])
  {
    var n := LowerBound(s, e.when, e.timer.address);
    hide LowerBound, Inserted, Sorted, Distinct, Absent;
    InsertedWhere(s, e);
    InsertedSorted(s, e, n);
    InsertedDistinct(s, e, n);
    InsertedMultiset(s, e, n);
    AbsentFirst(s, e.timer.address);
    assert (s[..n] + [e] + s[n..])[0] == if n == 0 then e else s[0];
  }

  lemma InsertedMultiset(s: seq<Entry>, e: Entry, n: nat)
    requires n <= |s|
    ensures multiset(s[..n] + [e] + s[n..]) == multiset(s) + multiset{e}
  {
    assert s == s[..n] + s[n..];
  }

  lemma AbsentFirst(s: seq<Entry>, address: nat)
    requires Absent(s, address)
    ensures s != [] ==> s[0].timer.address != address
  {
  }

  // ---- The timerfd ----

  /** Not set, or set at time `at` to expire once after a relative delay. */
  datatype Timerfd = Unset | Set(sec: int, nsec: int, at: int, expired: bool) {

    /** The time it expires at, in microseconds. */
    function Deadline(): int
      requires Set?
    {
      at + sec * MICROSECONDS_PER_SECOND + nsec / 1000
    }
  }

  function Max(a: int, b: int): int {
    if a < b then b else a
  }

  /** What `resetTimerfd` passes to the kernel at time `now`. */
  function Armed(expiration: int, now: int): Timerfd {
    var dif := Max(expiration - now, 100);
    Set(dif / MICROSECONDS_PER_SECOND, dif % MICROSECONDS_PER_SECOND * 1000, now, false)
  }

  /** The split into seconds and nanoseconds is exact and well formed, so the timerfd
      expires at the later of the expiration and 100 microseconds from now. */
  lemma ArmedExactly(expiration: int, now: int)
    ensures var fd := Armed(expiration, now);
            && fd.Deadline() == Max(expiration, now + 100)
            && 0 <= fd.sec && 0 <= fd.nsec < 1000_000_000 && (fd.sec, fd.nsec) != (0, 0)
  {
    var dif := Max(expiration - now, 100);
    var micros := dif % MICROSECONDS_PER_SECOND;
    assert dif == dif / MICROSECONDS_PER_SECOND * MICROSECONDS_PER_SECOND + micros;
    assert micros * 1000 / 1000 == micros;
  }

  /** The timerfd is going to make the loop look at this set: it is set for the first
      entry, or there is nothing to wait for. */
  predicate Watched(timers: seq<Entry>, fd: Timerfd) {
    timers != [] ==> fd.Set? && fd.Deadline() == Max(timers[0].when, fd.at + 100)
  }

  /** A timerfd as reading it leaves it: an expiration is consumed. */
  function ReadFd(fd: Timerfd): Timerfd {
    if fd.Set? && fd.expired then Unset else fd
  }

  lemma ReadWatchedIff(timers: seq<Entry>, fd: Timerfd)
    requires Watched(timers, fd)
    ensures Watched(timers, ReadFd(fd)) <==> !(fd.Set? && fd.expired) || timers == []
  {
  }

  // ---- The queue ----

  function Timers(s: seq<Entry>): set<Timer> {
    set e | e in s :: e.timer
  }

  /** The timers of `s` that fire once, in order. */
  function OneShots(s: seq<Entry>): seq<Timer> {
    if s == [] then []
    else
      var rest, last := OneShots(s[..|s| - 1]), s[|s| - 1].timer;
      if last.repeats then rest else rest + [last]
  }

  function Members(timers: seq<Timer>): set<Timer> {
    set t | t in timers
  }

  lemma OneShotsNext(s: seq<Entry>, i: nat, before: seq<Timer>, all: set<Timer>)
    requires i < |s|
    ensures before + OneShots(s[..i + 1])
         == before + OneShots(s[..i]) + if s[i].timer.repeats then [] else [s[i].timer]
    ensures all - Members(OneShots(s[..i + 1]))
         == all - Members(OneShots(s[..i])) - if s[i].timer.repeats then {} else {s[i].timer}
  {
    assert s[..i + 1][..i] == s[..i];
  }

  /** Insertion of a key for a timer that is not in the set. */
  lemma InsertedEntries(s: seq<Entry>, e: Entry)
    requires Sorted(s) && Distinct(s) && Absent(s, e.timer.address)
    ensures var r := Inserted(s, e);
            && (forall x :: x in r <==> x in s || x == e)
            && Timers(r) == Timers(s) + {e.timer}
  {
    hide LowerBound, Sorted, Distinct, Absent;
    var r, n := Inserted(s, e), LowerBound(s, e.when, e.timer.address);
    InsertedWhere(s, e);
    assert s == s[..n] + s[n..];
    assert forall x :: x in r <==> x in s[..n] || x == e || x in s[n..];
    assert forall x :: x in s <==> x in s[..n] || x in s[n..];
    assert forall x :: x in r <==> x in s || x == e;
    forall t ensures t in Timers(r) <==> t in Timers(s) || t == e.timer {
    }
  }

  /** The parts of consistency that speak of one entry at a time. */
  ghost predicate EntryFits(e: Entry, out: seq<Entry>, live: set<Timer>)
    reads e.timer
  {
    && e.timer in live && e.when == e.timer.expiration
    && forall j :: 0 <= j < |out| ==> e.timer.address != out[j].timer.address
  }

  /** The state of the queue while the timers `out` are out of the set: every key is the
      current expiration of its timer, and every live timer is in the set or out of it
      exactly once. */
  ghost predicate Consistent(timers: seq<Entry>, out: seq<Entry>, live: set<Timer>, freed: seq<Timer>)
    reads live
  {
    && Sorted(timers) && Distinct(timers) && Distinct(out)
    && live == Timers(timers) + Timers(out)
    && (forall t :: t in live ==> t.address < UINTPTR_MAX)
    && (forall i :: 0 <= i < |timers| ==> timers[i].timer in live && EntryFits(timers[i], out, live))
    && (forall t :: t in freed ==> t !in live)
    && (forall i, j :: 0 <= i < j < |freed| ==> freed[i] != freed[j])
  }

  lemma InsertedFits(timers: seq<Entry>, r: seq<Entry>, e: Entry, out: seq<Entry>, live: set<Timer>)
    requires forall i :: 0 <= i < |r| ==> r[i] in timers || r[i] == e
    requires forall i :: 0 <= i < |timers| ==> EntryFits(timers[i], out, live)
    requires EntryFits(e, out, live + {e.timer})
    ensures forall i :: 0 <= i < |r| ==> EntryFits(r[i], out, live + {e.timer})
  {
    forall i | 0 <= i < |r| ensures EntryFits(r[i], out, live + {e.timer}) {
      if r[i] in timers {
        var k :| 0 <= k < |timers| && timers[k] == r[i];
        assert EntryFits(timers[k], out, live);
      }
    }
  }

  /** A live timer that is in neither place joins the set under its expiration. */
  lemma InsertConsistent(timers: seq<Entry>, out: seq<Entry>, live: set<Timer>, freed: seq<Timer>, timer: Timer)
    requires Consistent(timers, out, live, freed)
    requires Absent(timers, timer.address) && Absent(out, timer.address)
    requires timer.address < UINTPTR_MAX && timer !in freed
    ensures Consistent(Inserted(timers, Entry(timer.expiration, timer)), out, live + {timer}, freed)
  {
    hide LowerBound, Sorted, Distinct, Absent, Timers, EntryFits;
    var e := Entry(timer.expiration, timer);
    var r := Inserted(timers, e);
    InsertedKeeps(timers, e);
    InsertedEntries(timers, e);
    NewFits(out, live, timer);
    assert forall i :: 0 <= i < |r| ==> r[i] in r;
    InsertedFits(timers, r, e, out, live);
    FitsLive(r, out, live + {timer});
  }

  lemma NewFits(out: seq<Entry>, live: set<Timer>, timer: Timer)
    requires Absent(out, timer.address)
    ensures EntryFits(Entry(timer.expiration, timer), out, live + {timer})
  {
  }

  lemma FitsLive(s: seq<Entry>, out: seq<Entry>, live: set<Timer>)
    requires forall i :: 0 <= i < |s| ==> EntryFits(s[i], out, live)
    ensures forall i :: 0 <= i < |s| ==> s[i].timer in live
  {
  }

  lemma AbsentFresh(timers: seq<Entry>, out: seq<Entry>, live: set<Timer>, freed: seq<Timer>, address: nat)
    requires Consistent(timers, out, live, freed) && forall t :: t in live ==> t.address != address
    ensures Sorted(timers) && Distinct(timers) && Absent(timers, address) && Absent(out, address)
  {
    forall i | 0 <= i < |out| ensures out[i].timer.address != address {
      assert out[i] in out;
    }
  }

  /** A timer at an address that no live one has joins the set. */
  lemma AddedConsistent(timers: seq<Entry>, out: seq<Entry>, live: set<Timer>, freed: seq<Timer>, timer: Timer)
    requires Consistent(timers, out, live, freed) && timer !in freed
    requires timer.address < UINTPTR_MAX && forall t :: t in live ==> t.address != timer.address
    ensures var r := Inserted(timers, Entry(timer.expiration, timer));
            && Consistent(r, out, live + {timer}, freed)
            && Entry(timer.expiration, timer) in r && forall x :: x in timers ==> x in r
    ensures Sorted(timers) && Distinct(timers) && Absent(timers, timer.address)
  {
    AbsentFresh(timers, out, live, freed, timer.address);
    hide Consistent, Inserted, Sorted, Distinct, Absent;
    InsertConsistent(timers, out, live, freed, timer);
    InsertedEntries(timers, Entry(timer.expiration, timer));
  }

  lemma ConsistentOrder(timers: seq<Entry>, out: seq<Entry>, live: set<Timer>, freed: seq<Timer>)
    requires Consistent(timers, out, live, freed)
    ensures Sorted(timers) && Distinct(timers)
  {
  }

  lemma FirstCurrent(timers: seq<Entry>, out: seq<Entry>, live: set<Timer>, freed: seq<Timer>)
    requires Consistent(timers, out, live, freed) && timers != []
    ensures timers[0].when == timers[0].timer.expiration
  {
  }

  /** Splitting the set at a time takes its expired entries out. */
  lemma SplitConsistent(timers: seq<Entry>, live: set<Timer>, freed: seq<Timer>, now: int)
    requires Consistent(timers, [], live, freed)
    ensures var n := LowerBound(timers, now, UINTPTR_MAX);
            && Consistent(timers[n..], timers[..n], live, freed)
            && (forall i :: 0 <= i < n ==> timers[i].when <= now)
            && (forall i :: n <= i < |timers| ==> now < timers[i].when)
  {
    hide LowerBound, Timers, Sorted, Distinct;
    var n := LowerBound(timers, now, UINTPTR_MAX);
    var rest := timers[n..];
    LowerBoundSplits(timers, now, UINTPTR_MAX);
    TimersSplit(timers, n);
    Slices(timers, n);
    assert forall i :: 0 <= i < |rest| ==> rest[i] == timers[n + i];
    assert forall i :: 0 <= i < n ==> timers[..n][i] == timers[i];
    NoTimers();
    hide Below;
    assert Consistent(rest, timers[..n], live, freed);
  }

  lemma NoTimers()
    ensures Timers([]) == {}
  {
  }

  lemma Slices(s: seq<Entry>, n: nat)
    requires Sorted(s) && Distinct(s) && n <= |s|
    ensures Sorted(s[n..]) && Distinct(s[n..]) && Distinct(s[..n])
    ensures forall i, j :: 0 <= i < |s[n..]| && 0 <= j < n ==> s[n..][i].timer.address != s[j].timer.address
  {
  }

  lemma TimersSplit(s: seq<Entry>, n: nat)
    requires n <= |s|
    ensures Timers(s) == Timers(s[n..]) + Timers(s[..n])
  {
    assert s == s[..n] + s[n..];
    assert forall e :: e in s <==> e in s[..n] || e in s[n..];
  }

  lemma TakeAlone(timers: seq<Entry>, e: Entry, out: seq<Entry>, live: set<Timer>, freed: seq<Timer>)
    requires Consistent(timers, [e] + out, live, freed)
    ensures Absent(timers, e.timer.address) && Absent(out, e.timer.address) && Distinct(out)
    ensures forall i :: 0 <= i < |timers| ==> EntryFits(timers[i], out, live)
  {
    hide Sorted, Timers;
    var all := [e] + out;
    assert all[0] == e && forall i :: 0 <= i < |out| ==> all[i + 1] == out[i];
    forall i | 0 <= i < |timers|
      ensures timers[i].timer.address != e.timer.address && EntryFits(timers[i], out, live)
    {
      assert EntryFits(timers[i], all, live);
    }
  }

  lemma TakeLive(timers: seq<Entry>, e: Entry, out: seq<Entry>, live: set<Timer>, freed: seq<Timer>)
    requires Consistent(timers, [e] + out, live, freed)
    ensures e.timer in live && e.timer !in freed && e.timer.address < UINTPTR_MAX
    ensures live == Timers(timers) + Timers(out) + {e.timer}
  {
    hide Sorted, Distinct, EntryFits;
    var all := [e] + out;
    assert forall x :: x in all <==> x == e || x in out;
    assert Timers(all) == {e.timer} + Timers(out);
  }

  lemma AbsentTimer(s: seq<Entry>, timer: Timer)
    requires Absent(s, timer.address)
    ensures timer !in Timers(s)
  {
  }

  lemma FitsWithout(timers: seq<Entry>, out: seq<Entry>, live: set<Timer>, timer: Timer)
    requires Absent(timers, timer.address)
    requires forall i :: 0 <= i < |timers| ==> EntryFits(timers[i], out, live)
    ensures forall i :: 0 <= i < |timers| ==> EntryFits(timers[i], out, live - {timer})
  {
    forall i | 0 <= i < |timers|
      ensures EntryFits(timers[i], out, live - {timer})
    {
      assert EntryFits(timers[i], out, live);
    }
  }

  /** The first of the entries that are out, seen on its own. */
  lemma TakeConsistent(timers: seq<Entry>, e: Entry, out: seq<Entry>, live: set<Timer>, freed: seq<Timer>)
    requires Consistent(timers, [e] + out, live, freed)
    ensures e.timer in live && e.timer !in freed && e.timer.address < UINTPTR_MAX
    ensures Absent(timers, e.timer.address) && Absent(out, e.timer.address)
    ensures Consistent(timers, out, live - {e.timer}, freed)
    ensures Consistent(timers, out, live - {e.timer}, freed + [e.timer])
  {
    hide Sorted, Distinct, Timers, EntryFits, Absent;
    TakeAlone(timers, e, out, live, freed);
    TakeLive(timers, e, out, live, freed);
    AbsentTimer(timers, e.timer);
    AbsentTimer(out, e.timer);
    FitsWithout(timers, out, live, e.timer);
    FitsLive(timers, out, live - {e.timer});
    FreedMore(live, freed, e.timer);
  }

  lemma FreedMore(live: set<Timer>, freed: seq<Timer>, timer: Timer)
    requires (forall t :: t in freed ==> t !in live) && timer in live
    requires forall i, j :: 0 <= i < j < |freed| ==> freed[i] != freed[j]
    ensures forall t :: t in freed + [timer] ==> t !in live - {timer}
    ensures forall i, j :: 0 <= i < j < |freed + [timer]| ==> (freed + [timer])[i] != (freed + [timer])[j]
  {
  }

  /** The timer expires one interval after one of these times. */
  ghost predicate Restarted(timer: Timer, times: seq<int>)
    reads timer
  {
    exists k :: 0 <= k < |times| && timer.expiration == times[k] + timer.delta
  }

  /** A repeating timer of `expired` is back in the set, under a time read since. */
  ghost predicate AllBack(expired: seq<Entry>, timers: seq<Entry>, times: seq<int>)
    reads Timers(expired)
  {
    forall e :: e in expired && e.timer.repeats ==>
      e.timer in Timers(expired) && Entry(e.timer.expiration, e.timer) in timers && Restarted(e.timer, times)
  }

  lemma RestartedLater(timer: Timer, times: seq<int>, before: int, later: seq<int>)
    requires 0 <= before <= |times| && times <= later && Restarted(timer, times[before..])
    ensures Restarted(timer, later[before..])
  {
    var k :| 0 <= k < |times[before..]| && timer.expiration == times[before..][k] + timer.delta;
    assert later[before..][k] == times[before..][k];
  }

  lemma RestartedSince(timer: Timer, times: seq<int>, early: int, late: int)
    requires 0 <= early <= late <= |times| && Restarted(timer, times[late..])
    ensures Restarted(timer, times[early..])
  {
    var k :| 0 <= k < |times[late..]| && timer.expiration == times[late..][k] + timer.delta;
    assert times[early..][late - early + k] == times[late..][k];
  }

  lemma BackSince(expired: seq<Entry>, timers: seq<Entry>, times: seq<int>, early: int, late: int)
    requires 0 <= early <= late <= |times| && AllBack(expired, timers, times[late..])
    ensures AllBack(expired, timers, times[early..])
  {
    hide Restarted;
    forall e | e in expired && e.timer.repeats
      ensures e.timer in Timers(expired) && Restarted(e.timer, times[early..])
    {
      RestartedSince(e.timer, times, early, late);
    }
  }

  lemma BackGrows(part: seq<Entry>, before: seq<Entry>, after: seq<Entry>, times: seq<int>, start: int, later: seq<int>)
    requires 0 <= start <= |times| && times <= later && AllBack(part, before, times[start..])
    requires forall x :: x in before ==> x in after
    ensures AllBack(part, after, later[start..])
  {
    hide Restarted;
    forall e | e in part && e.timer.repeats
      ensures e.timer in Timers(part) && Restarted(e.timer, later[start..])
    {
      RestartedLater(e.timer, times, start, later);
    }
  }

  lemma BackNext(expired: seq<Entry>, i: nat, timers: seq<Entry>, times: seq<int>, early: int, late: int)
    requires i < |expired| && 0 <= early <= late <= |times| && AllBack(expired[..i], timers, times[early..])
    requires var t := expired[i].timer;
             t.repeats ==> Entry(t.expiration, t) in timers && Restarted(t, times[late..])
    ensures AllBack(expired[..i + 1], timers, times[early..])
  {
    var part := expired[..i + 1];
    assert forall e :: e in part <==> e in expired[..i] || e == expired[i];
    if expired[i].timer.repeats {
      RestartedSince(expired[i].timer, times, early, late);
    }
    hide Restarted;
    forall e | e in part && e.timer.repeats
      ensures e.timer in Timers(part) && Entry(e.timer.expiration, e.timer) in timers
      ensures Restarted(e.timer, times[early..])
    {
    }
  }

  lemma Beginning(expired: seq<Entry>, timers: seq<Entry>, times: seq<int>, all: set<Timer>)
    ensures expired[0..] == expired && AllBack(expired[..0], timers, times)
    ensures OneShots(expired[..0]) == [] && all - Members([]) == all
  {
  }

  lemma OutAreLive(timers: seq<Entry>, out: seq<Entry>, live: set<Timer>, freed: seq<Timer>)
    requires Consistent(timers, out, live, freed)
    ensures Timers(out) <= live
  {
  }

  lemma WholeList(expired: seq<Entry>)
    ensures expired[|expired|..] == [] && expired[..|expired|] == expired
  {
  }

  lemma Alone(expired: seq<Entry>, i: nat)
    requires i < |expired| && forall j, k :: 0 <= j < k < |expired| ==> expired[j].timer != expired[k].timer
    ensures expired[i].timer !in Timers(expired[..i])
  {
  }

  lemma DistinctTimers(timers: seq<Entry>, out: seq<Entry>, live: set<Timer>, freed: seq<Timer>)
    requires Consistent(timers, out, live, freed)
    ensures forall i, j :: 0 <= i < j < |out| ==> out[i].timer != out[j].timer
  {
  }

  /** The timers of these entries, in order. */
  function InOrder(s: seq<Entry>): seq<Timer> {
    seq(|s|, i requires 0 <= i < |s| => s[i].timer)
  }

  /** What can happen between handlers: a timer is added, the kernel lets the timerfd expire,
      or the handler runs. */
  datatype Command =
    | Add(address: nat, when: int, delta: int, repeats: bool)
    | Expires(clock: int)
    | Handle(now: int)

  datatype Snapshot = Snapshot(timers: seq<Entry>, timerfd: Timerfd, fired: seq<Timer>, freed: seq<Timer>)

  /** The allocator gives a free address, a set timerfd expires once its deadline has come,
      and the handler of an expired one reads a time that has reached the deadline. */
  ghost predicate Possible(s: Snapshot, command: Command) {
    match command
    case Add(address, _, _, _) => address < UINTPTR_MAX && Absent(s.timers, address)
    case Expires(clock) => s.timerfd.Set? && s.timerfd.Deadline() <= clock
    case Handle(now) => s.timerfd.Set? && s.timerfd.expired && s.timerfd.Deadline() <= now
  }

  predicate AddedBy(timers: seq<Entry>, e: Entry, command: Command)
    requires command.Add?
  {
    && e in timers && e.when == command.when && e.timer.address == command.address
    && e.timer.delta == command.delta && e.timer.repeats == command.repeats
  }

  /** What a possible command makes of one snapshot: the new timer is inserted; the timerfd
      has expired; exactly the due timers, of which there are some, fire and are freed or
      back in the set, and the others stay. */
  ghost predicate Follows(s: Snapshot, command: Command, t: Snapshot) {
    if !Possible(s, command) then t == s
    else
      match command
      case Add(_, _, _, _) =>
        && (exists e :: e in t.timers && AddedBy(t.timers, e, command) && t.timers == Inserted(s.timers, e))
        && t.fired == s.fired && t.freed == s.freed
      case Expires(_) => t == s.(timerfd := s.timerfd.(expired := true))
      case Handle(now) =>
        && (s.timers != [] ==> 0 < LowerBound(s.timers, now, UINTPTR_MAX))
        && Handled(s, LowerBound(s.timers, now, UINTPTR_MAX), t)
  }

  /** The first `n` timers have fired. */
  ghost predicate Handled(s: Snapshot, n: nat, t: Snapshot)
    requires n <= |s.timers|
  {
    && t.fired == s.fired + InOrder(s.timers[..n]) && t.freed == s.freed + OneShots(s.timers[..n])
    && (forall e :: e in s.timers[n..] ==> e in t.timers)
    && (forall e :: e in s.timers[..n] && e.timer.repeats ==>
          exists f :: f in t.timers && f.timer == e.timer)
  }

  lemma AddFollows(s: Snapshot, command: Command, t: Snapshot, e: Entry)
    requires command.Add? && Possible(s, command) && AddedBy(t.timers, e, command)
    requires t.timers == Inserted(s.timers, e) && t.fired == s.fired && t.freed == s.freed
    ensures Follows(s, command, t)
  {
    hide Inserted, Absent;
  }

  lemma AbsentIff(timers: seq<Entry>, live: set<Timer>, freed: seq<Timer>, address: nat)
    requires Consistent(timers, [], live, freed)
    ensures Absent(timers, address) <==> forall t :: t in live ==> t.address != address
  {
    assert Timers([]) == {};
    if Absent(timers, address) {
      forall t | t in live
        ensures t.address != address
      {
        var e :| e in timers && e.timer == t;
      }
    } else {
      var i :| 0 <= i < |timers| && timers[i].timer.address == address;
      assert timers[i].timer in live;
    }
  }

  /** At the deadline the first timer is due. */
  lemma DueFirst(timers: seq<Entry>, fd: Timerfd, now: int)
    requires Watched(timers, fd) && fd.Set? && fd.Deadline() <= now
    ensures timers != [] ==> timers[0].when <= now
  {
  }

  lemma InOrderOfTime(timers: seq<Entry>, live: set<Timer>, freed: seq<Timer>)
    requires Consistent(timers, [], live, freed)
    ensures Sorted(timers) && BelowMax(timers)
  {
    hide Sorted;
  }

  lemma BackIn(expired: seq<Entry>, timers: seq<Entry>, times: seq<int>)
    requires AllBack(expired, timers, times)
    ensures RepeatersBack(expired, timers)
  {
    hide Restarted;
    forall e | e in expired && e.timer.repeats
      ensures exists f :: f in timers && f.timer == e.timer
    {
      assert Entry(e.timer.expiration, e.timer) in timers;
    }
  }

  /** The first `n` entries are the due ones. */
  predicate DuePrefix(s: seq<Entry>, now: int, n: nat) {
    n <= |s| && forall i :: 0 <= i < |s| ==> (i < n <==> s[i].when <= now)
  }

  predicate LaterStay(s: seq<Entry>, now: int, t: seq<Entry>) {
    forall x :: x in s && now < x.when ==> x in t
  }

  predicate RepeatersBack(expired: seq<Entry>, t: seq<Entry>) {
    forall e :: e in expired && e.timer.repeats ==> exists f :: f in t && f.timer == e.timer
  }

  predicate BelowMax(s: seq<Entry>) {
    forall i :: 0 <= i < |s| ==> s[i].timer.address < UINTPTR_MAX
  }

  lemma DueCount(s: seq<Entry>, now: int, k: nat)
    requires Sorted(s) && BelowMax(s) && DuePrefix(s, now, k)
    ensures LowerBound(s, now, UINTPTR_MAX) == k
  {
    LowerBoundSplits(s, now, UINTPTR_MAX);
    hide LowerBound, Sorted;
    var n := LowerBound(s, now, UINTPTR_MAX);
    DueIff(s, now, n);
    SameCount(s, now, n, k);
  }

  lemma DueIff(s: seq<Entry>, now: int, n: nat)
    requires n <= |s| && BelowMax(s)
    requires forall i :: 0 <= i < n ==> Below(s[i], now, UINTPTR_MAX)
    requires forall i :: n <= i < |s| ==> !Below(s[i], now, UINTPTR_MAX)
    ensures DuePrefix(s, now, n)
  {
  }

  lemma SameCount(s: seq<Entry>, now: int, n: nat, k: nat)
    requires DuePrefix(s, now, n) && DuePrefix(s, now, k)
    ensures n == k
  {
    assert n < |s| ==> (n < k <==> s[n].when <= now);
    assert k < |s| ==> (k < n <==> s[k].when <= now);
  }

  lemma HandledParts(s: Snapshot, now: int, n: nat, t: Snapshot)
    requires DuePrefix(s.timers, now, n) && LaterStay(s.timers, now, t.timers)
    requires RepeatersBack(s.timers[..n], t.timers)
    requires t.fired == s.fired + InOrder(s.timers[..n]) && t.freed == s.freed + OneShots(s.timers[..n])
    ensures Handled(s, n, t)
  {
    hide InOrder, OneShots;
    var rest := s.timers[n..];
    forall e | e in rest
      ensures e in t.timers
    {
      var i :| 0 <= i < |rest| && rest[i] == e;
      assert e == s.timers[n + i];
    }
  }

  lemma HandledFollows(s: Snapshot, now: int, n: nat, t: Snapshot)
    requires Sorted(s.timers) && BelowMax(s.timers) && Possible(s, Handle(now))
    requires s.timers != [] ==> s.timers[0].when <= now
    requires DuePrefix(s.timers, now, n) && LaterStay(s.timers, now, t.timers)
    requires RepeatersBack(s.timers[..n], t.timers)
    requires t.fired == s.fired + InOrder(s.timers[..n]) && t.freed == s.freed + OneShots(s.timers[..n])
    ensures Follows(s, Handle(now), t)
  {
    HandledParts(s, now, n, t);
    DueCount(s.timers, now, n);
    hide Sorted, BelowMax, InOrder, OneShots, LowerBound, Handled, LaterStay, RepeatersBack;
  }

  class TimerQueue {
    var timers: seq<Entry>
    var timerfd: Timerfd
    var live: set<Timer>       // timers allocated and not yet deleted
    ghost var freed: seq<Timer>      // timers deleted, in order
    ghost var fired: seq<Timer>      // timers whose callback was run, in order
    ghost var readings: seq<int>     // what the clock showed, reading after reading

    /** Between handlers. */
    ghost predicate Valid()
      reads this, live
    {
      Consistent(timers, [], live, freed)
    }

    constructor ()
      ensures Valid() && timers == [] && live == {} && Watched(timers, timerfd)
      ensures freed == [] && fired == [] && readings == []
    {
      timers, timerfd, live, freed, fired, readings := [], Unset, {}, [], [], [];
    }

    /** `Timestamp::now()`: any time at all. */
    method Now() returns (now: int)
      modifies this`readings
      ensures readings == old(readings) + [now]
    {
      now := *;
      readings := readings + [now];
    }

    method ResetTimerfd(expiration: int)
      modifies this`timerfd, this`readings
      ensures timerfd.Set? && !timerfd.expired
      ensures timerfd.Deadline() == Max(expiration, timerfd.at + 100)
      ensures readings == old(readings) + [timerfd.at]
    {
      var now := Now();
      ArmedExactly(expiration, now);
      timerfd := Armed(expiration, now);
    }

    /** True when the new entry comes before all others by its time. */
    method Insert(timer: Timer) returns (earliestChanged: bool)
      modifies this`timers
      ensures timers == Inserted(old(timers), Entry(timer.expiration, timer))
      ensures earliestChanged <==> old(timers) == [] || timer.expiration < old(timers)[0].when
    {
      earliestChanged := timers == [] || timer.expiration < timers[0].when;
      timers := Inserted(timers, Entry(timer.expiration, timer));
    }

    /** The timerfd is kept set for the first entry, if it was. */
    method AddTimerInLoop(timer: Timer)
      requires Sorted(timers) && Distinct(timers) && Absent(timers, timer.address)
      modifies this`timers, this`timerfd, this`readings
      ensures timers == Inserted(old(timers), Entry(timer.expiration, timer))
      ensures old(readings) <= readings
      ensures Watched(old(timers), old(timerfd)) ==> Watched(timers, timerfd)
    {
      InsertedKeeps(timers, Entry(timer.expiration, timer));
      var earliestChanged := Insert(timer);
      if earliestChanged {
        ResetTimerfd(timer.expiration);
      }
    }

    /** `addTimer` from the loop thread, also from a callback. The allocator gives the
        timer an address that no live object has. */
    method AddTimer(address: nat, when: int, delta: int, repeats: bool, ghost out: seq<Entry>)
      returns (timer: Timer)
      requires Consistent(timers, out, live, freed)
      requires address < UINTPTR_MAX && forall t :: t in live ==> t.address != address
      modifies this`timers, this`timerfd, this`live, this`readings
      ensures Consistent(timers, out, live, freed)
      ensures fresh(timer) && live == old(live) + {timer} && Entry(when, timer) in timers
      ensures timers == Inserted(old(timers), Entry(when, timer)) && timer.address == address
      ensures timer.expiration == when && timer.delta == delta && timer.repeats == repeats
      ensures old(readings) <= readings
      ensures forall e :: e in old(timers) ==> e in timers
      ensures Watched(old(timers), old(timerfd)) ==> Watched(timers, timerfd)
    {
      timer := new Timer(address, when, delta, repeats);
      hide Consistent, Inserted, Sorted, Distinct, Absent, Watched;
      AddedConsistent(timers, out, live, freed, timer);
      AddTimerInLoop(timer);
      live := live + {timer};
    }

    /** Takes out exactly the entries whose time has come. */
    method GetExpired(now: int) returns (expired: seq<Entry>)
      requires Valid()
      modifies this`timers
      ensures Consistent(timers, expired, live, freed)
      ensures expired <= old(timers) && timers == old(timers)[|expired|..]
      ensures forall i :: 0 <= i < |old(timers)| ==> (i < |expired| <==> old(timers)[i].when <= now)
      ensures forall e :: e in old(timers) && now < e.when ==> e in timers
    {
      var end := LowerBound(timers, now, UINTPTR_MAX);
      SplitConsistent(timers, live, freed, now);
      expired := timers[..end];
      timers := timers[end..];
    }

    /** `ReadTimerFd`: reading consumes the expiration; without one the read fails. */
    method ReadTimerFd()
      modifies this`timerfd
      ensures timerfd == ReadFd(old(timerfd))
    {
      if timerfd.Set? && timerfd.expired {
        timerfd := Unset;
      }
    }

    /** The callback of a timer, which may add any number of timers. */
    method RunCallback(timer: Timer, ghost out: seq<Entry>)
      requires Consistent(timers, out, live, freed)
      modifies this`timers, this`timerfd, this`live, this`readings, this`fired
      ensures Consistent(timers, out, live, freed)
      ensures old(live) <= live && fresh(live - old(live)) && fired == old(fired) + [timer]
      ensures old(readings) <= readings
      ensures forall e :: e in old(timers) ==> e in timers
    {
      hide Consistent;
      fired := fired + [timer];
      var n: nat := *;
      while 0 < n
        invariant Consistent(timers, out, live, freed)
        invariant old(live) <= live && fresh(live - old(live)) && fired == old(fired) + [timer]
        invariant old(readings) <= readings
        invariant forall e :: e in old(timers) ==> e in timers
      {
        var address: nat, when: int, delta: int, repeats: bool := *, *, *, *;
        if address < UINTPTR_MAX && forall t | t in live :: t.address != address {
          var added := AddTimer(address, when, delta, repeats, out);
        }
        n := n - 1;
      }
    }

    /** One turn of the loop in `reset`: a repeating timer goes back under its new
        expiration, one interval from now, any other is deleted, and the timerfd is set for
        the first entry. */
    method ResetOne(e: Entry, ghost out: seq<Entry>)
      requires Consistent(timers, [e] + out, live, freed)
      modifies this`timers, this`timerfd, this`live, this`freed, this`readings, e.timer
      ensures Consistent(timers, out, live, freed)
      ensures live == if e.timer.repeats then old(live) else old(live) - {e.timer}
      ensures freed == if e.timer.repeats then old(freed) else old(freed) + [e.timer]
      ensures old(readings) <= readings
      ensures e.timer.repeats ==>
                Entry(e.timer.expiration, e.timer) in timers && Restarted(e.timer, readings[|old(readings)|..])
      ensures forall x :: x in old(timers) ==> x in timers
      ensures Watched(timers, timerfd)
    {
      hide Consistent, Inserted, Absent;
      TakeConsistent(timers, e, out, live, freed);
      var timer := e.timer;
      if timer.repeats {
        var now := Now();
        ghost var before := live - {timer};
        timer.Restart(now);
        assert Restarted(timer, [now]) by {
          assert [now][0] == now;
        }
        InsertConsistent(timers, out, before, freed, timer);
        ConsistentOrder(timers, out, before, freed);
        InsertedEntries(timers, Entry(timer.expiration, timer));
        assert live == before + {timer};
        var earliestChanged := Insert(timer);
      } else {
        live := live - {timer};
        freed := freed + [timer];
      }
      ghost var soFar := readings;
      assert timer.repeats ==> soFar[|old(readings)|..] == [soFar[|soFar| - 1]];
      if timers != [] {
        assert timers[0].when == timers[0].timer.expiration by {
          FirstCurrent(timers, out, live, freed);
        }
        ResetTimerfd(timers[0].timer.expiration);
      }
      if timer.repeats {
        RestartedLater(timer, soFar, |old(readings)|, readings);
      }
    }

    /** The turn for the entry at `i`, seen from the whole list. */
    method ResetNext(expired: seq<Entry>, i: nat, ghost start: nat)
      requires i < |expired| && Consistent(timers, expired[i..], live, freed)
      requires forall j, k :: 0 <= j < k < |expired| ==> expired[j].timer != expired[k].timer
      requires start <= |readings| && AllBack(expired[..i], timers, readings[start..])
      modifies this`timers, this`timerfd, this`live, this`freed, this`readings, expired[i].timer
      ensures Consistent(timers, expired[i + 1..], live, freed)
      ensures var timer := expired[i].timer;
              && live == old(live) - (if timer.repeats then {} else {timer})
              && freed == old(freed) + if timer.repeats then [] else [timer]
      ensures old(readings) <= readings && AllBack(expired[..i + 1], timers, readings[start..])
      ensures forall x :: x in old(timers) ==> x in timers
      ensures Watched(timers, timerfd)
    {
      hide Consistent, Watched, Restarted, AllBack;
      assert expired[i..] == [expired[i]] + expired[i + 1..];
      Alone(expired, i);
      ResetOne(expired[i], expired[i + 1..]);
      BackGrows(expired[..i], old(timers), timers, old(readings), start, readings);
      BackNext(expired, i, timers, readings, start, |old(readings)|);
    }

    /** `reset`: every timer that was out is back in the set, under a new expiration, or
        deleted, once. */
    method Reset(expired: seq<Entry>)
      requires Consistent(timers, expired, live, freed)
      modifies this`timers, this`timerfd, this`live, this`freed, this`readings, Timers(expired)
      ensures Valid()
      ensures live == old(live) - Members(OneShots(expired))
      ensures freed == old(freed) + OneShots(expired)
      ensures old(readings) <= readings && AllBack(expired, timers, readings[|old(readings)|..])
      ensures forall x :: x in old(timers) ==> x in timers
      ensures if expired == [] then unchanged(this) else Watched(timers, timerfd)
    {
      DistinctTimers(timers, expired, live, freed);
      Beginning(expired, timers, readings[|readings|..], live);
      hide Consistent, Watched, Restarted, OneShots, AllBack, Timers, Members;
      ghost var start := |readings|;
      for i := 0 to |expired|
        invariant Consistent(timers, expired[i..], live, freed)
        invariant live == old(live) - Members(OneShots(expired[..i]))
        invariant freed == old(freed) + OneShots(expired[..i])
        invariant old(readings) <= readings && AllBack(expired[..i], timers, readings[start..])
        invariant forall x :: x in old(timers) ==> x in timers
        invariant if i == 0 then unchanged(this) else Watched(timers, timerfd)
      {
        ResetNext(expired, i, start);
        OneShotsNext(expired, i, old(freed), old(live));
      }
      WholeList(expired);
    }

    /** The callbacks of all expired timers, one after the other. */
    method RunCallbacks(expired: seq<Entry>)
      requires Consistent(timers, expired, live, freed)
      modifies this`timers, this`timerfd, this`live, this`readings, this`fired
      ensures Consistent(timers, expired, live, freed)
      ensures old(live) <= live && fresh(live - old(live)) && fired == old(fired) + InOrder(expired)
      ensures old(readings) <= readings
      ensures forall e :: e in old(timers) ==> e in timers
      ensures expired == [] ==> timers == old(timers) && timerfd == old(timerfd)
    {
      hide Consistent;
      for i := 0 to |expired|
        invariant Consistent(timers, expired, live, freed)
        invariant old(live) <= live && fresh(live - old(live))
        invariant fired == old(fired) + InOrder(expired)[..i] && old(readings) <= readings
        invariant forall x :: x in old(timers) ==> x in timers
        invariant i == 0 ==> timers == old(timers) && timerfd == old(timerfd)
      {
        RunCallback(expired[i].timer, expired);
        assert InOrder(expired)[..i + 1] == InOrder(expired)[..i] + [expired[i].timer];
      }
      assert InOrder(expired)[..|expired|] == InOrder(expired);
    }

    /** The callbacks run and the timers go where they belong. */
    method RunAndReset(expired: seq<Entry>)
      requires Consistent(timers, expired, live, freed)
      modifies this, live
      ensures Valid()
      ensures fired == old(fired) + InOrder(expired) && freed == old(freed) + OneShots(expired)
      ensures forall t :: t in old(live) ==> (t in live <==> t !in OneShots(expired))
      ensures fresh(live - old(live))
      ensures old(readings) <= readings && AllBack(expired, timers, readings[|old(readings)|..])
      ensures forall x :: x in old(timers) ==> x in timers
      ensures if expired == [] then timers == old(timers) && timerfd == old(timerfd) else Watched(timers, timerfd)
    {
      OutAreLive(timers, expired, live, freed);
      hide Consistent, AllBack, OneShots, Timers, Watched;
      RunCallbacks(expired);
      ghost var soFar := |readings|;
      Reset(expired);
      BackSince(expired, timers, readings, |old(readings)|, soFar);
    }

    /** The handler of the timerfd, run at time `now`. The timers that expired are the ones
        whose time has come; their callbacks run once each, in order, and each timer is then
        deleted or back in the set one interval after a time read by the handler, exactly
        once. Afterwards the timerfd is set for the first entry exactly when it had not
        expired for nothing: an expiration found before any timer is due leaves it unset. */
    method HandleRead(now: int) returns (ghost expired: seq<Entry>)
      requires Valid() && Watched(timers, timerfd)
      modifies this, live
      ensures Valid()
      ensures expired <= old(timers)
      ensures forall i :: 0 <= i < |old(timers)| ==> (i < |expired| <==> old(timers)[i].when <= now)
      ensures fired == old(fired) + InOrder(expired)
      ensures freed == old(freed) + OneShots(expired)
      ensures forall t :: t in old(live) ==> (t in live <==> t !in OneShots(expired))
      ensures fresh(live - old(live))
      ensures old(readings) <= readings && AllBack(expired, timers, readings[|old(readings)|..])
      ensures forall x :: x in old(timers) && now < x.when ==> x in timers
      ensures Watched(timers, timerfd) <==>
                !old(timerfd.Set? && timerfd.expired) || old(timers) == [] || old(timers)[0].when <= now
    {
      ReadWatchedIff(timers, timerfd);
      hide Watched;
      ReadTimerFd();
      var out := GetExpired(now);
      expired := out;
      assert old(timers) != [] ==> (out != [] <==> old(timers)[0].when <= now);
      assert out == [] ==> timers == old(timers);
      hide Consistent, AllBack, OneShots, InOrder;
      RunAndReset(out);
    }

    /** The kernel's side: a set timerfd expires once its deadline has come. */
    method Expire(clock: int)
      requires timerfd.Set? && timerfd.Deadline() <= clock
      modifies this`timerfd
      ensures timerfd == old(timerfd).(expired := true)
    {
      timerfd := timerfd.(expired := true);
    }

    /** The kernel's clock and the one the handler reads may differ. A timerfd that expires
        at its deadline, with a handler that reads an earlier time than its timer's, is
        left unset, with the timer waiting for it. */
    static method ExpireForNothing(when: int, delta: int, repeats: bool, now: int) returns (queue: TimerQueue)
      requires now < when
      ensures queue.Valid() && queue.timers != [] && !Watched(queue.timers, queue.timerfd)
      ensures queue.fired == [] && queue.freed == []
    {
      queue := new TimerQueue();
      var timer := queue.AddTimer(0, when, delta, repeats, []);
      queue.Expire(queue.timerfd.Deadline());
      ghost var was := queue.timers;
      var expired := queue.HandleRead(now);
    }

    ghost function Taken(): Snapshot
      reads this
    {
      Snapshot(timers, timerfd, fired, freed)
    }

    method PerformAdd(address: nat, when: int, delta: int, repeats: bool)
      requires Valid() && Watched(timers, timerfd)
      modifies this, live
      ensures Valid() && Watched(timers, timerfd) && fresh(live - old(live))
      ensures Follows(old(Taken()), Add(address, when, delta, repeats), Taken()) && freed == old(freed)
    {
      AbsentIff(timers, live, freed, address);
      ghost var before := Taken();
      hide Consistent, Watched, Inserted;
      if address < UINTPTR_MAX && forall t | t in live :: t.address != address {
        var timer := AddTimer(address, when, delta, repeats, []);
        hide Absent, Follows;
        AddFollows(before, Add(address, when, delta, repeats), Taken(), Entry(when, timer));
      }
    }

    method PerformHandle(now: int)
      requires Valid() && Watched(timers, timerfd)
      modifies this, live
      ensures Valid() && Watched(timers, timerfd) && fresh(live - old(live))
      ensures Follows(old(Taken()), Handle(now), Taken()) && old(freed) <= freed
    {
      if timerfd.Set? && timerfd.expired && timerfd.Deadline() <= now {
        ghost var before := Taken();
        DueFirst(timers, timerfd, now);
        InOrderOfTime(timers, live, freed);
        hide Consistent, Watched, Follows, OneShots, Sorted;
        var expired := HandleRead(now);
        BackIn(expired, timers, readings[|old(readings)|..]);
        hide AllBack, InOrder, RepeatersBack, BelowMax;
        assert before.timers[..|expired|] == expired;
        HandledFollows(before, now, |expired|, Taken());
      }
    }

    /** One command, carried out when it is possible. */
    method Perform(command: Command)
      requires Valid() && Watched(timers, timerfd)
      modifies this, live
      ensures Valid() && Watched(timers, timerfd) && fresh(live - old(live))
      ensures Follows(old(Taken()), command, Taken())
      ensures old(freed) <= freed
    {
      hide Consistent, Watched;
      match command {
        case Add(address, when, delta, repeats) => PerformAdd(address, when, delta, repeats);
        case Expires(clock) => PerformExpire(clock);
        case Handle(now) => PerformHandle(now);
      }
    }

    method PerformExpire(clock: int)
      requires Valid() && Watched(timers, timerfd)
      modifies this`timerfd
      ensures Valid() && Watched(timers, timerfd)
      ensures Follows(old(Taken()), Expires(clock), Taken())
    {
      if timerfd.Set? && timerfd.Deadline() <= clock {
        Expire(clock);
      }
    }

    /** Any run of adds, expirations and handler calls, in any order, in which the handler
        of an expired timerfd reads a time that has reached the deadline: every command has
        its effect, every key stays current, every live timer is in the set exactly once, no
        timer is deleted twice, and the timerfd stays set for the first entry. */
    method Run(commands: seq<Command>) returns (ghost history: seq<Snapshot>)
      requires Valid() && Watched(timers, timerfd)
      modifies this, live
      ensures Valid() && Watched(timers, timerfd) && fresh(live - old(live))
      ensures live == Timers(timers) && Distinct(timers)
      ensures forall e :: e in timers ==> e.when == e.timer.expiration
      ensures old(freed) <= freed && forall t :: t in old(freed) ==> t !in live
      ensures |history| == |commands| + 1 && history[0] == old(Taken()) && history[|commands|] == Taken()
      ensures forall i :: 0 <= i < |commands| ==> Follows(history[i], commands[i], history[i + 1])
    {
      ghost var known := freed;
      history := [Taken()];
      for i := 0 to |commands|
        invariant Valid() && Watched(timers, timerfd) && fresh(live - old(live))
        invariant known <= freed
        invariant |history| == i + 1 && history[0] == old(Taken()) && history[i] == Taken()
        invariant forall k :: 0 <= k < i ==> Follows(history[k], commands[k], history[k + 1])
      {
        hide Consistent, Watched, Follows;
        Perform(commands[i]);
        history := history + [Taken()];
      }
      assert Timers([]) == {};
    }
  }
}
