/** Two pollers behind one interface. `PollPoller` keeps an array with swap-remove, slot
    numbers stored in the channels, and ignored slots encoded as `-fd - 1`; `EpollPoller`
    drives a kernel set through three states per channel. Both realise the same map from
    file descriptors to events. */
module Pollers {

  // ---- Channels ----

  const EPOLLIN: bv32 := 1
  const EPOLLPRI: bv32 := 2
  const EPOLLOUT: bv32 := 4
  const NONE_EVENT: bv32 := 0
  const READ_EVENT: bv32 := EPOLLIN | EPOLLPRI
  const WRITE_EVENT: bv32 := EPOLLOUT

  /** The event masks a channel can have. */
  predicate IsMask(events: bv32) {
    events & (READ_EVENT | WRITE_EVENT) == events
  }

  class Channel {
    const fd: nat
    var events: bv32
    var revents: int
    var index: int

    constructor (fd: nat)
      ensures this.fd == fd && events == NONE_EVENT && revents == 0 && index == -1
    {
      this.fd, events, revents, index := fd, NONE_EVENT, 0, -1;
    }

    predicate IsNoneEvent()
      reads this
    {
      events == NONE_EVENT
    }

    predicate IsReading()
      reads this
    {
      events & READ_EVENT != 0
    }

    predicate IsWriting()
      reads this
    {
      events & WRITE_EVENT != 0
    }

    method EnableReading()
      requires IsMask(events)
      modifies this`events
      ensures events & READ_EVENT == READ_EVENT && events & WRITE_EVENT == old(events) & WRITE_EVENT
      ensures IsMask(events) && IsReading()
    {
      events := events | READ_EVENT;
    }

    method DisableReading()
      requires IsMask(events)
      modifies this`events
      ensures events & WRITE_EVENT == old(events) & WRITE_EVENT
      ensures IsMask(events) && !IsReading()
    {
      events := events & !READ_EVENT;
    }

    method EnableWriting()
      requires IsMask(events)
      modifies this`events
      ensures events & READ_EVENT == old(events) & READ_EVENT
      ensures IsMask(events) && IsWriting()
    {
      events := events | WRITE_EVENT;
    }

    method DisableWriting()
      requires IsMask(events)
      modifies this`events
      ensures events & READ_EVENT == old(events) & READ_EVENT
      ensures IsMask(events) && !IsWriting()
    {
      events := events & !WRITE_EVENT;
    }

    method DisableAll()
      modifies this`events
      ensures IsMask(events) && IsNoneEvent() && !IsReading() && !IsWriting()
    {
      events := NONE_EVENT;
    }
  }

  /** What one channel is registered for. */
  datatype Registration = Registration(channel: Channel, events: bv32)

  /** The map both pollers realise: the channels registered, by file descriptor. */
  type Registry = map<nat, Registration>

  /** The interest a registry stands for: zero-event entries do not count. */
  function Interest(registry: Registry): map<nat, bv32> {
    map fd | fd in registry && registry[fd].events != 0 :: registry[fd].events
  }

  predicate WellKeyed(registry: Registry) {
    forall fd :: fd in registry ==> registry[fd].channel.fd == fd && IsMask(registry[fd].events)
  }

  // ---- PollPoller ----

  datatype PollFd = PollFd(fd: int, events: bv16, revents: int)

  /** `static_cast<short>`. */
  function Short(events: bv32): bv16 {
    (events & 0xFFFF) as bv16
  }

  lemma ShortExact(events: bv32)
    requires IsMask(events)
    ensures Short(events) as bv32 == events
    ensures Short(events) == 0 <==> events == 0
  {
  }

  /** The file descriptor behind a slot, whether the slot is ignored or not. */
  function Decode(fd: int): (r: nat) {
    if fd < 0 then -fd - 1 else fd
  }

  function Ignored(fd: int): (r: int)
    requires 0 <= fd
    ensures r < 0 && Decode(r) == fd
  {
    -fd - 1
  }

  datatype PollState = PollState(pollfds: seq<PollFd>, index: map<Channel, int>, channels: map<nat, Channel>)

  function IndexOf(index: map<Channel, int>, c: Channel): int {
    if c in index then index[c] else -1
  }

  function PollUpdate(s: PollState, c: Channel, events: bv32): PollState
    requires IndexOf(s.index, c) < |s.pollfds|
  {
    var i := IndexOf(s.index, c);
    if i < 0 then
      s.(pollfds := s.pollfds + [PollFd(c.fd, Short(events), 0)],
         index := s.index[c := |s.pollfds|],
         channels := s.channels[c.fd := c])
    else
      var fd := if events == NONE_EVENT then Ignored(c.fd) else c.fd;
      s.(pollfds := s.pollfds[i := PollFd(fd, Short(events), 0)])
  }

  ghost predicate PollRegistered(s: PollState, c: Channel) {
    c.fd in s.channels && s.channels[c.fd] == c
  }

  /** Removal finds the slot of the channel and the owner of the last slot. */
  predicate Removable(s: PollState, c: Channel) {
    && c in s.index && 0 <= s.index[c] < |s.pollfds|
    && Decode(s.pollfds[|s.pollfds| - 1].fd) in s.channels
    && (Decode(s.pollfds[|s.pollfds| - 1].fd) != c.fd || s.index[c] == |s.pollfds| - 1)
  }

  function PollRemove(s: PollState, c: Channel): PollState
    requires Removable(s, c)
  {
    var i, last := s.index[c], |s.pollfds| - 1;
    var channels := s.channels - {c.fd};
    if i == last then PollState(s.pollfds[..last], s.index, channels)
    else
      var moved := channels[Decode(s.pollfds[last].fd)];
      PollState(s.pollfds[..last][i := s.pollfds[last]], s.index[moved := i], channels)
  }

  /** Slot i, the channel whose index is i, and the entry of `channels_` for its file
      descriptor are in one-to-one correspondence. */
  ghost predicate PollInv(s: PollState) {
    && (forall fd :: fd in s.channels ==>
          var c := s.channels[fd];
          && c.fd == fd && c in s.index && 0 <= s.index[c] < |s.pollfds|
          && Decode(s.pollfds[s.index[c]].fd) == fd)
    && (forall i :: 0 <= i < |s.pollfds| ==>
          var fd := Decode(s.pollfds[i].fd);
          fd in s.channels && s.index[s.channels[fd]] == i)
    && (forall i :: 0 <= i < |s.pollfds| && s.pollfds[i].fd < 0 ==> s.pollfds[i].events == 0)
  }

  /** The slots hold exactly what is registered. */
  ghost predicate PollMatches(s: PollState, registry: Registry)
    requires PollInv(s)
  {
    && s.channels.Keys == registry.Keys
    && forall fd :: fd in registry ==>
         s.channels[fd] == registry[fd].channel
         && s.pollfds[s.index[s.channels[fd]]].events == Short(registry[fd].events)
  }

  /** What `poll` is asked for: the slots that are not ignored and want something. */
  ghost predicate PollAsks(s: PollState, fd: nat, events: bv32) {
    exists i :: 0 <= i < |s.pollfds| && s.pollfds[i].fd == fd && s.pollfds[i].events as bv32 == events && events != 0
  }

  lemma PollAddMatches(s: PollState, registry: Registry, c: Channel, events: bv32)
    requires PollInv(s) && PollMatches(s, registry)
    requires IndexOf(s.index, c) < 0 && c.fd !in registry && PollInv(PollUpdate(s, c, events))
    ensures PollMatches(PollUpdate(s, c, events), registry[c.fd := Registration(c, events)])
  {
    hide Short, PollInv;
    forall fd | fd in s.channels && fd != c.fd {
      SlotKept(s, c, events, fd);
    }
  }

  /** The slot of another channel, when a new one is added. */
  lemma SlotKept(s: PollState, c: Channel, events: bv32, fd: nat)
    requires PollInv(s) && IndexOf(s.index, c) < 0 && fd in s.channels && fd != c.fd
    ensures var s', d := PollUpdate(s, c, events), s.channels[fd];
            && s'.channels[fd] == d && d in s.index && d in s'.index
            && 0 <= s.index[d] < |s.pollfds| && 0 <= s'.index[d] < |s'.pollfds|
            && s'.pollfds[s'.index[d]] == s.pollfds[s.index[d]]
  {
    hide Short;
  }

  lemma PollAddKeeps(s: PollState, registry: Registry, c: Channel, events: bv32)
    requires PollInv(s) && PollMatches(s, registry)
    requires IndexOf(s.index, c) < 0 && c.fd !in registry
    ensures PollInv(PollUpdate(s, c, events))
    ensures PollMatches(PollUpdate(s, c, events), registry[c.fd := Registration(c, events)])
  {
    assert c.fd !in s.channels;
    NewIsSound(s, c, events);
    PollAddMatches(s, registry, c, events);
    hide PollMatches, PollInv, PollUpdate;
  }

  lemma PollModifyInv(s: PollState, registry: Registry, c: Channel, events: bv32)
    requires PollInv(s) && PollMatches(s, registry) && IsMask(events)
    requires c.fd in registry && registry[c.fd].channel == c
    ensures 0 <= IndexOf(s.index, c) < |s.pollfds|
    ensures PollInv(PollUpdate(s, c, events))
  {
    ShortExact(events);
    hide Short, IsMask;
    assert s.channels[c.fd] == c;
  }

  lemma PollModifyMatches(s: PollState, registry: Registry, c: Channel, events: bv32)
    requires PollInv(s) && PollMatches(s, registry) && IsMask(events)
    requires c.fd in registry && registry[c.fd].channel == c
    requires 0 <= IndexOf(s.index, c) < |s.pollfds| && PollInv(PollUpdate(s, c, events))
    ensures PollMatches(PollUpdate(s, c, events), registry[c.fd := Registration(c, events)])
  {
    hide Short, IsMask;
    var s', i := PollUpdate(s, c, events), s.index[c];
    forall fd | fd in registry && fd != c.fd
      ensures s'.pollfds[s'.index[s'.channels[fd]]] == s.pollfds[s.index[s.channels[fd]]]
    {
      assert Decode(s.pollfds[s.index[s.channels[fd]]].fd) == fd;
      assert Decode(s.pollfds[i].fd) == c.fd;
    }
  }

  /** An update of a new or a registered channel keeps the correspondence and registers
      the events. */
  lemma PollUpdateKeeps(s: PollState, registry: Registry, c: Channel, events: bv32)
    requires PollInv(s) && PollMatches(s, registry) && IsMask(events)
    requires if c.fd in registry then registry[c.fd].channel == c else IndexOf(s.index, c) < 0
    ensures IndexOf(s.index, c) < |s.pollfds|
    ensures PollInv(PollUpdate(s, c, events))
    ensures PollMatches(PollUpdate(s, c, events), registry[c.fd := Registration(c, events)])
  {
    if c.fd in registry {
      PollModifyInv(s, registry, c, events);
      PollModifyMatches(s, registry, c, events);
    } else {
      PollAddKeeps(s, registry, c, events);
    }
  }

  lemma PollRemoveDefined(s: PollState, c: Channel)
    requires PollInv(s) && PollRegistered(s, c)
    ensures Removable(s, c)
    ensures s.channels[Decode(s.pollfds[|s.pollfds| - 1].fd)] in s.index
  {
  }

  /** Every channel that stays keeps its slot's contents, wherever the slot is now. */
  lemma PollRemoveMoves(s: PollState, c: Channel)
    requires PollInv(s) && PollRegistered(s, c) && Removable(s, c)
    ensures var s' := PollRemove(s, c);
            forall fd :: fd in s'.channels ==>
              var d := s'.channels[fd];
              && d == s.channels[fd] && d in s'.index && 0 <= s'.index[d] < |s'.pollfds|
              && s'.pollfds[s'.index[d]] == s.pollfds[s.index[d]]
  {
    var s', i := PollRemove(s, c), s.index[c];
    assert Decode(s.pollfds[i].fd) == c.fd;
    forall fd | fd in s'.channels
      ensures var d := s'.channels[fd];
              && d == s.channels[fd] && d in s'.index && 0 <= s'.index[d] < |s'.pollfds|
              && s'.pollfds[s'.index[d]] == s.pollfds[s.index[d]]
    {
      assert s.index[s.channels[fd]] != i;
    }
  }

  lemma PollRemoveInv(s: PollState, c: Channel)
    requires PollInv(s) && PollRegistered(s, c) && Removable(s, c)
    ensures PollInv(PollRemove(s, c))
  {
    PollRemoveMoves(s, c);
    assert Decode(s.pollfds[s.index[c]].fd) == c.fd;
  }

  /** Swap-remove keeps the correspondence and drops exactly one registration. */
  lemma PollRemoveKeeps(s: PollState, registry: Registry, c: Channel)
    requires PollInv(s) && PollMatches(s, registry) && PollRegistered(s, c) && Removable(s, c)
    ensures PollInv(PollRemove(s, c))
    ensures PollMatches(PollRemove(s, c), registry - {c.fd})
  {
    hide Short;
    PollRemoveInv(s, c);
    PollRemoveMoves(s, c);
  }

  /** The update stays inside the array and keeps the correspondence. */
  ghost predicate UpdateSound(s: PollState, c: Channel, events: bv32) {
    IndexOf(s.index, c) < |s.pollfds| && PollInv(PollUpdate(s, c, events))
  }

  /** On a descriptor no other live channel uses, an update is sound exactly when the
      channel is new or registered: removal does not reset the index, so a removed channel
      must not be used again. */
  lemma PollUpdateKeepsIff(s: PollState, c: Channel, events: bv32)
    requires PollInv(s) && IsMask(events)
    requires c.fd in s.channels ==> s.channels[c.fd] == c
    ensures UpdateSound(s, c, events) <==> IndexOf(s.index, c) < 0 || PollRegistered(s, c)
  {
    if IndexOf(s.index, c) < 0 {
      NewIsSound(s, c, events);
    } else if PollRegistered(s, c) {
      RegisteredIsSound(s, c, events);
    } else if UpdateSound(s, c, events) {
      RemovedIsUnsound(s, c, events);
    }
  }

  lemma NewIsSound(s: PollState, c: Channel, events: bv32)
    requires PollInv(s) && IndexOf(s.index, c) < 0
    requires c.fd in s.channels ==> s.channels[c.fd] == c
    ensures UpdateSound(s, c, events)
  {
    hide Short;
  }

  lemma RegisteredIsSound(s: PollState, c: Channel, events: bv32)
    requires PollInv(s) && IsMask(events) && PollRegistered(s, c)
    ensures UpdateSound(s, c, events)
  {
    ShortExact(events);
    hide Short, IsMask;
  }

  lemma RemovedIsUnsound(s: PollState, c: Channel, events: bv32)
    requires PollInv(s) && c.fd !in s.channels && 0 <= IndexOf(s.index, c) < |s.pollfds|
    ensures !PollInv(PollUpdate(s, c, events))
  {
    hide Short;
    var s', i := PollUpdate(s, c, events), IndexOf(s.index, c);
    assert Decode(s'.pollfds[i].fd) == c.fd;
  }

  /** `poll` looks at this descriptor: it reports errors and hang-ups on it even when no
      event is asked for. */
  ghost predicate LooksAt(s: PollState, fd: nat) {
    exists i :: 0 <= i < |s.pollfds| && s.pollfds[i].fd == fd
  }

  /** Updating a channel makes `poll` look at it exactly when it wants some event or is new:
      a registered one that wants nothing is ignored, by the encoding `-fd - 1`, until it
      wants something again. What `poll` reported before is cleared. */
  lemma UpdateIgnoresIff(s: PollState, c: Channel, events: bv32)
    requires PollInv(s) && IsMask(events) && (IndexOf(s.index, c) < 0 || PollRegistered(s, c))
    requires c.fd in s.channels ==> s.channels[c.fd] == c
    ensures var s' := PollUpdate(s, c, events);
            var i := IndexOf(s'.index, c);
            && (LooksAt(s', c.fd) <==> events != 0 || IndexOf(s.index, c) < 0)
            && 0 <= i < |s'.pollfds| && s'.pollfds[i].revents == 0
            && (LooksAt(s', c.fd) ==> s'.pollfds[i].fd == c.fd)
            && (!LooksAt(s', c.fd) ==> s'.pollfds[i].fd + c.fd == -1)
  {
    PollUpdateKeepsIff(s, c, events);
    var s' := PollUpdate(s, c, events);
    var i := IndexOf(s'.index, c);
    assert Decode(s'.pollfds[i].fd) == c.fd;
    if LooksAt(s', c.fd) {
      var k :| 0 <= k < |s'.pollfds| && s'.pollfds[k].fd == c.fd;
      assert Decode(s'.pollfds[k].fd) == c.fd;
      assert k == i;
    }
  }

  /** And it leaves alone whether `poll` looks at any other channel. */
  lemma UpdateLeavesOthers(s: PollState, c: Channel, events: bv32, fd: nat)
    requires PollInv(s) && fd != c.fd && (IndexOf(s.index, c) < 0 || PollRegistered(s, c))
    ensures LooksAt(PollUpdate(s, c, events), fd) <==> LooksAt(s, fd)
  {
    hide Short;
    var s' := PollUpdate(s, c, events);
    if LooksAt(s, fd) {
      var k :| 0 <= k < |s.pollfds| && s.pollfds[k].fd == fd;
      assert Decode(s.pollfds[k].fd) == fd;
      assert s'.pollfds[k].fd == fd;
    }
    if LooksAt(s', fd) {
      var k :| 0 <= k < |s'.pollfds| && s'.pollfds[k].fd == fd;
      assert Decode(s'.pollfds[k].fd) == fd;
      assert s.pollfds[k].fd == fd;
    }
  }

  const EMPTY := PollState([], map[], map[])

  /** The only channel, removed and used again: its index is the length of the array. */
  lemma RemovedIsOutOfBounds(c: Channel)
    ensures var s := PollUpdate(EMPTY, c, READ_EVENT);
            && PollInv(s) && PollRegistered(s, c) && Removable(s, c)
            && var t := PollRemove(s, c);
               PollInv(t) && IndexOf(t.index, c) == |t.pollfds|
  {
    var s := PollUpdate(EMPTY, c, READ_EVENT);
    NewIsSound(EMPTY, c, READ_EVENT);
    PollRemoveDefined(s, c);
    PollRemoveInv(s, c);
    hide Short, PollInv;
    assert s == PollState([PollFd(c.fd, Short(READ_EVENT), 0)], map[c := 0], map[c.fd := c]);
  }

  /** Two channels, of which the first is removed and used again: it takes the slot of the
      second, which `poll` is no longer asked for. */
  lemma RemovedTakesSlot(c: Channel, d: Channel)
    requires c.fd != d.fd
    ensures var s := PollUpdate(PollUpdate(EMPTY, c, READ_EVENT), d, READ_EVENT);
            && PollInv(s) && PollRegistered(s, c) && Removable(s, c)
            && var t := PollRemove(s, c);
               && PollInv(t) && PollAsks(t, d.fd, READ_EVENT) && 0 <= IndexOf(t.index, c) < |t.pollfds|
               && var u := PollUpdate(t, c, READ_EVENT);
                  PollRegistered(u, d) && !PollAsks(u, d.fd, READ_EVENT)
  {
    ShortExact(READ_EVENT);
    var one := PollUpdate(EMPTY, c, READ_EVENT);
    var two := PollUpdate(one, d, READ_EVENT);
    NewIsSound(EMPTY, c, READ_EVENT);
    NewIsSound(one, d, READ_EVENT);
    PollRemoveDefined(two, c);
    PollRemoveInv(two, c);
    hide Short;
    var t := PollRemove(two, c);
    assert t.pollfds == [PollFd(d.fd, Short(READ_EVENT), 0)];
    assert t.pollfds[0].fd == d.fd;
  }

  // ---- EpollPoller ----

  const NEW: int := -1
  const ADDED: int := 1
  const DELETED: int := 2

  datatype Operation = Add | Mod | Del

  /** `refused` is set when the kernel is asked for something it would refuse: adding a
      present descriptor, or changing or deleting an absent one. */
  datatype EpollState = EpollState(
    kernel: Registry,
    index: map<Channel, int>,
    channels: map<nat, Channel>,
    refused: bool
  )

  function EpollCtl(s: EpollState, operation: Operation, c: Channel, events: bv32): EpollState {
    match operation
    case Add =>
      if c.fd in s.kernel then s.(refused := true)
      else s.(kernel := s.kernel[c.fd := Registration(c, events)])
    case Mod =>
      if c.fd in s.kernel then s.(kernel := s.kernel[c.fd := Registration(c, events)])
      else s.(refused := true)
    case Del =>
      if c.fd in s.kernel then s.(kernel := s.kernel - {c.fd}) else s.(refused := true)
  }

  function EpollUpdate(s: EpollState, c: Channel, events: bv32): EpollState {
    var i := IndexOf(s.index, c);
    if i == NEW || i == DELETED then
      var channels := if i == NEW then s.channels[c.fd := c] else s.channels;
      EpollCtl(s.(channels := channels, index := s.index[c := ADDED]), Add, c, events)
    else if events == NONE_EVENT then
      EpollCtl(s, Del, c, events).(channels := s.channels - {c.fd}, index := s.index[c := DELETED])
    else
      EpollCtl(s, Mod, c, events)
  }

  function EpollRemove(s: EpollState, c: Channel): EpollState {
    var t := s.(channels := s.channels - {c.fd});
    var u := if IndexOf(s.index, c) == ADDED then EpollCtl(t, Del, c, NONE_EVENT) else t;
    u.(index := s.index[c := NEW])
  }

  /** The kernel set and the states of the channels, against what is registered.
      `channels_` is no part of it: a channel that comes back from `DELETED` is not listed
      there again. */
  ghost predicate EpollMatches(s: EpollState, registry: Registry) {
    && !s.refused
    && (forall fd :: fd in s.kernel ==> fd in registry)
    && (forall fd :: fd in registry ==>
          var c := registry[fd].channel;
          c in s.index &&
          if s.index[c] == ADDED then fd in s.kernel && s.kernel[fd] == registry[fd]
          else s.index[c] == DELETED && registry[fd].events == 0 && fd !in s.kernel)
    && (forall c :: c in s.index && s.index[c] != NEW ==> c.fd in registry && registry[c.fd].channel == c)
  }

  lemma WellKeyedUpdate(registry: Registry, c: Channel, events: bv32)
    requires WellKeyed(registry) && IsMask(events)
    ensures WellKeyed(registry[c.fd := Registration(c, events)])
  {
  }

  lemma EpollUpdateKeeps(s: EpollState, registry: Registry, c: Channel, events: bv32)
    requires EpollMatches(s, registry) && WellKeyed(registry)
    requires c.fd in registry ==> registry[c.fd].channel == c
    ensures EpollMatches(EpollUpdate(s, c, events), registry[c.fd := Registration(c, events)])
    ensures !EpollUpdate(s, c, events).refused
  {
    if IndexOf(s.index, c) == ADDED {
      EpollChangeKeeps(s, registry, c, events);
    } else {
      EpollAddKeeps(s, registry, c, events);
    }
  }

  lemma EpollAddKeeps(s: EpollState, registry: Registry, c: Channel, events: bv32)
    requires EpollMatches(s, registry) && WellKeyed(registry) && IndexOf(s.index, c) != ADDED
    requires c.fd in registry ==> registry[c.fd].channel == c
    ensures EpollMatches(EpollUpdate(s, c, events), registry[c.fd := Registration(c, events)])
  {
    assert c.fd !in s.kernel;
  }

  lemma EpollChangeKeeps(s: EpollState, registry: Registry, c: Channel, events: bv32)
    requires EpollMatches(s, registry) && WellKeyed(registry) && IndexOf(s.index, c) == ADDED
    ensures EpollMatches(EpollUpdate(s, c, events), registry[c.fd := Registration(c, events)])
  {
    assert c.fd in s.kernel;
  }

  lemma EpollRemoveKeeps(s: EpollState, registry: Registry, c: Channel)
    requires EpollMatches(s, registry) && WellKeyed(registry)
    requires c.fd in registry && registry[c.fd].channel == c
    ensures EpollMatches(EpollRemove(s, c), registry - {c.fd})
  {
  }

  // ---- Any run of updates and removals ----

  datatype Op = Update(channel: Channel, events: bv32) | Remove(gone: Channel)

  function RegistryAfter(ops: seq<Op>): Registry {
    if ops == [] then map[]
    else
      var before := RegistryAfter(ops[..|ops| - 1]);
      match ops[|ops| - 1]
      case Update(c, events) => before[c.fd := Registration(c, events)]
      case Remove(c) => before - {c.fd}
  }

  function UsedAfter(ops: seq<Op>): set<Channel> {
    if ops == [] then {}
    else
      var before := UsedAfter(ops[..|ops| - 1]);
      match ops[|ops| - 1]
      case Update(c, _) => before + {c}
      case Remove(_) => before
  }

  /** Live channels have distinct descriptors, only registered channels are removed, and a
      removed channel is not used again. */
  predicate WellFormed(ops: seq<Op>) {
    ops == [] ||
    var before := ops[..|ops| - 1];
    WellFormed(before) &&
    var registry := RegistryAfter(before);
    match ops[|ops| - 1]
    case Update(c, events) =>
      IsMask(events) && if c.fd in registry then registry[c.fd].channel == c else c !in UsedAfter(before)
    case Remove(c) => c.fd in registry && registry[c.fd].channel == c
  }

  datatype World = World(poll: PollState, epoll: EpollState)

  ghost predicate Good(w: World, registry: Registry, used: set<Channel>) {
    && WellKeyed(registry)
    && PollInv(w.poll) && PollMatches(w.poll, registry) && w.poll.index.Keys == used
    && EpollMatches(w.epoll, registry)
  }

  function WorldUpdate(w: World, c: Channel, events: bv32): World
    requires IndexOf(w.poll.index, c) < |w.poll.pollfds|
  {
    World(PollUpdate(w.poll, c, events), EpollUpdate(w.epoll, c, events))
  }

  function WorldRemove(w: World, c: Channel): World
    requires Removable(w.poll, c)
  {
    World(PollRemove(w.poll, c), EpollRemove(w.epoll, c))
  }

  lemma UpdateUses(s: PollState, registry: Registry, c: Channel, events: bv32)
    requires PollInv(s) && PollMatches(s, registry)
    requires if c.fd in registry then registry[c.fd].channel == c else c !in s.index
    ensures c.fd !in registry ==> IndexOf(s.index, c) < 0
    ensures IndexOf(s.index, c) < |s.pollfds|
    ensures PollUpdate(s, c, events).index.Keys == s.index.Keys + {c}
  {
    assert c.fd in registry ==> s.channels[c.fd] == c && c in s.index;
  }

  lemma UpdateGood(w: World, registry: Registry, used: set<Channel>, c: Channel, events: bv32)
    requires Good(w, registry, used) && IsMask(events)
    requires if c.fd in registry then registry[c.fd].channel == c else c !in used
    ensures IndexOf(w.poll.index, c) < |w.poll.pollfds|
    ensures Good(WorldUpdate(w, c, events), registry[c.fd := Registration(c, events)], used + {c})
  {
    hide PollInv, PollMatches, EpollMatches, IsMask, IndexOf, PollUpdate, EpollUpdate;
    UpdateUses(w.poll, registry, c, events);
    PollUpdateKeeps(w.poll, registry, c, events);
    EpollUpdateKeeps(w.epoll, registry, c, events);
  }

  lemma RemoveUses(s: PollState, registry: Registry, c: Channel)
    requires PollInv(s) && PollMatches(s, registry)
    requires c.fd in registry && registry[c.fd].channel == c
    ensures PollRegistered(s, c) && Removable(s, c)
    ensures PollRemove(s, c).index.Keys == s.index.Keys
  {
    PollRemoveDefined(s, c);
  }

  lemma RemoveGood(w: World, registry: Registry, used: set<Channel>, c: Channel)
    requires Good(w, registry, used)
    requires c.fd in registry && registry[c.fd].channel == c
    ensures Removable(w.poll, c)
    ensures Good(WorldRemove(w, c), registry - {c.fd}, used)
  {
    hide PollInv, PollMatches, EpollMatches, IsMask, PollRemove, EpollRemove;
    RemoveUses(w.poll, registry, c);
    PollRemoveKeeps(w.poll, registry, c);
    EpollRemoveKeeps(w.epoll, registry, c);
  }

  const START := World(EMPTY, EpollState(map[], map[], map[], false))

  /** Both pollers after the same operations. */
  ghost function Play(ops: seq<Op>): (w: World)
    requires WellFormed(ops)
    ensures Good(w, RegistryAfter(ops), UsedAfter(ops))
  {
    if ops == [] then START
    else
      var before := ops[..|ops| - 1];
      match ops[|ops| - 1]
      case Update(c, events) =>
        UpdateGood(Play(before), RegistryAfter(before), UsedAfter(before), c, events);
        WorldUpdate(Play(before), c, events)
      case Remove(c) =>
        RemoveGood(Play(before), RegistryAfter(before), UsedAfter(before), c);
        WorldRemove(Play(before), c)
  }

  /** What `epoll_wait` watches for. */
  ghost predicate EpollAsks(s: EpollState, fd: nat, events: bv32) {
    fd in s.kernel && s.kernel[fd].events == events && events != 0
  }

  lemma PollAsksIff(s: PollState, registry: Registry, fd: nat, events: bv32)
    requires PollInv(s) && PollMatches(s, registry) && WellKeyed(registry)
    ensures PollAsks(s, fd, events) <==> fd in Interest(registry) && Interest(registry)[fd] == events
  {
    if fd in registry {
      var i := s.index[s.channels[fd]];
      ShortExact(registry[fd].events);
      assert Decode(s.pollfds[i].fd) == fd;
      if registry[fd].events == events && events != 0 {
        assert s.pollfds[i].fd == fd;
      }
    }
    if PollAsks(s, fd, events) {
      var i :| 0 <= i < |s.pollfds| && s.pollfds[i].fd == fd && s.pollfds[i].events as bv32 == events && events != 0;
      assert Decode(s.pollfds[i].fd) == fd;
    }
  }

  /** After any well-formed run of updates and removals the array of one poller, the kernel
      set of the other and the registry ask for the same events on the same descriptors,
      and the kernel was never asked for anything it would refuse. */
  lemma PollersAgree(ops: seq<Op>, fd: nat, events: bv32)
    requires WellFormed(ops)
    ensures var w, interest := Play(ops), Interest(RegistryAfter(ops));
            && (PollAsks(w.poll, fd, events) <==> EpollAsks(w.epoll, fd, events))
            && (EpollAsks(w.epoll, fd, events) <==> fd in interest && interest[fd] == events)
            && !w.epoll.refused
  {
    var w := Play(ops);
    PollAsksIff(w.poll, RegistryAfter(ops), fd, events);
  }

  // ---- What EpollPoller lists ----

  /** The channel of this descriptor has wanted some event in every update but the first
      since it was registered. */
  ghost predicate NeverDisabled(ops: seq<Op>, fd: nat) {
    ops != [] &&
    var before := ops[..|ops| - 1];
    match ops[|ops| - 1]
    case Update(c, events) =>
      if c.fd != fd then NeverDisabled(before, fd)
      else fd !in RegistryAfter(before) || (events != 0 && NeverDisabled(before, fd))
    case Remove(c) => c.fd != fd && NeverDisabled(before, fd)
  }

  /** A channel that is `DELETED` is not listed. */
  ghost predicate DeletedUnlisted(s: EpollState) {
    forall c :: c in s.index && s.index[c] == DELETED ==> c.fd !in s.channels
  }

  /** `channels_` lists exactly the registered channels that were never disabled: one that
      is enabled again is watched by the kernel but is not listed any more. */
  lemma {:induction false} ListedIff(ops: seq<Op>, fd: nat)
    requires WellFormed(ops)
    ensures DeletedUnlisted(Play(ops).epoll)
    ensures fd in Play(ops).epoll.channels <==> NeverDisabled(ops, fd)
    ensures NeverDisabled(ops, fd) ==> fd in RegistryAfter(ops)
  {
    if ops != [] {
      var before := ops[..|ops| - 1];
      ListedIff(before, fd);
      var w, registry := Play(before), RegistryAfter(before);
      match ops[|ops| - 1]
      case Update(c, events) =>
        ListedUpdate(w.epoll, registry, c, events);
        PlayUpdate(ops);
      case Remove(c) =>
        ListedRemove(w.epoll, registry, c);
        PlayRemove(ops);
    }
  }

  lemma PlayUpdate(ops: seq<Op>)
    requires WellFormed(ops) && ops != [] && ops[|ops| - 1].Update?
    ensures var w, op := Play(ops[..|ops| - 1]), ops[|ops| - 1];
            Play(ops).epoll == EpollUpdate(w.epoll, op.channel, op.events)
    ensures var op := ops[|ops| - 1];
            op.channel.fd in RegistryAfter(ops[..|ops| - 1]) ==>
              RegistryAfter(ops[..|ops| - 1])[op.channel.fd].channel == op.channel
  {
    hide PollUpdate, PollRemove, EpollUpdate, EpollRemove;
  }

  lemma PlayRemove(ops: seq<Op>)
    requires WellFormed(ops) && ops != [] && ops[|ops| - 1].Remove?
    ensures Play(ops).epoll == EpollRemove(Play(ops[..|ops| - 1]).epoll, ops[|ops| - 1].gone)
  {
    hide PollUpdate, PollRemove, EpollUpdate, EpollRemove;
  }

  lemma ListedUpdate(s: EpollState, registry: Registry, c: Channel, events: bv32)
    requires EpollMatches(s, registry) && DeletedUnlisted(s)
    requires c.fd in registry ==> registry[c.fd].channel == c
    ensures var t := EpollUpdate(s, c, events);
            && DeletedUnlisted(t)
            && (forall fd :: fd != c.fd ==> (fd in t.channels <==> fd in s.channels))
            && (c.fd in t.channels <==> c.fd !in registry || (events != 0 && c.fd in s.channels))
  {
  }

  lemma ListedRemove(s: EpollState, registry: Registry, c: Channel)
    requires EpollMatches(s, registry) && DeletedUnlisted(s)
    requires c.fd in registry && registry[c.fd].channel == c
    ensures var t := EpollRemove(s, c);
            DeletedUnlisted(t) && t.channels == s.channels - {c.fd}
  {
  }

  // ---- The code: PollPoller ----

  /** The channels with something to handle, in slot order. */
  function Active(pollfds: seq<PollFd>, channels: map<nat, Channel>): seq<Channel>
    requires forall i :: 0 <= i < |pollfds| ==> Decode(pollfds[i].fd) in channels
  {
    if pollfds == [] then []
    else
      var rest, last := Active(pollfds[..|pollfds| - 1], channels), pollfds[|pollfds| - 1];
      if 0 < last.revents then rest + [channels[Decode(last.fd)]] else rest
  }

  lemma {:induction false} ActiveMembers(s: PollState, n: nat, c: Channel)
    requires PollInv(s) && n <= |s.pollfds|
    ensures c in Active(s.pollfds[..n], s.channels)
        <==> PollRegistered(s, c) && s.index[c] < n && 0 < s.pollfds[s.index[c]].revents
  {
    if n > 0 {
      ActiveMembers(s, n - 1, c);
      assert s.pollfds[..n][..n - 1] == s.pollfds[..n - 1];
      var fd := Decode(s.pollfds[n - 1].fd);
      assert s.index[s.channels[fd]] == n - 1 && s.channels[fd].fd == fd;
    }
  }

  lemma {:induction false} ActiveOrdered(s: PollState, n: nat)
    requires PollInv(s) && n <= |s.pollfds|
    ensures var active := Active(s.pollfds[..n], s.channels);
            && (forall a :: 0 <= a < |active| ==> IndexOf(s.index, active[a]) < n)
            && (forall a, b :: 0 <= a < b < |active| ==>
                  IndexOf(s.index, active[a]) < IndexOf(s.index, active[b]))
  {
    if n > 0 {
      SlotChannels(s);
      hide Active, PollInv;
      ActiveOrdered(s, n - 1);
      NextSlot(s.pollfds, s.channels, n - 1);
      Ascend(s.index, Active(s.pollfds[..n - 1], s.channels), s.channels[Decode(s.pollfds[n - 1].fd)], n - 1);
    } else {
      NoSlots(s.channels);
    }
  }

  lemma Ascend(index: map<Channel, int>, rest: seq<Channel>, last: Channel, n: nat)
    requires forall a :: 0 <= a < |rest| ==> IndexOf(index, rest[a]) < n
    requires forall a, b :: 0 <= a < b < |rest| ==> IndexOf(index, rest[a]) < IndexOf(index, rest[b])
    requires IndexOf(index, last) == n
    ensures var all := rest + [last];
            && (forall a :: 0 <= a < |all| ==> IndexOf(index, all[a]) < n + 1)
            && (forall a, b :: 0 <= a < b < |all| ==> IndexOf(index, all[a]) < IndexOf(index, all[b]))
  {
    hide IndexOf;
  }

  /** Exactly the channels whose slot has positive revents, each once, in slot order. */
  lemma ActiveExactly(s: PollState, n: nat)
    requires PollInv(s) && n <= |s.pollfds|
    ensures var active := Active(s.pollfds[..n], s.channels);
            && (forall c :: c in active <==>
                  PollRegistered(s, c) && s.index[c] < n && 0 < s.pollfds[s.index[c]].revents)
            && (forall a, b :: 0 <= a < b < |active| ==>
                  IndexOf(s.index, active[a]) < IndexOf(s.index, active[b]))
  {
    ActiveOrdered(s, n);
    forall c: Channel {
      ActiveMembers(s, n, c);
    }
  }

  /** How many slots have positive revents. */
  function Positive(pollfds: seq<PollFd>): nat {
    if pollfds == [] then 0
    else Positive(pollfds[..|pollfds| - 1]) + if 0 < pollfds[|pollfds| - 1].revents then 1 else 0
  }

  lemma SlotChannels(s: PollState)
    requires PollInv(s)
    ensures forall i :: 0 <= i < |s.pollfds| ==>
              var fd := Decode(s.pollfds[i].fd);
              fd in s.channels && s.channels[fd] in s.index && s.index[s.channels[fd]] == i
  {
  }

  lemma NoSlots(channels: map<nat, Channel>)
    ensures Active([], channels) == [] && Positive([]) == 0
  {
  }

  lemma NextSlot(pollfds: seq<PollFd>, channels: map<nat, Channel>, i: nat)
    requires i < |pollfds|
    requires forall k :: 0 <= k < |pollfds| ==> Decode(pollfds[k].fd) in channels
    ensures var found := 0 < pollfds[i].revents;
            && Positive(pollfds[..i + 1]) == Positive(pollfds[..i]) + (if found then 1 else 0)
            && Active(pollfds[..i + 1], channels)
            == Active(pollfds[..i], channels) + (if found then [channels[Decode(pollfds[i].fd)]] else [])
  {
    assert pollfds[..i + 1][..i] == pollfds[..i];
  }

  lemma {:induction false} NoneLeft(pollfds: seq<PollFd>, i: nat, n: nat, channels: map<nat, Channel>)
    requires i <= n <= |pollfds|
    requires forall k :: 0 <= k < |pollfds| ==> Decode(pollfds[k].fd) in channels
    ensures Positive(pollfds[..i]) <= Positive(pollfds[..n])
    ensures Positive(pollfds[..i]) == Positive(pollfds[..n]) ==>
              && Active(pollfds[..i], channels) == Active(pollfds[..n], channels)
              && forall k :: i <= k < n ==> pollfds[k].revents <= 0
  {
    if i < n {
      NoneLeft(pollfds, i, n - 1, channels);
      assert pollfds[..n][..n - 1] == pollfds[..n - 1];
    }
  }

  class PollPoller {
    var pollfds: seq<PollFd>
    var channels: map<nat, Channel>
    ghost var index: map<Channel, int>
    ghost var registry: Registry

    ghost function State(): PollState
      reads this
    {
      PollState(pollfds, index, channels)
    }

    ghost predicate Valid()
      reads this, index.Keys
    {
      && PollInv(State()) && PollMatches(State(), registry)
      && forall c :: c in index ==> c.index == index[c]
    }

    constructor ()
      ensures Valid() && registry == map[] && index == map[]
    {
      pollfds, channels, index, registry := [], map[], map[], map[];
    }

    /** Registers the events the channel wants now. */
    method UpdateChannel(channel: Channel)
      requires Valid() && IsMask(channel.events) && (channel in index || channel.index == -1)
      requires if channel.fd in registry then registry[channel.fd].channel == channel else channel !in index
      modifies this, channel`index
      ensures Valid()
      ensures registry == old(registry)[channel.fd := Registration(channel, channel.events)]
      ensures State() == PollUpdate(old(State()), channel, channel.events)
    {
      hide PollInv, PollMatches, IsMask, Short;
      PollUpdateKeeps(State(), registry, channel, channel.events);
      ghost var goal := PollUpdate(State(), channel, channel.events);
      if channel.index < 0 {
        pollfds := pollfds + [PollFd(channel.fd, Short(channel.events), 0)];
        var idx := |pollfds| - 1;
        channel.index := idx;
        index := index[channel := idx];
        channels := channels[channel.fd := channel];
      } else {
        var idx := channel.index;
        pollfds := pollfds[idx := PollFd(channel.fd, Short(channel.events), 0)];
        if channel.IsNoneEvent() {
          pollfds := pollfds[idx := pollfds[idx].(fd := Ignored(channel.fd))];
        }
      }
      registry := registry[channel.fd := Registration(channel, channel.events)];
      assert State() == goal;
    }

    /** Swap-remove: the last slot takes the place of the removed one. */
    method RemoveChannel(channel: Channel)
      requires Valid() && PollRegistered(State(), channel)
      modifies this, index.Keys
      ensures Valid()
      ensures registry == old(registry) - {channel.fd}
      ensures Removable(old(State()), channel) && State() == PollRemove(old(State()), channel)
    {
      hide PollInv, PollMatches;
      PollRemoveDefined(State(), channel);
      PollRemoveKeeps(State(), registry, channel);
      ghost var goal := PollRemove(State(), channel);
      var idx := channel.index;
      channels := channels - {channel.fd};
      if idx == |pollfds| - 1 {
        pollfds := pollfds[..|pollfds| - 1];
      } else {
        var channelAtEnd := pollfds[|pollfds| - 1].fd;
        pollfds := pollfds[idx := pollfds[|pollfds| - 1]][|pollfds| - 1 := pollfds[idx]];
        if channelAtEnd < 0 {
          channelAtEnd := -channelAtEnd - 1;
        }
        channels[channelAtEnd].index := idx;
        index := index[channels[channelAtEnd] := idx];
        pollfds := pollfds[..|pollfds| - 1];
      }
      registry := registry - {channel.fd};
      assert State() == goal;
    }

    /** `fillActiveChannels`, after `poll` has written the revents: it stops as soon as
        `numEvents` slots have been found. */
    method FillActiveChannels(numEvents: nat) returns (active: seq<Channel>)
      requires Valid() && numEvents == Positive(pollfds)
      requires forall i :: 0 <= i < |pollfds| && pollfds[i].fd < 0 ==> pollfds[i].revents <= 0
      modifies set c | c in index :: c`revents
      ensures Valid()
      ensures active == Active(pollfds, channels)
      ensures forall i :: 0 <= i < |pollfds| && 0 < pollfds[i].revents ==>
                channels[Decode(pollfds[i].fd)].revents == pollfds[i].revents
    {
      hide PollInv, PollMatches, Active, Positive;
      SlotChannels(State());
      NoSlots(channels);
      assert pollfds[..0] == [];
      active := [];
      var left, i := numEvents, 0;
      while i < |pollfds| && 0 < left
        invariant 0 <= i <= |pollfds| && forall c :: c in index ==> c.index == index[c]
        invariant active == Active(pollfds[..i], channels)
        invariant left == Positive(pollfds) - Positive(pollfds[..i])
        invariant forall k :: 0 <= k < i && 0 < pollfds[k].revents ==>
                    channels[Decode(pollfds[k].fd)].revents == pollfds[k].revents
      {
        NextSlot(pollfds, channels, i);
        if 0 < pollfds[i].revents {
          left := left - 1;
          var channel := channels[pollfds[i].fd];
          channel.revents := pollfds[i].revents;
          active := active + [channel];
        }
        i := i + 1;
      }
      assert pollfds[..|pollfds|] == pollfds;
      NoneLeft(pollfds, i, |pollfds|, channels);
    }
  }

  // ---- The code: EpollPoller ----

  class EpollPoller {
    var channels: map<nat, Channel>
    var kernel: Registry            // the set behind epollfd_
    ghost var index: map<Channel, int>
    ghost var registry: Registry

    ghost function State(): EpollState
      reads this
    {
      EpollState(kernel, index, channels, false)
    }

    ghost predicate Valid()
      reads this, index.Keys
    {
      && WellKeyed(registry) && EpollMatches(State(), registry)
      && forall c :: c in index ==> c.index == index[c]
    }

    constructor ()
      ensures Valid() && registry == map[] && index == map[]
    {
      channels, kernel, index, registry := map[], map[], map[], map[];
    }

    /** `epoll_ctl`, which the kernel must not refuse. */
    method Update(operation: Operation, channel: Channel)
      requires operation == Add <==> channel.fd !in kernel
      modifies this`kernel
      ensures kernel == EpollCtl(old(State()), operation, channel, channel.events).kernel
      ensures !EpollCtl(old(State()), operation, channel, channel.events).refused
    {
      match operation
      case Add => kernel := kernel[channel.fd := Registration(channel, channel.events)];
      case Mod => kernel := kernel[channel.fd := Registration(channel, channel.events)];
      case Del => kernel := kernel - {channel.fd};
    }

    method UpdateChannel(channel: Channel)
      requires Valid() && IsMask(channel.events) && (channel in index || channel.index == NEW)
      requires channel.fd in registry ==> registry[channel.fd].channel == channel
      modifies this, channel`index
      ensures Valid()
      ensures registry == old(registry)[channel.fd := Registration(channel, channel.events)]
      ensures State() == EpollUpdate(old(State()), channel, channel.events)
    {
      hide EpollMatches, WellKeyed, IsMask;
      WellKeyedUpdate(registry, channel, channel.events);
      EpollUpdateKeeps(State(), registry, channel, channel.events);
      ghost var goal := EpollUpdate(State(), channel, channel.events);
      var i := channel.index;
      if i == NEW || i == DELETED {
        if i == NEW {
          channels := channels[channel.fd := channel];
        }
        channel.index := ADDED;
        index := index[channel := ADDED];
        Update(Add, channel);
      } else if channel.IsNoneEvent() {
        Update(Del, channel);
        channels := channels - {channel.fd};
        channel.index := DELETED;
        index := index[channel := DELETED];
      } else {
        Update(Mod, channel);
      }
      registry := registry[channel.fd := Registration(channel, channel.events)];
      assert State() == goal;
    }

    method RemoveChannel(channel: Channel)
      requires Valid() && channel.fd in registry && registry[channel.fd].channel == channel
      modifies this, channel`index
      ensures Valid()
      ensures registry == old(registry) - {channel.fd}
      ensures State() == EpollRemove(old(State()), channel) && channel.fd !in kernel
    {
      EpollRemoveKeeps(State(), registry, channel);
      ghost var goal := EpollRemove(State(), channel);
      channels := channels - {channel.fd};
      var i := channel.index;
      if i == ADDED {
        Update(Del, channel);
      }
      channel.index := NEW;
      index := index[channel := NEW];
      registry := registry - {channel.fd};
      assert State() == goal;
    }
  }
}
