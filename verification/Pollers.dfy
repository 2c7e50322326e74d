/** A descriptor with the events its owner asks for; `index` belongs to the poller (src/muduo/net/Channel.h). */
module Channels {

  class Channel {
    const fd: nat
    var events: nat
    var revents: nat
    var index: int

    constructor (fd: nat)
      ensures this.fd == fd && events == 0 && index == -1
    {
      this.fd := fd;
      events, revents, index := 0, 0, -1;
    }

    predicate IsNoneEvent()
      reads this`events
    {
      events == 0
    }
  }
}

/** What a run of channel updates and removals asks of a poller, and what each poller makes of it. */
module PollerRuns {

  datatype Op = Update(fd: nat, mask: nat) | Remove(fd: nat)

  /** A registered descriptor: the mask of its last update, and whether the poller has it ignored. */
  datatype Watch = Watch(mask: nat, ignored: bool)

  type Watches = map<nat, Watch>

  /** poll(2): an entry is ignored when it is updated, not first registered, with an empty mask. */
  function PollNext(w: Watches, op: Op): Watches {
    match op
    case Update(fd, mask) => w[fd := Watch(mask, fd in w && mask == 0)]
    case Remove(fd) => w - {fd}
  }

  /** epoll(4): an empty mask deletes a descriptor the kernel holds and adds one it does not hold. */
  function EpollNext(w: Watches, op: Op): Watches {
    match op
    case Update(fd, mask) => w[fd := Watch(mask, fd in w && !w[fd].ignored && mask == 0)]
    case Remove(fd) => w - {fd}
  }

  /** A channel is removed from poll(2) once an update has had its entry ignored. */
  predicate PollAllows(w: Watches, op: Op) {
    op.Remove? ==> op.fd in w && w[op.fd].ignored
  }

  /** A channel is removed from epoll(4) once it asks for nothing. */
  predicate EpollAllows(w: Watches, op: Op) {
    op.Remove? ==> op.fd in w && w[op.fd].mask == 0
  }

  function PollRun(ops: seq<Op>): Watches {
    if ops == [] then map[] else PollNext(PollRun(ops[..|ops| - 1]), ops[|ops| - 1])
  }

  function EpollRun(ops: seq<Op>): Watches {
    if ops == [] then map[] else EpollNext(EpollRun(ops[..|ops| - 1]), ops[|ops| - 1])
  }

  /** The masks last asked for, by descriptor. */
  function Requested(ops: seq<Op>): map<nat, nat> {
    if ops == [] then map[] else
    var before := Requested(ops[..|ops| - 1]);
    match ops[|ops| - 1]
    case Update(fd, mask) => before[fd := mask]
    case Remove(fd) => before - {fd}
  }

  /** What the operating system watches, and for which events. */
  function Watched(w: Watches): map<nat, nat> {
    map fd | fd in w && !w[fd].ignored :: w[fd].mask
  }

  /** The descriptors that are to be watched for something. */
  function NonEmpty(masks: map<nat, nat>): map<nat, nat> {
    map fd | fd in masks && masks[fd] != 0 :: masks[fd]
  }

  lemma {:induction false} RunEntries(ops: seq<Op>)
    ensures var r, p, e := Requested(ops), PollRun(ops), EpollRun(ops);
            && p.Keys == r.Keys == e.Keys
            && (forall fd | fd in r :: p[fd].mask == r[fd] && (p[fd].ignored ==> r[fd] == 0))
            && (forall fd | fd in r :: e[fd].mask == r[fd] && (e[fd].ignored ==> r[fd] == 0))
  {
    if ops != [] {
      RunEntries(ops[..|ops| - 1]);
    }
  }

  /** After any run, both pollers watch for exactly the events last asked for. */
  lemma PollersWatchTheRequested(ops: seq<Op>)
    ensures NonEmpty(Watched(PollRun(ops))) == NonEmpty(Requested(ops)) == NonEmpty(Watched(EpollRun(ops)))
  {
    RunEntries(ops);
  }

  /** Every removal is of a channel that poll(2) ignores by then. */
  predicate PollLegal(ops: seq<Op>) {
    forall n | 0 <= n < |ops| :: PollAllows(PollRun(ops[..n]), ops[n])
  }

  lemma PollLegalSnoc(ops: seq<Op>, n: nat)
    requires n < |ops| && PollLegal(ops[..n]) && PollAllows(PollRun(ops[..n]), ops[n])
    ensures PollLegal(ops[..n + 1]) && PollRun(ops[..n + 1]) == PollNext(PollRun(ops[..n]), ops[n])
  {
    hide PollAllows;
    var longer := ops[..n + 1];
    assert longer[..n] == ops[..n];
    forall k | 0 <= k < |longer|
      ensures PollAllows(PollRun(longer[..k]), longer[k])
    {
      assert longer[..k] == ops[..k];
      if k < n {
        assert ops[..n][..k] == ops[..k] && ops[..n][k] == ops[k];
      }
    }
  }

  lemma AllowsToo(ops: seq<Op>, op: Op)
    requires PollAllows(PollRun(ops), op)
    ensures EpollAllows(EpollRun(ops), op)
  {
    RunEntries(ops);
  }

  /** Some update repeats an empty mask on a descriptor that is ignored already. */
  predicate RepeatsEmpty(w: Watches, op: Op) {
    op.Update? && op.mask == 0 && op.fd in w && w[op.fd].ignored
  }

  predicate NeverRepeatsEmpty(ops: seq<Op>) {
    forall n | 0 <= n < |ops| :: !RepeatsEmpty(PollRun(ops[..n]), ops[n])
  }

  predicate AgreeThroughout(ops: seq<Op>) {
    forall n | 0 <= n <= |ops| :: Watched(PollRun(ops[..n])) == Watched(EpollRun(ops[..n]))
  }

  lemma SameWatched(p: Watches, e: Watches)
    requires p.Keys == e.Keys && Watched(p) == Watched(e)
    ensures forall fd | fd in p :: p[fd].ignored == e[fd].ignored
  {
    forall fd | fd in p
      ensures p[fd].ignored == e[fd].ignored
    {
      assert fd in Watched(p) <==> fd in Watched(e);
    }
  }

  /** One step keeps the two alike exactly when it does not repeat an empty mask. */
  lemma StepAgrees(p: Watches, e: Watches, op: Op)
    requires p.Keys == e.Keys && (forall fd | fd in p :: p[fd].mask == e[fd].mask) && Watched(p) == Watched(e)
    ensures Watched(PollNext(p, op)) == Watched(EpollNext(e, op)) <==> !RepeatsEmpty(p, op)
  {
    SameWatched(p, e);
    if RepeatsEmpty(p, op) {
      assert op.fd !in Watched(PollNext(p, op)) && op.fd in Watched(EpollNext(e, op));
    }
  }

  lemma {:induction false} AgreeAtEnd(ops: seq<Op>, n: nat)
    requires n < |ops| && Watched(PollRun(ops[..n])) == Watched(EpollRun(ops[..n]))
    ensures Watched(PollRun(ops[..n + 1])) == Watched(EpollRun(ops[..n + 1]))
       <==> !RepeatsEmpty(PollRun(ops[..n]), ops[n])
  {
    RunEntries(ops[..n]);
    assert ops[..n + 1][..n] == ops[..n];
    StepAgrees(PollRun(ops[..n]), EpollRun(ops[..n]), ops[n]);
  }

  lemma EmptyRun(ops: seq<Op>)
    ensures Watched(PollRun(ops[..0])) == Watched(EpollRun(ops[..0]))
  {
  }

  /** The operating system is asked for the same descriptors and masks all along exactly when no update
      repeats an empty mask: the second one makes epoll(4) add the descriptor it had deleted. */
  lemma PollersAgreeExactly(ops: seq<Op>)
    ensures AgreeThroughout(ops) <==> NeverRepeatsEmpty(ops)
  {
    hide PollRun, EpollRun, Watched, RepeatsEmpty;
    assert Watched(PollRun(ops[..0])) == Watched(EpollRun(ops[..0])) by {
      EmptyRun(ops);
    }
    if AgreeThroughout(ops) {
      forall n | 0 <= n < |ops|
        ensures !RepeatsEmpty(PollRun(ops[..n]), ops[n])
      {
        AgreeAtEnd(ops, n);
      }
    }
    if NeverRepeatsEmpty(ops) {
      for n := 0 to |ops|
        invariant forall k | 0 <= k <= n :: Watched(PollRun(ops[..k])) == Watched(EpollRun(ops[..k]))
      {
        AgreeAtEnd(ops, n);
      }
    }
  }

  /** A descriptor disabled twice: poll(2) ignores it, and epoll(4) holds it again with an empty mask. */
  lemma DisabledTwice()
    ensures var ops := [Update(3, 1), Update(3, 0), Update(3, 0)];
            Watched(PollRun(ops)) == map[] && Watched(EpollRun(ops)) == map[3 := 0]
  {
    var ops := [Update(3, 1), Update(3, 0), Update(3, 0)];
    var one, two := [Update(3, 1)], [Update(3, 1), Update(3, 0)];
    assert one[..0] == [] && two[..1] == one && ops[..2] == two;
    assert PollRun(one) == map[3 := Watch(1, false)] && EpollRun(one) == map[3 := Watch(1, false)];
    assert PollRun(two) == map[3 := Watch(0, true)] && EpollRun(two) == map[3 := Watch(0, true)];
    assert PollRun(ops) == map[3 := Watch(0, true)] && EpollRun(ops) == map[3 := Watch(0, false)];
  }
}

/** poll(2): an array of pollfds with back-indices in the channels (src/muduo/net/poller/PollPoller.cc). */
module PollPoller {
  import opened Channels
  import opened PollerRuns

  datatype PollFd = PollFd(fd: int, events: nat, revents: nat)

  /** An entry that is to be ignored holds its descriptor in this form, negative for all descriptors. */
  function Ignored(fd: nat): int {
    -1 - fd
  }

  function Owner(fd: int): nat {
    if fd < 0 then -1 - fd else fd
  }

  /** Every registered descriptor points at its entry, and every entry belongs to the one that points at it. */
  ghost predicate Linked(pfds: seq<PollFd>, index: map<nat, int>) {
    && (forall fd | fd in index ::
          && 0 <= index[fd] < |pfds|
          && (pfds[index[fd]].fd == fd || (pfds[index[fd]].fd == Ignored(fd) && pfds[index[fd]].events == 0)))
    && (forall i | 0 <= i < |pfds| :: Owner(pfds[i].fd) in index && index[Owner(pfds[i].fd)] == i)
  }

  /** What the entries say of each registered descriptor. */
  ghost function Entries(pfds: seq<PollFd>, index: map<nat, int>): Watches {
    map fd | fd in index && 0 <= index[fd] < |pfds| :: Watch(pfds[index[fd]].events, pfds[index[fd]].fd < 0)
  }

  lemma AddLinked(pfds: seq<PollFd>, index: map<nat, int>, fd: nat, mask: nat)
    requires Linked(pfds, index) && fd !in index
    ensures fd !in Entries(pfds, index)
    ensures Linked(pfds + [PollFd(fd, mask, 0)], index[fd := |pfds|])
    ensures Entries(pfds + [PollFd(fd, mask, 0)], index[fd := |pfds|]) == Entries(pfds, index)[fd := Watch(mask, false)]
  {
  }

  lemma SetLinked(pfds: seq<PollFd>, index: map<nat, int>, fd: nat, mask: nat)
    requires Linked(pfds, index) && fd in index
    ensures var pfds' := pfds[index[fd] := PollFd(if mask == 0 then Ignored(fd) else fd, mask, 0)];
            Linked(pfds', index) && Entries(pfds', index) == Entries(pfds, index)[fd := Watch(mask, mask == 0)]
  {
    var pfds' := pfds[index[fd] := PollFd(if mask == 0 then Ignored(fd) else fd, mask, 0)];
    forall x | x in index && x != fd
      ensures index[x] != index[fd] && pfds'[index[x]] == pfds[index[x]]
    {
      assert Owner(pfds[index[x]].fd) == x && Owner(pfds[index[fd]].fd) == fd;
    }
  }

  lemma DropLastLinked(pfds: seq<PollFd>, index: map<nat, int>, fd: nat)
    requires Linked(pfds, index) && fd in index && index[fd] == |pfds| - 1
    ensures Linked(pfds[..|pfds| - 1], index - {fd})
    ensures Entries(pfds[..|pfds| - 1], index - {fd}) == Entries(pfds, index) - {fd}
  {
    forall x | x in index && x != fd
      ensures 0 <= index[x] < |pfds| - 1
    {
      assert Owner(pfds[index[x]].fd) == x && Owner(pfds[index[fd]].fd) == fd;
    }
    assert forall i | 0 <= i < |pfds| - 1 :: Owner(pfds[i].fd) in index && index[Owner(pfds[i].fd)] == i;
  }

  /** The entries with number `i` and the last one exchanged. */
  function Swapped(pfds: seq<PollFd>, i: int): seq<PollFd>
    requires 0 <= i < |pfds|
  {
    pfds[i := pfds[|pfds| - 1]][|pfds| - 1 := pfds[i]]
  }

  /** Both owners point at their new places. */
  function Reindexed(index: map<nat, int>, last: nat, fd: nat, i: int, n: int): map<nat, int> {
    index[last := i][fd := n]
  }

  lemma SwapLast(pfds: seq<PollFd>, index: map<nat, int>, fd: nat)
    requires Linked(pfds, index) && fd in index
    ensures 0 <= index[fd] < |pfds|
    ensures var last := Owner(pfds[|pfds| - 1].fd);
            last in index && index[last] == |pfds| - 1 && (last == fd <==> index[fd] == |pfds| - 1)
    ensures Owner(pfds[index[fd]].fd) == fd
  {
  }

  lemma SwapAt(pfds: seq<PollFd>, index: map<nat, int>, fd: nat, x: nat)
    requires Linked(pfds, index) && fd in index && x in index && 0 <= index[fd] < |pfds|
    ensures var last := Owner(pfds[|pfds| - 1].fd);
            var index' := Reindexed(index, last, fd, index[fd], |pfds| - 1);
            && 0 <= index[x] < |pfds| && 0 <= index'[x] < |pfds|
            && Swapped(pfds, index[fd])[index'[x]] == pfds[index[x]]
  {
    SwapLast(pfds, index, fd);
    SwapLast(pfds, index, x);
  }

  lemma SwapOwner(pfds: seq<PollFd>, index: map<nat, int>, fd: nat, j: nat)
    requires Linked(pfds, index) && fd in index && 0 <= index[fd] < |pfds| && j < |pfds|
    ensures var last := Owner(pfds[|pfds| - 1].fd);
            var owner, index' := Owner(Swapped(pfds, index[fd])[j].fd), Reindexed(index, last, fd, index[fd], |pfds| - 1);
            owner in index' && index'[owner] == j
  {
    SwapLast(pfds, index, fd);
  }

  /** Entries that only change places, with indices that follow them, stay linked and say the same. */
  lemma MovedLinked(pfds: seq<PollFd>, index: map<nat, int>, pfds': seq<PollFd>, index': map<nat, int>)
    requires Linked(pfds, index) && index'.Keys == index.Keys
    requires forall x | x in index ::
               0 <= index[x] < |pfds| && 0 <= index'[x] < |pfds'| && pfds'[index'[x]] == pfds[index[x]]
    requires forall j | 0 <= j < |pfds'| :: Owner(pfds'[j].fd) in index' && index'[Owner(pfds'[j].fd)] == j
    ensures Linked(pfds', index') && Entries(pfds', index') == Entries(pfds, index)
  {
  }

  /** Exchanging two entries keeps everything linked once both owners point at their new places. */
  lemma SwapLinked(pfds: seq<PollFd>, index: map<nat, int>, fd: nat)
    requires Linked(pfds, index) && fd in index && 0 <= index[fd] < |pfds|
    ensures var last := Owner(pfds[|pfds| - 1].fd);
            var pfds', index' := Swapped(pfds, index[fd]), Reindexed(index, last, fd, index[fd], |pfds| - 1);
            && last in index && (last == fd <==> index[fd] == |pfds| - 1) && index'.Keys == index.Keys
            && Linked(pfds', index') && Entries(pfds', index') == Entries(pfds, index)
  {
    hide Linked, Entries, Owner;
    SwapLast(pfds, index, fd);
    var last := Owner(pfds[|pfds| - 1].fd);
    var pfds', index' := Swapped(pfds, index[fd]), Reindexed(index, last, fd, index[fd], |pfds| - 1);
    assert index'.Keys == index.Keys;
    hide Swapped, Reindexed;
    forall x | x in index
      ensures 0 <= index[x] < |pfds| && 0 <= index'[x] < |pfds'| && pfds'[index'[x]] == pfds[index[x]]
    {
      SwapAt(pfds, index, fd, x);
    }
    forall j | 0 <= j < |pfds'|
      ensures Owner(pfds'[j].fd) in index' && index'[Owner(pfds'[j].fd)] == j
    {
      SwapOwner(pfds, index, fd, j);
    }
    MovedLinked(pfds, index, pfds', index');
  }

  lemma SwapRemoveLinked(pfds: seq<PollFd>, index: map<nat, int>, fd: nat)
    requires Linked(pfds, index) && fd in index && 0 <= index[fd] < |pfds| - 1
    ensures var last := Owner(pfds[|pfds| - 1].fd);
            var pfds', index' := Swapped(pfds, index[fd])[..|pfds| - 1], (index - {fd})[last := index[fd]];
            && last in index && last != fd
            && Linked(pfds', index') && Entries(pfds', index') == Entries(pfds, index) - {fd}
  {
    hide Linked, Entries, Owner;
    var n, last := |pfds| - 1, Owner(pfds[|pfds| - 1].fd);
    SwapLinked(pfds, index, fd);
    var pfds', index' := Swapped(pfds, index[fd]), Reindexed(index, last, fd, index[fd], n);
    DropLastLinked(pfds', index', fd);
    assert index' - {fd} == (index - {fd})[last := index[fd]];
  }

  lemma LinkedAt(pfds: seq<PollFd>, index: map<nat, int>, fd: nat)
    requires Linked(pfds, index) && fd in index
    ensures 0 <= index[fd] < |pfds| && fd in Entries(pfds, index)
    ensures pfds[index[fd]].fd == fd || pfds[index[fd]].fd == Ignored(fd)
    ensures Entries(pfds, index)[fd].ignored ==> pfds[index[fd]].fd == Ignored(fd) && pfds[index[fd]].events == 0
  {
  }

  lemma EntryKeys(pfds: seq<PollFd>, index: map<nat, int>)
    requires Linked(pfds, index)
    ensures Entries(pfds, index).Keys == index.Keys
    ensures forall fd | fd in Entries(pfds, index) && Entries(pfds, index)[fd].ignored :: Entries(pfds, index)[fd].mask == 0
  {
  }

  /** What poll(2) is passed: every entry it does not ignore, and nothing else. */
  ghost predicate Polls(pfds: seq<PollFd>, watched: map<nat, nat>) {
    && (forall i | 0 <= i < |pfds| && pfds[i].fd >= 0 ::
          pfds[i].fd in watched && watched[pfds[i].fd] == pfds[i].events)
    && (forall fd | fd in watched :: exists i :: 0 <= i < |pfds| && pfds[i].fd == fd)
  }

  lemma PollsWatched(pfds: seq<PollFd>, index: map<nat, int>)
    requires Linked(pfds, index)
    ensures Polls(pfds, Watched(Entries(pfds, index)))
  {
    var watched := Watched(Entries(pfds, index));
    forall i | 0 <= i < |pfds| && pfds[i].fd >= 0
      ensures pfds[i].fd in watched && watched[pfds[i].fd] == pfds[i].events
    {
      assert Owner(pfds[i].fd) == pfds[i].fd;
    }
    forall fd | fd in watched
      ensures exists i :: 0 <= i < |pfds| && pfds[i].fd == fd
    {
      assert pfds[index[fd]].fd == fd;
    }
  }

  lemma EntryOwner(pfds: seq<PollFd>, index: map<nat, int>, i: nat)
    requires Linked(pfds, index) && i < |pfds| && pfds[i].fd >= 0
    ensures pfds[i].fd in index && index[pfds[i].fd] == i
  {
  }

  /** Positions of the entries poll(2) reported among the first `n`, in order. */
  ghost function Ready(pfds: seq<PollFd>, n: nat): seq<nat>
    requires n <= |pfds|
  {
    if n == 0 then [] else Ready(pfds, n - 1) + (if pfds[n - 1].revents > 0 then [n - 1] else [])
  }

  lemma ReadyNext(pfds: seq<PollFd>, i: nat)
    requires i < |pfds|
    ensures Ready(pfds, i + 1) == if pfds[i].revents > 0 then Ready(pfds, i) + [i] else Ready(pfds, i)
  {
  }

  lemma {:induction false} ReadyBelow(pfds: seq<PollFd>, n: nat)
    requires n <= |pfds|
    ensures forall k | 0 <= k < |Ready(pfds, n)| :: Ready(pfds, n)[k] < n
  {
    if n > 0 {
      ReadyBelow(pfds, n - 1);
    }
  }

  lemma {:induction false} ReadyPrefix(pfds: seq<PollFd>, m: nat, n: nat)
    requires m <= n <= |pfds|
    ensures Ready(pfds, m) <= Ready(pfds, n)
  {
    if m < n {
      ReadyPrefix(pfds, m, n - 1);
    }
  }

  lemma AllReady(pfds: seq<PollFd>, i: nat, wanted: nat)
    requires i <= |pfds| && |Ready(pfds, i)| <= wanted <= |Ready(pfds, |pfds|)|
    requires i == |pfds| || |Ready(pfds, i)| == wanted
    ensures Ready(pfds, i) == Ready(pfds, |pfds|)[..wanted]
  {
    ReadyPrefix(pfds, i, |pfds|);
  }

  class PollPoller {
    var pollfds: seq<PollFd>
    var channels: map<nat, Channel>

    ghost function Index(): map<nat, int>
      reads this, channels.Values`index
    {
      map fd | fd in channels :: channels[fd].index
    }

    ghost predicate Valid()
      reads this, channels.Values`index
    {
      (forall fd | fd in channels :: channels[fd].fd == fd) && Linked(pollfds, Index())
    }

    ghost function View(): Watches
      reads this, channels.Values`index
    {
      Entries(pollfds, Index())
    }

    constructor ()
      ensures Valid() && channels == map[] && View() == map[]
    {
      pollfds, channels := [], map[];
    }

    method UpdateChannel(channel: Channel)
      requires Valid()
      requires channel.index < 0 ==> channel.fd !in channels
      requires channel.index >= 0 ==> channel.fd in channels && channels[channel.fd] == channel
      modifies this, channel`index
      ensures Valid() && View() == PollNext(old(View()), Update(channel.fd, channel.events))
      ensures channels == old(channels)[channel.fd := channel]
    {
      if channel.index < 0 {
        AddChannel(channel);
      } else {
        ChangeChannel(channel);
        assert channels[channel.fd := channel] == channels;
      }
    }

    method AddChannel(channel: Channel)
      requires Valid() && channel.index < 0 && channel.fd !in channels
      modifies this, channel`index
      ensures Valid() && View() == PollNext(old(View()), Update(channel.fd, channel.events))
      ensures channels == old(channels)[channel.fd := channel]
    {
      hide Linked, Entries;
      ghost var index := Index();
      AddLinked(pollfds, index, channel.fd, channel.events);
      pollfds := pollfds + [PollFd(channel.fd, channel.events, 0)];
      var idx := |pollfds| - 1;
      channel.index := idx;
      channels := channels[channel.fd := channel];
      assert Index() == index[channel.fd := idx];
    }

    method ChangeChannel(channel: Channel)
      requires Valid() && channel.fd in channels && channels[channel.fd] == channel
      modifies this`pollfds
      ensures Valid() && View() == PollNext(old(View()), Update(channel.fd, channel.events))
    {
      hide Linked, Entries;
      ghost var index := Index();
      var idx := channel.index;
      assert index[channel.fd] == idx;
      LinkedAt(pollfds, index, channel.fd);
      SetLinked(pollfds, index, channel.fd, channel.events);
      var pfd := pollfds[idx].(fd := channel.fd, events := channel.events, revents := 0);
      if channel.IsNoneEvent() {
        pfd := pfd.(fd := Ignored(channel.fd));
      }
      pollfds := pollfds[idx := pfd];
      assert Index() == index;
    }

    /** Takes the entry out by swapping the last one into its place. */
    method RemoveChannel(channel: Channel)
      requires Valid() && channel.fd in channels && channels[channel.fd] == channel
      requires channel.IsNoneEvent() && channel.fd in View() && View()[channel.fd].ignored
      modifies this, channels.Values`index
      ensures Valid() && View() == PollNext(old(View()), Remove(channel.fd))
      ensures channels == old(channels) - {channel.fd} && channel.index == old(channel.index)
    {
      hide Linked, Entries;
      ghost var index := Index();
      var idx := channel.index;
      assert index[channel.fd] == idx;
      LinkedAt(pollfds, index, channel.fd);
      assert pollfds[idx].fd == Ignored(channel.fd) && pollfds[idx].events == channel.events;
      if idx == |pollfds| - 1 {
        DropLastLinked(pollfds, index, channel.fd);
        channels := channels - {channel.fd};
        pollfds := pollfds[..|pollfds| - 1];
        assert Index() == index - {channel.fd};
      } else {
        SwapRemoveLinked(pollfds, index, channel.fd);
        channels := channels - {channel.fd};
        var channelAtEnd := pollfds[|pollfds| - 1].fd;
        pollfds := pollfds[idx := pollfds[|pollfds| - 1]][|pollfds| - 1 := pollfds[idx]];
        if channelAtEnd < 0 {
          channelAtEnd := -channelAtEnd - 1;
        }
        channels[channelAtEnd].index := idx;
        assert pollfds == Swapped(old(pollfds), idx);
        pollfds := pollfds[..|pollfds| - 1];
        assert Index() == (index - {channel.fd})[channelAtEnd := idx];
      }
    }

    /** Every channel asks for what it was last updated with. */
    ghost predicate Synced()
      reads this, channels.Values
    {
      forall fd | fd in channels :: fd in View() && channels[fd].events == View()[fd].mask
    }

    /** What removeChannel asserts of the entry. */
    predicate Permits(op: Op): (r: bool)
      requires Valid()
      reads this, channels.Values`index
      ensures r == PollAllows(View(), op)
    {
      assert op.fd in channels ==> Index()[op.fd] == channels[op.fd].index;
      op.Remove? ==> op.fd in channels && pollfds[channels[op.fd].index].fd < 0
    }

    /** A channel for the descriptor: the registered one, or a new one. */
    method ChannelFor(fd: nat) returns (channel: Channel)
      requires Valid()
      ensures channel.fd == fd
      ensures if fd in channels then channel == channels[fd] && channel.index >= 0
              else fresh(channel) && channel.index < 0
    {
      if fd in channels {
        channel := channels[fd];
        LinkedAt(pollfds, Index(), fd);
      } else {
        channel := new Channel(fd);
      }
    }

    method PerformUpdate(fd: nat, mask: nat)
      requires Valid() && Synced()
      modifies this, channels.Values
      ensures Valid() && Synced() && View() == PollNext(old(View()), Update(fd, mask))
      ensures fresh(channels.Values - old(channels.Values))
    {
      hide Linked, Entries;
      var channel := ChannelFor(fd);
      channel.events := mask;
      UpdateChannel(channel);
    }

    method PerformRemove(fd: nat)
      requires Valid() && Synced() && PollAllows(View(), Remove(fd))
      modifies this, channels.Values
      ensures Valid() && Synced() && View() == PollNext(old(View()), Remove(fd))
      ensures channels.Values <= old(channels.Values)
    {
      hide Linked, Entries;
      EntryKeys(pollfds, Index());
      RemoveChannel(channels[fd]);
    }

    /** A change of interest, or a removal, as a channel makes it. */
    method Perform(op: Op)
      requires Valid() && Synced() && PollAllows(View(), op)
      modifies this, channels.Values
      ensures Valid() && Synced() && View() == PollNext(old(View()), op)
      ensures fresh(channels.Values - old(channels.Values))
    {
      hide Valid, Synced, View;
      match op {
        case Update(fd, mask) => PerformUpdate(fd, mask);
        case Remove(fd) => PerformRemove(fd);
      }
    }

    /** Any list of operations, up to the first removal of a channel that is not ignored. */
    method Run(ops: seq<Op>) returns (done: nat)
      requires Valid() && channels == map[]
      modifies this
      ensures Valid() && done <= |ops| && View() == PollRun(ops[..done]) && PollLegal(ops[..done])
      ensures done < |ops| ==> !PollAllows(View(), ops[done])
      ensures Polls(pollfds, Watched(View())) && fresh(channels.Values)
    {
      done := 0;
      PollsWatched(pollfds, Index());
      hide Linked, Entries;
      while done < |ops| && Permits(ops[done])
        invariant Valid() && Synced() && fresh(channels.Values)
        invariant done <= |ops| && View() == PollRun(ops[..done]) && PollLegal(ops[..done])
      {
        PollLegalSnoc(ops, done);
        Perform(ops[done]);
        done := done + 1;
      }
      PollsWatched(pollfds, Index());
    }

    /** `channel` is the one registered for entry `i`, and holds what was reported there. */
    ghost predicate Delivered(channel: Channel, i: nat)
      reads this, channel
    {
      && i < |pollfds| && pollfds[i].fd in channels && channel == channels[pollfds[i].fd]
      && channel.index == i && channel.revents == pollfds[i].revents
    }

    /** The channels are those of the entries `ready`, in that order. */
    ghost predicate AllDelivered(active: seq<Channel>, ready: seq<nat>)
      reads this, active
    {
      |active| == |ready| && forall k | 0 <= k < |active| :: Delivered(active[k], ready[k])
    }

    lemma NoneDelivered(none: seq<Channel>)
      requires none == []
      ensures Ready(pollfds, 0) == [] && AllDelivered(none, Ready(pollfds, 0))
    {
    }

    method Deliver(i: nat, active: seq<Channel>, ghost ready: seq<nat>) returns (activeChannels: seq<Channel>)
      requires Valid() && i < |pollfds| && pollfds[i].fd >= 0
      requires AllDelivered(active, ready) && forall k | 0 <= k < |ready| :: ready[k] < i
      modifies channels.Values`revents
      ensures Valid() && AllDelivered(activeChannels, ready + [i])
    {
      hide Linked, Entries;
      EntryOwner(pollfds, Index(), i);
      var channel := channels[pollfds[i].fd];
      assert forall k | 0 <= k < |active| :: active[k].index < i == channel.index;
      channel.revents := pollfds[i].revents;
      activeChannels := active + [channel];
    }

    /** Hands out the channels of the first `numEvents` reported entries, each with what was reported for it. */
    method FillActiveChannels(numEvents: nat) returns (activeChannels: seq<Channel>)
      requires Valid() && forall i | 0 <= i < |pollfds| && pollfds[i].fd < 0 :: pollfds[i].revents == 0
      requires numEvents <= |Ready(pollfds, |pollfds|)|
      modifies channels.Values`revents
      ensures AllDelivered(activeChannels, Ready(pollfds, |pollfds|)[..numEvents])
    {
      hide AllDelivered, Ready, Valid;
      activeChannels := [];
      NoneDelivered(activeChannels);
      var left, i := numEvents, 0;
      while i < |pollfds| && left > 0
        invariant Valid() && 0 <= i <= |pollfds| && 0 <= left == numEvents - |Ready(pollfds, i)|
        invariant AllDelivered(activeChannels, Ready(pollfds, i))
      {
        ReadyNext(pollfds, i);
        if pollfds[i].revents > 0 {
          left := left - 1;
          ReadyBelow(pollfds, i);
          activeChannels := Deliver(i, activeChannels, Ready(pollfds, i));
        }
        i := i + 1;
      }
      AllReady(pollfds, i, numEvents);
    }
  }
}

/** epoll(4): the kernel keeps the interest list (src/muduo/net/poller/EPollPoller.cc). */
module EPollPoller {
  import opened Channels
  import opened PollerRuns

  const NEW := -1
  const ADDED := 1
  const DELETED := 2

  datatype Interest = Interest(events: nat, ptr: Channel)

  /** A channel's index says whether the kernel holds its descriptor, and the kernel holds the channel itself. */
  ghost predicate Listed(channels: map<nat, Channel>, index: map<nat, int>, kernel: map<nat, Interest>) {
    && index.Keys == channels.Keys
    && (forall fd | fd in index :: index[fd] == if fd in kernel then ADDED else DELETED)
    && (forall fd | fd in kernel :: fd in channels && kernel[fd].ptr == channels[fd])
  }

  /** What the interest list says of each registered descriptor. */
  ghost function Watching(channels: map<nat, Channel>, kernel: map<nat, Interest>): Watches {
    map fd | fd in channels :: if fd in kernel then Watch(kernel[fd].events, false) else Watch(0, true)
  }

  lemma AddListed(channels: map<nat, Channel>, index: map<nat, int>, kernel: map<nat, Interest>, channel: Channel, mask: nat)
    requires Listed(channels, index, kernel) && channel.fd !in kernel
    requires channel.fd in channels ==> channels[channel.fd] == channel
    ensures var fd := channel.fd;
            var channels', kernel' := channels[fd := channel], kernel[fd := Interest(mask, channel)];
            && Listed(channels', index[fd := ADDED], kernel')
            && Watching(channels', kernel') == EpollNext(Watching(channels, kernel), Update(fd, mask))
  {
  }

  lemma ModifyListed(channels: map<nat, Channel>, index: map<nat, int>, kernel: map<nat, Interest>, channel: Channel, mask: nat)
    requires Listed(channels, index, kernel) && channel.fd in kernel && channels[channel.fd] == channel && mask != 0
    ensures var kernel' := kernel[channel.fd := Interest(mask, channel)];
            && Listed(channels, index, kernel')
            && Watching(channels, kernel') == EpollNext(Watching(channels, kernel), Update(channel.fd, mask))
  {
  }

  lemma DeleteListed(channels: map<nat, Channel>, index: map<nat, int>, kernel: map<nat, Interest>, channel: Channel)
    requires Listed(channels, index, kernel) && channel.fd in kernel && channels[channel.fd] == channel
    ensures var kernel' := kernel - {channel.fd};
            && Listed(channels, index[channel.fd := DELETED], kernel')
            && Watching(channels, kernel') == EpollNext(Watching(channels, kernel), Update(channel.fd, 0))
  {
  }

  lemma RemoveListed(channels: map<nat, Channel>, index: map<nat, int>, kernel: map<nat, Interest>, fd: nat)
    requires Listed(channels, index, kernel) && fd in channels
    ensures Listed(channels - {fd}, index - {fd}, kernel - {fd})
    ensures Watching(channels - {fd}, kernel - {fd}) == EpollNext(Watching(channels, kernel), Remove(fd))
    ensures fd !in kernel ==> kernel - {fd} == kernel
  {
  }

  lemma NotAdded(channels: map<nat, Channel>, index: map<nat, int>, kernel: map<nat, Interest>, fd: nat)
    requires Listed(channels, index, kernel) && (fd in channels ==> fd in index && index[fd] != ADDED)
    ensures fd !in kernel
  {
  }

  lemma ListedAt(channels: map<nat, Channel>, index: map<nat, int>, kernel: map<nat, Interest>, fd: nat)
    requires Listed(channels, index, kernel) && fd in channels
    ensures fd in index && index[fd] == (if fd in kernel then ADDED else DELETED)
    ensures fd in Watching(channels, kernel)
  {
  }

  class EPollPoller {
    var channels: map<nat, Channel>
    // The interest list behind epoll_ctl(2).
    var kernel: map<nat, Interest>

    ghost function Index(): map<nat, int>
      reads this, channels.Values`index
    {
      map fd | fd in channels :: channels[fd].index
    }

    ghost predicate Valid()
      reads this, channels.Values`index
    {
      (forall fd | fd in channels :: channels[fd].fd == fd) && Listed(channels, Index(), kernel)
    }

    ghost function View(): Watches
      reads this
    {
      Watching(channels, kernel)
    }

    constructor ()
      ensures Valid() && channels == map[] && View() == map[]
    {
      channels, kernel := map[], map[];
    }

    /** EPOLL_CTL_ADD fails for a descriptor that is on the list already. */
    method Add(channel: Channel)
      requires channel.fd !in kernel
      modifies this`kernel
      ensures kernel == old(kernel)[channel.fd := Interest(channel.events, channel)]
    {
      kernel := kernel[channel.fd := Interest(channel.events, channel)];
    }

    /** EPOLL_CTL_MOD fails for a descriptor that is not on the list. */
    method Modify(channel: Channel)
      requires channel.fd in kernel
      modifies this`kernel
      ensures kernel == old(kernel)[channel.fd := Interest(channel.events, channel)]
    {
      kernel := kernel[channel.fd := Interest(channel.events, channel)];
    }

    /** EPOLL_CTL_DEL fails for a descriptor that is not on the list. */
    method Delete(channel: Channel)
      requires channel.fd in kernel
      modifies this`kernel
      ensures kernel == old(kernel) - {channel.fd}
    {
      kernel := kernel - {channel.fd};
    }

    /** No epoll_ctl(2) call made here can fail for a descriptor on or off the list. */
    method UpdateChannel(channel: Channel)
      requires Valid()
      requires channel.index == NEW ==> channel.fd !in channels
      requires channel.index != NEW ==> channel.fd in channels && channels[channel.fd] == channel
      modifies this, channel`index
      ensures Valid() && View() == EpollNext(old(View()), Update(channel.fd, channel.events))
      ensures channels == old(channels)[channel.fd := channel]
    {
      var index := channel.index;
      if index == NEW || index == DELETED {
        AddChannel(channel);
      } else {
        ChangeChannel(channel);
        assert channels[channel.fd := channel] == channels;
      }
    }

    method AddChannel(channel: Channel)
      requires Valid()
      requires || (channel.index == NEW && channel.fd !in channels)
               || (channel.index == DELETED && channel.fd in channels && channels[channel.fd] == channel)
      modifies this, channel`index
      ensures Valid() && View() == EpollNext(old(View()), Update(channel.fd, channel.events))
      ensures channels == old(channels)[channel.fd := channel]
    {
      hide Listed, Watching, EpollNext;
      ghost var index := Index();
      NotAdded(channels, index, kernel, channel.fd);
      AddListed(channels, index, kernel, channel, channel.events);
      if channel.index == NEW {
        channels := channels[channel.fd := channel];
      }
      assert channels == old(channels)[channel.fd := channel];
      channel.index := ADDED;
      Add(channel);
      assert Index() == index[channel.fd := ADDED];
    }

    method ChangeChannel(channel: Channel)
      requires Valid() && channel.fd in channels && channels[channel.fd] == channel && channel.index == ADDED
      modifies this`kernel, channel`index
      ensures Valid() && View() == EpollNext(old(View()), Update(channel.fd, channel.events))
    {
      hide Listed, Watching, EpollNext;
      ghost var index := Index();
      ListedAt(channels, index, kernel, channel.fd);
      if channel.IsNoneEvent() {
        DeleteListed(channels, index, kernel, channel);
        Delete(channel);
        channel.index := DELETED;
        assert Index() == index[channel.fd := DELETED];
      } else {
        ModifyListed(channels, index, kernel, channel, channel.events);
        Modify(channel);
        assert Index() == index;
      }
    }

    method RemoveChannel(channel: Channel)
      requires Valid() && channel.fd in channels && channels[channel.fd] == channel && channel.IsNoneEvent()
      modifies this, channel`index
      ensures Valid() && View() == EpollNext(old(View()), Remove(channel.fd))
      ensures channels == old(channels) - {channel.fd} && channel.index == NEW
    {
      hide Listed, Watching, EpollNext;
      ghost var was := Index();
      ListedAt(channels, was, kernel, channel.fd);
      RemoveListed(channels, was, kernel, channel.fd);
      var index := channel.index;
      assert was[channel.fd] == index;
      channels := channels - {channel.fd};
      if index == ADDED {
        Delete(channel);
      }
      channel.index := NEW;
      assert Index() == was - {channel.fd};
    }

    /** Every channel asks for what it was last updated with. */
    ghost predicate Synced()
      reads this, channels.Values
    {
      forall fd | fd in channels :: fd in View() && channels[fd].events == View()[fd].mask
    }

    /** A channel for the descriptor: the registered one, or a new one. */
    method ChannelFor(fd: nat) returns (channel: Channel)
      requires Valid()
      ensures channel.fd == fd
      ensures if fd in channels then channel == channels[fd] && channel.index != NEW
              else fresh(channel) && channel.index == NEW
    {
      if fd in channels {
        channel := channels[fd];
        ListedAt(channels, Index(), kernel, fd);
      } else {
        channel := new Channel(fd);
      }
    }

    method PerformUpdate(fd: nat, mask: nat)
      requires Valid() && Synced()
      modifies this, channels.Values
      ensures Valid() && Synced() && View() == EpollNext(old(View()), Update(fd, mask))
      ensures fresh(channels.Values - old(channels.Values))
    {
      hide Listed, Watching;
      var channel := ChannelFor(fd);
      channel.events := mask;
      UpdateChannel(channel);
    }

    method PerformRemove(fd: nat)
      requires Valid() && Synced() && EpollAllows(View(), Remove(fd))
      modifies this, channels.Values
      ensures Valid() && Synced() && View() == EpollNext(old(View()), Remove(fd))
      ensures channels.Values <= old(channels.Values)
    {
      assert fd in channels && channels[fd].fd == fd && channels[fd].events == 0;
      hide Listed, Watching;
      RemoveChannel(channels[fd]);
    }

    /** A change of interest, or a removal, as a channel makes it. */
    method Perform(op: Op)
      requires Valid() && Synced() && EpollAllows(View(), op)
      modifies this, channels.Values
      ensures Valid() && Synced() && View() == EpollNext(old(View()), op)
      ensures fresh(channels.Values - old(channels.Values))
    {
      hide Valid, Synced, View;
      match op {
        case Update(fd, mask) => PerformUpdate(fd, mask);
        case Remove(fd) => PerformRemove(fd);
      }
    }

    /** Any list of operations that the other poller performs. */
    method Run(ops: seq<Op>)
      requires Valid() && channels == map[]
      requires PollLegal(ops)
      modifies this
      ensures Valid() && View() == EpollRun(ops) && fresh(channels.Values)
      ensures Watched(View()) == map fd | fd in kernel :: kernel[fd].events
    {
      hide Listed;
      for n := 0 to |ops|
        invariant Valid() && Synced() && fresh(channels.Values) && View() == EpollRun(ops[..n])
      {
        AllowsToo(ops[..n], ops[n]);
        Perform(ops[n]);
        assert ops[..n + 1][..n] == ops[..n];
      }
      assert ops[..|ops|] == ops;
      WatchedKernel(channels, Index(), kernel);
    }

    /** What epoll_wait(2) reports for descriptors on the list reaches the channels registered for them. */
    method FillActiveChannels(events: seq<Interest>) returns (activeChannels: seq<Channel>)
      requires Valid() && forall i | 0 <= i < |events| :: exists fd: nat :: fd in kernel && kernel[fd].ptr == events[i].ptr
      requires forall i, j | 0 <= i < j < |events| :: events[i].ptr != events[j].ptr
      modifies channels.Values`revents
      ensures |activeChannels| == |events|
      ensures forall i | 0 <= i < |events| ::
                && activeChannels[i] == events[i].ptr && activeChannels[i].revents == events[i].events
                && activeChannels[i].fd in channels && channels[activeChannels[i].fd] == activeChannels[i]
    {
      activeChannels := [];
      for i := 0 to |events|
        invariant |activeChannels| == i
        invariant forall k | 0 <= k < i ::
                    && activeChannels[k] == events[k].ptr && activeChannels[k].revents == events[k].events
                    && activeChannels[k].fd in channels && channels[activeChannels[k].fd] == activeChannels[k]
      {
        var channel: Channel := events[i].ptr;
        ghost var fd: nat :| fd in kernel && kernel[fd].ptr == channel;
        assert channels[fd] == channel && channel.fd == fd;
        channel.revents := events[i].events;
        activeChannels := activeChannels + [channel];
      }
    }
  }

  lemma WatchedKernel(channels: map<nat, Channel>, index: map<nat, int>, kernel: map<nat, Interest>)
    requires Listed(channels, index, kernel)
    ensures Watched(Watching(channels, kernel)) == map fd | fd in kernel :: kernel[fd].events
  {
  }
}

/** The two pollers side by side. */
module Pollers {
  import opened PollerRuns
  import PollPoller
  import EPollPoller

  /**
   * Both pollers, given any list of updates and removals, as far as the removals are legal: what poll(2) is passed
   * and what epoll(4) holds come to the same non-empty masks, namely those last asked for.
   */
  method RunBoth(ops: seq<Op>) returns (poll: PollPoller.PollPoller, epoll: EPollPoller.EPollPoller, done: nat)
    ensures done <= |ops| && (done < |ops| ==> !PollAllows(PollRun(ops[..done]), ops[done]))
    ensures fresh(poll) && poll.Valid() && poll.View() == PollRun(ops[..done])
    ensures fresh(epoll) && epoll.Valid() && epoll.View() == EpollRun(ops[..done])
    ensures PollPoller.Polls(poll.pollfds, Watched(poll.View()))
    ensures Watched(epoll.View()) == map fd | fd in epoll.kernel :: epoll.kernel[fd].events
    ensures NonEmpty(Watched(poll.View())) == NonEmpty(Requested(ops[..done])) == NonEmpty(Watched(epoll.View()))
  {
    hide PollPoller.Linked, PollPoller.Entries, EPollPoller.Listed, EPollPoller.Watching, PollPoller.Polls;
    hide PollRun, EpollRun, PollLegal, NonEmpty, Watched;
    poll := new PollPoller.PollPoller();
    done := poll.Run(ops);
    epoll := new EPollPoller.EPollPoller();
    epoll.Run(ops[..done]);
    PollersWatchTheRequested(ops[..done]);
  }
}
