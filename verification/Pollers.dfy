/** The two pollers: a dense array with back-indices in the channels (twnl/Poller/PollPoller.cc), and
    a three-state registration that mirrors the kernel's interest set (twnl/Poller/EpollPoller.cc). */
module Pollers {
  import opened Channels

  // ---------- poll ----------

  datatype PollFd = PollFd(fd: int, events: Mask, revents: Mask)

  /** A descriptor that poll must skip is stored as -fd-1. */
  function Encode(fd: nat, events: Mask): int {
    if events == NONE_EVENT then -1 - fd else fd
  }

  function Decode(stored: int): nat {
    if stored < 0 then -stored - 1 else stored
  }

  /** The source's form, from which the descriptor is always recovered. */
  lemma EncodedForm(fd: nat, events: Mask)
    ensures Encode(fd, {}) == -1 - fd && (events != {} ==> Encode(fd, events) == fd)
    ensures Decode(Encode(fd, events)) == fd
  {
  }

  /** What a registered channel holds for its poller. */
  datatype Slot = Slot(events: Mask, index: int)

  /** The array, and the channels by descriptor. */
  datatype Table = Table(fds: seq<PollFd>, slots: map<nat, Slot>) {
    /** Array places and descriptors are in bijection: each channel stores the place of its entry. */
    ghost predicate Valid() {
      && (forall fd | fd in slots :: 0 <= slots[fd].index < |fds| && Decode(fds[slots[fd].index].fd) == fd)
      && (forall i | 0 <= i < |fds| :: Decode(fds[i].fd) in slots && slots[Decode(fds[i].fd)].index == i)
    }

    /** The entry of fd carries its channel's mask, and is hidden only when that is empty. */
    predicate Synced(fd: nat)
      requires fd in slots && 0 <= slots[fd].index < |fds|
    {
      var entry := fds[slots[fd].index];
      entry.events == slots[fd].events && (entry.fd < 0 ==> entry.events == NONE_EVENT)
    }

    ghost predicate InStep()
      requires Valid()
    {
      forall fd | fd in slots :: Synced(fd)
    }

    /** The mask of fd may have been changed since its entry was written. */
    ghost predicate InStepBut(fd: nat)
      requires Valid()
    {
      forall g | g in slots && g != fd :: Synced(g)
    }

    /** A new channel goes to the end; a registered one has its entry rewritten, encoded when empty. */
    function Updated(fd: nat, events: Mask): Table
      requires fd in slots ==> 0 <= slots[fd].index < |fds|
    {
      if fd !in slots then Table(fds + [PollFd(fd, events, {})], slots[fd := Slot(events, |fds|)])
      else
        var i := slots[fd].index;
        Table(fds[i := PollFd(Encode(fd, events), events, {})], slots[fd := Slot(events, i)])
    }

    /** Swap with the last entry and pop; the channel of the moved entry, if another, gets its place. */
    function Removed(fd: nat): Table
      requires fd in slots && 0 <= slots[fd].index < |fds|
    {
      var i, last := slots[fd].index, |fds| - 1;
      var rest, moved := slots - {fd}, Decode(fds[last].fd);
      Table(fds[i := fds[last]][..last], if moved in rest then rest[moved := rest[moved].(index := i)] else rest)
    }

    /** The descriptors and masks poll watches. */
    ghost predicate Watches(fd: nat, events: Mask) {
      exists i | 0 <= i < |fds| :: fds[i].fd == fd && fds[i].events == events
    }
  }

  lemma AppendKeepsTable(t: Table, fd: nat, events: Mask)
    requires t.Valid() && t.InStepBut(fd) && fd !in t.slots
    ensures t.Updated(fd, events).Valid() && t.Updated(fd, events).InStep()
  {
    var t' := t.Updated(fd, events);
    assert forall g | g in t.slots :: t'.slots[g] == t.slots[g] && t'.fds[t'.slots[g].index] == t.fds[t.slots[g].index];
    forall g | g in t'.slots
      ensures t'.Synced(g)
    {
      if g != fd { assert t.Synced(g); }
    }
  }

  lemma RewriteKeepsTable(t: Table, fd: nat, events: Mask)
    requires t.Valid() && t.InStepBut(fd) && fd in t.slots
    ensures t.Updated(fd, events).Valid() && t.Updated(fd, events).InStep()
  {
    var t' := t.Updated(fd, events);
    assert forall g | g in t.slots && g != fd :: t'.slots[g] == t.slots[g] && t.slots[g].index != t.slots[fd].index;
    forall g | g in t'.slots
      ensures t'.Synced(g)
    {
      if g != fd { assert t.Synced(g); }
    }
  }

  lemma UpdateKeepsTable(t: Table, fd: nat, events: Mask)
    requires t.Valid() && t.InStepBut(fd)
    ensures t.Updated(fd, events).Valid() && t.Updated(fd, events).InStep()
  {
    if fd in t.slots {
      RewriteKeepsTable(t, fd, events);
    } else {
      AppendKeepsTable(t, fd, events);
    }
  }

  /** The entry written: visible for a new channel, else as encoded, and with no events reported. */
  lemma UpdateWrites(t: Table, fd: nat, events: Mask)
    requires t.Valid()
    ensures var u := t.Updated(fd, events);
      && fd in u.slots && 0 <= u.slots[fd].index < |u.fds|
      && u.slots[fd].index == (if fd in t.slots then t.slots[fd].index else |t.fds|)
      && var entry := u.fds[u.slots[fd].index];
      && entry.events == events && entry.revents == {}
      && if fd in t.slots && events == {} then entry.fd == -1 - fd else entry.fd == fd
  {
  }

  /** An update touches no other descriptor. */
  lemma OthersKeepEntry(t: Table, fd: nat, events: Mask, g: nat)
    requires t.Valid() && g in t.slots && g != fd
    ensures var u := t.Updated(fd, events);
      g in u.slots && u.slots[g] == t.slots[g] && u.slots[g].index < |u.fds| && u.fds[u.slots[g].index] == t.fds[t.slots[g].index]
  {
  }

  lemma RemoveKeepsPlaces(t: Table, fd: nat)
    requires t.Valid() && fd in t.slots
    ensures t.Removed(fd).Valid()
    ensures t.Removed(fd).slots.Keys == t.slots.Keys - {fd}
    ensures forall g | g in t.slots && g != fd ::
      && t.Removed(fd).slots[g].events == t.slots[g].events
      && t.Removed(fd).fds[t.Removed(fd).slots[g].index] == t.fds[t.slots[g].index]
  {
  }

  lemma RemoveKeepsTable(t: Table, fd: nat)
    requires t.Valid() && t.InStep() && fd in t.slots
    ensures t.Removed(fd).Valid() && t.Removed(fd).InStep()
    ensures t.Removed(fd).slots.Keys == t.slots.Keys - {fd}
    ensures forall g | g in t.slots && g != fd ::
      t.Removed(fd).fds[t.Removed(fd).slots[g].index] == t.fds[t.slots[g].index]
  {
    RemoveKeepsPlaces(t, fd);
    forall g | g in t.Removed(fd).slots
      ensures t.Removed(fd).Synced(g)
    {
      assert t.Synced(g);
    }
  }

  /** Only the channel whose entry was the last gets another index: the freed one. */
  lemma RemoveMovesLast(t: Table, fd: nat, g: nat)
    requires t.Valid() && fd in t.slots && g in t.slots && g != fd
    ensures |t.Removed(fd).fds| == |t.fds| - 1
    ensures t.Removed(fd).slots[g].index == if t.slots[g].index == |t.fds| - 1 then t.slots[fd].index else t.slots[g].index
  {
  }

  lemma LastIsOwned(t: Table, fd: nat)
    requires t.Valid() && fd in t.slots
    ensures var last := |t.fds| - 1;
      Decode(t.fds[last].fd) in t.slots && (t.slots[fd].index == last <==> Decode(t.fds[last].fd) == fd)
  {
  }

  /** Restricted to non-empty masks, the array watches exactly the registered channels' masks. */
  lemma ArrayWatchesMasks(t: Table, fd: nat, events: Mask)
    requires t.Valid() && t.InStep() && events != NONE_EVENT
    ensures t.Watches(fd, events) <==> fd in t.slots && t.slots[fd].events == events
  {
    if fd in t.slots && t.slots[fd].events == events {
      assert t.Synced(fd);
      assert t.fds[t.slots[fd].index].fd == fd;
    }
    if t.Watches(fd, events) {
      var i :| 0 <= i < |t.fds| && t.fds[i].fd == fd && t.fds[i].events == events;
      assert Decode(t.fds[i].fd) == fd && t.Synced(fd);
    }
  }

  /** The channels of the entries with events, in array order. */
  function Hot(fds: seq<PollFd>): seq<nat> {
    if fds == [] then []
    else
      var before, entry := Hot(fds[..|fds| - 1]), fds[|fds| - 1];
      if entry.revents != {} then before + [Decode(entry.fd)] else before
  }

  /** poll reported something for an entry of fd. */
  predicate Reported(fds: seq<PollFd>, fd: nat) {
    exists i :: 0 <= i < |fds| && fds[i].revents != {} && Decode(fds[i].fd) == fd
  }

  lemma ReportedLast(fds: seq<PollFd>, fd: nat)
    requires fds != []
    ensures var n := |fds| - 1;
      Reported(fds, fd) <==> Reported(fds[..n], fd) || (fds[n].revents != {} && Decode(fds[n].fd) == fd)
  {
    var n := |fds| - 1;
    var rest := fds[..n];
    if Reported(fds, fd) {
      var i :| 0 <= i < |fds| && fds[i].revents != {} && Decode(fds[i].fd) == fd;
      if i < n { assert rest[i] == fds[i]; }
    }
    if Reported(rest, fd) {
      var i :| 0 <= i < |rest| && rest[i].revents != {} && Decode(rest[i].fd) == fd;
      assert fds[i] == rest[i];
    }
  }

  function CountReported(fds: seq<PollFd>): nat {
    |set i | 0 <= i < |fds| && fds[i].revents != {}|
  }

  /** The channels delivered are those for which poll reported something, once for each entry. */
  lemma {:induction false} HotIsExact(fds: seq<PollFd>, fd: nat)
    ensures fd in Hot(fds) <==> Reported(fds, fd)
    ensures |Hot(fds)| == CountReported(fds)
  {
    var ready := set i | 0 <= i < |fds| && fds[i].revents != {};
    if fds == [] {
      assert ready == {};
    } else {
      var n := |fds| - 1;
      HotIsExact(fds[..n], fd);
      ReportedLast(fds, fd);
      var before := set i | 0 <= i < n && fds[..n][i].revents != {};
      assert ready == if fds[n].revents != {} then before + {n} else before;
    }
  }

  lemma HotStep(fds: seq<PollFd>, i: nat)
    requires i < |fds|
    ensures Hot(fds[..i + 1]) == if fds[i].revents != {} then Hot(fds[..i]) + [Decode(fds[i].fd)] else Hot(fds[..i])
  {
    assert fds[..i + 1][..i] == fds[..i];
  }

  /** A prefix that already holds every hot entry is followed by cold ones only. */
  lemma {:induction false} HotPrefix(fds: seq<PollFd>, n: nat)
    requires n <= |fds|
    ensures |Hot(fds[..n])| <= |Hot(fds)|
    ensures |Hot(fds[..n])| == |Hot(fds)| ==> Hot(fds[..n]) == Hot(fds)
  {
    if n < |fds| {
      assert fds[..|fds| - 1][..n] == fds[..n];
      HotPrefix(fds[..|fds| - 1], n);
    } else {
      assert fds[..n] == fds;
    }
  }

  lemma AllHot(fds: seq<PollFd>, n: nat)
    requires n <= |fds| && (n == |fds| || |Hot(fds[..n])| == |Hot(fds)|)
    ensures Hot(fds[..n]) == Hot(fds)
  {
    HotPrefix(fds, n);
    assert fds[..|fds|] == fds;
  }

  class PollPoller {
    var pollfds: seq<PollFd>
    var channels: map<nat, Channel>

    ghost function View(): Table
      reads this, channels.Values
    {
      Table(pollfds, map fd | fd in channels :: Slot(channels[fd].events, channels[fd].index))
    }

    ghost predicate Keyed()
      reads this, channels.Values
    {
      forall fd | fd in channels :: channels[fd].fd == fd
    }

    ghost predicate Valid()
      reads this, channels.Values
    {
      Keyed() && View().Valid()
    }

    constructor ()
      ensures Valid() && View().InStep() && channels == map[] && pollfds == []
    {
      pollfds, channels := [], map[];
    }

    method Append(channel: Channel)
      requires Keyed() && channel.fd !in channels
      modifies this, channel`index
      ensures Keyed() && channels == old(channels)[channel.fd := channel]
      ensures View() == old(View()).Updated(channel.fd, channel.events)
    {
      ghost var t' := View().Updated(channel.fd, channel.events);
      pollfds := pollfds + [PollFd(channel.fd, channel.events, {})];
      channel.index := |pollfds| - 1;
      channels := channels[channel.fd := channel];
      assert View().slots == t'.slots;
    }

    method Rewrite(channel: Channel)
      requires Keyed() && channel.fd in channels && channels[channel.fd] == channel && 0 <= channel.index < |pollfds|
      modifies this`pollfds
      ensures channels == old(channels)
      ensures View() == old(View()).Updated(channel.fd, channel.events)
    {
      ghost var t' := View().Updated(channel.fd, channel.events);
      var idx := channel.index;
      var pfd := PollFd(channel.fd, channel.events, {});
      if channel.events == NONE_EVENT {
        pfd := pfd.(fd := -1 - channel.fd);
      }
      pollfds := pollfds[idx := pfd];
      assert View().slots == t'.slots;
    }

    /** The channel's mask has been changed; every other entry is in step. */
    method UpdateChannel(channel: Channel)
      requires Valid() && View().InStepBut(channel.fd)
      requires if channel.index < 0 then channel.fd !in channels
               else channel.fd in channels && channels[channel.fd] == channel
      modifies this, channel`index
      ensures Valid() && View().InStep()
      ensures channels == old(channels)[channel.fd := channel]
      ensures View() == old(View()).Updated(channel.fd, channel.events)
    {
      UpdateKeepsTable(View(), channel.fd, channel.events);
      if channel.index < 0 {
        Append(channel);
      } else {
        assert channel.index == View().slots[channel.fd].index;
        Rewrite(channel);
        assert channels == channels[channel.fd := channel];
      }
    }

    /** Swap the entry with the last one and pop; the channel is out of the map already. */
    method SwapAndPop(idx: nat)
      requires Keyed() && idx < |pollfds| - 1 && Decode(pollfds[|pollfds| - 1].fd) in channels
      modifies this`pollfds, channels.Values`index
      ensures Keyed() && channels == old(channels)
      ensures var t := old(View());
        var last := t.fds[|t.fds| - 1];
        var moved := Decode(last.fd);
        View() == Table(t.fds[idx := last][..|t.fds| - 1], t.slots[moved := t.slots[moved].(index := idx)])
    {
      var last := pollfds[|pollfds| - 1];
      pollfds := pollfds[idx := last][|pollfds| - 1 := pollfds[idx]];
      var channelAtEnd := last.fd;
      if channelAtEnd < 0 {
        channelAtEnd := -channelAtEnd - 1;
      }
      channels[channelAtEnd].index := idx;
      pollfds := pollfds[..|pollfds| - 1];
      assert View().slots == old(View()).slots[channelAtEnd := old(View()).slots[channelAtEnd].(index := idx)];
    }

    method TakeOut(channel: Channel)
      requires Keyed() && channel.fd in channels && channels[channel.fd] == channel && 0 <= channel.index < |pollfds|
      requires var moved := Decode(pollfds[|pollfds| - 1].fd);
        moved in channels && (channel.index == |pollfds| - 1 <==> moved == channel.fd)
      modifies this, channels.Values`index
      ensures Keyed() && channels == old(channels) - {channel.fd}
      ensures View() == old(View()).Removed(channel.fd)
    {
      ghost var t := View();
      channels := channels - {channel.fd};
      assert View().slots == t.slots - {channel.fd};
      if channel.index == |pollfds| - 1 {
        pollfds := pollfds[..|pollfds| - 1];
      } else {
        SwapAndPop(channel.index);
      }
    }

    method RemoveChannel(channel: Channel)
      requires Valid() && View().InStep()
      requires channel.fd in channels && channels[channel.fd] == channel
      requires channel.events == NONE_EVENT
      requires 0 <= channel.index < |pollfds| && pollfds[channel.index].fd == -1 - channel.fd
      modifies this, channels.Values
      ensures Valid() && View().InStep()
      ensures channels == old(channels) - {channel.fd}
      ensures View() == old(View()).Removed(channel.fd)
    {
      RemoveKeepsTable(View(), channel.fd);
      LastIsOwned(View(), channel.fd);
      TakeOut(channel);
    }

    /** The channel registered for the entry's descriptor stores the entry's place. */
    ghost predicate EntryOwned(i: nat)
      requires i < |pollfds|
      reads this, channels.Values
    {
      var fd := Decode(pollfds[i].fd);
      fd in channels && channels[fd].index == i
    }

    /** The channel is the registered one for fd and holds the events of its entry. */
    ghost predicate Delivered(channel: Channel, fd: nat)
      reads this, channel
    {
      && fd in channels && channels[fd] == channel
      && 0 <= channel.index < |pollfds| && channel.revents == pollfds[channel.index].revents
    }

    lemma OwnerOfEntry(i: nat)
      requires Valid() && i < |pollfds|
      ensures EntryOwned(i)
    {
      assert View().slots[Decode(pollfds[i].fd)].index == i;
    }

    /** The channel of a ready entry gets its events. */
    method Deliver(channel: Channel, i: nat)
      requires i < |pollfds| && pollfds[i].fd in channels && channels[pollfds[i].fd] == channel && channel.index == i
      modifies channel`revents
      ensures Delivered(channel, pollfds[i].fd)
    {
      channel.revents := pollfds[i].revents;
    }

    /** The channels found so far are those of the hot entries below i, with their events. */
    ghost predicate Found(active: seq<Channel>, hot: seq<nat>, i: nat)
      reads this, active
    {
      && |active| == |hot|
      && forall k | 0 <= k < |active| :: Delivered(active[k], hot[k]) && active[k].index < i
    }

    /** One place of the array. */
    method Look(i: nat, active: seq<Channel>, left: int) returns (active': seq<Channel>, left': int)
      requires i < |pollfds| && EntryOwned(i) && (pollfds[i].fd < 0 ==> pollfds[i].revents == {})
      requires Found(active, Hot(pollfds[..i]), i)
      modifies channels.Values`revents
      ensures Found(active', Hot(pollfds[..i + 1]), i + 1)
      ensures left' + |active'| == left + |active| && left - 1 <= left' <= left
    {
      active', left' := active, left;
      HotStep(pollfds, i);
      if pollfds[i].revents != {} {
        left' := left - 1;
        var channel := channels[pollfds[i].fd];
        assert channel !in active;
        Deliver(channel, i);
        active' := active + [channel];
      }
    }

    /** The countdown over the array. */
    method Scan(numEvents: nat) returns (active: seq<Channel>)
      requires numEvents == |Hot(pollfds)|
      requires forall i | 0 <= i < |pollfds| :: EntryOwned(i)
      requires forall i | 0 <= i < |pollfds| && pollfds[i].fd < 0 :: pollfds[i].revents == {}
      modifies channels.Values`revents
      ensures |active| == |Hot(pollfds)|
      ensures forall k | 0 <= k < |active| :: Delivered(active[k], Hot(pollfds)[k])
    {
      active := [];
      var left := numEvents;
      var i := 0;
      while i < |pollfds| && left > 0
        invariant 0 <= i <= |pollfds| && 0 <= left && left + |active| == numEvents
        invariant Found(active, Hot(pollfds[..i]), i)
      {
        assert old(EntryOwned(i));
        active, left := Look(i, active, left);
        i := i + 1;
      }
      AllHot(pollfds, i);
    }

    /** After a poll that reports numEvents ready entries, each of them is delivered once, in array
        order, with the events the kernel wrote; the countdown never stops too early. */
    method FillActiveChannels(numEvents: nat) returns (active: seq<Channel>)
      requires Valid() && numEvents == |Hot(pollfds)|
      requires forall i | 0 <= i < |pollfds| && pollfds[i].fd < 0 :: pollfds[i].revents == {}
      modifies channels.Values`revents
      ensures |active| == |Hot(pollfds)|
      ensures forall k | 0 <= k < |active| :: Delivered(active[k], Hot(pollfds)[k])
    {
      forall i | 0 <= i < |pollfds|
        ensures EntryOwned(i)
      {
        OwnerOfEntry(i);
      }
      active := Scan(numEvents);
    }
  }

  // ---------- epoll ----------

  const K_NEW := -1
  const K_ADDED := 1
  const K_DELETED := 2

  datatype CtlOp = Add | Mod | Del

  class EpollPoller {
    var channels: map<nat, Channel>
    var kernel: map<nat, Mask>  // the kernel's interest set
    var errors: nat             // epoll_ctl calls the kernel refused

    /** A registered channel is in state added exactly when its descriptor is in the kernel set. */
    ghost predicate Valid()
      reads this, channels.Values
    {
      && (forall fd | fd in channels ::
            && channels[fd].fd == fd
            && (channels[fd].index == K_ADDED || channels[fd].index == K_DELETED)
            && (channels[fd].index == K_ADDED <==> fd in kernel))
      && kernel.Keys <= channels.Keys
    }

    ghost predicate InStep(except: Channel?)
      requires Valid()
      reads this, channels.Values
    {
      forall fd | fd in channels && channels[fd] != except ::
        channels[fd].events == if fd in kernel then kernel[fd] else NONE_EVENT
    }

    constructor ()
      ensures Valid() && InStep(null) && channels == map[] && kernel == map[] && errors == 0
    {
      channels, kernel, errors := map[], map[], 0;
    }

    /** epoll_ctl: adding a present descriptor or touching an absent one is refused. */
    method Update(op: CtlOp, channel: Channel)
      modifies this`kernel, this`errors
      ensures var legal := op.Add? <==> channel.fd !in old(kernel);
        && errors == old(errors) + (if legal then 0 else 1)
        && kernel == if !legal then old(kernel)
                     else if op.Del? then old(kernel) - {channel.fd}
                     else old(kernel)[channel.fd := channel.events]
    {
      if op.Add? == (channel.fd in kernel) {
        errors := errors + 1;
      } else if op.Del? {
        kernel := kernel - {channel.fd};
      } else {
        kernel := kernel[channel.fd := channel.events];
      }
    }

    /** A new channel, or one that was taken out, goes (back) into the kernel set. */
    method Register(channel: Channel)
      requires Valid() && InStep(channel)
      requires channel.index == K_NEW || channel.index == K_DELETED
      requires if channel.index == K_NEW then channel.fd !in channels
               else channel.fd in channels && channels[channel.fd] == channel
      modifies this, channel`index
      ensures Valid() && InStep(null) && errors == old(errors)
      ensures channels == old(channels)[channel.fd := channel]
      ensures kernel == old(kernel)[channel.fd := channel.events]
    {
      assert channel.fd !in kernel;
      if channel.index == K_NEW {
        channels := channels[channel.fd := channel];
      }
      channel.index := K_ADDED;
      Update(Add, channel);
    }

    /** A channel in the kernel set is changed there, or taken out when its mask is empty. */
    method Change(channel: Channel)
      requires Valid() && InStep(channel) && channel.index == K_ADDED
      requires channel.fd in channels && channels[channel.fd] == channel
      modifies this`kernel, this`errors, channel`index
      ensures Valid() && InStep(null) && errors == old(errors)
      ensures kernel == if channel.events == NONE_EVENT then old(kernel) - {channel.fd}
                        else old(kernel)[channel.fd := channel.events]
    {
      if channel.events == NONE_EVENT {
        Update(Del, channel);
        channel.index := K_DELETED;
      } else {
        Update(Mod, channel);
      }
    }

    method UpdateChannel(channel: Channel)
      requires Valid() && InStep(channel)
      requires channel.index == K_NEW || channel.index == K_ADDED || channel.index == K_DELETED
      requires if channel.index == K_NEW then channel.fd !in channels
               else channel.fd in channels && channels[channel.fd] == channel
      modifies this, channel`index
      ensures Valid() && InStep(null) && errors == old(errors)
      ensures channels == old(channels)[channel.fd := channel]
      ensures old(channel.index) == K_ADDED && channel.events == NONE_EVENT ==> kernel == old(kernel) - {channel.fd}
      ensures old(channel.index) != K_ADDED || channel.events != NONE_EVENT ==>
        kernel == old(kernel)[channel.fd := channel.events]
    {
      if channel.index == K_NEW || channel.index == K_DELETED {
        Register(channel);
      } else {
        Change(channel);
        assert channels == channels[channel.fd := channel];
      }
    }

    method RemoveChannel(channel: Channel)
      requires Valid() && InStep(null)
      requires channel.fd in channels && channels[channel.fd] == channel
      requires channel.events == NONE_EVENT
      modifies this, channel`index
      ensures Valid() && InStep(null) && errors == old(errors)
      ensures channels == old(channels) - {channel.fd} && kernel == old(kernel) - {channel.fd}
      ensures channel.index == K_DELETED
    {
      var fd, index := channel.fd, channel.index;
      channels := channels - {fd};
      if index == K_ADDED {
        Update(Del, channel);
      }
      channel.index := K_DELETED;
      assert old(kernel) - {fd} == kernel;
    }

    method KernelInterest() returns (m: map<nat, Mask>)
      requires Valid() && InStep(null)
      ensures m == map fd | fd in channels && channels[fd].events != NONE_EVENT :: channels[fd].events
    {
      m := map fd | fd in kernel && kernel[fd] != NONE_EVENT :: kernel[fd];
    }
  }

  // ---------- The same run on both ----------

  /** Update stands for any enable or disable call: it sets the mask and tells the poller. */
  datatype Op = Update(fd: nat, events: Mask) | Remove(fd: nat)

  /** A registered descriptor: its mask, and whether poll's array hides it. Only an update of an
      already registered channel hides it; a first registration never does. */
  datatype Registration = Registration(events: Mask, hidden: bool)

  /** A removal is legal for a registered channel with an empty, hidden mask: the assertions of
      Channel::remove and PollPoller::removeChannel. An illegal one is not attempted. */
  function Next(m: map<nat, Registration>, op: Op): map<nat, Registration> {
    match op
    case Update(fd, events) => m[fd := Registration(events, fd in m && events == NONE_EVENT)]
    case Remove(fd) => if fd in m && m[fd].hidden then m - {fd} else m
  }

  function Registered(ops: seq<Op>): map<nat, Registration> {
    if ops == [] then map[] else Next(Registered(ops[..|ops| - 1]), ops[|ops| - 1])
  }

  function Interest(m: map<nat, Registration>): map<nat, Mask> {
    map fd | fd in m && m[fd].events != NONE_EVENT :: m[fd].events
  }

  lemma RegisteredStep(ops: seq<Op>, i: nat)
    requires i < |ops|
    ensures Registered(ops[..i + 1]) == Next(Registered(ops[..i]), ops[i])
  {
    assert ops[..i + 1][..i] == ops[..i];
  }

  ghost predicate HiddenIsEmpty(m: map<nat, Registration>) {
    forall fd | fd in m && m[fd].hidden :: m[fd].events == NONE_EVENT
  }

  lemma {:induction false} RegisteredHidesEmpty(ops: seq<Op>)
    ensures HiddenIsEmpty(Registered(ops))
  {
    if ops != [] {
      RegisteredHidesEmpty(ops[..|ops| - 1]);
    }
  }

  /** The last update of a descriptor is in force, an empty mask meaning no interest; a removal, legal
      only without interest, changes nothing that is watched. */
  lemma InterestFollowsUpdates(ops: seq<Op>, op: Op)
    ensures op.Update? ==>
      Interest(Registered(ops + [op])) ==
      if op.events == {} then Interest(Registered(ops)) - {op.fd} else Interest(Registered(ops))[op.fd := op.events]
    ensures op.Remove? ==> Interest(Registered(ops + [op])) == Interest(Registered(ops))
  {
    RegisteredHidesEmpty(ops);
    assert (ops + [op])[..|ops|] == ops;
  }

  ghost predicate TableMatches(t: Table, m: map<nat, Registration>) {
    && t.Valid() && t.InStep()
    && t.slots.Keys == m.Keys
    && forall fd | fd in m :: m[fd] == Registration(t.slots[fd].events, t.fds[t.slots[fd].index].fd < 0)
  }

  ghost predicate PollMatches(p: PollPoller, m: map<nat, Registration>)
    reads p, p.channels.Values
  {
    p.Valid() && TableMatches(p.View(), m)
  }

  ghost predicate EpollMatches(e: EpollPoller, m: map<nat, Registration>)
    reads e, e.channels.Values
  {
    && e.Valid() && e.InStep(null) && e.errors == 0
    && e.channels.Keys == m.Keys
    && forall fd | fd in m :: m[fd].events == e.channels[fd].events
  }

  /** The mask of fd as changed by the caller, before the poller is told. */
  function Remasked(t: Table, fd: nat, events: Mask): Table {
    if fd in t.slots then t.(slots := t.slots[fd := t.slots[fd].(events := events)]) else t
  }

  lemma RemaskKeepsValid(t: Table, fd: nat, events: Mask)
    requires t.Valid() && t.InStep()
    ensures Remasked(t, fd, events).Valid() && Remasked(t, fd, events).InStepBut(fd)
  {
    var u := Remasked(t, fd, events);
    assert forall g | g in t.slots :: u.slots[g].index == t.slots[g].index;
    assert u.Valid();
    forall g | g in u.slots && g != fd
      ensures u.Synced(g)
    {
      assert t.Synced(g);
    }
  }

  lemma RemaskVanishes(t: Table, fd: nat, events: Mask)
    requires t.Valid()
    ensures fd in t.slots ==> 0 <= Remasked(t, fd, events).slots[fd].index < |Remasked(t, fd, events).fds|
    ensures Remasked(t, fd, events).Updated(fd, events) == t.Updated(fd, events)
  {
  }

  lemma UpdateRegisters(t: Table, m: map<nat, Registration>, fd: nat, events: Mask, g: nat)
    requires TableMatches(t, m) && (g == fd || g in m)
    requires g in t.Updated(fd, events).slots && 0 <= t.Updated(fd, events).slots[g].index < |t.Updated(fd, events).fds|
    ensures var u := t.Updated(fd, events);
      Next(m, Update(fd, events))[g] == Registration(u.slots[g].events, u.fds[u.slots[g].index].fd < 0)
  {
    if g != fd {
      OthersKeepEntry(t, fd, events, g);
    }
  }

  lemma UpdateMatches(t: Table, m: map<nat, Registration>, fd: nat, events: Mask)
    requires TableMatches(t, m)
    ensures TableMatches(t.Updated(fd, events), Next(m, Update(fd, events)))
  {
    var u, n := t.Updated(fd, events), Next(m, Update(fd, events));
    UpdateKeepsTable(t, fd, events);
    forall g | g in n
      ensures n[g] == Registration(u.slots[g].events, u.fds[u.slots[g].index].fd < 0)
    {
      UpdateRegisters(t, m, fd, events, g);
    }
  }

  lemma RemoveMatches(t: Table, m: map<nat, Registration>, fd: nat)
    requires TableMatches(t, m) && fd in m && m[fd].hidden
    ensures TableMatches(t.Removed(fd), Next(m, Remove(fd)))
  {
    RemoveKeepsTable(t, fd);
  }

  /** A registered channel has its mask changed and reported. */
  method PollRemask(p: PollPoller, channel: Channel, events: Mask)
    requires p.Valid() && p.View().InStep() && channel.fd in p.channels && p.channels[channel.fd] == channel
    modifies p, channel`index, channel`events
    ensures p.Valid() && p.channels == old(p.channels)
    ensures p.View() == old(p.View()).Updated(channel.fd, events)
  {
    ghost var t := p.View();
    RemaskKeepsValid(t, channel.fd, events);
    assert channel.index == t.slots[channel.fd].index;
    channel.events := events;
    assert p.View().slots == Remasked(t, channel.fd, events).slots;
    p.UpdateChannel(channel);
    RemaskVanishes(t, channel.fd, events);
    assert p.channels == old(p.channels);
  }

  /** Channel::update after any enable or disable call; a new descriptor gets a new channel. */
  method PollUpdate(p: PollPoller, fd: nat, events: Mask)
    requires p.Valid() && p.View().InStep()
    modifies p, p.channels.Values
    ensures p.Valid() && p.View() == old(p.View()).Updated(fd, events)
    ensures forall c | c in p.channels.Values :: c in old(p.channels.Values) || fresh(c)
  {
    if fd in p.channels {
      PollRemask(p, p.channels[fd], events);
    } else {
      var channel := new Channel(fd);
      channel.events := events;
      assert p.View().slots == old(p.View()).slots;
      p.UpdateChannel(channel);
    }
  }

  method PollStep(p: PollPoller, op: Op, ghost m: map<nat, Registration>)
    requires PollMatches(p, m)
    modifies p, p.channels.Values
    ensures PollMatches(p, Next(m, op))
    ensures forall c | c in p.channels.Values :: c in old(p.channels.Values) || fresh(c)
  {
    ghost var t := p.View();
    match op
    case Update(fd, events) =>
      assert TableMatches(t.Updated(fd, events), Next(m, op)) by {
        UpdateMatches(t, m, fd, events);
      }
      PollUpdate(p, fd, events);
    case Remove(fd) =>
      if fd in p.channels {
        var channel := p.channels[fd];
        assert channel.index == t.slots[fd].index;
        if p.pollfds[channel.index].fd < 0 {
          assert t.Synced(fd);
          assert TableMatches(t.Removed(fd), Next(m, op)) by {
            RemoveMatches(t, m, fd);
          }
          p.RemoveChannel(channel);
        }
      }
  }

  /** A registered channel has its mask changed and reported. */
  method EpollRemask(e: EpollPoller, channel: Channel, events: Mask)
    requires e.Valid() && e.InStep(null) && channel.fd in e.channels && e.channels[channel.fd] == channel
    modifies e, channel`index, channel`events
    ensures e.Valid() && e.InStep(null) && e.errors == old(e.errors)
    ensures e.channels == old(e.channels) && channel.events == events
  {
    channel.events := events;
    e.UpdateChannel(channel);
    assert e.channels == old(e.channels);
  }

  method EpollUpdate(e: EpollPoller, fd: nat, events: Mask)
    requires e.Valid() && e.InStep(null)
    modifies e, e.channels.Values
    ensures e.Valid() && e.InStep(null) && e.errors == old(e.errors)
    ensures e.channels.Keys == old(e.channels.Keys) + {fd} && e.channels[fd].events == events
    ensures forall g | g in old(e.channels) && g != fd :: e.channels[g].events == old(e.channels[g].events)
    ensures forall c | c in e.channels.Values :: c in old(e.channels.Values) || fresh(c)
  {
    if fd in e.channels {
      EpollRemask(e, e.channels[fd], events);
    } else {
      var channel := new Channel(fd);
      channel.events := events;
      e.UpdateChannel(channel);
    }
  }

  method EpollStep(e: EpollPoller, op: Op, hidden: bool, ghost m: map<nat, Registration>)
    requires EpollMatches(e, m)
    requires op.Remove? ==> (hidden <==> op.fd in m && m[op.fd].hidden)
    requires HiddenIsEmpty(m)
    modifies e, e.channels.Values
    ensures HiddenIsEmpty(Next(m, op))
    ensures EpollMatches(e, Next(m, op))
    ensures forall c | c in e.channels.Values :: c in old(e.channels.Values) || fresh(c)
  {
    match op
    case Update(fd, events) => EpollUpdate(e, fd, events);
    case Remove(fd) =>
      if hidden {
        e.RemoveChannel(e.channels[fd]);
      }
  }

  /** The registered masks whose entries are among the first i of the array. */
  ghost function InterestUpTo(t: Table, m: map<nat, Registration>, i: nat): map<nat, Mask>
    requires TableMatches(t, m)
  {
    map fd | fd in m && t.slots[fd].index < i && m[fd].events != NONE_EVENT :: m[fd].events
  }

  lemma NextInterest(t: Table, m: map<nat, Registration>, i: nat)
    requires TableMatches(t, m) && i < |t.fds|
    ensures var entry := t.fds[i];
      InterestUpTo(t, m, i + 1) ==
      if entry.fd >= 0 && entry.events != NONE_EVENT then InterestUpTo(t, m, i)[entry.fd := entry.events]
      else InterestUpTo(t, m, i)
  {
    var fd := Decode(t.fds[i].fd);
    assert t.Synced(fd) && t.slots[fd].index == i;
    assert forall g | g in m && g != fd :: t.slots[g].index != i;
  }

  /** What the array asks poll to watch, non-empty masks only. */
  method ArrayInterest(p: PollPoller, ghost m: map<nat, Registration>) returns (watched: map<nat, Mask>)
    requires PollMatches(p, m)
    ensures watched == Interest(m)
  {
    ghost var t := p.View();
    watched := map[];
    for i := 0 to |p.pollfds|
      invariant watched == InterestUpTo(t, m, i)
    {
      NextInterest(t, m, i);
      if p.pollfds[i].fd >= 0 && p.pollfds[i].events != NONE_EVENT {
        watched := watched[p.pollfds[i].fd := p.pollfds[i].events];
      }
    }
  }

  method RunPoll(ops: seq<Op>) returns (polled: map<nat, Mask>)
    ensures polled == Interest(Registered(ops))
  {
    var p := new PollPoller();
    for i := 0 to |ops|
      invariant PollMatches(p, Registered(ops[..i]))
      invariant fresh(p) && forall c | c in p.channels.Values :: fresh(c)
    {
      RegisteredStep(ops, i);
      PollStep(p, ops[i], Registered(ops[..i]));
    }
    assert ops[..|ops|] == ops;
    polled := ArrayInterest(p, Registered(ops));
  }

  method RunEpoll(ops: seq<Op>) returns (epolled: map<nat, Mask>, errors: nat)
    ensures epolled == Interest(Registered(ops)) && errors == 0
  {
    var e := new EpollPoller();
    var m: map<nat, Registration> := map[];
    for i := 0 to |ops|
      invariant m == Registered(ops[..i]) && EpollMatches(e, m)
      invariant fresh(e) && forall c | c in e.channels.Values :: fresh(c)
      invariant HiddenIsEmpty(m)
    {
      RegisteredStep(ops, i);
      var op := ops[i];
      EpollStep(e, op, op.Remove? && op.fd in m && m[op.fd].hidden, m);
      m := Next(m, op);
    }
    assert ops[..|ops|] == ops;
    epolled := e.KernelInterest();
    errors := e.errors;
  }

  /** On every sequence of updates and legal removals, with descriptors reused freely for new
      channels, the array and the kernel set watch the same descriptors with the same masks, both
      equal to the registered channels' masks, and the kernel refuses no epoll_ctl call. */
  method RunBoth(ops: seq<Op>) returns (polled: map<nat, Mask>, epolled: map<nat, Mask>, errors: nat)
    ensures polled == epolled == Interest(Registered(ops))
    ensures errors == 0
  {
    polled := RunPoll(ops);
    epolled, errors := RunEpoll(ops);
  }
}
