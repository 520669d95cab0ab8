/** The TCP half of the poll loop (`run`, src/server.rs): accepting connections into a
    bounded list and polling each pending one once, removing in place as it goes. */
module Daemon {
  import opened Base
  import opened Settings
  import K = Knock
  import opened Firewall
  import opened Server

  /** A connection waiting in a listener's queue. */
  datatype Caller = Caller(stream: nat, ip: IpAddr)

  datatype PendingTcp = PendingTcp(port: u16, stream: nat, ip: IpAddr, deadline: Time)

  datatype Listener = Listener(port: u16, queue: seq<Caller>)

  /** What one non-blocking read reports. */
  datatype ReadResult = Data(size: nat) | NotReady | ReadError

  /** How many connections wait at the listeners. */
  function Queued(listeners: seq<Listener>): nat {
    if listeners == [] then 0 else Queued(listeners[..|listeners| - 1]) + |listeners[|listeners| - 1].queue|
  }

  /** The j-th connection waiting at a listener, as the list of pending ones has it. */
  predicate Holds(x: PendingTcp, l: Listener, j: nat, deadline: Time)
    requires j < |l.queue|
  {
    x.port == l.port && x.stream == l.queue[j].stream && x.ip == l.queue[j].ip && x.deadline == deadline
  }

  /** The first `count` connections of one listener, in their order. */
  ghost predicate FromQueue(taken: seq<PendingTcp>, l: Listener, count: nat, deadline: Time) {
    |taken| == count <= |l.queue| && forall j | 0 <= j < count :: Holds(taken[j], l, j, deadline)
  }

  /** The j-th connection at the n-th listener comes behind those of the listeners before. */
  predicate InPlace(taken: seq<PendingTcp>, listeners: seq<Listener>, n: nat, j: nat, deadline: Time)
    requires n < |listeners| && j < |listeners[n].queue|
  {
    var i := Queued(listeners[..n]) + j;
    i < |taken| ==> Holds(taken[i], listeners[n], j, deadline)
  }

  /** Of all waiting connections, in the order in which the listeners are visited, as many as
      there is room for. */
  ghost predicate TakenInOrder(taken: seq<PendingTcp>, listeners: seq<Listener>, room: nat, deadline: Time) {
    && |taken| == (if Queued(listeners) <= room then Queued(listeners) else room)
    && forall n: nat, j: nat | n < |listeners| && j < |listeners[n].queue| :: InPlace(taken, listeners, n, j, deadline)
  }

  lemma {:induction false} QueuedPrefix(listeners: seq<Listener>, n: nat)
    requires n < |listeners|
    ensures Queued(listeners[..n]) + |listeners[n].queue| <= Queued(listeners)
    decreases |listeners|
  {
    if n + 1 < |listeners| {
      var front := listeners[..|listeners| - 1];
      assert front[..n] == listeners[..n];
      QueuedPrefix(front, n);
    }
  }

  /** One more listener, from which as many are taken as there is room left for. */
  lemma {:induction false} OneMoreListener(taken: seq<PendingTcp>, more: seq<PendingTcp>, front: seq<Listener>,
                                           l: Listener, room: nat, deadline: Time)
    requires TakenInOrder(taken, front, room, deadline)
    requires FromQueue(more, l, |more|, deadline) && |taken| + |more| <= room
    requires |more| == |l.queue| || |taken| + |more| == room
    ensures TakenInOrder(taken + more, front + [l], room, deadline)
  {
    var all, after := front + [l], taken + more;
    assert all[..|all| - 1] == front;
    forall n: nat, j: nat | n < |all| && j < |all[n].queue|
      ensures InPlace(after, all, n, j, deadline)
    {
      if n < |front| {
        QueuedPrefix(front, n);
        assert all[..n] == front[..n] && all[n] == front[n];
        assert InPlace(taken, front, n, j, deadline);
      } else {
        assert all[..n] == front;
      }
    }
  }

  /** The accept pass: each listener is drained until its queue is empty or the list is
      full, so the list takes as many of the waiting connections as it has room for, and
      each may stay until the timeout is over. */
  method AcceptPass(listeners: seq<Listener>, pending: seq<PendingTcp>, now: Time, timeout: nat, limit: nat)
    returns (after: seq<PendingTcp>)
    requires |pending| <= limit
    ensures pending <= after && |after| <= limit
    ensures TakenInOrder(after[|pending|..], listeners, limit - |pending|, now + timeout * SECOND)
  {
    after := pending;
    ghost var taken: seq<PendingTcp> := [];
    for i := 0 to |listeners|
      invariant after == pending + taken && |after| <= limit
      invariant TakenInOrder(taken, listeners[..i], limit - |pending|, now + timeout * SECOND)
    {
      ghost var before := after;
      after := Drain(listeners[i], after, now, timeout, limit);
      ghost var more := after[|before|..];
      OneMoreListener(taken, more, listeners[..i], listeners[i], limit - |pending|, now + timeout * SECOND);
      assert listeners[..i + 1] == listeners[..i] + [listeners[i]];
      taken := taken + more;
    }
    assert listeners[..|listeners|] == listeners;
  }

  /** One listener, until nobody waits or the list is full. */
  method Drain(l: Listener, pending: seq<PendingTcp>, now: Time, timeout: nat, limit: nat)
    returns (after: seq<PendingTcp>)
    requires |pending| <= limit
    ensures pending <= after && |after| <= limit
    ensures FromQueue(after[|pending|..], l, |after| - |pending|, now + timeout * SECOND)
    ensures |after| == limit || |after| - |pending| == |l.queue|
  {
    after := pending;
    var next := 0;
    while |after| < limit && next < |l.queue|
      invariant pending <= after && |after| <= limit && next == |after| - |pending|
      invariant FromQueue(after[|pending|..], l, next, now + timeout * SECOND)
    {
      after := after + [PendingTcp(l.port, l.queue[next].stream, l.queue[next].ip, After(now, timeout))];
      next := next + 1;
    }
  }

  /** `Vec::swap_remove`: the last element takes the place of the removed one. */
  function SwapRemove(s: seq<PendingTcp>, i: nat): (r: seq<PendingTcp>)
    requires i < |s|
    ensures |r| == |s| - 1 && r[..i] == s[..i]
    ensures multiset(s) == multiset(r) + multiset{s[i]}
  {
    var front, last := s[..|s| - 1], s[|s| - 1];
    assert s == front + [last];
    if i == |s| - 1 then front
    else
      assert front == front[..i] + [front[i]] + front[i + 1..];
      assert front[i := last] == front[..i] + [last] + front[i + 1..];
      front[i := last]
  }

  lemma {:induction false} SwapRemoveAt(s: seq<PendingTcp>, i: nat, j: nat)
    requires i < |s| && j + 1 < |s|
    ensures SwapRemove(s, i)[j] == s[if j == i then |s| - 1 else j]
  {
  }

  /** What each read of a pass reports: the n-th read, of the given connection. */
  type Reads = (nat, PendingTcp) -> ReadResult

  /** What becomes of a connection by what the read reports. */
  predicate Knocks(r: ReadResult, x: PendingTcp, now: Time) { r.Data? }

  predicate Leaves(r: ReadResult, x: PendingTcp, now: Time) { r == NotReady && x.deadline <= now }

  predicate Stays(r: ReadResult, x: PendingTcp, now: Time) { r == NotReady && now < x.deadline }

  type Fate = (ReadResult, PendingTcp, Time) -> bool

  /** The connections polled with the given result. */
  function Polled(polls: seq<PendingTcp>, read: Reads, now: Time, which: Fate): seq<PendingTcp> {
    if polls == [] then []
    else
      var n := |polls| - 1;
      Polled(polls[..n], read, now, which) + if which(read(n, polls[n]), polls[n], now) then [polls[n]] else []
  }

  lemma {:induction false} PolledSnoc(polls: seq<PendingTcp>, x: PendingTcp, read: Reads, now: Time, which: Fate)
    ensures Polled(polls + [x], read, now, which) ==
            Polled(polls, read, now, which) + if which(read(|polls|, x), x, now) then [x] else []
  {
    assert (polls + [x])[..|polls|] == polls;
  }

  /** How many of the polls found data. */
  function DataReads(polls: seq<PendingTcp>, read: Reads): nat {
    if polls == [] then 0
    else DataReads(polls[..|polls| - 1], read) + if read(|polls| - 1, polls[|polls| - 1]).Data? then 1 else 0
  }

  /** The packet that came over a connection: TCP, from its peer to its port. */
  predicate CameOver(a: Arrival, x: PendingTcp, size: nat, t: Time) {
    && a.packet.sourceIp == x.ip && a.packet.protocol == Tcp && a.packet.port == Some(x.port)
    && a.packet.payloadSize == size && a.time == t
  }

  /** The packets are those of the polls that found data, in their order, each processed at
      the instant that the clock shows at its poll. */
  ghost predicate Yielded(packets: seq<Arrival>, polls: seq<PendingTcp>, read: Reads, clock: nat -> Time) {
    && |packets| == DataReads(polls, read)
    && forall n | 0 <= n < |polls| && read(n, polls[n]).Data? ::
         var i := DataReads(polls[..n], read);
         i < |packets| && CameOver(packets[i], polls[n], read(n, polls[n]).size, clock(n))
  }

  /** One more poll. */
  lemma {:induction false} YieldedSnoc(packets: seq<Arrival>, polls: seq<PendingTcp>, x: PendingTcp, read: Reads,
                                       clock: nat -> Time, more: seq<Arrival>)
    requires Yielded(packets, polls, read, clock)
    requires var r := read(|polls|, x);
             if r.Data? then |more| == 1 && CameOver(more[0], x, r.size, clock(|polls|)) else more == []
    ensures Yielded(packets + more, polls + [x], read, clock)
  {
    var all, after := polls + [x], packets + more;
    assert all[..|polls|] == polls;
    forall n | 0 <= n < |all| && read(n, all[n]).Data?
      ensures var i := DataReads(all[..n], read);
              i < |after| && CameOver(after[i], all[n], read(n, all[n]).size, clock(n))
    {
      if n < |polls| {
        assert all[..n] == polls[..n] && all[n] == polls[n];
      }
    }
  }

  /** Where a pass stands: the connections polled and those still to poll are those there
      were, and of the polled ones the list has kept exactly those that stay, in order. */
  ghost predicate PassAt(pending: seq<PendingTcp>, list: seq<PendingTcp>, index: nat, polls: seq<PendingTcp>,
                         read: Reads, now: Time)
  {
    && index <= |list|
    && multiset(pending) == multiset(polls) + multiset(list[index..])
    && list[..index] == Polled(polls, read, now, Stays)
  }

  lemma {:induction false} Cancel(a: multiset<PendingTcp>, b: multiset<PendingTcp>, c: multiset<PendingTcp>,
                                  x: PendingTcp)
    requires a + b == (a + c) + multiset{x}
    ensures b == multiset{x} + c
  {
    forall y
      ensures b[y] == (multiset{x} + c)[y]
    {
      assert (a + b)[y] == ((a + c) + multiset{x})[y];
    }
  }

  lemma {:induction false} RemoveAt(list: seq<PendingTcp>, i: nat)
    requires i < |list|
    ensures var rest := SwapRemove(list, i);
            && rest[..i] == list[..i]
            && multiset(list[i..]) == multiset{list[i]} + multiset(rest[i..])
  {
    var rest := SwapRemove(list, i);
    assert list == list[..i] + list[i..] && rest == rest[..i] + rest[i..];
    Cancel(multiset(list[..i]), multiset(list[i..]), multiset(rest[i..]), list[i]);
  }

  lemma {:induction false} PassKeeps(pending: seq<PendingTcp>, list: seq<PendingTcp>, index: nat,
                                     polls: seq<PendingTcp>,
                                     read: Reads, now: Time, x: PendingTcp)
    requires PassAt(pending, list, index, polls, read, now) && index < |list| && x == list[index]
    requires Stays(read(|polls|, x), x, now)
    ensures PassAt(pending, list, index + 1, polls + [x], read, now)
  {
    PolledSnoc(polls, x, read, now, Stays);
    assert list[index..] == [x] + list[index + 1..];
    assert multiset(list[index..]) == multiset{x} + multiset(list[index + 1..]);
    assert multiset(polls + [x]) == multiset(polls) + multiset{x};
    assert list[..index + 1] == list[..index] + [x];
  }

  lemma {:induction false} PassRemoves(pending: seq<PendingTcp>, list: seq<PendingTcp>, index: nat,
                                       polls: seq<PendingTcp>,
                                       read: Reads, now: Time, x: PendingTcp)
    requires PassAt(pending, list, index, polls, read, now) && index < |list| && x == list[index]
    requires !Stays(read(|polls|, x), x, now)
    ensures PassAt(pending, SwapRemove(list, index), index, polls + [x], read, now)
  {
    PolledSnoc(polls, x, read, now, Stays);
    RemoveAt(list, index);
    assert multiset(polls + [x]) == multiset(polls) + multiset{x};
    assert Polled(polls, read, now, Stays) + [] == Polled(polls, read, now, Stays);
  }

  /** No read of the pass failed. */
  ghost predicate Unbroken(polls: seq<PendingTcp>, read: Reads) {
    forall n | 0 <= n < |polls| :: read(n, polls[n]) != ReadError
  }

  /** A pass without a failed read sorts all it polled: each connection has knocked, or is
      dropped, or stays, once for each time that it was polled. */
  lemma {:induction false} PollsSorted(polls: seq<PendingTcp>, read: Reads, now: Time)
    requires Unbroken(polls, read)
    ensures multiset(polls) == multiset(Polled(polls, read, now, Knocks))
                               + multiset(Polled(polls, read, now, Leaves))
                               + multiset(Polled(polls, read, now, Stays))
    decreases |polls|
  {
    if polls != [] {
      var front, x := polls[..|polls| - 1], polls[|polls| - 1];
      SplitLast(polls);
      assert Unbroken(front, read) by {
        assert forall n | 0 <= n < |front| :: front[n] == polls[n];
      }
      PollsSorted(front, read, now);
      PolledSnoc(front, x, read, now, Knocks);
      PolledSnoc(front, x, read, now, Leaves);
      PolledSnoc(front, x, read, now, Stays);
    }
  }

  /** Only what is due is dropped, and nothing that is due is kept. */
  lemma {:induction false} DeadlinesDecide(polls: seq<PendingTcp>, read: Reads, now: Time)
    ensures forall x | x in Polled(polls, read, now, Leaves) :: x.deadline <= now
    ensures forall x | x in Polled(polls, read, now, Stays) :: now < x.deadline
    decreases |polls|
  {
    if polls != [] {
      DeadlinesDecide(polls[..|polls| - 1], read, now);
    }
  }

  /** A complete pass: every connection was polled exactly once, and knocked, was dropped
      at its deadline, or is kept before its deadline. */
  lemma {:induction false} PassSortsAll(pending: seq<PendingTcp>, list: seq<PendingTcp>, polls: seq<PendingTcp>,
                                        read: Reads, now: Time)
    requires PassAt(pending, list, |list|, polls, read, now) && Unbroken(polls, read)
    ensures multiset(polls) == multiset(pending)
    ensures var knocked, dropped := Polled(polls, read, now, Knocks), Polled(polls, read, now, Leaves);
            && multiset(pending) == multiset(knocked) + multiset(dropped) + multiset(list)
            && (forall x | x in dropped :: x.deadline <= now) && (forall x | x in list :: now < x.deadline)
  {
    assert list[|list|..] == [] && list[..|list|] == list;
    PollsSorted(polls, read, now);
    DeadlinesDecide(polls, read, now);
  }

  lemma {:induction false} PassBegins(pending: seq<PendingTcp>, read: Reads, now: Time)
    ensures PassAt(pending, pending, 0, [], read, now) && Unbroken([], read)
  {
    assert pending[0..] == pending;
  }

  /** Where a pass may end: when it is complete, when the server gave up, at a failed read. */
  predicate MayEnd(list: seq<PendingTcp>, index: nat, polls: seq<PendingTcp>, read: Reads, ok: bool, gaveUp: bool) {
    if ok then index == |list| && !gaveUp else gaveUp || (index < |list| && read(|polls|, list[index]) == ReadError)
  }

  ghost predicate PassOver(pending: seq<PendingTcp>, list: seq<PendingTcp>, polls: seq<PendingTcp>, read: Reads,
                           now: Time, ok: bool, gaveUp: bool)
  {
    && Unbroken(polls, read)
    && exists index: nat ::
         PassAt(pending, list, index, polls, read, now) && MayEnd(list, index, polls, read, ok, gaveUp)
  }

  lemma {:induction false} EndPass(pending: seq<PendingTcp>, list: seq<PendingTcp>, index: nat, polls: seq<PendingTcp>,
                                   read: Reads, now: Time, ok: bool, gaveUp: bool)
    requires PassAt(pending, list, index, polls, read, now) && Unbroken(polls, read)
    requires MayEnd(list, index, polls, read, ok, gaveUp)
    ensures PassOver(pending, list, polls, read, now, ok, gaveUp)
  {
  }

  lemma {:induction false} StillUnbroken(polls: seq<PendingTcp>, x: PendingTcp, read: Reads)
    requires Unbroken(polls, read) && read(|polls|, x) != ReadError
    ensures Unbroken(polls + [x], read)
  {
  }

  /** The pending pass: one read per connection. A connection with data becomes a knock,
      one past its deadline is dropped, the others stay. The pass ends early when a read
      fails or the server gives up, and only then. */
  method PollPending(server: Server, host: Host, pending: seq<PendingTcp>, now: Time, read: Reads, clock: nat -> Time)
    returns (list: seq<PendingTcp>, ok: bool, ghost polls: seq<PendingTcp>, ghost packets: seq<Arrival>,
             ghost gaveUp: bool)
    requires server.Valid()
    modifies server, server.tracker, server.sourceLimiter, server.telemetryLimiter, host
    ensures server.Valid()
    // However the pass ends, no connection is polled twice, and all those that it did not
    // poll are still there; a complete pass has polled them all, and any other stopped at a
    // failed read or because the server gave up.
    ensures PassOver(pending, list, polls, read, now, ok, gaveUp)
    // The server has processed exactly what came over the connections that had data, whatever
    // their deadline, in their order, and gave up at none of them but perhaps the last.
    ensures server.history == old(server.history) + packets && Yielded(packets, polls, read, clock)
    ensures EndsRun(server.config, server.history, server.replies, |old(server.history)|, gaveUp)
  {
    ghost var start, more: seq<Arrival> := server.history, [];
    list, ok, polls, packets, gaveUp := pending, true, [], [], false;
    PassBegins(pending, read, now);
    var index: nat, tick: nat := 0, 0;
    while ok && index < |list|
      invariant Polling(server, start, pending, list, index, polls, packets, read, now, clock, !ok) && tick == |polls|
      decreases |list| - index
    {
      if read(tick, list[index]) == ReadError {
        EndPass(pending, list, index, polls, read, now, false, false);
        ok := false;
        return;
      }
      ghost var x := list[index];
      list, index, ok, more := PollNext(server, host, pending, list, index, tick, polls, packets, start, now, read,
                                        clock);
      packets, polls, tick := packets + more, polls + [x], tick + 1;
    }
    gaveUp := !ok;
    EndPass(pending, list, index, polls, read, now, ok, gaveUp);
  }

  /** A pass under way: the server was at `start` when it began, and has processed what it yielded. */
  ghost predicate Polling(server: Server, start: seq<Arrival>, pending: seq<PendingTcp>, list: seq<PendingTcp>,
                          index: nat, polls: seq<PendingTcp>, packets: seq<Arrival>, read: Reads, now: Time,
                          clock: nat -> Time, gaveUp: bool)
    reads server, server.tracker, server.sourceLimiter, server.telemetryLimiter
  {
    && server.Valid() && server.history == start + packets
    && EndsRun(server.config, server.history, server.replies, |start|, gaveUp)
    && PassGoing(pending, list, index, polls, packets, read, now, clock)
  }

  method PollNext(server: Server, host: Host, ghost pending: seq<PendingTcp>, list: seq<PendingTcp>, index: nat,
                  tick: nat, ghost polls: seq<PendingTcp>, ghost packets: seq<Arrival>, ghost start: seq<Arrival>,
                  now: Time, read: Reads, clock: nat -> Time)
    returns (after: seq<PendingTcp>, next: nat, ok: bool, ghost more: seq<Arrival>)
    requires Polling(server, start, pending, list, index, polls, packets, read, now, clock, false)
    requires tick == |polls| && index < |list| && read(tick, list[index]) != ReadError
    modifies server, server.tracker, server.sourceLimiter, server.telemetryLimiter, host
    ensures Polling(server, start, pending, after, next, polls + [list[index]], packets + more, read, now, clock, !ok)
    ensures |after| - next < |list| - index
  {
    after, next, ok, more := PollOne(server, host, list, index, read(tick, list[index]), clock(tick), now, |start|);
    PassGoesOn(pending, list, index, polls, packets, read, now, clock, after, next, more);
    Behind(start, packets, more);
  }

  lemma {:induction false} Behind(start: seq<Arrival>, packets: seq<Arrival>, more: seq<Arrival>)
    ensures (start + packets) + more == start + (packets + more)
  {
  }

  /** What one poll does to the list and to the place in it, and what it yields. */
  ghost predicate PollStep(list: seq<PendingTcp>, index: nat, after: seq<PendingTcp>, next: nat, r: ReadResult,
                           t: Time, now: Time, more: seq<Arrival>)
    requires index < |list|
  {
    var x := list[index];
    && (if Stays(r, x, now) then after == list && next == index + 1
        else after == SwapRemove(list, index) && next == index)
    && if r.Data? then |more| == 1 && CameOver(more[0], x, r.size, t) else more == []
  }

  /** The pass so far: what was polled, kept and yielded. */
  ghost predicate PassGoing(pending: seq<PendingTcp>, list: seq<PendingTcp>, index: nat, polls: seq<PendingTcp>,
                            packets: seq<Arrival>, read: Reads, now: Time, clock: nat -> Time)
  {
    PassAt(pending, list, index, polls, read, now) && Unbroken(polls, read) && Yielded(packets, polls, read, clock)
  }

  lemma {:induction false} PassGoesOn(pending: seq<PendingTcp>, list: seq<PendingTcp>, index: nat,
                                      polls: seq<PendingTcp>, packets: seq<Arrival>, read: Reads, now: Time,
                                      clock: nat -> Time, after: seq<PendingTcp>, next: nat, more: seq<Arrival>)
    requires PassGoing(pending, list, index, polls, packets, read, now, clock) && index < |list|
    requires read(|polls|, list[index]) != ReadError
    requires PollStep(list, index, after, next, read(|polls|, list[index]), clock(|polls|), now, more)
    ensures PassGoing(pending, after, next, polls + [list[index]], packets + more, read, now, clock)
  {
    var x := list[index];
    StillUnbroken(polls, x, read);
    YieldedSnoc(packets, polls, x, read, clock, more);
    if Stays(read(|polls|, x), x, now) {
      PassKeeps(pending, list, index, polls, read, now, x);
    } else {
      PassRemoves(pending, list, index, polls, read, now, x);
    }
  }

  /** One poll: a connection with data leaves the list and its packet is processed, one past
      its deadline leaves it, any other stays. */
  method PollOne(server: Server, host: Host, list: seq<PendingTcp>, index: nat, r: ReadResult, t: Time, now: Time,
                 ghost from: nat)
    returns (after: seq<PendingTcp>, next: nat, ok: bool, ghost added: seq<Arrival>)
    requires server.Valid() && from <= |server.history| && index < |list| && r != ReadError
    requires EndsRun(server.config, server.history, server.replies, from, false)
    modifies server, server.tracker, server.sourceLimiter, server.telemetryLimiter, host
    ensures server.Valid() && server.history == old(server.history) + added
    ensures PollStep(list, index, after, next, r, t, now, added) && |after| - next < |list| - index
    ensures EndsRun(server.config, server.history, server.replies, from, !ok)
  {
    after, next, ok, added := list, index, true, [];
    var x := list[index];
    match r {
      case Data(size) =>
        after := SwapRemove(list, index);
        ok := ProcessOne(server, host, K.KnockPacket(x.ip, Tcp, Some(x.port), size), t, from);
        added := [K.Arrival(K.KnockPacket(x.ip, Tcp, Some(x.port), size), t)];
      case NotReady =>
        if now >= x.deadline {
          after := SwapRemove(list, index);
        } else {
          next := index + 1;
        }
    }
  }

  /** One packet of a run in which the server has not given up. */
  method ProcessOne(server: Server, host: Host, packet: K.KnockPacket, t: Time, ghost from: nat)
    returns (ok: bool)
    requires server.Valid() && from <= |server.history|
    requires EndsRun(server.config, server.history, server.replies, from, false)
    modifies server, server.tracker, server.sourceLimiter, server.telemetryLimiter, host
    ensures server.Valid()
    ensures server.history == old(server.history) + [K.Arrival(packet, t)]
    ensures EndsRun(server.config, server.history, server.replies, from, !ok)
  {
    ghost var c, h, replies, a := server.config, server.history, server.replies, K.Arrival(packet, t);
    ok := server.ProcessPacket(packet, t, host);
    EndsRunSnoc(c, h, replies, from, a, server.replies[|replies|]);
  }
}
