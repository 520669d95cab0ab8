/** Why a full table is harmless only if step 0 does not recur: a run on which the
    bounded tracker accepts a knock that the tracker without bounds does not. */
module CapacityTheory {
  import opened Base
  import opened Settings
  import opened Knock
  import opened KnockTheory

  /** What the bounded tracker accepts, the tracker with room for every source accepts. */
  ghost predicate CapacityOnlyLoses(p: TrackerParams) {
    forall h, a, q: TrackerParams | InOrder(h + [a]) && Roomier(p, q, h + [a]) ::
      Step(p, Run(p, h), a).outcome == Accepted ==> Step(q, Run(q, h), a).outcome == Accepted
  }

  predicate Roomier(p: TrackerParams, q: TrackerParams, h: seq<Arrival>) {
    q == p.(maxPartialStates := q.maxPartialStates) && |Sources(h)| <= q.maxPartialStates
  }

  // ---------------------------------------------------------------------------
  // One instant: nothing expires
  // ---------------------------------------------------------------------------

  predicate AllAtZero(m: States) {
    forall ip | ip in m :: m[ip].firstSeen == 0 && m[ip].lastSeen == 0
  }

  function Send(ip: IpAddr, x: KnockStep): Arrival {
    Arrival(KnockPacket(ip, x.protocol, x.port, x.size), 0)
  }

  lemma {:induction false} NothingExpires(p: TrackerParams, m: States)
    requires AllAtZero(m)
    ensures Expired(p, m, 0) == m
  {
  }

  lemma {:induction false} StepAtZero(p: TrackerParams, m: States, a: Arrival, r: Reply)
    requires AllAtZero(m) && a.time == 0
    requires var ip := a.packet.sourceIp; r == SourceStep(p, Lookup(m, ip), a.packet, 0, HasRoom(p, m, ip))
    ensures Step(p, m, a) == Advanced(r.outcome, Put(m, a.packet.sourceIp, r.entry))
  {
    NothingExpires(p, m);
  }

  lemma {:induction false} RunTo(p: TrackerParams, h: seq<Arrival>, a: Arrival, m: States, next: States)
    requires Run(p, h) == m && Step(p, m, a).states == next
    ensures Run(p, h + [a]) == next
  {
    RunSnoc(p, h, a);
  }

  lemma {:induction false} RoomForNew(p: TrackerParams, m: States, ip: IpAddr)
    requires ip !in m
    ensures m - {ip} == m && (HasRoom(p, m, ip) <==> |m| < p.maxPartialStates)
  {
    assert m - {ip} == m;
  }

  lemma {:induction false} ReplyToBegin(p: TrackerParams, packet: KnockPacket)
    requires 2 <= |p.sequence| && packet.payloadSize <= p.maxPayloadSize && MatchesStep(p, 0, packet)
    ensures SourceStep(p, None, packet, 0, true) == Started(0)
  {
  }

  lemma {:induction false} ReplyInVain(p: TrackerParams, packet: KnockPacket)
    requires 2 <= |p.sequence|
    ensures SourceStep(p, None, packet, 0, false).entry == None
  {
  }

  lemma {:induction false} ReplyToNext(p: TrackerParams, k: nat, packet: KnockPacket, room: bool)
    requires 0 < k < |p.sequence| && packet.payloadSize <= p.maxPayloadSize && MatchesStep(p, k, packet)
    ensures SourceStep(p, Some(SourceState(k, 0, 0)), packet, 0, room) ==
            if k + 1 == |p.sequence| then Reply(Accepted, None)
            else Reply(Progress(k + 1), Some(SourceState(k + 1, 0, 0)))
  {
  }

  // ---------------------------------------------------------------------------
  // The run: fill the table, begin in vain, free one place, knock
  // ---------------------------------------------------------------------------

  function Filler(k: nat): IpAddr {
    V6(k)
  }

  function Fillers(p: TrackerParams, k: nat): seq<Arrival>
    requires p.sequence != []
  {
    seq(k, i requires 0 <= i < k => Send(Filler(i), p.sequence[0]))
  }

  lemma {:induction false} FillersSnoc(p: TrackerParams, k: nat)
    requires p.sequence != []
    ensures Fillers(p, k + 1) == Fillers(p, k) + [Send(Filler(k), p.sequence[0])]
  {
  }

  /** A table with `k` entries, of the first fillers. */
  ghost predicate FilledBy(m: States, k: nat) {
    |m| == k && AllAtZero(m) && (forall ip | ip in m :: ip.V6? && ip.bits < k) && (k > 0 ==> Filler(0) in m)
  }

  /** A first step from a source without an entry starts a knock if there is room. */
  lemma {:induction false} BeginStep(p: TrackerParams, m: States, ip: IpAddr)
    requires 2 <= |p.sequence| && p.sequence[0].size <= p.maxPayloadSize
    requires AllAtZero(m) && ip !in m && |m| < p.maxPartialStates
    ensures Step(p, m, Send(ip, p.sequence[0])).states == m[ip := SourceState(1, 0, 0)]
  {
    var a := Send(ip, p.sequence[0]);
    RoomForNew(p, m, ip);
    ReplyToBegin(p, a.packet);
    StepAtZero(p, m, a, Started(0));
  }

  lemma {:induction false} FillersFill(p: TrackerParams, k: nat) returns (m: States)
    requires 2 <= |p.sequence| && p.sequence[0].size <= p.maxPayloadSize && k <= p.maxPartialStates
    ensures Run(p, Fillers(p, k)) == m && FilledBy(m, k)
  {
    m := map[];
    var i, h := 0, Fillers(p, 0);
    assert h == [];
    while i < k
      invariant 0 <= i <= k && h == Fillers(p, i) && Run(p, h) == m && FilledBy(m, i)
    {
      FillersSnoc(p, i);
      BeginRun(p, h, Filler(i), m);
      MoreFilled(m, i);
      m := m[Filler(i) := SourceState(1, 0, 0)];
      i, h := i + 1, h + [Send(Filler(i), p.sequence[0])];
    }
  }

  lemma {:induction false} MoreFilled(m: States, k: nat)
    requires FilledBy(m, k)
    ensures Filler(k) !in m && FilledBy(m[Filler(k) := SourceState(1, 0, 0)], k + 1)
  {
  }

  lemma {:induction false} BeginRun(p: TrackerParams, h: seq<Arrival>, ip: IpAddr, m: States)
    requires 2 <= |p.sequence| && p.sequence[0].size <= p.maxPayloadSize
    requires Run(p, h) == m && AllAtZero(m) && ip !in m && |m| < p.maxPartialStates
    ensures Run(p, h + [Send(ip, p.sequence[0])]) == m[ip := SourceState(1, 0, 0)]
  {
    BeginStep(p, m, ip);
    RunSnoc(p, h, Send(ip, p.sequence[0]));
  }

  lemma {:induction false} VainStep(p: TrackerParams, m: States, x: KnockStep)
    requires 2 <= |p.sequence| && AllAtZero(m) && V4(0) !in m && |m| == p.maxPartialStates
    ensures Step(p, m, Arrival(PacketFor(x), 0)).states == m
  {
    var a := Arrival(PacketFor(x), 0);
    RoomForNew(p, m, V4(0));
    ReplyInVain(p, a.packet);
    StepAtZero(p, m, a, SourceStep(p, None, a.packet, 0, false));
  }

  lemma {:induction false} KnocksEnd(h: seq<Arrival>, front: seq<KnockStep>, x: KnockStep)
    ensures h + Knocks(front + [x]) == (h + Knocks(front)) + [Arrival(PacketFor(x), 0)]
  {
    KnocksSnoc(front, x);
  }

  /** In a full table a source without an entry cannot get one, whatever it sends. */
  lemma {:induction false} InVain(p: TrackerParams, h: seq<Arrival>, steps: seq<KnockStep>)
    requires var m := Run(p, h);
             2 <= |p.sequence| && AllAtZero(m) && V4(0) !in m && |m| == p.maxPartialStates
    ensures Run(p, h + Knocks(steps)) == Run(p, h)
    decreases |steps|
  {
    if steps == [] {
      assert h + Knocks(steps) == h;
    } else {
      var front, x := steps[..|steps| - 1], steps[|steps| - 1];
      SplitLast(steps);
      InVain(p, h, front);
      KnocksEnd(h, front, x);
      VainStep(p, Run(p, h), x);
      RunSnoc(p, h + Knocks(front), Arrival(PacketFor(x), 0));
    }
  }

  /** A packet too long for any step. */
  function Oversize(p: TrackerParams, ip: IpAddr): Arrival {
    Arrival(KnockPacket(ip, Udp, None, p.maxPayloadSize + 1), 0)
  }

  lemma {:induction false} PlaceFreed(p: TrackerParams, m: States, ip: IpAddr)
    requires AllAtZero(m) && ip in m
    ensures Step(p, m, Oversize(p, ip)).states == m - {ip} && |m - {ip}| < |m|
  {
    StepAtZero(p, m, Oversize(p, ip), Reply(Oversized, None));
    assert (m - {ip})[ip := m[ip]] == m;
  }

  lemma {:induction false} AdvanceStep(p: TrackerParams, m: States, k: nat)
    requires 0 < k < |p.sequence| && p.sequence[k].size <= p.maxPayloadSize && AllAtZero(m)
    ensures var r := Step(p, m[V4(0) := SourceState(k, 0, 0)], Arrival(PacketFor(p.sequence[k]), 0));
            if k + 1 == |p.sequence| then r.outcome == Accepted
            else r.states == m[V4(0) := SourceState(k + 1, 0, 0)]
  {
    var t, a := m[V4(0) := SourceState(k, 0, 0)], Arrival(PacketFor(p.sequence[k]), 0);
    assert AllAtZero(t) && Lookup(t, V4(0)) == Some(SourceState(k, 0, 0));
    assert t[V4(0) := SourceState(k + 1, 0, 0)] == m[V4(0) := SourceState(k + 1, 0, 0)];
    ReplyToNext(p, k, a.packet, HasRoom(p, t, V4(0)));
    StepAtZero(p, t, a, SourceStep(p, Some(SourceState(k, 0, 0)), a.packet, 0, HasRoom(p, t, V4(0))));
  }

  /** With a place free, the knock goes through step by step. */
  lemma {:induction false} KnockAdvances(p: TrackerParams, h: seq<Arrival>, k: nat)
    requires 0 < k < |p.sequence|
    requires SizesFit(p)
    requires var m := Run(p, h); AllAtZero(m) && V4(0) !in m && |m| < p.maxPartialStates
    ensures Run(p, h + Knocks(p.sequence[..k])) == Run(p, h)[V4(0) := SourceState(k, 0, 0)]
  {
    var m, i := Run(p, h), 1;
    KnockBegins(p, h, m);
    while i < k
      invariant 1 <= i <= k && Run(p, h + Knocks(p.sequence[..i])) == m[V4(0) := SourceState(i, 0, 0)]
    {
      var next := i + 1;
      KnockGoesOn(p, h, m, i, next);
      i := next;
    }
  }

  lemma {:induction false} KnockBegins(p: TrackerParams, h: seq<Arrival>, m: States)
    requires 2 <= |p.sequence| && p.sequence[0].size <= p.maxPayloadSize
    requires Run(p, h) == m && AllAtZero(m) && V4(0) !in m && |m| < p.maxPartialStates
    ensures Run(p, h + Knocks(p.sequence[..1])) == m[V4(0) := SourceState(1, 0, 0)]
  {
    var x := p.sequence[0];
    assert p.sequence[..1] == [] + [x];
    KnocksEnd(h, [], x);
    assert h + Knocks([]) == h;
    BeginStep(p, m, V4(0));
    RunTo(p, h, Arrival(PacketFor(x), 0), m, m[V4(0) := SourceState(1, 0, 0)]);
  }

  lemma {:induction false} PrefixSnoc(steps: seq<KnockStep>, k: nat)
    requires k < |steps|
    ensures steps[..k + 1] == steps[..k] + [steps[k]]
  {
  }

  lemma {:induction false} KnockGoesOn(p: TrackerParams, h: seq<Arrival>, m: States, k: nat, next: nat)
    requires 0 < k < next == k + 1 < |p.sequence| && p.sequence[k].size <= p.maxPayloadSize && AllAtZero(m)
    requires Run(p, h + Knocks(p.sequence[..k])) == m[V4(0) := SourceState(k, 0, 0)]
    ensures Run(p, h + Knocks(p.sequence[..next])) == m[V4(0) := SourceState(next, 0, 0)]
  {
    var front, x := p.sequence[..k], p.sequence[k];
    PrefixSnoc(p.sequence, k);
    KnocksEnd(h, front, x);
    AdvanceStep(p, m, k);
    RunTo(p, h + Knocks(front), Arrival(PacketFor(x), 0), m[V4(0) := SourceState(k, 0, 0)],
      m[V4(0) := SourceState(next, 0, 0)]);
  }

  lemma {:induction false} KnockCompletes(p: TrackerParams, h: seq<Arrival>)
    requires 2 <= |p.sequence|
    requires SizesFit(p)
    requires var m := Run(p, h); AllAtZero(m) && V4(0) !in m && |m| < p.maxPartialStates
    ensures var n := |p.sequence|;
            Step(p, Run(p, h + Knocks(p.sequence[..n - 1])), Arrival(PacketFor(p.sequence[n - 1]), 0)).outcome
            == Accepted
  {
    var n := |p.sequence|;
    KnockAdvances(p, h, n - 1);
    AdvanceStep(p, Run(p, h), n - 1);
  }

  /** Everything before the second, successful knock. */
  function Prelude(p: TrackerParams, j: nat): seq<Arrival>
    requires j < |p.sequence|
  {
    Fillers(p, p.maxPartialStates) + Knocks(p.sequence[..j]) + [Oversize(p, Filler(0))]
  }

  lemma {:induction false} PreludeLeavesRoom(p: TrackerParams, j: nat)
    requires 2 <= |p.sequence| && j < |p.sequence| && 0 < p.maxPartialStates
    requires p.sequence[0].size <= p.maxPayloadSize
    ensures var m := Run(p, Prelude(p, j)); AllAtZero(m) && V4(0) !in m && |m| < p.maxPartialStates
  {
    var k := p.maxPartialStates;
    var m := FillersFill(p, k);
    InVain(p, Fillers(p, k), p.sequence[..j]);
    PlaceFreed(p, m, Filler(0));
    RunSnoc(p, Fillers(p, k) + Knocks(p.sequence[..j]), Oversize(p, Filler(0)));
  }

  // ---------------------------------------------------------------------------
  // What the source sent in that run
  // ---------------------------------------------------------------------------

  lemma {:induction false} OnlyConcat(h: seq<Arrival>, g: seq<Arrival>, ip: IpAddr)
    ensures Only(h + g, ip) == Only(h, ip) + Only(g, ip)
    decreases |g|
  {
    if g == [] {
      assert h + g == h;
    } else {
      var front, a := g[..|g| - 1], g[|g| - 1];
      assert h + g == (h + front) + [a];
      OnlySnoc(h + front, a, ip);
      OnlyConcat(h, front, ip);
    }
  }

  lemma {:induction false} OnlyFillers(p: TrackerParams, k: nat)
    requires p.sequence != []
    ensures Only(Fillers(p, k), V4(0)) == [] && InstantRun(Fillers(p, k))
    decreases k
  {
    if k > 0 {
      OnlyFillers(p, k - 1);
      FillersSnoc(p, k - 1);
      OnlySnoc(Fillers(p, k - 1), Send(Filler(k - 1), p.sequence[0]), V4(0));
    }
  }

  lemma {:induction false} OnlyKnocks(steps: seq<KnockStep>)
    ensures Only(Knocks(steps), V4(0)) == Knocks(steps) && InstantRun(Knocks(steps))
    decreases |steps|
  {
    if steps != [] {
      var front, x := steps[..|steps| - 1], steps[|steps| - 1];
      OnlyKnocks(front);
      OnlySnoc(Knocks(front), Arrival(PacketFor(x), 0), V4(0));
    }
  }

  lemma {:induction false} KnocksConcat(a: seq<KnockStep>, b: seq<KnockStep>)
    ensures Knocks(a + b) == Knocks(a) + Knocks(b)
    decreases |b|
  {
    if b == [] {
      assert a + b == a;
    } else {
      var front, x := b[..|b| - 1], b[|b| - 1];
      assert a + b == (a + front) + [x];
      KnocksSnoc(a + front, x);
      KnocksConcat(a, front);
    }
  }

  predicate InstantRun(h: seq<Arrival>) {
    forall i | 0 <= i < |h| :: h[i].time == 0
  }

  lemma {:induction false} InstantInOrder(h: seq<Arrival>)
    requires InstantRun(h)
    ensures InOrder(h)
    decreases |h|
  {
    if |h| >= 2 {
      InstantInOrder(h[..|h| - 1]);
    }
  }

  lemma {:induction false} InstantConcat(h: seq<Arrival>, g: seq<Arrival>)
    requires InstantRun(h) && InstantRun(g)
    ensures InstantRun(h + g)
  {
  }

  lemma {:induction false} PreludeSent(p: TrackerParams, j: nat)
    requires j < |p.sequence|
    ensures Only(Prelude(p, j), V4(0)) == Knocks(p.sequence[..j]) && InstantRun(Prelude(p, j))
  {
    var f, g := Fillers(p, p.maxPartialStates), Knocks(p.sequence[..j]);
    var h, o := f + g, Oversize(p, Filler(0));
    OnlyFillers(p, p.maxPartialStates);
    OnlyKnocks(p.sequence[..j]);
    InstantConcat(f, g);
    InstantConcat(h, [o]);
    OnlyConcat(f, g, V4(0));
    assert [] + g == g && g + [] == g;
    OnlySnoc(h, o, V4(0));
  }

  /** The whole run, and what the source itself sent in it. */
  lemma {:induction false} SentInVainThenWell(p: TrackerParams, j: nat)
    requires j < |p.sequence|
    ensures var all := Prelude(p, j) + Knocks(p.sequence);
            Only(all, V4(0)) == Knocks(Overlap(p, j)) && InOrder(all)
  {
    PreludeSent(p, j);
    OnlyKnocks(p.sequence);
    InstantConcat(Prelude(p, j), Knocks(p.sequence));
    OnlyConcat(Prelude(p, j), Knocks(p.sequence), V4(0));
    KnocksConcat(p.sequence[..j], p.sequence);
    InstantInOrder(Prelude(p, j) + Knocks(p.sequence));
  }

  /** With room for everybody, the source's trace is its packets, all free to begin. */
  lemma {:induction false} OpenTrace(q: TrackerParams, h: seq<Arrival>, steps: seq<KnockStep>, tr: Trace)
    requires 0 < q.maxPartialStates && |Sources(h)| <= q.maxPartialStates && Only(h, V4(0)) == Knocks(steps)
    requires tr == TraceOf(q, h, V4(0))
    ensures Swift(q, tr, steps) && AllOpen(tr)
  {
    EnoughRoom(q, h, V4(0));
    OnlyKeepsPackets(q, h, V4(0));
    KnocksTrace(q, steps);
    SamePacketsSwift(q, tr, TraceOf(q, Knocks(steps), V4(0)), steps);
  }

  lemma {:induction false} SamePacketsSwift(q: TrackerParams, tr: Trace, ts: Trace, steps: seq<KnockStep>)
    requires SamePackets(tr, ts) && Swift(q, ts, steps)
    ensures Swift(q, tr, steps)
  {
  }

  lemma {:induction false} RoomyMisses(q: TrackerParams, j: nat, h: seq<Arrival>, a: Arrival)
    requires 0 < j < |q.sequence| && q.sequence[j] == q.sequence[0] && SizesFit(q)
    requires InOrder(h + [a]) && a.packet.sourceIp == V4(0)
    requires 0 < q.maxPartialStates && |Sources(h + [a])| <= q.maxPartialStates
    requires Only(h + [a], V4(0)) == Knocks(Overlap(q, j))
    ensures Step(q, Run(q, h), a).outcome != Accepted
  {
    var tr := TraceOf(q, h + [a], V4(0));
    OpenTrace(q, h + [a], Overlap(q, j), tr);
    AnswerOfTrace(q, h, a, tr, Step(q, Run(q, h), a).outcome);
    Swallowed(q, tr, j);
  }

  lemma {:induction false} RecurrenceLetsCapacityGain(p: TrackerParams, j: nat)
    requires 0 < j < |p.sequence| && p.sequence[j] == p.sequence[0] && 0 < p.maxPartialStates && SizesFit(p)
    ensures !CapacityOnlyLoses(p)
  {
    var n := |p.sequence|;
    var front, x := p.sequence[..n - 1], p.sequence[n - 1];
    var h, a := Prelude(p, j) + Knocks(front), Arrival(PacketFor(x), 0);
    assert p.sequence == front + [x];
    KnocksEnd(Prelude(p, j), front, x);
    SentInVainThenWell(p, j);
    PreludeLeavesRoom(p, j);
    KnockCompletes(p, Prelude(p, j));
    GainWitness(p, j, h, a, |Sources(h + [a])| + 1);
  }

  /** The tracker with another bound. */
  lemma {:induction false} Widened(p: TrackerParams, room: nat, j: nat) returns (q: TrackerParams)
    requires SizesFit(p) && j <= |p.sequence|
    ensures q == p.(maxPartialStates := room)
    ensures q.sequence == p.sequence && q.maxPartialStates == room && SizesFit(q) && Overlap(q, j) == Overlap(p, j)
  {
    q := p.(maxPartialStates := room);
  }

  lemma {:induction false} GainWitness(p: TrackerParams, j: nat, h: seq<Arrival>, a: Arrival, room: nat)
    requires 0 < j < |p.sequence| && p.sequence[j] == p.sequence[0] && SizesFit(p)
    requires InOrder(h + [a]) && Only(h + [a], V4(0)) == Knocks(Overlap(p, j))
    requires a.packet.sourceIp == V4(0) && Step(p, Run(p, h), a).outcome == Accepted
    requires 0 < room && |Sources(h + [a])| <= room
    ensures !CapacityOnlyLoses(p)
  {
    var q := Widened(p, room, j);
    RoomyMisses(q, j, h, a);
    GainIsGain(p, q, h, a);
  }

  lemma {:induction false} GainIsGain(p: TrackerParams, q: TrackerParams, h: seq<Arrival>, a: Arrival)
    requires InOrder(h + [a]) && Roomier(p, q, h + [a])
    requires Step(p, Run(p, h), a).outcome == Accepted && Step(q, Run(q, h), a).outcome != Accepted
    ensures !CapacityOnlyLoses(p)
  {
  }

  /** A bound on the table can only lose knocks, never gain one, if and only if step 0
      of the sequence does not occur again. */
  lemma {:induction false} CapacityOnlyLosesIffNonRecurring(p: TrackerParams)
    requires 2 <= |p.sequence| && 0 < p.maxPartialStates
    requires SizesFit(p)
    ensures CapacityOnlyLoses(p) <==> NonRecurring(p.sequence)
  {
    if NonRecurring(p.sequence) {
      forall h, a, q: TrackerParams | InOrder(h + [a]) && Roomier(p, q, h + [a])
        ensures Step(p, Run(p, h), a).outcome == Accepted ==> Step(q, Run(q, h), a).outcome == Accepted
      {
        assert (h + [a])[..|h|] == h && (h + [a])[|h|] == a;
        BoundedSimulatesUnlimited(p, q, h + [a], a.packet.sourceIp);
      }
    } else {
      var j :| 0 < j < |p.sequence| && p.sequence[j] == p.sequence[0];
      RecurrenceLetsCapacityGain(p, j);
    }
  }
}
