/** What the whole pipeline promises on every interleaved run: which packets open SSH,
    when a source is banned, and for how long. */
module ServerTheory {
  import opened Base
  import opened Settings
  import K = Knock
  import KT = KnockTheory
  import opened RateLimit
  import RT = RateTheory
  import opened Server

  // ---------------------------------------------------------------------------
  // The two maps
  // ---------------------------------------------------------------------------

  /** A banned source has no knock under way, and neither map outgrows its limit. */
  ghost predicate MapsSound(c: Config, st: ServerState) {
    && st.tracker.Keys !! st.banned.Keys
    && |st.tracker| <= c.maxPartialStates && |st.banned| <= c.maxPartialStates
  }

  lemma {:induction false} SubmapSize<X, Y>(m: map<X, Y>, n: map<X, Y>)
    requires m.Keys <= n.Keys
    ensures |m| <= |n|
  {
    KT.SubsetSize(m.Keys, n.Keys);
    assert |m| == |m.Keys| && |n| == |n.Keys|;
  }

  lemma {:induction false} PutSize<X, Y>(m: map<X, Y>, x: X, v: Option<Y>, limit: nat)
    requires |m| <= limit && (v.Some? ==> x in m || |m - {x}| < limit)
    ensures |Put(m, x, v)| <= limit
  {
    if v.Some? {
      var rest := m - {x};
      assert Put(m, x, v) == rest[x := v.value];
      assert rest[x := v.value].Keys == rest.Keys + {x};
      assert |rest[x := v.value]| == |rest| + 1;
      if x in m {
        assert m == rest[x := m[x]];
        assert |m| == |rest| + 1;
      }
    } else {
      SubmapSize(m - {x}, m);
    }
  }

  /** One packet in the tracker: at most its own source is added, and only within the limit. */
  lemma {:induction false} TrackedSound(c: Config, st: ServerState, a: Arrival)
    requires |st.tracker| <= c.maxPartialStates
    ensures var r := Tracked(c, st.tracker, a);
            && |r.states| <= c.maxPartialStates
            && r.states.Keys <= st.tracker.Keys + {a.packet.sourceIp}
            && (Invalid(r.outcome) ==> a.packet.sourceIp !in r.states)
  {
    var p, ip := TrackerOf(c), a.packet.sourceIp;
    var live := K.Expired(p, st.tracker, a.time);
    SubmapSize(live, st.tracker);
    var r := K.SourceStep(p, Lookup(live, ip), a.packet, a.time, K.HasRoom(p, live, ip));
    PutSize(live, ip, r.entry, c.maxPartialStates);
  }

  lemma {:induction false} RememberedSound(c: Config, banned: BanMap, ip: IpAddr, now: Time)
    requires |banned| <= c.maxPartialStates
    ensures var r := Remembered(c, banned, ip, now);
            && |r| <= c.maxPartialStates && r.Keys <= banned.Keys + {ip}
            && |StillBanned(banned, now)| <= c.maxPartialStates
  {
    var live := StillBanned(banned, now);
    SubmapSize(live, banned);
    SubmapSize(live - {ip}, live);
    if !(|live| >= c.maxPartialStates && ip !in live) {
      PutSize(live, ip, Some(After(now, c.banTimeout)), c.maxPartialStates);
    }
  }

  /** The decision follows the tracker's answer, and the tracker sees all but ignored packets. */
  lemma {:induction false} DecisionTracks(c: Config, st: ServerState, a: Arrival, r: K.Advanced)
    requires r == Tracked(c, st.tracker, a)
    ensures var d := Decide(c, st, a);
            && (d.Ignored? <==> a.packet.sourceIp in StillBanned(st.banned, a.time))
            && (!d.Ignored? ==> d.outcome == r.outcome) && (d.Banished? ==> Invalid(r.outcome))
            && NextTracker(c, st, a) == if d.Ignored? then st.tracker else r.states
  {
  }

  lemma {:induction false} MapsStaySound(c: Config, st: ServerState, a: Arrival)
    requires MapsSound(c, st)
    ensures MapsSound(c, Next(c, st, a))
  {
    var ip := a.packet.sourceIp;
    DecisionTracks(c, st, a, Tracked(c, st.tracker, a));
    TrackedSound(c, st, a);
    RememberedSound(c, st.banned, ip, a.time);
    BanTwice(c, st.banned, ip, a.time);
  }

  /** In every reachable state the ban map and the tracker's table are disjoint, and
      both stay within `max_partial_states`. */
  lemma {:induction false} MapsAlwaysSound(c: Config, h: seq<Arrival>)
    ensures MapsSound(c, ServerRun(c, h))
    decreases |h|
  {
    if h != [] {
      MapsAlwaysSound(c, h[..|h| - 1]);
      MapsStaySound(c, ServerRun(c, h[..|h| - 1]), h[|h| - 1]);
    }
  }

  // ---------------------------------------------------------------------------
  // End-to-end exactness
  // ---------------------------------------------------------------------------

  /** The packet is what step `k` asks for: its protocol, port and payload size. */
  predicate IsStep(c: Config, k: nat, packet: K.KnockPacket)
    requires k < |c.sequence|
  {
    && packet.protocol == c.sequence[k].protocol && packet.port == c.sequence[k].port
    && packet.payloadSize == c.sequence[k].size <= c.maxPayloadSize
  }

  /** The packets are the first steps of the sequence, within `sequence_window` seconds, and
      none more than `partial_state_timeout` seconds after the one before. */
  ghost predicate InTime(c: Config, w: KT.Trace) {
    && 1 <= |w| <= |c.sequence|
    && (forall i | 0 <= i < |w| :: IsStep(c, i, w[i].packet))
    && w[|w| - 1].time - w[0].time <= c.sequenceWindow * SECOND
    && (forall i | 0 < i < |w| :: w[i].time - w[i - 1].time <= c.partialStateTimeout * SECOND)
  }

  /** The last `k` packets are the first `k` steps in time, and the first of them was free to
      begin a knock. */
  ghost predicate EndsKnock(c: Config, tr: KT.Trace, k: nat) {
    1 <= k <= |tr| && InTime(c, tr[|tr| - k..]) && tr[|tr| - k].open
  }

  /** What ends a knock of the configuration is a match of its tracker. */
  lemma {:induction false} KnockIsMatch(c: Config, tr: KT.Trace, k: nat)
    ensures EndsKnock(c, tr, k) <==> KT.Matched(TrackerOf(c), tr, k)
  {
    if 1 <= k <= |tr| {
      SpeltInTime(c, tr[|tr| - k..]);
    }
  }

  lemma {:induction false} SpeltInTime(c: Config, w: KT.Trace)
    ensures InTime(c, w) <==> KT.Spells(TrackerOf(c), w)
  {
    if 1 <= |w| <= |c.sequence| {
      assert forall i | 0 <= i < |w| :: IsStep(c, i, w[i].packet) <==> KT.Fits(TrackerOf(c), i, w[i].packet);
    }
  }

  /** The other sources with a knock under way: the last packet of each is at most
      `partial_state_timeout` seconds old, and the first at most `sequence_window` seconds. */
  function UnderWay(c: Config, table: K.States, ip: IpAddr, now: Time): set<IpAddr> {
    set x | x in table && x != ip && now - table[x].lastSeen <= c.partialStateTimeout * SECOND
            && now - table[x].firstSeen <= c.sequenceWindow * SECOND
  }

  /** A knock is free to begin: the source is not banned, and fewer than `max_partial_states`
      others have a knock under way. */
  predicate FreeToBegin(c: Config, st: ServerState, a: Arrival) {
    && (a.packet.sourceIp in st.banned ==> st.banned[a.packet.sourceIp] <= a.time)
    && |UnderWay(c, st.tracker, a.packet.sourceIp, a.time)| < c.maxPartialStates
  }

  lemma {:induction false} FreeMeansRoom(c: Config, st: ServerState, a: Arrival)
    ensures var p := TrackerOf(c);
            FreeToBegin(c, st, a)
            <==> a.packet.sourceIp !in StillBanned(st.banned, a.time)
                 && K.HasRoom(p, K.Expired(p, st.tracker, a.time), a.packet.sourceIp)
  {
    var others := K.Expired(TrackerOf(c), st.tracker, a.time) - {a.packet.sourceIp};
    assert others.Keys == UnderWay(c, st.tracker, a.packet.sourceIp, a.time);
    assert |others| == |others.Keys|;
  }

  function SightingOf(c: Config, st: ServerState, a: Arrival): KT.Sighting {
    KT.Sighting(a.packet, a.time, FreeToBegin(c, st, a))
  }

  /** Every packet of one source, the ignored ones included. */
  function TraceOf(c: Config, h: seq<Arrival>, ip: IpAddr): KT.Trace {
    if h == [] then []
    else
      var before, a := h[..|h| - 1], h[|h| - 1];
      TraceOf(c, before, ip)
      + if a.packet.sourceIp == ip then [SightingOf(c, ServerRun(c, before), a)] else []
  }

  lemma {:induction false} TraceSnoc(c: Config, h: seq<Arrival>, a: Arrival, ip: IpAddr)
    ensures TraceOf(c, h + [a], ip) ==
            TraceOf(c, h, ip) + if a.packet.sourceIp == ip then [SightingOf(c, ServerRun(c, h), a)] else []
  {
    assert (h + [a])[..|h|] == h;
  }

  lemma {:induction false} TraceInOrder(c: Config, h: seq<Arrival>, ip: IpAddr)
    requires KT.InOrder(h)
    ensures KT.Chronological(TraceOf(c, h, ip)) && (h != [] ==> KT.NoneAfter(TraceOf(c, h, ip), h[|h| - 1].time))
    decreases |h|
  {
    if h != [] {
      var before, a := h[..|h| - 1], h[|h| - 1];
      SplitLast(h);
      var tr := TraceOf(c, before, ip);
      KT.InOrderSnoc(before, a);
      TraceInOrder(c, before, ip);
      TraceSnoc(c, before, a, ip);
      assert before == [] ==> tr == [];
      KT.ChronologicalSnoc(tr, SightingOf(c, ServerRun(c, before), a));
      assert a.packet.sourceIp != ip ==> TraceOf(c, h, ip) == tr;
    }
  }

  /** The table of the server after one more packet, for one source. */
  lemma {:induction false} EntryAfter(c: Config, st: ServerState, a: Arrival, ip: IpAddr, now: Time)
    requires a.time <= now && MapsSound(c, st) && 2 <= |c.sequence|
    ensures var p := TrackerOf(c); var before := KT.Visible(p, Lookup(st.tracker, ip), a.time);
            KT.Visible(p, Lookup(Next(c, st, a).tracker, ip), now) ==
            if a.packet.sourceIp != ip then KT.Visible(p, Lookup(st.tracker, ip), now)
            else KT.Visible(p, K.SourceStep(p, before, a.packet, a.time, FreeToBegin(c, st, a)).entry, now)
  {
    var p := TrackerOf(c);
    FreeMeansRoom(c, st, a);
    if Decide(c, st, a) == Ignored {
      assert a.packet.sourceIp !in st.tracker;
    } else {
      assert Next(c, st, a).tracker == Tracked(c, st.tracker, a).states;
      KT.StepLookup(p, st.tracker, a, ip);
      KT.VisibleIsMonotone(p, Lookup(st.tracker, ip), a.time, now);
    }
  }

  lemma {:induction false} ProjectionStep(c: Config, h: seq<Arrival>, a: Arrival, ip: IpAddr, now: Time)
    requires a.time <= now && 2 <= |c.sequence|
    requires var p := TrackerOf(c); var st := Lookup(ServerRun(c, h).tracker, ip); var tr := TraceOf(c, h, ip);
             && KT.Visible(p, st, a.time) == KT.Visible(p, KT.SourceRun(p, tr), a.time)
             && KT.Visible(p, st, now) == KT.Visible(p, KT.SourceRun(p, tr), now)
    ensures var p := TrackerOf(c);
            KT.Visible(p, Lookup(ServerRun(c, h + [a]).tracker, ip), now)
            == KT.Visible(p, KT.SourceRun(p, TraceOf(c, h + [a], ip)), now)
  {
    var p, st := TrackerOf(c), ServerRun(c, h);
    MapsAlwaysSound(c, h);
    ServerRunSnoc(c, h, a);
    TraceSnoc(c, h, a, ip);
    EntryAfter(c, st, a, ip, now);
    if a.packet.sourceIp == ip {
      KT.SourceRunSnoc(p, TraceOf(c, h, ip), SightingOf(c, st, a));
    } else {
      assert TraceOf(c, h + [a], ip) == TraceOf(c, h, ip);
    }
  }

  /** The server's entry for a source is that of the source's own automaton, although
      bans hide packets from the tracker and other sources expire and fill the table. */
  lemma {:induction false} Projection(c: Config, h: seq<Arrival>, ip: IpAddr, now: Time)
    requires 2 <= |c.sequence| && KT.InOrder(h) && (h != [] ==> h[|h| - 1].time <= now)
    ensures var p := TrackerOf(c);
            KT.Visible(p, Lookup(ServerRun(c, h).tracker, ip), now)
            == KT.Visible(p, KT.SourceRun(p, TraceOf(c, h, ip)), now)
    decreases |h|
  {
    if h != [] {
      var before, a := h[..|h| - 1], h[|h| - 1];
      SplitLast(h);
      KT.InOrderSnoc(before, a);
      Projection(c, before, ip, a.time);
      Projection(c, before, ip, now);
      ProjectionStep(c, before, a, ip, now);
    }
  }

  /** The decision on a packet, from the entry of its source. */
  lemma {:induction false} DecisionOnEntry(c: Config, st: ServerState, a: Arrival)
    requires 2 <= |c.sequence| && MapsSound(c, st)
    ensures var p := TrackerOf(c); var d := Decide(c, st, a);
            var seen := KT.Visible(p, Lookup(st.tracker, a.packet.sourceIp), a.time);
            var outcome := K.SourceStep(p, seen, a.packet, a.time, FreeToBegin(c, st, a)).outcome;
            if d.Ignored? then Invalid(outcome) else d.outcome == outcome && (d.Banished? ==> Invalid(outcome))
  {
    var p, ip := TrackerOf(c), a.packet.sourceIp;
    FreeMeansRoom(c, st, a);
    assert Lookup(K.Expired(p, st.tracker, a.time), ip) == KT.Visible(p, Lookup(st.tracker, ip), a.time);
    assert ip in StillBanned(st.banned, a.time) ==> ip !in st.tracker;
  }

  /** The decision on a packet, from its source's own trace. */
  lemma {:induction false} DecisionIsLocal(c: Config, h: seq<Arrival>, a: Arrival) returns (outcome: K.KnockOutcome)
    requires 2 <= |c.sequence| && KT.InOrder(h + [a])
    ensures var tr := TraceOf(c, h + [a], a.packet.sourceIp);
            tr != [] && KT.Chronological(tr) && outcome == KT.SourceResult(TrackerOf(c), tr).outcome
    ensures var d := Decide(c, ServerRun(c, h), a);
            if d.Ignored? then Invalid(outcome) else d.outcome == outcome && (d.Banished? ==> Invalid(outcome))
  {
    var p, st, ip := TrackerOf(c), ServerRun(c, h), a.packet.sourceIp;
    KT.InOrderSnoc(h, a);
    TraceSnoc(c, h, a, ip);
    TraceInOrder(c, h + [a], ip);
    Projection(c, h, ip, a.time);
    KT.SourceRunSnoc(p, TraceOf(c, h, ip), SightingOf(c, st, a));
    outcome := KT.SourceResult(p, TraceOf(c, h + [a], ip)).outcome;
    MapsAlwaysSound(c, h);
    DecisionOnEntry(c, st, a);
  }

  /** End-to-end exactness: on every interleaved run of a validated configuration whose
      step 0 does not recur, a packet opens SSH for its source exactly when the last
      packets of that source, the ignored ones included, spell the sequence in time and
      the first of them came while the source was not banned and the table had room. */
  lemma {:induction false} OpensExactlyOnKnock(c: Config, h: seq<Arrival>, a: Arrival)
    requires WellFormed(c) && NonRecurring(c.sequence) && KT.InOrder(h + [a])
    ensures var d := Decide(c, ServerRun(c, h), a);
            var tr := TraceOf(c, h + [a], a.packet.sourceIp);
            && (d == Answered(K.Accepted) <==> EndsKnock(c, tr, |c.sequence|))
            && (forall k: nat :: d == Answered(K.Progress(k)) <==> k < |c.sequence| && EndsKnock(c, tr, k))
  {
    var p, tr := TrackerOf(c), TraceOf(c, h + [a], a.packet.sourceIp);
    var outcome := DecisionIsLocal(c, h, a);
    KT.AutomatonExact(p, tr);
    AnswerOfOutcome(c, tr, outcome, Decide(c, ServerRun(c, h), a));
  }

  /** Nobody gets in without a knock, whatever the sequence: on every run, if a packet opens
      SSH, then the last packets of its source spell the sequence in time, from a packet that
      was free to begin; and progress is earned likewise. */
  lemma {:induction false} OpensOnlyOnKnock(c: Config, h: seq<Arrival>, a: Arrival)
    requires 2 <= |c.sequence| && KT.InOrder(h + [a])
    ensures var d := Decide(c, ServerRun(c, h), a);
            var tr := TraceOf(c, h + [a], a.packet.sourceIp);
            && (d == Answered(K.Accepted) ==> EndsKnock(c, tr, |c.sequence|))
            && (forall k: nat :: d == Answered(K.Progress(k)) ==> k < |c.sequence| && EndsKnock(c, tr, k))
  {
    var p, tr, d := TrackerOf(c), TraceOf(c, h + [a], a.packet.sourceIp), Decide(c, ServerRun(c, h), a);
    var outcome := DecisionIsLocal(c, h, a);
    KT.AutomatonSound(p, tr);
    KnockIsMatch(c, tr, |c.sequence|);
    if outcome.Progress? {
      KnockIsMatch(c, tr, outcome.nextStep);
    }
  }

  lemma {:induction false} AnswerOfOutcome(c: Config, tr: KT.Trace, outcome: K.KnockOutcome, d: Decision)
    requires tr != [] && KT.AnsweredByMatch(TrackerOf(c), tr, outcome)
    requires if d.Ignored? then Invalid(outcome) else d.outcome == outcome && (d.Banished? ==> Invalid(outcome))
    ensures d == Answered(K.Accepted) <==> EndsKnock(c, tr, |c.sequence|)
    ensures forall k: nat :: d == Answered(K.Progress(k)) <==> k < |c.sequence| && EndsKnock(c, tr, k)
  {
    KnockIsMatch(c, tr, |c.sequence|);
    forall k: nat
      ensures d == Answered(K.Progress(k)) <==> k < |c.sequence| && EndsKnock(c, tr, k)
    {
      KnockIsMatch(c, tr, k);
    }
  }

  lemma {:induction false} WellFormedSizesFit(c: Config)
    requires WellFormed(c)
    ensures KT.SizesFit(TrackerOf(c))
  {
    forall i | 0 <= i < |c.sequence|
      ensures c.sequence[i].size <= c.maxPayloadSize
    {
      assert StepWellFormed(c, c.sequence[i]);
    }
  }

  // ---------------------------------------------------------------------------
  // No knock straddles a ban
  // ---------------------------------------------------------------------------

  /** The decisions on the packets of one source. */
  function DecisionsOf(c: Config, h: seq<Arrival>, ip: IpAddr): seq<Decision> {
    if h == [] then []
    else
      var before, a := h[..|h| - 1], h[|h| - 1];
      DecisionsOf(c, before, ip)
      + if a.packet.sourceIp == ip then [Decide(c, ServerRun(c, before), a)] else []
  }

  lemma {:induction false} DecisionsSnoc(c: Config, h: seq<Arrival>, a: Arrival, ip: IpAddr)
    ensures DecisionsOf(c, h + [a], ip) ==
            DecisionsOf(c, h, ip) + if a.packet.sourceIp == ip then [Decide(c, ServerRun(c, h), a)] else []
  {
    assert (h + [a])[..|h|] == h;
  }

  /** The last `k` decisions are progress from step 1 to step `k`. */
  ghost predicate Climbed(ds: seq<Decision>, k: nat) {
    k <= |ds| && forall j | |ds| - k <= j < |ds| :: ds[j] == Answered(K.Progress(j - (|ds| - k) + 1))
  }

  lemma {:induction false} ClimbOn(ds: seq<Decision>, k: nat)
    requires Climbed(ds, k)
    ensures Climbed(ds + [Answered(K.Progress(k + 1))], k + 1)
  {
  }

  lemma {:induction false} ClimbAnew(ds: seq<Decision>)
    ensures Climbed(ds + [Answered(K.Progress(1))], 1)
  {
  }

  /** The answer that leaves an entry is progress, from the entry's step or from none; and
      what completes the sequence is the answer to the last step. */
  lemma {:induction false} ReplyClimbs(p: K.TrackerParams, st: Option<K.SourceState>, packet: K.KnockPacket,
                                       now: Time, room: bool)
    ensures var r := K.SourceStep(p, st, packet, now, room);
            && (r.entry.Some? ==>
                  var k := r.entry.value.nextStep;
                  r.outcome == K.Progress(k) && (k == 1 || (st.Some? && st.value.nextStep + 1 == k)))
            && (r.outcome == K.Accepted && 2 <= |p.sequence| ==> st.Some? && st.value.nextStep + 1 == |p.sequence|)
  {
  }

  lemma {:induction false} TrackedClimbs(p: K.TrackerParams, m: K.States, a: Arrival, ip: IpAddr)
    requires ip in K.Step(p, m, a).states
    ensures var k := K.Step(p, m, a).states[ip].nextStep;
            if a.packet.sourceIp != ip then ip in m && m[ip].nextStep == k
            else K.Step(p, m, a).outcome == K.Progress(k) && (k == 1 || (ip in m && m[ip].nextStep + 1 == k))
  {
    var live := K.Expired(p, m, a.time);
    KT.StepLookup(p, m, a, ip);
    ReplyClimbs(p, Lookup(live, a.packet.sourceIp), a.packet, a.time, K.HasRoom(p, live, a.packet.sourceIp));
  }

  lemma {:induction false} AcceptedClimbs(p: K.TrackerParams, m: K.States, a: Arrival)
    requires 2 <= |p.sequence| && K.Step(p, m, a).outcome == K.Accepted
    ensures a.packet.sourceIp in m && m[a.packet.sourceIp].nextStep + 1 == |p.sequence|
  {
    var live := K.Expired(p, m, a.time);
    ReplyClimbs(p, Lookup(live, a.packet.sourceIp), a.packet, a.time, K.HasRoom(p, live, a.packet.sourceIp));
  }

  /** What one packet does to the entry of a source: it stays, or it goes, or the answer
      is progress from the step that the entry had or from none. */
  lemma {:induction false} EntryByDecision(c: Config, st: ServerState, a: Arrival, ip: IpAddr)
    requires MapsSound(c, st) && ip in NextTracker(c, st, a)
    ensures var k := NextTracker(c, st, a)[ip].nextStep;
            if a.packet.sourceIp != ip then ip in st.tracker && st.tracker[ip].nextStep == k
            else
              && Decide(c, st, a) == Answered(K.Progress(k))
              && (k == 1 || (ip in st.tracker && st.tracker[ip].nextStep + 1 == k))
  {
    DecisionTracks(c, st, a, Tracked(c, st.tracker, a));
    if Decide(c, st, a).Ignored? {
      assert a.packet.sourceIp !in st.tracker;
    } else {
      TrackedClimbs(TrackerOf(c), st.tracker, a, ip);
    }
  }

  lemma {:induction false} EntryClimbed(c: Config, h: seq<Arrival>, ip: IpAddr)
    ensures var st := ServerRun(c, h); ip in st.tracker ==> Climbed(DecisionsOf(c, h, ip), st.tracker[ip].nextStep)
    decreases |h|
  {
    if h != [] && ip in ServerRun(c, h).tracker {
      var before, a := h[..|h| - 1], h[|h| - 1];
      SplitLast(h);
      MapsAlwaysSound(c, before);
      EntryClimbed(c, before, ip);
      ServerRunSnoc(c, before, a);
      DecisionsSnoc(c, before, a, ip);
      EntryByDecision(c, ServerRun(c, before), a, ip);
      EntryClimbs(DecisionsOf(c, before, ip), Lookup(ServerRun(c, before).tracker, ip),
                  ServerRun(c, h).tracker[ip].nextStep, a.packet.sourceIp == ip);
      assert a.packet.sourceIp != ip ==> DecisionsOf(c, h, ip) == DecisionsOf(c, before, ip);
    }
  }

  lemma {:induction false} EntryClimbs(ds: seq<Decision>, st: Option<K.SourceState>, k: nat, own: bool)
    requires st.Some? ==> Climbed(ds, st.value.nextStep)
    requires if own then k == 1 || (st.Some? && st.value.nextStep + 1 == k) else st.Some? && st.value.nextStep == k
    ensures Climbed(if own then ds + [Answered(K.Progress(k))] else ds, k)
  {
    if own && k == 1 {
      ClimbAnew(ds);
    } else if own {
      ClimbOn(ds, st.value.nextStep);
    }
  }

  /** No accepted knock straddles a ban, or any other interruption: when a packet opens
      SSH, the packets of its source just before were answered by progress, from step 1
      to the last but one. None of them was ignored, rejected or answered by a ban. */
  lemma {:induction false} NoKnockStraddlesBan(c: Config, h: seq<Arrival>, a: Arrival)
    requires 2 <= |c.sequence| && Decide(c, ServerRun(c, h), a) == Answered(K.Accepted)
    ensures Climbed(DecisionsOf(c, h, a.packet.sourceIp), |c.sequence| - 1)
  {
    var st := ServerRun(c, h);
    DecisionTracks(c, st, a, Tracked(c, st.tracker, a));
    AcceptedClimbs(TrackerOf(c), st.tracker, a);
    EntryClimbed(c, h, a.packet.sourceIp);
  }

  // ---------------------------------------------------------------------------
  // Invalid packets and bans
  // ---------------------------------------------------------------------------

  /** The calls made on the invalid-packet limiter. */
  function InvalidCalls(c: Config, h: seq<Arrival>): seq<Call<IpAddr>> {
    if h == [] then []
    else
      var before, a := h[..|h| - 1], h[|h| - 1];
      if Spends(c, ServerRun(c, before), a) then InvalidCalls(c, before) + [SourceCall(a)] else InvalidCalls(c, before)
  }

  lemma {:induction false} InvalidCallsSnoc(c: Config, h: seq<Arrival>, a: Arrival)
    ensures InvalidCalls(c, h + [a]) ==
            if Spends(c, ServerRun(c, h), a) then InvalidCalls(c, h) + [SourceCall(a)] else InvalidCalls(c, h)
  {
    assert (h + [a])[..|h|] == h;
  }

  lemma {:induction false} LimiterRun(c: Config, h: seq<Arrival>)
    ensures ServerRun(c, h).limiter == Buckets(LimiterOf(c), Some(IdleTtl(LimiterOf(c))), InvalidCalls(c, h))
    decreases |h|
  {
    if h != [] {
      var before, a := h[..|h| - 1], h[|h| - 1];
      SplitLast(h);
      LimiterRun(c, before);
      LimiterStep(c, before, a);
    }
  }

  lemma {:induction false} LimiterStep(c: Config, h: seq<Arrival>, a: Arrival)
    requires ServerRun(c, h).limiter == Buckets(LimiterOf(c), Some(IdleTtl(LimiterOf(c))), InvalidCalls(c, h))
    ensures ServerRun(c, h + [a]).limiter
            == Buckets(LimiterOf(c), Some(IdleTtl(LimiterOf(c))), InvalidCalls(c, h + [a]))
  {
    ServerRunSnoc(c, h, a);
    InvalidCallsSnoc(c, h, a);
    BucketsSnoc(LimiterOf(c), Some(IdleTtl(LimiterOf(c))), InvalidCalls(c, h), SourceCall(a));
  }

  /** Calls in order, none of them after `t`. */
  ghost predicate OrderedUpTo(calls: seq<Call<IpAddr>>, t: Time) {
    RT.InOrder(calls) && (calls != [] ==> calls[|calls| - 1].time <= t)
  }

  lemma {:induction false} OrderedSnoc(calls: seq<Call<IpAddr>>, t: Time, call: Call<IpAddr>)
    requires OrderedUpTo(calls, t) && t <= call.time
    ensures OrderedUpTo(calls + [call], call.time) && OrderedUpTo(calls, call.time)
  {
    RT.InOrderSnoc(calls, call);
  }

  lemma {:induction false} InvalidCallsInOrder(c: Config, h: seq<Arrival>)
    requires KT.InOrder(h)
    ensures OrderedUpTo(InvalidCalls(c, h), if h == [] then 0 else h[|h| - 1].time)
    decreases |h|
  {
    if h != [] {
      var before, a := h[..|h| - 1], h[|h| - 1];
      SplitLast(h);
      KT.InOrderSnoc(before, a);
      InvalidCallsInOrder(c, before);
      OrderedSnoc(InvalidCalls(c, before), if before == [] then 0 else before[|before| - 1].time, SourceCall(a));
      InvalidCallsSnoc(c, before, a);
    }
  }

  /** The instants of the invalid packets of one source that were not ignored. */
  function InvalidTimes(c: Config, h: seq<Arrival>, ip: IpAddr): seq<Time> {
    RT.TimesOf(InvalidCalls(c, h), ip)
  }

  lemma {:induction false} InvalidTimesRise(c: Config, h: seq<Arrival>, ip: IpAddr)
    requires KT.InOrder(h)
    ensures RT.Rising(InvalidTimes(c, h, ip))
  {
    InvalidCallsInOrder(c, h);
    RT.TimesRise(InvalidCalls(c, h), ip);
  }

  /** An invalid packet is tolerated or answered by a ban as the source's own bucket says. */
  lemma {:induction false} InvalidIsLocal(c: Config, h: seq<Arrival>, a: Arrival)
    requires KT.InOrder(h + [a])
    requires Spends(c, ServerRun(c, h), a)
    ensures var p := LimiterOf(c); var ts := InvalidTimes(c, h + [a], a.packet.sourceIp);
            && ts == InvalidTimes(c, h, a.packet.sourceIp) + [a.time]
            && (Decide(c, ServerRun(c, h), a).Banished? <==> !RT.KeyAnswer(p, Some(IdleTtl(p)), ts).granted)
  {
    var p := LimiterOf(c);
    LimiterRun(c, h);
    InvalidCallsSnoc(c, h, a);
    InvalidCallsInOrder(c, h + [a]);
    RT.NonInterference(p, Some(IdleTtl(p)), InvalidCalls(c, h), SourceCall(a));
    RT.TimesSnoc(InvalidCalls(c, h), SourceCall(a), a.packet.sourceIp);
  }

  lemma {:induction false} LimiterInterval(c: Config)
    ensures RT.WholeInterval(LimiterOf(c)) && IdleTtl(LimiterOf(c)) == 120 * SECOND
    ensures RT.WholeInterval(TelemetryOf(c))
  {
  }

  /** Ban soundness: a ban answers an invalid packet, after at least `invalid_burst_limit`
      earlier ones of the same source with no pause of 120 seconds between neighbours. */
  lemma {:induction false} BanNeedsBurst(c: Config, h: seq<Arrival>, a: Arrival)
    requires KT.InOrder(h + [a]) && Decide(c, ServerRun(c, h), a).Banished?
    ensures var ts := InvalidTimes(c, h + [a], a.packet.sourceIp);
            && ts == InvalidTimes(c, h, a.packet.sourceIp) + [a.time]
            && c.invalidBurstLimit < |ts|
            && forall i | |ts| - c.invalidBurstLimit <= i < |ts| :: ts[i] - ts[i - 1] < 120 * SECOND
  {
    LimiterInterval(c);
    InvalidIsLocal(c, h, a);
    InvalidTimesRise(c, h + [a], a.packet.sourceIp);
    RT.DenialNeedsBurst(LimiterOf(c), InvalidTimes(c, h + [a], a.packet.sourceIp));
  }

  /** Ban soundness, the rate: within less than a minute up to the banned packet there were
      as many invalid packets of the source before it as the burst or one minute's refill. */
  lemma {:induction false} BanNeedsCrowd(c: Config, h: seq<Arrival>, a: Arrival)
    requires KT.InOrder(h + [a]) && Decide(c, ServerRun(c, h), a).Banished?
    ensures var ts := InvalidTimes(c, h + [a], a.packet.sourceIp);
            && ts == InvalidTimes(c, h, a.packet.sourceIp) + [a.time]
            && RT.Crammed(ts, Least(c.invalidBurstLimit, c.invalidRefillPerMinute), 60 * SECOND)
  {
    LimiterInterval(c);
    InvalidIsLocal(c, h, a);
    InvalidTimesRise(c, h + [a], a.packet.sourceIp);
    RT.DenialNeedsCrowd(LimiterOf(c), InvalidTimes(c, h + [a], a.packet.sourceIp));
  }

  /** Packet `i` of the run came from the source, and was rejected or oversized. */
  predicate InvalidAt(c: Config, h: seq<Arrival>, i: nat, ip: IpAddr)
    requires i < |h|
  {
    var d := Decide(c, ServerRun(c, h[..i]), h[i]);
    h[i].packet.sourceIp == ip && (d.Banished? || d == Answered(K.Rejected) || d == Answered(K.Oversized))
  }

  ghost predicate HasInvalid(c: Config, h: seq<Arrival>, ip: IpAddr, t: Time) {
    exists i: nat :: i < |h| && InvalidAt(c, h, i, ip) && h[i].time == t
  }

  lemma {:induction false} StillInvalid(c: Config, h: seq<Arrival>, a: Arrival, ip: IpAddr, i: nat)
    requires i < |h| && InvalidAt(c, h, i, ip)
    ensures HasInvalid(c, h + [a], ip, h[i].time)
  {
    var all := h + [a];
    assert all[..i] == h[..i] && all[i] == h[i];
    assert InvalidAt(c, all, i, ip);
  }

  lemma {:induction false} LastInvalid(c: Config, h: seq<Arrival>, a: Arrival)
    requires Spends(c, ServerRun(c, h), a)
    ensures HasInvalid(c, h + [a], a.packet.sourceIp, a.time)
  {
    var all, n := h + [a], |h|;
    assert all[..n] == h && all[n] == a;
    assert InvalidAt(c, all, n, a.packet.sourceIp);
  }

  lemma {:induction false} HasInvalidSnoc(c: Config, h: seq<Arrival>, a: Arrival, ip: IpAddr, t: Time)
    requires HasInvalid(c, h, ip, t)
             || (Spends(c, ServerRun(c, h), a) && a.packet.sourceIp == ip && a.time == t)
    ensures HasInvalid(c, h + [a], ip, t)
  {
    if HasInvalid(c, h, ip, t) {
      var i: nat :| i < |h| && InvalidAt(c, h, i, ip) && h[i].time == t;
      StillInvalid(c, h, a, ip, i);
    } else {
      LastInvalid(c, h, a);
    }
  }

  lemma {:induction false} InvalidTimesOccur(c: Config, h: seq<Arrival>, ip: IpAddr)
    ensures forall t | t in InvalidTimes(c, h, ip) :: HasInvalid(c, h, ip, t)
    decreases |h|
  {
    if h != [] {
      var before, a := h[..|h| - 1], h[|h| - 1];
      SplitLast(h);
      InvalidTimesOccur(c, before, ip);
      InvalidTimesSnoc(c, before, a, ip);
      forall t | t in InvalidTimes(c, h, ip)
        ensures HasInvalid(c, h, ip, t)
      {
        HasInvalidSnoc(c, before, a, ip, t);
      }
    }
  }

  lemma {:induction false} BanFollowsInvalid(c: Config, h: seq<Arrival>, a: Arrival) returns (t: Time)
    requires KT.InOrder(h + [a]) && 0 < c.invalidBurstLimit && 0 < c.invalidRefillPerMinute
    requires Decide(c, ServerRun(c, h), a).Banished?
    ensures HasInvalid(c, h, a.packet.sourceIp, t) && a.time < t + 60 * SECOND
  {
    var ts, n := InvalidTimes(c, h, a.packet.sourceIp), Least(c.invalidBurstLimit, c.invalidRefillPerMinute);
    BanNeedsCrowd(c, h, a);
    t := RT.CrammedBefore(ts, a.time, n, 60 * SECOND);
    InvalidTimesOccur(c, h, a.packet.sourceIp);
  }

  /** The tolerance is real: with a burst and a refill to spend, a source is never banned for a
      packet that comes a minute or more after its last invalid one. */
  lemma {:induction false} CalmIsNeverBanned(c: Config, h: seq<Arrival>, a: Arrival)
    requires KT.InOrder(h + [a]) && 0 < c.invalidBurstLimit && 0 < c.invalidRefillPerMinute
    requires forall i: nat | i < |h| && InvalidAt(c, h, i, a.packet.sourceIp) :: h[i].time + 60 * SECOND <= a.time
    ensures !Decide(c, ServerRun(c, h), a).Banished?
  {
    if Decide(c, ServerRun(c, h), a).Banished? {
      var t := BanFollowsInvalid(c, h, a);
    }
  }

  predicate SparedNow(c: Config, st: ServerState, a: Arrival, ip: IpAddr) {
    a.packet.sourceIp == ip && Spends(c, st, a) && Decide(c, st, a).Answered?
  }

  /** Invalid packets of a source that drew no ban. */
  function Spared(c: Config, h: seq<Arrival>, ip: IpAddr): nat {
    if h == [] then 0
    else Spared(c, h[..|h| - 1], ip) + if SparedNow(c, ServerRun(c, h[..|h| - 1]), h[|h| - 1], ip) then 1 else 0
  }

  lemma {:induction false} SparedSnoc(c: Config, h: seq<Arrival>, a: Arrival, ip: IpAddr)
    ensures Spared(c, h + [a], ip) == Spared(c, h, ip) + if SparedNow(c, ServerRun(c, h), a, ip) then 1 else 0
  {
    assert (h + [a])[..|h|] == h;
  }

  lemma {:induction false} InvalidTimesSnoc(c: Config, h: seq<Arrival>, a: Arrival, ip: IpAddr)
    ensures InvalidTimes(c, h + [a], ip) ==
            InvalidTimes(c, h, ip) + if Spends(c, ServerRun(c, h), a) && a.packet.sourceIp == ip then [a.time] else []
  {
    InvalidCallsSnoc(c, h, a);
    RT.TimesSnoc(InvalidCalls(c, h), SourceCall(a), ip);
    assert InvalidTimes(c, h, ip) + [] == InvalidTimes(c, h, ip);
  }

  lemma {:induction false} SparedStep(c: Config, h: seq<Arrival>, a: Arrival, ip: IpAddr)
    requires KT.InOrder(h + [a])
    requires Spared(c, h, ip) == RT.Grants(LimiterOf(c), InvalidTimes(c, h, ip), 0)
    ensures Spared(c, h + [a], ip) == RT.Grants(LimiterOf(c), InvalidTimes(c, h + [a], ip), 0)
  {
    SparedSnoc(c, h, a, ip);
    InvalidTimesSnoc(c, h, a, ip);
    if Spends(c, ServerRun(c, h), a) && a.packet.sourceIp == ip {
      InvalidIsLocal(c, h, a);
      RT.GrantsSnoc(LimiterOf(c), InvalidTimes(c, h, ip), a.time, 0);
    } else {
      assert InvalidTimes(c, h + [a], ip) == InvalidTimes(c, h, ip);
    }
  }

  lemma {:induction false} SparedAreGrants(c: Config, h: seq<Arrival>, ip: IpAddr)
    requires KT.InOrder(h)
    ensures Spared(c, h, ip) == RT.Grants(LimiterOf(c), InvalidTimes(c, h, ip), 0)
    decreases |h|
  {
    if h != [] {
      var before, a := h[..|h| - 1], h[|h| - 1];
      SplitLast(h);
      KT.InOrderSnoc(before, a);
      SparedAreGrants(c, before, ip);
      SparedStep(c, before, a, ip);
    }
  }

  lemma {:induction false} GrantsSplit(p: LimiterParams, ts: seq<Time>, us: seq<Time>)
    ensures RT.Grants(p, ts + us, 0) == RT.Grants(p, ts, 0) + RT.Grants(p, ts + us, |ts|)
    decreases |us|
  {
    if us == [] {
      assert ts + us == ts;
    } else {
      assert (ts + us)[..|ts + us| - 1] == ts + us[..|us| - 1];
      GrantsSplit(p, ts, us[..|us| - 1]);
    }
  }

  /** The instants that a further stretch adds. */
  function AddedTimes(c: Config, h: seq<Arrival>, more: seq<Arrival>, ip: IpAddr): seq<Time>
    decreases |more|
  {
    if more == [] then []
    else
      var front, a := more[..|more| - 1], more[|more| - 1];
      AddedTimes(c, h, front, ip)
      + if Spends(c, ServerRun(c, h + front), a) && a.packet.sourceIp == ip then [a.time] else []
  }

  lemma {:induction false} InvalidTimesExtend(c: Config, h: seq<Arrival>, more: seq<Arrival>, ip: IpAddr)
    ensures InvalidTimes(c, h + more, ip) == InvalidTimes(c, h, ip) + AddedTimes(c, h, more, ip)
    decreases |more|
  {
    if more == [] {
      assert h + more == h;
    } else {
      var front, a := more[..|more| - 1], more[|more| - 1];
      SplitLastAfter(h, more);
      InvalidTimesExtend(c, h, front, ip);
      InvalidTimesSnoc(c, h + front, a, ip);
    }
  }

  lemma {:induction false} AddedTimesSnoc(c: Config, h: seq<Arrival>, front: seq<Arrival>, a: Arrival, ip: IpAddr)
    ensures var before := AddedTimes(c, h, front, ip);
            AddedTimes(c, h, front + [a], ip) == before || AddedTimes(c, h, front + [a], ip) == before + [a.time]
  {
    assert (front + [a])[..|front|] == front;
  }

  ghost predicate Within(ts: seq<Time>, first: Time, last: Time) {
    forall i | 0 <= i < |ts| :: first <= ts[i] <= last
  }

  /** All of the stretch lies between the two instants. */
  ghost predicate Spans(more: seq<Arrival>, first: Time, last: Time) {
    forall i | 0 <= i < |more| :: first <= more[i].time <= last
  }

  lemma {:induction false} SpansFrom(front: seq<Arrival>, a: Arrival, first: Time, last: Time)
    requires Spans(front, first, last) && last <= a.time && first <= a.time
    ensures Spans(front + [a], first, a.time)
  {
  }

  lemma {:induction false} InOrderSpans(h: seq<Arrival>, more: seq<Arrival>)
    requires KT.InOrder(h + more) && more != []
    ensures Spans(more, more[0].time, more[|more| - 1].time) && more[0].time <= more[|more| - 1].time
    decreases |more|
  {
    var front, a := more[..|more| - 1], more[|more| - 1];
    SplitLast(more);
    FrontInOrder(h, front, a);
    if front == [] {
      SpansFrom(front, a, a.time, a.time);
    } else {
      InOrderSpans(h, front);
      SpansFrom(front, a, front[0].time, front[|front| - 1].time);
    }
  }

  lemma {:induction false} WithinNext(ts: seq<Time>, all: seq<Time>, first: Time, last: Time, t: Time)
    requires Within(ts, first, last) && first <= t <= last && (all == ts || all == ts + [t])
    ensures Within(all, first, last)
  {
  }

  lemma {:induction false} AddedTimesWithin(c: Config, h: seq<Arrival>, more: seq<Arrival>, ip: IpAddr, first: Time,
                                            last: Time)
    returns (ts: seq<Time>)
    requires Spans(more, first, last)
    ensures ts == AddedTimes(c, h, more, ip) && Within(ts, first, last)
    decreases |more|
  {
    ts := AddedTimes(c, h, more, ip);
    if more != [] {
      var front, a := more[..|more| - 1], more[|more| - 1];
      SplitLast(more);
      var us := AddedTimesWithin(c, h, front, ip, first, last);
      AddedTimesSnoc(c, h, front, a, ip);
      WithinNext(us, ts, first, last, a.time);
    }
  }

  lemma {:induction false} FrontInOrder(h: seq<Arrival>, front: seq<Arrival>, a: Arrival)
    requires KT.InOrder(h + (front + [a]))
    ensures KT.InOrder(h + front) && (front != [] ==> front[|front| - 1].time <= a.time)
  {
    assert h + (front + [a]) == (h + front) + [a];
    KT.InOrderSnoc(h + front, a);
    assert front != [] ==> (h + front)[|h + front| - 1] == front[|front| - 1];
  }

  lemma {:induction false} GrantsBounded(p: LimiterParams, ts: seq<Time>, us: seq<Time>, first: Time, span: nat)
    requires RT.WholeInterval(p) && RT.Rising(ts + us) && Within(us, first, first + span)
    ensures RT.Grants(p, ts + us, 0) <= RT.Grants(p, ts, 0) + RT.StretchBound(p, span)
  {
    GrantsSplit(p, ts, us);
    if us != [] {
      var all := ts + us;
      assert all[|ts|] == us[0] && all[|all| - 1] == us[|us| - 1];
      RT.RateBound(p, all, |ts|, span);
    }
  }

  lemma {:induction false} InOrderPrefix(h: seq<Arrival>, more: seq<Arrival>)
    requires KT.InOrder(h + more)
    ensures KT.InOrder(h)
    decreases |more|
  {
    if more == [] {
      assert h + more == h;
    } else {
      SplitLastAfter(h, more);
      KT.InOrderSnoc(h + more[..|more| - 1], more[|more| - 1]);
      InOrderPrefix(h, more[..|more| - 1]);
    }
  }

  lemma {:induction false} SparedAdded(c: Config, h: seq<Arrival>, more: seq<Arrival>, ip: IpAddr)
    returns (ts: seq<Time>, us: seq<Time>, before: nat, after: nat)
    requires KT.InOrder(h + more)
    ensures us == AddedTimes(c, h, more, ip) && RT.Rising(ts + us)
    ensures before == RT.Grants(LimiterOf(c), ts, 0) && after == RT.Grants(LimiterOf(c), ts + us, 0)
    ensures Spared(c, h, ip) == before && Spared(c, h + more, ip) == after
  {
    ts, us := InvalidTimes(c, h, ip), AddedTimes(c, h, more, ip);
    before, after := Spared(c, h, ip), Spared(c, h + more, ip);
    InOrderPrefix(h, more);
    SparedAreGrants(c, h + more, ip);
    SparedAreGrants(c, h, ip);
    InvalidTimesExtend(c, h, more, ip);
    InvalidTimesRise(c, h + more, ip);
  }

  /** The burst, and for each minute begun in the span the refill or half the burst, whichever
      is more. */
  function ToleranceBound(c: Config, span: nat): int {
    c.invalidBurstLimit + Max(c.invalidRefillPerMinute, (c.invalidBurstLimit + 1) / 2) * (span / (60 * SECOND) + 1)
  }

  lemma {:induction false} ToleranceOfLimiter(c: Config, span: nat)
    ensures RT.StretchBound(LimiterOf(c), span) == ToleranceBound(c, span)
  {
  }

  /** The tolerance for invalid packets: whatever came before, in any further stretch of
      the run a source gets away with at most so many. */
  lemma {:induction false} ToleranceIsBounded(c: Config, h: seq<Arrival>, more: seq<Arrival>, ip: IpAddr, span: nat)
    requires KT.InOrder(h + more) && more != [] && more[|more| - 1].time <= more[0].time + span
    ensures Spared(c, h + more, ip) <= Spared(c, h, ip) + ToleranceBound(c, span)
  {
    InOrderSpans(h, more);
    var added := AddedTimesWithin(c, h, more, ip, more[0].time, more[|more| - 1].time);
    LimiterInterval(c);
    var ts, us, before, after := SparedAdded(c, h, more, ip);
    GrantsBounded(LimiterOf(c), ts, us, more[0].time, span);
    ToleranceOfLimiter(c, span);
  }

  // ---------------------------------------------------------------------------
  // How long a ban lasts
  // ---------------------------------------------------------------------------

  /** The ban of this packet goes into the map. */
  predicate Recorded(c: Config, st: ServerState, a: Arrival) {
    Decide(c, st, a).Banished? && |StillBanned(st.banned, a.time)| < c.maxPartialStates
  }

  /** From a recorded ban on, until its expiry, the map holds the source with that expiry,
      and later not with any other unless the source was heard again. */
  ghost predicate BanStands(st: ServerState, ip: IpAddr, expiry: Time, now: Time) {
    (now < expiry ==> ip in st.banned) && (ip in st.banned ==> st.banned[ip] == expiry)
  }

  lemma {:induction false} BanStandsStep(c: Config, st: ServerState, a: Arrival, ip: IpAddr, expiry: Time, now: Time)
    requires BanStands(st, ip, expiry, now) && now <= a.time
    requires a.packet.sourceIp == ip ==> a.time < expiry
    ensures BanStands(Next(c, st, a), ip, expiry, a.time)
    ensures a.packet.sourceIp == ip ==> Decide(c, st, a) == Ignored
  {
    assert a.time < expiry <==> ip in StillBanned(st.banned, a.time);
  }

  /** No packet of `ip` in the stretch comes at or after `expiry`. */
  ghost predicate QuietFrom(more: seq<Arrival>, ip: IpAddr, expiry: Time) {
    forall i | 0 <= i < |more| && more[i].packet.sourceIp == ip :: more[i].time < expiry
  }

  lemma {:induction false} BanStandsOn(c: Config, g: seq<Arrival>, more: seq<Arrival>, ip: IpAddr, expiry: Time)
    requires KT.InOrder(g + more) && g != [] && QuietFrom(more, ip, expiry)
    requires BanStands(ServerRun(c, g), ip, expiry, g[|g| - 1].time)
    ensures BanStands(ServerRun(c, g + more), ip, expiry, (g + more)[|g + more| - 1].time)
    decreases |more|
  {
    if more == [] {
      assert g + more == g;
    } else {
      var front, b := more[..|more| - 1], more[|more| - 1];
      var all := g + front;
      SplitLastAfter(g, more);
      KT.InOrderSnoc(all, b);
      BanStandsOn(c, g, front, ip, expiry);
      ServerRunSnoc(c, all, b);
      BanStandsStep(c, ServerRun(c, all), b, ip, expiry, all[|all| - 1].time);
    }
  }

  lemma {:induction false} BanBegins(c: Config, h: seq<Arrival>, a: Arrival)
    requires Recorded(c, ServerRun(c, h), a)
    ensures BanStands(ServerRun(c, h + [a]), a.packet.sourceIp, a.time + c.banTimeout * SECOND, a.time)
  {
    ServerRunSnoc(c, h, a);
  }

  lemma {:induction false} BanPersists(c: Config, h: seq<Arrival>, a: Arrival, more: seq<Arrival>)
    requires KT.InOrder(h + [a] + more) && Recorded(c, ServerRun(c, h), a)
    requires QuietFrom(more, a.packet.sourceIp, a.time + c.banTimeout * SECOND)
    ensures var all := h + [a] + more;
            BanStands(ServerRun(c, all), a.packet.sourceIp, a.time + c.banTimeout * SECOND, all[|all| - 1].time)
  {
    BanBegins(c, h, a);
    BanStandsOn(c, h + [a], more, a.packet.sourceIp, a.time + c.banTimeout * SECOND);
  }

  /** Ban spacing: once a ban is recorded, every packet of the source before its expiry
      is ignored, so no allow and no ban is issued for it; and its first packet at or
      after the expiry is processed again. Whether any command succeeded plays no part. */
  lemma {:induction false} BanLastsExactly(c: Config, h: seq<Arrival>, a: Arrival, more: seq<Arrival>, b: Arrival)
    requires KT.InOrder(h + [a] + more + [b]) && Recorded(c, ServerRun(c, h), a)
    requires b.packet.sourceIp == a.packet.sourceIp
    requires QuietFrom(more, a.packet.sourceIp, a.time + c.banTimeout * SECOND)
    ensures Decide(c, ServerRun(c, h + [a] + more), b) == Ignored <==> b.time < a.time + c.banTimeout * SECOND
  {
    var all := h + [a] + more;
    KT.InOrderSnoc(all, b);
    BanPersists(c, h, a, more);
    var st := ServerRun(c, all);
    assert b.packet.sourceIp in StillBanned(st.banned, b.time) <==> b.time < a.time + c.banTimeout * SECOND;
  }

  /** A source is banned again before its first ban is over only if the map was full
      when the first ban was to be recorded. */
  lemma {:induction false} EarlyRepeatMeansFull(c: Config, h: seq<Arrival>, a: Arrival, more: seq<Arrival>, b: Arrival)
    requires KT.InOrder(h + [a] + more + [b]) && b.packet.sourceIp == a.packet.sourceIp
    requires Decide(c, ServerRun(c, h), a).Banished?
    requires CommandFor(c, b.packet.sourceIp, Decide(c, ServerRun(c, h + [a] + more), b)).Some?
    requires b.time < a.time + c.banTimeout * SECOND
    ensures |StillBanned(ServerRun(c, h).banned, a.time)| == c.maxPartialStates
  {
    var all := h + [a] + more;
    MapsAlwaysSound(c, h);
    RememberedSound(c, ServerRun(c, h).banned, a.packet.sourceIp, a.time);
    if Recorded(c, ServerRun(c, h), a) {
      KT.InOrderSnoc(all, b);
      AllBefore(h + [a], more, b.time);
      BanLastsExactly(c, h, a, more, b);
    }
  }

  ghost predicate NoneFrom(more: seq<Arrival>, ip: IpAddr) {
    forall i | 0 <= i < |more| :: more[i].packet.sourceIp != ip
  }

  lemma {:induction false} UnbannedStep(c: Config, st: ServerState, a: Arrival, ip: IpAddr)
    requires ip !in st.banned && a.packet.sourceIp != ip
    ensures ip !in Next(c, st, a).banned
  {
  }

  lemma {:induction false} UnbannedStays(c: Config, g: seq<Arrival>, more: seq<Arrival>, ip: IpAddr)
    requires ip !in ServerRun(c, g).banned && NoneFrom(more, ip)
    ensures ip !in ServerRun(c, g + more).banned
    decreases |more|
  {
    if more == [] {
      assert g + more == g;
    } else {
      var front, b := more[..|more| - 1], more[|more| - 1];
      SplitLastAfter(g, more);
      UnbannedStays(c, g, front, ip);
      ServerRunSnoc(c, g + front, b);
      UnbannedStep(c, ServerRun(c, g + front), b, ip);
    }
  }

  lemma {:induction false} UnrecordedBan(c: Config, st: ServerState, a: Arrival)
    requires Decide(c, st, a).Banished? && !Recorded(c, st, a)
    ensures a.packet.sourceIp !in Next(c, st, a).banned
  {
    DecisionTracks(c, st, a, Tracked(c, st.tracker, a));
  }

  /** The ban of a source holds for its next packet if and only if the map had room for it:
      with a full map a source is banned by a command, and yet its next packet is processed. */
  lemma {:induction false} BanHoldsIffRoom(c: Config, h: seq<Arrival>, a: Arrival, more: seq<Arrival>, b: Arrival)
    requires KT.InOrder(h + [a] + more + [b]) && Decide(c, ServerRun(c, h), a).Banished?
    requires b.packet.sourceIp == a.packet.sourceIp && NoneFrom(more, a.packet.sourceIp)
    requires b.time < a.time + c.banTimeout * SECOND
    ensures Decide(c, ServerRun(c, h + [a] + more), b) == Ignored
            <==> |StillBanned(ServerRun(c, h).banned, a.time)| < c.maxPartialStates
  {
    if Recorded(c, ServerRun(c, h), a) {
      BanLastsExactly(c, h, a, more, b);
    } else {
      var st := ServerRun(c, h + [a] + more);
      UnrecordedBan(c, ServerRun(c, h), a);
      ServerRunSnoc(c, h, a);
      UnbannedStays(c, h + [a], more, a.packet.sourceIp);
      DecisionTracks(c, st, b, Tracked(c, st.tracker, b));
    }
  }

  lemma {:induction false} AllBefore(h: seq<Arrival>, more: seq<Arrival>, t: Time)
    requires KT.InOrder(h + more) && (h + more != [] ==> (h + more)[|h + more| - 1].time <= t)
    ensures forall i | 0 <= i < |more| :: more[i].time <= t
    decreases |more|
  {
    if more != [] {
      var front, b := more[..|more| - 1], more[|more| - 1];
      SplitLastAfter(h, more);
      KT.InOrderSnoc(h + front, b);
      AllBefore(h, front, t);
    }
  }

  // ---------------------------------------------------------------------------
  // Truncated reads and telemetry
  // ---------------------------------------------------------------------------

  const ICMP_HEADER_LEN := 8

  /** What arrives at a socket. The length of an ICMP message counts its header. */
  datatype Datagram = Datagram(sourceIp: IpAddr, protocol: Protocol, port: Option<u16>, length: nat, time: Time)

  function BufferSize(c: Config, protocol: Protocol): nat {
    c.maxPayloadSize + if protocol == Icmp then ICMP_HEADER_LEN + 1 else 1
  }

  /** The payload in so many bytes; a message shorter than its header has none. */
  function PayloadSize(protocol: Protocol, length: nat): nat {
    if protocol != Icmp then length else if length < ICMP_HEADER_LEN then 0 else length - ICMP_HEADER_LEN
  }

  /** The packet with its true size. */
  function Sent(x: Datagram): Arrival {
    K.Arrival(K.KnockPacket(x.sourceIp, x.protocol, x.port, PayloadSize(x.protocol, x.length)), x.time)
  }

  /** The packet as the daemon learns of it: what does not fit the buffer is cut off. */
  function Heard(c: Config, x: Datagram): Arrival {
    var size := BufferSize(c, x.protocol);
    Sent(x.(length := if x.length <= size then x.length else size))
  }

  function SentRun(xs: seq<Datagram>): seq<Arrival> {
    if xs == [] then [] else SentRun(xs[..|xs| - 1]) + [Sent(xs[|xs| - 1])]
  }

  function HeardRun(c: Config, xs: seq<Datagram>): seq<Arrival> {
    if xs == [] then [] else HeardRun(c, xs[..|xs| - 1]) + [Heard(c, xs[|xs| - 1])]
  }

  /** Equal but for the sizes, and both too long. */
  predicate BothOversized(c: Config, a: Arrival, b: Arrival) {
    && b == a.(packet := a.packet.(payloadSize := b.packet.payloadSize))
    && c.maxPayloadSize < a.packet.payloadSize && c.maxPayloadSize < b.packet.payloadSize
  }

  lemma {:induction false} CutIsOversized(c: Config, x: Datagram)
    ensures Heard(c, x) == Sent(x) || BothOversized(c, Sent(x), Heard(c, x))
  {
  }

  lemma {:induction false} OversizedAlike(c: Config, st: ServerState, a: Arrival, b: Arrival)
    requires BothOversized(c, a, b)
    ensures Decide(c, st, a) == Decide(c, st, b) && Next(c, st, a) == Next(c, st, b)
  {
    assert Tracked(c, st.tracker, a) == Tracked(c, st.tracker, b);
    DecisionCases(c, st, a);
    DecisionCases(c, st, b);
  }

  lemma {:induction false} CutIsUnseen(c: Config, st: ServerState, x: Datagram)
    ensures Decide(c, st, Heard(c, x)) == Decide(c, st, Sent(x)) && Next(c, st, Heard(c, x)) == Next(c, st, Sent(x))
  {
    CutIsOversized(c, x);
    if Heard(c, x) != Sent(x) {
      OversizedAlike(c, st, Sent(x), Heard(c, x));
    }
  }

  /** Receive buffers with room for one byte more than the largest payload (and for the
      header, where it is delivered) lose nothing: on whole runs every state and every
      decision is the one that the true sizes give. */
  lemma {:induction false} BuffersSuffice(c: Config, xs: seq<Datagram>, x: Datagram)
    ensures var size := Sent(x).packet.payloadSize;
            if x.protocol != Icmp then size == x.length else if x.length < 8 then size == 0 else size + 8 == x.length
    ensures ServerRun(c, HeardRun(c, xs)) == ServerRun(c, SentRun(xs))
    ensures Decide(c, ServerRun(c, HeardRun(c, xs)), Heard(c, x)) == Decide(c, ServerRun(c, SentRun(xs)), Sent(x))
    decreases |xs|
  {
    if xs != [] {
      var before, y := xs[..|xs| - 1], xs[|xs| - 1];
      BuffersSuffice(c, before, y);
      ServerRunSnoc(c, HeardRun(c, before), Heard(c, y));
      ServerRunSnoc(c, SentRun(before), Sent(y));
      CutIsUnseen(c, ServerRun(c, SentRun(before)), y);
    }
    CutIsUnseen(c, ServerRun(c, SentRun(xs)), x);
  }

  lemma {:induction false} LogLevelStep(c: Config, d: Config, st: ServerState, su: ServerState, a: Arrival)
    requires d == c.(logLevel := d.logLevel) && su == st.(telemetry := su.telemetry)
    ensures Decide(d, su, a) == Decide(c, st, a)
    ensures Next(d, su, a) == Next(c, st, a).(telemetry := Next(d, su, a).telemetry)
  {
    LogLevelDecides(c, d, st, su, a);
    LogLevelNext(c, d, st, su, a);
  }

  lemma {:induction false} LogLevelNext(c: Config, d: Config, st: ServerState, su: ServerState, a: Arrival)
    requires d == c.(logLevel := d.logLevel) && su == st.(telemetry := su.telemetry)
    requires Decide(d, su, a) == Decide(c, st, a)
    ensures NextTracker(d, su, a) == NextTracker(c, st, a) && NextLimiter(d, su, a) == NextLimiter(c, st, a)
  {
    var r := Tracked(c, st.tracker, a);
    DecisionTracks(c, st, a, r);
    DecisionTracks(d, su, a, r);
    LogLevelSpends(c, d, st, su, a);
  }

  lemma {:induction false} LogLevelSpends(c: Config, d: Config, st: ServerState, su: ServerState, a: Arrival)
    requires LimiterOf(d) == LimiterOf(c) && su.limiter == st.limiter && Decide(d, su, a) == Decide(c, st, a)
    ensures NextLimiter(d, su, a) == NextLimiter(c, st, a)
  {
    assert Spends(d, su, a) == Spends(c, st, a);
  }

  lemma {:induction false} LogLevelDecides(c: Config, d: Config, st: ServerState, su: ServerState, a: Arrival)
    requires d == c.(logLevel := d.logLevel) && su == st.(telemetry := su.telemetry)
    ensures TrackerOf(d) == TrackerOf(c) && LimiterOf(d) == LimiterOf(c)
    ensures Decide(d, su, a) == Decide(c, st, a)
  {
    var r := Tracked(c, st.tracker, a);
    var granted := Invalid(r.outcome) ==> Tolerated(c, st.limiter, a).granted;
    DecisionCase(c, st, a, r, granted);
    DecisionCase(d, su, a, r, granted);
  }

  /** Telemetry is an onlooker: the log level changes no decision and nothing that
      decisions depend on. */
  lemma {:induction false} LogLevelIsIrrelevant(c: Config, d: Config, h: seq<Arrival>, a: Arrival)
    requires d == c.(logLevel := d.logLevel)
    ensures ServerRun(d, h) == ServerRun(c, h).(telemetry := ServerRun(d, h).telemetry)
    ensures Decide(d, ServerRun(d, h), a) == Decide(c, ServerRun(c, h), a)
    decreases |h|
  {
    if h != [] {
      var before, b := h[..|h| - 1], h[|h| - 1];
      LogLevelIsIrrelevant(c, d, before, b);
      LogLevelStep(c, d, ServerRun(c, before), ServerRun(d, before), b);
    }
    LogLevelStep(c, d, ServerRun(c, h), ServerRun(d, h), a);
  }
}
