/** What the tracker computes, said without the automaton: a packet completes the
    knock exactly when the last packets of its source spell the sequence in time. */
module KnockTheory {
  import opened Base
  import opened Settings
  import opened Knock

  // ---------------------------------------------------------------------------
  // The declarative side: a source's packets and the timed suffixes among them
  // ---------------------------------------------------------------------------

  /** A packet as its source's history records it. `open` says that a knock was
      free to begin with it. */
  datatype Sighting = Sighting(packet: KnockPacket, time: Time, open: bool)

  type Trace = seq<Sighting>

  ghost predicate Chronological(tr: Trace) {
    forall i, j | 0 <= i <= j < |tr| :: tr[i].time <= tr[j].time
  }

  /** The packet is the one that step `k` asks for: its protocol, port and payload size. */
  predicate Fits(p: TrackerParams, k: nat, packet: KnockPacket) {
    && k < |p.sequence| && packet.payloadSize <= p.maxPayloadSize
    && packet.protocol == p.sequence[k].protocol && packet.port == p.sequence[k].port
    && packet.payloadSize == p.sequence[k].size
  }

  /** The window is a beginning of the sequence, short enough and with no long gap. */
  ghost predicate Spells(p: TrackerParams, w: Trace) {
    && 1 <= |w| <= |p.sequence|
    && (forall i | 0 <= i < |w| :: Fits(p, i, w[i].packet))
    && w[|w| - 1].time - w[0].time <= p.sequenceWindow
    && (forall i | 0 < i < |w| :: w[i].time - w[i - 1].time <= p.partialStateTimeout)
  }

  /** The last `k` packets spell the first `k` steps, and the knock was free to begin. */
  ghost predicate Matched(p: TrackerParams, tr: Trace, k: nat) {
    1 <= k <= |tr| && Spells(p, tr[|tr| - k..]) && tr[|tr| - k].open
  }

  // ---------------------------------------------------------------------------
  // The automaton of one source
  // ---------------------------------------------------------------------------

  /** The entry as seen at `now`: one that has expired is as good as none. */
  function Visible(p: TrackerParams, st: Option<SourceState>, now: Time): Option<SourceState> {
    if st.Some? && Live(p, st.value, now) then st else None
  }

  function SourceRun(p: TrackerParams, tr: Trace): Option<SourceState>
    decreases |tr|, 1
  {
    if tr == [] then None else SourceResult(p, tr).entry
  }

  /** Outcome and entry after the last packet of a nonempty trace. */
  function SourceResult(p: TrackerParams, tr: Trace): Reply
    requires tr != []
    decreases |tr|, 0
  {
    var e := tr[|tr| - 1];
    SourceStep(p, Visible(p, SourceRun(p, tr[..|tr| - 1]), e.time), e.packet, e.time, e.open)
  }

  lemma {:induction false} SourceRunSnoc(p: TrackerParams, tr: Trace, e: Sighting)
    ensures SourceResult(p, tr + [e]) ==
              SourceStep(p, Visible(p, SourceRun(p, tr), e.time), e.packet, e.time, e.open)
    ensures SourceRun(p, tr + [e]) == SourceResult(p, tr + [e]).entry
  {
    assert (tr + [e])[..|tr|] == tr;
  }

  /** The entry, if any, is the record of the match it stands for. */
  ghost predicate Records(p: TrackerParams, tr: Trace, st: Option<SourceState>) {
    if st.None? then
      forall k | 1 <= k < |p.sequence| :: !Matched(p, tr, k)
    else
      var s := st.value;
      && 1 <= s.nextStep < |p.sequence|
      && Matched(p, tr, s.nextStep)
      && s.firstSeen == tr[|tr| - s.nextStep].time
      && s.lastSeen == tr[|tr| - 1].time
  }

  /** The border argument: two suffixes can both match only if step 0 occurs twice. */
  lemma {:induction false} SharedBorder(p: TrackerParams, tr: Trace, k: nat, l: nat)
    requires k < l && Matched(p, tr, k) && Matched(p, tr, l)
    ensures 0 < l - k < |p.sequence| && p.sequence[l - k] == p.sequence[0]
  {
    assert tr[|tr| - l..][l - k] == tr[|tr| - k..][0];
  }

  lemma {:induction false} MatchUnique(p: TrackerParams, tr: Trace, k: nat, l: nat)
    requires NonRecurring(p.sequence)
    requires Matched(p, tr, k) && Matched(p, tr, l)
    ensures k == l
  {
    if k < l {
      SharedBorder(p, tr, k, l);
    } else if l < k {
      SharedBorder(p, tr, l, k);
    }
  }

  lemma {:induction false} SpellsExtends(p: TrackerParams, v: Trace, e: Sighting)
    requires v != [] && v[0].time <= v[|v| - 1].time <= e.time
    ensures Spells(p, v + [e]) <==>
              && Spells(p, v) && Fits(p, |v|, e.packet)
              && e.time - v[0].time <= p.sequenceWindow
              && e.time - v[|v| - 1].time <= p.partialStateTimeout
  {
    var w := v + [e];
    assert w[..|v|] == v && w[|v|] == e;
    if Spells(p, w) {
      assert Fits(p, |v|, w[|v|].packet);
      assert forall i | 0 <= i < |v| :: v[i] == w[i];
      assert w[|v|].time - w[|v| - 1].time <= p.partialStateTimeout;
    }
  }

  lemma {:induction false} RecordPrecedes(tr: Trace, e: Sighting, k: nat)
    requires Chronological(tr + [e]) && 1 <= k <= |tr|
    ensures tr[|tr| - k].time <= tr[|tr| - 1].time <= e.time
  {
    var all := tr + [e];
    assert tr[|tr| - k] == all[|tr| - k] && tr[|tr| - 1] == all[|tr| - 1] && all[|tr|] == e;
  }

  /** A longer match is a match one packet ago, extended in time. */
  lemma {:induction false} MatchExtends(p: TrackerParams, tr: Trace, e: Sighting, k: nat)
    requires 1 <= k <= |tr| && Chronological(tr + [e])
    ensures Matched(p, tr + [e], k + 1) <==>
              && Matched(p, tr, k) && Fits(p, k, e.packet)
              && e.time - tr[|tr| - k].time <= p.sequenceWindow
              && e.time - tr[|tr| - 1].time <= p.partialStateTimeout
  {
    var v, all := tr[|tr| - k..], tr + [e];
    assert all[|all| - (k + 1)..] == v + [e];
    RecordPrecedes(tr, e, k);
    SpellsExtends(p, v, e);
  }

  lemma {:induction false} MatchBegins(p: TrackerParams, tr: Trace, e: Sighting)
    ensures Matched(p, tr + [e], 1) <==> Fits(p, 0, e.packet) && e.open
  {
    assert (tr + [e])[|tr|..] == [e];
  }

  /** The packet takes the source to `k` matched steps: it begins a knock, or it is
      the step that the entry waits for. */
  predicate Takes(p: TrackerParams, st: Option<SourceState>, e: Sighting, k: nat) {
    if k == 1 then Fits(p, 0, e.packet) && e.open
    else 2 <= k && st.Some? && st.value.nextStep == k - 1 && Fits(p, k - 1, e.packet)
  }

  /** A match that is under way is the one on record. */
  lemma {:induction false} RecordOf(p: TrackerParams, tr: Trace, st: Option<SourceState>, k: nat)
    requires NonRecurring(p.sequence) && Records(p, tr, st) && k < |p.sequence|
    ensures Matched(p, tr, k) <==> st.Some? && st.value.nextStep == k
    ensures Matched(p, tr, k) ==> st == Some(SourceState(k, tr[|tr| - k].time, tr[|tr| - 1].time))
  {
    if st.Some? && Matched(p, tr, k) {
      MatchUnique(p, tr, k, st.value.nextStep);
    }
  }

  lemma {:induction false} MatchByState(p: TrackerParams, tr: Trace, st: Option<SourceState>, e: Sighting, k: nat)
    requires NonRecurring(p.sequence) && Chronological(tr + [e]) && k <= |p.sequence|
    requires Records(p, tr, st)
    ensures Matched(p, tr + [e], k) <==> Takes(p, Visible(p, st, e.time), e, k)
  {
    if k == 1 {
      MatchBegins(p, tr, e);
    } else if 1 < k <= |tr| + 1 {
      MatchExtends(p, tr, e, k - 1);
      RecordOf(p, tr, st, k - 1);
      RecordPrecedes(tr, e, k - 1);
    }
  }

  /** Without a second step 0 the packet takes the source to one number of steps at
      most, and the automaton answers with that number. */
  lemma {:induction false} ReplyTakes(p: TrackerParams, st: Option<SourceState>, e: Sighting)
    requires NonRecurring(p.sequence) && 2 <= |p.sequence|
    requires st.Some? ==> 1 <= st.value.nextStep < |p.sequence|
    ensures var outcome := SourceStep(p, st, e.packet, e.time, e.open).outcome;
            && (outcome == Accepted <==> Takes(p, st, e, |p.sequence|))
            && (forall k: nat :: outcome == Progress(k) <==> k < |p.sequence| && Takes(p, st, e, k))
            && (outcome == Oversized <==> e.packet.payloadSize > p.maxPayloadSize)
  {
    if st.Some? && Fits(p, st.value.nextStep, e.packet) {
      assert !Fits(p, 0, e.packet);
    }
  }

  /** What a trace is answered with, by matches alone. */
  ghost predicate AnsweredByMatch(p: TrackerParams, tr: Trace, outcome: KnockOutcome)
    requires tr != []
  {
    && (outcome == Accepted <==> Matched(p, tr, |p.sequence|))
    && (forall k: nat :: outcome == Progress(k) <==> k < |p.sequence| && Matched(p, tr, k))
    && (outcome == Oversized <==> tr[|tr| - 1].packet.payloadSize > p.maxPayloadSize)
  }

  /** The matches after one more packet are those that it takes the source to. */
  ghost predicate MatchesAre(p: TrackerParams, tr: Trace, seen: Option<SourceState>, e: Sighting) {
    forall k: nat | k <= |p.sequence| :: Matched(p, tr, k) <==> Takes(p, seen, e, k)
  }

  lemma {:induction false} MatchesByState(p: TrackerParams, tr: Trace, st: Option<SourceState>, e: Sighting)
    requires NonRecurring(p.sequence) && Chronological(tr + [e]) && Records(p, tr, st)
    ensures MatchesAre(p, tr + [e], Visible(p, st, e.time), e)
  {
    forall k: nat | k <= |p.sequence|
      ensures Matched(p, tr + [e], k) <==> Takes(p, Visible(p, st, e.time), e, k)
    {
      MatchByState(p, tr, st, e, k);
    }
  }

  lemma {:induction false} NewRecord(p: TrackerParams, tr: Trace, st: Option<SourceState>, e: Sighting, r: Reply)
    requires NonRecurring(p.sequence) && 2 <= |p.sequence| && Records(p, tr, st)
    requires MatchesAre(p, tr + [e], Visible(p, st, e.time), e)
    requires r == SourceStep(p, Visible(p, st, e.time), e.packet, e.time, e.open)
    ensures Records(p, tr + [e], r.entry)
  {
    ReplyTakes(p, Visible(p, st, e.time), e);
    assert (tr + [e])[|tr|] == e;
    if r.entry.Some? && r.entry.value.nextStep > 1 {
      assert tr[|tr| - st.value.nextStep] == (tr + [e])[|tr| - st.value.nextStep];
    }
  }

  lemma {:induction false} AutomatonStep(p: TrackerParams, tr: Trace, st: Option<SourceState>, e: Sighting)
    requires NonRecurring(p.sequence) && 2 <= |p.sequence| && Chronological(tr + [e])
    requires Records(p, tr, st)
    ensures var r := SourceStep(p, Visible(p, st, e.time), e.packet, e.time, e.open);
            Records(p, tr + [e], r.entry) && AnsweredByMatch(p, tr + [e], r.outcome)
  {
    var seen := Visible(p, st, e.time);
    var r := SourceStep(p, seen, e.packet, e.time, e.open);
    ReplyTakes(p, seen, e);
    MatchesByState(p, tr, st, e);
    NewRecord(p, tr, st, e, r);
    assert (tr + [e])[|tr|] == e;
  }

  lemma {:induction false} ChronologicalPrefix(tr: Trace, e: Sighting)
    requires Chronological(tr + [e])
    ensures Chronological(tr)
  {
    assert forall i | 0 <= i < |tr| :: tr[i] == (tr + [e])[i];
  }

  /** After any trace the entry of the source records its one unfinished match, and
      the last outcome tells which match that packet completed or advanced. */
  lemma {:induction false} AutomatonExact(p: TrackerParams, tr: Trace)
    requires NonRecurring(p.sequence) && 2 <= |p.sequence| && Chronological(tr)
    ensures Records(p, tr, SourceRun(p, tr))
    ensures tr != [] ==> AnsweredByMatch(p, tr, SourceResult(p, tr).outcome)
    decreases |tr|
  {
    if tr != [] {
      var prev, e := tr[..|tr| - 1], tr[|tr| - 1];
      SplitLast(tr);
      ChronologicalPrefix(prev, e);
      AutomatonExact(p, prev);
      SourceRunSnoc(p, prev, e);
      AutomatonStep(p, prev, SourceRun(p, prev), e);
    }
  }

  // ---------------------------------------------------------------------------
  // Nothing without a match, whatever the sequence
  // ---------------------------------------------------------------------------

  /** The entry, if any, stands for a match under way. */
  ghost predicate Backed(p: TrackerParams, tr: Trace, st: Option<SourceState>) {
    st.Some? ==>
      var s := st.value;
      && 1 <= s.nextStep < |p.sequence| && Matched(p, tr, s.nextStep)
      && s == SourceState(s.nextStep, tr[|tr| - s.nextStep].time, tr[|tr| - 1].time)
  }

  /** Acceptance and progress are the answers to matches only. */
  ghost predicate Earned(p: TrackerParams, tr: Trace, outcome: KnockOutcome) {
    && (outcome == Accepted ==> Matched(p, tr, |p.sequence|))
    && (outcome.Progress? ==> outcome.nextStep < |p.sequence| && Matched(p, tr, outcome.nextStep))
  }

  /** Whatever the answer, it is for a step that the packet takes. */
  lemma {:induction false} ReplyIsTaken(p: TrackerParams, st: Option<SourceState>, e: Sighting)
    requires 2 <= |p.sequence| && (st.Some? ==> 1 <= st.value.nextStep < |p.sequence|)
    ensures var r := SourceStep(p, st, e.packet, e.time, e.open);
            && (r.outcome == Accepted ==> Takes(p, st, e, |p.sequence|))
            && (r.outcome.Progress? <==> r.entry.Some?)
            && (r.entry.Some? ==>
                  var s := r.entry.value;
                  && r.outcome == Progress(s.nextStep) && s.nextStep < |p.sequence| && Takes(p, st, e, s.nextStep)
                  && s.lastSeen == e.time
                  && s.firstSeen == if s.nextStep == 1 then e.time else st.value.firstSeen)
  {
  }

  lemma {:induction false} TakenIsMatched(p: TrackerParams, tr: Trace, st: Option<SourceState>, e: Sighting, k: nat)
    requires Backed(p, tr, st) && Chronological(tr + [e]) && Takes(p, Visible(p, st, e.time), e, k)
    ensures Matched(p, tr + [e], k)
  {
    if k == 1 {
      MatchBegins(p, tr, e);
    } else {
      RecordPrecedes(tr, e, k - 1);
      MatchExtends(p, tr, e, k - 1);
    }
  }

  lemma {:induction false} EarnedStep(p: TrackerParams, tr: Trace, st: Option<SourceState>, e: Sighting, r: Reply)
    requires 2 <= |p.sequence| && Backed(p, tr, st) && Chronological(tr + [e])
    requires r == SourceStep(p, Visible(p, st, e.time), e.packet, e.time, e.open)
    ensures Backed(p, tr + [e], r.entry) && Earned(p, tr + [e], r.outcome)
  {
    ReplyIsTaken(p, Visible(p, st, e.time), e);
    if r.outcome == Accepted {
      TakenIsMatched(p, tr, st, e, |p.sequence|);
    } else if r.entry.Some? {
      var k := r.entry.value.nextStep;
      TakenIsMatched(p, tr, st, e, k);
      assert (tr + [e])[|tr|] == e && (k > 1 ==> (tr + [e])[|tr| + 1 - k] == tr[|tr| - (k - 1)]);
    }
  }

  /** Soundness, for every sequence: after any trace acceptance and progress have been earned. */
  lemma {:induction false} AutomatonSound(p: TrackerParams, tr: Trace)
    requires 2 <= |p.sequence| && Chronological(tr)
    ensures Backed(p, tr, SourceRun(p, tr))
    ensures tr != [] ==> Earned(p, tr, SourceResult(p, tr).outcome)
    decreases |tr|
  {
    if tr != [] {
      var prev, e := tr[..|tr| - 1], tr[|tr| - 1];
      SplitLast(tr);
      ChronologicalPrefix(prev, e);
      AutomatonSound(p, prev);
      SourceRunSnoc(p, prev, e);
      EarnedStep(p, prev, SourceRun(p, prev), e, SourceResult(p, prev + [e]));
    }
  }

  // ---------------------------------------------------------------------------
  // From the shared table to one source
  // ---------------------------------------------------------------------------

  /** The clock never runs backwards: each packet comes no earlier than the one before. */
  ghost predicate InOrder(h: seq<Arrival>) {
    |h| >= 2 ==> InOrder(h[..|h| - 1]) && h[|h| - 2].time <= h[|h| - 1].time
  }

  lemma {:induction false} InOrderSnoc(h: seq<Arrival>, a: Arrival)
    ensures InOrder(h + [a]) <==> InOrder(h) && (h != [] ==> h[|h| - 1].time <= a.time)
  {
    assert (h + [a])[..|h|] == h;
  }

  predicate Admits(p: TrackerParams, h: seq<Arrival>, a: Arrival) {
    HasRoom(p, Expired(p, Run(p, h), a.time), a.packet.sourceIp)
  }

  /** The packets of one source in an interleaved run, each marked by whether the
      table had room when it came. */
  function TraceOf(p: TrackerParams, h: seq<Arrival>, ip: IpAddr): Trace {
    if h == [] then []
    else
      var before, a := h[..|h| - 1], h[|h| - 1];
      TraceOf(p, before, ip)
      + if a.packet.sourceIp == ip then [Sighting(a.packet, a.time, Admits(p, before, a))] else []
  }

  ghost predicate NoneAfter(tr: Trace, t: Time) {
    forall i | 0 <= i < |tr| :: tr[i].time <= t
  }

  lemma {:induction false} ChronologicalSnoc(tr: Trace, e: Sighting)
    requires Chronological(tr) && NoneAfter(tr, e.time)
    ensures Chronological(tr + [e]) && NoneAfter(tr + [e], e.time)
  {
  }

  lemma {:induction false} TraceInOrder(p: TrackerParams, h: seq<Arrival>, ip: IpAddr)
    requires InOrder(h)
    ensures Chronological(TraceOf(p, h, ip)) && (h != [] ==> NoneAfter(TraceOf(p, h, ip), h[|h| - 1].time))
    decreases |h|
  {
    if h != [] {
      var before, a := h[..|h| - 1], h[|h| - 1];
      var tr := TraceOf(p, before, ip);
      TraceInOrder(p, before, ip);
      assert before != [] ==> before[|before| - 1].time <= a.time;
      ChronologicalSnoc(tr, Sighting(a.packet, a.time, Admits(p, before, a)));
      assert a.packet.sourceIp != ip ==> TraceOf(p, h, ip) == tr;
    }
  }

  lemma {:induction false} VisibleIsMonotone(p: TrackerParams, st: Option<SourceState>, t: Time, now: Time)
    requires t <= now
    ensures Visible(p, Visible(p, st, t), now) == Visible(p, st, now)
  {
  }

  lemma {:induction false} StepLookup(p: TrackerParams, m: States, a: Arrival, ip: IpAddr)
    ensures Lookup(Step(p, m, a).states, ip) ==
              var st := Visible(p, Lookup(m, ip), a.time);
              if a.packet.sourceIp != ip then st
              else SourceStep(p, st, a.packet, a.time, HasRoom(p, Expired(p, m, a.time), ip)).entry
  {
    assert Lookup(Expired(p, m, a.time), ip) == Visible(p, Lookup(m, ip), a.time);
  }

  lemma {:induction false} TraceSnoc(p: TrackerParams, h: seq<Arrival>, a: Arrival, ip: IpAddr)
    ensures TraceOf(p, h + [a], ip) ==
            TraceOf(p, h, ip)
            + if a.packet.sourceIp == ip then [Sighting(a.packet, a.time, Admits(p, h, a))] else []
  {
    assert (h + [a])[..|h|] == h;
  }

  lemma {:induction false} ExpiryStep(p: TrackerParams, h: seq<Arrival>, a: Arrival, ip: IpAddr, now: Time)
    requires a.time <= now
    requires Visible(p, Lookup(Run(p, h), ip), a.time) == Visible(p, SourceRun(p, TraceOf(p, h, ip)), a.time)
    requires Visible(p, Lookup(Run(p, h), ip), now) == Visible(p, SourceRun(p, TraceOf(p, h, ip)), now)
    ensures Visible(p, Lookup(Run(p, h + [a]), ip), now) == Visible(p, SourceRun(p, TraceOf(p, h + [a], ip)), now)
  {
    RunSnoc(p, h, a);
    TraceSnoc(p, h, a, ip);
    StepLookup(p, Run(p, h), a, ip);
    if a.packet.sourceIp == ip {
      SourceRunSnoc(p, TraceOf(p, h, ip), Sighting(a.packet, a.time, Admits(p, h, a)));
    } else {
      VisibleIsMonotone(p, Lookup(Run(p, h), ip), a.time, now);
      assert TraceOf(p, h + [a], ip) == TraceOf(p, h, ip);
    }
  }

  /** Lazy expiry is unobservable: whatever packets of other sources swept out of the
      table in between, the source's entry looks as if only its own packets existed. */
  lemma {:induction false} ExpiryIsInvisible(p: TrackerParams, h: seq<Arrival>, ip: IpAddr, now: Time)
    requires InOrder(h) && (h != [] ==> h[|h| - 1].time <= now)
    ensures Visible(p, Lookup(Run(p, h), ip), now) == Visible(p, SourceRun(p, TraceOf(p, h, ip)), now)
    decreases |h|
  {
    if h != [] {
      var before, a := h[..|h| - 1], h[|h| - 1];
      SplitLast(h);
      ExpiryIsInvisible(p, before, ip, a.time);
      ExpiryIsInvisible(p, before, ip, now);
      ExpiryStep(p, before, a, ip, now);
    }
  }

  lemma {:induction false} OutcomeIsLocal(p: TrackerParams, h: seq<Arrival>, a: Arrival)
    requires InOrder(h + [a])
    ensures var tr := TraceOf(p, h + [a], a.packet.sourceIp);
            tr != [] && Chronological(tr) && tr[|tr| - 1].packet == a.packet
            && Step(p, Run(p, h), a).outcome == SourceResult(p, tr).outcome
  {
    var ip := a.packet.sourceIp;
    InOrderSnoc(h, a);
    TraceSnoc(p, h, a, ip);
    TraceInOrder(p, h + [a], ip);
    ExpiryIsInvisible(p, h, ip, a.time);
    SourceRunSnoc(p, TraceOf(p, h, ip), Sighting(a.packet, a.time, Admits(p, h, a)));
    assert Lookup(Expired(p, Run(p, h), a.time), ip) == Visible(p, Lookup(Run(p, h), ip), a.time);
  }

  /** The exact timed suffix matcher, on every interleaved run and at every fill of
      the table: a packet is answered by what the last packets of its source spell,
      provided the first of them found room. */
  lemma {:induction false} TimedSuffixMatching(p: TrackerParams, h: seq<Arrival>, a: Arrival)
    requires NonRecurring(p.sequence) && 2 <= |p.sequence| && InOrder(h + [a])
    ensures var tr := TraceOf(p, h + [a], a.packet.sourceIp);
            tr != [] && AnsweredByMatch(p, tr, Step(p, Run(p, h), a).outcome)
  {
    OutcomeIsLocal(p, h, a);
    AutomatonExact(p, TraceOf(p, h + [a], a.packet.sourceIp));
  }

  // ---------------------------------------------------------------------------
  // Capacity
  // ---------------------------------------------------------------------------

  function Sources(h: seq<Arrival>): set<IpAddr> {
    set i | 0 <= i < |h| :: h[i].packet.sourceIp
  }

  function Only(h: seq<Arrival>, ip: IpAddr): seq<Arrival> {
    if h == [] then []
    else Only(h[..|h| - 1], ip) + if h[|h| - 1].packet.sourceIp == ip then [h[|h| - 1]] else []
  }

  ghost predicate AllOpen(tr: Trace) {
    forall i | 0 <= i < |tr| :: tr[i].open
  }

  lemma {:induction false} KeysAreSources(p: TrackerParams, h: seq<Arrival>)
    ensures Run(p, h).Keys <= Sources(h)
    decreases |h|
  {
    if h != [] {
      KeysAreSources(p, h[..|h| - 1]);
      assert h[|h| - 1].packet.sourceIp in Sources(h);
      assert Sources(h[..|h| - 1]) <= Sources(h);
    }
  }

  lemma {:induction false} SubsetSize<T>(a: set<T>, b: set<T>)
    requires a <= b
    ensures |a| <= |b|
  {
    assert b == a + (b - a);
  }

  /** No more sources than entries: capacity never turns a packet away. */
  lemma {:induction false} EnoughRoom(p: TrackerParams, h: seq<Arrival>, ip: IpAddr)
    requires |Sources(h)| <= p.maxPartialStates
    ensures AllOpen(TraceOf(p, h, ip))
    decreases |h|
  {
    if h != [] {
      var before, a := h[..|h| - 1], h[|h| - 1];
      SubsetSize(Sources(before), Sources(h));
      EnoughRoom(p, before, ip);
      KeysAreSources(p, before);
      var rest := Expired(p, Run(p, before), a.time) - {a.packet.sourceIp};
      assert a.packet.sourceIp in Sources(h);
      SubsetSize(rest.Keys, Sources(h) - {a.packet.sourceIp});
      assert |rest| == |rest.Keys|;
    }
  }

  lemma {:induction false} OnlySources(h: seq<Arrival>, ip: IpAddr)
    ensures Sources(Only(h, ip)) <= {ip}
    decreases |h|
  {
    if h != [] {
      OnlySources(h[..|h| - 1], ip);
      var o := Only(h[..|h| - 1], ip);
      forall i | 0 <= i < |o|
        ensures o[i].packet.sourceIp == ip
      {
        assert o[i].packet.sourceIp in Sources(o);
      }
    }
  }

  /** The same packets of the source, with the flags of another run. */
  ghost predicate SamePackets(tr: Trace, ts: Trace) {
    |tr| == |ts| && forall i | 0 <= i < |tr| :: tr[i].packet == ts[i].packet && tr[i].time == ts[i].time
  }

  lemma {:induction false} SameSnoc(tr: Trace, ts: Trace, e: Sighting, f: Sighting)
    requires SamePackets(tr, ts) && e.packet == f.packet && e.time == f.time
    ensures SamePackets(tr + [e], ts + [f])
  {
  }

  lemma {:induction false} RunsKeepPackets(p: TrackerParams, q: TrackerParams, h: seq<Arrival>, ip: IpAddr)
    ensures SamePackets(TraceOf(p, h, ip), TraceOf(q, h, ip))
    decreases |h|
  {
    if h != [] {
      var before, a := h[..|h| - 1], h[|h| - 1];
      SplitLast(h);
      RunsKeepPackets(p, q, before, ip);
      TraceSnoc(p, before, a, ip);
      TraceSnoc(q, before, a, ip);
      if a.packet.sourceIp == ip {
        SameSnoc(TraceOf(p, before, ip), TraceOf(q, before, ip), Sighting(a.packet, a.time, Admits(p, before, a)),
                 Sighting(a.packet, a.time, Admits(q, before, a)));
      } else {
        assert TraceOf(p, before, ip) + [] == TraceOf(p, before, ip);
        assert TraceOf(q, before, ip) + [] == TraceOf(q, before, ip);
      }
    }
  }

  lemma {:induction false} OnlySnoc(h: seq<Arrival>, a: Arrival, ip: IpAddr)
    ensures Only(h + [a], ip) == Only(h, ip) + if a.packet.sourceIp == ip then [a] else []
  {
    assert (h + [a])[..|h|] == h;
  }

  lemma {:induction false} OnlyKeepsPackets(p: TrackerParams, h: seq<Arrival>, ip: IpAddr)
    ensures SamePackets(TraceOf(p, h, ip), TraceOf(p, Only(h, ip), ip))
    decreases |h|
  {
    if h != [] {
      var before, a := h[..|h| - 1], h[|h| - 1];
      SplitLast(h);
      var o := Only(before, ip);
      OnlyKeepsPackets(p, before, ip);
      OnlySnoc(before, a, ip);
      TraceSnoc(p, before, a, ip);
      if a.packet.sourceIp == ip {
        TraceSnoc(p, o, a, ip);
        SameSnoc(TraceOf(p, before, ip), TraceOf(p, o, ip), Sighting(a.packet, a.time, Admits(p, before, a)),
                 Sighting(a.packet, a.time, Admits(p, o, a)));
      } else {
        assert o + [] == o && TraceOf(p, before, ip) + [] == TraceOf(p, before, ip);
      }
    }
  }

  /** In order, and none later than `t`. */
  ghost predicate OrderedUpTo(h: seq<Arrival>, t: Time) {
    InOrder(h) && (h != [] ==> h[|h| - 1].time <= t)
  }

  lemma {:induction false} OrderedSnoc(h: seq<Arrival>, t: Time, a: Arrival)
    requires OrderedUpTo(h, t) && t <= a.time
    ensures OrderedUpTo(h + [a], a.time) && OrderedUpTo(h, a.time)
  {
    InOrderSnoc(h, a);
  }

  lemma {:induction false} OnlyInOrder(h: seq<Arrival>, ip: IpAddr)
    requires InOrder(h)
    ensures OrderedUpTo(Only(h, ip), if h == [] then 0 else h[|h| - 1].time)
    decreases |h|
  {
    if h != [] {
      var before, a := h[..|h| - 1], h[|h| - 1];
      SplitLast(h);
      InOrderSnoc(before, a);
      OnlyInOrder(before, ip);
      OrderedSnoc(Only(before, ip), if before == [] then 0 else before[|before| - 1].time, a);
      OnlySnoc(before, a, ip);
      assert Only(before, ip) + [] == Only(before, ip);
    }
  }

  lemma {:induction false} LoneTraceIsOpen(p: TrackerParams, h: seq<Arrival>, a: Arrival)
    requires InOrder(h + [a]) && AllOpen(TraceOf(p, h + [a], a.packet.sourceIp))
    ensures AllOpen(TraceOf(p, Only(h + [a], a.packet.sourceIp), a.packet.sourceIp))
  {
    var ip, all := a.packet.sourceIp, h + [a];
    TraceSnoc(p, h, a, ip);
    var tr := TraceOf(p, all, ip);
    assert tr[|tr| - 1].open;
    OnlySources(all, ip);
    SubsetSize(Sources(Only(all, ip)), {ip});
    EnoughRoom(p, Only(all, ip), ip);
  }

  /** The source's own packets, on their own. */
  lemma {:induction false} OwnRun(h: seq<Arrival>, a: Arrival)
    requires InOrder(h + [a])
    ensures var own := Only(h, a.packet.sourceIp) + [a];
            InOrder(own) && own == Only(h + [a], a.packet.sourceIp)
  {
    OnlySnoc(h, a, a.packet.sourceIp);
    OnlyInOrder(h + [a], a.packet.sourceIp);
  }

  /** With room for each of them they leave the trace that they leave among all others. */
  lemma {:induction false} OwnTrace(p: TrackerParams, h: seq<Arrival>, a: Arrival)
    requires InOrder(h + [a]) && AllOpen(TraceOf(p, h + [a], a.packet.sourceIp))
    ensures var ip := a.packet.sourceIp; TraceOf(p, Only(h + [a], ip), ip) == TraceOf(p, h + [a], ip)
  {
    var ip := a.packet.sourceIp;
    OnlyKeepsPackets(p, h + [a], ip);
    LoneTraceIsOpen(p, h, a);
    SameFlags(TraceOf(p, h + [a], ip), TraceOf(p, Only(h + [a], ip), ip));
  }

  lemma {:induction false} SameFlags(tr: Trace, ts: Trace)
    requires SamePackets(tr, ts) && AllOpen(tr) && AllOpen(ts)
    ensures tr == ts
  {
  }

  /** A run is answered by the trace of its last source. */
  lemma {:induction false} AnswerOfTrace(p: TrackerParams, h: seq<Arrival>, a: Arrival, tr: Trace,
                                         outcome: KnockOutcome)
    requires InOrder(h + [a]) && tr == TraceOf(p, h + [a], a.packet.sourceIp)
    requires outcome == Step(p, Run(p, h), a).outcome
    ensures tr != [] && outcome == SourceResult(p, tr).outcome
  {
    OutcomeIsLocal(p, h, a);
  }

  /** Non-interference: a source whose packets all find room is answered as by a
      fresh tracker that sees nobody else. No condition on the sequence. */
  lemma {:induction false} NonInterference(p: TrackerParams, h: seq<Arrival>, a: Arrival)
    requires InOrder(h + [a])
    requires AllOpen(TraceOf(p, h + [a], a.packet.sourceIp))
    ensures Step(p, Run(p, h), a).outcome == Step(p, Run(p, Only(h, a.packet.sourceIp)), a).outcome
  {
    var ip := a.packet.sourceIp;
    OwnRun(h, a);
    OwnTrace(p, h, a);
    var tr, own := TraceOf(p, h + [a], ip), Only(h, ip);
    AnswerOfTrace(p, h, a, tr, Step(p, Run(p, h), a).outcome);
    AnswerOfTrace(p, own, a, tr, Step(p, Run(p, own), a).outcome);
  }

  /** Every entry of a reachable table is live at the last packet. */
  lemma {:induction false} RunIsLive(p: TrackerParams, h: seq<Arrival>, ip: IpAddr)
    requires h != []
    ensures Visible(p, Lookup(Run(p, h), ip), h[|h| - 1].time) == Lookup(Run(p, h), ip)
  {
    var before, a := h[..|h| - 1], h[|h| - 1];
    StepLookup(p, Run(p, before), a, ip);
  }

  lemma {:induction false} MatchIgnoresFlags(p: TrackerParams, q: TrackerParams, tr: Trace, ts: Trace, k: nat)
    requires q == p.(maxPartialStates := q.maxPartialStates)
    requires SamePackets(tr, ts) && AllOpen(ts) && Matched(p, tr, k)
    ensures Matched(q, ts, k)
  {
    var w, v := tr[|tr| - k..], ts[|ts| - k..];
    assert forall i | 0 <= i < k :: w[i].packet == v[i].packet && w[i].time == v[i].time;
    assert forall i | 0 <= i < k :: Fits(p, i, w[i].packet) ==> Fits(q, i, v[i].packet);
  }

  /** Bounded simulates unlimited: a full table only ever loses knocks. At every
      reachable state its entries are entries of the tracker that never runs full,
      and what it accepts that one accepts. */
  lemma {:induction false} BoundedSimulatesUnlimited(p: TrackerParams, q: TrackerParams, h: seq<Arrival>, ip: IpAddr)
    requires NonRecurring(p.sequence) && 2 <= |p.sequence| && InOrder(h)
    requires q == p.(maxPartialStates := q.maxPartialStates) && |Sources(h)| <= q.maxPartialStates
    ensures ip in Run(p, h) ==> Lookup(Run(q, h), ip) == Lookup(Run(p, h), ip)
    ensures h != [] && Step(p, Run(p, h[..|h| - 1]), h[|h| - 1]).outcome == Accepted
            ==> Step(q, Run(q, h[..|h| - 1]), h[|h| - 1]).outcome == Accepted
  {
    if h != [] {
      var before, a := h[..|h| - 1], h[|h| - 1];
      assert before + [a] == h;
      BoundedEntry(p, q, h, ip);
      BoundedAccepts(p, q, before, a);
    }
  }

  lemma {:induction false} AcceptedIsMatched(p: TrackerParams, h: seq<Arrival>, a: Arrival, tr: Trace)
    requires NonRecurring(p.sequence) && 2 <= |p.sequence| && InOrder(h + [a])
    requires tr == TraceOf(p, h + [a], a.packet.sourceIp)
    ensures Step(p, Run(p, h), a).outcome == Accepted <==> Matched(p, tr, |p.sequence|)
  {
    TimedSuffixMatching(p, h, a);
  }

  lemma {:induction false} BoundedAccepts(p: TrackerParams, q: TrackerParams, h: seq<Arrival>, a: Arrival)
    requires NonRecurring(p.sequence) && 2 <= |p.sequence| && InOrder(h + [a])
    requires q == p.(maxPartialStates := q.maxPartialStates) && |Sources(h + [a])| <= q.maxPartialStates
    ensures Step(p, Run(p, h), a).outcome == Accepted ==> Step(q, Run(q, h), a).outcome == Accepted
  {
    var ip := a.packet.sourceIp;
    EnoughRoom(q, h + [a], ip);
    RunsKeepPackets(p, q, h + [a], ip);
    var tr, ts := TraceOf(p, h + [a], ip), TraceOf(q, h + [a], ip);
    AcceptedIsMatched(p, h, a, tr);
    AcceptedIsMatched(q, h, a, ts);
    if Matched(p, tr, |p.sequence|) {
      MatchIgnoresFlags(p, q, tr, ts, |p.sequence|);
    }
  }

  lemma {:induction false} EntryRecord(p: TrackerParams, h: seq<Arrival>, ip: IpAddr)
    returns (tr: Trace, st: Option<SourceState>)
    requires NonRecurring(p.sequence) && 2 <= |p.sequence| && InOrder(h) && h != []
    ensures Lookup(Run(p, h), ip) == Visible(p, st, h[|h| - 1].time)
    ensures tr == TraceOf(p, h, ip) && Records(p, tr, st)
  {
    tr := TraceOf(p, h, ip);
    st := SourceRun(p, tr);
    RunIsLive(p, h, ip);
    ExpiryIsInvisible(p, h, ip, h[|h| - 1].time);
    TraceInOrder(p, h, ip);
    AutomatonExact(p, tr);
  }

  lemma {:induction false} SameRecord(p: TrackerParams, q: TrackerParams, tr: Trace, ts: Trace,
                                      st: Option<SourceState>, su: Option<SourceState>)
    requires NonRecurring(p.sequence) && q == p.(maxPartialStates := q.maxPartialStates)
    requires SamePackets(tr, ts) && AllOpen(ts) && Records(p, tr, st) && Records(q, ts, su) && st.Some?
    ensures st == su && forall now :: Visible(p, st, now) == Visible(q, su, now)
  {
    var k := st.value.nextStep;
    RecordOf(p, tr, st, k);
    MatchIgnoresFlags(p, q, tr, ts, k);
    RecordOf(q, ts, su, k);
    SameTimes(tr, ts, k);
    SameVisible(p, q, st);
  }

  lemma {:induction false} SameTimes(tr: Trace, ts: Trace, k: nat)
    requires SamePackets(tr, ts) && 1 <= k <= |tr|
    ensures tr[|tr| - k].time == ts[|ts| - k].time && tr[|tr| - 1].time == ts[|ts| - 1].time
  {
  }

  lemma {:induction false} SameVisible(p: TrackerParams, q: TrackerParams, st: Option<SourceState>)
    requires q == p.(maxPartialStates := q.maxPartialStates)
    ensures forall now :: Visible(p, st, now) == Visible(q, st, now)
  {
  }

  lemma {:induction false} BoundedEntry(p: TrackerParams, q: TrackerParams, h: seq<Arrival>, ip: IpAddr)
    requires NonRecurring(p.sequence) && 2 <= |p.sequence| && InOrder(h) && h != []
    requires q == p.(maxPartialStates := q.maxPartialStates) && |Sources(h)| <= q.maxPartialStates
    ensures ip in Run(p, h) ==> Lookup(Run(q, h), ip) == Lookup(Run(p, h), ip)
  {
    if ip in Run(p, h) {
      var tr, st := EntryRecord(p, h, ip);
      var ts, su := EntryRecord(q, h, ip);
      EnoughRoom(q, h, ip);
      RunsKeepPackets(p, q, h, ip);
      SameRecord(p, q, tr, ts, st, su);
      assert Visible(p, st, h[|h| - 1].time) == Visible(q, su, h[|h| - 1].time);
    }
  }

  // ---------------------------------------------------------------------------
  // The condition is exact: a recurring step 0 breaks the matcher
  // ---------------------------------------------------------------------------

  /** On every run, a packet is accepted exactly when it ends a timed match. */
  ghost predicate ExactMatcher(p: TrackerParams) {
    forall h, a | InOrder(h + [a]) ::
      Step(p, Run(p, h), a).outcome == Accepted <==> Matched(p, TraceOf(p, h + [a], a.packet.sourceIp), |p.sequence|)
  }

  /** The packets that spell the given steps, all from one source in one instant. */
  function Knocks(steps: seq<KnockStep>): seq<Arrival> {
    if steps == [] then [] else Knocks(steps[..|steps| - 1]) + [Arrival(PacketFor(steps[|steps| - 1]), 0)]
  }

  function PacketFor(x: KnockStep): KnockPacket {
    KnockPacket(V4(0), x.protocol, x.port, x.size)
  }

  lemma {:induction false} KnocksSnoc(steps: seq<KnockStep>, x: KnockStep)
    ensures Knocks(steps + [x]) == Knocks(steps) + [Arrival(PacketFor(x), 0)]
  {
    assert (steps + [x])[..|steps|] == steps;
  }

  /** The packets of the trace spell the steps, all so early that nothing can expire. */
  ghost predicate Swift(p: TrackerParams, tr: Trace, steps: seq<KnockStep>) {
    |tr| == |steps| && forall i | 0 <= i < |tr| :: tr[i].packet == PacketFor(steps[i]) && Early(p, tr[i].time)
  }

  predicate Early(p: TrackerParams, t: Time) {
    t <= p.sequenceWindow && t <= p.partialStateTimeout
  }

  lemma {:induction false} SwiftSnoc(p: TrackerParams, tr: Trace, steps: seq<KnockStep>, e: Sighting, x: KnockStep)
    requires Swift(p, tr, steps) && e.packet == PacketFor(x) && Early(p, e.time)
    ensures Swift(p, tr + [e], steps + [x])
  {
  }

  lemma {:induction false} SwiftPrefix(p: TrackerParams, tr: Trace, steps: seq<KnockStep>, q: nat)
    requires Swift(p, tr, steps) && q < |tr|
    ensures Swift(p, tr[..q], steps[..q]) && tr[..q + 1] == tr[..q] + [tr[q]]
    ensures tr[q].packet == PacketFor(steps[q]) && Early(p, tr[q].time)
  {
  }

  lemma {:induction false} KnocksTrace(p: TrackerParams, steps: seq<KnockStep>)
    requires 0 < p.maxPartialStates
    ensures Swift(p, TraceOf(p, Knocks(steps), V4(0)), steps) && AllOpen(TraceOf(p, Knocks(steps), V4(0)))
    ensures Sources(Knocks(steps)) <= {V4(0)}
    decreases |steps|
  {
    if steps != [] {
      var front, x := steps[..|steps| - 1], steps[|steps| - 1];
      var h, a := Knocks(front), Arrival(PacketFor(x), 0);
      SplitLast(steps);
      KnocksTrace(p, front);
      KnocksSnoc(front, x);
      LoneSourceFits(p, h, a);
      TraceSnoc(p, h, a, V4(0));
      SwiftSnoc(p, TraceOf(p, h, V4(0)), front, Sighting(a.packet, 0, true), x);
      SourcesSnoc(h, a);
    }
  }

  lemma {:induction false} KnocksInOrder(steps: seq<KnockStep>)
    ensures OrderedUpTo(Knocks(steps), 0)
    decreases |steps|
  {
    if steps != [] {
      var front, x := steps[..|steps| - 1], steps[|steps| - 1];
      SplitLast(steps);
      KnocksInOrder(front);
      KnocksSnoc(front, x);
      OrderedSnoc(Knocks(front), 0, Arrival(PacketFor(x), 0));
    }
  }

  lemma {:induction false} SourcesSnoc(h: seq<Arrival>, a: Arrival)
    ensures Sources(h + [a]) == Sources(h) + {a.packet.sourceIp}
  {
    var k := h + [a];
    assert forall i | 0 <= i < |h| :: k[i] == h[i];
    assert k[|h|] == a;
    forall ip | ip in Sources(h) + {a.packet.sourceIp}
      ensures ip in Sources(k)
    {
      if ip in Sources(h) {
        var i :| 0 <= i < |h| && h[i].packet.sourceIp == ip;
        assert k[i].packet.sourceIp == ip;
      } else {
        assert k[|h|].packet.sourceIp == ip;
      }
    }
  }

  lemma {:induction false} LoneSourceFits(p: TrackerParams, h: seq<Arrival>, a: Arrival)
    requires 0 < p.maxPartialStates && Sources(h) <= {a.packet.sourceIp}
    ensures Admits(p, h, a)
  {
    KeysAreSources(p, h);
    var rest := Expired(p, Run(p, h), a.time) - {a.packet.sourceIp};
    assert rest.Keys == {};
    assert |rest| == |rest.Keys|;
  }

  function DepthOf(st: Option<SourceState>): nat {
    if st.Some? then st.value.nextStep else 0
  }

  /** The number of steps matched at the end of the trace. */
  function Depth(p: TrackerParams, tr: Trace): nat {
    DepthOf(SourceRun(p, tr))
  }

  /** An early packet takes the depth up by one, or back to 1 or 0. */
  lemma {:induction false} ReplyDepth(p: TrackerParams, st: Option<SourceState>, e: Sighting, x: KnockStep)
    requires e.packet == PacketFor(x) && Early(p, e.time) && x.size <= p.maxPayloadSize && 2 <= |p.sequence|
    ensures var r := SourceStep(p, Visible(p, st, e.time), e.packet, e.time, e.open);
            var d := DepthOf(st);
            && DepthOf(r.entry) in {0, 1, d + 1}
            && (r.outcome == Accepted ==> d + 1 == |p.sequence|)
            && (d < |p.sequence| && x == p.sequence[d] && (d == 0 ==> e.open) ==>
                  if d + 1 == |p.sequence| then r.entry == None
                  else r.outcome == Progress(d + 1) && DepthOf(r.entry) == d + 1)
  {
  }

  lemma {:induction false} DepthStep(p: TrackerParams, tr: Trace, e: Sighting, x: KnockStep, d: nat)
    requires e.packet == PacketFor(x) && Early(p, e.time) && x.size <= p.maxPayloadSize && 2 <= |p.sequence|
    requires d == Depth(p, tr)
    ensures Depth(p, tr + [e]) in {0, 1, d + 1}
    ensures SourceResult(p, tr + [e]).outcome == Accepted ==> d + 1 == |p.sequence|
    ensures d < |p.sequence| && x == p.sequence[d] && (d == 0 ==> e.open) ==>
              if d + 1 == |p.sequence| then Depth(p, tr + [e]) == 0
              else Depth(p, tr + [e]) == d + 1 && SourceResult(p, tr + [e]).outcome == Progress(d + 1)
  {
    SourceRunSnoc(p, tr, e);
    ReplyDepth(p, SourceRun(p, tr), e, x);
  }

  predicate SizesFit(p: TrackerParams) {
    forall i | 0 <= i < |p.sequence| :: p.sequence[i].size <= p.maxPayloadSize
  }

  /** The packets of a beginning of the sequence are taken one by one. */
  lemma {:induction false} PrefixDepth(p: TrackerParams, tr: Trace, steps: seq<KnockStep>, j: nat)
    requires 2 <= |p.sequence| && SizesFit(p) && Swift(p, tr, steps)
    requires j < |p.sequence| && j <= |steps| && steps[..j] == p.sequence[..j] && (j > 0 ==> tr[0].open)
    ensures Depth(p, tr[..j]) == j
    ensures j > 0 ==> SourceResult(p, tr[..j]).outcome == Progress(j)
    decreases j
  {
    if j > 0 {
      var i := j - 1;
      assert steps[..i] == steps[..j][..i] && steps[i] == steps[..j][i];
      PrefixDepth(p, tr, steps, i);
      SwiftPrefix(p, tr, steps, i);
      DepthStep(p, tr[..i], tr[i], p.sequence[i], i);
    }
  }

  /** The sequence once more after its own first `j` steps. */
  function Overlap(p: TrackerParams, j: nat): seq<KnockStep>
    requires j <= |p.sequence|
  {
    p.sequence[..j] + p.sequence
  }

  lemma {:induction false} OverlapAt(p: TrackerParams, j: nat, i: nat)
    requires j <= |p.sequence| && i < j + |p.sequence|
    ensures var w := Overlap(p, j);
            && |w| == j + |p.sequence| && w[i] in p.sequence && w[j..] == p.sequence && w[..j] == p.sequence[..j]
            && w[i] == if i < j then p.sequence[i] else p.sequence[i - j]
  {
  }

  /** If step 0 is also step `j`, the knock that follows a first `j` steps is swallowed
      by the knock already under way: no unfinished match ever begins where it does,
      wherever the table had room after the first packet. */
  lemma {:induction false} NeverAligned(p: TrackerParams, tr: Trace, j: nat, q: nat)
    requires 0 < j < |p.sequence| && p.sequence[j] == p.sequence[0] && SizesFit(p)
    requires Swift(p, tr, Overlap(p, j)) && tr[0].open && j < q <= j + |p.sequence|
    ensures Depth(p, tr[..q]) != q - j
    decreases q
  {
    var i, w := q - 1, Overlap(p, j);
    if i == j {
      OverlapAt(p, j, j);
      PrefixDepth(p, tr, w, j);
    } else {
      NeverAligned(p, tr, j, i);
    }
    OverlapStep(p, tr, j, i, Depth(p, tr[..i]));
  }

  /** One more packet of the overlap: the depth goes up by one, or back to 1 or 0, and after
      the first `j` packets it goes up. */
  lemma {:induction false} OverlapStep(p: TrackerParams, tr: Trace, j: nat, i: nat, d: nat)
    requires 0 < j < |p.sequence| && p.sequence[j] == p.sequence[0] && SizesFit(p)
    requires Swift(p, tr, Overlap(p, j)) && i < j + |p.sequence| && d == Depth(p, tr[..i])
    ensures Depth(p, tr[..i + 1]) in {0, 1, d + 1}
    ensures i == j == d ==> Depth(p, tr[..i + 1]) in {0, d + 1}
    ensures SourceResult(p, tr[..i + 1]).outcome == Accepted ==> d + 1 == |p.sequence|
  {
    var w := Overlap(p, j);
    OverlapAt(p, j, i);
    SwiftPrefix(p, tr, w, i);
    assert w[i].size <= p.maxPayloadSize;
    DepthStep(p, tr[..i], tr[i], w[i], d);
  }

  /** The last packet of the swallowed knock is not accepted. */
  lemma {:induction false} Swallowed(p: TrackerParams, tr: Trace, j: nat)
    requires 0 < j < |p.sequence| && p.sequence[j] == p.sequence[0] && SizesFit(p)
    requires Swift(p, tr, Overlap(p, j)) && tr[0].open
    ensures SourceResult(p, tr).outcome != Accepted
  {
    var i := j + |p.sequence| - 1;
    assert tr[..i + 1] == tr;
    NeverAligned(p, tr, j, i);
    OverlapStep(p, tr, j, i, Depth(p, tr[..i]));
  }

  /** And yet the last packets spell the sequence. */
  lemma {:induction false} SequenceIsMatched(p: TrackerParams, tr: Trace, steps: seq<KnockStep>, j: nat)
    requires SizesFit(p) && Swift(p, tr, steps)
    requires j + |p.sequence| == |steps| && steps[j..] == p.sequence != [] && tr[j].open
    ensures Matched(p, tr, |p.sequence|)
  {
    var n := |p.sequence|;
    var v := tr[|tr| - n..];
    forall i | 0 <= i < n
      ensures v[i] == tr[j + i] && v[i].packet == PacketFor(p.sequence[i]) && Early(p, v[i].time)
    {
      assert steps[j..][i] == steps[j + i];
    }
  }

  lemma {:induction false} RecurrenceIsMissed(p: TrackerParams, j: nat)
    requires 0 < j < |p.sequence| && p.sequence[j] == p.sequence[0] && 0 < p.maxPartialStates && SizesFit(p)
    ensures !ExactMatcher(p)
  {
    var w := Overlap(p, j);
    var front, x := w[..|w| - 1], w[|w| - 1];
    SplitLast(w);
    var h, a, tr := Knocks(front), Arrival(PacketFor(x), 0), TraceOf(p, Knocks(w), V4(0));
    KnocksSnoc(front, x);
    KnocksTrace(p, w);
    KnocksInOrder(w);
    Swallowed(p, tr, j);
    OverlapAt(p, j, j);
    SequenceIsMatched(p, tr, w, j);
    OutcomeIsLocal(p, h, a);
    MissedInRun(p, h, a);
  }

  lemma {:induction false} MissedInRun(p: TrackerParams, h: seq<Arrival>, a: Arrival)
    requires InOrder(h + [a]) && Step(p, Run(p, h), a).outcome != Accepted
    requires Matched(p, TraceOf(p, h + [a], a.packet.sourceIp), |p.sequence|)
    ensures !ExactMatcher(p)
  {
  }

  /** The knock tracker is an exact timed suffix matcher if and only if step 0 of its
      sequence does not occur again. */
  lemma {:induction false} ExactIffNonRecurring(p: TrackerParams)
    requires 2 <= |p.sequence| && 0 < p.maxPartialStates && SizesFit(p)
    ensures ExactMatcher(p) <==> NonRecurring(p.sequence)
  {
    if NonRecurring(p.sequence) {
      forall h, a | InOrder(h + [a])
        ensures Step(p, Run(p, h), a).outcome == Accepted
                <==> Matched(p, TraceOf(p, h + [a], a.packet.sourceIp), |p.sequence|)
      {
        TimedSuffixMatching(p, h, a);
      }
    } else {
      var j :| 0 < j < |p.sequence| && p.sequence[j] == p.sequence[0];
      RecurrenceIsMissed(p, j);
    }
  }
}
