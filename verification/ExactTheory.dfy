/** When the whole pipeline is an exact matcher: bans, expiry and a full table take nothing
    away from the condition on the sequence, and add nothing to it. */
module ExactTheory {
  import opened Base
  import opened Settings
  import K = Knock
  import KT = KnockTheory
  import opened Server
  import ST = ServerTheory

  /** On every run, a packet opens SSH exactly when it ends a timed match that began with
      a packet free to begin. */
  ghost predicate OpensExactly(c: Config) {
    forall h: seq<Arrival>, a: Arrival | KT.InOrder(h + [a]) ::
      Decide(c, ServerRun(c, h), a) == Answered(K.Accepted)
      <==> ST.EndsKnock(c, ST.TraceOf(c, h + [a], a.packet.sourceIp), |c.sequence|)
  }

  // ---------------------------------------------------------------------------
  // One source knocking on an idle server
  // ---------------------------------------------------------------------------

  /** Nobody is banned, and only the knocking source may have an entry. */
  predicate Idle(st: ServerState) {
    st.banned == map[] && st.tracker.Keys <= {V4(0)}
  }

  lemma {:induction false} IdleIsFree(c: Config, st: ServerState, a: Arrival)
    requires 0 < c.maxPartialStates && Idle(st) && a.packet.sourceIp == V4(0)
    ensures ST.FreeToBegin(c, st, a)
  {
    assert ST.UnderWay(c, st.tracker, a.packet.sourceIp, a.time) == {};
  }

  lemma {:induction false} IdleStep(c: Config, st: ServerState, a: Arrival)
    requires ST.MapsSound(c, st) && Idle(st) && a.packet.sourceIp == V4(0) && !Decide(c, st, a).Banished?
    ensures Idle(Next(c, st, a))
  {
    ST.TrackedSound(c, st, a);
    ST.DecisionTracks(c, st, a, Tracked(c, st.tracker, a));
    assert StillBanned(st.banned, a.time) == map[];
  }

  function KnockAt(x: KnockStep, t: Time): Arrival {
    K.Arrival(KT.PacketFor(x), t)
  }

  /** The trace that the packets of the steps leave. */
  function KnockTrace(c: Config, steps: seq<KnockStep>): KT.Trace {
    ST.TraceOf(c, KT.Knocks(steps), V4(0))
  }

  lemma {:induction false} KnockTraceSnoc(c: Config, steps: seq<KnockStep>, x: KnockStep)
    ensures KnockTrace(c, steps + [x]) ==
            KnockTrace(c, steps) + [ST.SightingOf(c, ServerRun(c, KT.Knocks(steps)), KnockAt(x, 0))]
  {
    KT.KnocksSnoc(steps, x);
    ST.TraceSnoc(c, KT.Knocks(steps), KnockAt(x, 0), V4(0));
  }

  lemma {:induction false} KnockTraceIsSwift(c: Config, steps: seq<KnockStep>)
    ensures KT.Swift(TrackerOf(c), KnockTrace(c, steps), steps)
    decreases |steps|
  {
    if steps != [] {
      var front, x := steps[..|steps| - 1], steps[|steps| - 1];
      SplitLast(steps);
      KnockTraceIsSwift(c, front);
      KnockTraceSnoc(c, front, x);
      KT.SwiftSnoc(TrackerOf(c), KnockTrace(c, front), front,
                   ST.SightingOf(c, ServerRun(c, KT.Knocks(front)), KnockAt(x, 0)), x);
    }
  }

  /** Whether a packet is recorded as free to begin depends on the packets before it. */
  lemma {:induction false} FlagAt(c: Config, steps: seq<KnockStep>, i: nat)
    requires i < |steps|
    ensures i < |KnockTrace(c, steps)|
    ensures KnockTrace(c, steps)[i].open == ST.FreeToBegin(c, ServerRun(c, KT.Knocks(steps[..i])), KnockAt(steps[i], 0))
    decreases |steps|
  {
    var front, x := steps[..|steps| - 1], steps[|steps| - 1];
    SplitLast(steps);
    KnockTraceSnoc(c, front, x);
    KnockTraceIsSwift(c, front);
    if i < |front| {
      FlagAt(c, front, i);
      assert front[..i] == steps[..i];
    }
  }

  lemma {:induction false} FirstIsFree(c: Config, steps: seq<KnockStep>)
    requires 0 < c.maxPartialStates && steps != []
    ensures KnockTrace(c, steps) != [] && KnockTrace(c, steps)[0].open
  {
    FlagAt(c, steps, 0);
    assert ServerRun(c, KT.Knocks(steps[..0])) == INITIAL;
    IdleIsFree(c, INITIAL, KnockAt(steps[0], 0));
  }

  /** The answer to one more packet of the trace. */
  lemma {:induction false} KnockAnswered(c: Config, front: seq<KnockStep>, x: KnockStep)
    requires 2 <= |c.sequence|
    ensures var d := Decide(c, ServerRun(c, KT.Knocks(front)), KnockAt(x, 0));
            var tr := KnockTrace(c, front + [x]);
            tr != [] && (d.Banished? ==> Invalid(KT.SourceResult(TrackerOf(c), tr).outcome))
  {
    KT.KnocksSnoc(front, x);
    KT.KnocksInOrder(front + [x]);
    var outcome := ST.DecisionIsLocal(c, KT.Knocks(front), KnockAt(x, 0));
  }

  /** The packets of a beginning of the sequence leave the server idle. */
  lemma {:induction false} BeginningStaysIdle(c: Config, j: nat)
    requires WellFormed(c) && j < |c.sequence|
    ensures Idle(ServerRun(c, KT.Knocks(c.sequence[..j])))
    decreases j
  {
    if j > 0 {
      var i := j - 1;
      var steps, front, x := c.sequence[..j], c.sequence[..i], c.sequence[i];
      assert steps == front + [x];
      var tr := KnockTrace(c, steps);
      BeginningStaysIdle(c, i);
      ST.WellFormedSizesFit(c);
      KnockTraceIsSwift(c, steps);
      FirstIsFree(c, steps);
      KT.PrefixDepth(TrackerOf(c), tr, steps, j);
      assert tr[..j] == tr;
      KnockAnswered(c, front, x);
      KT.KnocksSnoc(front, x);
      ServerRunSnoc(c, KT.Knocks(front), KnockAt(x, 0));
      ST.MapsAlwaysSound(c, KT.Knocks(front));
      IdleStep(c, ServerRun(c, KT.Knocks(front)), KnockAt(x, 0));
    }
  }

  // ---------------------------------------------------------------------------
  // The knock that ends in time and opens nothing
  // ---------------------------------------------------------------------------

  /** The packets of all steps but the last in one instant, and the last at `t`. */
  lemma {:induction false} LastKnock(c: Config, front: seq<KnockStep>, x: KnockStep, t: Time)
    requires t <= SECOND && WellFormed(c)
    ensures var h, a := KT.Knocks(front), KnockAt(x, t); var tr := ST.TraceOf(c, h + [a], V4(0));
            && KT.InOrder(h + [a]) && KT.Swift(TrackerOf(c), tr, front + [x])
            && |tr| == |front| + 1 && tr[..|front|] == KnockTrace(c, front)
  {
    var h, a, p := KT.Knocks(front), KnockAt(x, t), TrackerOf(c);
    KT.KnocksInOrder(front);
    KT.InOrderSnoc(h, a);
    assert front == [] ==> h == [];
    ST.TraceSnoc(c, h, a, V4(0));
    KnockTraceIsSwift(c, front);
    assert KT.Early(p, t);
    KT.SwiftSnoc(p, KnockTrace(c, front), front, ST.SightingOf(c, ServerRun(c, h), a), x);
  }

  /** A knock on an idle server matches, whatever it is answered with. */
  lemma {:induction false} KnockMatches(c: Config) returns (h: seq<Arrival>, a: Arrival)
    requires WellFormed(c)
    ensures KT.InOrder(h + [a]) && a.packet.sourceIp == V4(0) && a.time == 0
    ensures ST.EndsKnock(c, ST.TraceOf(c, h + [a], V4(0)), |c.sequence|)
  {
    var n := |c.sequence|;
    var front, x := c.sequence[..n - 1], c.sequence[n - 1];
    h, a := KT.Knocks(front), KnockAt(x, 0);
    var tr := ST.TraceOf(c, KT.Knocks(front) + [KnockAt(x, 0)], V4(0));
    SplitLast(c.sequence);
    LastKnock(c, front, x, 0);
    FirstIsFree(c, front);
    assert tr[0] == tr[..|front|][0];
    ST.WellFormedSizesFit(c);
    KT.SequenceIsMatched(TrackerOf(c), tr, c.sequence, 0);
    ST.KnockIsMatch(c, tr, n);
  }

  /** The trace of a knock that follows a first `j` steps: both were free to begin. */
  ghost predicate TwoBegun(c: Config, tr: KT.Trace, j: nat) {
    && j < |c.sequence| && KT.Swift(TrackerOf(c), tr, KT.Overlap(TrackerOf(c), j))
    && j < |tr| && tr[0].open && tr[j].open
  }

  lemma {:induction false} FlagsInFront(tr: KT.Trace, front: KT.Trace, j: nat)
    requires |front| <= |tr| && tr[..|front|] == front && j < |front|
    ensures tr[0] == front[0] && tr[j] == front[j]
  {
  }

  lemma {:induction false} BothBegin(c: Config, j: nat, w: seq<KnockStep>, t: Time) returns (h: seq<Arrival>,
                                     a: Arrival)
    requires WellFormed(c) && j < |c.sequence| && t <= SECOND && w == KT.Overlap(TrackerOf(c), j)
    ensures a.packet.sourceIp == V4(0) && a.time == t && forall i | 0 <= i < |h| :: h[i].time == 0
    ensures KT.InOrder(h + [a]) && TwoBegun(c, ST.TraceOf(c, h + [a], V4(0)), j)
  {
    var front, x := w[..|w| - 1], w[|w| - 1];
    h, a := KT.Knocks(front), KnockAt(x, t);
    var tr := ST.TraceOf(c, h + [a], V4(0));
    SplitLast(w);
    KT.OverlapAt(TrackerOf(c), j, j);
    assert front[..j] == w[..j] == c.sequence[..j];
    LastKnock(c, front, x, t);
    FirstIsFree(c, front);
    NextIsFree(c, front, j);
    FlagsInFront(tr, KnockTrace(c, front), j);
    KnocksAtZero(front);
  }

  lemma {:induction false} SecondMatches(c: Config, tr: KT.Trace, j: nat)
    requires WellFormed(c) && TwoBegun(c, tr, j)
    ensures ST.EndsKnock(c, tr, |c.sequence|)
  {
    ST.WellFormedSizesFit(c);
    KT.OverlapAt(TrackerOf(c), j, j);
    KT.SequenceIsMatched(TrackerOf(c), tr, KT.Overlap(TrackerOf(c), j), j);
    ST.KnockIsMatch(c, tr, |c.sequence|);
  }

  lemma {:induction false} SecondOpensNothing(c: Config, h: seq<Arrival>, a: Arrival, j: nat)
    requires WellFormed(c) && 0 < j < |c.sequence| && c.sequence[j] == c.sequence[0] && KT.InOrder(h + [a])
    requires TwoBegun(c, ST.TraceOf(c, h + [a], a.packet.sourceIp), j)
    ensures Decide(c, ServerRun(c, h), a) != Answered(K.Accepted)
  {
    ST.WellFormedSizesFit(c);
    KT.Swallowed(TrackerOf(c), ST.TraceOf(c, h + [a], a.packet.sourceIp), j);
    var outcome := ST.DecisionIsLocal(c, h, a);
  }

  /** If step 0 is also step `j`, the knock that follows a first `j` steps matches too,
      and opens nothing. */
  lemma {:induction false} KnockSwallowed(c: Config, j: nat, t: Time) returns (h: seq<Arrival>, a: Arrival)
    requires WellFormed(c) && 0 < j < |c.sequence| && c.sequence[j] == c.sequence[0] && t <= SECOND
    ensures KT.InOrder(h + [a]) && a.packet.sourceIp == V4(0) && a.time == t
    ensures forall i | 0 <= i < |h| :: h[i].time == 0
    ensures ST.EndsKnock(c, ST.TraceOf(c, h + [a], V4(0)), |c.sequence|)
    ensures Decide(c, ServerRun(c, h), a) != Answered(K.Accepted)
  {
    h, a := BothBegin(c, j, KT.Overlap(TrackerOf(c), j), t);
    SecondMatches(c, ST.TraceOf(c, h + [a], V4(0)), j);
    SecondOpensNothing(c, h, a, j);
  }

  lemma {:induction false} NextIsFree(c: Config, steps: seq<KnockStep>, j: nat)
    requires WellFormed(c) && j < |c.sequence| && j < |steps| && steps[..j] == c.sequence[..j]
    ensures j < |KnockTrace(c, steps)| && KnockTrace(c, steps)[j].open
  {
    FlagAt(c, steps, j);
    BeginningStaysIdle(c, j);
    IdleIsFree(c, ServerRun(c, KT.Knocks(steps[..j])), KnockAt(steps[j], 0));
  }

  lemma {:induction false} KnocksAtZero(steps: seq<KnockStep>)
    ensures forall i | 0 <= i < |KT.Knocks(steps)| :: KT.Knocks(steps)[i].time == 0
    decreases |steps|
  {
    if steps != [] {
      KnocksAtZero(steps[..|steps| - 1]);
    }
  }

  /** End-to-end exactness has the tracker's own condition: the pipeline of a validated
      configuration opens SSH exactly on knocks, on all runs, if and only if step 0 of
      the sequence does not occur again. */
  lemma {:induction false} OpensExactlyIffNonRecurring(c: Config)
    requires WellFormed(c)
    ensures OpensExactly(c) <==> NonRecurring(c.sequence)
  {
    if NonRecurring(c.sequence) {
      forall h: seq<Arrival>, a: Arrival | KT.InOrder(h + [a])
        ensures Decide(c, ServerRun(c, h), a) == Answered(K.Accepted)
                <==> ST.EndsKnock(c, ST.TraceOf(c, h + [a], a.packet.sourceIp), |c.sequence|)
      {
        ST.OpensExactlyOnKnock(c, h, a);
      }
    } else {
      var j :| 0 < j < |c.sequence| && c.sequence[j] == c.sequence[0];
      var h, a := KnockSwallowed(c, j, 0);
    }
  }

  /** Which validated configurations these are: those that begin with a TCP or UDP step,
      or with an ICMP step whose size no later ICMP step has. For all others neither the
      tracker on its own nor the pipeline is exact. */
  lemma {:induction false} ValidatedExactIff(c: Config)
    requires WellFormed(c)
    ensures KT.ExactMatcher(TrackerOf(c)) <==> OpensExactly(c)
    ensures OpensExactly(c) <==>
            c.sequence[0].protocol != Icmp
            || forall j | 0 < j < |c.sequence| ::
                 !(c.sequence[j].protocol == Icmp && c.sequence[j].size == c.sequence[0].size)
  {
    ST.WellFormedSizesFit(c);
    RecurrenceNeedsIcmp(c);
    KT.ExactIffNonRecurring(TrackerOf(c));
    OpensExactlyIffNonRecurring(c);
  }
}
