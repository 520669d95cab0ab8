/** Packet telemetry is bounded from above and from below: how many lines a run can add to
    the audit trail, and when the lines of a packet may be missing. */
module TelemetryTheory {
  import opened Base
  import opened Settings
  import K = Knock
  import KT = KnockTheory
  import opened RateLimit
  import RT = RateTheory
  import opened Server
  import ST = ServerTheory

  // ---------------------------------------------------------------------------
  // When telemetry is on
  // ---------------------------------------------------------------------------

  /** The word in any mixture of small and capital letters. */
  predicate Spells(level: string, small: string, capital: string)
    requires |small| == |capital|
  {
    |level| == |small| && forall i | 0 <= i < |level| :: level[i] == small[i] || level[i] == capital[i]
  }

  predicate Verbose(c: Config) {
    Spells(c.logLevel, "debug", "DEBUG") || Spells(c.logLevel, "trace", "TRACE")
  }

  lemma {:induction false} LetterSpelled(ch: char, small: char, capital: char)
    requires 'a' <= small <= 'z' && capital as int + 32 == small as int
    ensures Lower(ch) == small <==> ch == small || ch == capital
  {
    if Lower(ch) == small && ch != small {
      assert ch as int == capital as int;
    }
  }

  lemma {:induction false} WordSpelled(level: string, small: string, capital: string)
    requires |small| == |capital|
    requires forall i | 0 <= i < |small| :: 'a' <= small[i] <= 'z' && capital[i] as int + 32 == small[i] as int
    ensures EqualsIgnoringCase(level, small) <==> Spells(level, small, capital)
  {
    if |level| == |small| {
      forall i | 0 <= i < |level|
        ensures Lower(level[i]) == small[i] <==> level[i] == small[i] || level[i] == capital[i]
      {
        LetterSpelled(level[i], small[i], capital[i]);
      }
    }
  }

  lemma {:induction false} VerboseIsEnabled(c: Config)
    ensures TelemetryEnabled(c) <==> Verbose(c)
  {
    WordSpelled(c.logLevel, "debug", "DEBUG");
    WordSpelled(c.logLevel, "trace", "TRACE");
  }

  // ---------------------------------------------------------------------------
  // The calls of the telemetry limiter
  // ---------------------------------------------------------------------------

  /** The instants of the packets, of whatever source, that were neither ignored nor answered by a ban. */
  function AnsweredTimes(c: Config, h: seq<Arrival>): seq<Time> {
    if h == [] then []
    else
      var before, a := h[..|h| - 1], h[|h| - 1];
      if Decide(c, ServerRun(c, before), a).Answered? then AnsweredTimes(c, before) + [a.time]
      else AnsweredTimes(c, before)
  }

  lemma {:induction false} AnsweredSnoc(c: Config, h: seq<Arrival>, a: Arrival)
    ensures AnsweredTimes(c, h + [a]) ==
            if Decide(c, ServerRun(c, h), a).Answered? then AnsweredTimes(c, h) + [a.time] else AnsweredTimes(c, h)
  {
    assert (h + [a])[..|h|] == h;
  }

  /** The calls made, all on one key. */
  function TelemetryCalls(c: Config, h: seq<Arrival>): seq<Call<string>> {
    RT.CallsOf(TELEMETRY_KEY, AnsweredTimes(c, h))
  }

  lemma {:induction false} TelemetryCallsSnoc(c: Config, h: seq<Arrival>, a: Arrival)
    ensures TelemetryCalls(c, h + [a]) ==
            if Decide(c, ServerRun(c, h), a).Answered? then TelemetryCalls(c, h) + [Call(TELEMETRY_KEY, a.time)]
            else TelemetryCalls(c, h)
  {
    var times := AnsweredTimes(c, h);
    AnsweredSnoc(c, h, a);
    assert (times + [a.time])[..|times|] == times;
  }

  lemma {:induction false} TelemetryStep(c: Config, h: seq<Arrival>, a: Arrival)
    requires TelemetryEnabled(c)
    requires var p := TelemetryOf(c);
             ServerRun(c, h).telemetry == Buckets(p, Some(IdleTtl(p)), TelemetryCalls(c, h))
    ensures var p := TelemetryOf(c);
            ServerRun(c, h + [a]).telemetry == Buckets(p, Some(IdleTtl(p)), TelemetryCalls(c, h + [a]))
  {
    ServerRunSnoc(c, h, a);
    TelemetryCallsSnoc(c, h, a);
    BucketsSnoc(TelemetryOf(c), Some(IdleTtl(TelemetryOf(c))), TelemetryCalls(c, h), Call(TELEMETRY_KEY, a.time));
  }

  lemma {:induction false} TelemetryRun(c: Config, h: seq<Arrival>)
    requires TelemetryEnabled(c)
    ensures var p := TelemetryOf(c);
            ServerRun(c, h).telemetry == Buckets(p, Some(IdleTtl(p)), TelemetryCalls(c, h))
    decreases |h|
  {
    if h != [] {
      SplitLast(h);
      TelemetryRun(c, h[..|h| - 1]);
      TelemetryStep(c, h[..|h| - 1], h[|h| - 1]);
    }
  }

  lemma {:induction false} AnsweredRise(c: Config, h: seq<Arrival>)
    requires KT.InOrder(h)
    ensures RT.RisingUpTo(AnsweredTimes(c, h), if h == [] then 0 else h[|h| - 1].time)
    decreases |h|
  {
    if h != [] {
      var before, a := h[..|h| - 1], h[|h| - 1];
      SplitLast(h);
      KT.InOrderSnoc(before, a);
      AnsweredRise(c, before);
      AnsweredSnoc(c, before, a);
      RiseOn(AnsweredTimes(c, before), if before == [] then 0 else before[|before| - 1].time, a.time);
    }
  }

  lemma {:induction false} RiseOn(times: seq<Time>, last: Time, t: Time)
    requires RT.RisingUpTo(times, last) && last <= t
    ensures RT.RisingUpTo(times, t) && RT.RisingUpTo(times + [t], t)
  {
    RT.RisesOn(times, t);
  }

  /** Whether the lines of an answered packet appear is up to the instants of all packets answered so far. */
  lemma {:induction false} GrantByTimes(c: Config, h: seq<Arrival>, a: Arrival)
    requires KT.InOrder(h + [a]) && TelemetryEnabled(c) && Decide(c, ServerRun(c, h), a).Answered?
    ensures var p := TelemetryOf(c); var ts := AnsweredTimes(c, h + [a]);
            && ts == AnsweredTimes(c, h) + [a.time] && RT.Rising(ts)
            && TelemetryGranted(c, ServerRun(c, h).telemetry, a.time)
               == RT.KeyAnswer(p, Some(IdleTtl(p)), ts).granted
  {
    var p, ts, call := TelemetryOf(c), AnsweredTimes(c, h + [a]), Call(TELEMETRY_KEY, a.time);
    AnsweredSnoc(c, h, a);
    AnsweredRise(c, h + [a]);
    TelemetryRun(c, h);
    TelemetryCallsSnoc(c, h, a);
    RT.CallsOfTimes(TELEMETRY_KEY, ts);
    RT.NonInterference(p, Some(IdleTtl(p)), TelemetryCalls(c, h), call);
  }

  // ---------------------------------------------------------------------------
  // How many lines
  // ---------------------------------------------------------------------------

  /** The telemetry lines of an audit trail. */
  function Lines(events: seq<AuditEvent>): nat {
    if events == [] then 0
    else
      var e := events[|events| - 1];
      Lines(events[..|events| - 1]) + if e.PacketSeen? || e.OutcomeSeen? then 1 else 0
  }

  lemma {:induction false} LinesConcat(events: seq<AuditEvent>, more: seq<AuditEvent>)
    ensures Lines(events + more) == Lines(events) + Lines(more)
    decreases |more|
  {
    if more == [] {
      assert events + more == events;
    } else {
      LinesConcat(events, more[..|more| - 1]);
      assert (events + more)[..|events + more| - 1] == events + more[..|more| - 1];
    }
  }

  lemma {:induction false} LinesOne(e: AuditEvent)
    ensures Lines([e]) == if e.PacketSeen? || e.OutcomeSeen? then 1 else 0
  {
    assert [e][..0] == [];
  }

  /** The lines of one packet: two if it was answered and telemetry let it through. */
  lemma {:induction false} LinesOfPacket(c: Config, st: ServerState, a: Arrival, ok: bool)
    ensures Lines(EventsAt(c, st, a, ok)) ==
            if Decide(c, st, a).Answered? && TelemetryGranted(c, st.telemetry, a.time) then 2 else 0
  {
    var ip, d := a.packet.sourceIp, Decide(c, st, a);
    LinesOne(if ok then RateLimitBan(ip) else FirewallBanFailed(ip));
    if d.Answered? {
      LinesOfAnswer(ip, Redacted(d.outcome), TelemetryGranted(c, st.telemetry, a.time), d.outcome == K.Accepted,
                    if ok then SshAllow(ip) else FirewallAllowFailed(ip));
    }
  }

  lemma {:induction false} LinesOfAnswer(ip: IpAddr, outcome: string, seen: bool, accepted: bool, last: AuditEvent)
    requires !last.PacketSeen? && !last.OutcomeSeen?
    ensures var first := if seen then [PacketSeen(ip), OutcomeSeen(ip, outcome)] else [];
            Lines(first + if accepted then [last] else []) == if seen then 2 else 0
  {
    var two := [PacketSeen(ip), OutcomeSeen(ip, outcome)];
    assert two == [PacketSeen(ip)] + [OutcomeSeen(ip, outcome)];
    LinesConcat([PacketSeen(ip)], [OutcomeSeen(ip, outcome)]);
    LinesOne(PacketSeen(ip));
    LinesOne(OutcomeSeen(ip, outcome));
    LinesOne(last);
    LinesConcat(if seen then two else [], if accepted then [last] else []);
  }

  /** The lines are two for each grant, if telemetry is on. */
  predicate LinesMatch(c: Config, lines: nat, times: seq<Time>) {
    if Verbose(c) then lines == 2 * RT.Grants(TelemetryOf(c), times, 0) else lines == 0
  }

  lemma {:induction false} LinesMatchStep(c: Config, h: seq<Arrival>, a: Arrival, ok: bool, lines: nat)
    requires KT.InOrder(h + [a]) && LinesMatch(c, lines, AnsweredTimes(c, h))
    ensures LinesMatch(c, lines + Lines(EventsAt(c, ServerRun(c, h), a, ok)), AnsweredTimes(c, h + [a]))
  {
    VerboseIsEnabled(c);
    LinesOfPacket(c, ServerRun(c, h), a, ok);
    AnsweredSnoc(c, h, a);
    if Verbose(c) && Decide(c, ServerRun(c, h), a).Answered? {
      GrantByTimes(c, h, a);
      RT.GrantsSnoc(TelemetryOf(c), AnsweredTimes(c, h), a.time, 0);
    }
  }

  lemma {:induction false} LinesAreGrants(c: Config, h: seq<Arrival>, replies: seq<bool>)
    requires |h| == |replies| && KT.InOrder(h)
    ensures LinesMatch(c, Lines(Trail(c, h, replies)), AnsweredTimes(c, h))
    decreases |h|
  {
    if h != [] {
      var before, a, earlier, ok := h[..|h| - 1], h[|h| - 1], replies[..|h| - 1], replies[|h| - 1];
      SplitLast(h);
      SplitLast(replies);
      KT.InOrderSnoc(before, a);
      LinesAreGrants(c, before, earlier);
      TrailSnoc(c, before, earlier, a, ok);
      LinesConcat(Trail(c, before, earlier), EventsAt(c, ServerRun(c, before), a, ok));
      LinesMatchStep(c, before, a, ok, Lines(Trail(c, before, earlier)));
    }
  }

  /** Ten times the number, as far as 32 bits hold it. */
  function Tenfold(n: u32): u32 {
    Least(10 * n, 0xFFFF_FFFF)
  }

  /** The most packets whose lines a run of that span can hold. */
  function TelemetryBound(c: Config, span: nat): int {
    var burst, refill := Tenfold(c.invalidBurstLimit), Tenfold(c.invalidRefillPerMinute);
    burst + Max(refill, (burst + 1) / 2) * (span / (60 * SECOND) + 1)
  }

  lemma {:induction false} BoundOfLimiter(c: Config, span: nat)
    ensures RT.WholeInterval(TelemetryOf(c)) && RT.StretchBound(TelemetryOf(c), span) == TelemetryBound(c, span)
  {
  }

  /** Telemetry cannot flood the audit trail: however many packets a run of `span` has, it adds
      at most two lines for each of so many packets, and none unless the level asks for them. */
  lemma {:induction false} TelemetryIsBounded(c: Config, h: seq<Arrival>, replies: seq<bool>, span: nat)
    requires |h| == |replies| && KT.InOrder(h) && h != [] && h[|h| - 1].time <= h[0].time + span
    ensures Lines(Trail(c, h, replies)) <= if Verbose(c) then 2 * TelemetryBound(c, span) else 0
  {
    LinesAreGrants(c, h, replies);
    var grants, bound := GrantsInRun(c, h, span);
  }

  lemma {:induction false} GrantsInRun(c: Config, h: seq<Arrival>, span: nat) returns (grants: nat, bound: int)
    requires KT.InOrder(h) && h != [] && h[|h| - 1].time <= h[0].time + span
    ensures grants == RT.Grants(TelemetryOf(c), AnsweredTimes(c, h), 0) && bound == TelemetryBound(c, span)
    ensures grants <= bound
  {
    grants, bound := RT.Grants(TelemetryOf(c), AnsweredTimes(c, h), 0), TelemetryBound(c, span);
    BoundOfLimiter(c, span);
    AnsweredSpan(c, h);
    GrantsInSpan(TelemetryOf(c), AnsweredTimes(c, h), span);
  }

  lemma {:induction false} GrantsInSpan(p: LimiterParams, ts: seq<Time>, span: nat)
    requires RT.WholeInterval(p) && RT.Rising(ts) && (ts != [] ==> ts[|ts| - 1] <= ts[0] + span)
    ensures RT.Grants(p, ts, 0) <= RT.StretchBound(p, span)
  {
    if ts != [] {
      RT.RateBound(p, ts, 0, span);
    }
  }

  lemma {:induction false} AnsweredSpan(c: Config, h: seq<Arrival>)
    requires KT.InOrder(h) && h != []
    ensures var ts := AnsweredTimes(c, h);
            RT.Rising(ts) && (ts != [] ==> h[0].time <= ts[0] && ts[|ts| - 1] <= h[|h| - 1].time)
    decreases |h|
  {
    var before, a := h[..|h| - 1], h[|h| - 1];
    SplitLast(h);
    KT.InOrderSnoc(before, a);
    AnsweredSnoc(c, before, a);
    AnsweredRise(c, h);
    if before != [] {
      AnsweredSpan(c, before);
      assert [] + h == h;
      ST.InOrderSpans([], h);
    }
  }

  /** Nor does it fall silent without need: the lines of an answered packet are missing only if
      within less than a minute up to it ten times the burst, or ten times a minute's refill,
      of other packets were answered. */
  lemma {:induction false} SilenceNeedsCrowd(c: Config, h: seq<Arrival>, a: Arrival, ok: bool)
    requires KT.InOrder(h + [a]) && Verbose(c) && Decide(c, ServerRun(c, h), a).Answered?
    requires Lines(EventsAt(c, ServerRun(c, h), a, ok)) == 0
    ensures var n := Least(Tenfold(c.invalidBurstLimit), Tenfold(c.invalidRefillPerMinute));
            RT.Crammed(AnsweredTimes(c, h) + [a.time], n, 60 * SECOND)
  {
    VerboseIsEnabled(c);
    LinesOfPacket(c, ServerRun(c, h), a, ok);
    GrantByTimes(c, h, a);
    DeniedInCrowd(TelemetryOf(c), AnsweredTimes(c, h) + [a.time], Tenfold(c.invalidBurstLimit),
                  Tenfold(c.invalidRefillPerMinute));
  }

  lemma {:induction false} DeniedInCrowd(p: LimiterParams, ts: seq<Time>, burst: u32, refill: u32)
    requires p == LimiterParams(burst, refill, 60 * SECOND) && RT.Rising(ts) && ts != []
    requires !RT.KeyAnswer(p, Some(IdleTtl(p)), ts).granted
    ensures RT.Crammed(ts, Least(burst, refill), 60 * SECOND)
  {
    RT.DenialNeedsCrowd(p, ts);
  }
}
