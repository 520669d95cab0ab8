/** What the audit trail tells: the truth about commands, and nothing about knocks under way. */
module AuditTheory {
  import opened Base
  import opened Settings
  import K = Knock
  import opened Firewall
  import opened RateLimit
  import opened Server

  // ---------------------------------------------------------------------------
  // True: the lines count the commands
  // ---------------------------------------------------------------------------

  /** The commands that a run calls for. */
  function CommandsOf(c: Config, h: seq<Arrival>): seq<Command> {
    if h == [] then []
    else CommandsOf(c, h[..|h| - 1]) + CommandsAt(c, ServerRun(c, h[..|h| - 1]), h[|h| - 1], true)
  }

  /** Those of them that succeeded. */
  function SuccessesOf(c: Config, h: seq<Arrival>, replies: seq<bool>): seq<Command>
    requires |h| == |replies|
  {
    if h == [] then []
    else
      var n := |h| - 1;
      SuccessesOf(c, h[..n], replies[..n]) + CommandsAt(c, ServerRun(c, h[..n]), h[n], replies[n])
  }

  /** The command of one packet, as a list, if it is to count. */
  function CommandsAt(c: Config, st: ServerState, a: Arrival, counts: bool): seq<Command> {
    CommandList(c, a.packet.sourceIp, Decide(c, st, a), counts)
  }

  function CommandList(c: Config, source: IpAddr, d: Decision, counts: bool): seq<Command> {
    var command := CommandFor(c, source, d);
    if command.Some? && counts then [command.value] else []
  }

  lemma {:induction false} CommandsSnoc(c: Config, h: seq<Arrival>, replies: seq<bool>, a: Arrival, ok: bool)
    requires |h| == |replies|
    ensures CommandsOf(c, h + [a]) == CommandsOf(c, h) + CommandsAt(c, ServerRun(c, h), a, true)
    ensures SuccessesOf(c, h + [a], replies + [ok]) ==
            SuccessesOf(c, h, replies) + CommandsAt(c, ServerRun(c, h), a, ok)
  {
    assert (h + [a])[..|h|] == h && (replies + [ok])[..|h|] == replies;
  }

  function One(yes: bool): nat {
    if yes then 1 else 0
  }

  function Count<T(==)>(s: seq<T>, x: T): nat {
    if s == [] then 0 else Count(s[..|s| - 1], x) + One(s[|s| - 1] == x)
  }

  lemma {:induction false} CountConcat<T>(s: seq<T>, t: seq<T>, x: T)
    ensures Count(s + t, x) == Count(s, x) + Count(t, x)
    decreases |t|
  {
    if t == [] {
      assert s + t == s;
    } else {
      SplitLastAfter(s, t);
      CountConcat(s, t[..|t| - 1], x);
      assert (s + t)[..|s + t| - 1] == s + t[..|t| - 1];
    }
  }

  lemma {:induction false} CountOne<T>(y: T, x: T)
    ensures Count([y], x) == One(y == x) && Count<T>([], x) == 0
  {
    assert [y][..0] == [];
  }

  /** Every success line stands for one of the successful commands, and every command has
      its line. */
  predicate Balanced(events: seq<AuditEvent>, done: seq<Command>, all: seq<Command>, success: AuditEvent,
                     failure: AuditEvent, command: Command)
  {
    && Count(events, success) == Count(done, command)
    && Count(events, success) + Count(events, failure) == Count(all, command)
  }

  lemma {:induction false} BalancedConcat(events: seq<AuditEvent>, more: seq<AuditEvent>, done: seq<Command>,
                                          moreDone: seq<Command>, all: seq<Command>, moreAll: seq<Command>,
                                          success: AuditEvent, failure: AuditEvent, command: Command)
    requires Balanced(events, done, all, success, failure, command)
    requires Balanced(more, moreDone, moreAll, success, failure, command)
    ensures Balanced(events + more, done + moreDone, all + moreAll, success, failure, command)
  {
    CountConcat(events, more, success);
    CountConcat(events, more, failure);
    CountConcat(done, moreDone, command);
    CountConcat(all, moreAll, command);
  }

  /** The command that lets the source in, by the configuration, and the one that bans it. */
  function AllowCommand(c: Config, ip: IpAddr): Command {
    AddEntry(c.ipsetName, ip, c.ipTimeout)
  }

  function BanCommand(c: Config, ip: IpAddr): Command {
    AddEntry(c.banIpsetName, ip, c.banTimeout)
  }

  /** The trail accounts for the allow commands and for the ban commands of a source. */
  predicate Accounts(c: Config, events: seq<AuditEvent>, done: seq<Command>, all: seq<Command>, ip: IpAddr) {
    && Balanced(events, done, all, SshAllow(ip), FirewallAllowFailed(ip), AllowCommand(c, ip))
    && Balanced(events, done, all, RateLimitBan(ip), FirewallBanFailed(ip), BanCommand(c, ip))
  }

  lemma {:induction false} CommandCounts(c: Config, source: IpAddr, d: Decision, counts: bool, command: Command)
    ensures Count(CommandList(c, source, d, counts), command)
            == One(counts && CommandFor(c, source, d) == Some(command))
  {
    if CommandFor(c, source, d).Some? {
      CountOne(CommandFor(c, source, d).value, command);
    }
  }

  /** Telemetry lines are none of the four. */
  lemma {:induction false} SeenCounts(seen: bool, source: IpAddr, outcome: string, line: AuditEvent)
    requires !line.PacketSeen? && !line.OutcomeSeen?
    ensures Count(if seen then [PacketSeen(source), OutcomeSeen(source, outcome)] else [], line) == 0
  {
    var lines := [PacketSeen(source), OutcomeSeen(source, outcome)];
    assert lines[..1] == [PacketSeen(source)];
    CountOne(PacketSeen(source), line);
  }

  /** The line, if any, that reports on the packet's command. */
  function ReportOf(source: IpAddr, d: Decision, ok: bool): Option<AuditEvent> {
    match d
    case Ignored => None
    case Banished(_) => Some(if ok then RateLimitBan(source) else FirewallBanFailed(source))
    case Answered(outcome) =>
      if outcome == K.Accepted then Some(if ok then SshAllow(source) else FirewallAllowFailed(source)) else None
  }

  /** The report is the last line of the packet. */
  lemma {:induction false} ReportIsLast(c: Config, st: ServerState, a: Arrival, ok: bool)
    ensures var events, report := EventsAt(c, st, a, ok), ReportOf(a.packet.sourceIp, Decide(c, st, a), ok);
            report.Some? ==> events != [] && events[|events| - 1] == report.value
  {
  }

  lemma {:induction false} EventCounts(c: Config, telemetry: map<string, Bucket>, source: IpAddr, d: Decision,
                                       now: Time, ok: bool, line: AuditEvent)
    requires !line.PacketSeen? && !line.OutcomeSeen?
    ensures Count(EventsFor(c, telemetry, source, d, now, ok), line) == One(ReportOf(source, d, ok) == Some(line))
  {
    var report := ReportOf(source, d, ok);
    if report.Some? {
      CountOne(report.value, line);
    }
    if d.Answered? {
      AnswerCounts(TelemetryGranted(c, telemetry, now), source, Redacted(d.outcome), d.outcome == K.Accepted,
                   if ok then SshAllow(source) else FirewallAllowFailed(source), line);
    }
  }

  lemma {:induction false} AnswerCounts(seen: bool, source: IpAddr, outcome: string, accepted: bool,
                                        last: AuditEvent, line: AuditEvent)
    requires !line.PacketSeen? && !line.OutcomeSeen?
    ensures var first := if seen then [PacketSeen(source), OutcomeSeen(source, outcome)] else [];
            Count(first + if accepted then [last] else [], line) == One(accepted && line == last)
  {
    var first := if seen then [PacketSeen(source), OutcomeSeen(source, outcome)] else [];
    CountConcat(first, if accepted then [last] else [], line);
    SeenCounts(seen, source, outcome, line);
    CountOne(last, line);
  }

  /** The report is that the command for the source succeeded or failed. */
  lemma {:induction false} ReportsCommand(c: Config, source: IpAddr, d: Decision, ok: bool, ip: IpAddr)
    requires AllowCommand(c, ip) != BanCommand(c, ip)
    ensures var command, report := CommandFor(c, source, d), ReportOf(source, d, ok);
            var allow, ban := Some(AllowCommand(c, ip)), Some(BanCommand(c, ip));
            && (report == Some(SshAllow(ip)) <==> ok && command == allow)
            && (report == Some(FirewallAllowFailed(ip)) <==> !ok && command == allow)
            && (report == Some(RateLimitBan(ip)) <==> ok && command == ban)
            && (report == Some(FirewallBanFailed(ip)) <==> !ok && command == ban)
  {
  }

  lemma {:induction false} OneBalanced(c: Config, st: ServerState, a: Arrival, ok: bool, success: AuditEvent,
                                       failure: AuditEvent, command: Command)
    requires !success.PacketSeen? && !success.OutcomeSeen? && !failure.PacketSeen? && !failure.OutcomeSeen?
    requires var d, source := Decide(c, st, a), a.packet.sourceIp;
             && (ReportOf(source, d, ok) == Some(success) <==> ok && CommandFor(c, source, d) == Some(command))
             && (ReportOf(source, d, ok) == Some(failure) <==> !ok && CommandFor(c, source, d) == Some(command))
    ensures Balanced(EventsAt(c, st, a, ok), CommandsAt(c, st, a, ok), CommandsAt(c, st, a, true), success, failure,
                     command)
  {
    var d, source := Decide(c, st, a), a.packet.sourceIp;
    EventCounts(c, st.telemetry, source, d, a.time, ok, success);
    EventCounts(c, st.telemetry, source, d, a.time, ok, failure);
    CommandCounts(c, source, d, ok, command);
    CommandCounts(c, source, d, true, command);
  }

  lemma {:induction false} OneAccounts(c: Config, st: ServerState, a: Arrival, ok: bool, ip: IpAddr)
    requires AllowCommand(c, ip) != BanCommand(c, ip)
    ensures Accounts(c, EventsAt(c, st, a, ok), CommandsAt(c, st, a, ok), CommandsAt(c, st, a, true), ip)
  {
    ReportsCommand(c, a.packet.sourceIp, Decide(c, st, a), ok, ip);
    OneBalanced(c, st, a, ok, SshAllow(ip), FirewallAllowFailed(ip), AllowCommand(c, ip));
    OneBalanced(c, st, a, ok, RateLimitBan(ip), FirewallBanFailed(ip), BanCommand(c, ip));
  }

  lemma {:induction false} AccountsConcat(c: Config, events: seq<AuditEvent>, more: seq<AuditEvent>, done: seq<Command>,
                                          moreDone: seq<Command>, all: seq<Command>, moreAll: seq<Command>, ip: IpAddr)
    requires Accounts(c, events, done, all, ip) && Accounts(c, more, moreDone, moreAll, ip)
    ensures Accounts(c, events + more, done + moreDone, all + moreAll, ip)
  {
    BalancedConcat(events, more, done, moreDone, all, moreAll, SshAllow(ip), FirewallAllowFailed(ip),
                   AllowCommand(c, ip));
    BalancedConcat(events, more, done, moreDone, all, moreAll, RateLimitBan(ip), FirewallBanFailed(ip),
                   BanCommand(c, ip));
  }

  /** On every run the audit trail counts the commands: for every source there are as many
      allow lines as allow commands that succeeded, as many failure lines as commands that
      did not, and the same for bans. (An allow and a ban of one source are the same
      command only if the two sets have one name and one timeout.) */
  lemma {:induction false} AuditCountsCommands(c: Config, h: seq<Arrival>, replies: seq<bool>, ip: IpAddr)
    requires |h| == |replies| && AllowCommand(c, ip) != BanCommand(c, ip)
    ensures Accounts(c, Trail(c, h, replies), SuccessesOf(c, h, replies), CommandsOf(c, h), ip)
    decreases |h|
  {
    if h != [] {
      var before, a, earlier, ok := h[..|h| - 1], h[|h| - 1], replies[..|h| - 1], replies[|h| - 1];
      SplitLast(h);
      SplitLast(replies);
      AuditCountsCommands(c, before, earlier, ip);
      TrailSnoc(c, before, earlier, a, ok);
      CommandsSnoc(c, before, earlier, a, ok);
      var st := ServerRun(c, before);
      OneAccounts(c, st, a, ok, ip);
      AccountsConcat(c, Trail(c, before, earlier), EventsAt(c, st, a, ok), SuccessesOf(c, before, earlier),
                     CommandsAt(c, st, a, ok), CommandsOf(c, before), CommandsAt(c, st, a, true), ip);
    }
  }

  // ---------------------------------------------------------------------------
  // Discreet: the lines hide how far a knock has come, and what it is made of
  // ---------------------------------------------------------------------------

  /** A decision without the step that a knock has reached, and without the reason of a ban. */
  function Blurred(d: Decision): Decision {
    match d
    case Ignored => Ignored
    case Answered(outcome) => Answered(if outcome.Progress? then K.Progress(0) else outcome)
    case Banished(_) => Banished(K.Rejected)
  }

  /** Two runs, perhaps with different sequences, that differ in nothing but what the packets
      were and how far knocks had come: the same sources at the same times, and the same
      decisions otherwise. */
  ghost predicate Alike(c: Config, h: seq<Arrival>, e: Config, g: seq<Arrival>) {
    |h| == |g| && forall i | 0 <= i < |h| ::
      && h[i].time == g[i].time && h[i].packet.sourceIp == g[i].packet.sourceIp
      && Blurred(DecisionAt(c, h, i)) == Blurred(DecisionAt(e, g, i))
  }

  function DecisionAt(c: Config, h: seq<Arrival>, i: nat): Decision
    requires i < |h|
  {
    Decide(c, ServerRun(c, h[..i]), h[i])
  }

  lemma {:induction false} DecisionInFront(c: Config, h: seq<Arrival>, a: Arrival, i: nat)
    requires i <= |h|
    ensures (h + [a])[i] == if i < |h| then h[i] else a
    ensures DecisionAt(c, h + [a], i) == if i < |h| then DecisionAt(c, h, i) else Decide(c, ServerRun(c, h), a)
  {
    assert (h + [a])[..i] == h[..i];
    assert h[..|h|] == h;
  }

  lemma {:induction false} AlikeAt(c: Config, h: seq<Arrival>, a: Arrival, e: Config, g: seq<Arrival>, b: Arrival,
                                   i: nat)
    requires Alike(c, h + [a], e, g + [b]) && i < |h|
    ensures i < |g| && h[i].time == g[i].time && h[i].packet.sourceIp == g[i].packet.sourceIp
    ensures Blurred(DecisionAt(c, h, i)) == Blurred(DecisionAt(e, g, i))
  {
    assert (h + [a])[i].time == (g + [b])[i].time;
    DecisionInFront(c, h, a, i);
    DecisionInFront(e, g, b, i);
  }

  lemma {:induction false} AlikeFront(c: Config, h: seq<Arrival>, a: Arrival, e: Config, g: seq<Arrival>, b: Arrival)
    requires Alike(c, h + [a], e, g + [b])
    ensures Alike(c, h, e, g) && a.time == b.time && a.packet.sourceIp == b.packet.sourceIp
    ensures Blurred(Decide(c, ServerRun(c, h), a)) == Blurred(Decide(e, ServerRun(e, g), b))
  {
    assert |h| == |g| && (h + [a])[|h|].time == (g + [b])[|h|].time;
    DecisionInFront(c, h, a, |h|);
    DecisionInFront(e, g, b, |g|);
    forall i | 0 <= i < |h|
      ensures h[i].time == g[i].time && h[i].packet.sourceIp == g[i].packet.sourceIp
      ensures Blurred(DecisionAt(c, h, i)) == Blurred(DecisionAt(e, g, i))
    {
      AlikeAt(c, h, a, e, g, b, i);
    }
  }

  /** What is logged of a packet depends on its blurred decision. */
  lemma {:induction false} EventsAreBlurred(c: Config, e: Config, telemetry: map<string, Bucket>, ip: IpAddr,
                                            d: Decision, f: Decision, now: Time, ok: bool)
    requires e == c.(sequence := e.sequence) && Blurred(d) == Blurred(f)
    ensures EventsFor(c, telemetry, ip, d, now, ok) == EventsFor(e, telemetry, ip, f, now, ok)
    ensures NextTelemetry(c, telemetry, d, now) == NextTelemetry(e, telemetry, f, now)
  {
    assert TelemetryOf(c) == TelemetryOf(e) && TelemetryEnabled(c) == TelemetryEnabled(e);
  }

  /** Two such runs leave the same audit trail: whoever reads it learns neither the
      sequence, nor what a source sent, nor how far a knock has come. */
  lemma {:induction false} AuditHidesKnocks(c: Config, h: seq<Arrival>, e: Config, g: seq<Arrival>, replies: seq<bool>)
    requires e == c.(sequence := e.sequence) && Alike(c, h, e, g) && |h| == |replies|
    ensures Trail(c, h, replies) == Trail(e, g, replies)
    ensures ServerRun(c, h).telemetry == ServerRun(e, g).telemetry
    decreases |h|
  {
    if h != [] {
      var n := |h| - 1;
      var before, a, front, b, earlier, ok := h[..n], h[n], g[..n], g[n], replies[..n], replies[n];
      SplitLast(h);
      SplitLast(g);
      SplitLast(replies);
      AlikeFront(c, before, a, e, front, b);
      AuditHidesKnocks(c, before, e, front, earlier);
      TrailSnoc(c, before, earlier, a, ok);
      TrailSnoc(e, front, earlier, b, ok);
      ServerRunSnoc(c, before, a);
      ServerRunSnoc(e, front, b);
      EventsAreBlurred(c, e, ServerRun(c, before).telemetry, a.packet.sourceIp, Decide(c, ServerRun(c, before), a),
                       Decide(e, ServerRun(e, front), b), a.time, ok);
    }
  }

  // ---------------------------------------------------------------------------
  // The sequence is a secret: other steps, sent by those who know them, look the same
  // ---------------------------------------------------------------------------

  /** An exchange of steps for others, no two for the same, that keeps their sizes in range. */
  ghost predicate Exchanges(c: Config, f: KnockStep -> KnockStep) {
    && (forall x, y :: f(x) == f(y) ==> x == y)
    && forall x :: f(x).size <= c.maxPayloadSize <==> x.size <= c.maxPayloadSize
  }

  function ExchangedSteps(f: KnockStep -> KnockStep, steps: seq<KnockStep>): seq<KnockStep> {
    seq(|steps|, i requires 0 <= i < |steps| => f(steps[i]))
  }

  function StepOf(packet: K.KnockPacket): KnockStep {
    KnockStep(packet.protocol, packet.port, packet.payloadSize)
  }

  function Exchanged(f: KnockStep -> KnockStep, a: Arrival): Arrival {
    var x := f(StepOf(a.packet));
    K.Arrival(K.KnockPacket(a.packet.sourceIp, x.protocol, x.port, x.size), a.time)
  }

  function ExchangedRun(f: KnockStep -> KnockStep, h: seq<Arrival>): seq<Arrival> {
    if h == [] then [] else ExchangedRun(f, h[..|h| - 1]) + [Exchanged(f, h[|h| - 1])]
  }

  lemma {:induction false} ExchangeMatches(p: K.TrackerParams, q: K.TrackerParams, f: KnockStep -> KnockStep,
                                           k: nat, a: Arrival)
    requires q == p.(sequence := ExchangedSteps(f, p.sequence)) && forall x, y :: f(x) == f(y) ==> x == y
    ensures K.MatchesStep(q, k, Exchanged(f, a).packet) <==> K.MatchesStep(p, k, a.packet)
  {
    if k < |p.sequence| {
      assert q.sequence[k] == f(p.sequence[k]);
    }
  }

  lemma {:induction false} ExchangeAnswered(p: K.TrackerParams, q: K.TrackerParams, f: KnockStep -> KnockStep,
                                            st: Option<K.SourceState>, a: Arrival, room: bool)
    requires q == p.(sequence := ExchangedSteps(f, p.sequence)) && forall x, y :: f(x) == f(y) ==> x == y
    requires Exchanged(f, a).packet.payloadSize <= p.maxPayloadSize <==> a.packet.payloadSize <= p.maxPayloadSize
    ensures K.SourceStep(q, st, Exchanged(f, a).packet, a.time, room) == K.SourceStep(p, st, a.packet, a.time, room)
  {
    ExchangeMatches(p, q, f, 0, a);
    if st.Some? {
      ExchangeMatches(p, q, f, st.value.nextStep, a);
    }
  }

  lemma {:induction false} ExchangeTable(p: K.TrackerParams, q: K.TrackerParams, f: KnockStep -> KnockStep,
                                         m: K.States, a: Arrival)
    requires q == p.(sequence := ExchangedSteps(f, p.sequence)) && forall x, y :: f(x) == f(y) ==> x == y
    requires Exchanged(f, a).packet.payloadSize <= p.maxPayloadSize <==> a.packet.payloadSize <= p.maxPayloadSize
    ensures K.Step(q, m, Exchanged(f, a)) == K.Step(p, m, a)
  {
    var live, ip := K.Expired(p, m, a.time), a.packet.sourceIp;
    assert K.Expired(q, m, a.time) == live;
    ExchangeAnswered(p, q, f, Lookup(live, ip), a, K.HasRoom(p, live, ip));
  }

  lemma {:induction false} ExchangeTracked(c: Config, e: Config, f: KnockStep -> KnockStep, states: K.States,
                                           a: Arrival)
    requires Exchanges(c, f) && e == c.(sequence := ExchangedSteps(f, c.sequence))
    ensures Tracked(e, states, Exchanged(f, a)) == Tracked(c, states, a)
  {
    ExchangeTable(TrackerOf(c), TrackerOf(e), f, states, a);
  }

  /** Two packets of a source that the trackers answer alike. */
  ghost predicate SameAnswer(c: Config, e: Config, st: ServerState, a: Arrival, b: Arrival) {
    && e == c.(sequence := e.sequence) && b.packet.sourceIp == a.packet.sourceIp && b.time == a.time
    && Tracked(e, st.tracker, b) == Tracked(c, st.tracker, a)
  }

  lemma {:induction false} SameDecision(c: Config, e: Config, st: ServerState, a: Arrival, b: Arrival)
    requires SameAnswer(c, e, st, a, b)
    ensures Decide(e, st, b) == Decide(c, st, a)
  {
    var r := Tracked(c, st.tracker, a);
    var granted := Invalid(r.outcome) ==> Tolerated(c, st.limiter, a).granted;
    DecisionCase(c, st, a, r, granted);
    DecisionCase(e, st, b, r, granted);
  }

  lemma {:induction false} SameMaps(c: Config, e: Config, st: ServerState, a: Arrival, b: Arrival)
    requires SameAnswer(c, e, st, a, b) && Decide(e, st, b) == Decide(c, st, a)
    ensures NextTracker(e, st, b) == NextTracker(c, st, a) && NextLimiter(e, st, b) == NextLimiter(c, st, a)
  {
    assert Spends(e, st, b) == Spends(c, st, a) && LimiterOf(e) == LimiterOf(c);
  }

  lemma {:induction false} SameNext(c: Config, e: Config, st: ServerState, a: Arrival, b: Arrival)
    requires SameAnswer(c, e, st, a, b)
    ensures Decide(e, st, b) == Decide(c, st, a) && Next(e, st, b) == Next(c, st, a)
  {
    SameDecision(c, e, st, a, b);
    SameMaps(c, e, st, a, b);
    assert TelemetryOf(e) == TelemetryOf(c);
  }

  /** The exchanged packet has the same effect on the server with the exchanged sequence. */
  lemma {:induction false} ExchangeStep(c: Config, e: Config, f: KnockStep -> KnockStep, st: ServerState, a: Arrival)
    requires Exchanges(c, f) && e == c.(sequence := ExchangedSteps(f, c.sequence))
    ensures Decide(e, st, Exchanged(f, a)) == Decide(c, st, a) && Next(e, st, Exchanged(f, a)) == Next(c, st, a)
  {
    ExchangeTracked(c, e, f, st.tracker, a);
    SameNext(c, e, st, a, Exchanged(f, a));
  }

  /** The audit trail keeps the sequence secret: whatever steps the sequence is exchanged
      for, when the packets of a run are exchanged likewise, every line of it stays. */
  lemma {:induction false} AuditHidesSequence(c: Config, e: Config, f: KnockStep -> KnockStep, h: seq<Arrival>,
                                              replies: seq<bool>)
    requires Exchanges(c, f) && e == c.(sequence := ExchangedSteps(f, c.sequence)) && |h| == |replies|
    ensures |ExchangedRun(f, h)| == |replies| && Trail(e, ExchangedRun(f, h), replies) == Trail(c, h, replies)
    ensures ServerRun(e, ExchangedRun(f, h)) == ServerRun(c, h)
    decreases |h|
  {
    if h != [] {
      var n := |h| - 1;
      var before, a, earlier, ok := h[..n], h[n], replies[..n], replies[n];
      SplitLast(h);
      SplitLast(replies);
      AuditHidesSequence(c, e, f, before, earlier);
      var g, b, st := ExchangedRun(f, before), Exchanged(f, a), ServerRun(c, before);
      TrailSnoc(c, before, earlier, a, ok);
      TrailSnoc(e, g, earlier, b, ok);
      ServerRunSnoc(c, before, a);
      ServerRunSnoc(e, g, b);
      ExchangeStep(c, e, f, st, a);
      EventsAreBlurred(c, e, st.telemetry, a.packet.sourceIp, Decide(c, st, a), Decide(e, st, b), a.time, ok);
    }
  }
}
