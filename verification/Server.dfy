/** The admission pipeline (src/server.rs): ban map, knock tracker, invalid-packet
    limiter, firewall commands and bounded telemetry, one packet at a time. */
module Server {
  import opened Base
  import opened Settings
  import K = Knock
  import opened RateLimit
  import opened Firewall

  type Arrival = K.Arrival

  function TrackerOf(c: Config): K.TrackerParams {
    K.TrackerParams(c.sequence, Seconds(c.sequenceWindow), Seconds(c.partialStateTimeout), c.maxPartialStates,
                    c.maxPayloadSize)
  }

  function LimiterOf(c: Config): LimiterParams {
    LimiterParams(c.invalidBurstLimit, c.invalidRefillPerMinute, Seconds(60))
  }

  function TelemetryOf(c: Config): LimiterParams {
    LimiterParams(Saturate(c.invalidBurstLimit * 10), Saturate(c.invalidRefillPerMinute * 10), Seconds(60))
  }

  function FirewallOf(c: Config): Firewall {
    Firewall(c.ipsetName, c.banIpsetName, c.ipTimeout, c.banTimeout, c.firewallBackend, c.addressFamily)
  }

  const TELEMETRY_KEY := "packet"

  function Lower(ch: char): char {
    if 'A' <= ch <= 'Z' then (ch as int + 32) as char else ch
  }

  predicate EqualsIgnoringCase(s: string, lower: string) {
    |s| == |lower| && forall i | 0 <= i < |s| :: Lower(s[i]) == lower[i]
  }

  predicate TelemetryEnabled(c: Config) {
    EqualsIgnoringCase(c.logLevel, "debug") || EqualsIgnoringCase(c.logLevel, "trace")
  }

  type BanMap = map<IpAddr, Time>

  datatype ServerState = ServerState(
    tracker: K.States,
    limiter: map<IpAddr, Bucket>,
    telemetry: map<string, Bucket>,
    banned: BanMap)

  const INITIAL := ServerState(map[], map[], map[], map[])

  function StillBanned(banned: BanMap, now: Time): BanMap {
    map ip | ip in banned && banned[ip] > now :: banned[ip]
  }

  /** `remember_banned_source`: a new source is recorded only while the map has room. */
  function Remembered(c: Config, banned: BanMap, ip: IpAddr, now: Time): BanMap {
    var live := StillBanned(banned, now);
    if |live| >= c.maxPartialStates && ip !in live then live else BanEntry(live, ip, After(now, c.banTimeout))
  }

  function BanEntry(banned: BanMap, ip: IpAddr, expiry: Time): BanMap {
    banned[ip := expiry]
  }

  /** What becomes of a packet: dropped because its source is banned, answered by the
      tracker, or answered by a ban. */
  datatype Decision = Ignored | Answered(outcome: K.KnockOutcome) | Banished(outcome: K.KnockOutcome)

  predicate Invalid(outcome: K.KnockOutcome) {
    outcome == K.Rejected || outcome == K.Oversized
  }

  function SourceCall(a: Arrival): Call<IpAddr> {
    Call(a.packet.sourceIp, a.time)
  }

  function Tracked(c: Config, states: K.States, a: Arrival): K.Advanced {
    K.Step(TrackerOf(c), states, a)
  }

  function Tolerated(c: Config, limiter: map<IpAddr, Bucket>, a: Arrival): Answer {
    AllowStep(LimiterOf(c), Some(IdleTtl(LimiterOf(c))), limiter, SourceCall(a))
  }

  function Decide(c: Config, st: ServerState, a: Arrival): Decision {
    if a.packet.sourceIp in StillBanned(st.banned, a.time) then Ignored
    else
      var outcome := Tracked(c, st.tracker, a).outcome;
      if Invalid(outcome) && !Tolerated(c, st.limiter, a).granted then Banished(outcome) else Answered(outcome)
  }

  /** The buckets of a limiter after one more call. */
  function AfterCall<Key>(p: LimiterParams, m: map<Key, Bucket>, call: Call<Key>): map<Key, Bucket> {
    Pruned(Some(IdleTtl(p)), m, call.time)[call.key := AllowStep(p, Some(IdleTtl(p)), m, call).bucket]
  }

  /** An invalid packet that was not ignored: the one kind that spends a token. */
  predicate Spends(c: Config, st: ServerState, a: Arrival) {
    match Decide(c, st, a)
    case Ignored => false
    case Answered(outcome) => Invalid(outcome)
    case Banished(_) => true
  }

  function NextTracker(c: Config, st: ServerState, a: Arrival): K.States {
    if Decide(c, st, a).Ignored? then st.tracker else Tracked(c, st.tracker, a).states
  }

  function NextLimiter(c: Config, st: ServerState, a: Arrival): map<IpAddr, Bucket> {
    if Spends(c, st, a) then AfterCall(LimiterOf(c), st.limiter, SourceCall(a)) else st.limiter
  }

  function NextTelemetry(c: Config, telemetry: map<string, Bucket>, d: Decision, now: Time): map<string, Bucket> {
    if d.Answered? && TelemetryEnabled(c) then AfterCall(TelemetryOf(c), telemetry, Call(TELEMETRY_KEY, now))
    else telemetry
  }

  function NextBanned(c: Config, banned: BanMap, d: Decision, ip: IpAddr, now: Time): BanMap {
    if d.Banished? then Remembered(c, banned, ip, now) else StillBanned(banned, now)
  }

  function Next(c: Config, st: ServerState, a: Arrival): ServerState {
    var d := Decide(c, st, a);
    ServerState(NextTracker(c, st, a), NextLimiter(c, st, a), NextTelemetry(c, st.telemetry, d, a.time),
                NextBanned(c, st.banned, d, a.packet.sourceIp, a.time))
  }

  /** The decision by cases, given what the tracker answers and whether the source may go on. */
  lemma {:induction false} DecisionCase(c: Config, st: ServerState, a: Arrival, r: K.Advanced, granted: bool)
    requires r == Tracked(c, st.tracker, a) && (granted <==> Invalid(r.outcome) ==> Tolerated(c, st.limiter, a).granted)
    ensures Decide(c, st, a) ==
              if a.packet.sourceIp in StillBanned(st.banned, a.time) then Ignored
              else if granted then Answered(r.outcome) else Banished(r.outcome)
  {
  }

  lemma {:induction false} DecisionCases(c: Config, st: ServerState, a: Arrival)
    ensures var r := Tracked(c, st.tracker, a); var d := Decide(c, st, a);
            var granted := Invalid(r.outcome) ==> Tolerated(c, st.limiter, a).granted;
            if a.packet.sourceIp in StillBanned(st.banned, a.time) then
              d == Ignored && NextTracker(c, st, a) == st.tracker && NextLimiter(c, st, a) == st.limiter
            else
              && d == (if granted then Answered(r.outcome) else Banished(r.outcome))
              && NextTracker(c, st, a) == r.states
              && NextLimiter(c, st, a) ==
                   if Invalid(r.outcome) then AfterCall(LimiterOf(c), st.limiter, SourceCall(a)) else st.limiter
  {
    var r := Tracked(c, st.tracker, a);
    DecisionCase(c, st, a, r, Invalid(r.outcome) ==> Tolerated(c, st.limiter, a).granted);
  }

  /** The server after a whole interleaved run. */
  function ServerRun(c: Config, h: seq<Arrival>): ServerState {
    if h == [] then INITIAL else Next(c, ServerRun(c, h[..|h| - 1]), h[|h| - 1])
  }

  lemma {:induction false} ServerRunSnoc(c: Config, h: seq<Arrival>, a: Arrival)
    ensures ServerRun(c, h + [a]) == Next(c, ServerRun(c, h), a)
  {
    assert (h + [a])[..|h|] == h;
  }

  /** The firewall command a decision calls for. */
  function CommandFor(c: Config, ip: IpAddr, d: Decision): Option<Command> {
    match d
    case Ignored => None
    case Answered(outcome) => if outcome == K.Accepted then Some(FirewallOf(c).AddIpCommand(ip)) else None
    case Banished(_) => Some(FirewallOf(c).BanIpCommand(ip))
  }

  datatype AuditEvent =
    | RateLimitBan(ip: IpAddr)
    | FirewallBanFailed(ip: IpAddr)
    | PacketSeen(ip: IpAddr)
    | OutcomeSeen(ip: IpAddr, outcome: string)
    | FirewallAllowFailed(ip: IpAddr)
    | SshAllow(ip: IpAddr)

  /** `redacted_outcome`. */
  function Redacted(outcome: K.KnockOutcome): string {
    match outcome
    case Accepted => "accepted"
    case Progress(_) => "progress"
    case Rejected => "rejected"
    case Oversized => "oversized"
  }

  function TelemetryGranted(c: Config, m: map<string, Bucket>, now: Time): bool {
    var p := TelemetryOf(c);
    TelemetryEnabled(c) && AllowStep(p, Some(IdleTtl(p)), m, Call(TELEMETRY_KEY, now)).granted
  }

  /** The audit lines of one packet, given whether its command (if any) succeeded. */
  function EventsFor(c: Config, telemetry: map<string, Bucket>, ip: IpAddr, d: Decision, now: Time, ok: bool)
    : seq<AuditEvent>
  {
    match d
    case Ignored => []
    case Banished(_) => [if ok then RateLimitBan(ip) else FirewallBanFailed(ip)]
    case Answered(outcome) =>
      (if TelemetryGranted(c, telemetry, now) then [PacketSeen(ip), OutcomeSeen(ip, Redacted(outcome))] else [])
      + if outcome == K.Accepted then [if ok then SshAllow(ip) else FirewallAllowFailed(ip)] else []
  }

  /** The audit trail of a run, given whether the command of each packet (if any) succeeded. */
  function Trail(c: Config, h: seq<Arrival>, replies: seq<bool>): seq<AuditEvent>
    requires |h| == |replies|
  {
    if h == [] then []
    else
      var n := |h| - 1;
      Trail(c, h[..n], replies[..n]) + EventsAt(c, ServerRun(c, h[..n]), h[n], replies[n])
  }

  function EventsAt(c: Config, st: ServerState, a: Arrival, ok: bool): seq<AuditEvent> {
    EventsFor(c, st.telemetry, a.packet.sourceIp, Decide(c, st, a), a.time, ok)
  }

  lemma {:induction false} TrailSnoc(c: Config, h: seq<Arrival>, replies: seq<bool>, a: Arrival, ok: bool)
    requires |h| == |replies|
    ensures Trail(c, h + [a], replies + [ok]) == Trail(c, h, replies) + EventsAt(c, ServerRun(c, h), a, ok)
  {
    assert (h + [a])[..|h|] == h && (replies + [ok])[..|h|] == replies;
  }

  /** State and audit trail are those that the run leaves. */
  predicate Records(c: Config, st: ServerState, audit: seq<AuditEvent>, h: seq<Arrival>, replies: seq<bool>) {
    st == ServerRun(c, h) && |replies| == |h| && audit == Trail(c, h, replies)
  }

  lemma {:induction false} RecordsSnoc(c: Config, st: ServerState, audit: seq<AuditEvent>, h: seq<Arrival>,
                                       replies: seq<bool>, a: Arrival, ok: bool)
    requires Records(c, st, audit, h, replies)
    ensures Records(c, Next(c, st, a), audit + EventsAt(c, st, a, ok), h + [a], replies + [ok])
  {
    ServerRunSnoc(c, h, a);
    TrailSnoc(c, h, replies, a, ok);
  }

  /** The last packet of a run ended the daemon: its allow command was called for and failed. */
  predicate GaveUp(c: Config, h: seq<Arrival>, replies: seq<bool>)
    requires |h| == |replies|
  {
    h != [] && !replies[|h| - 1] && Decide(c, ServerRun(c, h[..|h| - 1]), h[|h| - 1]) == Answered(K.Accepted)
  }

  /** Of the packets after the first `from` of a run none ended the daemon, or exactly the last. */
  ghost predicate EndsRun(c: Config, h: seq<Arrival>, replies: seq<bool>, from: nat, gaveUp: bool)
    requires |h| == |replies|
  {
    && (gaveUp ==> from < |h|)
    && forall i | from < i <= |h| :: GaveUp(c, h[..i], replies[..i]) <==> gaveUp && i == |h|
  }

  lemma {:induction false} PrefixAt<T>(s: seq<T>, x: T, i: nat)
    requires i <= |s|
    ensures (s + [x])[..i] == s[..i] && (s + [x])[..|s| + 1] == s + [x]
  {
  }

  lemma {:induction false} GaveUpSnoc(c: Config, h: seq<Arrival>, replies: seq<bool>, a: Arrival, reply: bool)
    requires |h| == |replies|
    ensures GaveUp(c, h + [a], replies + [reply]) <==> Decide(c, ServerRun(c, h), a) == Answered(K.Accepted) && !reply
  {
    PrefixAt(h, a, |h|);
    assert h[..|h|] == h;
  }

  lemma {:induction false} EndsRunSnoc(c: Config, h: seq<Arrival>, replies: seq<bool>, from: nat, a: Arrival,
                                       reply: bool)
    requires |h| == |replies| && from <= |h| && EndsRun(c, h, replies, from, false)
    ensures EndsRun(c, h + [a], replies + [reply], from,
                    Decide(c, ServerRun(c, h), a) == Answered(K.Accepted) && !reply)
  {
    var g, r, gaveUp := h + [a], replies + [reply], Decide(c, ServerRun(c, h), a) == Answered(K.Accepted) && !reply;
    GaveUpSnoc(c, h, replies, a, reply);
    forall i | from < i <= |g|
      ensures GaveUp(c, g[..i], r[..i]) <==> gaveUp && i == |g|
    {
      if i <= |h| {
        PrefixAt(h, a, i);
        PrefixAt(replies, reply, i);
      } else {
        assert g[..i] == g && r[..i] == r;
      }
    }
  }

  class Server {
    const config: Config
    const tracker: K.KnockTracker
    const sourceLimiter: TokenBucketLimiter<IpAddr>
    const telemetryLimiter: TokenBucketLimiter<string>
    var bannedSources: BanMap
    var audit: seq<AuditEvent>
    /** Every packet processed so far, in order. */
    ghost var history: seq<Arrival>
    /** For each of them, whether its command succeeded. */
    ghost var replies: seq<bool>

    ghost function State(): ServerState
      reads this, tracker, sourceLimiter, telemetryLimiter
    {
      ServerState(tracker.states, sourceLimiter.buckets, telemetryLimiter.buckets, bannedSources)
    }

    /** The parts are what the configuration makes them. */
    ghost predicate Assembled()
      reads this, tracker, sourceLimiter, telemetryLimiter
    {
      && tracker.Valid() && tracker.params == TrackerOf(config)
      && sourceLimiter.Valid() && sourceLimiter.params == LimiterOf(config)
      && telemetryLimiter.Valid() && telemetryLimiter.params == TelemetryOf(config)
      && sourceLimiter as object != telemetryLimiter as object
    }

    ghost predicate Valid()
      reads this, tracker, sourceLimiter, telemetryLimiter
    {
      Assembled() && Records(config, State(), audit, history, replies)
    }

    constructor (config: Config)
      ensures Valid() && this.config == config && history == [] && replies == [] && audit == []
      ensures fresh(tracker) && fresh(sourceLimiter) && fresh(telemetryLimiter)
    {
      this.config := config;
      this.tracker := new K.KnockTracker(TrackerOf(config));
      this.sourceLimiter := new TokenBucketLimiter(LimiterOf(config));
      this.telemetryLimiter := new TokenBucketLimiter(TelemetryOf(config));
      bannedSources := map[];
      audit := [];
      history, replies := [], [];
    }

    method ExpireBannedSources(now: Time)
      modifies this`bannedSources
      ensures bannedSources == StillBanned(old(bannedSources), now)
      ensures forall ip :: ip in bannedSources <==> ip in old(bannedSources) && now < old(bannedSources)[ip]
      ensures forall ip | ip in bannedSources :: bannedSources[ip] == old(bannedSources)[ip]
    {
      bannedSources := map ip | ip in bannedSources && bannedSources[ip] > now :: bannedSources[ip];
    }

    method IsSourceBanned(ip: IpAddr, now: Time) returns (banned: bool)
      modifies this`bannedSources
      ensures bannedSources == StillBanned(old(bannedSources), now)
      ensures banned <==> ip in bannedSources
    {
      ExpireBannedSources(now);
      banned := ip in bannedSources;
    }

    method RememberBannedSource(ip: IpAddr, now: Time)
      modifies this`bannedSources
      ensures bannedSources == Remembered(config, old(bannedSources), ip, now)
    {
      ExpireBannedSources(now);
      if |bannedSources| >= config.maxPartialStates && ip !in bannedSources {
        return;
      }
      bannedSources := bannedSources[ip := After(now, config.banTimeout)];
    }

    method LogPacketTelemetry(ip: IpAddr, outcome: K.KnockOutcome, now: Time)
      requires telemetryLimiter.Valid() && telemetryLimiter.params == TelemetryOf(config)
      modifies this`audit, telemetryLimiter
      ensures telemetryLimiter.Valid()
      ensures var call := Call(TELEMETRY_KEY, now); var p := TelemetryOf(config);
              var seen := TelemetryGranted(config, old(telemetryLimiter.buckets), now);
              && telemetryLimiter.buckets ==
                   (if TelemetryEnabled(config) then AfterCall(p, old(telemetryLimiter.buckets), call)
                    else old(telemetryLimiter.buckets))
              && audit == old(audit)
                   + if seen then [PacketSeen(ip), OutcomeSeen(ip, Redacted(outcome))] else []
      ensures |audit| > |old(audit)| ==>
                audit[|audit| - 1].outcome ==
                  if outcome == K.Accepted then "accepted" else if outcome == K.Rejected then "rejected"
                  else if outcome == K.Oversized then "oversized" else "progress"
    {
      if !TelemetryEnabled(config) {
        return;
      }
      var granted := telemetryLimiter.Allow(TELEMETRY_KEY, now);
      BucketsSnoc(TelemetryOf(config), Some(IdleTtl(TelemetryOf(config))), old(telemetryLimiter.calls),
                  Call(TELEMETRY_KEY, now));
      if !granted {
        return;
      }
      audit := audit + [PacketSeen(ip)];
      audit := audit + [OutcomeSeen(ip, Redacted(outcome))];
    }

    /** Spends a token of the source's invalid-packet bucket. */
    method TolerateSource(ip: IpAddr, now: Time) returns (granted: bool)
      requires sourceLimiter.Valid() && sourceLimiter.params == LimiterOf(config)
      modifies sourceLimiter
      ensures sourceLimiter.Valid()
      ensures var p := LimiterOf(config); var call := Call(ip, now);
              && granted == AllowStep(p, Some(IdleTtl(p)), old(sourceLimiter.buckets), call).granted
              && sourceLimiter.buckets == AfterCall(p, old(sourceLimiter.buckets), call)
    {
      granted := sourceLimiter.Allow(ip, now);
      BucketsSnoc(LimiterOf(config), Some(IdleTtl(LimiterOf(config))), old(sourceLimiter.calls), Call(ip, now));
    }

    /** The ban is remembered first and stands even if the command fails. */
    method BanSource(ip: IpAddr, now: Time, host: Host)
      modifies this`bannedSources, this`audit, host
      ensures bannedSources == Remembered(config, old(bannedSources), ip, now)
      ensures var command := FirewallOf(config).BanIpCommand(ip);
              var success := old(CommandSucceeds(host, Some(command)));
              && Issued(command, old(host.issued), old(host.kernel), host, now)
              && audit == old(audit) + [if success then RateLimitBan(ip) else FirewallBanFailed(ip)]
    {
      RememberBannedSource(ip, now);
      var done := FirewallOf(config).BanIp(host, ip, now);
      audit := audit + [if done then RateLimitBan(ip) else FirewallBanFailed(ip)];
    }

    method AllowSource(ip: IpAddr, now: Time, host: Host) returns (ok: bool)
      modifies this`audit, host
      ensures var command := FirewallOf(config).AddIpCommand(ip);
              && ok == old(CommandSucceeds(host, Some(command)))
              && Issued(command, old(host.issued), old(host.kernel), host, now)
      ensures audit == old(audit) + [if ok then SshAllow(ip) else FirewallAllowFailed(ip)]
    {
      ok := FirewallOf(config).AddIp(host, ip, now);
      audit := audit + [if ok then SshAllow(ip) else FirewallAllowFailed(ip)];
    }

    /** The first half of `process_packet`: what becomes of the packet. */
    method Judge(packet: K.KnockPacket, now: Time) returns (d: Decision)
      requires Assembled()
      modifies this`bannedSources, tracker, sourceLimiter
      ensures Assembled()
      ensures var a := K.Arrival(packet, now); var st := old(State());
              && d == Decide(config, st, a)
              && tracker.states == NextTracker(config, st, a)
              && sourceLimiter.buckets == NextLimiter(config, st, a)
      ensures bannedSources == StillBanned(old(bannedSources), now)
    {
      DecisionCases(config, State(), K.Arrival(packet, now));
      var banned := IsSourceBanned(packet.sourceIp, now);
      if banned {
        return Ignored;
      }
      var outcome, granted := Examine(packet, now);
      d := if granted then Answered(outcome) else Banished(outcome);
    }

    /** The tracker's answer to a packet of a source that is not banned, and whether the
        source may go on. */
    method Examine(packet: K.KnockPacket, now: Time) returns (outcome: K.KnockOutcome, granted: bool)
      requires Assembled()
      modifies tracker, sourceLimiter
      ensures Assembled()
      ensures var a := K.Arrival(packet, now); var limiter := old(sourceLimiter.buckets);
              && K.Advanced(outcome, tracker.states) == Tracked(config, old(tracker.states), a)
              && granted == (Invalid(outcome) ==> Tolerated(config, limiter, a).granted)
              && sourceLimiter.buckets ==
                   if Invalid(outcome) then AfterCall(LimiterOf(config), limiter, SourceCall(a)) else limiter
    {
      outcome := tracker.Process(packet, now);
      granted := true;
      if outcome == K.Rejected || outcome == K.Oversized {
        granted := TolerateSource(packet.sourceIp, now);
      }
    }

    /** The second half of `process_packet`: commands and audit lines. The result is
        false when a failed allow command ends the daemon. */
    method Act(ip: IpAddr, d: Decision, now: Time, host: Host) returns (ok: bool, ghost success: bool)
      requires Assembled()
      modifies this`bannedSources, this`audit, telemetryLimiter, host
      ensures Assembled()
      ensures telemetryLimiter.buckets == NextTelemetry(config, old(telemetryLimiter.buckets), d, now)
      ensures bannedSources ==
                if d.Banished? then Remembered(config, old(bannedSources), ip, now) else old(bannedSources)
      ensures success == old(CommandSucceeds(host, CommandFor(config, ip, d)))
      ensures Responded(CommandFor(config, ip, d), old(host.issued), old(host.kernel), host, now)
      ensures ok <==> (d == Answered(K.Accepted) ==> success)
      ensures audit == old(audit) + EventsFor(config, old(telemetryLimiter.buckets), ip, d, now, success)
    {
      ok, success := true, CommandSucceeds(host, CommandFor(config, ip, d));
      match d {
        case Ignored =>
        case Banished(outcome) => BanSource(ip, now, host);
        case Answered(outcome) =>
          LogPacketTelemetry(ip, outcome, now);
          if outcome == K.Accepted {
            ok := AllowSource(ip, now, host);
          }
      }
    }

    /** `process_packet`. The result is false when a failed allow command ends the daemon. */
    method ProcessPacket(packet: K.KnockPacket, now: Time, host: Host) returns (ok: bool)
      requires Valid()
      modifies this, tracker, sourceLimiter, telemetryLimiter, host
      ensures Valid()
      ensures history == old(history) + [K.Arrival(packet, now)]
      ensures var d := Decide(config, old(State()), K.Arrival(packet, now));
              var command := CommandFor(config, packet.sourceIp, d);
              var success := old(CommandSucceeds(host, command));
              && replies == old(replies) + [success]
              && Responded(command, old(host.issued), old(host.kernel), host, now)
              && (ok <==> (d == Answered(K.Accepted) ==> success))
              && audit == old(audit) + EventsFor(config, old(State()).telemetry, packet.sourceIp, d, now, success)
    {
      ghost var a, st, log := K.Arrival(packet, now), State(), audit;
      ghost var d, success;
      ok, d, success := Handle(packet, now, host);
      RecordsSnoc(config, st, log, history, replies, a, success);
      history, replies := history + [a], replies + [success];
    }

    /** What `process_packet` does to the state, the host and the audit trail. */
    method Handle(packet: K.KnockPacket, now: Time, host: Host)
      returns (ok: bool, ghost d: Decision, ghost success: bool)
      requires Assembled()
      modifies this`bannedSources, this`audit, tracker, sourceLimiter, telemetryLimiter, host
      ensures Assembled() && State() == Next(config, old(State()), K.Arrival(packet, now))
      ensures d == Decide(config, old(State()), K.Arrival(packet, now))
      ensures success == old(CommandSucceeds(host, CommandFor(config, packet.sourceIp, d)))
      ensures Responded(CommandFor(config, packet.sourceIp, d), old(host.issued), old(host.kernel), host, now)
      ensures ok <==> (d == Answered(K.Accepted) ==> success)
      ensures audit == old(audit) + EventsFor(config, old(State()).telemetry, packet.sourceIp, d, now, success)
    {
      BanTwice(config, bannedSources, packet.sourceIp, now);
      var decision := Judge(packet, now);
      d := decision;
      ok, success := Act(packet.sourceIp, decision, now, host);
    }
  }

  /** Whether the command the packet calls for will succeed on this host. */
  ghost predicate CommandSucceeds(host: Host, command: Option<Command>)
    reads host
  {
    command.Some? && host.fate(|host.issued|).Works? && Exec(host.kernel, command.value, 0).status.success
  }

  /** One command went to the host, and did there what its fate lets it do. */
  ghost predicate Issued(command: Command, issued: seq<Command>, kernel: Kernel, host: Host, now: Time)
    reads host
  {
    && host.issued == issued + [command]
    && host.kernel == Left(host.fate(|issued|), Exec(kernel, command, now), kernel)
  }

  ghost predicate Responded(command: Option<Command>, issued: seq<Command>, kernel: Kernel, host: Host, now: Time)
    reads host
  {
    match command
    case None => host.issued == issued && host.kernel == kernel
    case Some(cmd) => Issued(cmd, issued, kernel, host, now)
  }

  /** Sweeping the ban map a second time at the same instant changes nothing. */
  lemma {:induction false} BanTwice(c: Config, banned: BanMap, ip: IpAddr, now: Time)
    ensures StillBanned(StillBanned(banned, now), now) == StillBanned(banned, now)
    ensures Remembered(c, StillBanned(banned, now), ip, now) == Remembered(c, banned, ip, now)
  {
    assert StillBanned(StillBanned(banned, now), now) == StillBanned(banned, now);
  }
}
