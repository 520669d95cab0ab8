/** The knock tracker (src/knock.rs): a reset automaton per source inside one
    bounded map whose entries expire lazily, on any source's packet. */
module Knock {
  import opened Base
  import opened Settings

  datatype KnockPacket = KnockPacket(sourceIp: IpAddr, protocol: Protocol, port: Option<u16>, payloadSize: nat)

  datatype SourceState = SourceState(nextStep: nat, firstSeen: Time, lastSeen: Time)

  datatype KnockOutcome = Accepted | Progress(nextStep: nat) | Rejected | Oversized

  datatype TrackerParams = TrackerParams(
    sequence: seq<KnockStep>,
    sequenceWindow: Duration,
    partialStateTimeout: Duration,
    maxPartialStates: nat,
    maxPayloadSize: nat)

  /** A packet and the instant at which it is processed. */
  datatype Arrival = Arrival(packet: KnockPacket, time: Time)

  type States = map<IpAddr, SourceState>

  predicate Live(p: TrackerParams, s: SourceState, now: Time) {
    Since(now, s.lastSeen) <= p.partialStateTimeout && Since(now, s.firstSeen) <= p.sequenceWindow
  }

  function Expired(p: TrackerParams, m: States, now: Time): States {
    map ip | ip in m && Live(p, m[ip], now) :: m[ip]
  }

  predicate MatchesStep(p: TrackerParams, k: nat, packet: KnockPacket) {
    k < |p.sequence| && p.sequence[k] == KnockStep(packet.protocol, packet.port, packet.payloadSize)
  }

  /** Whether the table may take an entry for `ip` in addition to those of other sources. */
  predicate HasRoom(p: TrackerParams, m: States, ip: IpAddr) {
    |m - {ip}| < p.maxPartialStates
  }

  /** An outcome and the entry the source is left with. */
  datatype Reply = Reply(outcome: KnockOutcome, entry: Option<SourceState>)

  /** What one packet does to its own source. */
  function SourceStep(p: TrackerParams, st: Option<SourceState>, packet: KnockPacket, now: Time, room: bool): (r: Reply)
    ensures match r.entry
            case Some(e) => r.outcome == Progress(e.nextStep) && e.lastSeen == now
            case None => !r.outcome.Progress?
  {
    if packet.payloadSize > p.maxPayloadSize then
      Reply(Oversized, None)
    else
      var expected := if st.Some? then st.value.nextStep else 0;
      if !MatchesStep(p, expected, packet) then
        if MatchesStep(p, 0, packet) && room then Started(now) else Reply(Rejected, None)
      else if expected + 1 == |p.sequence| then
        Reply(Accepted, None)
      else if st.None? then
        if room then Started(now) else Reply(Rejected, None)
      else
        Reply(Progress(expected + 1), Some(SourceState(expected + 1, st.value.firstSeen, now)))
  }

  function Started(now: Time): Reply {
    Reply(Progress(1), Some(SourceState(1, now, now)))
  }

  /** An outcome and the table it leaves. */
  datatype Advanced = Advanced(outcome: KnockOutcome, states: States)

  /** What one packet does to the whole table. */
  function Step(p: TrackerParams, m: States, a: Arrival): Advanced {
    var live := Expired(p, m, a.time);
    var ip := a.packet.sourceIp;
    var r := SourceStep(p, Lookup(live, ip), a.packet, a.time, HasRoom(p, live, ip));
    Advanced(r.outcome, Put(live, ip, r.entry))
  }

  /** The table after a whole interleaved run, starting from an empty one. */
  function Run(p: TrackerParams, h: seq<Arrival>): States {
    if h == [] then map[] else Step(p, Run(p, h[..|h| - 1]), h[|h| - 1]).states
  }

  /** Every entry waits for a proper step: at least one matched, at least one missing. */
  ghost predicate StepsInRange(p: TrackerParams, m: States) {
    forall ip | ip in m :: 1 <= m[ip].nextStep < |p.sequence|
  }

  lemma {:induction false} EntryInRange(p: TrackerParams, st: Option<SourceState>, packet: KnockPacket, now: Time,
                                        room: bool)
    requires st.Some? ==> 1 <= st.value.nextStep < |p.sequence|
    ensures var e := SourceStep(p, st, packet, now, room).entry; e.Some? ==> 1 <= e.value.nextStep < |p.sequence|
  {
  }

  lemma {:induction false} StepStepsInRange(p: TrackerParams, m: States, a: Arrival)
    requires StepsInRange(p, m)
    ensures StepsInRange(p, Step(p, m, a).states)
  {
    var live := Expired(p, m, a.time);
    var ip := a.packet.sourceIp;
    EntryInRange(p, Lookup(live, ip), a.packet, a.time, HasRoom(p, live, ip));
  }

  lemma {:induction false} RunStepsInRange(p: TrackerParams, h: seq<Arrival>)
    ensures StepsInRange(p, Run(p, h))
    decreases |h|
  {
    if h != [] {
      RunStepsInRange(p, h[..|h| - 1]);
      StepStepsInRange(p, Run(p, h[..|h| - 1]), h[|h| - 1]);
    }
  }

  lemma {:induction false} RunSnoc(p: TrackerParams, h: seq<Arrival>, a: Arrival)
    ensures Run(p, h + [a]) == Step(p, Run(p, h), a).states
  {
    assert (h + [a])[..|h|] == h;
  }

  class KnockTracker {
    const params: TrackerParams
    var states: States
    /** Every packet processed so far, in order. */
    ghost var history: seq<Arrival>

    ghost predicate Valid()
      reads this
    {
      states == Run(params, history) && StepsInRange(params, states)
    }

    constructor (params: TrackerParams)
      ensures Valid() && this.params == params && history == [] && states == map[]
    {
      this.params := params;
      states := map[];
      history := [];
    }

    method Process(packet: KnockPacket, now: Time) returns (outcome: KnockOutcome)
      requires Valid()
      modifies this
      ensures Valid()
      ensures history == old(history) + [Arrival(packet, now)]
      ensures Advanced(outcome, states) == Step(params, old(states), Arrival(packet, now))
    {
      Expire(now);
      outcome := Advance(packet, now);
      history := history + [Arrival(packet, now)];
      RunSnoc(params, old(history), Arrival(packet, now));
      RunStepsInRange(params, history);
    }

    /** The part of `process` after the expired entries are gone. */
    method Advance(packet: KnockPacket, now: Time) returns (outcome: KnockOutcome)
      requires StepsInRange(params, states)
      requires packet.sourceIp in states ==> Live(params, states[packet.sourceIp], now)
      modifies this`states
      ensures var ip := packet.sourceIp;
              var r := SourceStep(params, Lookup(old(states), ip), packet, now, HasRoom(params, old(states), ip));
              outcome == r.outcome && states == Put(old(states), ip, r.entry)
    {
      var ip := packet.sourceIp;
      ghost var live := states;
      ghost var room := HasRoom(params, live, ip);
      if packet.payloadSize > params.maxPayloadSize {
        states := states - {ip};
        return Oversized;
      }
      var expected := if ip in states then states[ip].nextStep else 0;
      // The two branches of the source that drop the entry and start over (the
      // window exceeded, or another step than the expected one) have one body.
      if (ip in states && Since(now, states[ip].firstSeen) > params.sequenceWindow)
         || !MatchesStep(params, expected, packet)
      {
        states := states - {ip};
        assert room <==> |states| < params.maxPartialStates;
        outcome := StartOrReject(packet, now);
        assert (live - {ip})[ip := SourceState(1, now, now)] == live[ip := SourceState(1, now, now)];
        return;
      }
      var nextStep := expected + 1;
      if nextStep == |params.sequence| {
        states := states - {ip};
        outcome := Accepted;
      } else if expected == 0 {
        assert live - {ip} == live;
        outcome := StartPartialState(ip, now);
      } else {
        var firstSeen := if ip in states then states[ip].firstSeen else now;
        states := states[ip := SourceState(nextStep, firstSeen, now)];
        outcome := Progress(nextStep);
      }
    }

    method Expire(now: Time)
      modifies this`states
      ensures states == Expired(params, old(states), now)
      ensures forall ip :: ip in states <==>
                && ip in old(states)
                && Since(now, old(states)[ip].lastSeen) <= params.partialStateTimeout
                && Since(now, old(states)[ip].firstSeen) <= params.sequenceWindow
      ensures forall ip | ip in states :: states[ip] == old(states)[ip]
    {
      states := map ip | ip in states && Live(params, states[ip], now) :: states[ip];
    }

    method StartOrReject(packet: KnockPacket, now: Time) returns (outcome: KnockOutcome)
      requires packet.sourceIp !in states
      modifies this`states
      ensures var start := MatchesStep(params, 0, packet) && |old(states)| < params.maxPartialStates;
              && outcome == (if start then Progress(1) else Rejected)
              && states == (if start then old(states)[packet.sourceIp := SourceState(1, now, now)] else old(states))
    {
      if MatchesStep(params, 0, packet) {
        outcome := StartPartialState(packet.sourceIp, now);
      } else {
        outcome := Rejected;
      }
    }

    method StartPartialState(ip: IpAddr, now: Time) returns (outcome: KnockOutcome)
      modifies this`states
      ensures var start := ip in old(states) || |old(states)| < params.maxPartialStates;
              && outcome == (if start then Progress(1) else Rejected)
              && states == (if start then old(states)[ip := SourceState(1, now, now)] else old(states))
    {
      if ip !in states && |states| >= params.maxPartialStates {
        return Rejected;
      }
      states := states[ip := SourceState(1, now, now)];
      outcome := Progress(1);
    }
  }
}
