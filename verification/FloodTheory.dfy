/** How a full ban map lets a banned source through: for every validated configuration a run
    that fills the map, bans one source more, and hears it again. */
module FloodTheory {
  import opened Base
  import opened Settings
  import K = Knock
  import KT = KnockTheory
  import opened RateLimit
  import RT = RateTheory
  import opened Server
  import ST = ServerTheory

  /** A packet too long for any step, which costs its source a token. */
  function Flood(c: Config, ip: IpAddr): Arrival {
    K.Arrival(K.KnockPacket(ip, Udp, None, c.maxPayloadSize + 1), 0)
  }

  /** All in the first instant, when no ban has expired. */
  ghost predicate Early(c: Config, h: seq<Arrival>) {
    && KT.OrderedUpTo(h, 0)
    && forall ip | ip in ServerRun(c, h).banned :: ServerRun(c, h).banned[ip] > 0
  }

  lemma {:induction false} NoneExpired(banned: BanMap)
    requires forall ip | ip in banned :: banned[ip] > 0
    ensures StillBanned(banned, 0) == banned
  {
  }

  lemma {:induction false} FloodTracked(c: Config, st: ServerState, ip: IpAddr)
    ensures Tracked(c, st.tracker, Flood(c, ip)).outcome == K.Oversized
  {
  }

  /** A source floods: the packet is tolerated or banished, and costs a token. */
  lemma {:induction false} FloodDecided(c: Config, st: ServerState, ip: IpAddr)
    requires ip !in StillBanned(st.banned, 0)
    ensures var d := Decide(c, st, Flood(c, ip));
            d in {Answered(K.Oversized), Banished(K.Oversized)} && Spends(c, st, Flood(c, ip))
  {
    FloodTracked(c, st, ip);
    ST.DecisionTracks(c, st, Flood(c, ip), Tracked(c, st.tracker, Flood(c, ip)));
  }

  /** So many calls, all in the first instant. */
  ghost predicate Zeros(ts: seq<Time>, n: nat) {
    |ts| == n && forall i | 0 <= i < n :: ts[i] == 0
  }

  lemma {:induction false} ZerosAre(ts: seq<Time>, n: nat)
    requires Zeros(ts, n)
    ensures ts == RT.Then([], 0, n)
    decreases n
  {
    if n > 0 {
      ZerosAre(ts[..n - 1], n - 1);
    }
  }

  /** In one instant the first `capacity` calls are granted, and the next is not. */
  lemma {:induction false} InstantCalls(c: Config, ts: seq<Time>, n: nat)
    requires Zeros(ts, n) && 0 < n <= c.invalidBurstLimit + 1
    ensures RT.KeyAnswer(LimiterOf(c), Some(IdleTtl(LimiterOf(c))), ts).granted <==> n <= c.invalidBurstLimit
  {
    var p := LimiterOf(c);
    ZerosAre(ts, n);
    ST.LimiterInterval(c);
    if n <= c.invalidBurstLimit {
      RT.Burst(p, Some(IdleTtl(p)), [], 0, n);
    } else {
      RT.DeniedAtLast(p, Some(IdleTtl(p)), [], 0, c.invalidBurstLimit);
    }
  }

  /** The invalid packets so far of every source but one are the same in both runs. */
  ghost predicate OthersSame(c: Config, h: seq<Arrival>, g: seq<Arrival>, ip: IpAddr) {
    forall x | x != ip :: ST.InvalidTimes(c, g, x) == ST.InvalidTimes(c, h, x)
  }

  lemma {:induction false} FloodCosts(c: Config, h: seq<Arrival>, ip: IpAddr, n: nat)
    requires KT.InOrder(h + [Flood(c, ip)]) && Zeros(ST.InvalidTimes(c, h, ip), n)
    requires ip !in StillBanned(ServerRun(c, h).banned, 0)
    ensures var ts := ST.InvalidTimes(c, h + [Flood(c, ip)], ip);
            && Zeros(ts, n + 1)
            && (Decide(c, ServerRun(c, h), Flood(c, ip)).Banished?
                <==> !RT.KeyAnswer(LimiterOf(c), Some(IdleTtl(LimiterOf(c))), ts).granted)
  {
    FloodDecided(c, ServerRun(c, h), ip);
    ST.InvalidIsLocal(c, h, Flood(c, ip));
  }

  /** It is banished exactly when its tokens are used up. */
  lemma {:induction false} FloodJudged(c: Config, h: seq<Arrival>, ip: IpAddr, n: nat)
    requires KT.InOrder(h + [Flood(c, ip)]) && n <= c.invalidBurstLimit
    requires ip !in StillBanned(ServerRun(c, h).banned, 0) && Zeros(ST.InvalidTimes(c, h, ip), n)
    ensures Decide(c, ServerRun(c, h), Flood(c, ip)).Banished? <==> n == c.invalidBurstLimit
    ensures Zeros(ST.InvalidTimes(c, h + [Flood(c, ip)], ip), n + 1)
  {
    FloodCosts(c, h, ip, n);
    InstantCalls(c, ST.InvalidTimes(c, h + [Flood(c, ip)], ip), n + 1);
  }

  lemma {:induction false} OthersUntouched(c: Config, h: seq<Arrival>, ip: IpAddr)
    ensures OthersSame(c, h, h + [Flood(c, ip)], ip)
  {
    forall x | x != ip
      ensures ST.InvalidTimes(c, h + [Flood(c, ip)], x) == ST.InvalidTimes(c, h, x)
    {
      ST.InvalidTimesSnoc(c, h, Flood(c, ip), x);
      assert ST.InvalidTimes(c, h, x) + [] == ST.InvalidTimes(c, h, x);
    }
  }

  lemma {:induction false} BannedAfter(c: Config, h: seq<Arrival>, ip: IpAddr, banned: BanMap, banished: bool)
    requires banned == ServerRun(c, h).banned && forall x | x in banned :: banned[x] > 0
    requires banished <==> Decide(c, ServerRun(c, h), Flood(c, ip)).Banished?
    ensures ServerRun(c, h + [Flood(c, ip)]).banned == if banished then Remembered(c, banned, ip, 0) else banned
  {
    NoneExpired(banned);
    ServerRunSnoc(c, h, Flood(c, ip));
  }

  lemma {:induction false} FloodStep(c: Config, h: seq<Arrival>, ip: IpAddr, n: nat)
    requires Early(c, h) && ip !in ServerRun(c, h).banned && n <= c.invalidBurstLimit
    requires Zeros(ST.InvalidTimes(c, h, ip), n)
    ensures Decide(c, ServerRun(c, h), Flood(c, ip)).Banished? <==> n == c.invalidBurstLimit
    ensures var banned := ServerRun(c, h).banned;
            ServerRun(c, h + [Flood(c, ip)]).banned
            == if n == c.invalidBurstLimit then Remembered(c, banned, ip, 0) else banned
    ensures KT.OrderedUpTo(h + [Flood(c, ip)], 0) && OthersSame(c, h, h + [Flood(c, ip)], ip)
    ensures Zeros(ST.InvalidTimes(c, h + [Flood(c, ip)], ip), n + 1)
  {
    NoneExpired(ServerRun(c, h).banned);
    KT.OrderedSnoc(h, 0, Flood(c, ip));
    FloodJudged(c, h, ip, n);
    OthersUntouched(c, h, ip);
    BannedAfter(c, h, ip, ServerRun(c, h).banned, n == c.invalidBurstLimit);
  }

  /** From `h` to `g` the source used up `n` tokens, and nothing else happened. */
  ghost predicate UsedUp(c: Config, h: seq<Arrival>, g: seq<Arrival>, ip: IpAddr, n: nat) {
    && Early(c, g) && ServerRun(c, g).banned == ServerRun(c, h).banned && OthersSame(c, h, g, ip)
    && Zeros(ST.InvalidTimes(c, g, ip), n)
  }

  lemma {:induction false} UseOne(c: Config, h: seq<Arrival>, g: seq<Arrival>, ip: IpAddr, n: nat)
    requires UsedUp(c, h, g, ip, n) && ip !in ServerRun(c, h).banned && n < c.invalidBurstLimit
    ensures UsedUp(c, h, g + [Flood(c, ip)], ip, n + 1)
  {
    FloodStep(c, g, ip, n);
  }

  lemma {:induction false} UseUp(c: Config, h: seq<Arrival>, ip: IpAddr, n: nat) returns (g: seq<Arrival>)
    requires Early(c, h) && ip !in ServerRun(c, h).banned && n <= c.invalidBurstLimit
    requires ST.InvalidTimes(c, h, ip) == []
    ensures UsedUp(c, h, g, ip, n)
  {
    g := h;
    var used := 0;
    while used < n
      invariant 0 <= used <= n && UsedUp(c, h, g, ip, used)
    {
      UseOne(c, h, g, ip, used);
      g, used := g + [Flood(c, ip)], used + 1;
    }
  }

  /** `k` sources are banned, and the others have sent nothing invalid yet. */
  ghost predicate Banned(c: Config, h: seq<Arrival>, k: nat) {
    && Early(c, h) && |ServerRun(c, h).banned| == k
    && (forall ip | ip in ServerRun(c, h).banned :: ip.V6? && ip.bits < k)
    && forall ip: IpAddr | ip.V6? && k <= ip.bits :: ST.InvalidTimes(c, h, ip) == []
  }

  lemma {:induction false} OneMoreBanned(c: Config, banned: BanMap, k: nat)
    requires 0 < c.banTimeout && |banned| == k < c.maxPartialStates
    requires forall ip | ip in banned :: banned[ip] > 0 && ip.V6? && ip.bits < k
    ensures var after := Remembered(c, banned, V6(k), 0);
            && |after| == k + 1 && forall ip | ip in after :: after[ip] > 0 && ip.V6? && ip.bits < k + 1
  {
    NoneExpired(banned);
  }

  lemma {:induction false} BanNext(c: Config, h: seq<Arrival>, k: nat) returns (g: seq<Arrival>)
    requires 0 < c.banTimeout && Banned(c, h, k) && k < c.maxPartialStates
    ensures Banned(c, g, k + 1)
  {
    var before := UseUp(c, h, V6(k), c.invalidBurstLimit);
    FloodStep(c, before, V6(k), c.invalidBurstLimit);
    OneMoreBanned(c, ServerRun(c, h).banned, k);
    g := before + [Flood(c, V6(k))];
  }

  lemma {:induction false} BanAll(c: Config, k: nat) returns (h: seq<Arrival>)
    requires 0 < c.banTimeout && k <= c.maxPartialStates
    ensures Banned(c, h, k)
    decreases k
  {
    h := [];
    if k > 0 {
      var before := BanAll(c, k - 1);
      h := BanNext(c, before, k - 1);
    }
  }

  lemma {:induction false} NextIsProcessed(c: Config, h: seq<Arrival>, a: Arrival, b: Arrival)
    requires KT.InOrder(h + [a] + [b]) && Decide(c, ServerRun(c, h), a).Banished? && 0 < c.banTimeout
    requires b.packet.sourceIp == a.packet.sourceIp && b.time == a.time
    requires c.maxPartialStates <= |StillBanned(ServerRun(c, h).banned, a.time)|
    ensures Decide(c, ServerRun(c, h + [a]), b) != Ignored
  {
    assert h + [a] + [] == h + [a];
    ST.BanHoldsIffRoom(c, h, a, [], b);
  }

  /** For every validated configuration there is a run in which a source is banned, and its
      very next packet, in the same instant, is not ignored. */
  lemma {:induction false} FullMapLetsThrough(c: Config) returns (h: seq<Arrival>, a: Arrival, b: Arrival)
    requires WellFormed(c)
    ensures KT.InOrder(h + [a] + [b]) && a.packet.sourceIp == b.packet.sourceIp && a.time == b.time
    ensures Decide(c, ServerRun(c, h), a).Banished? && Decide(c, ServerRun(c, h + [a]), b) != Ignored
  {
    var ip := V6(c.maxPartialStates);
    var full := BanAll(c, c.maxPartialStates);
    h := UseUp(c, full, ip, c.invalidBurstLimit);
    a, b := Flood(c, ip), Flood(c, ip);
    FloodStep(c, h, ip, c.invalidBurstLimit);
    KT.OrderedSnoc(h + [a], 0, b);
    NoneExpired(ServerRun(c, h).banned);
    NextIsProcessed(c, h, a, b);
  }
}
