/** Who can reach SSH, and when: the server's commands carried out on the machine that
    the firewall setup left. */
module Access {
  import opened Base
  import opened Settings
  import K = Knock
  import KT = KnockTheory
  import opened Firewall
  import opened FirewallTheory
  import opened Server
  import ST = ServerTheory
  import AT = AuditTheory
  import opened ExactTheory

  /** A packet, and whether the command that it calls for takes effect. For a packet that
      calls for none this says nothing, and nothing depends on it. */
  datatype Turn = Turn(arrival: Arrival, effect: bool)

  function Arrivals(turns: seq<Turn>): seq<Arrival> {
    if turns == [] then [] else Arrivals(turns[..|turns| - 1]) + [turns[|turns| - 1].arrival]
  }

  lemma {:induction false} ArrivalsSnoc(turns: seq<Turn>, x: Turn)
    ensures Arrivals(turns + [x]) == Arrivals(turns) + [x.arrival]
  {
    assert (turns + [x])[..|turns|] == turns;
  }

  lemma {:induction false} ArrivalsLength(turns: seq<Turn>)
    ensures |Arrivals(turns)| == |turns|
    ensures turns != [] ==> Arrivals(turns)[|turns| - 1] == turns[|turns| - 1].arrival
    decreases |turns|
  {
    if turns != [] {
      ArrivalsLength(turns[..|turns| - 1]);
    }
  }

  /** The decision on a packet that follows the given ones. */
  function DecisionAfter(c: Config, turns: seq<Turn>, a: Arrival): Decision {
    Decide(c, ServerRun(c, Arrivals(turns)), a)
  }

  function Effected(c: Config, k: Kernel, d: Decision, x: Turn): Kernel {
    var command := CommandFor(c, x.arrival.packet.sourceIp, d);
    if command.Some? && x.effect then Exec(k, command.value, x.arrival.time).kernel else k
  }

  /** The machine after a run of the server that began on `k`. */
  function KernelAfter(c: Config, k: Kernel, turns: seq<Turn>): Kernel {
    if turns == [] then k
    else
      var before, x := turns[..|turns| - 1], turns[|turns| - 1];
      Effected(c, KernelAfter(c, k, before), DecisionAfter(c, before, x.arrival), x)
  }

  predicate SetsThere(c: Config, k: Kernel) {
    c.ipsetName in k.sets && c.banIpsetName in k.sets
  }

  /** The sets exist and hold nobody. */
  predicate FreshSets(c: Config, k: Kernel) {
    SetsThere(c, k) && k.sets[c.ipsetName].entries == map[] && k.sets[c.banIpsetName].entries == map[]
  }

  /** The machine is ready for the daemon: the sets are there, whatever they hold, and the
      chain protects the port. */
  ghost predicate Ready(c: Config, k: Kernel, others: Others) {
    SetsThere(c, k) && Protects(FirewallOf(c), InputOf(k, c.firewallBackend), others, c.sshPort)
  }

  /** The set is there, made with this timeout and for this family of addresses. */
  predicate MadeAs(k: Kernel, name: string, timeout: nat, family: AddressFamily) {
    name in k.sets && k.sets[name].kind == SetKind(timeout, family)
  }

  /** The `setup-firewall` command. On an honest host it succeeds exactly if the sets can be
      made and all its commands work; it then leaves the complete chain, which is the installed
      one where no rule was there before. */
  method SetupFirewall(c: Config, host: Host, now: Time) returns (ok: bool)
    modifies host
    ensures var fw, n, rules := FirewallOf(c), |old(host.issued)|, old(InputOf(host.kernel, c.firewallBackend));
            var commands := fw.SetupCommands(rules, c.sshPort);
            host.Honest(n, SETUP_LENGTH) ==>
              && (ok <==> fw.Makeable(old(host.kernel)) && AllWork(host.fate, n, |commands|))
              && Begun(old(host.issued), host.issued, commands, ok)
              && fw.OnTheWay(rules, c.sshPort, InputOf(host.kernel, c.firewallBackend), ok)
              && (ok && Untouched(fw, rules, c.sshPort) ==>
                    InputOf(host.kernel, c.firewallBackend) == Installed(fw, rules, c.sshPort))
    ensures host.Honest(|old(host.issued)|, SETUP_LENGTH) && FirewallOf(c).Makeable(old(host.kernel)) ==>
              Ended(host.fate, |old(host.issued)|, |host.issued|, ok)
    ensures ok ==> && MadeAs(host.kernel, c.ipsetName, c.ipTimeout, c.addressFamily)
                   && MadeAs(host.kernel, c.banIpsetName, c.banTimeout, c.addressFamily)
    ensures FirewallOf(c).SetsKept(old(host.kernel), host.kernel) && |old(host.issued)| < |host.issued|
  {
    var fw := FirewallOf(c);
    ghost var rules := InputOf(host.kernel, c.firewallBackend);
    ok := fw.Setup(host, c.sshPort, now);
    if Untouched(fw, rules, c.sshPort) {
      SetupInstalls(fw, rules, c.sshPort, []);
    }
  }

  /** The two sets: of allowed and of banned sources. */
  datatype List = AllowList | BanList

  function SetName(c: Config, list: List): string {
    if list == AllowList then c.ipsetName else c.banIpsetName
  }

  function Timeout(c: Config, list: List): nat {
    if list == AllowList then c.ipTimeout else c.banTimeout
  }

  predicate Calls(d: Decision, list: List) {
    if list == AllowList then d == Answered(K.Accepted) else d.Banished?
  }

  /** The turn puts the source into the set. */
  predicate Puts(c: Config, turns: seq<Turn>, x: Turn, ip: IpAddr, list: List) {
    x.effect && x.arrival.packet.sourceIp == ip && Calls(DecisionAfter(c, turns, x.arrival), list)
  }

  /** When the source was last put into the set. */
  function LastPut(c: Config, turns: seq<Turn>, ip: IpAddr, list: List): Option<Time> {
    if turns == [] then None
    else
      var before, x := turns[..|turns| - 1], turns[|turns| - 1];
      if Puts(c, before, x, ip, list) then Some(x.arrival.time) else LastPut(c, before, ip, list)
  }

  lemma {:induction false} LastPutSnoc(c: Config, turns: seq<Turn>, x: Turn, ip: IpAddr, list: List)
    ensures LastPut(c, turns + [x], ip, list) ==
            if Puts(c, turns, x, ip, list) then Some(x.arrival.time) else LastPut(c, turns, ip, list)
  {
    assert (turns + [x])[..|turns|] == turns;
  }

  /** When the source leaves the set: the timeout after its last command, or if there was
      none, when it would have left the set that the run began with. */
  function ExpiryOf(c: Config, k: Kernel, stamp: Option<Time>, ip: IpAddr, list: List): Option<Time>
    requires SetsThere(c, k)
  {
    if stamp.Some? then Some(After(stamp.value, Timeout(c, list))) else Lookup(k.sets[SetName(c, list)].entries, ip)
  }

  /** The set holds the source as its last command says, or as at the start of the run. */
  ghost predicate SetFollows(c: Config, k: Kernel, after: Kernel, turns: seq<Turn>, ip: IpAddr, list: List)
    requires SetsThere(c, k)
  {
    && SetsThere(c, after)
    && Lookup(after.sets[SetName(c, list)].entries, ip) == ExpiryOf(c, k, LastPut(c, turns, ip, list), ip, list)
  }

  lemma {:induction false} EffectOnSet(c: Config, k: Kernel, d: Decision, x: Turn, ip: IpAddr, list: List)
    requires c.ipsetName != c.banIpsetName && SetsThere(c, k)
    ensures var after := Effected(c, k, d, x);
            && SetsThere(c, after)
            && Lookup(after.sets[SetName(c, list)].entries, ip) ==
                 if x.effect && x.arrival.packet.sourceIp == ip && Calls(d, list)
                 then Some(After(x.arrival.time, Timeout(c, list)))
                 else Lookup(k.sets[SetName(c, list)].entries, ip)
  {
  }

  lemma {:induction false} SetFollowsRun(c: Config, k: Kernel, turns: seq<Turn>, ip: IpAddr, list: List)
    requires c.ipsetName != c.banIpsetName && SetsThere(c, k)
    ensures SetFollows(c, k, KernelAfter(c, k, turns), turns, ip, list)
    decreases |turns|
  {
    if turns != [] {
      var before, x := turns[..|turns| - 1], turns[|turns| - 1];
      SplitLast(turns);
      SetFollowsRun(c, k, before, ip, list);
      EffectOnSet(c, KernelAfter(c, k, before), DecisionAfter(c, before, x.arrival), x, ip, list);
      LastPutSnoc(c, before, x, ip, list);
    }
  }

  // ---------------------------------------------------------------------------
  // The window, by what the source sent
  // ---------------------------------------------------------------------------

  /** At turn `i` the source completed a knock, and no failure of an allow command kept it
      out: its last packets then spelled the sequence in time, from a packet free to begin. */
  ghost predicate Knocked(c: Config, turns: seq<Turn>, i: nat, ip: IpAddr)
    requires i < |turns|
  {
    && turns[i].arrival.packet.sourceIp == ip && !AllowFailed(c, turns, i)
    && ST.EndsKnock(c, ST.TraceOf(c, Arrivals(turns[..i + 1]), ip), |c.sequence|)
  }

  predicate AllowFailed(c: Config, turns: seq<Turn>, i: nat)
    requires i < |turns|
  {
    DecisionAfter(c, turns[..i], turns[i].arrival) == Answered(K.Accepted) && !turns[i].effect
  }

  /** Turn `i` put the source into the set. */
  ghost predicate PutAt(c: Config, turns: seq<Turn>, i: nat, ip: IpAddr, list: List)
    requires i < |turns|
  {
    Puts(c, turns[..i], turns[i], ip, list)
  }

  lemma {:induction false} AllowedIsKnocked(c: Config, turns: seq<Turn>, i: nat, ip: IpAddr)
    requires WellFormed(c) && NonRecurring(c.sequence) && i < |turns| && KT.InOrder(Arrivals(turns[..i + 1]))
    ensures PutAt(c, turns, i, ip, AllowList) <==> Knocked(c, turns, i, ip)
  {
    ArrivalsUpTo(turns, i);
    ST.OpensExactlyOnKnock(c, Arrivals(turns[..i]), turns[i].arrival);
  }

  lemma {:induction false} FrontInOrder(turns: seq<Turn>, x: Turn)
    requires KT.InOrder(Arrivals(turns + [x]))
    ensures KT.InOrder(Arrivals(turns)) && (turns != [] ==> turns[|turns| - 1].arrival.time <= x.arrival.time)
  {
    ArrivalsSnoc(turns, x);
    ArrivalsLength(turns);
    KT.InOrderSnoc(Arrivals(turns), x.arrival);
  }

  /** Every prefix of the run is in order, and ends no later. */
  lemma {:induction false} PrefixInOrder(turns: seq<Turn>, i: nat)
    requires KT.InOrder(Arrivals(turns)) && i < |turns|
    ensures KT.InOrder(Arrivals(turns[..i + 1])) && turns[i].arrival.time <= turns[|turns| - 1].arrival.time
    decreases |turns|
  {
    if i + 1 == |turns| {
      assert turns[..i + 1] == turns;
    } else {
      var before, x := turns[..|turns| - 1], turns[|turns| - 1];
      SplitLast(turns);
      assert before[..i + 1] == turns[..i + 1] && before[i] == turns[i];
      FrontInOrder(before, x);
      PrefixInOrder(before, i);
    }
  }

  lemma {:induction false} PutAtFront(c: Config, turns: seq<Turn>, x: Turn, i: nat, ip: IpAddr, list: List)
    requires i <= |turns|
    ensures PutAt(c, turns + [x], i, ip, list) <==>
            if i < |turns| then PutAt(c, turns, i, ip, list) else Puts(c, turns, x, ip, list)
  {
    assert (turns + [x])[..i] == turns[..i];
    assert turns[..|turns|] == turns;
  }

  ghost predicate HasPut(c: Config, turns: seq<Turn>, ip: IpAddr, list: List, t: Time) {
    exists i: nat :: i < |turns| && PutAt(c, turns, i, ip, list) && turns[i].arrival.time == t
  }

  ghost predicate NoLaterPut(c: Config, turns: seq<Turn>, ip: IpAddr, list: List, stamp: Option<Time>) {
    forall i: nat :: i < |turns| && PutAt(c, turns, i, ip, list) ==>
      stamp.Some? && turns[i].arrival.time <= stamp.value
  }

  /** The stamp is that of the latest turn that put the source into the set. */
  ghost predicate IsLatest(c: Config, turns: seq<Turn>, ip: IpAddr, list: List, stamp: Option<Time>) {
    (stamp.Some? ==> HasPut(c, turns, ip, list, stamp.value)) && NoLaterPut(c, turns, ip, list, stamp)
  }

  lemma {:induction false} HasPutSnoc(c: Config, turns: seq<Turn>, x: Turn, ip: IpAddr, list: List, t: Time)
    requires if Puts(c, turns, x, ip, list) then t == x.arrival.time else HasPut(c, turns, ip, list, t)
    ensures HasPut(c, turns + [x], ip, list, t)
  {
    var all := turns + [x];
    if Puts(c, turns, x, ip, list) {
      PutAtFront(c, turns, x, |turns|, ip, list);
      assert all[|turns|] == x;
    } else {
      var i: nat :| i < |turns| && PutAt(c, turns, i, ip, list) && turns[i].arrival.time == t;
      PutAtFront(c, turns, x, i, ip, list);
      assert all[i] == turns[i];
    }
  }

  lemma {:induction false} NoLaterPutSnoc(c: Config, turns: seq<Turn>, x: Turn, ip: IpAddr, list: List,
                                          stamp: Option<Time>)
    requires KT.InOrder(Arrivals(turns + [x])) && NoLaterPut(c, turns, ip, list, stamp)
    ensures NoLaterPut(c, turns + [x], ip, list, if Puts(c, turns, x, ip, list) then Some(x.arrival.time) else stamp)
  {
    var all := turns + [x];
    forall i: nat | i < |all| && PutAt(c, all, i, ip, list)
      ensures var next := if Puts(c, turns, x, ip, list) then Some(x.arrival.time) else stamp;
              next.Some? && all[i].arrival.time <= next.value
    {
      PrefixInOrder(all, i);
      PutAtFront(c, turns, x, i, ip, list);
    }
  }

  lemma {:induction false} LastPutIsLatest(c: Config, turns: seq<Turn>, ip: IpAddr, list: List)
    requires KT.InOrder(Arrivals(turns))
    ensures IsLatest(c, turns, ip, list, LastPut(c, turns, ip, list))
    decreases |turns|
  {
    if turns != [] {
      var before, x := turns[..|turns| - 1], turns[|turns| - 1];
      SplitLast(turns);
      FrontInOrder(before, x);
      LastPutIsLatest(c, before, ip, list);
      LastPutSnoc(c, before, x, ip, list);
      var stamp := LastPut(c, before, ip, list);
      NoLaterPutSnoc(c, before, x, ip, list, stamp);
      var next := LastPut(c, turns, ip, list);
      if next.Some? {
        HasPutSnoc(c, before, x, ip, list, next.value);
      }
    }
  }

  ghost predicate FreshPut(c: Config, turns: seq<Turn>, ip: IpAddr, list: List, t: Time) {
    exists i: nat :: i < |turns| && PutAt(c, turns, i, ip, list) && t < After(turns[i].arrival.time, Timeout(c, list))
  }

  ghost predicate NeverPut(c: Config, turns: seq<Turn>, ip: IpAddr, list: List) {
    forall i: nat :: i < |turns| ==> !PutAt(c, turns, i, ip, list)
  }

  /** The source is in the set at `t` exactly when some command for it is that fresh, or it
      was there from before the run until then, and no command of the run replaced that. */
  lemma {:induction false} InSetByTurns(c: Config, k: Kernel, turns: seq<Turn>, ip: IpAddr, list: List, t: Time)
    requires c.ipsetName != c.banIpsetName && SetsThere(c, k) && KT.InOrder(Arrivals(turns))
    ensures InSet(KernelAfter(c, k, turns), SetName(c, list), ip, t)
            <==> FreshPut(c, turns, ip, list, t)
                 || (InSet(k, SetName(c, list), ip, t) && NeverPut(c, turns, ip, list))
  {
    SetFollowsRun(c, k, turns, ip, list);
    LastPutIsLatest(c, turns, ip, list);
  }

  /** At `t` the source is entitled to SSH: it completed a knock within the allow timeout, or
      it was allowed before the run until then, and has not knocked again. */
  ghost predicate Entitled(c: Config, k: Kernel, turns: seq<Turn>, ip: IpAddr, t: Time) {
    || (exists i: nat :: i < |turns| && Knocked(c, turns, i, ip) && t < turns[i].arrival.time + c.ipTimeout * SECOND)
    || (InSet(k, c.ipsetName, ip, t) && forall i: nat :: i < |turns| ==> !Knocked(c, turns, i, ip))
  }

  /** At turn `i` the source was banned, and the command took effect. */
  predicate BannedAt(c: Config, turns: seq<Turn>, i: nat, ip: IpAddr)
    requires i < |turns|
  {
    && turns[i].arrival.packet.sourceIp == ip && turns[i].effect
    && DecisionAfter(c, turns[..i], turns[i].arrival).Banished?
  }

  /** At `t` the source is barred: a ban of it is younger than the ban timeout, or it was
      banned before the run until then, and was not banned again. */
  ghost predicate Barred(c: Config, k: Kernel, turns: seq<Turn>, ip: IpAddr, t: Time) {
    || (exists i: nat :: i < |turns| && BannedAt(c, turns, i, ip) && t < turns[i].arrival.time + c.banTimeout * SECOND)
    || (InSet(k, c.banIpsetName, ip, t) && forall i: nat :: i < |turns| ==> !BannedAt(c, turns, i, ip))
  }

  ghost predicate MayReach(c: Config, k: Kernel, turns: seq<Turn>, ip: IpAddr, t: Time) {
    Entitled(c, k, turns, ip, t) && !Barred(c, k, turns, ip, t)
  }

  lemma {:induction false} PutsAreKnocks(c: Config, turns: seq<Turn>, ip: IpAddr)
    requires WellFormed(c) && NonRecurring(c.sequence) && KT.InOrder(Arrivals(turns))
    ensures forall i: nat :: i < |turns| ==> (PutAt(c, turns, i, ip, AllowList) <==> Knocked(c, turns, i, ip))
  {
    forall i: nat | i < |turns|
      ensures PutAt(c, turns, i, ip, AllowList) <==> Knocked(c, turns, i, ip)
    {
      PrefixInOrder(turns, i);
      AllowedIsKnocked(c, turns, i, ip);
    }
  }

  lemma {:induction false} AllowedIsEntitled(c: Config, k: Kernel, turns: seq<Turn>, ip: IpAddr, t: Time)
    requires WellFormed(c) && NonRecurring(c.sequence) && KT.InOrder(Arrivals(turns))
    ensures FreshPut(c, turns, ip, AllowList, t) || (InSet(k, c.ipsetName, ip, t) && NeverPut(c, turns, ip, AllowList))
            <==> Entitled(c, k, turns, ip, t)
  {
    PutsAreKnocks(c, turns, ip);
  }

  lemma {:induction false} BannedIsBarred(c: Config, k: Kernel, turns: seq<Turn>, ip: IpAddr, t: Time)
    ensures FreshPut(c, turns, ip, BanList, t) || (InSet(k, c.banIpsetName, ip, t) && NeverPut(c, turns, ip, BanList))
            <==> Barred(c, k, turns, ip, t)
  {
    assert forall i: nat :: i < |turns| ==> (PutAt(c, turns, i, ip, BanList) <==> BannedAt(c, turns, i, ip));
  }

  lemma {:induction false} MembershipIsMayReach(c: Config, k: Kernel, turns: seq<Turn>, ip: IpAddr, t: Time)
    requires WellFormed(c) && NonRecurring(c.sequence) && c.ipsetName != c.banIpsetName
    requires SetsThere(c, k) && KT.InOrder(Arrivals(turns))
    ensures var after := KernelAfter(c, k, turns);
            InSet(after, c.ipsetName, ip, t) && !InSet(after, c.banIpsetName, ip, t) <==> MayReach(c, k, turns, ip, t)
  {
    InSetByTurns(c, k, turns, ip, AllowList, t);
    InSetByTurns(c, k, turns, ip, BanList, t);
    AllowedIsEntitled(c, k, turns, ip, t);
    BannedIsBarred(c, k, turns, ip, t);
  }

  /** No command of the server touches a chain. */
  lemma {:induction false} ChainStays(c: Config, k: Kernel, turns: seq<Turn>, program: FirewallBackend)
    ensures InputOf(KernelAfter(c, k, turns), program) == InputOf(k, program)
    decreases |turns|
  {
    if turns != [] {
      ChainStays(c, k, turns[..|turns| - 1], program);
    }
  }

  /** The source's packet to the SSH port is accepted by the machine as it is. */
  predicate ReachesSsh(c: Config, k: Kernel, others: Others, ip: IpAddr, t: Time) {
    Reaches(k, InputOf(k, c.firewallBackend), others, ip, c.sshPort, t)
  }

  lemma {:induction false} ReachesByServing(c: Config, k: Kernel, others: Others, turns: seq<Turn>, ip: IpAddr, t: Time)
    requires Ready(c, k, others)
    ensures var after := KernelAfter(c, k, turns);
            ReachesSsh(c, after, others, ip, t)
            <==> InSet(after, c.ipsetName, ip, t) && !InSet(after, c.banIpsetName, ip, t)
  {
    ChainStays(c, k, turns, c.firewallBackend);
  }

  /** The access window, from the packets to the chain of the machine: a source reaches
      SSH exactly when it may. */
  lemma {:induction false} ReachesExactlyWhenItMay(c: Config, k: Kernel, others: Others, turns: seq<Turn>,
                                                   ip: IpAddr, t: Time)
    requires WellFormed(c) && NonRecurring(c.sequence) && c.ipsetName != c.banIpsetName
    requires Ready(c, k, others) && KT.InOrder(Arrivals(turns))
    ensures ReachesSsh(c, KernelAfter(c, k, turns), others, ip, t) <==> MayReach(c, k, turns, ip, t)
  {
    MembershipIsMayReach(c, k, turns, ip, t);
    ReachesByServing(c, k, others, turns, ip, t);
  }

  lemma {:induction false} PutIsKnocked(c: Config, turns: seq<Turn>, i: nat, ip: IpAddr)
    requires 2 <= |c.sequence| && i < |turns| && KT.InOrder(Arrivals(turns)) && PutAt(c, turns, i, ip, AllowList)
    ensures Knocked(c, turns, i, ip)
  {
    PrefixInOrder(turns, i);
    ArrivalsUpTo(turns, i);
    OpenedByKnock(c, Arrivals(turns[..i]), turns[i].arrival, Arrivals(turns[..i + 1]));
  }

  lemma {:induction false} ArrivalsUpTo(turns: seq<Turn>, i: nat)
    requires i < |turns|
    ensures Arrivals(turns[..i + 1]) == Arrivals(turns[..i]) + [turns[i].arrival]
  {
    assert turns[..i + 1] == turns[..i] + [turns[i]];
    ArrivalsSnoc(turns[..i], turns[i]);
  }

  lemma {:induction false} OpenedByKnock(c: Config, h: seq<Arrival>, a: Arrival, all: seq<Arrival>)
    requires 2 <= |c.sequence| && all == h + [a] && KT.InOrder(all)
    requires Decide(c, ServerRun(c, h), a) == Answered(K.Accepted)
    ensures ST.EndsKnock(c, ST.TraceOf(c, all, a.packet.sourceIp), |c.sequence|)
  {
    ST.OpensOnlyOnKnock(c, h, a);
  }

  /** Nobody reaches SSH who may not, whatever the sequence, from sets that were empty before
      the run: only a completed knock lets a source in, and no longer than it should. */
  lemma {:induction false} ReachesOnlyWhenItMay(c: Config, k: Kernel, others: Others, turns: seq<Turn>,
                                                ip: IpAddr, t: Time)
    requires WellFormed(c) && c.ipsetName != c.banIpsetName
    requires Ready(c, k, others) && FreshSets(c, k) && KT.InOrder(Arrivals(turns))
    ensures ReachesSsh(c, KernelAfter(c, k, turns), others, ip, t) ==> MayReach(c, k, turns, ip, t)
  {
    ReachesByServing(c, k, others, turns, ip, t);
    InSetByTurns(c, k, turns, ip, AllowList, t);
    InSetByTurns(c, k, turns, ip, BanList, t);
    BannedIsBarred(c, k, turns, ip, t);
    if FreshPut(c, turns, ip, AllowList, t) {
      FreshIsEntitled(c, k, turns, ip, t);
    }
  }

  lemma {:induction false} FreshIsEntitled(c: Config, k: Kernel, turns: seq<Turn>, ip: IpAddr, t: Time)
    requires WellFormed(c) && KT.InOrder(Arrivals(turns)) && FreshPut(c, turns, ip, AllowList, t)
    ensures Entitled(c, k, turns, ip, t)
  {
    var i: nat :| i < |turns| && PutAt(c, turns, i, ip, AllowList)
                  && t < After(turns[i].arrival.time, Timeout(c, AllowList));
    PutIsKnocked(c, turns, i, ip);
  }

  // ---------------------------------------------------------------------------
  // The daemon on a host
  // ---------------------------------------------------------------------------

  /** A packet that calls for a command. */
  predicate HasCommand(c: Config, h: seq<Arrival>, a: Arrival) {
    CommandOn(c, h, a).Some?
  }

  /** The number of the next command of a run that begins after `n` commands. */
  function CommandNumber(c: Config, h: seq<Arrival>, n: nat): nat {
    n + |AT.CommandsOf(c, h)|
  }

  function TurnAt(c: Config, h: seq<Arrival>, a: Arrival, fate: nat -> Fault, number: nat): Turn {
    Turn(a, HasCommand(c, h, a) && TakesEffect(fate(number)))
  }

  /** The turns of a run that begins after `n` commands. */
  function TurnsOf(c: Config, h: seq<Arrival>, fate: nat -> Fault, n: nat): seq<Turn> {
    if h == [] then []
    else
      var before, a := h[..|h| - 1], h[|h| - 1];
      TurnsOf(c, before, fate, n) + [TurnAt(c, before, a, fate, CommandNumber(c, before, n))]
  }

  /** The packet calls for a command, and that works. */
  predicate ReplyAt(c: Config, h: seq<Arrival>, a: Arrival, fate: nat -> Fault, number: nat) {
    HasCommand(c, h, a) && fate(number).Works?
  }

  function RepliesTo(c: Config, h: seq<Arrival>, fate: nat -> Fault, n: nat): (replies: seq<bool>)
    ensures |replies| == |h|
  {
    if h == [] then []
    else
      var before, a := h[..|h| - 1], h[|h| - 1];
      RepliesTo(c, before, fate, n) + [ReplyAt(c, before, a, fate, CommandNumber(c, before, n))]
  }

  lemma {:induction false} TurnsSnoc(c: Config, h: seq<Arrival>, a: Arrival, fate: nat -> Fault, n: nat)
    ensures TurnsOf(c, h + [a], fate, n) == TurnsOf(c, h, fate, n) + [TurnAt(c, h, a, fate, CommandNumber(c, h, n))]
  {
    assert (h + [a])[..|h|] == h;
  }

  lemma {:induction false} RepliesSnoc(c: Config, h: seq<Arrival>, a: Arrival, fate: nat -> Fault, n: nat)
    ensures RepliesTo(c, h + [a], fate, n)
            == RepliesTo(c, h, fate, n) + [ReplyAt(c, h, a, fate, CommandNumber(c, h, n))]
  {
    assert (h + [a])[..|h|] == h;
  }

  lemma {:induction false} CommandsSnoc(c: Config, h: seq<Arrival>, a: Arrival)
    ensures AT.CommandsOf(c, h + [a]) == AT.CommandsOf(c, h) + AT.CommandsAt(c, ServerRun(c, h), a, true)
  {
    assert (h + [a])[..|h|] == h;
  }

  /** A run that has been served, after `n` commands of a host with such a fate. */
  ghost predicate Served(c: Config, h: seq<Arrival>, replies: seq<bool>, turns: seq<Turn>, fate: nat -> Fault, n: nat,
                         there: bool)
  {
    turns == TurnsOf(c, h, fate, n) && |replies| == |h| && (there ==> replies == RepliesTo(c, h, fate, n))
  }

  lemma {:induction false} ServedSnoc(c: Config, h: seq<Arrival>, replies: seq<bool>, turns: seq<Turn>,
                                      fate: nat -> Fault, n: nat, there: bool, a: Arrival, reply: bool, number: nat)
    requires Served(c, h, replies, turns, fate, n, there) && number == CommandNumber(c, h, n)
    requires there ==> reply == ReplyAt(c, h, a, fate, number)
    ensures Served(c, h + [a], replies + [reply], turns + [TurnAt(c, h, a, fate, number)], fate, n, there)
  {
    TurnsSnoc(c, h, a, fate, n);
    RepliesSnoc(c, h, a, fate, n);
  }

  lemma {:induction false} SetsStay(c: Config, k: Kernel, turns: seq<Turn>)
    requires SetsThere(c, k)
    ensures SetsThere(c, KernelAfter(c, k, turns))
    decreases |turns|
  {
    if turns != [] {
      SetsStay(c, k, turns[..|turns| - 1]);
    }
  }

  /** One packet through the daemon: the machine stays the one that the turns so far
      describe, and the turn, the reply and the result are those of the command's fate. */
  method Serve(server: Server, host: Host, packet: K.KnockPacket, now: Time, ghost k: Kernel, ghost turns: seq<Turn>)
    returns (ok: bool, ghost after: seq<Turn>, ghost reply: bool)
    requires server.Valid()
    requires Arrivals(turns) == server.history && host.kernel == KernelAfter(server.config, k, turns)
    modifies server, server.tracker, server.sourceLimiter, server.telemetryLimiter, host
    ensures server.Valid()
    ensures Arrivals(after) == server.history && host.kernel == KernelAfter(server.config, k, after)
    ensures server.history == old(server.history) + [K.Arrival(packet, now)]
    ensures var c, h, a, number := server.config, old(server.history), K.Arrival(packet, now), |old(host.issued)|;
            && host.issued == old(host.issued) + AT.CommandsAt(c, ServerRun(c, h), a, true)
            && after == turns + [TurnAt(c, h, a, host.fate, number)]
            && server.replies == old(server.replies) + [reply]
            && (reply ==> ReplyAt(c, h, a, host.fate, number))
            && (SetsThere(c, old(host.kernel)) ==> reply == ReplyAt(c, h, a, host.fate, number))
            && (ok <==> (Decide(c, ServerRun(c, h), a) == Answered(K.Accepted) ==> reply))
  {
    ghost var c, h, a, number := server.config, server.history, K.Arrival(packet, now), |host.issued|;
    ghost var x, command, before := TurnAt(c, h, a, host.fate, number), CommandOn(c, h, a), host.kernel;
    reply := CommandSucceeds(host, command);
    CommandWorks(c, h, a, before);
    ok := server.ProcessPacket(packet, now, host);
    after := turns + [x];
    ArrivalsSnoc(turns, x);
    KernelSnoc(c, k, turns, x);
  }

  function CommandOn(c: Config, h: seq<Arrival>, a: Arrival): Option<Command> {
    CommandFor(c, a.packet.sourceIp, Decide(c, ServerRun(c, h), a))
  }

  /** A command of the server succeeds wherever its set is. */
  lemma {:induction false} CommandWorks(c: Config, h: seq<Arrival>, a: Arrival, k: Kernel)
    ensures CommandOn(c, h, a).Some? && SetsThere(c, k) ==> Exec(k, CommandOn(c, h, a).value, 0).status.success
  {
  }

  lemma {:induction false} KernelSnoc(c: Config, k: Kernel, turns: seq<Turn>, x: Turn)
    ensures KernelAfter(c, k, turns + [x])
            == Effected(c, KernelAfter(c, k, turns), DecisionAfter(c, turns, x.arrival), x)
  {
    assert (turns + [x])[..|turns|] == turns;
  }

  /** The first `next` of the packets have been served, with these replies, turns and commands. */
  ghost predicate ServedFirst(c: Config, packets: seq<Arrival>, next: nat, h: seq<Arrival>, replies: seq<bool>,
                              turns: seq<Turn>, fate: nat -> Fault, start: seq<Command>, issued: seq<Command>,
                              there: bool, ok: bool)
  {
    && next <= |packets| && h == packets[..next] && issued == start + AT.CommandsOf(c, h)
    && Served(c, h, replies, turns, fate, |start|, there) && EndsRun(c, h, replies, 0, !ok)
  }

  lemma {:induction false} ServedNext(c: Config, packets: seq<Arrival>, next: nat, h: seq<Arrival>, replies: seq<bool>,
                                      turns: seq<Turn>, fate: nat -> Fault, start: seq<Command>, issued: seq<Command>,
                                      there: bool, a: Arrival, reply: bool)
    requires ServedFirst(c, packets, next, h, replies, turns, fate, start, issued, there, true)
    requires next < |packets| && a == packets[next] && (there ==> reply == ReplyAt(c, h, a, fate, |issued|))
    ensures ServedFirst(c, packets, next + 1, h + [a], replies + [reply], turns + [TurnAt(c, h, a, fate, |issued|)],
                        fate, start, issued + AT.CommandsAt(c, ServerRun(c, h), a, true), there,
                        Decide(c, ServerRun(c, h), a) == Answered(K.Accepted) ==> reply)
  {
    IssuedSnoc(c, h, a, start, issued);
    ServedSnoc(c, h, replies, turns, fate, |start|, there, a, reply, |issued|);
    EndsRunSnoc(c, h, replies, 0, a, reply);
    PrefixGrows(packets, next);
  }

  lemma {:induction false} IssuedSnoc(c: Config, h: seq<Arrival>, a: Arrival, start: seq<Command>, issued: seq<Command>)
    requires issued == start + AT.CommandsOf(c, h)
    ensures |issued| == CommandNumber(c, h, |start|)
    ensures issued + AT.CommandsAt(c, ServerRun(c, h), a, true) == start + AT.CommandsOf(c, h + [a])
  {
    CommandsSnoc(c, h, a);
  }

  /** The daemon has served the first `next` of the packets, after the given commands, on a
      host that was `k`; it goes on if `ok`. */
  ghost predicate Going(server: Server, host: Host, packets: seq<Arrival>, next: nat, k: Kernel, start: seq<Command>,
                        turns: seq<Turn>, ok: bool)
    reads server, server.tracker, server.sourceLimiter, server.telemetryLimiter, host
  {
    && server.Valid() && Arrivals(turns) == server.history && host.kernel == KernelAfter(server.config, k, turns)
    && ServedFirst(server.config, packets, next, server.history, server.replies, turns, host.fate, start, host.issued,
                   SetsThere(server.config, k), ok)
  }

  method ServeNext(server: Server, host: Host, packets: seq<Arrival>, next: nat, ghost k: Kernel,
                   ghost start: seq<Command>, ghost turns: seq<Turn>)
    returns (ok: bool, ghost after: seq<Turn>)
    requires next < |packets| && Going(server, host, packets, next, k, start, turns, true)
    modifies server, server.tracker, server.sourceLimiter, server.telemetryLimiter, host
    ensures Going(server, host, packets, next + 1, k, start, after, ok)
  {
    ghost var c, h, replies, a, issued := server.config, server.history, server.replies, packets[next], host.issued;
    ghost var reply, there := false, SetsThere(c, k);
    if there {
      SetsStay(c, k, turns);
    }
    ok, after, reply := Serve(server, host, packets[next].packet, packets[next].time, k, turns);
    ServedNext(c, packets, next, h, replies, turns, host.fate, start, issued, there, a, reply);
  }

  /** Packet after packet, until an allow command fails and ends the daemon, and only then. */
  method ServeAll(server: Server, host: Host, packets: seq<Arrival>, ghost k: Kernel)
    returns (ok: bool, ghost turns: seq<Turn>)
    requires server.Valid() && server.history == [] && host.kernel == k
    modifies server, server.tracker, server.sourceLimiter, server.telemetryLimiter, host
    ensures server.Valid() && server.history <= packets && (ok ==> server.history == packets)
    ensures EndsRun(server.config, server.history, server.replies, 0, !ok)
    ensures Arrivals(turns) == server.history
    ensures Served(server.config, server.history, server.replies, turns, host.fate, |old(host.issued)|,
                   SetsThere(server.config, k))
    ensures host.kernel == KernelAfter(server.config, k, turns)
    ensures host.issued == old(host.issued) + AT.CommandsOf(server.config, server.history)
  {
    var next := 0;
    ok, turns := true, [];
    ghost var start := host.issued;
    while ok && next < |packets|
      invariant Going(server, host, packets, next, k, start, turns, ok)
      decreases |packets| - next
    {
      ok, turns := ServeNext(server, host, packets, next, k, start, turns);
      next := next + 1;
    }
  }

  lemma {:induction false} PrefixGrows(h: seq<Arrival>, i: nat)
    requires i < |h|
    ensures h[..i + 1] == h[..i] + [K.Arrival(h[i].packet, h[i].time)]
  {
  }

  /** Setup over the chain of this machine makes it protect the port. */
  ghost predicate Guardable(c: Config, k: Kernel, others: Others) {
    var fw, rules := FirewallOf(c), InputOf(k, c.firewallBackend);
    c.ipsetName != c.banIpsetName && OthersLeaveSsh(fw, rules, others, c.sshPort) && WellOrdered(fw, rules, c.sshPort)
  }

  /** What the promise needs: a configuration that can keep it, a host that is honest during
      setup and on which the sets can be made, a chain that setup makes protect the port, and
      a clock that never runs backwards. The sets may hold entries from before. */
  ghost predicate GoodStart(c: Config, host: Host, packets: seq<Arrival>, others: Others)
    reads host
  {
    && WellFormed(c) && NonRecurring(c.sequence) && Guardable(c, host.kernel, others)
    && host.Honest(|host.issued|, SETUP_LENGTH) && FirewallOf(c).Makeable(host.kernel)
    && KT.InOrder(packets)
  }

  /** The number of commands before the first packet. */
  function StartLength(c: Config, k: Kernel): nat {
    |FirewallOf(c).SetupCommands(InputOf(k, c.firewallBackend), c.sshPort)| + PREFLIGHT_LENGTH
  }

  /** Setup, preflight, and then packet after packet: the daemon comes up exactly if the
      commands until then work, serves the packets until an allow command fails, and then a
      source reaches SSH exactly when the turns served, and what the sets held before, say
      that it may. */
  method Guard(c: Config, host: Host, packets: seq<Arrival>, now: Time, ghost others: Others)
    returns (up: bool, ok: bool, ghost turns: seq<Turn>, ghost begun: nat)
    modifies host
    ensures var n, length := |old(host.issued)|, StartLength(c, old(host.kernel));
            host.Honest(n, SETUP_LENGTH) ==>
              && (up <==> FirewallOf(c).Makeable(old(host.kernel)) && AllWork(host.fate, n, length))
              && (up ==> begun == n + length)
    ensures up && old(GoodStart(c, host, packets, others)) ==>
              TurnsDecide(c, old(host.kernel), host.kernel, others, turns)
    // What is served, and to what effect, is up to the fates of the commands.
    ensures Arrivals(turns) <= packets && (ok ==> up && Arrivals(turns) == packets) && (!up ==> turns == [])
    ensures up ==> turns == TurnsOf(c, Arrivals(turns), host.fate, begun)
                   && EndsRun(c, Arrivals(turns), RepliesTo(c, Arrivals(turns), host.fate, begun), 0, !ok)
    // On a host that works every packet is served, and every command takes effect.
    ensures old(GoodStart(c, host, packets, others)) && AlwaysWorks(host, |old(host.issued)|) ==>
              up && ok && AllEffective(c, turns)
  {
    ghost var k0, good := host.kernel, GoodStart(c, host, packets, others);
    turns, ok, begun := [], false, 0;
    up := StartUp(c, host, now, others);
    if !up { return; }
    ghost var k := host.kernel;
    begun := |host.issued|;
    ok, turns := RunServer(c, host, packets);
    if good {
      TurnsDecided(c, k0, k, others, packets, turns);
    }
  }

  /** A new server on a host with both sets. */
  method RunServer(c: Config, host: Host, packets: seq<Arrival>) returns (ok: bool, ghost turns: seq<Turn>)
    requires SetsThere(c, host.kernel)
    modifies host
    ensures Arrivals(turns) <= packets && (ok ==> Arrivals(turns) == packets)
    ensures host.kernel == KernelAfter(c, old(host.kernel), turns)
    ensures turns == TurnsOf(c, Arrivals(turns), host.fate, |old(host.issued)|)
    ensures EndsRun(c, Arrivals(turns), RepliesTo(c, Arrivals(turns), host.fate, |old(host.issued)|), 0, !ok)
    ensures AlwaysWorks(host, |old(host.issued)|) ==> ok && AllEffective(c, turns)
  {
    ghost var k, begun := host.kernel, |host.issued|;
    var server := new Server(c);
    ok, turns := ServeAll(server, host, packets, k);
    if AlwaysWorks(host, begun) {
      WorkingTurns(c, server.history, host.fate, begun);
      WorkingNeverStops(c, server.history, server.replies, host.fate, begun, ok);
    }
  }

  ghost predicate AlwaysWorks(host: Host, from: nat) {
    forall i: nat | from <= i :: host.fate(i).Works?
  }

  /** Setup and preflight. On an honest host both succeed exactly if the sets can be made and
      every command works; over a chain in good order the machine is then ready. */
  method StartUp(c: Config, host: Host, now: Time, ghost others: Others) returns (up: bool)
    modifies host
    ensures var n := |old(host.issued)|;
            host.Honest(n, SETUP_LENGTH) ==>
              && (up <==>
                   && FirewallOf(c).Makeable(old(host.kernel))
                   && AllWork(host.fate, n, StartLength(c, old(host.kernel))))
              && (up ==> |host.issued| == n + StartLength(c, old(host.kernel)))
              && (up && Guardable(c, old(host.kernel), others) ==> Ready(c, host.kernel, others))
    ensures |old(host.issued)| <= |host.issued| && (up ==> SetsThere(c, host.kernel))
    ensures FirewallOf(c).SetsKept(old(host.kernel), host.kernel)
  {
    var fw := FirewallOf(c);
    ghost var k, n, length := host.kernel, |host.issued|, StartLength(c, host.kernel);
    up := SetupFirewall(c, host, now);
    AllWorkParts(host.fate, n, length - PREFLIGHT_LENGTH, PREFLIGHT_LENGTH);
    if !up { return; }
    if Guardable(c, k, others) {
      SetupProtectsIff(fw, InputOf(k, c.firewallBackend), others, c.sshPort);
    }
    up := fw.Preflight(host, now);
  }

  lemma {:induction false} AllWorkParts(fate: nat -> Fault, from: nat, first: nat, rest: nat)
    ensures AllWork(fate, from, first + rest) <==> AllWork(fate, from, first) && AllWork(fate, from + first, rest)
  {
  }

  /** Every command of the turns took effect. */
  ghost predicate AllEffective(c: Config, turns: seq<Turn>) {
    forall i: nat | i < |turns| :: HasCommand(c, Arrivals(turns[..i]), turns[i].arrival) ==> turns[i].effect
  }

  lemma {:induction false} WorkingTurns(c: Config, h: seq<Arrival>, fate: nat -> Fault, n: nat)
    requires forall i: nat | n <= i :: fate(i).Works?
    ensures Arrivals(TurnsOf(c, h, fate, n)) == h && AllEffective(c, TurnsOf(c, h, fate, n))
    decreases |h|
  {
    if h != [] {
      var before, a := h[..|h| - 1], h[|h| - 1];
      SplitLast(h);
      WorkingTurns(c, before, fate, n);
      TurnsSnoc(c, before, a, fate, n);
      var turns, x := TurnsOf(c, before, fate, n), TurnAt(c, before, a, fate, CommandNumber(c, before, n));
      ArrivalsSnoc(turns, x);
      OneMoreEffective(c, turns, x);
    }
  }

  lemma {:induction false} OneMoreEffective(c: Config, turns: seq<Turn>, x: Turn)
    requires AllEffective(c, turns) && (HasCommand(c, Arrivals(turns), x.arrival) ==> x.effect)
    ensures AllEffective(c, turns + [x])
  {
    var all := turns + [x];
    forall i: nat | i < |all|
      ensures HasCommand(c, Arrivals(all[..i]), all[i].arrival) ==> all[i].effect
    {
      SamePrefix(turns, x, i);
    }
  }

  lemma {:induction false} WorkingNeverGaveUp(c: Config, h: seq<Arrival>, fate: nat -> Fault, n: nat)
    requires forall i: nat | n <= i :: fate(i).Works?
    ensures !GaveUp(c, h, RepliesTo(c, h, fate, n))
  {
    if h != [] {
      SplitLast(h);
      RepliesSnoc(c, h[..|h| - 1], h[|h| - 1], fate, n);
    }
  }

  lemma {:induction false} WorkingNeverStops(c: Config, h: seq<Arrival>, replies: seq<bool>, fate: nat -> Fault,
                                             n: nat, ok: bool)
    requires replies == RepliesTo(c, h, fate, n) && EndsRun(c, h, replies, 0, !ok)
    requires forall i: nat | n <= i :: fate(i).Works?
    ensures ok
  {
    WorkingNeverGaveUp(c, h, fate, n);
    assert h[..|h|] == h && replies[..|h|] == replies;
  }

  /** Who reaches SSH on this machine, and when, is what the turns say, and what the sets
      held before. */
  ghost predicate TurnsDecide(c: Config, before: Kernel, after: Kernel, others: Others, turns: seq<Turn>) {
    forall ip, t :: ReachesSsh(c, after, others, ip, t) <==> MayReach(c, before, turns, ip, t)
  }

  lemma {:induction false} SameBefore(c: Config, k0: Kernel, k: Kernel, turns: seq<Turn>, ip: IpAddr, t: Time)
    requires FirewallOf(c).SetsKept(k0, k)
    ensures MayReach(c, k0, turns, ip, t) <==> MayReach(c, k, turns, ip, t)
  {
    assert InSet(k0, c.ipsetName, ip, t) == InSet(k, c.ipsetName, ip, t);
    assert InSet(k0, c.banIpsetName, ip, t) == InSet(k, c.banIpsetName, ip, t);
  }

  lemma {:induction false} TurnsDecided(c: Config, k0: Kernel, k: Kernel, others: Others, packets: seq<Arrival>,
                                        turns: seq<Turn>)
    requires WellFormed(c) && NonRecurring(c.sequence) && c.ipsetName != c.banIpsetName
    requires Ready(c, k, others) && KT.InOrder(packets) && Arrivals(turns) <= packets
    requires FirewallOf(c).SetsKept(k0, k)
    ensures TurnsDecide(c, k0, KernelAfter(c, k, turns), others, turns)
  {
    InOrderFront(packets, |Arrivals(turns)|);
    assert packets[..|Arrivals(turns)|] == Arrivals(turns);
    forall ip, t
      ensures ReachesSsh(c, KernelAfter(c, k, turns), others, ip, t) <==> MayReach(c, k0, turns, ip, t)
    {
      ReachesExactlyWhenItMay(c, k, others, turns, ip, t);
      SameBefore(c, k0, k, turns, ip, t);
    }
  }

  lemma {:induction false} InOrderFront(h: seq<Arrival>, n: nat)
    requires KT.InOrder(h) && n <= |h|
    ensures KT.InOrder(h[..n])
  {
    assert h == h[..n] + h[n..];
    ST.InOrderPrefix(h[..n], h[n..]);
  }

  // ---------------------------------------------------------------------------
  // When the promise is kept
  // ---------------------------------------------------------------------------

  /** The daemon grants what it promises: on every run and at every instant a source
      reaches SSH exactly when it may. */
  ghost predicate WindowKept(c: Config, k: Kernel, others: Others) {
    forall turns, ip, t | KT.InOrder(Arrivals(turns)) ::
      ReachesSsh(c, KernelAfter(c, k, turns), others, ip, t) <==> MayReach(c, k, turns, ip, t)
  }

  /** The turns in which allow commands take effect, and ban commands fail. */
  function LuckyTurns(c: Config, h: seq<Arrival>): seq<Turn> {
    if h == [] then []
    else
      var before, a := h[..|h| - 1], h[|h| - 1];
      LuckyTurns(c, before) + [LuckyTurn(c, before, a)]
  }

  function LuckyTurn(c: Config, h: seq<Arrival>, a: Arrival): Turn {
    Turn(a, Decide(c, ServerRun(c, h), a).Answered?)
  }

  lemma {:induction false} LuckySnoc(c: Config, h: seq<Arrival>, a: Arrival)
    ensures LuckyTurns(c, h + [a]) == LuckyTurns(c, h) + [LuckyTurn(c, h, a)]
  {
    assert (h + [a])[..|h|] == h;
  }

  lemma {:induction false} LuckyArrivals(c: Config, h: seq<Arrival>)
    ensures Arrivals(LuckyTurns(c, h)) == h && |LuckyTurns(c, h)| == |h|
    decreases |h|
  {
    if h != [] {
      var before, a := h[..|h| - 1], h[|h| - 1];
      SplitLast(h);
      LuckyArrivals(c, before);
      LuckySnoc(c, before, a);
      ArrivalsSnoc(LuckyTurns(c, before), LuckyTurn(c, before, a));
    }
  }

  lemma {:induction false} LuckyPrefix(c: Config, h: seq<Arrival>, i: nat)
    requires i < |h|
    ensures var turns := LuckyTurns(c, h);
            |turns| == |h| && turns[..i] == LuckyTurns(c, h[..i]) && turns[i] == LuckyTurn(c, h[..i], h[i])
    decreases |h|
  {
    var before, a := h[..|h| - 1], h[|h| - 1];
    SplitLast(h);
    LuckySnoc(c, before, a);
    LuckyArrivals(c, before);
    if i < |before| {
      LuckyPrefix(c, before, i);
      SamePrefix(before, a, i);
      SamePrefix(LuckyTurns(c, before), LuckyTurn(c, before, a), i);
    } else {
      SamePrefix(LuckyTurns(c, before), LuckyTurn(c, before, a), i);
    }
  }

  lemma {:induction false} SamePrefix<T>(s: seq<T>, x: T, i: nat)
    requires i <= |s|
    ensures (s + [x])[..i] == s[..i] && s[..|s|] == s && (i < |s| ==> (s + [x])[i] == s[i])
  {
  }

  /** What these turns put into the sets: the accepted sources, and nobody else. */
  lemma {:induction false} LuckyPuts(c: Config, h: seq<Arrival>, i: nat, ip: IpAddr)
    requires i < |h|
    ensures |LuckyTurns(c, h)| == |h| && LuckyTurns(c, h)[i].arrival == h[i]
    ensures !PutAt(c, LuckyTurns(c, h), i, ip, BanList) && !AllowFailed(c, LuckyTurns(c, h), i)
    ensures PutAt(c, LuckyTurns(c, h), i, ip, AllowList) ==>
              Decide(c, ServerRun(c, h[..i]), h[i]) == Answered(K.Accepted)
  {
    LuckyPrefix(c, h, i);
    LuckyArrivals(c, h[..i]);
  }

  lemma {:induction false} NeverBanned(c: Config, h: seq<Arrival>, ip: IpAddr)
    ensures NeverPut(c, LuckyTurns(c, h), ip, BanList)
  {
    LuckyArrivals(c, h);
    forall i: nat | i < |h|
      ensures i < |LuckyTurns(c, h)| && !PutAt(c, LuckyTurns(c, h), i, ip, BanList)
    {
      LuckyPuts(c, h, i, ip);
    }
  }

  /** A knock entitles its source, whatever the server makes of it. */
  lemma {:induction false} KnockEntitles(c: Config, k: Kernel, h: seq<Arrival>, a: Arrival, t: Time)
    requires ST.EndsKnock(c, ST.TraceOf(c, h + [a], a.packet.sourceIp), |c.sequence|)
    requires t < a.time + c.ipTimeout * SECOND && !InSet(k, c.banIpsetName, a.packet.sourceIp, t)
    ensures MayReach(c, k, LuckyTurns(c, h + [a]), a.packet.sourceIp, t)
  {
    var all, turns, last := h + [a], LuckyTurns(c, h + [a]), |h|;
    LuckyArrivals(c, all);
    LuckyPuts(c, all, last, a.packet.sourceIp);
    assert turns[..last + 1] == turns;
    assert Knocked(c, turns, last, a.packet.sourceIp);
    NeverBanned(c, all, a.packet.sourceIp);
    BannedIsBarred(c, k, turns, a.packet.sourceIp, t);
  }

  lemma {:induction false} OnlyEarlyPuts(c: Config, h: seq<Arrival>, a: Arrival, i: nat, ip: IpAddr)
    requires Decide(c, ServerRun(c, h), a) != Answered(K.Accepted) && i <= |h|
    ensures var turns := LuckyTurns(c, h + [a]);
            |turns| == |h| + 1 && turns[i].arrival == (h + [a])[i] && (PutAt(c, turns, i, ip, AllowList) ==> i < |h|)
  {
    var all := h + [a];
    assert all[..|h|] == h && all[|h|] == a;
    LuckyPuts(c, all, i, ip);
  }

  /** If the last packet opens nothing, then after the time of one allow command nobody
      is allowed any more. */
  lemma {:induction false} AllowancesAreOver(c: Config, k: Kernel, h: seq<Arrival>, a: Arrival, ip: IpAddr)
    requires c.ipsetName != c.banIpsetName && FreshSets(c, k) && KT.InOrder(h + [a])
    requires Decide(c, ServerRun(c, h), a) != Answered(K.Accepted) && forall i | 0 <= i < |h| :: h[i].time == 0
    ensures !InSet(KernelAfter(c, k, LuckyTurns(c, h + [a])), c.ipsetName, ip, Seconds(c.ipTimeout))
  {
    var turns := LuckyTurns(c, h + [a]);
    LuckyArrivals(c, h + [a]);
    InSetByTurns(c, k, turns, ip, AllowList, Seconds(c.ipTimeout));
    forall i: nat | i < |turns|
      ensures PutAt(c, turns, i, ip, AllowList) ==> turns[i].arrival.time == 0
    {
      OnlyEarlyPuts(c, h, a, i, ip);
    }
    EarlyPutsAreStale(c, turns, ip);
  }

  lemma {:induction false} EarlyPutsAreStale(c: Config, turns: seq<Turn>, ip: IpAddr)
    requires forall i: nat | i < |turns| :: PutAt(c, turns, i, ip, AllowList) ==> turns[i].arrival.time == 0
    ensures !FreshPut(c, turns, ip, AllowList, Seconds(c.ipTimeout))
  {
  }

  /** With one name for both sets, nobody ever reaches SSH. */
  lemma {:induction false} OneNameBreaksWindow(c: Config, k: Kernel, others: Others)
    requires WellFormed(c) && Ready(c, k, others) && FreshSets(c, k) && c.ipsetName == c.banIpsetName
    ensures !WindowKept(c, k, others)
  {
    var h, a := KnockMatches(c);
    LuckyArrivals(c, h + [a]);
    KnockEntitles(c, k, h, a, 0);
    LeftOutside(c, k, others, LuckyTurns(c, h + [a]), V4(0), 0);
  }

  lemma {:induction false} LeftOutside(c: Config, k: Kernel, others: Others, turns: seq<Turn>,
                                       ip: IpAddr, t: Time)
    requires Ready(c, k, others) && KT.InOrder(Arrivals(turns)) && MayReach(c, k, turns, ip, t)
    requires var after := KernelAfter(c, k, turns);
             InSet(after, c.ipsetName, ip, t) ==> InSet(after, c.banIpsetName, ip, t)
    ensures !WindowKept(c, k, others)
  {
    ReachesByServing(c, k, others, turns, ip, t);
  }

  /** With a second step 0, a source can knock in time and be left outside. */
  lemma {:induction false} RecurrenceBreaksWindow(c: Config, k: Kernel, others: Others, j: nat)
    requires WellFormed(c) && Ready(c, k, others) && FreshSets(c, k) && c.ipsetName != c.banIpsetName
    requires 0 < j < |c.sequence| && c.sequence[j] == c.sequence[0]
    ensures !WindowKept(c, k, others)
  {
    var h, a := KnockSwallowed(c, j, 1);
    var t := Seconds(c.ipTimeout);
    LuckyArrivals(c, h + [a]);
    KnockEntitles(c, k, h, a, t);
    AllowancesAreOver(c, k, h, a, V4(0));
    LeftOutside(c, k, others, LuckyTurns(c, h + [a]), V4(0), t);
  }

  /** For a validated configuration on a machine that setup left ready, the promise is
      kept on all runs if and only if the two set names differ and step 0 of the sequence
      does not occur again. `validate` checks neither. */
  lemma {:induction false} WindowKeptIff(c: Config, k: Kernel, others: Others)
    requires WellFormed(c) && Ready(c, k, others) && FreshSets(c, k)
    ensures WindowKept(c, k, others) <==> c.ipsetName != c.banIpsetName && NonRecurring(c.sequence)
  {
    if c.ipsetName == c.banIpsetName {
      OneNameBreaksWindow(c, k, others);
    } else if NonRecurring(c.sequence) {
      forall turns, ip, t | KT.InOrder(Arrivals(turns))
        ensures ReachesSsh(c, KernelAfter(c, k, turns), others, ip, t) <==> MayReach(c, k, turns, ip, t)
      {
        ReachesExactlyWhenItMay(c, k, others, turns, ip, t);
      }
    } else {
      var j :| 0 < j < |c.sequence| && c.sequence[j] == c.sequence[0];
      RecurrenceBreaksWindow(c, k, others, j);
    }
  }
}
