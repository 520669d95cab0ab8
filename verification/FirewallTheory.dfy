/** Setup converges whatever interrupted it before, and what the chain it leaves does
    to a packet. */
module FirewallTheory {
  import opened Base
  import Settings
  import opened Firewall

  // ---------------------------------------------------------------------------
  // Convergence
  // ---------------------------------------------------------------------------

  /** The chain after attempts that each stopped at some stage. */
  function Attempts(fw: Firewall, c: Chain, sshPort: u16, stops: seq<nat>): Chain {
    if stops == [] then c
    else fw.Stage(Attempts(fw, c, sshPort, stops[..|stops| - 1]), sshPort, stops[|stops| - 1])
  }

  lemma {:induction false} EnsuredRules(r: Rule, c: Chain)
    ensures r in Front(r, c) && r in Back(r, c)
    ensures forall x | x in c :: x in Front(r, c) && x in Back(r, c)
  {
    assert ([r] + c)[0] == r && (c + [r])[|c|] == r;
  }

  /** From a stage on, the rules ensured so far are there. */
  lemma {:induction false} StageHas(fw: Firewall, c: Chain, sshPort: u16, n: nat)
    ensures var s := fw.Stage(c, sshPort, n);
            && (n >= 1 ==> fw.AllowRule(sshPort) in s)
            && (n >= 2 ==> fw.DropRule(sshPort) in s)
            && (n >= 3 ==> fw.BanDropRule() in s)
  {
    EnsuredRules(fw.AllowRule(sshPort), c);
    EnsuredRules(fw.DropRule(sshPort), fw.Stage(c, sshPort, 1));
    EnsuredRules(fw.BanDropRule(), fw.Stage(c, sshPort, 2));
  }

  /** An interrupted setup never closes the port to those it should let in, nor bans before the
      port is closed: a drop rule that setup adds finds the allow rule there, and a ban rule
      that it adds finds both. */
  lemma {:induction false} StagesInOrder(fw: Firewall, c: Chain, sshPort: u16, n: nat)
    ensures var s := fw.Stage(c, sshPort, n); var allow, drop := fw.AllowRule(sshPort), fw.DropRule(sshPort);
            && (drop in s && drop !in c ==> allow in s)
            && (fw.BanDropRule() in s && fw.BanDropRule() !in c ==> allow in s && drop in s)
  {
    StageHas(fw, c, sshPort, n);
  }

  /** A stage is a part of the way: completing from it is completing from the start. */
  lemma {:induction false} StageAbsorbed(fw: Firewall, c: Chain, sshPort: u16, n: nat)
    ensures fw.Stage(fw.Stage(c, sshPort, n), sshPort, 3) == fw.Stage(c, sshPort, 3)
  {
    StageHas(fw, c, sshPort, n);
    var s := fw.Stage(c, sshPort, n);
    if n >= 1 {
      assert fw.Stage(s, sshPort, 1) == s;
    }
    if n >= 2 {
      assert fw.Stage(s, sshPort, 2) == s;
    }
    if n >= 3 {
      assert fw.Stage(s, sshPort, 3) == s;
    }
  }

  /** Setup converges from every chain: any number of attempts interrupted after any
      command and then a complete one leave what one undisturbed attempt would, and
      every further attempt changes nothing. */
  lemma {:induction false} SetupConverges(fw: Firewall, c: Chain, sshPort: u16, stops: seq<nat>)
    ensures fw.Stage(Attempts(fw, c, sshPort, stops), sshPort, 3) == fw.Stage(c, sshPort, 3)
    ensures forall n: nat :: fw.Stage(fw.Stage(c, sshPort, 3), sshPort, n) == fw.Stage(c, sshPort, 3)
    decreases |stops|
  {
    if stops != [] {
      var before := Attempts(fw, c, sshPort, stops[..|stops| - 1]);
      StageAbsorbed(fw, before, sshPort, stops[|stops| - 1]);
      SetupConverges(fw, c, sshPort, stops[..|stops| - 1]);
    }
    StageHas(fw, c, sshPort, 3);
    var s := fw.Stage(c, sshPort, 3);
    assert fw.Stage(s, sshPort, 1) == s && fw.Stage(s, sshPort, 2) == s && fw.Stage(s, sshPort, 3) == s;
  }

  /** How many of the commands from one number to another did not work. */
  function Failures(fate: nat -> Fault, from: nat, end: nat): nat {
    if end <= from then 0 else Failures(fate, from, end - 1) + if fate(end - 1).Works? then 0 else 1
  }

  lemma {:induction false} FailuresAdd(fate: nat -> Fault, from: nat, mid: nat, end: nat)
    requires from <= mid <= end
    ensures Failures(fate, from, end) == Failures(fate, from, mid) + Failures(fate, mid, end)
    decreases end
  {
    if mid < end {
      FailuresAdd(fate, from, mid, end - 1);
    }
  }

  lemma {:induction false} NoFailures(fate: nat -> Fault, from: nat, end: nat)
    requires forall i | from <= i < end :: fate(i).Works?
    ensures Failures(fate, from, end) == 0
    decreases end
  {
    if from < end {
      NoFailures(fate, from, end - 1);
    }
  }

  lemma {:induction false} OneFailureEnds(fate: nat -> Fault, from: nat, end: nat, ok: bool)
    requires Ended(fate, from, end, ok)
    ensures Failures(fate, from, end) == if ok then 0 else 1
  {
    if ok {
      NoFailures(fate, from, end);
    } else {
      NoFailures(fate, from, end - 1);
      assert !fate(end - 1).Works?;
    }
  }

  /** Setup run again and again until it succeeds, or until the patience is used up. */
  method RetrySetup(fw: Firewall, host: Host, sshPort: u16, now: Time, patience: nat) returns (ok: bool)
    modifies host
    // On an honest host it succeeds exactly if fewer commands fail than it has patience for;
    // it gives up with the last failure that it has patience for, and not before.
    ensures host.Honest(|old(host.issued)|, SETUP_LENGTH * patience) && fw.Makeable(old(host.kernel)) ==>
              var failures := Failures(host.fate, |old(host.issued)|, |host.issued|);
              if ok then failures < patience else failures == patience
    ensures ok ==> fw.SetsMade(host.kernel)
    // The chain is complete on success, and otherwise on the way: completing it from there
    // is completing it from the start.
    ensures host.Honest(|old(host.issued)|, SETUP_LENGTH * patience) ==>
              Resumable(fw, old(InputOf(host.kernel, fw.backend)), sshPort, InputOf(host.kernel, fw.backend), ok)
  {
    ghost var c, n, makeable := InputOf(host.kernel, fw.backend), |host.issued|, fw.Makeable(host.kernel);
    ghost var honest := host.Honest(n, SETUP_LENGTH * patience);
    ok := false;
    var tried := 0;
    while !ok && tried < patience
      invariant tried <= patience && (ok ==> 0 < tried && fw.SetsMade(host.kernel))
      invariant n <= |host.issued| && (honest ==> |host.issued| <= n + SETUP_LENGTH * tried)
      invariant honest ==> Resumable(fw, c, sshPort, InputOf(host.kernel, fw.backend), ok)
      invariant makeable ==> fw.Makeable(host.kernel)
      invariant honest && makeable ==>
                  Failures(host.fate, n, |host.issued|) == if ok then tried - 1 else tried
    {
      ghost var before, mid := InputOf(host.kernel, fw.backend), |host.issued|;
      ok := fw.Setup(host, sshPort, now);
      if honest {
        fw.SetupShort(before, sshPort);
        StillResumable(fw, c, sshPort, before, InputOf(host.kernel, fw.backend), ok);
        if makeable {
          OneFailureEnds(host.fate, mid, |host.issued|, ok);
          FailuresAdd(host.fate, n, mid, |host.issued|);
        }
      }
      tried := tried + 1;
    }
  }

  /** Completing setup from this chain is completing it from `c`, or it is complete. */
  predicate Resumable(fw: Firewall, c: Chain, sshPort: u16, now: Chain, done: bool) {
    fw.Stage(now, sshPort, 3) == fw.Stage(c, sshPort, 3) && (done ==> now == fw.Stage(c, sshPort, 3))
  }

  lemma {:induction false} StillResumable(fw: Firewall, c: Chain, sshPort: u16, before: Chain, after: Chain, ok: bool)
    requires Resumable(fw, c, sshPort, before, false) && fw.OnTheWay(before, sshPort, after, ok)
    ensures Resumable(fw, c, sshPort, after, ok)
  {
    var n :| 0 <= n <= 3 && after == fw.Stage(before, sshPort, n);
    StageAbsorbed(fw, before, sshPort, n);
  }

  /** No rule of the daemon is in the chain yet. */
  predicate Untouched(fw: Firewall, c: Chain, sshPort: u16) {
    fw.BanDropRule() !in c && fw.AllowRule(sshPort) !in c && fw.DropRule(sshPort) !in c
  }

  function Installed(fw: Firewall, c: Chain, sshPort: u16): Chain {
    [fw.BanDropRule(), fw.AllowRule(sshPort)] + c + [fw.DropRule(sshPort)]
  }

  lemma {:induction false} SetupInstalls(fw: Firewall, c: Chain, sshPort: u16, stops: seq<nat>)
    requires Untouched(fw, c, sshPort)
    ensures fw.Stage(Attempts(fw, c, sshPort, stops), sshPort, 3) == Installed(fw, c, sshPort)
  {
    SetupConverges(fw, c, sshPort, stops);
    assert fw.Stage(c, sshPort, 1) == [fw.AllowRule(sshPort)] + c;
    assert fw.Stage(c, sshPort, 2) == [fw.AllowRule(sshPort)] + c + [fw.DropRule(sshPort)];
  }

  // ---------------------------------------------------------------------------
  // What the chain does
  // ---------------------------------------------------------------------------

  /** A packet as the chain sees it: its source, and its port if it is TCP. */
  datatype Probe = Probe(src: IpAddr, tcpPort: Option<u16>)

  predicate InSet(k: Kernel, name: string, ip: IpAddr, t: Time) {
    name in k.sets && ip in k.sets[name].entries && t < k.sets[name].entries[ip]
  }

  /** What the rules of others decide, each on its own. */
  type Others = (nat, Probe) -> Option<Verdict>

  function Decides(k: Kernel, r: Rule, others: Others, x: Probe, t: Time): Option<Verdict> {
    match r
    case Rule(port, srcSet, target) =>
      if (port.Some? ==> x.tcpPort == port) && (srcSet.Some? ==> InSet(k, srcSet.value, x.src, t)) then Some(target)
      else None
    case Other(id) => others(id, x)
  }

  /** The first rule that decides, decides. */
  function FirstMatch(k: Kernel, c: Chain, others: Others, x: Probe, t: Time): Option<Verdict> {
    if c == [] then None
    else
      var d := Decides(k, c[0], others, x, t);
      if d.Some? then d else FirstMatch(k, c[1..], others, x, t)
  }

  lemma {:induction false} FirstMatchConcat(k: Kernel, c: Chain, d: Chain, others: Others, x: Probe, t: Time)
    ensures FirstMatch(k, c + d, others, x, t) ==
            if FirstMatch(k, c, others, x, t).Some? then FirstMatch(k, c, others, x, t)
            else FirstMatch(k, d, others, x, t)
    decreases |c|
  {
    if c == [] {
      assert c + d == d;
    } else {
      assert (c + d)[1..] == c[1..] + d;
      FirstMatchConcat(k, c[1..], d, others, x, t);
    }
  }

  /** The installed chain decides by four questions in order, for every packet. */
  lemma {:induction false} InstalledDecides(fw: Firewall, k: Kernel, c: Chain, sshPort: u16, others: Others,
                                            x: Probe, t: Time)
    ensures FirstMatch(k, Installed(fw, c, sshPort), others, x, t) ==
            if InSet(k, fw.banIpsetName, x.src, t) then Some(Drop)
            else if x.tcpPort == Some(sshPort) && InSet(k, fw.ipsetName, x.src, t) then Some(Accept)
            else if FirstMatch(k, c, others, x, t).Some? then FirstMatch(k, c, others, x, t)
            else if x.tcpPort == Some(sshPort) then Some(Drop)
            else None
  {
    var ban, allow, drop := fw.BanDropRule(), fw.AllowRule(sshPort), fw.DropRule(sshPort);
    var all := Installed(fw, c, sshPort);
    assert all[1..][1..] == c + [drop];
    assert all[0] == ban && all[1..][0] == allow;
    FirstMatchConcat(k, c, [drop], others, x, t);
    assert [drop][1..] == [];
    assert FirstMatch(k, [drop], others, x, t) == Decides(k, drop, others, x, t);
  }

  /** A source reaches SSH: its packet to the SSH port is accepted. */
  predicate Reaches(k: Kernel, c: Chain, others: Others, ip: IpAddr, sshPort: u16, t: Time) {
    FirstMatch(k, c, others, Probe(ip, Some(sshPort)), t) == Some(Accept)
  }

  // ---------------------------------------------------------------------------
  // Setup over a chain that holds some of the rules already
  // ---------------------------------------------------------------------------

  /** Where a rule first occurs, or the length of a chain without it. */
  function IndexOf(c: Chain, r: Rule): (i: nat)
    ensures i <= |c| && (i == |c| <==> r !in c)
  {
    if c == [] then 0 else if c[0] == r then 0 else 1 + IndexOf(c[1..], r)
  }

  predicate Before(c: Chain, r: Rule, s: Rule) {
    IndexOf(c, r) < IndexOf(c, s)
  }

  lemma {:induction false} IndexAtFront(c: Chain, r: Rule, x: Rule)
    ensures IndexOf([x] + c, r) == if x == r then 0 else 1 + IndexOf(c, r)
  {
    assert ([x] + c)[1..] == c;
  }

  lemma {:induction false} IndexAtBack(c: Chain, r: Rule, x: Rule)
    ensures IndexOf(c + [x], r) == if r in c || x == r then IndexOf(c, r) else |c| + 1
    decreases |c|
  {
    if c == [] {
      assert c + [x] == [x] && [x][1..] == [];
    } else {
      assert (c + [x])[1..] == c[1..] + [x];
      IndexAtBack(c[1..], r, x);
    }
  }

  /** Ensuring a rule in front puts it before all others, unless it is there already;
      the order of any two others stays. */
  lemma {:induction false} FrontOrder(c: Chain, x: Rule, r: Rule, s: Rule)
    requires r != s
    ensures Before(Front(x, c), r, s) <==> if x in c then Before(c, r, s) else x == r || (x != s && Before(c, r, s))
  {
    IndexAtFront(c, r, x);
    IndexAtFront(c, s, x);
  }

  /** Ensuring a rule at the end changes the order of no two rules, of which one is there. */
  lemma {:induction false} BackOrder(c: Chain, x: Rule, r: Rule, s: Rule)
    requires r != s && (r in c || s in c)
    ensures Before(Back(x, c), r, s) <==> Before(c, r, s)
  {
    IndexAtBack(c, r, x);
    IndexAtBack(c, s, x);
  }

  /** The order of the three rules once setup is complete, by their order before. */
  lemma {:induction false} OrderAfterSetup(fw: Firewall, c: Chain, sshPort: u16)
    ensures var allow, drop, ban := fw.AllowRule(sshPort), fw.DropRule(sshPort), fw.BanDropRule();
            var after := fw.Stage(c, sshPort, 3);
            && (Before(after, allow, drop) <==> allow !in c || Before(c, allow, drop))
            && (Before(after, allow, ban) <==> ban in c && (allow !in c || Before(c, allow, ban)))
  {
    var allow, drop, ban := fw.AllowRule(sshPort), fw.DropRule(sshPort), fw.BanDropRule();
    var one, two := fw.Stage(c, sshPort, 1), fw.Stage(c, sshPort, 2);
    EnsuredRules(allow, c);
    EnsuredRules(drop, one);
    FrontOrder(c, allow, allow, drop);
    BackOrder(one, drop, allow, drop);
    FrontOrder(two, ban, allow, drop);
    FrontOrder(c, allow, allow, ban);
    BackOrder(one, drop, allow, ban);
    FrontOrder(two, ban, allow, ban);
    assert ban in two <==> ban in c;
  }

  predicate Own(fw: Firewall, sshPort: u16, r: Rule) {
    r in {fw.AllowRule(sshPort), fw.DropRule(sshPort), fw.BanDropRule()}
  }

  /** Rules other than the three do not decide about packets to the SSH port. */
  ghost predicate OthersLeaveSsh(fw: Firewall, c: Chain, others: Others, sshPort: u16) {
    forall r, k, ip, t | r in c && !Own(fw, sshPort, r) :: Decides(k, r, others, Probe(ip, Some(sshPort)), t) == None
  }

  lemma {:induction false} NoneMatches(fw: Firewall, k: Kernel, c: Chain, others: Others, ip: IpAddr, sshPort: u16,
                                       t: Time)
    requires OthersLeaveSsh(fw, c, others, sshPort) && Untouched(fw, c, sshPort)
    ensures FirstMatch(k, c, others, Probe(ip, Some(sshPort)), t) == None
    decreases |c|
  {
    if c != [] {
      assert c[0] in c && forall r | r in c[1..] :: r in c;
      NoneMatches(fw, k, c[1..], others, ip, sshPort, t);
    }
  }

  /** What the first of the three rules that applies decides. */
  lemma {:induction false} ReachesByOrder(fw: Firewall, k: Kernel, c: Chain, others: Others, ip: IpAddr,
                                          sshPort: u16, t: Time)
    requires OthersLeaveSsh(fw, c, others, sshPort)
    ensures var allow, drop, ban := fw.AllowRule(sshPort), fw.DropRule(sshPort), fw.BanDropRule();
            Reaches(k, c, others, ip, sshPort, t)
            <==> InSet(k, fw.ipsetName, ip, t) && Before(c, allow, drop)
                 && (InSet(k, fw.banIpsetName, ip, t) ==> Before(c, allow, ban))
    decreases |c|
  {
    if c != [] {
      var rest := c[1..];
      assert forall r | r in rest :: r in c;
      ReachesByOrder(fw, k, rest, others, ip, sshPort, t);
    }
  }

  lemma {:induction false} SetupAddsOwn(fw: Firewall, c: Chain, others: Others, sshPort: u16)
    requires OthersLeaveSsh(fw, c, others, sshPort)
    ensures OthersLeaveSsh(fw, fw.Stage(c, sshPort, 3), others, sshPort)
  {
    var one, two := fw.Stage(c, sshPort, 1), fw.Stage(c, sshPort, 2);
    assert forall r | r in one :: r in c || Own(fw, sshPort, r);
    assert forall r | r in two :: r in c || Own(fw, sshPort, r);
    assert forall r | r in fw.Stage(c, sshPort, 3) :: r in c || Own(fw, sshPort, r);
  }

  /** The chain protects the port: whatever the sets hold, a source reaches SSH exactly
      when it is allowed and not banned. */
  ghost predicate Protects(fw: Firewall, c: Chain, others: Others, sshPort: u16) {
    forall k, ip, t ::
      Reaches(k, c, others, ip, sshPort, t) <==> InSet(k, fw.ipsetName, ip, t) && !InSet(k, fw.banIpsetName, ip, t)
  }

  /** The chain that setup leaves where no rule was there protects it, even with one name for
      both sets: then nobody reaches SSH. */
  lemma {:induction false} InstalledProtects(fw: Firewall, c: Chain, others: Others, sshPort: u16)
    requires Untouched(fw, c, sshPort) && OthersLeaveSsh(fw, c, others, sshPort)
    ensures Protects(fw, Installed(fw, c, sshPort), others, sshPort)
  {
    forall k, ip, t
      ensures Reaches(k, Installed(fw, c, sshPort), others, ip, sshPort, t)
              <==> InSet(k, fw.ipsetName, ip, t) && !InSet(k, fw.banIpsetName, ip, t)
    {
      NoneMatches(fw, k, c, others, ip, sshPort, t);
      InstalledDecides(fw, k, c, sshPort, others, Probe(ip, Some(sshPort)), t);
    }
  }

  /** No allow rule behind a drop rule, and no ban rule without an allow rule behind it. */
  predicate WellOrdered(fw: Firewall, c: Chain, sshPort: u16) {
    var allow, drop, ban := fw.AllowRule(sshPort), fw.DropRule(sshPort), fw.BanDropRule();
    && (allow in c ==> Before(c, allow, drop))
    && (ban in c ==> allow in c && Before(c, ban, allow))
  }

  /** A machine on which the source is in the allow set, and in the ban set if asked for. */
  function Witness(fw: Firewall, ip: IpAddr, banned: bool): Kernel {
    var kind, held := SetKind(0, Settings.Ipv4), map[ip := 1];
    Kernel([], [], map[fw.ipsetName := IpSet(kind, held),
                       fw.banIpsetName := IpSet(kind, if banned then held else map[])])
  }

  /** A complete setup protects the port if and only if the chain it began with held no
      allow rule behind a drop rule, and no ban rule without an allow rule behind it. */
  lemma {:induction false} SetupProtectsIff(fw: Firewall, c: Chain, others: Others, sshPort: u16)
    requires fw.ipsetName != fw.banIpsetName && OthersLeaveSsh(fw, c, others, sshPort)
    ensures Protects(fw, fw.Stage(c, sshPort, 3), others, sshPort) <==> WellOrdered(fw, c, sshPort)
  {
    var after, ip := fw.Stage(c, sshPort, 3), V4(0);
    var allow, drop, ban := fw.AllowRule(sshPort), fw.DropRule(sshPort), fw.BanDropRule();
    SetupAddsOwn(fw, c, others, sshPort);
    OrderAfterSetup(fw, c, sshPort);
    if allow in c {
      IndexApart(c, allow, ban);
    }
    forall k, ip, t
      ensures Reaches(k, after, others, ip, sshPort, t)
              <==> InSet(k, fw.ipsetName, ip, t) && Before(after, allow, drop)
                   && (InSet(k, fw.banIpsetName, ip, t) ==> Before(after, allow, ban))
    {
      ReachesByOrder(fw, k, after, others, ip, sshPort, t);
    }
    assert InSet(Witness(fw, ip, false), fw.ipsetName, ip, 0) && !InSet(Witness(fw, ip, false), fw.banIpsetName, ip, 0);
    assert InSet(Witness(fw, ip, true), fw.ipsetName, ip, 0) && InSet(Witness(fw, ip, true), fw.banIpsetName, ip, 0);
  }

  lemma {:induction false} IndexApart(c: Chain, r: Rule, s: Rule)
    requires r in c && r != s
    ensures IndexOf(c, r) != IndexOf(c, s)
    decreases |c|
  {
    if c[0] != r && c[0] != s {
      IndexApart(c[1..], r, s);
    }
  }

  /** A change of the SSH port is such a case: after setup for the new port the ban rule
      is behind the new allow rule, and a banned source that is allowed gets in. */
  lemma {:induction false} PortChangeLosesBans(fw: Firewall, k: Kernel, others: Others, oldPort: u16, newPort: u16,
                                               ip: IpAddr, t: Time)
    requires oldPort != newPort && InSet(k, fw.ipsetName, ip, t) && InSet(k, fw.banIpsetName, ip, t)
    ensures Reaches(k, fw.Stage(Installed(fw, [], oldPort), newPort, 3), others, ip, newPort, t)
  {
    var c := Installed(fw, [], oldPort);
    assert c == [fw.BanDropRule(), fw.AllowRule(oldPort), fw.DropRule(oldPort)];
    assert OthersLeaveSsh(fw, c, others, newPort);
    SetupAddsOwn(fw, c, others, newPort);
    OrderAfterSetup(fw, c, newPort);
    ReachesByOrder(fw, k, fw.Stage(c, newPort, 3), others, ip, newPort, t);
  }
}
