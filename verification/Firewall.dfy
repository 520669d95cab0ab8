/** The firewall integration (src/firewall.rs) over a small abstract machine: one INPUT
    chain per iptables program, first match decides, and ipsets whose entries expire. */
module Firewall {
  import opened Base
  import opened Settings

  datatype Verdict = Accept | Drop

  /** A rule of the daemon, by destination port and source set, or any other rule. */
  datatype Rule =
    | Rule(tcpPort: Option<u16>, srcSet: Option<string>, target: Verdict)
    | Other(id: nat)

  type Chain = seq<Rule>

  /** What a set was created with. */
  datatype SetKind = SetKind(timeout: nat, family: AddressFamily)

  /** A set, and its entries with the instant at which each leaves it. */
  datatype IpSet = IpSet(kind: SetKind, entries: map<IpAddr, Time>)

  datatype Kernel = Kernel(input4: Chain, input6: Chain, sets: map<string, IpSet>)

  datatype Command =
    | CreateSet(name: string, timeout: nat, family: AddressFamily)
    | AddEntry(name: string, ip: IpAddr, timeout: nat)
    | ListSet(name: string)
    | CheckRule(program: FirewallBackend, rule: Rule)
    | InsertFirst(program: FirewallBackend, rule: Rule)
    | AppendLast(program: FirewallBackend, rule: Rule)
    | ListRules(program: FirewallBackend)

  datatype CommandStatus = CommandStatus(success: bool, code: Option<int>)

  const SUCCESS := CommandStatus(true, Some(0))
  const REFUSED := CommandStatus(false, Some(1))
  const UNUSABLE := CommandStatus(false, Some(2))

  function InputOf(k: Kernel, program: FirewallBackend): Chain {
    if program == Iptables then k.input4 else k.input6
  }

  function WithInput(k: Kernel, program: FirewallBackend, c: Chain): Kernel {
    if program == Iptables then k.(input4 := c) else k.(input6 := c)
  }

  /** A rule can name only sets that exist. */
  predicate Usable(k: Kernel, r: Rule) {
    r.Rule? && r.srcSet.Some? ==> r.srcSet.value in k.sets
  }

  function WithEntry(s: IpSet, ip: IpAddr, expiry: Time): IpSet {
    s.(entries := s.entries[ip := expiry])
  }

  datatype Effect = Effect(status: CommandStatus, kernel: Kernel)

  /** What a command does when it runs at `now`. Sets are created and entries added with
      `-exist`: the very same set may be there already, an entry that is there is refreshed. */
  function Exec(k: Kernel, c: Command, now: Time): Effect {
    match c
    case CreateSet(name, timeout, family) =>
      var kind := SetKind(timeout, family);
      if name !in k.sets then Effect(SUCCESS, k.(sets := k.sets[name := IpSet(kind, map[])]))
      else Effect(if k.sets[name].kind == kind then SUCCESS else REFUSED, k)
    case AddEntry(name, ip, timeout) =>
      if name in k.sets then
        Effect(SUCCESS, k.(sets := k.sets[name := WithEntry(k.sets[name], ip, After(now, timeout))]))
      else Effect(REFUSED, k)
    case ListSet(name) => Effect(if name in k.sets then SUCCESS else REFUSED, k)
    case CheckRule(program, r) =>
      Effect(if !Usable(k, r) then UNUSABLE else if r in InputOf(k, program) then SUCCESS else REFUSED, k)
    case InsertFirst(program, r) =>
      if Usable(k, r) then Effect(SUCCESS, WithInput(k, program, [r] + InputOf(k, program))) else Effect(UNUSABLE, k)
    case AppendLast(program, r) =>
      if Usable(k, r) then Effect(SUCCESS, WithInput(k, program, InputOf(k, program) + [r])) else Effect(UNUSABLE, k)
    case ListRules(_) => Effect(SUCCESS, k)
  }

  /** What may happen to a command on its way: it works, it does not start, or it ends
      in failure whether or not it took effect. */
  datatype Fault = Works | DoesNotStart | Fails(applied: bool, code: Option<int>)

  /** What the caller learns; `None` is a command that failed to start. */
  function Reported(f: Fault, e: Effect): Option<CommandStatus> {
    match f
    case Works => Some(e.status)
    case DoesNotStart => None
    case Fails(_, code) => Some(CommandStatus(false, code))
  }

  /** Whether the command takes effect, reported or not. */
  predicate TakesEffect(f: Fault) {
    f.Works? || (f.Fails? && f.applied)
  }

  /** The machine after a command that would do `e` on `k`. */
  function Left(f: Fault, e: Effect, k: Kernel): Kernel {
    if TakesEffect(f) then e.kernel else k
  }

  ghost predicate AllWork(fate: nat -> Fault, from: nat, count: nat) {
    forall i | from <= i < from + count :: fate(i).Works?
  }

  /** Of the commands from one number to another all worked, but on failure the last. */
  ghost predicate Ended(fate: nat -> Fault, from: nat, to: nat, ok: bool) {
    from <= to && (!ok ==> from < to) && forall i | from <= i < to :: fate(i).Works? <==> ok || i + 1 < to
  }

  lemma {:induction false} EndedOn(fate: nat -> Fault, from: nat, mid: nat, to: nat, ok: bool)
    requires Ended(fate, from, mid, true) && Ended(fate, mid, to, ok)
    ensures Ended(fate, from, to, ok)
  {
  }

  /** Of the given commands the first ones were issued, and on success all of them. */
  ghost predicate Begun(start: seq<Command>, issued: seq<Command>, commands: seq<Command>, ok: bool) {
    issued <= start + commands && (ok ==> issued == start + commands)
  }

  /** If the commands ended with the first failure, they succeed exactly if all of them work. */
  lemma {:induction false} EndedIff(fate: nat -> Fault, start: seq<Command>, issued: seq<Command>,
                                    commands: seq<Command>, ok: bool)
    requires Begun(start, issued, commands, ok) && Ended(fate, |start|, |issued|, ok)
    ensures ok <==> AllWork(fate, |start|, |commands|)
  {
    if !ok {
      assert !fate(|issued| - 1).Works?;
    }
  }

  /** The machine the commands run on (`CommandRunner`). */
  class Host {
    var kernel: Kernel
    /** Every command issued, in order. */
    var issued: seq<Command>
    /** What happens to the n-th command. */
    const fate: nat -> Fault

    constructor (kernel: Kernel, fate: nat -> Fault)
      ensures this.kernel == kernel && this.fate == fate && issued == []
    {
      this.kernel := kernel;
      this.fate := fate;
      issued := [];
    }

    /** Among so many commands, no failure passes itself off as exit code 1, by which `-C`
        reports an absent rule. */
    ghost predicate Honest(from: nat, count: nat) {
      forall n | from <= n < from + count :: fate(n).Fails? ==> fate(n).code != Some(1)
    }

    /** `run_status`. */
    method RunStatus(c: Command, now: Time) returns (status: Option<CommandStatus>)
      modifies this
      ensures issued == old(issued) + [c]
      ensures var f := fate(|old(issued)|); var e := Exec(old(kernel), c, now);
              && kernel == Left(f, e, old(kernel))
              && status == Reported(f, e)
    {
      var f := fate(|issued|);
      var e := Exec(kernel, c, now);
      issued := issued + [c];
      match f {
        case Works => kernel := e.kernel; status := Some(e.status);
        case DoesNotStart => status := None;
        case Fails(applied, code) =>
          if applied { kernel := e.kernel; }
          status := Some(CommandStatus(false, code));
      }
    }

    /** `run`: whether the command started and succeeded. */
    method Run(c: Command, now: Time) returns (ok: bool)
      modifies this
      ensures issued == old(issued) + [c]
      ensures var f := fate(|old(issued)|); var e := Exec(old(kernel), c, now);
              && kernel == Left(f, e, old(kernel))
              && ok == (f.Works? && e.status.success)
    {
      var status := RunStatus(c, now);
      ok := status.Some? && status.value.success;
    }
  }

  /** The most commands that a setup issues: two for the sets, and two for each rule. */
  const SETUP_LENGTH := 8
  const RULES_LENGTH := 6
  const PREFLIGHT_LENGTH := 3

  datatype Firewall = Firewall(ipsetName: string, banIpsetName: string, ipTimeout: nat, banTimeout: nat,
                               backend: FirewallBackend, family: AddressFamily)
  {
    function BanDropRule(): Rule {
      Rule(None, Some(banIpsetName), Drop)
    }

    function AllowRule(sshPort: u16): Rule {
      Rule(Some(sshPort), Some(ipsetName), Accept)
    }

    function DropRule(sshPort: u16): Rule {
      Rule(Some(sshPort), None, Drop)
    }

    function AddIpCommand(ip: IpAddr): Command {
      AddEntry(ipsetName, ip, ipTimeout)
    }

    function BanIpCommand(ip: IpAddr): Command {
      AddEntry(banIpsetName, ip, banTimeout)
    }

    /** The chain once the first `n` of the three rules are ensured. */
    function Stage(c: Chain, sshPort: u16, n: nat): Chain {
      if n == 0 then c
      else if n == 1 then Front(AllowRule(sshPort), c)
      else if n == 2 then Back(DropRule(sshPort), Stage(c, sshPort, 1))
      else Front(BanDropRule(), Stage(c, sshPort, 2))
    }

    /** The commands that ensure a rule which is, or is not, there. */
    function EnsureCommands(apply: Command, rule: Rule, present: bool): seq<Command> {
      if present then [CheckRule(backend, rule)] else [CheckRule(backend, rule), apply]
    }

    /** The commands of a setup that nothing disturbs, over the chain `c`. */
    function SetupCommands(c: Chain, sshPort: u16): seq<Command> {
      CreateCommands() + RuleCommands(c, sshPort, 3)
    }

    /** The part of them that ensures the first `n` rules. */
    function RuleCommands(c: Chain, sshPort: u16, n: nat): seq<Command>
      requires n <= 3
    {
      if n == 0 then []
      else
        var apply, rule := ApplyNth(sshPort, n - 1), NthRule(sshPort, n - 1);
        RuleCommands(c, sshPort, n - 1) + EnsureCommands(apply, rule, rule in Stage(c, sshPort, n - 1))
    }

    function NthRule(sshPort: u16, n: nat): Rule {
      if n == 0 then AllowRule(sshPort) else if n == 1 then DropRule(sshPort) else BanDropRule()
    }

    function ApplyNth(sshPort: u16, n: nat): Command {
      if n == 1 then AppendLast(backend, DropRule(sshPort)) else InsertFirst(backend, NthRule(sshPort, n))
    }

    function CreateCommands(): seq<Command> {
      [CreateSet(ipsetName, ipTimeout, family), CreateSet(banIpsetName, banTimeout, family)]
    }

    /** The rule once more in the chain. */
    function Applied(apply: Command, rule: Rule, c: Chain): Chain {
      if apply.InsertFirst? then [rule] + c else c + [rule]
    }

    method EnsureRule(host: Host, apply: Command, rule: Rule, now: Time) returns (ok: bool)
      requires apply in {InsertFirst(backend, rule), AppendLast(backend, rule)}
      modifies host
      // The rule is applied exactly when the check reports exit code 1, and then it is up to
      // that command; else it is up to the check.
      ensures var check, n, k := CheckRule(backend, rule), |old(host.issued)|, old(host.kernel);
              if Reported(host.fate(n), Exec(k, check, now)) == Some(REFUSED) then
                && host.issued == old(host.issued) + [check, apply]
                && host.kernel == Left(host.fate(n + 1), Exec(k, apply, now), k)
                && (ok <==> host.fate(n + 1).Works? && Usable(k, rule))
              else
                && host.issued == old(host.issued) + [check] && host.kernel == k
                && (ok <==> host.fate(n).Works? && Usable(k, rule) && rule in InputOf(k, backend))
      // The rule is added at most once, and is there on success.
      ensures var c := old(InputOf(host.kernel, backend)); var after := InputOf(host.kernel, backend);
              after in {c, Applied(apply, rule, c)} && (ok ==> rule in after && Usable(host.kernel, rule))
      // On an honest host it is added only if it was not there.
      ensures host.Honest(|old(host.issued)|, 1) ==>
                Ensured(apply, rule, old(InputOf(host.kernel, backend)), InputOf(host.kernel, backend),
                        old(host.issued), host.issued, ok)
                && (Usable(old(host.kernel), rule) ==> Ended(host.fate, |old(host.issued)|, |host.issued|, ok))
      ensures host.kernel == WithInput(old(host.kernel), backend, InputOf(host.kernel, backend))
    {
      var status := host.RunStatus(CheckRule(backend, rule), now);
      if status.None? { return false; }
      if status.value.success { return true; }
      if status.value.code == Some(1) {
        ok := host.Run(apply, now);
        return;
      }
      return false;
    }

    /** The chain `c` with the rule added if it was not there, or on failure perhaps not,
        and the commands that do it, or on failure the first of them. */
    ghost predicate Ensured(apply: Command, rule: Rule, c: Chain, after: Chain, start: seq<Command>,
                            issued: seq<Command>, ok: bool) {
      var goal := if rule in c then c else Applied(apply, rule, c);
      && after in {c, goal} && (ok ==> after == goal)
      && Begun(start, issued, EnsureCommands(apply, rule, rule in c), ok)
    }

    /** `setup`, leaving at the first command that fails. */
    method Setup(host: Host, sshPort: u16, now: Time) returns (ok: bool)
      modifies host
      // On an honest host it succeeds exactly if the sets can be made and every command works,
      // and otherwise ends with the first one that does not.
      ensures host.Honest(|old(host.issued)|, SETUP_LENGTH) ==>
                (ok <==>
                   && Makeable(old(host.kernel))
                   && AllWork(host.fate, |old(host.issued)|,
                              |SetupCommands(old(InputOf(host.kernel, backend)), sshPort)|))
      ensures host.Honest(|old(host.issued)|, SETUP_LENGTH) && Makeable(old(host.kernel)) ==>
                Ended(host.fate, |old(host.issued)|, |host.issued|, ok)
      // On success the three rules are there, and the rules of others are where they were.
      ensures var c := old(InputOf(host.kernel, backend)); var after := InputOf(host.kernel, backend);
              Surrounds(after, c, sshPort) && (ok ==> forall n :: 0 <= n < 3 ==> NthRule(sshPort, n) in after)
      // However it ends, on an honest host the chain is one of the stages on the way to the
      // complete one, and the commands are the first ones of an undisturbed setup.
      ensures var c := old(InputOf(host.kernel, backend));
              host.Honest(|old(host.issued)|, SETUP_LENGTH) ==>
                OnTheWay(c, sshPort, InputOf(host.kernel, backend), ok)
                && Begun(old(host.issued), host.issued, SetupCommands(c, sshPort), ok)
      ensures ok ==> SetsMade(host.kernel)
      ensures Makeable(old(host.kernel)) ==> Makeable(host.kernel)
      ensures old(host.issued) < host.issued
      // Nothing else changes: no set that was there, and not the other program's chain.
      ensures SetsKept(old(host.kernel), host.kernel)
      ensures forall program | program != backend ::
                InputOf(host.kernel, program) == old(InputOf(host.kernel, program))
    {
      ghost var c, start := InputOf(host.kernel, backend), host.issued;
      ghost var makeable := Makeable(host.kernel);
      ok := CreateSets(host, now);
      ghost var mid := host.issued;
      BegunLonger(start, mid, CreateCommands(), RuleCommands(c, sshPort, 3), ok);
      if ok {
        ok := EnsureRules(host, sshPort, now);
        BegunAfter(start, host.issued, CreateCommands(), RuleCommands(c, sshPort, 3), ok);
        if host.Honest(|start|, SETUP_LENGTH) {
          EndedOn(host.fate, |start|, |mid|, |host.issued|, ok);
        }
      } else {
        NothingAdded(c, sshPort);
      }
      if host.Honest(|start|, SETUP_LENGTH) && makeable {
        EndedIff(host.fate, start, host.issued, SetupCommands(c, sshPort), ok);
      }
    }

    /** The chain is one of the stages from `c`, and on success the last one. */
    ghost predicate OnTheWay(c: Chain, sshPort: u16, after: Chain, ok: bool) {
      (exists n :: 0 <= n <= 3 && after == Stage(c, sshPort, n)) && (ok ==> after == Stage(c, sshPort, 3))
    }

    lemma {:induction false} BegunLonger(start: seq<Command>, issued: seq<Command>, first: seq<Command>,
                                         rest: seq<Command>, ok: bool)
      requires Begun(start, issued, first, ok)
      ensures Begun(start, issued, first + rest, false)
    {
      assert start + (first + rest) == (start + first) + rest;
    }

    lemma {:induction false} BegunAfter(start: seq<Command>, issued: seq<Command>, first: seq<Command>,
                                        rest: seq<Command>, ok: bool)
      ensures Begun(start + first, issued, rest, ok) ==> Begun(start, issued, first + rest, ok)
    {
      assert start + (first + rest) == (start + first) + rest;
    }

    /** Both sets can be made: what is there of them was made as configured, and with one
        name for both there is one timeout. */
    predicate Makeable(k: Kernel) {
      && (ipsetName in k.sets ==> k.sets[ipsetName].kind == SetKind(ipTimeout, family))
      && (banIpsetName in k.sets ==> k.sets[banIpsetName].kind == SetKind(banTimeout, family))
      && (ipsetName == banIpsetName ==> ipTimeout == banTimeout)
    }

    /** Both sets are there, made as configured. With one name for both this takes one timeout. */
    predicate SetsMade(k: Kernel) {
      && ipsetName in k.sets && k.sets[ipsetName].kind == SetKind(ipTimeout, family)
      && banIpsetName in k.sets && k.sets[banIpsetName].kind == SetKind(banTimeout, family)
    }

    /** Every set that was there is as it was, and a new one is one of the two, and empty. */
    ghost predicate SetsKept(before: Kernel, after: Kernel) {
      && (forall name | name in before.sets :: name in after.sets && after.sets[name] == before.sets[name])
      && (forall name | name in after.sets && name !in before.sets ::
            name in {ipsetName, banIpsetName} && after.sets[name].entries == map[])
    }

    /** The chain `c` with nothing but rules of the daemon before and behind it. */
    ghost predicate Surrounds(after: Chain, c: Chain, sshPort: u16) {
      exists front: Chain, back: Chain ::
        && after == front + c + back
        && (forall r | r in front :: r in {AllowRule(sshPort), BanDropRule()})
        && (forall r | r in back :: r == DropRule(sshPort))
    }

    lemma {:induction false} NothingAdded(c: Chain, sshPort: u16)
      ensures Surrounds(c, c, sshPort) && Stage(c, sshPort, 0) == c
    {
      assert [] + c + [] == c;
    }

    lemma {:induction false} NothingIssued(c: Chain, sshPort: u16, start: seq<Command>, fate: nat -> Fault)
      ensures start + RuleCommands(c, sshPort, 0) == start && Ended(fate, |start|, |start|, true)
    {
    }

    lemma {:induction false} OneMore(after: Chain, c: Chain, sshPort: u16, apply: Command, rule: Rule)
      requires Surrounds(after, c, sshPort)
      requires if apply.InsertFirst? then rule in {AllowRule(sshPort), BanDropRule()} else rule == DropRule(sshPort)
      ensures Surrounds(Applied(apply, rule, after), c, sshPort)
    {
      var front: Chain, back: Chain :|
        && after == front + c + back
        && (forall r | r in front :: r in {AllowRule(sshPort), BanDropRule()})
        && (forall r | r in back :: r == DropRule(sshPort));
      if apply.InsertFirst? {
        assert [rule] + after == ([rule] + front) + c + back;
      } else {
        assert after + [rule] == front + c + (back + [rule]);
      }
    }

    method CreateSets(host: Host, now: Time) returns (ok: bool)
      modifies host
      ensures var n := |old(host.issued)|;
              ok <==> Makeable(old(host.kernel)) && host.fate(n).Works? && host.fate(n + 1).Works?
      ensures Makeable(old(host.kernel)) ==> Ended(host.fate, |old(host.issued)|, |host.issued|, ok)
      ensures var first, second := CreateSet(ipsetName, ipTimeout, family), CreateSet(banIpsetName, banTimeout, family);
              var n := |old(host.issued)|;
              var e := Exec(old(host.kernel), first, now); var mid := Left(host.fate(n), e, old(host.kernel));
              if host.fate(n).Works? && e.status.success then
                && host.issued == old(host.issued) + [first, second]
                && host.kernel == Left(host.fate(n + 1), Exec(mid, second, now), mid)
              else host.issued == old(host.issued) + [first] && host.kernel == mid
      ensures ok ==> SetsMade(host.kernel)
      ensures Makeable(old(host.kernel)) ==> Makeable(host.kernel)
      ensures Begun(old(host.issued), host.issued, CreateCommands(), ok)
      ensures SetsKept(old(host.kernel), host.kernel)
      ensures host.kernel == old(host.kernel).(sets := host.kernel.sets)
    {
      ok := host.Run(CreateSet(ipsetName, ipTimeout, family), now);
      if !ok { return; }
      ok := host.Run(CreateSet(banIpsetName, banTimeout, family), now);
    }

    method EnsureRules(host: Host, sshPort: u16, now: Time) returns (ok: bool)
      requires SetsMade(host.kernel)
      modifies host
      ensures var c := old(InputOf(host.kernel, backend)); var after := InputOf(host.kernel, backend);
              Surrounds(after, c, sshPort) && (ok ==> forall n :: 0 <= n < 3 ==> NthRule(sshPort, n) in after)
      ensures var c := old(InputOf(host.kernel, backend));
              host.Honest(|old(host.issued)|, RULES_LENGTH) ==>
                OnTheWay(c, sshPort, InputOf(host.kernel, backend), ok)
                && Begun(old(host.issued), host.issued, RuleCommands(c, sshPort, 3), ok)
                && Ended(host.fate, |old(host.issued)|, |host.issued|, ok)
      ensures old(host.issued) <= host.issued
      ensures host.kernel == WithInput(old(host.kernel), backend, InputOf(host.kernel, backend))
    {
      ghost var c, start := InputOf(host.kernel, backend), host.issued;
      NothingAdded(c, sshPort);
      NothingIssued(c, sshPort, start, host.fate);
      ok := EnsureNth(host, sshPort, 0, c, start, now);
      if !ok { return; }
      ok := EnsureDrops(host, sshPort, c, start, now);
    }

    /** The two drop rules, after the allow rule. */
    method EnsureDrops(host: Host, sshPort: u16, ghost c: Chain, ghost start: seq<Command>, now: Time)
      returns (ok: bool)
      requires Surrounds(InputOf(host.kernel, backend), c, sshPort) && SetsMade(host.kernel)
      requires host.Honest(|start|, RULES_LENGTH) ==>
                 && InputOf(host.kernel, backend) == Stage(c, sshPort, 1)
                 && host.issued == start + RuleCommands(c, sshPort, 1)
                 && Ended(host.fate, |start|, |host.issued|, true)
      modifies host
      ensures var before := old(InputOf(host.kernel, backend)); var after := InputOf(host.kernel, backend);
              && Surrounds(after, c, sshPort)
              && (forall r | r in before :: r in after)
              && (ok ==> NthRule(sshPort, 1) in after && NthRule(sshPort, 2) in after)
      ensures host.Honest(|start|, RULES_LENGTH) ==>
                && OnTheWay(c, sshPort, InputOf(host.kernel, backend), ok)
                && Begun(start, host.issued, RuleCommands(c, sshPort, 3), ok)
                && Ended(host.fate, |start|, |host.issued|, ok)
      ensures old(host.issued) <= host.issued
      ensures host.kernel == WithInput(old(host.kernel), backend, InputOf(host.kernel, backend))
    {
      ok := EnsureNth(host, sshPort, 1, c, start, now);
      if !ok { return; }
      ok := EnsureNth(host, sshPort, 2, c, start, now);
    }

    /** One more rule ensured, or not. */
    lemma {:induction false} NthStep(c: Chain, sshPort: u16, n: nat, before: Chain, after: Chain, start: seq<Command>,
                                     first: seq<Command>, issued: seq<Command>, ok: bool)
      requires n < 3 && before == Stage(c, sshPort, n) && first == start + RuleCommands(c, sshPort, n)
      requires Ensured(ApplyNth(sshPort, n), NthRule(sshPort, n), before, after, first, issued, ok)
      ensures OnTheWay(c, sshPort, after, ok && n == 2)
      ensures Begun(start, issued, RuleCommands(c, sshPort, 3), ok && n == 2)
      ensures ok ==> after == Stage(c, sshPort, n + 1) && issued == start + RuleCommands(c, sshPort, n + 1)
    {
      var more := EnsureCommands(ApplyNth(sshPort, n), NthRule(sshPort, n), NthRule(sshPort, n) in before);
      assert RuleCommands(c, sshPort, n + 1) == RuleCommands(c, sshPort, n) + more;
      BegunAfter(start, issued, RuleCommands(c, sshPort, n), more, ok);
      CommandsGrow(c, sshPort);
      NextStage(c, sshPort, n, before, after, ok);
      assert start + RuleCommands(c, sshPort, n + 1) <= start + RuleCommands(c, sshPort, 3);
    }

    lemma {:induction false} NextStage(c: Chain, sshPort: u16, n: nat, before: Chain, after: Chain, ok: bool)
      requires n < 3 && before == Stage(c, sshPort, n)
      requires var rule := NthRule(sshPort, n);
               var goal := if rule in before then before else Applied(ApplyNth(sshPort, n), rule, before);
               after in {before, goal} && (ok ==> after == goal)
      ensures OnTheWay(c, sshPort, after, ok && n == 2) && (ok ==> after == Stage(c, sshPort, n + 1))
    {
      assert after == Stage(c, sshPort, n) || after == Stage(c, sshPort, n + 1);
    }

    lemma {:induction false} CommandsShort(c: Chain, sshPort: u16, n: nat)
      requires n <= 3
      ensures |RuleCommands(c, sshPort, n)| <= 2 * n
      decreases n
    {
      if n > 0 {
        CommandsShort(c, sshPort, n - 1);
      }
    }

    lemma {:induction false} SetupShort(c: Chain, sshPort: u16)
      ensures |SetupCommands(c, sshPort)| <= SETUP_LENGTH
    {
      CommandsShort(c, sshPort, 3);
    }

    lemma {:induction false} CommandsGrow(c: Chain, sshPort: u16)
      ensures RuleCommands(c, sshPort, 1) <= RuleCommands(c, sshPort, 2) <= RuleCommands(c, sshPort, 3)
      ensures RuleCommands(c, sshPort, 0) == []
    {
    }

    /** The next rule of a setup that began over `c` with the commands `start` issued. */
    method EnsureNth(host: Host, sshPort: u16, n: nat, ghost c: Chain, ghost start: seq<Command>, now: Time)
      returns (ok: bool)
      requires n < 3 && Surrounds(InputOf(host.kernel, backend), c, sshPort) && SetsMade(host.kernel)
      requires host.Honest(|start|, RULES_LENGTH) ==>
                 && InputOf(host.kernel, backend) == Stage(c, sshPort, n)
                 && host.issued == start + RuleCommands(c, sshPort, n)
                 && Ended(host.fate, |start|, |host.issued|, true)
      modifies host
      ensures var before := old(InputOf(host.kernel, backend)); var after := InputOf(host.kernel, backend);
              && Surrounds(after, c, sshPort)
              && (forall r | r in before :: r in after) && (ok ==> NthRule(sshPort, n) in after)
      ensures host.Honest(|start|, RULES_LENGTH) ==>
                && OnTheWay(c, sshPort, InputOf(host.kernel, backend), ok && n == 2)
                && Begun(start, host.issued, RuleCommands(c, sshPort, 3), ok && n == 2)
                && Ended(host.fate, |start|, |host.issued|, ok)
      ensures host.Honest(|start|, RULES_LENGTH) && ok ==>
                && InputOf(host.kernel, backend) == Stage(c, sshPort, n + 1)
                && host.issued == start + RuleCommands(c, sshPort, n + 1)
      ensures old(host.issued) <= host.issued
      ensures host.kernel == WithInput(old(host.kernel), backend, InputOf(host.kernel, backend))
    {
      var apply, rule := ApplyNth(sshPort, n), NthRule(sshPort, n);
      ghost var before, first := InputOf(host.kernel, backend), host.issued;
      OneMore(before, c, sshPort, apply, rule);
      ok := EnsureRule(host, apply, rule, now);
      if host.Honest(|start|, RULES_LENGTH) {
        CommandsShort(c, sshPort, n);
        NthStep(c, sshPort, n, before, InputOf(host.kernel, backend), start, first, host.issued, ok);
        EndedOn(host.fate, |start|, |first|, |host.issued|, ok);
      }
    }

    method AddIp(host: Host, ip: IpAddr, now: Time) returns (ok: bool)
      modifies host
      ensures host.issued == old(host.issued) + [AddIpCommand(ip)]
      ensures var f := host.fate(|old(host.issued)|);
              && ok == (f.Works? && ipsetName in old(host.kernel.sets))
              && host.kernel == Left(f, Exec(old(host.kernel), AddIpCommand(ip), now), old(host.kernel))
    {
      ok := host.Run(AddIpCommand(ip), now);
    }

    method BanIp(host: Host, ip: IpAddr, now: Time) returns (ok: bool)
      modifies host
      ensures host.issued == old(host.issued) + [BanIpCommand(ip)]
      ensures var f := host.fate(|old(host.issued)|);
              && ok == (f.Works? && banIpsetName in old(host.kernel.sets))
              && host.kernel == Left(f, Exec(old(host.kernel), BanIpCommand(ip), now), old(host.kernel))
    {
      ok := host.Run(BanIpCommand(ip), now);
    }

    /** `preflight`: both sets and the iptables program answer, asked in this order. */
    method Preflight(host: Host, now: Time) returns (ok: bool)
      modifies host
      ensures host.kernel == old(host.kernel)
      ensures var n := |old(host.issued)|;
              ok <==> host.fate(n).Works? && host.fate(n + 1).Works? && host.fate(n + 2).Works?
                      && ipsetName in host.kernel.sets && banIpsetName in host.kernel.sets
      ensures Begun(old(host.issued), host.issued, [ListSet(ipsetName), ListSet(banIpsetName), ListRules(backend)], ok)
      ensures ipsetName in host.kernel.sets && banIpsetName in host.kernel.sets ==>
                Ended(host.fate, |old(host.issued)|, |host.issued|, ok)
    {
      ok := host.Run(ListSet(ipsetName), now);
      if !ok { return; }
      ok := host.Run(ListSet(banIpsetName), now);
      if !ok { return; }
      ok := host.Run(ListRules(backend), now);
    }
  }

  /** Ensures a rule at the head of the chain. */
  function Front(r: Rule, c: Chain): Chain {
    if r in c then c else [r] + c
  }

  /** Ensures a rule at the end of the chain. */
  function Back(r: Rule, c: Chain): Chain {
    if r in c then c else c + [r]
  }
}
