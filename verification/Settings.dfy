/** The configuration and its validation (src/config.rs). */
module Settings {
  import opened Base

  datatype Protocol = Tcp | Udp | Icmp
  datatype FirewallBackend = Iptables | Ip6tables
  datatype AddressFamily = Ipv4 | Ipv6

  datatype KnockStep = KnockStep(protocol: Protocol, port: Option<u16>, size: nat)

  datatype Config = Config(
    sshPort: u16,
    ipsetName: string,
    firewallBackend: FirewallBackend,
    addressFamily: AddressFamily,
    sequenceWindow: nat,
    ipTimeout: nat,
    partialStateTimeout: nat,
    maxPartialStates: nat,
    maxPayloadSize: nat,
    logLevel: string,
    invalidBurstLimit: u32,
    invalidRefillPerMinute: u32,
    banTimeout: nat,
    banIpsetName: string,
    sequence: seq<KnockStep>)

  datatype ConfigError =
    | SequenceTooShort
    | WindowOutOfRange
    | ZeroPartialStateTimeout
    | ZeroMaxPartialStates
    | ZeroIpTimeout
    | ZeroMaxPayloadSize
    | BadSetName
    | ZeroRateLimit
    | ZeroBanTimeout
    | StepSizeOutOfRange
    | PortMissing
    | PortZero
    | PortIsSshPort
    | PortRepeated
    | IcmpWithPort

  datatype Validation = Ok | Bad(error: ConfigError)

  predicate IsNameChar(c: char) {
    'a' <= c <= 'z' || 'A' <= c <= 'Z' || '0' <= c <= '9' || c in {'_', '.', ':', '-'}
  }

  /** `validate_ipset_name`. */
  predicate ValidSetName(name: string) {
    1 <= |name| <= 31 && forall i | 0 <= i < |name| :: IsNameChar(name[i])
  }

  const LETTERS := "abcdefghijklmnopqrstuvwxyz"
  const CAPITALS := "ABCDEFGHIJKLMNOPQRSTUVWXYZ"
  const DIGITS := "0123456789"
  const MARKS := "_.:-"

  /** One to 31 letters, digits and marks. */
  predicate SetNameWellFormed(name: string) {
    && name != "" && |name| < 32
    && forall i | 0 <= i < |name| :: name[i] in LETTERS || name[i] in CAPITALS || name[i] in DIGITS || name[i] in MARKS
  }

  lemma {:induction false} NameChar(ch: char)
    ensures IsNameChar(ch) <==> ch in LETTERS || ch in CAPITALS || ch in DIGITS || ch in MARKS
  {
    Letter(ch);
    Capital(ch);
    Digit(ch);
  }

  lemma {:induction false} Letter(ch: char)
    ensures ch in LETTERS <==> 'a' <= ch <= 'z'
  {
  }

  lemma {:induction false} Capital(ch: char)
    ensures ch in CAPITALS <==> 'A' <= ch <= 'Z'
  {
  }

  lemma {:induction false} Digit(ch: char)
    ensures ch in DIGITS <==> '0' <= ch <= '9'
  {
  }

  lemma {:induction false} SetNameMeans(name: string)
    ensures ValidSetName(name) <==> SetNameWellFormed(name)
  {
    forall i | 0 <= i < |name|
      ensures IsNameChar(name[i]) <==>
              name[i] in LETTERS || name[i] in CAPITALS || name[i] in DIGITS || name[i] in MARKS
    {
      NameChar(name[i]);
    }
  }

  /** A TCP or UDP step, which is the kind that owns a listener port. */
  predicate Ported(step: KnockStep) {
    step.protocol != Icmp
  }

  predicate StepWellFormed(c: Config, step: KnockStep) {
    && 1 <= step.size <= c.maxPayloadSize
    && (Ported(step) ==> step.port.Some? && step.port.value != 0 && step.port.value != c.sshPort)
    && (!Ported(step) ==> step.port.None?)
  }

  ghost predicate PortsDistinct(steps: seq<KnockStep>) {
    forall i, j | 0 <= i < j < |steps| && Ported(steps[i]) && Ported(steps[j]) :: steps[i].port != steps[j].port
  }

  /** What a configuration must satisfy, with no order of checking in it. */
  ghost predicate WellFormed(c: Config) {
    LimitsInRange(c) && StepsWellFormed(c)
  }

  predicate LimitsInRange(c: Config) {
    && 3 <= |c.sequence|
    && 1 <= c.sequenceWindow <= 60
    && 0 < c.partialStateTimeout && 0 < c.maxPartialStates && 0 < c.ipTimeout && 0 < c.maxPayloadSize
    && SetNameWellFormed(c.ipsetName) && SetNameWellFormed(c.banIpsetName)
    && 0 < c.invalidBurstLimit && 0 < c.invalidRefillPerMinute && 0 < c.banTimeout
  }

  ghost predicate StepsWellFormed(c: Config) {
    (forall i | 0 <= i < |c.sequence| :: StepWellFormed(c, c.sequence[i])) && PortsDistinct(c.sequence)
  }

  /** The defect an error reports. */
  ghost predicate Defective(c: Config, e: ConfigError) {
    match e
    case SequenceTooShort => |c.sequence| < 3
    case WindowOutOfRange => c.sequenceWindow == 0 || 60 < c.sequenceWindow
    case ZeroPartialStateTimeout => c.partialStateTimeout == 0
    case ZeroMaxPartialStates => c.maxPartialStates == 0
    case ZeroIpTimeout => c.ipTimeout == 0
    case ZeroMaxPayloadSize => c.maxPayloadSize == 0
    case BadSetName => !SetNameWellFormed(c.ipsetName) || !SetNameWellFormed(c.banIpsetName)
    case ZeroRateLimit => c.invalidBurstLimit == 0 || c.invalidRefillPerMinute == 0
    case ZeroBanTimeout => c.banTimeout == 0
    case StepSizeOutOfRange => exists s | s in c.sequence :: s.size == 0 || c.maxPayloadSize < s.size
    case PortMissing => exists s | s in c.sequence :: Ported(s) && s.port.None?
    case PortZero => exists s | s in c.sequence :: Ported(s) && s.port == Some(0)
    case PortIsSshPort => exists s | s in c.sequence :: Ported(s) && s.port == Some(c.sshPort)
    case PortRepeated => !PortsDistinct(c.sequence)
    case IcmpWithPort => exists s | s in c.sequence :: !Ported(s) && s.port.Some?
  }

  /** `Config::validate`: the checks in the source's order, leaving at the first failure. */
  method Validate(c: Config) returns (r: Validation)
    ensures r == Ok <==> WellFormed(c)
    ensures r.Bad? ==> Defective(c, r.error)
  {
    r := ValidateLimits(c);
    if r == Ok {
      r := ValidateSteps(c);
    }
  }

  method ValidateLimits(c: Config) returns (r: Validation)
    ensures r == Ok <==> LimitsInRange(c)
    ensures r.Bad? ==> Defective(c, r.error)
  {
    if |c.sequence| < 3 { return Bad(SequenceTooShort); }
    if c.sequenceWindow == 0 || c.sequenceWindow > 60 { return Bad(WindowOutOfRange); }
    if c.partialStateTimeout == 0 { return Bad(ZeroPartialStateTimeout); }
    if c.maxPartialStates == 0 { return Bad(ZeroMaxPartialStates); }
    if c.ipTimeout == 0 { return Bad(ZeroIpTimeout); }
    if c.maxPayloadSize == 0 { return Bad(ZeroMaxPayloadSize); }
    SetNameMeans(c.ipsetName);
    SetNameMeans(c.banIpsetName);
    if !ValidSetName(c.ipsetName) { return Bad(BadSetName); }
    if !ValidSetName(c.banIpsetName) { return Bad(BadSetName); }
    if c.invalidBurstLimit == 0 || c.invalidRefillPerMinute == 0 { return Bad(ZeroRateLimit); }
    if c.banTimeout == 0 { return Bad(ZeroBanTimeout); }
    return Ok;
  }

  /** The loop over the steps, with the ports seen so far. */
  method ValidateSteps(c: Config) returns (r: Validation)
    ensures r == Ok <==> StepsWellFormed(c)
    ensures r.Bad? ==> Defective(c, r.error)
  {
    var ports: seq<u16> := [];
    for i := 0 to |c.sequence|
      invariant ValidSoFar(c, ports, c.sequence[..i])
    {
      var step := c.sequence[i];
      ghost var before := c.sequence[..i];
      r := ValidateStep(c, step, ports, before);
      if r.Bad? {
        DefectRemains(c, i, r.error);
        return;
      }
      OneMoreStep(c.sequence, i);
      ghost var listed := ports;
      if Ported(step) {
        ports := ports + [step.port.value];
      }
      ValidOneMore(c, listed, ports, before, step);
    }
    OneMoreStep(c.sequence, |c.sequence|);
    return Ok;
  }

  lemma {:induction false} OneMoreStep(steps: seq<KnockStep>, i: nat)
    requires i <= |steps|
    ensures i < |steps| ==> steps[..i + 1] == steps[..i] + [steps[i]]
    ensures steps[..|steps|] == steps
  {
  }

  /** The listed ports are those of the given TCP and UDP steps. */
  ghost predicate HoldsPorts(ports: seq<u16>, steps: seq<KnockStep>) {
    && (forall k | 0 <= k < |steps| && Ported(steps[k]) :: steps[k].port.Some? && steps[k].port.value in ports)
    && (forall q | q in ports :: exists k :: 0 <= k < |steps| && Ported(steps[k]) && steps[k].port == Some(q))
  }

  /** The steps so far are well-formed, and the listed ports are theirs. */
  ghost predicate ValidSoFar(c: Config, ports: seq<u16>, steps: seq<KnockStep>) {
    (forall k | 0 <= k < |steps| :: StepWellFormed(c, steps[k])) && PortsDistinct(steps) && HoldsPorts(ports, steps)
  }

  lemma {:induction false} ValidOneMore(c: Config, ports: seq<u16>, after: seq<u16>, before: seq<KnockStep>,
                                        step: KnockStep)
    requires ValidSoFar(c, ports, before) && StepWellFormed(c, step)
    requires PortsDistinct(before + [step]) && HoldsPorts(after, before + [step])
    ensures ValidSoFar(c, after, before + [step])
  {
  }

  /** The defect of one more step after those before it. */
  ghost predicate StepDefective(c: Config, step: KnockStep, before: seq<KnockStep>, e: ConfigError) {
    match e
    case StepSizeOutOfRange => step.size == 0 || c.maxPayloadSize < step.size
    case PortMissing => Ported(step) && step.port.None?
    case PortZero => Ported(step) && step.port == Some(0)
    case PortIsSshPort => Ported(step) && step.port == Some(c.sshPort)
    case PortRepeated =>
      Ported(step) && exists k :: 0 <= k < |before| && Ported(before[k]) && before[k].port == step.port
    case IcmpWithPort => !Ported(step) && step.port.Some?
    case _ => false
  }

  /** A defect of a step is one of the configuration, and keeps it from being well-formed. */
  lemma {:induction false} DefectRemains(c: Config, i: nat, e: ConfigError)
    requires i < |c.sequence| && StepDefective(c, c.sequence[i], c.sequence[..i], e)
    ensures Defective(c, e) && !StepsWellFormed(c)
  {
    assert c.sequence[i] in c.sequence;
    if e == PortRepeated {
      var k :| 0 <= k < i && Ported(c.sequence[..i][k]) && c.sequence[..i][k].port == c.sequence[i].port;
      assert c.sequence[..i][k] == c.sequence[k];
    }
  }

  /** The body of the loop over the steps. */
  method ValidateStep(c: Config, step: KnockStep, ports: seq<u16>, ghost before: seq<KnockStep>) returns (r: Validation)
    requires PortsDistinct(before) && HoldsPorts(ports, before)
    ensures r == Ok <==> StepWellFormed(c, step) && PortsDistinct(before + [step])
    ensures r == Ok ==> HoldsPorts(if Ported(step) then ports + [step.port.value] else ports, before + [step])
    ensures r.Bad? ==> StepDefective(c, step, before, r.error)
  {
    if step.size == 0 || step.size > c.maxPayloadSize { return Bad(StepSizeOutOfRange); }
    match step.protocol {
      case Tcp | Udp =>
        if step.port.None? { return Bad(PortMissing); }
        var port := step.port.value;
        if port == 0 { return Bad(PortZero); }
        if port == c.sshPort { return Bad(PortIsSshPort); }
        if port in ports {
          ghost var k :| 0 <= k < |before| && Ported(before[k]) && before[k].port == Some(port);
          assert (before + [step])[k] == before[k] && (before + [step])[|before|] == step;
          return Bad(PortRepeated);
        }
        PortsExtend(before, step, ports);
      case Icmp =>
        if step.port.Some? { return Bad(IcmpWithPort); }
        PortsExtend(before, step, ports);
    }
    return Ok;
  }

  lemma {:induction false} PortsExtend(before: seq<KnockStep>, step: KnockStep, ports: seq<u16>)
    requires PortsDistinct(before) && HoldsPorts(ports, before)
    requires Ported(step) ==> step.port.Some? && step.port.value !in ports
    ensures PortsDistinct(before + [step])
    ensures HoldsPorts(if Ported(step) then ports + [step.port.value] else ports, before + [step])
  {
    var after, ports' := before + [step], if Ported(step) then ports + [step.port.value] else ports;
    forall q | q in ports'
      ensures exists k :: 0 <= k < |after| && Ported(after[k]) && after[k].port == Some(q)
    {
      if q in ports {
        var k :| 0 <= k < |before| && Ported(before[k]) && before[k].port == Some(q);
        assert after[k] == before[k];
      } else {
        assert after[|before|] == step;
      }
    }
  }

  /** Step 0 occurs nowhere later in the sequence. */
  ghost predicate NonRecurring(steps: seq<KnockStep>) {
    forall j | 0 < j < |steps| :: steps[j] != steps[0]
  }

  /** What validation buys the tracker: step 0 can recur only as an ICMP step of the same size. */
  lemma {:induction false} RecurrenceNeedsIcmp(c: Config)
    requires WellFormed(c)
    ensures NonRecurring(c.sequence) <==>
            c.sequence[0].protocol != Icmp
            || forall j | 0 < j < |c.sequence| ::
                 !(c.sequence[j].protocol == Icmp && c.sequence[j].size == c.sequence[0].size)
  {
    assert StepWellFormed(c, c.sequence[0]);
    assert forall j | 0 < j < |c.sequence| :: StepWellFormed(c, c.sequence[j]);
  }
}
