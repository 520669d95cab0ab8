# sshknockd: the admission pipeline, verified

`sshknockd` keeps an SSH port closed until a source sends a configured knock sequence,
then lets that source through an ipset for a while, and bans sources that send too many
invalid packets. This project models the parts that decide who gets in, and proves what
they promise on whole runs: interleaved packets of many sources, with a clock that never
runs backwards.

The shape of the project follows the program:

| file | part of the program |
|---|---|
| `Base.dfy`, `Settings.dfy` | time, addresses, machine integers; the configuration and `Config::validate` |
| `Knock.dfy` | `KnockTracker`: a class over the table of partial states |
| `RateLimit.dfy` | `TokenBucketLimiter`: a class over the map of buckets |
| `Firewall.dfy` | the firewall commands over an abstract iptables and ipset machine |
| `Server.dfy`, `Daemon.dfy` | `process_packet` and its state; the accept and pending-connection passes of `run` |
| `Manifest.dfy` | the checksum lookup of the updater |
| `KnockTheory.dfy`, `CapacityTheory.dfy`, `RateTheory.dfy`, `FirewallTheory.dfy`, `ServerTheory.dfy`, `FloodTheory.dfy`, `AuditTheory.dfy`, `TelemetryTheory.dfy` | the theorems about each part |
| `ExactTheory.dfy`, `Access.dfy` | when the whole pipeline, down to the firewall chain, keeps its promise |

Each class is proved against step functions (`Knock.Step`, `RateLimit.AllowStep`,
`Server.Next`), and each keeps a ghost history that its `Valid` ties to the run of those
functions. The theorems are about the runs, and state their results against definitions
that mention neither the automaton nor the parts that the server builds from its
configuration: `ServerTheory.EndsKnock` says, by the fields of the configuration, that the
last packets of a source are the steps of the sequence, within `sequence_window` seconds and
with no gap above `partial_state_timeout` seconds; `KnockTheory.Matched` says the same of a
tracker.

Time is in nanoseconds; `Instant::duration_since` saturates at zero, as in the code. The
limiter computes in saturating 32-bit arithmetic. A command of the host may work, fail to
start, or fail with or without having taken effect. Audit writes are taken to succeed.

## Main results

* The tracker is an exact timed suffix matcher on every run if and only if step 0 of the
  sequence does not recur (`ExactIffNonRecurring`). With ICMP sizes 8, 8, 16, which
  `validate` accepts, the packets 8, 8, 8, 16 are missed. Under the same condition only, a
  bound on the table never lets a source in that a roomier tracker would not
  (`CapacityOnlyLosesIffNonRecurring`).
* For the whole pipeline, with bans, a table that may fill up, and lazy expiry triggered by
  anybody's packets, the condition is the same (`OpensExactlyIffNonRecurring`). A validated
  configuration meets it if and only if it begins with TCP or UDP, or with an ICMP size that
  no later ICMP step has (`ValidatedExactIff`). One half needs no condition: whatever the
  sequence, only a knock opens SSH (`OpensOnlyOnKnock`). No accepted knock straddles a ban
  (`NoKnockStraddlesBan`).
* The tolerance for invalid packets is bounded on both sides. A ban comes only after a burst
  (`BanNeedsBurst`) and only in a crowd: within less than a minute the source sent as many
  invalid packets before it as the burst or a minute's refill allows (`BanNeedsCrowd`). So a
  source whose invalid packets are a minute apart is never banned (`CalmIsNeverBanned`), and
  none gets away with more than `ToleranceIsBounded` says. Telemetry has the same two bounds,
  tenfold (`TelemetryIsBounded`, `SilenceNeedsCrowd`).
* A ban keeps the source's next packet out if and only if the ban map had room for it
  (`BanHoldsIffRoom`); for every validated configuration there is a run that fills the map,
  and lets a banned source through at once (`FullMapLetsThrough`).
* `ReachesExactlyWhenItMay` carries it to the firewall chain of the machine: a source reaches
  SSH at an instant exactly when it completed a knock within `ip_timeout` and no ban of it is
  younger than `ban_timeout`, where a command that failed on the host counts for nothing,
  and what the sets held before the run counts until it expires or is replaced. `Guard`
  says the same of the daemon on a host, from setup on, and when the daemon comes up and
  how long it serves, by the fates of the commands.
  `WindowKeptIff` says when this promise holds on all runs: if and only if the two ipset
  names differ and step 0 does not recur. `validate` checks neither. With one name for both
  sets setup succeeds only if the two timeouts are equal, and then nobody ever reaches SSH.
  With two names and sets that were empty before, nobody ever reaches SSH who may not, even
  if step 0 recurs (`ReachesOnlyWhenItMay`).
* Pruning idle buckets is invisible if and only if `capacity <= 2 * refill`
  (`PruningInvisibleIffAffordable`), and the documented allowance, a burst and a refill per
  minute, is a true bound under the same condition only (`DocumentedBoundIffAffordable`).
  The defaults 20 and 10 lie on the boundary. In general `max(refill, ceil(capacity / 2))`
  takes the place of the refill (`RateBound`).
* `SetupConverges`: however often setup was interrupted, a complete one leaves what one
  undisturbed setup would. Whether that protects the port depends on what was there before:
  `SetupProtectsIff` has the exact condition. It fails after a change of `ssh_port`, when a
  second setup leaves the ban rule behind the new allow rule (`PortChangeLosesBans`).
* `AuditCountsCommands`: on every run the audit lines number exactly the commands that
  succeeded and failed. `AuditHidesSequence`: exchange the steps of the sequence for others,
  and the packets likewise, and every line stays; and runs that differ only in how far knocks
  had come leave the same lines too (`AuditHidesKnocks`).

An invalid packet, in these statements, is one that `process` answers with `Rejected` or
`Oversized`. That includes the right first packet of a knock that arrives while the table
is full: the code counts it against the source, and so does the model.

Where the documentation and the code differ, the model follows the code: README.md line 28
says that a wrong packet resets the partial state, but a wrong packet that is itself the
first step starts a new knock.

## Model

| member | source | states |
|---|---|---|
| Settings.Validate | src/config.rs:157-213 | accepts exactly the well-formed configurations (at least three steps, limits in range, sizes in range, ports present, distinct and not the SSH port), and every error names a defect that is there |
| Settings.RecurrenceNeedsIcmp | src/config.rs:184-211 | in a validated sequence step 0 can recur only as an ICMP step of the same size |
| Knock.KnockTracker.Process | src/knock.rs:69-111 | outcome and new table are those of the step function, and the table stays the run over the packets so far |
| Knock.KnockTracker.Expire | src/knock.rs:114-119 | keeps exactly the entries within both the window and the gap timeout, unchanged |
| Knock.KnockTracker.StartOrReject | src/knock.rs:121-127 | starts a new knock when the packet is step 0 and the table has room, else rejects |
| Knock.KnockTracker.StartPartialState | src/knock.rs:129-142 | refuses a new source at capacity, else records step 1 |
| KnockTheory.AutomatonExact | src/knock.rs:69-111 | one source: the entry records its one unfinished timed match, and each outcome names the match completed or advanced |
| KnockTheory.AutomatonSound | src/knock.rs:69-111 | one source, any sequence, step 0 recurring or not: an entry always stands for a timed match under way, and acceptance and progress answer matches only |
| KnockTheory.ExpiryIsInvisible | src/knock.rs:114-119 | entries swept out on other sources' packets are entries that the source could no longer use |
| KnockTheory.TimedSuffixMatching | src/knock.rs:69-151 | every run: accepted iff the last packets of the source have the protocols, ports and sizes of the steps, within window and gaps, from a packet that found room; progress k iff they are the first k steps; oversized iff too long |
| KnockTheory.ExactIffNonRecurring | src/knock.rs:86-89 | accepted iff matched on all runs, if and only if step 0 does not recur |
| KnockTheory.NonInterference | src/knock.rs:69-119 | a source that always finds room is answered as by a tracker that sees nobody else |
| KnockTheory.EnoughRoom | src/knock.rs:129-132 | with no more sources than `max_partial_states`, every packet finds room |
| KnockTheory.BoundedSimulatesUnlimited | src/knock.rs:129-142 | the bounded table is always a part of the table of a tracker that never fills, and accepts nothing that one would not |
| CapacityTheory.CapacityOnlyLosesIffNonRecurring | src/knock.rs:129-142 | on all runs a tracker with room for everyone accepts whatever the bounded one accepts, if and only if step 0 does not recur |
| RateLimit.TokenBucketLimiter.Allow | src/rate_limit.rs:58-81 | answer and buckets are those of the step function, and the buckets stay the run over the calls so far |
| RateLimit.TokenBucketLimiter.PruneIdle | src/rate_limit.rs:51-56 | keeps exactly the buckets seen within twice the interval, unchanged |
| RateLimit.TokenBucketLimiter.Spend | src/rate_limit.rs:65-80 | the token comes from what was left and, once an interval has passed, from a refill for each whole interval up to the capacity, with no overflow; the last refill moves exactly then |
| RateTheory.RefillExact | src/rate_limit.rs:66-74 | the saturating refill through whole seconds equals min(capacity, tokens + refill * floor(elapsed / interval)) over unbounded integers |
| RateTheory.CallExact | src/rate_limit.rs:58-81 | a call is granted iff min(capacity, left + refill * floor(time since the last refill / interval)) is positive, takes one, and moves the last refill iff an interval has passed |
| RateTheory.AnswerExact | src/rate_limit.rs:58-81 | on a run: an answer is what the key's last bucket gives by that formula, or a full bucket if it was idle for two intervals |
| RateTheory.NonInterference | src/rate_limit.rs:58-66 | a key is answered from the times of its own calls alone, whatever is pruned for others |
| RateTheory.PruningInvisibleIffAffordable | src/rate_limit.rs:44-56 | on all runs over all keys pruning changes no answer, if and only if two refills fill a bucket |
| RateTheory.RateBound | src/rate_limit.rs:58-81 | grants to a key in any stretch are at most a full bucket and the rate per interval begun, and per interval completed when counted from its first call |
| RateTheory.DocumentedBoundIffAffordable | README.md:98-99 | a burst and a refill per interval bound the grants on all runs, if and only if the burst is at most two refills |
| RateTheory.DenialNeedsBurst | src/rate_limit.rs:75-80 | a denied call comes after at least `capacity` calls of the key with no idle gap between neighbours |
| RateTheory.DenialNeedsCrowd | src/rate_limit.rs:65-80 | a denied call comes less than an interval after the first of min(capacity, refill) calls of the key before it |
| RateTheory.SteadyIsGranted | src/rate_limit.rs:65-80 | with capacity and refill positive, a call at least an interval after the one before is granted |
| Firewall.Host.RunStatus | src/firewall.rs:19-39 | issues one command, reports how it ended, and leaves the machine as the fate of the command has it |
| Firewall.Firewall.EnsureRule | src/firewall.rs:262-276 | checks first and applies exactly when the check reports exit code 1; succeeds exactly when the rule was found or the apply command worked; machine and commands accordingly; on an honest host the rule is added only if it was not there |
| Firewall.Firewall.Setup | src/firewall.rs:283-302 | on an honest host it succeeds exactly if the sets can be made and all its commands work, and else ends with the first that does not; on success the sets are made and the three rules there, around the old rules in their order; the chain and the commands are always those of a beginning of an undisturbed setup; no set and no other chain changes |
| Firewall.Firewall.AddIp | src/firewall.rs:339-341 | puts the address into the allow set for the allow timeout, refreshing it |
| Firewall.Firewall.BanIp | src/firewall.rs:348-350 | puts the address into the ban set for the ban timeout, refreshing it |
| Firewall.Firewall.Preflight | src/firewall.rs:357-371 | changes nothing; succeeds exactly when its three commands work and both sets exist; asks in order and stops at the first failure |
| FirewallTheory.SetupConverges | src/firewall.rs:283-302 | from every chain, interrupted attempts and then a complete one leave what one complete attempt leaves, and further ones change nothing |
| FirewallTheory.RetrySetup | src/firewall.rs:283-302 | setup repeated on an honest host succeeds exactly if fewer commands fail than there is patience for, gives up at the last failure that there is patience for, and on success leaves the chain that one undisturbed setup leaves |
| FirewallTheory.StagesInOrder | src/firewall.rs:286-300 | wherever setup is interrupted, a drop rule that it added has the allow rule beside it, and a ban rule that it added has both |
| FirewallTheory.SetupInstalls | src/firewall.rs:286-300 | from a chain without the three rules the result is ban-drop, allow, the old rules, drop |
| FirewallTheory.InstalledDecides | src/firewall.rs:163-240 | the verdict of the installed chain on every packet: banned drops, allowed to the SSH port accepts, then the old rules, then the SSH port drops |
| FirewallTheory.InstalledProtects | src/firewall.rs:286-300 | the installed chain over rules that leave the port alone lets exactly the allowed and not banned reach SSH, whatever the sets hold |
| FirewallTheory.SetupProtectsIff | src/firewall.rs:283-302 | after a complete setup over any chain whose other rules leave the port alone, exactly the allowed and not banned reach SSH, whatever the sets hold, if and only if the chain held no allow rule behind a drop rule and no ban rule without an allow rule behind it |
| FirewallTheory.PortChangeLosesBans | src/firewall.rs:286-300 | after setup for one port and then for another, a source that is both allowed and banned reaches SSH on the new one |
| Server.Server.ProcessPacket | src/server.rs:290-358 | state, command, audit lines and result of one packet, whether or not the command works; the state stays the run over the packets so far |
| Server.Server.Judge | src/server.rs:298-314 | ignored, answered or banished, with tracker and limiter advanced accordingly |
| Server.Server.Act | src/server.rs:315-357 | ban remembered before its command, telemetry, allow command, and failure only when an allow command fails |
| Server.Server.IsSourceBanned | src/server.rs:229-237 | sweeps expired bans and says whether the source is still banned |
| Server.Server.RememberBannedSource | src/server.rs:239-251 | records or refreshes the ban unless the swept map is full of others |
| Server.Server.LogPacketTelemetry | src/server.rs:253-288 | two lines per packet, the outcome redacted to one of four words without the step, when the level asks for them and the telemetry limiter grants them |
| ServerTheory.MapsAlwaysSound | src/server.rs:229-251 | in every reachable state no banned source has a knock under way, and both maps are within `max_partial_states` |
| ServerTheory.OpensExactlyOnKnock | src/server.rs:290-358 | if step 0 does not recur: on every run an allow is issued iff the last packets of the source, ignored ones included, are the configured steps within `sequence_window` and `partial_state_timeout`, and the first came while the source was not banned and fewer than `max_partial_states` others had a knock under way; progress k likewise |
| ServerTheory.OpensOnlyOnKnock | src/server.rs:290-358 | whatever the sequence: on every run an allow is issued only for such a knock, and progress k only for its first k steps |
| ExactTheory.OpensExactlyIffNonRecurring | src/server.rs:290-358 | an allow is issued exactly for such matches on all runs, if and only if step 0 of the sequence does not recur |
| ServerTheory.NoKnockStraddlesBan | src/server.rs:299-339 | when a packet opens SSH, the packets of its source just before were answered by progress 1, 2 and so on; none was ignored, rejected or answered by a ban |
| ExactTheory.ValidatedExactIff | src/config.rs:184-211 | for a validated configuration the tracker is exact iff the pipeline is, and iff the sequence begins with TCP or UDP, or with an ICMP size that no later ICMP step has |
| ServerTheory.InvalidIsLocal | src/server.rs:312-314 | an invalid packet is tolerated or banished as the source's own bucket says |
| ServerTheory.BanNeedsBurst | src/server.rs:312-339 | a ban comes after at least `invalid_burst_limit` earlier invalid packets of the source with no pause of 120 seconds between neighbours |
| ServerTheory.BanNeedsCrowd | src/server.rs:312-339 | a ban comes less than 60 seconds after the first of min(`invalid_burst_limit`, `invalid_refill_per_minute`) invalid packets of the source before it |
| ServerTheory.CalmIsNeverBanned | src/server.rs:312-339 | on every run, with both limits positive as `validate` demands, a packet that comes 60 seconds or more after every earlier invalid one of its source draws no ban |
| ServerTheory.ToleranceIsBounded | src/server.rs:312-314 | in any stretch of a run, invalid packets of a source that draw no ban are at most `invalid_burst_limit` and max(`invalid_refill_per_minute`, half the burst) per minute begun |
| ServerTheory.BanLastsExactly | src/server.rs:234-251 | after a recorded ban a packet of the source is ignored iff it comes before the ban's expiry |
| ServerTheory.EarlyRepeatMeansFull | src/server.rs:244-248 | a command for a source within the time of its ban means that the ban map was full when the ban was issued |
| ServerTheory.BanHoldsIffRoom | src/server.rs:239-251 | the next packet of a banished source before the expiry is ignored if and only if the ban map had room when the ban was issued |
| FloodTheory.FullMapLetsThrough | src/server.rs:244-248 | for every validated configuration there is a run in which a source is banned by a command and its very next packet is not ignored |
| ServerTheory.BuffersSuffice | src/server.rs:136-144 | the payload of an ICMP message is what follows its eight header bytes; buffers of one byte more than the largest payload, and of the header for ICMP, give the states and decisions of the true sizes, on whole runs |
| ServerTheory.LogLevelIsIrrelevant | src/server.rs:267-275 | the log level changes no decision, on whole runs |
| AuditTheory.AuditCountsCommands | src/server.rs:312-357 | on every run, for every source, there are as many allow lines as allow commands that succeeded, as many failure lines as allow commands that did not, and the same for bans |
| AuditTheory.AuditHidesKnocks | src/server.rs:258-288 | two runs, even of different sequences, with the same sources at the same times and decisions that differ in progress steps only leave the same audit lines |
| AuditTheory.AuditHidesSequence | src/server.rs:258-288 | exchanging the steps of the sequence one for one, sizes kept in range, and the packets of a run likewise changes no audit line and no state |
| TelemetryTheory.TelemetryIsBounded | src/server.rs:253-288 | on every run the trail has at most two telemetry lines for each of so many packets: ten times the burst, and per minute begun ten times the refill or half that burst; and none unless the log level is debug or trace in any capitals |
| TelemetryTheory.SilenceNeedsCrowd | src/server.rs:253-288 | at such a level the lines of an answered packet are missing only if ten times the burst, or ten times the refill, of other packets were answered within less than a minute before |
| Access.SetupFirewall | src/bin/sshknockd.rs:44-55 | on an honest host it succeeds exactly if the sets can be made and all its commands work; then both sets are there with the configured timeouts and address family, and the chain is that of a complete setup, the installed one if no rule was there |
| Access.Serve | src/server.rs:290-358 | after each packet the machine is the one that the turns so far describe, exactly the command called for was issued, and effect, reply and result are those of its fate |
| Access.ServeAll | src/server.rs:290-358 | serves packet after packet, stops exactly at the first allow command that fails, and turns, replies, commands and machine are those of the packets served and of the fates |
| Access.Guard | src/server.rs:88-96 | setup, preflight, packets: on an honest host it comes up exactly if the sets can be made and all commands until then work; it serves until an allow command fails, on a working host all packets with every command effective; from a good start a source then reaches SSH exactly when it may |
| Access.InSetByTurns | src/firewall.rs:305-332 | a source is in a set at an instant iff some effective command for it is younger than the set's timeout, or it was there from before the run until then and no command replaced that |
| Access.ReachesExactlyWhenItMay | src/server.rs:340-356 | with distinct set names and a step 0 that does not recur, on any machine whose chain protects the port: a source reaches SSH iff it completed a knock within the allow timeout, or was allowed before, and no ban of it stands from the run or before |
| Access.ReachesOnlyWhenItMay | src/server.rs:340-356 | with distinct set names and sets that were empty before, whatever the sequence: a source that reaches SSH completed a knock within the allow timeout, and no ban of it stands |
| Access.WindowKeptIff | src/config.rs:176-211 | that promise holds on all runs of a validated configuration from empty sets, if and only if the two ipset names differ and step 0 does not recur |
| Daemon.AcceptPass | src/server.rs:159-180 | the list takes the waiting connections in the order of the listeners and of their queues, as many as it has room for, each with its listener's port, its peer, and the deadline of the timeout, and never outgrows its limit |
| Daemon.SwapRemove | src/server.rs:187-191 | removing by swapping in the last element takes exactly the removed one out and leaves what came before in place |
| Daemon.PollPending | src/server.rs:181-195 | a pass ends when it has polled each connection exactly once, or at a failed read, or where the server gave up, and nowhere else; no connection is polled twice and all not polled are still there; the server processed, in order, one TCP packet for each poll that found data, from its peer, to its port, of its size, and nothing else |
| Daemon.PassSortsAll | src/server.rs:184-194 | a complete pass has polled what there was, and each connection has knocked, or is dropped past its deadline, or is kept before it |
| Manifest.ExpectedDigest | src/bin/sshknockd.rs:347-380 | finds a digest iff every line of the text, split at its newlines, is blank or has two fields and exactly one names the package, with that SHA-256 digest |
| Manifest.LinesExactly | src/bin/sshknockd.rs:349 | the lines are the text split at every newline, which can be done in one way only; an empty last one does not count |
| Manifest.FieldsExactly | src/bin/sshknockd.rs:350-361 | the fields are the words that the line is made of, with white space between them and perhaps in front and behind, and no others |
| Manifest.OthersAndOrderIgnored | src/bin/sshknockd.rs:347-373 | the order of lines and proper lines for other packages do not matter |
| Manifest.RenderedIsListed | src/bin/sshknockd.rs:347-373 | from a text with one entry per name, fields spaced by any spaces, tabs and carriage returns, blank lines anywhere, with or without a final newline, each digest is recovered, and no other |

## Left out

- Sockets, `recv_from`, `accept`, `sleep` and the endless loop of `run`: replaced by packets with times, listener queues and a read result per connection; an accept error is not modelled.
- TCP segmentation: one read is one knock, as in the code.
- Real processes, their argument vectors and diagnostics text: a command is a value, and the host decides how it ends.
- The kernel beyond first match over one INPUT chain per program, `-C`, `-I INPUT 1`, `-A INPUT`, and sets with timeouts; size limits of sets and a mismatch of address family and iptables program are not modelled.
- Firewall.Firewall.Setup: when it succeeds, and which stage the chain is at, is said for hosts where no other failure of a check among its commands exits with code 1, the code that the program takes for an absent rule; on others a rule may be there twice.
- RateTheory.RateBound: whole-second intervals only, which is how the server builds its limiters; the quotient of whole seconds that the code computes is modelled for every interval.
- CapacityTheory.CapacityOnlyLosesIffNonRecurring: for sequences of at least two steps with sizes in range and a table that holds somebody, all of which `validate` guarantees.
- Access.ReachesExactlyWhenItMay: for a chain that protects the port, which is what `FirewallTheory.SetupProtectsIff` is about; a chain where rules of others decide about packets to the SSH port is not covered.
- Access.WindowKeptIff: the runs that break the promise begin with empty sets; that it is kept is shown for sets with entries from before, too.
- AuditTheory.AuditCountsCommands: for set names or timeouts that differ; with one name and one timeout an allow and a ban of a source are one and the same command.
- The validation that `Firewall::new` repeats, TOML parsing, defaults, the command line, and audit file errors.
- The updater apart from the manifest lookup. Digest lengths are counted in characters, which for hexadecimal digits are bytes; the lookup reports that it failed, not which of its errors.
