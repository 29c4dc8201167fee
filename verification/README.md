# SSHCustom: the rule program, the tunnel lifecycle and the protocols, verified

SSHCustom is an Android daemon that keeps an SSH tunnel up and sends the device's traffic through it. It
installs netfilter rules, runs one tunnel goroutine under start, stop and restart requests, speaks SOCKS5 to
local applications and UDPGW to the server, probes the answer to an injected payload for an SSH banner, and
keeps a DNS cache and a store of connection profiles. This project models these parts and proves what they
promise. `dafny verify dfyconfig.toml` checks all of it.

| file | subject |
|---|---|
| `Netfilter` | tables, chains, rules, and the meaning of one iptables command |
| `Sweep` | cleanup programs in general: what a list of deletions, flushes and destructions does to any tidy state |
| `Iptables` | the programs of `Apply`, `Cleanup`, `setupDNS`, `blockQUIC`, `disableIPv6`, and the class that issues them |
| `Restore`, `Guarantees`, `Stacked` | undoing, rollback and re-applying, and rules that have piled up |
| `NetClean`, `Agreement` | the shell script, and where it agrees with the daemon's own cleanup |
| `Traffic`, `Installed`, `Verdicts`, `Hotspot` | a packet interpreter, and the verdict of every packet after `Apply` |
| `Lifecycle`, `Progress` | start, stop, restart, stop timeout, panic and the tunnel loop as one step system: what never happens, and what gets done |
| `PubSub` | `State.Set` and its subscribers as a step system |
| `Streams` | connections read in arbitrary fragments |
| `Socks5`, `Exchanges`, `SocksClient` | the SOCKS5 handshake, the exchanges of the RFCs, and the daemon's own client |
| `Conids`, `Frames` | the UDPGW connection-id table and both frame formats |
| `Payload`, `Unsettled`, `Probe` | payload rendering and the templates for which the map order matters, the banner probe and the connection that replays what it took |
| `HostCache` | the resolver's cache and its string keys |
| `Slugs`, `Profiles`, `ProfileStore` | identifiers, saved transports and the profile store |

Loops and in-place updates are methods of classes or over arrays, proved against specification functions; the
results about those functions are lemmas. Concurrency is a step system whose runs are lists of events, so a
result about every reachable state covers every interleaving. What the environment decides is left open: the
kernel may refuse any `-N`, `-A` or `-I` (a `Kernel` says which it takes, and another one may answer the next
program), a read returns any part of what is there, a map is ranged over in any order, and time is a
number the caller passes in.

## Findings

Some promises do not hold of the code as it stands. Each has a lemma with the case that fails, and the exact
condition under which the promise holds.

- The cleanup deletes a bare `FORWARD -j ACCEPT`, the two QUIC rules and the `DIVERT` chain whoever put them
  there. From a regular state, in which no daemon rule is stacked and only daemon hooks jump to daemon chains,
  `Cleanup` after `Apply` restores the tables if and only if they had nothing that could be taken for the daemon's
  own (`Guarantees.ApplyThenCleanup`). Of QUIC rules that are stacked it removes four copies
  (`Stacked.CleanupOfStackedRules`).
- `net_clean.sh` says that it removes every `SSHC_*` chain. It does if and only if there are none but those on its
  lists (`Agreement.ScriptRemovesAllSshcExactly`), and `SSHC_MOUT`, which the daemon's cleanup removes, is not
  (`Agreement.ScriptMissesMout`). The two leave the same tables if and only if the state has no chain or hook of that
  name, no `SSHC_DROP6` chain in the mangle table, and no socket hook to a listed chain, which the daemon's cleanup
  leaves (`Agreement.ScriptAgreesExactly`). In IPv6 they do if and only if there is nothing listed but the chain
  `SSHC_DROP6` of the filter table and its hooks (`Agreement.Script6AgreesExactly`).
- A panic in the tunnel goroutine leaves `tunnelRunning` set for good: no later start is ever accepted
  (`Lifecycle.PanicIsForever`, `Lifecycle.PanicCanWedge`). When all goroutines have ended it is still set if and only
  if one has panicked (`Lifecycle.StuckExactly`).
- A restart whose stop timed out may be lost: its start is refused, and then the old goroutine ends, so that nothing
  runs (`Lifecycle.RestartCanBeLost`). That is so if and only if, when the start looks, a goroutine has yet to clear
  `tunnelRunning` or has panicked (`Lifecycle.RestartLostExactly`).
- The auto-restart branch after the loop is never taken, in any interleaving (`Lifecycle.AutoRestartIsDead`).
- The event stream sends its first snapshot before it subscribes, so a change in between is not announced. A
  subscriber is stale at rest if and only if that happened (`PubSub.StaleWhenQuiet`,
  `PubSub.WakeupLostBeforeSubscribe`).
- The SOCKS5 server selects a method the client did not offer, instead of refusing, if and only if it was offered
  neither no authentication nor a password (`Exchanges.SelectsAnOfferedMethod`).
- The daemon's SOCKS5 client cuts the host length to a byte and the port to 16 bits: it and the server agree if
  and only if the host has 1 to 255 bytes and the port fits (`SocksClient.AgreeExactly`).
- An empty UDP reply from the server ends the UDPGW read loop and loses all replies behind it. All replies are
  delivered if and only if every length is between 1 and 8192 (`Frames.DeliversAllExactly`).
- The conid reserved for keepalives, whose answers the code's comment expects to be discarded, can be handed to an
  application if and only if there were at least 65535 new allocations (`Conids.KeepaliveConidTaken`). For as long a
  conid stands for one application or none (`Conids.NobodyElsesReply`), and with one more allocation another one can
  get its replies (`Conids.SomebodyElsesReply`).
- `RenderPayload` depends on Go's map order, for some profile without brackets in its values, if and only if the
  template has a bracket that opens no placeholder and can come to open one (`Unsettled.OrderIrrelevantExactly`,
  `Unsettled.NestedPlaceholder`).
- A pause of the server inside `SSH-` makes the probe lose the banner when a status line came before it. The later
  reads have all of the banner, whatever it is, if and only if the probed bytes do not end in `S`, `SS` or `SSH`
  (`Probe.BannerKeptExactly`, `Probe.BannerLost`).
- A selection that does not find its profile clears every `Selected` flag in the slice it was given: the store stays
  sound if and only if it finds it or nothing was selected (`ProfileStore.SelectingKeepsSound`).
- A new profile gets an identifier made from the clock, unchecked, when the 9999 others are in use. A save keeps
  identifiers distinct if and only if it is not of a new profile, or one of the 9999 is free, or the clock's is
  (`ProfileStore.SavingKeepsSound`, `ProfileStore.SavingCanFail`).

## Model

| member | source | states |
|---|---|---|
| Netfilter.RunConcat | internal/iptables/iptables.go:80-120 | a program of commands with ignored failures runs as its parts one after the other, so the loops below compose |
| Netfilter.FailsExactly | internal/iptables/iptables.go:80-120 | the ways in which a command fails, which the ignored results and the checks rely on; one that fails changes nothing |
| Sweep.SweepErases | internal/iptables/iptables.go:281-329 | any program that deletes hooks before it flushes and destroys the chains they jump to leaves, on every state in which no rule it deletes is stacked and only such rules jump to the chains it destroys, exactly the chains and rules that it does not name, in their order |
| Sweep.CleanIsErased | internal/iptables/iptables.go:281-329 | such a program changes nothing if and only if the state has nothing that it names |
| Sweep.PoliteRun | internal/iptables/iptables.go:124-253 | a program that touches only what a cleanup names, and inserts a hook only right after deleting its old copy, is invisible to everyone else and leaves a state the cleanup can clear |
| Iptables.Firewall.EnsureChain | internal/iptables/iptables.go:102-107 | the chain exists afterwards if the kernel takes it, and is empty |
| Iptables.Firewall.AppendNets | internal/iptables/iptables.go:152-154 | the loop appends one RETURN rule for each prefix, in order |
| Iptables.Firewall.AppendBypass | internal/iptables/iptables.go:157-162 | the loop appends one RETURN rule for each entry that is not blank, in order |
| Iptables.Firewall.AppendPorts | internal/iptables/iptables.go:165-169 | the loop appends one RETURN rule for each positive port |
| Iptables.Firewall.HookIn | internal/iptables/iptables.go:180-181 | the old copy of a hook is deleted before the new one is inserted, and the result is that of the insert |
| Iptables.Firewall.InstallRedirect | internal/iptables/iptables.go:145-184 | phase 2 as one program whose last command is checked |
| Iptables.Firewall.InstallTproxy | internal/iptables/iptables.go:186-219 | phase 3 as one program whose last command is checked |
| Iptables.Firewall.InstallDivert | internal/iptables/iptables.go:221-229 | phase 4, whose hook may be refused |
| Iptables.Firewall.SetupDns | internal/iptables/iptables.go:354-377 | the DNS chain, its OUTPUT hook, and one hook for each interface that is not blank |
| Iptables.Firewall.BlockQuic | internal/iptables/iptables.go:381-391 | for each port REJECT, or DROP when the kernel refuses it, unless the rule is there already |
| Iptables.Firewall.DeleteStacked | internal/iptables/iptables.go:395-402 | stopping early at a missing rule is the same as four deletions |
| Iptables.Firewall.CleanupRules | internal/iptables/iptables.go:281-329 | the two nested loops issue exactly the cleanup program, duplicate and blank interfaces included |
| Iptables.Firewall.DisableIpv6 | internal/iptables/iptables.go:408-421 | the IPv6 chain with REJECT or else DROP, hooked into OUTPUT and FORWARD |
| Iptables.Firewall.EnableIpv6 | internal/iptables/iptables.go:423-430 | the two hooks and the chain are removed |
| Iptables.Firewall.Apply | internal/iptables/iptables.go:124-253 | both address families and the result, with a cleanup after either failing hook |
| Iptables.Firewall.Cleanup | internal/iptables/iptables.go:273-279 | both address families after a cleanup |
| Iptables.DeleteGone | internal/iptables/iptables.go:395-402 | deleting an absent rule changes nothing however often it is tried |
| Restore.CleanupIsSweep | internal/iptables/iptables.go:281-329 | the cleanup deletes every hook of a chain before it destroys the chain, in spite of going chain by chain |
| Restore.InstallUndoable | internal/iptables/iptables.go:145-247 | wherever an installation stops and whatever the kernel refuses, it has kept everyone else's rules and left a state that can be cleared |
| Restore.InstallThenSweep | internal/iptables/iptables.go:138-247 | any program that covers the daemon's chains and hooks takes an installation back to what it would have left of the state before |
| Guarantees.CleanupDeletes | internal/iptables/iptables.go:291-328 | the rules the cleanup deletes are the daemon's hooks and filter rules, no more and no fewer |
| Guarantees.CleanupDestroys | internal/iptables/iptables.go:316-325 | the chains it destroys are the ten names in nat and mangle and DIVERT, no more and no fewer |
| Guarantees.DaemonNameMeans | internal/iptables/iptables.go:291-315 | those names are the configured prefix, or SSHC, with one of the ten suffixes |
| Guarantees.CleanupLeavesForeign | internal/iptables/iptables.go:281-329 | from every regular state it leaves exactly everyone else's chains and rules |
| Guarantees.ApplyThenCleanup | internal/iptables/iptables.go:124-329 | whatever the kernel refused and whether or not Apply succeeded, Cleanup leaves everyone else's rules; the tables are the initial ones if and only if those had no daemon traces; for every config, interface list and bypass list, from every state in which no daemon rule is stacked and only daemon hooks jump to daemon chains |
| Guarantees.CleanupKeepsWellFormed | internal/iptables/iptables.go:281-329 | it leaves no jump to a chain that is gone |
| Stacked.CleanupOfStackedRules | internal/iptables/iptables.go:395-402 | however many copies of the four QUIC rules have piled up, a cleanup removes four of each, or all if there are fewer, and keeps the other rules of the chain in order |
| Guarantees.ApplySucceedsExactly | internal/iptables/iptables.go:138-219 | from every state in which no daemon rule is stacked and only daemon hooks jump to daemon chains, Apply succeeds if and only if the kernel takes the two critical hooks and the chains they jump to, whatever rules it refuses |
| Guarantees.FailedApplyRollsBack | internal/iptables/iptables.go:138-219 | when a critical hook or its chain is refused, Apply fails and the IPv4 tables are the initial ones |
| Guarantees.Reapply | internal/iptables/iptables.go:138-139 | applying over an old installation with other flags or bypass addresses gives the result and the tables of applying to the state before it |
| Guarantees.Disable6ThenEnable6 | internal/iptables/iptables.go:408-430 | enableIPv6 takes disableIPv6 back exactly, if and only if the IPv6 table had no daemon traces |
| Guarantees.Redisable6 | internal/iptables/iptables.go:411-420 | disableIPv6 over its own leftovers rebuilds the same table |
| NetClean.CleanV4 | src/module/scripts/net_clean.sh:36-71 | the loops of clean_v4 as one program |
| NetClean.CleanV6 | src/module/scripts/net_clean.sh:73-97 | the loops of clean_v6 as one program |
| NetClean.CleanQuic | src/module/scripts/net_clean.sh:99-113 | breaking off at the first failure is the same as four deletions of each rule |
| NetClean.Script | src/module/scripts/net_clean.sh:131-134 | the script's effect on the tables of both address families |
| Agreement.SweepsAgree | src/module/scripts/net_clean.sh:36-113 | two cleanup programs leave the same tables if and only if they claim the same chains and rules of the state |
| Agreement.Script4Deletes | src/module/scripts/net_clean.sh:36-113 | the rules the script deletes are the hooks of the listed chains at the listed interfaces, the socket hooks, the FORWARD rule and the QUIC rules, no more and no fewer |
| Agreement.Script4Destroys | src/module/scripts/net_clean.sh:57-68 | the chains it destroys are the nine names in nat, those and SSHC_DROP6 in mangle, and DIVERT, no more and no fewer |
| Agreement.DefaultsAreShipped | internal/iptables/iptables.go:61 | the default prefix and interfaces are those the script was written for |
| Agreement.ScriptAgreesExactly | src/module/scripts/net_clean.sh:24-113 | the script and cleanupRules with the shipped prefix and interfaces leave the same tables if and only if the state has no chain or hook of the name SSHC_MOUT, no mangle chain SSHC_DROP6, and no socket hook to a listed chain; on every state in which no rule of theirs is stacked and only such rules jump to their chains |
| Agreement.ScriptRemovesAllSshcExactly | src/module/scripts/net_clean.sh:13-71 | after the script no SSHC_ chain is left if and only if every one there was is on its lists |
| Agreement.ScriptAgrees | src/module/scripts/net_clean.sh:36-113 | after any Apply with the shipped prefix and interfaces the script and cleanupRules both give the initial tables, and the script after cleanupRules changes nothing |
| Agreement.ScriptMissesMout | src/module/scripts/net_clean.sh:13-30 | a state with only an SSHC_MOUT chain, which cleanupRules empties and the script leaves as it is |
| Agreement.Script6Agrees | src/module/scripts/net_clean.sh:73-97 | the same agreement for the IPv6 tables |
| Agreement.Script6Deletes | src/module/scripts/net_clean.sh:73-90 | the rules the IPv6 part deletes, no more and no fewer |
| Agreement.Script6Destroys | src/module/scripts/net_clean.sh:91-96 | the chains it destroys are the ten listed names in filter and nat, no more and no fewer |
| Agreement.Script6AgreesExactly | src/module/scripts/net_clean.sh:73-97 | it leaves the same tables as enableIPv6 if and only if, of all that it removes, there is nothing but the filter chain SSHC_DROP6 and its hooks |
| Agreement.Script6RemovesAllSshcExactly | src/module/scripts/net_clean.sh:73-97 | in IPv6 no SSHC_ chain is left if and only if every one there was is a listed one of the filter or nat table |
| Traffic.EvalConcat | internal/iptables/iptables.go:145-229 | a packet goes on to the second part of a rule list exactly when it falls through the first |
| Traffic.EvalFrame | internal/iptables/iptables.go:124-253 | rules whose jumps stay within shared chains give every packet the same outcome in both states |
| Traffic.LocalNets | internal/iptables/iptables.go:63-67 | the nine prefixes cover exactly the local address ranges |
| Traffic.IfacePatterns | internal/iptables/iptables.go:61 | an interface name that ends in a plus stands for all with that prefix, any other for itself |
| Installed.InstalledNat | internal/iptables/iptables.go:145-184 | after a successful Apply the redirect chain, and the DNS chain when hijacking, have their rules, their hooks stand before the old rules, and every old user chain of the table is as it was; of the kernel it needs the nat rules only |
| Installed.InstalledMangle | internal/iptables/iptables.go:186-229 | the same for the proxy chain and DIVERT |
| Installed.InstalledFilter | internal/iptables/iptables.go:381-391 | the same for the QUIC rules in filter OUTPUT |
| Verdicts.OutputVerdict | internal/iptables/iptables.go:124-184 | for every packet, nat OUTPUT redirects exactly non-root TCP to non-exempt addresses and foreign ports, to the configured port or 10810, sends exactly non-root UDP 53 to the forwarder when hijacking, and gives every other packet its old verdict |
| Verdicts.OutputBypass | internal/iptables/iptables.go:157-162 | one more bypass entry that is a bare address gives the packets to that address their old verdict instead of the redirection, and changes nothing for any other |
| Verdicts.PreroutingVerdict | internal/iptables/iptables.go:186-229 | for every packet, mangle PREROUTING marks and accepts TCP with a transparent socket, otherwise TPROXYs exactly non-exempt TCP that is not unmarked on lo, to the configured port or 10810, and leaves the rest with its mark to the old rules |
| Verdicts.FilterVerdict | internal/iptables/iptables.go:381-391 | filter OUTPUT rejects exactly UDP 443 and 80, or drops them if the kernel has no such REJECT, and leaves the rest to the old rules |
| Hotspot.ForwardVerdict | internal/iptables/iptables.go:238-244 | with a hotspot everything may be forwarded; without one forwarded packets keep their verdict |
| Hotspot.HotspotVerdict | internal/iptables/iptables.go:366-376 | nat PREROUTING sends exactly the non-root UDP 53 that comes in on a listed interface to the forwarder, when hijacking DNS for a hotspot and as far as the kernel takes the hooks, and leaves the rest to the old rules |
| Hotspot.NonBlankMembers | internal/iptables/iptables.go:370-371 | the interfaces in use are the trimmed names of the list that are not blank |
| Verdicts.Verdict6 | internal/iptables/iptables.go:408-421 | IPv6 packets that do not leave by loopback are rejected, or dropped by a kernel without REJECT, and the others get their old verdict |
| Lifecycle.ExecKeepsInv | cmd/sshcustomd/main.go:241-329 | the invariant of lock, flags, goroutines and resources holds after every run |
| Lifecycle.OneLoop | cmd/sshcustomd/main.go:241-315 | in every interleaving at most one tunnelLoop executes, and only while tunnelRunning is set |
| Lifecycle.AutoRestartIsDead | cmd/sshcustomd/main.go:284-305 | a loop that returned finds explicitStop or the daemon's context done, so the auto-restart branch is never reached |
| Lifecycle.StopSticks | cmd/sshcustomd/main.go:255-257 | no step resets explicitStop while a goroutine has yet to clear tunnelRunning |
| Lifecycle.StoppedIsReleased | cmd/sshcustomd/main.go:384-389 | tunnelRunning false implies client nil, listeners cancelled, iptablesUp false and no rules |
| Lifecycle.ListenersThenRules | cmd/sshcustomd/main.go:432-462 | listeners start at most once in a run of the loop, after a successful dial, and before any rules |
| Lifecycle.RulesStay | cmd/sshcustomd/main.go:384-499 | only a successful Apply sets iptablesUp and only the teardown clears it, so it survives every reconnect |
| Lifecycle.KernelRulesStay | cmd/sshcustomd/main.go:309-499 | the rules themselves come only with a successful Apply after a dial, and go only with the teardown of a run that set iptablesUp or with the script of a stop |
| Lifecycle.StopThatSeesDone | cmd/sshcustomd/main.go:309-328 | a stop that saw done from a goroutine that did not panic ends with everything released and tunnelRunning clear |
| Lifecycle.RestartLostExactly | cmd/sshcustomd/main.go:241-335 | with nothing else asked, the start of a restart ends without a new goroutine if and only if, when it looked, one had yet to clear tunnelRunning or had panicked |
| Lifecycle.RestartCanBeLost | cmd/sshcustomd/main.go:309-335 | a run in which the stop of a restart times out, its start is refused, and the old goroutine ends, so that nothing runs |
| Lifecycle.PanicIsForever | cmd/sshcustomd/main.go:275-285 | once a goroutine has panicked, tunnelRunning stays set and none is spawned again, whatever is asked |
| Lifecycle.PanicCanWedge | cmd/sshcustomd/main.go:275-285 | a run in which that happens |
| Lifecycle.StuckExactly | cmd/sshcustomd/main.go:275-315 | with all goroutines ended and no request at work, tunnelRunning is set if and only if one of them panicked |
| Progress.ServingIsEquipped | cmd/sshcustomd/main.go:432-456 | in every reachable state a goroutine that serves has started listeners, once, and has its own client unless a stop has cleared that |
| Progress.DialLeadsToServing | cmd/sshcustomd/main.go:411-456 | from every reachable state a successful dial leads to serving, with the client published, with listeners, and, if these are new and Apply is wanted and succeeds, with the rules and iptablesUp |
| Progress.Retries | cmd/sshcustomd/main.go:400-430 | without a network, and after a dial that failed, the loop goes back to its top with all it holds |
| Progress.Reconnects | cmd/sshcustomd/main.go:458-499 | a lost connection comes back with a new client and the same listeners and rules |
| Progress.Starts | cmd/sshcustomd/main.go:241-275 | a start of a stopped daemon with a profile spawns a goroutine and sets the flag |
| Progress.StartIsRefused | cmd/sshcustomd/main.go:244 | a start of a running one changes nothing |
| Progress.StartWithoutProfile | cmd/sshcustomd/main.go:246-252 | nor does one without a selected profile |
| Progress.Stops | cmd/sshcustomd/main.go:309-328 | a stop of a tunnel that serves ends with nothing held, no rules, the flag clear and the goroutine gone |
| Progress.Restarts | cmd/sshcustomd/main.go:335 | a restart of one ends with a new goroutine that starts from nothing |
| Progress.RestartsStopped | cmd/sshcustomd/main.go:309-335 | a restart of a stopped daemon starts it |
| Progress.ShutsDown | cmd/sshcustomd/main.go:281-292 | the end of the daemon's context ends a tunnel that serves in the same way, without a stop |
| Progress.PanicsTearDown | cmd/sshcustomd/main.go:275-285 | a panic in the loop runs the teardown and leaves the flag set |
| Progress.PanicInTeardown | cmd/sshcustomd/main.go:384-389 | a panic in the teardown skips the rest of it |
| Progress.ScriptClears | cmd/sshcustomd/main.go:318-320 | the script of a stop leaves no rules |
| Progress.ServesInTheEnd | cmd/sshcustomd/main.go:241-456 | a run from the start of the daemon to a tunnel that serves with its rules installed |
| PubSub.RunKeepsInv | internal/api/api.go:97-132 | the invariant of subscriber list, lock, tokens and broadcasts holds after every run |
| PubSub.StillComing | internal/api/api.go:123-132 | a broadcast that has yet to reach a subscriber still does after every step, or has just left its token, also when others subscribe or leave |
| PubSub.NoLostWakeup | internal/api/api.go:97-132 | in every reachable state a subscriber whose last look is older than the state has a token, or is about to take a snapshot, or is still ahead of some broadcast |
| PubSub.StaleWhenQuiet | internal/api/api.go:917-945 | with no broadcast under way and no token left, a waiting handler is out of date if and only if the state changed between its first snapshot and its Subscribe, and not since |
| PubSub.WakeupLostBeforeSubscribe | internal/api/api.go:933-937 | a run in which that happens |
| PubSub.FieldsMean | internal/api/api.go:97-132 | in every run a reader's last look and its Subscribe are dated by the number of changes before them |
| PubSub.TokensMean | internal/api/api.go:123-132 | a channel holds a token if and only if a broadcast has come to it since it last received |
| PubSub.Broadcasts | internal/api/api.go:123-132 | a broadcast that gets the lock leaves a token with every subscriber, and ends |
| PubSub.CatchesUp | internal/api/api.go:939-945 | a subscriber that finds a token is up to date after its next snapshot |
| Streams.Conn.ReadFull | internal/socks5/socks5.go:123-125 | however the input is fragmented, exactly the asked number of bytes is read, or the stream has ended |
| Socks5.WantsAuth | internal/socks5/socks5.go:140-146 | the scan finds the password method if and only if it is offered |
| Socks5.Handshake | internal/socks5/socks5.go:119-132 | for every input and every fragmentation the result, the bytes left and the answers are those of the parser, and the 262-byte buffer is never overrun |
| Socks5.Negotiate | internal/socks5/socks5.go:134-190 | method negotiation up to the request |
| Socks5.Login | internal/socks5/socks5.go:153-185 | the sub-negotiation of RFC 1929, with its three ways to fail |
| Socks5.Request | internal/socks5/socks5.go:192-242 | the request with its three address types, reply 7 or 8 where one is sent |
| Socks5.Handle | internal/socks5/socks5.go:89-109 | nothing is replied to a failed handshake beyond its own answers; otherwise success or host unreachable |
| Exchanges.ParsePrinted | internal/socks5/socks5.go:119-242 | every well-formed exchange of RFC 1928 sections 3 to 5 and RFC 1929 section 2 gives its own address and port and consumes exactly its bytes |
| Exchanges.AcceptsExactly | internal/socks5/socks5.go:119-242 | a handshake succeeds with a target and a rest if and only if the consumed bytes are a well-formed exchange for that target |
| Exchanges.AnswersGrow | internal/socks5/socks5.go:148-190 | the server answers as it reads: more input only adds to what it has written |
| Exchanges.SelectsAnOfferedMethod | internal/socks5/socks5.go:139-189 | the selected method is among those offered if and only if the client offered no authentication or a password |
| Exchanges.SilentExactly | internal/socks5/socks5.go:121-137 | nothing is written until a whole greeting of version 5 with some method is read |
| Exchanges.GrantedExactly | internal/socks5/socks5.go:153-185 | a login is granted if and only if it has version 1 and a user name, whatever the password |
| Exchanges.WritesExactly | internal/socks5/socks5.go:89-242 | every byte the server writes: its choice, the grant, code 7 or 8 for a command or an address it does not know, and code 0 or 4 for the outcome of the dial |
| SocksClient.Socks5Connect | internal/api/socksclient.go:14-89 | for every answer of the proxy, in every fragmentation: success, bytes left and bytes written |
| SocksClient.ReadReply | internal/api/socksclient.go:46-88 | the reply with its address of any of the three types is consumed exactly |
| SocksClient.AgreeExactly | internal/api/socksclient.go:36-44 | client and server agree on host and port, with the next byte each way the first tunnelled one, if and only if the host has 1 to 255 bytes and the port fits 16 bits |
| SocksClient.NeitherWaits | internal/api/socksclient.go:21-88 | whatever bytes have gone each way, client and server come to rest only when the whole request is sent and read, and replied to, or refused if its host is empty, so neither waits for the other |
| SocksClient.RestIsTheDial | internal/api/socksclient.go:46-88 | for the hosts that fit they come to rest with the client connected if and only if the dial succeeded |
| SocksClient.ConnectsExactly | internal/api/socksclient.go:28-88 | the client succeeds, with some rest unread, if and only if the answer is the choice of no authentication and a reply with code 0 and a bound address of one of the three types |
| SocksClient.RequestSentExactly | internal/api/socksclient.go:31-44 | it sends its request once it has seen that choice, and never before |
| Conids.Server.AllocateConid | internal/udpgw/udpgw.go:385-408 | in any map order: the conid of the source if it has one, else the next of the sequence, mapped to the source; the invariant is kept |
| Conids.Server.TouchForward | internal/udpgw/udpgw.go:322-324 | the unconditional touch, which may leave an idle entry without a source |
| Conids.Server.TouchRead | internal/udpgw/udpgw.go:368-373 | the touch and the lookup, only for a mapped conid |
| Conids.Server.Sweep | internal/udpgw/udpgw.go:487-496 | one tick of the janitor, in any map order |
| Conids.SweptKeepsInv | internal/udpgw/udpgw.go:488-496 | a sweep drops exactly the conids silent for more than two minutes and leaves the others mapped as they were |
| Conids.KeptWhileUsed | internal/udpgw/udpgw.go:322-408 | a conid that is handed out or used keeps its source through every sweep of the next two minutes, and no longer if it is not used again |
| Conids.TableInvariant | internal/udpgw/udpgw.go:385-408 | after any interleaving conids are non-zero, every mapped conid has an idle entry, and no two share a source |
| Conids.ReissuedAfterWholeTurns | internal/udpgw/udpgw.go:398-402 | two new allocations get the same conid if and only if a multiple of 65535 lies between them |
| Conids.NobodyElsesReply | internal/udpgw/udpgw.go:368-379 | until 65535 further allocations, a conid stands for the source it was given to or for none |
| Conids.SomebodyElsesReply | internal/udpgw/udpgw.go:398-405 | a run of clients with IPv4 addresses and ports, with one more, in which it stands for another source |
| Conids.KeepaliveConidTaken | internal/udpgw/udpgw.go:501-517 | it can be mapped after n new allocations if and only if n is at least 65535 |
| Frames.EncodeFrame | internal/udpgw/udpgw.go:419-437 | the buffer filled in place is the frame of flags, conid, length, address and payload, big endian |
| Frames.FrameLayout | internal/udpgw/udpgw.go:10-22 | flag, conid, length, address, port and payload are at their places, big endian |
| Frames.RecvLayout | internal/udpgw/udpgw.go:10-22 | conid, length and payload of a reply are at their places, big endian |
| Frames.KeepaliveFrame | internal/udpgw/udpgw.go:517-532 | the bytes written by hand are the frame of one zero byte to 1.1.1.1 port 53 under conid 0xFFFF |
| Frames.DecodesExactly | internal/udpgw/udpgw.go:10-22 | a reader of the documented format gets back conid, address, port and payload and the rest of the stream, if and only if they fit their fields |
| Frames.StreamDecodes | internal/udpgw/udpgw.go:10-22 | a stream of frames decodes to the datagrams that were encoded, in order |
| Frames.ReadFrame | internal/udpgw/udpgw.go:344-366 | one turn of the read loop over its 8192-byte buffer, in any fragmentation |
| Frames.ReadLoop | internal/udpgw/udpgw.go:330-379 | the replies delivered are those of the reader of whole streams, in any fragmentation |
| Frames.DeliversUpToFirstBad | internal/udpgw/udpgw.go:353-366 | whatever frames the server sends, exactly those before the first one that is empty or too long are delivered |
| Frames.DeliversAllExactly | internal/udpgw/udpgw.go:353-366 | all are delivered if and only if every length is between 1 and 8192 |
| Frames.DeliversOnlyWhatIsThere | internal/udpgw/udpgw.go:344-366 | for any bytes, what is delivered is the frames the stream starts with |
| Payload.RenderPayload | internal/transport/transport.go:330-354 | the loop applies the nine replacements in some order of the keys, and on a settled template without brackets in the profile every order gives the simultaneous substitution |
| Payload.NinePlaceholders | internal/transport/transport.go:331-348 | what each of the nine placeholders is replaced by: a line end, or a field of the profile, or nothing where the settings are missing |
| Payload.NothingElse | internal/transport/transport.go:350-352 | everything else stays as it is |
| Payload.DecimalMeans | internal/transport/transport.go:335-346 | ports are written in decimal, without leading zeros |
| Payload.OnePass | internal/transport/transport.go:350-352 | each replacement replaces exactly the placeholders of the template, none that arose on the way |
| Unsettled.OrderIrrelevantExactly | internal/transport/transport.go:330-354 | all orders give the same string for all profiles without brackets in their values if and only if the template is settled, a condition on the template alone; and then it is the simultaneous substitution |
| Unsettled.OnePlaceMore | internal/transport/transport.go:350-352 | where a bracket comes to open a placeholder, the replacement that makes it do so leaves one more place for that placeholder than there was |
| Payload.EveryBracketOpensSettles | internal/transport/transport.go:331-341 | a template in which every bracket opens one of the nine placeholders is settled |
| Unsettled.NestedPlaceholder | internal/transport/transport.go:338-343 | in any profile without TLS, the template `[[sni]lf]` gives a line feed in one order and a leftover placeholder in another |
| Probe.ReadProbe | internal/transport/transport.go:370-398 | what was taken and what is still to come make up the stream; a banner is found even across reads, in the read that completes it; the probe fails if and only if nothing came before a timeout or the end, or another error ended it without a banner; 64 KiB are taken unless something ends it, and less than a buffer more |
| Probe.PrefixConn.Read | internal/transport/transport.go:363-368 | each read hands out the next pending bytes |
| Probe.ReadMany | internal/transport/transport.go:358-368 | reads with buffers of any sizes hand out the pending bytes in order, none lost and none twice |
| Probe.OpenPrepared | internal/transport/transport.go:134-195 | each of the four outcomes if and only if, from the payload settings, the probe and the statuses; when a banner was found, the later reads are the stream from its first SSH- on, and when the daemon goes on without one they still have it unless the probe stopped inside SSH- |
| Probe.BannerIffSSH | internal/transport/transport.go:433-448 | the extracted banner is non-empty if and only if SSH- occurs |
| Probe.BannerLine | internal/transport/transport.go:433-448 | the banner is the line that begins with the first SSH-, trimmed, if it ends in CRLF |
| Probe.BannerLfLine | internal/transport/transport.go:433-448 | likewise up to the first LF, if there is no CRLF behind it |
| Probe.BannerWithoutEnd | internal/transport/transport.go:433-448 | without a line end it is at most 120 bytes |
| Probe.TrimsSpaceOnly | internal/transport/transport.go:440-447 | trimming takes all white space from both ends and nothing else |
| Probe.IndexOfPrefix | internal/transport/transport.go:171-174 | what follows the probed bytes does not move the first SSH- in them |
| Probe.BannerKeptExactly | internal/transport/transport.go:170-190 | going on without a banner, the later reads have the stream's first SSH- and all behind it, whatever is still to come, if and only if the probed bytes do not end inside SSH- |
| Probe.BannerLost | internal/transport/transport.go:384-390 | after a pause inside SSH-, a banner that goes on as it began is in the stream and not in the later reads |
| HostCache.NormalizeServers | internal/dnsx/dnsx.go:151-168 | the loop over a growing slice and a seen map gives the list of first occurrences |
| HostCache.WithPortMeans | internal/dnsx/dnsx.go:158-160 | port 53 is added, in brackets if the address has colons |
| HostCache.Normalized | internal/dnsx/dnsx.go:151-168 | that list has no duplicates and no empty entries, and no separator that the input did not have |
| HostCache.KeyInjective | internal/dnsx/dnsx.go:170-173 | two keys are equal if and only if mode, normalized servers and host are |
| HostCache.EvictedExactly | internal/dnsx/dnsx.go:135-141 | the suffix test matches a key if and only if it is one of the host, or of a host that itself ends in a bar and that host |
| HostCache.EvictionIsByHost | internal/dnsx/dnsx.go:124-141 | in a cache for hosts without a bar in them, evicting one leaves exactly the entries of all other hosts, whatever their modes and servers |
| HostCache.Cache.Lookup | internal/dnsx/dnsx.go:97-101 | a hit is what was stored last under the key, and has not expired |
| HostCache.Cache.Oldest | internal/dnsx/dnsx.go:183-190 | in any map order the scan finds an entry that expires earliest |
| HostCache.Cache.Store | internal/dnsx/dnsx.go:175-199 | an entry lives five minutes; at most 2000 entries; at the limit exactly one goes first, one that expires earliest |
| HostCache.Cache.EvictHost | internal/dnsx/dnsx.go:127-146 | exactly the keys with the host's suffix go, and nothing for a blank host |
| Slugs.Slugify | internal/config/config.go:337-354 | the builder loop with its lastDash flag writes one dash for each stretch of other characters |
| Slugs.SlugIsTheWords | internal/config/config.go:337-354 | a slug is the lower-case words of the name, with one dash between any two |
| Slugs.SlugAlphabet | internal/config/config.go:342-347 | nothing but small letters, digits and dashes comes out, and letters and digits go through |
| Slugs.SlugsAreTheFixpoints | internal/config/config.go:337-354 | the result is lower-case letters, digits and single inner dashes; those strings are exactly the fixpoints, so Slugify is idempotent |
| Slugs.CandidatesDiffer | internal/config/config.go:366-374 | the identifiers that are tried are pairwise different |
| Slugs.TriedInOrder | internal/config/config.go:366-374 | what is tried is the base alone, and with 2 to 9999 behind it |
| Slugs.SomeCandidateUnused | internal/config/config.go:366-374 | with fewer than 9999 identifiers in use one of those tried is new |
| Slugs.UniqueProfileID | internal/config/config.go:357-376 | the first of the candidates that is not in use, or the clock's when all are; it is in use if and only if all of those are, as it is not when fewer than 9999 are |
| Profiles.BuildTransport | internal/api/api.go:1029-1089 | every setting comes from the request or its documented default, and the chain lists the layers in order |
| Profiles.LeftOut | internal/api/api.go:1029-1089 | what a request that leaves everything out gets, in each mode |
| Profiles.GivenStays | internal/api/api.go:1029-1089 | what it gives stays, but that TLS is enabled and port 80 becomes 443 in front of it |
| Profiles.LayersInOrder | internal/api/api.go:1045-1086 | the layers of each mode, in order |
| Profiles.ModeNames | internal/transport/transport.go:468-481 | which names stand for which mode, in any case and with white space around them |
| Profiles.DialsTheFirstHop | internal/transport/transport.go:200-214 | the dialler connects to the proxy if there is one, with the SSH server's host and port where the request leaves them out, and to the SSH server otherwise |
| Profiles.DialFailsExactly | internal/transport/transport.go:200-214 | for any transport, there is nowhere to dial if and only if the proxy is used and not configured, or the endpoint has no host or port |
| Profiles.RequestsBecomeConsistent | internal/api/api.go:1029-1089 | proxy settings exist if and only if the proxy is used, TLS settings if and only if TLS is, and there is an endpoint to dial, whatever the request left out |
| ProfileStore.SelectingKeepsSound | internal/config/config.go:262-279 | a selection keeps the store sound if and only if it finds its profile or nothing was selected |
| ProfileStore.DeletingKeepsSound | internal/config/config.go:282-298 | deleting keeps identifiers distinct and flags on the selection, and removes that identifier only |
| ProfileStore.SavingKeepsSound | internal/api/api.go:967-1027 | a save keeps the store sound if and only if it is not one of a new profile for whose name all 9999 identifiers and the clock's are in use |
| ProfileStore.SavingCanFail | internal/api/api.go:974-976 | for every request without an identifier, and at any time, a sound store in which it does not |
| ProfileStore.RoomForMore | internal/config/config.go:366-374 | with fewer than 9999 profiles there always is an identifier |
| ProfileStore.MadeConsistent | internal/api/api.go:967-1018 | every profile made from an accepted request is consistent, so the dialler's missing-configuration errors cannot occur for it |
| ProfileStore.MadeMeans | internal/api/api.go:967-1018 | the saved server, name and user are the request's; so is the password, or else that of the profile it replaces |
| Basics.TrimsSpaceOnly | internal/api/api.go:968-969 | trimming takes all white space from both ends of a name and nothing else |
| Basics.LowerMeans | internal/config/config.go:338 | lower-casing changes the 26 capital letters only |
| ProfileStore.ProfilesFile.SelectByID | internal/config/config.go:262-279 | result, flags and selection for every identifier, found or not |
| ProfileStore.ProfilesFile.DeleteProfile | internal/config/config.go:282-298 | the profile is cut out and a selection of it cleared, or nothing changes |
| ProfileStore.ProfilesFile.SelectedProfile | internal/config/config.go:242-259 | the selected profile, else a flagged one, else the first |
| ProfileStore.ProfilesFile.Upsert | internal/api/api.go:967-1027 | refused without effect exactly when a check fails; otherwise the profile is in its place or at the end, keeps its old password if none is given, and is selected if asked for, if nothing was, or if it was |

## Left out

- Process execution, sysctls, policy routing, Android settings and captive-portal toggles: effects outside the
  tables. Each iptables command is one atomic step.
- Which matches a kernel allows in which hook. A refused command is covered by the `Kernel`: one that allows the
  owner match in OUTPUT only refuses the hotspot's DNS hooks, and then `Hotspot.HotspotVerdict` claims nothing new.
- A kernel that takes a command once and refuses the same command later in one program: the answers are fixed
  within a program, though they may differ between programs.
- Verdicts.OutputVerdict: requires a kernel that takes the rules Apply appends to the chains of the nat table, since
  their failures are ignored and the claim is then false; likewise for the other verdicts and their tables.
- The end of the daemon process: main does not wait for the teardown, so the lifecycle claims are about a
  process that lives on.
- Lifecycle: the lengths of delays and of the stop timeout, the backoff and the published state. A timer may
  fire at any time.
- Socks5.Handshake: a write that fails, and the 30-second deadline other than as the end of the input. The
  target is the address bytes and the port; their text form is not modelled.
- SocksClient.Socks5Connect: dialling the proxy, and a write that fails.
- Copying between the two ends of an established connection, HTTP CONNECT, TLS, the SSH handshake, DNS queries
  and shell resolvers, original-destination recovery and control messages.
- Frames.ReadLoop: cancellation between frames and the delivery of a reply to its UDP socket. Who gets it is
  the subject of `Conids`.
- Conids: IPv6 sources, and that Go's IP type identifies an IPv4 address with its IPv6 form.
- Probe.OpenPrepared: the status parser is a parameter; failing writes and the deadlines are not modelled, except
  that a read may time out at any point. Trimming is that of ASCII white space.
- Unsettled.OrderIrrelevantExactly: profiles with a bracket in the host, the server name or the proxy's host.
- HostCache.NormalizeServers: whether an entry has a port already is a parameter.
- Slugs.Slugify: case folding and white space outside ASCII and Latin-1.
- Profiles: fallback addresses, the JSON form, and file access. Modes and layers are enumerations.
- HTTP handlers, event formatting, logs, metrics, configuration defaults, error-string classifiers and packaging:
  plumbing or easy.
