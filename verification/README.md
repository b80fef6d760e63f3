# nat.service: a Dafny model of the rule pipeline

`nat.service` keeps a machine's forwarding rules in the kernel. A loop reads a rule configuration, resolves the
target names, writes an nft script, and applies it when it differs from the last one. Two caches carry it across DNS
failures: the last-good target of every rule, and the addresses behind a dynamic source whitelist. Around the loop stand a
rotating audit log, a rule editor and a menu query that explains whether a source is let in.

This project models that pipeline and proves what it promises. A script is a sequence of nft commands; a packet is
decided by first match over the installed chains. `dafny verify dfyconfig.toml` verifies everything.

## Layout

| modules | content |
|---|---|
| `Wrappers`, `Bits`, `Net`, `Cells`, `Ordered` | bytes and counting, addresses as bit vectors with prefix matching (RFC 4632, section 3.1), configuration data, key order of ordered maps |
| `Resolver`, `RuleKeys`, `LastGood`, `PruneLaws` | live resolution, rule keys as strings, the last-good cache and the laws of pruning |
| `Nft`, `Compiler`, `ElementBatches`, `Refusal`, `Transaction` | commands and rulesets, the compiler from cells to a script, which scripts nft refuses, the effect of a script as one transaction |
| `Policy`, `PreroutingMeaning`, `FilterMeaning`, `SourceNatMeaning`, `Connections` | what a configuration means for a packet on each hook, that the chains decide just that, and the whole way of a connection |
| `DynamicWhitelist`, `WhitelistLaws`, `SourceQuery` | the whitelist state machine, its laws, and the menu query against the kernel |
| `CacheRuns`, `CacheProvenance`, `TargetSafety` | the last-good cache over whole runs, the origin of every cached address, safety of every target |
| `ScriptHash`, `SafeApply`, `SafeTables`, `StopCommand` | change detection, apply with rollback, that no path brings a translation to a rejected address into the tables, and the stop command of the service unit |
| `Daemon`, `LoopLaws`, `LoopEndings`, `LoopSafety`, `LoopSources` | the main loop, its stops and starts; what whole runs keep, what is left when the process ends, what runs never do, and where the sources they let in come from |
| `RuleEdit`, `RuleOrder` | the rule editor and why disjoint rules matter |
| `Audit`, `CnSetText`, `LoopTiming` | log rotation, the text of the CN set, the timing of periodic tasks |

The code that changes state (the resolution log, the last-good state, the loop, the kernel side of apply, the audit log, the edited
configuration, the scheduler) is modelled by classes and methods, each proved against a function of its inputs or its
old state. The laws are lemmas about those functions. DNS answers, clocks, file contents and the outcome of every process
or save are inputs of each step.

The end results join the parts over runs of the service: any sequence of passes, which may fail at any point, stops and new starts,
from any kernel, script file and cache.

- `LoopLaws.KernelKeepsToPolicy`, `LoopLaws.ConnectionsKeepToPolicy`: when a process remembers a hash, the kernel treats every packet on
  every hook, and so every new connection from translation to source NAT, as the policy of a pass of the run. This holds if its script
  files can be created, and then it is the pass whose hash is remembered; or if it starts without a script file and no text is cut
  short into another readable one.
- `LoopEndings.PolicyOutlivesIff`, `LoopEndings.NothingUntilApplied`: where rollbacks work, a policy in force outlives failing passes and
  new starts exactly if no stop deletes a managed table. The stop command of the service unit, which runs whenever the process ends,
  deletes them all if its calls work; from then on nothing is translated, dropped or rewritten, exactly until a pass applies a script.
- `LoopSafety.KernelNeverTranslatesToFake`: with fake addresses rejected under the same prefixes throughout, no new packet is sent to
  one in any state of any run, running or stopped, if none is there at first (in tables, file or cache) and none comes from outside (in
  what a failed load or reload leaves, in what a new process finds changed, or in a cut command). `LoopSafety.RememberedHashIsSafe`
  drops what is said of tables for a process that has applied a script.
- `LoopSafety.TranslationWasResolved`, `LoopSources.TranslatedSourcesHaveOrigin`: from an empty cache, each address such a process
  translates to was resolved live in the run, for the rule that takes the packet or for its key; in whitelist mode each source it lets
  in is a static entry, comes from a file, or is covered by the latest successful answer for an enabled domain.

## Where code and documentation differ

The model follows the code. Each point names the lemma that settles it.

- A rule's own `snat_ip` is documented as the fixed exit of that rule (README.md:105 and 124). Source NAT is chosen by where a connection
  goes, so of two rules forwarding to one address, port and protocol the first one's setting wins, and a rule without one leaves under
  the other's: `SourceNatMeaning.OverrideCanBeShadowed`, `SourceNatMeaning.OverrideCanSpill`, and exactly when a rule gets its own
  setting, `SourceNatMeaning.OwnSettingHonouredIff`.
- Validation accepts filter rules that nft refuses: a source and a destination of different families, a protocol without a port, a source
  port together with a destination port (nat-common/src/lib.rs:1996-2048; nft(8), payload expressions). One such rule makes nft refuse the whole script, which ends the
  process: `RuleOrder.ValidFilterMayNotLoad`, and exactly these are left of valid rules, `RuleOrder.ConfigurationLoadsIff`. The legacy
  format is not validated at all (nat-cli/src/config.rs:857-868), so a range may also run backwards: `RuleOrder.LegacyRangeMayNotLoad`.
  Exactly when a script loads is `Transaction.ScriptEffect`, and what the pass then does, `LoopLaws.HealthyPassTakesEffect`.
- A failed apply is to roll back to the managed tables as they were (nat-cli/src/apply.rs:1-4). The rollback does, but the failure also ends
  the process (nat-cli/src/main.rs:376-388), and the stop command, which systemd runs however a started service ends, deletes them
  (setup.sh:259): `LoopEndings.RollbackIsUndone`. Forwarding is down until the new process applies a script.
- `global.enabled=false` is documented to stop forwarding rules only (README.md:53 and 86); it removes the configured
  filter rules as well, since no cell is built: `FilterMeaning.ForwardChainMeaning`, `FilterMeaning.InputChainMeaning`.
- With the GeoIP SSH guard on, what it accepts is never seen by the configured input filter rules: `FilterMeaning.InputChainMeaning`.
- The menu's query ignores sources read from files and the global switch: `SourceQuery.QueryAgreesIff`, `SourceQuery.NothingTranslatedWhenOff`.
- The comment on the loop (nat-cli/src/main.rs:142) calls comparing hashes equivalent to comparing whole scripts. Wherever fourteen letters
  of a text can be chosen, as in a comment, two different choices give the same hash: `ScriptHash.HashesCollide`. What holds is `LoopLaws.KernelKeepsToPolicy` and `LoopLaws.OneByteChangeIsSubmitted`.
- When the script file cannot be created, the old file is loaded under the new script's hash, and the new script is skipped from then
  on: `LoopLaws.HashIsHonestIff`, `LoopLaws.StaleTablesStay`.
- A rollback reports success although a managed table that could not be listed beforehand is gone: `SafeApply.RollbackRestoresIff`.
- The comment on log rotation says the log is created anew (nat-common/src/audit.rs:94); it is absent until the next line: `Audit.RotationMovesUp`.
- With no audit backups a rotation discards everything but the new line: `Audit.RetainedHistory`, `Audit.WithoutBackupsRotationDiscards`.
- Two rules with one key and different answers in one round can bring an old address back: `CacheProvenance.TwinRulesBringBackOldAddress`,
  and exactly when the last answer stays, `CacheProvenance.LastAnswerStaysIff`.
- A name and domain listed twice in the whitelist announce a change on every refresh if the second position resolves to other sources
  than the first holds, and only then: `WhitelistLaws.RepeatedRefreshQuietIff`, `WhitelistLaws.RepeatedPairKeepsChanging`.

## Model

| member | source | states |
|---|---|---|
| Resolver.RemoteIpWithResolver | nat-cli/src/ip.rs:50-146 | The loop over candidates computes the specified choice; the final repeated fake test can never reject |
| Resolver.ResolvedAddressIsSound | nat-cli/src/ip.rs:50-146 | A resolved address fits the IP version, was offered, is not fake when fakes are rejected, and is IPv6 for a dual rule only if no IPv4 address was offered |
| Resolver.NameResolvesIff | nat-cli/src/ip.rs:50-146 | A name resolves exactly when a fitting address is offered and no fitting one is fake: one fake answer spoils the resolution |
| RuleKeys.KeysEqualIff | nat-common/src/last_good.rs:440-521 | Keys are injective as strings: equal exactly for equal kind, ports, protocol, IP version and normalised domain, whatever characters the domain holds |
| RuleKeys.KeyExactlyWhenCacheable | nat-common/src/last_good.rs:430-481 | A rule has a key and an identity exactly when it forwards to a name |
| LastGood.RuntimeIdentities | nat-cli/src/config.rs:900-916 | The loop numbers rules but not comments and lists the identities in configuration order |
| LastGood.ResolutionLog.Record | nat-common/src/last_good.rs:300-302 | An event is added behind those already recorded |
| LastGood.ResolutionLog.Drain | nat-common/src/last_good.rs:304-306 | Returns all recorded events and leaves none |
| LastGood.LastGoodState.FindIdentity | nat-common/src/last_good.rs:151-164 | From the two indexes and the two counts, the current rule an entry belongs to: by key, or for a keyless entry by a domain unique on both sides |
| LastGood.LastGoodState.KeepEntry | nat-common/src/last_good.rs:165-195 | One pass of the pruning loop: drop, bring up to date field by field, and keep unless a better-ranked entry holds the key |
| LastGood.LastGoodState.PruneStaleRules | nat-common/src/last_good.rs:126-207 | The state afterwards and the report are the specified pruning of the old state |
| LastGood.LastGoodState.UpdateFromEvents | nat-common/src/last_good.rs:315-392 | The state afterwards is the fold of the events over the old entries, in key order |
| PruneLaws.ConfigurationsAreWellKeyed | nat-cli/src/config.rs:900-916 | In every configuration, rules that share a key name the same domain |
| PruneLaws.PrunedByKey | nat-common/src/last_good.rs:126-207 | Key by key: an exact entry beats any keyless one in any order, the last of several wins, and a keyless one survives exactly when its domain is unique on both sides |
| PruneLaws.PruningPutsInOrder | nat-common/src/last_good.rs:126-207 | At most one entry per key, each with the current rule id, key and domain |
| PruneLaws.PruningInventsNothing | nat-common/src/last_good.rs:169-200 | Each surviving entry is an old one with only id, key and domain brought up to date |
| PruneLaws.UnchangedIff | nat-common/src/last_good.rs:131-206 | The changed flag stays false exactly when the cache was already in order |
| PruneLaws.UnchangedIsPermutation | nat-common/src/last_good.rs:131-206 | No reported change means the same entries, as a multiset |
| PruneLaws.PruningIsIdempotent | nat-common/src/last_good.rs:126-207 | A second pruning changes nothing and says so |
| Compiler.BuildDropRule | nat-cli/src/config.rs:293-357 | A filter cell is written to the family of its first address, to both without one, and fails on an unreadable address |
| Compiler.ResolveTarget | nat-cli/src/config.rs:103-165 | Live resolution with fallback on the cache, and the one event that records it |
| Compiler.BuildForwardingCell | nat-cli/src/config.rs:103-245 | Script and events of a forwarding cell: target, egress control, family errors, rules |
| Compiler.BuildWithRuleIndex | nat-cli/src/config.rs:69-247 | Dispatch over the three kinds of cells, with the events recorded |
| Compiler.TargetFits | nat-cli/src/config.rs:109-148 | Whatever the cache holds, the target of a cell fits the cell's IP version |
| Compiler.BuildGeoForwardRules | nat-cli/src/main.rs:1336-1361 | The loop writes the allow, LAN and default-drop rules of every summary in order |
| Compiler.BuildMssClampRules | nat-cli/src/main.rs:1198-1226 | The loop writes two clamp rules per TCP summary that leaves the machine |
| Compiler.BuildNewScriptWithGlobal | nat-cli/src/main.rs:1050-1196 | The script is the specified assembly of its parts, the events are those of all cells, and a failure is that of the first cell that fails |
| ElementBatches.BatchesPartition | nat-common/src/geoip.rs:121-131 | Batching loses, repeats and reorders nothing, and every batch but the last holds 256 |
| Refusal.FilterRuleAcceptedIff | nat-cli/src/config.rs:359-436 | A filter rule is accepted exactly unless it mixes families, a port range runs backwards, or its protocol does not stand before exactly one port match |
| Refusal.NatRulesFitIff | nat-cli/src/config.rs:472-616 | The rules of a forwarding cell are accepted exactly unless they are written and its port range runs backwards |
| Refusal.RedirectRuleFitsIff | nat-cli/src/config.rs:636-720 | The same for a redirect |
| Refusal.RulesFitIff | nat-cli/src/main.rs:1138-1196 | All rules of a script are accepted, those of GeoIP and MSS clamping included, exactly if no cell that is written is refused |
| Transaction.CnSetRuns | nat-common/src/geoip.rs:113-139 | Declaring the set and adding the batches leaves exactly the CN list in the set |
| Transaction.SetupRuns | nat-cli/src/main.rs:1063-1136 | From any ruleset the declarations rebuild the four managed tables, empty, beside everything else |
| Transaction.ScriptEffect | nat-cli/src/main.rs:1063-1196 | From every ruleset a script loads exactly unless a written cell is refused; it names nothing undeclared, and installs tables that do not depend on what was there |
| Transaction.ScriptIsSelfContained | nat-cli/src/apply.rs:15-20 | Whether a script loads does not depend on the ruleset; if it does, unmanaged tables survive, managed ones come out the same from any start, and applying twice is applying once |
| Policy.GeoIpRunsFirst | nat-cli/src/main.rs:1318-1326 | Of the installed chains only the nat chain and, exactly if GeoIP is in force and for IPv4, the GeoIP chain are on the prerouting hook, and the latter has the earlier priority |
| Policy.FirstOfferCounts | nat-cli/src/config.rs:756-796 | The first serving rule decides the packet: if access control turns it down, so it would for every later rule |
| PreroutingMeaning.GeoIpChainMeaning | nat-cli/src/main.rs:1318-1361 | The installed GeoIP chain drops a new IPv4 packet exactly when a guarded rule listens to it and its source is neither in the CN set nor in the allowed LAN |
| PreroutingMeaning.WrittenIffEmitted | nat-cli/src/config.rs:756-762 | A cell is written exactly if the policy has it emitted in some family |
| PreroutingMeaning.NatChainMeaning | nat-cli/src/config.rs:472-796 | First match over the installed nat chain is the policy over the rules in configuration order |
| PreroutingMeaning.CompilationPreservesMeaning | nat-cli/src/main.rs:1108-1196 | For every configuration, resolution outcome and starting ruleset, a script that loads makes the kernel treat each new packet as the policy says |
| PreroutingMeaning.TranslatedByRuleIff | nat-cli/src/config.rs:472-796 | A new packet is translated by rule i exactly when i is the first rule built for its family with matching port and protocol, access control admits it, and GeoIP does |
| PreroutingMeaning.TranslatedIff | nat-cli/src/config.rs:756-796 | A packet some rule serves is translated exactly when access control and GeoIP admit its source |
| PreroutingMeaning.BlacklistedIsDropped | nat-cli/src/config.rs:764-782 | A blacklisted source of a served port is dropped |
| FilterMeaning.DropMatchesHold | nat-cli/src/config.rs:359-440 | The matches of a filter rule hold for a packet exactly when all configured conditions do |
| FilterMeaning.ForwardChainMeaning | nat-cli/src/config.rs:733-747 | In the forward chain only configured filter cells decide; counters and MSS rules let everything through |
| FilterMeaning.SshRulesDecide | nat-cli/src/main.rs:1363-1384 | The SSH guard accepts replies and allowed sources of the SSH port and drops the other sources of that port |
| FilterMeaning.InputChainMeaning | nat-cli/src/main.rs:1133-1170 | The input chain does what the policy says, the SSH guard first |
| SourceNatMeaning.PostroutingMeaning | nat-cli/src/config.rs:438-616 | A translated connection gets the source NAT action of the first rule forwarding to the same address, port and protocol |
| SourceNatMeaning.PostroutingIdle | nat-cli/src/config.rs:438-616 | A connection bound for no rule's target keeps its source |
| SourceNatMeaning.OwnSettingHonouredIff | nat-cli/src/config.rs:438-470 | A rule's connections get its own setting, which may be none, exactly when the first rule that rewrites them asks for the same, or none does and it asks for nothing |
| SourceNatMeaning.OverrideCanBeShadowed | nat-cli/src/config.rs:438-470 | Two rules to one target whose second override is not used |
| SourceNatMeaning.OverrideCanSpill | nat-cli/src/config.rs:438-470 | With source NAT off, connections of a rule without an override leave under another rule's override |
| Connections.PostroutingPolicyMeaning | nat-cli/src/config.rs:438-616 | For every new packet the source NAT the kernel applies is that of the first rule that rewrites it, and none with forwarding off |
| Connections.RoundIsKept | nat-cli/src/main.rs:1063-1196 | Once its script is loaded the kernel treats every packet on every hook as the policy of the round |
| Connections.KeptFates | nat-cli/src/main.rs:1063-1196 | Keeping to the policy on every hook decides the fate of every new connection: lost, delivered here, or sent on with which destination and source |
| Connections.TranslatedIsBound | nat-cli/src/config.rs:472-616 | A packet that a rule translates is, once translated, bound for that rule's target |
| Connections.ForwardedConnection | nat-cli/src/config.rs:438-616 | End to end: an admitted connection that a rule takes first goes to its target, unless a forward filter drops it there, and leaves with the rule's own source NAT setting exactly when the first rule that rewrites it asks for the same |
| CacheRuns.CacheFile.LoadAndPrune | nat-cli/src/main.rs:596-629 | Memory and file after loading and pruning, for every outcome of the load and the save |
| CacheRuns.CacheFile.Learn | nat-cli/src/main.rs:363-375 | After a successful apply the events are folded back, and saved if the cache is enabled |
| CacheProvenance.PrunedSlot | nat-common/src/last_good.rs:126-207 | Pruning keeps the address under a current key and empties every other slot |
| CacheProvenance.UpdatedSlot | nat-common/src/last_good.rs:315-392 | Folding events acts on each key by itself |
| CacheProvenance.RoundRefinesSlot | nat-cli/src/main.rs:238-388 | One pass of the loop takes the address cached under a key to the next state of a small machine for that key alone |
| CacheProvenance.SlotNextOrigin | nat-cli/src/main.rs:238-388 | A pass empties a slot, leaves it, or fills it with an address it resolved live, applied and saved |
| CacheProvenance.UncommittedRoundKeepsAddresses | nat-cli/src/main.rs:376-388 | A pass that does not build, apply or save never changes a cached address, and keeps those of current rules |
| CacheProvenance.CommittedSlotExact | nat-common/src/last_good.rs:315-392 | What a committed pass leaves under a key: the last live answer, or the old address if a later rule of the key falls back on it; without a live answer the slot stays |
| CacheProvenance.LastAnswerStaysIff | nat-common/src/last_good.rs:329-380 | The last live answer is what stays exactly if no later rule of the key falls back on a different cached address |
| CacheProvenance.SlotNextIsLearned | nat-common/src/last_good.rs:329-350 | With one answer per domain, a committed pass leaves exactly the address it resolved |
| CacheProvenance.CachedAddressWasLearned | nat-cli/src/main.rs:238-388 | Over every run from an empty cache, each cached address was resolved live for exactly that key in an applied and saved round, and no later such round with one answer per domain resolved it to anything else |
| CacheProvenance.TwinRulesBringBackOldAddress | nat-common/src/last_good.rs:363-379 | For every pair of different addresses, a fallback of a second rule writes the old one over the fresh one |
| TargetSafety.ScriptDnat | nat-cli/src/config.rs:472-616 | Every translation in a script belongs to a rule of the configuration and points at its target |
| TargetSafety.CachedTargetWasLearned | nat-cli/src/config.rs:123-148 | A target taken from the cache was resolved live in an earlier round |
| TargetSafety.TargetsAreSafe | nat-cli/src/config.rs:108-242 | From every cache without fakes, with fakes rejected, no script translates into one; targets obey egress control and fit their rule and table |
| TargetSafety.NextIsClean | nat-cli/src/main.rs:596-629 | With fakes rejected one pass keeps a cache without fakes so, whatever it contains otherwise |
| TargetSafety.RunStaysClean | nat-cli/src/main.rs:238-388 | Over every run from an empty cache with fakes rejected under fixed prefixes, none is ever cached |
| TargetSafety.OnlyFilterAddressesFail | nat-cli/src/config.rs:188-210 | The two family errors cannot occur; a build fails only over an unreadable filter address |
| ScriptHash.StableScriptHash | nat-common/src/hash.rs:13-20 | The loop computes the specified FNV-1a hash |
| ScriptHash.MixIsBijective | nat-common/src/hash.rs:16-17 | For each byte the step is a bijection on 64-bit values, with its inverse given |
| ScriptHash.MixInjectiveInByte | nat-common/src/hash.rs:16-17 | For each state the step is injective in the byte |
| ScriptHash.SuffixKeepsDifference | nat-common/src/hash.rs:13-20 | A common suffix keeps different states different |
| ScriptHash.OneByteChangeIsSeen | nat-common/src/hash.rs:13-20 | Inputs of equal length that differ in exactly one byte never collide |
| ScriptHash.KnownVectors | nat-common/src/hash.rs:46-48 | The hash of the empty input is the offset basis, and that of a zero byte the published value |
| ScriptHash.HashesCollide | nat-common/src/hash.rs:13-20 | Between any two parts of a text, two different words of fourteen small letters give the same hash |
| SafeApply.Host.BackupManagedTables | nat-cli/src/apply.rs:102-136 | The backups are the managed tables that exist and can be listed |
| SafeApply.Host.RollbackManagedTables | nat-cli/src/apply.rs:144-203 | Deletes what can be deleted, then reloads the backups, in every outcome |
| SafeApply.Host.ApplyNftScript | nat-cli/src/apply.rs:26-54 | Ruleset and result of the whole call, for every outcome of its processes and writes |
| SafeApply.AllOrNothingIff | nat-cli/src/apply.rs:26-54 | A call succeeds with the script in, or fails; a failing call leaves the ruleset as it was unless the load itself failed, and with a working rollback exactly unless a managed table could not be listed before a failed load |
| SafeApply.UnmanagedTablesNeverChange | nat-cli/src/apply.rs:1-4 | On no path, whatever the rollback does, does an unmanaged table change |
| SafeApply.RollbackRestoresIff | nat-cli/src/apply.rs:102-203 | After a failed load and a working rollback the ruleset is restored exactly when every existing managed table could be listed; a table that could not is lost |
| SafeTables.AppliedIsSafe | nat-cli/src/apply.rs:26-203 | No path of a call, refusal, load, rollback or failed rollback, brings a translation to a fake address into tables without one, if file and leftovers hold none |
| SafeTables.SafeKernel | nat-cli/src/config.rs:472-616 | With such tables the kernel translates no packet to a fake address |
| StopCommand.RunStopCommand | setup.sh:259-259 | Adds and deletes each managed table, in order, for every outcome of the calls |
| StopCommand.StoppedAt | setup.sh:259-259 | Table by table: deleted, kept as it was if the deletion fails, or left behind empty; unmanaged tables stay |
| StopCommand.StopKeepsIff | setup.sh:259-259 | Where all managed tables exist, the ruleset stays exactly if none is deleted |
| Daemon.Loop.Submit | nat-cli/src/main.rs:329-388 | Hash gate, script file, apply and the remembered hash, for every outcome, a text cut short included; a failed write or apply ends the process |
| Daemon.Loop.RunRound | nat-cli/src/main.rs:233-388 | One pass of the loop is a build, a submission and the cache round it amounts to |
| Daemon.Loop.Stop | setup.sh:255-262 | The process ends and the stop command runs; file and cache stay |
| Daemon.Loop.Start | setup.sh:255-262 | A new process remembers nothing, keeps file and cache, and finds the tables as they are or as something else has changed the managed ones |
| LoopLaws.RunLoop | nat-cli/src/main.rs:150-404 | From any kernel, file and cache the loop object takes exactly the steps of the specified run, stops and starts included |
| LoopLaws.BuiltInstalls | nat-cli/src/apply.rs:15-20 | Every script a pass builds never loads, or replaces the managed tables by ones that do not depend on what was there |
| LoopLaws.SubmissionInForce | nat-cli/src/main.rs:330-388 | The process goes on exactly with the script's hash remembered: skipped with nothing changed, or applied, and then the file's content has been loaded and a script that was written is in force |
| LoopLaws.HashIsHonestIff | nat-cli/src/main.rs:346-349 | After an apply the remembered hash names the tables in force exactly if the script file was created or the old file has the same effect |
| LoopLaws.GeneratedScriptsDiffer | nat-cli/src/main.rs:1127-1136 | Two generated scripts with different effects, so the exception is real |
| LoopLaws.StaleTablesStay | nat-cli/src/main.rs:331-331 | In that case the same script is skipped from then on, however often it is submitted, and the tables stay |
| LoopLaws.OneByteChangeIsSubmitted | nat-cli/src/main.rs:330-349 | A script whose text differs from the remembered one in one byte is always written and handed to nft |
| LoopLaws.TablesComeFromPass | nat-cli/src/main.rs:330-388 | Over every run, across failures, stops and starts and from every cache: the tables of a process that remembers a hash are those of the script of a pass, and of the one with that hash if the file can always be created |
| LoopLaws.NewestBuildIsRemembered | nat-cli/src/main.rs:330-388 | Over every run a running process remembers exactly the hash of the newest script it built, none if it built none |
| LoopLaws.HealthyPassTakesEffect | nat-cli/src/main.rs:329-388 | Progress, from any state: in a pass whose processes and writes work, a script with a new hash comes into force; exactly a refused cell ends the process instead, and the tables stay until the stop command |
| LoopLaws.KernelKeepsToPolicy | nat-cli/src/main.rs:233-388 | Over every such run the kernel treats every packet on every hook as the policy of a pass of the run, the one whose hash is remembered if the file can always be created |
| LoopLaws.ConnectionsKeepToPolicy | nat-cli/src/main.rs:233-388 | So the fate of every new connection is what the policy of that pass says |
| LoopEndings.StopKeepsCurrentIff | setup.sh:259-259 | A stop leaves some pass's script in force exactly if it deletes no managed table |
| LoopEndings.PolicyOutlivesIff | nat-cli/src/main.rs:376-388 | Where rollbacks work and tables can be listed, a script in force is followed by scripts in force through applied, skipped and failing passes, stops and starts, exactly if no stop deletes a managed table |
| LoopEndings.CurrentMeansPolicy | nat-cli/src/main.rs:233-388 | While that is so, the kernel keeps to the policy of some pass on every hook, also when the process has ended |
| LoopEndings.RollbackIsUndone | nat-cli/src/apply.rs:44-53 | A failed pass with a working rollback leaves the tables as they were, and the stop command that follows leaves none of them, so that nothing is translated, dropped or rewritten |
| LoopEndings.NothingUntilApplied | setup.sh:255-262 | Once the managed tables are gone they stay without effect exactly until a pass applies a script |
| LoopSafety.UnmanagedTablesSurviveRun | nat-cli/src/apply.rs:1-4 | Over every run, whatever fails and whenever it stops or starts, unmanaged tables stay as they are |
| LoopSafety.KernelNeverTranslatesToFake | nat-cli/src/ip.rs:153-178 | In every state of every run with fakes rejected under fixed prefixes, running or stopped, the kernel translates no new packet to one, if none is there at first and none comes from outside |
| LoopSafety.RememberedHashIsSafe | nat-cli/src/ip.rs:153-178 | Nor does a process that remembers a hash, whatever tables it found and whatever failures and stops left |
| LoopSafety.RunIsHistory | nat-cli/src/main.rs:238-388 | From an empty cache, cache and memory of each pass are those of the cache rounds before it, across stops and starts |
| LoopSafety.TranslationWasResolved | nat-cli/src/main.rs:233-388 | From an empty cache, what a process that remembers a hash translates to was resolved live, for the rule that takes the packet, in the pass in force, or for its key in an earlier applied and saved one |
| LoopSources.StateHasHistory | nat-cli/src/main.rs:247-261 | The whitelist state a pass works with, refreshed or read, saved or not, is what a run of refreshes leaves |
| LoopSources.TranslatedSourcesHaveOrigin | nat-cli/src/main.rs:247-290 | Over every run of the service joined with every run of the whitelist: a source translated by the pass in force in whitelist mode is static, from a file, or covered by the expansion of an enabled domain's latest successful answer |
| DynamicWhitelist.ExpandEffectiveSources | nat-common/src/dynamic_whitelist.rs:323-335 | The loop computes the set of expanded entries |
| DynamicWhitelist.FilterResolved | nat-common/src/dynamic_whitelist.rs:541-560 | Addresses of the enabled families, or an error if there are none |
| DynamicWhitelist.ResolveDomain | nat-common/src/dynamic_whitelist.rs:205-287 | New entry and events of one enabled domain, for success and failure |
| DynamicWhitelist.RefreshDomain | nat-common/src/dynamic_whitelist.rs:178-287 | The loop body: look-up, report of a changed domain, then resolving or parking |
| DynamicWhitelist.RefreshStateWithResolver | nat-common/src/dynamic_whitelist.rs:160-295 | The state and events of a whole refresh |
| DynamicWhitelist.EffectiveSourcesForConfig | nat-common/src/dynamic_whitelist.rs:375-395 | The union of the sources of all enabled domains |
| DynamicWhitelist.AccessConfigWithDynamicWhitelist | nat-cli/src/main.rs:973-987 | In whitelist mode the sources are added behind the static entries, each once; otherwise nothing changes |
| WhitelistLaws.NetworkBounds | nat-common/src/dynamic_whitelist.rs:337-347 | The masked network starts at a multiple of 256 and lies at most 255 below the address |
| WhitelistLaws.NetworkCoversIff | nat-common/src/dynamic_whitelist.rs:337-347 | The network covers exactly the addresses with the same top 24 bits |
| WhitelistLaws.SameNetworkIff | nat-common/src/dynamic_whitelist.rs:337-347 | Two addresses share an entry exactly when they agree without their last eight bits |
| WhitelistLaws.ExpansionCoversIff | nat-common/src/dynamic_whitelist.rs:323-335 | Expansion lets in exactly the named sources and the neighbours of named IPv4 addresses |
| WhitelistLaws.ExpansionIsIdempotent | nat-common/src/dynamic_whitelist.rs:323-335 | Expanding again changes nothing; IPv6 and other modes pass through |
| WhitelistLaws.RefreshedIsCoherent | nat-common/src/dynamic_whitelist.rs:160-295 | A refreshed entry's stored sources are the expansion of its addresses; stale means an error and a nonempty last-good set in use |
| WhitelistLaws.ReachableIsCoherent | nat-common/src/dynamic_whitelist.rs:160-295 | So is every entry of every state reachable under changing configurations and failing loads and saves |
| WhitelistLaws.ReachableViewsAreFresh | nat-common/src/dynamic_whitelist.rs:472-480 | In reachable states the view equals fresh expansion for every mode |
| WhitelistLaws.RepeatedRefreshQuietIff | nat-common/src/dynamic_whitelist.rs:125-295 | Repeating a refresh announces no change exactly when every enabled position that resolves expands to what the first position of its name and domain holds |
| WhitelistLaws.RefreshIsIdempotent | nat-common/src/dynamic_whitelist.rs:160-295 | Repeating a refresh with the same answers changes nothing and announces no change |
| WhitelistLaws.RepeatedPairKeepsChanging | nat-common/src/dynamic_whitelist.rs:125-133 | A pair listed twice whose answers expand differently announces a change at every repeat, with the state unchanged |
| WhitelistLaws.AddressesComeFromLatestSuccess | nat-common/src/dynamic_whitelist.rs:160-315 | Over every run with distinct pairs, each current or last-good address comes from the latest successful resolution of that name and domain |
| WhitelistLaws.NothingInherited | nat-common/src/dynamic_whitelist.rs:178-205 | A pair never resolved holds no address, whatever its name pointed to before |
| WhitelistLaws.CurrentFamiliesEnabled | nat-common/src/dynamic_whitelist.rs:297-315 | Over every run each current address is of a family enabled in the latest refresh that was enabled and saved |
| SourceQuery.DynamicSourceMatches | nat-cli/src/menu.rs:3186-3218 | The nested loops list the enabled domains whose sources cover the address |
| SourceQuery.AssessFinalSourceDecision | nat-cli/src/menu.rs:3278-3345 | Answer and reasons, for every mode and GeoIP result |
| SourceQuery.DynamicMatchesIff | nat-cli/src/menu.rs:3186-3218 | The menu's hits are exactly matches in the sources merged into access control |
| SourceQuery.KernelVersusQuery | nat-cli/src/menu.rs:3169-3345 | For a served packet, exactly when the kernel translates, in terms of the menu's answer and file sources |
| SourceQuery.QueryAgreesWithKernel | nat-cli/src/menu.rs:3169-3345 | Without file sources, whenever the menu answers yes or no, it is right about the kernel |
| SourceQuery.QueryAgreesIff | nat-cli/src/main.rs:953-960 | With file sources the menu is right exactly when no file source alone lets the address in past GeoIP |
| SourceQuery.NothingTranslatedWhenOff | nat-cli/src/main.rs:1138-1140 | With forwarding off nothing is translated, whatever the menu answers |
| SourceQuery.TranslatedSourceHasOrigin | nat-cli/src/main.rs:953-987 | Over every run of the whitelist with distinct pairs, a source translated in whitelist mode is static, from a file, or covered by the expansion of an enabled domain's latest successful answer |
| Audit.AuditLog.RotateNow | nat-common/src/audit.rs:117-157 | The descending loop of renames computes the specified shift |
| Audit.AuditLog.MaybeRotate | nat-common/src/audit.rs:95-114 | Rotates exactly when rotation is on and the log exceeds the limit |
| Audit.AuditLog.LogEvent | nat-common/src/audit.rs:45-68 | Rotates if due, then appends one line, unless disabled |
| Audit.RotationMovesUp | nat-common/src/audit.rs:126-157 | Slot by slot: every file moves one number up, the log is gone until the next line, files beyond a gap or the limit stay |
| Audit.LoggedHistory | nat-common/src/audit.rs:45-68 | A line is added to the history; only the oldest backup of a full numbering is lost, or everything without backups |
| Audit.RetainedHistory | nat-common/src/audit.rs:45-157 | Backups from oldest to newest and the log are the last lines logged; no file is more than a line over the limit; if anything is missing, the backups hold more than their number times the limit exactly if any are kept |
| Audit.WithoutBackupsRotationDiscards | nat-common/src/audit.rs:118-125 | With no backups a rotation leaves only the new line |
| RuleEdit.BuildEditedRule | nat-cli/src/menu.rs:1482-1614 | Field by field the patch or the old value, or the first error in order; kind and IP version stay |
| RuleEdit.ConflictIff | nat-cli/src/menu.rs:1859-2003 | For well-formed ranges two rules overlap exactly when some family, protocol and port is claimed by both |
| RuleEdit.ConflictsReportedIff | nat-cli/src/menu.rs:1859-1895 | Rule j is reported exactly when it is another rule that claims a connection of the edited one |
| RuleEdit.NothingChangedIff | nat-cli/src/menu.rs:1633-1661 | No field is reported exactly when the rules show the same in all seven |
| RuleEdit.TomlConfig.FindRuleEditConflicts | nat-cli/src/menu.rs:1859-1895 | The conflicting rules in order |
| RuleEdit.TomlConfig.ApplyRuleEdit | nat-cli/src/menu.rs:1616-1631 | Result and configuration afterwards, for each error and for edits that change nothing |
| RuleEdit.EditKeepsDisjoint | nat-cli/src/menu.rs:1616-1631 | An edit of a valid disjoint configuration leaves it valid and disjoint |
| RuleEdit.AcceptedEditTakesEffect | nat-cli/src/menu.rs:1482-1661 | After an accepted edit the rule shows what was asked for, and no other rule changed |
| RuleOrder.ReadTomlConfig | nat-cli/src/config.rs:871-898 | The loop passes on the enabled rules in order, each behind its comment |
| RuleOrder.ValidRulesBuild | nat-common/src/lib.rs:1944-2045 | A configuration of valid rules always builds |
| RuleOrder.ValidCellRefusedIff | nat-common/src/lib.rs:1944-2048 | Of the faults nft refuses, a valid rule can only be a filter rule that mixes families or whose ports do not read |
| RuleOrder.ConfigurationLoadsIff | nat-cli/src/config.rs:293-436 | A valid configuration loads exactly unless forwarding is on and some filter rule mixes families or has ports that do not read |
| RuleOrder.ValidFilterMayNotLoad | nat-common/src/lib.rs:1996-2048 | Three valid filter rules: the script of each builds, and nft refuses it from every ruleset |
| RuleOrder.LegacyRangeMayNotLoad | nat-common/src/lib.rs:1906-1922 | A redirect of a range that runs backwards, as the legacy format lets through, builds and is refused from every ruleset |
| RuleOrder.PermutationKeepsDisjoint | nat-cli/src/menu.rs:1953-2003 | A permutation of disjoint rules is disjoint |
| RuleOrder.RuleOrderDoesNotMatter | nat-cli/src/config.rs:472-616 | For a valid disjoint configuration every permutation of the rules loads or none does, and the kernel treats every new packet the same under all |
| CnSetText.ExtractIpv4Cidrs | nat-common/src/geoip.rs:70-93 | The loops over lines and tokens compute the specified list |
| CnSetText.RenderCn4SetDefinition | nat-common/src/geoip.rs:113-139 | The chunk loop prints the set line and one line per batch |
| CnSetText.AcceptedIsPlain | nat-common/src/geoip.rs:95-103 | An accepted token starts with a digit and holds no separator or comment sign |
| CnSetText.DefinitionReadsBack | nat-common/src/geoip.rs:70-139 | Extracting from a printed list of normalised prefixes gives the list |
| CnSetText.ExtractPrintExtract | nat-common/src/geoip.rs:70-139 | For every file content, printing what was extracted and extracting again gives the same list in order |
| CnSetText.PrintedInBatches | nat-common/src/geoip.rs:113-139 | One line per batch, all but the last of 256 prefixes, together every prefix once and in order |
| LoopTiming.RemainingSeconds | nat-cli/src/runtime.rs:110-120 | The remaining seconds reach past the due time by less than a second, and are zero only when due |
| LoopTiming.SleepSeconds | nat-cli/src/main.rs:725-747 | Every sleep is 1 to 5 seconds |
| LoopTiming.Scheduler.RunPass | nat-cli/src/main.rs:150-404 | Which last-run times a pass updates, and when the next one starts |
| LoopTiming.NextPassOnTime | nat-cli/src/runtime.rs:50-120 | After any pass the next one starts in time for every task |
| LoopTiming.TasksAreOnTime | nat-cli/src/runtime.rs:50-120 | Over every run DDNS, stats and dynamic refreshes are less than a second late and quota checks less than five, plus the largest delay of a pass; a stats interval of 0 is a full second late |
| LoopTiming.ExactWithoutDelay | nat-cli/src/runtime.rs:110-120 | With instantaneous passes and exact sleeps truncation costs nothing: refreshes are not late at all |

## Left out

- Script text: nft syntax apart from how addresses, ports and ranges are read, counters, rule comments, the rejection of overlapping interval elements, of overlong comments, of one-port ranges by old versions of nft, and of a source NAT text that is no address of the table's family; names that nft would resolve itself; the text only enters as an arbitrary rendering that is hashed. The CN set text is modelled in `CnSetText`, apart from how a prefix text becomes an address.
- Comments with line breaks in the configuration, which would put further lines into the script text.
- Parsing of JSON, TOML and the legacy format, and entries that do not parse where the code skips them: the lists hold what parses.
- Other writers of the managed tables, such as a refresh requested from the menu while the service runs; a run of the loop is alone, except that a new process may find any managed tables.
- A cache or state file path that changes between rounds, and concurrent writers of those files; a save replaces the whole file or leaves it.
- DNS, clocks, processes and the file system themselves: their answers and outcomes are inputs of each step.
- The order of addresses in the whitelist lists, which the code always drains from an ordered set: they are sets here. Stored entries are addresses or prefixes, never arbitrary text.
- Passes of the joined run in `LoopSources` take their whitelist state from the refreshes of the run; a refresh requested from the menu in between is not part of it.
- Daemon.Loop.RunRound: passes in which nothing is due, the configuration cannot be parsed or an interval is refused are not steps of the run, since they touch none of the modelled state.
- SafeApply.RollbackRestoresIff: the dumps written for an operator are not modelled, since nothing reads them back.
- LoopTiming.TasksAreOnTime: clocks that are set back, and failing tasks, which are due again at once.
- Telegram, statistics, quota decisions, menus, updates, redaction of audit details, and downloads of the CN file.
- IPv6 zone ids and non-ASCII case folding of domains; the code lowers ASCII letters only.
