# anchord: what its control plane guarantees

anchord turns container labels and Docker events into kernel NAT state, network attachments and
routes. These modules model its decision code and prove what it guarantees; the Docker daemon, the
kernel, DNS and everybody else who touches containers, endpoints and routes are an environment that
acts between any two calls and may turn calls down. `dafny verify dfyconfig.toml` checks everything.

Code that changes state step by step is imperative here too: classes for `nat.Manager`, the
reconciler, the picker, the watchers and the route managers, loops where the source has loops. Each
such method is proved equal to a function of its inputs or of the old state, and the theorems are
lemmas about those functions, or methods that run them any number of times. What such a function
decides is said once more without it, by a lemma or a contract in plain terms: bytes, texts,
labels, places in a list (`AcceptableExactly`, `FlushSetExactly`, `CollisionsAreRetried`,
`OrphansExactly`, `LastPushExactly`, and the others of that form).

- **NAT** (`NftVM`, `NatProgram`, `Nat`). The emitted rules run on a register machine with bytes and
  aliased registers, and batches apply entirely or not at all. `PreroutingMeansTable`: whatever order
  the rules were emitted in and whatever the registers hold, a packet is sent to exactly the address and
  port its entry names. `PostroutingIsExact`: the source is rewritten exactly for packets leaving by the
  external interface and for DNAT'd packets that did not enter by it. `RestartMeansTableIff`: the same for a
  table in which runs before this one have left their rules, and exactly when it then still holds.
- **Reconciler** (`Discovery`, `Reconciler`). After a successful apply the four kernel maps are the desired
  table; after a failed one a prefix of them is. `Run`: from a start in step with the kernel and as long as all
  applies succeed, every translated connection points at its key's current target after each of them, with
  connections arriving at any moment;
  `InSyncCompleteIff` says when that includes the connections that were let through untranslated. For runs in
  which applies fail, `StaleExactly` names the connections that can be left behind, and `HistoryDecides` says
  when the next success leaves none. `UnchangedStays`: no apply ends a connection to a backend that it leaves alone.
- **Rebinder** (`Rebinder`, `Settle`, `RebinderWatcher`). `RunKeeps`, `NeverStranded` and `EchoesDieOut`
  are the protocol's safety and progress over every run; `LonelyEchoes` and `PairingLostExactly` say exactly
  where it stops holding. `SettleExact`, `ReadyExactly` and `CollisionsAreRetried` count the probes and
  attempts; `ParkingExactly`, `ReattachedExactly` and `SettlesFirst` give each step's calls under any failures.
- **Containers** (`References`, `Dependents`, `DockerWorld`, `Autostart`, `WrapRebinder`). All reference
  resolvers find the same container, a managed recreate conserves containers and settles, victims are
  reported on rising edges, and recreates of one target and anchor ID are at least a window apart.
- **Routes** (`KernelRoutes`, `ServiceAnchor`, `ExtRoute`), **picker** (`SharedNet`) and **parsers**
  (`Labels`, `Selector`): self-healing over every run, an exact restore condition, a stable argmax, and
  round trips in both directions.

Where the code does not do what its comments or documents say, the code is followed:

- `Setup` says it starts from a known baseline and that missing tables are fine. Its four deletions are one
  batch, so they take effect only if all four tables exist, and `installChains` creates two of them
  (`WipeNeedsAllFour`). Every restart adds a block of rules and keeps the entries (`SetupAddsLayer`). That is
  harmless exactly as long as no earlier block lets in, or rewrites, a packet that this run's would not
  (`RestartMeansTableIff`): a restart after the external interface was renamed is not (`RenamedInterfaceRestart`).
- The reconciler flushes the keys of `last` only. A flow that arrived before its backend appeared stays
  untranslated for good (`EarlyFlowStaysUntranslated`, `UntranslatedStays`). A failed apply leaves `last` behind
  the kernel, and a later success may flush too little (`FailedApplyBreaksCompleteness`). A restarted process
  flushes nothing in its first apply (`FirstApplyAfterRestart`).
- `FlushDestination` says it matches the destination after DNAT. The command it runs, `conntrack -d IP -D`,
  selects by the destination of the original direction. What that command does is outside this model: the
  comment is taken as a hypothesis, and every statement about flushed connections rests on it.
- `cleanup` means to skip the restore when nothing was replaced, but by then it has removed the route, so a
  recorded original that equals the last gateway is not put back (`RestoresExactly`, `OriginalNotRestored`).
- The rebinder describes echoes of its own calls as harmless. With nobody else left on the network they make it
  release and reattach the follower forever exactly if the queue holds an event that wakes it and, behind that,
  one that wakes it in its other state; otherwise it acts once more at most (`LonelyEchoes`). One container that
  joins and leaves while the follower is parked is enough to start it (`OneShotEchoesForever`).
- `maybeManage` answers a service-anchor that is neither running nor created with a start only; if its
  reference was stale, the next identical event recreates it (`SecondStartEvent`, `SecondEventReplaces`).
- The wrap-rebinder expects full IDs or names in network modes; a stored short ID counts as drift
  (`DriftsIffShortRef`), until a recreate has replaced it by the target's name (`NextPollQuiet`).
- Its limiter is said to work by target, since keying by anchor ID would never fire. The key holds the anchor ID
  too, and a successful recreate changes that: the limiter holds back only a second attempt on the same ID
  (`SuppressedExactly`). The anchor of a target in a crash loop is recreated at every start, as soon as the pool
  has been read again (`NewAnchorUnthrottled`).
- `referencesFor` knows no ID prefix other than the 12-character one (`ListedExactly`).

Go's map iteration order is a parameter or a nondeterministic choice (`GoBase.RangeOrder`), `uint16` and bytes
are subset types, and integers that cannot overflow are unbounded. A TCP or UDP header is read at bytes 2 and 3,
the destination port of section 3.1 of RFC 9293 and of the header format of RFC 768.

## Model

| member | source | states |
|---|---|---|
| Labels.Parse | internal/labels/labels.go:65-97 | the loop with its early returns computes the specification `ParseLabels` |
| Labels.RenderedLabelsParse | internal/labels/labels.go:65-145 | every spelling of a non-empty rule list (any case, whitespace, leading zeros, blanks between commas) parses to exactly that list |
| Labels.ParsedLabelsAreRendered | internal/labels/labels.go:65-145 | everything accepted is such a spelling, of tcp/udp rules with ports 1..65535 |
| Labels.AcceptsExactlyTheGrammar | internal/labels/labels.go:65-127 | acceptance with a given result if and only if the label spells the rules and the v6 label, in any padding and letter case, spells the mode: blank or auto, or one of off, false, no, 0 |
| Labels.ParseV6Exactly | internal/labels/labels.go:86-94 | that reading of the v6 label, word by word |
| Labels.NothingExposed | internal/labels/labels.go:66-85 | an absent or blank label asks for nothing; one of blanks and commas, with a comma, is the error "set but empty", and nothing else is |
| Labels.RuleExactly | internal/labels/labels.go:99-127 | parseRule accepts exactly tcp or udp in any case, a slash, a port, perhaps a colon and a port; without a slash it says so |
| Labels.PortExactly | internal/labels/labels.go:132-145 | parsePort accepts exactly padded decimal numbers from 1 to 65535; blank is an error of its own |
| Labels.PrintParses | internal/labels/labels.go:65-145 | printing any valid rule list in the documented form and parsing it gives the list back |
| Labels.SpellingParses | internal/labels/labels.go:99-127 | parseRule on any spelling of a rule, backend port defaulted when omitted |
| Labels.PortSpellingParses | internal/labels/labels.go:132-145 | parsePort on any padded decimal spelling of 1..65535 |
| Labels.ParsedRuleIsSpelled | internal/labels/labels.go:99-127 | what parseRule accepts is a spelling of its result |
| Labels.ErrorIsFinal | internal/labels/labels.go:72-80 | an error in one entry is the result, whatever follows |
| Selector.ParseLabelSelector | internal/config/config.go:677-702 | the loop over the map with its three errors computes the specification `ParseSpec` |
| Selector.AcceptedExactly | internal/config/config.go:682-700 | accepted if and only if each entry is well formed and no two disagree; the map is then exactly the pairs named |
| Selector.NamesExactly | internal/config/config.go:683-694 | an entry names a pair exactly when it is the key, the first equals sign and the value, with white space around any of them; it is well formed when it is blank or does |
| Selector.ErrorExactly | internal/config/config.go:682-700 | the error is that of the first entry without an equals sign, without a key, or contradicting an earlier one |
| Selector.ParsedIsPrintable | internal/config/config.go:683-699 | parsed keys and values are trimmed, free of separators, keys non-empty |
| Selector.BuildDiscoveryDiscriminator | cmd/anchord/main.go:630-652 | sorted pairs of the selector, key, equals sign, value, else the project predicate, else nothing |
| Selector.PrintIgnoresOrder | cmd/anchord/main.go:636-644 | the printed form depends on the map alone |
| Selector.PrintThenParse | cmd/anchord/main.go:636-645 | a printable map, printed in any key order and parsed, comes back |
| Selector.AcceptedRoundTrips | internal/config/config.go:677-702 | for every accepted selector, print and parse again gives the same map |
| NftVM.ReadOther | internal/nat/nat.go:587-601 | the 16-byte registers used by the rules do not overlap |
| NftVM.AndSingleBit | internal/nat/nat.go:452-463 | masking with one bit keeps exactly that bit |
| NatProgram.PadNameExact | internal/nat/nat.go:497-503 | the padded comparison holds exactly for equal names, for kernel names of at most 15 NUL-free bytes |
| NatProgram.StatusMaskExact | internal/nat/nat.go:450-468 | the masked status word is non-zero exactly when bit 5 is set, in either byte order |
| NatProgram.GuardRuns | internal/nat/nat.go:362-382 | the guard lets a packet through exactly when it is for a local address, or entered by the external interface in the fallback |
| NatProgram.XlatRuleGives | internal/nat/nat.go:602-632 | a literal rule sends exactly its port to its address and port |
| NatProgram.XlatChainGives | internal/nat/nat.go:535-567 | the sub-chain decides exactly the translating ports, in any emission order |
| NatProgram.JumpGives | internal/nat/nat.go:396-403 | the jump runs the sub-chain for guarded packets of the protocol and otherwise goes on |
| NatProgram.MapRuleGives | internal/nat/nat.go:412-436 | the map rule sends a guarded packet whose port is in the map to the mapped address, port kept |
| NatProgram.AcceptableExactly | internal/nat/nat.go:530-549 | the targets that can be programmed, by bytes: port not 0, and for v4 four bytes or the mapped form, for v6 any other sixteen; the bytes sent are the address's own |
| NatProgram.PreroutingMeansTable | internal/nat/nat.go:225-275 | the whole prerouting program redirects to exactly the entry of the packet's protocol and port, and otherwise leaves the packet alone |
| NatProgram.PreroutingRedirects | internal/nat/nat.go:225-275 | the same behind any number of blocks of earlier runs: a packet that some block lets through is sent by its entry, every other is left alone |
| NatProgram.HairpinGives | internal/nat/nat.go:449-472 | masquerade exactly for DNAT'd packets that did not enter by the external interface |
| NatProgram.MasqueradeGives | internal/nat/nat.go:477-488 | masquerade exactly for packets leaving by the external interface |
| NatProgram.PostroutingIsExact | internal/nat/nat.go:269-274 | the two rules together rewrite the source in exactly those cases |
| NatProgram.PostroutingRewrites | internal/nat/nat.go:258-274 | behind earlier blocks: the source is rewritten exactly for packets that some block rewrites |
| NatProgram.GuardWithinIff | internal/nat/nat.go:362-382 | one block lets in nothing that another would not, or here is the packet that shows it does |
| NatProgram.RewritesWithinIff | internal/nat/nat.go:449-488 | the same for rewritten sources |
| NatProgram.LeftoversHarmlessIff | internal/nat/nat.go:155-217 | a table with earlier blocks does to every packet what one block is meant to do exactly when the others let in and rewrite no more |
| Nat.IfaceBytes | internal/nat/nat.go:499-503 | the buffer holds the name, zero-padded or cut to 16 bytes |
| Nat.WipeNeedsAllFour | internal/nat/nat.go:155-163 | the wipe takes effect exactly when all four tables exist, and otherwise changes nothing |
| Nat.SetupApplies | internal/nat/nat.go:166-217 | the setup batch is valid on any ruleset and builds exactly the tables, maps, sub-chains and hooks described |
| Nat.SetupAddsLayer | internal/nat/nat.go:142-217 | on whatever earlier runs left, Setup adds one block of base rules and keeps their blocks and entries; on no table it builds the empty program |
| Nat.Manager.constructor | internal/nat/nat.go:138-140 | an unconfigured manager on whatever ruleset earlier runs have left |
| Nat.Manager.Setup | internal/nat/nat.go:144-220 | the new ruleset, probe result and error in every case, also for a second call; the blocks and entries then in the tables; afterwards every SetMap has what it needs |
| Nat.SetMapApplies | internal/nat/nat.go:528-574 | the batch is valid and leaves exactly the compiled program of the entries, everything else in the table kept |
| Nat.SetMapCommits | internal/nat/nat.go:518-575 | the batch commits exactly when its table, map and chain exist; then this (family, protocol) is replaced, and blocks, other entries and other tables are kept |
| Nat.CompileEntries | internal/nat/nat.go:530-570 | the loop emits the specified batch for any range order exactly when every target is such, and otherwise names one that is not |
| Nat.Manager.SetMap | internal/nat/nat.go:518-575 | success exactly for known protocols after Setup, with its parts in the kernel, when every target fits its family by its bytes and the kernel takes the batch; all or nothing; other table untouched; which error when |
| Nat.ForwardingFollowsTable | internal/nat/nat.go:518-575 | after any runs of Setup and SetMap a packet meets the entries last programmed for its family |
| Nat.BackendReached | internal/nat/nat.go:225-275 | the same in the packet's own bytes: TCP is 6 and UDP 17, the port is read at bytes 2 and 3, and a packet that some block lets in reaches the address and port programmed for it; its source is rewritten exactly when a block asks for it |
| Nat.LanClientKeepsSource | internal/nat/nat.go:266-269 | a client from the external interface sent to an internal backend keeps its source exactly when every block names that interface |
| Nat.RestartMeansTableIff | internal/nat/nat.go:142-220 | after a restart the tables mean this run's program exactly when no earlier block lets in, or rewrites, a packet that this run's would not |
| Nat.SameConfigRestart | internal/nat/nat.go:142-143 | restarts with the same interface and probe result are harmless, however many |
| Nat.RenamedInterfaceRestart | internal/nat/nat.go:155-163 | two runs from no tables at all, the second with another interface: the tables do not mean its program |
| Discovery.DesiredFromState | internal/reconciler/reconciler.go:132-145 | the nested loops compute the table for some order of the backends |
| Discovery.DesiredExactly | internal/reconciler/reconciler.go:132-145 | a key is present exactly when a rule of some backend asks for it (v6 only with an address and not off), and goes where the last such rule of the last such backend wants it |
| Discovery.DesiredKeys | internal/reconciler/reconciler.go:132-145 | a key is present exactly when some backend asks for it |
| Discovery.DesiredValue | internal/reconciler/reconciler.go:132-145 | its target is one that a backend asked for |
| Discovery.OrderIrrelevantIffAgree | internal/reconciler/reconciler.go:134-143 | the table is independent of map order exactly when backends claiming one key want the same target |
| Discovery.DesiredProtosKnown | internal/reconciler/reconciler.go:135-141 | parsed labels yield only tcp and udp keys, so no key falls outside the four maps |
| Discovery.SortSlice | internal/discovery/discovery.go:65-67 | a sorted rearrangement of the rules |
| Discovery.SortedUnique | internal/discovery/discovery.go:65-73 | it is the only one when no (proto, port) repeats |
| Discovery.BackendEqual | internal/discovery/discovery.go:58-74 | true implies the same addresses, mode and rules; the converse when no (proto, port) repeats |
| Discovery.StateEqual | internal/discovery/discovery.go:45-56 | the same for every backend of two states |
| Discovery.EqualStatesEqualTables | internal/discovery/discovery.go:43-56 | states that compare equal and claim no key twice give the same table, for all map orders |
| Reconciler.PushedShape | internal/reconciler/reconciler.go:86-99 | after n pushes, in family-then-protocol order, the first n maps are new and the others old |
| Reconciler.CollectEntries | internal/reconciler/reconciler.go:88-93 | the loop selects exactly the entries of one family and protocol |
| Reconciler.TablesAreDesired | internal/reconciler/reconciler.go:86-99 | the four maps together hold exactly the desired keys and targets |
| Reconciler.TakenExactly | internal/reconciler/reconciler.go:86-99 | all four pushes go through exactly when none is turned down and every target of the table fits its family by its bytes |
| Reconciler.WhereIsForwarding | internal/reconciler/reconciler.go:94-96 | where a new connection goes is what the nftables program does with its first packet, whatever blocks are in the table |
| Reconciler.WherePushed | internal/reconciler/reconciler.go:86-99 | between pushes each key is looked up in its old map until its own push, then in its new one |
| Reconciler.ExposedOldOrNew | internal/reconciler/reconciler.go:84-104 | whenever connections arrive during the pushes, each goes by the old or the new table |
| Reconciler.SuccessKeepsCurrent | internal/reconciler/reconciler.go:101-117 | with `last` in step with the kernel, a success leaves every translated connection on its current target |
| Reconciler.InSyncCompleteIff | internal/reconciler/reconciler.go:101-114 | untranslated ones included: exactly when none is tracked for a key of the table, and none arrives for an added key before that key's own push |
| Reconciler.UntranslatedStays | internal/reconciler/reconciler.go:104-114 | no apply ever ends an untranslated connection |
| Reconciler.FlushSetExactly | internal/reconciler/reconciler.go:104-113 | an address is flushed exactly when some key of `last` at it is gone, or has another port or another address now |
| Reconciler.UnchangedStays | internal/reconciler/reconciler.go:104-114 | no apply ends a connection to an address whose keys all keep their address and port |
| Reconciler.EarlyFlowStaysUntranslated | internal/reconciler/reconciler.go:104-114 | a flow that arrives before its backend is still untranslated after the apply that adds the key |
| Reconciler.StaleExactly | internal/reconciler/reconciler.go:78-117 | over every run of applies, failed ones included, a stale connection can be left exactly if it was there or some map state sent it there, and no flush has hit it since |
| Reconciler.HistoryDecides | internal/reconciler/reconciler.go:101-117 | after any number of failed applies a success leaves nothing stale exactly when every map state since the last success sends every key where it points now or to an address that gets flushed; the same for translated connections alone |
| Reconciler.FirstApplyAfterRestart | internal/reconciler/reconciler.go:46-48 | with an empty `last` a success leaves nothing stale exactly when the entries in the kernel already send every key where it points now |
| Reconciler.FailedApplyBreaksCompleteness | internal/reconciler/reconciler.go:94-96 | a run: an apply fails half-way, a connection arrives, and going back leaves it stale for good |
| Reconciler.Conntrack.FlushDestination | internal/conntrack/conntrack.go:29-52 | removes exactly the translated connections to the address; nil does nothing |
| Reconciler.FlushedByAll | internal/reconciler/reconciler.go:104-114 | the addresses flushed are those of keys that are gone or have another address or port, in any order |
| Reconciler.Reconciler.PushAll | internal/reconciler/reconciler.go:86-99 | stops at the first push turned down; maps and connections are those after the pushes before it |
| Reconciler.Reconciler.FlushChanged | internal/reconciler/reconciler.go:104-114 | flushes exactly those addresses, each once; connections that no flush hits stay, all others are on their current target |
| Reconciler.Reconciler.Apply | internal/reconciler/reconciler.go:78-124 | succeeds exactly when no push is turned down and every target fits; outcomes of maps, `last` and connections, and exactly the addresses of keys gone or changed flushed; nothing on a failure |
| Reconciler.FreshInSync | internal/reconciler/reconciler.go:46-48 | a new reconciler on an empty program starts in step |
| Reconciler.Run | internal/reconciler/reconciler.go:52-75 | over any updates and any failures, a run of applies; if all succeed, the kernel holds `last` and every translated connection is on its current target |
| Reconciler.InSyncRun | internal/reconciler/reconciler.go:52-75 | that invariant over every run of successful applies, on values |
| SharedNet.BestUnique | internal/sharednet/sharednet.go:143-167 | the preferred candidate is unique |
| SharedNet.BestExactly | internal/sharednet/sharednet.go:143-167 | the preferred candidate: nobody has more backends; of those with as many, "transit" somewhere in the name wins, and then the earlier name |
| SharedNet.HasTransitExactly | internal/sharednet/sharednet.go:195-197 | the word is looked for anywhere in the name, in any letter case |
| SharedNet.AtLeastTransitive | internal/sharednet/sharednet.go:153-167 | preferring is transitive |
| SharedNet.FallbackIsBest | internal/sharednet/sharednet.go:176-186 | with no negative count and no backend in sight the fallback's order is the same one |
| SharedNet.FallbackNeedsNonNegative | internal/sharednet/sharednet.go:147-186 | a negative count makes them differ |
| SharedNet.Picker.New | internal/sharednet/sharednet.go:69-89 | fails exactly for a pinned network this container is not on; candidates are the sorted non-external networks |
| SharedNet.Picker.Pick | internal/sharednet/sharednet.go:127-187 | pinned, empty, settled and heuristic case; the result is the best candidate, settling exactly when a backend is in sight |
| SharedNet.PickAll | internal/sharednet/sharednet.go:103-120 | over any snapshots, the first with a backend decides for good |
| SharedNet.CountBackendsPerNetwork | internal/discovery/discovery.go:364-378 | each network's number of attached backends, never negative |
| SharedNet.AttachmentsExactly | internal/discovery/discovery.go:364-378 | that number is the number of places in the listing attached to it |
| References.AmbiguousOnlyAsPrefix | internal/autostart/autostart.go:617-639 | in a well-formed daemon only an ID prefix can be ambiguous |
| References.DenotesExactly | internal/autostart/autostart.go:626-636 | what a reference denotes, in plain text: the ID, 12 or more characters that it begins with, or a name, which Docker stores with a slash |
| References.RefExactly | internal/dependents/staleness.go:52-59 | the reference of a mode is what follows "container:", without the white space around it, unless nothing is left |
| References.FirstNameExactly | internal/wraprebinder/wraprebinder.go:394-401 | the first name that is not empty, without its slash |
| References.ReferencesFor | internal/autostart/autostart.go:810-822 | full ID, 12-character ID and every name, and nothing else |
| References.ListedExactly | internal/autostart/autostart.go:810-822 | that set is what the reference denotes, minus the ID prefixes of other lengths |
| References.First | internal/dependents/staleness.go:77-93 | a scan finds a match if there is one |
| References.ResolversFind | internal/wraprebinder/wraprebinder.go:368-389 | single-pass and three-pass resolvers all find the container that an unambiguous slash-free reference denotes, in any listing order |
| References.ResolversMiss | internal/wraprebinder/wraprebinder.go:513-541 | none finds anything when nothing is denoted |
| References.RefResolvesIff | internal/dependents/staleness.go:77-93 | refResolves exactly when some container is denoted |
| References.OrderIrrelevantIffUnambiguous | internal/autostart/autostart.go:626-638 | no rearrangement of the listing changes the stale check, for any target, exactly when the reference is unambiguous |
| Dependents.Find | internal/dependents/staleness.go:50-71 | the loop with its skips computes the list of victims |
| Dependents.VictimsAreStale | internal/dependents/staleness.go:50-71 | a victim is exactly a candidate whose reference does not resolve, with its recovery hint |
| Dependents.StaleIffDenotesNothing | internal/dependents/staleness.go:40-71 | that is: no listed container has the reference as its ID, as 12 or more characters that its ID begins with, or as a name |
| Dependents.HintExactly | internal/dependents/staleness.go:99-106 | the command to run, when both compose labels say something |
| Dependents.VictimsInOrder | internal/dependents/staleness.go:52-70 | each candidate is reported once at most, in the order of the list |
| Dependents.ScopeByProject | internal/dependents/watcher.go:131-139 | the containers of the project, in order |
| Dependents.ScopedMembers | internal/dependents/watcher.go:131-139 | exactly the listed containers whose compose label names the project |
| Dependents.SeenKeyInjective | internal/dependents/watcher.go:121 | the key tells (container, reference) pairs apart |
| Dependents.Watcher.Dispatch | internal/dependents/watcher.go:119-128 | one hook call for each victim whose key is new, in order, and the set of all keys |
| Dependents.Watcher.Tick | internal/dependents/watcher.go:105-129 | that for the scoped victims of the listing; nothing changes on a failed listing |
| Dependents.RunTicks | internal/dependents/watcher.go:75-97 | every tick of a run reports exactly the keys that the last arrived listing did not have |
| Dependents.ReportsAreRisingEdges | internal/dependents/watcher.go:99-129 | a victim is reported at a tick exactly when it is stale there and was not at the previous successful tick |
| DockerWorld.Docker.List | internal/autostart/autostart.go:842-860 | every container once, in any order, or an error |
| DockerWorld.Docker.RecreateWithNetworkMode | internal/autostart/autostart.go:971-1003 | what the four calls leave behind, wherever they stop |
| DockerWorld.ReboundKeeps | internal/autostart/autostart.go:563-580 | containers that are not rebound are not touched |
| DockerWorld.ReboundEach | internal/autostart/autostart.go:563-580 | each dependent ends as its own calls do, whatever becomes of the others |
| DockerWorld.ReboundSize | internal/autostart/autostart.go:563-580 | with successful calls the number of containers stays the same |
| Autostart.FindOrphanCandidates | internal/autostart/autostart.go:588-608 | the loop computes the dependents in listing order |
| Autostart.OrphansExactly | internal/autostart/autostart.go:588-608 | they are exactly the other containers whose mode, after "container:" and white space, gives its full ID, 12-character ID or a name |
| Autostart.OrphansInOrder | internal/autostart/autostart.go:594-606 | in the order of the listing, each once |
| Autostart.MatchSiblings | internal/autostart/autostart.go:785-804 | the loop computes the Created siblings of a target |
| Autostart.SiblingsExactly | internal/autostart/autostart.go:785-804 | they are exactly the Created containers whose mode gives its full ID, 12-character ID or a name, with or without a slash |
| Autostart.SiblingsInOrder | internal/autostart/autostart.go:791-802 | in the order of the listing |
| Autostart.ManagedSA | internal/autostart/autostart.go:459-466 | a container with the recipe's name, if there is one |
| Autostart.DecideExactly | internal/autostart/autostart.go:451-514 | nothing unless the started container goes by the recipe's target; then by existence, state, namespace and, with the own image known and none configured, image |
| Autostart.SpecExactly | internal/autostart/autostart.go:678-740 | every field of the new service-anchor, what comes from the recipe, what from the own container, which wins, and exactly when there is none |
| Autostart.ReplaceStops | internal/autostart/autostart.go:534-557 | where a failing step leaves the daemon: as it was after a refused removal, else without the old one, or with a new one that is not started; no dependent touched |
| Autostart.StartedAllExactly | internal/autostart/autostart.go:360-362 | a sibling runs exactly when a start call of its own succeeds, whatever becomes of the others |
| Autostart.Watcher.CreateAndStartManaged | internal/autostart/autostart.go:646-673 | the new ID, or the state in which a failing step leaves the daemon |
| Autostart.Watcher.RebindAll | internal/autostart/autostart.go:562-580 | every dependent is tried, failures do not stop the loop |
| Autostart.Watcher.RecreateSAWithOrphanRebind | internal/autostart/autostart.go:534-581 | the daemon's state after the cycle, for every pattern of failures; a refused removal is the only call and changes nothing |
| Autostart.Watcher.MaybeManage | internal/autostart/autostart.go:451-518 | the decision by existence, state, namespace and image, and its effect |
| Autostart.Watcher.StartSiblings | internal/autostart/autostart.go:360-362 | each is started, failures are skipped |
| Autostart.Watcher.HandleTargetStart | internal/autostart/autostart.go:354-364 | the siblings are the first calls, then the decision on the same listing; only starts unless it is a replacement |
| Autostart.Watcher.HandleSAGone | internal/autostart/autostart.go:387-420 | respawn exactly for the recipe's name with a running target |
| Autostart.RecreateRenews | internal/autostart/autostart.go:534-581 | the old service-anchor is gone, the new one runs, no container is lost |
| Autostart.RecreateRebinds | internal/autostart/autostart.go:559-580 | each dependent is back under a new ID in the new namespace, everything else of it kept |
| Autostart.RecreateLeavesOthers | internal/autostart/autostart.go:534-581 | all other containers are unchanged |
| Autostart.NoneReferencesOld | internal/autostart/autostart.go:533-581 | no survivor references the removed service-anchor by full ID, 12-character ID or name; what still denotes it is an ID prefix of another length |
| Autostart.ReplaceSettles | internal/autostart/autostart.go:451-518 | after a replacement one container has the recipe's name, running in the target's namespace |
| Autostart.SettledQuiet | internal/autostart/autostart.go:469-476 | in that state a start event removes and creates nothing |
| Autostart.SecondStartEvent | internal/autostart/autostart.go:354-518 | of two identical start events the second replaces exactly when the first only started a stale, neither running nor created, service-anchor |
| Autostart.TwoStartEvents | internal/autostart/autostart.go:354-518 | the same for the watcher's methods: otherwise the second makes start calls only |
| Autostart.SecondEventReplaces | internal/autostart/autostart.go:469-511 | a host of two containers on which the second event does replace |
| WrapRebinder.BuildTargetPool | internal/wraprebinder/wraprebinder.go:336-362 | the loop computes the pool and the orphan list |
| WrapRebinder.EligibleExactly | internal/wraprebinder/wraprebinder.go:338-352 | the containers looked at: not the sidecar itself, of the own project by the compose label, with a reference in the mode |
| WrapRebinder.PoolExactly | internal/wraprebinder/wraprebinder.go:336-362 | pool entries are exactly those containers, under the name their reference resolves to |
| WrapRebinder.EachSiblingOnce | internal/wraprebinder/wraprebinder.go:336-362 | each such container is in exactly one entry, or in the orphan list |
| WrapRebinder.PoolDistinct | internal/wraprebinder/wraprebinder.go:359 | and only once in its entry |
| WrapRebinder.PoolInOrder | internal/wraprebinder/wraprebinder.go:338-359 | in the order of the listing: a later sibling comes behind all earlier ones |
| WrapRebinder.FindByID | internal/wraprebinder/wraprebinder.go:546-553 | the container with that ID, if listed |
| WrapRebinder.DriftsExactly | internal/wraprebinder/wraprebinder.go:430-465 | an anchor drifts exactly when its reference is neither the ID of the container with the target's name nor that name; never when target or anchor is gone |
| WrapRebinder.DriftsIffShortRef | internal/wraprebinder/wraprebinder.go:430-465 | rebuild then recheck on one state counts an anchor as drifted exactly when it stores a short ID |
| WrapRebinder.QuietHostNoChurn | internal/wraprebinder/wraprebinder.go:271-274 | so nothing drifts when siblings store full IDs or names |
| WrapRebinder.ShortRefChurns | internal/wraprebinder/wraprebinder.go:455-464 | and a pooled short ID does, although its target has not changed |
| WrapRebinder.NextPollQuiet | internal/wraprebinder/wraprebinder.go:455-508 | after a poll that has recreated every drifted anchor the next one recreates nothing, former short IDs included |
| WrapRebinder.ReplayedOrigin | internal/wraprebinder/wraprebinder.go:497-508 | after any row of successful recreates: who was untouched, who was replaced by whom |
| WrapRebinder.DedupKeyInjective | internal/wraprebinder/wraprebinder.go:486 | the rate-limit key tells (target, anchor) pairs apart |
| WrapRebinder.SpacedStep | internal/wraprebinder/wraprebinder.go:485-496 | an admitted recreate keeps any two of the same pair a window apart |
| WrapRebinder.SuppressedExactly | internal/wraprebinder/wraprebinder.go:485-496 | a recreate is held back exactly when the same anchor ID was recreated for the same target less than a second before |
| WrapRebinder.NewAnchorUnthrottled | internal/wraprebinder/wraprebinder.go:479-508 | a recreated anchor has a new ID, of which the limiter knows nothing |
| WrapRebinder.Watcher.RecreateAnchor | internal/wraprebinder/wraprebinder.go:485-508 | suppressed exactly within the window, otherwise one recreate call, stamped; keeps the spacing invariant of the run |
| WrapRebinder.Watcher.EnumerateTargetPool | internal/wraprebinder/wraprebinder.go:288-309 | the pool of a fresh listing, or the old one on an error |
| WrapRebinder.Watcher.RecheckTarget | internal/wraprebinder/wraprebinder.go:430-465 | recreates drifted anchors only, and every one of them that was not recreated within the window |
| WrapRebinder.Watcher.BootstrapRecheck | internal/wraprebinder/wraprebinder.go:410-467 | the same over the whole pool; nothing on an empty pool or a failed listing |
| WrapRebinder.Watcher.EnumerateAndRecheck | internal/wraprebinder/wraprebinder.go:271-274 | the calls made are recreates of anchors that drifted in the second listing, and no drifted anchor is left out by more than the rate limit |
| WrapRebinder.Watcher.RecreateAnchors | internal/wraprebinder/wraprebinder.go:238-245 | every anchor of the target was recreated less than a window before or is recreated now |
| WrapRebinder.Watcher.HandleStart | internal/wraprebinder/wraprebinder.go:237-251 | that for a tracked target, then a fresh pool for a sibling of the own project |
| KernelRoutes.Kernel.ReplaceDefaultRoute | internal/serviceanchor/serviceanchor.go:396-402 | installs exactly a gateway of the family |
| KernelRoutes.Kernel.RemoveDefaultRoute | internal/serviceanchor/serviceanchor.go:404-410 | deletes the default route only if it goes via that gateway |
| KernelRoutes.Kernel.CurrentGateway | internal/serviceanchor/serviceanchor.go:418-441 | the current gateway, none, or an error |
| KernelRoutes.RoutesExactly | internal/serviceanchor/serviceanchor.go:457-479 | in bytes: which gateways fit a family, and that routes are compared by address and not by form |
| ServiceAnchor.FirstOfSnoc | internal/serviceanchor/serviceanchor.go:237-248 | one more address matters only if none of its family came before |
| ServiceAnchor.WantedExactly | internal/serviceanchor/serviceanchor.go:222-248 | by place and bytes: the first address of the lookup that is, or is not, IPv4; nothing when the lookup fails or shows none |
| ServiceAnchor.Manager.FirstPerFamily | internal/serviceanchor/serviceanchor.go:235-248 | the first usable address of each family |
| ServiceAnchor.Manager.RecordOriginals | internal/serviceanchor/serviceanchor.go:195-215 | per family the current gateway, nothing when there is none or the lookup fails |
| ServiceAnchor.Manager.ApplyRoute | internal/serviceanchor/serviceanchor.go:278-321 | exact new route and `current` for every outcome of the lookup and the replace |
| ServiceAnchor.Manager.Reconcile | internal/serviceanchor/serviceanchor.go:222-262 | both families, or nothing at all on a failed lookup; whatever fails, each route is the old or the wanted one and `current` never lies |
| ServiceAnchor.ReconciledFollowsLookup | internal/serviceanchor/serviceanchor.go:222-262 | each family goes via its first resolved address, or as before when there is none |
| ServiceAnchor.Manager.RemoveOurs | internal/serviceanchor/serviceanchor.go:339-348 | removes exactly routes that still go via the remembered gateway |
| ServiceAnchor.Manager.RestoreOriginals | internal/serviceanchor/serviceanchor.go:349-363 | restores exactly originals that differ from the remembered gateway |
| ServiceAnchor.Manager.Cleanup | internal/serviceanchor/serviceanchor.go:336-366 | the routes after both, and empty maps |
| ServiceAnchor.RestoresExactly | internal/serviceanchor/serviceanchor.go:349-363 | a recorded original is in place after shutdown exactly when the last gateway was another one |
| ServiceAnchor.OriginalNotRestored | internal/serviceanchor/serviceanchor.go:336-366 | a run whose original route is the resolved gateway ends without a default route |
| ServiceAnchor.LeavesNoRouteOfOurs | internal/serviceanchor/serviceanchor.go:339-348 | without an original none of our routes stays, and nobody else's goes |
| ServiceAnchor.EachTickHeals | internal/serviceanchor/serviceanchor.go:264-321 | in every run, whatever others did before a tick |
| ServiceAnchor.CurrentIsLastResolved | internal/serviceanchor/serviceanchor.go:295-310 | `current` is the last gateway resolved |
| ServiceAnchor.LastResolvedExactly | internal/serviceanchor/serviceanchor.go:222-262 | by place: the last tick whose lookup shows an address of the family |
| ServiceAnchor.HandleEvent | internal/serviceanchor/serviceanchor.go:175-183 | one turn of the loop, or an outside change, as a step of the run |
| ServiceAnchor.RunDNSMode | internal/serviceanchor/serviceanchor.go:161-184 | the routes after a whole run with outside changes and shutdown |
| ServiceAnchor.LifecycleRestores | internal/serviceanchor/serviceanchor.go:186-366 | the restore condition over whole runs, in terms of the last resolved gateway |
| ServiceAnchor.UnresolvedUntouched | internal/serviceanchor/serviceanchor.go:250-261 | a family that never resolves is never touched, also at shutdown |
| ExtRoute.Manager.LookupIpam | internal/extroute/extroute.go:151-161 | consulted only with an external network and a family without a pin |
| ExtRoute.Manager.Assert | internal/extroute/extroute.go:235-256 | no gateway, no touch; otherwise the exact new route for every outcome of the lookup and the replace |
| ExtRoute.Manager.AssertAll | internal/extroute/extroute.go:228-231 | both families; a route changes only to the gateway that priority gives |
| ExtRoute.Manager.HandleEvent | internal/extroute/extroute.go:173-199 | one turn of the select: tick, push (also a repeated one asserts the route), close, or an outside change |
| ExtRoute.PushSticks | internal/extroute/extroute.go:179-198 | once a push was taken the gateway never falls back, and after the close it stays |
| ExtRoute.LastPushExactly | internal/extroute/extroute.go:179-198 | by place: the last IPv4 push that comes before the channel closes |
| ExtRoute.Run | internal/extroute/extroute.go:146-200 | over every run, with or without a push channel: v4 goes via the last push taken, else the pin, else IPAM, v6 via the pin, else IPAM; so from the start, after every tick and, for v4, every push taken; whatever fails, a route changes to nothing else |
| Rebinder.IdMatchFull | internal/rebinder/rebinder.go:726-740 | on full IDs the match is equality |
| Rebinder.IdMatchPrefix | internal/rebinder/rebinder.go:726-740 | a shorter one matches from twelve characters on |
| Rebinder.FollowerExactly | internal/rebinder/rebinder.go:693-718 | the first container of that project and service, with none the first of that name, otherwise nobody; the project is not asked when it is empty |
| Rebinder.MembershipExactly | internal/rebinder/rebinder.go:423-446 | what a snapshot shows: the network at the first call, the follower among it as far as the second call's list shows it |
| Rebinder.EnvTick | internal/rebinder/rebinder.go:356-406 | what others can do to endpoints and queue between two calls |
| Rebinder.ConnectingEnds | internal/rebinder/rebinder.go:650-678 | a connect that reports success leaves the follower attached |
| Rebinder.ReattachedEnds | internal/rebinder/rebinder.go:589-644 | a reattach whose calls succeed ends attached, unparked and with the invariant |
| Rebinder.ParkingKeeps | internal/rebinder/rebinder.go:455-493 | the release decision on an old snapshot still keeps the invariant |
| Rebinder.HandledKeeps | internal/rebinder/rebinder.go:373-404 | every kind of event but a destroy does |
| Rebinder.RunKeeps | internal/rebinder/rebinder.go:356-493 | in every run: attached exactly when not parked; a sole endpoint has a disconnect queued or has been alone since it was attached; while parked every endpoint's connect is still queued |
| Rebinder.NeverStranded | internal/rebinder/rebinder.go:391-398 | a queued connect brings a parked follower back by the time it is handled |
| Rebinder.EndpointBringsBack | internal/rebinder/rebinder.go:356-406 | so another endpoint being there does, within the queue's length |
| Rebinder.EchoesDieOut | internal/rebinder/rebinder.go:389-403 | beside an endpoint that stays, no connect or disconnect call is ever made again |
| Rebinder.LonelyTurn | internal/rebinder/rebinder.go:391-493 | with nobody else there, a waking event turns attached into parked or back and leaves its echo, and any other event is dropped |
| Rebinder.TurnsKeepAlive | internal/rebinder/rebinder.go:356-406 | what keeps the echoes going is kept by every turn and comes from nowhere |
| Rebinder.LonelyEchoes | internal/rebinder/rebinder.go:391-478 | with nobody else there, the watcher releases and reattaches forever exactly when a waking event has one that wakes the other state behind it; otherwise one round of calls at most |
| Rebinder.OneShotEchoesForever | internal/rebinder/rebinder.go:389-493 | a run from a good start, no call failing, in which it does |
| Rebinder.PairingLostExactly | internal/rebinder/rebinder.go:373-404 | under arbitrary failures, the three ways in which attached and parked come apart, and no fourth |
| Rebinder.BootstrapStartsWell | internal/rebinder/rebinder.go:306-344 | after a successful startup check, exactly when the invariant holds as the stream is opened |
| Rebinder.NothingFailsSucceeds | internal/rebinder/rebinder.go:589-678 | the success hypothesis holds where nothing fails |
| Settle.ReachesFrom | internal/rebinder/rebinder.go:545-573 | accumulated polls reach a duration from the rounded-up quotient on |
| Settle.QuotaAndBudgetExactly | internal/rebinder/rebinder.go:545-573 | the fewest readings that last the quiet time, and the fewest polls that last the wait |
| Settle.SettleExact | internal/rebinder/rebinder.go:538-575 | ends at the first probe that is unreadable, completes a quiet run, is out of time or cancelled; at most budget + 1 probes; says which |
| Settle.ReadyExactly | internal/rebinder/rebinder.go:538-575 | ready exactly when readings that last the quiet time count the same endpoints, at least one, and the one before the last is taken before the time is up; otherwise timed out |
| Settle.ConnectExact | internal/rebinder/rebinder.go:650-678 | ends at the first attempt not retried, within the allowed number, with its result |
| Settle.AddressInUseExactly | internal/rebinder/rebinder.go:782-790 | a collision is any error that contains one of the three texts, in any letter case |
| Settle.AlreadyConnectedExactly | internal/rebinder/rebinder.go:755-762 | and likewise an endpoint that is there already |
| Settle.CollisionsAreRetried | internal/rebinder/rebinder.go:650-678 | c such collisions, fewer than the attempts, then any other answer: c + 1 connect calls, success for no error or an endpoint there already, the follower attached when there was none; at once for any other error; no more than the attempts |
| Settle.ParkingExactly | internal/rebinder/rebinder.go:455-493 | maybePark under arbitrary failures: released exactly when it is attached, both reads succeed, the follower is found and nobody else is there |
| Settle.ReattachedExactly | internal/rebinder/rebinder.go:589-644 | reattach under arbitrary failures: its calls in order, and what becomes of the follower and the flag |
| Settle.BootstrappedExactly | internal/rebinder/rebinder.go:306-344 | the startup check calls nothing unless everything is readable and the follower is not attached |
| Settle.SettlesFirst | internal/rebinder/rebinder.go:373-398 | a create event, or a connect event while parked, waits for the network to settle before any call, and calls nothing after an unreadable probe or a cancellation |
| Settle.AttemptWrites | internal/rebinder/rebinder.go:651-671 | one connect call per attempt |
| RebinderWatcher.AlreadyIsSuccess | internal/rebinder/rebinder.go:755-762 | the daemon's text for an existing endpoint is recognised |
| RebinderWatcher.Network.NetworkDisconnect | internal/rebinder/rebinder.go:183-188 | detaches, reports a follower that was not attached, or fails |
| RebinderWatcher.Network.NetworkConnect | internal/rebinder/rebinder.go:176-181 | attaches, reports an existing endpoint, or fails |
| RebinderWatcher.Watcher.CountMembers | internal/rebinder/rebinder.go:438-444 | exactly the endpoints other than the follower, in any order |
| RebinderWatcher.Watcher.InspectMembership | internal/rebinder/rebinder.go:423-446 | the snapshot, from two reads with moves of others between them: attached if it was and is listed, and the number of other endpoints |
| RebinderWatcher.Watcher.MaybePark | internal/rebinder/rebinder.go:455-479 | the parking step, for every outcome of the reads |
| RebinderWatcher.Watcher.ReleaseFollower | internal/rebinder/rebinder.go:484-493 | detached and parked, unless the call fails |
| RebinderWatcher.Watcher.WaitForSettle | internal/rebinder/rebinder.go:538-575 | the loop over last, stable and elapsed computes the specified outcome |
| RebinderWatcher.Watcher.ConnectWithRetry | internal/rebinder/rebinder.go:650-678 | the retry loop computes the specified outcome |
| RebinderWatcher.Watcher.Reattach | internal/rebinder/rebinder.go:589-644 | inspect, list, disconnect, connect, with every early return |
| RebinderWatcher.Watcher.SettleAndReattach | internal/rebinder/rebinder.go:499-517 | reattaches unless cancelled or aborted |
| RebinderWatcher.Watcher.BootstrapRecheck | internal/rebinder/rebinder.go:306-344 | reattaches exactly when everything is readable and the follower is not on the current network |
| RebinderWatcher.Watcher.HandleEvent | internal/rebinder/rebinder.go:366-404 | the dispatch on the head of the stream |
| RebinderWatcher.Watcher.Consume | internal/rebinder/rebinder.go:356-406 | any number of turns |
| RebinderWatcher.RunFromGoodStart | internal/rebinder/rebinder.go:268-292 | the run invariant for the watcher object itself |

## Left out

- Docker SDK adapters, netlink and nftables encodings beyond the register machine, channels, tickers, contexts, mutexes, signals, logging, metrics and health: plumbing; a lookup, clock reading or call result is a parameter.
- `internal/dhcp`, `internal/extiface`, mode selection, the doctor's printing and the rest of the environment loading: single-branch facts.
- How the kernel reverses the translations of hairpin replies is not decided by this code and not modelled.
- Reconciler.WhereIsForwarding: speaks of packets that a guard lets through; a tracked connection is a key and where it was sent, not one of several flows, and a host's own address is taken to be no backend's.
- Reconciler.Conntrack.FlushDestination: which entries the command selects is the doc comment's account, as said above.
- Discovery.BackendEqual: for a backend that repeats a (proto, port), the sort is free in its order and the answer may be either; only one direction is stated then.
- KernelRoutes.Kernel.ReplaceDefaultRoute: one default route per family; further ones with other metrics or interfaces are not modelled.
- KernelRoutes.Kernel.RemoveDefaultRoute: likewise, so which of several routes a deletion takes is not modelled.
- KernelRoutes.Kernel.CurrentGateway: likewise, so it is the family's gateway and not the first of a list.
- DockerWorld.Docker.RecreateWithNetworkMode: its four calls are one step that may stop after any of them; nobody else acts in between.
- Rebinder.RunKeeps: one incarnation of the network, an event stream that never breaks, and no restart of the follower after a reattach.
- Rebinder.HandledKeeps: a destroy event is not part of that; PairingLostExactly says what it does.
- Rebinder.LonelyEchoes: the queue holds no create or destroy event.
- WrapRebinder.NextPollQuiet: the recreates succeed, none is held back, and IDs read as no reference in use.
- Container states are compared by lower-casing; `strings.EqualFold` differs from that only on letters outside ASCII, which no state has.
- Lengths of IDs and references count characters, which are bytes for the ASCII that Docker uses there.
- Autostart: the startup backfill (the same two steps for every running container of one listing), environment order, capabilities and restart policy of the created container, and dependents of rebound dependents.
- Autostart.NoneReferencesOld: IDs are assumed to read as no name in use, and the recipe's target to be no name or ID of the service-anchor.
- `runIPMode`, which applies fixed addresses once with the same two methods, and `pickIPs` of discovery.
- Labels and selectors are strings of characters; invalid UTF-8 is not modelled.
