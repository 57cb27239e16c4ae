# A verified model of zeeder

zeeder is a DNS seeder for Zcash: per network it crawls peers, decides on its own when a network
upgrade has activated, and answers DNS queries with servable peers. This project models three parts of
it in Dafny and proves what they guarantee together.

**Observed activation.** Before an upgrade a seeder accepts peers at the previous protocol version. An
observer samples one peer per network group, probes the sample, and raises the floor only after three
consecutive sweeps of at least twelve groups with three quarters ready, and only after a record of the
decision is on disk.

- `RecordText`, `ActivationTarget`: the record text, a parser that undoes it, the compiled target.
- `Prefixes`: network prefixes on address bits, and that the code's groups are exactly those.
- `ActivationGate`, `GroupSampling`, `Probes`: the gate, the sampler, one sweep.
- `ChainTip`, `ObserverLoop`: the shared tip, the record file and the observer's loop, as classes.
- `ActivationProtocol`: the same protocol as a state machine with crashes, failed reads and writes,
  restarts, attestations, deletions and new builds in any order. `DurableRecord`, `FloorHistory` and
  `SybilBound` hold the theorems over all its runs, and the proof that it agrees with the loop.
- `ObservedRaise`: what stands behind a raised tip, in prefixes and reported heights.
- `SweepTiming`: the spacing of sweeps.

**The servable-peer cache.** `Servability` classifies an entry, `AddressCache` sorts a book into tiers
and fills an answer, `PreferredFill` says exactly which answers can be published and what a floor raise
does to them, and `CacheRefresh` interleaves refreshes, confirmations and queries.

**Zones.** `DomainNames` routes, `ZoneConfig` validates, `RequestHandler` builds zones and answers.

**Together.** `SeederRun` runs the refresh machine beside the activation protocol, on one tip and in one
process, with the observer's raise as the cache's only confirmation. `ServedAnswers` adds the zones: what
a client is told, traced to the book, the tip and the record on disk.

`Prelude`, `Permutations` and `Addresses` are shared. Check everything with
`dafny verify dfyconfig.toml`.

## How the program is modelled

- A shuffle is a permutation of positions given as a parameter, and a hash map is iterated in any order
  given as a parameter, so theorems for all of them hold for every random choice.
- Probe results, the order in which probe tasks finish, whether reads and writes succeed, and every
  state of the address book are parameters. A write of the record is atomic: it replaces the text or
  changes nothing. A write handed to the blocking pool may still land after its process is gone.
- A book entry is seen as it stands under one lock at one clock reading. The peer version table is any
  monotone function of the tip height.
- In the state machine the record file is kept as the three numbers its text parses to;
  `ActivationTarget.MatchIsNumeric` shows that a startup can learn nothing else from the text.
- The DNS library's name parser is a parameter. `zone_of` is taken to be suffix on labels. `num_labels`
  is taken either to count every label or to leave out a leading `*`; the theorems cover both readings.
- A network's activation height is any 32-bit number. The two networks the program knows have positive
  ones, and durability before visibility is proved for those; at height zero a process would start
  raised without a record (`DurableRecord.ZeroHeightNeedsNoRecord`).
- `usize` is 64 bits wide. The constants 3 s for a handshake and 119 s for the reconnection delay are
  those behind the documented 125 s between sweeps.

## Where the code is weaker than its documentation

- Sweeps are documented to be at least 125 s apart, so that a peer's 119 s reconnection delay is
  respected. A sweep that starts late is followed by one back on the grid, which can be sooner.
  `SweepTiming.DelayIsRespectedIff` gives the exact condition for a whole run to respect the delay, and
  `SweepTiming.LateSweepBreaksSpacing` a run in which a stalled write leads to a violation.
  (`SweepTiming.SpacingHoldsIff` is the condition for two sweeps to be a whole period apart, which is
  more than 125 s when the target spacing is.)
- `matching_zone` is documented to return the most specific zone. If label counts leave out a leading
  `*`, that holds exactly when every listed wildcard child of a listed zone follows it
  (`DomainNames.RoutesToMostSpecificIff`, with a list that fails in
  `DomainNames.WildcardZoneLosesToParent`). Validated zones are disjoint and always meet the condition.
  Under the same count the wildcard child of a zone is answered like its apex
  (`DomainNames.EqualCountIsApex`), validated or not.

## Documented behaviour, stated exactly

- A record that is absent, mismatched or unreadable does not confirm a startup, so the floor returns to
  the previous one. `FloorHistory.StartLowersFloorIff` says exactly when a startup lowers the floor,
  whatever happened to the record before it, and `FloorHistory.RestartLowersFloorIff` does for a crash and
  restart in any run. While the record is kept, only a failed read is left
  (`FloorHistory.KeptRecordFailsOnlyByRead`).
- A build whose target no longer matches the record ignores it.
  `FloorHistory.RetunedBuildKeepsConfirmationIff` is the exact condition for a build with an unchanged
  activation height.
- A raise reaches DNS with the next refresh. A refresh already under way may still publish once at the
  old floor (`SeederRun.FirstPublicationCanBeStale`), and none after it does
  (`SeederRun.RaiseReachesAnswers`).
- ADR 0007 samples groups first and then one peer of each; the code elects a peer of every group first.
  `GroupSampling.BothOrdersReachTheSameSamples` shows that both orders reach the same samples, and
  `GroupSampling.GroupListsAreFair` and `GroupSampling.ChoicesAreFair` that neither groups nor peers of a
  group are preferred, jointly and not only one at a time.
- A group-supermajority can confirm falsely. `SybilBound.MinorInEverySampleIff` gives the exact share of a
  book below which no sample can contain one.

## Model

| member | source | states |
|---|---|---|
| RecordText.RenderParseRoundTrip | src/crawl/activation.rs:110-115 | Parsing undoes rendering for all numbers, and the parser accepts a text exactly when it is the rendering of its result |
| RecordText.RenderIsInjective | src/crawl/activation.rs:110-119 | Two records are the same text exactly when they are the same three numbers |
| RecordText.RenderHoldsLines | src/crawl/activation.rs:110-115 | The record is three lines, activation_height, confirmation_height and minimum_protocol_version, each with its own number |
| ActivationTarget.TargetInNumbers | src/crawl/activation.rs:94-108 | The target in the network's own numbers: confirmation 1000 blocks past activation held within 32 bits, the height before activation, the version required at activation, and which number goes into which field of the record |
| ActivationTarget.RecordConfirmsNetwork | src/crawl/activation.rs:110-119 | A text is a network's record exactly when its three lines hold the activation height, the height 1000 blocks past it and the version required there |
| ActivationTarget.MatchIsNumeric | src/crawl/activation.rs:117-119 | A text confirms a target exactly when it parses to the target's three numbers |
| ActivationTarget.MatchIsSameTarget | src/crawl/activation.rs:94-119 | Between compiled targets a match means the whole target is equal, and activation height and version decide that |
| ActivationGate.SaturationOnlyMattersAtTheTop | src/crawl/activation.rs:355-357 | For all usize inputs the saturating comparison differs from the exact one only when the ready side saturates |
| ActivationGate.QuorumIsExact | src/crawl/activation.rs:49-60 | For sweeps of at most 64 groups the quorum is exact, and a qualifying sweep has nine ready groups |
| ActivationGate.QualifyingSuffixIsLongest | src/crawl/activation.rs:59-60 | The counted suffix is the longest unbroken run of qualifying sweeps at the end of the history |
| ActivationGate.StepFollowsHistory | src/crawl/activation.rs:354-366 | The counter is the suffix length held at 255, and it confirms exactly when the last three sweeps qualify |
| ActivationGate.Gate.Observe | src/crawl/activation.rs:352-371 | One observation appends to the history, keeps the counter tied to it, and returns whether the last three qualify |
| Prefixes.SameGroupIffSamePrefix | src/crawl/activation.rs:339-350 | On the bits of two addresses: one group exactly when both are IPv4 with equal leading 16 bits or both IPv6 with equal leading 32 |
| Prefixes.PrefixesCountGroups | src/crawl/activation.rs:339-350 | Any selection of peers has as many prefixes as groups |
| GroupSampling.ElectedIsFirst | src/crawl/activation.rs:401-406 | A group elects exactly when it has a candidate, and it elects its first one in shuffle order |
| GroupSampling.SampleNetworkGroupCandidates | src/crawl/activation.rs:398-412 | The sampler returns candidates of pairwise different IPv4 /16s and IPv6 /32s, min(64, number of such prefixes) of them, and exactly those the two shuffles and the map order determine |
| GroupSampling.SampleGroups | src/crawl/activation.rs:408-411 | The groups of a sample are the second shuffle of the group list, truncated; the election has no part in it |
| GroupSampling.SampleIsSound | src/crawl/activation.rs:397-412 | Every sample has pairwise distinct groups and prefixes, min(64, number of groups) = min(64, number of prefixes) of them, and only candidates |
| GroupSampling.EverySampleIsReachable | src/crawl/activation.rs:397-412 | Every such choice of groups and representatives is produced by some shuffles, under every map order |
| GroupSampling.BothOrdersReachTheSameSamples | docs/adr/0007-observed-network-upgrade-activation.md:17 | Drawing the groups first and then a peer of each reaches exactly the samples that the code's order reaches |
| GroupSampling.ElectionIsSymmetric | src/crawl/activation.rs:399-406 | Exchanging two candidates of a group in the shuffle exchanges who is elected, and changes no other group |
| GroupSampling.ElectionIsFair | src/crawl/activation.rs:397-406 | Two candidates of one group are elected by equally many of all shuffles |
| GroupSampling.ChoicesAreFair | docs/adr/0007-observed-network-upgrade-activation.md:17 | Any two choices of one candidate for each of the same distinct groups are elected together by equally many of all shuffles |
| GroupSampling.TruncationIsFair | src/crawl/activation.rs:408-411 | Any two groups of the book are sampled under equally many of all second shuffles, whatever the election and the map order |
| GroupSampling.GroupListsAreFair | docs/adr/0007-observed-network-upgrade-activation.md:17 | Any two full ordered lists of groups of the book are sampled under equally many of all second shuffles: the draw of the groups is uniform |
| GroupSampling.ShufflesDecideSeparately | src/crawl/activation.rs:398-412 | A sample comes out exactly when the second shuffle draws its groups and the first elects its peers; neither has a say in the other's part |
| GroupSampling.AddressCountsDoNotChangeGroups | src/crawl/activation.rs:397-412 | Books with the same groups give samples with the same groups, however many addresses each group has |
| Probes.ReadyMeansAllConditions | src/crawl/activation.rs:546-579 | A probe is ready exactly when the peer answered with enough height, the target version and NODE_NETWORK; otherwise the first unmet condition is reported |
| Probes.ReadyIffReportsActivation | src/crawl/activation.rs:97-102 | A probe is ready exactly when the peer answered with a height at least 1000 blocks past the activation, at least the version required there, and NODE_NETWORK |
| Probes.ObserveSweep | src/crawl/activation.rs:414-454 | For every join order the evidence has all sampled peers in the total, and counts exactly those that answered at the confirmation height with the required version as full nodes |
| Probes.EvidenceCountsGroups | src/crawl/activation.rs:421-453 | With one peer per group the evidence counts sampled groups and groups whose peer was ready |
| ChainTip.SeederChainTip.constructor | src/crawl/chain_tip.rs:37-50 | The tip starts at the activation height when confirmed and just below it otherwise |
| ChainTip.SeederChainTip.ConfirmActivation | src/crawl/chain_tip.rs:53-57 | The shared height becomes the larger of itself and the activation height |
| ChainTip.UpgradeKeepsFloor | src/crawl/chain_tip.rs:36-42 | A build for a later activation whose table extends the old one starts at no lower floor than the old one had confirmed |
| ObserverLoop.ConfirmationFile.Persist | src/crawl/activation.rs:581-594 | A write succeeds exactly with a cache directory and a working disk, and then the file holds the target's three numbers line by line |
| ObserverLoop.ConfirmationFile.Load | src/crawl/activation.rs:132-156 | A startup is confirmed exactly when the file is readable and its three lines hold the target's numbers |
| ObserverLoop.ConfirmationFile.Attest | src/crawl/activation.rs:164-191 | An attestation succeeds exactly when it asserts the network's activation height, the height 1000 blocks past it and the version required there, and can write; then the file holds those lines; each refusal has its own error and changes nothing |
| ObserverLoop.SweepOnce | src/crawl/activation.rs:373-395 | One turn counts min(64, number of prefixes servable at the pre-activation floor) groups and exactly the probes that reported the activation |
| ObserverLoop.TakeTurn | src/crawl/activation.rs:229-291 | One pass ends the loop exactly when the last three sweeps qualify and the record was written; only then do the tip and the file change |
| ObserverLoop.ConfirmingSweepIsFirst | src/crawl/activation.rs:266-277 | The loop ends at the first sweep that closes three qualifying ones and whose write succeeds, and never when there is none |
| ObserverLoop.ObserveActivation | src/crawl/activation.rs:202-292 | The loop raises the tip at that sweep with the record written, and otherwise leaves tip and file alone |
| ObserverLoop.RunNetworkCrawler | src/seeder.rs:103-161 | Load, build the tip, hand a clone to the cache, observe: the clone's tip stands raised exactly when loaded, confirmed or at height zero, and a positive raised height always has its record on disk |
| ActivationProtocol.RunKeepsInvariant | src/crawl/activation.rs:224-291 | In every reachable state of every run the counter, the phase and the tip are determined by this life's sweeps and their writes |
| ActivationProtocol.TipRisesAtFirstWrittenSweep | src/crawl/activation.rs:266-290 | In every run the tip rises at the first sweep of the same life that closes three qualifying ones and whose write succeeds; a failed write keeps the count, a crash loses it |
| DurableRecord.DurableBeforeVisible | src/crawl/activation.rs:270-279 | In every run a raised tip at a positive height has a matching record that was loaded at this process's start or on disk in this life before the raise |
| DurableRecord.StartIsConfirmedIff | src/seeder.rs:103-124 | A startup stands confirmed exactly when the file was readable and holds the compiled record, or the height is zero |
| DurableRecord.DeletionForcesObservation | docs/network-upgrades.md:104 | After the record is deleted the next process starts below the activation with nothing counted |
| DurableRecord.AttestationConfirmsIff | src/crawl/activation.rs:164-191 | An attestation confirms the next start exactly when its three numbers are the compiled ones, unless the record did already |
| DurableRecord.PendingWriteOutlivesCrash | src/crawl/activation.rs:587-593 | After a crash during the write, the write handed over decides whether the next process starts confirmed |
| DurableRecord.ZeroHeightNeedsNoRecord | src/crawl/activation.rs:99 | At activation height zero a process starts raised with no record anywhere |
| DurableRecord.NoCacheNoRaise | src/crawl/activation.rs:581-584 | Without a cache directory no run raises the tip |
| DurableRecord.MachineFollowsLoop | src/crawl/activation.rs:229-291 | The state machine and the loop confirm at the same sweep, with the same tip and record |
| DurableRecord.StartedMachineFollowsLoop | src/seeder.rs:106-161 | From any startup: a process that loads its record stays as it started, and any other raises its tip at the loop's confirming sweep with the record written, or keeps waiting |
| FloorHistory.FloorNeverDrops | src/seeder.rs:106-126 | Over any run of crashes, restarts, attestations and newer builds with a kept, readable record, the enforced floor never decreases |
| FloorHistory.StartLowersFloorIff | src/crawl/activation.rs:132-156 | Whatever happened to record and cache in between, a startup of the same build enforces less than an earlier process did exactly when it loads no record, that process's tip was raised and the two floors differ |
| FloorHistory.RestartLowersFloorIff | src/crawl/activation.rs:132-156 | In every run a crash and restart lowers the floor exactly when the record does not load (absent, mismatched, unreadable or no cache), the tip was raised and the two floors differ |
| FloorHistory.KeptRecordFailsOnlyByRead | src/crawl/activation.rs:146-155 | For a confirmed process whose record is kept, a restart lowers the floor exactly when it cannot read the record, given a raised tip and two different floors |
| FloorHistory.FailedReadLowersFloor | src/crawl/activation.rs:148-154 | A reachable confirmed process whose restart fails to read the record loses its floor, with the record still on disk |
| FloorHistory.RetunedBuildKeepsConfirmationIff | src/crawl/activation.rs:138-145 | A build with the same activation height keeps the confirmation exactly when it requires the same version |
| FloorHistory.DisabledCacheForgets | src/crawl/activation.rs:133-135 | A build installed with the cache disabled starts unconfirmed whatever the record holds |
| SybilBound.SweepCountsGroups | src/crawl/activation.rs:354-362 | A sweep qualifies exactly when twelve groups took part and three quarters of them had their elected peer ready |
| SybilBound.MinorShareNeverQualifies | src/crawl/activation.rs:354-362 | A sweep in which only a minority of the sampled groups reports the confirmation height does not qualify |
| SybilBound.MajorShareCanQualify | src/crawl/activation.rs:354-362 | The bound is tight: three quarters of a large enough sample suffice |
| SybilBound.SmallBookIsSampledWhole | src/crawl/activation.rs:398-412 | A book of at most 64 groups is sampled whole, so shares in the sample are shares in the book |
| SybilBound.MinorInEverySampleIff | src/crawl/activation.rs:398-412 | Every sample the shuffles can draw gives a set of groups a minor share exactly when it holds less than three quarters of the places a sample of this book has, or there are fewer than twelve |
| SybilBound.NoQualifyingSweepNeverConfirms | src/crawl/activation.rs:229-291 | Over every run, as long as no sweep qualifies the tip is not raised and the record not written |
| SybilBound.MinorityNeverConfirms | src/crawl/activation.rs:229-291 | Over every run, a minority in each sample never gets the tip raised or the record written |
| SybilBound.MinorityOfBooksNeverConfirms | src/crawl/activation.rs:229-291 | Over every run and for all outcomes of the shuffles, a minority in each sweep's book never gets the tip raised or the record written |
| ObservedRaise.QualifiesIffQuorum | src/crawl/activation.rs:354-362 | A sweep qualifies exactly when twelve prefixes took part and three quarters of them reported the activation; then at least nine different prefixes did |
| ObservedRaise.RaiseHadThreeQuorums | docs/adr/0007-observed-network-upgrade-activation.md:17-20 | Behind every raised tip of every run stands a record loaded at this start, or three consecutive sweeps in each of which twelve prefixes took part and three quarters reported at least 1000 blocks past activation |
| ObservedRaise.FewPrefixesNeverConfirm | src/crawl/activation.rs:229-291 | An operator of fewer than nine prefixes, with any number of addresses, never gets the tip raised or the record written over any run, while all others stay below the height |
| SweepTiming.SweepInterval | src/crawl/activation.rs:302-307 | The period is at least 125 s and at least the target spacing, and is one of the two |
| SweepTiming.SpacingHoldsIff | src/crawl/activation.rs:224-230 | Two consecutive sweeps are a period apart exactly when the first started on the grid or its body took a period |
| SweepTiming.DelayIsRespectedIff | src/crawl/activation.rs:62-71 | In a whole run all acceptances of different sweeps are the reconnection delay apart exactly when every sweep but the last starts close enough to the grid or takes long enough |
| SweepTiming.TimelySweepsKeepSpacing | src/crawl/activation.rs:224-230 | With timely bodies sweeps i and j start exactly j - i periods apart |
| SweepTiming.AcceptancesRespectReconnectionDelay | src/crawl/activation.rs:62-71 | With timely bodies any probe acceptances of two sweeps are at least the reconnection delay apart |
| SweepTiming.LateSweepBreaksSpacing | src/crawl/activation.rs:226 | A stalled write of the third sweep brings the next two sweeps closer than the reconnection delay allows |
| Servability.FirstApplicableReason | src/crawl/servability.rs:38-106 | The reported reason is the first of the seven that applies, and a peer is servable exactly when none does |
| Servability.ServableIff | src/crawl/servability.rs:80-106 | A peer is served exactly when, on the attributes of its entry and the bits of its address, it is routable, on the default port, recently live, at the floor, a full node, outbound and without misbehaviour |
| Servability.ReportedIsFirstReason | src/crawl/servability.rs:80-106 | Each reason is reported exactly for the entries whose first condition in the documented order it is |
| Servability.RaisingTheFloor | src/crawl/servability.rs:90-95 | Raising the floor removes exactly the accepted peers below it |
| AddressCache.ComputeServablePeers | src/crawl/address_cache.rs:115-179 | The gauges count the entries of each family that may be served, every reason counts the entries whose first applicable reason it is, and the published families are the fill of the tiers |
| AddressCache.ShuffledVersionPreferredPeers | src/crawl/address_cache.rs:181-191 | For disjoint tiers the published list is free of duplicates, has min(25, target + fallback) peers of the two tiers, and holds a fallback peer only after every target peer |
| AddressCache.EveryEntryIsCountedOnce | src/crawl/address_cache.rs:131-161 | The tiers and the seven reasons add up to the entries of the book |
| AddressCache.TierMember | src/crawl/address_cache.rs:131-145 | An address is in a tier exactly when some entry with it meets all conditions of being served, is of the family, and has negotiated the target version or not |
| AddressCache.TiersAreDisjoint | src/crawl/address_cache.rs:139-144 | The two tiers of a family share no address and repeat none |
| PreferredFill.PublishableIsPreferring | src/crawl/address_cache.rs:181-191 | The answers some shuffles publish are exactly the full, duplicate-free ones that spend fallback peers only after every target peer |
| PreferredFill.RaiseRemovesFallbackTier | src/crawl/address_cache.rs:131-148 | On the same book a raise keeps both target tiers and empties both fallback tiers |
| PreferredFill.RaiseKeepsAnswersIff | src/crawl/address_cache.rs:175-191 | A raise leaves a family's publishable answers unchanged exactly when it has 25 target peers or no fallback peer |
| PreferredFill.ConfirmationKeepsAnswersIff | src/crawl/address_cache.rs:69-70 | The same between the floors of the two tips: a confirmation keeps the target tier, empties the fallback tier, and leaves a family's publishable answers unchanged exactly when it had 25 target peers or no fallback peer |
| PreferredFill.ObserverAndCacheAgree | src/crawl/activation.rs:386-391 | While the tip is unconfirmed the observer's candidates are the cache's four tiers together, with multiplicity |
| CacheRefresh.RefreshOnce | src/crawl/address_cache.rs:65-98 | An undisturbed refresh publishes the snapshot of the book at the tip it read |
| CacheRefresh.AnswersAreVouched | src/crawl/address_cache.rs:65-98 | In every interleaving an answer has at most 25 addresses of its family, each accepted in the locked book at the floor that refresh read |
| CacheRefresh.AtMostOneStaleSnapshot | src/crawl/address_cache.rs:69-98 | From the second publication after a confirmation on, every answered address met the target version |
| CacheRefresh.ConfirmedFromTheStart | src/crawl/address_cache.rs:69-98 | A cache whose tip starts at the activation height never publishes an older floor |
| SeederRun.ObserverPartIsRun | src/seeder.rs:151-163 | Leaving the cache's steps out, a run of the whole crawler is a run of the activation protocol |
| SeederRun.CachePartIsRun | src/seeder.rs:151-163 | Within one process the cache goes through a run of the refresh machine whose confirmations are the observer's raises |
| SeederRun.RaisedSnapshotHasRecord | src/crawl/activation.rs:270-279 | In every run a snapshot computed at a positive activation height has a record that was loaded at the start or on disk before the tip rose |
| SeederRun.RaiseReachesAnswers | src/crawl/address_cache.rs:69-98 | From the second publication after the observer's raise on, every address given out met the target version |
| SeederRun.FirstPublicationCanBeStale | src/crawl/address_cache.rs:69-98 | Three qualifying sweeps and a raise can fall into one refresh, which then publishes at the old floor |
| SeederRun.ConfirmedStartServesTarget | src/seeder.rs:106-156 | A process that loads its record gives out target-version peers only, from its first publication on |
| SeederRun.ServedFloorNeverDrops | src/crawl/address_cache.rs:69-98 | With a kept, readable record the floor behind the published answers never drops, over refreshes, crashes, restarts and newer builds; every address given out later met every floor served earlier |
| DomainNames.LowerForgetsCase | src/dns/request_handler.rs:80-98 | Two names are lower-cased alike exactly when they differ in nothing but the case of ASCII letters |
| DomainNames.EqualCountIsApex | src/dns/request_handler.rs:132-134 | Inside a zone equal label counts mean the apex, except for the wildcard child when a leading wildcard is not counted |
| DomainNames.DisjointMeansOneZonePerName | src/config.rs:355-370 | Domains are pairwise disjoint exactly when no name lies in two of them |
| DomainNames.MatchingZone | src/dns/request_handler.rs:249-254 | Nothing when no zone contains the name, otherwise the last containing zone with the most labels |
| DomainNames.OnlyZoneIsRoute | src/dns/request_handler.rs:245-254 | With disjoint zones a name is routed to a zone exactly when that zone contains it |
| DomainNames.RoutingIgnoresOrder | src/dns/request_handler.rs:249-254 | Rearranging disjoint zones does not change where a name is routed |
| DomainNames.RoutesToMostSpecificIff | src/dns/request_handler.rs:245-254 | Every name is routed to a zone none longer contains it, exactly when all labels are counted or every wildcard child in the list follows its parent; disjoint lists always do |
| DomainNames.RouteIsLongestMatch | src/dns/request_handler.rs:245-254 | Under that exact condition every containing domain is a suffix of the chosen one, unique up to equal domains |
| DomainNames.WildcardZoneLosesToParent | src/dns/request_handler.rs:249-254 | A list that fails the condition, which validation refuses: a wildcard zone loses its own name to its parent |
| ZoneConfig.AcceptedMeansAllGood | src/config.rs:140-159 | A zone is accepted exactly when its domain, its primary and every additional nameserver parse, every nameserver is outside, and no two are equal up to case |
| ZoneConfig.VerdictNamesCulprit | src/config.rs:140-159 | A refusal is true of the nameserver it names: 0 for the primary and k + 1 for the additional nameserver k |
| ZoneConfig.RootIsNeverAccepted | src/config.rs:187-197 | The root domain is refused whatever the nameservers |
| ZoneConfig.FirstFaultIsFirst | src/config.rs:152-156 | The verdict is the fault of the first faulty nameserver, and none exactly when all are good |
| ZoneConfig.ValidateNameserver | src/config.rs:199-211 | Given the set of all earlier names it finds exactly the fault of this nameserver in the whole list, and otherwise leaves the set of all names up to this one |
| ZoneConfig.ValidatedDomain | src/config.rs:140-159 | The loop returns the lower-cased domain exactly for acceptable settings, and otherwise exactly the first fault |
| ZoneConfig.EnsureZonesAreDisjoint | src/config.rs:357-370 | The nested loop accepts exactly the pairwise disjoint lists and otherwise reports the first overlapping pair |
| ZoneConfig.Validate | src/config.rs:335-352 | Accepts exactly the good configurations, and each error is reported when all earlier checks passed |
| ZoneConfig.GoodMeansAcceptable | src/config.rs:335-352 | The zones of a configuration are good exactly when there are some, each is acceptable by its own settings, and their domains are disjoint |
| RequestHandler.NewSeedZone | src/dns/request_handler.rs:70-112 | Builds exactly the acceptable zones whose mailbox is accepted: NS record 0 is the primary, record k + 1 the additional nameserver k, for every k, and the SOA names the primary, hostmaster, serial 1 and the timers 3600, 600, 86400 |
| RequestHandler.ConfigAndConstructionAgree | src/dns/request_handler.rs:78-103 | Validation and construction refuse with the same error; construction accepts the rest unless the synthesized mailbox is refused; no nameserver repeats in the NS set |
| RequestHandler.AddressAnswers | src/dns/request_handler.rs:126-193 | Address records appear exactly at the apex, for an address type whose family has peers, and are that family in order |
| RequestHandler.MetadataAnswers | src/dns/request_handler.rs:149-193 | NS and SOA at the apex give the zone's records; everything else gives no answer and exactly the SOA |
| RequestHandler.AnswerPartition | src/dns/request_handler.rs:126-193 | Over every name and type the response is authoritative: REFUSED without records exactly when no zone contains the name; addresses exactly for an A or AAAA query of a zone's own name whose family has peers, and then those peers; NS or SOA at the apex; otherwise no answer and exactly that zone's SOA |
| RequestHandler.ResponseIgnoresCase | src/dns/request_handler.rs:335-360 | Queries that differ in case only get the same response |
| RequestHandler.AnswerRequest | src/dns/request_handler.rs:308-373 | A limited client gets nothing, every response sent is authoritative, and with disjoint zones the response to the first query obeys the partition |
| ServedAnswers.ServedAddressesAreVouched | src/dns/request_handler.rs:335-359 | In every interleaving the handler answers an address query authoritatively with records of its type only, each for a peer that met every condition of being served at the floor the publishing refresh had read |
| ServedAnswers.RaiseReachesClients | src/dns/request_handler.rs:335-359 | From the second publication after a raise on, the handler's responses for the zone are authoritative, every address in them met the target version when its book was locked, and the record was durable before the tip rose |
| ServedAnswers.ConfiguredZonesPartition | src/config.rs:341-345 | Zones built from validated settings receive exactly the names they contain, and their responses partition all queries |

## Left out

- zebra-network: the address book's own rules, handshakes and bans; a book is any sequence of entries.
- The DNS library: name parsing, wire encoding and record length limits; SOA mailbox synthesis is a parameter that accepts or refuses.
- The rate limiter: a parameter that allows or limits the client.
- Probes.OfHandshakeError: beyond "never ready", which error gets which metric label is not stated.
- SweepTiming.TimelySweepsKeepSpacing: times are whole seconds; the timer's few milliseconds of tolerance for a late tick are not modelled.
- CacheRefresh.RefreshOnce: the end of the refresh loop when every receiver is gone is not modelled, since no query follows it.
- Probability: fairness is stated as equal numbers of shuffles, not as probabilities, and peer heights are unauthenticated.
- Metrics, logging, health endpoint, command line, configuration loading, sockets and signals.
- Mutex poisoning: recovery hands out the same book, so nothing changes in the model.
- Several networks in one process: `SeederRun` follows one; they share the listener and nothing else.
- The deployment scripts.
