# Portal relay: a verified model

This project models the parts of the Portal relay whose correctness rests on more than one function, and proves what
they keep over every run. All of it is Dafny; `dafny verify dfyconfig.toml` checks the whole project.

- **Lease registry** (`LeaseState`, `LeaseRuns`, `LeaseRegistry`, `BridgeSafety`, `ChallengeSafety`, `HostnameSafety`):
  challenges, leases, identity access decisions and the bridges of a lease.
- **Port pool** (`PortPool`, `PortRuns`): free, used and held-back ports with owners and grace periods.
- **Static cache** (`StaticCache`, `CacheManager`, `CacheWorld`, `CacheSafety`, `Revocation`): uploads staged outside the
  lock, published under a generation, retired, read and collected; and how revocation in the registry reaches the cache.
- **Relay discovery set** (`RelayState`, `RelayBook`, `RelayRuns`, `RelayTrust`, `RelayClock`, `RelayCredit`,
  `DiscoverySet`): rollback anchors, trust, bans and caps.
- **Relay ranking and selection** (`MolsGrid`, `MolsScore`, `Ranking`, `Selection`, `SelectionRuns`).
- **ClientHello capture and connection bindings** (`ClientHello`, `HelloConn`, `Bindings`).
- **Three small algorithms** (`Hostnames`, `EditDistance`, `DerivationPath`).
- `Identity`, `Orders` and `Permutations` hold what these share.

How it is built. Each section of code that runs under a lock is one function on values (`Retire`, `Published`,
`AdmitBridge`, `UpsertDescriptor`, …). A class with the source's fields performs the same section imperatively, loops
included, and its methods promise exactly that function of the old state. The functions are the steps of a state
machine: `Event`, `Enabled`, `Next`, `Step`. A `Run` is any sequence of states joined by steps, so a theorem about runs
covers every interleaving. Where Go walks a map or sorts ties in no fixed order, the order is an argument, and the
theorems hold for all of them. Records, sites and bridges that Go shares by pointer are identifiers into a table.
Time is an integer of nanoseconds, with 0 for the zero time. Clock readings, random identifiers, digests and the verdict
of a signature check are inputs.

Four claims turned out false as one would first write them. In each case the model keeps what the code does, a lemma
gives inputs for which the claim fails, and a lemma says exactly when it holds:

- `Renew` looks the lease up without regard to expiry, so an expired lease that has not been swept can come back with a
  hostname another identity has registered meanwhile (`RenewOfExpiredLeaseCanCollide`, for every short name and any two
  addresses). A renewal is safe exactly when `Register`'s own conflict check would let the lease in
  (`RenewIsSafeExactly`), and runs of such renewals keep hostnames exclusive (`HostnamesAreExclusive`).
- A direct poll can leave a URL verified for an identity other than the one that answered (`PollCreditsAnotherExample`,
  a run of four operations). It does exactly when another identity holds the URL as a candidate in trouble and the
  answer is older than what was accepted from its own identity, before the call or from an item ahead of it in the same
  response (`PollCreditsAnother`, `UncrowdedCondition`). The comment in the code speaks of crediting the reached target.
- The write that fixes a binding may get through only in part; the code then forwards whatever comes next unexamined, so
  another ClientHello than the pinned one can go out (`ShortFixingWriteForwardsAnother`, for every ClientHello that fits
  one record). What was forwarded is the pinned one exactly when the accepted part ends the capture
  (`FixingWriteForwardsExactly`), and then for good (`ForwardedHelloIsThePinnedOne`); if not, it is as long as the caller
  sends the missing bytes next (`ResentHelloIsThePinnedOne`).
- `DeactivateRelayURL` turns an operator's ban into one that ends after a minute (`DeactivationEndsBan`).

The rollback guard of the relay set holds for every operation whose clock reading is not below an earlier one, whatever
the other readings do (`AcceptanceNeverRollsBack`). `ClockBackAllowsRollback` shows that this hypothesis is needed, and
`RollbackExactly` says exactly when an insertion accepts something older.

## Model

| member | source | states |
|---|---|---|
| MolsGrid.GcdLoop | portal/discovery/mols.go:87-95 | the loop equals Euclid's recursion on \|a\| and b, whose value is the greatest common divisor by the next three rows |
| MolsGrid.GcdBezout | portal/discovery/mols.go:87-95 | the gcd is an integer combination of its arguments |
| MolsGrid.GcdDivides | portal/discovery/mols.go:87-95 | the gcd divides both arguments |
| MolsGrid.GcdIsGreatest | portal/discovery/mols.go:87-95 | every common divisor divides the gcd |
| MolsGrid.GcdOneExactly | portal/discovery/mols.go:87-96 | the gcd is 1 if and only if nothing but 1 and -1 divides both |
| MolsGrid.MolsPairValid | portal/discovery/mols.go:86-97 | accepts a pair if and only if m1, m2 and m1-m2 are coprime to the order |
| MolsGrid.EvenOrderAcceptsNoPair | portal/discovery/mols.go:86-108 | no integer pair whatever is accepted at an even order |
| MolsGrid.ScanLoops | portal/discovery/mols.go:121-142 | the nested loops return the first admissible pair in scan order, or none |
| MolsGrid.MolsMultipliers | portal/discovery/mols.go:105-143 | the method chooses as the specification does, for base and variant |
| MolsGrid.BaseChoiceIsValid | portal/discovery/mols.go:131-142 | at every odd order the base choice is an accepted pair |
| MolsGrid.VariantChoiceIsValidAndDiffers | portal/discovery/mols.go:109-129 | at every odd order from 3 the variant choice is accepted and differs from the base pair modulo the order |
| MolsGrid.ChoiceSucceedsExactly | portal/discovery/mols.go:105-143 | a pair is reported usable if and only if the order is odd, and not 1 for the variant |
| MolsGrid.TargetsAreInjective | portal/discovery/mols.go:68-69 | with an accepted pair, different grid cells have different target pairs |
| MolsGrid.TargetsAreSurjective | portal/discovery/mols.go:68-69 | with an accepted pair, every target pair belongs to some grid cell, so the two squares are orthogonal |
| MolsGrid.AcceptedExactlyOrthogonal | portal/discovery/mols.go:84-97 | a pair is accepted if and only if both squares are Latin and they are orthogonal to each other |
| MolsScore.PrimaryTargetRanksFirst | portal/discovery/mols.go:64-82 | the column of the first target scores above all others |
| MolsScore.SecondaryTargetRanksSecond | portal/discovery/mols.go:64-82 | the column of the second target scores above all but the first |
| MolsScore.OthersRankByDistance | portal/discovery/mols.go:71-81 | the other columns rank strictly by cyclic distance from the first target |
| MolsScore.SingleSquareIsInjective | portal/discovery/mols.go:65-67 | the fallback score is free of duplicates in a row |
| MolsScore.ScoreIsInjective | portal/discovery/mols.go:64-82 | no two columns have the same score, in either mode |
| MolsScore.ScoreIsBounded | portal/discovery/mols.go:146-149 | every score lies between 1 and the maximum used for the inversion |
| MolsScore.MaxScoreIsReached | portal/discovery/mols.go:146-149 | that maximum is attained, so it is the exact bound |
| MolsScore.CongestionReversesMirroredRanking | portal/discovery/mols.go:146-149 | the congestion score is not negative, has no duplicates, and orders columns as the mirrored columns in reverse |
| Ranking.ScoresAreDistinct | portal/discovery/mols.go:277-283 | in both modes the columns of a board have different scores |
| Ranking.ModesForgetOrder | portal/discovery/mols.go:169-211 | congestion and non-linearity do not depend on the order of the pool |
| Ranking.SumRTT | portal/discovery/mols.go:182-190 | the loop counts and sums exactly the measured relays |
| Ranking.SumSquares | portal/discovery/mols.go:198-205 | the loop sums the squared deviations of the measured relays |
| Ranking.RTTModes | portal/discovery/mols.go:176-211 | the two flags are those of the exact mean and variance |
| Ranking.Split | portal/discovery/mols.go:285-293 | the loop parts fallback relays from the others and keeps their order |
| Ranking.Promote | portal/discovery/mols.go:295-307 | fallbacks move up, quickest first, until the leading tier has two |
| Ranking.BuildBoard | portal/discovery/mols.go:246-283 | columns by digest and URL, scores by grid position |
| Ranking.RankOneTier | portal/discovery/mols.go:309-346 | a tier by score with the pressure exchange |
| Ranking.RankRelayPool | portal/discovery/mols.go:241-351 | the method returns the specified ranking for every pool |
| Ranking.RankIsPermutation | portal/discovery/mols.go:241-351 | every relay of the pool is ranked, as often as it occurs |
| Ranking.BetterIsTotal | portal/discovery/mols.go:225-235 | the comparison is a strict total order on distinct URLs |
| Ranking.RankForgetsOrder | portal/discovery/mols.go:241-351 | with distinct URLs the ranking does not depend on the order the pool is listed in |
| Ranking.TierIsByScore | portal/discovery/mols.go:321-339 | a tier is strictly by score, except that its first relay gives way exactly when its pressure is higher by more than 0.3 |
| Ranking.TiersAreOrdered | portal/discovery/mols.go:285-307 | only fallbacks are in the second tier, and a promoted fallback is quicker than each of them |
| Ranking.RankOrder | portal/discovery/mols.go:285-351 | the whole ranking: two tiers of known sizes, fallbacks last or promoted by lowest effective RTT, each tier by score |
| Selection.FilterPool | portal/discovery/relayset.go:384-417 | the loop keeps exactly the eligible states, in order |
| Selection.SelectExplicit | portal/discovery/mols.go:359-374 | each usable explicit relay once, in the order asked for |
| Selection.MapStates | portal/discovery/mols.go:394-397 | the map holds the last state of each URL |
| Selection.ApplyActiveStickiness | portal/discovery/mols.go:389-419 | the loops compute the specified reordering |
| Selection.SelectAuto | portal/discovery/mols.go:375-383 | the ranked pool after stickiness, cut to the quota |
| Selection.SelectPriority | portal/discovery/mols.go:354-385 | the method returns the specified selection |
| Selection.StickinessPermutes | portal/discovery/mols.go:387-419 | stickiness is a permutation of a duplicate-free ranking |
| Selection.KeptAreTheFirst | portal/discovery/mols.go:387-419 | the loop with its early break keeps the first healthy active relays that fit, in active order |
| Selection.HealthyActiveLead | portal/discovery/mols.go:376-419 | the automatic part begins with the healthy active relays in active order, and is exactly the first quota of them when they fill it |
| Selection.HealthyActiveAreKept | portal/discovery/mols.go:387-419 | if the healthy active relays of the eligible pool fit the quota, every one of them is selected |
| Selection.SelectionIsSound | portal/discovery/mols.go:354-385 | no duplicates; nothing banned, dead or suppressed; the automatic part within the quota |
| Selection.SelectForgetsOrder | portal/discovery/mols.go:354-419 | the selection does not depend on the order the states are listed in |
| SelectionRuns.OfferedFacts | portal/discovery/relayset.go:356-377 | the states handed on have distinct URLs, and a known URL keeps its known state |
| SelectionRuns.RunSelectsSoundly | portal/discovery/relayset.go:356-380 | the same guarantees for SelectRelays in every reachable state, for every map order |
| SelectionRuns.BannedIsNeverSelected | portal/discovery/relayset.go:474-517 | from a ban until Allow or Deactivate names it, a URL is selected neither automatically nor explicitly |
| SelectionRuns.SelectedWasPolled | portal/discovery/relayset.go:382-417 | whatever is selected automatically was polled directly earlier in the run, or is a bootstrap URL with no observed descriptor on file |
| RelayBook.DiscoverResult | portal/discovery/relayset.go:574-589 | the URLs collected from a response are distinct, and each entry comes from an admissible descriptor of that URL |
| RelayRuns.AcceptedIsNewest | portal/discovery/relayset.go:236-267 | a fresh descriptor older than an accepted one either meets the anchor or has expired |
| RelayRuns.UpsertKeepsAnchored | portal/discovery/relayset.go:304-354 | an upsert keeps the history invariant, whatever it decides |
| RelayRuns.CapKeepsAnchored | portal/discovery/relayset.go:968-975 | sweeping anchors whose window has closed keeps it |
| RelayRuns.ApplyKeepsAnchored | portal/discovery/relayset.go:558-637 | a whole discovery response keeps it |
| RelayRuns.AnchorsHold | portal/discovery/relayset.go:236-354 | the history invariant holds in every run, whatever its clock does |
| RelayRuns.AcceptanceNeverRollsBack | portal/discovery/relayset.go:236-354 | in every run an operation whose reading is not below any earlier one accepts nothing older than what was accepted from the same identity, across URL changes, eviction and forgotten anchors |
| RelayRuns.AcceptedNeverRollBack | portal/discovery/relayset.go:236-354 | if that holds of every operation, the IssuedAt values accepted for one identity never decrease over the run |
| RelayClock.ClockBackAllowsRollback | portal/discovery/relayset.go:968-975 | a run of three insertions, the last at an earlier reading, that accepts an older statement |
| RelayClock.RollbackExactly | portal/discovery/relayset.go:236-267 | in any run, an insertion accepts a statement older than an accepted one of its identity if and only if it is offered, nothing on file opposes it and the anchor left is not newer; then an earlier operation read a time after the newer statement's replay window and this one reads a time within it |
| RelayClock.LaterReading | portal/discovery/relayset.go:968-975 | an accepted statement loses its anchor only to a reading after its replay window |
| RelayTrust.TrustStep | portal/discovery/relayset.go:196-225 | outside a direct poll of u, u is verified afterwards only as the identity it was verified as before |
| RelayTrust.PollFoundDescriptor | portal/discovery/relayset.go:558-608 | a poll that may verify used our protocol and found a fresh signed descriptor of that exact URL |
| RelayTrust.VerifiedWasPolled | portal/discovery/relayset.go:558-637 | in every run a verified entry was polled directly and has kept its identity since |
| RelayCredit.PollCreditsAnother | portal/discovery/relayset.go:600-637 | a direct poll leaves the URL newly verified as another identity than the one that answered if and only if another identity holds it as a troubled candidate, the answer is a rollback against the anchor before the call or against an item ahead of it in the response that nothing on file opposes or whose opponent was evicted before, and neither cap evicts the entry |
| RelayCredit.UncrowdedCondition | portal/discovery/relayset.go:600-637 | when no identity is over its cap, that condition speaks of the set before the call and the response alone |
| RelayCredit.RoundsRaise | portal/discovery/relayset.go:236-267 | the rounds ahead make the answer a rollback if and only if it was one before, or one of them states something newer of its identity and nothing on file opposes it, or what did was evicted |
| RelayCredit.PollCreditsAnotherExample | portal/discovery/relayset.go:610-630 | a run from the empty set, ending in a poll, in which it happens |
| RelayTrust.BarStep | portal/discovery/relayset.go:474-517 | no operation but Allow and Deactivate of that URL ends a ban |
| RelayTrust.BanLasts | portal/discovery/relayset.go:474-517 | a ban lasts through every run until one of them names the URL |
| RelayTrust.DeactivationEndsBan | portal/discovery/relayset.go:507-517 | after deactivation the ban holds at a sweep if and only if the minute has not passed |
| RelayTrust.IdentityCapHolds | portal/discovery/relayset.go:904-930 | at most four candidates of one identity remain, the latest seen; verified, bootstrap and banned entries stay |
| RelayTrust.CapHolds | portal/discovery/relayset.go:968-1010 | at most 1024 entries remain, or none that may be evicted; bootstrap and banned entries stay |
| RelayTrust.EntriesStayFiled | portal/discovery/relaystate.go:64-96 | in every run each entry is filed under its own URL with at most 100 samples, so the scratch array of Get is never overrun |
| DiscoverySet.RelaySet.constructor | portal/discovery/relayset.go:100-113 | the set of bootstrap URLs |
| DiscoverySet.RelaySet.ClearExpiredBans | portal/discovery/relayset.go:160-174 | the loop lifts exactly the expired pool bans |
| DiscoverySet.RelaySet.BanRelayURL | portal/discovery/relayset.go:474-489 | performs the ban step |
| DiscoverySet.RelaySet.AllowRelayURL | portal/discovery/relayset.go:491-503 | performs the allow step |
| DiscoverySet.RelaySet.DeactivateRelayURL | portal/discovery/relayset.go:507-517 | performs the deactivation step |
| DiscoverySet.RelaySet.EnsureRelayURL | portal/discovery/relayset.go:523-531 | performs the ensure step |
| DiscoverySet.RelaySet.RecordDiscoveryRTT | portal/discovery/relayset.go:814-827 | performs the measurement step |
| DiscoverySet.RelaySet.RecordDiscoveryFailure | portal/discovery/relayset.go:1012-1041 | performs the failure step; backing off means banned, or dead with a later refresh |
| DiscoverySet.RelaySet.RecordActiveFailure | portal/discovery/relayset.go:1043-1064 | performs the failure step; backing off means suppressed |
| DiscoverySet.RelaySet.CurrentStates | portal/discovery/relayset.go:116-129 | every state once, after lifting expired bans |
| DiscoverySet.RelaySet.SelectRelays | portal/discovery/relayset.go:356-380 | the specified selection for the order the map was walked in |
| DiscoverySet.RelaySet.FirstOut | portal/discovery/relayset.go:995-1003 | the entry of a pool that is evicted first: candidates before verified, then the oldest |
| DiscoverySet.RelaySet.Evict | portal/discovery/relayset.go:1004-1009 | removes exactly the asked number, and no one stays who goes before one removed |
| DiscoverySet.RelaySet.EnforceIdentityCap | portal/discovery/relayset.go:904-930 | evicts exactly what the identity cap says |
| DiscoverySet.RelaySet.EnforceCap | portal/discovery/relayset.go:968-1010 | lifts bans, sweeps anchors and evicts exactly what the global cap says |
| DiscoverySet.RelaySet.SweepAnchors | portal/discovery/relayset.go:971-975 | the loop forgets exactly the anchors whose window has closed |
| DiscoverySet.RelaySet.ConsultAnchor | portal/discovery/relayset.go:236-253 | drops a stale anchor, else tells whether the descriptor is older |
| DiscoverySet.RelaySet.Upsert | portal/discovery/relayset.go:304-354 | decides and stores as the specification does |
| DiscoverySet.RelaySet.InsertLocked | portal/discovery/relayset.go:866-894 | the part under the lock performs the insertion step |
| DiscoverySet.RelaySet.InsertCandidate | portal/discovery/relayset.go:851-895 | performs the insertion step, with the error the source returns |
| DiscoverySet.RelaySet.Collect | portal/discovery/relayset.go:574-589 | the first loop over a response: URLs in order of appearance, the last descriptor of each |
| DiscoverySet.RelaySet.IngestOne | portal/discovery/relayset.go:600-631 | one round of the second loop, and whether it counts as a change |
| DiscoverySet.RelaySet.IngestFound | portal/discovery/relayset.go:600-636 | the second loop, every eviction according to the identity cap, with its two flags |
| DiscoverySet.RelaySet.ApplyLocked | portal/discovery/relayset.go:570-637 | performs the response step and reports a missing target, a contradiction by the target, and a change, each exactly |
| DiscoverySet.RelaySet.ApplyResponse | portal/discovery/relayset.go:558-657 | a response over one of the three size limits changes nothing; any other performs the response step, reports exactly whether it changed the set, and returns each error exactly for its cause |
| DiscoverySet.BackoffIsPositive | portal/discovery/relayset.go:1035-1036 | a backoff lies between one and five minutes |
| RelayState.AddSample | portal/discovery/relaystate.go:64-69 | a tracker within a hundred samples stays within a hundred |
| ClientHello.Accumulator.constructor | portal/keyless/bindings.go:142-146 | an accumulator that has seen nothing |
| ClientHello.Accumulator.Assemble | portal/keyless/bindings.go:155-197 | the record loop equals the recursive drain |
| ClientHello.Accumulator.AddBytes | portal/keyless/bindings.go:155-197 | add equals its specification, state and outcome |
| ClientHello.DrainMeetsReference | portal/keyless/bindings.go:155-197 | the incremental parser decides what a one-shot reading of the whole stream decides |
| ClientHello.DrainThenAppend | portal/keyless/bindings.go:155-197 | draining, then adding more, is draining all at once |
| ClientHello.ChunkingDoesNotMatter | portal/keyless/bindings.go:155-197 | for every byte stream and every chunking, the first terminal outcome is that of one add of everything |
| ClientHello.CaptureMeetsReference | portal/keyless/bindings.go:155-197 | and it is the one-shot outcome of the reference |
| ClientHello.PayloadOfEncoding | portal/keyless/bindings.go:157-169 | reading back an encoding into records, each with its own version bytes, yields the fragments |
| ClientHello.FragmentedHelloIsCaptured | portal/keyless/bindings.go:155-197 | every ClientHello within the limit, however fragmented into records, is returned exactly when its last record is there |
| ClientHello.ChunkedHelloIsCaptured | portal/keyless/bindings.go:155-197 | and however those bytes are chunked |
| HelloConn.CaptureResumes | portal/keyless/bindings.go:214-241 | what the capture makes of a write is what one parse of everything forwarded and this write makes |
| HelloConn.ShortWriteDoesNotEnd | portal/keyless/bindings.go:234-240 | a short write does not lose or end the capture |
| HelloConn.WriteKeepsInv | portal/keyless/bindings.go:214-241 | every write keeps the accumulator in step with the bytes forwarded, and passes on count and error of the wrapped connection |
| HelloConn.RunKeepsInv | portal/keyless/bindings.go:214-241 | so do all runs of writes |
| HelloConn.HelloIsForwardedOnlyAfterPinning | portal/keyless/bindings.go:214-241 | no complete ClientHello has been forwarded before the binding was fixed |
| HelloConn.FixingWriteForwardsExactly | portal/keyless/bindings.go:226-232 | right after the fixing write, the forwarded bytes carry the pinned ClientHello if and only if they end the capture |
| HelloConn.ForwardedHelloIsThePinnedOne | portal/keyless/bindings.go:214-241 | once the accepted part of the write that fixed the binding ended the capture, the ClientHello forwarded is for good the pinned one |
| HelloConn.ResentHelloIsThePinnedOne | portal/keyless/bindings.go:214-241 | after a short fixing write no other ClientHello goes out while the forwarded stream follows the one that was to be written |
| HelloConn.ShortFixingWriteForwardsAnother | portal/keyless/bindings.go:217-232 | otherwise another one can: a run for every ClientHello that fits one record |
| HelloConn.ValidatedHelloWasForwarded | portal/keyless/bindings.go:66-114 | a successful validation of a ticket that a connection fixed carries the ClientHello pinned there, and the one that connection forwards when the fixing write ended the capture |
| HelloConn.HelloFixingConn.constructor | portal/keyless/bindings.go:201-203 | a connection that has forwarded nothing |
| HelloConn.HelloFixingConn.WriteBytes | portal/keyless/bindings.go:214-241 | Write performs the specified step, with its own errors, short writes and the wrapped connection's error |
| Bindings.BindingRegistry.constructor | portal/keyless/bindings.go:45-47 | an empty registry |
| Bindings.BindingRegistry.IssueBinding | portal/keyless/bindings.go:50-63 | the new entry and nothing else |
| Bindings.BindingRegistry.Fix | portal/keyless/bindings.go:66-84 | pins a live unpinned entry; an empty ClientHello and an unknown, expired or already pinned ticket are refused and change nothing |
| Bindings.BindingRegistry.Validate | portal/keyless/bindings.go:87-114 | decides and consumes as the specification does |
| Bindings.BindingRegistry.Discard | portal/keyless/bindings.go:117-121 | removes the entry |
| Bindings.BindingRegistry.SweepExpired | portal/keyless/bindings.go:124-132 | the loop removes exactly the expired entries |
| Bindings.EntryHistory | portal/keyless/bindings.go:49-132 | a live entry says what its Issue and the one pinning section said |
| Bindings.SpentStaysSpent | portal/keyless/bindings.go:87-132 | a ticket that is gone never returns |
| Bindings.PinnedAtMostOnce | portal/keyless/bindings.go:65-84 | over every interleaving the pin of a ticket is written at most once |
| Bindings.ValidationIsBacked | portal/keyless/bindings.go:86-114 | every success spends a ticket issued to that lease, before it expired, with exactly the pinned ClientHello |
| Bindings.ValidatedAtMostOnce | portal/keyless/bindings.go:86-114 | a ticket validates at most once |
| CacheManager.Manager.constructor | portal/cache/manager.go:50-90 | an empty cache |
| CacheManager.Manager.RetireLocked | portal/cache/manager.go:94-100 | the entry leaves, the site joins the retired ones |
| CacheManager.Manager.Register | portal/cache/manager.go:127-153 | performs the registration section |
| CacheManager.Manager.Renew | portal/cache/manager.go:155-174 | performs the renewal section |
| CacheManager.Manager.Detach | portal/cache/manager.go:176-196 | performs the detachment section |
| CacheManager.Manager.DetachOwner | portal/cache/manager.go:267-285 | a new generation for every lease of the owner, every site of the owner retired |
| CacheManager.Manager.RestampLeases | portal/cache/manager.go:273-279 | the loop gives exactly the owner's leases the new generation |
| CacheManager.Manager.RetireOwned | portal/cache/manager.go:280-284 | the loop retires exactly the owner's sites |
| CacheManager.Manager.Generation | portal/cache/manager.go:255-262 | the generation of the lease, 0 without one |
| CacheManager.Manager.AdmitUpload | portal/cache/http.go:28-36 | the admission section: a site prepared under the lease, or nothing |
| CacheManager.Manager.PublishSite | portal/cache/http.go:198-214 | the publication section: only under the same generation and before expiry, replacing what the host served |
| CacheManager.Manager.AbandonSite | portal/cache/http.go:145-153 | a failed upload is retired |
| CacheManager.Manager.DeleteSite | portal/cache/http.go:37-45 | the DELETE section |
| CacheManager.Manager.ProbeSite | portal/cache/http.go:121-140 | the POST check: an unchanged snapshot is kept, a changed one retired |
| CacheManager.Manager.AcquireSite | portal/cache/manager.go:376-388 | pins a servable site and stamps its use |
| CacheManager.Manager.ReleaseSite | portal/cache/manager.go:390-394 | one reader less |
| CacheManager.Manager.RetireExpired | portal/cache/manager.go:291-296 | the loop retires exactly the expired sites |
| CacheManager.Manager.SplitRetired | portal/cache/manager.go:297-308 | the in-place filter parts the retired sites by whether they are read, in order |
| CacheManager.Manager.CollectBegin | portal/cache/manager.go:287-309 | the first phase hands over exactly the retired sites nobody reads |
| CacheManager.Manager.CollectEnd | portal/cache/manager.go:310-320 | a removed site is no longer charged, a failed one is retired again |
| CacheManager.Manager.DisposeReady | portal/cache/manager.go:310-320 | the second loop, section by section |
| CacheManager.Manager.Collect | portal/cache/manager.go:287-321 | collect run alone: both phases, every charge and every failed removal |
| CacheManager.Manager.FindVictim | portal/cache/manager.go:333-347 | the least recently used site nobody reads, if there is one |
| CacheManager.Manager.EvictOne | portal/cache/manager.go:333-355 | one round retires the least recently used unread site and collects, or finds none |
| CacheManager.Manager.TryCharge | portal/cache/manager.go:326-332 | charges the upload if and only if it fits |
| CacheManager.Manager.Reserve | portal/cache/manager.go:323-356 | run alone it terminates; it goes through a collection and then evicting rounds, charges the upload in the first state in which it fits, and gives up only when every published site is read |
| StaticCache.RoundsShrink | portal/cache/manager.go:323-356 | over all rounds only expired sites and unread ones older than every unread one that stays are given up |
| CacheSafety.StepKeepsInv | portal/cache/manager.go:92-394 | each of the 24 sections keeps the invariant on places, charges and pins |
| CacheSafety.RunKeepsInv | portal/cache/http.go:141-210 | so does every interleaving |
| CacheSafety.BytesAreConserved | portal/cache/manager.go:287-356 | in every run `used` and `snapshots` are the bytes and number of the charged sites, each in exactly one of staging, published, retired and being collected, within the limits |
| CacheSafety.PhasesAreTheSets | portal/cache/manager.go:92-100 | those four phases are the sets the code keeps |
| CacheSafety.ReadersAreSafe | portal/cache/serve.go:15-61 | in every run a site a reader holds has its directory, and no step removes it while it is held |
| CacheSafety.RemoveDirKeepsInv | portal/cache/manager.go:310-320 | nobody holds a site whose directory is being removed outside the lock |
| Revocation.RevokedIsFenced | portal/cache/manager.go:267-285 | after a denial nothing of the owner is published and no upload under way holds its new generation |
| Revocation.RequestStep | portal/api_server.go:630-644 | a request found routable holds a generation no denial has replaced, because it was captured first |
| Revocation.StepKeepsFence | portal/lease.go:197-225 | every section keeps that fence |
| Revocation.NoBlockedContentIsPublished | portal/api_server.go:630-644 | under every interleaving of uploads with deny, suspend and allow, whenever the registry lock is free no published site belongs to a blocked identity |
| Revocation.StaleStaysStale | portal/cache/manager.go:255-285 | a replaced generation is never current again |
| Revocation.CurrentAllAlong | portal/cache/manager.go:255-285 | a generation that is current was so since it was handed out, with the same owner |
| Revocation.DenialReplaces | portal/cache/manager.go:267-285 | the end of a denial makes every generation handed out before stale for the leases of the owner |
| Revocation.DeniedUploadNeverPublishes | portal/cache/http.go:198-210 | once a denial has ended, no upload of the denied identity under a generation from before publishes for the rest of the run, even after re-approval |
| Revocation.ReplacedUploadNeverPublishes | portal/cache/http.go:198-210 | nor does any upload whose generation was replaced, by whatever section |
| PortPool.Allocator.constructor | portal/lease.go:1207-1226 | all ports of a usable range free, in order; none of an unusable one |
| PortPool.Allocator.CleanupExpired | portal/lease.go:1287-1294 | the loop frees exactly the expired reservations |
| PortPool.Allocator.AllocatePort | portal/lease.go:1228-1246 | reclaims the identity's reservation, else hands out the first free port, else none |
| PortPool.Allocator.RollbackPort | portal/lease.go:1252-1266 | undoes an allocation the record still owns |
| PortPool.Allocator.ReleasePort | portal/lease.go:1268-1285 | turns an owned port into a reservation |
| PortRuns.PortsArePartitioned | portal/lease.go:1207-1294 | in every run free, used and reserved ports are exactly the range, each once |
| PortRuns.ReservationLeavesOnly | portal/lease.go:1228-1294 | a reservation changes only by reclaim, expiry or a later release of its identity |
| PortRuns.ReservationOrigin | portal/lease.go:1252-1285 | every reservation has the expiry a release gave it; no rollback extends one |
| PortRuns.NotOwnedStaysNotOwned | portal/lease.go:1228-1246 | a record comes to own a port only by an allocation of its own |
| PortRuns.LateCleanupChangesNothing | portal/lease.go:1252-1285 | a second release or rollback changes nothing, even after the port went to somebody else |
| PortRuns.QueueIsServedInOrder | portal/lease.go:1228-1246 | free ports are handed out from the front of the queue, in order |
| PortRuns.RolledBackPortWaitsItsTurn | portal/lease.go:1252-1266 | a fresh port rolled back is not handed out before every port that was free ahead of it |
| LeaseRegistry.Leases.constructor | portal/lease.go:94-122 | an empty registry |
| LeaseRegistry.Leases.FindByKey | portal/lease.go:347-357 | the first lease of the identity, expired or not as asked |
| LeaseRegistry.Leases.RevokeBridges | portal/record.go:178-186 | the loop cancels every bridge of the record |
| LeaseRegistry.Leases.ApplyIdentityAccess | portal/lease.go:197-225 | the decision and its revocations |
| LeaseRegistry.Leases.SetIdentityAccess | portal/lease.go:157-185 | a decision with an older revision than the last is refused and changes nothing; any other is applied |
| LeaseRegistry.Leases.Admit | portal/lease.go:244-268 | admission, with each refusal in order |
| LeaseRegistry.Leases.Activate | portal/lease.go:275-292 | activation, with each refusal in order |
| LeaseRegistry.Leases.Close | portal/record.go:104-146 | closing cancels every bridge, once |
| LeaseRegistry.Leases.DeleteRecord | portal/lease.go:1112-1123 | swap-delete |
| LeaseRegistry.Leases.ScanRivals | portal/lease.go:520-561 | the scan finds a hostname conflict, the replaced record and the counts |
| LeaseRegistry.Leases.DeleteStale | portal/lease.go:576-585 | the loop that deletes stale records while it walks the list |
| LeaseRegistry.Leases.Register | portal/lease.go:520-593 | performs the registration section |
| LeaseRegistry.Leases.RenewLease | portal/lease.go:713-738 | performs the renewal section, which ignores expiry |
| LeaseRegistry.Leases.UnregisterLease | portal/lease.go:852-880 | performs the removal section |
| LeaseRegistry.Leases.Issue | portal/lease.go:882-931 | drops expired challenges, then adds one within both caps or refuses |
| LeaseRegistry.Leases.CountPending | portal/lease.go:901-916 | the loop deletes while it counts, and counts exactly what stays |
| LeaseRegistry.Leases.Consume | portal/lease.go:936-963 | the trimmed id, if not empty, is looked up; found, unexpired and verified challenges are removed; each failure as in the source |
| LeaseRegistry.Leases.CleanupExpired | portal/lease.go:1005-1039 | removes exactly the expired records and forgets idle decisions |
| LeaseRuns.StepKeepsShape | portal/lease.go:520-593 | every section keeps the shape of the list |
| LeaseRuns.RecordsKeepTheirShape | portal/lease.go:520-593 | in every run each record is a challenge or a lease, never both, and an identity has at most one lease |
| LeaseRuns.DeleteLoopIsIdle | portal/lease.go:576-592 | hence the delete loop removes nothing when a record is replaced, so the replaced index stays valid |
| LeaseRuns.RevisionsNeverDecrease | portal/lease.go:157-185 | in every run the recorded revision never decreases |
| LeaseRuns.OlderDecisionIsIdle | portal/lease.go:157-185 | a decision older than one that took effect does nothing for the rest of the run |
| BridgeSafety.BridgesStayBounded | portal/lease.go:244-268 | in every run a lease has at most 128 bridges and all bridges of a closed one are cancelled |
| BridgeSafety.ClosedLeaseAdmitsNothing | portal/record.go:104-146 | a closed lease admits and activates nothing for the rest of the run |
| BridgeSafety.LiveBridgeHistory | portal/lease.go:157-225 | a bridge that could still activate was admitted, and its identity neither denied nor suspended since |
| BridgeSafety.ActivationIsAuthorized | portal/lease.go:275-292 | every activation: current unexpired lease, routable identity, no denial since admission, even after re-approval |
| ChallengeSafety.CountIsSize | portal/lease.go:901-916 | counting along the list counts the set |
| ChallengeSafety.ChallengesAreCapped | portal/lease.go:882-931 | in every run at most 256 challenges are pending, and 32 of one source |
| ChallengeSafety.ChallengeOrigin | portal/lease.go:882-931 | every challenge record was issued with the challenge it carries |
| ChallengeSafety.ConsumedAtMostOnce | portal/lease.go:936-963 | a challenge is consumed at most once |
| HostnameSafety.RenewIsSafeExactly | portal/lease.go:713-738 | a renewal keeps hostnames exclusive if and only if Register's conflict check would let the lease in |
| HostnameSafety.UnconflictedRenewalIsSafe | portal/lease.go:713-738 | a renewal that would pass the check, or leaves the lease expired, keeps hostnames exclusive |
| HostnameSafety.RenewOfLiveLeaseIsSafe | portal/lease.go:713-738 | a renewal of an unexpired lease is always safe |
| HostnameSafety.RenewOfExpiredLeaseCanCollide | portal/lease.go:713-738 | for every short name and any two addresses, a run with the names Register builds after which two live leases share a hostname |
| HostnameSafety.HostnamesAreExclusive | portal/lease.go:520-593 | in every run in which each renewal that revives a lease would pass Register's conflict check, unexpired leases of different identities share no hostname of the same kind |
| HostnameSafety.LiveRenewalsAreSafe | portal/lease.go:713-738 | renewals of unexpired leases are such renewals, in every run |
| HostnameSafety.NoHostnameIsShared | portal/record.go:68-77 | with the names Register builds, a friendly name is never the other's canonical one |
| HostnameSafety.LeasesShareNoHostname | portal/record.go:68-77 | so two such leases have disjoint sets of hostnames |
| Hostnames.CollapseLoop | utils/utils.go:109-133 | the rune loop equals the specified collapsing |
| Hostnames.LabelIsNormal | utils/utils.go:77-107 | a plain label normalizes to itself |
| Hostnames.NormalizedIsLabel | utils/utils.go:77-144 | whatever is accepted is a plain label of at most 63 octets |
| Hostnames.CanonicalIsLabel | utils/utils.go:417-437 | the canonical label is a label of at most 63 octets (section 2.3.4 of RFC 1035) |
| Hostnames.ShapeCharacterized | utils/utils.go:386-400 | a label has the canonical shape if and only if it is 40 hex digits, alone or after a hyphen |
| Hostnames.FormsNeverCoincide | utils/utils.go:417-437 | the address-only, short-name and hashed forms are never equal |
| Hostnames.ShortFormIsInjective | utils/utils.go:417-437 | the short form determines name and address |
| Hostnames.AddressIsRecovered | utils/utils.go:375-382 | extracting the address of a canonical hostname gives it back unless the root is nothing but a port, and then fails |
| Hostnames.RootWithoutPort | utils/utils.go:214-220 | a root without a colon is more than a port |
| Hostnames.FriendlyIsNeverCanonical | utils/utils.go:342-369 | no accepted service name's hostname is a canonical hostname under the same root |
| Hostnames.BuiltNameIsAccepted | utils/utils.go:342-437 | a lease with a friendly hostname has an accepted service name |
| Hostnames.BuiltNamesNeverCross | utils/utils.go:342-437 | the friendly name of one lease is never the canonical name of another |
| EditDistance.EditIsClose | cmd/relay-server/config.go:238-256 | one insertion, deletion or replacement anywhere changes the distance by at most one |
| EditDistance.DistanceIsLowerBound | cmd/relay-server/config.go:238-256 | no chain of single edits is shorter than the distance |
| EditDistance.DistanceIsReached | cmd/relay-server/config.go:238-256 | some chain of single edits is exactly that long |
| EditDistance.FillRow | cmd/relay-server/config.go:246-252 | the inner loop fills the row by the recurrence |
| EditDistance.ComputeDistance | cmd/relay-server/config.go:238-256 | the two-row loop with swapping returns the distance |
| EditDistance.PickNearest | cmd/relay-server/config.go:229-235 | the running best is the first of the nearest below the limit |
| EditDistance.NearestEnvName | cmd/relay-server/config.go:221-236 | the alphabetically first nearest name below the threshold, else the empty string |
| DerivationPath.ParsePrintedComponent | portal/identity/mnemonic.go:95-112 | a printed component reads back as itself; hardened indices start at 2^31 ("Extended keys" of BIP 32) |
| DerivationPath.ReadComponent | portal/identity/mnemonic.go:96-110 | one component, with its refusals |
| DerivationPath.ReadComponents | portal/identity/mnemonic.go:95-113 | the loop reads all components or refuses |
| DerivationPath.ParseDerivationPath | portal/identity/mnemonic.go:76-114 | the method equals the specified parser for every input |
| DerivationPath.Print | portal/identity/mnemonic.go:116-131 | the builder loop equals the specified text |
| DerivationPath.ParseOfText | portal/identity/mnemonic.go:76-131 | parsing a printed path gives it back for every non-empty path of 32-bit components; "m" alone is refused |
| DerivationPath.TextIsNormalForm | portal/identity/mnemonic.go:76-131 | the text of any accepted input means the same path and prints as itself |

## Left out

- Signatures, tokens, JWT, secp256k1, HMAC and SHA-256: their verdicts and values are inputs; hash collisions are assumed away.
- HTTP handlers beyond their order of effects, TLS, QUIC, yamux, DNS, ACME, file contents, the SDK, command line and front end.
- The `incompatible` and `releaseVersions` maps of the relay set: they only tell an operator what was seen.
- `Descriptors`, `BootstrapRelayURLs`, `PublicLeases`, `PolicyLeases`, `Lookup` and `stats`: read-only listings of the modelled state.
- `refuseChallengeOverBudget`, `stalePin`, certificate checks, `attachReverseMux`, and the slots that limit parallel uploads and checks.
- `bpsLimiter`: its byte bound is only approximate in floating point.
- Ranking.RTTModes: uses exact reals where the source uses float64, because rounding is not the point; the same holds for percentiles and pressure.
- Ranking.RankRelayPool: sorts stably; with equal URLs in one pool, which the callers exclude, `slices.SortFunc` may order ties differently.
- MolsGrid.MolsMultipliers: integers are unbounded; the source's products stay far below 64 bits for pools of at most 1024 relays.
- Hostnames.NormalizedIsLabel: plain ASCII names only, because IDNA conversion is a library call; roots are normalized.
- SelectionRuns.RunSelectsSoundly: URLs are taken without surrounding white space, as every caller stores them.
- RelayRuns.AcceptedNeverRollBack: assumes readings that do not go back from one operation to the next; `ClockBackAllowsRollback` shows why.
- HostnameSafety.HostnamesAreExclusive: assumes renewals that would pass Register's check; `RenewIsSafeExactly` shows that each of them must.
- Bindings.ValidatedAtMostOnce: random tickets are assumed fresh.
- EditDistance.ComputeDistance: characters stand for bytes.
