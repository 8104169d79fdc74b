# FreeNetHub in Dafny

A model of the five parts of FreeNetHub whose correctness spans many steps, with
proofs about all inputs, all runs and all ways of being cut short. Check it with
`dafny verify dfyconfig.toml`.

* **Selective route** (`DomainNames`, `DomainPolicy`, `DomainDeciders`,
  `SelectiveWindows`, `SelectiveRuns`, `SelectiveLinux`). Enabling and disabling
  moves OS proxy settings, a policy file, a PAC file and an owned service
  together. Every write is a step that may fail; on Windows the moment after
  every write is recorded in a ghost trace, so a kill is a stop at any moment of
  that trace, and other programs may write the registry between calls. On Linux
  they may change the settings before any single read or write of them, also
  between a check and the write it guards.
* **Node pool** (`NodePool`, `NodeRefresh`, `NodeRefreshLimits`, `NodeRuns`, `NodeStore`, `NodeBench`,
  `NodeBatch`, `Outbound`, `OutboundRoundTrip`, `ShareLink`). Keyed merge, capped
  store, public refresh, the diversity-first benchmark picker and its search
  loop, and the reader and printer of the nine sing-box outbound types.
* **SOCKS5 chain** (`Socks5`, `SocksChain`). The bridge's client and the
  gateway's server over byte streams that arrive in arbitrary pieces, each proved
  against a function of the whole stream, then joined end to end (sections 3, 4
  and 6 of RFC 1928).
* **DNS wire code** (`DnsWire`, `DnsAnswer`). Name writer, name skipper and
  answer parser (sections 2.3.4, 3.1 and 4.1 of RFC 1035).
* **Rollback quarantine** (`Quarantine`, `QuarantineRuns`). A two-file move
  protocol with a receipt, rollback and restart after a kill.

Ghost state: `SelectiveWindows.Moment.baseline` is the image seen by the first
enable of the current streak, `committed` the set of routes whose final record
was written; `Installation.trace` and `SelectiveRoute.trace` list the state after
every write; `faults` and `faulted` record failed steps, so that a contract can say
a call fails only if a step did; `SelectiveTunnel.writes` lists every write of the
Linux URL with the URL read before it and the URL it replaced.

Parameters stand for what the model does not compute: SHA-256 (`digest`), IDNA
(`Idna`, `LabelCodec`), Python text conversions (`Outbound.Python`), `is_global`
(`DnsAnswer.Global`), network answers and probes (nondeterministic choices or arguments), what other
programs do to the Linux settings, which accesses raise and which of those took
effect all the same (`SelectiveLinux.Traffic`, `raises`, `lands`).

## What the proofs found

* On Linux each read and write of a setting is a command of its own, and both the
  rollback and disable check the URL before they write it. A URL another program
  sets between the two is overwritten, exactly then (`RollBack`, `Disable` of
  `SelectiveLinux.SelectiveTunnel`; runs `SelectiveLinux.DisableOverwrites` and
  `SelectiveLinux.RollBackOverwrites`). A change made between apply's snapshot and
  its first write is lost the same way.
* A Linux URL write that times out after taking effect is not rolled back
  (`SelectiveLinux.ApplyStrays`), and a disable that cannot store its record after
  restoring the settings leaves both calls refusing
  (`SelectiveLinux.DisableStopsShort`, `SelectiveLinux.Retry`).
* A Windows disable that fails, or is killed, after restoring the settings but
  before storing its record leaves the bridge serving, and from then on both
  enable and disable refuse for drift, however often they are called
  (`SelectiveRuns.CutShortDisableIsStuck`, `SelectiveRuns.RestoredButUnrecorded`).
* A Windows enable whose rollback cannot restore the settings still puts the old
  record back: disable then answers that all is off, enable refuses, and the
  settings keep this program's URL (`SelectiveRuns.FailedRollbackLeaves`, `SelectiveRuns.OrphanStays`).
* A Windows refresh can lose what the user wrote in two ways. At a full pool it
  can cut a favourite that came in again, if its raw text also came in under a new
  id (`NodeRefreshLimits.ReturnedFavouriteCanBeCut`, exactly
  `NodeRefresh.MatchedIdStaysExactly`). And when the raw texts of two stored nodes
  come in under one new id, only the metadata of the later one is left
  (`NodeRefreshLimits.CollapsedMetaIsLost`, exactly
  `NodeRefresh.MovedMetaStaysExactly`). `NodeRefresh.MovedMetadataIsKeptExactly`
  joins the two.
* A manual node becomes public once a public list contains it; on Linux the next
  refresh then drops it or strips its metadata (`NodeRuns.ManualStaysExactly`).
* A kill between the two registry writes of a first enable makes the next
  disable refuse exactly when the original ProxyEnable was not (0, REG_DWORD)
  (`SelectiveRuns.KilledFirstEnableEnds`).
* The three domain deciders differ outside plain names: the PAC script drops one
  trailing dot where the others drop all, the bridge bounds the request line, and
  only the gateway limits a host to twelve labels (`DomainDeciders.DecidersAgree`
  gives the exact conditions).
* Printing a parsed outbound and reading it again changes the identity of an SSH
  node whose host-key list cleans to nothing, and of a node whose fingerprint cut
  at 64 characters ends in a blank; `OutboundRoundTrip.ReadWriteRead` is the exact
  condition, `OutboundRoundTrip.EmptyHostKeyChangesIdentity` a concrete input.
* The quarantine tool can leave its directory without a receipt (a kill or a
  failed write between the two); every later run then refuses, for good
  (`QuarantineRuns.AcceptedUnlessBare`, `QuarantineRuns.BareForever`).
* Apply followed by restore is the identity on placement exactly when nothing
  was quarantined before (`QuarantineRuns.ApplyThenRestore`).

## Model

| member | source | states |
|---|---|---|
| `DomainNames.MatchesIsLabelSuffix` | app/selective_http_bridge.py:122 | `host == d or host.endswith("." + d)` holds exactly when the label list of d ends the label list of host |
| `DomainPolicy.CollectNames` | app/selective_route_windows.py:96-127 | the reading loop over the words of the list computes `Collect`: canonical names, first occurrences, at most 64, or the first error |
| `DomainPolicy.NormalizeDomains` | app/selective_route_windows.py:93-127 | the same for both platforms' own trimming and refusals |
| `DomainPolicy.NormalizeIsIdempotent` | app/selective_route_windows.py:93-127 | every accepted list is normal, and joining and re-reading it gives the same list, so the PAC writer sees the list that was stored |
| `DomainPolicy.MergeAppendsNewNames` | app/selective_route_windows.py:130-134 | merging keeps the current list as a prefix, appends exactly the new names in order without duplicates, and fails only above 64 |
| `DomainPolicy.NormalListReadsBack` | crossplatform/linux/selective_tunnel.py:79-113 | a normal list survives join and re-reading on either platform |
| `DomainDeciders.DecidersAgree` | crossplatform/linux/tailnet_cfon_gateway.py:173-185 | for every spelling of every plain host, each of PAC script, bridge and gateway selects it exactly when some listed domain's labels end the host's labels, up to its own stated limit |
| `DomainDeciders.PlainHostsAgree` | app/selective_route_windows.py:204-221 | on plain lower-case hosts of at most twelve labels the three verdicts are one |
| `DomainDeciders.BridgeVerdict` | app/selective_http_bridge.py:105-124 | the bridge's chain of refusals accepts a plain host exactly when the label test does |
| `DomainDeciders.Ipv4NeverSelected` | app/selective_http_bridge.py:108-113 | no decider selects an IPv4 literal under any normalised list |
| `DomainDeciders.NumericNeverSelected` | app/selective_route_windows.py:93-127 | no normalised list selects any all-numeric host |
| `SelectiveWindows.SelectiveRoute.WriteAuto` | app/selective_route_windows.py:280-294 | one registry write takes effect or raises, and records the moment |
| `SelectiveWindows.SelectiveRoute.StartService` | app/selective_route_windows.py:360-381 | a healthy service is kept; otherwise started, or an error |
| `SelectiveWindows.SelectiveRoute.StopService` | app/selective_route_windows.py:383-401 | stops only a service that answers with the owner's token |
| `SelectiveWindows.SelectiveRoute.Prepare` | app/selective_route_windows.py:512-521 | PAC, pending record and service; a failure leaves the registry as found |
| `SelectiveWindows.SelectiveRoute.Switch` | app/selective_route_windows.py:522-531 | the two settings, their check and the final record; a failure says whether the first was written, and once it was the trace holds the moment between the two |
| `SelectiveWindows.SelectiveRoute.Apply` | app/selective_route_windows.py:511-531 | the try block reaches the committed world or a state the rollback can undo, and passes only sound moments |
| `SelectiveWindows.SelectiveRoute.RollBack` | app/selective_route_windows.py:534-548 | when its writes succeed, settings, PAC and policy are those at entry; when only a restoring write failed, files and record are back and the settings are as found or half restored |
| `SelectiveWindows.SelectiveRoute.Transact` | app/selective_route_windows.py:511-548 | committed as a whole, or raised with the entry state back when the rollback was clean |
| `SelectiveWindows.SelectiveRoute.Enable` | app/selective_route_windows.py:472-548 | all refusals in order and without effect; otherwise committed when no step fails and raised only when one did, keeping the record invariant |
| `SelectiveWindows.SelectiveRoute.RestoreImage` | app/selective_route_windows.py:296-309 | restores both values, then the trace ends with the restored moment, or stops between the found and the saved image |
| `SelectiveWindows.SelectiveRoute.RestoreAndClear` | app/selective_route_windows.py:571-586 | restore, record, stop; a success has passed the moment with the settings restored and the record unwritten |
| `SelectiveWindows.SelectiveRoute.Disable` | app/selective_route_windows.py:551-586 | each branch's result, final state and intermediate moments; `restored` exactly when the record was cleared on the saved image; any other ending of an admitted call needs a failed step |
| `SelectiveWindows.MomentIsSound` | app/selective_route_windows.py:511-548 | every moment of every admitted enable keeps the record invariant |
| `SelectiveWindows.OutcomeIsSound` | app/selective_route_windows.py:472-548 | so does whatever an enable returns with |
| `SelectiveRuns.EnableOutcomeIsStep` | app/selective_route_windows.py:472-548 | every end and every kill point of an enable is a step of the run model |
| `SelectiveRuns.DisableOutcomeIsStep` | app/selective_route_windows.py:551-586 | the same for disable |
| `SelectiveRuns.RunIsSound` | app/selective_route_windows.py:472-586 | the record invariant holds at every moment of every run with outside registry writes and kills |
| `SelectiveRuns.SavedImageIsTheFirst` | app/selective_route_windows.py:487-498 | through a whole enabled streak `previous` is the image its first enable found |
| `SelectiveRuns.RestoredIsTheFirstImage` | app/selective_route_windows.py:551-586 | a disable reporting restored leaves exactly that two-value image, and it is never this program's own |
| `SelectiveRuns.StreakBegins` | app/selective_route_windows.py:487-498 | every in-streak moment belongs to a streak that a first enable began |
| `SelectiveRuns.CommittedWasAsked` | app/selective_route_windows.py:528-531 | every committed route was the request of one enable that reached its final write |
| `SelectiveRuns.ServedRouteWasCommittedWhole` | app/selective_http_bridge.py:161-178 | whatever the bridge serves at any moment of any run, domains, proxy host, port and method come from one committed enable together |
| `SelectiveRuns.KilledFirstEnableRecovers` | app/selective_route_windows.py:554-571 | after a kill anywhere in a first enable, the branch the next disable takes; drift exactly on a mixed image, which needs an original ProxyEnable other than (0, REG_DWORD) |
| `SelectiveRuns.KilledFirstEnableEnds` | app/selective_route_windows.py:551-586 | how that disable ends: success leaves the original image, a refusal leaves everything as found and comes exactly on a mixed image, a failing write leaves something between the two |
| `SelectiveRuns.MixedImageOccurs` | app/selective_route_windows.py:522-524 | the moment every enable passes between its two registry writes is mixed exactly when the original ProxyEnable was not (0, REG_DWORD) |
| `SelectiveRuns.StuckForever` | app/selective_route_windows.py:472-586 | a state in which disable does nothing and enable refuses stays, through any number of calls and kills, until something outside writes the registry |
| `SelectiveRuns.CutShortDisableIsStuck` | app/selective_route_windows.py:551-586 | exactly when a disable cut short before its record leaves such a state |
| `SelectiveRuns.RestoredButUnrecorded` | app/selective_route_windows.py:572-586 | the smallest such state, a moment every successful restoring disable passes: settings restored, record unwritten; through any number of calls the bridge keeps serving |
| `SelectiveRuns.FailedRollbackLeaves` | app/selective_route_windows.py:534-548 | what an enable leaves when a restoring write fails and the record is put back: stuck exactly when this program's URL is still there (first enable) or the settings differ at all (re-enable) |
| `SelectiveRuns.OrphanStays` | app/selective_route_windows.py:535-548 | from where a rollback ends that could not restore the URL but put the rest back, disable reports all off for ever while the URL is this program's |
| `SelectiveLinux.SelectiveTunnel.Prepare` | crossplatform/linux/selective_tunnel.py:373-383 | unit, PAC and service before the settings are touched |
| `SelectiveLinux.SelectiveTunnel.Switch` | crossplatform/linux/selective_tunnel.py:384-389 | the two settings and their check; the URL it replaces is what other programs had set by then, and a raising write may have taken effect |
| `SelectiveLinux.SelectiveTunnel.Install` | crossplatform/linux/selective_tunnel.py:372-397 | the try block; whether and over which URL it wrote is recorded |
| `SelectiveLinux.SelectiveTunnel.RollBack` | crossplatform/linux/selective_tunnel.py:398-420 | it writes a URL exactly when it has just read the one this call set; it replaces another program's URL exactly when that program set one between the read and the write |
| `SelectiveLinux.SelectiveTunnel.Transact` | crossplatform/linux/selective_tunnel.py:372-420 | installed as a whole, or raised, and raised only if a step failed or another program interfered; a clean rollback without other programs gives the entry settings, unless the installing URL write raised after taking effect, and then the URL is that one |
| `SelectiveLinux.SelectiveTunnel.Apply` | crossplatform/linux/selective_tunnel.py:339-420 | refusals without effect, the new state as a whole, or the result of the rollback as above; every URL write with what was read before it and what it replaced: the installing write loses another program's change exactly when it came after the snapshot |
| `SelectiveLinux.SelectiveTunnel.Disable` | crossplatform/linux/selective_tunnel.py:423-446 | restores the saved baseline, stops, or refuses; it writes a URL exactly when it has just read its own, and replaces another program's URL exactly when that program set one between the check and the write |
| `SelectiveLinux.CallAll` | crossplatform/linux/selective_tunnel.py:339-446 | through any applies and disables, whatever they return and whatever other programs do, the saved settings are those the first apply of the streak read |
| `SelectiveLinux.RestoresTheFirst` | crossplatform/linux/selective_tunnel.py:339-446 | a disable reporting restored after any such calls writes the URL that apply read, and leaves exactly the settings it read when undisturbed |
| `SelectiveLinux.DriftRefuses` | crossplatform/linux/selective_tunnel.py:352-429 | with an enabled record, apply refuses exactly on settings other than its own, such as the saved baseline |
| `SelectiveLinux.Retry` | crossplatform/linux/selective_tunnel.py:339-446 | from there any number of applies and disables changes nothing until another program sets the settings |
| `SelectiveLinux.DisableOverwrites` | crossplatform/linux/selective_tunnel.py:428-436 | a run in which disable overwrites a foreign URL |
| `SelectiveLinux.RollBackOverwrites` | crossplatform/linux/selective_tunnel.py:399-401 | a run in which the rollback does |
| `SelectiveLinux.ApplyStrays` | crossplatform/linux/selective_tunnel.py:385-386 | a run in which the installing write times out after taking effect, the rollback succeeds and this program's URL stays |
| `SelectiveLinux.DisableStopsShort` | crossplatform/linux/selective_tunnel.py:435-446 | a run in which disable restores the settings, cannot store its record, and no later call changes anything |
| `NodePool.MergeNodes` | app/nodehub.py:583-604 | the merging loops compute `Merge` |
| `NodePool.MergeSpec` | app/nodehub.py:583-604 | ids are the first occurrences of existing then new ids cut at 2000; configuration from the last incoming occurrence, user metadata from the existing entry or the first occurrence, each measurement from the earliest entry that has it |
| `NodePool.MergeEvictsNothing` | app/nodehub.py:583-604 | no id of a duplicate-free pool within the cap is ever evicted, and the order is kept |
| `NodePool.MergeTwiceIsOnce` | app/nodehub.py:583-604 | merging the same list again changes nothing |
| `NodeRefresh.RefreshKeepsUserNodes` | app/engine.py:571-593 | every preserved node stays unchanged, also at the cap; a node that came in again keeps its metadata and oldest measurements unless it is cut, and is not cut when every stored node stands behind at most one incoming id |
| `NodeRefresh.NoUserMetadataLost` | app/engine.py:571-593 | if moreover no new id stands for two stored nodes, the metadata of every favourite, pinned, returned, moved or unrefreshed node is in the refreshed pool, under its own id or the one it moved to |
| `NodeRefresh.MatchedIdStaysExactly` | app/engine.py:586-590 | for every input, a matched id survives the cap exactly when the preserved ids and the matched ids before it leave room |
| `NodeRefresh.PreservedAndMatchedFit` | app/engine.py:571-590 | with traceable incoming nodes, preserved and matched ids together number at most the old pool |
| `NodeRefresh.RefreshLeads` | app/engine.py:586-590 | then they lead the refreshed pool, migrated ids included |
| `NodeRefresh.MigratedNodeKeepsMeta` | app/engine.py:579-585 | a new id with stored raw texts, listed once or often, takes over the user metadata of the stored node whose raw text came in last, and no old measurement; it is not cut when the incoming nodes are traceable |
| `NodeRefresh.MovedMetaStaysExactly` | app/engine.py:579-585 | of a stored node behind a new id, the metadata stays exactly when it equals that of the last such node |
| `NodeRefresh.MovedMetadataIsKeptExactly` | app/engine.py:575-590 | for every input, the metadata of a stored node is in the new pool under an id its raw text moved to exactly when some such id has room below the cap and stands last for a stored node with the same metadata |
| `NodeRefresh.LegacyOfRepeated` | app/engine.py:579-580 | a link listed by several sources has one old node |
| `NodeRefreshLimits.ReturnedFavouriteCanBeCut` | app/engine.py:571-593 | a full pool of favourites in which one that came in again is cut, because its raw text also came in under a new id |
| `NodeRefreshLimits.CollapsedMetaIsLost` | app/engine.py:575-586 | for any two stored nodes whose raw texts come in under one new id, only the second one's metadata is left |
| `NodeRefreshLimits.CollapsedFavouriteIsLost` | app/engine.py:575-586 | such an input that leaves no favourite |
| `NodeRefresh.LinuxRefreshKeepsUserNodes` | crossplatform/linux/freenet_hub_linux_r37.py:509-528 | manual, favourite and pinned nodes survive one refresh for every list of incoming nodes, hence every completion order |
| `NodeRuns.LinuxRunKeepsUserNodes` | crossplatform/linux/freenet_hub_linux_r37.py:509-528 | favourite and pinned nodes keep their metadata through any number of refreshes |
| `NodeRuns.LinuxRunKeepsExactly` | crossplatform/linux/freenet_hub_linux_r37.py:509-528 | any other node keeps its metadata through a run exactly as long as it is not public when a refresh begins |
| `NodeRuns.ManualStaysExactly` | crossplatform/linux/freenet_hub_linux_r37.py:509-528 | that is, a manual node stays exactly when no refresh but the last has listed it |
| `NodeRuns.WindowsRunKeepsUserNodes` | app/engine.py:571-593 | favourite and pinned nodes keep their metadata through any number of orderly refreshes, under their own id or the one they moved to |
| `NodeRuns.WindowsRunIs` | app/engine.py:571-593 | after any number of orderly refreshes, in which ids may change again and again, the entries with metadata are what becomes of the stored nodes with metadata, and no other |
| `NodeRuns.WindowsRunKeepsExactly` | app/engine.py:571-593 | a node keeps its metadata, under its own or a later id, as long as every refresh of its source lists it or its raw text, or it is favourite or pinned; otherwise all metadata left is that of other nodes; two nodes never become one |
| `NodeRuns.ListedRunKeepsExactly` | app/engine.py:571-593 | when no raw text comes in under a new id, that is exactly as long as every refresh of its source lists it |
| `NodeStore.MergeGivesPool` | app/nodehub.py:583-604 | merge keeps distinct ids, the cap and the history bounds |
| `NodeStore.RefreshGivesPool` | app/engine.py:571-593 | so does the public refresh |
| `NodeStore.LinuxRefreshGivesPool` | crossplatform/linux/freenet_hub_linux_r37.py:509-528 | so does its Linux version |
| `NodeStore.CountryRefreshGivesPool` | app/engine.py:283-290 | so does the country-shard refresh |
| `NodeStore.Store.Import` | app/engine.py:227-231 | store invariant; the merged pool; a selection only where none was |
| `NodeStore.Store.RefreshPublic` | app/engine.py:571-593 | store invariant; the refreshed pool; the selection kept while its node is stored |
| `NodeStore.Store.RefreshPublicLinux` | crossplatform/linux/freenet_hub_linux_r37.py:509-528 | the same for Linux |
| `NodeStore.Store.RefreshCountryShard` | app/engine.py:283-290 | the same for a country shard |
| `NodeStore.Store.Select` | app/engine.py:156-159 | selects exactly a stored id |
| `NodeStore.Store.RecordTest` | app/engine.py:249-258 | only the named node changes; the history keeps its last 20 |
| `NodeStore.Store.RecordPerformance` | app/engine.py:894-902 | only the named node changes; the history keeps its last 12 |
| `NodeStore.Store.ToggleFavorite` | app/engine.py:1847-1852 | flips the flag of one node and nothing else |
| `NodeStore.Store.TogglePin` | app/engine.py:1853-1858 | flips the pin of one node and nothing else |
| `NodeStore.Store.UpdateMeta` | app/engine.py:1859-1875 | stripped and cut fields, non-blank tags of at most 32 characters, on one node and nothing else; rating and missing node refused |
| `NodeBench.RankedFacts` | app/engine.py:1950-1958 | the ranked rows are the eligible nodes, once each, in key order |
| `NodeBench.UntestedRanksFirst` | app/engine.py:1956-1958 | while an eligible node was never tested, one such node ranks first |
| `NodeBench.PickRows` | app/engine.py:1958-1974 | the three loops with their early exits compute `Pick` |
| `NodeBench.PickerGuarantees` | app/engine.py:1958-1974 | exactly min(limit, eligible) distinct nodes, led by the best node of each protocol in rank order |
| `NodeBench.EveryProtocolIsCovered` | crossplatform/linux/freenet_hub_linux_r37.py:608-630 | the best-ranked node is picked, and with at most limit protocols so is the best node of every protocol |
| `NodeBatch.BatchProgress` | crossplatform/linux/freenet_hub_linux_r37.py:601-656 | a batch tests an untested eligible node while one exists |
| `NodeBatch.BatchesReachZero` | crossplatform/linux/freenet_hub_linux_r37.py:601-656 | as many batches as there are untested nodes leave none |
| `NodeBatch.MeasureAll` | crossplatform/linux/freenet_hub_linux_r37.py:631-650 | every picked node, and no other, gets a new performance record; a raising step leaves a front part of them recorded |
| `NodeBatch.Batch` | crossplatform/linux/freenet_hub_linux_r37.py:601-656 | one batch, from the stored pool or, when no endpoint was ever probed, from the freshly probed one: which nodes were tested, at most limit results, the remaining count; the selection is put back also when a step raised, unless the stopping in the final block raises too |
| `NodeBatch.Best` | crossplatform/linux/freenet_hub_linux_r37.py:658-672 | the winner least in the key order, or none exactly when nobody won |
| `NodeBatch.BenchmarkBest` | crossplatform/linux/freenet_hub_linux_r37.py:674-687 | the search ends with at most 24 results and, unless a step raised, with the limit reached, enough winners, or nothing untested |
| `OutboundRoundTrip.WriteReadsBack` | app/nodehub.py:620-692 | the printed outbound of a readable, settled node of any of the nine types reads back as that node |
| `OutboundRoundTrip.ReadIsOk` | app/nodehub.py:351-522 | whatever the reader accepts meets every bound it checks |
| `OutboundRoundTrip.ReadWriteRead` | app/nodehub.py:351-522 | for every accepted outbound, printing and reading again keeps the identity exactly when the list fields are non-empty after cleaning and the cut fingerprint is trimmed |
| `OutboundRoundTrip.EmptyHostKeyChangesIdentity` | app/nodehub.py:351-522 | a concrete SSH outbound for which it does not |
| `OutboundRoundTrip.TlsReadsBack` | app/nodehub.py:43-61 | a settled TLS block reads back as itself |
| `ShareLink.SameIdentityExactly` | app/nodehub.py:21-23 | for any node, its printed outbound has its identity exactly when the reader could have produced it and it is settled |
| `ShareLink.LinkAndOutboundAgree` | app/nodehub.py:211-285 | a tuic, anytls or hysteria link and the outbound printed for it get one id exactly under the stated condition on host, ALPN and fingerprint |
| `ShareLink.LinkAndOutboundAreOneEntry` | app/nodehub.py:583-604 | importing both then leaves a single entry whatever the pool and the digest; in an empty pool exactly then, unless the two identities differ and collide |
| `Socks5.Wire.ReadExact` | app/selective_http_bridge.py:28-36 | exactly the next count bytes for every cutting of the stream, or the stream was too short |
| `Socks5.ReadReply` | app/selective_http_bridge.py:79-90 | consumes exactly the reply, by its address type |
| `Socks5.Socks5Connect` | app/selective_http_bridge.py:62-95 | a bad target touches nothing; otherwise verdict, bytes sent and bytes consumed depend on the stream only, not on its cutting, unless a read or write fails |
| `Socks5.RelayTcp` | app/selective_http_bridge.py:127-141 | each side is sent an in-order prefix of what the other delivers, and everything read unless a socket failed; it ends only when a socket ended or failed or nothing was readable |
| `Socks5.ReadGreeting` | crossplatform/linux/tailnet_cfon_gateway.py:192-203 | the method selection for every cutting |
| `Socks5.ReadLength` | crossplatform/linux/tailnet_cfon_gateway.py:204-211 | the request header and host length |
| `Socks5.ReadHostPort` | crossplatform/linux/tailnet_cfon_gateway.py:212-213 | exactly the host and port bytes |
| `Socks5.ReadRequest` | crossplatform/linux/tailnet_cfon_gateway.py:192-222 | the host asked for, the refusal with its reply code, or truncation, as functions of the stream |
| `Socks5.Exchange` | crossplatform/linux/tailnet_cfon_gateway.py:251-272 | the handshake and its error path: all bytes sent; a success reply is seen only for an accepted host that is connected, whatever fails |
| `Socks5.GatewayRelay` | crossplatform/linux/tailnet_cfon_gateway.py:260-268 | the gateway's loop, which goes on after an idle `select`: in-order prefixes both ways, everything read passed on unless a socket failed, every reported turn read before it ends as idle |
| `Socks5.Gateway` | crossplatform/linux/tailnet_cfon_gateway.py:251-276 | all of `exchange`: a tunnel carries in-order prefixes behind the request and behind the answer; without one nothing passes, and the answer is the one the request deserves |
| `Socks5.HarmlessStays` | crossplatform/linux/tailnet_cfon_gateway.py:269-272 | appending the general-failure reply never forms a success |
| `SocksChain.WordsHeard` | crossplatform/linux/tailnet_cfon_gateway.py:192-213 | what the server reads from every prefix of what the client sends, and from it followed by data |
| `SocksChain.SameHost` | crossplatform/linux/tailnet_cfon_gateway.py:216-222 | the server decodes exactly the host and port 443 the client encoded |
| `SocksChain.RunIsSound` | app/selective_http_bridge.py:75-90 | the invariant of every run of client and server over a delaying, cutting network |
| `SocksChain.EndsAgree` | crossplatform/linux/tailnet_cfon_gateway.py:251-268 | at every moment: accepted means this host, a tunnel means allowed and connected after exactly 12 bytes, and what follows is an in-order prefix of the peer's data |
| `SocksChain.NoDeadlock` | app/selective_http_bridge.py:75-91 | once all bytes are delivered the client has its tunnel and all data passed, or was refused |
| `SocksChain.BridgeAsksHostNames` | app/selective_http_bridge.py:98-124 | every target the bridge lets through is covered |
| `DnsWire.SkipName` | app/directnet.py:15-31 | the loop computes `Skip` |
| `DnsWire.SkipIsExact` | app/directnet.py:15-31 | the skipper stops at a place exactly when what lies before it is a well-formed name: at most 127 labels of 1 to 63 bytes, then the root or a pointer |
| `DnsWire.WrittenNameIsSkipped` | app/directnet.py:8-12 | any written name at any offset is skipped to its end exactly when it has at most 127 labels, which 253 characters imply |
| `DnsAnswer.PassQuestions` | app/directnet.py:40-45 | the question loop, with its two different failures |
| `DnsAnswer.CollectRecords` | app/directnet.py:46-65 | the record loop computes `Records` |
| `DnsAnswer.ParseDnsA` | app/directnet.py:34-65 | the parser stays in bounds and computes `ParseA` |
| `DnsAnswer.CutMessageGivesPrefix` | app/directnet.py:34-65 | a message cut anywhere after its header fails or gives a prefix of the full list |
| `DnsAnswer.WrittenMessageIsRead` | app/directnet.py:34-65 | any well-formed response gives exactly the public addresses of its A records |
| `DnsAnswer.PublicAddressesAre` | app/directnet.py:58-62 | each such address once, and no other |
| `Quarantine.Installation.Look` | tests/cleanup_r24_rollback_residue.py:168-191 | the inspection loop computes `Inspect` |
| `Quarantine.InspectIsAccepted` | tests/cleanup_r24_rollback_residue.py:168-191 | accepted exactly when the store is absent or complete and each present module is intact and in one place |
| `Quarantine.MovedOneMore` | tests/cleanup_r24_rollback_residue.py:257-258 | one rename takes the placement one step on, and its inverse takes it back |
| `Quarantine.Installation.InitQuarantine` | tests/cleanup_r24_rollback_residue.py:194-208 | directory, then receipt; a failure can leave the directory bare |
| `Quarantine.Installation.RollBack` | tests/cleanup_r24_rollback_residue.py:261-265 | undoes the moves in reverse order; complete when every rename succeeds |
| `Quarantine.Installation.MoveAll` | tests/cleanup_r24_rollback_residue.py:251-265 | all moved, or rolled back; every state in between is a partial move |
| `Quarantine.Installation.Apply` | tests/cleanup_r24_rollback_residue.py:246-267 | refusals in order and without effect; the quarantined placement; or a failure that is undone when the rollback succeeds |
| `Quarantine.Installation.Restore` | tests/cleanup_r24_rollback_residue.py:223-245 | the same for restore |
| `QuarantineRuns.MomentIsSound` | tests/cleanup_r24_rollback_residue.py:211-267 | stopped anywhere with the receipt in place, the disk is accepted with each module intact in one place |
| `QuarantineRuns.RunIsSound` | tests/cleanup_r24_rollback_residue.py:211-267 | so is every state of every run of applies and restores, killed or not |
| `QuarantineRuns.InterruptionsConverge` | tests/cleanup_r24_rollback_residue.py:211-267 | from any interrupted state, also of a first apply, restore and apply lead to the very disks they lead to from the start |
| `QuarantineRuns.RestoredDisk` | tests/cleanup_r24_rollback_residue.py:230-245 | a completed restore puts every module live |
| `QuarantineRuns.QuarantinedDisk` | tests/cleanup_r24_rollback_residue.py:253-267 | a completed apply puts every module into the quarantine |
| `QuarantineRuns.ApplyThenRestore` | tests/cleanup_r24_rollback_residue.py:223-267 | apply then restore is the identity exactly when nothing was quarantined before |
| `QuarantineRuns.AcceptedUnlessBare` | tests/cleanup_r24_rollback_residue.py:170-179 | what a run leaves is accepted exactly when the receipt is not missing |
| `QuarantineRuns.BareForever` | tests/cleanup_r24_rollback_residue.py:174-175 | a store without a receipt is refused by every later run, unchanged |

## Left out

- The status pages, the 403 diagnosis and the local HTTP handlers: they read only.
- Sockets, curl, subprocesses, systemd, winreg, gsettings and Win32 calls: steps that take effect or fail.
- The Linux method name is compared as a provider; the source compares its spelling, so another spelling re-applies instead of reporting unchanged.
- On Windows other programs write the registry between calls only, not inside one.
- The two Windows listeners and their process are one `serving` flag; the health probe answers with the token of the policy file.
- A corrupt policy file: the model starts from an absent or readable one.
- PAC text is a value naming its domains and port; the JavaScript in it is the predicate `DomainDeciders.PacSelects`.
- SelectiveRuns.KilledFirstEnableEnds: covers first enables; after a re-enable killed before its registry write the source refuses and keeps the settings.
- ShareLink.LinkAndOutboundAreOneEntry: two different identities with one digest would share an entry; the converse half sets that case aside for the two identities at hand.
- SelectiveLinux.SelectiveTunnel.Apply: crash recovery is not claimed, because the source keeps no in-flight marker; what the status reports and whether the provider answers are parameters.
- NodePool.MergeTwiceIsOnce: needs incoming histories within their bounds and non-empty ids, as the source's parser gives them.
- NodeRefresh.RefreshKeepsUserNodes: for untraceable incoming nodes a node that came in again may be cut, as `NodeRefreshLimits.ReturnedFavouriteCanBeCut` shows; then only the exact condition is stated.
- NodeRuns.WindowsRunKeepsExactly: for runs in which each stored node stands behind at most one incoming id and no new id for two; without that, one refresh is decided by `NodeRefresh.MovedMetadataIsKeptExactly`.
- NodeStore.CountryRefreshGivesPool: no claim that preserved nodes survive the cap, because the source puts fresh nodes first.
- The store methods run one at a time; the source takes no lock around load and save.
- The Windows benchmark batch beyond its picker; measured times are integers.
- `parse_blob` text extraction, base64 and the URI schemes other than tuic, anytls and hysteria.
- Name and raw text of a node are outside its identity, as in the source's id.
- The gateway's own SOCKS5 client has the code of the bridge's client and is modelled once; whether it connects is a parameter.
- The gateway's session limits, timers, peer check and unit files, and the bridge's connection limit.
- The DNS-over-HTTPS request around the parser, and the STUN client.
- Package, release and idleness checks of the quarantine tool are two booleans; nobody else changes its files during a run.
- The single-module quarantine tool and the browser's copies of the SOCKS and PAC code.
- The WARP trial guard, provider mutual exclusion on Linux, and the GTK, C#, Swift and Kotlin shells.
