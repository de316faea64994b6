# Verification of Atlas Control's core

A Dafny 4.11 model of the parts of Atlas Control whose correctness is not visible in one function: protocols
shared by several threads, state that survives restarts, numeric guards and geometric shortcuts. Each file
models one component, in the form its source has: classes and loops where the source changes state, functions
where it computes. A method is proved against a specification (a function or a relation on the old and new
state); lemmas then prove what that specification guarantees over every input and every run.
`dafny verify dfyconfig.toml` checks everything.

| file | component |
|---|---|
| `osrm_pool.dfy`, `osrm_runs.dfy`, `osrm_cap.dfy` | the pool of OSRM processes: port allocation, single-flight start, LRU eviction, under any interleaving; runs that reach the bound on the pool |
| `hop_planner.dfy` | the cross-state route planner and the box-border crossing, over exact reals |
| `ubx_frame.dfy`, `ubx_splitter.dfy` | UBX frames (u-blox M8 Receiver Description, sections "UBX Frame Structure" and "UBX Checksum") and the splitter that separates them from NMEA 0183 sentences |
| `kalman.dfy` | the position filter, as block matrices over exact reals |
| `update_disk.dfy`, `update_manager.dfy` | the resumable, verified download: files, histories of changes, the job |
| `park_polygon.dfy`, `trail_list.dfy` | the point-in-polygon test, the bounding-box prefilter in front of it, and the list of a park's trails |
| `pairing_requests.dfy`, `pairing_cache.dfy`, `setup_code_limiter.dfy` | pairing: approval, the lookup cache, the setup-code rate limit |
| `beacon_limiter.dfy`, `sliding_window.dfy` | the beacon's reply limit; event windows for both limiters |
| `safe_math.dfy`, `safe_math_run.dfy`, `integer_width.dfy` | the bounded evaluator; bit lengths, powers and floor division |
| `wall_clock.dfy` | clock corrections at boot and from the RTC, GPS and phones |
| `battery.dfy` | the battery percentage and its median filter |
| `passage_index.dfy` | freshness of the passage index |
| `wifi_failover.dfy` | the hotspot failover timer |
| `prompt_budget.dfy` | prompt budgeting and the history window |
| `common.dfy`, `reals.dfy` | an option type; facts about products of reals |

## How runs are modelled

Code that several threads run is a state machine whose steps are the atomic regions of the source: one region
that holds a lock, one committed database statement, or one read of a shared variable. A run is any sequence of
enabled steps, so a lemma over all runs covers every interleaving of any number of callers. The methods that
perform those regions alone are proved against the same functions the steps use. What the outside world answers
(clocks, sockets, processes, the network, the scheduler) is a parameter or a free choice of the step. Hashes and
random tokens are idealised: equal hashes come from equal contents, and a new identifier is unused.

## Where the code is weaker than a reader might expect

Each of these is proved: the exact condition of a failure where one is named, otherwise a concrete case.

- Overlapping starts of one profile take the OSRM pool past its cap, and can exactly when two or more of them may
  be in flight together (`CapPassedExactlyWhen`): the pool never exceeds cap - 1 plus the number of starts that
  overlap (`LoadStaysBounded`), and for every profile and every number some run reaches that (`BoundIsReached`).
- The UBX splitter loses bytes exactly when a read of its loop ends inside the first eight bytes of a frame, or a
  read made by the frame parser returns less than it asked for (`NothingLostExactlyWhen`); `CutFrameIsDropped`
  is one such loss.
- An update job accepts an existing final file without verifying it again, so a release that reuses an older
  bundle's file name is reported ready over the older bundle (`ReusedName`), which is not the released one exactly
  when digest or size differ (`FinalServes`, `OlderFileMeets`); the engine, which is not part of this model, verifies
  again before it installs.
- A check for updates looks whether a download is under way only when it begins; when it ends it overwrites the
  state and the release of one that was started meanwhile (`StartDuringCheck`).
- A lookup that overlaps a revocation can store the old answer after the cache was cleared, and the revoked client
  is then accepted for up to 30 s (`OverlapAcceptsRevoked`, `RevokedRefusedAfterTtl`). Refusal is immediate exactly
  when no lookup holds an accepting answer as the cache is cleared (`RevokedRefusedExactlyWhen`); of lookups that
  begin after that, when each such answer was asked for 30 s earlier (`LaterCallsRefusedExactlyWhen`).
- The setup-code limits of 5 and 20 failures within 600 s can be passed exactly when two claims or more may be in
  flight together (`LimitPassedExactlyWhen`); the bounds that hold instead (`FailuresStayBounded`) are reached.
- If the version bump of a document writer is a load and a store, a call that meets no writer can return a stale
  index, and can exactly when there are two writers or more (`CanBeStaleExactlyWhen`): two bumps that overlap can
  take the version back (`SplitBumpIsStale`). As long as no store takes it back, which holds whenever bumps do not
  overlap (`ApartGoesForward`), indexes are fresh (`CalmReadersAreFresh`).
- The kernel may set the clock from a late RTC to any time; until the floor is applied again, up to 5 s later, the
  clock can be more than a day before the build time (`NeverADayBeforeBuild`, `BackstopEndsIt`).
- The module comment of `clock.py` says phones are ignored while NTP is synchronised and after GPS; NTP is looked
  at twice, and a phone does move a GPS-set clock when NTP becomes synchronised in between
  (`PhoneMovesGpsClockWhen`). The model follows the code.
- The size guard of powers refuses some results that are within the limit, such as 2 ** 2049 (`PowerGuardIsNot`):
  for an exponent it does so for some base exactly when the exponent is at most 4096 and does not divide it
  (`PowerGuardLosesExactlyWhen`). The guard of products refuses none (`ProductGuardIsLossless`).
- The history keeps its floor of 400 tokens exactly when a system text with all the passages allowed leaves room
  for it (`HistoryKeepsItsFloor`), which the minimum passage budget can deny it (`MinimumCrowdsOut`).
- Downloaded boundaries make every ring a polygon of its own, so a park has exactly the points of its area and
  those in the area's holes (`BuiltParkIsUnion`, `HolesCountExactlyWhen`, `HoleIsCounted`).
- The bounding-box query drops trails past its 12000th row (`PrefilterLossless` says exactly when that matters).

## Model

| member | source | states |
|---|---|---|
| OsrmPool.RoutingNode.FastPath | routing_node.py:451-461 | a healthy pooled instance is touched and its port returned; an unhealthy one leaves both dictionaries; nothing else changes |
| OsrmPool.RoutingNode.LeastRecentlyUsed | routing_node.py:499-499 | the chosen key has a last use no later than that of any candidate, a missing one counting as 0 |
| OsrmPool.RoutingNode.FindFree | routing_node.py:510-512 | the lowest unused port from a start upwards |
| OsrmPool.RoutingNode.Claim | routing_node.py:483-521 | the claim region as a relation: pooled key, join of an in-flight start, or eviction of a least recently used instance at the cap and reservation of the lowest port free of pooled and in-flight ones, with a new event |
| OsrmPool.RoutingNode.MoveReservation | routing_node.py:545-551 | the owner's reservation moves to the lowest port that no other key holds |
| OsrmPool.RoutingNode.Commit | routing_node.py:575-577 | the instance enters the pool with its last use |
| OsrmPool.RoutingNode.Release | routing_node.py:582-584 | the in-flight entry of the key goes, nothing else |
| OsrmPool.RoutingNode.SetEvent | routing_node.py:585-585 | the owner's event is set |
| OsrmPool.RoutingNode.AfterWait | routing_node.py:526-536 | a waiter gets the pooled port or nothing, and never starts anything |
| OsrmPool.RoutingNode.Shutdown | routing_node.py:388-394 | pool and last uses are emptied |
| OsrmPool.RoutingNode.EnsureRunning | routing_node.py:428-585 | one call alone: nothing without a graph, the pooled port while it is healthy, otherwise one start that returns a port exactly when the process came up; nothing stays in flight, ports stay distinct, no profile passes its cap, and the event of a start is set |
| OsrmPool.RoutingNode.StartAsOwner | routing_node.py:538-585 | an owner commits or fails, and either way removes its entry and sets its event |
| OsrmPool.RoutingNode.SettlePort | routing_node.py:543-551 | the reservation moves past outside ports and stays distinct from every other key's |
| OsrmPool.ClaimKeepsPorts | routing_node.py:483-514 | the claim region keeps the ports of different keys distinct |
| OsrmPool.MoveKeepsPorts | routing_node.py:546-551 | so does moving a reservation |
| OsrmPool.CommitKeepsPorts | routing_node.py:575-577 | so does committing an instance on its reserved port |
| OsrmPool.CommitKeepsCaps | routing_node.py:495-514 | an owner that evicted as the claim demands commits within every cap |
| OsrmRuns.StepKeepsInv | routing_node.py:428-585 | every atomic step of any call keeps: one live owner per in-flight entry, nothing pooled under an uncommitted owner's key, exact accounts of removals and signals, distinct ports |
| OsrmRuns.PortsNeverCollide | routing_node.py:483-585 | in every state of every run, no port is held for two different keys, pooled or in flight |
| OsrmRuns.OneOwnerPerKey | routing_node.py:489-514 | in every state of every run a key has at most one owner, and exactly while it is in flight |
| OsrmRuns.ReleasedExactlyOnce | routing_node.py:582-585 | an event's entry is removed and the event set by its owner only, once each by the time it returns, the removal first |
| OsrmRuns.LoadStaysBounded | routing_node.py:495-514 | pooled plus still-committable instances of a profile never exceed cap - 1 + the most starts ever in flight together |
| OsrmCap.BoundIsReached | routing_node.py:483-585 | for every profile and every T >= 1, a run from the start with at most T starts of it in flight together ends with cap - 1 + T instances pooled |
| OsrmCap.CapPassedExactlyWhen | routing_node.py:483-585 | a run with at most T starts of a profile in flight together can pass its cap exactly when T is at least 2 |
| HopPlanner.StateForCoord | routing_node.py:129-144 | the state of the first smallest box containing the point, through the alias table, or none exactly when no box contains it |
| HopPlanner.StateIsUnique | routing_node.py:129-144 | that specification determines the answer |
| HopPlanner.BorderCrossing | routing_node.py:874-905 | the first point where the open segment meets an edge of the box; none exactly when it meets none |
| HopPlanner.CrossingSeparates | routing_node.py:874-905 | from strictly inside a box towards a point outside it there is a first hit, with the path strictly inside before it and outside after it |
| HopPlanner.NextState | routing_node.py:762-770 | the search past a border ends at the first step that lands in a state, or when the schedule or the path is exhausted |
| HopPlanner.PlanStateHops | routing_node.py:698-774 | the plan: at most 25 legs, no state twice, each leg ended at the destination or at the first hit of its box, the next begun where the search past that border found its state, until arrival, a dead end or the cap; for distinct endpoints all leg ends lie on the segment at strictly increasing positions |
| HopPlanner.PlanIsUnique | routing_node.py:698-774 | that specification determines the plan |
| UbxFrame.UbxCksum | gps_node.py:95-100 | the two running sums modulo 256 |
| UbxFrame.ChecksumIsFletcher | gps_node.py:95-100 | they are the plain sum and the sum of prefix sums modulo 256 |
| UbxFrame.FrameRoundTrip | gps_node.py:103-109 | a printed frame parses back, whatever follows it, exactly when its payload is shorter than 65536 bytes |
| UbxFrame.ChangedByteRejected | gps_node.py:981-992 | a change of one byte of class, id or payload is rejected |
| UbxFrame.SwappedBytesRejected | gps_node.py:981-992 | so is a swap of two unequal adjacent payload bytes |
| UbxSplitter.Receiver.ParseUbxFrame | gps_node.py:966-1005 | the parser's verdict, and exactly which bytes it takes from a port that may yield fewer than it asks for |
| UbxSplitter.Receiver.ProcessChunk | gps_node.py:896-943 | the inner loop over a chunk: the items it hands on, the sentence it still holds, what it left on the port |
| UbxSplitter.Receiver.ReadLoop | gps_node.py:866-896 | the outer loop over the reads, giving up after more than 100 empty ones in a row |
| UbxSplitter.ScanSplits | gps_node.py:896-943 | on a stream of whole messages, one chunk hands on exactly the messages it completes, if the parser's reads are complete and none is cut too early |
| UbxSplitter.NothingLostExactlyWhen | gps_node.py:866-1005 | for any messages, read sizes and yields of the parser's reads: what was handed on, is held and is still on the port makes up what was sent, if and only if no read of the loop ends inside the first eight bytes of a frame and each read of the parser is complete |
| UbxSplitter.SplitReturnsWhatWasSent | gps_node.py:866-1005 | under that condition a prefix of what was sent, in order; once the stream is used up, exactly what was sent if and only if the condition holds |
| UbxSplitter.CutFrameIsDropped | gps_node.py:966-972 | a cut inside the first eight bytes loses the frame |
| Kalman.DefiniteIsPositiveForm | gps_node.py:201-207 | the entry condition used for a 2x2 block is exactly positive definiteness |
| Kalman.TwoBlocksDefinite | gps_node.py:201-207 | a covariance of two equal such blocks gives every direction positive variance |
| Kalman.PredictedDefinite | gps_node.py:187-202 | the motion step of a two-block covariance, process noise included, is one again |
| Kalman.UpdateBlocks | gps_node.py:199-207 | a measurement step too; position variance falls below the measurement variance and each coordinate lands strictly between predicted and measured, or on them when they agree |
| Kalman.UpdatedSmooths | gps_node.py:182-208 | the same for the whole update with its clamped time step; without a positive step only the time changes |
| Kalman.PredictedKeepsBlocks | gps_node.py:210-221 | the dead-reckoning step keeps the two blocks |
| Kalman.Kalman2D.Reset | gps_node.py:166-172 | position set, speeds zero, covariance a millionth of the identity |
| Kalman.Kalman2D.Update | gps_node.py:174-208 | the matrix formulas as written compute that update, with its variance bound and smoothing |
| Kalman.Kalman2D.Predict | gps_node.py:210-221 | the dead-reckoning step, and nothing before the first fix |
| Kalman.RunKeepsBlocks | gps_node.py:147-221 | under any sequence of resets, updates and predictions the covariance stays two equal symmetric positive definite blocks |
| UpdateDisk.VerifyBundleFile | system/atlas_engine/verify.py:197-222 | nothing exactly for a file of the right size and digest; otherwise the first bad chunk, or -1 when no chunk it has is bad |
| UpdateDisk.RepairKeepsGenuinePrefix | update_manager.py:404-407 | what a repair keeps is a prefix of the bundle, and the bad chunk after it is not |
| UpdateDisk.PartNeverMixesBundles | update_manager.py:411-422 | at each moment of every history, for any releases: the part holds bytes of one bundle, the one the sidecar names if it names one, and no more than its signed size |
| UpdateDisk.PartStaysGenuine | update_manager.py:364-500 | with an honest server, at each moment of every history the part is a prefix of the bundle its sidecar names |
| UpdateDisk.GenuineVerifies | update_manager.py:375-380 | such a part, once complete, passes verification |
| UpdateDisk.FinalComesFromVerifiedPart | update_manager.py:376-380 | a final file was there from the start, or was a part that had just verified for the bundle it was published under, all its bytes delivered for it |
| UpdateDisk.FinalServes | update_manager.py:368-369 | a published final file is good for a bundle exactly when it was published for the same digest and size |
| UpdateDisk.OlderFileMeets | update_manager.py:368-380 | for any two bundles, an honest download of the older leaves a final file that is good for the newer exactly if digest and size are equal |
| UpdateDisk.LegalPrefix | update_manager.py:411-500 | a history may stop after any change |
| UpdateDisk.LegalConcat | update_manager.py:114-121 | what follows a restart continues the history |
| UpdateManager.Manager.constructor | update_manager.py:114-121 | after power on, a download that was under way is paused, or idle with no release |
| UpdateManager.Manager.FetchRange | update_manager.py:450-500 | unless cancelled, the exact outcome of a request and the part it leaves (appended after a matching 206, restarted after a 200, otherwise untouched); only allowed changes, never past the signed size, genuine with an honest server |
| UpdateManager.Manager.Receive | update_manager.py:470-500 | the read loop of a response: unless cancelled, exactly the bytes taken and how it ends |
| UpdateManager.Manager.HandleRead | update_manager.py:478-485 | one read: a block is taken only if it fits the signed size |
| UpdateManager.Manager.Download | update_manager.py:411-448 | it completes only with a part of exactly the signed size under this bundle's sidecar, and does complete, if nobody cancels, once a response brings the whole bundle and none before it ends the job |
| UpdateManager.Manager.Attempt | update_manager.py:424-448 | one pass of the loop keeps that |
| UpdateManager.Manager.Adopt | update_manager.py:414-422 | a foreign part goes before its sidecar, and the new sidecar is written only then |
| UpdateManager.Manager.HandleBadDownload | update_manager.py:397-409 | at most three repairs, each a truncation to the leading verified chunks; otherwise everything is discarded |
| UpdateManager.Manager.RunJob | update_manager.py:364-395 | at most four verification passes, fewer by the repairs already counted; ready only with a final file that was there or just verified; with an honest server one pass and no repair, and ready if such a response comes and nobody cancels |
| UpdateManager.Manager.ConcludeDownload | update_manager.py:375-389 | a complete part is verified and then published or repaired; a genuine one is published |
| UpdateManager.Manager.PublishPart | update_manager.py:380-384 | a verified part becomes the final file, then its sidecar goes |
| UpdateManager.Manager.DiscardDownload | update_manager.py:351-358 | final file, part and sidecar go, in this order |
| UpdateManager.Manager.Install | update_manager.py:503-519 | only a ready download is handed to the engine, once per call |
| UpdateManager.Manager.Start | update_manager.py:293-305 | a job is spawned exactly when none is alive, the engine is not installing and a release is known |
| UpdateManager.ReusedName | update_manager.py:364-390 | if they are not, a job for the newer release reports it ready, without a verification pass, over the older bundle |
| UpdateManager.Manager.BeginCheck | update_manager.py:243-251 | the guard of a check: it goes on exactly without a job and outside a download or an installation |
| UpdateManager.Manager.EndCheck | update_manager.py:252-284 | what a check leaves when it ends, whatever has happened since its guard |
| UpdateManager.Manager.StartDuringCheck | update_manager.py:243-305 | a download can start during a check, and the end of the check then stands in place of its state and release |
| UpdateManager.Manager.Check | update_manager.py:243-284 | a check changes neither state nor release while a download, a verification or an installation is under way |
| UpdateManager.Manager.Cancel | update_manager.py:316-328 | with no job alive the download is discarded at once; during an installation nothing changes |
| UpdateManager.Manager.Forget | update_manager.py:330-344 | refused while installing; otherwise files and state go |
| UpdateManager.Manager.Reconcile | update_manager.py:521-560 | an installation ends only when the engine is done, and only success drops the release and its files |
| ParkPolygon.MeetsPartWay | app.py:2350-2352 | a straddling edge meets the latitude at a point part of the way along it |
| ParkPolygon.PointInRing | app.py:2342-2356 | true exactly when an odd number of the ring's edges crosses the ray |
| ParkPolygon.CrossesSymmetric | app.py:2350-2352 | the crossing test does not depend on the edge's direction |
| ParkPolygon.RotationInvariant | app.py:2342-2356 | starting the ring elsewhere changes nothing |
| ParkPolygon.ReversalInvariant | app.py:2342-2356 | walking it the other way round changes nothing |
| ParkPolygon.InsideOnlyInBox | app.py:2342-2356 | true only inside any box that covers the ring |
| ParkPolygon.PointInGeojsonPolygon | app.py:2359-2381 | in some polygon: inside its outline and in none of its holes |
| ParkPolygon.BboxFromCoords | download_nps_trails.py:222-230 | the smallest box covering the positions; none exactly when there are none |
| ParkPolygon.BoundaryRow | download_nps_trails.py:623-629 | each ring becomes a polygon of its own, under a box that covers them all |
| ParkPolygon.BuiltParkIsUnion | download_nps_trails.py:625-629 | a point is in a park built so exactly when it is inside some ring, outline or hole |
| ParkPolygon.HolesCountExactlyWhen | download_nps_trails.py:625-629 | a park built from the rings of an area has exactly the points of the area and those inside a hole |
| ParkPolygon.HoleIsCounted | download_nps_trails.py:625-629 | the middle of a square with a square hole is such a point |
| ParkPolygon.InParkInBox | app.py:2543-2551 | a point in a park built so lies in the park's box |
| ParkPolygon.ParkTrails | app.py:2513-2552 | the rows to list: the coded trails, or else the trails near the park's box, up to the row limit, that pass the exact test |
| ParkPolygon.PrefilterLossless | app.py:2526-2541 | with no coded trail the route keeps exactly what the exact test alone keeps, if and only if no such trail lies past the row limit |
| ParkPolygon.CodedFirst | app.py:2513-2524 | with coded trails it returns exactly those, up to the limit |
| TrailList.MergeByName | app.py:2544-2576 | one entry for each name in lower case: how many rows have it, the first of them for its spelling, the first of the longest for identifier and position |
| TrailList.Listed | app.py:2577-2585 | those entries, each name once, in order of the names |
| TrailList.HikingParkTrails | app.py:2513-2585 | the list of the trails that the queries and the exact test keep |
| TrailList.ListingIsUnique | app.py:2544-2585 | the rows determine the list |
| TrailList.SegmentsAddUp | app.py:2544-2585 | no row is lost or counted twice: the segments add up to the rows |
| PairingRequests.PairRequests.CreateRequest | pairing.py:288-306 | accepted exactly when fewer than five live requests are pending after pruning; then the row is pending |
| PairingRequests.PairRequests.Decide | pairing.py:327-333 | it decides exactly a pending and live request |
| PairingRequests.PairRequests.TakeApproval | pairing.py:347-350 | an approval is taken exactly once |
| PairingRequests.PairRequests.PollRequest | pairing.py:336-352 | unknown, expired, the status, or the token of an approved request, after which every poll reads issued |
| PairingRequests.AtMostOneToken | pairing.py:336-352 | in every interleaving a request yields at most one token |
| PairingRequests.TokenNeedsLiveApproval | pairing.py:327-352 | a token follows an approval, by the client it names, of the live request, and goes to a poller with the creator's secret |
| PairingRequests.NoTokenWithDenial | pairing.py:327-352 | a denied request never yields a token |
| PairingCache.PairedClients.LookUp | pairing.py:112-135 | a fresh cache entry or else the table's answer, then cached; marking a client seen revokes and restores no one |
| PairingCache.PairedClients.Probe | pairing.py:118-121 | a cache entry answers only while younger than 30 s |
| PairingCache.PairedClients.Store | pairing.py:131-134 | the answer is stored with the time read before the table was, in a cache emptied when over 512 entries |
| PairingCache.PairedClients.RevokeRow | pairing.py:146-148 | exactly the client's rows stop answering; true exactly when one did |
| PairingCache.PairedClients.Revoke | pairing.py:145-151 | the row is revoked, then the cache emptied |
| PairingCache.PairedClients.RevokeAll | pairing.py:154-160 | the table and then the cache are emptied |
| PairingCache.AnswersAreFresh | pairing.py:112-135 | in every interleaving each answer was the table's at an instant during the call or less than 30 s before it |
| PairingCache.RevokedRefusedAtOnce | pairing.py:145-151 | if the cache is cleared while no lookup holds an accepting answer, every later answer refuses the token |
| PairingCache.RevokedRefusedExactlyWhen | pairing.py:112-151 | in every continuation every later answer refuses it, if and only if no lookup holds an accepting answer when the cache is cleared |
| PairingCache.LaterCallsRefusedExactlyWhen | pairing.py:112-151 | in every continuation every lookup that begins after the clear is refused, if and only if each accepting answer a lookup under way has read was asked for at least 30 s earlier |
| PairingCache.RevokedRefusedAfterTtl | pairing.py:112-151 | whatever overlaps, a lookup that begins 30 s after the row changed refuses it |
| PairingCache.OverlapAcceptsRevoked | pairing.py:112-151 | an overlapping lookup can make the next one accept a revoked token |
| SetupCodeLimiter.Limiter.RateLimited | pairing.py:229-235 | limited exactly with five recent failures of the address or twenty in all; old entries go from the lists looked at |
| SetupCodeLimiter.Limiter.RecordFailure | pairing.py:238-242 | the failure enters both lists |
| SetupCodeLimiter.Limiter.Claim | pairing.py:245-255 | one claim alone: issued exactly when not limited and the code matches; only a wrong code is recorded |
| SetupCodeLimiter.PassFindsFew | pairing.py:229-235 | a claim that passes found fewer failures than the cap in every open window |
| SetupCodeLimiter.FailuresStayBounded | pairing.py:229-255 | with C claims in flight no 600 s window holds more than 4 + C failures of an address or 19 + C in all |
| SetupCodeLimiter.AddressBoundIsReached | pairing.py:229-255 | for every C >= 1 some run with C claims in flight records 4 + C failures of an address in a window |
| SetupCodeLimiter.OverallBoundIsReached | pairing.py:229-255 | and some run 19 + C failures in all |
| SetupCodeLimiter.LimitPassedExactlyWhen | pairing.py:229-255 | each limit can be passed in some window exactly when C is at least 2 |
| BeaconLimiter.LanBeacon.ReplyAllowed | lan_beacon.py:215-227 | whether a reply goes out, and the log afterwards, purge included |
| BeaconLimiter.AtMostFiveReplies | lan_beacon.py:215-227 | in every run no 10 s window holds more than 5 replies to a source, whatever the purge drops |
| BeaconLimiter.RefusedOnlyAfterFive | lan_beacon.py:217-221 | a probe is refused exactly when five replies went to its source in the last 10 s |
| BeaconLimiter.LargeLogIsActive | lan_beacon.py:224-226 | in every run, after a reply a log over its limit holds only sources replied to within the window |
| IntegerWidth.FloorDivUnique | safe_math.py:159-166 | floor division and modulo are the only quotient and remainder with the divisor's sign and smaller magnitude |
| IntegerWidth.ProductWidth | safe_math.py:148-151 | a product is as wide as its factors together, or one bit less |
| IntegerWidth.PowerWidth | safe_math.py:130-135 | a power is at most one bit wider than its size estimate |
| SafeMath.OperateWithin | safe_math.py:130-177 | no operator computes an integer wider than 4097 bits from operands of at most 4096 |
| SafeMath.InvokeWithin | safe_math.py:48-108 | nor does any default function |
| SafeMath.ValueWithin | safe_math.py:120-127 | no value of an expression is wider than 4096 bits |
| SafeMath.ProductGuardIsLossless | safe_math.py:148-151 | a product the guard refuses is wider than 4096 bits |
| IntegerWidth.PowerWidthAtLeast | safe_math.py:130-135 | and at least one bit wider than the exponent times one bit less than the base |
| SafeMath.PowerGuardLosesExactlyWhen | safe_math.py:130-135 | for an exponent, some base within the limit is refused though its power is within the limit, if and only if the exponent is between 1 and 4096 and does not divide 4096 |
| SafeMath.PowerGuardIsNot | safe_math.py:130-135 | 2 ** 2049 is refused though it fits |
| SafeMath.IntegersAreExact | safe_math.py:130-212 | an integer expression evaluates to an integer exactly when it has a value in unbounded arithmetic with Python's floor division and modulo and all its parts fit, and to that value |
| SafeMath.ValueNeedsNoLimit | safe_math.py:186-188 | no meaning of an expression is the step limit's refusal |
| SafeMathRun.StrippedIs | safe_math.py:264-264 | the stripped text is what lies between the white space at both ends |
| SafeMathRun.Precheck | safe_math.py:233-244 | length, characters, double underscores, and no prefix nested deeper than 32 |
| SafeMathRun.ValidateTree | safe_math.py:247-254 | accepted exactly when a walk meets at most 200 nodes, all of known types |
| SafeMathRun.Evaluator.Eval | safe_math.py:186-230 | the value the expression means, in at most as many steps as it has nodes, unless the step limit stops it; every integer computed on the way is at most 4097 bits wide |
| SafeMathRun.Evaluate | safe_math.py:257-279 | with the default names: the value of the tree made of the stripped text with its carets replaced, if text and tree are accepted, and else a refusal; never the step limit's refusal, and no integer wider than 4097 bits |
| WallClock.ClassifyRtc | system/atlas_engine/clock.py:133-144 | kept time exactly for a plausible reading at most 120 s behind the floor; lost power exactly before 2025 |
| WallClock.FindFloor | system/atlas_engine/clock.py:124-130 | the latest plausible time of build and saved clock, the build's on a tie |
| WallClock.FloorIsUnique | system/atlas_engine/clock.py:124-130 | that property determines the floor |
| WallClock.Clock.ApplyFloor | system/atlas_engine/clock.py:204-211 | the clock is raised to the floor when more than a second below it, and otherwise left |
| WallClock.Clock.Boot | system/atlas_engine/clock.py:214-237 | clock and basis after a boot |
| WallClock.Clock.RtcAdded | system/atlas_engine/clock.py:240-258 | the floor again; a step of more than a minute resets the basis and restarts avahi |
| WallClock.Clock.SetTime | system/atlas_engine/clock.py:262-302 | the outcome of a correction, the clock and basis after it, and an avahi restart exactly for a backward step |
| WallClock.RtcVouchesWhen | system/atlas_engine/clock.py:214-237 | after a boot without NTP the basis is the RTC exactly when it kept time and the clock needed no step |
| WallClock.NeverADayBeforeBuild | system/atlas_engine/clock.py:204-302 | in every run from a boot on, the clock is never more than a day before the build time, except after the kernel set it there from a late RTC and before the floor is applied again; then it is no lower than the kernel set it |
| WallClock.BackstopEndsIt | system/atlas_engine/clock.py:240-258 | the kernel's step puts the clock so low exactly when the RTC is, and the backstop after it brings the clock to a second before the build time at least |
| WallClock.OnlyGpsGoesBack | system/atlas_engine/clock.py:204-302 | boot, the RTC backstop and phones never lower the clock they find |
| WallClock.BackwardNeedsGps | system/atlas_engine/clock.py:240-302 | in every stretch of a run in which neither a boot nor the kernel sets the clock, a clock that has gone back was set back by a GPS fix |
| WallClock.GpsGoesBackWhen | system/atlas_engine/clock.py:262-302 | exactly when a GPS fix does |
| WallClock.NtpRulesAll | system/atlas_engine/clock.py:275-276 | in every stretch of a run with corrections under synchronised NTP only, the basis stays and the clock moves by exactly the time passed |
| WallClock.PhoneMovesGpsClockWhen | system/atlas_engine/clock.py:275-282 | exactly when a phone changes a GPS-set clock |
| WallClock.GpsHoldsUntilBoot | system/atlas_engine/clock.py:240-302 | until a boot, a recorded late RTC step or such an NTP change, a GPS-set clock ignores every phone |
| Battery.InterpCurve | mesh_manager.py:74-85 | the percentage at a voltage on a falling curve, halves rounded to even |
| Battery.AtVoltageMonotone | mesh_manager.py:74-85 | it never falls as the voltage rises, on any such curve |
| Battery.CurveIsProper | mesh_manager.py:64-72 | the shipped curve is one, down to 0 percent |
| Battery.Lipo3sPercent | mesh_manager.py:87-121 | the estimate with its compensation and thresholds |
| Battery.DischargingIsCharging | mesh_manager.py:99-121 | a discharging status passes the charging thresholds too |
| Battery.EstimateWithin | mesh_manager.py:87-121 | the estimate is in 0..100 |
| Battery.EstimateMonotone | mesh_manager.py:87-121 | for a fixed current and status it never falls as the voltage rises |
| Battery.MedianInRange | mesh_manager.py:621-625 | with fewer than half the samples outside a range the median lies inside it |
| Battery.DisplayedBetweenGood | mesh_manager.py:615-632 | with at most (n - 1) / 2 outliers the displayed percentage lies between those of the lowest and highest good sample |
| Battery.HalfOutliersSuffice | mesh_manager.py:621-625 | with one outlier more it can be the outliers' |
| Battery.MeshManager.StabilizeHostPower | mesh_manager.py:596-637 | the window of the last five samples of the source and phase; its median rounded, the percentage it stands for and the power shown; what is kept beside them |
| PassageIndex.PassageStore.AddDocument | database.py:1291-1302 | a new document under a new identifier, and a new version |
| PassageIndex.PassageStore.UpdateEmbedding | database.py:1305-1309 | the document's embedding, and a new version |
| PassageIndex.PassageStore.DeleteDocument | database.py:1312-1317 | the document goes, and a new version |
| PassageIndex.PassageStore.CurrentLocked | vector_store.py:108-116 | an index of the current documents under the current version |
| PassageIndex.PassageStore.Current | vector_store.py:119-125 | the same through the lock-free path |
| PassageIndex.NextKeepsInv | vector_store.py:108-125 | every step of any reader or writer that does not take the version back keeps: an index that carries the current version is current unless a bump is still due |
| PassageIndex.CalmReadersAreFresh | vector_store.py:108-125 | in every interleaving in which no save takes the version back, a call that meets no writer between commit and bump returns exactly the current documents |
| PassageIndex.ApartGoesForward | database.py:1223-1225 | bumps that do not overlap, in one step or in two, never take the version back |
| PassageIndex.CanBeStaleExactlyWhen | database.py:1223-1225 | from any documents, some run has a call that meets no writer between commit and bump and returns a stale index, if and only if there are at least two writers and one reader |
| PassageIndex.SplitBumpIsStale | database.py:1223-1225 | such a run, with no writer under way at its end, for any documents stored last |
| WifiFailover.FailoverLoop.Pass | app.py:4706-4799 | one pass of the loop: its timers and what it does to the hotspot |
| WifiFailover.StartNeedsThirtySeconds | app.py:4741-4790 | before every start, every check that decided anything since some moment at least 30 s earlier saw no reachable LAN, the hotspot off and the fallback allowed |
| WifiFailover.StartsAreApart | app.py:4773-4779 | automatic starts are at least 30 s apart, failed ones included |
| WifiFailover.StartsExactlyWhen | app.py:4761-4779 | through such a stretch a start happens exactly when both 30 s have passed and the operations lock is free |
| WifiFailover.ResetDelaysStart | app.py:4743-4790 | in every run, after a check that saw a reachable LAN, a running hotspot or a withdrawn permission no automatic start comes for another 30 s |
| PromptBudget.Tokens | token_budget.py:25-26 | the least whole number of tokens that exceeds the characters over 33/10 |
| PromptBudget.FitHistory | token_budget.py:47-61 | exactly the longest suffix of the history that fits, and the accounts of it |
| PromptBudget.LongestFitCovers | token_budget.py:47-61 | a suffix fits exactly when it is part of that one |
| PromptBudget.HistoryKeepsItsFloor | token_budget.py:40-61 | for all passages within their budget and all histories every suffix costing at most 400 tokens is kept, if and only if a system text with the whole passage budget leaves 400 tokens |
| PromptBudget.AboveTheMinimum | token_budget.py:40-61 | it is, whenever what is left for passages is at least their minimum |
| PromptBudget.MinimumCrowdsOut | token_budget.py:40-44 | at the minimum it need not be |
| PromptBudget.StickyCoversDefault | ray_prompt.py:82-103 | the window is a suffix that covers the default one; when larger it fits, keeps to its length and starts where the last one did |

## Left out

- OSRM: adoption of instances from `osrm_active.json`, which no allocator guarantee covers; and that no process is
  leaked, because the dead-entry branch drops a slow process without stopping it.
- Hop planner: that every plan reaches the destination, because the search may find no next state; floating-point
  rounding.
- UBX: decoding of message payloads and sentence fields.
- UbxSplitter.Receiver.ReadLoop: does not model exceptions; one raised by a read of the loop ends it or is followed
  by the next read, and one raised by what handles a message drops the rest of its chunk.
- Kalman filter: rounding, and the fallback without numpy.
- Updates: fetching and checking the manifest, the engine's own verification and installation, pacing between
  retries, progress figures, a factory reset while a job is still writing, and garbage a power cut may leave in
  blocks the disk never finished.
- UpdateManager.Manager.RunJob: does not model a check that began before the job and ends during it
  (`StartDuringCheck`), because a job is one method here; what the files keep holds for any sequence of releases.
- Updates: several bundle names; each name has its own three files, and the model follows one name.
- Park trails: the response cache, positions without two coordinates, and how Python turns a name into lower case,
  which is a parameter.
- Pairing: setup-code hashing, the hotspot proof, cookies and the CSRF value; a token whose poller dies between
  taking the approval and receiving it is lost, which at-most-once allows.
- SafeMathRun.Evaluate: does not model functions and constants added by the caller, because their bodies are
  arbitrary code outside the evaluator.
- Evaluator: Python's parser, and floats, which are opaque values of the platform.
- Clock: waiting for the RTC, the hardware clock, and clock changes between two readings within one operation.
- Battery: status normalisation.
- Passage index: the vectors themselves, the refresh timer's length (it may fire at any check), and `invalidate`.
- Wi-Fi failover: what NetworkManager does with a start, and logging.
- Prompt budget: the text of prompts; only lengths count, at exactly 33/10 characters a token.
