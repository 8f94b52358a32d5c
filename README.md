# Throttling transport adapter and settings, modelled in Dafny

This project models five parts of an actor-runtime code base and proves properties of them:

- **The throttling transport adapter.** This is a fault-injection layer between remote association handles and the real transport. Per remote address it can pass traffic through, drop it (blackhole) or rate-limit it with a token bucket, for sending, receiving or both.
  - The throttle modes are immutable values (`ThrottleModes`).
  - The outbound handle updates its mode cell on every write (`ThrottlerHandles`).
  - The manager keeps the directive registry and the table of live handles (`ThrottlerManagers`).
  - The per-association throttler actor is a state machine. It buffers inbound payloads until its mode and listener are known, then releases them under the mode (`ThrottledAssociations`).
- **The cluster client's settings.** Validation, the `With*` copies and reading from configuration (`ClusterClientSettingsModel`).
- **The split brain resolver's settings.** Validation, the derived `down-all-when-unstable` duration and the strategy settings read on demand (`SplitBrainResolverSettingsModel`). `New` builds the settings as the code does, which accepts a `down-all-when-unstable` duration of any sign. `NewIntended` adds the check the code evidently meant to make (see Findings).
- **The buffer pool used when pooling is disabled** (`BufferPools`).
- **The list shuffle**, Sattolo's algorithm (`ListExtensions`).

How the source's forms are modelled:

- **Value types.** Modes and settings are datatypes, and their operations are functions.
- **Mutable objects.** The manager, the handle, the throttler actor and the pool are classes. Their methods update their fields in place.
- **The throttler actor.** Its `Receive` method is proved equal to a pure transition function, `Step`. Every property of the state machine is proved about `Step` and about `Run`, which folds `Step` over a sequence of events.
- **Actor plumbing.** Telling, asking, piping and timers become `Effect` values that a step returns.
- **Clock and randomness.** The clock is a `now` parameter, in nanoseconds. The shuffle's random draws are a `picks` sequence.
- **Configuration.** It is a typed tree (`Hocon`). A value's text and its readings as a duration, an integer or a boolean are given, not parsed.
- **Durations.** They are in ticks of 100 ns.

Helper modules:

- `Wrappers` defines `Option` and `Result`.
- `TransportTypes` defines addresses and payloads.
- `Subsequences` defines order-preserving selection.

How the throttler actor loses payloads:

- A blackhole mode clears the queue only when it arrives in `WaitMode` or in `Throttling`; it loses payloads only when that queue is not empty (src/core/Akka.Remote/Transport/ThrottleTransportAdapter.cs:1123-1125, 1193).
- An outbound association can queue payloads in `WaitModeAndUpstreamListener`. If it then receives its listener together with a blackhole mode, it keeps that queue. The Dequeue it sends itself on entering `Throttling` then releases the head of the queue. `ThrottledAssociations.OutboundBlackholeLeak` exhibits this.
- A disassociation or a failure stops the actor whatever is queued (src/core/Akka.Remote/Transport/ThrottleTransportAdapter.cs:1234-1244). The queue stays in the stopped actor and is never released (`ThrottledAssociations.StopAbandonsQueue`). Such a step counts as a discard, and so do the blackhole cases.
- A payload that arrives after the actor has stopped is not taken in.
- `ThrottledAssociations.RunKeepsOrder` holds for every run. `ThrottledAssociations.RunLossless` holds for runs that discard nothing.

## Model

| member | source | states |
|---|---|---|
| TransportTypes.NakedAddress | src/core/Akka.Remote/Transport/ThrottleTransportAdapter.cs:495-499 | the naked address has empty protocol and system and keeps host and port |
| TransportTypes.NakedAddressKey | src/core/Akka.Remote/Transport/ThrottleTransportAdapter.cs:495-499 | two addresses share a naked address exactly when host and port agree |
| TransportTypes.NakedAddressIdempotent | src/core/Akka.Remote/Transport/ThrottleTransportAdapter.cs:495-499 | stripping an address twice is the same as once |
| ThrottleModes.TruncDiv | src/core/Akka.Remote/Transport/ThrottleTransportAdapter.cs:693 | the `long` division rounds toward zero: for a non-negative dividend the quotient times the divisor lies within one divisor below it, for a negative one within one divisor above it |
| ThrottleModes.RoundHalfEven | src/core/Akka.Remote/Transport/ThrottleTransportAdapter.cs:695 | the integer conversion rounds a quotient to the nearest integer, at most half a unit away, and a tie goes to the even neighbour |
| ThrottleModes.TryConsumeTokens | src/core/Akka.Remote/Transport/ThrottleTransportAdapter.cs:606-682 | unthrottled admits and returns itself; blackhole refuses and returns itself; a refusal returns the same mode; a bucket keeps its capacity and rate; an admission stamps the send time and leaves at most the capacity |
| ThrottleModes.TimeToAvailable | src/core/Akka.Remote/Transport/ThrottleTransportAdapter.cs:612-689 | zero for unthrottled and blackhole; for a bucket, a number of seconds over the bucket's rate that is positive iff the tokens generated so far fall short of the frame (1 for an oversize frame) |
| ThrottleModes.BucketAdmissionRule | src/core/Akka.Remote/Transport/ThrottleTransportAdapter.cs:664-682 | an oversize frame passes iff the balance is positive; any other frame passes iff balance plus refill covers it |
| ThrottleModes.BucketAdmissionUpdate | src/core/Akka.Remote/Transport/ThrottleTransportAdapter.cs:672-682 | on admission the balance is refilled, charged and capped at capacity, never clamped at zero; only time and balance change |
| ThrottleModes.OversizeFrameCreatesDebt | src/core/Akka.Remote/Transport/ThrottleTransportAdapter.cs:664-679 | an oversize frame on a positive balance is admitted and leaves the bucket in debt |
| ThrottleModes.TokensGenerated | src/core/Akka.Remote/Transport/ThrottleTransportAdapter.cs:691-696 | the elapsed milliseconds times the rate, over 1000, rounded to the nearest integer with ties to even; never negative for a later clock reading, and zero at the time of the last send |
| ThrottleModes.TruncDivMonotone | src/core/Akka.Remote/Transport/ThrottleTransportAdapter.cs:693 | truncating division never reverses order |
| ThrottleModes.RoundHalfEvenMonotone | src/core/Akka.Remote/Transport/ThrottleTransportAdapter.cs:695 | rounding half to even never reverses order |
| ThrottleModes.TokensGeneratedMonotone | src/core/Akka.Remote/Transport/ThrottleTransportAdapter.cs:691-696 | a later clock reading never yields fewer generated tokens |
| ThrottleModes.AdmissionPersistsOverTime | src/core/Akka.Remote/Transport/ThrottleTransportAdapter.cs:664-696 | a frame admitted now is admitted at any later time |
| ThrottleModes.DueFrameIsAdmitted | src/core/Akka.Remote/Transport/ThrottleTransportAdapter.cs:664-689 | when the wait for a fitting frame is not positive and the bucket is not in debt, the frame is admitted |
| ThrottleModes.BucketNeverExceedsCapacity | src/core/Akka.Remote/Transport/ThrottleTransportAdapter.cs:672-682 | over any sequence of attempts a bucket stays a bucket with the same capacity and rate and never holds more than its capacity |
| ThrottleModes.TokenBucketScenario | src/core/Akka.Remote/Transport/ThrottleTransportAdapter.cs:664-696 | capacity 10 at 10/s: 4 pass, 7 refused at once, 7 pass one second later leaving 9 |
| ThrottlerHandles.ThrottlerHandle.constructor | src/core/Akka.Remote/Transport/ThrottleTransportAdapter.cs:856-867 | a new handle's outbound mode is unthrottled |
| ThrottlerHandles.ThrottlerHandle.CompareAndSet | src/core/Akka.Remote/Transport/ThrottleTransportAdapter.cs:883 | the cell is replaced exactly when it still holds the expected mode |
| ThrottlerHandles.ThrottlerHandle.TryConsume | src/core/Akka.Remote/Transport/ThrottleTransportAdapter.cs:875-887 | admits as the mode does and stores the consumed mode only on admission |
| ThrottlerHandles.ThrottlerHandle.Write | src/core/Akka.Remote/Transport/ThrottleTransportAdapter.cs:870-893 | under blackhole: reports written, forwards nothing, cell unchanged; otherwise forwards iff admitted, reports written iff admitted and the wrapped handle accepted, cell holds the consumed mode iff admitted |
| ThrottlerManagers.PartitionByAddress | src/core/Akka.Remote/Transport/ThrottleTransportAdapter.cs:421-451 | the rows for an address and the rows kept are a partition of the table: lengths and multisets add up, and membership is exactly by address |
| ThrottlerManagers.RemainingConcat | src/core/Akka.Remote/Transport/ThrottleTransportAdapter.cs:448 | removing an address's rows distributes over concatenation |
| ThrottlerManagers.RemainingUntouched | src/core/Akka.Remote/Transport/ThrottleTransportAdapter.cs:448 | a table without rows for the address is left as it is |
| ThrottlerManagers.ThrottlerManager.constructor | src/core/Akka.Remote/Transport/ThrottleTransportAdapter.cs:334-345 | no directives and no handles |
| ThrottlerManagers.ThrottlerManager.GetInboundMode | src/core/Akka.Remote/Transport/ThrottleTransportAdapter.cs:501-508 | by direction: Receive and Both give the stored mode, Send gives unthrottled; no directive gives unthrottled |
| ThrottlerManagers.ThrottlerManager.GetOutboundMode | src/core/Akka.Remote/Transport/ThrottleTransportAdapter.cs:510-517 | by direction: Send and Both give the stored mode, Receive gives unthrottled; no directive gives unthrottled |
| ThrottlerManagers.DirectionFiltering | src/core/Akka.Remote/Transport/ThrottleTransportAdapter.cs:501-517 | Both gives the mode both ways; Send only outbound; Receive only inbound |
| ThrottlerManagers.NoDirectiveMeansUnthrottled | src/core/Akka.Remote/Transport/ThrottleTransportAdapter.cs:501-517 | without a directive both directions are unthrottled |
| ThrottlerManagers.ThrottlerManager.SetMode | src/core/Akka.Remote/Transport/ThrottleTransportAdapter.cs:527-536 | sets the handle's outbound cell only for Send/Both and asks the throttler actor only for Receive/Both |
| ThrottlerManagers.ThrottlerManager.SetThrottle | src/core/Akka.Remote/Transport/ThrottleTransportAdapter.cs:398-419 | records the directive; asks every handle of that address in table order, then acks; with Send/Both every such handle's cell holds the mode; no other handle, address or table row changes |
| ThrottlerManagers.ThrottlerManager.ForceDisassociate | src/core/Akka.Remote/Transport/ThrottleTransportAdapter.cs:421-451 | disassociates exactly the address's handles in table order, removes exactly their rows, then acks |
| ThrottlerManagers.ThrottlerManager.ForceDisassociateExplicitly | src/core/Akka.Remote/Transport/ThrottleTransportAdapter.cs:453-481 | fails exactly the address's handles with the reason, removes exactly their rows, then acks |
| ThrottlerManagers.ThrottlerManager.Checkin | src/core/Akka.Remote/Transport/ThrottleTransportAdapter.cs:483-489 | appends the row and applies the stored directive, or unthrottled both ways |
| ThrottlerManagers.ThrottlerManager.AssociateResult | src/core/Akka.Remote/Transport/ThrottleTransportAdapter.cs:383-396 | a new handle whose cell holds the outbound mode; the row is appended; the actor is piped its listener with the inbound mode; the association completes |
| ThrottlerManagers.ThrottlerManager.InboundAssociation | src/core/Akka.Remote/Transport/ThrottleTransportAdapter.cs:355-360 | a new unthrottled handle, told to its throttler actor |
| ThrottledAssociations.Initial | src/core/Akka.Remote/Transport/ThrottleTransportAdapter.cs:1249-1255 | inbound starts waiting for its handle; outbound registers its read handler and waits for listener and mode; nothing queued |
| ThrottledAssociations.ScheduleDequeue | src/core/Akka.Remote/Transport/ThrottleTransportAdapter.cs:1282-1290 | nothing under blackhole; otherwise exactly one Dequeue, sent at once iff the delay is not positive, else by timer |
| ThrottledAssociations.Step | src/core/Akka.Remote/Transport/ThrottleTransportAdapter.cs:1075-1247 | every step keeps the state invariant; a stopped actor ignores everything |
| ThrottledAssociations.ThrottledAssociation.constructor | src/core/Akka.Remote/Transport/ThrottleTransportAdapter.cs:1066-1074 | the fields hold the start state |
| ThrottledAssociations.ThrottledAssociation.HandleUnhandled | src/core/Akka.Remote/Transport/ThrottleTransportAdapter.cs:1224-1247 | a mode is recorded and acked; Disassociated stops silently; FailWith stops and notifies a known listener |
| ThrottledAssociations.ThrottledAssociation.ForwardOrDelay | src/core/Akka.Remote/Transport/ThrottleTransportAdapter.cs:1292-1322 | the fields change as the pure step says |
| ThrottledAssociations.ThrottledAssociation.Receive | src/core/Akka.Remote/Transport/ThrottleTransportAdapter.cs:1075-1247 | keeps the invariant, and the new fields and effects are exactly those of `Step` |
| ThrottledAssociations.Run | src/core/Akka.Remote/Transport/ThrottleTransportAdapter.cs:1075-1247 | any sequence of events keeps the state invariant |
| ThrottledAssociations.ScheduleDeliversNothing | src/core/Akka.Remote/Transport/ThrottleTransportAdapter.cs:1282-1290 | scheduling releases no payload, acks nothing, and yields at most one effect |
| ThrottledAssociations.StepReleases | src/core/Akka.Remote/Transport/ThrottleTransportAdapter.cs:1188-1222 | a step releases the head on a Dequeue, the arriving payload when admitted straight through with nothing queued, and nothing else |
| ThrottledAssociations.StepLossless | src/core/Akka.Remote/Transport/ThrottleTransportAdapter.cs:1091-1244 | a step that throws nothing away: released plus queued equals old queue plus payload taken in |
| ThrottledAssociations.WaitingLossless | src/core/Akka.Remote/Transport/ThrottleTransportAdapter.cs:1091-1186 | before throttling, a step that throws nothing away only queues: queue plus releases equals old queue plus payload taken in |
| ThrottledAssociations.ThrottlingLossless | src/core/Akka.Remote/Transport/ThrottleTransportAdapter.cs:1188-1222 | while throttling, a step that throws nothing away moves payloads from the queue to the listener without loss or reordering |
| ThrottledAssociations.StepKeepsOrder | src/core/Akka.Remote/Transport/ThrottleTransportAdapter.cs:1091-1222 | any step: released plus queued is an order-preserving selection of old queue plus payload taken in |
| ThrottledAssociations.RunLossless | src/core/Akka.Remote/Transport/ThrottleTransportAdapter.cs:1091-1244 | over a run that discards nothing, payloads are released in arrival order, none lost or duplicated, and a live actor that stops during the run stops with an empty queue |
| ThrottledAssociations.RunKeepsOrder | src/core/Akka.Remote/Transport/ThrottleTransportAdapter.cs:1091-1222 | over any run, payloads may be dropped but never reordered or duplicated |
| ThrottledAssociations.DiscardsOnlyUnderBlackhole | src/core/Akka.Remote/Transport/ThrottleTransportAdapter.cs:1077-1222 | a step whose releases plus queue differ from the old queue plus the payload taken in is a blackhole mode in WaitMode or Throttling with payloads queued, a payload under blackhole while throttling, or a payload before the handle is known |
| ThrottledAssociations.StopLeavesNothing | src/core/Akka.Remote/Transport/ThrottleTransportAdapter.cs:1234-1244 | a live actor that stops on a step that discards nothing stops with an empty queue |
| ThrottledAssociations.StopAbandonsQueue | src/core/Akka.Remote/Transport/ThrottleTransportAdapter.cs:1234-1244 | a disassociation or failure stops a live actor without releasing anything; its queue stays, and every later event is ignored |
| ThrottledAssociations.EveryModeChangeAcknowledged | src/core/Akka.Remote/Transport/ThrottleTransportAdapter.cs:1117-1232 | in every live state a mode is recorded and acked exactly once, as the last effect |
| ThrottledAssociations.BlackholeInWaitModeStops | src/core/Akka.Remote/Transport/ThrottleTransportAdapter.cs:1117-1145 | a blackhole in WaitMode clears the queue, disassociates the handle, acks and stops |
| ThrottledAssociations.BlackholeWhileThrottlingClearsQueue | src/core/Akka.Remote/Transport/ThrottleTransportAdapter.cs:1190-1198 | a blackhole while throttling clears the queue, cancels the timer, schedules nothing and acks |
| ThrottledAssociations.ImmediateReleaseOnlyWhenQueueEmpty | src/core/Akka.Remote/Transport/ThrottleTransportAdapter.cs:1292-1322 | an arriving payload is released at once iff nothing is queued, the mode is not a blackhole and it admits the payload |
| ThrottledAssociations.DequeueReleasesHead | src/core/Akka.Remote/Transport/ThrottleTransportAdapter.cs:1207-1219 | a Dequeue releases exactly the oldest payload, charges it to the mode, and schedules only if more is queued |
| ThrottledAssociations.BlackholeSilences | src/core/Akka.Remote/Transport/ThrottleTransportAdapter.cs:1188-1247 | once throttling under blackhole with nothing queued, nothing is released until the next mode change |
| ThrottledAssociations.SilentStep | src/core/Akka.Remote/Transport/ThrottleTransportAdapter.cs:1188-1247 | under blackhole with nothing queued, any event but a mode change releases nothing and leaves the actor silent |
| ThrottledAssociations.OutboundBlackholeLeak | src/core/Akka.Remote/Transport/ThrottleTransportAdapter.cs:1169-1216 | a payload queued before listener and blackhole arrive together is still released |
| ThrottledAssociations.InboundHandshake | src/core/Akka.Remote/Transport/ThrottleTransportAdapter.cs:1077-1164 | handle, associate payload, mode and listener lead through every state to Throttling and release the payload |
| Hocon.GetConfig | src/core/Akka.Cluster/SBR/SplitBrainResolverSettings.cs:72-75 | a one-element path selects that sub-object |
| Hocon.ToLowerInvariant | src/contrib/cluster/Akka.Cluster.Tools/Client/ClusterClientSettings.cs:59 | lower-cases letter by letter, keeping the length |
| Hocon.ToLowerInvariantIdempotent | src/contrib/cluster/Akka.Cluster.Tools/Client/ClusterClientSettings.cs:59 | lower-casing twice is lower-casing once and leaves no upper-case letter |
| Hocon.LowerCaseUnchanged | src/contrib/cluster/Akka.Cluster.Tools/Client/ClusterClientSettings.cs:59 | a text without upper-case letters is its own lower-casing |
| Hocon.TrimStart | src/core/Akka.Cluster/SBR/SplitBrainResolverSettings.cs:116 | drops exactly the leading white space: the result is a suffix, everything before it is white space, and it does not start with white space |
| Hocon.TrimEnd | src/core/Akka.Cluster/SBR/SplitBrainResolverSettings.cs:116 | drops exactly the trailing white space: the result is a prefix, everything after it is white space, and it does not end with white space |
| Hocon.TrimIsSlice | src/core/Akka.Cluster/SBR/SplitBrainResolverSettings.cs:116 | trimming keeps a contiguous slice, drops only white space, and leaves no white space at either end |
| Hocon.TrimEmptyIffBlank | src/core/Akka.Cluster/SBR/SplitBrainResolverSettings.cs:116-118 | a text trims to empty iff it is all white space |
| Hocon.TrimSlice | src/core/Akka.Cluster/SBR/SplitBrainResolverSettings.cs:116 | the trimmed text is the slice of the text after its leading white space |
| Hocon.TrimDropsTrailingBlank | src/core/Akka.Cluster/SBR/SplitBrainResolverSettings.cs:116 | everything after the trimmed text is white space |
| Hocon.TrimEndsNotBlank | src/core/Akka.Cluster/SBR/SplitBrainResolverSettings.cs:116 | a non-empty trimmed text starts and ends with a non-white-space character |
| ClusterClientSettingsModel.New | src/contrib/cluster/Akka.Cluster.Tools/Client/ClusterClientSettings.cs:218-247 | succeeds iff 0 <= buffer size <= 10000; absent discovery settings become the empty ones; all else kept |
| ClusterClientSettingsModel.NewWithoutSerializationChoice | src/contrib/cluster/Akka.Cluster.Tools/Client/ClusterClientSettings.cs:145-165 | the same bound; legacy serialization on, no discovery, empty discovery settings, no verbose logging |
| ClusterClientSettingsModel.NewWithoutDiscovery | src/contrib/cluster/Akka.Cluster.Tools/Client/ClusterClientSettings.cs:178-201 | the same bound; no discovery, empty discovery settings, no verbose logging |
| ClusterClientSettingsModel.Copy | src/contrib/cluster/Akka.Cluster.Tools/Client/ClusterClientSettings.cs:323-348 | each given value replaces its field and each absent one keeps the old value, as `??` does; fails, with the buffer-size error, iff the resulting buffer size is out of range |
| ClusterClientSettingsModel.CopyNothingIsIdentity | src/contrib/cluster/Akka.Cluster.Tools/Client/ClusterClientSettings.cs:323-348 | copying with nothing given reproduces the settings |
| ClusterClientSettingsModel.WithInitialContacts | src/contrib/cluster/Akka.Cluster.Tools/Client/ClusterClientSettings.cs:255-263 | an empty set is refused; otherwise only the contacts change |
| ClusterClientSettingsModel.WithEstablishingGetContactsInterval | src/contrib/cluster/Akka.Cluster.Tools/Client/ClusterClientSettings.cs:270-273 | only that interval changes |
| ClusterClientSettingsModel.WithRefreshContactsInterval | src/contrib/cluster/Akka.Cluster.Tools/Client/ClusterClientSettings.cs:280-283 | only that interval changes |
| ClusterClientSettingsModel.WithHeartbeatInterval | src/contrib/cluster/Akka.Cluster.Tools/Client/ClusterClientSettings.cs:290-293 | only that interval changes |
| ClusterClientSettingsModel.WithBufferSize | src/contrib/cluster/Akka.Cluster.Tools/Client/ClusterClientSettings.cs:300-303 | only the buffer size changes, and an out-of-range size is refused |
| ClusterClientSettingsModel.WithReconnectTimeout | src/contrib/cluster/Akka.Cluster.Tools/Client/ClusterClientSettings.cs:310-313 | a given timeout replaces the old one; an absent one keeps it |
| ClusterClientSettingsModel.WithUseLegacySerialization | src/contrib/cluster/Akka.Cluster.Tools/Client/ClusterClientSettings.cs:315-316 | only that flag changes |
| ClusterClientSettingsModel.WithInitialContactsDiscovery | src/contrib/cluster/Akka.Cluster.Tools/Client/ClusterClientSettings.cs:318-321 | the flag changes; absent discovery settings keep the old ones |
| ClusterClientSettingsModel.WithKeepsValidity | src/contrib/cluster/Akka.Cluster.Tools/Client/ClusterClientSettings.cs:231-234 | copies of valid settings are valid, and a buffer-size copy succeeds iff the size is in range |
| ClusterClientSettingsModel.ReconnectTimeout | src/contrib/cluster/Akka.Cluster.Tools/Client/ClusterClientSettings.cs:59-65 | no timeout exactly when the text lower-cases to off, false or no; otherwise the duration read, and a failure only when it is not a duration |
| ClusterClientSettingsModel.OffWordsAnyCase | src/contrib/cluster/Akka.Cluster.Tools/Client/ClusterClientSettings.cs:59-63 | "OFF", "False" and "No" switch the timeout off, "on" does not |
| ClusterClientSettingsModel.ToActorPaths | src/contrib/cluster/Akka.Cluster.Tools/Client/ClusterClientSettings.cs:57 | the contacts are exactly the configured paths |
| ClusterClientSettingsModel.Create | src/contrib/cluster/Akka.Cluster.Tools/Client/ClusterClientSettings.cs:52-78 | an empty section fails; a result is valid and every field equals its configured reading: the contacts, the four intervals, the buffer size, the parsed reconnect timeout, the three flags, and the given discovery settings; an out-of-range buffer size fails; and it succeeds whenever the section is non-empty, every reading succeeds and the buffer size is in range |
| ClusterClientSettingsModel.ReconnectTimeoutExamples | src/contrib/cluster/Akka.Cluster.Tools/Client/ClusterClientSettings.cs:59-65 | "Off" gives no timeout; a missing key gives a zero timeout |
| SplitBrainResolverSettingsModel.New | src/core/Akka.Cluster/SBR/SplitBrainResolverSettings.cs:31-68 | as the code does: succeeds iff the section is non-empty, stable-after is positive, the lower-cased strategy is known and down-all-when-unstable is "on", "off" or a readable duration of any sign; never fails for a non-positive down-all duration; the result holds the section, the configured stable-after, the lower-cased strategy and the derived down-all duration |
| SplitBrainResolverSettingsModel.DownAllWhenUnstableAsWritten | src/core/Akka.Cluster/SBR/SplitBrainResolverSettings.cs:48-67 | any readable duration, negative included, is accepted: the non-positive error is never returned |
| SplitBrainResolverSettingsModel.NewAcceptsNonPositiveDownAll | src/core/Akka.Cluster/SBR/SplitBrainResolverSettings.cs:61-66 | with stable-after 20 s, a down-all duration of zero or less, or an absent one, builds settings holding that value, and the intended constructor refuses it |
| SplitBrainResolverSettingsModel.DownAllWhenUnstableMeaning | src/core/Akka.Cluster/SBR/SplitBrainResolverSettings.cs:48-67 | for the intended derivation: zero iff "off"; never negative; "on" gives the larger of 4 s and 3/4 of stable-after |
| SplitBrainResolverSettingsModel.IntendedRefinesAsWritten | src/core/Akka.Cluster/SBR/SplitBrainResolverSettings.cs:48-67 | the intended derivation agrees with the code except that it refuses a readable duration that is not positive |
| SplitBrainResolverSettingsModel.NewIntended | src/core/Akka.Cluster/SBR/SplitBrainResolverSettings.cs:31-68 | the intended constructor: what the code builds, refusing exactly a non-positive down-all duration; its down-all duration is never negative and is zero iff "off" |
| SplitBrainResolverSettingsModel.NegativeDownAllWhenUnstableAccepted | src/core/Akka.Cluster/SBR/SplitBrainResolverSettings.cs:61-66 | -5s is accepted as written and refused by the intended check |
| SplitBrainResolverSettingsModel.StrategyNameAnyCase | src/core/Akka.Cluster/SBR/SplitBrainResolverSettings.cs:43-46 | "Keep-Majority" selects keep-majority |
| SplitBrainResolverSettingsModel.DownAllOnBuilds | src/core/Akka.Cluster/SBR/SplitBrainResolverSettings.cs:48-67 | with stable-after 20 s and "on", the settings build with a down-all duration of 15 s |
| SplitBrainResolverSettingsModel.Role | src/core/Akka.Cluster/SBR/SplitBrainResolverSettings.cs:77-83 | a role is present iff configured and non-empty |
| SplitBrainResolverSettingsModel.KeepMajorityRole | src/core/Akka.Cluster/SBR/SplitBrainResolverSettings.cs:85 | the role configured in the keep-majority sub-section, present iff configured and non-empty |
| SplitBrainResolverSettingsModel.StaticQuorum | src/core/Akka.Cluster/SBR/SplitBrainResolverSettings.cs:87-96 | succeeds iff the quorum size reads and is at least 1, a smaller size failing with the quorum error; the size and role are the configured ones |
| SplitBrainResolverSettingsModel.KeepOldest | src/core/Akka.Cluster/SBR/SplitBrainResolverSettings.cs:98-104 | down-if-alone and role as configured |
| SplitBrainResolverSettingsModel.LeaseMajority | src/core/Akka.Cluster/SBR/SplitBrainResolverSettings.cs:106-123 | a missing or empty implementation fails; an unreadable acquire-lease-delay-for-minority fails with its reading error; a missing lease name fails; an unreadable release-after fails; it succeeds whenever the implementation is set and the three other readings succeed; the implementation, both durations and the role are the configured ones; the lease name is the trimmed text, none iff blank |
| SplitBrainResolverSettingsModel.SafeLeaseName | src/core/Akka.Cluster/SBR/SplitBrainResolverSettings.cs:178-181 | the configured lease name, else the system name followed by "-akka-sbr" |
| SplitBrainResolverSettingsModel.SafeLeaseNameNeverBlank | src/core/Akka.Cluster/SBR/SplitBrainResolverSettings.cs:116-118 | the lease name in use is never empty, and a configured one has no white space at its ends |
| SplitBrainResolverSettingsModel.StrategySettingsCheckedLazily | src/core/Akka.Cluster/SBR/SplitBrainResolverSettings.cs:85-96 | a quorum size of 0 does not stop keep-majority settings from building; only reading the static quorum fails |
| BufferPools.DisabledBufferPool.constructor | src/core/Akka/IO/Buffers/DisabledBufferPool.cs:25-30 | keeps the buffer size |
| BufferPools.DisabledBufferPool.New | src/core/Akka/IO/Buffers/DisabledBufferPool.cs:25-30 | succeeds iff the buffer size is positive |
| BufferPools.DisabledBufferPool.FromConfig | src/core/Akka/IO/Buffers/DisabledBufferPool.cs:21-23 | buffer-size from configuration, 256 when absent |
| BufferPools.DisabledBufferPool.BytesRequired | src/core/Akka/IO/Buffers/DisabledBufferPool.cs:36 | the larger of the request and the buffer size |
| BufferPools.DisabledBufferPool.RentOfSize | src/core/Akka/IO/Buffers/DisabledBufferPool.cs:55-59 | a new zero-filled array of exactly that size, covered from offset 0 |
| BufferPools.DisabledBufferPool.Rent | src/core/Akka/IO/Buffers/DisabledBufferPool.cs:32 | a new buffer of exactly the buffer size |
| BufferPools.DisabledBufferPool.RentAtLeast | src/core/Akka/IO/Buffers/DisabledBufferPool.cs:34-38 | exactly one new buffer, as large as the request and the buffer size |
| BufferPools.DisabledBufferPool.Release | src/core/Akka/IO/Buffers/DisabledBufferPool.cs:40-43 | changes nothing |
| BufferPools.DisabledBufferPool.ReleaseAll | src/core/Akka/IO/Buffers/DisabledBufferPool.cs:45-51 | changes none of the buffers |
| BufferPools.DisabledBufferPool.Diagnostics | src/core/Akka/IO/Buffers/DisabledBufferPool.cs:53 | total, free and used are all zero |
| BufferPools.RentsAreDisjoint | src/core/Akka/IO/Buffers/DisabledBufferPool.cs:55-59 | two rents never share an array |
| ListExtensions.PicksExist | src/core/Akka/Util/Internal/Collections/ListExtensions.cs:22 | every length has valid draws |
| ListExtensions.Swapped | src/core/Akka/Util/Internal/Collections/ListExtensions.cs:24-26 | the two elements trade places and all others stay |
| ListExtensions.ShuffleDown | src/core/Akka/Util/Internal/Collections/ListExtensions.cs:20-27 | the swaps keep the length |
| ListExtensions.Shuffle | src/core/Akka/Util/Internal/Collections/ListExtensions.cs:20-27 | the shuffle keeps the length |
| ListExtensions.SwapKeepsElements | src/core/Akka/Util/Internal/Collections/ListExtensions.cs:24-26 | a swap keeps the multiset |
| ListExtensions.ShuffleDownPermutes | src/core/Akka/Util/Internal/Collections/ListExtensions.cs:20-27 | the remaining swaps keep the multiset |
| ListExtensions.ShufflePermutes | src/core/Akka/Util/Internal/Collections/ListExtensions.cs:20-27 | the shuffle is a permutation |
| ListExtensions.ShortListUnchanged | src/core/Akka/Util/Internal/Collections/ListExtensions.cs:20 | lists of length 0 or 1 come back equal |
| ListExtensions.ShuffleDownTracks | src/core/Akka/Util/Internal/Collections/ListExtensions.cs:20-27 | swapping a list and its record of origins alike keeps the record true |
| ListExtensions.SwapFinalises | src/core/Akka/Util/Internal/Collections/ListExtensions.cs:20-26 | a swap with a position strictly below fixes the current position with a foreign element |
| ListExtensions.ShuffleDownDeranges | src/core/Akka/Util/Internal/Collections/ListExtensions.cs:20-27 | finishing the walk moves every element |
| ListExtensions.ShuffleIsDerangement | src/core/Akka/Util/Internal/Collections/ListExtensions.cs:20-22 | with two or more elements, every position receives an element from another position |
| ListExtensions.ShuffleMovesDistinctElements | src/core/Akka/Util/Internal/Collections/ListExtensions.cs:20-27 | with distinct elements, no element stays in place |
| ListExtensions.Swap | src/core/Akka/Util/Internal/Collections/ListExtensions.cs:24-26 | the array holds its old contents with the two elements exchanged |
| ListExtensions.SwapLoop | src/core/Akka/Util/Internal/Collections/ListExtensions.cs:20-27 | the array ends as the shuffle of its old contents |
| ListExtensions.ShuffleList | src/core/Akka/Util/Internal/Collections/ListExtensions.cs:16-29 | a new array holding the shuffle of the input; the input is not modified |
| ListExtensions.ShuffleImmutable | src/core/Akka/Util/Internal/Collections/ListExtensions.cs:31-46 | the shuffle of the input list |

Helpers without a row: `ThrottleModes.IsAvailable` is stated by `ThrottleModes.BucketAdmissionRule`; `Hocon.Trim` by `Hocon.TrimIsSlice`, `Hocon.TrimSlice`, `Hocon.TrimDropsTrailingBlank`, `Hocon.TrimEndsNotBlank` and `Hocon.TrimEmptyIffBlank`; `SplitBrainResolverSettingsModel.DownAllWhenUnstable` by `SplitBrainResolverSettingsModel.DownAllWhenUnstableMeaning` and `SplitBrainResolverSettingsModel.IntendedRefinesAsWritten`; `SplitBrainResolverSettingsModel.StrategyConfig`, which selects a strategy's sub-section, by `Hocon.GetConfig`.

## Left out

- Integer widths are not modelled. The adapter's `int`/`long` arithmetic, and the tick counts of `TimeSpan`, are unbounded integers here.
- The token bucket's rate is a positive whole number here; in the source it is a `double`. The arithmetic is exact for whole rates. Fractional rates, a zero rate and floating-point rounding are not modelled.
- `ThrottleModes.TimeToAvailable` returns the exact number of seconds as a fraction. The model uses only the sign of that wait, to choose between an immediate Dequeue and a timer. The `TimeSpan` conversion is not modelled.
- `ThrottleModes.TruncDiv`: the nanosecond-to-tick conversion is taken as a truncating division by 100. The conversion helper is not part of this model.
- Each event reads the clock once. Where the source reads it several times while handling one event, all reads see the same `now`.
- `ThrottlerHandles.ThrottlerHandle.Write`: the compare-and-set retry loop is modelled single-threaded. Its compare-and-set always succeeds, so the retry on contention is never taken. Concurrent writers are not modelled.
- Actor plumbing is reduced to effects: `Tell`, `Ask`, `PipeTo`, `Task.WhenAll`, timers, `PromiseActorRef` and its watch, and the ask timeout.
  - An ask that times out, or an actor that dies, is not modelled.
  - The manager acknowledges SetThrottle only after every ask completes. The model emits the acknowledgement after the asks, without waiting for them.
- These parts of the adapter are left out:
  - `AssociateUnderlying`, which is a call into the wrapped transport;
  - `ManagementCommand`;
  - the wrapping of handles in new actors (`WrapHandle`);
  - the unique naming of managers.
- `ThrottledAssociations.Step`: `PeekOrigin` decodes a frame with the protocol codec. Here it is a function parameter that yields an origin or nothing, and never fails.
- `Create(ActorSystem)` for the cluster client settings is left out. It reads the system's configuration and changes its serialization bindings.
- Cluster client discovery settings are an opaque value. The contact discovery settings class is not part of this model.
- Actor-path parsing of the initial contacts is not modelled. A malformed path, which the source rejects, is accepted here.
- The configuration library is not part of this model:
  - parsing text into durations, numbers and booleans;
  - paths given as dotted strings;
  - the exact behaviour of a getter when a key is missing.
  - Every missing key reads as the getter's default: an empty string, 0, false or an empty list. A missing lease-name reads as nothing, and the source then fails when it trims it.
- `Hocon.ToLowerInvariant` maps only the ASCII letters. Culture-invariant lower-casing of other scripts is not modelled.
- The SBR strategy settings are recomputed on each access. The source computes them once and caches them, which gives the same value because the section never changes.
- `BufferPools.DisabledBufferPool.Release`: "left to the garbage collector" is not modelled, because memory reclamation is not part of Dafny's semantics.
- `ListExtensions.ShuffleList`: the random generator is replaced by the `picks` sequence. The model proves what holds for every possible sequence of draws. It does not model the probability distribution.

## Findings

| source | as written | input that shows it | evidently intended | confidence | as-written member | corrected member |
|---|---|---|---|---|---|---|
| src/core/Akka.Cluster/SBR/SplitBrainResolverSettings.cs:61-66 | the check after reading `down-all-when-unstable` as a duration tests `stable-after`, which is already known to be positive, so the check never fails | `stable-after = 20s`, `down-all-when-unstable = -5s`: accepted, giving -50 000 000 ticks | reject a duration that is not positive, as the error message and the `stable-after` check beside it suggest | high, not executed | SplitBrainResolverSettingsModel.NewAcceptsNonPositiveDownAll | SplitBrainResolverSettingsModel.NewIntended |
