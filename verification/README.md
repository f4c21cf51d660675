# DataKit Operator: a verified model

This project models the parts of the operator whose correctness rests on more than one function at a
time, and proves what they promise.  `dafny verify dfyconfig.toml` checks all of it.

## What is modelled

**Lease election** (`apis/election`).  `Leases`, `Observations` and `LeaseNames` are the record, the
two-slot memory with its expiry arithmetic, and the buffer that names a scope.  `ElectionProtocol` is
the system as steps: a clock, one store with its history of committed versions, any number of
coordinators that restart with new clock offsets, a cache that answers with any past version, calls in
every stage of `elect`, lost requests, deletions, and metrics scrapes, which also read the timers.
`ElectionInvariants`, `ElectionSafety` and `WallClock` prove properties of every run.
`ElectionGrants`, `ElectionDefeats`, `FalseDefeats` and `RestartDefeats` say exactly when a granted id
can be turned down although nothing has taken its Lease.  `Verdicts` says what each critical section must
answer and write, and `ElectionProgress` that a stopped holder can be replaced.  `Coordinators` is the
real retry loop against a store that others change between any two of its requests, and
`ElectionRefinement` ties the loop to the protocol in both directions.

**Label selectors** (`pkg/labels/selector.go`).  `LabelLexer`, `LabelParser` and `Selectors` hold the
lexer and parser objects, each proved against a grammar on the remaining text, the meaning of
requirements and the printer.  `SelectorTexts` and `SelectorLanguage` say exactly which texts are
selectors, `SelectorMeaning` which labels they match, told from the text, and `SelectorRoundTrip` that
parsing undoes printing.

**The admission patch** (`apis/webhook/pod_patch.go`, `pkg/manager`).  `Json` and `JsonPatch` give
pointers and operations the meaning of RFC 6901 and RFC 6902.  `PodJson` says when a document describes
a pod, `PodPatch` holds the builders, `PodPatchFields` and `PodPatchCorrectness` prove what the
operations do to any document of the old pod, `PodHistories` says exactly when the new pod is rebuilt,
and `PatchLaws` which operations are chosen and what each does.  `PodManagers` is the manager object.

**Tracing injection** (`apis/webhook/injector`).  `DDTrace`, `OTel` and `Tracing` are the step as
functions of the pod, `TracingResources` the loops that change it in place.  `TracingOutcomes`,
`DDTraceOutcomes` and `OTelOutcomes` say which pods are injected, with which rule and image, and what
their variables, mounts and containers then are, in the names and paths of each language.  The other
modules prove that a second run changes nothing, that a pod never gets both libraries, how `DD_TAGS` is
merged, and that the admission patch carries the result.

**Logging configuration** (`apis/logging/config`).  `LoggingCache` is the ordered cache,
`LoggingWatcher` the informer, work queue and worker as steps, `LoggingWorker` the worker loop with
everything that may happen in between.  `LoggingQueries` says which queries find which stored
configurations.

## Reading the model

- A mutating object of the source is a class whose methods are proved against functions of its value;
  properties over runs are about those functions.  `was` and `now` name the two pods of a comparison.
- Times are nanoseconds.  The version of a Lease is its position in the history of commits, and the uid
  of an object is the version that created it, which makes both globally fresh.  A coordinator's elapsed
  time is the global time minus its own offset: clock rates are equal, offsets arbitrary.
- An id leads on an object from the moment it has a success until the duration in that answer has passed
  since the request was sent.  Results over runs assume that epochs stay below 2^31 - 1, where
  `Leases.AcquireRaisesEpoch` has its exception; ids are not empty, as `apis/election/handler.go:80`
  demands.  Deletions are allowed throughout, but for `ElectionSafety.AtMostOneLeaderEver` and
  `ElectionDefeats.UndeletedNoFalseDefeat`.
- A false defeat is a coordinator turning a heartbeat that began after the grant down although the
  granted object is still stored, no later epoch was committed and the version that the heartbeat read
  from the store, if it got that far, has not aged.  For a coordinator that is not restarted and knows
  the term, `ElectionGrants.Exposed` is the condition: among the store reads that the coordinator has in
  flight one is of another object, and one (perhaps the same) contradicts the id, which means that its
  object has a version of that epoch or a later one held by someone else; when the only such version is
  the one that was read, its timer must still be able to run.  With restarts, or when
  the coordinator has read nothing from the store yet, it is `ElectionGrants.Contested`.
- A Go string is a sequence of characters: bytes for selectors, code points for tracing, where
  `strings.Fields` splits at Unicode spaces.
- Library code is a parameter and any function will do: validation, globs and integer syntax of
  selectors (`Selectors.Rules`), JSON forms of leaf records (`PodJson.Codecs`, which must read back what
  they write), regular expressions and encoding (`LoggingCache.Library`), rule tables, image versions and
  the comparison of security contexts (`TracingRules.Config`).
- The patch is applied to the submitted document, not to the decoded pod, so the results are about every
  document that describes the pod: null and missing fields, numbers and unknown members, and all else.

## Where the code does less than it might seem

- An epoch of 2^31 - 1 wraps around (`Leases.EpochWrapsAround`).  Lengths are hashed as 32 bits too, but
  no HTTP query carries a text long enough for that to show (`LeaseNames.LongScopesCollide`).
- The memory of the coordinator keeps a lagging cache from turning a leader down, but only while it knows
  the leader's object.  A store read of a deleted object that lands after the object was created anew
  and granted takes the place of what the grant left, and then an old cache entry is believed
  (`FalseDefeats.DeletionExposes`).  `FalseDefeats.FalseDefeatIff` is the exact condition: without such
  a read in flight at the grant it does not happen, whatever was deleted before.
- A restarted coordinator knows nothing of its grants, and another one need never have heard of them.
  With restarts allowed, any coordinator can turn a granted id down by mistake if and only if the
  object stands, no later epoch was committed and some committed version was someone else's
  (`RestartDefeats.FalseDefeatAnywhereIff`; `RestartDefeats.DeletionContests` has such a run).
- Values in a set may be empty, but the list parser takes commas in pairs: `x in (a,)` is a selector and
  `x in (a,,)` is not (`SelectorMeaning.TwoCommasAtTheEndAreRefused`; `SelectorTexts.ParseWrittenSet` says
  which lists are).
- `AddVolumeMountToInitContainer` is declared and never called; what it does to an init container that was
  already there would not reach the API server (`PodHistories.InitMountIsLost`).
- Field changes are found by container name, and of two equal names the last one counts
  (`PodHistories.EqualNamesMixUp`); `PodHistories.AnyPodRebuiltIff` says which pods that spares.

## Model

| member | source | states |
|---|---|---|
| `Leases.ToInt32` | apis/election/coordinator.go:192 | the conversion keeps every 32-bit value and changes any other by a multiple of 2^32 |
| `Leases.AcquireRaisesEpoch` | apis/election/coordinator.go:189-198 | an acquisition raises the epoch by exactly one if and only if the stored epoch is not the largest 32-bit integer |
| `Leases.EpochWrapsAround` | apis/election/coordinator.go:192 | at the largest epoch the next one is the smallest 32-bit integer |
| `Leases.LeaseObject.Copy` | apis/election/coordinator.go:115 | the candidate starts as a field-by-field copy |
| `Leases.LeaseObject.AcquireLease` | apis/election/coordinator.go:189-198 | the five assigned fields, and that name, uid and version stay |
| `Leases.LeaseObject.RenewLease` | apis/election/coordinator.go:119-121 | a heartbeat changes the renew time and nothing else |
| `LeaseNames.PutUint32` | apis/election/coordinator.go:172 | four big-endian bytes at the offset, the rest of the buffer unchanged |
| `LeaseNames.CopyInto` | apis/election/coordinator.go:173 | the source lands at the offset, the rest of the buffer is unchanged |
| `LeaseNames.FillPayload` | apis/election/coordinator.go:171-176 | the hashed buffer is length, token, length, namespace |
| `LeaseNames.BigEndianRoundTrip` | apis/election/coordinator.go:172 | the length prefix determines the length |
| `LeaseNames.ScopesAreSeparate` | apis/election/coordinator.go:170-179 | for all lengths below 2^32 the buffer determines token and namespace |
| `LeaseNames.LongScopesCollide` | apis/election/coordinator.go:172 | the bound is needed, though no HTTP query reaches it: at length 2^32 the prefix wraps and two different scopes fill the same buffer |
| `Observations.LeaseObservations.Remaining` | apis/election/lease_observation.go:43-78 | the answer and the new slot pair, with every other Lease untouched |
| `Timers.SharedVersionSharesTimer` | apis/election/lease_observation.go:64-75 | after any reads, slots on the same uid and version hold the same observation |
| `Timers.SlotsOfRepeatedReads` | apis/election/lease_observation.go:55-75 | what each slot remembers after any interleaving of reads of one cached and one stored version |
| `Timers.RemainingCountsFromFirstRead` | apis/election/lease_observation.go:55-77 | every read answers max(0, duration - time since the first read of that version), except a cached version that an earlier store read overtook |
| `ElectionInvariants.HistoryGrows` | apis/election/coordinator.go:110-127 | commit times and epochs never fall along the history, and equal terms have equal holders |
| `ElectionInvariants.HoldersAreApart` | apis/election/coordinator.go:110-127 | two commits of one Lease object by different holders are at least a lease duration apart |
| `ElectionInvariants.ExpiredIsExpendable` | apis/election/lease_observation.go:55-77 | a read that answers expired was of a version that has aged its whole duration or is superseded |
| `ElectionInvariants.CommitKeepsInv` | apis/election/coordinator.go:110-131 | a committed write keeps the invariant |
| `ElectionInvariants.DecideKeepsInv` | apis/election/coordinator.go:90-108 | a decision, on a cached read, a store read or an own write, keeps the invariant |
| `ElectionInvariants.StepKeepsInv` | apis/election/coordinator.go:80-143 | every step of every actor keeps the invariant |
| `ElectionInvariants.RunKeepsInv` | apis/election/coordinator.go:80-143 | the invariant holds after every run: any coordinators, restarts, lagging caches, scrapes, lost replies, deletions |
| `ElectionSafety.TakeoverWaitsOutTheTerm` | apis/election/coordinator.go:94-131 | a campaign write that replaces a version commits no earlier than that version's write time plus its duration |
| `ElectionSafety.TakeoversAreSpaced` | apis/election/coordinator.go:110-117 | the same for every takeover in the history of every run |
| `ElectionSafety.OneTermOneHolder` | apis/election/coordinator.go:189-198 | each (uid, epoch) has exactly one acquiring commit and one holder in all its versions |
| `ElectionSafety.CommitStepsTheTerm` | apis/election/coordinator.go:110-127 | creation starts at epoch one with a fresh uid, a takeover adds one, a heartbeat keeps holder and epoch |
| `ElectionSafety.AtMostOneLeader` | apis/election/coordinator.go:80-158 | at no instant do two ids lead on one Lease object, each counting from its success until request time plus duration, deletions or not |
| `ElectionSafety.AtMostOneLeaderEver` | apis/election/coordinator.go:80-158 | in a run without deletions no two ids lead at one instant |
| `ElectionSafety.ReplyTellsTheCommits` | apis/election/coordinator.go:131-141 | a success stands for exactly one commit with the caller as holder and the reported epoch, a defeat for none |
| `ElectionDefeats.GrantIsKnown` | apis/election/lease_observation.go:43-75 | a grant leaves the store slot on the granted object, at the granted epoch or a later one, whatever the slots held |
| `ElectionDefeats.StoodAllAlong` | apis/election/coordinator.go:56-60 | an object that was there before a run and stands after it stood all along |
| `ElectionDefeats.CacheReadIsSteady` | apis/election/lease_observation.go:55-75 | after a grant that leaves the coordinator unexposed, no cached read can start the timer of a version that could turn the id down |
| `ElectionDefeats.StoreReadIsSteady` | apis/election/lease_observation.go:55-75 | nor can a store read that lands late take the slot from the granted term, unless it is one of those in flight at the grant that cannot mislead |
| `ElectionDefeats.RunKeepsSince` | apis/election/lease_observation.go:43-78 | over every run without a restart of the coordinator, deletions before or during it included, what the unexposed grant left keeps holding while its object stands |
| `ElectionDefeats.CacheDefeatIsJustified` | apis/election/coordinator.go:85-92 | while that holds, a heartbeat turned down from the cache was turned down for a later committed epoch |
| `ElectionDefeats.StoreDefeatIsJustified` | apis/election/coordinator.go:95-104 | a heartbeat turned down over an authoritative read of the granted object was turned down for a later epoch or an aged version |
| `ElectionDefeats.NoFalseDefeat` | apis/election/coordinator.go:85-104 | in every run, after a grant that leaves its coordinator unexposed and while the granted object stands, that process turns the id down only for a later epoch or an aged version, and from the cache only for a later epoch |
| `ElectionDefeats.NoOldReadNoFalseDefeat` | apis/election/lease_observation.go:55-63 | in particular no false defeat is possible when no store read of another object is in flight at the grant |
| `ElectionDefeats.UndeletedNoFalseDefeat` | apis/election/lease_observation.go:55-63 | nor in a run without deletions up to the grant |
| `FalseDefeats.ExposedCanDefeat` | apis/election/lease_observation.go:55-75 | from every exposed grant some continuation, with no restart, no deletion, no write and no time passing, ends in a false defeat |
| `FalseDefeats.FalseDefeatIff` | apis/election/coordinator.go:85-104 | after a grant in any run, a false defeat is possible if and only if the grant leaves the coordinator exposed |
| `FalseDefeats.KnowingDefeatIff` | apis/election/lease_observation.go:55-63 | at any moment of any run the same holds for every coordinator whose store slot is on the term or a later one of its object, whichever coordinator granted it |
| `FalseDefeats.DeletionExposes` | apis/election/lease_observation.go:55-63 | for any two ids there is such a run: a heartbeat of the first has read the Lease, it is deleted, the second id is granted the new one |
| `RestartDefeats.RunKeepsUncontested` | apis/election/lease_observation.go:36-42 | over every run, restarts of anyone included: as long as the object stands and no later epoch is committed, a history of the id's own versions stays one, and calls that began after the grant carry only store reads of the term |
| `RestartDefeats.AnyDefeatIff` | apis/election/lease_observation.go:36-42 | at any moment of any run, with restarts allowed from then on, a false defeat of a granted id is possible on any coordinator if and only if its object stands, no later epoch was committed and some committed version was someone else's |
| `RestartDefeats.FalseDefeatAnywhereIff` | apis/election/lease_observation.go:36-42 | so after every grant, on the granting coordinator and on every other |
| `RestartDefeats.UnreadDefeatIff` | apis/election/lease_observation.go:55-63 | the condition is the same without restarts for a coordinator that has read nothing from the store yet |
| `RestartDefeats.DeletionContests` | apis/election/lease_observation.go:36-42 | for any two ids there is a run to such a grant, and every coordinator can then come to a false defeat |
| `WallClock.ReadErases` | apis/election/lease_observation.go:43-78 | the timers never look at a persisted timestamp |
| `WallClock.StepErases` | apis/election/coordinator.go:113-121 | every step commutes with forgetting persisted timestamps |
| `WallClock.RunErases` | apis/election/coordinator.go:73-74 | so does every run |
| `WallClock.WallClockDoesNotMatter` | apis/election/coordinator.go:73-74 | two schedules that differ only in wall-clock readings give the same results, holders and epochs step by step |
| `Coordinators.LeaseStore.Get` | apis/election/coordinator.go:56-60 | a read answered late or not at all, with other clients writing before and after; in a quiet store the current Lease |
| `Coordinators.LeaseStore.Write` | apis/election/coordinator.go:56-60 | a compare-and-swap: at most one version committed, a conflict commits none, a lost reply says nothing; in a quiet store a current base commits |
| `Coordinators.Coordinator.CheckCache` | apis/election/coordinator.go:81-92 | the cached answer is a defeat for a running time, an error or none, by the protocol's local moves |
| `Coordinators.Coordinator.CheckStore` | apis/election/coordinator.go:95-121 | one authoritative read: a defeat exactly if the call may not go through over what was read, and else the Lease to write, every field of it |
| `Coordinators.Coordinator.TryWrite` | apis/election/coordinator.go:110-141 | one write; only a committed one answers success, with what was written, and a conflict goes round again |
| `Coordinators.Coordinator.Attempt` | apis/election/coordinator.go:94-142 | one round of the loop: the requests it made and what its reply stands for |
| `Coordinators.Coordinator.Attempts` | apis/election/coordinator.go:94-142 | the loop ends; its log accounts for the reply |
| `Coordinators.Coordinator.Elect` | apis/election/coordinator.go:80-143 | under any interference at most 6 reads and 5 writes; success is exactly one commit that made the caller holder and that the reply describes, defeat none; in a quiet store that is reached, exactly the commit and the reply that the Lease and its time require |
| `ElectionRefinement.StepIsLocalMove` | apis/election/coordinator.go:80-143 | every protocol step of a call is a move that the loop may make |
| `ElectionRefinement.LocalMoveIsStep` | apis/election/coordinator.go:80-143 | every move of the loop whose answers come from the protocol's store, cache and clock is a protocol step |
| `Verdicts.RemainingIsRunning` | apis/election/lease_observation.go:43-78 | the remaining time is positive exactly while the time of a holder, counted from the coordinator's first sight of that version, is not over and nothing later is known |
| `Verdicts.CacheVerdict` | apis/election/coordinator.go:81-92 | from the cache a call is turned down exactly for a running time, unless it is a heartbeat of that holder; the whole reply |
| `Verdicts.StoreVerdict` | apis/election/coordinator.go:95-121 | from the store a campaign is turned down exactly while somebody's time runs, a heartbeat exactly unless its own does; the whole reply, and every field of the Lease that is written otherwise |
| `Verdicts.WrittenVerdict` | apis/election/coordinator.go:135-141 | after a committed write the whole reply, told from what was written |
| `ElectionProgress.OthersGoOn` | apis/election/coordinator.go:56-60 | a step of one call leaves the others alone, a restart stops its coordinator's own calls, and a write that is on its way is committed though nobody waits for it |
| `ElectionProgress.RunKeepsMemoryPast` | apis/election/lease_observation.go:64-75 | in every run nothing a coordinator remembers was first seen in the future |
| `ElectionProgress.UndisturbedCall` | apis/election/coordinator.go:80-143 | in every reachable state an undisturbed call on any coordinator ends with exactly one commit and success when it may go through, and with a defeat and none otherwise |
| `ElectionProgress.AnyoneCanTakeOver` | apis/election/coordinator.go:94-131 | whoever holds the Lease, one read of the store, a wait of the duration and a campaign on any coordinator make any id the holder, one epoch later |
| `LabelLexer.LexAdvances` | pkg/labels/selector.go:644-655 | on every text a lexer call never gives the error token and gives end of string or consumes something |
| `LabelLexer.ScanTerminates` | pkg/labels/selector.go:705-713 | the scan of every text has exactly one end token, in last place |
| `LabelLexer.LexedWell` | pkg/labels/selector.go:581-629 | literals are not empty, hold no separator, and keyword tokens carry their keyword |
| `SelectorMeaning.LiteralIff` | pkg/labels/selector.go:541-563 | which characters keys and values may have |
| `SelectorTexts.ScanSpaced` | pkg/labels/selector.go:566-655 | a text of words and symbols, with any spaces, tabs and line ends between them, scans to exactly those |
| `SelectorMeaning.NulBytes` | pkg/labels/selector.go:566-629 | a NUL byte ends the text where a word could start, and is swallowed where it ends one |
| `LabelLexer.Lexer.Read` | pkg/labels/selector.go:566-573 | reading past the end gives a zero byte and does not move |
| `LabelLexer.Lexer.Unread` | pkg/labels/selector.go:576-578 | one position back |
| `LabelLexer.Lexer.ScanIdOrKeyword` | pkg/labels/selector.go:581-600 | the longest run without space or symbol, as keyword or identifier |
| `LabelLexer.Lexer.ScanSpecialSymbol` | pkg/labels/selector.go:604-629 | the longest symbol that is still a token |
| `LabelLexer.Lexer.SkipWhiteSpaces` | pkg/labels/selector.go:633-640 | moves to the first character that is no space |
| `LabelLexer.Lexer.Lex` | pkg/labels/selector.go:644-655 | the token, the literal and the new position, never past the end |
| `Selectors.MatchesAll` | pkg/labels/selector.go:447-454 | true exactly when every requirement matches |
| `Selectors.SameRequirementsMatchAlike` | pkg/labels/selector.go:447-454 | the order of requirements makes no difference to matching |
| `SelectorMeaning.ComplementsAreComplements` | pkg/labels/selector.go:260-282 | notin, != and ! match exactly where in, = and the bare key do not |
| `SelectorMeaning.EqualSpellingsAgree` | pkg/labels/selector.go:266-269 | = and == match exactly a label that is there and that the pattern matches |
| `SelectorMeaning.SetsAreUnions` | pkg/labels/selector.go:262-265 | a set matches where one of its values does, a value only the label equal to it, and a bare key any |
| `SelectorMeaning.OrdersAreTotal` | pkg/labels/selector.go:283-310 | > and < ask for an integer label, and fail together only at equality |
| `SelectorMeaning.TextMatchesIff` | pkg/labels/selector.go:447-454 | a text of accepted requirements matches labels if and only if each of them, as it is written, is satisfied |
| `Selectors.PrintRequirement` | pkg/labels/selector.go:352-402 | the printed form of every operator, sets with sorted values in parentheses |
| `Selectors.PrintSelector` | pkg/labels/selector.go:460-466 | requirements joined by commas |
| `SelectorMeaning.SetsArePrintedInOrder` | pkg/labels/selector.go:384-399 | sets are printed in order, whatever the order of their values |
| `LabelParser.Parser.Lookahead` | pkg/labels/selector.go:679-688 | the next token, with keywords read as identifiers where a value is expected; never past the end |
| `LabelParser.Parser.Consume` | pkg/labels/selector.go:691-701 | the same token, and one position further |
| `LabelParser.Parser.ScanAll` | pkg/labels/selector.go:705-713 | the scanned items end with the one end token |
| `LabelParser.Parser.ReadRequirement` | pkg/labels/selector.go:751-774 | reads what the grammar parses from the remaining items, and leaves the rest |
| `LabelParser.Parser.ReadKeyAndInferOperator` | pkg/labels/selector.go:779-799 | the key and, for the forms without operand, the operator |
| `LabelParser.Parser.ReadOperator` | pkg/labels/selector.go:803-825 | the operator of every operator token, and an error otherwise |
| `LabelParser.Parser.ReadValues` | pkg/labels/selector.go:828-850 | a parenthesised list, the empty list standing for the empty value |
| `LabelParser.Parser.ReadIdentifiersList` | pkg/labels/selector.go:854-887 | the sorted set of the listed values, empty values between commas included |
| `LabelParser.Parser.ReadExactValue` | pkg/labels/selector.go:890-903 | one value or the empty value |
| `LabelParser.Parser.ParseAll` | pkg/labels/selector.go:717-749 | all requirements, or an error exactly where the grammar has one |
| `LabelParser.SortByKey` | pkg/labels/selector.go:949-957 | some permutation sorted by key |
| `Text.LessIsLexicographic` | pkg/labels/selector.go:116 | the order of keys is that of the first difference, with a prefix first |
| `LabelParser.Parse` | pkg/labels/selector.go:937-957 | every text parses as the grammar says, up to the order of requirements with one key |
| `SelectorTexts.ParseWrittenSet` | pkg/labels/selector.go:828-887 | a written list of values in any order, repeated or empty, parses to their sorted set, if and only if the commas at its end do not come in pairs |
| `SelectorTexts.TextParsesIff` | pkg/labels/selector.go:717-903 | every text of written requirements, however spaced, parses to what they mean, if and only if each of them is accepted |
| `SelectorTexts.WrittenParsesIff` | pkg/labels/selector.go:717-903 | the same for the usual spelling |
| `SelectorMeaning.NineForms` | pkg/labels/selector.go:158-226 | for each of the nine operators, on one key and one value: when the text is a selector, and which |
| `SelectorMeaning.TwoCommasAtTheEndAreRefused` | pkg/labels/selector.go:854-887 | a list of values that ends in two commas is refused, one that ends in one is not |
| `SelectorLanguage.SelectorLanguageIs` | pkg/labels/selector.go:717-903 | exactly the texts that scan to the words of accepted written requirements are selectors, and they give what those mean |
| `SelectorRoundTrip.ParsedIsPrintable` | pkg/labels/selector.go:717-903 | every requirement that parsing returns satisfies the conditions under which printing is undone |
| `SelectorRoundTrip.PrintedParses` | pkg/labels/selector.go:352-402 | a printed selector parses to exactly the printed requirements |
| `SelectorRoundTrip.RoundTrip` | pkg/labels/selector.go:352-466 | for every parsed selector, parsing its text gives the same requirements up to order and the same matches on every label set |
| `PodManagers.PodManager.AddVolume` | pkg/manager/volume.go:25-32 | appends unless a volume of the name is there |
| `PodManagers.PodManager.IsEmptyDirVolume` | pkg/manager/volume.go:34-41 | the first volume of the name decides |
| `PodManagers.PodManager.AddContainer` | pkg/manager/container.go:27-34 | appends unless a container of the name is there |
| `PodManagers.PodManager.AddInitContainer` | pkg/manager/container.go:36-43 | appends unless an init container of the name is there |
| `PodManagers.PodManager.ContainsContainer` | pkg/manager/container.go:45-52 | whether some container has the name |
| `PodManagers.PodManager.ContainsInitContainer` | pkg/manager/container.go:54-61 | whether some init container has the name |
| `PodManagers.PodManager.AddVolumeMount` | pkg/manager/volume_mount.go:28-32 | every container gets the mount unless it has one of the name; nothing else changes |
| `PodManagers.PodManager.AddVolumeMountToNamed` | pkg/manager/volume_mount.go:34-40 | the same for the containers of one name |
| `PodManagers.AddVolumeMountToContainer` | pkg/manager/volume_mount.go:72-83 | the mounts of one container, grown by at most the new one |
| `PodManagers.AddOrUpdateEnvVar` | pkg/manager/envvar.go:29-43 | the first variable of the name is resolved in place, a missing one is appended |
| `PodManagers.AddOrUpdateEnvVars` | pkg/manager/envvar.go:47-52 | the same for each incoming variable in order |
| `PodManagers.KeepExistingOnlyAppends` | pkg/manager/envvar.go:16-19 | with the keeping resolver the old list stays in front, every incoming name ends up present, and a second run changes nothing |
| `PodManagers.UpdateTouchesOneName` | pkg/manager/envvar.go:27-43 | positions and names stay, other variables stay, and the first variable of the name is what the resolver made |
| `Json.DecodeOfEscape` | apis/webhook/pod_patch.go:173-176 | decoding a reference token (section 4 of RFC 6901) undoes the two-pass escape of every key |
| `Json.EscapedIsOneToken` | apis/webhook/pod_patch.go:173-176 | the escaped key holds no slash and is a valid token (section 3 of RFC 6901) |
| `Json.TokensOfPrinted` | apis/webhook/pod_patch.go:38-56 | a pointer built from escaped tokens has exactly those tokens |
| `PodPatch.AnnotationPathTokens` | apis/webhook/pod_patch.go:38-56 | the pointer to an annotation has three tokens, the last of which is the key itself |
| `Json.IndexOfPrinted` | apis/webhook/pod_patch.go:123 | a printed position is a valid array index and stands for that position |
| `PatchLaws.IndexIff` | apis/webhook/pod_patch.go:134-155 | exactly the decimal texts without leading zeros are array indices, each of one position (section 4 of RFC 6901) |
| `PatchLaws.PointersStartWithSlash` | apis/webhook/pod_patch.go:157-171 | a pointer is empty or starts with a slash (section 3 of RFC 6901) |
| `PatchLaws.MemberOperations` | apis/webhook/pod_patch.go:157-171 | adding sets a member, replacing needs it (sections 4.1 and 4.3 of RFC 6902) |
| `PatchLaws.ElementOperations` | apis/webhook/pod_patch.go:157-171 | adding inserts an element at an index up to the length or at the end, replacing needs the element |
| `PatchLaws.OtherPlacesDoNotExist` | apis/webhook/pod_patch.go:157-171 | any other place is an error |
| `PodPatch.EscapeJsonPointer` | apis/webhook/pod_patch.go:173-176 | the escape, which decodes back to the key |
| `PodPatch.BuildAnnotationPatch` | apis/webhook/pod_patch.go:29-56 | the operations, in key order whatever order the map loop takes |
| `PodPatch.BuildPodSpecPatch` | apis/webhook/pod_patch.go:58-83 | the operations of each field of the spec, in the order of the source |
| `PodPatch.BuildContainerFieldPatch` | apis/webhook/pod_patch.go:85-104 | the operations for each old container against the last new one of its name |
| `PodPatch.BuildEnvPatch` | apis/webhook/pod_patch.go:106-132 | whole value, replaced positions or appended variables, as the lists compare |
| `PodPatch.BuildNamedAppendPatch` | apis/webhook/pod_patch.go:134-155 | whole value or one append per item of a new name |
| `PodPatch.BuildPodInjectionPatch` | apis/webhook/pod_patch.go:18-27 | nothing without two pods, else the annotation and spec operations below the document root |
| `PodPatchFields.AppendsPatchList` | apis/webhook/pod_patch.go:134-155 | on every document of the list the operations apply; the items it had stay and the new ones follow |
| `PodPatchFields.EnvEditsPatchEnv` | apis/webhook/pod_patch.go:106-132 | on every document of the environment the operations apply and rebuild the new one unless it was emptied |
| `PodPatchFields.AnnotationEditsPatch` | apis/webhook/pod_patch.go:29-56 | the operations apply and set every new annotation, removing none |
| `PodPatchFields.FieldEditsPatch` | apis/webhook/pod_patch.go:99-101 | the operations of a container apply and touch no member but env and volumeMounts |
| `PatchLaws.ScalarEditsAre` | apis/webhook/pod_patch.go:60-76 | what was there is replaced, what was missing is added, and nothing is removed |
| `PatchLaws.EnvEditsAre` | apis/webhook/pod_patch.go:103-132 | an environment is replaced as a whole exactly where names moved or went away; else exactly the changed variables are replaced in place and the new ones added |
| `PatchLaws.UnchangedPodNeedsNoPatch` | apis/webhook/pod_patch.go:18-132 | a pod that did not change needs no operation at all |
| `PodPatchCorrectness.ContainerEditsPatch` | apis/webhook/pod_patch.go:79-80 | appending and field changes together rebuild the container list, each old container touched in two members only |
| `PodPatchCorrectness.SpecEditsPatch` | apis/webhook/pod_patch.go:58-83 | the spec operations apply and describe the patched spec; other members stay |
| `PodPatchCorrectness.PatchApplies` | apis/webhook/pod_patch.go:18-27 | for every two pods and every document of the first, each operation applies in turn (section 4 of RFC 6902), the result describes the patched pod, and nothing else in the document changes |
| `PodHistories.PodRebuiltIff` | apis/webhook/pod_patch.go:18-155 | with distinct container names the patch rebuilds the new pod if and only if that pod follows from the old one by additions |
| `PodHistories.ListRebuiltIff` | apis/webhook/pod_patch.go:134-155 | a list is rebuilt if and only if it kept its items in front and gained only new names |
| `PodHistories.MutationFollows` | pkg/manager/envvar.go:29-52 | every mutation an injector makes only adds |
| `PodHistories.HistoryFollows` | apis/webhook/handle.go:83-89 | so does every sequence of mutations |
| `PodHistories.AdditionsAdd` | pkg/manager/container.go:20-40 | volumes and containers are put last unless there is one of the name |
| `PodHistories.MountsMount` | pkg/manager/volume_mount.go:20-48 | a mount comes to the containers it is meant for and to no others |
| `PodHistories.VariablesChange` | pkg/manager/envvar.go:29-52 | variables change in the one container meant, and nothing else does |
| `PodHistories.FieldsAreSet` | apis/webhook/handle.go:83-89 | the annotation and the two fields of the specification get their values |
| `PodHistories.HistoriesGoOn` | apis/webhook/handle.go:83-89 | histories are mutations one after the other |
| `PodHistories.PatchRebuildsEveryHistory` | apis/webhook/pod_patch.go:18-27 | after any sequence of mutations the patch applies and rebuilds the mutated pod, changing nothing else |
| `PodHistories.InitMountIsLost` | pkg/manager/volume_mount.go:42-48 | a mount added to an init container that was there is never in the patch; nothing is lost if and only if each such container had a mount of that name |
| `PodHistories.AnyPodRebuiltIff` | apis/webhook/pod_patch.go:86-155 | for every two pods, repeated names included, the patch rebuilds the second if and only if it follows from the first by additions and every old container changed like the last one of its name |
| `PodHistories.EqualTwinsAreRebuilt` | apis/webhook/pod_patch.go:86-94 | additions are enough while old containers that share a name are equal before and equal after |
| `PodHistories.EqualNamesMixUp` | apis/webhook/pod_patch.go:86-94 | with two old containers of one name the patch loses a change |
| `Words.FieldsOfAppended` | apis/webhook/injector/otel.go:576-583 | a word appended after a space is one more field, in last place |
| `Words.SpacesAre` | apis/webhook/injector/ddtrace.go:437 | fields are separated by the twenty-five Unicode spaces |
| `TracingRules.SelectedRuleIsFirstEligible` | apis/webhook/injector/otel.go:426-441 | the first rule that needs no annotation or finds its own; its version exactly when it asks for one |
| `PairProperties.AppendKVPairs` | apis/webhook/injector/utils.go:67-106 | the merged text, which keeps the well-formed pairs of the first text in front |
| `PairProperties.ParseOfAppend` | apis/webhook/injector/utils.go:67-106 | the merged text holds exactly the merged pairs |
| `PairProperties.MergeAddsNewKeys` | apis/webhook/injector/utils.go:77-97 | added pairs come from the second text, under keys that were not there, each key once |
| `PairProperties.AppendKeepsAndSettles` | apis/webhook/injector/utils.go:67-106 | the pairs of the first text stay in order, all keys of the second arrive, and merging it again changes nothing |
| `TracingResources.DeleteSlice` | apis/webhook/injector/utils.go:27-38 | the cut-out sequence in front, cleared elements behind |
| `TracingResources.AddOrMergeDDTagsEnvVar` | apis/webhook/injector/ddtrace.go:307-320 | tags merged and moved to the end, or left alone when they refer elsewhere |
| `DDTagProperties.TagsComeAfterTheirDependencies` | apis/webhook/injector/ddtrace.go:286-305 | when the merge applies, every variable whose name the rule lists before the tags stands before the only DD_TAGS |
| `DDTagProperties.OtherVariablesStay` | apis/webhook/injector/ddtrace.go:286-320 | no other variable of a container changes its value or its place among the others |
| `DDTagProperties.TagsKeepTheirPairs` | apis/webhook/injector/ddtrace.go:312-317 | own tags keep their well-formed pairs, in front |
| `DDTagProperties.ReferencedTagsStay` | apis/webhook/injector/ddtrace.go:312-314 | tags that refer elsewhere stay, and the rest is only appended |
| `DDTraceProperties.SettingsAreIdempotent` | apis/webhook/injector/ddtrace.go:326-397 | rewriting a value a second time changes nothing, for every variable of every language |
| `DDTraceProperties.InjectedIsSettled` | apis/webhook/injector/ddtrace.go:88-135 | after an injection every container has every variable of the language settled, also after the rule's own variables |
| `DDTraceProperties.ConfigRefusedIff` | apis/webhook/injector/ddtrace.go:415-424 | injection is refused if and only if some container has a needed variable refer elsewhere |
| `DDTraceProperties.RepairGivesTheAgent` | apis/webhook/injector/ddtrace.go:189-201 | repair gives the agent to exactly the containers with the library mount whose variable may be changed |
| `DDTraceProperties.RepairIsIdempotent` | apis/webhook/injector/ddtrace.go:171-214 | a second repair changes nothing |
| `DDTraceOutcomes.JavaAgentIsAdded` | apis/webhook/injector/ddtrace.go:436-443 | the agent comes behind the options that were there, as one more field, unless it is there |
| `DDTraceOutcomes.NodeOptionIsAdded` | apis/webhook/injector/ddtrace.go:445-452 | and so does the Node.js option |
| `DDTraceOutcomes.PathsAreAdded` | apis/webhook/injector/ddtrace.go:336-385 | the library path comes before the directories of PYTHONPATH and behind those of PHP_INI_SCAN_DIR, once, and a loader path that was set stays |
| `DDTraceOutcomes.RuleVariablesArrive` | apis/webhook/injector/ddtrace.go:262-284 | every variable of the rule arrives with its value, unless the container has one of its name |
| `DDTraceOutcomes.InjectionOutcome` | apis/webhook/injector/ddtrace.go:88-135 | an injection changes this of a pod and nothing else: the init container with rule, image and command, the volume, and in every container the mount, the variables of the language made of the old values, and those of the rule |
| `DDTraceOutcomes.FreshInjectionMounts` | apis/webhook/injector/ddtrace.go:399-424 | a pod without anything of that name gets the mount in every container and the volume as an empty directory |
| `DDTraceOutcomes.RepairOutcome` | apis/webhook/injector/ddtrace.go:171-214 | a repair puts the agent behind the old options of exactly the containers that mount the library and hold the variable themselves, and only in a pod that is as it was injected |
| `OTelProperties.AcceptedValuesSettle` | apis/webhook/injector/otel.go:473-535 | a value that validation accepts is rewritten at most once, in every language |
| `OTelProperties.RewritingOnlyAdds` | apis/webhook/injector/otel.go:473-535 | the application's own value stays and the library is added around it |
| `OTelProperties.InjectedIsComplete` | apis/webhook/injector/otel.go:119-128 | an injected container has the mount, the settled variable and every variable of the rule |
| `OTelProperties.AcceptedInjectionWorks` | apis/webhook/injector/otel.go:271-345 | what validation lets through works: every container mounts the library at its path without a sub-path, the volume is an empty directory, the init container is the selected one, and there is no Datadog init container |
| `OTelProperties.InjectTwice` | apis/webhook/injector/otel.go:119-128 | injecting again into an injected pod changes nothing |
| `OTelOutcomes.ValueIsAdded` | apis/webhook/injector/otel.go:473-535 | in every language the library is added to the old value as option or path, once, and a missing variable counts as empty |
| `OTelOutcomes.AcceptsIff` | apis/webhook/injector/otel.go:207-269 | which values the library can be added to, in texts, paths and fields |
| `OTelOutcomes.CountUnfolds` | apis/webhook/injector/otel.go:263-264 | occurrences of the path are counted from the left and do not overlap |
| `OTelOutcomes.DatadogForms` | apis/webhook/injector/otel.go:552-574 | the forms in which an option names the Datadog module |
| `OTelOutcomes.DatadogModuleIff` | apis/webhook/injector/otel.go:552-574 | which paths are that module: quotes, extension and directory do not count |
| `OTelOutcomes.PodFitsIff` | apis/webhook/injector/otel.go:271-314 | validation accepts exactly the pods that meet the listed conditions on image, volumes, mounts, variables and init containers |
| `OTelOutcomes.InitCompatibleIff` | apis/webhook/injector/otel.go:316-369 | which init container of the name may stay, field by field |
| `OTelOutcomes.OneMountIsNeeded` | apis/webhook/injector/otel.go:357-369 | and none when the wanted one has no mount of the library volume, or two |
| `OTelOutcomes.NeedsUserIff` | apis/webhook/injector/otel.go:132-149 | a pod is refused for its user exactly when non-root is demanded and no user but root is named, the first container overriding the pod |
| `OTelOutcomes.WithoutContextNoUserIsNeeded` | apis/webhook/injector/otel.go:132-149 | not without any security context |
| `OTelOutcomes.NamedUserIsEnough` | apis/webhook/injector/otel.go:132-149 | not with user 1000 |
| `OTelOutcomes.NonRootWithoutUserNeedsOne` | apis/webhook/injector/otel.go:132-149 | but with non-root and no user |
| `OTelOutcomes.ContainerOverridesPod` | apis/webhook/injector/otel.go:132-149 | and what the container says counts before what the pod says |
| `OTelOutcomes.InjectionOutcome` | apis/webhook/injector/otel.go:119-128 | an injection changes this of a pod and nothing else: init container, volume, and in every container the mount, the variable of the language made of the old value, and those of the rule |
| `TracingProperties.DDTraceIsAllOrNothing` | apis/webhook/injector/ddtrace.go:111-134 | once a rule matched a fresh pod, the injection is complete or leaves no trace and OpenTelemetry is not tried |
| `TracingProperties.TracingIsIdempotent` | apis/webhook/injector/tracing.go:16-28 | with fixed rules the step run on its own output changes nothing, for every pod and language, repair included |
| `TracingProperties.OneLibraryStays` | apis/webhook/injector/tracing.go:16-28 | one step never adds the second init container and never removes the first |
| `TracingProperties.NeverBothLibraries` | apis/webhook/injector/tracing.go:16-28 | over every run, with rules changing between steps, a pod never gets both init containers |
| `TracingProperties.FirstLibraryIsFinal` | apis/webhook/injector/tracing.go:16-28 | the library a pod has is the one it keeps |
| `TracingOutcomes.SelectionIs` | apis/webhook/injector/ddtrace.go:140-169 | the first rule that asks for no annotation or finds its own is selected, with its image in the version of the annotation |
| `TracingOutcomes.DDTraceDecides` | apis/webhook/injector/ddtrace.go:72-135 | a pod for which DDTrace selects a rule is injected with it if the language is supported and no variable of it refers elsewhere, and is left alone otherwise |
| `TracingOutcomes.InjectedIsRepaired` | apis/webhook/injector/ddtrace.go:81-90 | a pod that was injected before is repaired if a Java rule is selected, and is left alone otherwise |
| `TracingOutcomes.OTelDecides` | apis/webhook/injector/otel.go:66-130 | where DDTrace selects nothing, OpenTelemetry injects with the rule it selects if language, pod, init container and user allow it, and the pod is left alone otherwise |
| `TracingOutcomes.OTelInjectsIff` | apis/webhook/injector/otel.go:66-130 | a fresh pod has the OpenTelemetry init container afterwards if and only if the selected rule's language is supported, the listed conditions hold and no user is missing |
| `TracingPatch.TracingFollows` | apis/webhook/injector/tracing.go:16-28 | the tracing step only adds to the pod |
| `TracingPatch.TracingReachesTheApiServer` | apis/webhook/handle.go:83-89 | the admission patch rebuilds the traced pod from any document of the submitted one |
| `TracingResources.SelectMatching` | apis/webhook/injector/otel.go:426-441 | the loop over the rules selects as specified |
| `TracingResources.AppendJavaAgentIfMissing` | apis/webhook/injector/ddtrace.go:436-443 | the loop over the fields appends exactly when the agent is missing |
| `TracingResources.AppendOptionIfMissing` | apis/webhook/injector/ddtrace.go:445-452 | the loop over the fields appends exactly when the option is missing |
| `TracingResources.IsOTelPythonPathInjected` | apis/webhook/injector/otel.go:380-397 | whether the list starts and ends with the library, once each |
| `TracingResources.CountNodeJSRequireOptions` | apis/webhook/injector/otel.go:541-550 | how many times --require is followed by the library |
| `TracingResources.ContainsDatadogNodeJSRequire` | apis/webhook/injector/otel.go:552-574 | whether some require option, in any of its forms, names the Datadog module |
| `TracingResources.InjectDDTraceEnv` | apis/webhook/injector/ddtrace.go:415-434 | refused for a reference, else the first variable of the name rewritten or a new one appended |
| `TracingResources.ValidateEnv` | apis/webhook/injector/otel.go:399-424 | at most one variable of the name, with its own and acceptable value |
| `TracingResources.JavaEnv` | apis/webhook/injector/otel.go:473-489 | the option once in JAVA_TOOL_OPTIONS |
| `TracingResources.PythonEnv` | apis/webhook/injector/otel.go:494-515 | the library around PYTHONPATH |
| `TracingResources.NodeEnv` | apis/webhook/injector/otel.go:520-532 | the option once in NODE_OPTIONS |
| `TracingResources.DDTraceResource.RepairJavaAgentEnv` | apis/webhook/injector/ddtrace.go:171-214 | the pod after repair, in place |
| `TracingResources.DDTraceResource.InjectSettings` | apis/webhook/injector/ddtrace.go:399-413 | all settings on all containers, or failure |
| `TracingResources.DDTraceResource.InjectGlobalEnvs` | apis/webhook/injector/ddtrace.go:286-305 | the variables of the rule on every container |
| `TracingResources.DDTraceResource.Process` | apis/webhook/injector/ddtrace.go:68-135 | whether a rule was selected and the pod it leaves; a refused injection works on a copy |
| `TracingResources.OwnVolumeMount` | apis/webhook/injector/otel.go:357-369 | the mount of the library volume if there is exactly one |
| `TracingResources.InitContainerCompatible` | apis/webhook/injector/otel.go:316-355 | an init container that is there is the desired one in every compared field, with the wanted mount once and no other of its name or path |
| `TracingResources.ValidateCommon` | apis/webhook/injector/otel.go:271-314 | whether every condition on image, init containers, volumes and mounts holds |
| `TracingResources.OTelResource.Validate` | apis/webhook/injector/otel.go:207-314 | whether every condition on the pod holds |
| `TracingResources.OTelResource.InjectLibrary` | apis/webhook/injector/otel.go:473-535 | the library in every container |
| `TracingResources.OTelResource.Process` | apis/webhook/injector/otel.go:66-130 | the pod it leaves |
| `TracingResources.InjectTracingToPod` | apis/webhook/injector/tracing.go:16-28 | the pod it leaves, and whether it changed |
| `LoggingCache.PutStores` | apis/logging/config/cache.go:78-88 | names stay unique and the entry of the name is the new one |
| `LoggingCache.PutKeepsOthers` | apis/logging/config/cache.go:78-88 | entries of other names stay |
| `LoggingCache.RemovedIsGone` | apis/logging/config/cache.go:93-104 | names stay unique and the name is gone |
| `LoggingCache.RemovalKeepsOthers` | apis/logging/config/cache.go:93-104 | entries of other names stay |
| `LoggingCache.PutKeepsOrder` | apis/logging/config/cache.go:78-88 | names keep their order, and a new one comes last |
| `LoggingCache.RemovalKeepsOrder` | apis/logging/config/cache.go:93-104 | a removal takes one name out and leaves the others in their order |
| `LoggingCache.Find` | apis/logging/config/cache.go:106-115 | some entry fits exactly when one is returned, and the returned one fits |
| `LoggingCache.ParseLabelText` | apis/logging/config/cache.go:145-163 | the pairs with exactly one equals sign, later ones winning |
| `LoggingCache.LoggingConfigCache.AddOrUpdateConfig` | apis/logging/config/cache.go:37-91 | the compiled entry in place or at the end |
| `LoggingCache.LoggingConfigCache.RemoveConfig` | apis/logging/config/cache.go:93-104 | the list without the first entry of the name |
| `LoggingCache.LoggingConfigCache.FindMatchingConfigs` | apis/logging/config/cache.go:106-115 | the first entry that fits |
| `LoggingCache.LoggingConfigCache.MatchesSelector` | apis/logging/config/cache.go:117-131 | all constraints that the entry has hold; no labels pass every label selector |
| `LoggingWatcher.StepKeepsInv` | apis/logging/config/crd_watcher.go:102-158 | every step of informer, handler, queue and worker keeps the invariant |
| `LoggingWatcher.OutOfDateIsPending` | apis/logging/config/crd_watcher.go:126-158 | in every reachable state names are unique, and a key whose entry differs from the store has an undelivered event, is queued or is being processed |
| `LoggingWatcher.QuietCacheShowsStore` | apis/logging/config/crd_watcher.go:126-158 | with nothing pending the cache agrees with the store on every key |
| `LoggingWatcher.DrainingIsBounded` | apis/logging/config/crd_watcher.go:113-124 | once the store stops changing, any sequence of steps is no longer than the work left |
| `LoggingWatcher.CacheConverges` | apis/logging/config/crd_watcher.go:113-158 | from every state of the invariant the remaining steps lead to a cache that shows the store |
| `LoggingWatcher.QuietQueryAnswersFromStore` | apis/logging/config/cache.go:106-115 | with nothing pending a query finds a stored configuration that fits, or none exactly when none does |
| `LoggingQueries.WrittenLabels` | apis/logging/config/cache.go:145-163 | a text of key=value pairs gives exactly these labels |
| `LoggingQueries.OtherPartsSayNothing` | apis/logging/config/cache.go:153-159 | a part without exactly one equals sign says nothing |
| `LoggingQueries.FirstFitIsFound` | apis/logging/config/cache.go:106-115 | of several entries that fit the first is found |
| `LoggingQueries.QueryFindsStored` | apis/logging/config/cache.go:106-131 | with nothing pending a query finds something if and only if a stored configuration is meant for the pod, and then the encoding and target labels of one |
| `LoggingQueries.OnePatternDecides` | apis/logging/config/cache.go:117-131 | a configuration with only a namespace pattern is found by the namespace alone, one with only a pod pattern by the pod name alone, one without patterns always |
| `LoggingQueries.SelectorDecides` | apis/logging/config/cache.go:117-131 | one with only a label selector is found exactly by labels that satisfy each requirement as it is written |
| `LoggingQueries.NoLabelsPass` | apis/logging/config/cache.go:124 | and always by a pod without labels |
| `LoggingWorker.LoggingConfigWatcher.Enqueue` | apis/logging/config/crd_watcher.go:102-111 | the key waits out the delay |
| `LoggingWorker.LoggingConfigWatcher.ProcessNextItem` | apis/logging/config/crd_watcher.go:126-158 | with any steps of others in between, exactly: take a key, read the store, change the cache, finish |

## Left out

- Coordinators.Coordinator.Elect: RBAC checks, counters, log lines and the difference between a forbidden and an unavailable store are not in the reply; the namespace, which a reply only echoes, is left out.
- ElectionInvariants.RunKeepsInv: the protocol is about one Lease name; other names have their own slots, and `Observations.LeaseObservations.Remaining` shows that they do not touch each other.
- LeaseNames.FillPayload: SHA-256 and the hexadecimal name are not modelled; distinct buffers collide only if the hash does.
- Observations.LeaseObservations.Remaining: the mutex is modelled by making the critical section one step, with elapsed sampled before it; the result is not bounded by the duration when elapsed readings run backwards.
- ElectionDefeats.NoFalseDefeat: heartbeats that began before the grant was answered are not part of it, nor of the conditions on false defeats; they overlap the grant, and no order of the two is promised.
- FalseDefeats.KnowingDefeatIff: for a coordinator that last read another object or an earlier epoch from the store, no exact condition without a restart is given; with restarts `RestartDefeats.AnyDefeatIff` covers it.
- ElectionProtocol.Init: every run starts without a Lease, so one that an earlier version of the operator wrote, perhaps with another duration, is never the start.
- Edits of a Lease by an administrator, other than deletion, are not part of the runs.
- Selectors.PrintRequirement: the glob matcher of a requirement is determined by its value and is not a field.
- LabelParser.Parse: error texts and field paths are not modelled; a parse either gives requirements or fails.
- SelectorFromSet and its relatives build requirements without a glob matcher and are not part of the round trip.
- PodJson.Codecs: duplicate member names, which a JSON object should not have, and the case-insensitive matching of member names are not modelled.
- PodManagers.AddOrUpdateEnvVar: the source may write into the array behind the slice it was given; every caller keeps only the returned slice, and sharing of that array is not modelled.
- PodManagers.PodManager.AddVolumeMount: FindVolumeMountPathInContainer and ContainsVolumeMountInContainer, which only search, are left out.
- PodHistories.PatchRebuildsEveryHistory: the mutations are those that the injectors make of a pod; what makes logfwd, flameshot, profiler and logging injection choose them (configuration, paths, JSON texts) is not modelled.
- TracingRules.Rule: the environment of a rule is any function of the first container's name and resources, which covers references to fields, secrets and resources without their syntax; resource quantities that do not parse, at which the source panics, are left out.
- TracingProperties.TracingIsIdempotent: it is about the tracing step alone, on the pod the step itself returned; other injectors add containers between admissions.
- OTel.InitCompatible: an empty args list and a missing one are one value, where the comparison of the source tells them apart.
- TracingResources.InjectTracingToPod: a nil pod, which is an error in the source, cannot be passed.
- LoggingCache.Library: encoding a configuration, which holds only text, flags, a number and a map of texts, cannot fail, so the error return of `apis/logging/config/cache.go:41-45` is not modelled; the log lines for patterns that do not compile are left out; such a pattern constrains nothing, as in the source.
- LoggingWatcher.CacheConverges: which of two fitting configurations a query returns depends on the order in which they arrived, and is not determined by the store.
- LoggingWorker.LoggingConfigWatcher.ProcessNextItem: waiting for a key, shutdown and the permission check before the start are not modelled; the one second of delay has no length.
- HTTP handlers, routing, configuration loading, generated Kubernetes code and charts are not modelled.
