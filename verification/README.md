# Smartwatch Clank: what its state machines guarantee

A Dafny model of the parts of Smartwatch Clank in which state outlives a call: the collection ledger,
the notification outbox, the Samsung candidate lifecycle, the admission of a persistent store, and the
Garmin page cache.  `dafny verify dfyconfig.toml` checks the whole project.

**Collection ledger.** A run opens or reuses a qualification epoch, loads the last healthy catalogue of
that epoch, judges and diffs the new one, and commits run, observations, discoveries and notification
rows in one transaction, then a terminal verdict, then a health record.  Each transaction is a state of
its own, so a history may contain processes that die between any two of them and writes that raise and
send the run through its except path, including the second, unhealthy row that path adds after a healthy
row has been committed, and exceptions that leave the runner.  The theorems quantify over every history
from an empty store.
(`Models`, `Diff`, `Health`, `Qualification`, `RunArchive`, `Ledger`, `LedgerHistory`, `RunLaws`, `Store`,
`Runner`, `Newsroom`)

**Delivery outbox.** One drain is a function over the selected rows and whatever clock and sender show
it, with a closed form; the protocol is an interleaving of the atomic steps of any number of drains and
test sends with enqueues, requeues, policy changes and clock changes, in which any process may die and any
write of a drain may raise.  Actions that are not enabled leave the system as it is, so the theorems
quantify over every sequence of actions.
(`DeliveryPolicy`, `WebhookUrl`, `Outbox`, `Drain`, `DrainLaws`, `Protocol`, `DeliveryHistory`,
`DeliveryLiveness`, `DrainRefinement`, `Lock`, `Notifier`)

**Samsung.** The join of product and support catalogues, and the candidate table it feeds over any
sequence of reconciliations.  A candidate and its events are given in closed form by the records that
touched it, which makes what never changes a statement about prefixes.
(`Samsung`, `SamsungLaws`, `Prelaunch`, `PrelaunchLaws`)

**Admission.** The verdict on a database, the additive migration statement by statement, and the
barrier around both.  (`SchemaState`, `Admission`, `AdmissionLaws`, `SchemaLaws`)

**Garmin.** A crawl over a write-once page cache, from the parsed product data of each page on, against the
crawl that reads one page at a time.
(`Garmin`)

`Common` holds datatypes and sequence functions, `Ordering` the two sorts the program uses.  The modules
whose names end in `Laws` say in the program's own terms, without the functions the model computes with,
what each step leaves, field by field.

Conventions: a post is accepted when the sender returned Ok (what the far end did with a post that was cut
short, refused or unreadable is a separate question, with its own bounds); a process is cut short when it
dies or an exception of the store leaves it; row ids are positions, because rows
are never deleted; a UUID is the next number of a counter; an instant is a real number of seconds, a
stored time is missing, unreadable or an instant; ratios are exact fractions; a JSON column is the value
it encodes; one transaction is one atomic step.
What looks at the outside world (collector answer, clock, sender reply, page, completion order, failing
write, death of the process) is a parameter.

## Where the code and its own text disagree

- The drain's docstring says it never raises.  Reads of the store aside, it raises exactly when a store
  write of a turn raises, or when it posts a row and the sender raises, its result is not a 2/3/4-tuple, or
  it is a 429 with a wait that is no finite number.  The built-in sender does so in two cases: the webhook
  URL names no scheme, because the request is built before anything is caught, or a Retry-After header
  spells not-a-number, because the clamp lets that value through: `Drain.RaisesExactly`,
  `Drain.BuiltInSenderRaisesExactly`, `Drain.BareUrlDeliversNothing`,
  `Outbox.RetryAfterIsClampedUnlessNotANumber`.
- A rate limit is respected exactly if its floor is written, or the wait is over by then.  A process that is
  cut short between hearing the 429 and writing the floor leaves no trace, and a replay can post the row at
  once: `DrainRefinement.RateLimitIsRespectedExactly`, `DrainRefinement.HeardLimitCanBeLost`.
- A refused post may have arrived (a timeout, or a connection lost after the message was taken), so the far
  end can accept a discovery more than once although nothing died:
  `DeliveryHistory.FarAcceptancesAreBounded`, `DrainRefinement.RefusalCanBeAcceptedTwice`.
- A refused store is said to be left untouched.  That holds for every verdict that rules a store out, but
  a store that is migrated first and refused by the second inspection has been changed (nothing in it is
  lost): `AdmissionLaws.RefusalCanFollowMutation`, `AdmissionLaws.UntouchedRefusalIsExact`,
  `AdmissionLaws.AdmissionKeepsEverything`.
- A page that fails is said to be isolated to its product.  That covers fetching; a product whose name or
  url is no text, or whose offers are no object, raises outside the handler, and while such a page stays in
  the sitemap no crawl completes: `Garmin.CompletesExactly`, `Garmin.OneMalformedPageStallsTheCrawls`,
  `Garmin.OffersListLosesTheCrawl`.
- Repeating a reconciliation is silent only for batches whose records of one candidate agree on whether it
  is confirmed; the join makes batches that do not: `Prelaunch.RepeatingIsSilentExactly`,
  `Prelaunch.RepeatingTwoPagesEmits`.
- A product exactly matched by a known support page can still be listed as CATALOGUE_ONLY, namely when no
  known support page covers the product's region and base model:
  `Samsung.MatchedProductIsNotCatalogueOnly`, `Samsung.MatchedProductCanBeCatalogueOnly`.

## Model

| member | source | states |
|---|---|---|
| DeliveryHistory.AcceptedPostsAreConserved | src/smartwatch_clank/notifications/discord.py:448-535 | In every interleaving, accepted posts of a discovery = (1 if its row is sent) + (processes cut short between an acceptance and its mark) + (1 while the grant holder is in that window); so never more than one above those |
| DeliveryHistory.FarAcceptancesAreBounded | src/smartwatch_clank/notifications/discord.py:180-205 | Whatever became of the posts that were cut short, refused (a timeout after the message was taken among them) or unreadable, the far end accepted a discovery at most 1 + (acceptances that lost their mark) + (such posts) times; at most once, come what may, if and only if no more than one of its posts was accepted or doubtful |
| DeliveryHistory.FarAcceptancesBetweenRequeues | src/smartwatch_clank/notifications/discord.py:486-532 | Since its last requeue: at most five times, plus one for each of its posts whose outcome was never recorded |
| DrainRefinement.RefusalCanBeAcceptedTwice | src/smartwatch_clank/notifications/discord.py:203-205 | Every history in which a drain has heard a refusal of a discovery row with attempts left can go on, with nothing in hand cut short, to two acceptances at the far end |
| DeliveryHistory.SentIsForever | src/smartwatch_clank/core/store.py:639-670 | No single action changes a discovery row that is sent |
| DeliveryHistory.SentStaysSent | src/smartwatch_clank/core/store.py:639-670 | Once sent, a discovery row is the same row after any continuation |
| DeliveryHistory.HeldMovesOnlyByReplay | src/smartwatch_clank/notifications/discord.py:438-498 | A held discovery row changes only when a drain run with include_held writes to it |
| DeliveryHistory.SnapshotStaysTrue | src/smartwatch_clank/notifications/discord.py:468-486 | A drain that is inside its loop is the grant holder, and every discovery row it has not yet visited equals the copy it selected, although requeues and policy writes run without the grant |
| DeliveryHistory.AttemptsAreBudgeted | src/smartwatch_clank/notifications/discord.py:486-532 | Attempts are at most 4 while pending or held, exactly 5 when failed, 1 to 5 when sent, and equal the non-429 posts recorded since the last requeue |
| DeliveryHistory.FiveRecordedPostsSettle | src/smartwatch_clank/notifications/discord.py:486-532 | In any interleaving, a row with five posts recorded since its last requeue is sent or failed, and there are never more |
| DeliveryLiveness.EndedDrainsLeaveRecords | src/smartwatch_clank/notifications/discord.py:479-535 | In any interleaving a drain that has ended has dealt with every row it selected: it deferred it, held it or recorded a post of it, unless a 429 cut it short |
| DeliveryLiveness.FiveDrainsSettleInAnyHistory | src/smartwatch_clank/notifications/discord.py:479-535 | In any interleaving at most five drains select a row after its last requeue and end without a 429 and without skipping or holding it, and after five the row is sent or failed |
| DeliveryHistory.PolicyGuardsEveryHistory | src/smartwatch_clank/notifications/delivery_policy.py:91-119 | Over whole histories no drain without include_held posts a row the cutoff it loaded does not clear, and none posts under an unreadable policy |
| DeliveryHistory.OneRateLimitPerDrain | src/smartwatch_clank/notifications/discord.py:508-521 | A post answered 429 is the last post of its drain, in any interleaving |
| DeliveryHistory.RateLimitIsWaitedOut | src/smartwatch_clank/notifications/discord.py:428-436 | With a clock that never goes back, after a 429 has been written to a discovery row no process posts it before the answer time plus the wait |
| DrainRefinement.FloorNeedsItsWrite | src/smartwatch_clank/notifications/discord.py:508-521 | After a 429 has been heard, writing sets the floor and logs it, being cut short instead leaves table and log as they were and frees the grant |
| DrainRefinement.LimitedRowCanBePostedAgain | src/smartwatch_clank/notifications/discord.py:508-521 | In every sound state in which a process has heard a 429 for a row and is cut short, the row (a test row too) can be posted again without the clock moving, if it is selectable, under no earlier floor and cleared |
| DrainRefinement.HeardLimitCanBeLost | src/smartwatch_clank/notifications/discord.py:508-521 | Every history, with a clock that never goes back, in which a drain has heard a 429 for a discovery row has a continuation in which the row is posted again at once |
| DrainRefinement.RateLimitIsRespectedExactly | src/smartwatch_clank/notifications/discord.py:428-521 | From such a history on, the row waits as long as it was told to in every continuation, if and only if the floor is written or the wait was over when it was not |
| DrainRefinement.RateLimitLostInAbort | src/smartwatch_clank/notifications/discord.py:508-521 | Such a history from the empty outbox, with a wait of sixty seconds |
| DrainRefinement.SequentialDrainIsAHistory | src/smartwatch_clank/notifications/discord.py:448-535 | A drain left alone inside the protocol, failing writes included, writes exactly the rows of the sequential drain, logs exactly its posts in its order, and gives the grant back |
| Protocol.StepIsSound | src/smartwatch_clank/notifications/discord.py:366-535 | Every action keeps mutual exclusion, the truth of the holder's snapshot and the attempt budget |
| Protocol.LogTellsTheSteps | src/smartwatch_clank/notifications/discord.py:413-535 | A step adds at most one event to the log and the event tells what that very step did: which row was passed over because its floor lies ahead, held, counted, deferred to which floor, posted under which policy, or cut short; a drain neither passes nor changes a row without one |
| Protocol.TestStepsAreExact | src/smartwatch_clank/notifications/discord.py:394-424 | In any interleaving a test send queues a fresh row, waits while the grant is taken, frees the grant whatever the reply, and marks its row afterwards with the outcome; without a URL the row fails with one attempt, without the grant |
| Protocol.FrameStepsAreExact | src/smartwatch_clank/notifications/discord.py:413-535 | A drain begins only while the grant is free, reads the policy stored at that moment, and ends only after a 429 or its last row; enqueueing, requeueing, setting the cutoff and the clock need no grant and do just what they say, row by row |
| Drain.DrainActsRowByRow | src/smartwatch_clank/notifications/discord.py:486-532 | Closed form of a drain: each row reached ends as its own turn leaves it, every other row is untouched, the posted ids are exactly the reached rows that are eligible and cleared, each once and in order, and no turn but the last halts the drain |
| Drain.RateLimitEndsTheDrain | src/smartwatch_clank/notifications/discord.py:508-521 | A 429 is the drain's last turn, costs its row only a floor of write time plus wait (nothing if that write raises), and leaves every later row of the queue as it was |
| Drain.PolicyGuardsTheDrain | src/smartwatch_clank/notifications/discord.py:438-498 | Without include_held only rows cleared by the stored cutoff are posted, none under an unreadable policy, and held rows are untouched |
| Drain.DrainCoversThePreview | src/smartwatch_clank/notifications/discord.py:553-583 | With no 429 and nothing that raises, held + posted + deferred = would_send + would_hold |
| Drain.DrainRefinesThePreview | src/smartwatch_clank/notifications/discord.py:553-583 | With no floor in force either, the drain holds exactly the rows the preview would hold, under the same reasons, and posts exactly the rows it would send |
| Drain.TurnsAreAccountedFor | src/smartwatch_clank/notifications/discord.py:479-535 | held + posted + deferred counts every turn taken once, a rate-limited one twice, and a hold whose write raised not at all |
| Drain.FiveDrainsSettle | src/smartwatch_clank/notifications/discord.py:486-532 | A pending row that every one of a sequence of drains serves is settled after at most 5 - attempts of them |
| Drain.RaisesExactly | src/smartwatch_clank/notifications/discord.py:479-535 | A drain raises if and only if a turn it takes does: its store write raises, or it posts a row and the sender raises or its reply cannot be read |
| Drain.BuiltInSenderRaisesExactly | src/smartwatch_clank/notifications/discord.py:166-227 | With the built-in sender that is: the store write of a turn raises, or a turn posts a row and the webhook URL names no scheme or the answer is 429 with a Retry-After header that spells not-a-number |
| Drain.BareUrlDeliversNothing | src/smartwatch_clank/notifications/discord.py:180-192 | With a URL that names no scheme a drain raises if and only if some row of its queue is to be posted; it hands at most one row to the sender and leaves it as it was |
| WebhookUrl.PlainUrlIsExact | src/smartwatch_clank/notifications/discord.py:180-192 | A plain URL can be posted to if and only if it is a text without colon or slash, a colon and a rest |
| WebhookUrl.DecorationNeverShows | src/smartwatch_clank/notifications/discord.py:180-192 | White space, angle brackets, a label and a fragment around it change nothing |
| WebhookUrl.NoColonNoScheme | src/smartwatch_clank/notifications/discord.py:110-111 | A URL without a colon, such as one pasted without its https prefix, names no scheme |
| DeliveryPolicy.FailsClosed | src/smartwatch_clank/notifications/delivery_policy.py:108-119 | A row is sent exactly when no cutoff is stored, or the stored cutoff is readable and the row's time is known and not before it; otherwise it is held for an unreadable policy, an unknown time or a time before the cutoff, in this order |
| Outbox.RetryAfterIsClampedUnlessNotANumber | src/smartwatch_clank/notifications/discord.py:166-227 | A 429 of the built-in sender with 0 to 900 seconds in its header is waited out exactly that long, with more for 900, with a missing, unreadable or negative header for 60; on one that spells not-a-number the drain raises |
| Outbox.RepliesAreReadAlike | src/smartwatch_clank/notifications/discord.py:207-227 | Any sender's 4-, 3- and 2-tuples are read alike: accepted by the flag, rate-limited by the category with the wait given or 60 seconds, refused otherwise |
| Outbox.SelectionIsExact | src/smartwatch_clank/notifications/discord.py:438-446 | A drain selects the pending rows, and with include_held the held ones too |
| DrainLaws.TurnIsExact | src/smartwatch_clank/notifications/discord.py:486-532 | Whether a turn posts, and every field it leaves in its row: the hold with its reason text, the delivery with its time and status, the counted attempt that fails for good at the fifth, the floor |
| DrainLaws.CountersAreExact | src/smartwatch_clank/notifications/discord.py:479-547 | sent, failed, held, deferred and held_by_reason are the numbers of turns accepted and recorded, refused for the fifth time, held, put off by a floor or a 429, and held for each reason |
| DrainLaws.BuiltInFloorIsExact | src/smartwatch_clank/notifications/discord.py:508-521 | A row the built-in sender was answered 429 for gets the write time plus exactly the wait its header asks for as its floor |
| Outbox.PostponedIsTheTable | src/smartwatch_clank/core/store.py:651-661 | The clauses of a deferral determine the whole new table |
| Outbox.SelectedIds | src/smartwatch_clank/notifications/discord.py:438-446 | The selected ids are all the selectable rows, each once, in id order |
| Notifier.DiscordNotifier.Drain | src/smartwatch_clank/notifications/discord.py:448-547 | The method does what the sequential drain says, counters, reasons and posts included; without a webhook or with the grant taken it changes nothing; it always gives the grant back; it raises exactly when a turn does |
| Notifier.DiscordNotifier.DrainRows | src/smartwatch_clank/notifications/discord.py:479-532 | The loop of the drain computes the specification function |
| Notifier.DiscordNotifier.EnqueueTest | src/smartwatch_clank/notifications/discord.py:394-424 | A test send adds one row and posts it exactly when it gets the grant; its endings are told apart, each with the row it leaves; after a sender that raises, a reply that is no tuple or a mark that raises, the row stays pending and the grant is free |
| Notifier.CutoffEffect | src/smartwatch_clank/notifications/discord.py:569-583 | would_send + would_hold is the number of pending rows, by verdict |
| Lock.RunLock.Acquire | src/smartwatch_clank/core/lock.py:119-174 | The lock is taken exactly when nobody holds it; a refusal changes nothing |
| Lock.RunLock.Release | src/smartwatch_clank/core/lock.py:176-184 | Releasing frees the lock exactly when this object holds it |
| LedgerHistory.DiscoveriesReplayToTheCatalogue | src/smartwatch_clank/core/runner.py:95-133 | In every history, replaying an epoch's stored discoveries over its baseline agrees with the latest healthy catalogue on all its identities; what is left over are news items; without news the two are equal |
| LedgerHistory.EpochsFormOneChain | src/smartwatch_clank/core/store.py:288-337 | A collector's epochs form one linked chain whose neighbours differ in material, EPOCH_STARTED is its first event, one RESET opens each later epoch, and run epochs never go back |
| LedgerHistory.DiffedAgainstTheLastHealthyCatalogue | src/smartwatch_clank/core/store.py:465-487 | A run is diffed against the globally last healthy catalogue if that lies in the active epoch and against nothing otherwise, also when a material comes back |
| LedgerHistory.FirstVerdictStays | src/smartwatch_clank/core/store.py:353-369 | A completed execution has exactly one terminal, healthy exactly when the checks passed and the save and the terminal were written, with the run's own trigger, epoch, version, configuration, revision and scope |
| RunLaws.RunLeaves | src/smartwatch_clank/core/runner.py:80-166 | Every field of what a run that reaches its end leaves: its terminal, its collector's health record, and the rows of its catalogue, of its failure, or of both, judged against the newest healthy count of its epoch |
| RunLaws.GateFollowsTheRun | src/smartwatch_clank/core/store.py:371-417 | After any history and a run that reaches its end the gate is eligible if and only if the run's trigger is known, its version, configuration and revision are identified, its checks passed, and save and terminal were written |
| RunLaws.RowsComeFromRuns | src/smartwatch_clank/core/runner.py:80-166 | Every run row of every history comes from one of its runs, with every field told from that run's input and the newest healthy count at that time |
| RunLaws.NoEmptyCatalogueIsHealthy | src/smartwatch_clank/core/health.py:48-49 | In every history in which a collector's runs treat zero as a failure no healthy run of it observed nothing |
| RunLaws.WarningsAreExact | src/smartwatch_clank/core/health.py:50-61 | In every history a healthy run is stored with a warning if and only if its epoch's newest healthy count before it is positive and it saw less than the warning ratio of that |
| Runner.OutcomeIsExact | src/smartwatch_clank/core/runner.py:80-166 | The report of a run, field by field: healthy exactly when every check passed and every write went through, a baseline exactly when the epoch had no healthy run |
| LedgerHistory.GateReadsTheLatestTerminal | src/smartwatch_clank/core/store.py:371-417 | In every history the gate is eligible exactly when the active epoch's material is trustworthy and its latest terminal is healthy with a known trigger; the two material contradictions are unreachable |
| LedgerHistory.HealthyCountsAreBounded | src/smartwatch_clank/core/health.py:46-61 | In every history the k-th healthy count of an epoch satisfies n_0 * num^k <= n_k * den^k for the failure ratio num/den its collector is judged by, whatever other collectors use |
| Ledger.RunStatesAreConsistent | src/smartwatch_clank/core/runner.py:80-166 | Every transaction of a run keeps the ledger's invariant, whatever raises |
| Diff.DiffCatalogues | src/smartwatch_clank/core/diff.py:8-26 | The three loops list appeared, changed and gone identities, each group in identity order |
| Diff.DiffIsExact | src/smartwatch_clank/core/diff.py:8-26 | The discoveries of a diff about an identity are exactly the one its two observations call for, or none |
| Diff.DiscoveriesTellTheChange | src/smartwatch_clank/core/diff.py:8-53 | The diff speaks once about each identity that is new, changed, or gone and no news item; the change type is told by the first of price or currency, availability, firmware that differs, by official news, and by the source kind of what is gone; evidence, source, time, confidence and level are those of the observation discussed |
| Diff.ReplayingTheDiff | src/smartwatch_clank/core/diff.py:8-53 | Replaying a diff over an image of the old catalogue gives an image of the new one |
| Health.ShrinkIsBounded | src/smartwatch_clank/core/health.py:46-61 | What accepted steps add up to over any number of runs |
| Health.AssessmentIsExact | src/smartwatch_clank/core/health.py:46-61 | Zero fails when it is a failure; otherwise below the failure ratio of a positive previous count fails and below the warning ratio warns |
| Health.AssessmentIsOrdered | src/smartwatch_clank/core/health.py:46-61 | Under a configuration the runner accepts, a catalogue that did not shrink draws neither failure nor warning, and one that fails would have been warned about |
| Qualification.PrepareKeepsTheBook | src/smartwatch_clank/core/store.py:288-337 | Opening an epoch keeps the chain, the opening events, the attested terminals and first-write-wins |
| Qualification.RecordKeepsTheBook | src/smartwatch_clank/core/store.py:353-369 | So does recording a terminal |
| Qualification.PrepareIsExact | src/smartwatch_clank/core/store.py:288-337 | An epoch is opened exactly when the material is not that of the current one; every field of its row and of its opening event |
| Qualification.GateReasonsAreExact | src/smartwatch_clank/core/store.py:371-417 | Which of the ten reasons the gate gives, on any book |
| Qualification.GateIsExact | src/smartwatch_clank/core/store.py:371-417 | The gate's answer on any book with these invariants |
| RunArchive.HealthyRunContinuesStory | src/smartwatch_clank/core/store.py:489-529 | Saving a healthy run with its diff keeps the replay of every epoch |
| RunArchive.FailedRunKeepsStory | src/smartwatch_clank/core/store.py:489-529 | Saving a failed run changes no epoch's replay |
| Newsroom.NotificationsMatchDiscoveries | src/smartwatch_clank/notifications/discord.py:316-348 | In every life of the newsroom, discovery rows and committed CRITICAL or NEWSWORTHY discoveries of healthy non-baseline runs of allowlisted production collectors run with the factory are in bijection |
| Newsroom.ClosedGatesQueueNothing | src/smartwatch_clank/notifications/discord.py:316-348 | A collection without the factory, of an experimental collector, or of one not on the allowlist leaves the outbox alone |
| Newsroom.OpenGatesQueueEach | src/smartwatch_clank/notifications/discord.py:316-348 | With all three gates open exactly one new pending row is queued for each critical or newsworthy discovery committed, in their order |
| Newsroom.DiffAnnouncesExactly | src/smartwatch_clank/core/diff.py:8-53 | The editorial gate passes exactly one discovery of a diff for each new product, new relevant news item, changed price, currency, availability or firmware, and gone listing, and none for any other identity |
| Newsroom.UncommittedRunLeavesNeither | src/smartwatch_clank/core/store.py:489-529 | A run that commits no healthy row, because a check failed, its save was rolled back or its process died, leaves neither a discovery nor a notification row |
| Newsroom.AnnouncedAtMostOnce | src/smartwatch_clank/notifications/discord.py:316-547 | End to end, in every life: a discovery is posted only once it is committed and worth announcing, and accepted at most once unless a process died between an acceptance and its mark or that mark raised |
| Newsroom.LifeIsTwoHistories | src/smartwatch_clank/core/store.py:489-529 | Collection and delivery over one store are one history of runs and one history of deliveries |
| Newsroom.IntentsQueue | src/smartwatch_clank/core/store.py:598-612 | The rows a save queues are what enqueue actions of the protocol queue |
| Store.SQLiteStore.PrepareQualification | src/smartwatch_clank/core/store.py:288-337 | Reuses the current epoch on equal material, otherwise appends one epoch, linked to the one before, and its opening event; afterwards the collector's current epoch has the material, and no other collector's has moved |
| Store.SQLiteStore.RecordQualificationTerminal | src/smartwatch_clank/core/store.py:353-369 | Appends at most one event; afterwards the execution has a terminal; terminals that were unique stay unique |
| Store.SQLiteStore.SaveRun | src/smartwatch_clank/core/store.py:489-529 | One transaction: run, observations, discoveries and queued notification rows together, or nothing; duplicate identities roll it back |
| Store.SQLiteStore.NotificationPut | src/smartwatch_clank/core/store.py:598-612 | The rows so far stay in place; the key is there afterwards; a row is added exactly when the key was new, so distinct keys stay distinct |
| Store.SQLiteStore.MarkNotification | src/smartwatch_clank/core/store.py:639-649 | Only one row changes; its message and floor stay; an attempt is counted only on request; only a sent row gets a new delivery time |
| Outbox.MarkedIsTheTable | src/smartwatch_clank/core/store.py:639-649 | Those clauses determine the whole new table |
| Store.SQLiteStore.DeferNotification | src/smartwatch_clank/core/store.py:651-661 | Only one row changes, and of it only the floor: message, status, attempts and times stay |
| Store.SQLiteStore.RequeueFailedNotifications | src/smartwatch_clank/core/store.py:663-670 | Exactly the failed rows become pending, with attempts 0, no error and no floor; the others stay; the next drain selects exactly the rows that were pending or failed |
| Runner.Runner.RunOne | src/smartwatch_clank/core/runner.py:80-166 | The method leaves the ledger of the specification and the outbox rows of its discoveries, reports the whole outcome (health, baseline, counts, warning, error), and leaves the outbox alone unless the factory is there and the collector is of the production tier and on the allowlist, lets an exception out exactly when preparing the epoch, reading what it last saw or the except path raises, with what was committed by then |
| Runner.Runner.Run | src/smartwatch_clank/core/runner.py:62-65 | A cycle is the history of its runs up to the first whose exception leaves the runner; it returns their outcomes in order exactly when there is none |
| Samsung.ReconcileSamsung | src/smartwatch_clank/intelligence/samsung.py:43-78 | The two loops compute the join |
| Samsung.ReconcileForgetsOrder | src/smartwatch_clank/intelligence/samsung.py:43-45 | Permuting either input changes nothing, as long as an identity names one observation |
| Samsung.OneRecordPerSupport | src/smartwatch_clank/intelligence/samsung.py:52-66 | Each support observation gets exactly one record |
| Samsung.SupportRecordsTellTheTruth | src/smartwatch_clank/intelligence/samsung.py:52-66 | Each such record names its page and relates it to the catalogue as the products themselves do |
| Samsung.OneRecordPerUncoveredListing | src/smartwatch_clank/intelligence/samsung.py:68-77 | One CATALOGUE_ONLY record for each (region, base) of a product that no known support page covers, none for any other |
| Samsung.MatchedProductIsNotCatalogueOnly | src/smartwatch_clank/intelligence/samsung.py:46-77 | A product matched by region and SKU stays off the CATALOGUE_ONLY list if and only if some known page covers its listing; a shared region and base model suffice |
| Samsung.MatchedProductCanBeCatalogueOnly | src/smartwatch_clank/intelligence/samsung.py:46-77 | Without a base model on the support side it is listed in both ways |
| SamsungLaws.SupportRecordsAreExact | src/smartwatch_clank/intelligence/samsung.py:52-66 | The record of a support page, field by field, with the last product of its region and SKU and the relationship told from the products |
| SamsungLaws.ListingRecordsAreExact | src/smartwatch_clank/intelligence/samsung.py:68-77 | A CATALOGUE_ONLY record is that of the first product of a listing no known page supports, field by field |
| SamsungLaws.ListingsAreCounted | src/smartwatch_clank/intelligence/samsung.py:68-77 | There is exactly one for each such listing |
| SamsungLaws.RecordsAreOrdered | src/smartwatch_clank/intelligence/samsung.py:39-41 | The records come in the order of relationship, region and the first given of SKU, base model and identity |
| Prelaunch.SamsungStore.PersistSamsungReconciliation | src/smartwatch_clank/intelligence/samsung.py:81-156 | The method leaves the tables of the specification and reports run, baseline, new regions and the number of new events |
| Prelaunch.CandidatesFollowTheirTouches | src/smartwatch_clank/intelligence/samsung.py:102-154 | After any reconciliations every candidate and its events are the closed form of the records that touched it |
| PrelaunchLaws.RecordIsExact | src/smartwatch_clank/intelligence/samsung.py:102-154 | What one record does to its candidate and to the events, field by field, and to nothing else |
| PrelaunchLaws.RegionsOnboardOnce | src/smartwatch_clank/intelligence/samsung.py:84-98 | A region is onboarded once, at the time of the first reconciliation with a support page of it |
| PrelaunchLaws.RunsAreExact | src/smartwatch_clank/intelligence/samsung.py:99-112 | Every reconciliation has its entry and its records; only the first is a baseline |
| Prelaunch.CandidatesKeepTheirOrigin | src/smartwatch_clank/intelligence/samsung.py:123-148 | Candidates are never dropped; first_seen and onboarding_baseline never change; catalogue_first_seen is written at most once |
| Prelaunch.ConfirmedCandidatesAreDated | src/smartwatch_clank/intelligence/samsung.py:119-127 | A COMMERCIALLY_CONFIRMED candidate has its catalogue_first_seen |
| Prelaunch.CandidateDatesAreOrdered | src/smartwatch_clank/intelligence/samsung.py:120-148 | With a monotone clock first_seen <= catalogue_first_seen <= last_seen |
| Prelaunch.CandidateEventsAreCounted | src/smartwatch_clank/intelligence/samsung.py:121-154 | 1 - onboarding_baseline opening events, and one SUPPORT_BEFORE_PRODUCT for each move into confirmation |
| Prelaunch.OnboardingIsExact | src/smartwatch_clank/intelligence/samsung.py:84-102 | A region is onboarded exactly when an earlier reconciliation had a support record in it, so a first reconciliation finds every region new and the baseline disjunct at line 148 adds nothing |
| Prelaunch.RepeatingIsSilentExactly | src/smartwatch_clank/intelligence/samsung.py:121-154 | For every history, batch and pair of times, reconciling the batch again emits nothing if and only if no two of its records of one candidate differ in whether they confirm it |
| Prelaunch.TwoPagesOfOneSkuDisagree | src/smartwatch_clank/intelligence/samsung.py:43-78 | The join hands over batches that do differ: two support pages with one region and SKU, one known and one not, next to the matching product |
| Prelaunch.RepeatingTwoPagesEmits | src/smartwatch_clank/intelligence/samsung.py:81-156 | Repeating any such batch emits, after any history |
| Samsung.SupportIsRecorded | src/smartwatch_clank/intelligence/samsung.py:52-66 | Every support observation has a record that describes it |
| Prelaunch.ReconcileHandsOverFromReconcile | src/smartwatch_clank/intelligence/samsung.py:43-78 | The join meets what the event count asks of its input |
| SchemaState.InspectSchema | src/smartwatch_clank/core/schema_state.py:184-317 | The early returns and loops compute the verdict |
| SchemaLaws.VerdictIsExact | src/smartwatch_clank/core/schema_state.py:184-317 | Every verdict with its observed version and what is missing, told from tables, columns and marker rows |
| SchemaState.CompatibleIsExact | src/smartwatch_clank/core/schema_state.py:233-317 | COMPATIBLE means: readable marker whose greatest version is the expected one, every expected table, every required column of runs |
| Admission.Connection.Migrate | src/smartwatch_clank/core/store.py:159-282 | The statements, the guarded ALTERs and the upsert compute the migration, and a failure keeps what was done before it |
| SchemaLaws.CreateIsExact | src/smartwatch_clank/core/store.py:160-266 | When a CREATE statement fails, does nothing, or adds its table or index |
| SchemaLaws.MigratedRunsHaveDefaults | src/smartwatch_clank/core/store.py:267-275 | The rows of runs get an empty JSON object, the count zero or NULL in the columns they lacked |
| SchemaLaws.StampIsExact | src/smartwatch_clank/core/store.py:276-281 | The upsert writes version and time into the marker row when its version ranks below, inserts that row when there is none, and touches no other |
| Admission.Connection.AdmitCompatibility | src/smartwatch_clank/core/store.py:69-148 | Only a COMPATIBLE store is admitted; verdicts that rule a store out, and compatible stores, leave the file unchanged; the method computes the admission |
| Admission.ScriptCreates | src/smartwatch_clank/core/store.py:160-266 | The script succeeds exactly when each statement would on the database as it was, and then adds exactly what was missing |
| SchemaLaws.RefusalIsExact | src/smartwatch_clank/core/store.py:69-148 | A newer, unknown, corrupt or partial store is refused with its verdict, a compatible one admitted, both untouched; fresh and older ones are migrated and admitted exactly if that succeeds and ends compatible |
| AdmissionLaws.AdmissionIsExact | src/smartwatch_clank/core/store.py:121-148 | A fresh, legacy or older marked store is admitted if and only if names, indexed columns, v1 columns and marker row, read beforehand, allow it |
| AdmissionLaws.FreshIsAdmitted | src/smartwatch_clank/core/store.py:91-111 | An absent or empty database is always admitted |
| AdmissionLaws.LegacyIsAdmitted | src/smartwatch_clank/core/schema_state.py:82-110 | A recognised legacy database is admitted unless an index already has the name of a table to be created |
| AdmissionLaws.MigrationIsAdditive | src/smartwatch_clank/core/store.py:159-282 | The migration keeps every table, index, column and row with its values, also when it fails half way |
| AdmissionLaws.AdmissionKeepsEverything | src/smartwatch_clank/core/store.py:69-148 | Whatever the barrier decides, nothing is lost |
| AdmissionLaws.MarkerIsNeverLowered | src/smartwatch_clank/core/store.py:276-281 | Through the barrier no version on record is lowered |
| AdmissionLaws.StampLowersExactly | src/smartwatch_clank/core/store.py:276-281 | The guarded upsert alone lowers a version if and only if it is the marker row, the new version outranks it and it spells a greater one; such a version is a text |
| AdmissionLaws.MigrationIsIdempotent | src/smartwatch_clank/core/store.py:159-282 | A migration that succeeded does nothing the second time, at any later time |
| AdmissionLaws.AdmissionIsIdempotent | src/smartwatch_clank/core/store.py:69-148 | Opening an admitted store again changes nothing |
| AdmissionLaws.RefusalCanFollowMutation | src/smartwatch_clank/core/store.py:127-148 | An older marked store whose runs lacks a v1 column is refused with its missing tables already created |
| AdmissionLaws.UntouchedRefusalIsExact | src/smartwatch_clank/core/store.py:121-148 | Among the stores the migration is tried on, the refused ones left untouched are exactly those whose script fails before creating anything and those in which only the marker could have changed and cannot |
| Garmin.GarminCatalogueCollector.Collect | src/smartwatch_clank/collectors/garmin/catalogue.py:192-228 | The crawl updates the cache and lists, rejects or counts as an error every product of the sitemap, the rejected being those read as no watches and the errors those not read; an exception leaves the cache |
| Garmin.EntryIsExact | src/smartwatch_clank/collectors/garmin/catalogue.py:163-190 | What fetching a product gives: the entry of a page that can be read, field by field, an exception from a malformed page, an error from anything else |
| Garmin.ObservationTells | src/smartwatch_clank/collectors/garmin/catalogue.py:219-228 | The observation of an entry, field by field |
| Garmin.CacheIsFirstSuccess | src/smartwatch_clank/collectors/garmin/catalogue.py:192-208 | After any crawls the cache holds, for every product, what the one-page-at-a-time crawl read first |
| Garmin.ObservationsAreFirstSuccess | src/smartwatch_clank/collectors/garmin/catalogue.py:210-228 | Each crawl reports exactly what that reference crawl would |
| Garmin.EntriesAreWrittenOnce | src/smartwatch_clank/collectors/garmin/catalogue.py:205-208 | A cached entry never changes |
| Garmin.FetchOrderNeverShows | src/smartwatch_clank/collectors/garmin/catalogue.py:197-201 | Two completion orders of the same fetches read the same entries and meet an exception or not alike |
| Garmin.CompletionOrderNeverShows | src/smartwatch_clank/collectors/garmin/catalogue.py:197-205 | Histories that differ in completion orders only have the same cache, complete alike and report the same catalogue |
| Garmin.CrawlsOnlyComeAndGo | src/smartwatch_clank/core/diff.py:8-26 | Between any two crawls of a history the diff finds only NEW_DEVICE and SOURCE_LISTING_REMOVED |
| Garmin.CompletesExactly | src/smartwatch_clank/collectors/garmin/catalogue.py:163-208 | A crawl completes if and only if its cache file can be written and no product page it still has to read has a name or url that is there and no text, or offers that are there and no object |
| Garmin.OneMalformedPageStallsTheCrawls | src/smartwatch_clank/collectors/garmin/catalogue.py:163-208 | While one uncached page of that kind stays in the sitemap, no crawl completes and the cache never grows, whatever else the crawls read |
| Garmin.OffersListLosesTheCrawl | src/smartwatch_clank/collectors/garmin/catalogue.py:180-188 | A list of offers, with everything else in order, is such a page |

## Left out

- Drain.FiveDrainsSettle: speaks of drains with nothing between them; DeliveryLiveness.FiveDrainsSettleInAnyHistory does so for every interleaving.
- A store read of a drain or test send, or a lock file, that raises: in the protocol it is one more way to be cut short, in the sequential drain and the methods it is left out.
- Reading the webhook URL beyond its scheme: a URL that names one is posted to, and what urllib meets then is a reply.
- Cross-process claims for test rows: a test send inserts its row before taking the grant and marks it after giving it back, so it does not have them; its steps do interleave in the protocol.
- Registry selection and `run_selected`'s name check: set filters.
- One clock reading for all discoveries of a diff, and one for all rows of a save: the code reads the clock for each; nothing but the stored time depends on it.
- Only one collector's run writes at a time: two collection processes over one store are kept apart by the run lock, and their runs interleave here only as whole runs cut short by a death.
- A delivery step between two transactions of one run: only one of them touches the outbox, so the step stands before or after the run.
- The provider column of the outbox: there is one provider.
- In-memory stores, which take no delivery lock, and the lock file's metadata, read-only mounts and platform calls.
- The embed text, the log lines, the error categories of a transport failure and the body of a post.
- Which floors Python can hold as a date: adding the wait to the clock raises on one it cannot, and that is one of the writes that raise.
- A stored ISO time that Python and the store read differently; JSON, SHA-256 and floating-point rounding.
- The phrase lists and patterns that classify news and product pages and find size and SKU: a page or an observation carries what they found.
- HTTP clients, proxy probing, feed, HTML, JSON and sitemap parsing, and the other collectors.
- SQLite names that differ in case only, views, triggers, tables of SQLite's own, and columns that neither an index nor the inspection reads.
- Column affinity of the marker table: a text version carries whether SQLite ranks the expected version above it; constraints of that table other than its key are one flag, whether they accept the row.
- Garmin's rejected sample, the loss or corruption of its cache file, and a sitemap that cannot be fetched, with which no crawl begins.
- The continuity registry, evidence store, host-migration log, reports, dashboard, user interface, deployment and command line.
- A Samsung record that names a support page without its URL: the candidate table would refuse it, and the join never makes one.
- Samsung's record rows as JSON text: they are stored as the records themselves.
