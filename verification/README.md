# Verification of the bug-report pipeline

A Dafny model of the report pipeline: reports are scrubbed, sealed and put into an object store
under a pending key; an administrator can remove them; once a week a gated publisher decrypts the
oldest ones, creates an issue for each and marks it published. `dafny verify dfyconfig.toml`
checks the whole project.

How the parts fit together:

- `Move`, `Protocol`, `Lifecycle`: a status transition is a Get, a Put and a Delete. `Move` is that
  program one store call at a time; `Protocol` runs any number of them, and of ingests, interleaved
  over one store, with calls that fail with or without effect and processes that stop anywhere;
  `Lifecycle` is the manager as written, proved to be that program.
- `Finality`, `Exclusion`, `Races`: exactly when a success means that the report has left pending, and
  exactly when a report is under one status only, without overlaps and with them.
- `MemoryStore`, `Paging`, `StatusKeys`, `Order`: the store contract, the reference store, the store
  behind a failing connection, the cursor loop of the production store, the key layout.
- `Frame`: the sealed object format and the versioned keyring, over any cipher whose open inverts
  its seal.
- `Calendar`, `Schedule`, `ReportId`: one calendar for the Central-time gate and for the order of
  report ids. Instants are in seconds since 0001-01-01 00:00 UTC, over all years.
- `Utf8`, `Runes`, `Format`, `Fences`, `Reading`: byte-exact truncation and trimming and what they mean
  in code points, the issue printer, a reader of fenced blocks that undoes it, and a reader of the
  lines above the block.
- `Backoff`, `Policy`, `Github`: retry arithmetic in 64-bit durations, the decision on one reply in terms
  of the text of its headers and body, and the client with its clock (nanoseconds since 1970-01-01
  00:00 UTC), trace of attempts and requested sleep.
- `Pipeline`, `Guarantees`, `Duplicates`: everything composed into one machine, with rotations, removals
  and ingests between any two steps of the publisher, what it promises over all runs, and exactly
  when a report gets no further issue. An ingest seals under the ring its sink holds, which may be
  older than the secret in force (internal/storage/worker_sink_wasm.go:58-81 keeps one).
- `Publish`, `Backlog`, `Sink`: the publisher, the gate around it and the ingest sink as written, each
  proved to be a run of that machine; how a backlog drains. `Steps` turns the publisher's calls into
  steps of the machine, with everyone else's before each store call; `World` shows such a world.

What is assumed: report ids are fresh; the cipher is as `Frame.Lawful` says; a 201 means that the
issue exists; the clock does not go back and a sleep that is not cancelled lasts at least as long
as asked; random numbers lie in [0, 1].

Where the code and what is said about it differ:

- publish.go:104-112 says that after a failed mark the report stays pending and will be published
  again, as at most one duplicate issue. Neither holds. A mark can fail although its Delete took
  effect (`Duplicates.FailedMarkMayBeFinal`), and a report can be created again in every run that
  finds it pending, without bound (`Duplicates.DuplicatesUnbounded`). The issues a report has are its
  successful and failed marks, its lost confirmations and the one in flight (`Guarantees.Accounting`);
  it can get more if and only if it is still pending or being created
  (`Duplicates.NoMoreIssuesExactly`), which can be looked up after a failed mark.
- A transition that returns success does not always mean that the report has left pending: when its
  first Get came before the ingest took effect, its second can meet the destination that another
  transition has just written (`Finality.EarlyCallMaySucceedWhilePending`). It always does if and only
  if the report was ingested by that Get, or never is (`Finality.SuccessFinalExactly`). The impact is
  small: such a caller has to name an id with 80 random bits that nobody has seen yet.
- lifecycle.go:7-9 says that a report moves to exactly one terminal state. Two overlapping transitions
  can leave it removed and published at once, both reporting success
  (`Exclusion.RaceLeavesTwoStatuses`). Without any overlap so can a transition that was interrupted
  between its Put and its Delete and then another to the opposite status, which reports success
  (`Exclusion.InterruptedThenOther`). A transition that completes without another of its report
  overlapping leaves exactly one status if and only if the store it started from was not that of
  an interrupted opposite transition, nor of two terminal states, nor without the report: the
  condition `Exclusion.Settles`, in `Exclusion.CompletedExactly` and, amid everything else,
  `Exclusion.ExactlyOneAmidOthers`. With overlaps, faults and crashes of every kind, a report can no
  longer come under two terminal statuses if and only if it has left pending for exactly one and no
  transition to the other is between its first Get and its Delete (`Races.ExclusiveExactly`).
- A Retry-After above 9223372036 seconds wraps to another duration (`Backoff.RetryAfterExact`), and so
  does a reset too far away (`Backoff.UntilResetExact`).

## Model

| member | source | states |
|---|---|---|
| Protocol.StepKeepsInv | internal/lifecycle/lifecycle.go:117-145 | Every single store call of every ingest, removal or publication in flight, with any outcome (done, lost, applied but reported as failed) and any crash, keeps the store invariant, and what it changes is one-way: frames and ingests are not forgotten, terminal keys stay, a pending key once gone stays gone |
| Protocol.RunKeepsInv | internal/lifecycle/lifecycle.go:117-145 | The same for whole runs, every interleaving |
| Protocol.NoLoss | internal/lifecycle/lifecycle.go:27-36 | Once an ingest Put has taken effect, after any further interleaved steps, faults and crashes the report is held under some status and each of its status keys holds exactly the sealed bytes |
| Protocol.NeverReturns | internal/lifecycle/lifecycle.go:135-145 | A report that has left pending never returns there and stays under a terminal status with its original bytes |
| Protocol.SuccessIsFinal | internal/lifecycle/lifecycle.go:117-145 | A transition whose first Get came after the ingest and that returned success is final: in every continuation the source is absent and the destination holds the original bytes |
| Finality.SuccessFinalExactly | internal/lifecycle/lifecycle.go:117-145 | The exact condition, for a transition at its first Get in any reachable state: every success it can return in any continuation means that the report has left pending if and only if the report is not one that has yet to be ingested; so for a report that is ever ingested, if and only if its ingest took effect before that Get |
| Protocol.Converges | internal/lifecycle/lifecycle.go:33-41 | From every reachable state one uninterrupted fault-free rerun succeeds if and only if the report is pending or already at the destination, and then leaves it there with its bytes and not pending; otherwise it reports an unknown id and changes nothing |
| Exclusion.CompletedExactly | internal/lifecycle/lifecycle.go:117-145 | For every store and target: a completed fault-free transition leaves its report under exactly one status if and only if the store before it settles: not also under the opposite status unless that is all there is, and not unknown |
| Exclusion.ExactlyOneStatus | internal/lifecycle/lifecycle.go:117-145 | Any number of completed transitions in turn, from any store: exactly one status in the end if and only if the store settled before the first |
| Exclusion.EndsAsAlone | internal/lifecycle/lifecycle.go:117-145 | In the protocol, with ingests, removals and publications of other reports stepping in between at will, a fault-free transition ends as it would have running alone |
| Exclusion.ExactlyOneAmidOthers | internal/lifecycle/lifecycle.go:117-145 | So the condition is exact over such runs too, from every state, however earlier transitions were cut |
| Exclusion.OrderlyHistory | internal/lifecycle/lifecycle.go:7-13 | Over every history in which the transitions of a report do not overlap and each completes, with its ingest and everything about other reports interleaved, the report is under exactly one status whenever none is in flight |
| Races.ExclusiveExactly | internal/lifecycle/lifecycle.go:117-145 | The exact condition under races, for every ingested report in every reachable state: no continuation, whatever overlaps, fails or stops, takes it to two terminal statuses if and only if it has left pending for exactly one and no transition in flight is about to write the other; until then two new transitions can race |
| Races.AloneForGoodExactly | internal/lifecycle/lifecycle.go:7-13 | Once a report is under a terminal status and not pending: it is under that status alone in every continuation if and only if it is not under the opposite one and no transition to the opposite one is between its first Get and its Delete |
| Exclusion.InterruptedThenOther | internal/lifecycle/lifecycle.go:27-36 | Without any overlap: a removal whose Delete was lost, then a publication that runs alone and returns success, leave the report removed and published |
| Exclusion.RaceLeavesTwoStatuses | internal/lifecycle/lifecycle.go:117-145 | Exclusion fails under a race: a reachable state in which a removal and a publication both returned success and the report is under both statuses |
| Finality.EarlyCallMaySucceedWhilePending | internal/lifecycle/lifecycle.go:122-130 | A run from the initial state in which a removal whose Get came before the ingest returns success while the report is pending |
| Protocol.AloneIsRun | internal/lifecycle/lifecycle.go:117-145 | A transition running alone is the run of its process in the concurrent protocol |
| Move.Complete | internal/lifecycle/lifecycle.go:117-145 | The sequential reading of a transition halts after at most three store calls, whatever the faults |
| Move.CompleteFaultFree | internal/lifecycle/lifecycle.go:117-145 | Without faults: destination holds the bytes, source gone, nothing else touched; idempotent when already moved; unknown id changes nothing |
| Move.CompleteSafe | internal/lifecycle/lifecycle.go:117-145 | Whatever the faults: no other key is touched, the destination only ever receives the bytes of the source, and the source disappears only with the destination in place |
| Lifecycle.Manager.Transition | internal/lifecycle/lifecycle.go:117-145 | The three store calls in order are exactly the run of the transition machine over the string-keyed store, whatever the faults and whatever others do to the store before each call; it reports a store failure if and only if the Get, or for a report that is there the Put or the Delete, failed, and an unknown id if and only if the report was not there and the second Get failed or did not find it at the destination |
| Move.ResultExactly | internal/lifecycle/lifecycle.go:117-145 | For every outcome of every call and whatever the others do before each: which result a transition has, which store it leaves and how many calls it makes, case by case on those outcomes alone |
| Move.AmidQuiet | internal/lifecycle/lifecycle.go:117-145 | With nobody else at the store that run is the uninterrupted one |
| Lifecycle.Manager.MarkRemoved | internal/lifecycle/lifecycle.go:102-104 | The pending to removed run |
| Lifecycle.Manager.MarkPublished | internal/lifecycle/lifecycle.go:110-112 | The pending to published run |
| Lifecycle.Manager.ListPending | internal/lifecycle/lifecycle.go:77-88 | Returns exactly the ids whose pending key exists, ascending and without duplicates, or the list failure |
| Lifecycle.Manager.GetPending | internal/lifecycle/lifecycle.go:94-96 | The bytes under the pending key, not-found when there is none, or the store failure |
| Lifecycle.PendingIdsExact | internal/lifecycle/lifecycle.go:77-88 | An id is listed if and only if its pending key exists, whatever other keys or slashes the store holds |
| Lifecycle.StrippedSorted | internal/lifecycle/lifecycle.go:83-87 | Stripping the prefix from the sorted keys leaves the sorted ids |
| Lifecycle.TransitionRefinesProtocol | internal/lifecycle/lifecycle.go:117-145 | The transition over string keys and the protocol transition over (status, id) pairs stay in step amid the same changes by others: same store, same result, same number of calls |
| StatusKeys.PrefixesDisjoint | internal/storage/status.go:39-45 | No key lies under two status prefixes |
| StatusKeys.KeyLayout | internal/storage/status.go:22-50 | The three keys of an id: reports/pending/, reports/removed/ and reports/published/ in front of it |
| StatusKeys.KeyInjective | internal/storage/status.go:43-50 | Distinct (status, id) pairs never share a key, whatever bytes the id contains |
| StatusKeys.UnderPrefix | internal/storage/status.go:43-50 | A key is under a status prefix if and only if it spells a report of that status |
| MemoryStore.MemoryStore.Put | internal/storage/memory.go:24-30 | Overwrites one key and nothing else |
| MemoryStore.MemoryStore.Get | internal/storage/memory.go:33-41 | The stored bytes, or not found |
| MemoryStore.MemoryStore.List | internal/storage/memory.go:45-56 | Filtering in whatever order the map yields its keys and sorting gives the ascending, duplicate-free keys under the prefix |
| MemoryStore.MemoryStore.Delete | internal/storage/memory.go:60-65 | Removes one key and nothing else; absent keys are no error |
| MemoryStore.RemoteStore.Put | internal/storage/store.go:40-56 | The store behind a connection: a failed Put may or may not have taken effect |
| MemoryStore.RemoteStore.Delete | internal/storage/store.go:40-56 | The same for Delete |
| MemoryStore.RemoteStore.Get | internal/storage/store.go:40-56 | A Get that fails is told apart from one that finds nothing |
| MemoryStore.RemoteStore.List | internal/storage/store.go:46-48 | A List that succeeds is complete and ascending |
| Order.AscendingUnique | internal/storage/store.go:46-48 | A strictly ascending listing is determined by its elements, so every store that keeps the listing promise returns the same list |
| Order.SortStrings | internal/storage/memory.go:54-55 | An ascending permutation of distinct keys |
| Paging.List | internal/storage/r2_wasm.go:65-92 | Over any unchanging bucket whose truncated pages are not empty, with any page limit of at least 1 and any page sizes, the cursor loop ends and returns exactly the direct listing; it makes at most one call more than there are keys; a failed page fails it |
| Pipeline.EventKeepsInv | internal/publish/publish.go:315-341 | Every step of the composed machine (ingests, removals, rotations, publisher steps, HTTP attempts with any outcome, a run cut anywhere) keeps the pipeline invariant |
| Pipeline.RunKeepsInv | internal/publish/publish.go:201-311 | The same for whole sequences of runs |
| Pipeline.ConfirmedPostKeepsInv | internal/publish/publish.go:328-338 | A confirmed create, with the mark it begins, keeps the invariant; its issue is then the one in flight |
| Guarantees.OnlyConfirmedMarks | internal/publish/publish.go:183-191 | A mark begins, and a publication is called at all, only in the step in which the confirmation of the issue of that very report arrives, which is then on the server |
| Pipeline.LostPostKeepsInv | internal/publish/github.go:273-290 | An attempt that created an issue without a decodable 201 is accounted as a lost confirmation |
| Pipeline.MarkKeepsInv | internal/publish/publish.go:336-338 | A mark moves its issue from in flight to marked or failed; a marked report was not marked before and has left pending for good |
| Pipeline.KillKeepsInv | internal/publish/publish.go:201-311 | A run cut with a request or a mark outstanding loses at most that confirmation |
| Pipeline.IdleAccount | internal/publish/publish.go:201-311 | Between runs, the issues on the server are the successful marks, the failed marks and the lost confirmations |
| Guarantees.Accounting | internal/publish/publish.go:83-112 | After any run of the machine, for every id: issues on the server = successful marks + failed marks + lost confirmations + the one in flight, and successful marks never exceed one |
| Guarantees.NothingVanishes | internal/publish/publish.go:93-100 | Every ingested report is pending, removed or has an issue, and whatever is under published has an issue |
| Guarantees.NeverRecreated | internal/publish/publish.go:93-100 | After a successful mark no later step of any run creates another issue for the report or marks it again |
| Guarantees.RunLeavesMarkedAlone | internal/publish/publish.go:93-100 | The same from every state that satisfies the invariant |
| Guarantees.EndToEnd | internal/publish/publish.go:315-341 | After any run in which the id of its key is never given to another key (rotations that retain the key are of this kind), every issue of a report has the title and body formatted from its scrubbed ingested bytes |
| Guarantees.IssuesReadBack | internal/publish/format.go:62-114 | And read back: the title of every issue of a report names its version and platform, the lines above the block hold its id and each non-empty metadata field under its own label, and the first fenced block is what is shown of the scrubbed ingested report; for ids without line breaks, whenever the fixed sections leave room for the report or for the marker |
| Guarantees.OpensToOrigin | internal/crypto/frame.go:247-271 | A frame that opens at all under a ring that does not reuse its key id opens to what was sealed |
| Guarantees.RunKeepsOrigin | internal/storage/sink.go:53-63 | What a report was ingested from is never rewritten |
| Duplicates.NoMoreIssuesExactly | internal/publish/publish.go:93-112 | The exact condition, for every ingested report after every run: it gets no further issue, whatever runs, faults, removals and rotations follow, if and only if it has left pending and is not being created; marked, removed, or with a failed mark whose Delete took effect all the same |
| Duplicates.PendingCanBeIssued | internal/publish/publish.go:104-110 | While a report is pending there is a way to one more issue of it, whatever the cap and whatever else is pending |
| Duplicates.LeftRunNoIssue | internal/publish/publish.go:93-100 | The sufficient half from every state that satisfies the invariant |
| Duplicates.FailedMarkMayBeFinal | internal/publish/publish.go:104-107 | A mark whose Delete took effect but was reported as failed counts as failed, and yet the report has left pending |
| Duplicates.DuplicatesUnbounded | internal/publish/publish.go:107-112 | The comment that bounds the residual exposure by one duplicate does not hold: for every n there is a run that leaves n issues for one report; Accounting is the exact count |
| Publish.Publisher.PublishOne | internal/publish/publish.go:315-341 | Fetch, decrypt, format, create, mark, as a run of the machine, with ingests, removals and rotations by others before every store call. How it ends is exact for every fault: unfetched if and only if its Get failed or found nothing, undecrypted if and only if the frame does not open, uncreated if and only if the call got no decodable 201, else as its mark ended; what it leaves in the store and how many issues of the report it adds at the server, likewise; everything it sends is the request for that report as it is stored |
| Publish.Publisher.RequestTells | internal/publish/publish.go:328-335 | The request of a report carries a title and a body, in this order, that read back as its own: title, id, metadata and report, whenever the fixed sections leave room |
| Publish.Publisher.OnPublished | internal/publish/publish.go:113-132 | The hook is the mark of the machine: success is counted as a mark, failure as a failed mark |
| Publish.Publisher.Publish | internal/publish/publish.go:201-311 | Labels first, then the oldest maxPerRun ids one by one. For every world and every fault: the run is cut short if and only if it is cancelled, which is if and only if the look at the context before the next report finds it so, and no look before an attempted report did. With nobody else at the store and no cancelled sleep, each publishable report whose own store calls succeed is published and each failing one is not, whatever became of the others; the counts match the outcomes; without faults exactly the good reports of the batch leave pending |
| Publish.Publisher.OneTouchesOne | internal/publish/publish.go:315-341 | With nobody else at the store, publishing one report, however it ends, leaves every other report as it was; one that opens and is created, with its own calls done, is published and leaves pending |
| Publish.Publisher.MarkTouchesOne | internal/lifecycle/lifecycle.go:110-112 | The same for its mark, with any faults |
| Publish.Publisher.TryLabels | internal/publish/publish.go:227-236 | The labels are tried before anything else is sent, and their failures are only counted |
| Publish.Publisher.Run | internal/schedule/schedule.go:72-109 | Closed gate: nothing at all is touched. Open gate: lists and publishes, as a run of the machine amid the others; the listing fails if and only if its store call does, and then nothing is sent; everything Publish promises of the batch, with the isolation of one report from another, holds of the listed one |
| Publish.Publisher.OnSchedule | wrangler.jsonc:114-117 | Scheduled invocations in turn: a run of the machine; without faults the pending set follows the weekly recurrence, and after enough open fires it is exactly the failing reports; between runs the issues are all accounted for |
| Publish.OneRunPerFriday | internal/schedule/schedule.go:7-15 | Both cron triggers on each of n Fridays give exactly n runs |
| Steps.CreateSteps | internal/publish/github.go:273-357 | The HTTP attempts of one create are steps of the machine; they leave one more issue of the report on the server for a 201 that ends the call and for each one created without saying so |
| Steps.MarkSteps | internal/lifecycle/lifecycle.go:110-145 | The store calls of one mark, with the others' steps before each, are a run of the machine |
| Steps.FetchSteps | internal/publish/publish.go:316-327 | The fetch of a report, after the others' steps, finds what they left, and leads to the issue of that frame or to the next report |
| Steps.ForeignRun | internal/publish/publish.go:201-311 | Whatever ingests, removals and rotations do, the publisher's place, its key, its counts and its transition in flight are untouched |
| World.RelyIsSatisfiable | internal/publish/publish.go:201-311 | What the publisher asks of the others can be met by a world that ingests a report in the middle of its run |
| Publish.PublishedLeaves | internal/lifecycle/lifecycle.go:110-112 | A completed publication takes one id off the pending list and leaves the frames of the others alone |
| Publish.StillThere | internal/publish/publish.go:240-268 | A listed report not yet attempted is as it was listed, whatever the attempts before it did |
| Publish.CountedMore | internal/publish/publish.go:240-268 | One more outcome moves the counts by exactly that outcome |
| Publish.NoErrorsExactly | internal/publish/publish.go:195-200 | No error is returned if and only if no label failed, the run was not cancelled and every attempted report was published |
| Publish.Publisher.TrimmedSettles | internal/publish/publish.go:93-100 | What was permanently good or failing stays so from week to week |
| Backlog.Drains | internal/publish/publish.go:219-223 | With b failing reports, b below the cap, and g good ones, ceil(g / (cap - b)) runs leave exactly the failing ones pending, however old they are; without a cap one run does |
| Backlog.OneRun | internal/publish/publish.go:219-223 | One run publishes at least min(g, cap - b) good reports and no failing one |
| Backlog.PublishedInTheEnd | internal/publish/publish.go:219-223 | A good report is published in the end if and only if fewer than cap failing reports are older: the exact condition under which the cap can starve it |
| Backlog.AttemptedByAge | internal/publish/publish.go:219-223 | A report is attempted if and only if fewer than cap pending reports are older |
| Sink.Sink.Store | internal/storage/sink.go:53-63 | The only effect is one Put of the sealed, scrubbed report under a fresh pending key, which opens to the scrubbed bytes; a seal failure touches nothing; it is an ingest of the machine, whatever secret is in force by then |
| Sink.IngestSteps | internal/storage/sink.go:53-63 | Sealing and putting are the ingest steps of the machine, and record what the report came from |
| Sink.MintedIdPlain | internal/storage/sink.go:76-81 | A minted id has no line break |
| Sink.MintedApart | internal/storage/sink.go:53-81 | Two reports go under the same key only if they were minted in the same second with the same ten random bytes; so no other Put overwrites a stored report |
| ReportId.NewReportID | internal/storage/sink.go:76-81 | The buffer filled from the random source and printed after the timestamp of the clock reading; the four rows below say what that is |
| ReportId.IdReads | internal/storage/sink.go:76-81 | An id is 15 characters of timestamp, a dash, and two hexadecimal digits for each random byte, which give that byte back by their places, the high half first |
| ReportId.TimestampReads | internal/storage/sink.go:79 | For years 0 to 9999 the timestamp gives back year, month, day, hour, minute and second, field by field, with a T between date and time |
| ReportId.HexReads | internal/storage/sink.go:80 | Digits 2i and 2i + 1 of the hexadecimal text are byte i, and there are no others |
| ReportId.IdsDiffer | internal/storage/sink.go:76-81 | Equal ids were minted in the same second with the same random bytes |
| ReportId.TimestampOrder | internal/storage/sink.go:79 | For years 0 to 9999 the printed instants compare as the instants do |
| ReportId.IdOrder | internal/storage/sink.go:76-81 | An id minted in an earlier second is smaller, whatever the random parts |
| ReportId.AttemptedBeforeDeferred | internal/publish/publish.go:219-223 | Whatever a capped run attempts was minted no later, in whole seconds, than anything it defers |
| ReportId.FiveDigitYearBreaksOrder | internal/storage/sink.go:79 | The bound on the year is needed: year 10000 sorts before year 9999 |
| ReportId.PadOrder | internal/storage/sink.go:79 | Zero-padded decimals of one width compare as their values |
| Frame.NewKeyring | internal/crypto/frame.go:121-138 | Accepts exactly the rings whose keys all have 32 bytes and include the active one; each of the three refusals if and only if |
| Frame.Header | internal/crypto/frame.go:203-209 | Magic, version and big-endian key id, filled in place |
| Frame.SealWithNonce | internal/crypto/frame.go:226-241 | Header, nonce, ciphertext and tag in this order, or the error |
| Frame.FrameLayout | internal/crypto/frame.go:9-20 | The wire format by offsets: magic in bytes 0 to 3, version 1 in byte 4, the active key id big-endian in bytes 5 and 6, the nonce in bytes 7 to 18, and from byte 19 what the cipher made of the plaintext with the first seven bytes as authenticated data; each error if and only if |
| Frame.OpenExactly | internal/crypto/frame.go:247-284 | Opening and reading the key id by the same offsets, for every byte string: the first thing wrong is the error, and an object with nothing wrong opens to what the cipher makes of its nonce, body and header |
| Frame.OpenInvertsSeal | internal/crypto/frame.go:226-271 | A sealed frame opens to its plaintext under every ring that holds its key, active or not; its key id reads back; its length is that of the plaintext plus 35 |
| Frame.OpensAcrossRotations | internal/crypto/frame.go:247-271 | The same under every later ring of any chain of rotations that retains the key |
| Frame.AcceptedIsCanonical | internal/crypto/frame.go:247-284 | Any accepted object equals, byte for byte, the frame rebuilt from its key id, nonce and body, and that header was the authenticated data |
| Frame.DroppedKeyIsReported | internal/crypto/frame.go:257-265 | Opening fails with the unknown-key error if and only if the ring no longer has the key id |
| Frame.LawfulIsSatisfiable | internal/crypto/frame.go:93-107 | The assumption on the cipher (open inverts seal, 16-byte tag) can be met |
| Calendar.YearOfExact | internal/schedule/schedule.go:158-159 | The closed form of the year of a day number is the year whose first and next first day enclose it |
| Calendar.DatesAscend | internal/storage/sink.go:79 | Calendar dates compare as day numbers do, for all years |
| Calendar.DateOf | internal/schedule/schedule.go:168-169 | The civil date of a day number: a real day of a real month that maps back to it |
| Calendar.NextDay | internal/schedule/schedule.go:158-169 | The date of the next day number is the next date of the Gregorian calendar, month lengths and leap rule written out, and the next day of the week, for all years |
| Calendar.Epoch | internal/schedule/schedule.go:158-169 | The day numbers are anchored: 1970-01-01 is a Thursday |
| Schedule.NthSundayExact | internal/schedule/schedule.go:168-173 | The computed day is the n-th Sunday of the month, as a calendar states it |
| Schedule.DaylightExact | internal/schedule/schedule.go:158-163 | Daylight if and only if the instant lies in some year's interval from the second Sunday of March 08:00 UTC to the first Sunday of November 07:00 UTC |
| Schedule.WallClock | internal/schedule/schedule.go:130-142 | The Central wall clock never shows a reading of 02:00 to 02:59 on a spring Sunday, shows 01:00 to 01:59 on an autumn Sunday exactly twice, an hour apart, and every other reading exactly once |
| Schedule.GateExact | internal/schedule/schedule.go:119-122 | The gate is open exactly in the one minute of each Friday that starts at its fire: 22:00 UTC in daylight time, 23:00 UTC otherwise |
| Schedule.ExactlyOneCronPasses | internal/schedule/schedule.go:11-15 | Exactly one of the two Friday triggers passes, for every Friday of the proleptic Gregorian calendar |
| Schedule.WeeklyGap | internal/schedule/schedule.go:119-163 | Consecutive open minutes are 167, 168 or 169 hours apart, according to whether daylight time starts, stays or ends in between |
| Schedule.FridayOffsetSteady | internal/schedule/schedule.go:158-163 | No clock change falls between the two candidate fires of a Friday |
| Utf8.TruncateRunes | internal/publish/format.go:189-204 | The counting loop is the specification function Truncate |
| Utf8.TruncateIsPrefix | internal/publish/format.go:189-204 | Truncation yields a byte prefix that ends on a decoding boundary (section 3 of RFC 3629; an invalid byte counts as one rune) |
| Utf8.TruncateCount | internal/publish/format.go:189-204 | Decoded afresh it has exactly min(n, count) runes, for any byte string |
| Utf8.TruncateIsLongest | internal/publish/format.go:189-204 | No longer prefix on a boundary would do |
| Utf8.TruncateTwice | internal/publish/format.go:189-204 | Truncating to m and then n is truncating to min(m, n) |
| Format.MetadataTable | internal/publish/format.go:118-140 | The loop prints the heading and one row per non-empty value; what those lines say is the next row |
| Reading.TableReadsBack | internal/publish/format.go:118-140 | A reader of table lines, which knows nothing of the printer, finds in that table the two heading lines and then, in order and under the labels App version, Platform, OS version, Device and Client timestamp, exactly those of the five fields that are not empty on one line, sanitised |
| Reading.HeadReadsBack | internal/publish/format.go:62-83 | Above the block of a body the same reader finds the sanitised id, then for a report its metadata and the heading Report, and otherwise the note and the heading Decrypted content, and nothing else; the body ends with the label line |
| Reading.TitleExact | internal/publish/format.go:44-58 | The title is the longest prefix of at most 200 runes of Bug report, the version after a colon if there is one, and the platform after on if there is one; for anything but a report it is Automated bug report |
| Reading.MapToLineExact | internal/publish/format.go:164-177 | Code point by code point: line feed, carriage return and tab become a blank, other controls below U+0020 go, every other code point stays, and a byte that belongs to none becomes U+FFFD |
| Runes.TrimSpaceExact | internal/publish/format.go:176 | Trimming takes the white space of the White_Space property at both ends, all of it and nothing else |
| Runes.SpaceAtExact | internal/publish/format.go:176 | The bytes taken for white space are exactly the encodings of the code points with that property |
| Runes.WidthExact | internal/publish/format.go:189-204 | Bytes are taken for a rune if and only if they encode a code point (section 3 of RFC 3629), and then all of them; any other byte counts as one |
| Reading.CellIsSafe | internal/publish/format.go:164-186 | A metadata value cannot leave its code span, table cell or line: no control character remains, backticks are quotes, pipes are slashes, and every other byte is kept |
| Format.FenceFor | internal/publish/format.go:145-162 | The counting loop computes the specified fence |
| Format.FenceIsShortest | internal/publish/format.go:142-162 | The fence is the shortest run of at least three backticks longer than every run in the report |
| Format.LongestRunExact | internal/publish/format.go:146-156 | The counted maximum is the length of a longest run of backticks |
| Fences.FenceSurvivesTruncation | internal/publish/format.go:85-100 | Although computed before truncation, the fence is longer than every run in any prefix followed by the marker |
| Format.BuildBody | internal/publish/format.go:62-114 | The builder steps produce the specified body |
| Format.BodySize | internal/publish/format.go:85-113 | The body has exactly min(65536, fixed sections + report) runes, with no condition |
| Format.BodyUncut | internal/publish/format.go:92-113 | When the fixed sections leave room, the backstop cuts nothing |
| Fences.HeadHarmless | internal/publish/format.go:63-81 | Nothing before the report opens a fenced block, whatever the metadata |
| Fences.ContentOfReport | internal/publish/format.go:102-109 | A block reader over lines (section 4.5 of CommonMark 0.31.2) stops exactly at the closing fence |
| Fences.FitIsShown | internal/publish/format.go:94-100 | What is shown is the report, or its longest prefix that leaves room for the marker, and the marker |
| Fences.BodyReadsBack | internal/publish/format.go:62-114 | For an id without line breaks, whenever the fixed sections leave room for the report or for the marker, reading the body back yields exactly what is shown |
| Backoff.ShiftIsHarmless | internal/publish/github.go:436-441 | For every attempt number the 64-bit wrapping shift and its guard give the unbounded min(60 s, 1 s * 2^n) |
| Backoff.JitterRange | internal/publish/github.go:434-442 | The jittered wait lies between 0 and that value |
| Backoff.JitterFollows | internal/publish/github.go:434-442 | The wait is the random number times that value, in whole nanoseconds |
| Backoff.RetryAfterExact | internal/publish/github.go:463-473 | A Retry-After that spells a number in any way (leading zeros, a sign, blanks around it; delta-seconds of section 10.2.3 of RFC 9110 among them) is taken exactly if and only if it lies between 0 and 9223372036 seconds, and refused if and only if it is negative or beyond 64 bits; in between, the product wraps |
| Backoff.RetryAfterTaken | internal/publish/github.go:463-473 | A Retry-After names a delay if and only if it spells a number from 0 up in 64 bits; anything else, blank or malformed, names none |
| Backoff.AbsentNamesNothing | internal/publish/github.go:463-473 | An absent header names neither a delay nor an instant |
| Backoff.UntilResetExact | internal/publish/github.go:446-459 | For a reset that spells a number in any way, negative ones included, the wait ends one second after max(reset, now) if and only if that fits a duration; it is refused if and only if it is beyond 64 bits |
| Backoff.ResetTaken | internal/publish/github.go:446-459 | A reset names an instant if and only if it spells a 64-bit number |
| Policy.FinalExactly | internal/publish/github.go:379-410 | A response ends a call if and only if it is neither a server error nor a 429 nor a 403 that names a delay in Retry-After, has no quota left, or says that it is a secondary limit; on the text of the headers and the body |
| Policy.WaitExactly | internal/publish/github.go:379-459 | How long each retryable reply asks to wait, as a table on the text of its headers: the backoff, the seconds spelled, one second past the reset, or at least a minute |
| Policy.SecondaryExactly | internal/publish/github.go:475-480 | A body is taken for a secondary limit if and only if it says secondary rate limit or abuse detection somewhere, in letters of either case |
| Github.Client.SpaceMutations | internal/publish/github.go:414-425 | Unless cancelled, minSpacing has passed since the last stamp; asks for no more sleep than what is missing |
| Github.Client.RecordMutation | internal/publish/github.go:428-432 | Stamps the present time |
| Github.Client.RetryDecision | internal/publish/github.go:379-410 | The decision of the policy, which the rows of Policy describe, at the clock it read |
| Github.Client.AttemptOnce | internal/publish/github.go:309-345 | One turn of the loop: spaced, sent, stamped, decided |
| Github.Client.Do | internal/publish/github.go:302-357 | At most maxAttempts requests. An answer is the last, non-retryable response and every earlier one was retryable and waited for; giving up means maxAttempts of them; it is aborted if and only if the URL is invalid or one of its own sleeps was cut short, so a retryable reply is otherwise always retried. Each attempt got what the server made of it; every attempt, within a call or across calls, starts at least minSpacing after the stamp of the one before; the sleep asked for is bounded by the waits and the spacing, and without rate-limit signals by the budget |
| Github.Client.CreateIssue | internal/publish/github.go:273-290 | Success exactly on a decodable 201 in the last attempt, every attempt before it retryable; without one the last attempt was refused, or there were maxAttempts, or the URL is invalid, or a sleep was cut short; a request always accepted succeeds unless cut short and one never accepted fails |
| Github.Client.EnsureLabels | internal/publish/github.go:226-268 | One call per label, in order, whatever became of the others, and none of them aborted unless cut short; a 422 is no failure |
| Github.LabelFailuresExact | internal/publish/github.go:226-268 | The failures counted are the labels answered neither 201 nor 422 |
| Github.KindExactly | internal/publish/github.go:273-290 | Which attempts count as created, as created without a readable reply, and as retryable |
| Github.RetryAfterKept | internal/publish/github.go:388-390 | The next attempt of the call starts no earlier than Retry-After demands, however the number is spelled |
| Github.ResetKept | internal/publish/github.go:391-396 | With no quota left, no earlier than one second past max(reset, now) |
| Github.SecondaryFloorKept | internal/publish/github.go:401-407 | After a body that says a secondary limit, with no Retry-After that names a delay and quota left, no earlier than a minute |
| Github.SleepBudgetClosed | internal/publish/github.go:351-354 | The sleep budget of n attempts is 2^(n-1) seconds for n up to 7 and 64 + 60 (n - 7) beyond |
| Policy.DecideWithoutSignal | internal/publish/github.go:379-442 | Without a rate-limit signal a wait is at most min(60, 2^attempt) seconds |

## Left out

- internal/scrub: scrubbing is an arbitrary function; no property of it is used or claimed.
- AES-GCM and its two providers: only the round trip and the 16-byte tag are assumed of the cipher.
- JSON, base64 and RFC 3339: decoded values are inputs. Whether a plaintext decodes as a report, whether a 201 body decodes, and the JSON text of a request are parameters; `ParseKeyring` is not modelled.
- HTTP handlers, authentication, ingest status codes: branch chains without state.
- Telemetry and logs: they do not affect the state of the pipeline.
- Worker and dev-server wiring, infrastructure, secrets: I/O. Of the production store only the paging loop of List is modelled.
- Real HTTP, clocks, randomness, context cancellation: oracles indexed by use, or an arbitrary value.
- Publish.Publisher.Publish: the others step in before each store call. What they do during an HTTP call is taken together with that, since the publisher sees the store only at its store calls; the machine (`Pipeline`) lets them step between any two HTTP attempts as well.
- Publish.Publisher.PublishOne: the hook is always the mark of WithMarkPublished; the default that marks nothing is not modelled, because every report would then be republished each week by design.
- Github.Client.Do: failure to build a request is a flag of the client rather than a URL parser; Retry-After is not carried over to a later call by the code, and nothing here says so.
- Github.Client.SpaceMutations: the mutex around the stamp is not modelled, because one publisher uses the client at a time. The zero time is 0 and readings of the clock are positive.
- Policy.SecondaryExactly: lower-casing of a response body follows bytes.ToLower for the letters that matter to the two searched phrases only.
- Policy.WaitExactly: says no more of a Retry-After above 9223372036 seconds, or of a reset too far away, than that it is retried; the duration wraps there.
- Reading.HeadReadsBack: the two fixed introductory sentences are read as one line without items; their wording is not restated.
- Backoff.JitterRange: the product of a random number and a duration is taken over the reals, so floating-point rounding is not modelled.
- Backoff.ShiftIsHarmless: int is 64 bits wide, as on the hosts; where int is 32 bits wide the shift is the same, but a Retry-After above 2147483647 does not parse.
- Guarantees.EndToEnd: needs that a key id is never given to another key; a ring that did so is not excluded by the code.
- ReportId.IdOrder: years 0 to 9999 only, because the code's order breaks beyond (`ReportId.FiveDigitYearBreaksOrder`).
- Schedule.GateExact: instants are whole seconds; the gate ignores smaller units.
- Fences.BodyReadsBack: an id with a line break is excluded; ids are minted without one. The reader knows fenced blocks only, not other block structure of CommonMark.
- Publish.Publisher.OnSchedule: the drain is stated without faults, cancellations and anyone else at the store, and for reports that are good or failing every time; one publisher holds one keyring, so the others rotate nothing in the meantime.
- Sink.Sink.Store: that ids are fresh is a condition, since 80 random bits only make a collision unlikely.
