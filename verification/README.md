# Durable state machines of the capture service

This project models the durable state machines of LouiseLM's capture service, and the conformance-QA
journal and release uploader that follow the same discipline, and proves what their documentation
promises of them over whole runs: with duplicated and delayed messages, concurrent callers, failed
writes, crashes at any point and power loss.

## How it is modelled

- **Disk.** A file replaced by write-temporary, rename, directory sync is a `Disk`: a durable state and
  the states renamed since the last completed sync. Readers see the last rename. A replacement can fail
  before the rename, or between rename and sync. A power loss may bring back *any* state since the last
  sync. A process crash is a replacement that fails with its reply lost.
- **Calls.** A call holds the store's lock, so it is one atomic step. A pure *outcome* function lists the
  replacements the call attempts and what it replies; a class method with the code's own loops, early
  returns and in-place updates is proved equal to it (`AttentionStores`, `PairingRegistries`,
  `NotificationWorkers`, `CaptureStores`, `QaCoordinators`, `GeneratedBrokers`, `ReleaseUpload.Release`).
- **Runs.** `AttentionRuns`, `PairingRuns`, `PushWorker`, `CaptureIngest`, `QaRuns` and `GeneratedWork`
  define whole systems with their environment, and the main results quantify over every run, and over
  every state a power loss could leave along it. `Transcription` has runs of passes cut short at any
  write, without disk layers and without power loss.
- **Outside.** Run lookups, the push provider, the transcription provider, the issue tracker, clocks and
  fault choices are arbitrary values. SHA-256 is an uninterpreted function; a lemma that needs it not to
  collide says between which values. Device ids and secrets are drawn fresh (`PairingRuns.Possible`). An
  outside provider may answer anything, and a call that reaches it is counted as having had its effect.
  Nobody but a Run's own creates puts that Run's references on tracker issues
  (`GeneratedWork.OtherIssue`).

Files: `Disk`, `Values`, `Text` (shared values); `AttentionModel`, `AttentionOps`,
`AttentionRefinement`, `AttentionRuns`, `AttentionStore` (the inbox and its ordered projection);
`PairingOps`, `PairingRuns`, `PairingRegistry` (pairing and push delivery); `PushWorker`,
`NotificationWorker` (the two stores together); `CaptureStore`, `Transcription`, `CaptureService`;
`QaJournal`, `QaRuns`, `QaCoordinator`; `GeneratedArguments`, `GeneratedWork`, `GeneratedBroker`;
`ReleaseUpload`. The `*Meaning` files say what each operation answers and leaves, field by field and in both
directions, with predicates of their own instead of the functions that compute it.

## What the proofs found

- **The load check does not imply unique keys.** Sorted, accepted lists are key-unique exactly when no key
  is listed under two creation times; the operations never build such a list (`AcceptedIsUniqueIff`,
  `AcceptedWithDuplicateKey`).
- **A generation is a version number only while power stays on.** A power loss keeps that exactly when the
  durable state is the one readers see; from every other reachable state, calls about any condition new to
  both states make the same number name two different inboxes (`PowerLossIsVersionIff`, `PowerLossReusesGeneration`).
- **Issuing prunes one millisecond early.** An offer that expires at the very time another is issued is
  dropped, though pairing at that time would have accepted it (`PruningExact`).
- **`Existing` is not durable.** It may answer from a rename whose directory sync never completed
  (`ExistingMayBeLost`); a published capture is safe exactly once a directory sync covered it
  (`PublishedIsDurableIff`), which `Created` implies.
- **Provider success is refused at time zero** or for a provider without a name or model
  (`VisitFailsIff`), and a transient failure at the last representable millisecond stays ready
  (`VisitSettles`).
- **Refused tracker arguments strand capacity.** Arguments are checked after the reservation is stored, so
  a refused command line leaves a reserved unit that no later call can use or give back until someone
  settles it by hand (`RefusalStrands`, `StrandedForever`).
- **An execution error gives back a started create's capacity.** Any error of execution releases the
  reservation, also one that comes after the process started, and so does the command line's release; the
  next call then starts the create again (`ErredStartForfeits`, `OutsideReleaseForfeits`,
  `LostUnitRestarts`, `StartedTwice`). Without those two a create starts at most once
  (`UndisturbedRunIsSafe`).

## Model

The results come first; the rows from `Hex.EncodeLowerHex` on tie the loops and classes to them.

| member | source | states |
|---|---|---|
| Hex.HexRoundTrip | capture-service/src/hex.rs:9-18 | Hex encoding of any bytes decodes back to them, so comparing stored digest text compares digests. |
| Hex.DigestTextIsValid | capture-service/src/attention_projection.rs:66-76 | The encoding of any 32-byte digest is a digest text the cursor check accepts on reload. |
| AttentionListing.ListingIsUnique | capture-service/src/attention.rs:540-568 | A key-to-item map has at most one sorted, key-unique listing. |
| AttentionListing.SortLists | capture-service/src/attention.rs:739-748 | Sorting any key-unique item list yields the canonical listing of the same map. |
| AttentionListing.CompareItemsLaws | capture-service/src/attention.rs:739-748 | The listing order is a total order whose ties share creation time and key. |
| TextOrder.FirstDifferenceDecides | capture-service/src/attention.rs:739-748 | The first character in which two texts differ decides their order, and a text comes before its extensions. |
| AttentionMeaning.ListingOrder | capture-service/src/attention.rs:739-748 | A listing shows earlier conditions first, those of one time by subject kind, and those of one subject by kind. |
| AttentionListing.AcceptedIsUniqueIff | capture-service/src/attention.rs:552-561 | A list the load check accepts is key-unique if and only if no key occurs under two creation times. |
| AttentionListing.AcceptedWithDuplicateKey | capture-service/src/attention.rs:552-561 | A whole family of states with a repeated key passes the load check. |
| AttentionRefinement.LoadRefines | capture-service/src/attention_runs.rs:66-85 | Loading writes only the filtering of resolved local Parks, one generation later, and hands on the canonical listing of what remains; `LoadMeans` says which Run answers resolve one. |
| AttentionMeaning.LoadMeans | capture-service/src/attention_runs.rs:44-85 | After a load a local Park stays listed if and only if Runs are unsupported or its Run is absent, resuming, or parked or cold-parked with an expiry ahead; every other condition stays. The load fails as unavailable if and only if a listed local Park gets any answer but these and an active, disposed or run-out one, and succeeds if and only if, besides, nothing is dropped or the shorter list is stored durably. |
| AttentionMeaning.ParkStaysUntilExpiry | capture-service/src/attention_runs.rs:56-58 | From every reachable state, over any run of successful reads that find its Run parked until one time, a listed local Park is still listed at the end if and only if every read came before that time. |
| AttentionRefinement.UpsertRefines | capture-service/src/attention.rs:350-378 | An upsert's list edit is map update keeping eligibility and, for a local Park, its first date. |
| AttentionMeaning.UpsertMeans | capture-service/src/attention.rs:330-380 | After an upsert exactly one condition is listed under the key, with the draft's linked Run, stage, code, withdrawal and date and the key's reason, ineligible unless it was listed and eligible, a listed local Park with its first date; all others stay. A Park whose Run has moved on changes nothing, an unknown answer is refused, and success comes if and only if the card was already there or was stored durably. |
| AttentionMeaning.SetEligibleMeans | capture-service/src/attention.rs:384-409 | Setting eligibility changes that of the one condition under the key and nothing else, and is refused as not found if and only if none is listed. |
| AttentionMeaning.ClearMeans | capture-service/src/attention.rs:413-473 | A clearing call drops exactly the conditions it names: one key, one kind of one Session, or one Session. |
| AttentionMeaning.FailedLoadEnds | capture-service/src/attention.rs:501-507 | A call whose load fails answers that failure, unless its own input is invalid, and writes nothing more. |
| AttentionRefinement.ChangeRefines | capture-service/src/attention_projection.rs:174-207 | Each projected change acts on the canonical listing as map update, removal or filter. |
| AttentionMeaning.ProjectMeans | capture-service/src/attention_projection.rs:91-143 | The next entry in order stores its sequence, its digest and its change as one new generation: an upserted condition eligible with every field of its draft, or exactly the named conditions gone. An earlier or repeated entry stores what was there. Each succeeds if and only if that store completes, and nothing else is written. |
| AttentionMeaning.FailedLoadEndsProjection | capture-service/src/attention_projection.rs:91-110 | A valid entry whose load fails is answered that failure, with nothing written for itself. |
| AttentionRefinement.CallRefines | capture-service/src/attention.rs:301-473 | Every replacement any operator call attempts is a step of the abstract map, one generation later, on a valid state. |
| AttentionRefinement.ProjectRefines | capture-service/src/attention_projection.rs:91-143 | Every replacement a projection attempts is such a step or the same state again, and success means its sequence is stored durably. |
| AttentionRefinement.ProjectRefusals | capture-service/src/attention_projection.rs:91-130 | A projection is refused as invalid, as a gap or as a conflict exactly under the stated conditions on its contents, its sequence, its digest and the stored cursor. |
| AttentionRuns.RecordIsPersist | capture-service/src/attention.rs:509-531 | Recording histories beside the stored states changes nothing about what is stored. |
| AttentionRuns.ExactlyOnceInOrder | capture-service/src/attention_projection.rs:91-143 | In every run the cursor is `acked` or `acked + 1`, and every state a power loss could leave lists exactly a history in which entries 1..cursor appear once each, in order. |
| AttentionRuns.OffersAreNeverRefused | capture-service/src/attention_projection.rs:111-129 | No copy of an offer, however late or repeated, is refused as a gap or conflict, and no stored state is refused by its own load. |
| AttentionRuns.AcknowledgedIsDurable | capture-service/src/attention_projection.rs:110-124 | Every acknowledged sequence is at most the cursor of every later possible state, and the durable cursor never moves back. |
| AttentionRuns.CleanExchangeAdvances | capture-service/src/attention_projection.rs:91-143 | From every reachable state whose Run lookups succeed, one undisturbed exchange of a valid entry is acknowledged, reconciliation on the way included. |
| AttentionRuns.GenerationIsVersion | capture-service/src/attention.rs:763-770 | While nothing is lost the generation never decreases, equal generations mean identical items, and one action advances it by at most two. |
| AttentionRuns.PowerLossIsVersionIff | capture-service/src/attention.rs:509-531 | No power loss can take the generation back if and only if the durable state is the one readers see. |
| AttentionRuns.PowerLossReusesGeneration | capture-service/src/attention.rs:509-531 | From every reachable state whose durable state lags behind, a power loss and further calls lead to the generation readers saw with other items. |
| AttentionRuns.ReconciliationExact | capture-service/src/attention_runs.rs:44-85 | A failed lookup writes nothing; otherwise exactly the unresolved items stay, in order, and repeating it changes nothing. |
| AttentionRuns.RediscoveryIsSilent | capture-service/src/attention.rs:353-366 | Rediscovering a listed local Park at any date writes nothing of its own. |
| AttentionRuns.ParkKeepsFirstDate | capture-service/src/attention.rs:353-366 | Over any run of operator calls a surviving local Park keeps its first creation time. |
| PairingModel.UpgradeKeepsPairings | capture-service/src/pairing.rs:383-433 | A well-formed schema-2 file always upgrades, keeping pairings, credentials, offers, health, confirmed generations and backoff, with every address retired. |
| PairingOps.DelayBounds | capture-service/src/notifications.rs:297-300 | The local delay is nondecreasing, doubles through the first attempts, and stays within one and sixty-four minutes. |
| PairingRuns.WritesAreChanges | capture-service/src/pairing.rs:355-370 | Every replacement any call attempts is a change that call may make to the registry it found. |
| PairingRuns.SendIsAuthorized | capture-service/src/notifications.rs:266-311 | A send leaves only for a device paired, enabled, due and using that address at that moment, under ready health, after its retry deadline is durable; only a recorded acceptance is confirmed. |
| PairingRuns.SendsExactlyWhenDue | capture-service/src/notifications.rs:271-305 | A send leaves if and only if all of that holds, the file loads, and the deadline was stored durably. |
| PairingMeaning.SendsWhenReady | capture-service/src/notifications.rs:271-311 | A delivery sends if and only if the health is ready, the listed device is enabled under an address, nothing at or above that generation is confirmed, its deadline has passed, the file loads and the new deadline is stored; it sends that generation to that address. |
| PairingMeaning.UnsentReplies | capture-service/src/notifications.rs:255-318 | What a delivery that sends nothing answers and writes: an error only for a bad time or generation, an unreadable file, a failed inbox or a failed store, each exactly then; otherwise that nothing was confirmed. |
| PairingMeaning.RegisterMeans | capture-service/src/notifications.rs:125-179 | After a successful registration the first device bearing the credential is enabled under exactly that address with its earlier confirmed generation, its backoff zero, or unchanged if that address was enabled already; every other device, the offers and the health are unchanged. It succeeds if and only if the address is well formed, the file loads, no other device uses the address and the change is stored. |
| PairingMeaning.RegisterUnauthorized | capture-service/src/notifications.rs:136-148 | A credential no device bears is refused as unauthorized. |
| PairingMeaning.RegisteredIsSent | capture-service/src/notifications.rs:125-318 | Under ready health a device that has just registered an address is sent the next eligible generation above its confirmed one at exactly that address. |
| PairingMeaning.DeliverMeans | capture-service/src/notifications.rs:296-343 | What each provider answer leaves of the one registration: only an acceptance confirms the generation and ends the backoff; every other counts the attempt with its tabulated delay, a transient one not before the time asked for, an invalid address disabled; a permanent failure stops the sender. Everything else is unchanged. |
| PairingMeaning.InvalidAddressIsNotUsed | capture-service/src/notifications.rs:327-330 | After a recorded invalid address no send reaches that device in any later run before a new registration under its credential. |
| PairingMeaning.RetryTimeIsHonoured | capture-service/src/notifications.rs:321-326 | After a recorded transient failure no send reaches that device before the time the provider asked for, nor within the local backoff, unless one is accepted or it registers again. |
| PairingRuns.StepKeepsInv | capture-service/src/notifications.rs:93-114 | Every step keeps every possible file loadable, with unique device ids and push addresses. |
| PairingRuns.StepKeepsOffers | capture-service/src/pairing.rs:207-274 | While no two drawn secrets collide every step keeps the offers' tokens drawn and unique. |
| PairingRuns.GoodStarts | capture-service/src/pairing.rs:137-163 | A new registry, and any well-formed file with distinct ids, is a start the run results apply to. |
| PairingRuns.EveryFileReloads | capture-service/src/notifications.rs:93-114 | In every run no file a power loss could leave is refused by its own load. |
| PairingRuns.ConfirmedGenerationsIncrease | capture-service/src/notifications.rs:277-327 | Confirmed generations of a device strictly increase and no later send is at or below one, across rotation, re-registration, faults and power loss. |
| PairingRuns.SendsAreSpaced | capture-service/src/notifications.rs:291-305 | Two sends to a device with no recorded confirmation and no new registration between are the first one's backoff apart, whatever fails, is lost or is accepted without being recorded. |
| PairingRuns.RevokedIsNeverSent | capture-service/src/pairing.rs:325-338 | After a successful revoke no later send names that device. |
| PairingRuns.PermanentFailureStops | capture-service/src/notifications.rs:331-341 | After a recorded permanent failure nothing is sent to any device until an explicit retry or a start without credentials. |
| PairingRuns.TokenPairsOnce | capture-service/src/pairing.rs:230-274 | A pairing token that collides with no drawn secret yields at most one credential over every run. |
| PairingRuns.TokenExpires | capture-service/src/pairing.rs:207-245 | No token pairs a device after the expiry it was offered with, while no two drawn secrets collide. |
| PairingRuns.PruningExact | capture-service/src/pairing.rs:207-249 | Which unexpired offers pairing and issuing keep: pairing all but the consumed one, issuing all but those expiring at that millisecond. |
| PairingMeaning.ConsumeMeans | capture-service/src/pairing.rs:230-274 | A successful pairing uses up the first usable offer and adds one unregistered device behind the earlier ones, with the returned id, the name without the white space around it, and the hash of the returned secret. It succeeds if and only if the name is valid, the file loads, a usable offer is pending and the change is stored. |
| PairingMeaning.IssueMeans | capture-service/src/pairing.rs:171-223 | Issuing adds the returned token's hash with the returned expiry behind exactly the offers not yet expired, and changes no device. |
| PairingMeaning.RevokeMeans | capture-service/src/pairing.rs:325-338 | Revoking takes exactly that device off the list and leaves the rest in order; an unlisted one is refused. |
| PairingMeaning.RecordDeliveryMeans | capture-service/src/pairing.rs:303-319 | Recording a delivery dates that device and changes nothing else. |
| PairingMeaning.ConfigureMeans | capture-service/src/notifications.rs:213-225 | A start records a lost or a first configuration, and never clears a permanent failure by itself. |
| PairingMeaning.RetryMeans | capture-service/src/notifications.rs:230-240 | An explicit retry makes a configured sender ready and refuses an unconfigured one. |
| PairingMeaning.UndecidedRefuses | capture-service/src/pairing.rs:355-381 | A call with arguments it does not accept is rejected without a write; one whose file does not load answers that, with nothing written of its own. |
| PairingMeaning.FaultIsReported | capture-service/src/pairing.rs:355-370 | A failed store turns the answer of a changing call into a storage failure with the same change attempted, and leaves every other answer as it is. |
| PairingPass.PassIsRun | capture-service/src/notifications.rs:266-345 | An uninterrupted delivery pass takes all its per-device steps of the run model and answers how many of them were confirmed, or stops at the first that fails with that step's error; it submits exactly what those steps do. |
| PairingPass.PassVisitsListed | capture-service/src/notifications.rs:260-266 | A pass reads the list once and visits each listed device once, in the order of the ids; at time zero or with an unreadable file it visits none. |
| PairingPass.PassSendsOnceEach | capture-service/src/notifications.rs:266-345 | One pass submits at most once to each listed device. |
| PairingPass.SortOrders | capture-service/src/pairing.rs:350-350 | A pass visits the listed devices in the order of their ids. |
| PushWorker.StepKeepsInv | capture-service/src/notification_worker.rs:39-71 | Every joint step keeps both stores' invariants and raises the Attention generation by at most two. |
| PushWorker.SendCarriesVisibleGeneration | capture-service/src/notification_worker.rs:44-60 | A submission carries the generation Attention shows once it is done, only while something listed is eligible and delivery is not cancelled. |
| PushWorker.EligiblePushIsSent | capture-service/src/notification_worker.rs:44-60 | A push that is not cancelled is sent whenever something listed is eligible and the device is ready for the generation Attention shows. |
| PushWorker.NoReminderWithoutChange | capture-service/src/notification_worker.rs:39-71 | Between two submissions of which the first was confirmed, some step raised the Attention generation by extending the inbox's history. |
| PushWorker.RiseIsChange | capture-service/src/attention.rs:763-770 | Only an Attention call raises the generation, leaving a longer history; a power loss never does. |
| NotificationWorkers.NoSenderNoSends | capture-service/src/notification_worker.rs:22-66 | Without a usable credential the worker never sends, and whatever registry calls come between its turns, each turn it survives leaves a registry from which no delivery can send. |
| NotificationWorkers.StartRecordsHealth | capture-service/src/notification_worker.rs:23-30 | A start leaves the health its credentials call for, ready only over an unconfigured one, and every device and offer. |
| CaptureIngest.AtMostOneCreated | capture-service/src/store.rs:159-183 | Of all concurrent ingests of one id, at most one is told it created the capture. |
| CaptureIngest.CreatedIsForever | capture-service/src/store.rs:170-183 | A capture reported created keeps its record and audio in every later state, power loss included. |
| CaptureIngest.AnswersAreRequested | capture-service/src/store.rs:94-184 | Every answer of a run is to a request made in it. |
| CaptureIngest.CreatedIsWhatWasAsked | capture-service/src/store.rs:147-184 | What stays published under a created id, in every later state, is the accepted stream under a record of schema 1 with exactly the draft's id, source, recording time, duration and MIME type, the byte count and the digest. |
| CaptureIngest.LaterIngestsCompare | capture-service/src/store.rs:157-184 | Once a capture is created, a later completed ingest of its id is told `Existing` if and only if its draft is the same in every field and its audio has the same length and digest, and a conflict otherwise, across power losses. |
| CaptureIngest.PublishedIsDurableIff | capture-service/src/store.rs:170-183 | A published capture survives every later run, power loss included, if and only if a directory sync has covered it. |
| CaptureIngest.StepKeepsPublished | capture-service/src/store.rs:170-183 | No step changes a published capture; only a power loss before the directory sync can drop one. |
| CaptureIngest.AnswersAreExact | capture-service/src/store.rs:159-181 | While power stays on, every completed ingest is answered as a conflict exactly when its record differs from the published one. |
| CaptureIngest.AcceptedAudioIsPublished | capture-service/src/store.rs:147-181 | Callers told created or existing brought the published record, and the very audio if and only if it does not collide with the published one under SHA-256. |
| CaptureIngest.ExistingMayBeLost | capture-service/src/store.rs:159-183 | A run in which an `Existing` answer is lost to a power failure. |
| Transcription.VisitSettles | capture-service/src/store.rs:318-339 | A visit reported done leaves its capture ready if and only if a transient failure met the last representable millisecond. |
| Transcription.VisitFailsIff | capture-service/src/store.rs:267-284 | Without storage errors a visit fails if and only if a transcript arrives at time zero or from a nameless provider or model. |
| TranscriptionMeaning.VisitMeans | capture-service/src/transcription.rs:105-142 | A visit reported done asks the provider if and only if the capture is due and has no transcript. A non-blank text becomes a transcript with the capture's id, the provider's name and model, the time and that very text; a blank one is a permanent failure; a failure keeps its message, counts the attempt and, if transient, sets the tabulated delay. |
| TranscriptionMeaning.PassMeans | capture-service/src/transcription.rs:92-145 | A finished pass does exactly that to each due capture as it was when the pass began, asks for exactly the due ones without a transcript, and leaves the others alone. |
| TranscriptionMeaning.PassCounts | capture-service/src/transcription.rs:92-145 | A finished pass answers how many captures were due. |
| TranscriptionMeaning.ListingOrder | capture-service/src/store.rs:238-243 | A pass goes through the captures by recording time, then by id. |
| TranscriptionMeaning.RetryMeans | capture-service/src/store.rs:306-316 | An operator's retry puts any capture that is not completed back in line with its attempts kept and its error forgotten, and changes no other. |
| TranscriptionMeaning.RetriedIsAttempted | capture-service/src/store.rs:306-316 | The next finished pass, whenever it comes, asks the provider for a retried capture and leaves what the answer says. |
| Transcription.PassAsksOnce | capture-service/src/transcription.rs:92-145 | A pass asks the provider at most once per capture, only for ready ones without a transcript, even when it fails part-way. |
| Transcription.PassKeepsTranscripts | capture-service/src/transcription.rs:105-109 | A pass rewrites no transcript and no record, even when it fails part-way. |
| Transcription.PassLeavesNothingReady | capture-service/src/transcription.rs:92-145 | A finished pass before the last millisecond leaves no listed capture ready. |
| Transcription.SecondPassIsIdle | capture-service/src/transcription.rs:92-145 | A second pass at the same time processes nothing and changes nothing, whatever the provider would say. |
| Transcription.TranscriptsAreImmutable | capture-service/src/store.rs:252-299 | Over any run of passes, retries and arrivals cut short anywhere, a stored transcript and every record stay as they are. |
| Transcription.TranscribedIsCompleted | capture-service/src/transcription.rs:105-109 | From every reachable state one finished pass no earlier than a transcript marks its capture completed, without asking the provider. |
| QaRuns.AuthorizedOnceInTurn | scripts/conformance-qa.py:142-156 | Each of the twelve indexes is authorized at most once, in order, under one selection, after every earlier disposal was confirmed. |
| QaRuns.CommandsBounded | scripts/conformance-qa.py:288-319 | At most two commands reach a Session, numbered in order, all from the process that authorized it, none after its disposal. |
| QaRuns.SpendingIsDurable | scripts/conformance-qa.py:298-305 | In every state a power loss could leave, durable spending covers every delivered command and is at most two. |
| QaRuns.NoCommandAfterOwnerIsGone | scripts/conformance-qa.py:348-354 | Once the process that authorized a Session is gone, no command reaches it again. |
| QaRuns.SlotFreedOnlyByDisposal | scripts/conformance-qa.py:150-156 | In every state a power loss could leave, each reserved Session is the active one or has a confirmed disposal. |
| QaRuns.LivingProcessIsDurable | scripts/conformance-qa.py:468-473 | A process still in its loop holds a synced journal equal to its memory, with nothing uncertain pending. |
| QaRuns.LoopIsRun | scripts/conformance-qa.py:418-475 | The foreground loop over its input lines is a run of the process model; `LinesMean` says what each line does in it. |
| QaMeaning.LineMeans | scripts/conformance-qa.py:418-475 | What each verb does on the held Session, as the exact events it logs and the journal each was recorded in first: park, resume and dispose send only their own request, every other verb none, a command is spent as the one pending operation before it is delivered. A line logs a prefix of that, and all of it with the stated outcome if and only if it is accepted, permitted and meets nothing bad. |
| QaMeaning.LinesMean | scripts/conformance-qa.py:418-475 | So does every line of every run; a line not taken up changes nothing. |
| QaMeaning.OutlivesIff | scripts/conformance-qa.py:468-473 | A process outlives a line if and only if it succeeds, is refused before anything is recorded, which changes nothing, or resumes a Session whose child then refuses to reconnect with nothing else recorded. |
| QaMeaning.RequestsHaveTheirVerb | scripts/conformance-qa.py:453-464 | In every run each park, resume or disposal request was sent by a line of its own verb for the Session then held, or, if a disposal, by a resolution, and was the one pending operation any power loss could have left. |
| QaMeaning.BeginMeans | scripts/conformance-qa.py:340-354 | A foreground process begins if and only if the journal opens under its selection with no Session retained and nothing uncertain, and asks nothing of the outside world. |
| QaMeaning.ResolveMeans | scripts/conformance-qa.py:255-274 | Resolving sends only the disposal of the retained Session, recorded as exactly that, and frees the slot if and only if every check and answer is good. |
| GeneratedArguments.QuickMeaning | capture-service/src/generation.rs:290-337 | Exactly the argument lists mixing option pairs, `--json` and some plain word, with no broker flag, are accepted, giving `create`, the pairs in order, then `--title` and one title joining the words in order. |
| GeneratedArguments.ParseRendered | capture-service/src/generation.rs:290-337 | Arguments have at most one reading: every token list is read back from its own rendering. |
| GeneratedArguments.BrokerOwnsControls | capture-service/src/generation.rs:235-288 | An accepted command ends in the broker's actor, reference and database flags with its own values and `--json`; nothing before them, as flag or value, is a broker flag; an explicit `create` passes on every argument but `--json`. |
| GeneratedArguments.CommandAcceptedIff | capture-service/src/generation.rs:235-337 | A command is accepted if and only if it holds no broker flag and, as a quick capture, can be read and has a plain word. |
| GeneratedArguments.BrokerFlags | capture-service/src/generation.rs:266-288 | The flags only the broker may set, alone or with a value, are exactly these eight. |
| GeneratedArguments.TitleKeepsWords | capture-service/src/generation.rs:322-337 | Splitting a title of space-free words at its spaces gives back exactly those words in order. |
| GeneratedArguments.OthersKeepTheirOrder | capture-service/src/generation.rs:245-252 | Dropping `--json` keeps every other argument where it stood. |
| GeneratedLedger.ReserveKeeps | capture-service/src/runs.rs:458-527 | Reserving keeps the counters exact and the ceiling respected, and takes the units asked for exactly for a mutation that held none. |
| GeneratedLedger.ConfirmKeeps | capture-service/src/runs.rs:534-583 | Confirming turns one of the mutation's own reserved units into a consumed one and moves nothing else. |
| GeneratedLedger.ReleaseKeeps | capture-service/src/runs.rs:590-615 | Releasing gives back exactly the mutation's own reservation. |
| GeneratedMeaning.ReserveMeans | capture-service/src/runs.rs:458-527 | Each answer of reserving under its own condition: consumed if recorded, pending if held, exhausted if parked or, active, over the ceiling, which only parks the Run, and otherwise exactly the units asked for held and counted. |
| GeneratedMeaning.ConfirmMeans | capture-service/src/runs.rs:534-583 | Confirming records an output and uses one unit if and only if the mutation holds one and that is not its first output already; it is accepted if and only if so or repeated, under a non-empty id. |
| GeneratedMeaning.ReleaseMeans | capture-service/src/runs.rs:590-615 | Releasing takes back all units of the one mutation, and nothing else changes; it never fails. |
| GeneratedWork.ExternalRefInjective | capture-service/src/generation.rs:218-220 | A Run's references name its mutations apart. |
| GeneratedMeaning.ReferencesNameRuns | capture-service/src/generation.rs:218-220 | References of different Runs, whose ids hold no slash, differ. |
| GeneratedWork.CreateStartsOnce | capture-service/src/generation.rs:111-174 | Over every interleaving, command-line use, crash and power loss a create is started twice only for a forfeited mutation, and all others fit under the ceiling. |
| GeneratedWork.StartedKeepsItsUnit | capture-service/src/generation.rs:150-165 | A started create keeps its capacity in every later possible state unless it is forfeited. |
| GeneratedWork.UndisturbedRunIsSafe | capture-service/src/generation.rs:150-165 | Without a late execution error or an outside release every create starts at most once and keeps its capacity. |
| GeneratedWork.ErredStartForfeits | capture-service/src/generation.rs:150-161 | A call that runs its create and finishes loses a started create's capacity if and only if the execution erred after the start. |
| GeneratedWork.OutsideReleaseForfeits | capture-service/src/cli.rs:300-302 | A release from the command line costs a started create its capacity if and only if it reached the rename and nothing was confirmed. |
| GeneratedWork.LostUnitRestarts | capture-service/src/generation.rs:128-149 | A mutation without capacity in an active Run is started again by the next call for it. |
| GeneratedWork.StartedTwice | capture-service/src/generation.rs:150-161 | Runs in which one create is started twice, after a late execution error and after an outside release. |
| GeneratedWork.ConfirmedIsMatched | capture-service/src/generation.rs:166-213 | A confirmed output was vouched for on the command line, printed by its own started create, or found in the tracker under that Run and mutation's reference. |
| GeneratedWork.ReconcileCarriesReference | capture-service/src/generation.rs:196-211 | What a reconciliation step confirms is a tracker issue carrying that Run and mutation's reference. |
| GeneratedMeaning.FindIssueMeans | capture-service/src/generation.rs:202-208 | A reference finds the first listed issue under it, and none if and only if none has it. |
| GeneratedMeaning.ReconcileMeans | capture-service/src/generation.rs:176-213 | An uninterrupted reconciliation goes through if and only if each shown issue has an id and is recorded already or stored; it then settles every pending mutation by what the listing shows for it, one unit each, and touches nothing else. |
| GeneratedMeaning.CallReconciles | capture-service/src/generation.rs:118-119 | That is the ledger a whole call decides on. |
| GeneratedBrokers.HeldBackDecided | capture-service/src/generation.rs:128-141 | A call that gets no unit of its own answers the recorded issue, pending, exhausted or a ledger failure, each exactly under its own condition on the ledger it found. |
| GeneratedBrokers.CreatedDecided | capture-service/src/generation.rs:142-173 | A call with its own unit answers success with the printed id if and only if its create printed one and that is durably confirmed, and each failure exactly under its own condition. |
| GeneratedWork.RefusalStrands | capture-service/src/generation.rs:128-149 | Of a mutation first reserved by a call, running the create strands the unit if and only if its arguments are refused. |
| GeneratedWork.StrandedForever | capture-service/src/generation.rs:128-149 | Until it is settled by hand a stranded unit is never used and never given back in any later run. |
| ReleaseUpload.AttemptIsSafe | scripts/capture_release.py:92-108 | An attempt never changes an existing asset, uploads only absent expected names once each, and nothing at all after any mismatch. |
| ReleaseUpload.SuccessIsExact | scripts/capture_release.py:105-108 | Success means the uploaded name-to-digest pairs are exactly the expected ones. |
| ReleaseUpload.SucceedsIff | scripts/capture_release.py:92-108 | An attempt succeeds if and only if everything on the release matches under distinct names, a published release lacks nothing, and every upload of an absent file comes back done. |
| ReleaseUpload.UploadsMean | scripts/capture_release.py:103-104 | Uploading stops at the first upload that does not come back done, and only there. |
| ReleaseUpload.UploadsLeave | scripts/capture_release.py:103-104 | Each upload leaves that file under its own name and digest behind what was there, in order. |
| ReleaseUpload.MissingOrder | scripts/capture_release.py:101-104 | Absent files are uploaded in the order of their names. |
| ReleaseUpload.RetriesNeverReplace | scripts/capture_release.py:92-108 | Over any number of interrupted attempts no asset is replaced and no name appears twice. |
| ReleaseUpload.RetryCompletes | scripts/capture_release.py:100-108 | After attempts interrupted without a broken asset, one whose uploads all come back done succeeds. |
| Hex.EncodeLowerHex | capture-service/src/hex.rs:9-18 | The loop that appends two digits per byte computes the specified encoding. |
| AttentionStores.AttentionStore.Persist | capture-service/src/attention.rs:509-531 | Rename, then sync: the disk after each way it can stop. |
| AttentionStores.AttentionStore.DrainResolved | capture-service/src/attention_runs.rs:66-85 | The drain loop returns exactly the items whose Run does not resolve them, in order, or fails when any lookup does; `LoadMeans` says which Run answers do. |
| AttentionStores.AttentionStore.Load | capture-service/src/attention.rs:501-507 | The load body writes and returns what the load outcome says; `LoadMeans` says what that is. |
| AttentionStores.AttentionStore.Upsert | capture-service/src/attention.rs:330-380 | The upsert body equals its outcome on disk and reply. |
| AttentionStores.AttentionStore.SetEligible | capture-service/src/attention.rs:384-409 | The eligibility body equals its outcome on disk and reply. |
| AttentionStores.AttentionStore.Clear | capture-service/src/attention.rs:413-430 | Clearing one key equals its outcome on disk and reply. |
| AttentionStores.AttentionStore.ClearSessionKind | capture-service/src/attention.rs:432-455 | Clearing one kind of one Session equals its outcome on disk and reply. |
| AttentionStores.AttentionStore.ClearSession | capture-service/src/attention.rs:459-473 | Clearing one Session equals its outcome on disk and reply. |
| AttentionStores.AttentionStore.Project | capture-service/src/attention_projection.rs:91-143 | The projection body, with its re-persist on a stale retry, equals its outcome on disk and reply. |
| PairingRegistries.PairingRegistry.ValidateState | capture-service/src/notifications.rs:93-114 | The single scan with a set of seen addresses accepts exactly the valid registries. |
| PairingRegistries.PairingRegistry.UpgradeRecords | capture-service/src/pairing.rs:387-421 | The upgrade loop retires every token address or refuses the file at one ill-formed registration. |
| PairingRegistries.PairingRegistry.Load | capture-service/src/pairing.rs:383-433 | The load body, upgrade write included, equals its outcome. |
| PairingRegistries.PairingRegistry.Issue | capture-service/src/pairing.rs:171-223 | The issue body equals its outcome on disk and reply. |
| PairingRegistries.PairingRegistry.Consume | capture-service/src/pairing.rs:230-274 | The pairing body equals its outcome on disk and reply. |
| PairingRegistries.PairingRegistry.Register | capture-service/src/notifications.rs:125-179 | The registration body, with its search loop, equals its outcome on disk and reply; `RegisterMeans` says what that is. |
| PairingRegistries.PairingRegistry.Revoke | capture-service/src/pairing.rs:325-338 | The revoke body equals its outcome on disk and reply. |
| PairingRegistries.PairingRegistry.RecordDelivery | capture-service/src/pairing.rs:303-319 | The record-delivery body equals its outcome on disk and reply. |
| PairingRegistries.PairingRegistry.ConfigureNotifications | capture-service/src/notifications.rs:213-225 | The start-up configuration body equals its outcome on disk and reply. |
| PairingRegistries.PairingRegistry.Retry | capture-service/src/notifications.rs:230-240 | The explicit retry body equals its outcome on disk and reply. |
| PairingRegistries.PairingRegistry.DeliverTo | capture-service/src/notifications.rs:271-343 | One device's locked step equals its outcome on disk, reply and submission. |
| PairingRegistries.PairingRegistry.DeliverNotifications | capture-service/src/notifications.rs:255-346 | The pass loop, stopping at the first error, equals the specified pass. |
| PairingRegistries.PairingRegistry.Invoke | capture-service/src/pairing.rs:355-370 | Any call of the run model is the class's own body for it. |
| NotificationWorkers.Serve | capture-service/src/notification_worker.rs:15-76 | The worker loop equals start-up configuration followed by its turns, ended by the first error. |
| CaptureModel.ReadAudio | capture-service/src/store.rs:127-145 | The read loop accepts exactly the streams that arrive whole within 20 MiB, byte for byte, and refuses for size within one buffer of the limit. |
| CaptureStores.Store.Ingest | capture-service/src/store.rs:94-184 | An ingest that runs alone publishes exactly the accepted audio under a record with the draft's own fields, or compares all of them with what is published; it takes exactly the three steps of the concurrent model. |
| CaptureStores.Store.CompleteTranscription | capture-service/src/store.rs:267-299 | Completion stores a transcript once, compares a second, and never rewrites. |
| CaptureStores.Store.RecordFailure | capture-service/src/store.rs:318-339 | The recorded failure counts the attempt and sets the saturating backoff. |
| CaptureStores.Store.RetryTranscription | capture-service/src/store.rs:306-316 | Retry requeues every capture but a completed one. |
| CaptureStores.Store.ProcessReady | capture-service/src/transcription.rs:92-145 | The worker loop over its listing equals the specified pass. |
| QaCoordinators.Coordinator.ReserveSlot | scripts/conformance-qa.py:142-148 | Reserving updates the value, then saves it, as its flow says. |
| QaCoordinators.Coordinator.FreeSlot | scripts/conformance-qa.py:150-156 | Freeing the slot updates the value, then saves it, as its flow says. |
| QaCoordinators.Coordinator.AuthorizeSession | scripts/conformance-qa.py:357-394 | Authorization reserves before it asks, at every point it can stop. |
| QaCoordinators.Coordinator.LaunchProcess | scripts/conformance-qa.py:397-415 | A launch is recorded before it is attempted and cleared only when acknowledged. |
| QaCoordinators.Coordinator.ChangeLifecycle | scripts/conformance-qa.py:234-252 | A lifecycle request is saved before it is sent; a disposal stays pending until the slot is freed. |
| QaCoordinators.Coordinator.SendCommand | scripts/conformance-qa.py:288-319 | A command is spent and saved before it is delivered. |
| QaCoordinators.Coordinator.Interact | scripts/conformance-qa.py:418-475 | The loop survives exactly a success or a refusal that left the journal as it was; each line is its flow, and `LineMeans` says what that does. |
| QaCoordinators.Coordinator.ResolveActive | scripts/conformance-qa.py:255-274 | Resolving replays only a retained disposal, or disposes now, and frees the slot only once settled. |
| GeneratedArguments.RewriteQuick | capture-service/src/generation.rs:290-337 | The index loop terminates and computes that rewriting. |
| GeneratedBrokers.BeadsGenerator.ReconcileWith | capture-service/src/generation.rs:176-213 | The reconciliation loop is the model's reconcile steps, ended by the first failure. |
| GeneratedBrokers.BeadsGenerator.Generate | capture-service/src/generation.rs:111-174 | An uninterrupted call is a run of the concurrent model; success names the first output found recorded after reconciling, or the one its create printed and durably confirmed, and each failure is answered exactly under its own condition. |
| ReleaseUpload.Release.UploadMissingFiles | scripts/capture_release.py:92-108 | The validation and upload loops equal the specified attempt. |

## Left out

- Sockets, HTTP routes, TLS, QR output, tasks and command-line wiring: only the calls they make are modelled, as environment steps.
- JSON text, file modes, locks and constant-time comparison: a stored value is read back as it was written, and a lock makes a call atomic.
- SHA-256 and UUID generation: uninterpreted, with the absence of a collision or freshness stated where a property needs it.
- The receiver URL and identity checks of pairing: one boolean of the issue call.
- The clock within one call: `reconcile_local_parks` reads it once per Park; the model reads one time per reconciliation.
- The first creation of the Attention and pairing files: runs start from the empty store already in place.
- The sender's own storage of its acknowledged sequence: taken as durable, and always offering the lowest unacknowledged entry.
- Corrupt files: a stored Attention state or capture that does not parse is an error of its load and is not followed further.
- A crash inside the writing of `transcript.json`: faults are placed between a visit's writes.
- Power loss for transcription: a pass may stop at any write, but no written state is taken back.
- A second transcription worker on the same store: the worker's properties are stated for a single writer.
- `authenticate_device` and the status views of pairing: single lookups without effects.
- Run admission, attachment, parking, resuming and reaping: arbitrary changes of state and non-lowering changes of the ceiling.
- The Run revision counter and its overflow: not part of the model.
- The option grammar of the tracker behind an explicit `create`: which of the caller's arguments the tracker takes as values is not modelled.
- The contents of QA manifests, envelopes, grants and conformance reports: each check of them is one good or refusing answer.
- The random request id of a QA lifecycle operation: between verbs nothing but an authorization is ever pending, so a new operation always differs from it.
- UUID syntax of generated-work ids, and a Park expiry that overflows: requests refused before any step.
