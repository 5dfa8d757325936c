# OpenIDX access platform: a verified model

This project models the stateful core of the OpenIDX access platform and proves what holds
over whole runs of it: key rotation, sealing of session recordings, the BrowZer edge
generators and the gateway reconciler, device enrollment, feature toggles, the access
decision and its background sweep, the kill switch, session approvals, posture scoring and
the health monitor.

`dafny verify dfyconfig.toml` checks everything.

## How the model is built

- Tables and remote stores are `map` fields of classes; each SQL statement or remote call is
  one atomic step. Requests are handled one at a time.
- What goes wrong is an input. Every operation takes a record of luck (`Weather`, `Luck`,
  `stores`, ...) that says for each call whether it works, where a crash strikes, how many bytes
  a read returns and in which order a query visits rows. Safety is proved for every such input;
  what an operation achieves is proved for the calm ones, in which nothing goes wrong.
- The database's choice under LIMIT is the order it visits rows in (`Listing.Answer`). A row the
  order does not mention was lost on the way, to a broken connection or a failed scan, which the
  code does not notice. Every complete answer arises this way (`Listing.EveryAnswerArises`).
- Where the code is deterministic once its luck is given, each class method is proved equal to a
  function of the old state, and a whole run is the fold of that function over the operations
  (`RecordingSealer.Run`, `EnrollDoors.Run`, `Features.Run`, `GatewayReconciler.RunTable`) or
  rounds (`BatchRun.RowsAt`, with the round the loop ends in fixed by `BatchRun.EndsAt`). Where
  it is not (ties between approvals), a run is a sequence of states linked by a step relation
  (`SessionApprovals.IsRun`). The theorems about runs are about these, and `Serve` ties the
  classes to them.
- Ghost logs and histories record what was actually written, so that "over any run" is an
  invariant between the log and the tables.
- Sealed payloads are ideal boxes (they open under exactly the sealing key), digests are
  collision-free, nonces are left out. Random ids are inputs.

| file | what it models |
|---|---|
| Common, Text, Permutation | shared helpers |
| Listing | what a query with LIMIT may return |
| BatchLoop, BatchRun | the batch loop both halves of the rekey tool share, for any row type: without failures, and with them |
| Cipher, RekeyColumn | the stored-value format, and rotation of a text column |
| JsonSecrets, RekeyJson | the JSON walk, and rotation of a JSON column |
| RecordingSealer | sealing, crashes, and playback of recordings |
| HopPorts, RouteDedup, RouteNames, EdgeBuilders | port allocation, host dedup, route names, the three generators |
| GatewayReconciler | the reconcile pass and runs of it |
| AutoTrust, EnrollTokens, EnrollDevices, EnrollDoors | the auto-trust decision, tokens and sessions, agents and devices, the endpoints |
| Features | feature records, route flags, cascade disable |
| AccessDecision, ContinuousVerify | the gate's decision, the sweep |
| KillSwitch, SessionApprovals, Posture, HealthMonitor | as named |

## Where the code is narrower than its promise

Each of these is stated with the exact condition under which the promise holds.

- Rotation of a text column reaches every readable stale row, for every LIMIT choice, exactly
  when fewer than a batch of stale rows are unreadable or nothing needs work
  (`RekeyColumn.ColumnCoverage`). The JSON query keeps returning rotated documents, so there
  the condition is on the documents that still carry a tag afterwards
  (`RekeyJson.JsonCoverage`).
- A run over a text column that reports no errors leaves nothing under an old key exactly when
  its last answer held every row still stale, whatever else its queries did; with a batch of at
  least one, exactly when the last query lost none of them (`RekeyColumn.NoErrorsExact`). It fails
  when that query loses a row, and with a batch of zero (`RekeyColumn.NoErrorsYetStale`).
- For a JSON column the same holds of the documents still stale (`RekeyJson.NoErrorsLast`). There
  a run may miss documents even if no query loses any: among the runs in which none is lost, those
  without errors all leave nothing stale exactly when each document with a stale string has fewer
  than a batch of others that hide it, documents without unreadable strings that still mention a
  tag once walked (`RekeyJson.NoErrorsExact`; failing inputs are in `RekeyJson.NoErrorsYetStale`).
- The sealer's query keeps returning rows whose file is missing or whose path is unsafe. Ticks in
  which nothing else goes wrong seal everything that can be sealed, whatever the database lists,
  exactly when fewer than fifty due rows are of that kind or nothing can be sealed
  (`RecordingSealer.EventuallySealed`).
- A download returns the recording exactly when the recording is empty, or no run was ever cut
  between the rename and the row update and the keys are still held
  (`RecordingSealer.Recordings.Download`); a run is cut exactly when the file was renamed and then
  a crash or a failed row update struck (`RecordingSealer.CutExactly`).
- The virtual-host builder does not default a zero base port, so its bypass port agrees with
  the hop listener exactly when the base is not zero (`EdgeBuilders.PortsAgree`).
- Different hosts can get one gateway route name, by equal slugs or by one slug being another
  plus `-oidc`; every object built is served exactly when neither happens
  (`EdgeBuilders.ServedExactly`, `RouteNames.OverlaysCollide`, `RouteNames.BypassCollides`).
- The network door does not look at a token's expiry although its comment says so. The two
  doors agree on a token exactly when it is unexpired or neither would take it
  (`EnrollTokens.DoorsAgreeExactly`, `EnrollTokens.ExpiredPassesNetworkDoor`).
- A single-use token can be redeemed again exactly when its used mark was lost
  (`EnrollTokens.ReopenedExactly`); a run whose marks are all written redeems it at most once
  (`EnrollDoors.SingleUse`).
- The sweep leaves the posture score at zero, so it denies every session of a route with
  posture checks; its denials agree with the gate's exactly when the route has none or the gate
  would deny even a perfect score (`ContinuousVerify.SweepAgreesExactly`; a session it revokes
  although the gate admits it is in `ContinuousVerify.SweepRevokesAdmitted`).
- Disabling a feature from outside the organization that owns the route changes the record but
  reaches no route row. With every write succeeding, a disable of a feature that is on leaves its
  flag matching exactly when the caller's organization owns the route (`Features.DisableMatches`,
  `Features.StepMatches`; a failing input is `Features.ForeignDisableDrifts`).
- The kill switch does not notice rows its two listings lose. A run without a warning leaves no
  privileged session live exactly when the listing lost none, and leaves every live login marked
  exactly when it lost none that lacked a marker (`KillSwitch.UnwarnedLeavesNone`,
  `KillSwitch.MarkersExact`; a failing input is `KillSwitch.LostSessionSurvives`).
- The trust gate treats every mode other than empty, `off` and `observe` as enforcing
  (`Posture.Identity.ApplyTrust`; for instance `on`, `Posture.OtherModesEnforce`).

## Model

| member | source | states |
|---|---|---|
| Cipher.EncryptRoundTrip | internal/common/secretcrypt/secretcrypt.go:146-187 | Decrypt undoes Encrypt; what Encrypt returns is never stale, and carries the active prefix unless it is empty |
| Cipher.ResealMeaning | cmd/rekey/main.go:228-248 | re-sealing keeps what a value decrypts to, ends its staleness, changes every readable stale value and no other |
| Cipher.SurvivesRetirement | cmd/rekey/main.go:137-139 | once the other keys are dropped, a readable value still reads the same exactly when it was not stale |
| Listing.Select | cmd/rekey/main.go:204-221 | the collecting loop returns the first distinct rows of the pool in the order visited, within the limit |
| Listing.AnswerComplete | cmd/rekey/main.go:213-221 | if no row of the pool is lost the answer is complete; with room for all, only then |
| Listing.EveryAnswerArises | cmd/rekey/main.go:204-206 | every distinct choice of rows the limit allows is the answer for some visiting order |
| BatchLoop.RunCovers | cmd/rekey/main.go:208-263 | if for each row needing work fewer than a batch of others linger in the query, every run ends with every row walked |
| BatchLoop.RunWithin | cmd/rekey/main.go:208-263 | if a batch of rows lingers, some legal LIMIT answers stay among them to the end of the loop and leave another row untouched |
| BatchLoop.RunMissing | cmd/rekey/main.go:208-263 | so a row needing work may be missed for good |
| BatchLoop.CoverageExact | cmd/rekey/main.go:208-263 | all LIMIT choices lead to full coverage if and only if the lingering condition holds |
| BatchRun.EndsOnce | cmd/rekey/main.go:208-263 | given its table and its luck, the loop ends in one round only |
| BatchRun.RoundLowers | cmd/rekey/main.go:253-263 | a round that made progress strictly lowers what is left to re-seal, whatever failed in it |
| BatchRun.Conserves | cmd/rekey/main.go:225-263 | what is counted as re-sealed is what the table lost in weight, over any rounds and failures |
| BatchRun.NoErrors | cmd/rekey/main.go:208-263 | without errors no query failed and no picked row counted one |
| BatchRun.StopReaches | cmd/rekey/main.go:253-263 | a loop cannot stop before a tagged row unless its query lost rows or a full batch of others could not be changed |
| BatchRun.CalmIsRun | cmd/rekey/main.go:208-263 | a loop in which nothing fails is a run over the picks it made |
| BatchRun.RunIsLoop | cmd/rekey/main.go:208-263 | and every run is such a loop for some order of visiting rows |
| RekeyColumn.Column.Query | cmd/rekey/main.go:204-221 | the stale rows the query visits, within the limit; it fails exactly when told to or on a negative limit |
| RekeyColumn.Column.RekeyRow | cmd/rekey/main.go:228-249 | a stale row is re-sealed exactly when it is readable and neither its seal nor its write fails, and counts once, as done or as an error |
| RekeyColumn.Column.RekeyBatch | cmd/rekey/main.go:225-252 | row by row: a picked row is re-sealed exactly when it is readable and its own seal and write work, and each counts as one re-sealed or one error |
| RekeyColumn.Column.Round | cmd/rekey/main.go:208-263 | rows, counts and exit test of one round, as its query and calls determine |
| RekeyColumn.Column.Turn | cmd/rekey/main.go:208-263 | one round keeps the loop's account and, if it goes on, leaves less to do |
| RekeyColumn.Column.Rekey | cmd/rekey/main.go:198-264 | terminates for any table, limit and failures; the rows, both counts and the last round are exactly those of the loop |
| RekeyColumn.ColumnSafe | cmd/rekey/main.go:198-264 | whatever goes wrong, each row is as it was, or was readable and stale and is its own re-seal |
| RekeyColumn.CountIsChanges | cmd/rekey/main.go:225-263 | the first count is the number of rows changed |
| RekeyColumn.CoversTheRest | cmd/rekey/main.go:198-264 | under failures: if no query fails or loses a row and fewer than a batch of stale rows are unreadable or have a call that fails, every other row ends as its re-seal |
| RekeyColumn.CalmRunCovers | cmd/rekey/main.go:198-264 | when nothing goes wrong and fewer than a batch are unreadable, each row equals its re-seal, the count is the number of readable stale rows, and errors are reported iff an unreadable row exists |
| RekeyColumn.NoErrorsExact | cmd/rekey/main.go:208-263 | a run without errors leaves nothing stale, so that old keys can be dropped, iff its last answer held every row still stale; for a positive batch iff the last query lost none of them |
| RekeyColumn.NoErrorsYetStale | cmd/rekey/main.go:208-226 | runs without errors that leave a readable stale row: a lost row, and a batch of zero |
| RekeyColumn.CalmColumnIsRun | cmd/rekey/main.go:208-263 | in calm weather the loop is a run of the column's job |
| RekeyColumn.RunArises | cmd/rekey/main.go:204-263 | every run of it arises in some calm weather |
| RekeyColumn.ColumnCoverage | cmd/rekey/main.go:198-264 | every LIMIT choice re-seals every readable stale row iff fewer than a batch are unreadable or none is readable |
| RekeyColumn.CoveredThenRetire | cmd/rekey/main.go:137-139 | after full coverage, dropping every other key changes what no readable row decrypts to |
| JsonSecrets.ResealJson | cmd/rekey/main.go:342-379 | the walk re-seals exactly the readable stale strings whose draw works, in order, and keeps all else; resealed plus errors equals the stale strings, the errors being the unreadable ones and the failed draws |
| JsonSecrets.ResealKids | cmd/rekey/main.go:344-359 | the in-place child loops: each slot is its own walk, and counts and draws add up over the children |
| JsonSecrets.RewalkExact | cmd/rekey/main.go:342-379 | the walk with failed draws only rotates, and leaves readable exactly the strings whose draw failed |
| JsonSecrets.RewalkCalm | cmd/rekey/main.go:342-379 | without failed draws it is the full walk |
| JsonSecrets.RotatedMeaning | cmd/rekey/main.go:342-379 | any rotation, complete or partial, leaves the decrypted document unchanged |
| JsonSecrets.RotatedCounts | cmd/rekey/main.go:342-379 | stale and readable counts fall by the same amount, and equal counts mean an identical document |
| JsonSecrets.RotatedFully | cmd/rekey/main.go:342-379 | a rotation that leaves nothing readable stale is the full walk |
| JsonSecrets.WalkCorrect | cmd/rekey/main.go:342-379 | the walk keeps the meaning, re-seals each readable stale string, and a second walk re-seals nothing |
| RekeyJson.JsonColumn.Query | cmd/rekey/main.go:277-299 | the tagged documents the query visits, rotated or not, within the limit |
| RekeyJson.JsonColumn.RekeyDoc | cmd/rekey/main.go:303-331 | a document ends as its walk with its failed draws exactly if it decodes and can be stored; the strings re-sealed and the errors are counted exactly |
| RekeyJson.JsonColumn.RekeyBatch | cmd/rekey/main.go:301-332 | document by document: each ends as the round's effect on it, whatever failed for the others, and the counts add up |
| RekeyJson.JsonColumn.Round | cmd/rekey/main.go:281-336 | documents, counts and exit test of one round, as its query and calls determine |
| RekeyJson.JsonColumn.Turn | cmd/rekey/main.go:281-336 | one round keeps the loop's account and, if it goes on, leaves fewer strings to re-seal |
| RekeyJson.JsonColumn.Rekey | cmd/rekey/main.go:271-337 | terminates for any contents, limit and failures; the documents, both counts and the last round are exactly those of the loop |
| RekeyJson.JsonSafe | cmd/rekey/main.go:271-337 | whatever goes wrong, documents only rotate |
| RekeyJson.CountIsDrop | cmd/rekey/main.go:300-336 | the first count is the number of strings re-sealed |
| RekeyJson.CoversTheRest | cmd/rekey/main.go:271-337 | under failures: if no query fails or loses a row, a document for which no call fails ends fully walked whenever fewer than a batch of others still mention a tag once walked or have a call that fails |
| RekeyJson.CalmRunCovers | cmd/rekey/main.go:271-337 | when nothing goes wrong and the tagged documents fit in one batch, all are walked, every readable stale string is counted, and an error is reported iff a stale string is unreadable |
| RekeyJson.NoErrorsLast | cmd/rekey/main.go:281-336 | a run without errors leaves nothing stale iff its last answer held every document still stale |
| RekeyJson.QuietRunIsHonest | cmd/rekey/main.go:277-336 | if no query fails or loses a row and no stale document has a batch of hiders, no errors means nothing stale, whatever else failed |
| RekeyJson.HiddenRun | cmd/rekey/main.go:277-336 | with a batch of hiders some run in which nothing fails reports no errors and leaves the document stale |
| RekeyJson.NoErrorsExact | cmd/rekey/main.go:277-336 | among runs that lose no row, those without errors all leave nothing stale iff each document with a stale string has fewer than a batch of hiders |
| RekeyJson.NoErrorsYetStale | cmd/rekey/main.go:277-300 | runs without errors that leave a readable stale string: a lost row, a batch of zero, a hidden document |
| RekeyJson.CalmJsonIsRun | cmd/rekey/main.go:281-336 | in calm weather the loop is a run of the column's job |
| RekeyJson.RunArises | cmd/rekey/main.go:277-336 | every run of it arises in some calm weather |
| RekeyJson.JsonCoverage | cmd/rekey/main.go:271-337 | the exact condition for full coverage under every LIMIT choice |
| RekeyJson.OneBatchCovers | cmd/rekey/main.go:271-337 | tagged documents that fit in one batch are all walked |
| RekeyJson.DocsMeaning | cmd/rekey/main.go:271-337 | whatever failed, every document still decrypts to what it did |
| RecordingSealer.FramesOpen | internal/access/guac_recording_sealer.go:181-204 | for any read sizes the frames written open, in order, to the whole source |
| RecordingSealer.SealKeepsWhole | internal/access/guac_recording_sealer.go:138-214 | with a crash or failure at any step the file is the old image or a full sealing of it, the latter exactly when renamed; no other file changes |
| RecordingSealer.JobKeeps | internal/access/guac_recording_sealer.go:95-132 | any job keeps the layer count equal to the cuts plus the sealed mark, and advances no other row |
| RecordingSealer.CutExactly | internal/access/guac_recording_sealer.go:120-129 | a job cuts a recording exactly when the rename happened and then a crash or a failed row update struck |
| RecordingSealer.TickKeeps | internal/access/guac_recording_sealer.go:58-136 | whatever strikes, a tick moves rows from unsealed to sealed only, and touches neither sealed files nor live sessions |
| RecordingSealer.CalmTickSeals | internal/access/guac_recording_sealer.go:58-136 | when nothing goes wrong and at most fifty are due, every due recording on disk gets sealed and none is cut |
| RecordingSealer.FairTickSeals | internal/access/guac_recording_sealer.go:90-132 | a tick in which nothing goes wrong seals exactly its jobs that are on disk with a safe path, however many are due |
| RecordingSealer.EventuallySealed | internal/access/guac_recording_sealer.go:66-132 | for every LIMIT choice such ticks seal all that can be sealed iff fewer than fifty due recordings are off disk or unsafe, or none can be sealed |
| RecordingSealer.Recordings.SealOne | internal/access/guac_recording_sealer.go:146-214 | the files and the result are those the luck determines: the digest and key of exactly the bytes read, or the point of failure |
| RecordingSealer.Recordings.WriteFrames | internal/access/guac_recording_sealer.go:181-204 | the chunk loop writes exactly the specified frames and hashes exactly the source, or stops where told |
| RecordingSealer.Recordings.SealJob | internal/access/guac_recording_sealer.go:95-132 | one job: file, row and cut count as specified |
| RecordingSealer.Recordings.Sweep | internal/access/guac_recording_sealer.go:58-136 | one tick: the jobs of the listing in turn, up to a crash |
| RecordingSealer.Recordings.Decrypting | internal/access/recording_crypto.go:226-290 | playback succeeds exactly when every frame's key is held, and then yields the payloads in order |
| RecordingSealer.Recordings.Download | internal/access/guacamole_sessions.go:578-643 | returns the original bytes iff the recording is empty, or was never cut and its keys are held if sealed |
| RecordingSealer.LayersPlain | internal/access/guac_recording_sealer.go:120-129 | a non-empty recording sealed any number of times is the recording only at zero seals |
| RecordingSealer.Run | internal/access/guac_recording_sealer.go:58-214 | every run of recordings, key changes and crashing ticks stays consistent |
| RecordingSealer.SealedExactlyOnce | internal/access/guac_recording_sealer.go:114-131 | in any run, a recording never cut is marked sealed exactly when its file is sealed, and then once, with the right digest and key id |
| RecordingSealer.Serve | internal/access/guac_recording_sealer.go:58-214 | the store after any operations is the state of that run |
| HopPorts.AssignHopPorts | internal/access/browzer_targets.go:257-265 | each name gets the base plus the number of listed names not after it, less one |
| HopPorts.CountLeOrderFree | internal/access/browzer_targets.go:254-265 | the allocation does not depend on the order of the list |
| HopPorts.PortsOrdered | internal/access/browzer_targets.go:254-265 | ports increase strictly in name order, differ for different names, and stay within the base plus the number of names |
| HopPorts.SortStrings | internal/access/browzer_targets.go:258-259 | the result is sorted and has the same elements |
| RouteDedup.DedupRoutesByHost | internal/access/browzer_targets.go:338-367 | the one-pass loop equals the two-pass specification: survivors at first occurrences, each represented by its host's first root route or first route |
| RouteDedup.DedupHosts | internal/access/browzer_targets.go:330-337 | survivors have distinct hosts, every input host survives, in first-occurrence order |
| RouteDedup.DedupIdempotent | internal/access/browzer_targets.go:338-367 | a second pass changes nothing |
| RouteDedup.DedupKeepsHostless | internal/access/browzer_targets.go:346-349 | routes without a host all survive in order |
| RouteNames.SlugIsSlug | internal/access/apisix_routes.go:28-34 | slugs hold lower-case letters, digits and single inner dashes only |
| RouteNames.SlugIdempotent | internal/access/apisix_routes.go:28-34 | a slug is its own slug |
| RouteNames.NamesInjective | internal/access/apisix_routes.go:86-109 | names stay in the namespace, and two names are equal exactly when their slugs (with the suffix) are |
| RouteNames.OverlaysCollide | internal/access/apisix_routes.go:86-87 | two hosts with one overlay name |
| RouteNames.BypassCollides | internal/access/apisix_routes.go:86-109 | a host whose overlay takes another host's bypass name |
| EdgeBuilders.CollectHopNames | internal/access/browzer_targets.go:820-825 | the services of the hop routes, in order |
| EdgeBuilders.BuildHopConfig | internal/access/browzer_targets.go:816-879 | one listener per hop route, in order, with its allocated port, host and upstream |
| EdgeBuilders.BuildVHostConfig | internal/access/browzer_vhosts.go:49-106 | one virtual host per named route, with a bypass port exactly for hop routes when callbacks are set, from the base as given |
| EdgeBuilders.BuildRoutes | internal/access/apisix_routes.go:57-130 | the overlay and bypass objects of each first occurrence of a host, in order |
| EdgeBuilders.GuardDropsNothing | internal/access/apisix_routes.go:78-85 | on deduplicated routes the builder's same-host guard drops nothing |
| EdgeBuilders.PortsAgree | internal/access/apisix_routes.go:64-70 | what the three builders emit for the host of a hop route is one entry each; listener and gateway bypass carry one port, and the virtual host carries it too iff the base is not zero |
| EdgeBuilders.ListenerPorts | internal/access/browzer_targets.go:816-839 | hop listeners share a port iff their routes share a service, within the range of the services listed |
| EdgeBuilders.ServedExactly | internal/access/apisix_routes.go:78-127 | every object is the last body of its name iff no two hosts clash |
| EdgeBuilders.LastWriteStays | internal/access/apisix_reconciler.go:53-60 | of the objects built under one name, the last one's body is what the table keeps |
| GatewayReconciler.StaleNames | internal/access/apisix_routes.go:38-50 | exactly the existing names of the namespace that are not desired |
| GatewayReconciler.Gateway.PutAll | internal/access/apisix_reconciler.go:53-60 | exactly the PUTs that are not lost are applied, in order |
| GatewayReconciler.Gateway.PruneAll | internal/access/apisix_reconciler.go:65-69 | exactly the stale names whose DELETE is not lost are removed |
| GatewayReconciler.Gateway.ApplyRoutes | internal/access/apisix_reconciler.go:52-71 | a pass leaves the table its calls' luck determines, and fails exactly when the listing does |
| GatewayReconciler.EveryPassSafe | internal/access/apisix_reconciler.go:47-71 | under any failures foreign routes are untouched, desired routes are never deleted and hold an old or a built body, others can only disappear |
| GatewayReconciler.CalmPassConverges | internal/access/apisix_reconciler.go:52-71 | when no call fails and the listing is complete the table converges |
| GatewayReconciler.ConvergedExact | internal/access/apisix_reconciler.go:47-71 | converged names are exactly the desired ones, and converging again changes nothing |
| GatewayReconciler.ConvergedIsStable | internal/access/apisix_reconciler.go:47-71 | once converged without name clashes, no pass changes anything, whatever calls fail |
| GatewayReconciler.RunIsSafe | internal/access/apisix_reconciler.go:38-71 | over any passes and failures foreign routes never change and every body of ours was there or was built for its name |
| GatewayReconciler.RunConverges | internal/access/apisix_reconciler.go:38-71 | a run that ends in a failure-free pass ends converged to what that pass desired |
| GatewayReconciler.Reconcile | internal/access/apisix_reconciler.go:38-71 | the table after any passes is that of the run |
| AutoTrust.OrgAllowed | internal/access/device_autotrust.go:28-42 | the scan agrees with membership in the trimmed comma list; an empty list allows all |
| AutoTrust.DecideAutoTrust | internal/access/device_autotrust.go:55-77 | trust exactly in enforce mode, with MFA, for an allowed org, with posture satisfied when required |
| EnrollTokens.Desk.GenerateToken | internal/access/agent_api.go:1854-1865 | inserts an unused token under a new hash exactly if the statement works |
| EnrollTokens.Desk.CreateSession | internal/access/enroll_session.go:83-108 | a pending session on a fresh single-use token, as far as the two statements work |
| EnrollTokens.Desk.RevokeToken | internal/access/agent_api.go:2079-2097 | sets the revoked flag and nothing else |
| EnrollTokens.Desk.CancelSession | internal/access/enroll_session.go:152-175 | exactly the creator's pending session is canceled, and its token revoked if that statement works |
| EnrollTokens.Desk.Redeem | internal/access/agent_api.go:494-531 | succeeds exactly on a known, unrevoked, unexpired (agent door), reusable or unused token that can be read, and marks a single-use one if the write works |
| EnrollTokens.Desk.LookupSession | internal/access/enroll_session.go:181-195 | the pending, unexpired session of the token, if there is one and it can be read |
| EnrollTokens.Desk.MarkEnrolled | internal/access/enroll_session.go:198-210 | moves the session to enrolled exactly if the statement works |
| EnrollTokens.Desk.ValidateEnrollmentToken | internal/access/enroll_handler.go:116-147 | at any time accepts exactly an unrevoked, unused or reusable token, expired or not, spends it and names its creator or itself as subject |
| EnrollTokens.RedeemedKeeps | internal/access/agent_api.go:517-531 | a redemption keeps tokens, sessions and log in step, with no redemption after a revocation or a mark |
| EnrollTokens.CanceledKeeps | internal/access/enroll_session.go:164-174 | a cancel keeps them in step, and end states final |
| EnrollTokens.ReopenedExactly | internal/access/agent_api.go:517-527 | a redeemed single-use token can be redeemed again iff its mark was lost |
| EnrollTokens.DoorsAgreeExactly | internal/access/enroll_handler.go:110-147 | what the agent door takes is unexpired; the network door agrees with it iff the token is unexpired or neither would take it |
| EnrollTokens.ExpiredPassesNetworkDoor | internal/access/enroll_handler.go:130-138 | an expired token the network door takes |
| EnrollTokens.MarkedOnce | internal/access/agent_api.go:517-531 | a token is redeemed with its mark written at most once, in any run |
| EnrollTokens.RedemptionsExact | internal/access/agent_api.go:517-531 | the redemptions of a token are the marked one and the unmarked ones; without lost marks at most one |
| EnrollTokens.OneOpen | internal/access/enroll_session.go:83-108 | a token never has two open sessions |
| EnrollDevices.IssueKeeps | internal/access/agent_api.go:277-361 | under any failure fingerprints stay unique and no agent already there changes |
| EnrollDevices.CalmIssue | internal/access/agent_api.go:277-361 | when nothing fails the credentials name a registered agent with that device and fingerprint; a fingerprint seen before keeps its agent and device |
| EnrollDevices.ReenrollIsStable | internal/access/agent_api.go:278-325 | enrolling a fingerprint twice changes no agent and gives the same ids |
| EnrollDevices.Fleet.Issue | internal/access/agent_api.go:277-361 | credentials and registry as the luck of its three statements determines |
| EnrollDevices.Fleet.LinkDevice | internal/access/agent_api.go:647-695 | upserts the row exactly if there is an org and the statement works |
| EnrollDevices.LinkKeeps | internal/access/agent_api.go:669-679 | a row is trusted exactly when some link so far earned it |
| EnrollDevices.LinkedKeeps | internal/access/agent_api.go:669-679 | a link never lowers trust |
| EnrollDoors.HandleEnroll | internal/access/agent_api.go:490-571 | token, session, agent, device and result as the luck of its statements determines |
| EnrollDoors.JoinSession | internal/access/agent_api.go:554-561 | the device is linked with the trust the session earned, and the session marked enrolled, as far as the statements work |
| EnrollDoors.EnrollSafe | internal/access/agent_api.go:490-571 | whatever fails, every invariant of tokens, sessions, agents and trust is kept, and nothing earned is lost |
| EnrollDoors.CalmEnroll | internal/access/agent_api.go:490-571 | when every statement works the door opens exactly for a redeemable token, which is then spent; its open session ends enrolled and its user's device row carries exactly the trust earned |
| EnrollDoors.HandleEnrollOAuth | internal/access/agent_api.go:607-637 | issues credentials and links the device for a known user |
| EnrollDoors.OAuthSafe | internal/access/agent_api.go:607-637 | it changes nobody's trust |
| EnrollDoors.ResolveEnrollSubject | internal/access/enroll_handler.go:81-108 | a verified bearer wins and spends no token; otherwise a redeemable token decides |
| EnrollDoors.AfterSafe | internal/access/agent_api.go:490-571 | every operation of every door is safe, whatever fails |
| EnrollDoors.Run | internal/access/agent_api.go:490-571 | over any serialized run: no redemption after revocation or mark, one finishing event per session, unique fingerprints, trust exactly as earned |
| EnrollDoors.SingleUse | internal/access/agent_api.go:517-531 | in a run whose used marks are all written, at most one operation is let in with a single-use token, through both doors together |
| EnrollDoors.RedemptionsAreAdmissions | internal/access/agent_api.go:490-531 | the redemptions logged for a token are the operations let in with it |
| EnrollDoors.TrustedExactly | internal/access/agent_api.go:554-561 | a user's device row is trusted iff some operation of the run joined the device through a session that earned trust |
| EnrollDoors.Serve | internal/access/agent_api.go:490-571 | the tables after any operations are those of the run |
| Features.Manager.Provision | internal/access/feature_manager.go:549-782 | names the resources of the feature; the imperative network path sets its own flag early |
| Features.Manager.SyncFlags | internal/access/feature_manager.go:840-877 | writes the feature's flag, and only in a row the caller's own org owns |
| Features.Manager.GetOrCreate | internal/access/feature_manager.go:417-441 | finds the record, or inserts one that is off |
| Features.Manager.EnableFeature | internal/access/feature_manager.go:147-225 | succeeds exactly when dependency, org and route type allow it and its calls work; records and flags as the luck determines |
| Features.Manager.DisableFeature | internal/access/feature_manager.go:228-288 | terminates; dependents first, a failed dependent stops it; records and flags as the luck determines |
| Features.EnableKeeps | internal/access/feature_manager.go:147-225 | whatever fails, the dependency holds, only the feature's own record and flag change, and it ends on exactly if it succeeded or was on |
| Features.DisableKeeps | internal/access/feature_manager.go:228-288 | whatever fails, the dependency holds; on success the feature and its dependents are off; nothing else changes |
| Features.DisableMatches | internal/access/feature_manager.go:228-288 | with all writes succeeding, a disable of a feature that is on leaves its flag matching iff the caller's org owns the route |
| Features.ForeignDisableDrifts | internal/access/feature_manager.go:852-856 | a disable from another org that leaves the flag on and the record off |
| Features.StepMatches | internal/access/feature_manager.go:147-288 | with no failed write, all flags still match after an operation iff it is not a foreign disable |
| Features.SelectedExactly | internal/access/browzer_targets.go:281-289 | where flags match, the row filter selects exactly the enabled routes with both features on |
| Features.Run | internal/access/feature_manager.go:147-288 | over any run with failures: BrowZer on implies Ziti on, enabled iff status enabled, no resources when off |
| Features.OrderlyRunMatches | internal/access/feature_manager.go:147-288 | after a run without failed writes and foreign disables every flag equals its record |
| Features.OrderlyRunSelects | internal/access/browzer_targets.go:281-289 | then the row filter selects exactly the enabled routes with both features on |
| Features.Serve | internal/access/feature_manager.go:147-288 | the tables after any operations are those of the run |
| AccessDecision.PostureScore | internal/access/context_evaluator.go:92-112 | the share of checks passed, between zero and one |
| AccessDecision.Evaluate | internal/access/context_evaluator.go:120-250 | allows exactly when every requirement holds; step-up exactly on the trust, posture and risk denials; the risk is that of the first requirement not met, within 0 and 100 |
| AccessDecision.DenialIsMonotone | internal/access/context_evaluator.go:119-250 | worse signals never lower the risk nor turn a denial into an allow |
| AccessDecision.MajorChangeSymmetric | internal/access/context_evaluator.go:330-343 | a major user-agent change is symmetric and never reported for an unchanged agent |
| ContinuousVerify.SweepDenialStands | internal/access/continuous_verify.go:162-183 | on routes without posture checks, what the sweep denies the gate denies under the same or worse signals |
| ContinuousVerify.SweepAgreesExactly | internal/access/continuous_verify.go:162-183 | the exact condition under which the sweep's denials agree with the gate's |
| ContinuousVerify.SweepRevokesAdmitted | internal/access/continuous_verify.go:162-170 | a session the sweep denies and the gate admits |
| ContinuousVerify.Verifier.VerifyOne | internal/access/continuous_verify.go:116-234 | one session is revoked and dropped from the cache exactly when denied, else refreshed with its risk, as far as the writes work; never steps up |
| ContinuousVerify.Verifier.Sweep | internal/access/continuous_verify.go:53-242 | rows and cache after a sweep are those its signals and luck determine; the count is the number of denials; the step-up branch is dead |
| ContinuousVerify.OnlyDueChange | internal/access/continuous_verify.go:59-70 | whatever goes wrong, only due sessions change, and then as meant |
| ContinuousVerify.CalmSweep | internal/access/continuous_verify.go:53-242 | when nothing goes wrong and at most a hundred are due, every due session ends as meant, the denied out of the cache |
| ContinuousVerify.CalmSweepLeaves | internal/access/continuous_verify.go:53-242 | however many are due, a calm sweep takes a hundred or all, leaves each as meant, and no others |
| ContinuousVerify.CalmSweepsFinish | internal/access/continuous_verify.go:53-242 | calm sweeps that have room for all the sessions due leave none due |
| ContinuousVerify.RevokedIsDenied | internal/access/continuous_verify.go:162-216 | on routes without posture checks, a session the sweep revokes is one the gate would deny under the same or worse signals |
| KillSwitch.StepEffect | internal/access/kill_switch.go:173-220 | a step leaves other owners' rows alone, without a warning leaves nothing live, and counts the rows changed |
| KillSwitch.MarkersExact | internal/access/kill_switch.go:150-172 | markers are written for live logins only; without a warning every live login has one iff the listing lost none that lacked it |
| KillSwitch.GuacExact | internal/access/kill_switch.go:304-348 | only live sessions of the owner change, with the broker's word or without a broker id; without a warning those left live are exactly the ones the listing lost |
| KillSwitch.UnwarnedLeavesNone | internal/access/kill_switch.go:304-348 | a run without a warning leaves no session live iff the listing lost none |
| KillSwitch.LostSessionSurvives | internal/access/kill_switch.go:312-322 | a live session the listing loses, without a warning |
| KillSwitch.Store.PublishMarkers | internal/access/kill_switch.go:150-172 | markers up to the first failure, and a warning exactly for a failed listing or marker |
| KillSwitch.Store.TerminateGuacSessions | internal/access/kill_switch.go:304-348 | rows, count and warning as the listing, the broker and the writes determine |
| KillSwitch.Store.Execute | internal/access/kill_switch.go:124-222 | all tables and the report are those the luck of the steps determines, each step independent of the others |
| KillSwitch.SwitchSevers | internal/access/kill_switch.go:124-222 | for any pattern of failures no table changes another owner's row, every count is the rows changed, and an unwarned table has nothing of the owner's left to hit |
| KillSwitch.RepeatAfterUnwarned | internal/access/kill_switch.go:17-20 | a repeat after an unwarned run reports zero for every statement, and for sessions exactly those the first listing lost |
| SessionApprovals.Broker.AskFor | internal/access/guacamole_sessions.go:82-96 | inserts a pending request that expires in an hour, exactly if the statement works |
| SessionApprovals.Broker.DecideOn | internal/access/guacamole_sessions.go:126-154 | exactly a pending request of the org is decided, and no other |
| SessionApprovals.Broker.Newest | internal/access/guacamole_sessions.go:674-685 | the newest usable approval, or none exists |
| SessionApprovals.Broker.ConnectTo | internal/access/guacamole.go:611-649 | on a gated connection nothing launches without a usable approval of the same user and connection; with one the newest is spent, launched or not |
| SessionApprovals.NextMoves | internal/access/guacamole_sessions.go:46-164 | a status moves only from pending to approved to consumed, or from pending to denied |
| SessionApprovals.NextKeeps | internal/access/guacamole_sessions.go:46-164 | every step keeps statuses in line with the log, and spends proper and distinct |
| SessionApprovals.RunKeeps | internal/access/guacamole_sessions.go:46-164 | so does every run |
| SessionApprovals.RunBounded | internal/access/guacamole_sessions.go:661-693 | in any run, gated launches never exceed the approvals given |
| SessionApprovals.LaunchesBounded | internal/access/guacamole_sessions.go:661-693 | the counting behind it: distinct spends of approved requests |
| SessionApprovals.Serve | internal/access/guacamole_sessions.go:46-164 | serving any operations goes through the states of a run of them |
| Posture.Score | internal/access/agent_api.go:829-906 | the clamped weighted mean, the status by worst failed severity then the threshold, one action per result |
| Posture.ClampIdle | internal/access/agent_api.go:881-895 | the clamp changes nothing when all scores lie in the range |
| Posture.OrderFree | internal/access/agent_api.go:829-906 | score and status do not depend on the order of results |
| Posture.DeviceTrustAttrs | internal/access/agent_api.go:1022-1039 | the attribute is present exactly when wanted, all others keep their order, and the change flag is exact |
| Posture.Identity.ApplyTrust | internal/access/agent_api.go:956-1015 | adjusts the attribute exactly in enforcing modes when both calls work |
| Posture.OtherModesEnforce | internal/access/agent_api.go:960-963 | an undocumented mode that enforces |
| Posture.Identity.HandleReports | internal/access/agent_api.go:930-934 | the attributes after any reports are those of the run |
| Posture.TrustFollowsLast | internal/access/agent_api.go:942-1015 | over any reports the identity is trusted exactly as the last report whose calls worked deserves |
| Posture.OthersFollow | internal/access/agent_api.go:1022-1039 | the other attributes keep their order over any reports, and nothing changes without a working report or an enforcing mode |
| HealthMonitor.Monitor.UpdateStatus | deploy/health-monitor.go:163-182 | the count is the streak (less one from the very first check), and an alert is sent exactly when it equals the threshold |
| HealthMonitor.ReachedMore | deploy/health-monitor.go:178-181 | a check makes exactly the current streak reach the threshold exactly when the count equals it |
| HealthMonitor.Watch | deploy/health-monitor.go:163-182 | over any checks of any services, the services known are those checked, statuses and counters match the histories, and alerts number the streaks that reached the threshold |

## Left out

- Concurrency between requests: check and update of tokens and features are separate statements; requests are serialized here.
- Cryptography, the byte layout of frames, key derivation and hashing: ideal boxes and digests instead.
- JSON text: parsing, escaping and duplicate object keys; a document is a tree, and its tag filter looks at strings and keys.
- Guacamole, Ziti, APISIX and vault clients: only success or failure of a call.
- Ziti part of the kill switch (session severance and identity deletion on the controller).
- The inline policy language: its verdict is an input of the decision; monotonicity is stated for an unchanged verdict.
- Play Integrity verification of a posture result, and the mirroring of results to other tables.
- nginx text beyond host, port and upstream; bootstrapper targets and the router config.
- URL parsing and the effective hosting mode of a route: routes arrive with host, prefix and mode.
- Case folding, white space and slugs outside ASCII.
- Path safety of the sealer (a skipped job), the retention purge, and two recordings sharing a path or a temporary file: recordings have paths of their own.
- Kill-switch warnings are kept as one flag per step, not as an ordered list of messages.
- HTTP parsing, status codes, audit and log writes.
