# Pelicula: a verified model

Pelicula is a small server and command line over Sonarr, Radarr, Prowlarr, qBittorrent, gluetun and
Jellyfin. What it owns itself is a handful of text rewriters, a job queue with one worker, and a few
protocols around shared state. This project models those parts in Dafny and proves what their
comments and documentation promise: idempotence, round trips, single use, bounded waiting, and that
no file but the imported one is ever deleted.

`dafny verify dfyconfig.toml` checks everything.

## How the modules correspond to the program

| module | models |
|---|---|
| `Text` | the string functions of the Go library the rewriters use, and splitting into lines |
| `XmlPattern`, `XmlConfig` | `setXMLElement`, `enforceArrConfig` (cmd/pelicula/seed.go) and the key extraction of internal/config/config.go |
| `IniConfig` | `patchINIKey`, `enforceQBittorrentConf` (cmd/pelicula/seed.go) |
| `EnvFile` | the `.env` printer and parser (cmd/pelicula/env.go) |
| `Timestamps` | times as text, and the comparisons made on them (internal/store/store.go, internal/store/auth.go) |
| `Hooks`, `JobStore`, `Failure`, `Pipeline` | webhooks, the jobs table, the failure reaction, and the concurrent protocol of handlers, worker, crash and restart |
| `Autowire` | in-place patching of *arr resources to a fixed point, against an app that may drop and fill in fields, rewrite URLs, refuse, and lose replies (internal/autowire/arr.go) |
| `Invites` | redeeming invites under `regMu` (internal/auth/invites.go, internal/store/auth.go) |
| `JellyfinAdmin` | the cached administrator token (internal/clients/jellyfin) |
| `Requests` | the life of a media request (internal/api/requests.go, internal/api/arr.go, internal/store/requests.go) |
| `Fulfilment` | the job queue and the requests together: how a pass marks its requests available, and what a cut mark leaves |
| `Retry` | the retrying request loop (internal/httpx/client.go) |
| `Prelude`, `Json` | shared types, decoded JSON and the lenient readers applied to it |

Code that changes state in place is a class or a method with loops, proved against functions and
predicates; protocols are step systems, and their theorems quantify over every run. A run is a
sequence of states in which each event was enabled and led to the next state. I/O, clocks and the
network are parameters or arbitrary responders.

## Where the code and its documentation part

* A `.env` file is read back line by line with `bufio.Scanner`, which stops at a line of 64 KiB. The
  round trip therefore holds exactly when every written line fits (`EnvFile.RoundTrip`, and for example
  `EnvFile.TooLongToRead`).
* An optional key whose value is not empty but sanitises to empty is written as `KEY=""`, read back
  as empty, and commented out the next time: the one case where writing what was read is not
  stable (`EnvFile.Stability`, and for example `EnvFile.VanishingOptional`).
* `RFC3339Nano` trims trailing zeros, so inside one second the order of the texts can be the reverse
  of the order of the times. `Timestamps.TextOrder` says exactly when.
* The comment in `handleRegister` says a failing `UseInvite` "cannot happen" while the lock is held
  unless the invite was deleted. `Invites.UseMissesExactly` says when it misses: when the invite was
  deleted, when it has expired by the time `UseInvite` reads the clock (`Invites.ExpiredMeanwhile`: it
  may simply expire while the user is created), and in the expiry's last second, where `liveInvite`
  compares times and `UseInvite` compares texts. In the last case one code can create several users
  (`Invites.TwoUsersFromOneCode`).
* A name with a `#` or a second `export ` after `export ` is read from a `.env` file, but written as a
  comment or as another name; rewriting keeps the bindings exactly when no such line was read
  (`EnvFile.RewriteKeeps`).
* A passed job's requests are marked available in a step after the pass is committed. When a crash, a
  shutdown or an error cuts that step, no restart makes up for it: the requests stay approved until a
  retry of the job, or a later import of the item, passes and marks them, or until a later decision on
  them (`Fulfilment.WaitingAfterPass`, `Fulfilment.PassedStays`, `Fulfilment.RequestLeftApproved`).
* Each wire function is written to create an entry once, where none matches. A POST that the app stores
  and then answers with a 5xx is repeated, and that is exactly how more than one comes about: a successful
  run that creates leaves one entry and one more for each such reply (`Autowire.PostStores`,
  `Autowire.CreatesAtMostOne`; two entries in `Autowire.LateReplyDuplicates`).
* An approval that raced with another one can take an available request back to approved
  (`Requests.RacingApprovals`); exactly the commits that find another status than the handler had
  loaded do so (`Requests.AvailableLost`).

## Model

| member | source | states |
|---|---|---|
| XmlPattern.EscapeRoundTrip | cmd/pelicula/seed.go:25-27 | undoing the five entities gives the value back, for every value |
| XmlPattern.EscapeOne | cmd/pelicula/seed.go:25-27 | each of the five special characters becomes its entity, any other character itself |
| XmlPattern.EscapeAppend | cmd/pelicula/seed.go:25-27 | escaping goes character by character |
| XmlPattern.MatchExactly | cmd/pelicula/seed.go:44-46 | the pattern matches exactly `<tag>`, text without `<`, `</tag>`, and `<tag`, white space, `/>`, over their whole length |
| XmlPattern.ReplaceAllIsRewrite | cmd/pelicula/seed.go:46-48 | replacing all matches of a tag is the one-pass rewriting of that tag |
| XmlPattern.RewriteFusion | cmd/pelicula/seed.go:91-94 | two successive rewritings are one simultaneous rewriting in which the later value wins: no replacement creates, destroys or alters a match of another tag |
| XmlPattern.RewriteSplit | cmd/pelicula/seed.go:50-51 | rewriting a document is rewriting its two parts, when no match crosses the cut |
| XmlPattern.RootSplit | cmd/pelicula/seed.go:50-51 | replacements do not move the place before the last closing root tag, so later insertions go where they would have gone |
| XmlPattern.HitsRewrite | cmd/pelicula/seed.go:46-48 | after rewriting, the matches of any tag are the old ones in order, with only rewritten tags carrying new values |
| XmlConfig.SetAllIsOnePass | cmd/pelicula/seed.go:89-96 | setting the elements one after another equals one pass that rewrites the present ones and inserts the missing ones, for every document |
| XmlConfig.SettingsApplied | cmd/pelicula/seed.go:40-54 | after enforcing, every element of each tag carries the wanted value; there are as many as before, or one new one exactly when there was none and the closing root is there |
| XmlConfig.InsertSays | cmd/pelicula/seed.go:49-53 | an element that is missing is inserted, indented and on a line of its own, before the last closing tag of the root, or nowhere without one |
| XmlConfig.OthersKept | cmd/pelicula/seed.go:40-54 | the elements of every other tag are the same, in the same order |
| XmlConfig.LastValuesWin | cmd/pelicula/seed.go:86-96 | enforcing new values after old ones equals enforcing the new ones on the original document |
| XmlConfig.EnforceArrSettles | cmd/pelicula/seed.go:86-96 | `enforceArrConfig` is idempotent on every document, and a new URL base replaces the old one without trace |
| XmlConfig.ArrConfigReads | cmd/pelicula/seed.go:89-96 | every element of the four tags, wherever it stands in the enforced file, reads as wanted: the URL base, External, DisabledForLocalAddresses, False |
| XmlConfig.ArrConfigHas | cmd/pelicula/seed.go:89-96 | and there is one where there was one before, or where the file has the closing tag of the root |
| XmlConfig.CaptureFromHits | internal/config/config.go:82-99 | the key the server captures is determined by the sequence of `ApiKey` matches alone |
| XmlConfig.KeyRead | internal/config/config.go:82-99 | the key is the trimmed text of the first `<ApiKey>` element that is not empty; without one there is none |
| XmlConfig.ApiKeyKept | internal/config/config.go:84-99 | the API key read from the file, or its absence, is the same before and after enforcing |
| XmlConfig.ConfigFile.EnforceArrConfig | cmd/pelicula/seed.go:59-96 | the file's content becomes the enforced document; a missing file stays missing; nothing is written when nothing changes |
| XmlConfig.ConfigFile.EnforceTwice | cmd/pelicula/seed.go:86-96 | the second enforcement writes nothing |
| IniConfig.ScanSection | cmd/pelicula/seed.go:160-171 | the scan finds the first section header line and the first later section, over all lines |
| IniConfig.PatchIniKey | cmd/pelicula/seed.go:148-191 | said of the text of the lines: lines that begin with `key=` become `key=value`; without one, the line is inserted below `[section]` with no line that begins with `[` between, or `[section]` and the line are appended |
| IniConfig.OneMoreKey | cmd/pelicula/seed.go:204-213 | one more patch after a pass over some keys is the pass over those keys and this one |
| IniConfig.KeysSet | cmd/pelicula/seed.go:193-218 | after a pass every line of each key is `key=value`, and there is at least one |
| IniConfig.PassSettles | cmd/pelicula/seed.go:193-218 | a pass over a passed file changes nothing |
| IniConfig.OtherLinesSurvive | cmd/pelicula/seed.go:145-191 | all lines of other keys survive in order; the only other addition is the frame of a missing section |
| IniConfig.InsertedUnderSection | cmd/pelicula/seed.go:173-190 | an inserted line lies under the section's header with no other header between, in all three insertion cases (in the text's own terms in `IniConfig.PassSays`) |
| IniConfig.PassSays | cmd/pelicula/seed.go:148-213 | said of the text of the lines: every line stays in place with its key set, the lines of exactly the missing keys come together below `[section]`, and only a file without that line gets it, at its end |
| IniConfig.SettingOff | cmd/pelicula/seed.go:204-213 | each of the five settings has a line `key=false`, and no line sets it otherwise |
| IniConfig.PreferencesSay | cmd/pelicula/seed.go:204-213 | the lines that were missing stand below `[Preferences]`; a file that has it gets no other line |
| IniConfig.EnforceKeys | cmd/pelicula/seed.go:204-213 | the loop over the five keys is one pass |
| IniConfig.ConfFile.Enforce | cmd/pelicula/seed.go:196-218 | the file holds the pass over its old content; a missing file stays missing |
| IniConfig.ConfFile.EnforceTwice | cmd/pelicula/seed.go:193-218 | the second enforcement writes nothing |
| EnvFile.ParseEnv | cmd/pelicula/env.go:95-117 | the scan loop computes the bindings of the lines, the last one of a key winning, and reports a line that is too long |
| EnvFile.ValueSays | cmd/pelicula/env.go:119-129 | a value in two equal quotes is what they enclose; any other ends, trimmed, at the first blank that a `#` follows, or is taken whole |
| EnvFile.LineSays | cmd/pelicula/env.go:104-114 | a line `name=value`, with or without `export ` and white space around either part, binds the name to what the value says |
| EnvFile.FileSays | cmd/pelicula/env.go:92-117 | in every file whose lines fit, the last line that binds a name decides its value |
| EnvFile.LongLine | cmd/pelicula/env.go:102-116 | a line is too long exactly from 64 KiB on |
| EnvFile.RenderEnv | cmd/pelicula/env.go:148-183 | the builder holds the text of header, sections and sorted extra keys |
| EnvFile.LineWritten | cmd/pelicula/env.go:158-180 | every expected binding is written as a line `name="value"`, and an unset optional key as a comment with its default |
| EnvFile.SanitizeSays | cmd/pelicula/env.go:131-136 | exactly quotation marks, line feeds and carriage returns are dropped from a value |
| EnvFile.SortKeys | cmd/pelicula/env.go:169-176 | the extra keys come in ascending order, each once |
| EnvFile.SortedAscends | cmd/pelicula/env.go:176 | the order is strictly ascending in the order of `sort.Strings` |
| EnvFile.PlainKeyExact | cmd/pelicula/env.go:104-114 | parsing a printed binding gives exactly that binding if and only if the name is plain: trimmed, with no `=`, line break, leading `#` or `export ` prefix |
| EnvFile.OddLineExact | cmd/pelicula/env.go:104-114 | a line binds a name that is not plain exactly when, after an `export `, the name starts with `#` or with another `export ` |
| EnvFile.RewriteKeeps | cmd/pelicula/env.go:95-183 | for every file, reading, writing and reading again gives the bindings back (sanitised) if and only if they fit the scanner and no line that was read binds a name that is not plain |
| EnvFile.ExportedComment | cmd/pelicula/env.go:105-114 | a file of one such line, a name with a `#` after `export `: it is read, but the rewritten file is not read back as expected, and where it can be read the name is not in it |
| EnvFile.TooLongToRead | cmd/pelicula/env.go:103-116 | a value of 64 KiB is written and cannot be read back |
| EnvFile.VanishingOptional | cmd/pelicula/env.go:158-166 | an optional key set to a quotation mark changes the file on the second pass |
| EnvFile.RoundTrip | cmd/pelicula/env.go:95-183 | parsing the printed map gives exactly the sanitised values and empty layout keys, without the unset optional key, if and only if every line fits the scanner: nothing in a value, comment or divider adds or changes a key |
| EnvFile.Stability | cmd/pelicula/env.go:148-183 | printing what was parsed from a printed map reproduces the text if and only if no optional key vanishes |
| EnvFile.StableFromSecondPass | cmd/pelicula/env.go:158-166 | from the second pass on the text is stable in every case |
| EnvFile.EnvLayoutGood | cmd/pelicula/env.go:33-90 | the program's own layout meets what the round trip needs of a layout |
| EnvFile.EnvRoundTrip | cmd/pelicula/env.go:33-183 | so the round trip and stability hold for the program's layout and every map with plain names |
| Timestamps.FieldsOrderTime | internal/store/store.go:203 | comparing calendar fields is comparing instants, over the Gregorian calendar of years 0 to 9999 |
| Timestamps.GregorianYears | internal/store/store.go:203 | the calendar is the Gregorian one, in closed form |
| Timestamps.TextOrder | internal/store/store.go:203 | of two instants the earlier has the smaller text, except exactly when they share a second and its trimmed fraction is a prefix of the later one's |
| Timestamps.StampRoundTrip | internal/store/store.go:203-214 | a stored time is read back to the nanosecond (section 5.6 of RFC 3339), whatever the length of its fraction |
| Timestamps.SqlExpiredExactly | internal/store/auth.go:231-234 | the SQL test says expired exactly at or after expiry, but for the two cases in which the texts are in reverse order |
| Timestamps.ExpiryTests | internal/store/auth.go:142-149 | the SQL test and the Go test of expiry agree exactly outside that case |
| Timestamps.SqlExpiryWithinASecond | internal/store/auth.go:231-234 | the SQL test is wrong by less than one second, both ways |
| Timestamps.ExpiryDisagreement | internal/store/auth.go:144 | a concrete pair of times on which the two tests differ |
| Hooks.JobFromPayload | internal/api/hooks.go:88-122 | a payload is accepted exactly when it describes a job with a title id and a file path, and that job is returned |
| JobStore.Store.EnqueueJob | internal/store/jobs.go:63-86 | with no active job of the path one queued row is added under a fresh id, with the caller's fields, the time of creation and nothing else set; otherwise nothing changes and the newest active job's id is returned |
| JobStore.Store.FindActive | internal/store/jobs.go:64-74 | the SELECT of EnqueueJob finds the newest active job of the path, if there is one |
| JobStore.Store.ClaimNextJob | internal/store/jobs.go:90-114 | the least queued id becomes running with one more attempt and a new start time, its finish time and error cleared and the rest kept; or nothing changes when none is queued |
| JobStore.Store.FinishJob | internal/store/jobs.go:117-128 | the row gets its status, result, error and finish time and keeps the rest, whatever its status was |
| JobStore.Store.RequeueJob | internal/store/jobs.go:131-142 | only a finished row goes back to queued, its times cleared |
| JobStore.Store.ResetRunningJobs | internal/store/jobs.go:183-189 | no running row remains, every running row has joined the queued ones with its draft and attempts, and other rows are unchanged; the count is the number of rows that moved |
| JobStore.Store.PruneJobs | internal/store/jobs.go:192-199 | active rows stay, a finished row goes exactly when its text is earlier than the cut, rows that stay are unchanged; the count is the number of rows gone |
| JobStore.RowUpdates | internal/store/jobs.go:104-134 | queued and running rows have no finish time and finished ones have one; FinishJob keeps this exactly on rows that were handed out |
| JobStore.EnqueueDedupes | internal/store/jobs.go:60-62 | an INSERT keeps at most one active job per path exactly when the path has none at that moment |
| JobStore.RequeueDedupes | internal/store/jobs.go:131-142 | and a requeue exactly when no other active job has the path |
| JobStore.InterleavedEnqueuesDuplicate | internal/store/jobs.go:63-86 | callers that interleave SELECT and INSERT can leave two |
| JobStore.PruneWithinASecond | internal/store/jobs.go:192-199 | pruning by text is right for every job that finished in another second than the cut |
| Failure.PickGrab | internal/pipeline/failure.go:126-146 | the first record of the download, else the newest one by date and then id, else none |
| Failure.GrabUnique | internal/pipeline/failure.go:124-125 | that choice is unique |
| Failure.GrabSays | internal/pipeline/failure.go:126-146 | the same, said of the records' `downloadId`, `date` and `id` members |
| Failure.MarkStep | internal/pipeline/failure.go:108-122 | one history query, then a failure mark for the grab if it has a positive id |
| Failure.DeleteMovieStep | internal/pipeline/failure.go:40-59 | one lookup, then a deletion if and only if the movie's file has the job's path and a positive id |
| Failure.DeleteEpisodeStep | internal/pipeline/failure.go:80-97 | one listing, then a deletion of the first file with the job's path if its id is positive |
| Failure.HandleFailure | internal/pipeline/failure.go:18-105 | with a client for the job's type all three sub-steps are made in order whatever each met; the other client is not used |
| Failure.CallsAsk | internal/pipeline/failure.go:34-105 | every call of a reaction is about what was imported: the history of the movie, of the very episode when the job names one, of the series only when it does not; the same for lookups and searches; a failure mark goes to the grab just picked |
| Failure.CallsMade | internal/pipeline/failure.go:99-105 | the first sub-step asks for the history; the last one searches once, or not at all for an episode's job without an episode |
| Failure.DeletionMade | internal/pipeline/failure.go:40-97 | the file reported under the job's path, with a usable id, is deleted |
| Failure.DeletionsJustified | internal/pipeline/failure.go:14-17 | only the middle sub-step deletes, at most once, and only an id *arr reported under the job's own path |
| Failure.ReportedPath | internal/pipeline/failure.go:50 | with a non-empty job path a file without a path is never deleted |
| Pipeline.StepInv | internal/pipeline/worker.go:109-214 | every step of handlers, worker, shutdown, crash and restart keeps the invariant |
| Pipeline.OneRunning | internal/store/jobs.go:183-189 | in every reachable state at most one job is running |
| Pipeline.FinishesHit | internal/pipeline/worker.go:146-214 | each FinishJob the worker issues ends a running row, the very claim it holds, not ended before; the row has passed exactly when validation did, and holds the result, the error and the time |
| Pipeline.AttemptsBalance | internal/store/jobs.go:90-142 | attempts of a row are its ended claims, its resets, and the claim that is running; queued and running rows have no finish time, finished ones have one |
| Pipeline.AttemptsAreClaims | internal/store/jobs.go:104-106 | attempts equal the claims of the row counted over the run, and no claim is ended twice |
| Pipeline.NoLostWakeup | internal/pipeline/worker.go:101-142 | between a claim that found the queue empty and the end of `wait`, a non-empty queue means a kick is in the channel or a handler has committed and will kick |
| Pipeline.DeletionsSafe | internal/pipeline/failure.go:14-105 | over every run with crashes, each deletion names a file reported under the non-empty path the job was enqueued with, and its claim was approved |
| Pipeline.OneDeletionPerClaim | internal/pipeline/failure.go:14-105 | at most one file is deleted per claim |
| Pipeline.ReactionAsks | internal/pipeline/failure.go:34-105 | over every run, each logged call is about the title and episode the job was enqueued with |
| Pipeline.ApprovedBy | internal/pipeline/worker.go:209-213 | an approved claim goes back to an auto-blocklist read that returned true |
| Pipeline.FailedBy | internal/pipeline/worker.go:175-208 | and to a validation that returned a failure while the context was alive |
| Pipeline.ShutdownStops | internal/pipeline/worker.go:111-127 | after a shutdown, until the process dies, no validation counts any more and at most the claim under way is made |
| Pipeline.ReactionComplete | internal/pipeline/worker.go:216-227 | a reaction that ends has made all three sub-steps: one that returns an error or panics is left by `step`'s recovery for the next one |
| Pipeline.NothingLost | internal/store/jobs.go:192-199 | an enqueued job keeps what it was enqueued with and leaves the table only by a prune that finds it finished |
| Pipeline.BoundedWaiting | internal/store/jobs.go:97 | while a job waits, jobs ahead plus claims made equal the jobs once ahead plus smaller ids requeued or reset; enqueues, finishes and prunes never set it back |
| Pipeline.StepDedupes | internal/store/jobs.go:60-86 | of all steps exactly a late INSERT and a retry of a path with an active job break the deduplication |
| Pipeline.DuplicatedBy | internal/store/jobs.go:60-86 | two active jobs of one path in a run go back to the first such step |
| Pipeline.NextInLine | internal/store/jobs.go:97 | with nothing ahead the next claim is this job's |
| Autowire.Resource.FieldValue | internal/autowire/arr.go:43-51 | the loop returns the value of the first field of the name, or none |
| Autowire.Resource.SetField | internal/autowire/arr.go:53-62 | the first field of the name gets the value, or a field is appended |
| Autowire.LookupPut | internal/autowire/arr.go:43-62 | what was set is read back, and every other name reads as before |
| Autowire.Resource.ReconcileFields | internal/autowire/arr.go:75-87 | afterwards every wanted field is as wanted; drift says whether one was not; other members, and all of a field but the value of a wanted one, are untouched |
| Autowire.Resource.ReconcileFlag | internal/autowire/arr.go:90-96 | the flag reads as wanted, drift says whether it did not, and nothing else changes |
| Autowire.Resource.HeaderSecret | internal/autowire/arr.go:300-311 | the loop returns the value of the first matching header |
| Autowire.SecretFirst | internal/autowire/arr.go:300-311 | the secret is the value of the first header called X-Webhook-Secret, case folded, or empty |
| Autowire.StoredKeeps | internal/autowire/arr.go:64-71 | an entry that is as wanted when sent is as wanted when stored, though the app may drop optional fields, add members, fill in defaults and rewrite URLs |
| Autowire.WireRootFolder | internal/autowire/arr.go:123-139 | the same exchange as for the download client, with paths compared without trailing slashes; success means a matching folder exists, and nothing is sent when there was one |
| Autowire.WireDownloadClient | internal/autowire/arr.go:148-209 | one listing decides the run: an error ends it; a first match that is as wanted is left alone with success; one that is not is sent back as wanted under its id, and the reply is the result, or without an id the run fails; without a match the payload is posted and its reply is the result. Success means the first qBittorrent entry is as wanted, and no other entry changes |
| Autowire.WireImportWebhook | internal/autowire/arr.go:215-292 | the same for the webhook, its flags and its secret header |
| Autowire.PatchWebhook | internal/autowire/arr.go:232-249 | the patched entry is as wanted, differs from the listed one only in what is wanted, and drift says whether it was not |
| Autowire.GoodClient | internal/autowire/arr.go:154-162 | as wanted means: host gluetun, port 8080, no TLS, and the category under every name it appears by |
| Autowire.GoodWebhook | internal/autowire/arr.go:232-249 | as wanted means: the URL, POST, the secret header, and both flags |
| Autowire.GoodApplication | internal/autowire/arr.go:334-350 | as wanted means: both URLs up to normalisation, and the key |
| Autowire.ClientPayloadSays | internal/autowire/arr.go:186-203 | what is posted for a download client, read back by name |
| Autowire.WebhookPayloadSays | internal/autowire/arr.go:276-286 | what is posted for the webhook, and which flags are off |
| Autowire.WebhookFieldsSay | internal/autowire/arr.go:265-275 | its fields, with the secret header exactly when there is a secret |
| Autowire.AppPayloadSays | internal/autowire/arr.go:364-374 | what is posted for the application, read back by name |
| Autowire.WireProwlarrApp | internal/autowire/arr.go:315-380 | the same for the Prowlarr application; without a key nothing is sent and it fails |
| Autowire.SucceedsExactly | internal/autowire/arr.go:123-380 | a run succeeds if and only if it was answered with success throughout and the first match, if it has drifted, has an id |
| Autowire.RepairedForGood | internal/autowire/arr.go:123-380 | over any runs, from any app, the first such run leaves the entry as wanted, and it stays so |
| Autowire.Converges | internal/autowire/arr.go:123-380 | over any number of runs, after a successful one nothing is sent and nothing changes |
| Autowire.CreatesAtMostOne | internal/autowire/arr.go:123-380 | however many runs fail or lose replies, matching entries are created only where none was, one at most and one more for each POST the app answered with a 5xx after storing it (which the client repeats) |
| Autowire.Server.Add | internal/httpx/client.go:204-233 | the attempts of one POST, each but the last one to repeat; the app's list grows by exactly what they stored |
| Autowire.PostStores | internal/httpx/client.go:204-265 | a POST stores its body at most once and once more for each late 5xx, and exactly that often if it succeeds |
| Autowire.LateReplyDuplicates | internal/autowire/arr.go:123-380 | for every kind and every app without a matching entry, one late 5xx and then a 200 leave two |
| Autowire.OthersUntouched | internal/autowire/arr.go:123-380 | entries that do not match stay as they were |
| Invites.StepInv | internal/auth/invites.go:147-205 | every step of registration, revocation, new invites and clock keeps the accounting of creations |
| Invites.CreationsBounded | internal/auth/invites.go:147-205 | a code creates at most one user, plus one per UseInvite that returned a store error, missed by a skewed comparison or was never reached |
| Invites.OneUserPerInvite | internal/auth/invites.go:119-131 | with comparisons that agree the bound is one plus store errors and aborts |
| Invites.SingleUse | internal/store/auth.go:227-246 | a code is redeemed at most once in every run |
| Invites.UseMissesExactly | internal/auth/invites.go:195-200 | in every run UseInvite misses if and only if the invite was deleted, or has expired by the clock it read outside the reversed case, or is in the reversed case before expiry; never because the code was used |
| Invites.SkewExactly | internal/store/auth.go:231-234 | the UPDATE misses an unused invite that has not expired exactly in the reversed case of one second |
| Invites.ExpiredMeanwhile | internal/auth/invites.go:186-202 | for any code, and any times that end a second or more past the expiry, a run in which the invite expires while its user is created: one user, no skew, no deletion, and the row stays unused |
| Invites.TwoUsersFromOneCode | internal/auth/invites.go:186-202 | a run without store errors in which one code creates two users |
| JellyfinAdmin.Admin.Token | internal/clients/jellyfin/admin.go:37-49 | a cached token is returned without a login; otherwise one login as DeviceServer, cached exactly when it succeeds |
| JellyfinAdmin.Admin.WithToken | internal/clients/jellyfin/admin.go:60-74 | the function is called at most twice, first with the cached token or that of a new login, again only after Unauthorized and with a new live token; a token that worked stays cached, without a login if it was cached before; the result is the last call's or a failed login's |
| JellyfinAdmin.CachedTokenLives | internal/clients/jellyfin/admin.go:28-34 | in every run that keeps the device rule a cached token is live and belongs to the administrator on DeviceServer, the administrator's own dashboard logins included |
| JellyfinAdmin.DashboardUseRevokes | internal/clients/jellyfin/client.go:23-30 | one request with the token from the dashboard's device is enough to have it revoked |
| Requests.AddToArr | internal/api/arr.go:51-144 | the exchange determines the result, an id that is not zero or an error: a search for a known title, or an addition with exactly the lookup's copied members, the title's id, the first profile and the configured folder |
| Requests.ExchangeSays | internal/api/arr.go:51-144 | an exchange that came to an id looked the title up and found it with that id and searched for it, or without one and added it; nothing else is ever added |
| Requests.MoviePayload | internal/api/arr.go:81-87 | what is posted for a movie, member by member |
| Requests.SeriesPayload | internal/api/arr.go:128-134 | what is posted for a series, member by member |
| Requests.FirstProfileID | internal/api/arr.go:147-158 | the id of the first profile that has one, none listed before it having one; an error exactly when the listing failed or none has |
| Requests.CopyKeys | internal/api/arr.go:161-169 | exactly the non-null members under the keys |
| Requests.HandleCreate | internal/api/requests.go:74-113 | a title with an open request is refused; otherwise one row is added: approved with the id its own exchange with *arr came to, pending exactly when that came to none or was not asked for |
| Requests.HandleApprove | internal/api/requests.go:137-163 | a pending or declined request becomes approved with the non-zero id of its own exchange with *arr, or nothing changes; Failure exactly reports an exchange that came to no id |
| Requests.HandleDecline | internal/api/requests.go:165-194 | a pending request becomes declined and keeps its id, or nothing changes |
| Requests.Store.UpdateRequestStatus | internal/store/requests.go:123-136 | one row changes; an id of 0 leaves the old one |
| Requests.Store.MarkRequestsAvailable | internal/store/requests.go:141-154 | exactly the approved requests of the item, series for sonarr and movies otherwise, become available, and nothing else changes; the count is the growth of the available ones |
| Requests.ApprovedHasId | internal/api/requests.go:96-107 | under every interleaving an approved or available request has a non-zero *arr id |
| Requests.IdStays | internal/store/requests.go:123-136 | an *arr id once known never returns to 0, and a request keeps its title |
| Requests.StepRow | internal/api/requests.go:148-188 | a row leaves the life cycle only by a commit that finds another status than was loaded |
| Requests.AvailableIsFinal | internal/api/requests.go:146-151 | without such commits available is final and every change follows the life cycle |
| Requests.AvailableLost | internal/api/requests.go:146-163 | exactly those commits take an available request back |
| Requests.StepAwaits | internal/store/requests.go:138-154 | after a step a request awaits an item's file exactly if the step approved it for the item, or it did before and the step neither marked the item nor committed the request to something else |
| Fulfilment.StepInv | internal/pipeline/worker.go:186-202 | the job queue and the requests side by side keep both invariants, over commits of passes, marks, cut marks, crashes and restarts |
| Fulfilment.History | internal/store/requests.go:138-154 | in every reachable state a request is approved for an item exactly when an approval of it for the item still stands |
| Fulfilment.WaitingAfterPass | internal/pipeline/worker.go:187-202 | over every run, after a committed pass whose mark has ended, a request is approved for the pass's item if and only if an approval of it stands that came after the mark, or that came before a mark that was cut |
| Fulfilment.NoneWaiting | internal/pipeline/worker.go:192-198 | a mark that is made leaves no approved request of the item until one is approved again; a cut mark leaves exactly those there were |
| Fulfilment.PassedStays | internal/store/jobs.go:183-189 | over every run, from the commit of a pass on, the job stays passed until a prune or a retry of it: no crash or restart requeues it to make up for a cut mark |
| Fulfilment.RequestLeftApproved | internal/pipeline/worker.go:188-198 | a run in which a crash between the pass and its mark leaves a request approved, with its job passed and nothing queued |
| Requests.RacingApprovals | internal/api/requests.go:137-163 | a run in which two approvals race and an available request becomes approved again |
| Retry.Once | internal/httpx/client.go:236-265 | one attempt and its result; it is worth another one exactly for a status of 500 or more, or for an error as the method allows |
| Retry.RepeatsExactly | internal/httpx/client.go:47-53 | exactly a complete 5xx is repeated for every method, and an error that is neither a cancellation nor a timeout for an idempotent one, or when it is a failed dial; a 4xx never is |
| Retry.Send | internal/httpx/client.go:204-233 | every attempt but the last was a 5xx or an error the method may repeat, so a reply below 500, a cancellation or a timeout is the last attempt; a 5xx is the last one only when the attempts are used up; the result is the last attempt's or the context's error; total backoff is bounded |
| Retry.TotalBackoff | internal/httpx/client.go:205-222 | the doubled 64-bit delays add up to at most delay times 2^(n-1)-1, overflow or not |
| Retry.DoublesSays | internal/httpx/client.go:207-222 | each wait is twice the one before, in 64 bits |

## Left out

- HTTP routing, JSON text, cookies, CSRF, nginx, compose files and the dashboard: plumbing or user interface.
- SQLite, the file system, ffprobe, docker and the network: tables are maps changed by atomic statements, upstreams are arbitrary responders.
- The regexp engine and invalid UTF-8: the patterns are explicit matchers on characters.
- `completeEnv`, `validateEnv`, wizard prompts, platform detection and the atomic replacement in `WriteEnv`: single branches or library behaviour.
- The wording of the `.env` comments: the layout's comments are a parameter, its keys and optional key are the program's.
- EnvFile.ParseEnv: works on the file's content, so errors of opening and reading the file are not modelled.
- Timestamps.StampRoundTrip: covers the texts `ts` writes; other zone offsets that `time.Parse` accepts are not modelled.
- Widths of ids and of float to integer conversion: ids are unbounded integers, and out-of-range JSON numbers are not modelled.
- The debounce timer of the library refresh, the status cache, `SetListenPort`, search interleaving and settings: one branch each.
- Pipeline.FinishesHit: store statements succeed, except those made under a cancelled context, a claim that fails, and a request that dies before its INSERT; panics inside store calls are not modelled.
- Pipeline.AttemptsBalance: a start whose `ResetRunningJobs` fails is not modelled.
- Uniqueness of open requests per title under concurrency: the code checks and then inserts, and does not promise it.
- Failure.PickGrab: case folding and date parsing are parameters.
- Autowire.Converges: no other writer changes the app between runs, and `normalizeURL` is an arbitrary function.
- Autowire.Server.Add: the app appends new entries to its list; the waits between repeated POSTs are those of `Retry.Send`.
- Invites.CreationsBounded: codes are taken to be unique and the clock monotone.
- JellyfinAdmin.CachedTokenLives: a session ended by Jellyfin itself or by an operator is not modelled; `WithToken` is there for that.
- JellyfinAdmin.Admin.WithToken: two callers at once are not modelled; one may then meet a token the other has just replaced.
- Requests.HandleCreate: validation of the body and failing store statements are not modelled.
- Retry.Send: a redirect inside one attempt is part of that attempt.
- Redaction and random secrets: not correctness cores.
