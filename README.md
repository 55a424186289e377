# Scrapify core, modelled in Dafny

Scrapify takes an uploaded video and turns it into a study guide. A worker
processes each task through four stages, in a fixed order:

1. Media Processing: frame snapshots and the audio track, extracted in parallel.
2. Grid Generation: the snapshots composed into grid images of 5 x 4 thumbnails.
3. Transcription: the audio transcribed by a generative model.
4. Study Guide Generation: the guide generated from the transcript and the first grid.

The task record is saved to a JSON status store at every step, so a client
polling the task sees each stage appear as `processing` and then become
`completed` or `failed`.

The project models the parts of that pipeline that hold its logic:

- `worker.dfy` (module `Worker`) covers `processTask`, the per-task state machine. Class `TaskRun` is the environment the `addStage`/`finishStage` closures share: the task, the store, the clock and a ghost log of every snapshot handed to the store. `ProcessTask` takes the outcome of each stage's work as a parameter. It proves that:
  - every saved snapshot is consistent;
  - stages are only appended, in order;
  - the first failure ends the run;
  - the task is completed, with its result, exactly when every stage succeeded.
- `storage.dfy` (module `Storage`) covers `SaveTask` (upsert by id) and `GetTask` (linear scan) over the decoded collection, with read and write failures as explicit outcomes.
- `gemini.dfy` (module `Gemini`) covers:
  - the clean-up of a model reply: `strings.TrimSpace`, then one leading "```json" removed, then one trailing "```" removed;
  - the per-candidate, per-part loop that decodes every text part over the value so far and stops at the first failure.
- `grid.dfy` (module `Grid`) covers `CreateGrid`:
  - the cap of 20 tiles;
  - row-major placement in 200 x 120 tiles on a 1000 x 480 canvas;
  - the loop that draws each opened image into a canvas array and stops at the first image that does not open.
- `media.dfy` (module `Media`) covers `GenerateSnapshots`: its error branches in order, and the filter that keeps the non-directory entries whose `filepath.Ext` is ".jpg", joined to the output directory.
- `Worker.Consistent` is the invariant every saved snapshot keeps:
  - at most four stages, named in the fixed order;
  - no stage pending, and all but the last completed;
  - only a failed stage carries an error text;
  - the task is failed exactly when its last stage failed;
  - the task is completed exactly when it has a result, which requires four completed stages;
  - createdAt ≤ updatedAt.
- `models.dfy` and `wrappers.dfy` hold the task and study-guide records and the `Option`/`Result` types.

Where the code and its intended behaviour differ, the model follows the code:

- Media stage: the stage fails with the first error received and does not wait for the other half (`internal/service/worker.go:95-100`). `JoinMedia` models this with the arrival order as a parameter.
- `addStage` does not refresh `UpdatedAt`; only `finishStage` and completion do. `WithNewStage` states that `UpdatedAt` is unchanged.
- "Completed ⇔ result present ⇔ every stage completed" holds for the settled task, not for every saved snapshot. After `finishStage` succeeds, the saved snapshot has all its stages completed while the task is still processing. `Consistent` states the snapshot invariant; `SettledTask` states the settled one.
- Stage error text: a stage that is not failed has an empty error text, but a failure whose error text is empty leaves a failed stage with an empty error.
- The result carries a single grid path (`ImagePath: grids[0]`, `internal/service/worker.go:138`), and the guide is generated from that one grid. The record type in `pkg/models/study_guide.go:41` declares a list `ImagePaths`; the model follows the worker.
- Empty grid list: on an empty list `grids[0]` (`internal/service/worker.go:125`) is a Go panic. `ProcessTask` reports it as `panicked`, with the guide stage left saved as processing.

## Model

| member | source | states |
|---|---|---|
| Worker.SettledTask | internal/service/worker.go:132-141 | For a consistent task that is no longer processing: completed ⇔ result present ⇔ four stages, all completed. A failed task has no result and its last stage failed. |
| Worker.Begun | internal/service/worker.go:46-47 | Marking a fresh task processing gives a consistent snapshot with no stages. |
| Worker.WithNewStage | internal/service/worker.go:51-60 | addStage appends exactly one stage: the next name in the order, processing, started now. Earlier stages are unchanged. The result is consistent, the task stays processing and UpdatedAt is not refreshed. |
| Worker.AppendedStageOk | internal/service/worker.go:51-57 | Appending the next stage, in progress, after completed stages keeps every stage well formed. |
| Worker.WithFinishedStage | internal/service/worker.go:62-73 | finishStage sets the running stage's duration to end − start and refreshes UpdatedAt; earlier stages, name and start are unchanged. With an error, the stage and the task are failed and the stage carries the error text. Without one, the stage is completed and the task stays processing. The result is consistent. |
| Worker.Finalized | internal/service/worker.go:132-140 | After four completed stages the task becomes completed with exactly the given result, stages unchanged, and stays consistent. |
| Worker.CompletedThroughLast | internal/service/worker.go:62-73 | In a consistent task whose last stage completed, every stage is completed. |
| Worker.NewStageExtends | internal/service/worker.go:51-60 | The snapshot after addStage extends the one before: same task, stages only appended, finished stages unchanged. |
| Worker.FinishedStageExtends | internal/service/worker.go:62-73 | The snapshot after finishStage extends the one before in the same sense. |
| Worker.LogOkSnoc | internal/service/worker.go:49-141 | Saving a consistent snapshot that extends the last saved one keeps the whole sequence of saves valid. |
| Worker.LogOkEverywhere | internal/service/worker.go:49-141 | In a valid sequence of saves, every saved snapshot is consistent and each one extends the one saved before it. |
| Worker.LogSameTask | internal/service/worker.go:49-141 | All snapshots in a valid sequence of saves have the id and creation time of the first one. |
| Worker.LayoutKept | internal/service/worker.go:51-60 | A later save does not disturb the record of an earlier stage having been saved while running. |
| Worker.LayoutAddStage | internal/service/worker.go:51-60 | After addStage the new stage has been saved in progress (snapshot 2i+1 ends with stage i, processing), and the count of saves stays 1 + 2 per stage. |
| Worker.LayoutFinishStage | internal/service/worker.go:62-73 | finishStage adds exactly one save and keeps every earlier in-progress save. |
| Worker.LayoutFinalized | internal/service/worker.go:132-141 | Completion adds the one final save and keeps every earlier in-progress save. |
| Worker.SavesKeepIdsUnique | internal/service/storage.go:32-45 | Any sequence of saves keeps ids unique in the store. |
| Worker.PollSeesSave | internal/service/storage.go:23-61 | A lookup after a save that reached the file returns exactly that snapshot. |
| Worker.SavesKeepOtherTasks | internal/service/storage.go:33-43 | Saves of one task leave every other id's lookup unchanged. |
| Worker.StoredAreSnapshots | internal/service/storage.go:32-45 | Every record in the store after a sequence of saves was there before or is one of the saved snapshots, so a poller never sees a partial record. |
| Worker.ApplySaves | internal/service/worker.go:49-141 | The store after a sequence of saves: each SaveTask call of processTask applied in turn, each with its own I/O outcome. SavesKeepIdsUnique, PollSeesSave, SavesKeepOtherTasks and StoredAreSnapshots state what it keeps. |
| Worker.JoinMedia | internal/service/worker.go:95-101 | The media stage's error is None exactly when both the snapshot and audio halves succeeded. Otherwise it is one of their errors, and when both failed it is the one that arrived first. |
| Worker.PanicFollows | internal/service/worker.go:123-125 | When the grid list is empty, the first three stages completed and the guide stage is still running, the task that stops at grids[0] matches StagesFollow with panicked set. That includes the guide stage being left as processing. |
| Worker.TaskRun.constructor | internal/service/worker.go:46-49 | The task is marked processing at clock reading 0 and the start time is reading 1; the next reading is 2. Exactly one snapshot is saved. |
| Worker.TaskRun.Persist | internal/service/worker.go:49 | One SaveTask call: the snapshot is appended to the log and the store becomes what the saves leave; its error is dropped. |
| Worker.TaskRun.AddStage | internal/service/worker.go:51-60 | The task becomes WithNewStage of the old one at the next clock reading and is saved once; the run stays valid. |
| Worker.TaskRun.FinishStage | internal/service/worker.go:62-73 | The task becomes WithFinishedStage of the old one at the next two clock readings and is saved once; the run stays valid. |
| Worker.TaskRun.Complete | internal/service/worker.go:132-141 | The task becomes Finalized with total time = reading − start time, and is saved once. |
| Worker.TaskRun.RunStage | internal/service/worker.go:51-73 | One stage is addStage then finishStage with the stage's outcome, and uses three clock readings. |
| Worker.TaskRun.RunStages | internal/service/worker.go:77-111 | From a task with no stages, the final task satisfies StagesFollow for the given outcomes. When it completes, its total time runs from the start time to the twelfth reading after this point, and the next reading is its update time. |
| Worker.TaskRun.GridStage | internal/service/worker.go:104-111 | Once media completed, the grid stage completes exactly when the grids were made and otherwise carries their error; the final task satisfies StagesFollow. When it completes, its total time ends at the ninth reading after this point. |
| Worker.TaskRun.LaterStages | internal/service/worker.go:113-120 | Once media and grids completed, the final task satisfies StagesFollow. When it completes, its total time ends at the sixth reading after this point. |
| Worker.TaskRun.GuideStage | internal/service/worker.go:122-125 | Once three stages completed, the guide stage is appended. An empty grid list ends the run there (the panic), with that stage left processing; StagesFollow holds either way. When it completes, its total time ends at the third reading after this point. |
| Worker.TaskRun.FinishGuide | internal/service/worker.go:126-141 | The guide stage finishes with its outcome; on success the task is completed with result (transcription, guide, grids[0]), with its total time ending at the second reading after this point. |
| Worker.ProcessTask | internal/service/worker.go:45-142 | The first save is the task marked processing with no stages. Every stage was saved while running, before its work. All saves are of this task, every saved snapshot is consistent and extends the one before. The store holds what the saves leave; a poller sees the final task when the last save succeeded; other tasks are untouched. StagesFollow: each stage completes exactly when its work succeeded and otherwise carries that error; no stage follows a failure. Completed ⇔ every outcome succeeded and the grid list is non-empty. Then the result is (transcription, guide, grids[0]), TotalTime is the time from the start reading (1) to the reading at completion (14), and UpdatedAt is reading 15. On the panic the guide stage stays processing. |
| Storage.Find | internal/service/storage.go:57-62 | GetTask's scan: the first record with the id, or none. SaveThenFind and SaveKeepsOtherLookups state how a save changes it. |
| Storage.Upsert | internal/service/storage.go:32-43 | SaveTask's insert-or-replace: the first record with the id is replaced in place, otherwise the task is appended. UpsertReplaces, UpsertAppends, UpsertKeepsOthers, UpsertKeepsIdsUnique, UpsertIdempotent and UpsertRecords characterise it. |
| Storage.ApplySave | internal/service/storage.go:27-45 | What one SaveTask call leaves in the file: the upsert when the read and the write succeed, the collection unchanged otherwise. |
| Storage.IndexOf | internal/service/storage.go:33-39 | The scan finds the first record with the id. None exactly when no record has it. |
| Storage.UpsertReplaces | internal/service/storage.go:32-39 | Saving a stored id replaces that record at its index; the length and every other record are unchanged. |
| Storage.UpsertAppends | internal/service/storage.go:41-43 | Saving a new id appends the record at the end. |
| Storage.UpsertKeepsOthers | internal/service/storage.go:33-43 | Records with another id keep their value and position. |
| Storage.SaveThenFind | internal/service/storage.go:23-61 | Last write wins: a lookup of the saved id returns the saved record. |
| Storage.SaveKeepsOtherLookups | internal/service/storage.go:33-43 | A save changes no lookup of another id. |
| Storage.UpsertKeepsIdsUnique | internal/service/storage.go:32-45 | Unique ids stay unique after a save. |
| Storage.UpsertIdempotent | internal/service/storage.go:32-45 | Saving the same record twice leaves what saving it once leaves. |
| Storage.UpsertRecords | internal/service/storage.go:32-43 | Every stored record after a save was there before or is the saved one. |
| Storage.StatusStore.constructor | internal/service/storage.go:15-21 | A missing file opens as an empty collection. |
| Storage.StatusStore.SaveTask | internal/service/storage.go:23-46 | A read failure returns its error and changes nothing. A write failure returns its error and the collection stays as it was. Otherwise the collection becomes the upsert and no error is returned. |
| Storage.StatusStore.GetTask | internal/service/storage.go:48-63 | A read failure returns its error. Otherwise it returns the first record with the id, or no record and no error when the id is absent. |
| Gemini.IsSpace | internal/service/gemini.go:51 | The characters unicode.IsSpace accepts: tab, newline, vertical tab, form feed, carriage return, space, U+0085, U+00A0 and the Unicode space separators. |
| Gemini.TrimSpace | internal/service/gemini.go:51 | strings.TrimSpace: leading white space removed, then trailing. TrimSpacePadded states what it returns for a padded text. |
| Gemini.TrimLeftSpace | internal/service/gemini.go:51 | Leading-space removal gives the longest suffix that does not start with Unicode white space; everything removed is white space. |
| Gemini.TrimRightSpace | internal/service/gemini.go:51 | Trailing-space removal gives the longest prefix that does not end with white space; everything removed is white space. |
| Gemini.TrimPrefix | internal/service/gemini.go:52 | strings.TrimPrefix leaves a suffix of its input. |
| Gemini.TrimSuffix | internal/service/gemini.go:53 | strings.TrimSuffix leaves a prefix of its input. |
| Gemini.TrimSpacePadded | internal/service/gemini.go:51 | Trimming white space around a text with non-space ends gives back that text. |
| Gemini.CleanJson | internal/service/gemini.go:51-53 | The cleaned text is a contiguous slice of the reply and no longer than it. |
| Gemini.CleanIsSlice | internal/service/gemini.go:51-53 | Trim, then prefix removal, then suffix removal leaves a slice of the original text. |
| Gemini.CleanUnfenced | internal/service/gemini.go:51-53 | A reply with neither fence after trimming comes out only trimmed. |
| Gemini.CleanUnwrapsFence | internal/service/gemini.go:51-53 | "```json" + body + "```", with any white space around it, cleans to exactly body. |
| Gemini.CleanKeepsBareFence | internal/service/gemini.go:52 | A leading bare "```" not followed by "json" stays in place. |
| Gemini.PrefixRemoved | internal/service/gemini.go:52 | TrimPrefix removes a present prefix exactly once. |
| Gemini.SuffixRemoved | internal/service/gemini.go:53 | TrimSuffix removes a present suffix exactly once. |
| Gemini.Flatten | internal/service/gemini.go:48-49 | The parts of every candidate, candidate by candidate, in the order the two loops visit them. |
| Gemini.Step | internal/service/gemini.go:50-57 | One part: a non-text part leaves the value; a text part is cleaned and decoded over the value so far, and a decode error becomes the formatted error. |
| Gemini.Parsed | internal/service/gemini.go:47-60 | The parse of a reply: Step over the flattened parts from the zero value, stopping at the first error. ParseCandidates is proved equal to it, and the Parsed* lemmas state its properties. |
| Gemini.ParseError | internal/service/gemini.go:56 | The error text "failed to parse <what> JSON: <err>, content: <cleaned text>", with <what> "transcription" (line 56) or "study guide" (line 94). |
| Gemini.ParsedStopsAtFailure | internal/service/gemini.go:54-57 | Once a part fails to decode, later parts change nothing: the first error is the reply's error. |
| Gemini.ReplyStopsAt | internal/service/gemini.go:48-57 | A failure inside candidate i is the failure of the whole reply. |
| Gemini.ParsedWithoutText | internal/service/gemini.go:47-62 | A reply with no text parts yields the zero value (empty transcription or zero guide) with no error. |
| Gemini.ParsedFailsOnlyOnText | internal/service/gemini.go:50-57 | A failed parse fails at a text part, the first one whose decoding fails. |
| Gemini.ParseCandidates | internal/service/gemini.go:47-62 | The candidate loop returns the left-to-right decode of all parts of all candidates, stopping at the first failure with the error "failed to parse … JSON: …, content: …". |
| Gemini.ParseParts | internal/service/gemini.go:49-59 | The part loop of one candidate continues the parse so far over its parts. Non-text parts are skipped, and a decode failure returns the formatted error. |
| Gemini.TranscribeAudio | internal/service/gemini.go:29-63 | A read or call failure returns that error. Otherwise the result is the parse of the reply from an empty transcription. |
| Gemini.GenerateStudyGuide | internal/service/gemini.go:65-101 | A read or call failure returns that error. Otherwise the result is the parse of the reply from the zero guide. |
| Grid.TileCount | internal/service/image.go:24-27 | min(n, 20) tiles are placed: never more than 20 or than n, and paths beyond the 20th are ignored. |
| Grid.TileRect | internal/service/image.go:39-42 | The rectangle of image i: column i % 5, row i / 5, 200 x 120. TileInCanvas, TileContains and TilesDisjoint state its properties. |
| Grid.TileAt | internal/service/image.go:39-42 | The row-major index of the tile a canvas point lies in; TileContains shows it is the tile whose rectangle holds the point. |
| Grid.Drawn | internal/service/image.go:43 | The canvas after the first tiles are drawn: a point of a drawn tile holds the pixel of that image at its offset in the thumbnail, any other point is blank. |
| Grid.OpenError | internal/service/image.go:34 | The error text for an image that does not open: "failed to open image <path>: <err>". |
| Grid.SaveError | internal/service/image.go:47 | The error text for a failed save: "failed to save grid image: <err>". |
| Grid.TileInCanvas | internal/service/image.go:29-42 | Each of the 20 tiles is a full 200 x 120 rectangle inside the 1000 x 480 canvas. |
| Grid.TileContains | internal/service/image.go:39-42 | Image i goes to column i % 5, row i / 5: a canvas point is in tile i's rectangle exactly when its row-major tile index is i. |
| Grid.TilesDisjoint | internal/service/image.go:39-42 | Distinct tiles never share a point. |
| Grid.FirstOpenFailure | internal/service/image.go:31-35 | The first path that does not open, with every earlier one opening. None exactly when all open. |
| Grid.FirstFailureAt | internal/service/image.go:31-35 | The path where the in-order loop stops is the first failure. |
| Grid.CreateGrid | internal/service/image.go:17-51 | The canvas is 1000 x 480. If one of the first min(n, 20) paths does not open, the error names the first such path, and nothing is saved. Otherwise every canvas point holds the pixel of the tile it belongs to (or blank), and the only error is the save's. |
| Grid.EmptyGridIsBlank | internal/service/image.go:24-29 | With no paths the saved canvas is entirely blank. |
| Media.Ext | internal/service/media.go:35 | filepath.Ext is the suffix of the name from its final dot, with no dot or separator after it. It is empty exactly when every dot of the name has a separator after it, that is, when the last path element has no dot. |
| Media.JpgExtension | internal/service/media.go:35 | The extension is ".jpg" exactly when the name ends in ".jpg" (so ".JPG" and ".jpeg" are excluded). |
| Media.ExtGrows | internal/service/media.go:35 | A character that is neither a dot nor a separator extends a non-empty extension. |
| Media.Join | internal/service/media.go:36 | filepath.Join of the output directory and one entry name, without Clean. |
| Media.IsSnapshot | internal/service/media.go:35 | The filter: an entry that is not a directory and whose extension is ".jpg". |
| Media.Kept | internal/service/media.go:33-38 | The entries the loop keeps, in listing order; KeptIsSubsequence, KeptAreSnapshots and SnapshotsAreKept characterise it. |
| Media.SnapshotPaths | internal/service/media.go:33-38 | The kept entries joined to the output directory, in order; SnapshotPathsFromListing and SnapshotPathsNext state its properties. |
| Media.KeptIsSubsequence | internal/service/media.go:33-38 | The kept entries are a subsequence of the listing, in listing order, so there are no more of them than entries. |
| Media.KeptAreSnapshots | internal/service/media.go:34-37 | Every kept entry is from the listing, not a directory, with extension ".jpg". |
| Media.SnapshotsAreKept | internal/service/media.go:34-37 | Every non-directory ".jpg" entry of the listing is kept. |
| Media.SnapshotPathsFromListing | internal/service/media.go:33-38 | Each returned path is the output directory joined with the name of a ".jpg" file of the listing; at most as many paths as entries. |
| Media.SnapshotPathsNext | internal/service/media.go:33-38 | Each further listing entry adds its joined path at the end exactly when it is a ".jpg" file, and adds nothing otherwise. |
| Media.GenerateSnapshots | internal/service/media.go:16-40 | A MkdirAll failure returns first. An ffmpeg failure returns "ffmpeg snapshots failed: …". A listing failure returns its error. Otherwise the paths of the kept entries are returned, in order. |

## Left out

- Worker pool: `Start`, `Enqueue` and `worker` (`internal/service/worker.go:28-43`) are goroutines over a buffered channel. Only one task's processing is modelled, and other tasks' saves are not interleaved with it.
- Media goroutines: the fork at `internal/service/worker.go:84-93` is reduced to its two outcomes and their arrival order, and the race on `snapshots` is not modelled.
- Clock: `time.Now`/`time.Since` are readings of a monotone clock given as a parameter, in natural numbers.
- SaveTask errors: the worker drops the errors `SaveTask` returns, and the model records every save in a ghost log whatever its outcome.
- Status store I/O: JSON encoding, file reads and writes, and the `sync.RWMutex` in `internal/service/storage.go:65-83` are not modelled; a read or write failure is an outcome given per save. A partial write is not modelled: a failed write leaves the collection as it was.
- Gemini client: the model names, the prompts and `os.ReadFile` are outcomes given as parameters. `json.Unmarshal` onto the previous value is an abstract decoder.
- Gemini candidates: a candidate whose `Content` is nil is not modelled; each candidate has a list of parts.
- External tools: `exec.Command("ffmpeg", …)`, `os.MkdirAll`, `os.ReadDir` and `ExtractAudio` are outcomes or a given listing.
- Images: `imaging.Open`, `Fill` and `Save` and the pixel work of `draw.Draw` are not modelled. A drawn pixel records the image and the offset inside its thumbnail.
- Media.Join: `filepath.Join` is modelled without `filepath.Clean`, so "." and ".." elements and doubled separators are not normalised.
- Worker.ProcessTask: `CreateGrids` is not part of this model. The grid stage's outcome is a parameter, and the snapshot list is not passed on to it. The paths the worker builds with `filepath.Join` are not modelled.
- Worker.ProcessTask: a panic on an empty grid list ends the model's run with `panicked`. In Go it ends the whole process.
- HTTP handlers and wiring: `internal/handler/upload.go`, `internal/handler/status.go` and `cmd/api/main.go` are not modelled, nor are the JSON tags of the records.
