# VideoJoin: the clip list, the merge layout, and their helpers

VideoJoin is an iOS app that joins a user's clips, picked from the photo library, into one movie.
This project models the part of it that is plain bookkeeping around the media framework:

- **Timeline** (`timeline.dfy`) holds the clip records (`Video`, `VideoItem`). It also holds the
  back-to-back layout both merge passes build. Each clip contributes the segment
  `[trimStart, trimEnd)`, placed at the running insert time. Times are integer ticks of 1/600 s,
  the timescale both layout passes give their `CMTime` values.
- **VideoEditor** (`video_editor.dfy`) is `createComposition`. It is one loop that fills a video
  track and an audio track, appends a `VideoTrack` per clip, and keeps running maxima of width,
  height and frame rate and a running file size. The loop is proved against the layout, the
  maxima and the total.
- **JoinModel** (`join_model.dfy`) is the `VideoJoinModel` class and its fields. It covers:
  - `addVideos`: slot allocation, then the task group's writes, in any completion order;
  - `merge`: the layout of the loaded clips only;
  - `handle`: routes an error to one of two flags;
  - `defaultFilename`: chooses a date.
- **TrimView** (`detailed_view.dfy`) covers the two trim buttons of the clip detail screen. They
  update one list entry in place and consult the snapshot the view took when it was built.
- **Progress** (`progress_model.dfy`) is `ProgressModel`. Its timer copies a supplied value into
  `progress` until the value reaches 1.0, then cancels itself.
- **Utils** (`utils.dfy`) holds `err`, `trimmed` and `validateFilename`.

The photo library, the media framework and the clock are inputs. `addVideos` receives how many
assets the fetch returned, what each one resolved to, and the order the children finished in.
A clip carries whether its file has a video and an audio track, and its natural size and frame rate.
`merge` receives the current date.

Some facts about the code that the model keeps as they are:

- Neither layout pass checks trim order or an empty list (VideoEditor.swift:28-60,
  VideoJoinModel.swift:184-205). An empty list gives an empty composition.
- `createComposition` reads each video track's `preferredTransform` only to log it
  (VideoEditor.swift:43-44). Nothing rotates or scales a clip.
- A tick copies the supplied value into `progress` whenever it is below 1.0 (ProgressModel.swift:35-36).
  Progress can therefore go down.
- `createComposition` computes maxima and a total size and then drops them: it returns only the
  composition and the tracks (VideoEditor.swift:46-50,60,63). The model returns them in `Stats`
  so that their final values can be stated.

## Model

| member | source | states |
|---|---|---|
| Utils.Err | VideoJoin/Utils.swift:106-108 | `err(msg)` is the app's own `DataError.unknown` case, and `handle` shows exactly `msg` for it |
| Utils.Trimmed | VideoJoin/Utils.swift:110-117 | If the string is no longer than `start + end + 3` characters, it is returned unchanged. Otherwise the result has exactly that length: the first `start` characters, then "...", then the last `end` characters of the input |
| Utils.TrimmedNeverLonger | VideoJoin/Utils.swift:112-116 | The shortened string is never longer than its input |
| Utils.TrimmedIdempotent | VideoJoin/Utils.swift:112 | Shortening twice with the same counts gives the same string as shortening once |
| Utils.RunInClass | VideoJoin/Utils.swift:43-46 | From any state, the anchored matcher for `[\w\-\s\:\.]+` accepts exactly when every character is in the class and at least one has been matched |
| Utils.ValidateFilename | VideoJoin/Utils.swift:40-47 | A filename is valid if and only if it is non-empty and every character is a word character, `-`, whitespace, `:` or `.` |
| Utils.ValidateFilenameRejectsEmpty | VideoJoin/Utils.swift:43 | The empty name is rejected, because the class must match at least once |
| Utils.ValidateFilenameRejectsSlash | VideoJoin/Utils.swift:43-46 | Any name containing `/` is rejected |
| Utils.ValidateFilenameNeedsNoExtension | VideoJoin/Utils.swift:43-44 | No `.mov` extension is required: the bare date `2024-07-04` is valid |
| Timeline.FirstUnplayable | VideoJoin/VideoEditor.swift:34-36 | The clip a failing pass stops on lacks a track, and every clip before it has both |
| Timeline.FirstUnplayableAt | VideoJoin/VideoEditor.swift:28-55 | A pass that accepted clips `0..i` and finds clip `i` lacking a track stops on the first unplayable clip |
| Timeline.Layout | VideoJoin/VideoEditor.swift:28-32 | One insertion per clip, in clip order. Each inserts the clip's `[trimStart, trimEnd)` at the summed length of the clips before it |
| Timeline.StartOfFirst | VideoJoin/VideoEditor.swift:21 | The first clip is placed at time zero |
| Timeline.StartOfNext | VideoJoin/VideoEditor.swift:59 | Each clip is placed where the previous clip's segment ends |
| Timeline.StartOfPrefix | VideoJoin/VideoEditor.swift:28-59 | A clip's placement depends only on the clips before it |
| Timeline.LayoutStep | VideoJoin/VideoEditor.swift:28-59 | Laying out one more clip appends its placement at the current insert time and leaves the earlier placements unchanged |
| Timeline.TotalDurationAppend | VideoJoin/VideoEditor.swift:59 | The timeline length adds up over a split of the clip list |
| Timeline.StartOfOrdered | VideoJoin/VideoEditor.swift:21-59 | With no reversed trims, segments neither overlap nor leave gaps: clip `j` starts the summed length of clips `i..j` after clip `i`, and no earlier than clip `i`'s end |
| Timeline.TotalDurationAtLeastFirst | VideoJoin/VideoEditor.swift:59 | With no reversed trims, the total length is at least the first clip's segment |
| Timeline.LayoutOfThreeClips | VideoJoin/VideoEditor.swift:31-59 | Clips trimmed to [2 s, 8 s], [0 s, 6 s] and [1 s, 4 s] are placed at 0 s, 6 s and 12 s, with lengths 6 s, 6 s and 3 s, for 15 s in all |
| Timeline.LoadedVideosAppend | VideoJoin/VideoJoinModel.swift:187 | `compactMap(\.video)` keeps list order across a split of the list |
| Timeline.LoadedVideosMembers | VideoJoin/VideoJoinModel.swift:187 | A clip is among the loaded clips if and only if some slot holds it |
| Timeline.LoadedVideos | VideoJoin/VideoJoinModel.swift:187 | Unloaded slots are skipped: there are at most as many loaded clips as slots, and exactly as many when every slot is loaded |
| VideoEditor.CreateComposition | VideoJoin/VideoEditor.swift:12-64 | Succeeds if and only if every clip has both tracks. On failure, the error names the first clip lacking one. On success: both tracks hold the back-to-back layout; there is one `VideoTrack` per clip, in order; the maxima (from 0) and the summed sizes are the final aggregates |
| VideoEditor.TrackList | VideoJoin/VideoEditor.swift:28-57 | The records a complete pass appends: one per clip, in clip order, each carrying its clip, its insert time as both `start` and `insertTime`, and its segment length |
| VideoEditor.TrackListFollowsClips | VideoJoin/VideoEditor.swift:28-57 | `tracks` has one entry per clip, and entry `i` carries clip `i` |
| VideoEditor.TrackListTiming | VideoJoin/VideoEditor.swift:21-59 | The first insert time is 0, and each later one is the previous insert time plus the previous duration. `start` equals `insertTime`, not the clip's `trimStart`. The duration is `trimEnd - trimStart` |
| VideoEditor.TrackListStep | VideoJoin/VideoEditor.swift:57 | One more clip appends its own record and leaves the earlier records unchanged |
| VideoEditor.AggregatesStep | VideoJoin/VideoEditor.swift:46-60 | One more clip raises each running maximum to its own value when that value is larger, and adds its size to the total |
| VideoEditor.MaxOfIsMaximum | VideoJoin/VideoEditor.swift:24-50 | The running maximum (width, height or frame rate) is at least every clip's value, is never negative, and is either 0 or one clip's value |
| VideoEditor.MaxOfAttained | VideoJoin/VideoEditor.swift:24-50 | For a non-empty list of non-negative values, the maximum equals some clip's value |
| VideoEditor.TotalSizeAppend | VideoJoin/VideoEditor.swift:22-60 | The running file size adds up over a split of the clip list |
| JoinModel.Identifiers | VideoJoin/VideoJoinModel.swift:59 | An identifier is kept if and only if some pick carries it, so there are never more identifiers than picks. When every pick has one, they are the picks' identifiers in picker order |
| JoinModel.IdentifiersAppend | VideoJoin/VideoJoinModel.swift:59 | `compactMap` distributes over concatenation, so the identifiers are exactly those of the picks that carry one, in picker order, repeats included |
| JoinModel.IdentifiersSkipMissingKeepRepeats | VideoJoin/VideoJoinModel.swift:59 | Picks `[A, none, A]` give `[A, A]`: a missing identifier is skipped and a repeat is kept |
| JoinModel.NewSlots | VideoJoin/VideoJoinModel.swift:61-63 | One slot per identifier, in order, each with that id, download progress 0 and no clip |
| JoinModel.VideoJoinModel.AppendSlots | VideoJoin/VideoJoinModel.swift:61-63 | The list becomes the old list followed by one empty slot per identifier; nothing else changes |
| JoinModel.Dated | VideoJoin/VideoJoinModel.swift:290 | Every clip that passes the filter has a date |
| JoinModel.DatedMembers | VideoJoin/VideoJoinModel.swift:290 | The filter keeps exactly the clips that have a date |
| JoinModel.MaxByLaterDate | VideoJoin/VideoJoinModel.swift:290 | With `>` as the ordering, `max(by:)` returns one of its inputs, and its date is no later than any input's |
| JoinModel.DefaultFilenameDate | VideoJoin/VideoJoinModel.swift:287-290 | With no dated loaded clip, the date is `now`. Otherwise it is the date of one of the dated loaded clips, and no later than any of theirs |
| JoinModel.DefaultFilenameDateIsEarliest | VideoJoin/VideoJoinModel.swift:287-295 | The file-name date is the earliest capture date of any loaded clip that has one. It is the current date when no loaded clip has a date |
| JoinModel.VideoJoinModel.constructor | VideoJoin/VideoJoinModel.swift:40-53 | A new model has no error, empty message, progress 0, no merge sheet, empty selection and list, and no merged video |
| JoinModel.VideoJoinModel.Handle | VideoJoin/VideoJoinModel.swift:301-327 | The message is the error's own (the `DataError` message or the localized description). `isMergeError` is raised when the merge sheet is up and `isError` otherwise; the other flag is unchanged |
| JoinModel.VideoJoinModel.AddVideos | VideoJoin/VideoJoinModel.swift:55-113 | An empty selection changes nothing. Otherwise one empty slot per identifier is appended after the existing ones. A fetch count that differs from the selection count raises the "Failed to get N videos" error and fills no slot. Otherwise new slot `j` receives the clip of fetch result `j` (the `j`-th asset by creation date) when it resolved, and the message of the last child that threw is shown. This is the task group corrected to the new slots; as written it traps whenever the list already held clips (`ResolveAsWritten`) |
| JoinModel.VideoJoinModel.LoadNewSlots | VideoJoin/VideoJoinModel.swift:61-104 | After a complete fetch, one empty slot per identifier follows the existing slots. New slot `j` then holds the clip of fetch result `j` when it resolved. The last failure in completion order is the one left on screen |
| JoinModel.VideoJoinModel.RunTaskGroup | VideoJoin/VideoJoinModel.swift:77-104 | Whatever order the children finish in, new slot `j` ends holding the clip of fetch result `j` when it resolved, and all other slots are unchanged. Failures go through `handle` in completion order |
| JoinModel.VideoJoinModel.FinishChild | VideoJoin/VideoJoinModel.swift:88-100 | A resolved clip is written into the child's slot and nothing else in the list changes. A failure leaves its message on screen and raises the flag `handle` raises. A missing clip changes nothing |
| JoinModel.VideoJoinModel.Merge | VideoJoin/VideoJoinModel.swift:169-214 | Progress is reset and the merge sheet raised. If every loaded clip has both tracks, the merged video holds the back-to-back layout of the loaded clips and the default file-name date. Otherwise "Failed loading video tracks" goes to the merge sheet's flag and the merged video is left as it was |
| JoinModel.ComposeLoaded | VideoJoin/VideoJoinModel.swift:184-205 | Yields a composition if and only if every loaded clip has both tracks, and then it is the back-to-back layout on both tracks |
| JoinModel.WithResolved | VideoJoin/VideoJoinModel.swift:86-101 | Every slot keeps its id and download progress. Slots outside the new range never change. New slot `base + j` holds the clip of fetch result `j` when it resolved, and keeps its old clip otherwise |
| JoinModel.ApplyInOrder | VideoJoin/VideoJoinModel.swift:94-101 | After the writes of any children that finished, every slot keeps its id, and slots outside the new range are unchanged |
| JoinModel.ApplyInOrderSlots | VideoJoin/VideoJoinModel.swift:94-101 | After the writes of the children that finished, a new slot holds the clip of its fetch result exactly when its child finished with one |
| JoinModel.ApplyInOrderIsOrderFree | VideoJoin/VideoJoinModel.swift:94-101 | Completion order does not affect the final list |
| JoinModel.LastFailureIsLastFailed | VideoJoin/VideoJoinModel.swift:88-90 | An error message is left on screen if and only if some resolution failed, and it is the error of one of those failures |
| JoinModel.ResolveAsWritten | VideoJoin/VideoJoinModel.swift:79-101 | The loop as written covers every index `i` of the whole list: it traps exactly when the list is longer than the fetch result. Otherwise slot `i` keeps its id and receives the clip of fetch result `i` when it resolved |
| JoinModel.AsWrittenAgreesOnFirstPick | VideoJoin/VideoJoinModel.swift:79-86 | On a first pick (the list was empty), the loop over `videos.count` writes what the corrected loop writes |
| JoinModel.AsWrittenTrapsOnSecondPick | VideoJoin/VideoJoinModel.swift:79-86 | With one clip already listed and one more picked, the loop over `videos.count` reads past the one-asset fetch result. The corrected loop fills only the new slot |
| Progress.ProgressModel.constructor | VideoJoin/ProgressModel.swift:17-21 | A new model holds the given progress and has no live timer |
| Progress.ProgressModel.StartTrackingProgress | VideoJoin/ProgressModel.swift:23-30 | Progress is reset to 0.0 and the timer is live |
| Progress.ProgressModel.Tick | VideoJoin/ProgressModel.swift:33-40 | With a live timer: a supplied value below 1.0 becomes the progress and the timer stays live; any other value sets the progress to 1.0 and cancels the timer. A cancelled timer changes nothing. After a live tick, progress is at most 1.0 |
| Progress.TickStep | VideoJoin/ProgressModel.swift:33-40 | A cancelled timer leaves the state alone. A live tick leaves progress at most 1.0. The timer stays live only on a value below 1.0, which becomes the progress. A tick that cancels it sets the progress to exactly 1.0 |
| Progress.CancelledTicksChangeNothing | VideoJoin/ProgressModel.swift:37-46 | Once the timer is cancelled, no run of ticks changes the state |
| Progress.TicksKeepProgressBounded | VideoJoin/ProgressModel.swift:35-40 | While a timer is live, progress stays at most 1.0 through any run of ticks |
| Progress.StartedProgressBounded | VideoJoin/ProgressModel.swift:23-40 | After `startTrackingProgress`, any run of ticks leaves progress at most 1.0 |
| Progress.TicksStayCancelledOrActive | VideoJoin/ProgressModel.swift:35-40 | From a live timer, a run of ticks ends either live or cancelled at exactly 1.0 |
| Progress.TicksFinishAtOne | VideoJoin/ProgressModel.swift:37-39 | The first supplied value at or above 1.0 ends tracking at exactly 1.0, whatever comes afterwards |
| TrimView.DetailedView.constructor | VideoJoin/Views/DetailedView.swift:21-34 | The view keeps the model and index, and snapshots the slot's clip as it is at that moment |
| TrimView.DetailedView.SetStart | VideoJoin/Views/DetailedView.swift:52-57 | The list becomes what the "->\|" handler writes, computed from the snapshot; nothing else in the model changes |
| TrimView.DetailedView.SetEnd | VideoJoin/Views/DetailedView.swift:78-84 | The list becomes what the "\|<-" handler writes, computed from the snapshot; nothing else in the model changes |
| TrimView.SetStartAsWritten | VideoJoin/Views/DetailedView.swift:52-57 | Only the handler's own entry changes. Its start becomes the player time. Its end becomes the clip length only when the snapshot was reversed. The entry's download progress and every other field of the clip are kept. With the slot or the snapshot empty, nothing changes |
| TrimView.SetEndAsWritten | VideoJoin/Views/DetailedView.swift:78-84 | Only the handler's own entry changes. Its end becomes the player time. Its start is reset to 0 only when the snapshot was reversed. The entry's download progress and every other field of the clip are kept. With the slot or the snapshot empty, nothing changes |
| TrimView.HandlersAsWrittenLeaveReversedTrim | VideoJoin/Views/DetailedView.swift:52-84 | Because the check reads the snapshot, a 10 s clip at [0, 5] s whose start is set at 8 s ends at [8, 5] s. One at [4, 10] s whose end is set at 2 s ends at [4, 2] s |
| TrimView.SetStartCorrected | VideoJoin/Views/DetailedView.swift:54-57 | Repairing from the start just written: only the handler's entry changes, and its start becomes the player time. Its end becomes the clip length exactly when the new start passes the old end, and is kept otherwise. The entry's download progress and the clip's other fields are kept. With a player time inside the clip, the range is never left reversed |
| TrimView.SetEndCorrected | VideoJoin/Views/DetailedView.swift:81-84 | Repairing from the end just written: only the handler's entry changes, and its end becomes the player time. Its start is reset to 0 exactly when it lies past the new end, and is kept otherwise. The entry's download progress and the clip's other fields are kept. With a non-negative player time, the range is never left reversed |

## Left out

- The photo library and the media framework are inputs, not models:
  - fetching assets (sorted by creation date) and requesting AV assets;
  - thumbnails, file-size lookup and `loadTracks`;
  - building a `Video` from an asset;
  - the export session in `save`.
- A failure of `addMutableTrack` ("Unable to add video/audio track to composition") is not modelled; the two tracks are taken to exist.
- Errors thrown by `insertTimeRange` and `loadTracks` are not modelled; only a missing track is.
- VideoEditor.CreateComposition: what `insertTimeRange` does with a reversed trim (a negative-duration range) is not modelled. The trim buttons can produce such a clip (TrimView.HandlersAsWrittenLeaveReversedTrim). The model records the insertion with its negative length and still moves the insert time back by it, so later clips are placed earlier. `JoinModel.VideoJoinModel.Merge` and `JoinModel.ComposeLoaded` do the same.
- JoinModel.VideoJoinModel.AddVideos: the slot ids follow the picker order, but the fetch is sorted by creation date, and the clip written into slot `base + j` is that of fetch result `j`. The model does not tie a slot's id to the asset whose clip it receives. The task group modelled is the one corrected to the new slots; as written it traps whenever the list already held clips (`ResolveAsWritten`). The selection is also taken as given: the picker keeps earlier picks selected, so `selected` may include clips already listed.
- Conversion from `Double` seconds to `CMTime` ticks is not modelled: trim points and durations are taken to be whole ticks, so rounding is left out.
- `Int64` overflow of the running file size is not modelled; sizes are unbounded integers.
- Download-progress updates from the asset request are left out; new slots start at 0 and are never updated.
- JoinModel.VideoJoinModel.RunTaskGroup: the asset request's progress handler also passes download errors to `handle`. Such an error can set the message and raise a flag at any point, even when every child ends with a clip or with none. The model does not include these errors. `Reported(LastFailure(...))` and the AddVideos row therefore speak only of the errors the children throw. The same holds for `AddVideos` and `LoadNewSlots`.
- Swift's floating-point values become exact numbers. Natural widths and heights, frame rates and progress values (`CGFloat`, `Float`, `Double`) are `real`. A `Date` is an `int` count of whole seconds. The core only compares these values, takes maxima and copies them, so only NaN, infinity, rounding and sub-second dates are lost.
- Concurrency is reduced to a sequence:
  - the task group runs its children one after another in a given completion order;
  - `handle`'s hop to the main queue and the delayed `mergedVideo` assignment take effect at once;
  - task cancellation and the `task` field are not modelled.
- `save`, `longOp` and `allLoaded` are left out. The first two are export and a timed simulation; the third always returns true.
- JoinModel.DefaultFilenameDate: returns the chosen date, not its `yyyy-MM-dd` text, because `DateFormatter` output is locale formatting.
- Utils.ValidateFilename: `\w` and `\s` are modelled on ASCII letters and digits, `_`, U+200C and U+200D, plus a fixed list of Unicode spaces. The model rejects these characters, all of which ICU's `\w` accepts:
  - letters and digits outside ASCII;
  - combining marks (`\p{Mark}`, such as U+0301);
  - connector punctuation other than `_` (`\p{Connector_Punctuation}`, such as U+203F). The `$` anchor is taken to match only at the very end, not before a final line terminator.
- Utils.Trimmed: counts `Character` elements of the Dafny string, not Swift grapheme clusters.
- Progress.ProgressModel.Tick: the supplier closure is replaced by the value it returns. The timer period, `deinit`'s cancellation and the `weak self` guard are not modelled.
- TrimView.DetailedView.SetEnd: the player's pause and seek are left out.
- The views are left out, as are ContentView's `move` and `delete`. These are single `remove(atOffsets:)` calls on the list; `move` deletes rather than moves.
- Orientation, purchases, persistence and the app entry point are left out.

## Findings

| source | as written | input that shows it | evidently intended | confidence | as-written member | corrected member |
|---|---|---|---|---|---|---|
| VideoJoin/VideoJoinModel.swift:79-86 | The task group iterates `0..<self.videos.count` over the whole list. It reads `fetchResult.object(at: i)` and writes slot `i` | One clip already listed, one more picked and fetched: index 1 is past the one-asset fetch result | Iterate over the new slots only, writing fetch result `j` into slot `base + j` | not executed; read from the loop bounds | JoinModel.AsWrittenTrapsOnSecondPick | JoinModel.VideoJoinModel.RunTaskGroup |
| VideoJoin/Views/DetailedView.swift:54-57 | "->\|" decides whether to move the end from the snapshot taken in `init`, not from the start just written | A 10 s clip trimmed to [0, 5] s, start set at 8 s: the result is [8, 5] s | Move the end to the clip length when the new start passes the end | not executed; read from the handler | TrimView.HandlersAsWrittenLeaveReversedTrim | TrimView.SetStartCorrected |
| VideoJoin/Views/DetailedView.swift:81-84 | "\|<-" decides whether to reset the start from the snapshot, not from the end just written | A 10 s clip trimmed to [4, 10] s, end set at 2 s: the result is [4, 2] s | Reset the start to 0 when it lies past the new end | not executed; read from the handler | TrimView.HandlersAsWrittenLeaveReversedTrim | TrimView.SetEndCorrected |
