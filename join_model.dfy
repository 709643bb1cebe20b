/** `VideoJoinModel`: the clip list and the published flags the views bind to, with the sequential
    effect of `addVideos`, `merge`, `handle` and `defaultFilename`. */
module JoinModel {
  import opened Utils
  import opened Timeline

  /** A picked item of the photo picker; `itemIdentifier` may be missing. */
  datatype PickerItem = PickerItem(itemIdentifier: Option<string>)

  /** The merge result (`struct MergedVideo`). The file name is kept as the date `defaultFilename`
      formats it from. */
  datatype MergedVideo = MergedVideo(
    url: Option<string>,
    composition: Option<Composition>,
    fileSize: Option<int>,
    fileName: Option<Date>)

  /** How resolving one fetched asset ended: a clip, `nil` without an error (the asset is not a
      file-backed asset), or a thrown error that the child task hands to `handle`. */
  datatype Resolution = Resolved(video: Video) | Unavailable | Failed(error: Error)

  /** `selected.compactMap(\.itemIdentifier)`: the identifiers that are present, and only those;
      when every pick has one, they are the picks' identifiers in picker order. */
  function Identifiers(selected: seq<PickerItem>): (ids: seq<string>)
    ensures |ids| <= |selected|
    ensures forall id :: id in ids <==> exists i :: 0 <= i < |selected| && selected[i].itemIdentifier == Some(id)
    ensures (forall i :: 0 <= i < |selected| ==> selected[i].itemIdentifier.Some?) ==>
      |ids| == |selected| && forall i :: 0 <= i < |selected| ==> ids[i] == selected[i].itemIdentifier.value
  {
    if selected == [] then []
    else
      assert forall i :: 0 < i < |selected| ==> selected[i] == selected[1..][i - 1];
      (if selected[0].itemIdentifier.Some? then [selected[0].itemIdentifier.value] else [])
      + Identifiers(selected[1..])
  }

  /** `compactMap` distributes over concatenation: with the one-pick case of the definition, the
      identifiers are those of the picks that carry one, in picker order, repeats included. */
  lemma {:induction false} IdentifiersAppend(a: seq<PickerItem>, b: seq<PickerItem>)
    ensures Identifiers(a + b) == Identifiers(a) + Identifiers(b)
  {
    if a != [] {
      assert (a + b)[1..] == a[1..] + b;
      IdentifiersAppend(a[1..], b);
    } else {
      assert a + b == b;
    }
  }

  /** A pick without an identifier is skipped and a repeated identifier is kept twice. */
  lemma IdentifiersSkipMissingKeepRepeats()
    ensures Identifiers([PickerItem(Some("A")), PickerItem(None), PickerItem(Some("A"))]) == ["A", "A"]
  {
  }

  /** The slots `addVideos` appends: one per identifier, not yet loaded, with no download progress. */
  function NewSlots(ids: seq<string>): (r: seq<VideoItem>)
    ensures |r| == |ids|
    ensures forall j :: 0 <= j < |ids| ==> r[j] == VideoItem(ids[j], 0.0, None)
  {
    seq(|ids|, j requires 0 <= j < |ids| => VideoItem(ids[j], 0.0, None))
  }

  /** The list after the task group's writes: slot `base + j` holds the clip that fetch result `j`
      resolved to, when it resolved; every other slot is as it was. */
  function WithResolved(items: seq<VideoItem>, base: nat, outcomes: seq<Resolution>): (r: seq<VideoItem>)
    requires base + |outcomes| <= |items|
    ensures |r| == |items|
    ensures forall k :: 0 <= k < |items| ==> r[k].id == items[k].id && r[k].downloadProgress == items[k].downloadProgress
    ensures forall k :: 0 <= k < |items| && !(base <= k < base + |outcomes|) ==> r[k] == items[k]
    ensures forall j :: 0 <= j < |outcomes| ==>
      r[base + j].video == if outcomes[j].Resolved? then Some(outcomes[j].video) else items[base + j].video
  {
    seq(|items|, k requires 0 <= k < |items| =>
      if base <= k < base + |outcomes| && outcomes[k - base].Resolved?
      then items[k].(video := Some(outcomes[k - base].video))
      else items[k])
  }

  /** The list after the writes of the children that finished, in the order they finished. */
  function ApplyInOrder(items: seq<VideoItem>, base: nat, outcomes: seq<Resolution>, order: seq<nat>): (r: seq<VideoItem>)
    requires base + |outcomes| <= |items|
    requires forall k :: 0 <= k < |order| ==> order[k] < |outcomes|
    ensures |r| == |items|
    ensures forall k :: 0 <= k < |items| ==> r[k].id == items[k].id
    ensures forall k :: 0 <= k < |items| && !(base <= k < base + |outcomes|) ==> r[k] == items[k]
  {
    if order == [] then items
    else
      var j := order[|order| - 1];
      var prev := ApplyInOrder(items, base, outcomes, order[..|order| - 1]);
      if outcomes[j].Resolved? then prev[base + j := prev[base + j].(video := Some(outcomes[j].video))]
      else prev
  }

  /** The order in which the task group yields its children: each of the `n` indices exactly once. */
  predicate CompletionOrder(order: seq<nat>, n: nat) {
    && |order| == n
    && (forall k :: 0 <= k < |order| ==> order[k] < n)
    && (forall j :: 0 <= j < n ==> j in order)
  }

  /** The error of the last failed resolution in completion order, the one whose message `handle`
      leaves on screen. */
  function LastFailure(outcomes: seq<Resolution>, order: seq<nat>): (r: Option<Error>)
    requires forall k :: 0 <= k < |order| ==> order[k] < |outcomes|
  {
    if order == [] then None
    else
      var last := order[|order| - 1];
      if outcomes[last].Failed? then Some(outcomes[last].error)
      else LastFailure(outcomes, order[..|order| - 1])
  }

  /** Some message is left on screen exactly when some child failed, and it is the error of one
      of the failed children. */
  lemma {:induction false} LastFailureIsLastFailed(outcomes: seq<Resolution>, order: seq<nat>)
    requires forall k :: 0 <= k < |order| ==> order[k] < |outcomes|
    ensures LastFailure(outcomes, order).Some? <==> exists k :: 0 <= k < |order| && outcomes[order[k]].Failed?
    ensures LastFailure(outcomes, order).Some? ==>
      exists k :: 0 <= k < |order| && outcomes[order[k]] == Failed(LastFailure(outcomes, order).value)
  {
    if order != [] {
      var init := order[..|order| - 1];
      assert forall k :: 0 <= k < |init| ==> init[k] == order[k];
      LastFailureIsLastFailed(outcomes, init);
    }
  }

  /** The message raised when the photo library returns fewer assets than were picked. */
  function FetchErrorMessage(missing: int): string {
    "Failed to get " + IntToString(missing)
    + " videos from Photo library. Please check that you have granted access to them."
  }

  const MergeTrackErrorMessage: string := "Failed loading video tracks"

  // ---------------------------------------------------------------------------
  // defaultFilename: videos.compactMap(\.video).filter { $0.date != nil }.max(by: { $0.date! > $1.date! })

  /** `filter { $0.date != nil }`. */
  function Dated(vs: seq<Video>): (r: seq<Video>)
    ensures forall k :: 0 <= k < |r| ==> r[k].date.Some?
  {
    if vs == [] then []
    else (if vs[0].date.Some? then [vs[0]] else []) + Dated(vs[1..])
  }

  /** Swift's `max(by:)` loop: the running result is replaced by a later element whenever
      `areInIncreasingOrder(result, element)`, here `result.date! > element.date!`. With `>` as
      the "increasing" order, it picks one of its inputs with the earliest date. */
  function MaxByLaterDate(result: Video, rest: seq<Video>): (r: Video)
    requires result.date.Some?
    requires forall k :: 0 <= k < |rest| ==> rest[k].date.Some?
    ensures r.date.Some?
    ensures r == result || r in rest
    ensures r.date.value <= result.date.value
    ensures forall k :: 0 <= k < |rest| ==> r.date.value <= rest[k].date.value
    decreases |rest|
  {
    if rest == [] then result
    else
      var next := if result.date.value > rest[0].date.value then rest[0] else result;
      assert forall k :: 1 <= k < |rest| ==> rest[k] == rest[1..][k - 1];
      MaxByLaterDate(next, rest[1..])
  }

  /** The date `defaultFilename` formats: that of the clip `max(by:)` picks, or `now` (`Date()`). */
  function DefaultFilenameDate(items: seq<VideoItem>, now: Date): (r: Date)
    ensures var dated := Dated(LoadedVideos(items));
      && (dated == [] ==> r == now)
      && (dated != [] ==> (exists k :: 0 <= k < |dated| && dated[k].date == Some(r))
                          && forall k :: 0 <= k < |dated| ==> r <= dated[k].date.value)
  {
    var dated := Dated(LoadedVideos(items));
    if dated == [] then now
    else
      var pick := MaxByLaterDate(dated[0], dated[1..]);
      assert forall k :: 1 <= k < |dated| ==> dated[k] == dated[1..][k - 1];
      assert exists k :: 0 <= k < |dated| && dated[k] == pick;
      pick.date.value
  }

  /** `filter` keeps exactly the clips that have a date. */
  lemma {:induction false} DatedMembers(vs: seq<Video>, v: Video)
    ensures v in Dated(vs) <==> v in vs && v.date.Some?
  {
    if vs != [] {
      DatedMembers(vs[1..], v);
      assert vs == [vs[0]] + vs[1..];
    }
  }

  /** `defaultFilename` names the merge after the earliest capture date among the loaded clips
      that have one, and after `now` when none has. */
  lemma DefaultFilenameDateIsEarliest(items: seq<VideoItem>, now: Date)
    ensures (forall i :: 0 <= i < |items| && items[i].video.Some? ==> items[i].video.value.date.None?) ==>
      DefaultFilenameDate(items, now) == now
    ensures forall i :: 0 <= i < |items| && items[i].video.Some? && items[i].video.value.date.Some? ==>
      DefaultFilenameDate(items, now) <= items[i].video.value.date.value
    ensures (exists i :: 0 <= i < |items| && items[i].video.Some? && items[i].video.value.date.Some?) ==>
      exists i :: 0 <= i < |items| && items[i].video.Some? && items[i].video.value.date == Some(DefaultFilenameDate(items, now))
  {
    var loaded := LoadedVideos(items);
    var dated := Dated(loaded);
    forall i | 0 <= i < |items| && items[i].video.Some? && items[i].video.value.date.Some?
      ensures items[i].video.value in dated
    {
      LoadedVideosMembers(items, items[i].video.value);
      DatedMembers(loaded, items[i].video.value);
    }
    if dated == [] {
      assert forall i :: 0 <= i < |items| && items[i].video.Some? ==> items[i].video.value.date.None?;
    } else {
      var r := DefaultFilenameDate(items, now);
      var k :| 0 <= k < |dated| && dated[k].date == Some(r);
      var pick := dated[k];
      DatedMembers(loaded, pick);
      LoadedVideosMembers(items, pick);
      assert exists i :: 0 <= i < |items| && items[i].video == Some(pick);
    }
  }

  // ---------------------------------------------------------------------------

  class VideoJoinModel {
    var isError: bool
    var isMergeError: bool
    var errMsg: string
    var progress: real
    var showMerge: bool
    var selected: seq<PickerItem>
    var videos: seq<VideoItem>
    var mergedVideo: Option<MergedVideo>

    constructor ()
      ensures !isError && !isMergeError && errMsg == "" && progress == 0.0 && !showMerge
      ensures selected == [] && videos == [] && mergedVideo == None
    {
      isError, isMergeError, errMsg, progress, showMerge := false, false, "", 0.0, false;
      selected, videos, mergedVideo := [], [], None;
    }

    /** What the alert state shows after the failures `last` names, from the message and flags
        `msg0`, `isError0`, `isMergeError0`: nothing changes when there was no failure; otherwise
        the message is the last failure's, and the merge sheet's flag is raised while the sheet is
        up, the main alert's flag otherwise. */
    predicate Reported(last: Option<Error>, msg0: string, isError0: bool, isMergeError0: bool)
      reads this
    {
      match last
      case None => errMsg == msg0 && isError == isError0 && isMergeError == isMergeError0
      case Some(e) =>
        && errMsg == Message(e)
        && (if showMerge then isMergeError && isError == isError0 else isError && isMergeError == isMergeError0)
    }

    /** `handle`: shows the error's message and raises the merge sheet's error flag while the merge
        sheet is up, the main alert's flag otherwise. */
    method Handle(e: Error)
      modifies this`errMsg, this`isMergeError, this`isError
      ensures errMsg == Message(e)
      ensures showMerge ==> isMergeError && isError == old(isError)
      ensures !showMerge ==> isError && isMergeError == old(isMergeError)
    {
      errMsg := Message(e);
      if showMerge {
        isMergeError := true;
      } else {
        isError := true;
      }
    }

    /** `addVideos`, with the photo library and the per-asset resolution as inputs: `fetchedCount`
        assets come back for the picked identifiers, fetch result `j` resolves to `outcomes[j]`, and
        the children of the task group finish in `order`.
        One empty slot is appended per identifier; then, when the library returned as many assets as
        were picked, the clip of fetch result `j`, when it resolved, is written into new slot
        `base + j`, whatever the completion order, and every thrown error goes through `handle`.
        This is the task group corrected to the new slots; the loop as written indexes the whole
        list (see `ResolveAsWritten`). */
    method AddVideos(fetchedCount: nat, outcomes: seq<Resolution>, order: seq<nat>)
      requires |outcomes| == fetchedCount
      requires CompletionOrder(order, |Identifiers(selected)|)
      modifies this`videos, this`errMsg, this`isMergeError, this`isError
      ensures old(selected) == [] ==>
        videos == old(videos) && errMsg == old(errMsg) && isError == old(isError) && isMergeError == old(isMergeError)
      ensures selected != [] && |selected| != fetchedCount ==>
        && videos == old(videos) + NewSlots(Identifiers(selected))
        && errMsg == FetchErrorMessage(|selected| - fetchedCount)
        && (if showMerge then isMergeError && isError == old(isError)
            else isError && isMergeError == old(isMergeError))
      ensures selected != [] && |selected| == fetchedCount ==>
        && |Identifiers(selected)| <= |outcomes|
        && videos == WithResolved(old(videos) + NewSlots(Identifiers(selected)), |old(videos)|,
                                  outcomes[..|Identifiers(selected)|])
        && Reported(LastFailure(outcomes, order), old(errMsg), old(isError), old(isMergeError))
    {
      if selected == [] {
        return;
      }
      var identifiers := Identifiers(selected);
      if |selected| != fetchedCount {
        AppendSlots(identifiers);
        Handle(Err(FetchErrorMessage(|selected| - fetchedCount)));
        return;
      }
      LoadNewSlots(identifiers, outcomes, order);
    }

    /** The part of `addVideos` after a complete fetch: one empty slot per identifier, then the
        task group fills the new slots from the fetch results. */
    method LoadNewSlots(identifiers: seq<string>, outcomes: seq<Resolution>, order: seq<nat>)
      requires |identifiers| <= |outcomes|
      requires CompletionOrder(order, |identifiers|)
      modifies this`videos, this`errMsg, this`isMergeError, this`isError
      ensures videos == WithResolved(old(videos) + NewSlots(identifiers), |old(videos)|, outcomes[..|identifiers|])
      ensures Reported(LastFailure(outcomes, order), old(errMsg), old(isError), old(isMergeError))
    {
      var base := |videos|;
      AppendSlots(identifiers);
      RunTaskGroup(base, outcomes, order);
    }

    /** The first loop of `addVideos`: one empty slot per identifier, after the existing slots. */
    method AppendSlots(identifiers: seq<string>)
      modifies this`videos
      ensures videos == old(videos) + NewSlots(identifiers)
    {
      for i := 0 to |identifiers|
        invariant videos == old(videos) + NewSlots(identifiers[..i])
      {
        assert NewSlots(identifiers[..i + 1]) == NewSlots(identifiers[..i]) + [VideoItem(identifiers[i], 0.0, None)];
        videos := videos + [VideoItem(identifiers[i], 0.0, None)];
      }
      assert identifiers[..|identifiers|] == identifiers;
    }

    /** The task group of `addVideos` over the new slots `base..`: the child for fetch result `j`
        finishes `order`-th, its clip goes to slot `base + j`, and a failure goes through `handle`. */
    method RunTaskGroup(base: nat, outcomes: seq<Resolution>, order: seq<nat>)
      requires base + |order| == |videos| && |order| <= |outcomes|
      requires CompletionOrder(order, |order|)
      modifies this`videos, this`errMsg, this`isMergeError, this`isError
      ensures videos == WithResolved(old(videos), base, outcomes[..|order|])
      ensures Reported(LastFailure(outcomes, order), old(errMsg), old(isError), old(isMergeError))
    {
      var results := outcomes[..|order|];
      for k := 0 to |order|
        invariant videos == ApplyInOrder(old(videos), base, results, order[..k])
        invariant Reported(LastFailure(outcomes, order[..k]), old(errMsg), old(isError), old(isMergeError))
      {
        var j := order[k];
        ApplyInOrderStep(old(videos), base, results, order, k);
        LastFailureStep(outcomes, order, k);
        FinishChild(base + j, outcomes[j]);
      }
      assert order[..|order|] == order;
      ApplyInOrderIsOrderFree(old(videos), base, results, order);
    }

    /** What the task group does when one child finishes: a resolved clip is written into the
        child's slot, a failure goes through `handle`, and a missing clip changes nothing. */
    method FinishChild(slot: nat, outcome: Resolution)
      requires slot < |videos|
      modifies this`videos, this`errMsg, this`isMergeError, this`isError
      ensures videos == if outcome.Resolved? then old(videos)[slot := old(videos)[slot].(video := Some(outcome.video))]
                        else old(videos)
      ensures Reported(if outcome.Failed? then Some(outcome.error) else None, old(errMsg), old(isError), old(isMergeError))
    {
      match outcome
      case Resolved(v) =>
        videos := videos[slot := videos[slot].(video := Some(v))];
      case Unavailable =>
      case Failed(e) =>
        Handle(e);
    }

    /** `merge`: resets progress, raises the merge sheet, and lays the loaded clips back to back.
        On success the merged video holds the composition and the default file name's date; when a
        loaded clip lacks a track, the error goes through `handle` (to the merge sheet) and no merged
        video is set. */
    method Merge(now: Date)
      modifies this`progress, this`showMerge, this`mergedVideo, this`errMsg, this`isMergeError, this`isError
      ensures progress == 0.0 && showMerge
      ensures AllPlayable(LoadedVideos(videos)) ==>
        && mergedVideo == Some(MergedVideo(None,
             Some(Composition(Layout(LoadedVideos(videos)), Layout(LoadedVideos(videos)))),
             None, Some(DefaultFilenameDate(videos, now))))
        && errMsg == old(errMsg) && isError == old(isError) && isMergeError == old(isMergeError)
      ensures !AllPlayable(LoadedVideos(videos)) ==>
        && mergedVideo == old(mergedVideo)
        && errMsg == MergeTrackErrorMessage && isMergeError && isError == old(isError)
    {
      progress := 0.0;
      showMerge := true;

      var composition := ComposeLoaded(LoadedVideos(videos));
      match composition
      case None =>
        Handle(Err(MergeTrackErrorMessage));
      case Some(c) =>
        mergedVideo := Some(MergedVideo(None, Some(c), None, Some(DefaultFilenameDate(videos, now))));
    }
  }

  /** The body of `merge`'s task: inserts each loaded clip's segment into a video and an audio track
      back to back from time zero, or stops (`None`, the thrown error) at a clip lacking a track. */
  method ComposeLoaded(loaded: seq<Video>) returns (r: Option<Composition>)
    ensures r.Some? <==> AllPlayable(loaded)
    ensures r.Some? ==> r.value == Composition(Layout(loaded), Layout(loaded))
  {
    var videoTrack: seq<Insertion> := [];
    var audioTrack: seq<Insertion> := [];
    var insertTime: Ticks := 0;
    for i := 0 to |loaded|
      invariant forall j :: 0 <= j < i ==> Playable(loaded[j])
      invariant insertTime == StartOf(loaded, i)
      invariant |videoTrack| == i && |audioTrack| == i
      invariant forall j :: 0 <= j < i ==>
        videoTrack[j] == Placement(loaded, j) && audioTrack[j] == Placement(loaded, j)
    {
      var video := loaded[i];
      var start := video.trimStart;
      var duration := video.trimEnd - video.trimStart;
      if video.media.hasVideoTrack {
        videoTrack := videoTrack + [Insertion(video.url, start, duration, insertTime)];
      } else {
        return None;
      }
      if video.media.hasAudioTrack {
        audioTrack := audioTrack + [Insertion(video.url, start, duration, insertTime)];
      } else {
        return None;
      }
      StartOfNext(loaded, i);
      insertTime := insertTime + duration;
    }
    r := Some(Composition(videoTrack, audioTrack));
  }

  // ---------------------------------------------------------------------------
  // Properties of the slot writes

  /** One more finished child adds its own write to those before it. */
  lemma ApplyInOrderStep(items: seq<VideoItem>, base: nat, outcomes: seq<Resolution>, order: seq<nat>, k: nat)
    requires base + |outcomes| <= |items|
    requires forall i :: 0 <= i < |order| ==> order[i] < |outcomes|
    requires k < |order|
    ensures var prev := ApplyInOrder(items, base, outcomes, order[..k]);
      var j := order[k];
      ApplyInOrder(items, base, outcomes, order[..k + 1]) ==
        if outcomes[j].Resolved? then prev[base + j := prev[base + j].(video := Some(outcomes[j].video))] else prev
  {
    assert order[..k + 1][..k] == order[..k];
  }

  /** One more finished child replaces the message left on screen exactly when it failed. */
  lemma LastFailureStep(outcomes: seq<Resolution>, order: seq<nat>, k: nat)
    requires forall i :: 0 <= i < |order| ==> order[i] < |outcomes|
    requires k < |order|
    ensures LastFailure(outcomes, order[..k + 1]) ==
      if outcomes[order[k]].Failed? then Some(outcomes[order[k]].error) else LastFailure(outcomes, order[..k])
  {
    assert order[..k + 1][..k] == order[..k];
  }

  /** After the writes of some children, a new slot holds its clip exactly when its child has
      finished with one; the other slots are as they were. */
  lemma {:induction false} ApplyInOrderSlots(items: seq<VideoItem>, base: nat, outcomes: seq<Resolution>, order: seq<nat>, s: nat)
    requires base + |outcomes| <= |items|
    requires forall k :: 0 <= k < |order| ==> order[k] < |outcomes|
    requires s < |items|
    ensures ApplyInOrder(items, base, outcomes, order)[s] ==
      if base <= s < base + |outcomes| && s - base in order && outcomes[s - base].Resolved?
      then items[s].(video := Some(outcomes[s - base].video)) else items[s]
  {
    if order != [] {
      var init := order[..|order| - 1];
      ApplyInOrderSlots(items, base, outcomes, init, s);
      assert order == init + [order[|order| - 1]];
    }
  }

  /** Completion order does not matter: once every child has finished, in whatever order, the list
      is the one where each new slot holds its own fetch result's clip. */
  lemma ApplyInOrderIsOrderFree(items: seq<VideoItem>, base: nat, outcomes: seq<Resolution>, order: seq<nat>)
    requires base + |outcomes| <= |items|
    requires CompletionOrder(order, |outcomes|)
    ensures ApplyInOrder(items, base, outcomes, order) == WithResolved(items, base, outcomes)
  {
    forall s | 0 <= s < |items|
      ensures ApplyInOrder(items, base, outcomes, order)[s] == WithResolved(items, base, outcomes)[s]
    {
      ApplyInOrderSlots(items, base, outcomes, order, s);
    }
  }

  // ---------------------------------------------------------------------------
  // The task group as written

  /** The task group of `addVideos` as written: it runs over every index `i` of the whole list,
      reads fetch result `i`, and writes slot `i`. `None` stands for the trap that
      `fetchResult.object(at:)` raises once `i` passes the end of the fetch result. */
  function ResolveAsWritten(items: seq<VideoItem>, outcomes: seq<Resolution>): (r: Option<seq<VideoItem>>)
    ensures r.None? <==> |items| > |outcomes|
    ensures r.Some? ==> |r.value| == |items| && forall i :: 0 <= i < |items| ==>
      && r.value[i].id == items[i].id
      && r.value[i].video == if outcomes[i].Resolved? then Some(outcomes[i].video) else items[i].video
  {
    if |items| > |outcomes| then None else Some(WithResolved(items, 0, outcomes[..|items|]))
  }

  /** On a first pick (the list was empty) the loop as written and the corrected one agree. */
  lemma AsWrittenAgreesOnFirstPick(selected: seq<PickerItem>, outcomes: seq<Resolution>)
    requires |outcomes| == |selected|
    ensures ResolveAsWritten([] + NewSlots(Identifiers(selected)), outcomes)
      == Some(WithResolved([] + NewSlots(Identifiers(selected)), 0, outcomes[..|Identifiers(selected)|]))
  {
  }

  /** With clips already in the list, the loop as written runs past the fetch result: one clip
      loaded, one more picked and fetched, and the second index traps; the corrected loop fills the
      new slot and keeps the old one. */
  lemma AsWrittenTrapsOnSecondPick(first: VideoItem, v: Video)
    ensures ResolveAsWritten([first] + NewSlots(["B"]), [Resolved(v)]) == None
    ensures WithResolved([first] + NewSlots(["B"]), 1, [Resolved(v)]) == [first, VideoItem("B", 0.0, Some(v))]
  {
  }
}
