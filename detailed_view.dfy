/** The two trim buttons of `DetailedView`: "->|" sets the clip's start to the player's current time,
    "|<-" sets its end. Each writes one entry of the model's clip list in place and then decides
    whether to repair the other trim point from `video`, the copy of the slot taken when the view
    was built, not from the values just written. */
module TrimView {
  import opened Utils
  import opened Timeline
  import opened JoinModel

  /** Whether the trim buttons are on screen: the live slot holds a clip and so does the snapshot. */
  predicate ShowsTrimButtons(items: seq<VideoItem>, index: nat, snapshot: Option<Video>)
    requires index < |items|
  {
    items[index].video.Some? && snapshot.Some?
  }

  /** The list after "->|" as written. Only the handler's own entry changes: its start becomes the
      player time, and its end becomes the clip's length only when the snapshot's trim points were
      reversed; the entry's download progress and every other field of the clip are kept. With the
      buttons hidden nothing changes. */
  function SetStartAsWritten(items: seq<VideoItem>, index: nat, snapshot: Option<Video>, currentTime: Ticks): (r: seq<VideoItem>)
    requires index < |items|
    ensures |r| == |items|
    ensures forall k :: 0 <= k < |items| && k != index ==> r[k] == items[k]
    ensures !ShowsTrimButtons(items, index, snapshot) ==> r == items
    ensures ShowsTrimButtons(items, index, snapshot) ==>
      && r[index].id == items[index].id
      && r[index].video.Some?
      && r[index].video.value.trimStart == currentTime
      && r[index].video.value.trimEnd ==
           (if snapshot.value.trimStart > snapshot.value.trimEnd then snapshot.value.duration
            else items[index].video.value.trimEnd)
      && r[index].downloadProgress == items[index].downloadProgress
      && r[index].video.value.(trimStart := 0, trimEnd := 0) == items[index].video.value.(trimStart := 0, trimEnd := 0)
  {
    if !ShowsTrimButtons(items, index, snapshot) then items
    else
      var live := items[index].video.value.(trimStart := currentTime);
      var fixed := if snapshot.value.trimStart > snapshot.value.trimEnd
                   then live.(trimEnd := snapshot.value.duration) else live;
      items[index := items[index].(video := Some(fixed))]
  }

  /** The list after "|<-" as written. Only the handler's own entry changes: its end becomes the
      player time, and its start is reset to 0 only when the snapshot's trim points were reversed;
      the entry's download progress and every other field of the clip are kept. With the buttons
      hidden nothing changes. */
  function SetEndAsWritten(items: seq<VideoItem>, index: nat, snapshot: Option<Video>, currentTime: Ticks): (r: seq<VideoItem>)
    requires index < |items|
    ensures |r| == |items|
    ensures forall k :: 0 <= k < |items| && k != index ==> r[k] == items[k]
    ensures !ShowsTrimButtons(items, index, snapshot) ==> r == items
    ensures ShowsTrimButtons(items, index, snapshot) ==>
      && r[index].id == items[index].id
      && r[index].video.Some?
      && r[index].video.value.trimEnd == currentTime
      && r[index].video.value.trimStart ==
           (if snapshot.value.trimStart > snapshot.value.trimEnd then 0
            else items[index].video.value.trimStart)
      && r[index].downloadProgress == items[index].downloadProgress
      && r[index].video.value.(trimStart := 0, trimEnd := 0) == items[index].video.value.(trimStart := 0, trimEnd := 0)
  {
    if !ShowsTrimButtons(items, index, snapshot) then items
    else
      var live := items[index].video.value.(trimEnd := currentTime);
      var fixed := if snapshot.value.trimStart > snapshot.value.trimEnd
                   then live.(trimStart := 0) else live;
      items[index := items[index].(video := Some(fixed))]
  }

  class DetailedView {
    const model: VideoJoinModel
    const index: nat
    /** The slot's clip as it was when the view was built. */
    const video: Option<Video>

    /** `init(model:index:)`: subscripting the list traps outside its bounds. */
    constructor (model: VideoJoinModel, index: nat)
      requires index < |model.videos|
      ensures this.model == model && this.index == index && video == model.videos[index].video
    {
      this.model := model;
      this.index := index;
      video := model.videos[index].video;
    }

    /** "->|": see `SetStartAsWritten`; no other list entry and no other model field changes. */
    method SetStart(currentTime: Ticks)
      requires index < |model.videos|
      modifies model`videos
      ensures model.videos == SetStartAsWritten(old(model.videos), index, video, currentTime)
    {
      if model.videos[index].video.None? || video.None? {
        return;
      }
      var item := model.videos[index];
      model.videos := model.videos[index := item.(video := Some(item.video.value.(trimStart := currentTime)))];
      if video.value.trimStart > video.value.trimEnd {
        var written := model.videos[index];
        model.videos := model.videos[index := written.(video := Some(written.video.value.(trimEnd := video.value.duration)))];
      }
    }

    /** "|<-": see `SetEndAsWritten`; no other list entry and no other model field changes.
        Pausing and seeking the player are left out. */
    method SetEnd(currentTime: Ticks)
      requires index < |model.videos|
      modifies model`videos
      ensures model.videos == SetEndAsWritten(old(model.videos), index, video, currentTime)
    {
      if model.videos[index].video.None? || video.None? {
        return;
      }
      var item := model.videos[index];
      model.videos := model.videos[index := item.(video := Some(item.video.value.(trimEnd := currentTime)))];
      if video.value.trimStart > video.value.trimEnd {
        var written := model.videos[index];
        model.videos := model.videos[index := written.(video := Some(written.video.value.(trimStart := 0)))];
      }
    }
  }

  // ---------------------------------------------------------------------------
  // Properties of the handlers as written

  /** The repair looks at the snapshot, not at the value just written: a 10 s clip trimmed to
      [0 s, 5 s], with the snapshot up to date, gets its start set at 8 s and is left with the
      reversed range [8 s, 5 s]; setting its end at 2 s from [4 s, 10 s] likewise leaves [4 s, 2 s]. */
  lemma HandlersAsWrittenLeaveReversedTrim(v: Video)
    requires v.duration == 10 * Timescale
    ensures var clip := v.(trimStart := 0, trimEnd := 5 * Timescale);
      var r := SetStartAsWritten([VideoItem("A", 1.0, Some(clip))], 0, Some(clip), 8 * Timescale);
      r[0].video.value.trimStart > r[0].video.value.trimEnd
    ensures var clip := v.(trimStart := 4 * Timescale, trimEnd := 10 * Timescale);
      var r := SetEndAsWritten([VideoItem("A", 1.0, Some(clip))], 0, Some(clip), 2 * Timescale);
      r[0].video.value.trimStart > r[0].video.value.trimEnd
  {
  }

  // ---------------------------------------------------------------------------
  // The handlers as evidently intended: repair from the values just written

  /** "->|" repairing from the new start: the end moves to the clip's length when the new start
      passes it. Only the handler's entry changes; its start becomes the player time, the entry's
      download progress and the clip's other fields are kept, and with a player time inside the
      clip the range is never left reversed. */
  function SetStartCorrected(items: seq<VideoItem>, index: nat, currentTime: Ticks): (r: seq<VideoItem>)
    requires index < |items|
    ensures |r| == |items|
    ensures forall k :: 0 <= k < |items| && k != index ==> r[k] == items[k]
    ensures items[index].video.None? ==> r == items
    ensures items[index].video.Some? ==>
      && r[index].id == items[index].id
      && r[index].video.Some?
      && r[index].video.value.trimStart == currentTime
      && r[index].video.value.trimEnd ==
           (if currentTime > items[index].video.value.trimEnd then items[index].video.value.duration
            else items[index].video.value.trimEnd)
      && r[index].downloadProgress == items[index].downloadProgress
      && r[index].video.value.(trimStart := 0, trimEnd := 0) == items[index].video.value.(trimStart := 0, trimEnd := 0)
      && (0 <= currentTime <= items[index].video.value.duration ==>
            r[index].video.value.trimStart <= r[index].video.value.trimEnd)
  {
    if items[index].video.None? then items
    else
      var live := items[index].video.value.(trimStart := currentTime);
      var fixed := if live.trimStart > live.trimEnd then live.(trimEnd := live.duration) else live;
      items[index := items[index].(video := Some(fixed))]
  }

  /** "|<-" repairing from the new end: the start goes back to 0 when it lies past the new end.
      Only the handler's entry changes; its end becomes the player time, the entry's download
      progress and the clip's other fields are kept, and with a player time not before zero the
      range is never left reversed. */
  function SetEndCorrected(items: seq<VideoItem>, index: nat, currentTime: Ticks): (r: seq<VideoItem>)
    requires index < |items|
    ensures |r| == |items|
    ensures forall k :: 0 <= k < |items| && k != index ==> r[k] == items[k]
    ensures items[index].video.None? ==> r == items
    ensures items[index].video.Some? ==>
      && r[index].id == items[index].id
      && r[index].video.Some?
      && r[index].video.value.trimEnd == currentTime
      && r[index].video.value.trimStart ==
           (if items[index].video.value.trimStart > currentTime then 0 else items[index].video.value.trimStart)
      && r[index].downloadProgress == items[index].downloadProgress
      && r[index].video.value.(trimStart := 0, trimEnd := 0) == items[index].video.value.(trimStart := 0, trimEnd := 0)
      && (0 <= currentTime ==> r[index].video.value.trimStart <= r[index].video.value.trimEnd)
  {
    if items[index].video.None? then items
    else
      var live := items[index].video.value.(trimEnd := currentTime);
      var fixed := if live.trimStart > live.trimEnd then live.(trimStart := 0) else live;
      items[index := items[index].(video := Some(fixed))]
  }
}
