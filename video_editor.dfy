/** `VideoEditor.createComposition`: one pass over the clips that inserts each trimmed segment
    into a video and an audio track back to back, records a `VideoTrack` per clip, and keeps
    running maxima of size and frame rate and a running total of file size. */
module VideoEditor {
  import opened Utils
  import opened Timeline

  /** What the pass records per clip (`struct VideoTrack`, without the framework's track object). */
  datatype VideoTrack = VideoTrack(video: Video, start: Ticks, duration: Ticks, insertTime: Ticks)

  /** The running aggregates of the pass. The source computes these and then drops them;
      they are returned here so that their final values can be stated. */
  datatype Stats = Stats(maxWidth: real, maxHeight: real, highestFrameRate: real, fileSize: int)

  /** What a successful pass returns. */
  datatype Output = Output(composition: Composition, tracks: seq<VideoTrack>, stats: Stats)

  function Width(v: Video): real { v.media.naturalWidth }
  function Height(v: Video): real { v.media.naturalHeight }
  function FrameRate(v: Video): real { v.media.nominalFrameRate }

  /** `max` folded over the clips from a start of 0. */
  function MaxOf(vs: seq<Video>, f: Video -> real): real {
    if vs == [] then 0.0
    else
      var m := MaxOf(vs[..|vs| - 1], f);
      if m < f(vs[|vs| - 1]) then f(vs[|vs| - 1]) else m
  }

  /** The summed byte sizes of the clips. */
  function TotalSize(vs: seq<Video>): int {
    if vs == [] then 0 else TotalSize(vs[..|vs| - 1]) + vs[|vs| - 1].size
  }

  /** The record the pass appends for clip `i`: the clip itself, its segment length, and its
      place on the timeline, which is also what `start` holds. */
  function TrackFor(vs: seq<Video>, i: nat): VideoTrack
    requires i < |vs|
  {
    VideoTrack(vs[i], StartOf(vs, i), Duration(vs[i]), StartOf(vs, i))
  }

  function TrackList(vs: seq<Video>): (r: seq<VideoTrack>)
    ensures |r| == |vs|
    ensures forall i :: 0 <= i < |vs| ==> r[i] == TrackFor(vs, i)
  {
    seq(|vs|, i requires 0 <= i < |vs| => TrackFor(vs, i))
  }

  /** The message thrown for a clip lacking either track (the same text for both). */
  function TrackErrorMessage(v: Video): string {
    "Error loading video track for " + v.url
  }

  /** Builds the composition. Succeeds exactly when every clip has both tracks; then both tracks hold
      the back-to-back layout, there is one `VideoTrack` per clip in clip order, and the aggregates are
      the maxima (from 0) and the total size. Otherwise it fails on the first clip lacking a track. */
  method CreateComposition(videos: seq<Video>) returns (r: Result<Output, Error>)
    ensures r.Success? <==> AllPlayable(videos)
    ensures r.Failure? ==> r.error == Err(TrackErrorMessage(videos[FirstUnplayable(videos)]))
    ensures r.Success? ==>
      && r.value.composition == Composition(Layout(videos), Layout(videos))
      && r.value.tracks == TrackList(videos)
      && r.value.stats == Stats(MaxOf(videos, Width), MaxOf(videos, Height),
                                MaxOf(videos, FrameRate), TotalSize(videos))
  {
    var videoTrack: seq<Insertion> := [];
    var audioTrack: seq<Insertion> := [];
    var tracks: seq<VideoTrack> := [];
    var insertTime: Ticks := 0;
    var fileSize: int := 0;
    var maxWidth: real := 0.0;
    var maxHeight: real := 0.0;
    var highestFrameRate: real := 0.0;

    for i := 0 to |videos|
      invariant forall j :: 0 <= j < i ==> Playable(videos[j])
      invariant insertTime == StartOf(videos, i)
      invariant videoTrack == Layout(videos[..i]) && audioTrack == videoTrack
      invariant tracks == TrackList(videos[..i])
      invariant maxWidth == MaxOf(videos[..i], Width)
      invariant maxHeight == MaxOf(videos[..i], Height)
      invariant highestFrameRate == MaxOf(videos[..i], FrameRate)
      invariant fileSize == TotalSize(videos[..i])
    {
      var video := videos[i];
      var start := video.trimStart;
      var duration := video.trimEnd - video.trimStart;
      if !video.media.hasVideoTrack {
        FirstUnplayableAt(videos, i);
        return Failure(Err(TrackErrorMessage(video)));
      }
      videoTrack := videoTrack + [Insertion(video.url, start, duration, insertTime)];

      LayoutStep(videos, i);
      TrackListStep(videos, i);
      AggregatesStep(videos, i);
      var width := video.media.naturalWidth;
      var height := video.media.naturalHeight;
      maxWidth := if maxWidth < width then width else maxWidth;
      maxHeight := if maxHeight < height then height else maxHeight;
      var frameRate := video.media.nominalFrameRate;
      highestFrameRate := if highestFrameRate < frameRate then frameRate else highestFrameRate;

      if !video.media.hasAudioTrack {
        FirstUnplayableAt(videos, i);
        return Failure(Err(TrackErrorMessage(video)));
      }
      audioTrack := audioTrack + [Insertion(video.url, start, duration, insertTime)];
      tracks := tracks + [VideoTrack(video, insertTime, duration, insertTime)];

      StartOfNext(videos, i);
      insertTime := insertTime + duration;
      fileSize := fileSize + video.size;
    }
    assert videos[..|videos|] == videos;
    r := Success(Output(Composition(videoTrack, audioTrack), tracks,
                        Stats(maxWidth, maxHeight, highestFrameRate, fileSize)));
  }

  /** One more clip appends its own record and leaves the earlier ones as they were. */
  lemma TrackListStep(vs: seq<Video>, i: nat)
    requires i < |vs|
    ensures TrackList(vs[..i + 1]) == TrackList(vs[..i]) + [TrackFor(vs, i)]
  {
    forall j | 0 <= j <= i
      ensures TrackFor(vs[..i + 1], j) == TrackFor(vs, j)
      ensures j < i ==> TrackFor(vs[..i], j) == TrackFor(vs, j)
    {
      StartOfPrefix(vs, i + 1, j);
      if j < i {
        StartOfPrefix(vs, i, j);
      }
    }
  }

  /** What one more clip does to the running aggregates. */
  lemma AggregatesStep(vs: seq<Video>, i: nat)
    requires i < |vs|
    ensures var m := MaxOf(vs[..i], Width);
      MaxOf(vs[..i + 1], Width) == if m < Width(vs[i]) then Width(vs[i]) else m
    ensures var m := MaxOf(vs[..i], Height);
      MaxOf(vs[..i + 1], Height) == if m < Height(vs[i]) then Height(vs[i]) else m
    ensures var m := MaxOf(vs[..i], FrameRate);
      MaxOf(vs[..i + 1], FrameRate) == if m < FrameRate(vs[i]) then FrameRate(vs[i]) else m
    ensures TotalSize(vs[..i + 1]) == TotalSize(vs[..i]) + vs[i].size
  {
    assert vs[..i + 1][..i] == vs[..i];
  }

  // ---------------------------------------------------------------------------
  // Properties of the track list and the aggregates

  /** One track per clip, in clip order, each carrying its own clip. */
  lemma TrackListFollowsClips(vs: seq<Video>, i: nat)
    requires i < |vs|
    ensures |TrackList(vs)| == |vs| && TrackList(vs)[i].video == vs[i]
  {
  }

  /** The first track is inserted at time zero and each later one where the previous one ends;
      every track's `start` is its insert time, not its clip's `trimStart`; its duration is the
      clip's segment length. */
  lemma TrackListTiming(vs: seq<Video>, i: nat)
    requires i < |vs|
    ensures TrackList(vs)[0].insertTime == 0
    ensures i + 1 < |vs| ==>
      TrackList(vs)[i + 1].insertTime == TrackList(vs)[i].insertTime + TrackList(vs)[i].duration
    ensures TrackList(vs)[i].start == TrackList(vs)[i].insertTime
    ensures TrackList(vs)[i].duration == vs[i].trimEnd - vs[i].trimStart
  {
    StartOfNext(vs, i);
  }

  /** The running maximum bounds every clip's value, is never negative, and is 0 or one clip's value. */
  lemma {:induction false} MaxOfIsMaximum(vs: seq<Video>, f: Video -> real)
    ensures MaxOf(vs, f) >= 0.0
    ensures forall i :: 0 <= i < |vs| ==> f(vs[i]) <= MaxOf(vs, f)
    ensures MaxOf(vs, f) == 0.0 || exists i :: 0 <= i < |vs| && MaxOf(vs, f) == f(vs[i])
  {
    if vs != [] {
      var init := vs[..|vs| - 1];
      MaxOfIsMaximum(init, f);
      assert forall i :: 0 <= i < |init| ==> vs[i] == init[i];
    }
  }

  /** With clips present and values not negative, the maximum is attained by some clip. */
  lemma MaxOfAttained(vs: seq<Video>, f: Video -> real)
    requires |vs| > 0
    requires forall i :: 0 <= i < |vs| ==> f(vs[i]) >= 0.0
    ensures exists i :: 0 <= i < |vs| && MaxOf(vs, f) == f(vs[i])
  {
    MaxOfIsMaximum(vs, f);
    if MaxOf(vs, f) == 0.0 {
      assert f(vs[0]) <= 0.0;
    }
  }

  /** The total size adds up over a split of the clip list. */
  lemma {:induction false} TotalSizeAppend(a: seq<Video>, b: seq<Video>)
    ensures TotalSize(a + b) == TotalSize(a) + TotalSize(b)
    decreases |b|
  {
    if b == [] {
      assert a + b == a;
    } else {
      var b' := b[..|b| - 1];
      assert (a + b)[..|a + b| - 1] == a + b';
      TotalSizeAppend(a, b');
    }
  }
}
