/** The clip records of VideoJoinModel.swift and the back-to-back timeline layout that
    `VideoEditor.createComposition` and `VideoJoinModel.merge` both build.

    Times are integer ticks of 1/600 s, the timescale both layout passes give their `CMTime`
    values; the `Double` seconds held in a `Video` are taken to be whole ticks already. */
module Timeline {
  import opened Utils

  /** A time or duration in 1/600 s. */
  type Ticks = int

  /** Ticks per second, `preferredTimescale: 600`. */
  const Timescale: nat := 600

  /** A capture date, in whole seconds of some fixed reference. */
  type Date = int

  /** What the media framework reports about a clip's file when the layout opens it. */
  datatype MediaInfo = MediaInfo(
    hasVideoTrack: bool,
    hasAudioTrack: bool,
    naturalWidth: real,
    naturalHeight: real,
    nominalFrameRate: real)

  /** A resolved clip (`struct Video`): its file, capture date, full length, byte size
      (-1 when unknown), trim points, and what its file holds. */
  datatype Video = Video(
    url: string,
    date: Option<Date>,
    duration: Ticks,
    size: int,
    trimStart: Ticks,
    trimEnd: Ticks,
    media: MediaInfo)

  /** One slot of the clip list (`struct VideoItem`): `video` stays `None` until the clip resolves. */
  datatype VideoItem = VideoItem(id: string, downloadProgress: real, video: Option<Video>)

  /** One `insertTimeRange` into a composition track: the source range [start, start + duration)
      of the clip at `source`, placed at `at`. */
  datatype Insertion = Insertion(source: string, start: Ticks, duration: Ticks, at: Ticks)

  /** The two mutable tracks of an `AVMutableComposition`, as the ranges inserted into them. */
  datatype Composition = Composition(videoTrack: seq<Insertion>, audioTrack: seq<Insertion>)

  /** The segment length of a clip, `trimEnd - trimStart`. */
  function Duration(v: Video): Ticks {
    v.trimEnd - v.trimStart
  }

  /** The sum of the segment lengths of `vs`. */
  function TotalDuration(vs: seq<Video>): Ticks {
    if vs == [] then 0 else TotalDuration(vs[..|vs| - 1]) + Duration(vs[|vs| - 1])
  }

  /** Where clip `i` lands on the timeline: after all the clips before it. */
  function StartOf(vs: seq<Video>, i: nat): Ticks
    requires i <= |vs|
  {
    TotalDuration(vs[..i])
  }

  /** The insertion that places clip `i`. */
  function Placement(vs: seq<Video>, i: nat): Insertion
    requires i < |vs|
  {
    Insertion(vs[i].url, vs[i].trimStart, Duration(vs[i]), StartOf(vs, i))
  }

  /** The insertions of a whole pass, one per clip, in clip order. */
  function Layout(vs: seq<Video>): (r: seq<Insertion>)
    ensures |r| == |vs|
    ensures forall i :: 0 <= i < |vs| ==> r[i] == Placement(vs, i)
  {
    seq(|vs|, i requires 0 <= i < |vs| => Placement(vs, i))
  }

  /** A clip the layout can use: its file has both a video and an audio track. */
  predicate Playable(v: Video) {
    v.media.hasVideoTrack && v.media.hasAudioTrack
  }

  predicate AllPlayable(vs: seq<Video>) {
    forall i :: 0 <= i < |vs| ==> Playable(vs[i])
  }

  /** The clip on which a pass stops with an error: the first one lacking a track. */
  function FirstUnplayable(vs: seq<Video>): (k: nat)
    requires !AllPlayable(vs)
    ensures k < |vs| && !Playable(vs[k])
    ensures forall j :: 0 <= j < k ==> Playable(vs[j])
  {
    if !Playable(vs[0]) then 0 else 1 + FirstUnplayable(vs[1..])
  }

  /** A pass that has accepted clips `0..i` and finds clip `i` lacking a track stops on the first
      unplayable clip. */
  lemma FirstUnplayableAt(vs: seq<Video>, i: nat)
    requires i < |vs| && !Playable(vs[i])
    requires forall j :: 0 <= j < i ==> Playable(vs[j])
    ensures !AllPlayable(vs) && FirstUnplayable(vs) == i
  {
  }

  /** `videos.compactMap(\.video)`: the loaded clips, in list order. */
  function LoadedVideos(items: seq<VideoItem>): (r: seq<Video>)
    ensures |r| <= |items|
    ensures (forall i :: 0 <= i < |items| ==> items[i].video.Some?) ==> |r| == |items|
  {
    if items == [] then []
    else (if items[0].video.Some? then [items[0].video.value] else []) + LoadedVideos(items[1..])
  }

  // ---------------------------------------------------------------------------
  // Properties of the layout

  /** The first clip starts at time zero. */
  lemma StartOfFirst(vs: seq<Video>)
    ensures StartOf(vs, 0) == 0
  {
  }

  /** Each clip starts where the previous one ends. */
  lemma StartOfNext(vs: seq<Video>, i: nat)
    requires i < |vs|
    ensures StartOf(vs, i + 1) == StartOf(vs, i) + Duration(vs[i])
  {
    assert vs[..i + 1][..i] == vs[..i];
  }

  /** Placements are unaffected by what follows: a prefix of the clips is laid out as in the whole. */
  lemma StartOfPrefix(vs: seq<Video>, n: nat, i: nat)
    requires i <= n <= |vs|
    ensures StartOf(vs[..n], i) == StartOf(vs, i)
  {
    assert vs[..n][..i] == vs[..i];
  }

  /** The timeline length adds up over a split of the clip list. */
  lemma {:induction false} TotalDurationAppend(a: seq<Video>, b: seq<Video>)
    ensures TotalDuration(a + b) == TotalDuration(a) + TotalDuration(b)
    decreases |b|
  {
    if b == [] {
      assert a + b == a;
    } else {
      var b' := b[..|b| - 1];
      assert (a + b)[..|a + b| - 1] == a + b';
      TotalDurationAppend(a, b');
    }
  }

  /** With no reversed trims, segments do not overlap and leave no gap: clip `j` starts exactly
      the summed length of clips `i..j` after clip `i`, which is at least clip `i`'s own length. */
  lemma {:induction false} StartOfOrdered(vs: seq<Video>, i: nat, j: nat)
    requires i < j <= |vs|
    requires forall k :: 0 <= k < |vs| ==> vs[k].trimStart <= vs[k].trimEnd
    ensures StartOf(vs, j) == StartOf(vs, i) + TotalDuration(vs[i..j])
    ensures StartOf(vs, i) + Duration(vs[i]) <= StartOf(vs, j)
  {
    assert vs[..j] == vs[..i] + vs[i..j];
    TotalDurationAppend(vs[..i], vs[i..j]);
    TotalDurationAtLeastFirst(vs[i..j]);
  }

  lemma {:induction false} TotalDurationAtLeastFirst(vs: seq<Video>)
    requires |vs| > 0
    requires forall k :: 0 <= k < |vs| ==> vs[k].trimStart <= vs[k].trimEnd
    ensures TotalDuration(vs) >= Duration(vs[0])
  {
    if |vs| > 1 {
      TotalDurationAtLeastFirst(vs[..|vs| - 1]);
    }
  }

  /** Laying out one more clip appends its placement and leaves the earlier ones as they were. */
  lemma LayoutStep(vs: seq<Video>, i: nat)
    requires i < |vs|
    ensures Layout(vs[..i + 1]) == Layout(vs[..i]) + [Placement(vs, i)]
  {
    forall j | 0 <= j <= i
      ensures Placement(vs[..i + 1], j) == Placement(vs, j)
      ensures j < i ==> Placement(vs[..i], j) == Placement(vs, j)
    {
      StartOfPrefix(vs, i + 1, j);
      if j < i {
        StartOfPrefix(vs, i, j);
      }
    }
  }

  /** Three clips trimmed to [2 s, 8 s], [0 s, 6 s] and [1 s, 4 s] are placed at 0 s, 6 s and 12 s
      with lengths 6 s, 6 s and 3 s, whatever else they hold. */
  lemma LayoutOfThreeClips(a: Video, b: Video, c: Video)
    requires a.trimStart == 2 * Timescale && a.trimEnd == 8 * Timescale
    requires b.trimStart == 0 && b.trimEnd == 6 * Timescale
    requires c.trimStart == 1 * Timescale && c.trimEnd == 4 * Timescale
    ensures var l := Layout([a, b, c]);
      && l[0].at == 0 && l[0].duration == 6 * Timescale && l[0].start == 2 * Timescale
      && l[1].at == 6 * Timescale && l[1].duration == 6 * Timescale
      && l[2].at == 12 * Timescale && l[2].duration == 3 * Timescale
      && TotalDuration([a, b, c]) == 15 * Timescale
  {
    var vs := [a, b, c];
    StartOfNext(vs, 0);
    StartOfNext(vs, 1);
    StartOfNext(vs, 2);
    assert vs[..3] == vs;
  }

  /** `compactMap` keeps list order across a split of the list. */
  lemma {:induction false} LoadedVideosAppend(a: seq<VideoItem>, b: seq<VideoItem>)
    ensures LoadedVideos(a + b) == LoadedVideos(a) + LoadedVideos(b)
  {
    if a != [] {
      assert (a + b)[1..] == a[1..] + b;
      LoadedVideosAppend(a[1..], b);
    } else {
      assert a + b == b;
    }
  }

  /** A clip is loaded exactly when some slot holds it. */
  lemma {:induction false} LoadedVideosMembers(items: seq<VideoItem>, v: Video)
    ensures v in LoadedVideos(items) <==> exists i :: 0 <= i < |items| && items[i].video == Some(v)
  {
    if items != [] {
      LoadedVideosMembers(items[1..], v);
      if exists i :: 0 <= i < |items[1..]| && items[1..][i].video == Some(v) {
        var i :| 0 <= i < |items[1..]| && items[1..][i].video == Some(v);
        assert items[i + 1].video == Some(v);
      }
      if exists i :: 0 <= i < |items| && items[i].video == Some(v) {
        var i :| 0 <= i < |items| && items[i].video == Some(v);
        if i > 0 {
          assert items[1..][i - 1].video == Some(v);
        }
      }
    }
  }
}
