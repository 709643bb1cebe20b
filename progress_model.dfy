/** `ProgressModel`: a progress value refreshed by a repeating timer from a supplied value, until the
    supplied value reaches 1.0, when the timer is cancelled. The supplier closure becomes the value
    each timer tick passes in; a cancelled timer delivers no more ticks. */
module Progress {

  /** The part of the model the timer drives: the progress value and whether a timer is live. */
  datatype TrackerState = TrackerState(progress: real, timerActive: bool)

  /** One timer tick with supplied value `supplied`. */
  function TickStep(s: TrackerState, supplied: real): (r: TrackerState)
    ensures !s.timerActive ==> r == s
    ensures s.timerActive ==> r.progress <= 1.0
    ensures r.timerActive ==> s.timerActive && supplied < 1.0 && r.progress == supplied
    ensures s.timerActive && !r.timerActive ==> supplied >= 1.0 && r.progress == 1.0
  {
    if !s.timerActive then s
    else if supplied < 1.0 then TrackerState(supplied, true)
    else TrackerState(1.0, false)
  }

  /** A run of ticks, one per supplied value, in order. */
  function RunTicks(s: TrackerState, supplied: seq<real>): TrackerState
    decreases |supplied|
  {
    if supplied == [] then s else RunTicks(TickStep(s, supplied[0]), supplied[1..])
  }

  /** The state `startTrackingProgress` leaves. */
  const Started: TrackerState := TrackerState(0.0, true)

  class ProgressModel {
    var progress: real
    var timerActive: bool

    function State(): TrackerState
      reads this
    {
      TrackerState(progress, timerActive)
    }

    /** `init(progress:progressSupplier:)`: the given progress, no timer yet. */
    constructor (progress: real)
      ensures State() == TrackerState(progress, false)
    {
      this.progress := progress;
      timerActive := false;
    }

    /** `startTrackingProgress`: resets progress to 0 and schedules the timer. */
    method StartTrackingProgress()
      modifies this
      ensures State() == Started
    {
      progress := 0.0;
      timerActive := true;
    }

    /** The timer's sink: a supplied value below 1.0 becomes the progress; any other value sets the
        progress to 1.0 and cancels the timer. After a tick that fires, progress is at most 1.0. */
    method Tick(supplied: real)
      modifies this
      ensures State() == TickStep(old(State()), supplied)
      ensures old(timerActive) ==> progress <= 1.0
      ensures old(timerActive) && supplied < 1.0 ==> progress == supplied && timerActive
      ensures old(timerActive) && supplied >= 1.0 ==> progress == 1.0 && !timerActive
      ensures !old(timerActive) ==> progress == old(progress) && !timerActive
    {
      if !timerActive {
        return;
      }
      var newProgress := supplied;
      if newProgress < 1.0 {
        progress := newProgress;
      } else {
        progress := 1.0;
        timerActive := false;
      }
    }
  }

  // ---------------------------------------------------------------------------
  // Properties of runs of ticks

  /** Once the timer is cancelled, further ticks change nothing. */
  lemma {:induction false} CancelledTicksChangeNothing(s: TrackerState, supplied: seq<real>)
    requires !s.timerActive
    ensures RunTicks(s, supplied) == s
    decreases |supplied|
  {
    if supplied != [] {
      CancelledTicksChangeNothing(TickStep(s, supplied[0]), supplied[1..]);
    }
  }

  /** While a timer is live the progress stays at most 1.0, through any run of ticks. */
  lemma {:induction false} TicksKeepProgressBounded(s: TrackerState, supplied: seq<real>)
    requires s.timerActive ==> s.progress <= 1.0
    ensures RunTicks(s, supplied).timerActive ==> RunTicks(s, supplied).progress <= 1.0
    decreases |supplied|
  {
    if supplied != [] {
      TicksKeepProgressBounded(TickStep(s, supplied[0]), supplied[1..]);
    }
  }

  /** From `startTrackingProgress`, any run of ticks leaves progress at most 1.0. */
  lemma {:induction false} StartedProgressBounded(supplied: seq<real>)
    ensures RunTicks(Started, supplied).progress <= 1.0
  {
    if supplied != [] {
      var next := TickStep(Started, supplied[0]);
      if next.timerActive {
        TicksKeepProgressBounded(next, supplied[1..]);
        TicksStayCancelledOrActive(next, supplied[1..]);
      } else {
        CancelledTicksChangeNothing(next, supplied[1..]);
      }
    }
  }

  /** A run from a live timer with bounded progress ends either live or cancelled at exactly 1.0. */
  lemma {:induction false} TicksStayCancelledOrActive(s: TrackerState, supplied: seq<real>)
    requires s.timerActive && s.progress <= 1.0
    ensures RunTicks(s, supplied).timerActive || RunTicks(s, supplied).progress == 1.0
    decreases |supplied|
  {
    if supplied != [] {
      var next := TickStep(s, supplied[0]);
      if next.timerActive {
        TicksStayCancelledOrActive(next, supplied[1..]);
      } else {
        CancelledTicksChangeNothing(next, supplied[1..]);
      }
    }
  }

  /** The first supplied value at or above 1.0 finishes tracking: from a live timer, the run ends
      cancelled with progress exactly 1.0, whatever is supplied afterwards. */
  lemma {:induction false} TicksFinishAtOne(s: TrackerState, supplied: seq<real>, k: nat)
    requires s.timerActive
    requires k < |supplied| && supplied[k] >= 1.0
    ensures RunTicks(s, supplied) == TrackerState(1.0, false)
    decreases |supplied|
  {
    var next := TickStep(s, supplied[0]);
    if next.timerActive {
      assert k > 0;
      TicksFinishAtOne(next, supplied[1..], k - 1);
    } else {
      CancelledTicksChangeNothing(next, supplied[1..]);
    }
  }
}
