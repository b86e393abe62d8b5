/**
 * `ArmatureOperator`: loading a gloss's animation and resampling it to the
 * number of frames the timing table asks for.
 */
module ArmatureUtils {
  import opened Wrappers
  import opened Frames
  import opened Host
  import opened MmsParser
  import opened Extract
  import opened BpyUtils

  /** What `resample` is told: the table's frames in absolute mode, the gloss's duration in relative mode. */
  datatype ResampleTiming = Absolute(start: int, end: int) | Relative(duration: Duration)

  /**
   * The number of frames of the resampled animation: the frames from start to
   * end inclusive; a share of the original whole-frame span, plus one, rounded
   * up; or a duration given in frames as it is.
   */
  function TargetCount(timing: ResampleTiming, range: (real, real)): (r: int)
    ensures timing.Absolute? ==> r == timing.end - timing.start + 1
    ensures timing.Relative? && timing.duration.Frames? ==> r == timing.duration.count
    ensures timing.Relative? && timing.duration.Ratio? ==>
      var span := (Trunc(range.1) - Trunc(range.0)) as real;
      (r - 1) as real < timing.duration.ratio * span + 1.0 <= r as real
  {
    match timing
    case Absolute(start, end) => end - start + 1
    case Relative(Frames(n)) => n
    case Relative(Ratio(ratio)) => Ceil(ratio * (Trunc(range.1) - Trunc(range.0)) as real + 1.0)
  }

  /** The full share keeps the whole-frame count of the original: its span plus one. */
  lemma FullShareKeepsCount(range: (real, real))
    ensures TargetCount(Relative(Ratio(1.0)), range) == Trunc(range.1) - Trunc(range.0) + 1
  {
    var span := Trunc(range.1) - Trunc(range.0);
    WholeRoundings((span + 1) as real);
  }

  /** A share strictly between 0 and 1 of a span of at least one frame gives at least two frames. */
  lemma ShareCountAtLeastTwo(ratio: real, range: (real, real))
    requires 0.0 < ratio && Trunc(range.0) < Trunc(range.1)
    ensures TargetCount(Relative(Ratio(ratio)), range) >= 2
  {
    var span := (Trunc(range.1) - Trunc(range.0)) as real;
    assert ratio * span > 0.0;
  }

  /** The prefix the original action is renamed with. */
  const OldPrefix := "old_"

  /** `ArmatureOperator(mms_line)`: the table line of a gloss and the armature its file holds. */
  class ArmatureOperator {
    var mmsLine: MmsLine
    const src: ArmatureObj

    constructor(line: MmsLine, loaded: ArmatureObj)
      ensures mmsLine == line && src == loaded
    {
      mmsLine := line;
      src := loaded;
    }

    /**
     * `resample(timing, use_rel_time)`: the armature's action is renamed
     * `old_<name>` and a new action called `<name>` receives, for every pose
     * bone (IK bones included), the old action sampled on a uniform grid of
     * the target count of points, sample `k` at frame `k + 1`; the new action
     * becomes the armature's action. The line records the original frame range
     * first and the resampled one last.
     */
    method Resample(timing: ResampleTiming, ev: Evaluator) returns (r: Result<()>)
      modifies this, src, src.action
      ensures old(src.action) == null ==> r == Err(AttributeError("action")) && mmsLine == old(mmsLine)
      ensures old(src.action) != null ==>
        var a0 := old(src.action);
        var range := FrameRange(old(a0.fcurves));
        var s := SampleAction([], src.bones, old(a0.fcurves), src.bones, TargetCount(timing, range), ev);
        a0.name == OldPrefix + old(a0.name) && a0.fcurves == old(a0.fcurves) &&
        mmsLine.originalFrameRange == Some(range) &&
        (s.Err? ==> r == Err(s.error)) &&
        (s.Ok? ==>
          r == Ok(()) && src.action != null && fresh(src.action) &&
          src.action.name == old(a0.name) && src.action.fcurves == s.value &&
          mmsLine == old(mmsLine).(originalFrameRange := Some(range), resampledFrameRange := Some(FrameRange(s.value))))
      ensures src.bones == old(src.bones) && src.name == old(src.name) && src.dataName == old(src.dataName)
      ensures src.action == old(src.action) || fresh(src.action)
    {
      var action := src.action;
      if action == null {
        return Err(AttributeError("action"));
      }
      var name := action.name;
      mmsLine := mmsLine.(originalFrameRange := Some(FrameRange(action.fcurves)));
      action.name := OldPrefix + name;
      var sampled := new ActionObj(name);
      var count := TargetCount(timing, FrameRange(action.fcurves));
      var written := SampleFrom(src, action, src.bones, sampled, count, ev);
      if written.Err? {
        return Err(written.error);
      }
      src.action := sampled;
      mmsLine := mmsLine.(resampledFrameRange := Some(FrameRange(sampled.fcurves)));
      r := Ok(());
    }

    /** `copy_armature()`: the copy that receives the inflected animation, named after the gloss's output name. */
    method CopyArmature() returns (dup: ArmatureObj)
      ensures fresh(dup) && dup.action != null && fresh(dup.action)
      ensures dup.name == InflectedPrefix + mmsLine.outputName && dup.bones == src.bones
      ensures dup.action.name == InflectedPrefix + mmsLine.outputName && dup.action.fcurves == []
    {
      dup := Duplicate(src, mmsLine.outputName);
    }
  }

  /**
   * `ArmatureOperator(mms_line)` with `load_animation(mms_line.path)`: a gloss
   * whose file is missing raises before anything is loaded; otherwise the
   * loaded armature data is renamed after the gloss's output name. `loaded` is
   * the first object the file holds, and the model takes its data to be the
   * file's first armature data, which is the one renamed; the file's contents
   * are not modelled, so neither is the check that every object is an armature.
   */
  method Load(line: MmsLine, present: Exists, loaded: ArmatureObj) returns (r: Result<ArmatureOperator>)
    modifies loaded
    ensures r.Err? <==> !present(line.path)
    ensures r.Err? ==> r.error.MissingFile? && unchanged(loaded)
    ensures r.Ok? ==> fresh(r.value) && r.value.src == loaded && r.value.mmsLine == line
    ensures r.Ok? ==>
      loaded.dataName == line.outputName && loaded.name == old(loaded.name) &&
      loaded.bones == old(loaded.bones) && loaded.action == old(loaded.action)
  {
    if !present(line.path) {
      return Err(MissingFile("library data"));
    }
    loaded.dataName := line.outputName;
    var op := new ArmatureOperator(line, loaded);
    r := Ok(op);
  }

  /**
   * Resampling a gloss with at least two target frames, whose bones all have
   * their channels in the original action, leaves an action whose frame range
   * is exactly `(1, count)`, which is what the line records as its resampled range.
   */
  lemma ResampledFrameRange(bones: seq<string>, src: Action, timing: ResampleTiming, ev: Evaluator)
    requires UniqueNames(bones) && HasChannels(src, bones) && |bones| > 0
    requires TargetCount(timing, FrameRange(src)) >= 2
    requires SampleAction([], bones, src, bones, TargetCount(timing, FrameRange(src)), ev).Ok?
    ensures FrameRange(SampleAction([], bones, src, bones, TargetCount(timing, FrameRange(src)), ev).value) ==
      (1.0, TargetCount(timing, FrameRange(src)) as real)
  {
    ResampledRange(bones, src, TargetCount(timing, FrameRange(src)), ev);
  }
}
