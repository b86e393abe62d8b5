/**
 * `Glue`: the inflected glosses copied one after the other into the
 * sentence's action, each shifted to its place on the timeline, with HOLD
 * entries kept still on the last pose of a gloss.
 */
module Merge {
  import opened Wrappers
  import opened Text
  import opened Frames
  import opened Host
  import opened MmsParser
  import opened BpyUtils
  import opened ArmatureUtils

  // ---------------------------------------------------------------- what the copies write

  /** Keys moved so that frame 1 lands on `start`; values kept. */
  function Shifted(keys: seq<Key>, start: real): (r: seq<Key>)
    ensures |r| == |keys|
    ensures forall i :: 0 <= i < |keys| ==> r[i] == Key(keys[i].frame + start - 1.0, keys[i].value)
  {
    seq(|keys|, i requires 0 <= i < |keys| => Key(keys[i].frame + start - 1.0, keys[i].value))
  }

  /** What `combine_animation` writes: each source channel's keys, shifted, into the channel of the same address. */
  function CombinePlan(src: Action, start: real): (r: seq<Write>)
    ensures |r| == |src|
    ensures forall j :: 0 <= j < |src| ==> r[j] == Write(src[j].path, src[j].index, Shifted(src[j].keys, start), None)
  {
    seq(|src|, j requires 0 <= j < |src| => Write(src[j].path, src[j].index, Shifted(src[j].keys, start), None))
  }

  /**
   * What `perform_hold` writes for one source channel: its last value at
   * `start` and at `end`; a channel without keys has no last key to read.
   */
  function HoldWrite(c: Channel, start: real, end: real): (r: Write) {
    if |c.keys| == 0 then Write(c.path, c.index, [], Some(IndexError("keyframe_points")))
    else
      var last := c.keys[|c.keys| - 1].value;
      Write(c.path, c.index, [Key(start, last), Key(end, last)], None)
  }

  /** What `perform_hold` writes, channel after channel. */
  function HoldPlan(src: Action, start: real, end: real): (r: seq<Write>)
    ensures |r| == |src|
    ensures forall j :: 0 <= j < |src| ==> r[j] == HoldWrite(src[j], start, end)
  {
    seq(|src|, j requires 0 <= j < |src| => HoldWrite(src[j], start, end))
  }

  /** A plan's groups sit at the addresses of the channels it was made from, one each. */
  lemma {:induction false} PlanKeysAt(src: Action, plan: seq<Write>, q: nat)
    requires UniqueAddresses(src) && |plan| == |src| && q < |src|
    requires forall j :: 0 <= j < |src| ==> plan[j].path == src[j].path && plan[j].index == src[j].index
    ensures KeysAt(plan, src[q].path, src[q].index) == plan[q].keys
  {
    forall j | 0 <= j < |plan| && j != q ensures plan[j].path != src[q].path || plan[j].index != src[q].index {
      assert Find(src, src[j].path, src[j].index) == Some(j);
    }
    KeysAtSingle(plan, q, src[q].path, src[q].index);
  }

  /** A plan made from channels none of which has the address holds nothing for it. */
  lemma {:induction false} PlanKeysAbsent(src: Action, plan: seq<Write>, path: DataPath, index: int)
    requires |plan| == |src| && Find(src, path, index).None?
    requires forall j :: 0 <= j < |src| ==> plan[j].path == src[j].path && plan[j].index == src[j].index
    ensures KeysAt(plan, path, index) == []
  {
    KeysAtNone(plan, path, index);
  }

  /** No address has two channels. */
  predicate UniqueAddresses(a: Action) {
    forall j :: 0 <= j < |a| ==> Find(a, a[j].path, a[j].index) == Some(j)
  }

  /**
   * After `combine_animation`, the target channel found at a source channel's
   * address holds its old keys followed by every key of that source channel,
   * in order, at frame `f + start - 1` with the same value; a target channel
   * whose address no source channel has keeps its keys.
   */
  lemma {:induction false} CombineKeys(a: Action, src: Action, start: real, p: nat)
    requires UniqueAddresses(src) && ApplyPlan(a, CombinePlan(src, start)).Ok? && p < |a|
    requires Find(a, a[p].path, a[p].index) == Some(p)
    ensures var r := ApplyPlan(a, CombinePlan(src, start)).value;
      match Find(src, a[p].path, a[p].index)
      case Some(q) => r[p].keys == a[p].keys + Shifted(src[q].keys, start)
      case None => r[p].keys == a[p].keys
  {
    var plan := CombinePlan(src, start);
    ApplyPlanKeys(a, plan, p);
    match Find(src, a[p].path, a[p].index)
    case Some(q) => PlanKeysAt(src, plan, q);
    case None => PlanKeysAbsent(src, plan, a[p].path, a[p].index);
  }

  /**
   * After `perform_hold`, the target channel found at a source channel's
   * address gains exactly two keys, at `start` and at `end`, both with the last
   * value of that source channel; the other target channels keep their keys.
   */
  lemma {:induction false} HoldKeys(a: Action, src: Action, start: real, end: real, p: nat)
    requires UniqueAddresses(src) && ApplyPlan(a, HoldPlan(src, start, end)).Ok? && p < |a|
    requires Find(a, a[p].path, a[p].index) == Some(p)
    ensures var r := ApplyPlan(a, HoldPlan(src, start, end)).value;
      match Find(src, a[p].path, a[p].index)
      case Some(q) =>
        |src[q].keys| > 0 &&
        r[p].keys == a[p].keys + [Key(start, src[q].keys[|src[q].keys| - 1].value),
                                  Key(end, src[q].keys[|src[q].keys| - 1].value)]
      case None => r[p].keys == a[p].keys
  {
    var plan := HoldPlan(src, start, end);
    ApplyPlanKeys(a, plan, p);
    match Find(src, a[p].path, a[p].index)
    case Some(q) =>
      PlanKeysAt(src, plan, q);
      ApplyPlanOk(a, plan);
      assert Lands(a, plan[q]);
    case None => PlanKeysAbsent(src, plan, a[p].path, a[p].index);
  }

  /** A hold fails exactly when a source channel has no keys or its address has no channel in the target. */
  lemma {:induction false} HoldOk(a: Action, src: Action, start: real, end: real)
    ensures ApplyPlan(a, HoldPlan(src, start, end)).Ok? <==>
      forall j :: 0 <= j < |src| ==> |src[j].keys| > 0 && Find(a, src[j].path, src[j].index).Some?
  {
    ApplyPlanOk(a, HoldPlan(src, start, end));
  }

  /** A copy fails exactly when a source channel's address has no channel in the target. */
  lemma {:induction false} CombineOk(a: Action, src: Action, start: real)
    ensures ApplyPlan(a, CombinePlan(src, start)).Ok? <==>
      forall j :: 0 <= j < |src| ==> Find(a, src[j].path, src[j].index).Some?
  {
    ApplyPlanOk(a, CombinePlan(src, start));
  }

  // ---------------------------------------------------------------- the value combine returns

  /**
   * `int(action_end) + start`, what `combine_animation` returns: one frame past
   * the last frame it writes when the source's keys end on a whole frame.
   */
  function CombineEndAsWritten(range: (real, real), start: real): real {
    Trunc(range.1) as real + start
  }

  /**
   * The last frame `combine_animation` writes, `int(action_end) + start - 1`:
   * the value the merge's check is evidently meant to compare with.
   */
  function CombineEnd(range: (real, real), start: real): real {
    Trunc(range.1) as real + start - 1.0
  }

  /** Keys ending on a whole frame: the last one copied lands exactly on the reported frame. */
  lemma {:induction false} CombineEndIsLastWritten(keys: seq<Key>, range: (real, real), start: real)
    requires |keys| > 0 && keys[|keys| - 1].frame == range.1 && Whole(range.1)
    ensures Shifted(keys, start)[|keys| - 1].frame == CombineEnd(range, start)
    ensures CombineEndAsWritten(range, start) == CombineEnd(range, start) + 1.0
  {
    WholeRoundings(range.1);
  }

  /** The merge's tolerance: the reported frame lies within one frame of the gloss's planned end. */
  predicate Compatible(end: real, endFrame: real) {
    end - 1.0 <= endFrame <= end + 1.0
  }

  /** The as-written check for a gloss resampled to `ceil(x + 1)` frames and planned to last `x` frames. */
  lemma {:induction false} ShareCheckOn(x: real, start: real)
    requires x >= 0.0
    ensures Compatible(start + x, CombineEndAsWritten((1.0, Ceil(x + 1.0) as real), start)) <==> Whole(x)
  {
    var c := Ceil(x);
    assert Ceil(x + 1.0) == c + 1;
    WholeRoundings((c + 1) as real);
    if Whole(x) {
      WholeRoundings(x);
    } else {
      assert c as real != x;
    }
  }

  /** A share of a forward range lasts a nonnegative number of frames. */
  lemma ShareNonnegative(range: (real, real), x: real)
    requires range.0 <= range.1 && 0.0 <= x
    ensures Share(range, x) >= 0.0
  {
    var span := range.1 - range.0;
    assert span * x >= 0.0 * x;
  }

  /** On a whole-frame range, the frame count a share resamples to is `ceil(share + 1)`. */
  lemma ShareCount(range: (real, real), ratio: real)
    requires Whole(range.0) && Whole(range.1)
    ensures TargetCount(Relative(Ratio(ratio)), range) == Ceil(Share(range, ratio) + 1.0)
  {
    WholeRoundings(range.0);
    WholeRoundings(range.1);
    assert (Trunc(range.1) - Trunc(range.0)) as real == range.1 - range.0;
    assert ratio * (range.1 - range.0) == Share(range, ratio);
  }

  /**
   * Relative mode with a share of the original: the gloss was resampled to
   * its target count (its action's range is `(1, count)`), and its planned
   * end is `start` plus the share of the original span. As written, the check
   * passes exactly when that share is a whole number of frames.
   */
  lemma {:induction false} ShareCheckAsWritten(range: (real, real), ratio: real, start: real)
    requires Whole(range.0) && Whole(range.1) && range.0 <= range.1 && 0.0 <= ratio <= 1.0
    ensures var count := TargetCount(Relative(Ratio(ratio)), range);
      Compatible(start + Share(range, ratio), CombineEndAsWritten((1.0, count as real), start)) <==> Whole(Share(range, ratio))
  {
    ShareNonnegative(range, ratio);
    ShareCount(range, ratio);
    ShareCheckOn(Share(range, ratio), start);
  }

  /** Half of a gloss whose original range is 1 to 30: planned to end at `start + 14.5`, resampled to 16 frames and reported at `start + 16`. */
  lemma {:induction false} ShareCheckFails(start: real)
    ensures Share((1.0, 30.0), 0.5) == 14.5 && TargetCount(Relative(Ratio(0.5)), (1.0, 30.0)) == 16
    ensures !Compatible(start + 14.5, CombineEndAsWritten((1.0, 16.0), start))
  {
    ShareCount((1.0, 30.0), 0.5);
    ShareCheckAsWritten((1.0, 30.0), 0.5, start);
    assert !Whole(14.5);
  }

  /**
   * With the last written frame reported, the check passes in every mode for
   * a gloss resampled to its target count (at least two frames): absolute
   * frames, a duration in frames, and a share of the original.
   */
  lemma {:induction false} CheckPassesCorrected(start: real, s: int, e: int, n: int, range: (real, real), ratio: real)
    requires Whole(range.0) && Whole(range.1) && range.0 <= range.1 && 0.0 <= ratio <= 1.0
    ensures var count := TargetCount(Absolute(s, e), range);
      Compatible((e + 1) as real, CombineEnd((1.0, count as real), (s + 1) as real))
    ensures var count := TargetCount(Relative(Frames(n)), range);
      Compatible(start + n as real, CombineEnd((1.0, count as real), start))
    ensures var count := TargetCount(Relative(Ratio(ratio)), range);
      Compatible(start + Share(range, ratio), CombineEnd((1.0, count as real), start))
  {
    WholeRoundings((e - s + 1) as real);
    WholeRoundings(n as real);
    ShareCount(range, ratio);
    var count := Ceil(Share(range, ratio) + 1.0);
    WholeRoundings(count as real);
  }

  /** As written, absolute mode reports one frame past the planned end, the edge of the tolerance. */
  lemma {:induction false} AbsoluteAsWrittenAtEdge(s: int, e: int)
    ensures CombineEndAsWritten((1.0, (e - s + 1) as real), (s + 1) as real) == (e + 1) as real + 1.0
  {
    WholeRoundings((e - s + 1) as real);
  }

  // ---------------------------------------------------------------- gloss timing

  /** `seq[i]` for a Python index: negative indexes count from the end. */
  function PyIndex(i: int, n: nat): (r: Result<nat>)
    ensures r.Ok? <==> -(n as int) <= i < n
    ensures r.Ok? ==> r.value < n && (r.value == i || r.value == n + i)
  {
    if 0 <= i < n then Ok(i)
    else if -(n as int) <= i < 0 then Ok(n + i)
    else Err(IndexError("list index out of range"))
  }

  /** The frames a share `x` of the original range `(fs, fe)` lasts. */
  function Share(range: (real, real), x: real): real {
    (range.1 - range.0) * x
  }

  /**
   * Where a gloss goes on the timeline. Relative: after the previous gloss's
   * end and the transition, lasting a share of the original range (a share
   * outside `[0, 1]` fails the check; a line without a recorded range cannot be
   * unpacked) or a number of frames. Absolute: the table's frames, from 1.
   */
  function GlossWindow(line: MmsLine, useRel: bool, last: real): (r: Result<(real, real)>)
    ensures r.Ok? && useRel ==>
      Transition(line).Ok? && GetDuration(line).Ok? && r.value.0 == last + Transition(line).value as real &&
      match GetDuration(line).value
      case Frames(n) => r.value.1 == r.value.0 + n as real
      case Ratio(x) =>
        0.0 <= x <= 1.0 && line.originalFrameRange.Some? &&
        r.value.1 == r.value.0 + Share(line.originalFrameRange.value, x)
    ensures r.Ok? && !useRel ==>
      Timing(line).Ok? && r.value == ((Timing(line).value.0 + 1) as real, (Timing(line).value.1 + 1) as real)
    ensures useRel && Transition(line).Ok? && GetDuration(line).Ok? ==>
      match GetDuration(line).value
      case Ratio(x) => !(0.0 <= x <= 1.0) ==> r == Err(AssertionError("0 <= duration <= 1"))
      case Frames(_) => true
  {
    if useRel then
      var tr :- Transition(line);
      var start := last + tr as real;
      var d :- GetDuration(line);
      match d
      case Ratio(x) =>
        if !(0.0 <= x <= 1.0) then Err(AssertionError("0 <= duration <= 1"))
        else if line.originalFrameRange.None? then Err(TypeError("cannot unpack non-iterable NoneType object"))
        else
          Ok((start, start + Share(line.originalFrameRange.value, x)))
      case Frames(n) => Ok((start, start + n as real))
    else
      var t :- Timing(line);
      Ok(((t.0 + 1) as real, (t.1 + 1) as real))
  }

  /**
   * The list position a HOLD entry copies its pose from: `key.idx - 1`, a
   * position in the ordered list rather than the entry before it; for the
   * first entry that is the last position.
   */
  function HoldSourceIndex(g: GlossKey, n: nat): (r: Result<nat>)
    ensures g.idx == 0 && n > 0 ==> r == Ok(n - 1)
    ensures 0 < g.idx <= n ==> r == Ok(g.idx - 1)
    ensures g.idx > n ==> r.Err? && r.error.IndexError?
  {
    PyIndex(g.idx - 1, n)
  }

  // ---------------------------------------------------------------- one gloss, and the whole merge

  /**
   * `combine_animation` on values: the named source's keys copied into the
   * target; returns `int(action_end) + start`, as the code does.
   */
  function CombineStep(srcs: map<string, Action>, a: Action, source: string, start: real): (r: Result<(Action, real)>)
    ensures source !in srcs ==> r == Err(KeyError(source))
    ensures source in srcs ==>
      var w := ApplyPlan(a, CombinePlan(srcs[source], start));
      (w.Err? ==> r == Err(w.error)) &&
      (w.Ok? ==> r == Ok((w.value, CombineEndAsWritten(FrameRange(srcs[source]), start))))
  {
    if source !in srcs then Err(KeyError(source))
    else
      var b :- ApplyPlan(a, CombinePlan(srcs[source], start));
      Ok((b, CombineEndAsWritten(FrameRange(srcs[source]), start)))
  }

  /**
   * The corrected `combine_animation`: the same copy, reporting the last frame
   * written instead of the one after it.
   */
  function CombineStepCorrected(srcs: map<string, Action>, a: Action, source: string, start: real): (r: Result<(Action, real)>)
    ensures r.Ok? <==> CombineStep(srcs, a, source, start).Ok?
    ensures r.Err? ==> r.error == CombineStep(srcs, a, source, start).error
    ensures r.Ok? ==> r.value.0 == CombineStep(srcs, a, source, start).value.0 &&
                      r.value.1 == CombineStep(srcs, a, source, start).value.1 - 1.0 &&
                      r.value.1 == CombineEnd(FrameRange(srcs[source]), start)
  {
    var c :- CombineStep(srcs, a, source, start);
    Ok((c.0, CombineEnd(FrameRange(srcs[source]), start)))
  }

  /** `perform_hold` on values: the named source's last values held from `start` to `end`; `end`. */
  function HoldStep(srcs: map<string, Action>, a: Action, source: string, start: real, end: real): (r: Result<(Action, real)>)
    ensures source !in srcs ==> r == Err(KeyError(source))
    ensures r.Ok? ==> r.value.1 == end && source in srcs && ApplyPlan(a, HoldPlan(srcs[source], start, end)) == Ok(r.value.0)
  {
    if source !in srcs then Err(KeyError(source))
    else
      var b :- ApplyPlan(a, HoldPlan(srcs[source], start, end));
      Ok((b, end))
  }

  /** The message of the merge's check. */
  const CheckFailed := AssertionError("end - 1 <= end_frame <= end + 1")

  /**
   * One turn of `merge_animation` for the gloss at position `k`, given the
   * target's keys and the previous gloss's end: the gloss is skipped when its
   * file is missing; otherwise it is copied (or held) into place and its
   * planned end becomes the new previous end.
   */
  function MergeStep(glosses: seq<GlossKey>, lines: map<GlossKey, MmsLine>, useRel: bool, present: Exists,
                     srcs: map<string, Action>, k: nat, a: Action, last: real): (r: Result<(Action, real)>)
    requires k < |glosses|
    ensures glosses[k] !in lines ==> r == Err(KeyError("gloss"))
    ensures r.Err? ==> glosses[k] !in lines || present(lines[glosses[k]].path)
  {
    var g := glosses[k];
    if g !in lines then Err(KeyError("gloss"))
    else
      var line := lines[g];
      if !present(line.path) then Ok((a, last))
      else
        var w :- GlossWindow(line, useRel, last);
        var start := w.0;
        var end := w.1;
        var copied :- if line.category == HoldCategory then
                         HoldFrom(glosses, lines, srcs, g, a, start, end)
                       else CombineStep(srcs, a, InflectedPrefix + line.outputName, start);
        if !Compatible(end, copied.1) then Err(CheckFailed)
        else Ok((copied.0, end))
  }

  /** A HOLD entry's hold: the pose source is the inflected gloss at list position `key.idx - 1`. */
  function HoldFrom(glosses: seq<GlossKey>, lines: map<GlossKey, MmsLine>, srcs: map<string, Action>,
                    g: GlossKey, a: Action, start: real, end: real): (r: Result<(Action, real)>)
    ensures r.Ok? ==> HoldSourceIndex(g, |glosses|).Ok? && r.value.1 == end
  {
    var i :- HoldSourceIndex(g, |glosses|);
    var prev := glosses[i];
    if prev !in lines then Err(KeyError("gloss"))
    else HoldStep(srcs, a, InflectedPrefix + lines[prev].outputName, start, end)
  }

  /** `merge_animation` over the first `n` glosses: the target's keys and the last planned end, from frame 1. */
  function MergeFold(glosses: seq<GlossKey>, lines: map<GlossKey, MmsLine>, useRel: bool, present: Exists,
                     srcs: map<string, Action>, a: Action, n: nat): (r: Result<(Action, real)>)
    requires n <= |glosses|
    ensures r.Ok? ==> forall k :: 0 <= k < n ==> glosses[k] in lines
  {
    if n == 0 then Ok((a, 1.0))
    else
      var s :- MergeFold(glosses, lines, useRel, present, srcs, a, n - 1);
      MergeStep(glosses, lines, useRel, present, srcs, n - 1, s.0, s.1)
  }

  /** A gloss whose file is missing leaves the keys and the previous end as they were. */
  lemma {:induction false} MergeSkips(glosses: seq<GlossKey>, lines: map<GlossKey, MmsLine>, useRel: bool, present: Exists,
                   srcs: map<string, Action>, k: nat, a: Action, last: real)
    requires k < |glosses| && glosses[k] in lines && !present(lines[glosses[k]].path)
    ensures MergeStep(glosses, lines, useRel, present, srcs, k, a, last) == Ok((a, last))
  {
  }

  /**
   * A merged gloss hands on its planned end: in relative mode the next gloss
   * starts from it, whatever frame the copy reported.
   */
  lemma {:induction false} MergeStepEnd(glosses: seq<GlossKey>, lines: map<GlossKey, MmsLine>, useRel: bool, present: Exists,
                     srcs: map<string, Action>, k: nat, a: Action, last: real)
    requires k < |glosses| && glosses[k] in lines && present(lines[glosses[k]].path)
    requires MergeStep(glosses, lines, useRel, present, srcs, k, a, last).Ok?
    ensures GlossWindow(lines[glosses[k]], useRel, last).Ok?
    ensures MergeStep(glosses, lines, useRel, present, srcs, k, a, last).value.1 ==
      GlossWindow(lines[glosses[k]], useRel, last).value.1
  {
  }

  /**
   * For a present, non-HOLD gloss whose window reads and whose copy lands, the
   * turn fails exactly when the planned end is more than one frame from
   * `int(action_end) + start`, the value `combine_animation` returns.
   */
  lemma {:induction false} MergeStepCombineCheck(glosses: seq<GlossKey>, lines: map<GlossKey, MmsLine>, useRel: bool, present: Exists,
                                                 srcs: map<string, Action>, k: nat, a: Action, last: real)
    requires k < |glosses| && glosses[k] in lines
    requires var line := lines[glosses[k]];
      present(line.path) && line.category != HoldCategory && GlossWindow(line, useRel, last).Ok? &&
      InflectedPrefix + line.outputName in srcs &&
      ApplyPlan(a, CombinePlan(srcs[InflectedPrefix + line.outputName], GlossWindow(line, useRel, last).value.0)).Ok?
    ensures var line := lines[glosses[k]];
      var w := GlossWindow(line, useRel, last).value;
      var src := srcs[InflectedPrefix + line.outputName];
      var m := MergeStep(glosses, lines, useRel, present, srcs, k, a, last);
      (m.Ok? <==> Compatible(w.1, CombineEndAsWritten(FrameRange(src), w.0))) &&
      (m.Err? ==> m.error == CheckFailed) &&
      (m.Ok? ==> m.value == (ApplyPlan(a, CombinePlan(src, w.0)).value, w.1))
  {
  }

  /** Once a gloss has failed, the glosses after it change nothing about the outcome. */
  lemma {:induction false} MergeFoldErr(glosses: seq<GlossKey>, lines: map<GlossKey, MmsLine>, useRel: bool, present: Exists,
                                        srcs: map<string, Action>, a: Action, k: nat, n: nat)
    requires k <= n <= |glosses| && MergeFold(glosses, lines, useRel, present, srcs, a, k).Err?
    ensures MergeFold(glosses, lines, useRel, present, srcs, a, n) == MergeFold(glosses, lines, useRel, present, srcs, a, k)
    decreases n
  {
    if k < n {
      MergeFoldErr(glosses, lines, useRel, present, srcs, a, k, n - 1);
    }
  }

  // ---------------------------------------------------------------- the glue object

  /**
   * `Glue`: the table, the name of the sentence's action, and the scene's
   * actions by name. Names are unique, and the sentence's action is not one of
   * the inflected glosses' actions.
   */
  class Glue {
    const mms: Mms
    const actionName: string
    const actions: map<string, ActionObj>

    ghost predicate Valid()
      reads this
    {
      actionName in actions && !StartsWith(actionName, InflectedPrefix) &&
      forall n, m :: n in actions && m in actions && n != m ==> actions[n] != actions[m]
    }

    /**
     * `Glue(mms, ..., action_name)`: `actions` is the scene's actions once
     * `initialize_mesh` has created the sentence's action `action_name`, an
     * action of its own whose name is not an inflected gloss's.
     */
    constructor(mms: Mms, actionName: string, actions: map<string, ActionObj>)
      requires actionName in actions && !StartsWith(actionName, InflectedPrefix)
      requires forall n, m :: n in actions && m in actions && n != m ==> actions[n] != actions[m]
      ensures this.mms == mms && this.actionName == actionName && this.actions == actions
      ensures Valid()
    {
      this.mms := mms;
      this.actionName := actionName;
      this.actions := actions;
    }

    /** The keys of every action but the sentence's. */
    ghost function Sources(): (r: map<string, Action>)
      reads this, actions.Values
      ensures forall n :: n in r <==> n in actions && n != actionName
    {
      map n | n in actions && n != actionName :: actions[n].fcurves
    }

    /**
     * `combine_animation(action_name, source, start)`: every key of the source
     * action copied into the sentence's action at its frame plus `start - 1`;
     * returns `int(action_end) + start`.
     */
    method CombineAnimation(source: string, start: real) returns (r: Result<real>)
      requires Valid() && source != actionName
      modifies actions[actionName]
      ensures var c := CombineStep(old(Sources()), old(actions[actionName].fcurves), source, start);
        (c.Ok? ==> r == Ok(c.value.1) && actions[actionName].fcurves == c.value.0) &&
        (c.Err? ==> r == Err(c.error))
    {
      if source !in actions {
        return Err(KeyError(source));
      }
      var src := actions[source];
      var range := FrameRange(src.fcurves);
      var tgt := actions[actionName];
      ghost var plan := CombinePlan(src.fcurves, start);
      ghost var a0 := tgt.fcurves;
      for j := 0 to |src.fcurves|
        invariant ApplyPlan(a0, plan[..j]) == Ok(tgt.fcurves)
      {
        r := CopyChannel(src.fcurves[j], tgt, start, a0, plan, j);
        if r.Err? {
          ApplyPlanErrExtends(a0, plan[..j + 1], plan[j + 1..]);
          assert plan[..j + 1] + plan[j + 1..] == plan;
          return;
        }
      }
      assert plan[..|plan|] == plan;
      r := Ok(CombineEndAsWritten(range, start));
    }

    /** One source channel of `combine_animation`: its keys, one by one, into the target channel of its address. */
    static method CopyChannel(c: Channel, tgt: ActionObj, start: real, ghost a0: Action, ghost plan: seq<Write>, ghost j: nat)
      returns (r: Result<real>)
      requires j < |plan| && plan[j] == Write(c.path, c.index, Shifted(c.keys, start), None)
      requires ApplyPlan(a0, plan[..j]) == Ok(tgt.fcurves)
      modifies tgt
      ensures r.Ok? ==> ApplyPlan(a0, plan[..j + 1]) == Ok(tgt.fcurves)
      ensures r.Err? ==> ApplyPlan(a0, plan[..j + 1]) == Err(r.error)
    {
      assert plan[..j + 1][..j] == plan[..j];
      var pos := Find(tgt.fcurves, c.path, c.index);
      if pos.None? {
        return Err(AttributeError("keyframe_points"));
      }
      ghost var b := tgt.fcurves;
      var shifted := Shifted(c.keys, start);
      InsertKeysSnoc(b, pos.value, [], Key(0.0, 0.0));
      assert shifted[..0] == [];
      for i := 0 to |c.keys|
        invariant tgt.fcurves == InsertKeys(b, pos.value, shifted[..i])
      {
        InsertKeysSnoc(b, pos.value, shifted[..i], shifted[i]);
        assert shifted[..i + 1] == shifted[..i] + [Key(c.keys[i].frame + start - 1.0, c.keys[i].value)];
        tgt.fcurves := InsertKey(tgt.fcurves, pos.value, Key(c.keys[i].frame + start - 1.0, c.keys[i].value));
      }
      assert shifted[..|c.keys|] == shifted;
      r := Ok(0.0);
    }

    /**
     * `perform_hold(action_name, source, start, end)`: for every source
     * channel, its last value keyed at `start` and at `end` in the sentence's
     * action; returns `end`.
     */
    method PerformHold(source: string, start: real, end: real) returns (r: Result<real>)
      requires Valid() && source != actionName
      modifies actions[actionName]
      ensures var c := HoldStep(old(Sources()), old(actions[actionName].fcurves), source, start, end);
        (c.Ok? ==> r == Ok(c.value.1) && actions[actionName].fcurves == c.value.0) &&
        (c.Err? ==> r == Err(c.error))
    {
      if source !in actions {
        return Err(KeyError(source));
      }
      var src := actions[source];
      var tgt := actions[actionName];
      ghost var plan := HoldPlan(src.fcurves, start, end);
      ghost var a0 := tgt.fcurves;
      for j := 0 to |src.fcurves|
        invariant ApplyPlan(a0, plan[..j]) == Ok(tgt.fcurves)
      {
        r := HoldChannel(src.fcurves[j], tgt, start, end, a0, plan, j);
        if r.Err? {
          ApplyPlanErrExtends(a0, plan[..j + 1], plan[j + 1..]);
          assert plan[..j + 1] + plan[j + 1..] == plan;
          return;
        }
      }
      assert plan[..|plan|] == plan;
      r := Ok(end);
    }

    /** One source channel of `perform_hold`. */
    static method HoldChannel(c: Channel, tgt: ActionObj, start: real, end: real, ghost a0: Action, ghost plan: seq<Write>, ghost j: nat)
      returns (r: Result<real>)
      requires j < |plan| && plan[j] == HoldWrite(c, start, end)
      requires ApplyPlan(a0, plan[..j]) == Ok(tgt.fcurves)
      modifies tgt
      ensures r.Ok? ==> ApplyPlan(a0, plan[..j + 1]) == Ok(tgt.fcurves)
      ensures r.Err? ==> ApplyPlan(a0, plan[..j + 1]) == Err(r.error)
    {
      assert plan[..j + 1][..j] == plan[..j];
      var pos := Find(tgt.fcurves, c.path, c.index);
      if |c.keys| == 0 {
        return Err(IndexError("keyframe_points"));
      }
      var last := c.keys[|c.keys| - 1].value;
      if pos.None? {
        return Err(AttributeError("keyframe_points"));
      }
      ghost var b := tgt.fcurves;
      InsertKeysSnoc(b, pos.value, [], Key(start, last));
      InsertKeysSnoc(b, pos.value, [Key(start, last)], Key(end, last));
      assert [] + [Key(start, last)] == [Key(start, last)];
      assert [Key(start, last)] + [Key(end, last)] == [Key(start, last), Key(end, last)];
      tgt.fcurves := InsertKey(tgt.fcurves, pos.value, Key(start, last));
      tgt.fcurves := InsertKey(tgt.fcurves, pos.value, Key(end, last));
      r := Ok(0.0);
    }

    /**
     * `merge_animation(use_rel_time)`: every gloss of the table, in order,
     * copied or held into the sentence's action; `present` says which files exist.
     */
    method MergeAnimation(useRel: bool, present: Exists) returns (r: Result<()>)
      requires Valid()
      modifies actions[actionName]
      ensures var m := MergeFold(mms.glosses, mms.lines, useRel, present, old(Sources()), old(actions[actionName].fcurves), |mms.glosses|);
        (m.Ok? ==> r.Ok? && actions[actionName].fcurves == m.value.0) && (m.Err? ==> r == Err(m.error))
    {
      ghost var srcs := Sources();
      ghost var a0 := actions[actionName].fcurves;
      var last: real := 1.0;
      for k := 0 to |mms.glosses|
        invariant MergeFold(mms.glosses, mms.lines, useRel, present, srcs, a0, k) == Ok((actions[actionName].fcurves, last))
        invariant Sources() == srcs
      {
        var next := MergeGloss(k, useRel, present, last);
        if next.Err? {
          MergeFoldErr(mms.glosses, mms.lines, useRel, present, srcs, a0, k + 1, |mms.glosses|);
          return Err(next.error);
        }
        last := next.value;
      }
      r := Ok(());
    }

    /** One turn of the gloss loop of `merge_animation`; the new previous end. */
    method MergeGloss(k: nat, useRel: bool, present: Exists, last: real) returns (r: Result<real>)
      requires Valid() && k < |mms.glosses|
      modifies actions[actionName]
      ensures Sources() == old(Sources())
      ensures var m := MergeStep(mms.glosses, mms.lines, useRel, present, old(Sources()), k, old(actions[actionName].fcurves), last);
        (m.Ok? ==> r == Ok(m.value.1) && actions[actionName].fcurves == m.value.0) && (m.Err? ==> r == Err(m.error))
    {
      var g := mms.glosses[k];
      var lineR := mms.Get(g);
      if lineR.Err? {
        return Err(KeyError("gloss"));
      }
      var line := lineR.value;
      if !present(line.path) {
        return Ok(last);
      }
      var window := GlossWindow(line, useRel, last);
      if window.Err? {
        return Err(window.error);
      }
      var start, end := window.value.0, window.value.1;
      var endFrame;
      if line.category == HoldCategory {
        var i := HoldSourceIndex(g, |mms.glosses|);
        if i.Err? {
          return Err(i.error);
        }
        var prevR := mms.Get(mms.glosses[i.value]);
        if prevR.Err? {
          return Err(KeyError("gloss"));
        }
        var source := InflectedPrefix + prevR.value.outputName;
        assert StartsWith(source, InflectedPrefix);
        endFrame := PerformHold(source, start, end);
      } else {
        var source := InflectedPrefix + line.outputName;
        assert StartsWith(source, InflectedPrefix);
        endFrame := CombineAnimation(source, start);
      }
      if endFrame.Err? {
        return Err(endFrame.error);
      }
      if !Compatible(end, endFrame.value) {
        return Err(CheckFailed);
      }
      r := Ok(end);
    }
  }
}
