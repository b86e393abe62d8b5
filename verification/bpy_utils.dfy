/**
 * Blender helpers the pipeline relies on: the fix of zero-length bones in a
 * BVH header, the copy of an armature that receives the inflected animation,
 * and the removal of a helper bone.
 */
module BpyUtils {
  import opened Wrappers
  import opened Text
  import opened Host

  /** A header line that places a joint at its parent's position. */
  const OffsetZero := "OFFSET 0 0 0"
  /** The zero offset as it appears in such a line, and the short offset that replaces it. */
  const ZeroTail := "T 0 0 0"
  const ShortTail := "T 0.1 0.0 0.0"
  /** The line that ends the header of a BVH file. */
  const Motion := "MOTION"

  /** The position of the first line containing `MOTION`, or the line count when none does. */
  function MotionIndex(lines: seq<string>): (r: nat)
    ensures r <= |lines|
    ensures r < |lines| ==> Contains(lines[r], Motion)
    ensures forall i :: 0 <= i < r ==> !Contains(lines[i], Motion)
  {
    if |lines| == 0 then 0
    else if Contains(lines[0], Motion) then 0
    else 1 + MotionIndex(lines[1..])
  }

  /** What the scan makes of one line it reaches. */
  function FixLine(line: string): string {
    if Contains(line, OffsetZero) then ReplaceAll(line, ZeroTail, ShortTail) else line
  }

  /**
   * The rewriting loop of `modify_animation` over the lines of the file: every
   * line up to and including the first `MOTION` line that contains
   * `OFFSET 0 0 0` has each `T 0 0 0` replaced by `T 0.1 0.0 0.0`; the scan
   * stops there, and every other line stays as it was, in place.
   */
  method ModifyLines(data: array<string>)
    modifies data
    ensures forall i :: 0 <= i < data.Length ==>
      data[i] == if i <= MotionIndex(old(data[..])) then FixLine(old(data[i])) else old(data[i])
  {
    ghost var lines := data[..];
    var i := 0;
    while i < data.Length
      invariant 0 <= i <= data.Length
      invariant forall j :: 0 <= j < i ==> !Contains(lines[j], Motion)
      invariant forall j :: 0 <= j < i ==> data[j] == FixLine(lines[j])
      invariant forall j :: i <= j < data.Length ==> data[j] == lines[j]
    {
      var each := data[i];
      if Contains(each, OffsetZero) {
        data[i] := ReplaceAll(each, ZeroTail, ShortTail);
      }
      if Contains(each, Motion) {
        assert MotionIndex(lines) == i;
        break;
      }
      i := i + 1;
    }
  }

  /** A line changes only when it contains `OFFSET 0 0 0` and comes no later than the first `MOTION` line. */
  lemma ModifiedOnlyOffsets(before: seq<string>, after: seq<string>, i: nat)
    requires |after| == |before| && i < |before|
    requires forall j :: 0 <= j < |after| ==>
      after[j] == if j <= MotionIndex(before) then FixLine(before[j]) else before[j]
    ensures after[i] != before[i] ==> Contains(before[i], OffsetZero) && i <= MotionIndex(before)
    ensures i > MotionIndex(before) ==> after[i] == before[i]
  {
  }

  /** The prefix of the copy that receives a gloss's inflected animation. */
  const InflectedPrefix := "inflected_"

  /**
   * `duplicate(armature, name)`: a new object with a copy of the armature data
   * (so the same bones), without the original's animation; the object, its data
   * and a new empty action, which becomes its action, are all named
   * `inflected_<name>`.
   */
  method Duplicate(src: ArmatureObj, name: string) returns (dup: ArmatureObj)
    ensures fresh(dup) && dup.action != null && fresh(dup.action)
    ensures dup.name == InflectedPrefix + name && dup.dataName == InflectedPrefix + name
    ensures dup.bones == src.bones
    ensures dup.action.name == InflectedPrefix + name && dup.action.fcurves == []
  {
    dup := new ArmatureObj(src.name, src.dataName, src.bones, src.action);
    dup.action := null;
    dup.name := InflectedPrefix + name;
    dup.dataName := InflectedPrefix + name;
    var action := new ActionObj(InflectedPrefix + name);
    dup.action := action;
  }

  /** The bone names without `b`, in their order: exactly the other bones remain. */
  function Without(names: seq<string>, b: string): (r: seq<string>)
    ensures |r| <= |names|
    ensures forall x :: x in r <==> x in names && x != b
  {
    if |names| == 0 then []
    else
      var init := names[..|names| - 1];
      assert names == init + [names[|names| - 1]];
      Without(init, b) + (if names[|names| - 1] == b then [] else [names[|names| - 1]])
  }

  /** Removing a bone works list piece by list piece, so the bones that remain keep their order. */
  lemma {:induction false} WithoutConcat(xs: seq<string>, ys: seq<string>, b: string)
    ensures Without(xs + ys, b) == Without(xs, b) + Without(ys, b)
    decreases |ys|
  {
    if |ys| == 0 {
      assert xs + ys == xs;
    } else {
      var init := ys[..|ys| - 1];
      var last := ys[|ys| - 1];
      assert xs + ys == (xs + init) + [last];
      assert ys == init + [last];
      WithoutConcat(xs, init, b);
    }
  }

  /** Removing a bone that is not there changes nothing. */
  lemma {:induction false} WithoutAbsent(names: seq<string>, b: string)
    requires b !in names
    ensures Without(names, b) == names
    decreases |names|
  {
    if |names| > 0 {
      WithoutAbsent(names[..|names| - 1], b);
    }
  }

  /** The bone that is never removed. */
  const RootBone := "Bone"

  /**
   * `remove_ik_bone(target, ik_bone)`: the bone named `Bone` is kept; any other
   * bone is removed from the armature, and a name it does not have raises `KeyError`.
   */
  method RemoveIkBone(target: ArmatureObj, ikBone: string) returns (r: Result<()>)
    modifies target
    ensures target.name == old(target.name) && target.dataName == old(target.dataName)
    ensures target.action == old(target.action)
    ensures ikBone == RootBone ==> r.Ok? && target.bones == old(target.bones)
    ensures ikBone != RootBone && ikBone !in old(target.bones) ==>
      r == Err(KeyError(ikBone)) && target.bones == old(target.bones)
    ensures ikBone != RootBone && ikBone in old(target.bones) ==>
      r.Ok? && target.bones == Without(old(target.bones), ikBone)
  {
    if ikBone == RootBone {
      return Ok(());
    }
    if ikBone !in target.bones {
      return Err(KeyError(ikBone));
    }
    target.bones := Without(target.bones, ikBone);
    r := Ok(());
  }
}
