/**
 * Sampling of animations: making sure an action has the channels of every
 * bone, copying curve values sampled at one frame into keys at another, the
 * uniform sample grid, and reading per-frame pose records for the active bones.
 */
module Extract {
  import opened Wrappers
  import opened Text
  import opened Frames
  import opened Host
  import opened MmsParser
  import opened BpyUtils

  /** The trunk, neck and head. */
  const Trunk: seq<string> :=
    ["Bone_Root", "Bone", "Bone_Pelvis", "Bone_Spine", "Bone_Spine1", "Bone_Spine2", "Bone_Neck",
     "Bone_Head"]

  /** The left arm down to the hand. */
  const LeftArm: seq<string> :=
    ["Bone_L_Clavicle", "Bone_L_UpperArm", "Bone_L_Forearm", "Bone_L_Hand"]

  /** The left fingers. */
  const LeftFingers: seq<string> :=
    ["Bone_L_Finger0", "Bone_L_Finger01", "Bone_L_Finger02", "Bone_L_Finger1", "Bone_L_Finger11",
     "Bone_L_Finger12", "Bone_L_Finger13", "Bone_L_Finger2", "Bone_L_Finger21", "Bone_L_Finger22",
     "Bone_L_Finger23", "Bone_L_Finger3", "Bone_L_Finger31", "Bone_L_Finger32", "Bone_L_Finger33",
     "Bone_L_Finger4", "Bone_L_Finger41", "Bone_L_Finger42", "Bone_L_Finger43"]

  /** The right arm down to the hand. */
  const RightArm: seq<string> :=
    ["Bone_R_Clavicle", "Bone_R_UpperArm", "Bone_R_Forearm", "Bone_R_Hand"]

  /** The right fingers. */
  const RightFingers: seq<string> :=
    ["Bone_R_Finger0", "Bone_R_Finger01", "Bone_R_Finger02", "Bone_R_Finger1", "Bone_R_Finger11",
     "Bone_R_Finger12", "Bone_R_Finger13", "Bone_R_Finger2", "Bone_R_Finger21", "Bone_R_Finger22",
     "Bone_R_Finger23", "Bone_R_Finger3", "Bone_R_Finger31", "Bone_R_Finger32", "Bone_R_Finger33",
     "Bone_R_Finger4", "Bone_R_Finger41", "Bone_R_Finger42", "Bone_R_Finger43"]

  /** The bones whose pose is recorded, hands included (in the order of the list it models). */
  const ActiveBonesWithFingers: seq<string> := Trunk + LeftArm + LeftFingers + RightArm + RightFingers

  /** The bones whose pose is recorded when the fingers are left out. */
  const ActiveBonesWithoutFingers: seq<string> :=
    ["Bone_Root", "Bone", "Bone_Neck", "Bone_Head", "Bone_Pelvis", "Bone_Spine", "Bone_Spine1",
     "Bone_Spine2", "Bone_L_Clavicle", "Bone_L_UpperArm", "Bone_L_Forearm", "Bone_L_Hand",
     "Bone_R_Clavicle", "Bone_R_UpperArm", "Bone_R_Forearm", "Bone_R_Hand"]

  /** Leaving the fingers out only removes bones: every bone of the short list is in the long one. */
  lemma WithoutFingersIncluded()
    ensures forall b <- ActiveBonesWithoutFingers :: b in ActiveBonesWithFingers
    ensures |ActiveBonesWithFingers| == 54 && |ActiveBonesWithoutFingers| == 16
  {
    assert forall b <- ActiveBonesWithoutFingers :: b in Trunk || b in LeftArm || b in RightArm;
  }

  // ---------------------------------------------------------------- channels

  /** The six channels `create_f_curves` makes sure a bone has, in the order it checks them. */
  function CreatedAddresses(bone: string): (r: seq<(DataPath, int)>)
    ensures |r| == 6
    ensures forall i :: 0 <= i < 3 ==> r[2 * i] == (BonePath(bone, RotationEuler), i)
    ensures forall i :: 0 <= i < 3 ==> r[2 * i + 1] == (BonePath(bone, Location), i)
  {
    [(BonePath(bone, RotationEuler), 0), (BonePath(bone, Location), 0),
     (BonePath(bone, RotationEuler), 1), (BonePath(bone, Location), 1),
     (BonePath(bone, RotationEuler), 2), (BonePath(bone, Location), 2)]
  }

  /** The addresses checked for a list of bones, bone after bone. */
  function BonesAddresses(bones: seq<string>): (r: seq<(DataPath, int)>)
    ensures |r| == 6 * |bones|
  {
    if |bones| == 0 then []
    else BonesAddresses(bones[..|bones| - 1]) + CreatedAddresses(bones[|bones| - 1])
  }

  /** Every rotation and location channel of a listed bone is among the checked addresses. */
  lemma {:induction false} BonesAddressesCover(bones: seq<string>, b: string, prop: Prop, i: int)
    requires b in bones && prop != RotationQuaternion && 0 <= i < 3
    ensures (BonePath(b, prop), i) in BonesAddresses(bones)
    decreases |bones|
  {
    var init := bones[..|bones| - 1];
    if b == bones[|bones| - 1] {
      assert (BonePath(b, prop), i) in CreatedAddresses(b);
    } else {
      assert b in init;
      BonesAddressesCover(init, b, prop, i);
    }
  }

  /** `if not fcurves.find(path, index=i): fcurves.new(path, index=i)` */
  function EnsureChannel(a: Action, addr: (DataPath, int)): (r: Action)
    ensures a <= r && Find(r, addr.0, addr.1).Some?
    ensures Find(a, addr.0, addr.1).Some? ==> r == a
    ensures forall j :: |a| <= j < |r| ==> r[j] == Channel(addr.0, addr.1, [])
    ensures Find(a, addr.0, addr.1).None? ==> |r| == |a| + 1 && Find(r, addr.0, addr.1) == Some(|a|)
  {
    if Find(a, addr.0, addr.1).Some? then a
    else
      var r := a + [Channel(addr.0, addr.1, [])];
      assert Addresses(r[|a|], addr.0, addr.1);
      r
  }

  /** The addresses checked in order, each channel created only when it is missing. */
  function EnsureAll(a: Action, addrs: seq<(DataPath, int)>): (r: Action)
    ensures a <= r
    decreases |addrs|
  {
    if |addrs| == 0 then a
    else EnsureChannel(EnsureAll(a, addrs[..|addrs| - 1]), addrs[|addrs| - 1])
  }

  /**
   * After the checks every address has a channel; the channels created are
   * new ones at the end, without keys, each at one of the addresses checked.
   */
  lemma {:induction false} EnsureAllFinds(a: Action, addrs: seq<(DataPath, int)>)
    ensures forall k :: 0 <= k < |addrs| ==> Find(EnsureAll(a, addrs), addrs[k].0, addrs[k].1).Some?
    ensures forall j :: |a| <= j < |EnsureAll(a, addrs)| ==>
      EnsureAll(a, addrs)[j].keys == [] && (EnsureAll(a, addrs)[j].path, EnsureAll(a, addrs)[j].index) in addrs
    decreases |addrs|
  {
    if |addrs| > 0 {
      var init := addrs[..|addrs| - 1];
      EnsureAllFinds(a, init);
      var b := EnsureAll(a, init);
      var r := EnsureAll(a, addrs);
      forall k | 0 <= k < |init| ensures Find(r, addrs[k].0, addrs[k].1).Some? {
        FindPrefix(b, r, addrs[k].0, addrs[k].1);
      }
    }
  }

  /** Checking addresses that all have a channel creates nothing. */
  lemma {:induction false} EnsureAllPresent(a: Action, addrs: seq<(DataPath, int)>)
    requires forall k :: 0 <= k < |addrs| ==> Find(a, addrs[k].0, addrs[k].1).Some?
    ensures EnsureAll(a, addrs) == a
    decreases |addrs|
  {
    if |addrs| > 0 {
      EnsureAllPresent(a, addrs[..|addrs| - 1]);
    }
  }

  /** `create_f_curves` a second time adds nothing. */
  lemma CreateIdempotent(a: Action, bones: seq<string>)
    ensures EnsureAll(EnsureAll(a, BonesAddresses(bones)), BonesAddresses(bones)) == EnsureAll(a, BonesAddresses(bones))
  {
    EnsureAllFinds(a, BonesAddresses(bones));
    EnsureAllPresent(EnsureAll(a, BonesAddresses(bones)), BonesAddresses(bones));
  }

  /**
   * After `create_f_curves`, every bone has its rotation and location channels
   * at indices 0, 1 and 2; the channels already there are kept, in place and
   * with their keys, and the new ones come after them, without keys.
   */
  lemma CreatedChannels(a: Action, bones: seq<string>, b: string, prop: Prop, i: int)
    requires b in bones && prop != RotationQuaternion && 0 <= i < 3
    ensures Find(EnsureAll(a, BonesAddresses(bones)), BonePath(b, prop), i).Some?
    ensures a <= EnsureAll(a, BonesAddresses(bones))
  {
    var addrs := BonesAddresses(bones);
    EnsureAllFinds(a, addrs);
    BonesAddressesCover(bones, b, prop, i);
    var k :| 0 <= k < |addrs| && addrs[k] == (BonePath(b, prop), i);
  }

  /** `create_f_curves(armature, action)`: the rotation and location channels of every bone. */
  method CreateFCurves(arm: ArmatureObj, sampled: ActionObj)
    modifies sampled
    ensures sampled.fcurves == EnsureAll(old(sampled.fcurves), BonesAddresses(arm.bones))
    ensures sampled.name == old(sampled.name)
  {
    var bones := arm.bones;
    ghost var a0 := sampled.fcurves;
    for n := 0 to |bones|
      invariant sampled.fcurves == EnsureAll(a0, BonesAddresses(bones[..n]))
      invariant sampled.name == old(sampled.name)
    {
      ghost var before := sampled.fcurves;
      BoneFCurves(bones[n], sampled);
      assert bones[..n + 1][..n] == bones[..n];
      EnsureAllConcat(a0, BonesAddresses(bones[..n]), CreatedAddresses(bones[n]));
    }
    assert bones[..|bones|] == bones;
  }

  /** The inner loop of `create_f_curves`, for one bone. */
  method BoneFCurves(name: string, sampled: ActionObj)
    modifies sampled
    ensures sampled.fcurves == EnsureAll(old(sampled.fcurves), CreatedAddresses(name))
    ensures sampled.name == old(sampled.name)
  {
    ghost var addrs := CreatedAddresses(name);
    for i := 0 to 3
      invariant sampled.fcurves == EnsureAll(old(sampled.fcurves), addrs[..2 * i])
      invariant sampled.name == old(sampled.name)
    {
      NewChannel(sampled, BonePath(name, RotationEuler), i);
      EnsureStep(old(sampled.fcurves), addrs, 2 * i);
      NewChannel(sampled, BonePath(name, Location), i);
      EnsureStep(old(sampled.fcurves), addrs, 2 * i + 1);
    }
    assert addrs[..6] == addrs;
  }

  /** One check of `create_f_curves`: the channel is created when the lookup finds nothing. */
  method NewChannel(sampled: ActionObj, path: DataPath, i: int)
    modifies sampled
    ensures sampled.fcurves == EnsureChannel(old(sampled.fcurves), (path, i))
    ensures sampled.name == old(sampled.name)
  {
    if Find(sampled.fcurves, path, i).None? {
      sampled.fcurves := sampled.fcurves + [Channel(path, i, [])];
    }
  }

  /** One more address checked. */
  lemma EnsureStep(a: Action, addrs: seq<(DataPath, int)>, k: nat)
    requires k < |addrs|
    ensures EnsureAll(a, addrs[..k + 1]) == EnsureChannel(EnsureAll(a, addrs[..k]), addrs[k])
  {
    assert addrs[..k + 1][..k] == addrs[..k];
  }

  /** Checking two lists of addresses in turn is checking their concatenation. */
  lemma {:induction false} EnsureAllConcat(a: Action, p: seq<(DataPath, int)>, q: seq<(DataPath, int)>)
    ensures EnsureAll(a, p + q) == EnsureAll(EnsureAll(a, p), q)
    decreases |q|
  {
    if |q| > 0 {
      assert (p + q)[..|p + q| - 1] == p + q[..|q| - 1];
      EnsureAllConcat(a, p, q[..|q| - 1]);
    } else {
      assert p + q == p;
    }
  }

  // ---------------------------------------------------------------- sampling

  /** The channels `set_rotation_and_location` samples, in its order: rotation 0-2, then location 0-2. */
  function SampledProp(k: nat): (r: (Prop, int))
    requires k < 6
  {
    if k < 3 then (RotationEuler, k) else (Location, k - 3)
  }

  /** The key a source channel gives at `sf`, written at `tf`; none when the source has no such channel. */
  function SampleKey(src: Action, path: DataPath, i: int, sf: real, tf: real, ev: Evaluator): (r: seq<Key>)
  {
    match Find(src, path, i)
    case None => []
    case Some(q) => [Key(tf, ev(src[q].keys, sf))]
  }

  /**
   * One channel of `set_rotation_and_location`: the source channel evaluated at
   * `sf` gives the key written at `tf`; a missing source channel is `None`,
   * whose `evaluate` raises before the target is looked up.
   */
  function SampleWrite(src: Action, path: DataPath, i: int, sf: real, tf: real, ev: Evaluator): (r: Write)
    ensures r.path == path && r.index == i && r.keys == SampleKey(src, path, i, sf, tf, ev)
    ensures r.fault.None? <==> Find(src, path, i).Some?
  {
    match Find(src, path, i)
    case None => Write(path, i, [], Some(AttributeError("evaluate")))
    case Some(q) => Write(path, i, [Key(tf, ev(src[q].keys, sf))], None)
  }

  /** What `set_rotation_and_location` writes for one bone. */
  function BonePlan(src: Action, bone: string, sf: real, tf: real, ev: Evaluator): (r: seq<Write>)
    ensures |r| == 6
    ensures forall k :: 0 <= k < 6 ==>
      r[k] == SampleWrite(src, BonePath(bone, SampledProp(k).0), SampledProp(k).1, sf, tf, ev)
  {
    seq(6, k requires 0 <= k < 6 => SampleWrite(src, BonePath(bone, SampledProp(k).0), SampledProp(k).1, sf, tf, ev))
  }

  /** The keys one bone's plan holds for an address: one key for each of the bone's six channels, else none. */
  lemma BonePlanKeysAt(src: Action, bone: string, sf: real, tf: real, ev: Evaluator, path: DataPath, i: int)
    ensures KeysAt(BonePlan(src, bone, sf, tf, ev), path, i) ==
      if path.bone == bone && path.prop != RotationQuaternion && 0 <= i < 3 then SampleKey(src, path, i, sf, tf, ev)
      else []
  {
    var plan := BonePlan(src, bone, sf, tf, ev);
    if path.bone == bone && path.prop != RotationQuaternion && 0 <= i < 3 {
      var k := if path.prop == RotationEuler then i else i + 3;
      assert SampledProp(k) == (path.prop, i);
      KeysAtSingle(plan, k, path, i);
    } else {
      KeysAtNone(plan, path, i);
    }
  }

  /**
   * `set_rotation_and_location(source, bone, sf, target, tf)`: the six channels
   * of the bone in the source, evaluated at `sf`, become keys at `tf` in the
   * target's channels of the same address.
   */
  method SetRotationAndLocation(src: ActionObj, bone: string, sf: real, tgt: ActionObj, tf: real, ev: Evaluator)
    returns (r: Result<()>)
    requires src != tgt
    modifies tgt
    ensures tgt.name == old(tgt.name)
    ensures r.Ok? <==> ApplyPlan(old(tgt.fcurves), BonePlan(src.fcurves, bone, sf, tf, ev)).Ok?
    ensures r.Ok? ==> tgt.fcurves == ApplyPlan(old(tgt.fcurves), BonePlan(src.fcurves, bone, sf, tf, ev)).value
    ensures r.Err? ==> ApplyPlan(old(tgt.fcurves), BonePlan(src.fcurves, bone, sf, tf, ev)) == Err(r.error)
  {
    ghost var plan := BonePlan(src.fcurves, bone, sf, tf, ev);
    ghost var a0 := tgt.fcurves;
    for i := 0 to 3
      invariant ApplyPlan(a0, plan[..i]) == Ok(tgt.fcurves)
      invariant tgt.name == old(tgt.name)
    {
      r := SampleInto(src, BonePath(bone, RotationEuler), i, sf, tgt, tf, ev, a0, plan, i);
      if r.Err? {
        ApplyPlanErrExtends(a0, plan[..i + 1], plan[i + 1..]);
        assert plan[..i + 1] + plan[i + 1..] == plan;
        return;
      }
    }
    for i := 0 to 3
      invariant ApplyPlan(a0, plan[..3 + i]) == Ok(tgt.fcurves)
      invariant tgt.name == old(tgt.name)
    {
      r := SampleInto(src, BonePath(bone, Location), i, sf, tgt, tf, ev, a0, plan, 3 + i);
      if r.Err? {
        ApplyPlanErrExtends(a0, plan[..3 + i + 1], plan[3 + i + 1..]);
        assert plan[..3 + i + 1] + plan[3 + i + 1..] == plan;
        return;
      }
    }
    assert plan[..6] == plan;
    r := Ok(());
  }

  /** One turn of the loops of `set_rotation_and_location`: group `k` of the bone's plan. */
  method SampleInto(src: ActionObj, path: DataPath, i: int, sf: real, tgt: ActionObj, tf: real, ev: Evaluator,
                    ghost a0: Action, ghost plan: seq<Write>, ghost k: nat)
    returns (r: Result<()>)
    requires src != tgt
    requires k < |plan| && plan[k] == SampleWrite(src.fcurves, path, i, sf, tf, ev)
    requires ApplyPlan(a0, plan[..k]) == Ok(tgt.fcurves)
    modifies tgt
    ensures tgt.name == old(tgt.name)
    ensures r.Ok? ==> ApplyPlan(a0, plan[..k + 1]) == Ok(tgt.fcurves)
    ensures r.Err? ==> ApplyPlan(a0, plan[..k + 1]) == Err(r.error)
  {
    assert plan[..k + 1][..k] == plan[..k];
    var q := Find(src.fcurves, path, i);
    if q.None? {
      return Err(AttributeError("evaluate"));
    }
    var value := ev(src.fcurves[q.value].keys, sf);
    var pos := Find(tgt.fcurves, path, i);
    if pos.None? {
      return Err(AttributeError("keyframe_points"));
    }
    tgt.fcurves := InsertKey(tgt.fcurves, pos.value, Key(tf, value));
    r := Ok(());
  }

  /** No name occurs twice (pose bones of an armature have distinct names). */
  predicate UniqueNames(names: seq<string>) {
    forall j, k :: 0 <= j < k < |names| ==> names[j] != names[k]
  }

  /** What the bone loop writes for one sample: each listed bone's plan, bone after bone. */
  function FramePlan(src: Action, bones: seq<string>, sf: real, tf: real, ev: Evaluator): (r: seq<Write>)
    ensures |r| == 6 * |bones|
  {
    if |bones| == 0 then []
    else FramePlan(src, bones[..|bones| - 1], sf, tf, ev) + BonePlan(src, bones[|bones| - 1], sf, tf, ev)
  }

  lemma {:induction false} FramePlanConcat(src: Action, xs: seq<string>, ys: seq<string>, sf: real, tf: real, ev: Evaluator)
    ensures FramePlan(src, xs + ys, sf, tf, ev) == FramePlan(src, xs, sf, tf, ev) + FramePlan(src, ys, sf, tf, ev)
    decreases |ys|
  {
    if |ys| == 0 {
      assert xs + ys == xs;
    } else {
      assert (xs + ys)[..|xs + ys| - 1] == xs + ys[..|ys| - 1];
      FramePlanConcat(src, xs, ys[..|ys| - 1], sf, tf, ev);
    }
  }

  /** For one sample, each sampled channel of a listed bone gets exactly one key; other addresses get none. */
  lemma {:induction false} FramePlanKeysAt(src: Action, bones: seq<string>, sf: real, tf: real, ev: Evaluator, path: DataPath, i: int)
    requires UniqueNames(bones)
    ensures KeysAt(FramePlan(src, bones, sf, tf, ev), path, i) ==
      if path.bone in bones && path.prop != RotationQuaternion && 0 <= i < 3 then SampleKey(src, path, i, sf, tf, ev)
      else []
    decreases |bones|
  {
    if |bones| > 0 {
      var init := bones[..|bones| - 1];
      var b := bones[|bones| - 1];
      assert UniqueNames(init);
      FramePlanKeysAt(src, init, sf, tf, ev, path, i);
      KeysAtConcat(FramePlan(src, init, sf, tf, ev), BonePlan(src, b, sf, tf, ev), path, i);
      BonePlanKeysAt(src, b, sf, tf, ev, path, i);
      assert path.bone in bones <==> path.bone in init || path.bone == b;
      if path.bone == b {
        assert b !in init;
      }
    }
  }

  /**
   * `[frame_start + x * ratio for x in range(count)]` with
   * `ratio = (frame_end - frame_start) / (count - 1)`: a count of one divides by zero.
   */
  function SampleGrid(fs: int, fe: int, count: int): (r: Result<seq<real>>)
    ensures r.Err? <==> count == 1
    ensures r.Err? ==> r.error == ZeroDivisionError
    ensures r.Ok? ==> |r.value| == (if count > 0 then count else 0)
  {
    if count == 1 then Err(ZeroDivisionError)
    else
      var ratio := (fe - fs) as real / (count - 1) as real;
      Ok(seq(if count > 0 then count else 0, x => fs as real + x as real * ratio))
  }

  /** With at least two samples the grid starts at `frame_start`, ends at `frame_end` and has equal steps. */
  lemma SampleGridShape(fs: int, fe: int, count: int)
    requires count >= 2
    ensures SampleGrid(fs, fe, count).Ok?
    ensures var g := SampleGrid(fs, fe, count).value;
      g[0] == fs as real && g[count - 1] == fe as real &&
      (forall x :: 0 <= x < count - 1 ==> g[x + 1] - g[x] == (fe - fs) as real / (count - 1) as real)
  {
    var g := SampleGrid(fs, fe, count).value;
    var ratio := (fe - fs) as real / (count - 1) as real;
    assert (count - 1) as real * ratio == (fe - fs) as real;
    forall x | 0 <= x < count - 1 ensures g[x + 1] - g[x] == ratio {
      assert g[x + 1] == fs as real + (x + 1) as real * ratio;
    }
  }

  /** On a forward range the grid stays between `frame_start` and `frame_end`, in order. */
  lemma SampleGridOrdered(fs: int, fe: int, count: int)
    requires count >= 2 && fs <= fe
    ensures SampleGrid(fs, fe, count).Ok?
    ensures var g := SampleGrid(fs, fe, count).value;
      forall x, y :: 0 <= x <= y < count ==> fs as real <= g[x] <= g[y] <= fe as real
  {
    var g := SampleGrid(fs, fe, count).value;
    var ratio := (fe - fs) as real / (count - 1) as real;
    assert (count - 1) as real * ratio == (fe - fs) as real;
    assert ratio >= 0.0;
    forall x, y | 0 <= x <= y < count ensures fs as real <= g[x] <= g[y] <= fe as real {
      StepsBetween(fs as real, fe as real, (count - 1) as real, ratio, x as real, y as real, g[x], g[y]);
    }
  }

  /** Equal non-negative steps from `lo` that reach `hi` after `n` of them stay between the two, in order. */
  lemma StepsBetween(lo: real, hi: real, n: real, step: real, x: real, y: real, gx: real, gy: real)
    requires 0.0 <= step && n * step == hi - lo && 0.0 <= x <= y <= n
    requires gx == lo + x * step && gy == lo + y * step
    ensures lo <= gx <= gy <= hi
  {
    MulMonotone(x, y, step);
    MulMonotone(y, n, step);
    MulMonotone(0.0, x, step);
  }

  lemma MulMonotone(a: real, b: real, c: real)
    requires a <= b && 0.0 <= c
    ensures a * c <= b * c
  {
  }

  /** The sample loop: sample `k` of the grid is written at frame `k + 1`, for every listed bone. */
  function Sampled(a: Action, src: Action, bones: seq<string>, samples: seq<real>, ev: Evaluator): (r: Result<Action>)
    ensures r.Ok? ==> SameChannels(a, r.value)
    decreases |samples|
  {
    if |samples| == 0 then Ok(a)
    else
      var b :- Sampled(a, src, bones, samples[..|samples| - 1], ev);
      ApplyPlan(b, FramePlan(src, bones, samples[|samples| - 1], |samples| as real, ev))
  }

  /** All the keys the sample loop holds for one address, sample after sample. */
  function SampleKeys(src: Action, bones: seq<string>, samples: seq<real>, ev: Evaluator, path: DataPath, i: int): seq<Key>
    decreases |samples|
  {
    if |samples| == 0 then []
    else
      SampleKeys(src, bones, samples[..|samples| - 1], ev, path, i) +
      KeysAt(FramePlan(src, bones, samples[|samples| - 1], |samples| as real, ev), path, i)
  }

  /** What the sample loop does to each channel of the target. */
  lemma {:induction false} SampledKeys(a: Action, src: Action, bones: seq<string>, samples: seq<real>, ev: Evaluator, p: nat)
    requires Sampled(a, src, bones, samples, ev).Ok? && p < |a|
    ensures Sampled(a, src, bones, samples, ev).value[p].keys ==
      a[p].keys + (if Find(a, a[p].path, a[p].index) == Some(p) then SampleKeys(src, bones, samples, ev, a[p].path, a[p].index) else [])
    decreases |samples|
  {
    if |samples| > 0 {
      var init := samples[..|samples| - 1];
      SampledKeys(a, src, bones, init, ev, p);
      var b := Sampled(a, src, bones, init, ev).value;
      var plan := FramePlan(src, bones, samples[|samples| - 1], |samples| as real, ev);
      assert Sampled(a, src, bones, samples, ev) == ApplyPlan(b, plan);
      ApplyPlanKeysAfter(a, b, plan, p, SampleKeys(src, bones, init, ev, a[p].path, a[p].index));
    }
  }

  /** Keys `1 .. n` carrying a curve's values at the grid points. */
  function GridKeys(keys: seq<Key>, samples: seq<real>, ev: Evaluator): (r: seq<Key>)
    ensures |r| == |samples|
    ensures forall k :: 0 <= k < |samples| ==> r[k] == Key((k + 1) as real, ev(keys, samples[k]))
  {
    seq(|samples|, k requires 0 <= k < |samples| => Key((k + 1) as real, ev(keys, samples[k])))
  }

  /**
   * A sampled channel of a listed bone receives one key per sample, in order:
   * sample `k` is the source channel evaluated at grid point `k`, written at frame `k + 1`.
   */
  lemma {:induction false} SampleKeysOfBone(src: Action, bones: seq<string>, samples: seq<real>, ev: Evaluator, path: DataPath, i: int)
    requires UniqueNames(bones) && path.bone in bones && path.prop != RotationQuaternion && 0 <= i < 3
    requires Find(src, path, i).Some?
    ensures SampleKeys(src, bones, samples, ev, path, i) == GridKeys(src[Find(src, path, i).value].keys, samples, ev)
    decreases |samples|
  {
    if |samples| > 0 {
      var n := |samples|;
      var keys := src[Find(src, path, i).value].keys;
      SampleKeysOfBone(src, bones, samples[..n - 1], ev, path, i);
      FramePlanKeysAt(src, bones, samples[n - 1], n as real, ev, path, i);
      assert KeysAt(FramePlan(src, bones, samples[n - 1], n as real, ev), path, i) == [Key(n as real, ev(keys, samples[n - 1]))];
      GridKeysLast(keys, samples, ev);
    }
  }

  lemma GridKeysLast(keys: seq<Key>, samples: seq<real>, ev: Evaluator)
    requires |samples| > 0
    ensures GridKeys(keys, samples, ev) ==
      GridKeys(keys, samples[..|samples| - 1], ev) + [Key(|samples| as real, ev(keys, samples[|samples| - 1]))]
  {
    var n := |samples|;
    var g := GridKeys(keys, samples, ev);
    var l := GridKeys(keys, samples[..n - 1], ev) + [Key(n as real, ev(keys, samples[n - 1]))];
    forall k | 0 <= k < n ensures g[k] == l[k] {
      if k < n - 1 {
        assert samples[..n - 1][k] == samples[k];
      }
    }
  }

  /** Addresses outside the sampled channels of the listed bones receive nothing. */
  lemma {:induction false} SampleKeysOther(src: Action, bones: seq<string>, samples: seq<real>, ev: Evaluator, path: DataPath, i: int)
    requires UniqueNames(bones)
    requires path.bone !in bones || path.prop == RotationQuaternion || i < 0 || 3 <= i
    ensures SampleKeys(src, bones, samples, ev, path, i) == []
    decreases |samples|
  {
    if |samples| > 0 {
      var n := |samples|;
      SampleKeysOther(src, bones, samples[..n - 1], ev, path, i);
      FramePlanKeysAt(src, bones, samples[n - 1], n as real, ev, path, i);
    }
  }

  /** Once a sample has failed, the later samples change nothing about the outcome. */
  lemma {:induction false} SampledErrExtends(a: Action, src: Action, bones: seq<string>, samples: seq<real>, k: nat, ev: Evaluator)
    requires k <= |samples| && Sampled(a, src, bones, samples[..k], ev).Err?
    ensures Sampled(a, src, bones, samples, ev) == Sampled(a, src, bones, samples[..k], ev)
    decreases |samples|
  {
    if k < |samples| {
      var init := samples[..|samples| - 1];
      assert init[..k] == samples[..k];
      SampledErrExtends(a, src, bones, init, k, ev);
    } else {
      assert samples[..k] == samples;
    }
  }

  /**
   * The nested sample loop of `resample` and `extract_source`: for each grid
   * point, `set_rotation_and_location` for every listed bone.
   */
  method WriteSamples(src: ActionObj, bones: seq<string>, samples: seq<real>, tgt: ActionObj, ev: Evaluator)
    returns (r: Result<()>)
    requires src != tgt
    modifies tgt
    ensures tgt.name == old(tgt.name)
    ensures r.Ok? <==> Sampled(old(tgt.fcurves), src.fcurves, bones, samples, ev).Ok?
    ensures r.Ok? ==> Sampled(old(tgt.fcurves), src.fcurves, bones, samples, ev) == Ok(tgt.fcurves)
    ensures r.Err? ==> Sampled(old(tgt.fcurves), src.fcurves, bones, samples, ev) == Err(r.error)
  {
    ghost var a0 := tgt.fcurves;
    for k := 0 to |samples|
      invariant Sampled(a0, src.fcurves, bones, samples[..k], ev) == Ok(tgt.fcurves)
      invariant tgt.name == old(tgt.name)
    {
      r := WriteFrame(src, bones, samples[k], tgt, (k + 1) as real, ev);
      assert samples[..k + 1][..k] == samples[..k];
      if r.Err? {
        SampledErrExtends(a0, src.fcurves, bones, samples, k + 1, ev);
        return;
      }
    }
    assert samples[..|samples|] == samples;
    r := Ok(());
  }

  /** The bone loop for one grid point. */
  method WriteFrame(src: ActionObj, bones: seq<string>, sf: real, tgt: ActionObj, tf: real, ev: Evaluator)
    returns (r: Result<()>)
    requires src != tgt
    modifies tgt
    ensures tgt.name == old(tgt.name)
    ensures r.Ok? ==> ApplyPlan(old(tgt.fcurves), FramePlan(src.fcurves, bones, sf, tf, ev)) == Ok(tgt.fcurves)
    ensures r.Err? ==> ApplyPlan(old(tgt.fcurves), FramePlan(src.fcurves, bones, sf, tf, ev)) == Err(r.error)
  {
    ghost var a0 := tgt.fcurves;
    for j := 0 to |bones|
      invariant ApplyPlan(a0, FramePlan(src.fcurves, bones[..j], sf, tf, ev)) == Ok(tgt.fcurves)
      invariant tgt.name == old(tgt.name)
    {
      r := SetRotationAndLocation(src, bones[j], sf, tgt, tf, ev);
      FrameStep(a0, src.fcurves, bones, j, sf, tf, ev);
      if r.Err? {
        return;
      }
    }
    assert bones[..|bones|] == bones;
    r := Ok(());
  }

  lemma SplitAt<T>(s: seq<T>, k: nat)
    requires k <= |s|
    ensures s[..k] + s[k..] == s
  {
  }

  /** One more bone of the bone loop; a failure there is the failure of the whole grid point. */
  lemma FrameStep(a: Action, src: Action, bones: seq<string>, j: nat, sf: real, tf: real, ev: Evaluator)
    requires j < |bones| && ApplyPlan(a, FramePlan(src, bones[..j], sf, tf, ev)).Ok?
    ensures ApplyPlan(a, FramePlan(src, bones[..j + 1], sf, tf, ev)) ==
      ApplyPlan(ApplyPlan(a, FramePlan(src, bones[..j], sf, tf, ev)).value, BonePlan(src, bones[j], sf, tf, ev))
    ensures ApplyPlan(a, FramePlan(src, bones[..j + 1], sf, tf, ev)).Err? ==>
      ApplyPlan(a, FramePlan(src, bones, sf, tf, ev)) == ApplyPlan(a, FramePlan(src, bones[..j + 1], sf, tf, ev))
  {
    assert bones[..j + 1][..j] == bones[..j];
    ApplyPlanConcat(a, FramePlan(src, bones[..j], sf, tf, ev), BonePlan(src, bones[j], sf, tf, ev));
    if ApplyPlan(a, FramePlan(src, bones[..j + 1], sf, tf, ev)).Err? {
      FramePlanConcat(src, bones[..j + 1], bones[j + 1..], sf, tf, ev);
      SplitAt(bones, j + 1);
      ApplyPlanErrExtends(a, FramePlan(src, bones[..j + 1], sf, tf, ev), FramePlan(src, bones[j + 1..], sf, tf, ev));
    }
  }

  // ---------------------------------------------------------------- channel addresses

  /** Every channel is the one that lookups of its address find: no address has two channels. */
  predicate UniqueAddresses(a: Action) {
    forall j :: 0 <= j < |a| ==> Find(a, a[j].path, a[j].index) == Some(j)
  }

  /** A channel created only when missing never duplicates an address. */
  lemma EnsureChannelUnique(a: Action, addr: (DataPath, int))
    requires UniqueAddresses(a)
    ensures UniqueAddresses(EnsureChannel(a, addr))
  {
    var r := EnsureChannel(a, addr);
    forall j | 0 <= j < |r|
      ensures Find(r, r[j].path, r[j].index) == Some(j)
    {
      if j < |a| {
        assert r[j] == a[j];
        FindPrefix(a, r, a[j].path, a[j].index);
      } else {
        assert r != a && j == |a|;
        assert r[j] == Channel(addr.0, addr.1, []);
      }
    }
  }

  /** Channels created only when missing never duplicate an address. */
  lemma {:induction false} EnsureAllUnique(a: Action, addrs: seq<(DataPath, int)>)
    requires UniqueAddresses(a)
    ensures UniqueAddresses(EnsureAll(a, addrs))
    decreases |addrs|
  {
    if |addrs| > 0 {
      var init := addrs[..|addrs| - 1];
      EnsureAllUnique(a, init);
      EnsureChannelUnique(EnsureAll(a, init), addrs[|addrs| - 1]);
    }
  }

  // ---------------------------------------------------------------- resampling an action

  /**
   * The part `resample` and `extract_source` share: the rotation and location
   * channels of every bone of `bones` made sure of on `target`, then the grid of
   * `count` points over the whole-frame range of `src`, sample `k` written at
   * frame `k + 1` for each bone of `writeBones`.
   */
  function SampleAction(target: Action, bones: seq<string>, src: Action, writeBones: seq<string>, count: int, ev: Evaluator): (r: Result<Action>)
    ensures r.Ok? ==> SameChannels(EnsureAll(target, BonesAddresses(bones)), r.value)
    ensures count == 1 ==> r == Err(ZeroDivisionError)
  {
    var created := EnsureAll(target, BonesAddresses(bones));
    var grid :- SampleGrid(Trunc(FrameRange(src).0), Trunc(FrameRange(src).1), count);
    Sampled(created, src, writeBones, grid, ev)
  }

  /**
   * The channel creation and the sample loop that `resample` runs on a new
   * action: the channels of every bone of `arm`, then the grid over `src`'s
   * whole-frame range written for the bones of `writeBones`.
   */
  method SampleFrom(arm: ArmatureObj, src: ActionObj, writeBones: seq<string>, sampled: ActionObj, count: int, ev: Evaluator)
    returns (r: Result<()>)
    requires src != sampled
    modifies sampled
    ensures sampled.name == old(sampled.name)
    ensures var s := SampleAction(old(sampled.fcurves), arm.bones, src.fcurves, writeBones, count, ev);
      (s.Ok? ==> r.Ok? && sampled.fcurves == s.value) && (s.Err? ==> r == Err(s.error))
  {
    CreateFCurves(arm, sampled);
    var range := FrameRange(src.fcurves);
    var grid := SampleGrid(Trunc(range.0), Trunc(range.1), count);
    if grid.Err? {
      return Err(grid.error);
    }
    r := WriteSamples(src, writeBones, grid.value, sampled, ev);
  }

  /** The source has the rotation and location channels, indices 0 to 2, of every listed bone. */
  predicate HasChannels(src: Action, bones: seq<string>) {
    forall b, prop, i :: b in bones && prop != RotationQuaternion && 0 <= i < 3 ==> Find(src, BonePath(b, prop), i).Some?
  }

  /**
   * Resampling into a new action: every channel of the result belongs to a
   * listed bone, and holds exactly the source channel of the same address
   * sampled on the grid, as keys at frames `1 .. count`.
   */
  lemma ResampledChannel(bones: seq<string>, src: Action, count: int, ev: Evaluator, p: nat)
    requires UniqueNames(bones) && HasChannels(src, bones)
    requires SampleAction([], bones, src, bones, count, ev).Ok?
    requires p < |SampleAction([], bones, src, bones, count, ev).value|
    ensures var c := SampleAction([], bones, src, bones, count, ev).value[p];
      c.path.bone in bones && c.path.prop != RotationQuaternion && 0 <= c.index < 3 &&
      Find(src, c.path, c.index).Some? &&
      c.keys == GridKeys(src[Find(src, c.path, c.index).value].keys,
                         SampleGrid(Trunc(FrameRange(src).0), Trunc(FrameRange(src).1), count).value, ev)
  {
    var addrs := BonesAddresses(bones);
    var created := EnsureAll([], addrs);
    var grid := SampleGrid(Trunc(FrameRange(src).0), Trunc(FrameRange(src).1), count).value;
    EnsureAllFinds([], addrs);
    EnsureAllUnique([], addrs);
    var c := created[p];
    assert c.keys == [] && (c.path, c.index) in addrs;
    AddressOfBones(bones, c.path, c.index);
    SampledKeys(created, src, bones, grid, ev, p);
    SampleKeysOfBone(src, bones, grid, ev, c.path, c.index);
  }

  /** Every address checked for a list of bones is a rotation or location channel, index 0 to 2, of one of them. */
  lemma {:induction false} AddressOfBones(bones: seq<string>, path: DataPath, i: int)
    requires (path, i) in BonesAddresses(bones)
    ensures path.bone in bones && path.prop != RotationQuaternion && 0 <= i < 3
    decreases |bones|
  {
    var init := bones[..|bones| - 1];
    if (path, i) in BonesAddresses(init) {
      AddressOfBones(init, path, i);
    } else {
      var k :| 0 <= k < 6 && CreatedAddresses(bones[|bones| - 1])[k] == (path, i);
      assert k % 2 == 0 || k % 2 == 1;
      assert CreatedAddresses(bones[|bones| - 1])[2 * (k / 2) + k % 2] == (path, i);
    }
  }

  /**
   * With at least two samples and at least one bone, the new action's keys run
   * from frame 1 to frame `count` exactly: its frame range is `(1, count)`.
   */
  lemma ResampledRange(bones: seq<string>, src: Action, count: int, ev: Evaluator)
    requires UniqueNames(bones) && HasChannels(src, bones) && |bones| > 0 && count >= 2
    requires SampleAction([], bones, src, bones, count, ev).Ok?
    ensures FrameRange(SampleAction([], bones, src, bones, count, ev).value) == (1.0, count as real)
  {
    var a := SampleAction([], bones, src, bones, count, ev).value;
    ResampledNonEmpty(bones, src, count, ev);
    forall j, k | 0 <= j < |a| && 0 <= k < |a[j].keys| ensures 1.0 <= a[j].keys[k].frame <= count as real {
      ResampledKeyFrame(bones, src, count, ev, j, k);
    }
    ResampledChannel(bones, src, count, ev, 0);
    assert |a[0].keys| == count;
    ResampledKeyFrame(bones, src, count, ev, 0, 0);
    ResampledKeyFrame(bones, src, count, ev, 0, count - 1);
    assert a[0].keys[0].frame == 1.0;
    assert a[0].keys[count - 1].frame == count as real;
    FrameRangeExact(a, 1.0, count as real);
  }

  /** Resampling at least one bone gives an action with channels. */
  lemma ResampledNonEmpty(bones: seq<string>, src: Action, count: int, ev: Evaluator)
    requires |bones| > 0 && SampleAction([], bones, src, bones, count, ev).Ok?
    ensures |SampleAction([], bones, src, bones, count, ev).value| > 0
  {
    CreatedChannels([], bones, bones[0], RotationEuler, 0);
  }

  /** Key `k` of a resampled channel sits at frame `k + 1`. */
  lemma ResampledKeyFrame(bones: seq<string>, src: Action, count: int, ev: Evaluator, j: nat, k: nat)
    requires UniqueNames(bones) && HasChannels(src, bones)
    requires SampleAction([], bones, src, bones, count, ev).Ok?
    requires j < |SampleAction([], bones, src, bones, count, ev).value|
    requires k < |SampleAction([], bones, src, bones, count, ev).value[j].keys|
    ensures SampleAction([], bones, src, bones, count, ev).value[j].keys[k].frame == (k + 1) as real
    ensures k < count
  {
    ResampledChannel(bones, src, count, ev, j);
  }

  // ---------------------------------------------------------------- pose records

  /** The names of `names` that `keep` accepts, in their order. */
  function Filter(names: seq<string>, keep: string -> bool): (r: seq<string>)
    ensures |r| <= |names|
  {
    if |names| == 0 then []
    else Filter(names[..|names| - 1], keep) + (if keep(names[|names| - 1]) then [names[|names| - 1]] else [])
  }

  /** A name is kept exactly when it is listed and accepted. */
  lemma {:induction false} FilterMembers(names: seq<string>, keep: string -> bool, b: string)
    ensures b in Filter(names, keep) <==> b in names && keep(b)
    decreases |names|
  {
    if |names| > 0 {
      var init := names[..|names| - 1];
      FilterMembers(init, keep, b);
      assert names == init + [names[|names| - 1]];
    }
  }

  /** Filtering keeps the order: filtering a concatenation concatenates the filtered parts. */
  lemma {:induction false} FilterConcat(xs: seq<string>, ys: seq<string>, keep: string -> bool)
    ensures Filter(xs + ys, keep) == Filter(xs, keep) + Filter(ys, keep)
    decreases |ys|
  {
    if |ys| > 0 {
      var init := ys[..|ys| - 1];
      assert (xs + ys)[..|xs + ys| - 1] == xs + init;
      FilterConcat(xs, init, keep);
    } else {
      assert xs + ys == xs;
    }
  }

  /** A list whose every name is accepted comes through whole. */
  lemma {:induction false} FilterAll(names: seq<string>, keep: string -> bool)
    requires forall b <- names :: keep(b)
    ensures Filter(names, keep) == names
    decreases |names|
  {
    if |names| > 0 {
      FilterAll(names[..|names| - 1], keep);
    }
  }

  /** The pose bones `extract_target` reads: those listed in `active`, in armature order. */
  function ActiveIn(bones: seq<string>, active: seq<string>): (r: seq<string>) {
    Filter(bones, b => b in active)
  }

  /** The bones `extract_source` samples: those whose name does not contain `IK`. */
  function NonIk(bones: seq<string>): (r: seq<string>) {
    Filter(bones, b => !Contains(b, "IK"))
  }

  /** `extract_target` reads exactly the pose bones that are in the active list. */
  lemma ActiveInMembers(bones: seq<string>, active: seq<string>, b: string)
    ensures b in ActiveIn(bones, active) <==> b in bones && b in active
  {
    FilterMembers(bones, b => b in active, b);
  }

  /** `extract_source` samples exactly the bones without `IK` in their name. */
  lemma NonIkMembers(bones: seq<string>, b: string)
    ensures b in NonIk(bones) <==> b in bones && !Contains(b, "IK")
  {
    FilterMembers(bones, b => !Contains(b, "IK"), b);
  }

  /**
   * One frame of `extract_target`: the pose reads of the bones taken, in the
   * order they were read (the rotation, Euler rotation and translation tables
   * of that frame are filled from the same reads, so they share this shape).
   */
  datatype FrameData = FrameData(frame: int, bones: seq<string>)

  /** The record `extract_target` returns: the gloss's output name and one entry per frame. */
  datatype BoneData = BoneData(glossName: string, frames: seq<FrameData>)

  /**
   * `extract_target(armature, gloss, start, end, active_bones)`: one entry per
   * frame of `range(start, end)`, each holding the armature's bones that are in
   * the active list.
   */
  method ExtractTarget(arm: ArmatureObj, glossName: string, start: int, end: int, active: seq<string>)
    returns (d: BoneData)
    ensures d.glossName == glossName
    ensures |d.frames| == if start < end then end - start else 0
    ensures forall k :: 0 <= k < |d.frames| ==> d.frames[k] == FrameData(start + k, ActiveIn(arm.bones, active))
  {
    var frames: seq<FrameData> := [];
    var frame := start;
    while frame < end
      invariant start <= frame && (frame == start || frame <= end)
      invariant |frames| == frame - start
      invariant forall k :: 0 <= k < |frames| ==> frames[k] == FrameData(start + k, ActiveIn(arm.bones, active))
      decreases end - frame
    {
      var taken := ReadFrame(arm, active);
      frames := frames + [FrameData(frame, taken)];
      frame := frame + 1;
    }
    d := BoneData(glossName, frames);
  }

  /** The bone loop of one frame of `extract_target`: bones not in the active list are passed over. */
  method ReadFrame(arm: ArmatureObj, active: seq<string>) returns (taken: seq<string>)
    ensures taken == ActiveIn(arm.bones, active)
  {
    var bones := arm.bones;
    taken := [];
    for j := 0 to |bones|
      invariant taken == ActiveIn(bones[..j], active)
    {
      assert bones[..j + 1][..j] == bones[..j];
      if bones[j] !in active {
        continue;
      }
      taken := taken + [bones[j]];
    }
    assert bones[..|bones|] == bones;
  }

  /** `extract_target` over frames `start .. end - 1`, each reading the bones in `taken`. */
  function TargetData(glossName: string, start: int, end: int, taken: seq<string>): BoneData {
    BoneData(glossName, seq(if start < end then end - start else 0, k => FrameData(start + k, taken)))
  }

  /** A record with the shape `extract_target` promises is the one `TargetData` describes. */
  lemma TargetDataOf(d: BoneData, glossName: string, start: int, end: int, taken: seq<string>)
    requires d.glossName == glossName
    requires |d.frames| == if start < end then end - start else 0
    requires forall k :: 0 <= k < |d.frames| ==> d.frames[k] == FrameData(start + k, taken)
    ensures d == TargetData(glossName, start, end, taken)
  {
  }

  // ---------------------------------------------------------------- extract_source

  /** The name of the action `extract_source` samples into. */
  const SampledPrefix := "sampled_"

  /** `extract_source` calls `extract_target` with four arguments where it takes five. */
  const MissingActiveBones := TypeError("extract_target() missing 1 required positional argument: 'active_bones'")

  /**
   * `extract_source(armature, gloss, sample_size)`. `existing` is what the
   * lookup of the action `sampled_<output name>` finds. The action is created
   * when missing, gets the channels of every pose bone, and receives the
   * armature's animation sampled on a grid of `sample_size` points, IK bones
   * excepted; it becomes the armature's action. The closing call to
   * `extract_target` lacks its `active_bones` argument and always raises.
   */
  method ExtractSource(arm: ArmatureObj, outputName: string, sampleSize: int, existing: ActionObj?, ev: Evaluator)
    returns (sampled: ActionObj, r: Result<BoneData>)
    requires existing != null ==> existing.name == SampledPrefix + outputName && existing != arm.action
    modifies arm, existing
    ensures existing != null ==> sampled == existing
    ensures existing == null ==> fresh(sampled)
    ensures sampled.name == SampledPrefix + outputName
    ensures arm.bones == old(arm.bones)
    ensures r.Err?
    ensures old(arm.action) == null ==>
      r == Err(AttributeError("frame_range")) && arm.action == null &&
      sampled.fcurves == EnsureAll(if existing == null then [] else old(existing.fcurves), BonesAddresses(arm.bones))
    ensures old(arm.action) != null ==>
      var s := SampleAction(if existing == null then [] else old(existing.fcurves), arm.bones,
                            old(arm.action.fcurves), NonIk(arm.bones), sampleSize, ev);
      (s.Err? ==> r == Err(s.error)) &&
      (s.Ok? ==> sampled.fcurves == s.value && arm.action == sampled && r == Err(MissingActiveBones))
  {
    if existing == null {
      sampled := new ActionObj(SampledPrefix + outputName);
    } else {
      sampled := existing;
    }
    CreateFCurves(arm, sampled);
    var action := arm.action;
    if action == null {
      return sampled, Err(AttributeError("frame_range"));
    }
    var range := FrameRange(action.fcurves);
    var grid := SampleGrid(Trunc(range.0), Trunc(range.1), sampleSize);
    if grid.Err? {
      return sampled, Err(grid.error);
    }
    // the IK bones are passed over inside the bone loop
    var written := WriteSamples(action, NonIk(arm.bones), grid.value, sampled, ev);
    if written.Err? {
      return sampled, Err(written.error);
    }
    arm.action := sampled;
    r := Err(MissingActiveBones);
  }

  // ---------------------------------------------------------------- extract_normal

  /** What `extract_normal` records for a gloss. */
  datatype GlossData = GlossData(numFrame: int, source: BoneData, target: BoneData)

  /** The table's frames moved back by the trim offset; a start that lands on 0 becomes 1. */
  function ShiftedTiming(timing: (int, int), trim: int): (r: (int, int))
    ensures r.0 != 0 && r.1 == timing.1 - trim
    ensures r.0 == timing.0 - trim || (timing.0 == trim && r.0 == 1)
  {
    var start := timing.0 - trim;
    (if start != 0 then start else 1, timing.1 - trim)
  }

  /** The record count `extract_normal` divides by four per active bone. */
  function RecordCount(d: BoneData, active: seq<string>): Result<int> {
    if |active| == 0 then Err(ZeroDivisionError) else Ok(|d.frames| / (4 * |active|))
  }

  /**
   * One gloss of `extract_normal`: the sentence skeleton read over the gloss's
   * shifted frames, the inflected gloss object read from frame 1 over as many
   * frames, and the sanity check that both give the same count.
   */
  function NormalEntry(line: MmsLine, trim: int, skeleton: seq<string>, active: seq<string>,
                       objects: map<string, seq<string>>): (r: Result<GlossData>)
    ensures r.Ok? ==> Timing(line).Ok? && InflectedPrefix + line.outputName in objects
    ensures r.Ok? ==> RecordCount(r.value.source, active) == RecordCount(r.value.target, active) == Ok(r.value.numFrame)
  {
    var timing :- Timing(line);
    var (start, end) := ShiftedTiming(timing, trim);
    var target := TargetData(line.outputName, start, end + 1, ActiveIn(skeleton, active));
    var sourceName := InflectedPrefix + line.outputName;
    if sourceName !in objects then Err(KeyError(sourceName))
    else
      var source := TargetData(line.outputName, 1, end - start + 2, ActiveIn(objects[sourceName], active));
      Checked(source, target, active)
  }

  /** The sanity check of `extract_normal`: both reads give the same record count, which the gloss keeps. */
  function Checked(source: BoneData, target: BoneData, active: seq<string>): (r: Result<GlossData>) {
    var sourceLen :- RecordCount(source, active);
    var targetLen :- RecordCount(target, active);
    if sourceLen != targetLen then Err(AssertionError("Sanity check for assuring same sample size."))
    else Ok(GlossData(targetLen, source, target))
  }

  /** `extract_normal` over the first glosses: each gloss's record stored under its output name. */
  function NormalData(glosses: seq<GlossKey>, lines: map<GlossKey, MmsLine>, trim: int, skeleton: seq<string>,
                      active: seq<string>, objects: map<string, seq<string>>): (r: Result<map<string, GlossData>>)
    decreases |glosses|
  {
    if |glosses| == 0 then Ok(map[])
    else
      var m :- NormalData(glosses[..|glosses| - 1], lines, trim, skeleton, active, objects);
      var e :- GlossRecord(glosses[|glosses| - 1], lines, trim, skeleton, active, objects);
      Ok(m[e.0 := e.1])
  }

  /** One gloss of `extract_normal`: its line looked up, then its record, under its output name. */
  function GlossRecord(g: GlossKey, lines: map<GlossKey, MmsLine>, trim: int, skeleton: seq<string>,
                       active: seq<string>, objects: map<string, seq<string>>): (r: Result<(string, GlossData)>)
  {
    if g !in lines then Err(KeyError("gloss"))
    else
      var d :- NormalEntry(lines[g], trim, skeleton, active, objects);
      Ok((lines[g].outputName, d))
  }

  /**
   * The two reads of a gloss cover the same number of frames, whatever the
   * timing and the trim: the sanity check of `extract_normal` never fails. The
   * target read starts at the shifted start, the source read at frame 1.
   */
  lemma NormalEntrySane(line: MmsLine, trim: int, skeleton: seq<string>, active: seq<string>,
                        objects: map<string, seq<string>>)
    ensures var r := NormalEntry(line, trim, skeleton, active, objects);
      r.Err? ==> !r.error.AssertionError?
    ensures var r := NormalEntry(line, trim, skeleton, active, objects);
      r.Ok? ==>
        var (start, end) := ShiftedTiming(Timing(line).value, trim);
        |r.value.source.frames| == |r.value.target.frames| &&
        |r.value.target.frames| == (if start <= end then end - start + 1 else 0) &&
        (forall k :: 0 <= k < |r.value.target.frames| ==> r.value.target.frames[k].frame == start + k) &&
        (forall k :: 0 <= k < |r.value.source.frames| ==> r.value.source.frames[k].frame == 1 + k)
  {
  }

  /** `{name: objects[name].bones for name in objects}` */
  function BonesOf(objects: map<string, ArmatureObj>): (r: map<string, seq<string>>)
    reads objects.Values
    ensures r.Keys == objects.Keys
  {
    map name | name in objects :: objects[name].bones
  }

  /**
   * `extract_normal(mms, trim_start, skeleton, active_bones)`: for every gloss
   * in table order, the sentence skeleton's and the inflected gloss's records.
   * `objects` holds the scene's objects by name.
   */
  method ExtractNormal(mms: Mms, trim: int, skeleton: ArmatureObj, active: seq<string>, objects: map<string, ArmatureObj>)
    returns (r: Result<map<string, GlossData>>)
    ensures r == NormalData(mms.glosses, mms.lines, trim, skeleton.bones, active, BonesOf(objects))
  {
    var finalData: map<string, GlossData> := map[];
    ghost var bonesOf := BonesOf(objects);
    for n := 0 to |mms.glosses|
      invariant NormalData(mms.glosses[..n], mms.lines, trim, skeleton.bones, active, bonesOf) == Ok(finalData)
    {
      var e := ExtractOne(mms, n, trim, skeleton, active, objects, finalData);
      if e.Err? {
        return Err(e.error);
      }
      finalData := finalData[e.value.0 := e.value.1];
    }
    assert mms.glosses[..|mms.glosses|] == mms.glosses;
    r := Ok(finalData);
  }

  /**
   * One turn of the gloss loop of `extract_normal`: the line of gloss `n`,
   * then its record; a failure is the failure of the whole loop.
   */
  method ExtractOne(mms: Mms, n: nat, trim: int, skeleton: ArmatureObj, active: seq<string>,
                    objects: map<string, ArmatureObj>, ghost done: map<string, GlossData>) returns (r: Result<(string, GlossData)>)
    requires n < |mms.glosses|
    requires NormalData(mms.glosses[..n], mms.lines, trim, skeleton.bones, active, BonesOf(objects)) == Ok(done)
    ensures r.Err? ==> NormalData(mms.glosses, mms.lines, trim, skeleton.bones, active, BonesOf(objects)) == Err(r.error)
    ensures r.Ok? ==>
      NormalData(mms.glosses[..n + 1], mms.lines, trim, skeleton.bones, active, BonesOf(objects)) == Ok(done[r.value.0 := r.value.1])
  {
    var line := mms.Get(mms.glosses[n]);
    if line.Err? {
      r := Err(line.error);
    } else {
      var d := ExtractGloss(line.value, trim, skeleton, active, objects);
      r := if d.Err? then Err(d.error) else Ok((line.value.outputName, d.value));
    }
    GlossOutcome(mms.glosses, mms.lines, trim, skeleton.bones, active, BonesOf(objects), n, done, r);
  }

  /** The outcome of gloss `n`, after the glosses before it got through, decides the loop of `extract_normal`. */
  lemma GlossOutcome(glosses: seq<GlossKey>, lines: map<GlossKey, MmsLine>, trim: int, skeleton: seq<string>,
                     active: seq<string>, objects: map<string, seq<string>>, n: nat, done: map<string, GlossData>,
                     r: Result<(string, GlossData)>)
    requires n < |glosses| && NormalData(glosses[..n], lines, trim, skeleton, active, objects) == Ok(done)
    requires r == GlossRecord(glosses[n], lines, trim, skeleton, active, objects)
    ensures r.Err? ==> NormalData(glosses, lines, trim, skeleton, active, objects) == Err(r.error)
    ensures r.Ok? ==> NormalData(glosses[..n + 1], lines, trim, skeleton, active, objects) == Ok(done[r.value.0 := r.value.1])
  {
    assert glosses[..n + 1][..n] == glosses[..n];
    if r.Err? {
      NormalDataErr(glosses, lines, trim, skeleton, active, objects, n + 1);
    }
  }

  /** Once the timing reads, a gloss's record is the check of its two reads, or `KeyError` for a missing object. */
  lemma NormalEntryUnfold(line: MmsLine, trim: int, skeleton: seq<string>, active: seq<string>,
                          objects: map<string, seq<string>>, timing: (int, int))
    requires Timing(line) == Ok(timing)
    ensures var (start, end) := ShiftedTiming(timing, trim);
      var sourceName := InflectedPrefix + line.outputName;
      NormalEntry(line, trim, skeleton, active, objects) ==
        if sourceName !in objects then Err(KeyError(sourceName))
        else Checked(TargetData(line.outputName, 1, end - start + 2, ActiveIn(objects[sourceName], active)),
                     TargetData(line.outputName, start, end + 1, ActiveIn(skeleton, active)), active)
  {
  }

  /** The record of one gloss of `extract_normal`, from its line. */
  method ExtractGloss(line: MmsLine, trim: int, skeleton: ArmatureObj, active: seq<string>, objects: map<string, ArmatureObj>)
    returns (r: Result<GlossData>)
    ensures r == NormalEntry(line, trim, skeleton.bones, active, BonesOf(objects))
  {
    var timing := Timing(line);
    if timing.Err? {
      return Err(timing.error);
    }
    NormalEntryUnfold(line, trim, skeleton.bones, active, BonesOf(objects), timing.value);
    var (start, end) := ShiftedTiming(timing.value, trim);
    var target := ReadTarget(skeleton, line.outputName, start, end + 1, active);
    var sourceName := InflectedPrefix + line.outputName;
    if sourceName !in objects {
      return Err(KeyError(sourceName));
    }
    var source := ReadTarget(objects[sourceName], line.outputName, 1, end - start + 2, active);
    r := CheckCounts(source, target, active);
  }

  /** One `extract_target` call of `extract_normal`, as the record it builds. */
  method ReadTarget(arm: ArmatureObj, glossName: string, start: int, end: int, active: seq<string>) returns (d: BoneData)
    ensures d == TargetData(glossName, start, end, ActiveIn(arm.bones, active))
  {
    d := ExtractTarget(arm, glossName, start, end, active);
    TargetDataOf(d, glossName, start, end, ActiveIn(arm.bones, active));
  }

  /** The record counts of both reads, compared. */
  method CheckCounts(source: BoneData, target: BoneData, active: seq<string>) returns (r: Result<GlossData>)
    ensures r == Checked(source, target, active)
  {
    if |active| == 0 {
      return Err(ZeroDivisionError);
    }
    var sourceLen := |source.frames| / (4 * |active|);
    var targetLen := |target.frames| / (4 * |active|);
    if sourceLen != targetLen {
      return Err(AssertionError("Sanity check for assuring same sample size."));
    }
    r := Ok(GlossData(targetLen, source, target));
  }

  /** A gloss that fails ends the loop with its failure. */
  lemma {:induction false} NormalDataErr(glosses: seq<GlossKey>, lines: map<GlossKey, MmsLine>, trim: int,
                                         skeleton: seq<string>, active: seq<string>, objects: map<string, seq<string>>, k: nat)
    requires k <= |glosses| && NormalData(glosses[..k], lines, trim, skeleton, active, objects).Err?
    ensures NormalData(glosses, lines, trim, skeleton, active, objects) == NormalData(glosses[..k], lines, trim, skeleton, active, objects)
    decreases |glosses|
  {
    if k < |glosses| {
      var init := glosses[..|glosses| - 1];
      assert init[..k] == glosses[..k];
      NormalDataErr(init, lines, trim, skeleton, active, objects, k);
    } else {
      assert glosses[..k] == glosses;
    }
  }
}
