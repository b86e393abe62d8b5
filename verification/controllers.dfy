/**
 * The controller of one gloss: it builds the gloss's inflection targets from
 * the configuration, copies the forward animation onto the inflected copy,
 * bakes it into the targets' controllers, attaches their constraints, reads
 * their deltas, and finally inflects them frame by frame and bakes the result.
 */
module Controllers {
  import opened Wrappers
  import opened Frames
  import opened Host
  import opened MmsParser
  import opened Targets

  // ---------------------------------------------------------------- reading the configuration

  /** A configuration value used as text; any other value is refused. */
  function TextOf(a: Attribute): (r: Result<string>)
    ensures r.Ok? <==> a.Value? && a.config.Plain? && a.config.value.JStr?
    ensures r.Ok? ==> r.value == a.config.value.s
  {
    match a
    case Value(Plain(JStr(s))) => Ok(s)
    case _ => Err(TypeError("str"))
  }

  /**
   * What `Controller.__init__` reads from one configuration entry: the target
   * class by name, then dominance, bone, root, inflection type and
   * constraints; a name the module holds that is no target class fails only
   * when called, after all five have been read.
   */
  function TargetSpecOf(a: Attribute): (r: Result<TargetSpec>)
    ensures r.Ok? ==> a.Value? && a.config.ConfigObject?
    ensures r.Ok? ==> AttrOf(a, "constraints") == Ok(r.value.constraints)
    ensures r.Ok? ==> AttrOf(a, "target") == Ok(Value(Plain(JStr(ClassName(r.value.kind)))))
  {
    var cls :- AttrOf(a, "target");
    var name :- TextOf(cls);
    var found :- ClassNamed(name);
    var dom :- AttrOf(a, "dominance");
    var b :- AttrOf(a, "bone");
    var rt :- AttrOf(a, "root");
    var it :- AttrOf(a, "itype");
    var constraints :- AttrOf(a, "constraints");
    if found.None? then Err(NotATargetClass)
    else
      var dominance :- TextOf(dom);
      var bone :- TextOf(b);
      var root :- TextOf(rt);
      var itype :- TextOf(it);
      Ok(TargetSpec(found.value, dominance, bone, root, itype, constraints))
  }

  /** A key an entry holds, and that names neither `dict` nor a dictionary method, reads as its wrapped value. */
  lemma ReadKey(data: map<string, Json>, key: string)
    requires key in data && key != "dict" && !IsDictMethod(key)
    ensures AttrOf(Value(ConfigObject(data)), key) == Ok(Value(Wrap(data[key])))
  {
  }

  /** A key an entry holds as a string reads as that text. */
  lemma ReadText(data: map<string, Json>, key: string, t: string)
    requires key in data && data[key] == JStr(t) && key != "dict" && !IsDictMethod(key)
    ensures AttrOf(Value(ConfigObject(data)), key) == Ok(Value(Plain(JStr(t))))
    ensures TextOf(Value(Plain(JStr(t)))) == Ok(t)
  {
  }

  /** The six keys an entry is read by are ordinary keys. */
  lemma EntryKeysPlain()
    ensures !IsDictMethod("target") && !IsDictMethod("dominance") && !IsDictMethod("bone")
    ensures !IsDictMethod("root") && !IsDictMethod("itype") && !IsDictMethod("constraints")
  {
  }

  /** An entry that names a target class and gives the five texts and the constraints yields exactly those. */
  lemma TargetSpecOfEntry(data: map<string, Json>, k: Kind, dominance: string, bone: string, root: string,
                          itype: string, constraints: Json)
    requires "target" in data && data["target"] == JStr(ClassName(k))
    requires "dominance" in data && data["dominance"] == JStr(dominance)
    requires "bone" in data && data["bone"] == JStr(bone)
    requires "root" in data && data["root"] == JStr(root)
    requires "itype" in data && data["itype"] == JStr(itype)
    requires "constraints" in data && data["constraints"] == constraints
    ensures TargetSpecOf(Value(ConfigObject(data))) ==
      Ok(TargetSpec(k, dominance, bone, root, itype, Value(Wrap(constraints))))
  {
    ClassNamedRoundTrip(k);
    EntryKeysPlain();
    ReadText(data, "target", ClassName(k));
    ReadText(data, "dominance", dominance);
    ReadText(data, "bone", bone);
    ReadText(data, "root", root);
    ReadText(data, "itype", itype);
    ReadKey(data, "constraints");
  }

  /** An entry without a `target` key fails on it, and one naming nothing the module holds fails on the name. */
  lemma TargetSpecOfErrors(data: map<string, Json>, name: string)
    ensures "target" !in data ==> TargetSpecOf(Value(ConfigObject(data))) == Err(KeyError("target"))
    ensures "target" in data && data["target"] == JStr(name) && ClassNamed(name).Err? ==>
      TargetSpecOf(Value(ConfigObject(data))) == Err(AttributeError(name))
  {
  }

  /** An entry naming another of the module's names fails on the call, once the other five keys are read. */
  lemma TargetSpecOfOtherName(data: map<string, Json>, name: string)
    requires "target" in data && data["target"] == JStr(name) && name in OtherNames
    requires "dominance" in data && "bone" in data && "root" in data && "itype" in data && "constraints" in data
    ensures TargetSpecOf(Value(ConfigObject(data))) == Err(NotATargetClass)
  {
    ClassNamedOthers(name);
    EntryKeysPlain();
    ReadKey(data, "target");
    ReadKey(data, "dominance");
    ReadKey(data, "bone");
    ReadKey(data, "root");
    ReadKey(data, "itype");
    ReadKey(data, "constraints");
  }

  /** The entries read in order, stopping at the first that fails. */
  function TargetSpecs(configs: seq<Attribute>): (r: Result<seq<TargetSpec>>)
    ensures r.Ok? ==> |r.value| == |configs|
  {
    MapAll(configs, TargetSpecOf)
  }

  /**
   * Reading the entries gives each entry's specification, in order, or the
   * error of the first entry that fails.
   */
  lemma TargetSpecsEach(configs: seq<Attribute>)
    ensures var r := TargetSpecs(configs);
      (r.Ok? ==> forall i :: 0 <= i < |configs| ==> TargetSpecOf(configs[i]) == Ok(r.value[i])) &&
      (r.Err? ==> exists i :: 0 <= i < |configs| && TargetSpecOf(configs[i]) == Err(r.error) &&
                              forall j :: 0 <= j < i ==> TargetSpecOf(configs[j]).Ok?)
  {
    MapAllEach(configs, TargetSpecOf);
  }

  /** The controller objects the targets of these specifications create, in order. */
  function CreationOpsAll(specs: seq<TargetSpec>, idx: nat): seq<Op> {
    if |specs| == 0 then []
    else CreationOpsAll(specs[..|specs| - 1], idx) + CreationOps(specs[|specs| - 1], idx)
  }

  /** One controller object per trajectory-family target, none for the others. */
  lemma {:induction false} CreationOpsCount(specs: seq<TargetSpec>, idx: nat)
    ensures |CreationOpsAll(specs, idx)| == |set i | 0 <= i < |specs| && IsTrajectory(specs[i].kind)|
    ensures forall op <- CreationOpsAll(specs, idx) :: op.AddController?
  {
    if |specs| > 0 {
      var n := |specs| - 1;
      var init := specs[..n];
      CreationOpsCount(init, idx);
      var before := set i | 0 <= i < n && IsTrajectory(init[i].kind);
      var all := set i | 0 <= i < |specs| && IsTrajectory(specs[i].kind);
      assert before == set i | 0 <= i < n && IsTrajectory(specs[i].kind);
      if IsTrajectory(specs[n].kind) {
        assert all == before + {n};
      } else {
        assert all == before;
      }
    }
  }

  // ---------------------------------------------------------------- the copy and bake loops as functions

  /** The frames `start` to `stop` inclusive: `range(start, stop + 1)`. */
  function Span(start: int, stop: int): (r: nat)
    ensures r == 0 <==> stop < start
    ensures r > 0 ==> start + r - 1 == stop
  {
    if stop < start then 0 else stop - start + 1
  }

  /** The first name of `names` that `present` lacks. */
  function FirstMissing(names: seq<string>, present: seq<string>): (r: Option<nat>)
    ensures r.None? <==> forall n <- names :: n in present
    ensures r.Some? ==>
              r.value < |names| && names[r.value] !in present && forall k :: 0 <= k < r.value ==> names[k] in present
  {
    if |names| == 0 then None
    else if names[0] !in present then Some(0)
    else match FirstMissing(names[1..], present)
      case None => None
      case Some(k) => Some(k + 1)
  }

  /** The keys copying the forward pose at `frame`: location, then Euler rotation, of every bone in order. */
  function PoseKeys(arm: string, bones: seq<string>, frame: int): (r: seq<Op>)
    ensures |r| == 2 * |bones|
  {
    seq(2 * |bones|, i requires 0 <= i < 2 * |bones| =>
      Keyframe(PoseBone(arm, bones[i / 2]), if i % 2 == 0 then Location else RotationEuler, frame, CopiedPose))
  }

  /** Keying one more bone appends its location and then its rotation. */
  lemma PoseKeysSnoc(arm: string, bones: seq<string>, frame: int, j: nat)
    requires j < |bones|
    ensures PoseKeys(arm, bones[..j + 1], frame) ==
      PoseKeys(arm, bones[..j], frame) +
      [Keyframe(PoseBone(arm, bones[j]), Location, frame, CopiedPose), Keyframe(PoseBone(arm, bones[j]), RotationEuler, frame, CopiedPose)]
  {
    var longer, shorter := PoseKeys(arm, bones[..j + 1], frame), PoseKeys(arm, bones[..j], frame);
    forall i | 0 <= i < 2 * j
      ensures longer[i] == shorter[i]
    {
      assert bones[..j + 1][i / 2] == bones[..j][i / 2];
    }
  }

  /** A copied key: the pose of one of `bones` on armature `arm`, keyed at a frame of the span. */
  predicate CopiedKey(op: Op, arm: string, bones: seq<string>, start: int, count: nat) {
    op.Keyframe? && op.value == CopiedPose && op.owner.PoseBone? && op.owner.armature == arm &&
    op.owner.bone in bones && start <= op.frame < start + count && op.prop != RotationQuaternion
  }

  /** The pose keys of one frame are copied keys of that frame. */
  lemma PoseKeysCopied(arm: string, bones: seq<string>, frame: int)
    ensures forall op <- PoseKeys(arm, bones, frame) :: CopiedKey(op, arm, bones, frame, 1)
  {
    var keys := PoseKeys(arm, bones, frame);
    forall i | 0 <= i < |keys|
      ensures CopiedKey(keys[i], arm, bones, frame, 1)
    {
      assert keys[i].owner.bone == bones[i / 2];
    }
  }

  /** The pose keys of one frame key both channels of each bone. */
  lemma PoseKeysCover(arm: string, bones: seq<string>, frame: int, b: string)
    requires b in bones
    ensures Keyframe(PoseBone(arm, b), Location, frame, CopiedPose) in PoseKeys(arm, bones, frame)
    ensures Keyframe(PoseBone(arm, b), RotationEuler, frame, CopiedPose) in PoseKeys(arm, bones, frame)
  {
    var keys := PoseKeys(arm, bones, frame);
    var k :| 0 <= k < |bones| && bones[k] == b;
    assert keys[2 * k] == Keyframe(PoseBone(arm, b), Location, frame, CopiedPose);
    assert keys[2 * k + 1] == Keyframe(PoseBone(arm, b), RotationEuler, frame, CopiedPose);
  }

  /** The keys of the copy loop over `count` frames from `start`. */
  function CopyKeys(arm: string, bones: seq<string>, start: int, count: nat): (r: seq<Op>)
    ensures |r| == 2 * |bones| * count
  {
    if count == 0 then []
    else CopyKeys(arm, bones, start, count - 1) + PoseKeys(arm, bones, start + count - 1)
  }

  /** Every key the copy loop writes copies a bone's pose inside the span. */
  lemma {:induction false} CopyKeysCopied(arm: string, bones: seq<string>, start: int, count: nat)
    ensures forall op <- CopyKeys(arm, bones, start, count) :: CopiedKey(op, arm, bones, start, count)
  {
    if count > 0 {
      CopyKeysCopied(arm, bones, start, count - 1);
      PoseKeysCopied(arm, bones, start + count - 1);
    }
  }

  /** The copy loop keys both channels of each bone at each frame of the span. */
  lemma {:induction false} CopyKeysCover(arm: string, bones: seq<string>, start: int, count: nat, f: int, b: string)
    requires start <= f < start + count && b in bones
    ensures Keyframe(PoseBone(arm, b), Location, f, CopiedPose) in CopyKeys(arm, bones, start, count)
    ensures Keyframe(PoseBone(arm, b), RotationEuler, f, CopiedPose) in CopyKeys(arm, bones, start, count)
  {
    if f < start + count - 1 {
      CopyKeysCover(arm, bones, start, count - 1, f, b);
    } else {
      PoseKeysCover(arm, bones, f, b);
    }
  }

  /** The first bone lookup that fails in the bake loop: each target's bone, then its root. */
  function BakeMiss(states: seq<TargetState>, present: seq<string>): (r: Option<string>)
    ensures r.None? <==> forall s <- states :: s.bone in present && s.root in present
    ensures r.Some? ==> r.value !in present
  {
    if |states| == 0 then None
    else if states[0].bone !in present then Some(states[0].bone)
    else if states[0].root !in present then Some(states[0].root)
    else
      assert forall s <- states :: s == states[0] || s in states[1..];
      BakeMiss(states[1..], present)
  }

  /** The bake loop's first failing lookup is at target `j` when all targets before it are found. */
  lemma {:induction false} BakeMissAt(states: seq<TargetState>, present: seq<string>, j: nat)
    requires j < |states| && BakeMiss(states[..j], present).None?
    ensures states[j].bone !in present ==> BakeMiss(states, present) == Some(states[j].bone)
    ensures states[j].bone in present && states[j].root !in present ==> BakeMiss(states, present) == Some(states[j].root)
    decreases j
  {
    if j > 0 {
      assert states[..j][1..] == states[1..][..j - 1];
      BakeMissAt(states[1..], present, j - 1);
    }
  }

  /** A target whose bone and root are found extends a prefix of targets whose lookups all succeed. */
  lemma BakeMissSnoc(states: seq<TargetState>, present: seq<string>, j: nat)
    requires j < |states| && BakeMiss(states[..j], present).None?
    requires states[j].bone in present && states[j].root in present
    ensures BakeMiss(states[..j + 1], present).None?
  {
    assert forall s <- states[..j + 1] :: s in states[..j] || s == states[j];
  }

  /**
   * The keys baking the forward pose into the controllers at `frame`: a
   * trajectory controller sits at its bone's head, the others at its tail; the
   * head controller takes the bone's rotation relative to the root, the
   * others its local rotation. Targets without a controller are skipped.
   */
  function ControllerKeys(states: seq<TargetState>, frame: int): (r: seq<Op>)
    ensures |r| <= 2 * |states| && |r| % 2 == 0
  {
    if |states| == 0 then []
    else
      var s := states[|states| - 1];
      var before := ControllerKeys(states[..|states| - 1], frame);
      if !IsTrajectory(s.kind) then before
      else
        var c := Ctrl(s.ctrl);
        before +
          [Keyframe(c, Location, frame, BakedLocation(if s.kind == TrajectoryTarget then BoneHead else BoneTail)),
           Keyframe(c, RotationQuaternion, frame, BakedRotation(s.kind == HeadRotTarget))]
  }

  /** The bake keys of a frame are keyed at that frame, on the controllers of trajectory-family targets. */
  lemma {:induction false} ControllerKeysOwned(states: seq<TargetState>, frame: int)
    ensures forall op <- ControllerKeys(states, frame) ::
              op.Keyframe? && op.frame == frame && op.owner.Ctrl? &&
              exists s <- states :: IsTrajectory(s.kind) && s.ctrl == op.owner.name
  {
    if |states| > 0 {
      var init := states[..|states| - 1];
      ControllerKeysOwned(init, frame);
      assert forall t <- init :: t in states;
    }
  }

  /** Each controller is keyed twice per frame: location, then rotation. */
  lemma {:induction false} ControllerKeysCount(states: seq<TargetState>, frame: int)
    ensures |ControllerKeys(states, frame)| == 2 * |set i | 0 <= i < |states| && IsTrajectory(states[i].kind)|
  {
    if |states| > 0 {
      var n := |states| - 1;
      var init := states[..n];
      ControllerKeysCount(init, frame);
      var before := set i | 0 <= i < n && IsTrajectory(init[i].kind);
      var all := set i | 0 <= i < |states| && IsTrajectory(states[i].kind);
      assert before == set i | 0 <= i < n && IsTrajectory(states[i].kind);
      if IsTrajectory(states[n].kind) {
        assert all == before + {n};
      } else {
        assert all == before;
      }
    }
  }

  /** The keys of the bake loop over `count` frames from `start`. */
  function BakeKeys(states: seq<TargetState>, start: int, count: nat): seq<Op> {
    if count == 0 then []
    else BakeKeys(states, start, count - 1) + ControllerKeys(states, start + count - 1)
  }

  /** The bake loop keys only controllers, only inside the span. */
  lemma {:induction false} BakeKeysInSpan(states: seq<TargetState>, start: int, count: nat)
    ensures forall op <- BakeKeys(states, start, count) :: op.Keyframe? && start <= op.frame < start + count && op.owner.Ctrl?
  {
    if count > 0 {
      BakeKeysInSpan(states, start, count - 1);
      ControllerKeysOwned(states, start + count - 1);
    }
  }

  // ---------------------------------------------------------------- the target loops as functions

  /** What one target does in a loop over the targets: its new state and its host operations, or an error. */
  type Step = TargetState -> Result<(TargetState, seq<Op>)>

  /** A loop over the targets in order that stops at the first failing target. */
  function Each(states: seq<TargetState>, step: Step): (r: Result<(seq<TargetState>, seq<Op>)>)
    ensures r.Ok? ==> |r.value.0| == |states|
  {
    if |states| == 0 then Ok(([], []))
    else
      var done :- Each(states[..|states| - 1], step);
      var one :- step(states[|states| - 1]);
      Ok((done.0 + [one.0], done.1 + one.1))
  }

  /**
   * A loop that gets through gives each target the state its step gives it,
   * and performs the operations of every step and no others.
   */
  lemma {:induction false} EachStates(states: seq<TargetState>, step: Step)
    requires Each(states, step).Ok?
    ensures var (next, ops) := Each(states, step).value;
      (forall k :: 0 <= k < |states| ==> step(states[k]).Ok? && step(states[k]).value.0 == next[k]) &&
      (forall k, op :: 0 <= k < |states| && op in step(states[k]).value.1 ==> op in ops) &&
      (forall op <- ops :: exists k :: 0 <= k < |states| && step(states[k]).Ok? && op in step(states[k]).value.1)
  {
    if |states| > 0 {
      var n := |states| - 1;
      EachStates(states[..n], step);
      var (next, ops) := Each(states, step).value;
      var (done, before) := Each(states[..n], step).value;
      forall op <- ops
        ensures exists k :: 0 <= k < |states| && step(states[k]).Ok? && op in step(states[k]).value.1
      {
        if op in before {
          var k :| 0 <= k < n && step(states[..n][k]).Ok? && op in step(states[..n][k]).value.1;
          assert states[..n][k] == states[k];
        } else {
          assert op in step(states[n]).value.1;
        }
      }
    }
  }

  /** A loop fails exactly when some target's step fails, and then with the error of the first such step. */
  lemma {:induction false} EachFails(states: seq<TargetState>, step: Step)
    ensures Each(states, step).Err? <==> exists s <- states :: step(s).Err?
    ensures Each(states, step).Err? ==>
      exists k :: 0 <= k < |states| && step(states[k]) == Err(Each(states, step).error) &&
                  forall j :: 0 <= j < k ==> step(states[j]).Ok?
  {
    if |states| > 0 {
      var n := |states| - 1;
      var init := states[..n];
      EachFails(init, step);
      assert forall s <- states :: s in init || s == states[n];
      assert forall s <- init :: s in states;
      if Each(init, step).Err? {
        var k :| 0 <= k < n && step(init[k]) == Err(Each(init, step).error) && forall j :: 0 <= j < k ==> step(init[j]).Ok?;
        assert init[k] == states[k];
        assert forall j :: 0 <= j < k ==> init[j] == states[j];
      } else if step(states[n]).Err? {
        EachStates(init, step);
      }
    }
  }

  /** Once a prefix of the targets fails, the whole loop fails the same way. */
  lemma {:induction false} EachPrefixErr(states: seq<TargetState>, step: Step, i: nat)
    requires i <= |states| && Each(states[..i], step).Err?
    ensures Each(states, step) == Each(states[..i], step)
    decreases |states| - i
  {
    if i < |states| {
      assert states[..i + 1][..i] == states[..i];
      EachPrefixErr(states, step, i + 1);
    } else {
      assert states[..i] == states;
    }
  }

  /** A loop that got through the first `i` targets goes on with the next target's step. */
  lemma EachNext(states: seq<TargetState>, step: Step, i: nat, done: seq<TargetState>, ops: seq<Op>)
    requires i < |states| && Each(states[..i], step) == Ok((done, ops)) && step(states[i]).Ok?
    ensures Each(states[..i + 1], step) == Ok((done + [step(states[i]).value.0], ops + step(states[i]).value.1))
  {
    assert states[..i + 1][..i] == states[..i];
  }

  /** A loop that got through the first `i` targets stops at the next one if its step fails. */
  lemma EachStops(states: seq<TargetState>, step: Step, i: nat, done: seq<TargetState>, ops: seq<Op>)
    requires i < |states| && Each(states[..i], step) == Ok((done, ops)) && step(states[i]).Err?
    ensures Each(states, step) == Err(step(states[i]).error)
  {
    assert states[..i + 1][..i] == states[..i];
    EachPrefixErr(states, step, i + 1);
  }

  /** One turn of the last loop of `setup_chain`: the target's constraints, then its deltas unless inflection is off. */
  function SetupStep(s: TargetState, line: MmsLine, without: bool): (r: Result<(TargetState, seq<Op>)>)
    ensures r.Ok? ==> r.value.0 == s.(deltaR := r.value.0.deltaR, deltaT := r.value.0.deltaT, deltaO := r.value.0.deltaO)
    ensures r.Ok? ==> forall op <- r.value.1 :: op.AddIk? && op.bone == s.bone
  {
    var cons :- ConstraintStep(s);
    var next :- if without then Ok(s) else InitDeltas(s, line);
    Ok((next, cons))
  }

  /** That turn as the step of a loop. */
  function SettingUp(line: MmsLine, without: bool): Step {
    s => SetupStep(s, line, without)
  }

  /** After the setup loop every target holds its row's deltas, or is as it was when inflection is off. */
  lemma TargetsSetupStates(states: seq<TargetState>, line: MmsLine, without: bool)
    requires Each(states, SettingUp(line, without)).Ok?
    ensures var next := Each(states, SettingUp(line, without)).value.0;
      forall k :: 0 <= k < |states| ==>
        if without then next[k] == states[k] else InitDeltas(states[k], line) == Ok(next[k])
  {
    var step := SettingUp(line, without);
    var next := Each(states, step).value.0;
    EachStates(states, step);
    forall k | 0 <= k < |states|
      ensures if without then next[k] == states[k] else InitDeltas(states[k], line) == Ok(next[k])
    {
      SetupStepState(states[k], line, without);
    }
  }

  /** One turn of the setup loop leaves the target as it was, or gives it its row's deltas. */
  lemma SetupStepState(s: TargetState, line: MmsLine, without: bool)
    requires SettingUp(line, without)(s).Ok?
    ensures var next := SettingUp(line, without)(s).value.0;
      if without then next == s else InitDeltas(s, line) == Ok(next)
  {
    assert SettingUp(line, without)(s) == SetupStep(s, line, without);
  }

  /** One turn of the setup loop performs the target's constraint operations. */
  lemma SetupStepOps(s: TargetState, line: MmsLine, without: bool)
    requires SetupStep(s, line, without).Ok?
    ensures SettingUp(line, without)(s) == SetupStep(s, line, without)
    ensures var ops := SetupStep(s, line, without).value.1;
      (forall op <- ops :: op.AddIk? && IsTrajectory(s.kind) && op.bone == s.bone && op.ctrl == s.ctrl) &&
      (IsTrajectory(s.kind) ==> AddIkFor(s, ops))
  {
  }

  /**
   * The setup loop adds an IK constraint for every trajectory-family target,
   * on its bone towards its controller, and nothing else.
   */
  lemma TargetsSetupConstraints(states: seq<TargetState>, line: MmsLine, without: bool)
    requires Each(states, SettingUp(line, without)).Ok?
    ensures var ops := Each(states, SettingUp(line, without)).value.1;
      (forall op <- ops :: op.AddIk? && exists s <- states :: IsTrajectory(s.kind) && op.bone == s.bone && op.ctrl == s.ctrl) &&
      (forall s <- states :: IsTrajectory(s.kind) ==> AddIkFor(s, ops))
  {
    var step := SettingUp(line, without);
    var ops := Each(states, step).value.1;
    EachStates(states, step);
    forall op <- ops
      ensures op.AddIk? && exists s <- states :: IsTrajectory(s.kind) && op.bone == s.bone && op.ctrl == s.ctrl
    {
      var k :| 0 <= k < |states| && step(states[k]).Ok? && op in step(states[k]).value.1;
      SetupStepOps(states[k], line, without);
      assert states[k] in states;
    }
    forall s <- states | IsTrajectory(s.kind)
      ensures AddIkFor(s, ops)
    {
      var k :| 0 <= k < |states| && states[k] == s;
      SetupStepOps(s, line, without);
      var op :| op in SetupStep(s, line, without).value.1 && op.AddIk? && op.bone == s.bone && op.ctrl == s.ctrl;
      assert op in ops;
    }
  }

  /** An IK constraint of `ops` sits on the bone of `s` and points at its controller. */
  predicate AddIkFor(s: TargetState, ops: seq<Op>) {
    exists op <- ops :: op.AddIk? && op.bone == s.bone && op.ctrl == s.ctrl
  }

  /** `bone.inflect(frame)` as the step of a loop. */
  function Inflecting(frame: int, anchors: Anchors): Step {
    s => InflectStep(s, frame, anchors)
  }

  /** One frame changes nothing but the anchors, which it sets to the anchors of this frame. */
  lemma InflectAllStates(states: seq<TargetState>, frame: int, anchors: Anchors)
    requires Each(states, Inflecting(frame, anchors)).Ok?
    ensures var next := Each(states, Inflecting(frame, anchors)).value.0;
      forall k :: 0 <= k < |states| ==> AnchorOnly(states[k], next[k], anchors(states[k].dictionary, states[k].bone, states[k].root, frame))
  {
    var step := Inflecting(frame, anchors);
    var next := Each(states, step).value.0;
    EachStates(states, step);
    forall k | 0 <= k < |states|
      ensures AnchorOnly(states[k], next[k], anchors(states[k].dictionary, states[k].bone, states[k].root, frame))
    {
      assert step(states[k]) == InflectStep(states[k], frame, anchors);
      InflectKeys(states[k], frame, anchors);
    }
  }

  /** One frame writes keyframes only, all at that frame. */
  lemma InflectAllKeys(states: seq<TargetState>, frame: int, anchors: Anchors)
    requires Each(states, Inflecting(frame, anchors)).Ok?
    ensures forall op <- Each(states, Inflecting(frame, anchors)).value.1 :: op.Keyframe? && op.frame == frame
  {
    var step := Inflecting(frame, anchors);
    EachStates(states, step);
    forall op <- Each(states, step).value.1
      ensures op.Keyframe? && op.frame == frame
    {
      var k :| 0 <= k < |states| && step(states[k]).Ok? && op in step(states[k]).value.1;
      assert step(states[k]) == InflectStep(states[k], frame, anchors);
      InflectKeys(states[k], frame, anchors);
    }
  }

  /** The inflection of one frame fails exactly when some target misses a delta, and then with a `TypeError`. */
  lemma InflectAllFails(states: seq<TargetState>, frame: int, anchors: Anchors)
    ensures Each(states, Inflecting(frame, anchors)).Err? <==> exists s <- states :: MissingDelta(s)
    ensures Each(states, Inflecting(frame, anchors)).Err? ==> Each(states, Inflecting(frame, anchors)).error == NoneOperand
  {
    var step := Inflecting(frame, anchors);
    EachFails(states, step);
    forall s <- states
      ensures step(s).Err? <==> MissingDelta(s)
      ensures step(s).Err? ==> step(s).error == NoneOperand
    {
      InflectFails(s, frame, anchors);
    }
  }

  /** The frame loop of `execute` over `count` frames from `start`. */
  function InflectFrames(states: seq<TargetState>, start: int, count: nat, anchors: Anchors): (r: Result<(seq<TargetState>, seq<Op>)>)
    ensures r.Ok? ==> |r.value.0| == |states|
  {
    if count == 0 then Ok((states, []))
    else
      var done :- InflectFrames(states, start, count - 1, anchors);
      var step :- Each(done.0, Inflecting(start + count - 1, anchors));
      Ok((step.0, done.1 + step.1))
  }

  /**
   * Inflecting over a span leaves each target as it was except for its
   * anchor; a trajectory target that had none fixes it at the span's first
   * frame, from the anchors of that frame.
   */
  lemma {:induction false} InflectFramesStates(states: seq<TargetState>, start: int, count: nat, anchors: Anchors)
    requires count > 0 && InflectFrames(states, start, count, anchors).Ok?
    ensures var next := InflectFrames(states, start, count, anchors).value.0;
      forall k :: 0 <= k < |states| ==> AnchorOnly(states[k], next[k], anchors(states[k].dictionary, states[k].bone, states[k].root, start))
  {
    var prev := InflectFrames(states, start, count - 1, anchors).value.0;
    var frame := start + count - 1;
    var next := Each(prev, Inflecting(frame, anchors)).value.0;
    assert InflectFrames(states, start, count, anchors).value.0 == next;
    InflectAllStates(prev, frame, anchors);
    if count > 1 {
      InflectFramesStates(states, start, count - 1, anchors);
      AnchorOnlyAll(states, prev, next, start, frame, anchors);
    }
  }

  /** Inflecting over a span writes keyframes only, all inside the span. */
  lemma {:induction false} InflectFramesKeys(states: seq<TargetState>, start: int, count: nat, anchors: Anchors)
    requires InflectFrames(states, start, count, anchors).Ok?
    ensures forall op <- InflectFrames(states, start, count, anchors).value.1 :: op.Keyframe? && start <= op.frame < start + count
  {
    if count > 0 {
      var done := InflectFrames(states, start, count - 1, anchors).value;
      var step := Each(done.0, Inflecting(start + count - 1, anchors)).value;
      var ops := InflectFrames(states, start, count, anchors).value.1;
      assert ops == done.1 + step.1;
      InflectFramesKeys(states, start, count - 1, anchors);
      InflectAllKeys(done.0, start + count - 1, anchors);
      forall op <- ops
        ensures op.Keyframe? && start <= op.frame < start + count
      {
        if op !in done.1 {
          assert op in step.1;
        }
      }
    }
  }

  /** Two frames of anchor-only steps keep the anchors of the first frame. */
  lemma AnchorOnlyAll(states: seq<TargetState>, mid: seq<TargetState>, next: seq<TargetState>, first: int, second: int,
                      anchors: Anchors)
    requires |mid| == |states| == |next|
    requires forall k :: 0 <= k < |states| ==> AnchorOnly(states[k], mid[k], anchors(states[k].dictionary, states[k].bone, states[k].root, first))
    requires forall k :: 0 <= k < |mid| ==> AnchorOnly(mid[k], next[k], anchors(mid[k].dictionary, mid[k].bone, mid[k].root, second))
    ensures forall k :: 0 <= k < |states| ==> AnchorOnly(states[k], next[k], anchors(states[k].dictionary, states[k].bone, states[k].root, first))
  {
    forall k | 0 <= k < |states|
      ensures AnchorOnly(states[k], next[k], anchors(states[k].dictionary, states[k].bone, states[k].root, first))
    {
      AnchorOnlyTwice(states[k], mid[k], next[k], anchors(states[k].dictionary, states[k].bone, states[k].root, first),
                      anchors(mid[k].dictionary, mid[k].bone, mid[k].root, second));
    }
  }

  /** Targets that differ only in their anchors miss the same deltas. */
  lemma SameMissing(states: seq<TargetState>, next: seq<TargetState>)
    requires |next| == |states| && forall k :: 0 <= k < |states| ==> next[k] == states[k].(head := next[k].head)
    ensures (exists s <- next :: MissingDelta(s)) <==> (exists s <- states :: MissingDelta(s))
  {
    if exists s <- next :: MissingDelta(s) {
      var s :| s in next && MissingDelta(s);
      var k :| 0 <= k < |next| && next[k] == s;
      assert MissingDelta(states[k]);
    }
    if exists s <- states :: MissingDelta(s) {
      var s :| s in states && MissingDelta(s);
      var k :| 0 <= k < |states| && states[k] == s;
      assert MissingDelta(next[k]);
    }
  }

  /** Inflection over a non-empty span fails exactly when some target misses a delta. */
  lemma {:induction false} InflectFramesFails(states: seq<TargetState>, start: int, count: nat, anchors: Anchors)
    ensures InflectFrames(states, start, count, anchors).Err? <==> count > 0 && exists s <- states :: MissingDelta(s)
  {
    if count > 0 {
      InflectFramesFails(states, start, count - 1, anchors);
      var prev := InflectFrames(states, start, count - 1, anchors);
      if prev.Ok? {
        var done := prev.value.0;
        var step := Each(done, Inflecting(start + count - 1, anchors));
        assert InflectFrames(states, start, count, anchors).Err? <==> step.Err?;
        InflectAllFails(done, start + count - 1, anchors);
        if count > 1 {
          FramesKeepMissing(states, start, count - 1, anchors);
        }
      }
    }
  }

  /** Inflecting over a non-empty span leaves the same deltas missing as before. */
  lemma FramesKeepMissing(states: seq<TargetState>, start: int, count: nat, anchors: Anchors)
    requires count > 0 && InflectFrames(states, start, count, anchors).Ok?
    ensures var done := InflectFrames(states, start, count, anchors).value.0;
      (exists s <- done :: MissingDelta(s)) <==> (exists s <- states :: MissingDelta(s))
  {
    var done := InflectFrames(states, start, count, anchors).value.0;
    InflectFramesStates(states, start, count, anchors);
    forall k | 0 <= k < |states|
      ensures done[k] == states[k].(head := done[k].head)
    {
      assert AnchorOnly(states[k], done[k], anchors(states[k].dictionary, states[k].bone, states[k].root, start));
    }
    SameMissing(states, done);
  }

  /** Once the frames before some frame fail, the whole span fails the same way. */
  lemma {:induction false} InflectFramesPrefixErr(states: seq<TargetState>, start: int, i: nat, count: nat, anchors: Anchors)
    requires i <= count && InflectFrames(states, start, i, anchors).Err?
    ensures InflectFrames(states, start, count, anchors) == InflectFrames(states, start, i, anchors)
    decreases count - i
  {
    if i < count {
      InflectFramesPrefixErr(states, start, i + 1, count, anchors);
    }
  }

  // ---------------------------------------------------------------- setup_chain as a function

  /** What `setup_chain` computes: the span it works on, the targets' new states and the host operations. */
  datatype Setup = Setup(start: int, end: int, states: seq<TargetState>, ops: seq<Op>)

  /** The copy loop over `count` frames: its keys, or the first source bone the inflected armature lacks. */
  function CopyStage(srcBones: seq<string>, dupName: string, dupBones: seq<string>, start: int, count: nat): Result<seq<Op>> {
    var miss := FirstMissing(srcBones, dupBones);
    if count > 0 && miss.Some? then Err(KeyError(srcBones[miss.value]))
    else Ok(CopyKeys(dupName, srcBones, start, count))
  }

  /** The bake loop over `count` frames: its keys, or the first target bone or root the inflected armature lacks. */
  function BakeStage(states: seq<TargetState>, dupBones: seq<string>, start: int, count: nat): Result<seq<Op>> {
    var miss := BakeMiss(states, dupBones);
    if count > 0 && miss.Some? then Err(KeyError(miss.value))
    else Ok(BakeKeys(states, start, count))
  }

  /**
   * `setup_chain`: the source action's frame range, truncated, gives the span;
   * the pose of every source bone is copied onto the inflected armature, then
   * baked into the controllers, then each target is set up.
   */
  function SetupSpec(states: seq<TargetState>, source: Option<Action>, srcBones: seq<string>, dupName: string,
                     dupBones: seq<string>, line: MmsLine, without: bool): (r: Result<Setup>)
    ensures r.Ok? ==> source.Some? && |r.value.states| == |states|
  {
    if source.None? then Err(AttributeError("frame_range"))
    else
      var range := FrameRange(source.value);
      var start := Trunc(range.0);
      var end := Trunc(range.1);
      var copy :- CopyStage(srcBones, dupName, dupBones, start, Span(start, end));
      var bake :- BakeStage(states, dupBones, start, Span(start, end));
      var run :- Each(states, SettingUp(line, without));
      Ok(Setup(start, end, run.0, copy + bake + run.1))
  }

  /**
   * The copy and the bake look bones up on the inflected armature: a set-up
   * over a non-empty span found every source bone and every target's bone
   * and root there, and a source without an action fails on its frame range.
   */
  lemma SetupLookups(states: seq<TargetState>, source: Option<Action>, srcBones: seq<string>, dupName: string,
                     dupBones: seq<string>, line: MmsLine, without: bool)
    ensures source.None? ==> SetupSpec(states, source, srcBones, dupName, dupBones, line, without) == Err(AttributeError("frame_range"))
    ensures var r := SetupSpec(states, source, srcBones, dupName, dupBones, line, without);
      r.Ok? && Span(r.value.start, r.value.end) > 0 ==>
        (forall b <- srcBones :: b in dupBones) && (forall s <- states :: s.bone in dupBones && s.root in dupBones)
  {
  }

  /**
   * The span of `setup_chain` is the source action's frame range, truncated;
   * every key it writes lies inside that span.
   */
  lemma SetupKeysInSpan(states: seq<TargetState>, source: Option<Action>, srcBones: seq<string>, dupName: string,
                        dupBones: seq<string>, line: MmsLine, without: bool)
    requires SetupSpec(states, source, srcBones, dupName, dupBones, line, without).Ok?
    ensures var r := SetupSpec(states, source, srcBones, dupName, dupBones, line, without).value;
      r.start == Trunc(FrameRange(source.value).0) && r.end == Trunc(FrameRange(source.value).1) &&
      forall op <- r.ops :: op.Keyframe? ==> r.start <= op.frame <= r.end
  {
    var r := SetupSpec(states, source, srcBones, dupName, dupBones, line, without).value;
    var count := Span(r.start, r.end);
    CopyKeysCopied(dupName, srcBones, r.start, count);
    BakeKeysInSpan(states, r.start, count);
    TargetsSetupConstraints(states, line, without);
  }

  /**
   * The inflected action's `frame_range`, truncated, once `setup_chain` has
   * run over `start .. end`: that action starts without keys and only the
   * copy keys it, every source bone at every whole frame of the span. The
   * host widens a single keyed frame to `(start, start + 1)` and reports
   * `(0, 1)` for an action without keys.
   */
  function InflectedSpan(start: int, end: int, srcBones: seq<string>): (int, int) {
    if |srcBones| == 0 || end < start then (0, 1)
    else if start < end then (start, end)
    else (start, start + 1)
  }

  /**
   * `InflectedSpan` is what the host reports for the copy's keys: an action
   * keyed at both ends of `start .. end` and nowhere outside it, as the copy
   * leaves it, has exactly that truncated frame range.
   */
  lemma InflectedSpanIsFrameRange(a: Action, start: int, end: int, srcBones: seq<string>)
    requires |srcBones| > 0 && start <= end
    requires forall f <- KeyFrames(a) :: start as real <= f <= end as real
    requires start as real in KeyFrames(a) && end as real in KeyFrames(a)
    ensures (Trunc(FrameRange(a).0), Trunc(FrameRange(a).1)) == InflectedSpan(start, end, srcBones)
  {
    var fs := KeyFrames(a);
    assert Min(fs) == start as real;
    assert Max(fs) == end as real;
    assert Trunc(start as real) == start && Trunc(end as real) == end && Trunc((start + 1) as real) == start + 1;
  }

  /** An action the copy left without keys, because there was no bone to copy, reports `(0, 1)`. */
  lemma InflectedSpanUnkeyed(a: Action, start: int, end: int)
    requires |KeyFrames(a)| == 0
    ensures (Trunc(FrameRange(a).0), Trunc(FrameRange(a).1)) == InflectedSpan(start, end, [])
  {
    assert FrameRange(a) == (0.0, 1.0);
  }

  /**
   * After `n` of `count` frames, the outcome `r` of the next frame decides the
   * frame loop: a failure is the failure of the whole span, a success extends
   * the run by one frame.
   */
  lemma FrameOutcome(states: seq<TargetState>, start: int, n: nat, count: nat, anchors: Anchors,
                     done: seq<TargetState>, ops: seq<Op>, r: Result<()>)
    requires n < count && InflectFrames(states, start, n, anchors) == Ok((done, ops))
    requires var step := Each(done, Inflecting(start + n, anchors));
      (step.Ok? ==> r.Ok?) && (step.Err? ==> r == Err(step.error))
    ensures r.Err? ==> InflectFrames(states, start, count, anchors) == Err(r.error)
    ensures var step := Each(done, Inflecting(start + n, anchors));
      r.Ok? ==> InflectFrames(states, start, n + 1, anchors) == Ok((step.value.0, ops + step.value.1))
  {
    if r.Err? {
      InflectFramesPrefixErr(states, start, n + 1, count, anchors);
    }
  }

  /**
   * The outcomes of the three loops of `setup_chain` (the copy, the bake and
   * the set-up, each run only when the one before it got through) and the
   * operations recorded before and after each make up what `SetupSpec` says.
   */
  lemma SetupOutcome(states: seq<TargetState>, a: Action, srcBones: seq<string>, dupName: string, dupBones: seq<string>,
                     line: MmsLine, without: bool, copied: Result<()>, baked: Result<()>, prepared: Result<()>,
                     ops0: seq<Op>, ops1: seq<Op>, ops2: seq<Op>, ops3: seq<Op>)
    requires var start := Trunc(FrameRange(a).0);
      var end := Trunc(FrameRange(a).1);
      var c := CopyStage(srcBones, dupName, dupBones, start, Span(start, end));
      var b := BakeStage(states, dupBones, start, Span(start, end));
      var run := Each(states, SettingUp(line, without));
      (c.Ok? ==> copied.Ok? && ops1 == ops0 + c.value) && (c.Err? ==> copied == Err(c.error)) &&
      (copied.Ok? ==> (b.Ok? ==> baked.Ok? && ops2 == ops1 + b.value) && (b.Err? ==> baked == Err(b.error))) &&
      (copied.Ok? && baked.Ok? ==> (run.Ok? ==> prepared.Ok? && ops3 == ops2 + run.value.1) && (run.Err? ==> prepared == Err(run.error)))
    ensures var spec := SetupSpec(states, Some(a), srcBones, dupName, dupBones, line, without);
      (copied.Err? ==> spec == Err(copied.error)) &&
      (copied.Ok? && baked.Err? ==> spec == Err(baked.error)) &&
      (copied.Ok? && baked.Ok? && prepared.Err? ==> spec == Err(prepared.error)) &&
      (copied.Ok? && baked.Ok? && prepared.Ok? ==>
         spec.Ok? && spec.value.start == Trunc(FrameRange(a).0) && spec.value.end == Trunc(FrameRange(a).1) &&
         spec.value.states == Each(states, SettingUp(line, without)).value.0 && ops3 == ops0 + spec.value.ops)
  {
    var start := Trunc(FrameRange(a).0);
    var end := Trunc(FrameRange(a).1);
    var c := CopyStage(srcBones, dupName, dupBones, start, Span(start, end));
    var b := BakeStage(states, dupBones, start, Span(start, end));
    var run := Each(states, SettingUp(line, without));
    if copied.Ok? && baked.Ok? && prepared.Ok? {
      AppendTwice(ops0, c.value, b.value);
      AppendTwice(ops0, c.value + b.value, run.value.1);
    }
  }

  /**
   * After the first `i` entries were read, entry `i` decides the loop of
   * `Controller.__init__`: its failure is the failure of the whole loop, its
   * specification extends the ones read and their controller objects.
   */
  lemma EntryOutcome(configs: seq<Attribute>, i: nat, idx: nat, specs: seq<TargetSpec>)
    requires i < |configs| && TargetSpecs(configs[..i]) == Ok(specs)
    ensures var spec := TargetSpecOf(configs[i]);
      (spec.Err? ==> TargetSpecs(configs) == Err(spec.error)) &&
      (spec.Ok? ==> TargetSpecs(configs[..i + 1]) == Ok(specs + [spec.value]) &&
                    CreationOpsAll(specs + [spec.value], idx) == CreationOpsAll(specs, idx) + CreationOps(spec.value, idx))
  {
    MapAllNext(configs, TargetSpecOf, i, specs);
    if TargetSpecOf(configs[i]).Ok? {
      assert (specs + [TargetSpecOf(configs[i]).value])[..i] == specs;
    }
  }

  /** Appending in two steps is appending the two parts at once. */
  lemma AppendTwice(a: seq<Op>, b: seq<Op>, c: seq<Op>)
    ensures a + b + c == a + (b + c)
  {
  }

  // ---------------------------------------------------------------- the controller object

  /** `Controller`: the inflection targets of one gloss, in configuration order. */
  class Controller {
    const targets: seq<Target>
    /** The place of each target in `targets`. */
    ghost const position: map<Target, nat>

    /** No target is listed twice: each has its own place. */
    ghost predicate Valid() {
      forall k :: 0 <= k < |targets| ==> targets[k] in position && position[targets[k]] == k
    }

    /** The targets' states, in order. */
    function States(): (r: seq<TargetState>)
      reads targets
      ensures |r| == |targets| && forall k :: 0 <= k < |targets| ==> r[k] == targets[k].State()
    {
      seq(|targets|, k requires 0 <= k < |targets| reads targets => targets[k].State())
    }

    /** The targets are in the states `states`, in order. */
    ghost predicate Holds(states: seq<TargetState>)
      reads targets
    {
      |states| == |targets| && forall k :: 0 <= k < |targets| ==> targets[k].State() == states[k]
    }

    constructor(ts: seq<Target>, ghost places: map<Target, nat>)
      ensures targets == ts && position == places
    {
      targets := ts;
      position := places;
    }

    /**
     * `Controller(armature, dictionary_name, ik_targets, idx)`: one target per
     * configuration entry, in order, each new with identity deltas; the
     * trajectory-family targets add their controller objects to the scene.
     */
    static method Create(configs: seq<Attribute>, idx: nat, armature: string, dictionary: string, scene: Scene) returns (r: Result<Controller>)
      modifies scene
      ensures var specs := TargetSpecs(configs);
        (specs.Err? ==> r == Err(specs.error)) &&
        (specs.Ok? ==>
           r.Ok? && fresh(r.value) && r.value.Valid() &&
           |r.value.targets| == |specs.value| && (forall k :: 0 <= k < |specs.value| ==> fresh(r.value.targets[k])) &&
           (forall k :: 0 <= k < |specs.value| ==> r.value.targets[k].State() == Initial(specs.value[k], idx, armature, dictionary)) &&
           scene.ops == old(scene.ops) + CreationOpsAll(specs.value, idx))
    {
      var built: seq<Target> := [];
      ghost var places: map<Target, nat> := map[];
      ghost var specs: seq<TargetSpec> := [];
      for i := 0 to |configs|
        invariant |built| == i && Building(configs, built, places, specs, idx, armature, dictionary)
        invariant forall k :: 0 <= k < i ==> fresh(built[k])
        invariant scene.ops == old(scene.ops) + CreationOpsAll(specs, idx)
      {
        var t;
        ghost var spec;
        t, spec := NextTarget(configs, idx, armature, dictionary, scene, built, places, specs);
        if t.Err? {
          return Err(t.error);
        }
        AppendTwice(old(scene.ops), CreationOpsAll(specs, idx), CreationOps(spec, idx));
        built := built + [t.value];
        places := places[t.value := i];
        specs := specs + [spec];
      }
      assert configs[..|configs|] == configs;
      var c := new Controller(built, places);
      r := Ok(c);
    }

    /**
     * The targets `built` come from the first `|built|` entries of `configs`,
     * read as `specs`: each in the initial state of its specification, each
     * at its own place.
     */
    static ghost predicate Building(configs: seq<Attribute>, built: seq<Target>, places: map<Target, nat>,
                                   specs: seq<TargetSpec>, idx: nat, armature: string, dictionary: string)
      reads set t <- built
    {
      |built| == |specs| <= |configs| && TargetSpecs(configs[..|built|]) == Ok(specs) &&
      (forall k :: 0 <= k < |built| ==> built[k].State() == Initial(specs[k], idx, armature, dictionary)) &&
      (forall k :: 0 <= k < |built| ==> built[k] in places && places[built[k]] == k)
    }

    /** One turn of the loop of `Controller.__init__`, the targets built so far extended by its own. */
    static method NextTarget(configs: seq<Attribute>, idx: nat, armature: string, dictionary: string, scene: Scene,
                             built: seq<Target>, ghost places: map<Target, nat>, ghost specs: seq<TargetSpec>)
      returns (t: Result<Target>, ghost spec: TargetSpec)
      requires |built| < |configs| && Building(configs, built, places, specs, idx, armature, dictionary)
      modifies scene
      ensures t.Err? ==> TargetSpecs(configs) == Err(t.error)
      ensures t.Ok? ==>
        fresh(t.value) &&
        Building(configs, built + [t.value], places[t.value := |built|], specs + [spec], idx, armature, dictionary) &&
        CreationOpsAll(specs + [spec], idx) == CreationOpsAll(specs, idx) + CreationOps(spec, idx) &&
        scene.ops == old(scene.ops) + CreationOps(spec, idx)
    {
      var i := |built|;
      t := Build(configs[i], idx, armature, dictionary, scene);
      EntryOutcome(configs, i, idx, specs);
      if t.Ok? {
        spec := TargetSpecOf(configs[i]).value;
        var more := built + [t.value];
        forall k | 0 <= k < |more|
          ensures more[k].State() == Initial((specs + [spec])[k], idx, armature, dictionary)
          ensures more[k] in places[t.value := i] && places[t.value := i][more[k]] == k
        {
          if k < i {
            assert more[k] == built[k] != t.value;
          }
        }
      } else {
        spec :| true;
      }
    }

    /** One turn of the loop of `Controller.__init__`: the entry read, then its target created. */
    static method Build(config: Attribute, idx: nat, armature: string, dictionary: string, scene: Scene) returns (r: Result<Target>)
      modifies scene
      ensures var spec := TargetSpecOf(config);
        (spec.Err? ==> r == Err(spec.error) && scene.ops == old(scene.ops)) &&
        (spec.Ok? ==> r.Ok? && fresh(r.value) && r.value.State() == Initial(spec.value, idx, armature, dictionary) &&
                      scene.ops == old(scene.ops) + CreationOps(spec.value, idx))
    {
      var spec := TargetSpecOf(config);
      if spec.Err? {
        return Err(spec.error);
      }
      var t := new Target(spec.value, idx, armature, dictionary, scene);
      r := Ok(t);
    }

    /** The copy loop of `setup_chain`: the forward pose of every source bone, keyed on the inflected armature. */
    static method CopyPose(bones: seq<string>, dupName: string, dupBones: seq<string>, start: int, end: int, scene: Scene)
      returns (r: Result<()>)
      modifies scene
      ensures var c := CopyStage(bones, dupName, dupBones, start, Span(start, end));
        (c.Ok? ==> r.Ok? && scene.ops == old(scene.ops) + c.value) && (c.Err? ==> r == Err(c.error))
    {
      var frame := start;
      while frame <= end
        invariant start <= frame && (frame == start || frame <= end + 1)
        invariant frame > start ==> FirstMissing(bones, dupBones).None?
        invariant scene.ops == old(scene.ops) + CopyKeys(dupName, bones, start, frame - start)
      {
        r := CopyFrame(bones, dupName, dupBones, frame, scene);
        if r.Err? {
          return;
        }
        frame := frame + 1;
      }
      r := Ok(());
    }

    /** One turn of the copy loop: every source bone keyed at `frame`. */
    static method CopyFrame(bones: seq<string>, dupName: string, dupBones: seq<string>, frame: int, scene: Scene)
      returns (r: Result<()>)
      modifies scene
      ensures var miss := FirstMissing(bones, dupBones);
        (miss.Some? ==> r == Err(KeyError(bones[miss.value]))) &&
        (miss.None? ==> r.Ok? && scene.ops == old(scene.ops) + PoseKeys(dupName, bones, frame))
    {
      for j := 0 to |bones|
        invariant forall k :: 0 <= k < j ==> bones[k] in dupBones
        invariant scene.ops == old(scene.ops) + PoseKeys(dupName, bones[..j], frame)
      {
        if bones[j] !in dupBones {
          return Err(KeyError(bones[j]));
        }
        PoseKeysSnoc(dupName, bones, frame, j);
        scene.ops := scene.ops + [Keyframe(PoseBone(dupName, bones[j]), Location, frame, CopiedPose),
                                  Keyframe(PoseBone(dupName, bones[j]), RotationEuler, frame, CopiedPose)];
      }
      assert bones[..|bones|] == bones;
      r := Ok(());
    }

    /**
     * The bake loop of `setup_chain` over the targets (read through their
     * fixed kind, bone, root and controller, as in `states`): every controller
     * keyed at its bone, frame by frame.
     */
    static method BakeControllers(states: seq<TargetState>, dupBones: seq<string>, start: int, end: int, scene: Scene)
      returns (r: Result<()>)
      modifies scene
      ensures var b := BakeStage(states, dupBones, start, Span(start, end));
        (b.Ok? ==> r.Ok? && scene.ops == old(scene.ops) + b.value) && (b.Err? ==> r == Err(b.error))
    {
      var frame := start;
      while frame <= end
        invariant start <= frame && (frame == start || frame <= end + 1)
        invariant frame > start ==> BakeMiss(states, dupBones).None?
        invariant scene.ops == old(scene.ops) + BakeKeys(states, start, frame - start)
      {
        r := BakeFrame(states, dupBones, frame, scene);
        if r.Err? {
          return;
        }
        frame := frame + 1;
      }
      r := Ok(());
    }

    /** One turn of the bake loop: every target's bone and root looked up, every controller keyed at `frame`. */
    static method BakeFrame(states: seq<TargetState>, dupBones: seq<string>, frame: int, scene: Scene) returns (r: Result<()>)
      modifies scene
      ensures var miss := BakeMiss(states, dupBones);
        (miss.Some? ==> r == Err(KeyError(miss.value))) &&
        (miss.None? ==> r.Ok? && scene.ops == old(scene.ops) + ControllerKeys(states, frame))
    {
      for j := 0 to |states|
        invariant BakeMiss(states[..j], dupBones).None?
        invariant scene.ops == old(scene.ops) + ControllerKeys(states[..j], frame)
      {
        var t := states[j];
        assert states[..j + 1][..j] == states[..j];
        if t.bone !in dupBones || t.root !in dupBones {
          BakeMissAt(states, dupBones, j);
          return Err(KeyError(if t.bone !in dupBones then t.bone else t.root));
        }
        BakeMissSnoc(states, dupBones, j);
        if IsTrajectory(t.kind) {
          var c := Ctrl(t.ctrl);
          scene.ops := scene.ops +
            [Keyframe(c, Location, frame, BakedLocation(if t.kind == TrajectoryTarget then BoneHead else BoneTail)),
             Keyframe(c, RotationQuaternion, frame, BakedRotation(t.kind == HeadRotTarget))];
        }
      }
      assert states[..|states|] == states;
      r := Ok(());
    }

    /** The last loop of `setup_chain`: constraints, then (unless inflection is off) the deltas, target by target. */
    method SetupTargets(line: MmsLine, without: bool, scene: Scene, ghost s0: seq<TargetState>) returns (r: Result<()>)
      requires Valid() && Holds(s0)
      modifies targets, scene
      ensures var run := Each(s0, SettingUp(line, without));
        (run.Ok? ==> r.Ok? && Holds(run.value.0) && scene.ops == old(scene.ops) + run.value.1) &&
        (run.Err? ==> r == Err(run.error))
    {
      ghost var done: seq<TargetState> := [];
      ghost var ops: seq<Op> := [];
      for i := 0 to |targets|
        invariant Each(s0[..i], SettingUp(line, without)) == Ok((done, ops))
        invariant |done| == i
        invariant forall k :: 0 <= k < i ==> targets[k].State() == done[k]
        invariant forall k :: i <= k < |targets| ==> targets[k].State() == s0[k]
        invariant scene.ops == old(scene.ops) + ops
      {
        var t := targets[i];
        assert forall k :: 0 <= k < |targets| && k != i ==> targets[k] != t;
        ghost var step := SetupStep(t.State(), line, without);
        assert SettingUp(line, without)(s0[i]) == step;
        var e := SetupOne(t, line, without, scene);
        if e.Err? {
          EachStops(s0, SettingUp(line, without), i, done, ops);
          return Err(e.error);
        }
        EachNext(s0, SettingUp(line, without), i, done, ops);
        AppendTwice(old(scene.ops), ops, step.value.1);
        done := done + [step.value.0];
        ops := ops + step.value.1;
      }
      assert s0[..|targets|] == s0;
      r := Ok(());
    }

    /** One turn of that loop on target `t`. */
    static method SetupOne(t: Target, line: MmsLine, without: bool, scene: Scene) returns (r: Result<()>)
      modifies t, scene
      ensures var step := SetupStep(old(t.State()), line, without);
        (step.Ok? ==> r.Ok? && t.State() == step.value.0 && scene.ops == old(scene.ops) + step.value.1) &&
        (step.Err? ==> r == Err(step.error))
    {
      r := t.AddConstraints(scene);
      if r.Ok? && !without {
        r := t.InitFromMms(line);
      }
    }

    /**
     * `setup_chain(source, target, output_name, row, without_inflection)`:
     * returns the span it worked on, which the inflected action then covers.
     */
    method SetupChain(src: ArmatureObj, dup: ArmatureObj, line: MmsLine, without: bool, scene: Scene)
      returns (r: Result<(int, int)>)
      requires Valid()
      modifies targets, scene
      ensures var run := SetupSpec(old(States()), old(if src.action == null then None else Some(src.action.fcurves)),
                                   old(src.bones), old(dup.name), old(dup.bones), line, without);
        (run.Ok? ==> r == Ok((run.value.start, run.value.end)) && States() == run.value.states &&
                     scene.ops == old(scene.ops) + run.value.ops) &&
        (run.Err? ==> r == Err(run.error))
    {
      if src.action == null {
        return Err(AttributeError("frame_range"));
      }
      var a, srcBones, dupName, dupBones := src.action.fcurves, src.bones, dup.name, dup.bones;
      var range := FrameRange(a);
      var start := Trunc(range.0);
      var end := Trunc(range.1);
      var s0 := States();
      ghost var ops0 := scene.ops;
      var copied := CopyPose(srcBones, dupName, dupBones, start, end, scene);
      ghost var ops1 := scene.ops;
      var baked, prepared := copied, copied;
      if copied.Ok? {
        baked := BakeControllers(s0, dupBones, start, end, scene);
      }
      ghost var ops2 := scene.ops;
      if copied.Ok? && baked.Ok? {
        prepared := SetupTargets(line, without, scene, s0);
      }
      SetupOutcome(s0, a, srcBones, dupName, dupBones, line, without, copied, baked, prepared, ops0, ops1, ops2, scene.ops);
      if copied.Err? {
        r := Err(copied.error);
      } else if baked.Err? {
        r := Err(baked.error);
      } else if prepared.Err? {
        r := Err(prepared.error);
      } else {
        r := Ok((start, end));
      }
    }

    /**
     * `execute(armature, row)`: every target inflected at every frame of the
     * span, frame by frame and target by target, then the whole span baked.
     * `start` and `stop` are the inflected action's frame range, truncated,
     * which the caller reads as `InflectedSpan`.
     */
    method Execute(start: int, stop: int, anchors: Anchors, scene: Scene) returns (r: Result<()>)
      requires Valid()
      modifies targets, scene
      ensures var run := InflectFrames(old(States()), start, Span(start, stop), anchors);
        (run.Ok? ==> r.Ok? && States() == run.value.0 && scene.ops == old(scene.ops) + run.value.1 + [Bake(start, stop)]) &&
        (run.Err? ==> r == Err(run.error))
    {
      r := InflectSpan(start, stop, anchors, scene, States());
      if r.Ok? {
        scene.ops := scene.ops + [Bake(start, stop)];
      }
    }

    /** The frame loop of `execute`. */
    method InflectSpan(start: int, stop: int, anchors: Anchors, scene: Scene, ghost s0: seq<TargetState>)
      returns (r: Result<()>)
      requires Valid() && Holds(s0)
      modifies targets, scene
      ensures var run := InflectFrames(s0, start, Span(start, stop), anchors);
        (run.Ok? ==> r.Ok? && Holds(run.value.0) && scene.ops == old(scene.ops) + run.value.1) &&
        (run.Err? ==> r == Err(run.error))
    {
      ghost var done := s0;
      ghost var ops: seq<Op> := [];
      var count := Span(start, stop);
      for n := 0 to count
        invariant InflectFrames(s0, start, n, anchors) == Ok((done, ops))
        invariant Holds(done)
        invariant scene.ops == old(scene.ops) + ops
      {
        ghost var added;
        r, done, added := NextFrame(s0, start, n, count, anchors, scene, done, ops);
        if r.Err? {
          return;
        }
        AppendTwice(old(scene.ops), ops, added);
        ops := ops + added;
      }
      r := Ok(());
    }

    /** One turn of the frame loop of `execute`, the frame loop's run extended by it. */
    method NextFrame(ghost s0: seq<TargetState>, start: int, n: nat, ghost count: nat, anchors: Anchors, scene: Scene,
                       ghost done: seq<TargetState>, ghost ops: seq<Op>)
      returns (r: Result<()>, ghost next: seq<TargetState>, ghost added: seq<Op>)
      requires Valid() && Holds(done) && n < count && InflectFrames(s0, start, n, anchors) == Ok((done, ops))
      modifies targets, scene
      ensures r.Err? ==> InflectFrames(s0, start, count, anchors) == Err(r.error)
      ensures r.Ok? ==> InflectFrames(s0, start, n + 1, anchors) == Ok((next, ops + added)) && Holds(next) &&
                        scene.ops == old(scene.ops) + added
    {
      ghost var step := Each(done, Inflecting(start + n, anchors));
      r := InflectFrame(start + n, anchors, scene, done);
      FrameOutcome(s0, start, n, count, anchors, done, ops, r);
      if r.Err? {
        return r, done, [];
      }
      next := step.value.0;
      added := step.value.1;
    }

    /** One turn of the frame loop of `execute`: every target inflected at `frame`, in order. */
    method InflectFrame(frame: int, anchors: Anchors, scene: Scene, ghost s0: seq<TargetState>) returns (r: Result<()>)
      requires Valid() && Holds(s0)
      modifies targets, scene
      ensures var step := Each(s0, Inflecting(frame, anchors));
        (step.Ok? ==> r.Ok? && Holds(step.value.0) && scene.ops == old(scene.ops) + step.value.1) &&
        (step.Err? ==> r == Err(step.error))
    {
      ghost var done: seq<TargetState> := [];
      ghost var ops: seq<Op> := [];
      for i := 0 to |targets|
        invariant Each(s0[..i], Inflecting(frame, anchors)) == Ok((done, ops))
        invariant |done| == i
        invariant forall k :: 0 <= k < i ==> targets[k].State() == done[k]
        invariant forall k :: i <= k < |targets| ==> targets[k].State() == s0[k]
        invariant scene.ops == old(scene.ops) + ops
      {
        var t := targets[i];
        assert forall k :: 0 <= k < |targets| && k != i ==> targets[k] != t;
        ghost var step := InflectStep(t.State(), frame, anchors);
        assert Inflecting(frame, anchors)(s0[i]) == step;
        var e := t.Inflect(frame, anchors, scene);
        if e.Err? {
          EachStops(s0, Inflecting(frame, anchors), i, done, ops);
          return Err(e.error);
        }
        EachNext(s0, Inflecting(frame, anchors), i, done, ops);
        AppendTwice(old(scene.ops), ops, step.value.1);
        done := done + [step.value.0];
        ops := ops + step.value.1;
      }
      assert s0[..|targets|] == s0;
      r := Ok(());
    }
  }
}
