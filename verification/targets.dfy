/**
 * The inflection targets of one gloss: the configuration wrapper they are
 * built from, the deltas each kind of target takes from its timing-table row,
 * and the keys each kind writes per frame. Host effects (controller objects,
 * keyframes, constraints, bakes) are recorded in order on a `Scene`; poses,
 * matrices and quaternions stay symbolic.
 */
module Targets {
  import opened Wrappers
  import opened Text
  import opened Host
  import opened MmsParser

  // ---------------------------------------------------------------- the configuration wrapper

  /** A value of the controller configuration file. */
  datatype Json =
    | JNull
    | JBool(b: bool)
    | JNum(n: real)
    | JStr(s: string)
    | JList(items: seq<Json>)
    | JObject(fields: seq<(string, Json)>)

  /**
   * What `IKTargetConfig(arg)` gives: a configuration object for a mapping, a
   * list of wrapped items for a list, and any other value as it is.
   */
  datatype Config =
    | ConfigObject(data: map<string, Json>)
    | ConfigList(items: seq<Config>)
    | Plain(value: Json)

  /** `keyword.kwlist`: the words Python reserves. */
  const Keywords: set<string> := {
    "False", "None", "True", "and", "as", "assert", "async", "await", "break", "class", "continue",
    "def", "del", "elif", "else", "except", "finally", "for", "from", "global", "if", "import", "in",
    "is", "lambda", "nonlocal", "not", "or", "pass", "raise", "return", "try", "while", "with", "yield"}

  /** `keyword.iskeyword(w)` */
  predicate IsKeyword(w: string) {
    w in Keywords
  }

  /** The key a field is stored under: a keyword gains a trailing `_`. */
  function Escape(key: string): string {
    if IsKeyword(key) then key + "_" else key
  }

  /** No keyword ends with an underscore. */
  lemma KeywordsEndInLetters()
    ensures forall w :: IsKeyword(w) ==> |w| > 0 && w[|w| - 1] != '_'
  {
  }

  /** The stored dictionary: each field under its escaped key, a later field overwriting an earlier one. */
  function EscapedData(fields: seq<(string, Json)>): (r: map<string, Json>)
    ensures forall i :: 0 <= i < |fields| ==> Escape(fields[i].0) in r
    ensures forall k :: k in r ==> exists i :: 0 <= i < |fields| && Escape(fields[i].0) == k
  {
    if |fields| == 0 then map[]
    else
      var init := fields[..|fields| - 1];
      var last := fields[|fields| - 1];
      var before := EscapedData(init);
      assert forall i :: 0 <= i < |init| ==> init[i] == fields[i];
      before[Escape(last.0) := last.1]
  }

  /** Storing one more field overwrites its escaped key. */
  lemma EscapedSnoc(fields: seq<(string, Json)>, i: nat)
    requires i < |fields|
    ensures EscapedData(fields[..i + 1]) == EscapedData(fields[..i])[Escape(fields[i].0) := fields[i].1]
  {
    assert fields[..i + 1][..i] == fields[..i];
  }

  /** A field whose escaped key no later field shares is stored with its own value. */
  lemma {:induction false} EscapedValue(fields: seq<(string, Json)>, i: nat)
    requires i < |fields|
    requires forall j :: i < j < |fields| ==> Escape(fields[j].0) != Escape(fields[i].0)
    ensures EscapedData(fields)[Escape(fields[i].0)] == fields[i].1
    decreases |fields|
  {
    if i < |fields| - 1 {
      var init := fields[..|fields| - 1];
      assert init[i] == fields[i];
      EscapedValue(init, i);
    }
  }

  /** A Python keyword is never a stored key: the wrapper only stores escaped keys. */
  lemma {:induction false} KeywordNeverStored(fields: seq<(string, Json)>, k: string)
    requires IsKeyword(k)
    ensures k !in EscapedData(fields)
  {
    KeywordsEndInLetters();
    forall i | 0 <= i < |fields|
      ensures Escape(fields[i].0) != k
    {
      var key := fields[i].0;
      if IsKeyword(key) {
        var e := key + "_";
        assert e[|e| - 1] == '_';
      }
    }
  }

  /** `IKTargetConfig.__init__`: the fields stored one by one under their escaped keys. */
  method EscapeKeys(fields: seq<(string, Json)>) returns (data: map<string, Json>)
    ensures data == EscapedData(fields)
  {
    data := map[];
    for i := 0 to |fields|
      invariant data == EscapedData(fields[..i])
    {
      var (key, value) := fields[i];
      if IsKeyword(key) {
        key := key + "_";
      }
      EscapedSnoc(fields, i);
      data := data[key := value];
    }
    assert fields[..|fields|] == fields;
  }

  /** `IKTargetConfig(arg)` */
  function Wrap(v: Json): (r: Config)
    ensures r.ConfigObject? <==> v.JObject?
    ensures r.ConfigList? <==> v.JList?
    ensures v.JList? ==> |r.items| == |v.items|
    ensures !v.JObject? && !v.JList? ==> r == Plain(v)
    decreases v
  {
    match v
    case JObject(fields) => ConfigObject(EscapedData(fields))
    case JList(items) => ConfigList(seq(|items|, i requires 0 <= i < |items| => Wrap(items[i])))
    case _ => Plain(v)
  }

  /** `IKTargetConfig(arg)`, run: mappings wrapped through `__init__`, lists item by item. */
  method WrapConfig(v: Json) returns (r: Config)
    ensures r == Wrap(v)
    decreases v
  {
    match v
    case JObject(fields) =>
      var data := EscapeKeys(fields);
      r := ConfigObject(data);
    case JList(items) =>
      var wrapped: seq<Config> := [];
      for i := 0 to |items|
        invariant |wrapped| == i
        invariant forall j :: 0 <= j < i ==> wrapped[j] == Wrap(items[j])
      {
        var w := WrapConfig(items[i]);
        wrapped := wrapped + [w];
      }
      r := ConfigList(wrapped);
    case _ =>
      r := Plain(v);
  }

  /** The public methods of a dictionary, which `hasattr` finds on the stored data. */
  predicate IsDictMethod(name: string) {
    match |name|
    case 3 => name == "get" || name == "pop"
    case 4 => name == "copy" || name == "keys"
    case 5 => name == "clear" || name == "items"
    case 6 => name == "update" || name == "values"
    case 7 => name == "popitem"
    case 8 => name == "fromkeys"
    case 10 => name == "setdefault"
    case _ => false
  }

  /** What an attribute read on the wrapper gives. */
  datatype Attribute =
    | Value(config: Config)
    | Data(data: map<string, Json>)
    | DictMethod(name: string)

  /**
   * `config.<name>`: the `dict` property, a method of the stored dictionary,
   * or the stored value wrapped again; an absent key is a `KeyError`. A value
   * that is not a configuration object has no such attributes.
   */
  function Attr(c: Config, name: string): (r: Result<Attribute>)
    ensures r.Ok? && r.value.Value? ==> c.ConfigObject? && name in c.data && r.value.config == Wrap(c.data[name])
    ensures c.ConfigObject? && name != "dict" && !IsDictMethod(name) ==> (r.Err? <==> name !in c.data)
  {
    match c
    case ConfigObject(data) =>
      if name == "dict" then Ok(Data(data))
      else if IsDictMethod(name) then Ok(DictMethod(name))
      else if name in data then Ok(Value(Wrap(data[name])))
      else Err(KeyError(name))
    case _ => Err(AttributeError(name))
  }

  /** An attribute of an attribute: only a configuration object has entries to read. */
  function AttrOf(a: Attribute, name: string): Result<Attribute> {
    match a
    case Value(c) => Attr(c, name)
    case _ => Err(AttributeError(name))
  }

  /**
   * Reading an attribute of a wrapped mapping gives the wrapped value of the
   * field stored under that name: for a field named by a keyword, the name
   * with the underscore added.
   */
  lemma AttrOfWrapped(fields: seq<(string, Json)>, i: nat)
    requires i < |fields|
    requires forall j :: i < j < |fields| ==> Escape(fields[j].0) != Escape(fields[i].0)
    requires Escape(fields[i].0) != "dict" && !IsDictMethod(Escape(fields[i].0))
    ensures Attr(Wrap(JObject(fields)), Escape(fields[i].0)) == Ok(Value(Wrap(fields[i].1)))
  {
    EscapedValue(fields, i);
  }

  /** Reading a keyword attribute of a wrapped mapping finds nothing: it is stored with the underscore. */
  lemma AttrKeywordAbsent(fields: seq<(string, Json)>, k: string)
    requires IsKeyword(k) && k != "dict" && !IsDictMethod(k)
    ensures Attr(Wrap(JObject(fields)), k) == Err(KeyError(k))
  {
    KeywordNeverStored(fields, k);
  }

  // ---------------------------------------------------------------- target kinds

  /** The concrete target classes. */
  datatype Kind =
    | GenericTarget
    | LocalRotationTarget
    | TrajectoryTarget
    | RelativeLocRotTarget
    | HeadRotTarget

  /** `isinstance(target, TrajectoryTarget)`: the trajectory target and its two subclasses. */
  predicate IsTrajectory(k: Kind) {
    k == TrajectoryTarget || k == RelativeLocRotTarget || k == HeadRotTarget
  }

  /** The class name of a kind. */
  function ClassName(k: Kind): string {
    match k
    case GenericTarget => "GenericTarget"
    case LocalRotationTarget => "LocalRotationTarget"
    case TrajectoryTarget => "TrajectoryTarget"
    case RelativeLocRotTarget => "RelativeLocRotTarget"
    case HeadRotTarget => "HeadRotTarget"
  }

  /**
   * The names the `targets` module holds besides its five target classes: its
   * imports, its two other classes, its module attributes and those every
   * module object answers to on Python 3.11 and later (which added
   * `__getstate__`). None of them can be called with a target's arguments.
   */
  const OtherNames: set<string> := {
    "ABC", "abstractmethod", "abc", "iskeyword", "bpy", "mathutils", "bpy_utils", "MMSLine",
    "Target", "IKTargetConfig",
    "__name__", "__doc__", "__package__", "__loader__", "__spec__", "__file__", "__cached__", "__builtins__",
    "__annotations__", "__dict__", "__class__", "__delattr__", "__dir__", "__eq__", "__format__", "__ge__",
    "__getattribute__", "__gt__", "__hash__", "__init__", "__init_subclass__", "__le__", "__lt__", "__ne__",
    "__new__", "__reduce__", "__reduce_ex__", "__repr__", "__setattr__", "__sizeof__", "__str__",
    "__subclasshook__", "__getstate__"}

  /** Calling a name of `OtherNames` as a target class. */
  const NotATargetClass := TypeError("not a target class")

  /**
   * `getattr(targets, name)`: a target class (`Some`), another name the
   * module holds (`None`), or an `AttributeError` for a name it lacks.
   */
  function ClassNamed(name: string): (r: Result<Option<Kind>>)
    ensures r.Ok? && r.value.Some? ==> ClassName(r.value.value) == name
    ensures r.Ok? && r.value.None? ==> name in OtherNames
    ensures r.Err? ==> r == Err(AttributeError(name)) && name !in OtherNames && forall k :: ClassName(k) != name
  {
    if name == "GenericTarget" then Ok(Some(GenericTarget))
    else if name == "LocalRotationTarget" then Ok(Some(LocalRotationTarget))
    else if name == "TrajectoryTarget" then Ok(Some(TrajectoryTarget))
    else if name == "RelativeLocRotTarget" then Ok(Some(RelativeLocRotTarget))
    else if name == "HeadRotTarget" then Ok(Some(HeadRotTarget))
    else if name in OtherNames then Ok(None)
    else Err(AttributeError(name))
  }

  /** A name is missing from the module exactly when it is neither a target class nor one of its other names. */
  lemma ClassNamedMissing(name: string)
    ensures ClassNamed(name).Err? <==> name !in OtherNames && forall k :: ClassName(k) != name
  {
  }

  /** Every other name of the module is found, and is not a target class. */
  lemma ClassNamedOthers(name: string)
    requires name in OtherNames
    ensures ClassNamed(name) == Ok(None)
  {
    assert name != "GenericTarget" && name != "LocalRotationTarget" && name != "TrajectoryTarget";
    assert name != "RelativeLocRotTarget" && name != "HeadRotTarget";
  }

  /** Every target class is found by its own name. */
  lemma ClassNamedRoundTrip(k: Kind)
    ensures ClassNamed(ClassName(k)) == Ok(Some(k))
  {
    match k
    case GenericTarget =>
    case LocalRotationTarget =>
      assert ClassName(k)[0] != "GenericTarget"[0];
    case TrajectoryTarget =>
      assert ClassName(k)[0] != "GenericTarget"[0] && ClassName(k)[0] != "LocalRotationTarget"[0];
    case RelativeLocRotTarget =>
      assert |ClassName(k)| == 20;
    case HeadRotTarget =>
      assert ClassName(k)[0] == 'H';
  }

  /** What `Controller.__init__` reads from one configuration entry. */
  datatype TargetSpec = TargetSpec(kind: Kind, dominance: string, bone: string, root: string, itype: string,
                                   constraints: Attribute)

  // ---------------------------------------------------------------- the host trace

  /** What a keyframe is inserted on: a pose bone of an armature, or a controller object. */
  datatype Owner = PoseBone(armature: string, bone: string) | Ctrl(name: string)

  /** Where a controller is placed when the forward pose is baked into it. */
  datatype AnchorPoint = BoneHead | BoneTail

  /** The value a keyframe records, as the term that produced it. */
  datatype Value =
      /** the source bone's pose, copied */
    | CopiedPose
      /** a controller placed on the target bone, relative to its root */
    | BakedLocation(point: AnchorPoint)
      /** a controller turned like the target bone; relative to the root bone or the bone's own */
    | BakedRotation(rootRelative: bool)
      /** a bone turned by a delta relative to its root */
    | Rotated(delta: Quat)
      /** a bone keyed as it is */
    | Unrotated
      /** `delta_t @ T(anchor) @ delta_r @ T(-anchor) @ current` */
    | TrajectoryLocation(deltaT: Mat, anchor: Vec3, deltaR: Mat, current: Vec3)
      /** `delta_t @ location` */
    | ShiftedLocation(deltaT: Mat)
      /** `rotation_quaternion @ delta_o` */
    | TurnedRotation(deltaO: Quat)

  /** One host operation. */
  datatype Op =
    | AddController(name: string, parentBone: string)
    | Keyframe(owner: Owner, prop: Prop, frame: int, value: Value)
    | AddIk(bone: string, ctrl: string, useTail: Attribute, chainCount: Attribute, useRotation: Attribute)
    | Bake(start: int, stop: int)

  /** The host operations performed so far, in order. */
  class Scene {
    var ops: seq<Op>

    constructor()
      ensures ops == []
    {
      ops := [];
    }
  }

  /**
   * The anchor of a bone relative to the head of its root at a frame, read
   * from the posed armature the scene holds under the given name (the
   * dictionary armature a target was built with): `(armature, bone, root, frame)`.
   */
  type Anchors = (string, string, string, int) -> Vec3

  /** Applying `@` to `None`. */
  const NoneOperand := TypeError("unsupported operand type(s) for @")

  // ---------------------------------------------------------------- one target's state

  /** Everything a target reads or updates. */
  datatype TargetState = TargetState(
    kind: Kind,
    armature: string,
    dictionary: string,
    dominance: string,
    bone: string,
    root: string,
    itype: string,
    constraints: Attribute,
    ctrl: string,
    head: Option<Vec3>,
    deltaR: Mat,
    deltaT: Option<Mat>,
    deltaO: Option<Quat>)

  /** `IK_CTRL_FOR_<bone>_<idx>` */
  function ControllerName(bone: string, idx: nat): string {
    "IK_CTRL_FOR_" + bone + "_" + NatToString(idx)
  }

  /**
   * A new target: no anchor yet and identity deltas. Its controller name is
   * only used, and the controller only created, for the trajectory kinds.
   */
  function Initial(spec: TargetSpec, idx: nat, armature: string, dictionary: string): (r: TargetState)
    ensures r.kind == spec.kind && r.bone == spec.bone && r.root == spec.root && r.dominance == spec.dominance
    ensures r.itype == spec.itype && r.constraints == spec.constraints
    ensures r.armature == armature && r.dictionary == dictionary
    ensures r.head.None? && r.deltaR == Identity && r.deltaT == Some(Identity) && r.deltaO == Some(IdentityQuat)
    ensures !MissingDelta(r)
  {
    TargetState(spec.kind, armature, dictionary, spec.dominance, spec.bone, spec.root, spec.itype, spec.constraints,
                ControllerName(spec.bone, idx), None, Identity, Some(Identity), Some(IdentityQuat))
  }

  /** The targets of a new controller: one per specification, in order, with identity deltas. */
  function Initials(specs: seq<TargetSpec>, idx: nat, armature: string, dictionary: string): (r: seq<TargetState>)
    ensures |r| == |specs| && forall k :: 0 <= k < |specs| ==> r[k] == Initial(specs[k], idx, armature, dictionary)
  {
    seq(|specs|, k requires 0 <= k < |specs| => Initial(specs[k], idx, armature, dictionary))
  }

  /** One more specification adds its initial state at the end. */
  lemma InitialsSnoc(specs: seq<TargetSpec>, spec: TargetSpec, idx: nat, armature: string, dictionary: string)
    ensures Initials(specs + [spec], idx, armature, dictionary) ==
      Initials(specs, idx, armature, dictionary) + [Initial(spec, idx, armature, dictionary)]
  {
    var l := Initials(specs + [spec], idx, armature, dictionary);
    var r := Initials(specs, idx, armature, dictionary) + [Initial(spec, idx, armature, dictionary)];
    assert |l| == |r|;
    forall k | 0 <= k < |l|
      ensures l[k] == r[k]
    {
      if k < |specs| {
        assert (specs + [spec])[k] == specs[k];
      }
    }
  }

  /** What creating a target does to the scene: trajectory targets add their controller, parented to the root bone. */
  function CreationOps(spec: TargetSpec, idx: nat): (r: seq<Op>)
    ensures IsTrajectory(spec.kind) ==> r == [AddController(ControllerName(spec.bone, idx), spec.root)]
    ensures !IsTrajectory(spec.kind) ==> r == []
  {
    if IsTrajectory(spec.kind) then [AddController(ControllerName(spec.bone, idx), spec.root)] else []
  }

  /**
   * `init_from_mms(row)`: the deltas each kind takes from the row. A
   * trajectory multiplies rotation and scale, which fails when either is
   * missing; a relative target reads the torso shift and rotation, or the
   * shoulder shift, or nothing.
   */
  function InitDeltas(s: TargetState, line: MmsLine): (r: Result<TargetState>)
    ensures r.Ok? ==> r.value == s.(deltaR := r.value.deltaR, deltaT := r.value.deltaT, deltaO := r.value.deltaO)
  {
    match s.kind
    case GenericTarget => Ok(s)
    case LocalRotationTarget =>
      var o :- HandOrientation(line, s.dominance);
      Ok(s.(deltaO := o))
    case TrajectoryTarget =>
      var t :- HandTranslation(line, s.dominance);
      var rot :- TrajRotation(line, s.dominance);
      var sc :- HandScale(line, s.dominance);
      if rot.None? || sc.None? then Err(NoneOperand)
      else Ok(s.(deltaR := MatMul(rot.value, sc.value), deltaT := t))
    case RelativeLocRotTarget =>
      if s.itype == "torso" then
        var t :- TorsoShift(line);
        var o :- TorsoRot(line);
        Ok(s.(deltaT := t, deltaO := o))
      else if s.itype == "shoulder" then
        var t :- ShoulderShift(line, s.dominance);
        Ok(s.(deltaT := t))
      else Ok(s)
    case HeadRotTarget =>
      var o :- HeadRot(line);
      Ok(s.(deltaO := o))
  }

  /**
   * Which deltas each kind can change: the hand orientation, the trajectory's
   * rotation-scale and translation, the torso's shift and rotation, the
   * shoulder's shift, the head's rotation; nothing for a generic target.
   */
  lemma InitChanges(s: TargetState, line: MmsLine)
    requires InitDeltas(s, line).Ok?
    ensures var n := InitDeltas(s, line).value;
      (s.kind == GenericTarget ==> n == s) &&
      (s.kind == LocalRotationTarget ==> n == s.(deltaO := HandOrientation(line, s.dominance).value)) &&
      (s.kind == HeadRotTarget ==> n == s.(deltaO := HeadRot(line).value)) &&
      (s.kind == TrajectoryTarget ==>
         n.deltaO == s.deltaO && n.deltaT == HandTranslation(line, s.dominance).value &&
         n.deltaR == MatMul(TrajRotation(line, s.dominance).value.value, HandScale(line, s.dominance).value.value)) &&
      (s.kind == RelativeLocRotTarget && s.itype == "torso" ==>
         n == s.(deltaT := TorsoShift(line).value, deltaO := TorsoRot(line).value)) &&
      (s.kind == RelativeLocRotTarget && s.itype == "shoulder" ==>
         n == s.(deltaT := ShoulderShift(line, s.dominance).value)) &&
      (s.kind == RelativeLocRotTarget && s.itype != "torso" && s.itype != "shoulder" ==> n == s)
  {
  }

  /** A trajectory target whose row parses fails exactly when the rotation or the scale cells are not all filled. */
  lemma TrajectoryNeedsRotationAndScale(s: TargetState, line: MmsLine)
    requires s.kind == TrajectoryTarget
    requires HandTranslation(line, s.dominance).Ok? && TrajRotation(line, s.dominance).Ok? && HandScale(line, s.dominance).Ok?
    ensures InitDeltas(s, line).Err? <==>
      TrajRotation(line, s.dominance).value.None? || HandScale(line, s.dominance).value.None?
    ensures InitDeltas(s, line).Err? ==> InitDeltas(s, line).error == NoneOperand
  {
  }

  /**
   * `inflect(frame)`: the keys one target writes at `frame`. A local rotation
   * always keys the bone's rotation, turned only when it has a delta; a
   * trajectory fixes its anchor on the first call and keys its controller's
   * location; a relative target keys location then rotation; a head target
   * keys its rotation. A missing delta fails the `@`.
   */
  function InflectStep(s: TargetState, frame: int, anchors: Anchors): (r: Result<(TargetState, seq<Op>)>)
    ensures r.Ok? ==> |r.value.1| <= 2 && (r.value.1 == [] <==> s.kind == GenericTarget)
  {
    match s.kind
    case GenericTarget => Ok((s, []))
    case LocalRotationTarget =>
      var v := if s.deltaO.Some? then Rotated(s.deltaO.value) else Unrotated;
      Ok((s, [Keyframe(PoseBone(s.armature, s.bone), RotationEuler, frame, v)]))
    case TrajectoryTarget =>
      var current := anchors(s.dictionary, s.bone, s.root, frame);
      var anchor := if s.head.None? then current else s.head.value;
      if s.deltaT.None? then Err(NoneOperand)
      else
        var loc := TrajectoryLocation(s.deltaT.value, anchor, s.deltaR, current);
        Ok((s.(head := Some(anchor)), [Keyframe(Ctrl(s.ctrl), Location, frame, loc)]))
    case RelativeLocRotTarget =>
      if s.deltaT.None? || s.deltaO.None? then Err(NoneOperand)
      else
        Ok((s, [Keyframe(Ctrl(s.ctrl), Location, frame, ShiftedLocation(s.deltaT.value)),
                Keyframe(Ctrl(s.ctrl), RotationQuaternion, frame, TurnedRotation(s.deltaO.value))]))
    case HeadRotTarget =>
      if s.deltaO.None? then Err(NoneOperand)
      else Ok((s, [Keyframe(Ctrl(s.ctrl), RotationQuaternion, frame, TurnedRotation(s.deltaO.value))]))
  }

  /** A delta the kind multiplies by is missing. */
  predicate MissingDelta(s: TargetState) {
    (s.kind == TrajectoryTarget && s.deltaT.None?) ||
    (s.kind == RelativeLocRotTarget && (s.deltaT.None? || s.deltaO.None?)) ||
    (s.kind == HeadRotTarget && s.deltaO.None?)
  }

  /** An inflection fails exactly when the delta its kind multiplies by is missing, and then with a `TypeError`. */
  lemma InflectFails(s: TargetState, frame: int, anchors: Anchors)
    ensures InflectStep(s, frame, anchors).Err? <==> MissingDelta(s)
    ensures InflectStep(s, frame, anchors).Err? ==> InflectStep(s, frame, anchors).error == NoneOperand
  {
  }

  /**
   * The keys of one inflection: a local rotation keys its bone's Euler
   * rotation and a trajectory its controller's location, one key each; a
   * relative target keys its controller twice; nothing but the anchor of a
   * trajectory target changes, and that only while it is unset.
   */
  lemma InflectKeys(s: TargetState, frame: int, anchors: Anchors)
    requires InflectStep(s, frame, anchors).Ok?
    ensures var (n, ops) := InflectStep(s, frame, anchors).value;
      (s.kind == GenericTarget ==> ops == []) &&
      (s.kind == LocalRotationTarget ==>
         ops == [Keyframe(PoseBone(s.armature, s.bone), RotationEuler, frame, if s.deltaO.Some? then Rotated(s.deltaO.value) else Unrotated)]) &&
      (s.kind == TrajectoryTarget ==> |ops| == 1 && ops[0].owner == Ctrl(s.ctrl) && ops[0].prop == Location) &&
      (s.kind == RelativeLocRotTarget ==> |ops| == 2 && ops[0].prop == Location && ops[1].prop == RotationQuaternion) &&
      (s.kind == HeadRotTarget ==> |ops| == 1 && ops[0].prop == RotationQuaternion) &&
      (forall op <- ops :: op.Keyframe? && op.frame == frame) &&
      AnchorOnly(s, n, anchors(s.dictionary, s.bone, s.root, frame))
  {
  }

  /**
   * `n` is `s` except for the anchor, which only a trajectory target without
   * one sets, to `anchor`.
   */
  predicate AnchorOnly(s: TargetState, n: TargetState, anchor: Vec3) {
    n == s.(head := n.head) &&
    (s.head.Some? || s.kind != TrajectoryTarget ==> n.head == s.head) &&
    (s.head.None? && s.kind == TrajectoryTarget ==> n.head == Some(anchor))
  }

  /** Once set, an anchor stays: two such steps keep the first step's anchor. */
  lemma AnchorOnlyTwice(s: TargetState, m: TargetState, n: TargetState, a: Vec3, b: Vec3)
    requires AnchorOnly(s, m, a) && AnchorOnly(m, n, b)
    ensures AnchorOnly(s, n, a)
  {
  }

  /**
   * A trajectory target keys its controller from the anchor it fixed on its
   * first call: later calls reuse it, whatever the current anchor is.
   */
  lemma TrajectoryAnchorCached(s: TargetState, frame: int, anchors: Anchors)
    requires s.kind == TrajectoryTarget && InflectStep(s, frame, anchors).Ok?
    ensures var (n, ops) := InflectStep(s, frame, anchors).value;
      var current := anchors(s.dictionary, s.bone, s.root, frame);
      n.head == (if s.head.Some? then s.head else Some(current)) &&
      ops == [Keyframe(Ctrl(s.ctrl), Location, frame, TrajectoryLocation(s.deltaT.value, n.head.value, s.deltaR, current))]
  {
  }

  /** The keys of the trajectory family name their target's own controller. */
  lemma InflectOwnsController(s: TargetState, frame: int, anchors: Anchors)
    requires InflectStep(s, frame, anchors).Ok? && IsTrajectory(s.kind)
    ensures forall op <- InflectStep(s, frame, anchors).value.1 :: op.owner == Ctrl(s.ctrl)
  {
  }

  /** `add_constraints()`: a trajectory target adds an IK constraint on its bone towards its controller. */
  function ConstraintStep(s: TargetState): (r: Result<seq<Op>>)
    ensures r.Ok? && IsTrajectory(s.kind) ==>
              |r.value| == 1 && r.value[0].AddIk? && r.value[0].bone == s.bone && r.value[0].ctrl == s.ctrl
    ensures !IsTrajectory(s.kind) ==> r == Ok([])
  {
    if !IsTrajectory(s.kind) then Ok([])
    else
      var useTail :- AttrOf(s.constraints, "use_tail");
      var chainCount :- AttrOf(s.constraints, "chain_count");
      var useRotation :- AttrOf(s.constraints, "use_rotation");
      Ok([AddIk(s.bone, s.ctrl, useTail, chainCount, useRotation)])
  }

  // ---------------------------------------------------------------- the target object

  /** One inflection target of a gloss. */
  class Target {
    const kind: Kind
    const armature: string
    const dictionary: string
    const dominance: string
    const bone: string
    const root: string
    const itype: string
    const constraints: Attribute
    const ctrl: string
    var head: Option<Vec3>
    var deltaR: Mat
    var deltaT: Option<Mat>
    var deltaO: Option<Quat>

    /** The target's fields as a value. */
    function State(): TargetState
      reads this
    {
      TargetState(kind, armature, dictionary, dominance, bone, root, itype, constraints, ctrl, head, deltaR, deltaT, deltaO)
    }

    /** `<Kind>(idx, armature=..., dictionary_name=..., ...)`: a trajectory target also creates its controller. */
    constructor(spec: TargetSpec, idx: nat, armature: string, dictionary: string, scene: Scene)
      modifies scene
      ensures State() == Initial(spec, idx, armature, dictionary)
      ensures scene.ops == old(scene.ops) + CreationOps(spec, idx)
    {
      kind := spec.kind;
      this.armature := armature;
      this.dictionary := dictionary;
      dominance := spec.dominance;
      bone := spec.bone;
      root := spec.root;
      itype := spec.itype;
      constraints := spec.constraints;
      head := None;
      deltaR := Identity;
      deltaT := Some(Identity);
      deltaO := Some(IdentityQuat);
      ctrl := ControllerName(spec.bone, idx);
      new;
      scene.ops := scene.ops + CreationOps(spec, idx);
    }

    /** `init_from_mms(row)` */
    method InitFromMms(line: MmsLine) returns (r: Result<()>)
      modifies this
      ensures var d := InitDeltas(old(State()), line);
        (d.Ok? ==> r.Ok? && State() == d.value) && (d.Err? ==> r == Err(d.error))
    {
      match kind
      case GenericTarget =>
        r := Ok(());
      case LocalRotationTarget =>
        var o := HandOrientation(line, dominance);
        if o.Err? { return Err(o.error); }
        deltaO := o.value;
        r := Ok(());
      case TrajectoryTarget =>
        var t := HandTranslation(line, dominance);
        if t.Err? { return Err(t.error); }
        var rot := TrajRotation(line, dominance);
        if rot.Err? { return Err(rot.error); }
        var sc := HandScale(line, dominance);
        if sc.Err? { return Err(sc.error); }
        if rot.value.None? || sc.value.None? {
          return Err(NoneOperand);
        }
        deltaR := MatMul(rot.value.value, sc.value.value);
        deltaT := t.value;
        r := Ok(());
      case RelativeLocRotTarget =>
        if itype == "torso" {
          var t := TorsoShift(line);
          if t.Err? { return Err(t.error); }
          deltaT := t.value;
          var o := TorsoRot(line);
          if o.Err? { return Err(o.error); }
          deltaO := o.value;
        } else if itype == "shoulder" {
          var t := ShoulderShift(line, dominance);
          if t.Err? { return Err(t.error); }
          deltaT := t.value;
        }
        r := Ok(());
      case HeadRotTarget =>
        var o := HeadRot(line);
        if o.Err? { return Err(o.error); }
        deltaO := o.value;
        r := Ok(());
    }

    /** `inflect(frame)` */
    method Inflect(frame: int, anchors: Anchors, scene: Scene) returns (r: Result<()>)
      modifies this, scene
      ensures var step := InflectStep(old(State()), frame, anchors);
        (step.Ok? ==> r.Ok? && State() == step.value.0 && scene.ops == old(scene.ops) + step.value.1) &&
        (step.Err? ==> r == Err(step.error))
    {
      match kind
      case GenericTarget =>
        r := Ok(());
      case LocalRotationTarget =>
        var v := if deltaO.Some? then Rotated(deltaO.value) else Unrotated;
        scene.ops := scene.ops + [Keyframe(PoseBone(armature, bone), RotationEuler, frame, v)];
        r := Ok(());
      case TrajectoryTarget =>
        if head.None? {
          head := Some(anchors(dictionary, bone, root, frame));
        }
        if deltaT.None? {
          return Err(NoneOperand);
        }
        var loc := TrajectoryLocation(deltaT.value, head.value, deltaR, anchors(dictionary, bone, root, frame));
        scene.ops := scene.ops + [Keyframe(Ctrl(ctrl), Location, frame, loc)];
        r := Ok(());
      case RelativeLocRotTarget =>
        if deltaT.None? {
          return Err(NoneOperand);
        }
        scene.ops := scene.ops + [Keyframe(Ctrl(ctrl), Location, frame, ShiftedLocation(deltaT.value))];
        if deltaO.None? {
          return Err(NoneOperand);
        }
        scene.ops := scene.ops + [Keyframe(Ctrl(ctrl), RotationQuaternion, frame, TurnedRotation(deltaO.value))];
        r := Ok(());
      case HeadRotTarget =>
        if deltaO.None? {
          return Err(NoneOperand);
        }
        scene.ops := scene.ops + [Keyframe(Ctrl(ctrl), RotationQuaternion, frame, TurnedRotation(deltaO.value))];
        r := Ok(());
    }

    /** `add_constraints()` */
    method AddConstraints(scene: Scene) returns (r: Result<()>)
      modifies scene
      ensures var c := ConstraintStep(State());
        (c.Ok? ==> r.Ok? && scene.ops == old(scene.ops) + c.value) && (c.Err? ==> r == Err(c.error))
    {
      if !IsTrajectory(kind) {
        return Ok(());
      }
      var useTail := AttrOf(constraints, "use_tail");
      if useTail.Err? { return Err(useTail.error); }
      var chainCount := AttrOf(constraints, "chain_count");
      if chainCount.Err? { return Err(chainCount.error); }
      var useRotation := AttrOf(constraints, "use_rotation");
      if useRotation.Err? { return Err(useRotation.error); }
      scene.ops := scene.ops + [AddIk(bone, ctrl, useTail.value, chainCount.value, useRotation.value)];
      r := Ok(());
    }
  }
}
