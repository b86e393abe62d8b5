/**
 * The animation host as the core sees it. An action is a list of channels
 * (f-curves); a channel is addressed by its data path and array index and holds
 * the keyframes inserted into it, in insertion order. Pose values, matrices and
 * quaternions are kept as symbolic terms: the core only moves them around.
 */
module Host {
  import opened Wrappers
  import opened Frames

  /** The animated properties of a pose bone (or of a controller object). */
  datatype Prop = Location | RotationEuler | RotationQuaternion

  /** `pose.bones["<bone>"].<prop>`, kept structured instead of formatted. */
  datatype DataPath = BonePath(bone: string, prop: Prop)

  /** One keyframe point: `co[0]` is the frame, `co[1]` the value. */
  datatype Key = Key(frame: real, value: real)

  /** An f-curve: data path, array index and the keys inserted into it. */
  datatype Channel = Channel(path: DataPath, index: int, keys: seq<Key>)

  /** An action is its list of f-curves. */
  type Action = seq<Channel>

  /** A curve evaluation: the value of a channel with these keys at a (fractional) frame. */
  type Evaluator = (seq<Key>, real) -> real

  predicate Addresses(c: Channel, path: DataPath, index: int) {
    c.path == path && c.index == index
  }

  /** `action.fcurves.find(path, index=index)`: the first channel with that address. */
  function Find(a: Action, path: DataPath, index: int): (r: Option<nat>)
    ensures r.Some? ==> r.value < |a| && Addresses(a[r.value], path, index)
    ensures r.Some? ==> forall j :: 0 <= j < r.value ==> !Addresses(a[j], path, index)
    ensures r.None? ==> forall j :: 0 <= j < |a| ==> !Addresses(a[j], path, index)
  {
    if |a| == 0 then None
    else if Addresses(a[0], path, index) then Some(0)
    else match Find(a[1..], path, index)
      case None => None
      case Some(j) => Some(j + 1)
  }

  /** `keyframe_points.insert(...)` on channel `pos`: the key is added after the ones already there. */
  function InsertKey(a: Action, pos: nat, k: Key): (r: Action)
    requires pos < |a|
    ensures SameChannels(a, r)
    ensures r[pos].keys == a[pos].keys + [k]
    ensures forall j :: 0 <= j < |a| && j != pos ==> r[j] == a[j]
  {
    a[pos := a[pos].(keys := a[pos].keys + [k])]
  }

  /** Two actions with the same channels (addresses), whatever their keys. */
  predicate SameChannels(a: Action, b: Action) {
    |a| == |b| && forall j :: 0 <= j < |a| ==> a[j].path == b[j].path && a[j].index == b[j].index
  }

  /** Lookups depend only on the addresses, so inserting keys never moves a channel. */
  lemma {:induction false} FindSameChannels(a: Action, b: Action, path: DataPath, index: int)
    requires SameChannels(a, b)
    ensures Find(a, path, index) == Find(b, path, index)
    decreases |a|
  {
    if |a| > 0 && !Addresses(a[0], path, index) {
      assert SameChannels(a[1..], b[1..]);
      FindSameChannels(a[1..], b[1..], path, index);
    }
  }

  /** All frames that carry a key, channel by channel. */
  function KeyFrames(a: Action): (r: seq<real>)
    ensures forall j, k :: 0 <= j < |a| && 0 <= k < |a[j].keys| ==> a[j].keys[k].frame in r
    ensures forall f <- r :: exists j, k :: 0 <= j < |a| && 0 <= k < |a[j].keys| && a[j].keys[k].frame == f
  {
    if |a| == 0 then []
    else
      var own := seq(|a[0].keys|, k requires 0 <= k < |a[0].keys| => a[0].keys[k].frame);
      var rest := KeyFrames(a[1..]);
      assert forall f <- rest :: exists j, k :: 0 <= j < |a| && 0 <= k < |a[j].keys| && a[j].keys[k].frame == f by {
        forall f <- rest ensures exists j, k :: 0 <= j < |a| && 0 <= k < |a[j].keys| && a[j].keys[k].frame == f {
          var j, k :| 0 <= j < |a[1..]| && 0 <= k < |a[1..][j].keys| && a[1..][j].keys[k].frame == f;
          assert a[j + 1] == a[1..][j];
        }
      }
      assert forall j, k :: 0 < j < |a| && 0 <= k < |a[j].keys| ==> a[j].keys[k].frame in rest by {
        forall j, k | 0 < j < |a| && 0 <= k < |a[j].keys| ensures a[j].keys[k].frame in rest {
          assert a[j] == a[1..][j - 1];
        }
      }
      assert forall k :: 0 <= k < |a[0].keys| ==> a[0].keys[k].frame == own[k];
      assert forall f <- own :: exists k :: 0 <= k < |a[0].keys| && a[0].keys[k].frame == f;
      own + rest
  }

  function Min(s: seq<real>): (m: real)
    requires |s| > 0
    ensures m in s && forall x <- s :: m <= x
  {
    if |s| == 1 then s[0]
    else
      var rest := Min(s[1..]);
      assert forall x <- s :: x == s[0] || x in s[1..];
      if s[0] <= rest then s[0] else rest
  }

  function Max(s: seq<real>): (m: real)
    requires |s| > 0
    ensures m in s && forall x <- s :: x <= m
  {
    if |s| == 1 then s[0]
    else
      var rest := Max(s[1..]);
      assert forall x <- s :: x == s[0] || x in s[1..];
      if s[0] >= rest then s[0] else rest
  }

  /**
   * `action.frame_range`: the first and last keyed frame; the host widens a range
   * shorter than one frame to one frame, and an action without keys reports (0, 1).
   */
  function FrameRange(a: Action): (r: (real, real))
    ensures r.0 < r.1
    ensures |KeyFrames(a)| > 0 ==> r.0 == Min(KeyFrames(a))
    ensures |KeyFrames(a)| > 0 && Min(KeyFrames(a)) < Max(KeyFrames(a)) ==> r.1 == Max(KeyFrames(a))
  {
    var fs := KeyFrames(a);
    if |fs| == 0 then (0.0, 1.0)
    else
      var lo := Min(fs);
      var hi := Max(fs);
      if lo < hi then (lo, hi) else (lo, lo + 1.0)
  }

  /** When every key lies in `[lo, hi]`, `lo < hi`, and both ends carry a key, the range is exactly `(lo, hi)`. */
  lemma FrameRangeExact(a: Action, lo: real, hi: real)
    requires lo < hi
    requires forall j, k :: 0 <= j < |a| && 0 <= k < |a[j].keys| ==> lo <= a[j].keys[k].frame <= hi
    requires exists j, k :: 0 <= j < |a| && 0 <= k < |a[j].keys| && a[j].keys[k].frame == lo
    requires exists j, k :: 0 <= j < |a| && 0 <= k < |a[j].keys| && a[j].keys[k].frame == hi
    ensures FrameRange(a) == (lo, hi)
  {
    var fs := KeyFrames(a);
    var j0, k0 :| 0 <= j0 < |a| && 0 <= k0 < |a[j0].keys| && a[j0].keys[k0].frame == lo;
    var j1, k1 :| 0 <= j1 < |a| && 0 <= k1 < |a[j1].keys| && a[j1].keys[k1].frame == hi;
    assert lo in fs && hi in fs;
    forall f <- fs ensures lo <= f <= hi {
      var j, k :| 0 <= j < |a| && 0 <= k < |a[j].keys| && a[j].keys[k].frame == f;
    }
    var m := Min(fs);
    var n := Max(fs);
    assert m == lo && n == hi;
  }

  /** `keyframe_points.insert(...)` repeated: the keys `ks` added after the ones already in channel `pos`. */
  function InsertKeys(a: Action, pos: nat, ks: seq<Key>): (r: Action)
    requires pos < |a|
    ensures SameChannels(a, r)
    ensures r[pos].keys == a[pos].keys + ks
    ensures forall j :: 0 <= j < |a| && j != pos ==> r[j] == a[j]
  {
    a[pos := a[pos].(keys := a[pos].keys + ks)]
  }

  /** Inserting keys one at a time is inserting them all at once. */
  lemma InsertKeysSnoc(a: Action, pos: nat, ks: seq<Key>, k: Key)
    requires pos < |a|
    ensures InsertKeys(a, pos, []) == a
    ensures InsertKey(InsertKeys(a, pos, ks), pos, k) == InsertKeys(a, pos, ks + [k])
  {
    assert a[pos].keys + [] == a[pos].keys;
    assert a[pos].keys + ks + [k] == a[pos].keys + (ks + [k]);
  }

  /**
   * Keys meant for the channel at one address. `fault` is the exception the
   * caller raises for this group before it even looks the channel up.
   */
  datatype Write = Write(path: DataPath, index: int, keys: seq<Key>, fault: Option<PyError>)

  /**
   * The groups of a plan applied in order: each group's keys go to the first
   * channel with its address; a fault, or an address without a channel (the
   * lookup returns `None`, which has no `keyframe_points`), stops the run.
   */
  function ApplyPlan(a: Action, plan: seq<Write>): (r: Result<Action>)
    ensures r.Ok? ==> SameChannels(a, r.value)
    decreases |plan|
  {
    if |plan| == 0 then Ok(a)
    else
      var b :- ApplyPlan(a, plan[..|plan| - 1]);
      var w := plan[|plan| - 1];
      FindSameChannels(a, b, w.path, w.index);
      if w.fault.Some? then Err(w.fault.value)
      else match Find(b, w.path, w.index)
        case None => Err(AttributeError("keyframe_points"))
        case Some(pos) => Ok(InsertKeys(b, pos, w.keys))
  }

  /** A group that raises nothing and finds its channel. */
  predicate Lands(a: Action, w: Write) {
    w.fault.None? && Find(a, w.path, w.index).Some?
  }

  /** A plan succeeds exactly when each of its groups raises nothing and finds its channel. */
  lemma {:induction false} ApplyPlanOk(a: Action, plan: seq<Write>)
    ensures ApplyPlan(a, plan).Ok? <==> forall k :: 0 <= k < |plan| ==> Lands(a, plan[k])
    decreases |plan|
  {
    if |plan| > 0 {
      var init := plan[..|plan| - 1];
      ApplyPlanOk(a, init);
      if ApplyPlan(a, init).Ok? {
        var w := plan[|plan| - 1];
        FindSameChannels(a, ApplyPlan(a, init).value, w.path, w.index);
      }
      assert forall k :: 0 <= k < |init| ==> init[k] == plan[k];
    }
  }

  /** All the keys a plan holds for one address, in plan order. */
  function KeysAt(plan: seq<Write>, path: DataPath, index: int): (r: seq<Key>)
    ensures forall w <- plan :: w.path == path && w.index == index ==> |w.keys| <= |r|
  {
    if |plan| == 0 then []
    else
      var w := plan[|plan| - 1];
      var before := KeysAt(plan[..|plan| - 1], path, index);
      assert forall v <- plan :: v == w || v in plan[..|plan| - 1];
      before + (if w.path == path && w.index == index then w.keys else [])
  }

  /**
   * What a successful plan does to each channel: the channel that lookups of
   * its address find gains exactly the plan's keys for that address, in plan
   * order; every other channel keeps its keys.
   */
  lemma {:induction false} ApplyPlanKeys(a: Action, plan: seq<Write>, p: nat)
    requires ApplyPlan(a, plan).Ok? && p < |a|
    ensures ApplyPlan(a, plan).value[p].keys ==
      a[p].keys + (if Find(a, a[p].path, a[p].index) == Some(p) then KeysAt(plan, a[p].path, a[p].index) else [])
    decreases |plan|
  {
    if |plan| > 0 {
      var init := plan[..|plan| - 1];
      var w := plan[|plan| - 1];
      ApplyPlanKeys(a, init, p);
      var b := ApplyPlan(a, init).value;
      FindSameChannels(a, b, w.path, w.index);
      var pos := Find(b, w.path, w.index).value;
      assert ApplyPlan(a, plan).value == InsertKeys(b, pos, w.keys);
      if pos == p {
        assert w.path == a[p].path && w.index == a[p].index;
      } else if w.path == a[p].path && w.index == a[p].index {
        assert Find(a, a[p].path, a[p].index) == Some(pos);
      }
    }
  }

  /** Once a plan has failed, groups after it change nothing about the outcome. */
  lemma {:induction false} ApplyPlanErrExtends(a: Action, p: seq<Write>, q: seq<Write>)
    requires ApplyPlan(a, p).Err?
    ensures ApplyPlan(a, p + q) == ApplyPlan(a, p)
    decreases |q|
  {
    if |q| > 0 {
      assert (p + q)[..|p + q| - 1] == p + q[..|q| - 1];
      ApplyPlanErrExtends(a, p, q[..|q| - 1]);
    } else {
      assert p + q == p;
    }
  }

  /** The keys a plan holds for an address that exactly one of its groups has. */
  lemma {:induction false} KeysAtSingle(plan: seq<Write>, k: nat, path: DataPath, index: int)
    requires k < |plan| && plan[k].path == path && plan[k].index == index
    requires forall j :: 0 <= j < |plan| && j != k ==> plan[j].path != path || plan[j].index != index
    ensures KeysAt(plan, path, index) == plan[k].keys
    decreases |plan|
  {
    var init := plan[..|plan| - 1];
    if k < |plan| - 1 {
      KeysAtSingle(init, k, path, index);
    } else {
      KeysAtNone(init, path, index);
    }
  }

  /** A plan none of whose groups has the address holds no keys for it. */
  lemma {:induction false} KeysAtNone(plan: seq<Write>, path: DataPath, index: int)
    requires forall j :: 0 <= j < |plan| ==> plan[j].path != path || plan[j].index != index
    ensures KeysAt(plan, path, index) == []
    decreases |plan|
  {
    if |plan| > 0 {
      KeysAtNone(plan[..|plan| - 1], path, index);
    }
  }

  /** A lookup that succeeds in an action finds the same channel after channels are appended. */
  lemma FindPrefix(a: Action, b: Action, path: DataPath, index: int)
    requires a <= b && Find(a, path, index).Some?
    ensures Find(b, path, index) == Find(a, path, index)
  {
    var j := Find(a, path, index).value;
    assert Addresses(b[j], path, index);
  }

  /**
   * `ApplyPlanKeys` for a plan applied after earlier changes: when channel `p`
   * of `b` holds its keys in `a` plus `ks`, the plan adds its own keys for the
   * address after `ks`.
   */
  lemma ApplyPlanKeysAfter(a: Action, b: Action, plan: seq<Write>, p: nat, ks: seq<Key>)
    requires SameChannels(a, b) && p < |a| && ApplyPlan(b, plan).Ok?
    requires b[p].keys == a[p].keys + (if Find(a, a[p].path, a[p].index) == Some(p) then ks else [])
    ensures ApplyPlan(b, plan).value[p].keys ==
      a[p].keys + (if Find(a, a[p].path, a[p].index) == Some(p) then ks + KeysAt(plan, a[p].path, a[p].index) else [])
  {
    ApplyPlanKeys(b, plan, p);
    FindSameChannels(a, b, a[p].path, a[p].index);
  }

  /** Applying two plans one after the other is applying their concatenation. */
  lemma {:induction false} ApplyPlanConcat(a: Action, p: seq<Write>, q: seq<Write>)
    requires ApplyPlan(a, p).Ok?
    ensures ApplyPlan(a, p + q) == ApplyPlan(ApplyPlan(a, p).value, q)
    decreases |q|
  {
    if |q| > 0 {
      assert (p + q)[..|p + q| - 1] == p + q[..|q| - 1];
      ApplyPlanConcat(a, p, q[..|q| - 1]);
    } else {
      assert p + q == p;
    }
  }

  /** The keys of a concatenated plan for one address. */
  lemma {:induction false} KeysAtConcat(p: seq<Write>, q: seq<Write>, path: DataPath, index: int)
    ensures KeysAt(p + q, path, index) == KeysAt(p, path, index) + KeysAt(q, path, index)
    decreases |q|
  {
    if |q| > 0 {
      assert (p + q)[..|p + q| - 1] == p + q[..|q| - 1];
      KeysAtConcat(p, q[..|q| - 1], path, index);
    } else {
      assert p + q == p;
    }
  }

  /** An action data block: its name can change and its channels gain keys. */
  class ActionObj {
    var name: string
    var fcurves: Action

    /** `bpy.data.actions.new(name=...)`: an action without channels. */
    constructor(name: string)
      ensures this.name == name && fcurves == []
    {
      this.name := name;
      fcurves := [];
    }
  }

  /** An armature object: its name, its armature data's name, its bones and its active action. */
  class ArmatureObj {
    var name: string
    var dataName: string
    var bones: seq<string>
    var action: ActionObj?

    constructor(name: string, dataName: string, bones: seq<string>, action: ActionObj?)
      ensures this.name == name && this.dataName == dataName && this.bones == bones && this.action == action
    {
      this.name := name;
      this.dataName := dataName;
      this.bones := bones;
      this.action := action;
    }
  }

  /** A file-system path as its components. */
  datatype Path = Path(parts: seq<string>) {
    /** `path.joinpath(part)` */
    function Join(part: string): (r: Path)
      ensures r.parts == parts + [part]
    {
      Path(parts + [part])
    }
  }

  /** The placeholder path every timing-table row starts with. */
  const NoPath: Path := Path(["/", "none"])

  /** A file-system query: whether a path exists. */
  type Exists = Path -> bool

  datatype Vec3 = Vec3(x: real, y: real, z: real)

  /** 4x4 matrices, as the terms that built them. */
  datatype Mat =
    | Identity
    | Translation(offset: Vec3)
      /** `Euler(angles, "ZXY").to_matrix().to_4x4()` */
    | EulerRotation(angles: Vec3)
      /** the identity with the three factors on the diagonal */
    | Scaling(factors: Vec3)
    | MatMul(left: Mat, right: Mat)

  /** Quaternions, as the terms that built them. */
  datatype Quat =
    | IdentityQuat
      /** `Euler(angles, "ZXY").to_quaternion()` */
    | EulerQuat(angles: Vec3)
}
