/**
 * The JSON exporter: the rotation of every active bone at every frame of the
 * exported skeleton's action, each quaternion written as four strings.
 */
module JsonExporter {
  import opened Wrappers
  import opened Frames
  import opened Host
  import opened Controllers

  /** A rotation quaternion, by its four components. */
  datatype Quaternion = Quaternion(w: real, x: real, y: real, z: real)

  /** `str(x)` of a float: Python's shortest round-tripping text, which the model leaves as a parameter. */
  type FloatText = real -> string

  /** One `{"boneRotation": [w, x, y, z]}` record. */
  datatype BoneRotation = BoneRotation(boneRotation: seq<string>)

  /** One `{"rotationsDatas": [...]}` entry: the records of one frame. */
  datatype FrameRotations = FrameRotations(rotationsDatas: seq<BoneRotation>)

  /** The exported document. */
  datatype AnimJson = AnimJson(bones: seq<string>, samplingRate: string, animData: seq<FrameRotations>)

  /** The object the exporter reads its animation from. */
  const SkeletonName := "skeleton #5"

  /** `str(1 / 60)` */
  const SamplingRate := "0.016666666666666666"

  /** A component as written: its text, or `"0"` when the text is in exponent notation. */
  function Component(text: string): (r: string)
    ensures 'e' in text ==> r == "0"
    ensures 'e' !in text ==> r == text
  {
    if 'e' in text then "0" else text
  }

  /** `fetch_bone_quaternion(rotation)`: the components in the order w, x, y, z. */
  function FetchBoneQuaternion(q: Quaternion, str: FloatText): (r: BoneRotation)
    ensures |r.boneRotation| == 4
    ensures r.boneRotation[0] == Component(str(q.w)) && r.boneRotation[1] == Component(str(q.x))
    ensures r.boneRotation[2] == Component(str(q.y)) && r.boneRotation[3] == Component(str(q.z))
  {
    BoneRotation([Component(str(q.w)), Component(str(q.x)), Component(str(q.y)), Component(str(q.z))])
  }

  /**
   * No written component is in exponent notation: a component whose text has
   * an `e` becomes zero, every other one is its own text.
   */
  lemma NoExponentWritten(q: Quaternion, str: FloatText)
    ensures forall c <- FetchBoneQuaternion(q, str).boneRotation :: 'e' !in c
    ensures forall c <- FetchBoneQuaternion(q, str).boneRotation :: c == "0" || c in [str(q.w), str(q.x), str(q.y), str(q.z)]
  {
    var r := FetchBoneQuaternion(q, str).boneRotation;
    assert "0"[0] == '0';
    forall c <- r ensures 'e' !in c {
      var k :| 0 <= k < 4 && r[k] == c;
    }
  }

  /** The records of one frame: one per active bone, in list order. */
  function FrameRecords(activeBones: seq<string>, frame: int, rotation: (string, int) -> Quaternion, str: FloatText): (r: FrameRotations)
    ensures |r.rotationsDatas| == |activeBones|
  {
    FrameRotations(seq(|activeBones|, j requires 0 <= j < |activeBones| =>
      FetchBoneQuaternion(rotation(activeBones[j], frame), str)))
  }

  /** The whole frames an action spans, as `int(action.frame_range[0])` and `int(action.frame_range[1])`. */
  function WholeRange(a: Action): (int, int) {
    (Trunc(FrameRange(a).0), Trunc(FrameRange(a).1))
  }

  /**
   * What `get_animation_list` builds from the skeleton's bones and the whole
   * frame range `(fs, fe)` of its action: one entry per frame from `fs` up to,
   * not including, `fe`; a listed bone the skeleton lacks fails on the first
   * frame, and a range without frames to export looks no bone up.
   */
  function AnimationList(activeBones: seq<string>, bones: seq<string>, range: Option<(int, int)>,
                         rotation: (string, int) -> Quaternion, str: FloatText): (r: Result<AnimJson>)
    ensures r.Err? ==> range.None? || (range.value.0 < range.value.1 && exists b <- activeBones :: b !in bones)
  {
    if range.None? then Err(AttributeError("frame_range"))
    else
      var (fs, fe) := range.value;
      var miss := FirstMissing(activeBones, bones);
      if fs < fe && miss.Some? then Err(KeyError(activeBones[miss.value]))
      else
        var count := if fs < fe then fe - fs else 0;
        Ok(AnimJson(activeBones, SamplingRate,
                    seq(count, k requires 0 <= k < count => FrameRecords(activeBones, fs + k, rotation, str))))
  }

  /**
   * The export covers the frames `fs .. fe - 1`: entry `k` holds, for each
   * active bone in order, its rotation at frame `fs + k`, and the `bones`
   * field is the active list.
   */
  lemma ExportedFrames(activeBones: seq<string>, bones: seq<string>, fs: int, fe: int,
                       rotation: (string, int) -> Quaternion, str: FloatText)
    requires AnimationList(activeBones, bones, Some((fs, fe)), rotation, str).Ok?
    ensures var r := AnimationList(activeBones, bones, Some((fs, fe)), rotation, str).value;
      r.bones == activeBones && r.samplingRate == SamplingRate &&
      |r.animData| == (if fs < fe then fe - fs else 0) &&
      (forall k :: 0 <= k < |r.animData| ==> |r.animData[k].rotationsDatas| == |activeBones|) &&
      forall k, j :: 0 <= k < |r.animData| && 0 <= j < |activeBones| ==>
        r.animData[k].rotationsDatas[j] == FetchBoneQuaternion(rotation(activeBones[j], fs + k), str)
  {
    var r := AnimationList(activeBones, bones, Some((fs, fe)), rotation, str).value;
    forall k | 0 <= k < |r.animData|
      ensures r.animData[k] == FrameRecords(activeBones, fs + k, rotation, str)
    {
    }
  }

  /** A listed bone the skeleton lacks makes the export fail exactly when there is a frame to export. */
  lemma MissingBoneFails(activeBones: seq<string>, bones: seq<string>, fs: int, fe: int,
                         rotation: (string, int) -> Quaternion, str: FloatText, b: string)
    requires b in activeBones && b !in bones
    ensures AnimationList(activeBones, bones, Some((fs, fe)), rotation, str).Err? <==> fs < fe
  {
  }

  /**
   * `get_animation_list(active_bones)`: the skeleton looked up by name, then
   * a loop over the frames and, inside it, over the active bones, each
   * frame's records appended as one entry. `rotation` is the pose the host
   * evaluates for a bone at a frame, already turned into a quaternion.
   */
  method GetAnimationList(activeBones: seq<string>, objects: map<string, ArmatureObj>,
                          rotation: (string, int) -> Quaternion, str: FloatText) returns (r: Result<AnimJson>)
    ensures SkeletonName !in objects ==> r == Err(KeyError(SkeletonName))
    ensures SkeletonName in objects ==>
      var arm := objects[SkeletonName];
      r == AnimationList(activeBones, arm.bones, if arm.action == null then None else Some(WholeRange(arm.action.fcurves)), rotation, str)
  {
    if SkeletonName !in objects {
      return Err(KeyError(SkeletonName));
    }
    var arm := objects[SkeletonName];
    if arm.action == null {
      return Err(AttributeError("frame_range"));
    }
    var (fs, fe) := WholeRange(arm.action.fcurves);
    r := ExportFrames(activeBones, arm.bones, fs, fe, rotation, str);
  }

  /** The frame loop of `get_animation_list` over the whole frames `fs .. fe - 1`. */
  method ExportFrames(activeBones: seq<string>, bones: seq<string>, fs: int, fe: int,
                      rotation: (string, int) -> Quaternion, str: FloatText) returns (r: Result<AnimJson>)
    ensures r == AnimationList(activeBones, bones, Some((fs, fe)), rotation, str)
  {
    var animData: seq<FrameRotations> := [];
    var f := fs;
    while f < fe
      invariant fs <= f && (f == fs || f <= fe)
      invariant f > fs ==> FirstMissing(activeBones, bones).None?
      invariant |animData| == f - fs
      invariant forall k :: 0 <= k < f - fs ==> animData[k] == FrameRecords(activeBones, fs + k, rotation, str)
    {
      var records := RecordsAt(activeBones, bones, f, rotation, str);
      if records.Err? {
        return Err(records.error);
      }
      animData := animData + [records.value];
      f := f + 1;
    }
    assert animData == AnimationList(activeBones, bones, Some((fs, fe)), rotation, str).value.animData;
    r := Ok(AnimJson(activeBones, SamplingRate, animData));
  }

  /** The bone loop of `get_animation_list` at one frame: the frame's records, or the first bone the skeleton lacks. */
  method RecordsAt(activeBones: seq<string>, bones: seq<string>, frame: int,
                   rotation: (string, int) -> Quaternion, str: FloatText) returns (r: Result<FrameRotations>)
    ensures var miss := FirstMissing(activeBones, bones);
      (miss.None? ==> r == Ok(FrameRecords(activeBones, frame, rotation, str))) &&
      (miss.Some? ==> r == Err(KeyError(activeBones[miss.value])))
  {
    var records: seq<BoneRotation> := [];
    for j := 0 to |activeBones|
      invariant |records| == j
      invariant forall i :: 0 <= i < j ==> activeBones[i] in bones
      invariant forall i :: 0 <= i < j ==> records[i] == FetchBoneQuaternion(rotation(activeBones[i], frame), str)
    {
      var name := activeBones[j];
      if name !in bones {
        assert FirstMissing(activeBones, bones) == Some(j);
        return Err(KeyError(name));
      }
      records := records + [FetchBoneQuaternion(rotation(name, frame), str)];
    }
    assert records == FrameRecords(activeBones, frame, rotation, str).rotationsDatas;
    r := Ok(FrameRotations(records));
  }
}
