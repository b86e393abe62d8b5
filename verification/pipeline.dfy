/**
 * `execute_pipeline`, up to the point where the glosses are merged: the
 * timing table's motion files are resolved, the inflector list is assembled
 * from the table's availability, and each gloss is loaded, copied, resampled
 * to its timing and handed to a controller of its own.
 */
module Pipeline {
  import opened Wrappers
  import opened Text
  import opened Frames
  import opened Host
  import opened MmsParser
  import opened Extract
  import opened Targets
  import opened Controllers
  import opened ArmatureUtils
  import opened BpyUtils

  // ---------------------------------------------------------------- the sentence id

  /** `"Satz" + sentence_id.lstrip("0")`: the name of a stored sentence animation. */
  function SentenceId(stem: string): (r: string)
    ensures |r| >= 4 && r[..4] == "Satz" && |r| - 4 <= |stem|
    ensures r[4..] == stem[|stem| - (|r| - 4)..]
    ensures |r| > 4 ==> r[4] != '0'
    ensures forall i :: 0 <= i < |stem| - (|r| - 4) ==> stem[i] == '0'
  {
    "Satz" + LStrip(stem, '0')
  }

  /** `n` zeros. */
  function Zeros(n: nat): (r: string)
    ensures |r| == n && forall i :: 0 <= i < n ==> r[i] == '0'
  {
    seq(n, _ => '0')
  }

  /** However many zeros a stem starts with, its id is `Satz` followed by the rest. */
  lemma {:induction false} SentenceIdZeros(n: nat, rest: string)
    requires |rest| == 0 || rest[0] != '0'
    ensures SentenceId(Zeros(n) + rest) == "Satz" + rest
  {
    if n == 0 {
      assert Zeros(n) + rest == rest;
    } else {
      assert (Zeros(n) + rest)[1..] == Zeros(n - 1) + rest;
      SentenceIdZeros(n - 1, rest);
    }
  }

  // ---------------------------------------------------------------- the inflector list

  /** The configuration entries `execute_pipeline` can add to the inflector list. */
  datatype Inflector =
    | TorsoInflector
    | HeadInflector
    | ShoulderDom
    | ShoulderNdom
    | DomHandLoc
    | DomHandRot
    | NdomHandLoc
    | NdomHandRot

  /** The entries in the order `execute_pipeline` checks them. */
  const Canonical: seq<Inflector> :=
    [TorsoInflector, HeadInflector, ShoulderDom, ShoulderNdom, DomHandLoc, DomHandRot, NdomHandLoc, NdomHandRot]

  /** The place of an entry in that order. */
  function Rank(s: Inflector): (r: nat)
    ensures r < |Canonical| && Canonical[r] == s
  {
    match s
    case TorsoInflector => 0
    case HeadInflector => 1
    case ShoulderDom => 2
    case ShoulderNdom => 3
    case DomHandLoc => 4
    case DomHandRot => 5
    case NdomHandLoc => 6
    case NdomHandRot => 7
  }

  /** Whether the table's availability asks for an entry: both shoulder entries hang on the one shoulder flag. */
  predicate Enabled(a: Availability, s: Inflector) {
    match s
    case TorsoInflector => a.torso
    case HeadInflector => a.head
    case ShoulderDom => a.shoulders
    case ShoulderNdom => a.shoulders
    case DomHandLoc => a.domHandReloc
    case DomHandRot => a.domHandRot
    case NdomHandLoc => a.ndomHandReloc
    case NdomHandRot => a.ndomHandRot
  }

  /** The entries asked for among the first `n` of the order, in that order. */
  function RequestedUpTo(a: Availability, n: nat): (r: seq<Inflector>)
    requires n <= |Canonical|
  {
    if n == 0 then []
    else RequestedUpTo(a, n - 1) + (if Enabled(a, Canonical[n - 1]) then [Canonical[n - 1]] else [])
  }

  /** Each check adds its own entry, when its flag is set, after those of the checks before it. */
  lemma RequestedStep(a: Availability, k: nat)
    requires k < |Canonical|
    ensures Enabled(a, Canonical[k]) ==> RequestedUpTo(a, k + 1) == RequestedUpTo(a, k) + [Canonical[k]]
    ensures !Enabled(a, Canonical[k]) ==> RequestedUpTo(a, k + 1) == RequestedUpTo(a, k)
  {
  }

  /** The entries asked for. */
  function Requested(a: Availability): seq<Inflector> {
    RequestedUpTo(a, |Canonical|)
  }

  /**
   * The first `n` entries of the order contribute exactly those of them
   * whose flag is set, each once, in the order.
   */
  lemma {:induction false} RequestedUpToOrder(a: Availability, n: nat)
    requires n <= |Canonical|
    ensures forall s :: s in RequestedUpTo(a, n) <==> Enabled(a, s) && Rank(s) < n
    ensures forall i, j :: 0 <= i < j < |RequestedUpTo(a, n)| ==>
      Rank(RequestedUpTo(a, n)[i]) < Rank(RequestedUpTo(a, n)[j])
  {
    RequestedUpToMembers(a, n);
    RequestedUpToSorted(a, n);
  }

  /** The first `n` entries of the order contribute exactly those of them whose flag is set. */
  lemma {:induction false} RequestedUpToMembers(a: Availability, n: nat)
    requires n <= |Canonical|
    ensures forall s :: s in RequestedUpTo(a, n) <==> Enabled(a, s) && Rank(s) < n
  {
    if n > 0 {
      RequestedUpToMembers(a, n - 1);
      var c := Canonical[n - 1];
      assert Rank(c) == n - 1;
      forall s ensures Rank(s) < n <==> Rank(s) < n - 1 || s == c {
        assert Rank(s) == n - 1 ==> s == c;
      }
      var prev, r := RequestedUpTo(a, n - 1), RequestedUpTo(a, n);
      var last := if Enabled(a, c) then [c] else [];
      assert r == prev + last;
      forall s ensures s in r <==> s in prev || s in last {
      }
    }
  }

  /** Those entries come in the order, each once. */
  lemma {:induction false} RequestedUpToSorted(a: Availability, n: nat)
    requires n <= |Canonical|
    ensures forall i, j :: 0 <= i < j < |RequestedUpTo(a, n)| ==>
      Rank(RequestedUpTo(a, n)[i]) < Rank(RequestedUpTo(a, n)[j])
  {
    if n > 0 {
      RequestedUpToSorted(a, n - 1);
      RequestedUpToMembers(a, n - 1);
      var c := Canonical[n - 1];
      var prev, r := RequestedUpTo(a, n - 1), RequestedUpTo(a, n);
      assert r == prev + if Enabled(a, c) then [c] else [];
      forall i, j | 0 <= i < j < |r| ensures Rank(r[i]) < Rank(r[j]) {
        assert r[i] == prev[i] && prev[i] in prev;
        if j >= |prev| {
          assert r[j] == c;
        }
      }
    }
  }

  /**
   * The inflector list asks for each entry whose availability flag is set,
   * and no other, in the fixed order torso, head, dominant and non-dominant
   * shoulder, dominant hand location and rotation, non-dominant hand location
   * and rotation; the shoulder flag brings two entries.
   */
  lemma RequestedOrder(a: Availability)
    ensures forall s :: s in Requested(a) <==> Enabled(a, s)
    ensures forall i, j :: 0 <= i < j < |Requested(a)| ==> Rank(Requested(a)[i]) < Rank(Requested(a)[j])
    ensures a.shoulders <==> ShoulderDom in Requested(a) && ShoulderNdom in Requested(a)
  {
    RequestedUpToOrder(a, |Canonical|);
  }

  /** The attribute path of an entry in the wrapped configuration. */
  function AttrPath(s: Inflector): seq<string> {
    match s
    case TorsoInflector => ["torso"]
    case HeadInflector => ["head"]
    case ShoulderDom => ["shoulders", "dom"]
    case ShoulderNdom => ["shoulders", "ndom"]
    case DomHandLoc => ["hands", "dom", "loc"]
    case DomHandRot => ["hands", "dom", "rot"]
    case NdomHandLoc => ["hands", "ndom", "loc"]
    case NdomHandRot => ["hands", "ndom", "rot"]
  }

  /** A chain of attribute reads, each on the result of the one before. */
  function LookupPath(a: Attribute, path: seq<string>): (r: Result<Attribute>)
    ensures |path| == 0 ==> r == Ok(a)
    ensures |path| > 0 && AttrOf(a, path[0]).Err? ==> r == Err(AttrOf(a, path[0]).error)
    decreases |path|
  {
    if |path| == 0 then Ok(a)
    else
      var next :- AttrOf(a, path[0]);
      LookupPath(next, path[1..])
  }

  /** `ik_config.torso`, `ik_config.shoulders.dom`, `ik_config.hands.dom.loc`, ... */
  function Lookup(config: Config, s: Inflector): Result<Attribute> {
    LookupPath(Value(config), AttrPath(s))
  }

  /** The reads as one function of the entry. */
  function Finder(config: Config): Inflector -> Result<Attribute> {
    s => Lookup(config, s)
  }

  /**
   * The inflector list: every requested entry read from the wrapped
   * configuration in order, the first failing read raising; with inflection
   * off the list is emptied, after the reads.
   */
  function Inflectors(config: Config, a: Availability, without: bool): (r: Result<seq<Attribute>>)
    ensures r.Ok? ==> |r.value| == if without then 0 else |Requested(a)|
  {
    var found :- MapAll(Requested(a), Finder(config));
    Ok(if without then [] else found)
  }

  /**
   * The list holds the configuration's entry for each requested inflector,
   * in order, unless inflection is off, when it is empty; either way it fails
   * exactly when the entry of some inflector the table asks for cannot be read.
   */
  lemma InflectorsRead(config: Config, a: Availability, without: bool)
    ensures var r := Inflectors(config, a, without);
      (r.Ok? <==> forall s :: Enabled(a, s) ==> Lookup(config, s).Ok?) &&
      (r.Ok? && without ==> r.value == []) &&
      (r.Ok? && !without ==>
         |r.value| == |Requested(a)| &&
         forall i :: 0 <= i < |r.value| ==> Lookup(config, Requested(a)[i]) == Ok(r.value[i]))
  {
    RequestedOrder(a);
    MapAllEach(Requested(a), Finder(config));
    var r := MapAll(Requested(a), Finder(config));
    if r.Err? {
      var i :| 0 <= i < |Requested(a)| && Finder(config)(Requested(a)[i]) == Err(r.error);
      assert Enabled(a, Requested(a)[i]);
    } else {
      forall s | Enabled(a, s) ensures Lookup(config, s).Ok? {
        var i :| 0 <= i < |Requested(a)| && Requested(a)[i] == s;
      }
    }
  }

  /**
   * One `if <flag>: ik_target_list.append(ik_config.<entry>)`, the `k`-th
   * check: the entry read with `find` and appended when its flag is set. A
   * read that failed before is passed on as it is, as the raised exception
   * skips the rest.
   */
  method AppendIf(find: Inflector -> Result<Attribute>, flag: bool, s: Inflector, list: Result<seq<Attribute>>,
                  ghost a: Availability, ghost k: nat)
    returns (r: Result<seq<Attribute>>)
    requires k < |Canonical| && s == Canonical[k] && flag == Enabled(a, s)
    requires list == MapAll(RequestedUpTo(a, k), find)
    ensures r == MapAll(RequestedUpTo(a, k + 1), find)
  {
    RequestedStep(a, k);
    r := list;
    if flag {
      MapAllSnoc(RequestedUpTo(a, k), s, find);
      if list.Ok? {
        var entry := find(s);
        if entry.Err? {
          r := Err(entry.error);
        } else {
          r := Ok(list.value + [entry.value]);
        }
      }
    }
  }

  /** The chain of flag checks of `execute_pipeline`: the requested entries read with `find`, in order. */
  method AppendRequested(find: Inflector -> Result<Attribute>, a: Availability) returns (r: Result<seq<Attribute>>)
    ensures r == MapAll(Requested(a), find)
  {
    r := AppendBody(find, a);
    r := AppendHands(find, a, r);
  }

  /** The torso, head and shoulder checks. */
  method AppendBody(find: Inflector -> Result<Attribute>, a: Availability) returns (r: Result<seq<Attribute>>)
    ensures r == MapAll(RequestedUpTo(a, 4), find)
  {
    r := AppendTorsoHead(find, a);
    r := AppendShoulders(find, a, r);
  }

  /** The torso and head checks, the first two. */
  method AppendTorsoHead(find: Inflector -> Result<Attribute>, a: Availability) returns (r: Result<seq<Attribute>>)
    ensures r == MapAll(RequestedUpTo(a, 2), find)
  {
    r := Ok([]);
    r := AppendIf(find, a.torso, TorsoInflector, r, a, 0);
    r := AppendIf(find, a.head, HeadInflector, r, a, 1);
  }

  /** The two shoulder checks, both on the one shoulder flag. */
  method AppendShoulders(find: Inflector -> Result<Attribute>, a: Availability, list: Result<seq<Attribute>>)
    returns (r: Result<seq<Attribute>>)
    requires list == MapAll(RequestedUpTo(a, 2), find)
    ensures r == MapAll(RequestedUpTo(a, 4), find)
  {
    r := AppendIf(find, a.shoulders, ShoulderDom, list, a, 2);
    r := AppendIf(find, a.shoulders, ShoulderNdom, r, a, 3);
  }

  /** The four hand checks, after the others. */
  method AppendHands(find: Inflector -> Result<Attribute>, a: Availability, list: Result<seq<Attribute>>)
    returns (r: Result<seq<Attribute>>)
    requires list == MapAll(RequestedUpTo(a, 4), find)
    ensures r == MapAll(Requested(a), find)
  {
    r := AppendDomHand(find, a, list);
    r := AppendNdomHand(find, a, r);
  }

  /** The dominant hand's location and rotation checks. */
  method AppendDomHand(find: Inflector -> Result<Attribute>, a: Availability, list: Result<seq<Attribute>>)
    returns (r: Result<seq<Attribute>>)
    requires list == MapAll(RequestedUpTo(a, 4), find)
    ensures r == MapAll(RequestedUpTo(a, 6), find)
  {
    r := AppendIf(find, a.domHandReloc, DomHandLoc, list, a, 4);
    r := AppendIf(find, a.domHandRot, DomHandRot, r, a, 5);
  }

  /** The non-dominant hand's location and rotation checks, the last two. */
  method AppendNdomHand(find: Inflector -> Result<Attribute>, a: Availability, list: Result<seq<Attribute>>)
    returns (r: Result<seq<Attribute>>)
    requires list == MapAll(RequestedUpTo(a, 6), find)
    ensures r == MapAll(Requested(a), find)
  {
    r := AppendIf(find, a.ndomHandReloc, NdomHandLoc, list, a, 6);
    r := AppendIf(find, a.ndomHandRot, NdomHandRot, r, a, 7);
  }

  /** The inflector list of `execute_pipeline`: the entries read from the wrapped configuration, then emptied when inflection is off. */
  method BuildInflectorList(config: Config, a: Availability, without: bool) returns (r: Result<seq<Attribute>>)
    ensures r == Inflectors(config, a, without)
  {
    r := AppendRequested(Finder(config), a);
    if without && r.Ok? {
      r := Ok([]);
    }
  }

  /** `ik_target.dict`: only a configuration object has the `dict` property. */
  predicate HasDict(e: Attribute) {
    e.Value? && e.config.ConfigObject?
  }

  /**
   * The log of the inflector list: `ik_target.dict` read for each entry in
   * turn, so the first entry that is not a configuration object (a plain
   * value or a list) raises `AttributeError`.
   */
  function LoggedConfigs(list: seq<Attribute>): (r: Result<()>)
    ensures r.Ok? <==> forall e <- list :: HasDict(e)
    ensures r.Err? ==> r.error == AttributeError("dict")
    decreases |list|
  {
    if |list| == 0 then Ok(())
    else if !HasDict(list[0]) then Err(AttributeError("dict"))
    else LoggedConfigs(list[1..])
  }

  /** The logging loop over the inflector list. */
  method LogConfigs(list: seq<Attribute>) returns (r: Result<()>)
    ensures r == LoggedConfigs(list)
  {
    var i := 0;
    while i < |list|
      invariant 0 <= i <= |list|
      invariant LoggedConfigs(list) == LoggedConfigs(list[i..])
    {
      if !HasDict(list[i]) {
        return Err(AttributeError("dict"));
      }
      assert list[i..][1..] == list[i + 1..];
      i := i + 1;
    }
    return Ok(());
  }

  // ---------------------------------------------------------------- one gloss

  /** The command-line switches the gloss loop reads. */
  datatype Settings = Settings(ignoreGlossDuration: bool, useRelativeTime: bool, withoutInflection: bool)

  /**
   * What a gloss's armature carries into the loop: its object name (under which
   * its targets read their anchors), its bones and its action's channels, if it
   * has an action.
   */
  datatype Motion = Motion(name: string, bones: seq<string>, action: Option<Action>)

  /** The motion an armature object holds. */
  function MotionOf(arm: ArmatureObj): Motion
    reads arm, arm.action
  {
    Motion(arm.name, arm.bones, if arm.action == null then None else Some(arm.action.fcurves))
  }

  /** The last component of a path: what the missing-file message names. */
  function FileName(p: Path): string {
    if |p.parts| == 0 then "" else p.parts[|p.parts| - 1]
  }

  /**
   * What the gloss is resampled to: nothing when its duration is ignored, its
   * `duration()` in relative mode, its `timing()` otherwise; reading either
   * can raise.
   */
  function ResampleWith(line: MmsLine, settings: Settings): (r: Result<Option<ResampleTiming>>)
    ensures settings.ignoreGlossDuration ==> r == Ok(None)
    ensures !settings.ignoreGlossDuration && settings.useRelativeTime ==>
      (r.Ok? <==> GetDuration(line).Ok?) && (r.Ok? ==> r.value == Some(Relative(GetDuration(line).value)))
    ensures !settings.ignoreGlossDuration && !settings.useRelativeTime ==>
      (r.Ok? <==> Timing(line).Ok?) && (r.Ok? ==> r.value == Some(Absolute(Timing(line).value.0, Timing(line).value.1)))
  {
    if settings.ignoreGlossDuration then Ok(None)
    else if settings.useRelativeTime then
      var d :- GetDuration(line);
      Ok(Some(Relative(d)))
    else
      var t :- Timing(line);
      Ok(Some(Absolute(t.0, t.1)))
  }

  /**
   * `resample` on a motion: the action's channels sampled at the target
   * count of frames; the line records the original and the resampled frame
   * range. A motion without an action raises on its name.
   */
  function Resampled(line: MmsLine, m: Motion, timing: ResampleTiming, ev: Evaluator): Result<(MmsLine, Motion)> {
    if m.action.None? then Err(AttributeError("action"))
    else
      var range := FrameRange(m.action.value);
      var sampled :- SampleAction([], m.bones, m.action.value, m.bones, TargetCount(timing, range), ev);
      Ok((line.(originalFrameRange := Some(range), resampledFrameRange := Some(FrameRange(sampled))),
          Motion(m.name, m.bones, Some(sampled))))
  }

  /** What the controller of a gloss does: its span and the host operations it performs. */
  datatype Control = Control(start: int, end: int, ops: seq<Op>)

  /**
   * What `execute` adds after a set-up left the targets in `states`, unless
   * inflection is off: every target inflected over `span`, the inflected
   * action's truncated frame range, then the bake of that span.
   */
  function Executed(states: seq<TargetState>, span: (int, int), without: bool, anchors: Anchors): Result<seq<Op>> {
    if without then Ok([])
    else
      var run :- InflectFrames(states, span.0, Span(span.0, span.1), anchors);
      Ok(run.1 + [Bake(span.0, span.1)])
  }

  /**
   * A controller whose targets are in the states `states` driven over the
   * motion `m`: `setup_chain` onto the copy `dupName`, then, unless inflection
   * is off, `execute` over the frame range of the action the copy keyed.
   */
  function Driven(states: seq<TargetState>, m: Motion, dupName: string, line: MmsLine, without: bool,
                  anchors: Anchors): Result<Control>
  {
    var setup :- SetupSpec(states, m.action, m.bones, dupName, m.bones, line, without);
    var extra :- Executed(setup.states, InflectedSpan(setup.start, setup.end, m.bones), without, anchors);
    Ok(Control(setup.start, setup.end, setup.ops + extra))
  }

  /**
   * The controller part of one turn of the gloss loop on the (possibly
   * resampled) line and motion: the controller built from the inflector
   * list, with the operations that create its targets' controller objects,
   * then driven.
   */
  function Controlled(line: MmsLine, m: Motion, inflectors: seq<Attribute>, idx: nat, dupName: string,
                      without: bool, anchors: Anchors): Result<Control>
  {
    var specs :- TargetSpecs(inflectors);
    var d :- Driven(Initials(specs, idx, dupName, m.name), m, dupName, line, without, anchors);
    Ok(d.(ops := CreationOpsAll(specs, idx) + d.ops))
  }

  /** The outcome of one turn of the gloss loop: the gloss's new line and motion, and the host operations. */
  datatype GlossRun = GlossRun(line: MmsLine, motion: Motion, control: Control)

  /**
   * One turn of the gloss loop: a gloss whose file is missing raises first;
   * then the timing is read, the motion resampled, and the controller run on
   * the copy `inflected_<output name>`.
   */
  function GlossSpec(line: MmsLine, m: Motion, present: Exists, inflectors: seq<Attribute>, idx: nat,
                     settings: Settings, ev: Evaluator, anchors: Anchors): (r: Result<GlossRun>)
    ensures r.Ok? ==> present(line.path)
    ensures r.Ok? ==> r.value.motion.name == m.name && r.value.motion.bones == m.bones
    ensures r.Ok? ==> r.value.line == line.(originalFrameRange := r.value.line.originalFrameRange,
                                            resampledFrameRange := r.value.line.resampledFrameRange)
  {
    if !present(line.path) then Err(MissingFile(FileName(line.path)))
    else
      var how :- ResampleWith(line, settings);
      var now :- if how.None? then Ok((line, m)) else Resampled(line, m, how.value, ev);
      var c :- Controlled(now.0, now.1, inflectors, idx, InflectedPrefix + line.outputName, settings.withoutInflection, anchors);
      Ok(GlossRun(now.0, now.1, c))
  }

  /** With its duration ignored, a gloss keeps its line and its motion. */
  lemma GlossKeepsTiming(line: MmsLine, m: Motion, present: Exists, inflectors: seq<Attribute>, idx: nat,
                         settings: Settings, ev: Evaluator, anchors: Anchors)
    requires settings.ignoreGlossDuration && GlossSpec(line, m, present, inflectors, idx, settings, ev, anchors).Ok?
    ensures var run := GlossSpec(line, m, present, inflectors, idx, settings, ev, anchors).value;
      run.line == line && run.motion == m
  {
  }

  /** No controller keys the bake writes when there are no targets. */
  lemma {:induction false} BakeKeysNoTargets(start: int, count: nat)
    ensures BakeKeys([], start, count) == []
  {
    if count > 0 {
      BakeKeysNoTargets(start, count - 1);
    }
  }

  /**
   * With inflection off the inflector list is empty, and a gloss's turn then
   * only copies the pose of every bone onto `inflected_<output name>` over
   * its span: no controller, no constraint, no bake.
   */
  lemma GlossWithoutInflection(line: MmsLine, m: Motion, present: Exists, idx: nat,
                               settings: Settings, ev: Evaluator, anchors: Anchors)
    requires settings.withoutInflection && GlossSpec(line, m, present, [], idx, settings, ev, anchors).Ok?
    ensures var run := GlossSpec(line, m, present, [], idx, settings, ev, anchors).value;
      var c := run.control;
      c.ops == CopyKeys(InflectedPrefix + line.outputName, run.motion.bones, c.start, Span(c.start, c.end)) &&
      forall op <- c.ops :: CopiedKey(op, InflectedPrefix + line.outputName, run.motion.bones, c.start, Span(c.start, c.end))
  {
    var run := GlossSpec(line, m, present, [], idx, settings, ev, anchors).value;
    var dupName := InflectedPrefix + line.outputName;
    assert run.control == Controlled(run.line, run.motion, [], idx, dupName, true, anchors).value;
    ControlledWithout(run.line, run.motion, idx, dupName, anchors);
    CopyKeysCopied(dupName, run.motion.bones, run.control.start, Span(run.control.start, run.control.end));
  }

  /** With no inflectors and inflection off, the controller part of a turn is the pose copy over the span. */
  lemma ControlledWithout(line: MmsLine, m: Motion, idx: nat, dupName: string, anchors: Anchors)
    requires Controlled(line, m, [], idx, dupName, true, anchors).Ok?
    ensures var c := Controlled(line, m, [], idx, dupName, true, anchors).value;
      c.ops == CopyKeys(dupName, m.bones, c.start, Span(c.start, c.end))
  {
    assert TargetSpecs([]) == Ok([]);
    assert Initials([], idx, dupName, m.name) == [];
    var setup := SetupSpec([], m.action, m.bones, dupName, m.bones, line, true).value;
    BakeKeysNoTargets(setup.start, Span(setup.start, setup.end));
    assert setup.ops == CopyKeys(dupName, m.bones, setup.start, Span(setup.start, setup.end));
  }

  /**
   * With inflection on, the controller part of a turn sets up over the span
   * of the motion's action, its frame range truncated, and ends with the bake
   * of the inflected action's range: that span, or `(start, start + 1)` when
   * it is a single frame.
   */
  lemma ControlledBakes(line: MmsLine, m: Motion, inflectors: seq<Attribute>, idx: nat, dupName: string, anchors: Anchors)
    requires Controlled(line, m, inflectors, idx, dupName, false, anchors).Ok?
    ensures var c := Controlled(line, m, inflectors, idx, dupName, false, anchors).value;
      m.action.Some? &&
      c.start == Trunc(FrameRange(m.action.value).0) && c.end == Trunc(FrameRange(m.action.value).1) &&
      |c.ops| > 0 && (var span := InflectedSpan(c.start, c.end, m.bones); c.ops[|c.ops| - 1] == Bake(span.0, span.1))
    ensures var c := Controlled(line, m, inflectors, idx, dupName, false, anchors).value;
      |m.bones| > 0 && c.start == c.end ==> c.ops[|c.ops| - 1] == Bake(c.start, c.start + 1)
  {
    var specs := TargetSpecs(inflectors).value;
    var states := Initials(specs, idx, dupName, m.name);
    DrivenBakes(states, m, dupName, line, anchors);
    var d := Driven(states, m, dupName, line, false, anchors).value;
    assert Controlled(line, m, inflectors, idx, dupName, false, anchors).value == d.(ops := CreationOpsAll(specs, idx) + d.ops);
  }

  /**
   * Driven with inflection on, a controller sets up over the truncated frame
   * range of the source action and ends with the bake of the inflected
   * action's truncated frame range.
   */
  lemma DrivenBakes(states: seq<TargetState>, m: Motion, dupName: string, line: MmsLine, anchors: Anchors)
    requires Driven(states, m, dupName, line, false, anchors).Ok?
    ensures var d := Driven(states, m, dupName, line, false, anchors).value;
      m.action.Some? &&
      d.start == Trunc(FrameRange(m.action.value).0) && d.end == Trunc(FrameRange(m.action.value).1) &&
      |d.ops| > 0 && (var span := InflectedSpan(d.start, d.end, m.bones); d.ops[|d.ops| - 1] == Bake(span.0, span.1))
  {
    var setup := SetupSpec(states, m.action, m.bones, dupName, m.bones, line, false).value;
    var span := InflectedSpan(setup.start, setup.end, m.bones);
    var run := InflectFrames(setup.states, span.0, Span(span.0, span.1), anchors).value;
    var d := Driven(states, m, dupName, line, false, anchors).value;
    assert d.ops == setup.ops + (run.1 + [Bake(span.0, span.1)]);
  }

  /** A whole number read back from a real is itself. */
  lemma TruncWhole(n: int)
    ensures Trunc(n as real) == n
  {
  }

  /**
   * A gloss resampled to `n >= 2` frames, with inflection on, is driven over
   * the frames `1 .. n` of its new action, which its line records, and its
   * turn ends with the bake of exactly that span.
   */
  lemma GlossBakedOverResampledFrames(line: MmsLine, m: Motion, present: Exists, inflectors: seq<Attribute>, idx: nat,
                                      settings: Settings, ev: Evaluator, anchors: Anchors)
    requires !settings.ignoreGlossDuration && !settings.withoutInflection
    requires m.action.Some? && UniqueNames(m.bones) && HasChannels(m.action.value, m.bones) && |m.bones| > 0
    requires GlossSpec(line, m, present, inflectors, idx, settings, ev, anchors).Ok?
    requires TargetCount(ResampleWith(line, settings).value.value, FrameRange(m.action.value)) >= 2
    ensures var run := GlossSpec(line, m, present, inflectors, idx, settings, ev, anchors).value;
      var n := TargetCount(ResampleWith(line, settings).value.value, FrameRange(m.action.value));
      run.line.resampledFrameRange == Some((1.0, n as real)) &&
      run.control.start == 1 && run.control.end == n &&
      |run.control.ops| > 0 && run.control.ops[|run.control.ops| - 1] == Bake(1, n)
  {
    var timing := ResampleWith(line, settings).value.value;
    GlossResampledRun(line, m, present, inflectors, idx, settings, ev, anchors);
    ResampledToCount(line, m, timing, ev);
    var now := Resampled(line, m, timing, ev).value;
    ControlledBakes(now.0, now.1, inflectors, idx, InflectedPrefix + line.outputName, anchors);
    TruncWhole(1);
    TruncWhole(TargetCount(timing, FrameRange(m.action.value)));
  }

  /** A turn that resamples runs the controller on the resampled line and motion. */
  lemma GlossResampledRun(line: MmsLine, m: Motion, present: Exists, inflectors: seq<Attribute>, idx: nat,
                          settings: Settings, ev: Evaluator, anchors: Anchors)
    requires !settings.ignoreGlossDuration && GlossSpec(line, m, present, inflectors, idx, settings, ev, anchors).Ok?
    ensures ResampleWith(line, settings).Ok? && ResampleWith(line, settings).value.Some?
    ensures var now := Resampled(line, m, ResampleWith(line, settings).value.value, ev);
      var run := GlossSpec(line, m, present, inflectors, idx, settings, ev, anchors).value;
      now.Ok? && run.line == now.value.0 && run.motion == now.value.1 &&
      Controlled(now.value.0, now.value.1, inflectors, idx, InflectedPrefix + line.outputName, settings.withoutInflection, anchors) == Ok(run.control)
  {
  }

  /**
   * Resampling to `n >= 2` frames a motion whose bones all have channels
   * leaves an action over the frames `1 .. n`, which the line records.
   */
  lemma ResampledToCount(line: MmsLine, m: Motion, timing: ResampleTiming, ev: Evaluator)
    requires m.action.Some? && UniqueNames(m.bones) && HasChannels(m.action.value, m.bones) && |m.bones| > 0
    requires TargetCount(timing, FrameRange(m.action.value)) >= 2 && Resampled(line, m, timing, ev).Ok?
    ensures var now := Resampled(line, m, timing, ev).value;
      var n := TargetCount(timing, FrameRange(m.action.value));
      now.1.bones == m.bones && now.1.action.Some? && FrameRange(now.1.action.value) == (1.0, n as real) &&
      now.0.resampledFrameRange == Some((1.0, n as real)) && now.0.originalFrameRange == Some(FrameRange(m.action.value))
  {
    ResampledFrameRange(m.bones, m.action.value, timing, ev);
  }

  /**
   * One turn of the loop of `execute_pipeline` over the glosses, on the `k`-th
   * gloss: `loaded` is the armature its motion file holds. The line in the
   * table is the one the operator resamples, so it records the frame ranges.
   */
  method RunGloss(mms: Mms, k: nat, present: Exists, loaded: ArmatureObj, inflectors: seq<Attribute>,
                  settings: Settings, ev: Evaluator, anchors: Anchors, scene: Scene) returns (r: Result<()>)
    requires mms.Valid() && k < |mms.glosses|
    modifies mms, loaded, loaded.action, scene
    ensures mms.Valid()
    ensures var g := mms.glosses[k];
      var spec := GlossSpec(old(mms.lines[g]), old(MotionOf(loaded)), present, inflectors, g.idx, settings, ev, anchors);
      (spec.Err? ==> r == Err(spec.error)) &&
      (spec.Ok? ==> r == Ok(()) && mms.lines == old(mms.lines)[g := spec.value.line] &&
                    MotionOf(loaded) == spec.value.motion && scene.ops == old(scene.ops) + spec.value.control.ops)
    ensures !present(old(mms.lines[mms.glosses[k]]).path) ==> unchanged(mms, loaded, scene)
    ensures loaded.action == old(loaded.action) || fresh(loaded.action)
  {
    var g := mms.glosses[k];
    var line := mms.lines[g];
    if !present(line.path) {
      return Err(MissingFile(FileName(line.path)));
    }
    ghost var m := MotionOf(loaded);
    var loadedOp := Load(line, present, loaded);
    var op := loadedOp.value;
    assert MotionOf(loaded) == m;
    var dup := op.CopyArmature();
    var how := ResampleWith(line, settings);
    if how.Err? {
      return Err(how.error);
    }
    ghost var now := if how.value.None? then Ok((line, m)) else Resampled(line, m, how.value.value, ev);
    var res := ResampleGloss(op, how.value, ev);
    mms.lines := mms.lines[g := op.mmsLine];
    if res.Err? {
      return Err(res.error);
    }
    assert now.Ok? && mms.lines[g] == now.value.0 && MotionOf(loaded) == now.value.1;
    r := RunController(mms.lines[g], loaded, dup, inflectors, g.idx, settings.withoutInflection, anchors, scene);
    assert mms.lines[g] == now.value.0 && MotionOf(loaded) == now.value.1;
  }

  /**
   * `armature_operator.resample(...)` when the gloss's duration is not
   * ignored: the operator's line and its armature's motion become the
   * resampled ones.
   */
  method ResampleGloss(op: ArmatureOperator, how: Option<ResampleTiming>, ev: Evaluator) returns (r: Result<()>)
    modifies op, op.src, op.src.action
    ensures var now := if how.None? then Ok((old(op.mmsLine), old(MotionOf(op.src))))
                       else Resampled(old(op.mmsLine), old(MotionOf(op.src)), how.value, ev);
      (now.Err? ==> r == Err(now.error)) &&
      (now.Ok? ==> r == Ok(()) && op.mmsLine == now.value.0 && MotionOf(op.src) == now.value.1)
    ensures op.src.bones == old(op.src.bones) && op.src.name == old(op.src.name)
    ensures op.src.action == old(op.src.action) || fresh(op.src.action)
  {
    if how.Some? {
      r := op.Resample(how.value, ev);
    } else {
      r := Ok(());
    }
  }

  /**
   * The controller part of the turn, on the resampled line and the loaded
   * armature `src`, whose copy is `dup`: the controller inflects `dup` and
   * reads its anchors from `src`, the dictionary armature.
   */
  method RunController(line: MmsLine, src: ArmatureObj, dup: ArmatureObj, inflectors: seq<Attribute>, idx: nat,
                       without: bool, anchors: Anchors, scene: Scene) returns (r: Result<()>)
    requires dup.bones == src.bones
    modifies scene
    ensures var c := Controlled(line, MotionOf(src), inflectors, idx, dup.name, without, anchors);
      (c.Err? ==> r == Err(c.error)) && (c.Ok? ==> r == Ok(()) && scene.ops == old(scene.ops) + c.value.ops)
  {
    ghost var m := MotionOf(src);
    var ctrl := Controller.Create(inflectors, idx, dup.name, src.name, scene);
    assert MotionOf(src) == m;
    if ctrl.Err? {
      return Err(ctrl.error);
    }
    var c := ctrl.value;
    ghost var specs := TargetSpecs(inflectors).value;
    ghost var created := scene.ops;
    assert c.States() == Initials(specs, idx, dup.name, src.name);
    assert created == old(scene.ops) + CreationOpsAll(specs, idx);
    r := Drive(c, src, dup, line, without, anchors, scene);
    assert MotionOf(src) == m;
    ghost var d := Driven(Initials(specs, idx, dup.name, m.name), m, dup.name, line, without, anchors);
    if d.Ok? {
      AppendTwice(old(scene.ops), CreationOpsAll(specs, idx), d.value.ops);
    }
  }

  /** `setup_chain`, then `execute` unless inflection is off, on a controller whose targets are its own. */
  method Drive(c: Controller, src: ArmatureObj, dup: ArmatureObj, line: MmsLine, without: bool, anchors: Anchors, scene: Scene)
    returns (r: Result<()>)
    requires c.Valid() && dup.bones == src.bones
    modifies c.targets, scene
    ensures var d := Driven(old(c.States()), MotionOf(src), dup.name, line, without, anchors);
      (d.Err? ==> r == Err(d.error)) && (d.Ok? ==> r == Ok(()) && scene.ops == old(scene.ops) + d.value.ops)
  {
    ghost var m := MotionOf(src);
    ghost var spec := SetupSpec(c.States(), m.action, m.bones, dup.name, m.bones, line, without);
    var setup := c.SetupChain(src, dup, line, without, scene);
    assert MotionOf(src) == m;
    if setup.Err? {
      return Err(setup.error);
    }
    assert spec.Ok? && setup.value == (spec.value.start, spec.value.end) && c.States() == spec.value.states;
    var span := InflectedSpan(setup.value.0, setup.value.1, src.bones);
    r := ExecuteUnless(c, spec.value.states, span.0, span.1, without, anchors, scene);
    assert MotionOf(src) == m;
    ghost var e := Executed(spec.value.states, span, without, anchors);
    if e.Ok? {
      AppendTwice(old(scene.ops), spec.value.ops, e.value);
    }
  }

  /**
   * `if not without_inflection: controller.execute(...)`, on targets in the
   * states `states`, over the inflected action's truncated frame range `start .. end`.
   */
  method ExecuteUnless(c: Controller, ghost states: seq<TargetState>, start: int, end: int, without: bool, anchors: Anchors,
                       scene: Scene)
    returns (r: Result<()>)
    requires c.Valid() && c.States() == states
    modifies c.targets, scene
    ensures var e := Executed(states, (start, end), without, anchors);
      (e.Err? ==> r == Err(e.error)) && (e.Ok? ==> r == Ok(()) && scene.ops == old(scene.ops) + e.value)
  {
    if without {
      r := Ok(());
    } else {
      r := c.Execute(start, end, anchors, scene);
      ghost var run := InflectFrames(states, start, Span(start, end), anchors);
      if run.Ok? {
        assert r.value == ();
        AppendTwice(old(scene.ops), run.value.1, [Bake(start, end)]);
      }
    }
  }

  // ---------------------------------------------------------------- the gloss loop

  /** What the gloss loop has done so far: the table's lines, the motions of the glosses handled, the host operations. */
  datatype Progress = Progress(lines: map<GlossKey, MmsLine>, motions: seq<Motion>, ops: seq<Op>)

  /** One turn of the loop on the gloss `key`, whose armature carries `m`; `mms[key]` raises for a key without a line. */
  function Turn(present: Exists, inflectors: seq<Attribute>, settings: Settings, ev: Evaluator, anchors: Anchors,
                p: Progress, key: GlossKey, m: Motion): Result<Progress>
  {
    if key !in p.lines then Err(KeyError("gloss"))
    else
      var run :- GlossSpec(p.lines[key], m, present, inflectors, key.idx, settings, ev, anchors);
      Ok(Progress(p.lines[key := run.line], p.motions + [run.motion], p.ops + run.control.ops))
  }

  /** The turn as a step function over gloss and motion pairs. */
  function Step(present: Exists, inflectors: seq<Attribute>, settings: Settings, ev: Evaluator, anchors: Anchors)
    : (Progress, (GlossKey, Motion)) -> Result<Progress>
  {
    (p, gm: (GlossKey, Motion)) => Turn(present, inflectors, settings, ev, anchors, p, gm.0, gm.1)
  }

  /** Each gloss with the motion of its own armature. */
  function Pairs(glosses: seq<GlossKey>, motions: seq<Motion>): (r: seq<(GlossKey, Motion)>)
    requires |glosses| == |motions|
    ensures |r| == |glosses| && forall k :: 0 <= k < |r| ==> r[k] == (glosses[k], motions[k])
  {
    seq(|glosses|, k requires 0 <= k < |glosses| => (glosses[k], motions[k]))
  }

  /** The loop over the glosses, in table order, the first raising turn ending it. */
  function GlossLoop(glosses: seq<GlossKey>, lines: map<GlossKey, MmsLine>, motions: seq<Motion>, present: Exists,
                     inflectors: seq<Attribute>, settings: Settings, ev: Evaluator, anchors: Anchors): Result<Progress>
    requires |glosses| == |motions|
  {
    Thread(Pairs(glosses, motions), Progress(lines, [], []), Step(present, inflectors, settings, ev, anchors))
  }

  /**
   * A loop that gets through handles every gloss once: one motion per gloss,
   * and a line still for each key of the table and for no other.
   */
  lemma {:induction false} GlossLoopShape(pairs: seq<(GlossKey, Motion)>, lines: map<GlossKey, MmsLine>, present: Exists,
                                          inflectors: seq<Attribute>, settings: Settings, ev: Evaluator, anchors: Anchors)
    requires Thread(pairs, Progress(lines, [], []), Step(present, inflectors, settings, ev, anchors)).Ok?
    ensures var p := Thread(pairs, Progress(lines, [], []), Step(present, inflectors, settings, ev, anchors)).value;
      |p.motions| == |pairs| && p.lines.Keys == lines.Keys
  {
    if |pairs| > 0 {
      var step := Step(present, inflectors, settings, ev, anchors);
      var init := pairs[..|pairs| - 1];
      GlossLoopShape(init, lines, present, inflectors, settings, ev, anchors);
      var done := Thread(init, Progress(lines, [], []), step).value;
      assert step(done, pairs[|pairs| - 1]) == Turn(present, inflectors, settings, ev, anchors, done, pairs[|pairs| - 1].0, pairs[|pairs| - 1].1);
    }
  }

  /** A key copying a bone's forward pose. */
  predicate PoseCopy(op: Op) {
    op.Keyframe? && op.value == CopiedPose && op.owner.PoseBone?
  }

  /** With inflection off, a turn that gets through adds only pose copies to the trace. */
  lemma TurnCopiesOnly(p: Progress, key: GlossKey, m: Motion, present: Exists, settings: Settings, ev: Evaluator, anchors: Anchors)
    requires settings.withoutInflection && Turn(present, [], settings, ev, anchors, p, key, m).Ok?
    ensures var next := Turn(present, [], settings, ev, anchors, p, key, m).value;
      |p.ops| <= |next.ops| && next.ops[..|p.ops|] == p.ops && forall op <- next.ops[|p.ops|..] :: PoseCopy(op)
  {
    var line := p.lines[key];
    GlossWithoutInflection(line, m, present, key.idx, settings, ev, anchors);
    var run := GlossSpec(line, m, present, [], key.idx, settings, ev, anchors).value;
    assert (p.ops + run.control.ops)[|p.ops|..] == run.control.ops;
  }

  /**
   * With inflection off, the whole loop writes nothing but pose copies onto
   * the inflected armatures: no controller, constraint or bake.
   */
  lemma {:induction false} GlossLoopCopiesOnly(pairs: seq<(GlossKey, Motion)>, lines: map<GlossKey, MmsLine>, present: Exists,
                                               settings: Settings, ev: Evaluator, anchors: Anchors)
    requires settings.withoutInflection
    requires Thread(pairs, Progress(lines, [], []), Step(present, [], settings, ev, anchors)).Ok?
    ensures forall op <- Thread(pairs, Progress(lines, [], []), Step(present, [], settings, ev, anchors)).value.ops :: PoseCopy(op)
  {
    if |pairs| > 0 {
      var step := Step(present, [], settings, ev, anchors);
      var init := pairs[..|pairs| - 1];
      var last := pairs[|pairs| - 1];
      GlossLoopCopiesOnly(init, lines, present, settings, ev, anchors);
      var done := Thread(init, Progress(lines, [], []), step).value;
      assert step(done, last) == Turn(present, [], settings, ev, anchors, done, last.0, last.1);
      TurnCopiesOnly(done, last.0, last.1, present, settings, ev, anchors);
      var ops := Turn(present, [], settings, ev, anchors, done, last.0, last.1).value.ops;
      assert ops == ops[..|done.ops|] + ops[|done.ops|..];
    }
  }

  /** The motions of a sequence of armatures. */
  function Motions(arms: seq<ArmatureObj>): (r: seq<Motion>)
    reads arms, set a <- arms :: a.action
    ensures |r| == |arms| && forall k :: 0 <= k < |arms| ==> r[k] == MotionOf(arms[k])
  {
    seq(|arms|, k requires 0 <= k < |arms| reads arms, set a <- arms :: a.action => MotionOf(arms[k]))
  }

  /**
   * `for gloss in mms.glosses: ...`: `loaded[k]` is the armature the `k`-th
   * gloss's motion file brings in, each one an object of its own with an
   * action of its own.
   */
  method RunGlosses(mms: Mms, present: Exists, loaded: seq<ArmatureObj>, inflectors: seq<Attribute>,
                    settings: Settings, ev: Evaluator, anchors: Anchors, scene: Scene) returns (r: Result<()>)
    requires mms.Valid() && |loaded| == |mms.glosses|
    requires Separate(loaded)
    modifies mms, scene, set a <- loaded, set a <- loaded :: a.action
    ensures mms.Valid()
    ensures var spec := GlossLoop(mms.glosses, old(mms.lines), old(Motions(loaded)), present, inflectors, settings, ev, anchors);
      (spec.Err? ==> r == Err(spec.error)) &&
      (spec.Ok? ==> r == Ok(()) && mms.lines == spec.value.lines && Motions(loaded) == spec.value.motions &&
                    scene.ops == old(scene.ops) + spec.value.ops)
  {
    ghost var motions0 := Motions(loaded);
    ghost var pairs := Pairs(mms.glosses, motions0);
    ghost var step := Step(present, inflectors, settings, ev, anchors);
    ghost var p := Progress(mms.lines, [], []);
    assert pairs[..0] == [];
    r := Ok(());
    for i := 0 to |loaded|
      invariant mms.Valid() && r == Ok(())
      invariant Thread(pairs[..i], Progress(old(mms.lines), [], []), step) == Ok(p)
      invariant mms.lines == p.lines && |p.motions| == i && scene.ops == old(scene.ops) + p.ops
      invariant Separate(loaded)
      invariant forall k :: 0 <= k < i ==> MotionOf(loaded[k]) == p.motions[k]
      invariant forall j :: i <= j < |loaded| ==> loaded[j].action == old(loaded[j].action) && MotionOf(loaded[j]) == motions0[j]
    {
      ThreadNext(pairs, Progress(old(mms.lines), [], []), step, i, p);
      ghost var g := mms.glosses[i];
      ghost var run := GlossSpec(p.lines[g], motions0[i], present, inflectors, g.idx, settings, ev, anchors);
      assert step(p, pairs[i]) == Turn(present, inflectors, settings, ev, anchors, p, g, motions0[i]);
      r := NextGloss(mms, i, present, loaded, inflectors, settings, ev, anchors, scene);
      if r.Err? {
        return;
      }
      AppendTwice(old(scene.ops), p.ops, run.value.control.ops);
      p := Progress(p.lines[g := run.value.line], p.motions + [run.value.motion], p.ops + run.value.control.ops);
    }
    assert pairs[..|loaded|] == pairs;
  }

  /** Distinct armatures, none sharing its action with another. */
  ghost predicate Separate(arms: seq<ArmatureObj>)
    reads set a <- arms
  {
    forall i, j :: 0 <= i < j < |arms| ==> arms[i] != arms[j] && (arms[i].action != null ==> arms[i].action != arms[j].action)
  }

  /** The `i`-th turn of `RunGlosses`: the gloss's own armature changes, and no other. */
  method NextGloss(mms: Mms, i: nat, present: Exists, loaded: seq<ArmatureObj>, inflectors: seq<Attribute>,
                   settings: Settings, ev: Evaluator, anchors: Anchors, scene: Scene) returns (r: Result<()>)
    requires mms.Valid() && i < |loaded| == |mms.glosses| && Separate(loaded)
    modifies mms, scene, loaded[i], loaded[i].action
    ensures mms.Valid() && Separate(loaded)
    ensures var g := mms.glosses[i];
      var spec := GlossSpec(old(mms.lines[g]), old(MotionOf(loaded[i])), present, inflectors, g.idx, settings, ev, anchors);
      (spec.Err? ==> r == Err(spec.error)) &&
      (spec.Ok? ==> r == Ok(()) && mms.lines == old(mms.lines)[g := spec.value.line] &&
                    MotionOf(loaded[i]) == spec.value.motion && scene.ops == old(scene.ops) + spec.value.control.ops)
    ensures forall j :: 0 <= j < |loaded| && j != i ==>
      loaded[j].action == old(loaded[j].action) && MotionOf(loaded[j]) == old(MotionOf(loaded[j]))
  {
    r := RunGloss(mms, i, present, loaded[i], inflectors, settings, ev, anchors, scene);
  }

  // ---------------------------------------------------------------- the pipeline

  /** Where `execute_pipeline` looks for the inflector configuration. */
  const ConfigPath := "assets/controller_config.json"

  /** How `execute_pipeline` ends: the stored sentence rendered, or every gloss handed to its controller. */
  datatype Outcome = Rendered(sentenceId: string) | Inflected

  /**
   * `execute_pipeline` up to the merge: the motion files resolved; then
   * either the stored sentence rendered, or the configuration read, the
   * inflector list built and the gloss loop run. `config` is the parsed
   * configuration file, if there is one.
   */
  function PipelineRun(glosses: seq<GlossKey>, lines: map<GlossKey, MmsLine>, root: Path, availability: Availability,
                       stem: string, render: bool, present: Exists, config: Option<Json>, motions: seq<Motion>,
                       settings: Settings, ev: Evaluator, anchors: Anchors): (r: Result<(Outcome, Progress)>)
    requires Keyed(glosses, lines) && |glosses| == |motions|
    ensures r.Ok? ==> ResolveError(glosses, lines, root, present, 0).None? && (r.value.0.Rendered? <==> render)
    ensures r.Ok? && !render ==> config.Some?
    ensures config.Some? ==>
      var list := Inflectors(Wrap(config.value), availability, settings.withoutInflection);
      (r.Ok? && !render ==> list.Ok? && forall e <- list.value :: HasDict(e)) &&
      (ResolveError(glosses, lines, root, present, 0).None? && !render && list.Ok? && (exists e <- list.value :: !HasDict(e)) ==>
         r == Err(AttributeError("dict")))
  {
    var missing := ResolveError(glosses, lines, root, present, 0);
    if missing.Some? then Err(missing.value)
    else
      var resolved := ResolvedLines(glosses, lines, root, |glosses|);
      if render then Ok((Rendered(SentenceId(stem)), Progress(resolved, [], [])))
      else if config.None? then Err(MissingFile(ConfigPath))
      else
        var done :- Inflecting(glosses, resolved, availability, present, config.value, motions, settings, ev, anchors);
        Ok((Inflected, done))
  }

  /**
   * The inflector list built from the configuration `config` and logged, then
   * the gloss loop run with it. The log reads every entry's `dict` before any
   * gloss is handled, so an entry that is not a configuration object fails
   * the run whatever the glosses are.
   */
  function Inflecting(glosses: seq<GlossKey>, lines: map<GlossKey, MmsLine>, availability: Availability, present: Exists,
                      config: Json, motions: seq<Motion>, settings: Settings, ev: Evaluator, anchors: Anchors): (r: Result<Progress>)
    requires |glosses| == |motions|
    ensures var list := Inflectors(Wrap(config), availability, settings.withoutInflection);
      r.Ok? ==> list.Ok? && forall e <- list.value :: HasDict(e)
    ensures var list := Inflectors(Wrap(config), availability, settings.withoutInflection);
      list.Ok? && (exists e <- list.value :: !HasDict(e)) ==> r == Err(AttributeError("dict"))
  {
    var inflectors :- Inflectors(Wrap(config), availability, settings.withoutInflection);
    var logged :- LoggedConfigs(inflectors);
    GlossLoop(glosses, lines, motions, present, inflectors, settings, ev, anchors)
  }

  /** With only the torso columns present, the torso entry alone is asked for. */
  lemma TorsoOnlyRequested()
    ensures Requested(Availability(false, false, false, false, true, false, false)) == [TorsoInflector]
  {
    var a := Availability(false, false, false, false, true, false, false);
    RequestedStep(a, 0);
    RequestedStep(a, 1);
    RequestedStep(a, 2);
    RequestedStep(a, 3);
    RequestedStep(a, 4);
    RequestedStep(a, 5);
    RequestedStep(a, 6);
    RequestedStep(a, 7);
  }

  /** `ik_config.torso` on `{"torso": "x"}` is the plain string, not a configuration object. */
  lemma PlainTorsoRead()
    ensures Lookup(Wrap(JObject([("torso", JStr("x"))])), TorsoInflector) == Ok(Value(Plain(JStr("x"))))
  {
    assert !IsKeyword("torso");
    assert !IsDictMethod("torso");
    AttrOfWrapped([("torso", JStr("x"))], 0);
  }

  /** With only the torso columns present, the list is the torso entry as it is read: `"torso": "x"` gives the plain `"x"`. */
  lemma TorsoOnlyInflectors()
    ensures Inflectors(Wrap(JObject([("torso", JStr("x"))])), Availability(false, false, false, false, true, false, false), false) ==
      Ok([Value(Plain(JStr("x")))])
  {
    var a := Availability(false, false, false, false, true, false, false);
    var config := Wrap(JObject([("torso", JStr("x"))]));
    TorsoOnlyRequested();
    PlainTorsoRead();
    var none: seq<Inflector> := [];
    assert MapAll(none, Finder(config)) == Ok([]);
    assert Finder(config)(TorsoInflector) == Ok(Value(Plain(JStr("x"))));
    MapAllSnoc(none, TorsoInflector, Finder(config));
    assert none + [TorsoInflector] == [TorsoInflector];
    assert MapAll(none, Finder(config)).value + [Value(Plain(JStr("x")))] == [Value(Plain(JStr("x")))];
    assert MapAll([TorsoInflector], Finder(config)) == Ok([Value(Plain(JStr("x")))]);
  }

  /**
   * With inflection on, a requested entry that is not a configuration object
   * fails the run on its `dict` read, before the gloss loop: here `"torso": "x"`
   * with only the torso columns present and a table without glosses.
   */
  lemma PlainTorsoEntryFails(root: Path, stem: string, present: Exists, settings: Settings, ev: Evaluator, anchors: Anchors)
    requires !settings.withoutInflection
    ensures PipelineRun([], map[], root, Availability(false, false, false, false, true, false, false), stem, false, present,
                        Some(JObject([("torso", JStr("x"))])), [], settings, ev, anchors) == Err(AttributeError("dict"))
  {
    TorsoOnlyInflectors();
    var entry := Value(Plain(JStr("x")));
    assert !HasDict(entry) && entry in [entry];
    assert ResolveError([], map[], root, present, 0).None?;
  }

  /**
   * A run that gets through either renders the stored sentence `Satz<id>`
   * without any host operation, or logs only configuration objects and
   * handles every gloss; with inflection off, it then writes nothing but
   * pose copies.
   */
  lemma PipelineOutcome(glosses: seq<GlossKey>, lines: map<GlossKey, MmsLine>, root: Path, availability: Availability,
                        stem: string, render: bool, present: Exists, config: Option<Json>, motions: seq<Motion>,
                        settings: Settings, ev: Evaluator, anchors: Anchors)
    requires Keyed(glosses, lines) && |glosses| == |motions|
    requires PipelineRun(glosses, lines, root, availability, stem, render, present, config, motions, settings, ev, anchors).Ok?
    ensures var r := PipelineRun(glosses, lines, root, availability, stem, render, present, config, motions, settings, ev, anchors).value;
      (render ==> r.0 == Rendered(SentenceId(stem)) && r.1.ops == []) &&
      (!render ==> r.0 == Inflected && config.Some? && |r.1.motions| == |glosses|) &&
      (!render ==> forall e <- Inflectors(Wrap(config.value), availability, settings.withoutInflection).value :: HasDict(e)) &&
      (!render && settings.withoutInflection ==> forall op <- r.1.ops :: PoseCopy(op))
  {
    if !render {
      var resolved := ResolvedLines(glosses, lines, root, |glosses|);
      InflectorsRead(Wrap(config.value), availability, settings.withoutInflection);
      var inflectors := Inflectors(Wrap(config.value), availability, settings.withoutInflection).value;
      var pairs := Pairs(glosses, motions);
      GlossLoopShape(pairs, resolved, present, inflectors, settings, ev, anchors);
      if settings.withoutInflection {
        GlossLoopCopiesOnly(pairs, resolved, present, settings, ev, anchors);
      }
    }
  }

  /**
   * `execute_pipeline(arguments)` on the parsed table `mms` of the file whose
   * stem is `stem`; `loaded[k]` is the armature the `k`-th gloss's file brings in.
   */
  method ExecutePipeline(mms: Mms, stem: string, render: bool, present: Exists, config: Option<Json>,
                         loaded: seq<ArmatureObj>, settings: Settings, ev: Evaluator, anchors: Anchors, scene: Scene)
    returns (r: Result<Outcome>)
    requires mms.Valid() && |loaded| == |mms.glosses| && Separate(loaded)
    modifies mms, scene, set a <- loaded, set a <- loaded :: a.action
    ensures mms.Valid()
    ensures var spec := PipelineRun(mms.glosses, old(mms.lines), mms.generatedRoot, mms.availability, stem, render,
                                    present, config, old(Motions(loaded)), settings, ev, anchors);
      (spec.Err? ==> r == Err(spec.error)) &&
      (spec.Ok? ==> r == Ok(spec.value.0) && mms.lines == spec.value.1.lines &&
                    (spec.value.0.Inflected? ==> Motions(loaded) == spec.value.1.motions) &&
                    scene.ops == old(scene.ops) + spec.value.1.ops)
  {
    ghost var motions := Motions(loaded);
    var found := mms.FindMocapDataFiles(present);
    assert Motions(loaded) == motions;
    if found.Err? {
      return Err(found.error);
    }
    if render {
      return Ok(Rendered(SentenceId(stem)));
    }
    if config.None? {
      return Err(MissingFile(ConfigPath));
    }
    var done := InflectGlosses(mms, present, config.value, loaded, settings, ev, anchors, scene);
    if done.Err? {
      return Err(done.error);
    }
    r := Ok(Inflected);
  }

  /** The inflector list read from the configuration `config`, then every gloss handed to its controller. */
  method InflectGlosses(mms: Mms, present: Exists, config: Json, loaded: seq<ArmatureObj>, settings: Settings,
                        ev: Evaluator, anchors: Anchors, scene: Scene) returns (r: Result<()>)
    requires mms.Valid() && |loaded| == |mms.glosses| && Separate(loaded)
    modifies mms, scene, set a <- loaded, set a <- loaded :: a.action
    ensures mms.Valid()
    ensures var spec := Inflecting(mms.glosses, old(mms.lines), mms.availability, present, config, old(Motions(loaded)),
                                   settings, ev, anchors);
      (spec.Err? ==> r == Err(spec.error)) &&
      (spec.Ok? ==> r == Ok(()) && mms.lines == spec.value.lines && Motions(loaded) == spec.value.motions &&
                    scene.ops == old(scene.ops) + spec.value.ops)
  {
    var inflectors := BuildInflectorList(Wrap(config), mms.availability, settings.withoutInflection);
    if inflectors.Err? {
      return Err(inflectors.error);
    }
    var logged := LogConfigs(inflectors.value);
    if logged.Err? {
      return Err(logged.error);
    }
    r := RunGlosses(mms, present, loaded, inflectors.value, settings, ev, anchors, scene);
  }
}
