# MMS Player core, modelled in Dafny

The MMS Player animates sign-language sentences. A timing table (the MMS)
lists one gloss per row, with its start and end time, its transition and
duration, and optional inflection columns (hand relocation and rotation,
torso, head, shoulders). For each gloss the player:

- loads the gloss's motion-capture animation;
- resamples it to the duration the table asks for;
- copies it onto a duplicate armature;
- bakes its pose into IK controllers;
- applies the inflection deltas read from the table, frame by frame;
- bakes the result.

The glue stage then merges the inflected glosses into one final action. In
its two modes, a gloss is placed either at its absolute table time or after
the previous gloss's end. Around this sit:

- data extraction for training;
- a rewrite of BVH `OFFSET 0 0 0` lines;
- a JSON exporter of bone quaternions.

This project models that bookkeeping against an abstract animation host:

- **Actions.** An action is a sequence of channels addressed by
  `(data path, index)`. Each channel holds `(frame, value)` keys
  (`Host.Action`).
- **Curve evaluation** is an uninterpreted function (`Host.Evaluator`).
- **Matrices and quaternions** are opaque terms.
- **Host effects** of the controller and target code are recorded as a log of
  host operations (`Targets.Scene.ops`): controller creation, keyframe
  inserts, IK constraints and bakes. Each keyframe carries the symbolic term
  of the value it stores.
- **Objects the source updates in place** are classes with those fields: the
  gloss table (`MmsParser.Mms`), the merge buffer (`Merge.Glue`), the
  resampler (`ArmatureUtils.ArmatureOperator`), inflection targets
  (`Targets.Target`) and the controller (`Controllers.Controller`). Each
  method is proved equal to a specification function. Lemmas about those
  functions state what the source promises.

Modules, one per source file, plus four shared ones:

- `MmsParser`: `player/mms_parser.py`
- `Merge`: `player/merge.py`
- `ArmatureUtils`: `player/ArmatureUtils.py`
- `Extract`: `player/extract.py`
- `Targets`: `player/targets.py`
- `Controllers`: `player/controllers.py`
- `Pipeline`: `main.py`
- `BpyUtils`: `player/bpy_utils.py`
- `JsonExporter`: `exporter/json_exporter.py`

The shared modules are:

- `Wrappers`: `Option`, `Result`, the Python exceptions, and folds with early exit.
- `Text`: string helpers and a decimal `float()` parser.
- `Frames`: `int`, `ceil` and `floor` on reals.
- `Host`: channels, actions, key plans and host objects.

Where the code and its documentation disagree, the model follows the code:

- **Missing inflection columns.** The documentation describes missing
  inflection columns as leaving the identity delta in place. In the code,
  `init_from_mms` stores the accessor's `None`.
  - A trajectory target fails at once on `rotation @ scale`.
  - Otherwise, a trajectory, relative or head target fails its `@` in
    `inflect`.
  - `LocalRotationTarget` is the only target that checks for `None`.

  This is `Targets.TrajectoryNeedsRotationAndScale` and `Targets.InflectFails`.
- **`extract_source`.** It calls `extract_target` with four arguments where
  five are needed, so it always raises `TypeError` after writing the sampled
  keys (`player/extract.py:208`). `Extract.ExtractSource` models the call as
  written.
- **The merge check.** `combine_animation` returns `int(action_end) + start`,
  one past the last frame it writes, and `merge_animation`'s ±1 check
  compares the planned end with that value. `Merge.CombineStep`,
  `Merge.MergeStep` and `Merge.Glue.MergeAnimation` do the same, so the check
  can fail in ratio mode (see Findings). The end the check is evidently meant
  to compare with is `Merge.CombineStepCorrected`, and
  `Merge.CheckPassesCorrected` proves the check passes against it.

## Model

| member | source | states |
|---|---|---|
| `MmsParser.FindDatatype` | player/mms_parser.py:60-70 | a name without `:` is a sign of that name; otherwise neither result part contains `:` |
| `MmsParser.FindDatatypeColon` | player/mms_parser.py:67-70 | with a `:`, the name is the text between the first and the second `:` and the category the text before the first |
| `MmsParser.FindDatatypeRoundTrip` | player/mms_parser.py:67-70 | `category:name` with colon-free parts parses back to `(name, category)` |
| `MmsParser.NewLine` | player/mms_parser.py:41-49 | a row line exists exactly when the first cell is text; it keeps the cells and the column index, takes name and category from the first cell, is named `<idx>_<name>`, has the placeholder path and no frame ranges |
| `MmsParser.Get` | player/mms_parser.py:51-52 | a column lookup raises `KeyError` for an unknown column and `IndexError` for a short row, else returns that column's cell |
| `MmsParser.FloatOf` | player/mms_parser.py:82-83 | an empty cell raises `TypeError`; a number is itself; text goes through the decimal parser |
| `MmsParser.HandleNone` | player/mms_parser.py:72-83 | all three of `key`x/y/z are read (a missing column raises); the result is absent exactly when one of them is empty, else the three parsed numbers |
| `MmsParser.TrajRotation` | player/mms_parser.py:85-94 | fails or is absent exactly when `handreloca` x/y/z do; otherwise the ZXY Euler rotation of those values |
| `MmsParser.HandOrientation` | player/mms_parser.py:96-105 | fails or is absent exactly when `handrot` x/y/z do; otherwise their ZXY quaternion |
| `MmsParser.HandTranslation` | player/mms_parser.py:107-116 | fails or is absent exactly when `handreloc` x/y/z do; otherwise their translation |
| `MmsParser.HandScale` | player/mms_parser.py:118-131 | fails or is absent exactly when `handrelocs` x/y/z do; otherwise the diagonal scale |
| `MmsParser.HeadRot` | player/mms_parser.py:141-146 | fails or is absent exactly when `headrot` x/y/z do; otherwise their quaternion |
| `MmsParser.ShoulderShift` | player/mms_parser.py:148-157 | fails or is absent exactly when `shoulderreloc` x/y/z do; otherwise their translation |
| `MmsParser.TorsoShift` | player/mms_parser.py:159-164 | fails or is absent exactly when `torsoreloc` x/y/z do; otherwise their translation |
| `MmsParser.TorsoRot` | player/mms_parser.py:166-171 | fails or is absent exactly when `torsoreloca` x/y/z do; otherwise their quaternion |
| `MmsParser.Timing` | player/mms_parser.py:133-139 | succeeds exactly when both times read; start is the least whole frame at or after start·60, end the greatest at or before end·60 |
| `MmsParser.TimingOrdered` | player/mms_parser.py:133-139 | when the end time is at least one frame after the start time, the start frame does not exceed the end frame |
| `MmsParser.TimingInversion` | player/mms_parser.py:135-139 | start 1.61 s and end 1.616 s give the inverted frames (97, 96) |
| `MmsParser.Transition` | player/mms_parser.py:173-176 | the least whole frame count at or after transition·60, failing exactly when the cell does not read |
| `MmsParser.GetDuration` | player/mms_parser.py:178-191 | a cell with `%` is a ratio whose hundredfold is the stripped number; otherwise the least whole frame count at or after duration·60; a non-text cell raises `TypeError` |
| `MmsParser.DurationPercent` | player/mms_parser.py:187-190 | `N%` is the ratio N/100 |
| `MmsParser.ColumnIndex` | player/mms_parser.py:269-271 | every header column is indexed, at a position holding that name, and a repeated name takes its last position |
| `MmsParser.ColumnIndexInjective` | player/mms_parser.py:269-271 | distinct column names have distinct indices |
| `MmsParser.AvailabilityOf` | player/mms_parser.py:274-282 | each flag holds exactly when its `…x` column is in the header; torso needs both `torsorelocax` and `torsorelocx` |
| `MmsParser.ToCells` | player/mms_parser.py:290 | same length; empty strings become empty cells and every other cell keeps its text |
| `MmsParser.CompoundCells` | player/mms_parser.py:300-312 | one cell row per compound part |
| `MmsParser.PartEntries` | player/mms_parser.py:314-316 | the parts become consecutive entries numbered from the running index |
| `MmsParser.RowEntries` | player/mms_parser.py:287-321 | a parsed row gives at least one entry, numbered consecutively from the running index |
| `MmsParser.RowParser` | player/mms_parser.py:287-321 | the row parser numbers each row's entries consecutively from the running index it is given |
| `MmsParser.RowsWithNumbered` | player/mms_parser.py:284-321 | rows parsed in turn, each from the index after the entries before it, are numbered consecutively when every row is |
| `MmsParser.RowsEntries` | player/mms_parser.py:284-321 | the entries of all rows are numbered consecutively from the start index |
| `MmsParser.CompoundParts` | player/mms_parser.py:293-317 | part i starts at start+i·delta and ends at start+(i+1)·delta−0.3·delta; every part but the last has transition 0.3·delta and the last keeps the row's; keys run idx..idx+N−1 |
| `MmsParser.PartCellsValues` | player/mms_parser.py:300-312 | the three rewritten cells of part i, the last part keeping the original transition |
| `MmsParser.CompoundPartsTile` | player/mms_parser.py:303-307 | each part's end plus its transition is the next part's start, and the last reaches the row's end |
| `MmsParser.StartFrames` | player/mms_parser.py:325 | every entry's timing reads, and each entry is keyed by its start frame |
| `MmsParser.Insert` | player/mms_parser.py:325 | insertion adds exactly the new element |
| `MmsParser.SortByStart` | player/mms_parser.py:325 | the sort is a permutation of the keyed entries |
| `MmsParser.SortSorted` | player/mms_parser.py:325 | the sorted entries are in non-decreasing start frame |
| `MmsParser.SortStable` | player/mms_parser.py:325 | entries with the same start frame keep their table order |
| `MmsParser.SortDistinct` | player/mms_parser.py:325 | sorting keeps the positions distinct |
| `MmsParser.Unkeyed` | player/mms_parser.py:325 | the sorted entries without their sort keys, in order |
| `MmsParser.ParsedOrder` | player/mms_parser.py:256-327 | a parsed table is ordered by start frame and stable on ties; its keys are distinct, and its positions are exactly 0..n−1 |
| `MmsParser.SortedTimeline` | player/mms_parser.py:323-325 | the sorted entries all have a timing, in non-decreasing start frame, ties in table order |
| `MmsParser.SortedPositions` | player/mms_parser.py:284-325 | the sorted entries have distinct keys whose positions are exactly 0..n−1 |
| `MmsParser.Parse` | player/mms_parser.py:256-327 | the parse loop computes `ParseTable`: an empty file raises on `data[0]`, otherwise the header is indexed, the rows collected and sorted, and the availability read |
| `MmsParser.ParseTable` | player/mms_parser.py:256-327 | an empty file raises `IndexError` on `data[0]`; every entry of a parsed table has a readable timing, since the sort reads each entry's start |
| `MmsParser.SortedTimed` | player/mms_parser.py:325 | sorting keeps every entry, so every sorted entry still has its readable timing |
| `MmsParser.NumberColumns` | player/mms_parser.py:269-271 | the header loop builds exactly the column index |
| `MmsParser.CollectEntries` | player/mms_parser.py:284-321 | the row loop, with its running index, collects the entries of all rows after the header, or the first row's error; the row parser is a parameter, which `Parse` fills in with `RowParser` |
| `MmsParser.Positions` | player/mms_parser.py:286-321 | the positions of the entries, in order |
| `MmsParser.Mms.constructor` | player/mms_parser.py:203-211 | the gloss list is the table's keys in table order; each key maps to its line; root and availability are kept |
| `MmsParser.Mms.Get` | player/mms_parser.py:213-217 | a lookup returns the key's line and raises `KeyError` for an unknown key |
| `MmsParser.Mms.FindMocapDataFiles` | player/mms_parser.py:222-247 | fails with the first gloss's error in table order, else every line gets its resolved path |
| `MmsParser.Mms.ResolveOne` | player/mms_parser.py:228-247 | one loop turn: the gloss's error, or its line set to its resolved path |
| `MmsParser.Closing` | player/mms_parser.py:227 | the first `>` with no `>` or newline before it |
| `MmsParser.FirstBracketed` | player/mms_parser.py:227-231 | a match `<…>` contains no `>` or newline |
| `MmsParser.HoldMarker` | player/mms_parser.py:227-231 | a name whose first `<…>` is `<HOLD>` is a hold |
| `MmsParser.GlossPath` | player/mms_parser.py:236-242 | the path is `root/category/trimmed/name.blend` |
| `MmsParser.ResolvedPathIsLastNonHold` | player/mms_parser.py:231-247 | a gloss's path is that of the last non-hold gloss at or before it, with only holds after that gloss |
| `MmsParser.ResolvedLineAt` | player/mms_parser.py:231-247 | a non-hold gets its own file's path; a hold gets the carried path and category `HOLD` |
| `MmsParser.ResolvedEntries` | player/mms_parser.py:228-247 | after a clean pass, every non-hold has its own existing file; every later hold has category `HOLD` and the previous gloss's path; the first gloss is no hold |
| `MmsParser.ResolvedLines` | player/mms_parser.py:228-247 | the lines after the first k loop turns, still one line per gloss |
| `MmsParser.ResolvedEntryAt` | player/mms_parser.py:228-247 | after a clean pass, each gloss holds the line its own turn wrote, and a non-hold's file exists |
| `MmsParser.ResolvedHoldAt` | player/mms_parser.py:231-234 | after a clean pass, a later hold has category `HOLD` and the path of the gloss before it |
| `MmsParser.ResolveError` | player/mms_parser.py:228-247 | a pass that raises does so at a gloss position, either for a missing motion file or for the unbound `gloss_path` of a hold before any non-hold |
| `MmsParser.ResolveErrorSkip` | player/mms_parser.py:228-247 | a turn that raises ends the pass with its error; a turn that does not hands on to the next gloss |
| `MmsParser.ResolveErrorAt` | player/mms_parser.py:228-245 | when the first k turns succeed and turn k raises, the pass raises that error |
| `MmsParser.UnboundNeverAfterNonHold` | player/mms_parser.py:231-233 | when the first gloss is no hold, no turn raises `UnboundLocalError` (also line 247) |
| `MmsParser.UnboundOnlyFirst` | player/mms_parser.py:228-247 | the pass raises `UnboundLocalError` on `gloss_path` exactly when the first gloss is a hold |
| `MmsParser.ResolveErrorNoneBefore` | player/mms_parser.py:228-247 | after a clean pass, no gloss's turn raised |
| `Merge.Shifted` | player/merge.py:167-174 | each source key moves to frame f+start−1 with its value |
| `Merge.CombinePlan` | player/merge.py:162-175 | one shifted write per source channel, at the same address |
| `Merge.HoldPlan` | player/merge.py:121-138 | one hold write per source channel |
| `Merge.CombineKeys` | player/merge.py:162-175 | a target channel with a matching source channel gains all its keys shifted to f+start−1 with the same values; other channels are unchanged |
| `Merge.CombineOk` | player/merge.py:162-165 | combining fails exactly when some source channel has no target channel |
| `Merge.HoldKeys` | player/merge.py:121-138 | a matched target channel gains exactly two keys, at start and end, both with the source channel's last value; others are unchanged |
| `Merge.HoldOk` | player/merge.py:121-127 | holding fails exactly when a source channel is empty or unmatched |
| `Merge.CombineEndIsLastWritten` | player/merge.py:177-181 | the corrected end is the frame of the last key written; the returned `int(end)+start` is one more |
| `Merge.ShareCheckOn` | player/merge.py:234 | for a share x of the range, the ±1 check passes against the returned end exactly when x is whole (also line 266) |
| `Merge.ShareNonnegative` | player/merge.py:230-232 | a share of an ordered range is not negative |
| `Merge.ShareCount` | player/ArmatureUtils.py:98-104 | the resampled count for a ratio is ceil(share+1) |
| `Merge.ShareCheckAsWritten` | player/merge.py:223-234 | in ratio mode, the ±1 check against the end as returned passes exactly when the share is whole (also line 266) |
| `Merge.ShareCheckFails` | player/merge.py:223-234 | with ratio 0.5 over frames 1..30, the planned end start+14.5 and the returned end start+16 fail the check (also line 266) |
| `Merge.CheckPassesCorrected` | player/merge.py:266 | against the last written frame, the ±1 check passes in absolute, frame-count and ratio mode |
| `Merge.AbsoluteAsWrittenAtEdge` | player/merge.py:235-239 | in absolute mode the end as returned is the planned end plus one, the edge of the tolerance (also line 266) |
| `Merge.PyIndex` | player/merge.py:245-246 | a Python list index: in range for −n..n−1, negative ones counting from the end |
| `Merge.HoldSourceIndex` | player/merge.py:245-246 | a hold reads the gloss at list position `idx−1`; position 0 wraps to the last gloss; a position past the list raises `IndexError` |
| `Merge.GlossWindow` | player/merge.py:223-239 | relative mode: the start is the last end plus the transition, the end adds the frame count, or the ratio (which must lie in [0,1]) times the original span; absolute mode: the table frames plus one |
| `Merge.CombineStep` | player/merge.py:142-181 | an unknown source raises `KeyError`; otherwise the target with every source channel's keys shifted in, and `int(action_end) + start` as written, or the combine's error |
| `Merge.CombineStepCorrected` | player/merge.py:177 | the same copy and the same errors, reporting one frame less: the last frame written, `int(action_end) + start - 1` |
| `Merge.HoldFrom` | player/merge.py:243-253 | a successful hold read a valid list position `idx−1` and reports the planned end |
| `Merge.MergeStep` | player/merge.py:216-266 | a gloss missing from the table raises `KeyError`; a turn that fails had its file present (a missing file is skipped, never an error) |
| `Merge.MergeStepCombineCheck` | player/merge.py:255-266 | for a present non-hold gloss whose copy lands, the turn succeeds exactly when the planned end is within one frame of `int(action_end) + start`, fails with the check's error otherwise, and on success keeps the copied keys and the planned end |
| `Merge.MergeFold` | player/merge.py:214-266 | a merge that succeeds found every gloss in the table |
| `Merge.HoldStep` | player/merge.py:109-140 | an unknown source raises `KeyError`; a successful hold writes the hold plan and returns `end` |
| `Merge.MergeSkips` | player/merge.py:219-221 | a gloss without a file leaves the buffer and the last end unchanged |
| `Merge.MergeStepEnd` | player/merge.py:262 | a merged gloss's window reads, and the last end becomes its end |
| `Merge.MergeFoldErr` | player/merge.py:214-266 | the first failing gloss ends the merge with its error |
| `Merge.Glue.constructor` | player/merge.py:47-69 | keeps the table, the sentence action's name and the scene's actions, and establishes the object invariant: that action exists under its name, is not an inflected gloss's, and no two names share an action (also line 106) |
| `Merge.Glue.CombineAnimation` | player/merge.py:142-181 | the final action becomes the combined one and `int(action_end) + start` is returned, as `CombineStep`, or the step's error |
| `Merge.Glue.CopyChannel` | player/merge.py:162-175 | one source channel's keys written, as the plan's next write |
| `Merge.Glue.PerformHold` | player/merge.py:109-140 | the final action becomes the held one and `end` is returned, or the step's error |
| `Merge.Glue.HoldChannel` | player/merge.py:121-138 | one source channel's two hold keys written, as the plan's next write |
| `Merge.Glue.MergeAnimation` | player/merge.py:208-266 | the final action is the merge fold over all glosses, each checked against the end as `combine_animation` returns it, or its first error |
| `Merge.Glue.MergeGloss` | player/merge.py:216-266 | one loop turn as `MergeStep`, with its check against the end as returned, the sources untouched |
| `ArmatureUtils.TargetCount` | player/ArmatureUtils.py:95-106 | absolute: end−start+1; a frame count: itself; a ratio: the least whole number at or after ratio·(int(end)−int(start))+1 |
| `ArmatureUtils.FullShareKeepsCount` | player/ArmatureUtils.py:100-104 | ratio 1 keeps the original number of frames |
| `ArmatureUtils.ShareCountAtLeastTwo` | player/ArmatureUtils.py:100-104 | a positive ratio of a range longer than one frame gives at least two samples |
| `ArmatureUtils.ArmatureOperator.constructor` | player/ArmatureUtils.py:41-44 | keeps the row and the loaded armature |
| `ArmatureUtils.ArmatureOperator.Resample` | player/ArmatureUtils.py:84-127 | records the original range; renames the old action `old_<name>`; a new action `<name>` receives every bone (IK bones included) sampled at the target count and becomes active; the resampled range is recorded; a missing action raises |
| `ArmatureUtils.ArmatureOperator.CopyArmature` | player/ArmatureUtils.py:129-138 | a fresh copy named `inflected_<output name>` with the same bones and an empty action of that name |
| `ArmatureUtils.Load` | player/ArmatureUtils.py:46-62 | fails exactly when the gloss file is missing, touching nothing; otherwise the armature data is named after the row |
| `ArmatureUtils.ResampledFrameRange` | player/ArmatureUtils.py:113-127 | the resampled action spans frames 1..T |
| `Extract.WithoutFingersIncluded` | player/extract.py:22-97 | every bone without fingers is also a bone with fingers; the lists have 54 and 16 bones |
| `Extract.CreatedAddresses` | player/extract.py:175-185 | a bone gets rotation_euler and location at indices 0..2, interleaved |
| `Extract.BonesAddresses` | player/extract.py:175-185 | six addresses per bone |
| `Extract.BonesAddressesCover` | player/extract.py:175-185 | every bone's euler and location addresses are requested |
| `Extract.EnsureChannel` | player/extract.py:179-185 | a present channel is kept; a missing one is appended empty; the action only grows |
| `Extract.EnsureAll` | player/extract.py:175-185 | channel creation only appends |
| `Extract.EnsureAllFinds` | player/extract.py:175-185 | every requested address is present afterwards, and only requested addresses are added, empty |
| `Extract.EnsureAllPresent` | player/extract.py:179-185 | when every address exists, nothing changes |
| `Extract.CreateIdempotent` | player/extract.py:170-185 | a second `create_f_curves` adds nothing |
| `Extract.CreatedChannels` | player/extract.py:170-185 | afterwards each bone has its euler and location channels 0..2, and existing channels are kept |
| `Extract.EnsureAllUnique` | player/extract.py:179-185 | channel creation keeps addresses unique |
| `Extract.CreateFCurves` | player/extract.py:170-185 | the bone loop ensures every bone's six channels |
| `Extract.BoneFCurves` | player/extract.py:176-185 | one bone's six channels ensured |
| `Extract.NewChannel` | player/extract.py:179-181 | one channel ensured |
| `Extract.SampleWrite` | player/extract.py:120-123 | a write to the same address of the source evaluated at the source frame; it faults exactly when the source channel is missing |
| `Extract.BonePlan` | player/extract.py:116-130 | six writes: euler then location, indices 0..2 |
| `Extract.BonePlanKeysAt` | player/extract.py:116-130 | only the bone's six channels receive a key |
| `Extract.SetRotationAndLocation` | player/extract.py:116-130 | the target receives exactly the bone plan, or its first fault |
| `Extract.SampleInto` | player/extract.py:120-123 | one channel's key written, as the plan's next write |
| `Extract.FramePlan` | player/extract.py:201-206 | six writes per bone |
| `Extract.FramePlanKeysAt` | player/extract.py:201-206 | for distinct bones, each listed bone's six channels get exactly their sample and nothing else changes |
| `Extract.SampleGrid` | player/ArmatureUtils.py:115-116 | one sample count raises `ZeroDivisionError`; otherwise as many samples as the count |
| `Extract.SampleGridShape` | player/ArmatureUtils.py:113-116 | with T ≥ 2, the grid starts at frame_start, ends at frame_end and has equal steps (end−start)/(T−1) |
| `Extract.SampleGridOrdered` | player/extract.py:197-200 | the grid is non-decreasing within [frame_start, frame_end] |
| `Extract.Sampled` | player/ArmatureUtils.py:118-123 | sampling keeps the channel layout |
| `Extract.SampledKeys` | player/ArmatureUtils.py:118-123 | every channel gains exactly its sampled keys |
| `Extract.GridKeys` | player/ArmatureUtils.py:118-123 | sample k is written as key k+1 with the source evaluated at it |
| `Extract.SampleKeysOfBone` | player/ArmatureUtils.py:118-123 | a listed bone's channel receives one key per sample, frames 1..T |
| `Extract.SampleKeysOther` | player/ArmatureUtils.py:118-123 | channels of unlisted bones receive nothing |
| `Extract.SampledErrExtends` | player/ArmatureUtils.py:118-123 | the first failing sample ends the loop |
| `Extract.WriteSamples` | player/ArmatureUtils.py:118-123 | the frame loop writes exactly `Sampled`, or its error |
| `Extract.WriteFrame` | player/ArmatureUtils.py:119-123 | one frame's bone loop writes the frame plan, or its first fault |
| `Extract.SampleAction` | player/ArmatureUtils.py:109-123 | channels created then sampled; one sample raises `ZeroDivisionError` |
| `Extract.SampleFrom` | player/ArmatureUtils.py:109-123 | the sampled action is `SampleAction`, or its error |
| `Extract.ResampledChannel` | player/ArmatureUtils.py:109-123 | each channel of a resampled action belongs to a bone, exists in the source, and holds the source evaluated on the grid |
| `Extract.ResampledRange` | player/ArmatureUtils.py:113-127 | the resampled action spans frames 1..T |
| `Extract.ResampledNonEmpty` | player/ArmatureUtils.py:109-123 | an armature with bones gets channels |
| `Extract.ResampledKeyFrame` | player/ArmatureUtils.py:118-123 | key k of any channel sits at frame k+1, k < T |
| `Extract.Filter` | player/extract.py:149-150 | filtering keeps at most the bones given |
| `Extract.FilterMembers` | player/extract.py:149-150 | a bone is kept exactly when it is listed and passes |
| `Extract.ActiveInMembers` | player/extract.py:148-150 | only active bones are recorded |
| `Extract.NonIkMembers` | player/extract.py:203-204 | only bones without `IK` in the name are sampled |
| `Extract.ExtractTarget` | player/extract.py:133-167 | one record per frame in [start, end), each holding the armature's active bones |
| `Extract.ReadFrame` | player/extract.py:148-160 | the bone loop records exactly the active bones |
| `Extract.TargetDataOf` | player/extract.py:133-167 | the extracted data is the target data of that range |
| `Extract.ExtractSource` | player/extract.py:188-208 | finds or creates `sampled_<name>`; creates every bone's channels; samples the non-IK bones on the grid; makes it the armature's action; then always raises the missing-argument `TypeError` |
| `Extract.ShiftedTiming` | player/extract.py:216-219 | the end moves back by the trim offset; so does the start, except that a start landing on 0 becomes 1, so it is never 0 |
| `Extract.NormalEntry` | player/extract.py:214-237 | a recorded gloss had a readable timing and an object `inflected_<output name>`, and both its records count `num_frame` samples |
| `Extract.NormalEntrySane` | player/extract.py:211-237 | a gloss never fails the count check; its target frames run from the shifted start (0 becomes 1) to the shifted end; its source frames run from 1; both have the same length |
| `Extract.BonesOf` | player/extract.py:226 | the bones of every named armature |
| `Extract.ExtractNormal` | player/extract.py:211-238 | the gloss loop computes `NormalData` |
| `Extract.ExtractOne` | player/extract.py:213-237 | one gloss's turn: its record added, or the loop's error |
| `Extract.GlossOutcome` | player/extract.py:213-237 | a turn's error is the loop's; a record extends the prefix's map |
| `Extract.NormalEntryUnfold` | player/extract.py:216-232 | once the timing reads, a gloss's record is the count check of the object's read and the skeleton's read over the shifted frames, or `KeyError` when the inflected object is missing |
| `Extract.ExtractGloss` | player/extract.py:214-237 | one gloss's record as `NormalEntry` |
| `Extract.ReadTarget` | player/extract.py:221-229 | one `extract_target` call gives the record of its frames over the active bones the armature has |
| `Extract.CheckCounts` | player/extract.py:230-237 | the count check as `Checked` |
| `Extract.NormalDataErr` | player/extract.py:211-238 | the first failing gloss ends the loop |
| `Targets.KeywordsEndInLetters` | player/targets.py:338-339 | no Python keyword ends in `_`, so an escaped key never collides with a keyword |
| `Targets.EscapedData` | player/targets.py:335-340 | the stored keys are exactly the escaped input keys |
| `Targets.EscapedValue` | player/targets.py:335-340 | a key stores the value of its last occurrence |
| `Targets.KeywordNeverStored` | player/targets.py:338-339 | no keyword is stored unescaped |
| `Targets.EscapeKeys` | player/targets.py:335-340 | the key loop builds `EscapedData` |
| `Targets.Wrap` | player/targets.py:327-333 | a mapping becomes a config object, a list a list of the same length, anything else itself |
| `Targets.WrapConfig` | player/targets.py:327-333 | the constructor computes `Wrap` |
| `Targets.Attr` | player/targets.py:342-346 | a stored value comes back wrapped; on a config object, a name that is not a dict method fails exactly when absent |
| `Targets.AttrOfWrapped` | player/targets.py:335-346 | reading an escaped key returns its wrapped value |
| `Targets.AttrKeywordAbsent` | player/targets.py:338-346 | reading a keyword itself raises `KeyError` |
| `Targets.ClassNamed` | player/controllers.py:61 | a target class's name resolves to that class; another name the module holds (its imports, base classes and module attributes) resolves to no class, as on Python 3.11 and later; any other name raises `AttributeError` |
| `Targets.ClassNamedMissing` | player/controllers.py:61 | `getattr` raises exactly when the name is neither a target class nor another name of the module |
| `Targets.ClassNamedOthers` | player/controllers.py:61 | every other name of the module is found and is no target class |
| `Targets.ClassNamedRoundTrip` | player/controllers.py:61 | every target class resolves from its own name |
| `Targets.Initial` | player/targets.py:40-42 | a new target copies its configuration, has identity deltas and no anchor, and has no missing delta (also lines 89-97, 222-223) |
| `Targets.CreationOps` | player/targets.py:222-235 | a trajectory-family target adds its controller `IK_CTRL_FOR_<bone>_<idx>` parented to its root; others add nothing |
| `Targets.InitDeltas` | player/targets.py:175-176 | only the deltas change (also lines 272-277, 295-300, 316-317) |
| `Targets.InitChanges` | player/targets.py:175-176 | the deltas each class takes from the row: local rotation and head take the orientation; trajectory takes translation and rotation·scale; relative takes shift and rotation for torso, the shift for shoulder, nothing else (also lines 272-277, 295-300, 316-317) |
| `Targets.TrajectoryNeedsRotationAndScale` | player/targets.py:276 | a trajectory's set-up fails exactly when the rotation or the scale is absent |
| `Targets.InflectFails` | player/targets.py:165-170 | inflecting fails exactly when a delta the class multiplies by is missing (also lines 257, 287-290, 310) |
| `Targets.InflectStep` | player/targets.py:156-170 | a successful inflection step logs at most two keys, and logs none exactly for a generic target |
| `Targets.InflectKeys` | player/targets.py:156-170 | a generic target writes nothing; a local rotation keys its bone's rotation_euler, rotated by the delta or left as it is; a trajectory keys its controller's location; a relative target keys location then rotation_quaternion; a head target keys rotation_quaternion; every key is at the frame, and only the anchor of the state changes (also lines 237-258, 286-290, 309-311) |
| `Targets.TrajectoryAnchorCached` | player/targets.py:249-258 | a trajectory keys its controller's location from the anchor fixed on its first call, and reuses it afterwards |
| `Targets.AnchorOnlyTwice` | player/targets.py:249-250 | once set, the anchor stays |
| `Targets.InflectOwnsController` | player/targets.py:258 | trajectory-family keys are on the target's own controller (also lines 287-290, 310-311) |
| `Targets.ConstraintStep` | player/targets.py:263-270 | a trajectory-family target adds one IK constraint on its bone towards its controller; others add nothing |
| `Targets.Target.constructor` | player/targets.py:69-97 | the target's state is `Initial`, and its creation operations are logged (also lines 220-235) |
| `Targets.Target.InitFromMms` | player/targets.py:175-176 | the state becomes `InitDeltas`, or the error (also lines 272-277, 295-300, 316-317) |
| `Targets.Target.Inflect` | player/targets.py:156-170 | the state and the logged keys follow `InflectStep`, or its error (also lines 237-258, 286-290, 309-311) |
| `Targets.Target.AddConstraints` | player/targets.py:263-270 | the constraints of `ConstraintStep` are logged |
| `Controllers.TextOf` | player/controllers.py:66-69 | a configuration field is read as text exactly when it is a string |
| `Controllers.TargetSpecOf` | player/controllers.py:60-71 | a built target reads a config object, keeps its `constraints` and is of the class its `target` names |
| `Controllers.TargetSpecOfOtherName` | player/controllers.py:61-71 | an entry naming a non-class name of the module reads all five keyword fields and then fails the call with `TypeError` |
| `Controllers.TargetSpecOfEntry` | player/controllers.py:60-71 | an entry with all its fields builds the target of the named class with those fields |
| `Controllers.TargetSpecOfErrors` | player/controllers.py:61 | a missing `target` raises `KeyError`; an unknown class name raises `AttributeError` |
| `Controllers.TargetSpecs` | player/controllers.py:60-72 | one target per entry |
| `Controllers.TargetSpecsEach` | player/controllers.py:60-72 | targets are built in entry order; the first failing entry's error ends the loop |
| `Controllers.CreationOpsCount` | player/controllers.py:60-72 | one controller is created per trajectory-family target, and nothing else |
| `Controllers.Span` | player/controllers.py:109 | `range(start, end+1)` is empty exactly when end < start, and otherwise ends at end (also lines 118, 164) |
| `Controllers.FirstMissing` | player/controllers.py:111-112 | the first name without a bone on the copy, if any |
| `Controllers.PoseKeys` | player/controllers.py:111-115 | two keys per bone at a frame |
| `Controllers.PoseKeysSnoc` | player/controllers.py:111-115 | each bone gets location then rotation_euler, in bone order |
| `Controllers.PoseKeysCopied` | player/controllers.py:111-115 | every key is a copied pose of a listed bone at the frame |
| `Controllers.PoseKeysCover` | player/controllers.py:111-115 | every bone gets both keys |
| `Controllers.CopyKeys` | player/controllers.py:109-115 | the copy loop writes two keys per bone per frame |
| `Controllers.CopyKeysCopied` | player/controllers.py:109-115 | every key copies a listed bone inside the span |
| `Controllers.CopyKeysCover` | player/controllers.py:109-115 | every frame of the span and every bone gets both keys |
| `Controllers.BakeMiss` | player/controllers.py:121-122 | the first target whose bone or root is missing on the copy; the lookups come before the class test |
| `Controllers.BakeMissAt` | player/controllers.py:121-122 | bone looked up before root, in target order |
| `Controllers.ControllerKeys` | player/controllers.py:118-138 | at most two keys per target, written in pairs |
| `Controllers.ControllerKeysOwned` | player/controllers.py:118-138 | every baked key is at the frame, on a trajectory-family controller |
| `Controllers.ControllerKeysCount` | player/controllers.py:125-138 | two keys per trajectory-family target; the others are skipped |
| `Controllers.BakeKeysInSpan` | player/controllers.py:118-138 | every baked key lies in the span, on a controller |
| `Controllers.Each` | player/controllers.py:120 | a loop over the targets keeps one state per target (also lines 141, 167) |
| `Controllers.EachStates` | player/controllers.py:120 | every target's step succeeded, giving its new state, and the operations are exactly those of the steps (also lines 141, 167) |
| `Controllers.EachFails` | player/controllers.py:120 | the loop fails exactly when a step does, with the first failing step's error (also lines 141, 167) |
| `Controllers.EachNext` | player/controllers.py:120 | a loop that got through i targets and whose next step succeeds adds that target's state and operations (also lines 141, 167) |
| `Controllers.EachStops` | player/controllers.py:120 | a loop that got through i targets stops with the next step's error (also lines 141, 167) |
| `Controllers.SetupStep` | player/controllers.py:141-144 | a set-up turn changes at most the target's three deltas, and logs only IK constraints on the target's own bone |
| `Controllers.SetupStepState` | player/controllers.py:141-144 | one target's set-up leaves its state alone without inflection, and otherwise applies `init_from_mms` |
| `Controllers.TargetsSetupStates` | player/controllers.py:141-144 | `init_from_mms` is applied to every target unless inflection is off |
| `Controllers.SetupStepOps` | player/controllers.py:141-142 | each target's set-up adds its own IK constraint |
| `Controllers.TargetsSetupConstraints` | player/controllers.py:141-144 | every constraint is a trajectory-family target's, and every such target gets its own |
| `Controllers.InflectAllStates` | player/controllers.py:167-168 | inflecting every target at a frame changes at most their anchors |
| `Controllers.InflectAllKeys` | player/controllers.py:167-168 | all keys are at that frame |
| `Controllers.InflectAllFails` | player/controllers.py:167-168 | the frame fails exactly when some target misses a delta |
| `Controllers.InflectFrames` | player/controllers.py:164-168 | one state per target after the frame loop |
| `Controllers.InflectFramesStates` | player/controllers.py:164-168 | over the span, only anchors change, fixed at the first frame |
| `Controllers.InflectFramesKeys` | player/controllers.py:164-168 | every key lies in the span |
| `Controllers.InflectFramesFails` | player/controllers.py:164-168 | the loop fails exactly when the span is not empty and some target misses a delta |
| `Controllers.SameMissing` | player/controllers.py:164-168 | setting anchors does not change which deltas are missing |
| `Controllers.FramesKeepMissing` | player/controllers.py:164-168 | inflecting over a non-empty span leaves some delta missing exactly when one was missing before |
| `Controllers.SetupSpec` | player/controllers.py:95-144 | a set-up reads the source action and keeps one state per target |
| `Controllers.SetupLookups` | player/controllers.py:95-122 | without an action `frame_range` raises; a set-up over a non-empty span found every source bone and every target's bone and root on the copy |
| `Controllers.SetupKeysInSpan` | player/controllers.py:95-138 | the span is `int` of the action's range, and every key lies in it |
| `Controllers.Controller.constructor` | player/controllers.py:58 | keeps the targets |
| `Controllers.Controller.States` | player/controllers.py:58-72 | the targets' states, in order |
| `Controllers.Controller.Create` | player/controllers.py:58-72 | one fresh target per entry, in order, each `Initial`, with their controllers logged; or the first entry's error |
| `Controllers.Controller.NextTarget` | player/controllers.py:60-72 | one entry's target built and appended |
| `Controllers.Controller.Build` | player/controllers.py:61-71 | one target of the named class, or the entry's error with nothing logged |
| `Controllers.Controller.CopyPose` | player/controllers.py:109-115 | the pose-copy loops log `CopyStage` |
| `Controllers.Controller.CopyFrame` | player/controllers.py:110-115 | a frame logs both keys of every bone, or `KeyError` for the first missing bone |
| `Controllers.Controller.BakeControllers` | player/controllers.py:118-138 | the bake loops log `BakeStage` |
| `Controllers.Controller.BakeFrame` | player/controllers.py:119-138 | a frame logs the controller keys, or `KeyError` for the first missing bone |
| `Controllers.Controller.SetupTargets` | player/controllers.py:141-144 | the constraint and init loop over the targets |
| `Controllers.Controller.SetupOne` | player/controllers.py:141-144 | one target's constraints, then its init unless inflection is off |
| `Controllers.Controller.SetupChain` | player/controllers.py:74-144 | states and log follow `SetupSpec`, and the span is returned |
| `Controllers.Controller.Execute` | player/controllers.py:148-183 | every target inflected, in order, at every frame of [start, stop], then one bake of exactly that range; the caller passes the inflected action's truncated frame range |
| `Controllers.InflectedSpanIsFrameRange` | player/controllers.py:157-160 | the range `execute` reads from the action the copy keyed at every whole frame of start..end is that span, widened to (start, start+1) for a single frame (also lines 109-115) |
| `Controllers.InflectedSpanUnkeyed` | player/controllers.py:157-160 | an inflected action the copy left without keys reports (0, 1) |
| `Controllers.Controller.InflectSpan` | player/controllers.py:164-168 | the frame loop logs `InflectFrames` |
| `Controllers.Controller.NextFrame` | player/controllers.py:164-168 | one frame of the loop |
| `Controllers.Controller.InflectFrame` | player/controllers.py:167-168 | every target inflected at one frame |
| `Pipeline.SentenceId` | main.py:286 | `Satz` followed by the id without its leading zeros |
| `Pipeline.SentenceIdZeros` | main.py:286 | any number of leading zeros is stripped |
| `Pipeline.Rank` | main.py:359-386 | the fixed inflector order |
| `Pipeline.RequestedStep` | main.py:359-386 | each inflector is appended exactly when its flag is set |
| `Pipeline.RequestedUpToOrder` | main.py:359-386 | the list holds exactly the enabled inflectors, in the fixed order |
| `Pipeline.RequestedUpToMembers` | main.py:359-386 | the first checks add exactly the enabled inflectors among them |
| `Pipeline.RequestedUpToSorted` | main.py:359-386 | the first checks add their inflectors in the fixed order, each once |
| `Pipeline.RequestedOrder` | main.py:359-386 | enabled inflectors exactly, in the order torso, head, shoulder dom, shoulder ndom, dom hand loc, dom hand rot, ndom hand loc, ndom hand rot; the shoulder flag adds both shoulders |
| `Pipeline.Inflectors` | main.py:356-389 | one inflector per requested flag, or none when inflection is off |
| `Pipeline.LookupPath` | main.py:360-385 | an attribute path is read step by step, failing at the first missing step |
| `Pipeline.InflectorsRead` | main.py:356-389 | the list builds exactly when every enabled entry reads; it is empty without inflection, else the enabled entries in order |
| `Pipeline.AppendIf` | main.py:359-386 | one flag's append |
| `Pipeline.AppendRequested` | main.py:359-386 | the append sequence builds the enabled entries |
| `Pipeline.AppendBody` | main.py:359-370 | torso, head and shoulders |
| `Pipeline.AppendTorsoHead` | main.py:359-365 | the torso and head checks, the first two of the order |
| `Pipeline.AppendShoulders` | main.py:367-370 | both shoulder entries on the one shoulder flag |
| `Pipeline.AppendHands` | main.py:372-386 | the four hand inflectors |
| `Pipeline.AppendDomHand` | main.py:372-378 | the dominant hand's location and rotation checks |
| `Pipeline.AppendNdomHand` | main.py:380-386 | the non-dominant hand's location and rotation checks, the last two |
| `Pipeline.BuildInflectorList` | main.py:356-389 | the list built, then cleared without inflection |
| `Pipeline.LoggedConfigs` | main.py:395-396 | the log reads `dict` of every listed entry: it passes exactly when every entry is a configuration object, and otherwise raises `AttributeError` |
| `Pipeline.LogConfigs` | main.py:395-396 | the logging loop computes `LoggedConfigs` |
| `Pipeline.TorsoOnlyRequested` | main.py:359-386 | with only the torso columns present, the list asks for the torso entry alone |
| `Pipeline.PlainTorsoRead` | main.py:360 | `ik_config.torso` on `{"torso": "x"}` gives the plain string `"x"`, not a configuration object |
| `Pipeline.TorsoOnlyInflectors` | main.py:356-389 | with only the torso columns present and `"torso": "x"`, the list is the plain `"x"` |
| `Pipeline.ResampleWith` | main.py:419-423 | no resampling when durations are ignored; `duration()` in relative mode, `timing()` otherwise |
| `Targets.Initials` | player/controllers.py:60-72 | one initial state per target, in order, each on the copy and reading anchors from the dictionary armature |
| `Targets.InitialsSnoc` | player/controllers.py:60-72 | one more entry appends its initial state |
| `Pipeline.GlossKeepsTiming` | main.py:419 | with durations ignored, line and motion stay |
| `Pipeline.GlossWithoutInflection` | main.py:388-389 | without inflection, a gloss only copies its pose over its span (also lines 437-438) |
| `Pipeline.ControlledWithout` | main.py:437-438 | without inflection, the controller only copies the pose |
| `Pipeline.ControlledBakes` | main.py:437-438 | with inflection on, the set-up span is `int` of the motion's frame range, and the last operation bakes the inflected action's range: that span, or (start, start+1) when it is one frame (also player/controllers.py:157-160) |
| `Pipeline.DrivenBakes` | player/controllers.py:148-183 | with inflection on, the set-up span is `int` of the source action's frame range, and the log ends with the bake of the inflected action's truncated frame range |
| `Pipeline.GlossBakedOverResampledFrames` | main.py:417-438 | after resampling to T frames, the line records 1..T and the controller bakes frames 1..T |
| `Pipeline.GlossResampledRun` | main.py:417-438 | a resampled gloss drives its controller on the resampled line and motion |
| `Pipeline.ResampledToCount` | main.py:421-423 | resampling keeps the bones, records the original range and gives an action over 1..T |
| `Pipeline.GlossSpec` | main.py:404-438 | a gloss that runs had its motion file; the motion keeps its object name and bones; the line changes only in its two frame ranges |
| `Pipeline.RunGloss` | main.py:404-438 | one gloss: a missing file raises and touches nothing; otherwise the line, the motion and the log follow `GlossSpec` |
| `Pipeline.ResampleGloss` | main.py:419-423 | the operator's row and motion follow `Resampled` |
| `Pipeline.RunController` | main.py:427-438 | the controller's log follows `Controlled` |
| `Pipeline.Drive` | main.py:429-438 | set-up, then execution over the inflected action's truncated frame range, log `Driven` |
| `Pipeline.ExecuteUnless` | main.py:437-438 | `execute` runs only with inflection on, over the span it is given |
| `Pipeline.Pairs` | main.py:404 | each gloss with its armature's motion |
| `Pipeline.GlossLoopShape` | main.py:404-438 | a full loop gives one motion per gloss and keeps the table's keys |
| `Pipeline.TurnCopiesOnly` | main.py:437-438 | without inflection, a turn appends only pose copies |
| `Pipeline.GlossLoopCopiesOnly` | main.py:388-389 | without inflection, the loop writes nothing but pose copies (also lines 437-438) |
| `Pipeline.Motions` | main.py:404-438 | the motions of the armatures, in order |
| `Pipeline.RunGlosses` | main.py:404-438 | the gloss loop follows `GlossLoop` |
| `Pipeline.NextGloss` | main.py:404-438 | one gloss's turn; other armatures keep their motions |
| `Pipeline.PipelineOutcome` | main.py:317-438 | rendering gives `Satz<id>` with no host operation; otherwise the configuration exists, every listed inflector is a configuration object, and every gloss is handled, with only pose copies when inflection is off |
| `Pipeline.PipelineRun` | main.py:308-438 | a successful run passed the path pass without error, renders exactly when rendering was asked for, and otherwise found the configuration and listed only configuration objects; once the paths resolve, a listed entry that is not one raises `AttributeError` before any gloss is handled |
| `Pipeline.Inflecting` | main.py:356-438 | a successful loop listed only configuration objects; a listed entry that is not one raises `AttributeError`, whatever the glosses |
| `Pipeline.PlainTorsoEntryFails` | main.py:395-396 | with inflection on, `"torso": "x"` and only the torso columns, a table without glosses raises `AttributeError` on the entry's `dict` |
| `Pipeline.ExecutePipeline` | main.py:308-438 | the path pass, then rendering, or the configuration check, the inflector list, its log and the gloss loop, as `PipelineRun` |
| `Pipeline.InflectGlosses` | main.py:349-438 | the inflector list, its `dict` log, then the gloss loop, as `Inflecting` |
| `BpyUtils.MotionIndex` | player/bpy_utils.py:151-152 | the first line containing `MOTION`, or the line count |
| `BpyUtils.ModifyLines` | player/bpy_utils.py:148-153 | lines up to and including the first `MOTION` line are fixed; later lines are unchanged; the count and order stay |
| `BpyUtils.ModifiedOnlyOffsets` | player/bpy_utils.py:148-153 | a changed line contains `OFFSET 0 0 0` and lies at or before the `MOTION` line |
| `BpyUtils.Duplicate` | player/bpy_utils.py:67-79 | a fresh copy whose object, data and new empty action are named `inflected_<name>`, with the same bones |
| `BpyUtils.Without` | player/bpy_utils.py:118-119 | removing a bone adds none, and exactly the other bones remain |
| `BpyUtils.WithoutConcat` | player/bpy_utils.py:118-119 | removal works piece by piece, so the remaining bones keep their order |
| `BpyUtils.WithoutAbsent` | player/bpy_utils.py:118-119 | an absent bone leaves the list as it is |
| `BpyUtils.RemoveIkBone` | player/bpy_utils.py:111-121 | `Bone` is left alone; an unknown bone raises `KeyError`; otherwise exactly that bone is removed |
| `JsonExporter.Component` | exporter/json_exporter.py:85-88 | a component containing `e` becomes `"0"`, others are kept |
| `JsonExporter.FetchBoneQuaternion` | exporter/json_exporter.py:78-90 | four components in the order w, x, y, z |
| `JsonExporter.NoExponentWritten` | exporter/json_exporter.py:85-88 | no written component contains `e`, and each is `"0"` or a component's text |
| `JsonExporter.FrameRecords` | exporter/json_exporter.py:112-117 | one record per active bone |
| `JsonExporter.AnimationList` | exporter/json_exporter.py:106-117 | an export fails only when the armature has no action, or when some frame is exported and an active bone is missing from the armature |
| `JsonExporter.ExportedFrames` | exporter/json_exporter.py:100-117 | the active bones, the sampling rate, one entry per frame in [start, end) with one record per active bone in order |
| `JsonExporter.MissingBoneFails` | exporter/json_exporter.py:113-114 | an active bone missing from the armature raises exactly when some frame is exported |
| `JsonExporter.GetAnimationList` | exporter/json_exporter.py:100-117 | a missing skeleton raises `KeyError`; otherwise the export over `int` of its action's range |
| `JsonExporter.ExportFrames` | exporter/json_exporter.py:110-117 | the frame loop builds `AnimationList` |
| `JsonExporter.RecordsAt` | exporter/json_exporter.py:112-116 | one frame's records, or `KeyError` for the first missing bone |

## Left out

- **Host internals.** Blender curve evaluation is the parameter `ev`. Pose reads for anchors are the parameter `anchors`, a function of the dictionary armature each target was built with (`dictionary_name`), the bone, the root and the frame, so each gloss reads its own dictionary armature. Depsgraph updates, mode switches, selection, IK solving and the `nla.bake` computation are not modelled. A bake is one logged operation.
- **Keyframe inserts.** An insert appends to the channel's key sequence. The host's replacement of a key at the same frame, and its sorting, are not modelled.
- **Matrix and quaternion math.** This covers the relative-rotation helpers in `player/targets.py`, the trajectory formula and the anchor geometry. They appear as opaque symbolic terms.
- **Floats.** Times are exact reals, so IEEE rounding is not captured. Python `float()` is a decimal parser: exponent, `inf`, `nan`, underscore and whitespace forms are rejected. `str(float)` in the exporter is the parameter `str`.
- **File and CSV I/O.** File existence is the parameter `present`. The CSV file is given as rows of text. The following are not modelled: library loading, JSON and temp-file writing, `extract.run`, the trim-info file, and the scene set-up in `Glue.initialize_scene`, `initialize_mesh` and `create_new_fcurves`.
- **Rendering, export and CLI.** `post_bake`, `add_options` and argument parsing are left out. Command-line switches appear as `Settings`.
- **`Pipeline.ExecutePipeline`**: these are separate members, not composed into the pipeline run:
  - the merge (`Merge.Glue.MergeAnimation`);
  - the extraction (`Extract.ExtractNormal`);
  - `render_sentence`'s combine and bake.

  The removal of all scene objects before the loop is not modelled.
- **`Targets.Target.Inflect`**: a relative target writes its location key before its rotation `@ None` fails. The method does the same, but its contract does not state the log on that error path. Likewise, a trajectory target fixes its anchor before `delta_t @` fails, and no contract states the anchor kept on that path.
- **`Targets.ConstraintStep`**: the source creates the IK constraint before it reads `use_tail`, `chain_count` and `use_rotation`, so a failing read leaves a constraint behind. The model reads all three first and logs nothing on that error path.
- **`Pipeline.Driven`**: the inflected action's keys are not kept as an action. `Controllers.InflectedSpan` computes the range `execute` reads from the copy's span, which assumes `inflected_<output name>` held no keys before the copy. Two glosses with the same output name share that action in the source, and this is not modelled.
- **`Controllers.TargetSpecOf`**: `dominance`, `bone`, `root` and `itype` are read as text, and any other JSON value raises `TypeError` when the entry is read. The source stores such a value in the target unchecked and fails, if at all, only where it is used. `Controllers.TextOf` and `Controllers.Controller.Build` share this restriction.
- **`Extract.ExtractSource`**: requires that an existing `sampled_<name>` action is not the armature's current action. Sampling an action into itself, as a second call on the same gloss would, is not modelled.
- **Helpers that are not core.** `select_object`, `get_trajectory`, `add_ik_bone`, `add_copy_constraints` and `add_ik_constraint` drive the host only.
- **Other files.** These are not part of this model: `RunServer.py` (HTTP endpoints), `player/logging.py` (logging), `player/anim_utils.py` (empty stubs) and `exporter/bone_list.py` (constant data).

## Findings

| source | as written | input that shows it | evidently intended | confidence | as-written member | corrected member |
|---|---|---|---|---|---|---|
| player/merge.py:177 | `combine_animation` returns `int(action_end) + start`. That is one past the last written frame `action_end + start - 1`, and `merge_animation`'s ±1 check at line 266 compares that value with the planned end | relative mode, ratio 0.5 over a 1..30 source: the planned end is start+14.5, the gloss is resampled to 16 frames, and the returned end is start+16, so the assertion fails | return the last frame written, `int(action_end) + start - 1`, which passes the check in every mode (`Merge.CheckPassesCorrected`) | not executed | `Merge.ShareCheckFails` | `Merge.CombineStepCorrected` |
