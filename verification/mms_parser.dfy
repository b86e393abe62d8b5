/**
 * The timing table (MMS): one row per gloss, with its timing in seconds and its
 * inflection columns. A row is read into an `MmsLine`; the parser splits
 * compound glosses, numbers the entries and orders them by their first frame;
 * the path pass then assigns each entry its motion-capture file.
 */
module MmsParser {
  import opened Wrappers
  import opened Text
  import opened Frames
  import opened Host

  /** A cell of a row: empty text becomes `None`; the compound split writes numbers. */
  datatype Cell = Empty | Str(text: string) | Number(value: real)

  /** The key of an entry: its position in the sentence and its gloss name. */
  datatype GlossKey = GlossKey(idx: nat, name: string)

  /** One row of the table, with what the later stages record about it. */
  datatype MmsLine = MmsLine(
    storeIndex: map<string, nat>,
    cells: seq<Cell>,
    name: string,
    category: string,
    outputName: string,
    path: Path,
    originalFrameRange: Option<(real, real)>,
    resampledFrameRange: Option<(real, real)>)

  /** A row's duration: a share of the original animation, or a number of frames. */
  datatype Duration = Ratio(ratio: real) | Frames(count: int)

  /** Which inflection columns the header provides. */
  datatype Availability = Availability(
    domHandReloc: bool,
    ndomHandReloc: bool,
    domHandRot: bool,
    ndomHandRot: bool,
    torso: bool,
    head: bool,
    shoulders: bool)

  /** The category of glosses written without a `category:` prefix. */
  const DefaultCategory := "signs"

  /** Share of each compound part's slot given to the transition into the next part. */
  const TransitionShare: real := 0.3

  /** Frames per second of the timeline. */
  const Fps: real := 60.0

  /** `MMSLine.find_datatype`: `category:name` gives `(name, category)`; a bare name is a sign. */
  function FindDatatype(s: string): (r: (string, string))
    ensures ':' !in s ==> r == (s, DefaultCategory)
    ensures ':' in s ==> ':' !in r.0 && ':' !in r.1
  {
    if ':' !in s then (s, DefaultCategory)
    else
      var parts := Split(s, ':');
      SplitFirstTwo(s, ':');
      (parts[1], parts[0])
  }

  /**
   * With a colon, the category is the text before the first colon and the name
   * the text after it, up to the next colon if there is one.
   */
  lemma FindDatatypeColon(s: string)
    requires ':' in s
    ensures var r := FindDatatype(s);
      StartsWith(s, r.1 + ":" + r.0) &&
      (|s| == |r.1| + 1 + |r.0| || s[|r.1| + 1 + |r.0|] == ':')
  {
    SplitFirstTwo(s, ':');
  }

  /** The first two pieces of a split: the text up to the first separator and up to the next one. */
  lemma SplitFirstTwo(s: string, sep: char)
    requires sep in s
    ensures |Split(s, sep)| >= 2
    ensures var ps := Split(s, sep);
      StartsWith(s, ps[0] + [sep] + ps[1]) &&
      (|s| == |ps[0]| + 1 + |ps[1]| || s[|ps[0]| + 1 + |ps[1]|] == sep)
  {
    var i := IndexOf(s, sep).value;
    var rest := s[i + 1..];
    SplitOnce(s, sep, i);
    SplitHead(rest, sep);
    var b := Split(rest, sep)[0];
    PrefixThroughSep(s, i, b);
    var ps := Split(s, sep);
    assert ps[0] == s[..i];
    assert ps[1] == b;
    assert s[i] == sep;
    assert StartsWith(s, ps[0] + [sep] + ps[1]);
  }

  lemma SplitOnce(s: string, sep: char, i: nat)
    requires IndexOf(s, sep) == Some(i)
    ensures Split(s, sep) == [s[..i]] + Split(s[i + 1..], sep)
  {
  }

  lemma PrefixThroughSep(s: string, i: nat, b: string)
    requires i < |s|
    requires |b| <= |s[i + 1..]| && b == s[i + 1..][..|b|]
    ensures StartsWith(s, s[..i] + [s[i]] + b)
  {
    var n := i + 1 + |b|;
    assert b == s[i + 1..n];
    SliceAround(s, i, n);
  }

  lemma SliceAround(s: string, i: nat, n: nat)
    requires i < n <= |s|
    ensures s[..n] == s[..i] + [s[i]] + s[i + 1..n]
  {
  }

  /** The first piece of a split runs up to the first separator, or is the whole text. */
  lemma SplitHead(s: string, sep: char)
    ensures var b := Split(s, sep)[0];
      |b| <= |s| && b == s[..|b|] && (|b| == |s| || s[|b|] == sep)
  {
  }

  /** Formatting `category:name` and reading it back gives the two parts again. */
  lemma FindDatatypeRoundTrip(category: string, name: string)
    requires ':' !in category && ':' !in name
    ensures FindDatatype(category + ":" + name) == (name, category)
  {
    var s := category + ":" + name;
    assert s[|category|] == ':';
    var r := FindDatatype(s);
    FindDatatypeColon(s);
    assert |r.1| == |category|;
    assert r.1 == s[..|category|] == category;
    assert |r.0| == |name|;
    assert r.0 == s[|category| + 1..] == name;
  }

  /** `MMSLine(store_index, line_data, gloss_idx)`: the name comes from the first cell. */
  function NewLine(storeIndex: map<string, nat>, cells: seq<Cell>, glossIdx: nat): (r: Result<MmsLine>)
    ensures r.Ok? <==> |cells| > 0 && cells[0].Str?
    ensures r.Ok? ==> (r.value.name, r.value.category) == FindDatatype(cells[0].text)
    ensures r.Ok? ==> r.value.outputName == NatToString(glossIdx) + "_" + r.value.name
    ensures r.Ok? ==> r.value.cells == cells && r.value.storeIndex == storeIndex && r.value.path == NoPath
    ensures r.Ok? ==> r.value.originalFrameRange.None? && r.value.resampledFrameRange.None?
  {
    if |cells| == 0 then Err(IndexError("line_data[0]"))
    else match cells[0]
      case Str(s) =>
        var (name, category) := FindDatatype(s);
        Ok(MmsLine(storeIndex, cells, name, category, NatToString(glossIdx) + "_" + name, NoPath, None, None))
      case _ => Err(TypeError("find_datatype of a non-string"))
  }

  /** `line[key]`: the cell of the named column. */
  function Get(line: MmsLine, key: string): (r: Result<Cell>)
    ensures key !in line.storeIndex ==> r == Err(KeyError(key))
    ensures key in line.storeIndex && line.storeIndex[key] >= |line.cells| ==> r.Err? && r.error.IndexError?
    ensures r.Ok? <==> key in line.storeIndex && line.storeIndex[key] < |line.cells|
    ensures r.Ok? ==> r.value == line.cells[line.storeIndex[key]]
  {
    if key !in line.storeIndex then Err(KeyError(key))
    else if line.storeIndex[key] >= |line.cells| then Err(IndexError(key))
    else Ok(line.cells[line.storeIndex[key]])
  }

  /** `float(cell)` */
  function FloatOf(c: Cell): (r: Result<real>)
    ensures c.Empty? ==> r.Err? && r.error.TypeError?
    ensures c.Number? ==> r == Ok(c.value)
    ensures c.Str? ==> r == ParseFloat(c.text)
  {
    match c
    case Empty => Err(TypeError("float() of None"))
    case Str(s) => ParseFloat(s)
    case Number(v) => Ok(v)
  }

  /** Python truthiness of a cell. */
  predicate Truthy(c: Cell) {
    match c
    case Empty => false
    case Str(s) => |s| > 0
    case Number(v) => v != 0.0
  }

  /** A column read as a number of seconds (or any other number). */
  function Seconds(line: MmsLine, key: string): Result<real> {
    var c :- Get(line, key);
    FloatOf(c)
  }

  /**
   * `handle_none(key)`: the three cells `key`+x/y/z as a vector, or `None`
   * unless all three are filled.
   */
  function HandleNone(line: MmsLine, key: string): (r: Result<Option<Vec3>>)
    ensures r.Ok? ==> Get(line, key + "x").Ok? && Get(line, key + "y").Ok? && Get(line, key + "z").Ok?
    ensures r.Ok? && r.value.None? ==>
      !(Truthy(Get(line, key + "x").value) && Truthy(Get(line, key + "y").value) && Truthy(Get(line, key + "z").value))
    ensures r.Ok? && r.value.Some? ==>
      Truthy(Get(line, key + "x").value) && Truthy(Get(line, key + "y").value) && Truthy(Get(line, key + "z").value) &&
      Seconds(line, key + "x") == Ok(r.value.value.x) &&
      Seconds(line, key + "y") == Ok(r.value.value.y) &&
      Seconds(line, key + "z") == Ok(r.value.value.z)
    ensures Get(line, key + "x").Ok? && Get(line, key + "y").Ok? && Get(line, key + "z").Ok? &&
      !(Truthy(Get(line, key + "x").value) && Truthy(Get(line, key + "y").value) && Truthy(Get(line, key + "z").value))
      ==> r == Ok(None)
  {
    var x :- Get(line, key + "x");
    var y :- Get(line, key + "y");
    var z :- Get(line, key + "z");
    if !(Truthy(x) && Truthy(y) && Truthy(z)) then Ok(None)
    else
      var fx :- FloatOf(x);
      var fy :- FloatOf(y);
      var fz :- FloatOf(z);
      Ok(Some(Vec3(fx, fy, fz)))
  }

  /**
   * An inflection accessor follows its three columns: it fails exactly when
   * reading them fails, with the same error, and is absent exactly when they
   * are not all filled.
   */
  predicate FollowsColumns<T>(r: Result<Option<T>>, v: Result<Option<Vec3>>) {
    (r.Ok? <==> v.Ok?) &&
    (r.Err? ==> r.error == v.error) &&
    (r.Ok? ==> (r.value.None? <==> v.value.None?))
  }

  /** `traj_rotation(dominance)` */
  function TrajRotation(line: MmsLine, dominance: string): (r: Result<Option<Mat>>)
    ensures FollowsColumns(r, HandleNone(line, dominance + "handreloca"))
    ensures r.Ok? && r.value.Some? ==> r.value.value == EulerRotation(HandleNone(line, dominance + "handreloca").value.value)
  {
    var v :- HandleNone(line, dominance + "handreloca");
    Ok(if v.None? then None else Some(EulerRotation(v.value)))
  }

  /** `hand_orientation(dominance)` */
  function HandOrientation(line: MmsLine, dominance: string): (r: Result<Option<Quat>>)
    ensures FollowsColumns(r, HandleNone(line, dominance + "handrot"))
    ensures r.Ok? && r.value.Some? ==> r.value.value == EulerQuat(HandleNone(line, dominance + "handrot").value.value)
  {
    var v :- HandleNone(line, dominance + "handrot");
    Ok(if v.None? then None else Some(EulerQuat(v.value)))
  }

  /** `translation(dominance)` */
  function HandTranslation(line: MmsLine, dominance: string): (r: Result<Option<Mat>>)
    ensures FollowsColumns(r, HandleNone(line, dominance + "handreloc"))
    ensures r.Ok? && r.value.Some? ==> r.value.value == Translation(HandleNone(line, dominance + "handreloc").value.value)
  {
    var v :- HandleNone(line, dominance + "handreloc");
    Ok(if v.None? then None else Some(Translation(v.value)))
  }

  /** `scale(dominance)` */
  function HandScale(line: MmsLine, dominance: string): (r: Result<Option<Mat>>)
    ensures FollowsColumns(r, HandleNone(line, dominance + "handrelocs"))
    ensures r.Ok? && r.value.Some? ==> r.value.value == Scaling(HandleNone(line, dominance + "handrelocs").value.value)
  {
    var v :- HandleNone(line, dominance + "handrelocs");
    Ok(if v.None? then None else Some(Scaling(v.value)))
  }

  /** `head_rot()` */
  function HeadRot(line: MmsLine): (r: Result<Option<Quat>>)
    ensures FollowsColumns(r, HandleNone(line, "headrot"))
    ensures r.Ok? && r.value.Some? ==> r.value.value == EulerQuat(HandleNone(line, "headrot").value.value)
  {
    var v :- HandleNone(line, "headrot");
    Ok(if v.None? then None else Some(EulerQuat(v.value)))
  }

  /** `shoulder_shift(dominance)` */
  function ShoulderShift(line: MmsLine, dominance: string): (r: Result<Option<Mat>>)
    ensures FollowsColumns(r, HandleNone(line, dominance + "shoulderreloc"))
    ensures r.Ok? && r.value.Some? ==> r.value.value == Translation(HandleNone(line, dominance + "shoulderreloc").value.value)
  {
    var v :- HandleNone(line, dominance + "shoulderreloc");
    Ok(if v.None? then None else Some(Translation(v.value)))
  }

  /** `torso_shift()` */
  function TorsoShift(line: MmsLine): (r: Result<Option<Mat>>)
    ensures FollowsColumns(r, HandleNone(line, "torsoreloc"))
    ensures r.Ok? && r.value.Some? ==> r.value.value == Translation(HandleNone(line, "torsoreloc").value.value)
  {
    var v :- HandleNone(line, "torsoreloc");
    Ok(if v.None? then None else Some(Translation(v.value)))
  }

  /** `torso_rot()` */
  function TorsoRot(line: MmsLine): (r: Result<Option<Quat>>)
    ensures FollowsColumns(r, HandleNone(line, "torsoreloca"))
    ensures r.Ok? && r.value.Some? ==> r.value.value == EulerQuat(HandleNone(line, "torsoreloca").value.value)
  {
    var v :- HandleNone(line, "torsoreloca");
    Ok(if v.None? then None else Some(EulerQuat(v.value)))
  }

  /**
   * `timing()`: the first whole frame at or after the start time and the last
   * whole frame at or before the end time, at 60 frames per second.
   */
  function Timing(line: MmsLine): (r: Result<(int, int)>)
    ensures r.Ok? <==> Seconds(line, "framestart").Ok? && Seconds(line, "frameend").Ok?
    ensures r.Ok? ==>
      var s := Seconds(line, "framestart").value;
      (r.value.0 - 1) as real < s * Fps <= r.value.0 as real
    ensures r.Ok? ==>
      var e := Seconds(line, "frameend").value;
      r.value.1 as real <= e * Fps < (r.value.1 + 1) as real
  {
    var s :- Seconds(line, "framestart");
    var e :- Seconds(line, "frameend");
    Ok((Ceil(s * Fps), Floor(e * Fps)))
  }

  /** The first frame never comes after the last one when the sign lasts at least one frame. */
  lemma TimingOrdered(line: MmsLine)
    requires Timing(line).Ok?
    requires Seconds(line, "framestart").value * Fps + 1.0 <= Seconds(line, "frameend").value * Fps
    ensures Timing(line).value.0 <= Timing(line).value.1
  {
  }

  /** A sign shorter than one frame can come out inverted: 1.61 s to 1.616 s gives frames 97 to 96. */
  lemma TimingInversion(line: MmsLine)
    requires Seconds(line, "framestart") == Ok(1.61) && Seconds(line, "frameend") == Ok(1.616)
    ensures Timing(line) == Ok((97, 96))
  {
  }

  /** `transition()`: the gap before the gloss, in whole frames rounded up. */
  function Transition(line: MmsLine): (r: Result<int>)
    ensures r.Ok? <==> Seconds(line, "transition").Ok?
    ensures r.Ok? ==> (r.value - 1) as real < Seconds(line, "transition").value * Fps <= r.value as real
  {
    var t :- Seconds(line, "transition");
    Ok(Ceil(t * Fps))
  }

  /**
   * `duration()`: a cell containing `%` is a share of the original animation
   * (the number between the percent signs, over 100); any other text is a time
   * in seconds, rounded up to whole frames.
   */
  function GetDuration(line: MmsLine): (r: Result<Duration>)
    ensures r.Ok? ==> Get(line, "duration").Ok? && Get(line, "duration").value.Str?
    ensures r.Ok? && r.value.Ratio? ==>
      '%' in Get(line, "duration").value.text &&
      ParseFloat(Strip(Get(line, "duration").value.text, '%')) == Ok(r.value.ratio * 100.0)
    ensures r.Ok? && r.value.Frames? ==>
      '%' !in Get(line, "duration").value.text &&
      var t := ParseFloat(Get(line, "duration").value.text);
      t.Ok? && (r.value.count - 1) as real < t.value * Fps <= r.value.count as real
    ensures Get(line, "duration").Ok? && !Get(line, "duration").value.Str? ==> r.Err? && r.error.TypeError?
  {
    var d :- Get(line, "duration");
    match d
    case Str(s) =>
      if '%' in s then
        var v :- ParseFloat(Strip(s, '%'));
        Ok(Ratio(v / 100.0))
      else
        var v :- ParseFloat(s);
        Ok(Frames(Ceil(v * Fps)))
    case _ => Err(TypeError("'%' in a non-string"))
  }

  /** A cell `<n>%` is the share n/100. */
  lemma DurationPercent(line: MmsLine, n: nat)
    requires Get(line, "duration") == Ok(Str(NatToString(n) + "%"))
    ensures GetDuration(line) == Ok(Ratio(n as real / 100.0))
  {
    var d := NatToString(n);
    var s := d + "%";
    assert s[|s| - 1] == '%';
    assert '%' in s;
    assert d[0] != '%' by {
      assert IsDigit(d[0]);
    }
    assert LStrip(s, '%') == s;
    assert s[..|s| - 1] == d;
    assert RStrip(d, '%') == d by {
      assert IsDigit(d[|d| - 1]);
    }
    assert Strip(s, '%') == d;
    ParseFloatNat(n);
  }

  /** `index_for_column`: each header name mapped to the position where it last occurs. */
  function ColumnIndex(header: seq<string>): (r: map<string, nat>)
    ensures forall k :: k in r <==> k in header
    ensures forall k <- r :: r[k] < |header| && header[r[k]] == k
    ensures forall k <- r :: forall i :: r[k] < i < |header| ==> header[i] != k
  {
    if |header| == 0 then map[]
    else ColumnIndex(header[..|header| - 1])[header[|header| - 1] := |header| - 1]
  }

  /** Distinct column names never share a position. */
  lemma ColumnIndexInjective(header: seq<string>, a: string, b: string)
    requires a in ColumnIndex(header) && b in ColumnIndex(header) && a != b
    ensures ColumnIndex(header)[a] != ColumnIndex(header)[b]
  {
  }

  /** The inflection columns present in the header; the torso needs both its shift and rotation columns. */
  function AvailabilityOf(header: seq<string>): (r: Availability)
    ensures r.torso <==> "torsorelocax" in header && "torsorelocx" in header
    ensures r.domHandReloc <==> "domhandrelocx" in header
    ensures r.ndomHandReloc <==> "ndomhandrelocx" in header
    ensures r.domHandRot <==> "domhandrotx" in header
    ensures r.ndomHandRot <==> "ndomhandrotx" in header
    ensures r.head <==> "headrotx" in header
    ensures r.shoulders <==> "domshoulderrelocx" in header
  {
    Availability(
      domHandReloc := "domhandrelocx" in header,
      ndomHandReloc := "ndomhandrelocx" in header,
      domHandRot := "domhandrotx" in header,
      ndomHandRot := "ndomhandrotx" in header,
      torso := "torsorelocax" in header && "torsorelocx" in header,
      head := "headrotx" in header,
      shoulders := "domshoulderrelocx" in header)
  }

  /** A parsed entry: its key and its line. */
  datatype Entry = Entry(key: GlossKey, line: MmsLine)

  /** Empty text becomes `None`. */
  function ToCells(row: seq<string>): (r: seq<Cell>)
    ensures |r| == |row|
    ensures forall i :: 0 <= i < |row| ==> r[i] == if row[i] == "" then Empty else Str(row[i])
  {
    seq(|row|, i requires 0 <= i < |row| => if row[i] == "" then Empty else Str(row[i]))
  }

  function Column(index: map<string, nat>, key: string): (r: Result<nat>)
    ensures r.Ok? <==> key in index
    ensures r.Ok? ==> r.value == index[key]
  {
    if key in index then Ok(index[key]) else Err(KeyError(key))
  }

  function CellAt(cells: seq<Cell>, i: nat): (r: Result<Cell>)
    ensures r.Ok? <==> i < |cells|
    ensures r.Ok? ==> r.value == cells[i]
  {
    if i < |cells| then Ok(cells[i]) else Err(IndexError("gloss_line"))
  }

  /** A compound gloss: a category other than signs and a name made of `-`-separated parts. */
  predicate IsCompound(name: string, category: string) {
    category != DefaultCategory && '-' in name
  }

  /** Where a compound row's parts put their start, end and transition. */
  datatype CompoundLayout = CompoundLayout(
    fsCol: nat, feCol: nat, trCol: nat, category: string, parts: seq<string>, start: real, delta: real)

  /** The cells of part `i` of a compound row. */
  function PartCells(cells: seq<Cell>, lay: CompoundLayout, i: nat): (r: seq<Cell>)
    requires |cells| > 0 && lay.fsCol < |cells| && lay.feCol < |cells| && lay.trCol < |cells|
    requires i < |lay.parts|
    ensures |r| == |cells|
  {
    var c := cells[0 := Str(lay.category + ":" + lay.parts[i])]
      [lay.fsCol := Number(lay.start + lay.delta * i as real)]
      [lay.feCol := Number(lay.start + lay.delta * (i + 1) as real - TransitionShare * lay.delta)]
      [lay.trCol := Number(TransitionShare * lay.delta)];
    if i == |lay.parts| - 1 then c[lay.trCol := cells[lay.trCol]] else c
  }

  /** The cells of every part of a compound row, in order. */
  function CompoundCells(cells: seq<Cell>, lay: CompoundLayout): (r: seq<seq<Cell>>)
    requires |cells| > 0 && lay.fsCol < |cells| && lay.feCol < |cells| && lay.trCol < |cells|
    ensures |r| == |lay.parts| && forall i :: 0 <= i < |r| ==> r[i] == PartCells(cells, lay, i)
  {
    seq(|lay.parts|, i requires 0 <= i < |lay.parts| => PartCells(cells, lay, i))
  }

  /** The entries of parts `i..` of a compound row, from the parts' cells, the first part having position `idx`. */
  function PartEntries(index: map<string, nat>, parts: seq<seq<Cell>>, idx: nat, i: nat): (r: Result<seq<Entry>>)
    requires i <= |parts|
    ensures r.Ok? ==> |r.value| == |parts| - i
    ensures r.Ok? ==> forall k :: 0 <= k < |r.value| ==>
      r.value[k].key.idx == idx + i + k && r.value[k].line.cells == parts[i + k]
    decreases |parts| - i
  {
    if i == |parts| then Ok([])
    else
      var line :- NewLine(index, parts[i], idx + i);
      var rest :- PartEntries(index, parts, idx, i + 1);
      Ok([Entry(GlossKey(idx + i, line.name), line)] + rest)
  }

  /** The layout of a compound row: columns, parts, start time and slot length. */
  function CompoundLayoutOf(index: map<string, nat>, cells: seq<Cell>, name: string, category: string): Result<CompoundLayout> {
    var fsCol :- Column(index, "framestart");
    var fsCell :- CellAt(cells, fsCol);
    var start :- FloatOf(fsCell);
    var feCol :- Column(index, "frameend");
    var feCell :- CellAt(cells, feCol);
    var end :- FloatOf(feCell);
    var parts := Split(name, '-');
    var trCol :- Column(index, "transition");
    var _ :- CellAt(cells, trCol);
    Ok(CompoundLayout(fsCol, feCol, trCol, category, parts, start, (end - start) / |parts| as real))
  }

  /** A row as entries: one entry, or one per part of a compound gloss. */
  function RowEntries(index: map<string, nat>, row: seq<string>, idx: nat): (r: Result<seq<Entry>>)
    ensures r.Ok? ==> |r.value| >= 1
    ensures r.Ok? ==> forall k :: 0 <= k < |r.value| ==> r.value[k].key.idx == idx + k
  {
    if |row| == 0 then Err(IndexError("gloss_line[0]"))
    else
      var (name, category) := FindDatatype(row[0]);
      var cells := ToCells(row);
      if IsCompound(name, category) then
        var lay :- CompoundLayoutOf(index, cells, name, category);
        assert |lay.parts| >= 2;
        PartEntries(index, CompoundCells(cells, lay), idx, 0)
      else
        var line :- NewLine(index, cells, idx);
        Ok([Entry(GlossKey(idx, line.name), line)])
  }

  /** The parser of every row after the header. */
  function RowParser(index: map<string, nat>): (parse: (seq<string>, nat) -> Result<seq<Entry>>)
    ensures NumbersFrom(parse)
  {
    (row: seq<string>, idx: nat) => RowEntries(index, row, idx)
  }

  /**
   * Rows parsed one after the other by `parse`, the first from position `idx`
   * and each next one from the position after the entries before it; the
   * first row that fails fails them all.
   */
  function RowsWith(parse: (seq<string>, nat) -> Result<seq<Entry>>, rows: seq<seq<string>>, idx: nat): Result<seq<Entry>> {
    if |rows| == 0 then Ok([])
    else
      var es :- parse(rows[0], idx);
      Prepend(es, RowsWith(parse, rows[1..], idx + |es|))
  }

  /** A row parser that numbers its entries consecutively from the position it is given. */
  ghost predicate NumbersFrom(parse: (seq<string>, nat) -> Result<seq<Entry>>) {
    forall row, idx: nat :: parse(row, idx).Ok? ==>
      forall k :: 0 <= k < |parse(row, idx).value| ==> parse(row, idx).value[k].key.idx == idx + k
  }

  /** Rows parsed by such a parser are numbered consecutively too. */
  lemma {:induction false} RowsWithNumbered(parse: (seq<string>, nat) -> Result<seq<Entry>>, rows: seq<seq<string>>, idx: nat)
    requires NumbersFrom(parse)
    ensures var r := RowsWith(parse, rows, idx);
      r.Ok? ==> forall k :: 0 <= k < |r.value| ==> r.value[k].key.idx == idx + k
  {
    if |rows| > 0 {
      var head := parse(rows[0], idx);
      if head.Ok? {
        RowsWithNumbered(parse, rows[1..], idx + |head.value|);
      }
    }
  }

  /** The rows (after the header) as entries, numbered from `idx`. */
  function RowsEntries(index: map<string, nat>, rows: seq<seq<string>>, idx: nat): (r: Result<seq<Entry>>)
    ensures r.Ok? ==> forall k :: 0 <= k < |r.value| ==> r.value[k].key.idx == idx + k
  {
    RowsWithNumbered(RowParser(index), rows, idx);
    RowsWith(RowParser(index), rows, idx)
  }

  /**
   * Compound split: part `i` starts `i` slots after the row's start and ends 30%
   * of a slot before the next slot; the transition is that 30% except for the
   * last part, which keeps the row's own transition.
   */
  lemma CompoundParts(index: map<string, nat>, cells: seq<Cell>, lay: CompoundLayout, idx: nat, es: seq<Entry>)
    requires |cells| > 0 && lay.fsCol < |cells| && lay.feCol < |cells| && lay.trCol < |cells|
    requires lay.fsCol != lay.feCol && lay.feCol != lay.trCol && lay.fsCol != lay.trCol
    requires PartEntries(index, CompoundCells(cells, lay), idx, 0) == Ok(es)
    ensures |es| == |lay.parts|
    ensures forall i :: 0 <= i < |es| ==> es[i].key.idx == idx + i
    ensures forall i :: 0 <= i < |es| ==> |es[i].line.cells| == |cells|
    ensures forall i :: 0 <= i < |es| ==>
      es[i].line.cells[lay.fsCol] == Number(lay.start + lay.delta * i as real) &&
      es[i].line.cells[lay.feCol] == Number(lay.start + lay.delta * (i + 1) as real - TransitionShare * lay.delta)
    ensures forall i :: 0 <= i < |es| - 1 ==> es[i].line.cells[lay.trCol] == Number(TransitionShare * lay.delta)
    ensures |es| > 0 ==> es[|es| - 1].line.cells[lay.trCol] == cells[lay.trCol]
  {
    forall i | 0 <= i < |es|
      ensures |es[i].line.cells| == |cells|
      ensures es[i].line.cells[lay.fsCol] == Number(lay.start + lay.delta * i as real)
      ensures es[i].line.cells[lay.feCol] == Number(lay.start + lay.delta * (i + 1) as real - TransitionShare * lay.delta)
      ensures es[i].line.cells[lay.trCol] == if i == |lay.parts| - 1 then cells[lay.trCol] else Number(TransitionShare * lay.delta)
    {
      PartCellsValues(cells, lay, i);
    }
  }

  lemma PartCellsValues(cells: seq<Cell>, lay: CompoundLayout, i: nat)
    requires |cells| > 0 && lay.fsCol < |cells| && lay.feCol < |cells| && lay.trCol < |cells|
    requires lay.fsCol != lay.feCol && lay.feCol != lay.trCol && lay.fsCol != lay.trCol
    requires i < |lay.parts|
    ensures var c := PartCells(cells, lay, i);
      c[lay.fsCol] == Number(lay.start + lay.delta * i as real) &&
      c[lay.feCol] == Number(lay.start + lay.delta * (i + 1) as real - TransitionShare * lay.delta) &&
      c[lay.trCol] == if i == |lay.parts| - 1 then cells[lay.trCol] else Number(TransitionShare * lay.delta)
  {
  }

  /**
   * The parts tile the row's time span: each part's end plus its transition is
   * the next part's start, and the last part ends a transition before the row's end.
   */
  lemma CompoundPartsTile(start: real, end: real, n: nat, i: nat)
    requires n >= 1 && i < n
    ensures var delta := (end - start) / n as real;
      var partEnd := start + delta * (i + 1) as real - TransitionShare * delta;
      (i < n - 1 ==> partEnd + TransitionShare * delta == start + delta * (i + 1) as real) &&
      (i == n - 1 ==> partEnd + TransitionShare * delta == end)
  {
  }

  /** The entries with their first frames, failing as the first entry whose timing fails. */
  function StartFrames(es: seq<Entry>): (r: Result<seq<(int, Entry)>>)
    ensures r.Ok? ==> |r.value| == |es|
    ensures r.Ok? ==> forall i :: 0 <= i < |es| ==>
      r.value[i].1 == es[i] && Timing(es[i].line).Ok? && r.value[i].0 == Timing(es[i].line).value.0
  {
    if |es| == 0 then Ok([])
    else
      var t :- Timing(es[0].line);
      var rest :- StartFrames(es[1..]);
      Ok([(t.0, es[0])] + rest)
  }

  /** `x` goes before the first element whose first frame is not smaller. */
  function Insert(x: (int, Entry), s: seq<(int, Entry)>): (r: seq<(int, Entry)>)
    ensures multiset(r) == multiset(s) + multiset{x}
    ensures |r| == |s| + 1
  {
    if |s| == 0 || x.0 <= s[0].0 then [x] + s
    else
      assert s == [s[0]] + s[1..];
      [s[0]] + Insert(x, s[1..])
  }

  /** `sorted(..., key=start frame)`: an insertion sort, which keeps equal keys in input order. */
  function SortByStart(s: seq<(int, Entry)>): (r: seq<(int, Entry)>)
    ensures multiset(r) == multiset(s)
    ensures |r| == |s|
  {
    if |s| == 0 then []
    else
      assert s == [s[0]] + s[1..];
      Insert(s[0], SortByStart(s[1..]))
  }

  /** Inserting adds `x` and nothing else. */
  lemma InsertMembers(x: (int, Entry), s: seq<(int, Entry)>)
    ensures forall e <- Insert(x, s) :: e == x || e in s
  {
    forall e <- Insert(x, s) ensures e == x || e in s {
      assert e in multiset(Insert(x, s));
    }
  }

  predicate SortedByStart(s: seq<(int, Entry)>) {
    forall i, j :: 0 <= i < j < |s| ==> s[i].0 <= s[j].0
  }

  lemma {:induction false} InsertSorted(x: (int, Entry), s: seq<(int, Entry)>)
    requires SortedByStart(s)
    ensures SortedByStart(Insert(x, s))
    decreases |s|
  {
    if |s| > 0 && x.0 > s[0].0 {
      InsertSorted(x, s[1..]);
      var r := Insert(x, s[1..]);
      assert forall e <- r :: s[0].0 <= e.0 by {
        forall e <- r ensures s[0].0 <= e.0 {
          assert e in multiset(r);
          assert e == x || e in multiset(s[1..]);
        }
      }
    }
  }

  /** The sort orders by first frame. */
  lemma {:induction false} SortSorted(s: seq<(int, Entry)>)
    ensures SortedByStart(SortByStart(s))
  {
    if |s| > 0 {
      SortSorted(s[1..]);
      InsertSorted(s[0], SortByStart(s[1..]));
    }
  }

  /** Among entries with the same first frame, positions only grow. */
  predicate StableByIdx(s: seq<(int, Entry)>) {
    forall i, j :: 0 <= i < j < |s| && s[i].0 == s[j].0 ==> s[i].1.key.idx < s[j].1.key.idx
  }

  lemma {:induction false} InsertStable(x: (int, Entry), s: seq<(int, Entry)>)
    requires StableByIdx(s)
    requires forall e <- s :: x.1.key.idx < e.1.key.idx
    ensures StableByIdx(Insert(x, s))
    decreases |s|
  {
    if |s| > 0 && x.0 > s[0].0 {
      InsertStable(x, s[1..]);
      InsertMembers(x, s[1..]);
      var r := Insert(x, s[1..]);
      assert Insert(x, s) == [s[0]] + r;
      forall j | 0 < j < |r| + 1 && s[0].0 == ([s[0]] + r)[j].0
        ensures s[0].1.key.idx < ([s[0]] + r)[j].1.key.idx
      {
        assert ([s[0]] + r)[j] == r[j - 1];
        assert r[j - 1] in r;
      }
    }
  }

  /** The sort is stable: with positions increasing along the input, equal first frames keep their order. */
  lemma {:induction false} SortStable(s: seq<(int, Entry)>)
    requires forall i, j :: 0 <= i < j < |s| ==> s[i].1.key.idx < s[j].1.key.idx
    ensures StableByIdx(SortByStart(s))
  {
    if |s| > 0 {
      SortStable(s[1..]);
      var t := SortByStart(s[1..]);
      forall e <- t ensures s[0].1.key.idx < e.1.key.idx {
        assert e in multiset(s[1..]);
      }
      InsertStable(s[0], t);
    }
  }

  /** The parsed table: its entries in timeline order and the availability of inflection columns. */
  datatype Table = Table(entries: seq<Entry>, availability: Availability)

  function Unkeyed(s: seq<(int, Entry)>): (r: seq<Entry>)
    ensures |r| == |s| && forall i :: 0 <= i < |s| ==> r[i] == s[i].1
  {
    seq(|s|, i requires 0 <= i < |s| => s[i].1)
  }

  /** `MMSParser.parse` on the rows of the table (the first row is the header). */
  function ParseTable(rows: seq<seq<string>>): (r: Result<Table>)
    ensures |rows| == 0 ==> r == Err(IndexError("data[0]"))
    ensures r.Ok? ==> forall e <- r.value.entries :: Timing(e.line).Ok?
  {
    if |rows| == 0 then Err(IndexError("data[0]"))
    else
      var index := ColumnIndex(rows[0]);
      var es :- RowsEntries(index, rows[1..], 0);
      var keyed :- StartFrames(es);
      SortedTimed(keyed);
      Ok(Table(Unkeyed(SortByStart(keyed)), AvailabilityOf(rows[0])))
  }

  /** Sorting keeps the entries, so every sorted entry still has its readable timing. */
  lemma SortedTimed(keyed: seq<(int, Entry)>)
    requires forall i :: 0 <= i < |keyed| ==> Timing(keyed[i].1.line).Ok?
    ensures forall e <- Unkeyed(SortByStart(keyed)) :: Timing(e.line).Ok?
  {
    var sorted := SortByStart(keyed);
    forall i | 0 <= i < |sorted|
      ensures Timing(sorted[i].1.line).Ok?
    {
      assert sorted[i] in multiset(keyed);
      var j :| 0 <= j < |keyed| && keyed[j] == sorted[i];
    }
  }

  /**
   * After parsing, entries are in non-decreasing order of first frame, equal
   * first frames keep row order, and the positions are exactly 0 .. n-1.
   */
  lemma ParsedOrder(rows: seq<seq<string>>, t: Table)
    requires ParseTable(rows) == Ok(t)
    ensures forall e <- t.entries :: Timing(e.line).Ok?
    ensures forall i, j :: 0 <= i < j < |t.entries| ==>
      Timing(t.entries[i].line).value.0 <= Timing(t.entries[j].line).value.0
    ensures forall i, j :: 0 <= i < j < |t.entries| ==>
      (Timing(t.entries[i].line).value.0 == Timing(t.entries[j].line).value.0 ==>
       t.entries[i].key.idx < t.entries[j].key.idx)
    ensures forall i, j :: 0 <= i < j < |t.entries| ==> t.entries[i].key != t.entries[j].key
    ensures forall e <- t.entries :: e.key.idx < |t.entries|
    ensures forall i :: 0 <= i < |t.entries| ==> i in Positions(t.entries)
  {
    var index := ColumnIndex(rows[0]);
    var es := RowsEntries(index, rows[1..], 0).value;
    var keyed := StartFrames(es).value;
    assert StartsKeyed(keyed) && Numbered(keyed);
    assert t.entries == Unkeyed(SortByStart(keyed));
    SortedTimeline(keyed);
    SortedPositions(keyed);
  }

  /** Entries already collected, put before the outcome of the rows still to come. */
  function Prepend(es: seq<Entry>, rest: Result<seq<Entry>>): (r: Result<seq<Entry>>)
    ensures rest.Err? ==> r == rest
    ensures rest.Ok? ==> r == Ok(es + rest.value)
  {
    var more :- rest;
    Ok(es + more)
  }

  /** Collecting in two steps is collecting the two parts at once. */
  lemma PrependTwice(es: seq<Entry>, more: seq<Entry>, rest: Result<seq<Entry>>)
    ensures Prepend(es, Prepend(more, rest)) == Prepend(es + more, rest)
  {
    if rest.Ok? {
      assert es + (more + rest.value) == es + more + rest.value;
    }
  }

  /**
   * `MMSParser.parse` as it runs: the header's columns numbered one by one,
   * then each row turned into its entries (one, or one per compound part)
   * with the position counter advanced past them, then the entries sorted by
   * their first frame. A table without a header row fails on `data[0]`.
   */
  method Parse(rows: seq<seq<string>>) returns (r: Result<Table>)
    ensures r == ParseTable(rows)
  {
    if |rows| == 0 {
      return Err(IndexError("data[0]"));
    }
    var index := NumberColumns(rows[0]);
    var es := CollectEntries(RowParser(index), rows);
    if es.Err? {
      return Err(es.error);
    }
    var keyed := StartFrames(es.value);
    if keyed.Err? {
      return Err(keyed.error);
    }
    r := Ok(Table(Unkeyed(SortByStart(keyed.value)), AvailabilityOf(rows[0])));
  }

  /** The loop filling `index_for_column`: a later column of the same name overwrites an earlier one. */
  method NumberColumns(header: seq<string>) returns (index: map<string, nat>)
    ensures index == ColumnIndex(header)
  {
    index := map[];
    for i := 0 to |header|
      invariant index == ColumnIndex(header[..i])
    {
      assert header[..i + 1][..i] == header[..i];
      index := index[header[i] := i];
    }
    assert header[..|header|] == header;
  }

  /** Nothing collected yet: the outcome is that of the rows to come. */
  lemma PrependNone(rest: Result<seq<Entry>>)
    ensures Prepend([], rest) == rest
  {
    if rest.Ok? {
      assert [] + rest.value == rest.value;
    }
  }

  /** No rows left: the outcome is what was collected. */
  lemma PrependAll(es: seq<Entry>)
    ensures Prepend(es, Ok([])) == Ok(es)
  {
    assert es + [] == es;
  }

  /** One step of the row loop: row `i`'s outcome fails the rows, or joins what was collected. */
  lemma CollectStep(parse: (seq<string>, nat) -> Result<seq<Entry>>, rows: seq<seq<string>>, i: nat, idx: nat,
                    es: seq<Entry>, all: Result<seq<Entry>>)
    requires i < |rows| && all == Prepend(es, RowsWith(parse, rows[i..], idx))
    ensures var row := parse(rows[i], idx);
      (row.Err? ==> all == Err(row.error)) &&
      (row.Ok? ==> all == Prepend(es + row.value, RowsWith(parse, rows[i + 1..], idx + |row.value|)))
  {
    var tail := rows[i..];
    assert tail[0] == rows[i] && tail[1..] == rows[i + 1..];
    var row := parse(rows[i], idx);
    if row.Ok? {
      PrependTwice(es, row.value, RowsWith(parse, rows[i + 1..], idx + |row.value|));
    }
  }

  /** After the last row, the outcome is what was collected. */
  lemma CollectDone(parse: (seq<string>, nat) -> Result<seq<Entry>>, rows: seq<seq<string>>, idx: nat,
                    es: seq<Entry>, all: Result<seq<Entry>>)
    requires all == Prepend(es, RowsWith(parse, rows[|rows|..], idx))
    ensures all == Ok(es)
  {
    assert rows[|rows|..] == [];
    PrependAll(es);
  }

  /** The loop over the rows after the header, `idx` counting the entries made so far. */
  method CollectEntries(parse: (seq<string>, nat) -> Result<seq<Entry>>, rows: seq<seq<string>>) returns (r: Result<seq<Entry>>)
    requires |rows| > 0
    ensures r == RowsWith(parse, rows[1..], 0)
  {
    var es: seq<Entry> := [];
    var idx: nat := 0;
    var i := 1;
    ghost var all := RowsWith(parse, rows[1..], 0);
    PrependNone(all);
    while i < |rows|
      invariant 1 <= i <= |rows|
      invariant all == Prepend(es, RowsWith(parse, rows[i..], idx))
    {
      var row := parse(rows[i], idx);
      CollectStep(parse, rows, i, idx, es, all);
      if row.Err? {
        return Err(row.error);
      }
      es := es + row.value;
      idx := idx + |row.value|;
      i := i + 1;
    }
    CollectDone(parse, rows, idx, es, all);
    r := Ok(es);
  }

  /** The sorted entries are in timeline order, equal first frames in row order. */
  lemma SortedTimeline(keyed: seq<(int, Entry)>)
    requires StartsKeyed(keyed) && Numbered(keyed)
    ensures var es := Unkeyed(SortByStart(keyed));
      (forall e <- es :: Timing(e.line).Ok?) &&
      (forall i, j :: 0 <= i < j < |es| ==> Timing(es[i].line).value.0 <= Timing(es[j].line).value.0) &&
      (forall i, j :: 0 <= i < j < |es| ==>
         (Timing(es[i].line).value.0 == Timing(es[j].line).value.0 ==> es[i].key.idx < es[j].key.idx))
  {
    var sorted := SortByStart(keyed);
    SortSorted(keyed);
    SortStable(keyed);
    SortKeepsStarts(keyed);
  }

  /** The sorted entries keep distinct keys and exactly the positions `0 .. n-1`. */
  lemma SortedPositions(keyed: seq<(int, Entry)>)
    requires Numbered(keyed)
    ensures var es := Unkeyed(SortByStart(keyed));
      (forall i, j :: 0 <= i < j < |es| ==> es[i].key != es[j].key) &&
      (forall e <- es :: e.key.idx < |es|) &&
      (forall i :: 0 <= i < |es| ==> i in Positions(es))
  {
    SortDistinct(keyed);
    SortKeepsPositions(keyed);
  }

  /** Each pair carries the first frame of its entry. */
  predicate StartsKeyed(s: seq<(int, Entry)>) {
    forall i :: 0 <= i < |s| ==> Timing(s[i].1.line).Ok? && s[i].0 == Timing(s[i].1.line).value.0
  }

  /** The entries are numbered by their place. */
  predicate Numbered(s: seq<(int, Entry)>) {
    forall i :: 0 <= i < |s| ==> s[i].1.key.idx == i
  }

  lemma SortKeepsStarts(s: seq<(int, Entry)>)
    requires StartsKeyed(s)
    ensures StartsKeyed(SortByStart(s))
  {
    var r := SortByStart(s);
    forall i | 0 <= i < |r| ensures Timing(r[i].1.line).Ok? && r[i].0 == Timing(r[i].1.line).value.0 {
      assert r[i] in multiset(s);
      var j :| 0 <= j < |s| && s[j] == r[i];
    }
  }

  /** Sorting numbered entries keeps exactly the positions `0 .. n-1`. */
  lemma SortKeepsPositions(s: seq<(int, Entry)>)
    requires Numbered(s)
    ensures forall p <- SortByStart(s) :: p.1.key.idx < |s|
    ensures forall i :: 0 <= i < |s| ==> i in Positions(Unkeyed(SortByStart(s)))
  {
    var r := SortByStart(s);
    forall p <- r ensures p.1.key.idx < |s| {
      assert p in multiset(s);
      var j :| 0 <= j < |s| && s[j] == p;
    }
    forall i | 0 <= i < |s| ensures i in Positions(Unkeyed(r)) {
      assert s[i] in multiset(r);
      var j :| 0 <= j < |r| && r[j] == s[i];
      assert Positions(Unkeyed(r))[j] == i;
    }
  }

  /** The positions of the entries, in order. */
  function Positions(es: seq<Entry>): (r: seq<nat>)
    ensures |r| == |es| && forall i :: 0 <= i < |es| ==> r[i] == es[i].key.idx
  {
    seq(|es|, i requires 0 <= i < |es| => es[i].key.idx)
  }

  predicate DistinctIdx(s: seq<(int, Entry)>) {
    forall i, j :: 0 <= i < j < |s| ==> s[i].1.key.idx != s[j].1.key.idx
  }

  lemma {:induction false} InsertDistinct(x: (int, Entry), s: seq<(int, Entry)>)
    requires DistinctIdx(s)
    requires forall e <- s :: x.1.key.idx != e.1.key.idx
    ensures DistinctIdx(Insert(x, s))
    decreases |s|
  {
    if |s| > 0 && x.0 > s[0].0 {
      InsertDistinct(x, s[1..]);
      var r := Insert(x, s[1..]);
      forall e <- r ensures s[0].1.key.idx != e.1.key.idx {
        assert e in multiset(r);
        assert e == x || e in multiset(s[1..]);
      }
    }
  }

  /** Sorting entries with distinct positions keeps the positions distinct. */
  lemma {:induction false} SortDistinct(s: seq<(int, Entry)>)
    requires DistinctIdx(s)
    ensures DistinctIdx(SortByStart(s))
  {
    if |s| > 0 {
      SortDistinct(s[1..]);
      var t := SortByStart(s[1..]);
      forall e <- t ensures s[0].1.key.idx != e.1.key.idx {
        assert e in multiset(s[1..]);
      }
      InsertDistinct(s[0], t);
    }
  }

  /** The table as the player holds it: ordered keys, their lines, and where the motion files live. */
  class Mms {
    const glosses: seq<GlossKey>
    var lines: map<GlossKey, MmsLine>
    const generatedRoot: Path
    const availability: Availability

    ghost predicate Valid()
      reads this
    {
      Keyed(glosses, lines) &&
      Distinct(glosses)
    }

    /** `MMS(mms, generated_root, availability)` for a parsed table. */
    constructor(t: Table, root: Path)
      requires forall i, j :: 0 <= i < j < |t.entries| ==> t.entries[i].key != t.entries[j].key
      ensures Valid()
      ensures glosses == seq(|t.entries|, i requires 0 <= i < |t.entries| => t.entries[i].key)
      ensures forall e <- t.entries :: e.key in lines && lines[e.key] == e.line
      ensures generatedRoot == root && availability == t.availability
    {
      glosses := seq(|t.entries|, i requires 0 <= i < |t.entries| => t.entries[i].key);
      lines := map e <- t.entries :: e.key := e.line;
      generatedRoot := root;
      availability := t.availability;
      new;
      forall e <- t.entries ensures e.key in lines && lines[e.key] == e.line {
        var i :| 0 <= i < |t.entries| && t.entries[i] == e;
        assert e.key in lines;
        forall e' <- t.entries | e'.key == e.key ensures e' == e {
          var j :| 0 <= j < |t.entries| && t.entries[j] == e';
          assert i == j;
        }
      }
    }

    /** `mms[key]`: the line of a key, or a `KeyError`. */
    function Get(key: GlossKey): (r: Result<MmsLine>)
      reads this
      ensures r.Ok? <==> key in lines
      ensures r.Ok? ==> r.value == lines[key]
      ensures r.Err? ==> r.error.KeyError?
    {
      if key in lines then Ok(lines[key]) else Err(KeyError("gloss"))
    }

    /**
     * `find_mocap_data_files`: each entry gets its motion file; a HOLD entry gets
     * the file of the last entry before it that is not a HOLD.
     */
    method FindMocapDataFiles(present: Exists) returns (r: Result<()>)
      requires Valid()
      modifies this
      ensures Valid()
      ensures r.Ok? <==> ResolveError(glosses, old(lines), generatedRoot, present, 0).None?
      ensures r.Err? ==> r.error == ResolveError(glosses, old(lines), generatedRoot, present, 0).value
      ensures r.Ok? ==> lines == ResolvedLines(glosses, old(lines), generatedRoot, |glosses|)
    {
      var lastPath: Option<Path> := None;
      ghost var lines0 := lines;
      for num := 0 to |glosses|
        invariant Valid()
        invariant lines == ResolvedLines(glosses, lines0, generatedRoot, num)
        invariant lastPath == if num == 0 then None else ResolvedPath(glosses, lines0, generatedRoot, num - 1)
        invariant SucceedsBefore(glosses, lines0, generatedRoot, present, num)
      {
        var err;
        err, lastPath := ResolveOne(present, num, lastPath, lines0);
        if err.Some? {
          SucceedsBeforeError(glosses, lines0, generatedRoot, present, num);
          r := Err(err.value);
          return;
        }
        SucceedsBeforeNext(glosses, lines0, generatedRoot, present, num);
      }
      r := Ok(());
      ResolveErrorNone(glosses, lines0, generatedRoot, present, |glosses|);
    }

    /** One turn of the loop in `FindMocapDataFiles`, at position `num`. */
    method ResolveOne(present: Exists, num: nat, lastPath: Option<Path>, ghost lines0: map<GlossKey, MmsLine>)
      returns (err: Option<PyError>, newPath: Option<Path>)
      requires Valid() && Keyed(glosses, lines0)
      requires num < |glosses|
      requires lines == ResolvedLines(glosses, lines0, generatedRoot, num)
      requires lastPath == if num == 0 then None else ResolvedPath(glosses, lines0, generatedRoot, num - 1)
      modifies this
      ensures Valid()
      ensures err == ResolveStep(glosses, lines0, generatedRoot, present, num)
      ensures err.None? ==> newPath == ResolvedPath(glosses, lines0, generatedRoot, num)
      ensures err.None? ==> lines == ResolvedLines(glosses, lines0, generatedRoot, num + 1)
    {
      var g := glosses[num];
      var line := lines[g];
      ResolveLoopStep(glosses, lines0, generatedRoot, present, num, lastPath);
      assert line == lines0[g] by { ResolvedLinesUnchanged(glosses, lines0, generatedRoot, num, num); }
      newPath := lastPath;
      if IsHold(line.name) {
        var prev := glosses[if num == 0 then |glosses| - 1 else num - 1];
        lines := lines[g := line.(path := lines[prev].path, category := HoldCategory)];
        if lastPath.None? {
          return Some(UnboundLocalError("gloss_path")), newPath;
        }
      } else {
        var p := GlossPath(generatedRoot, line);
        if !present(p) {
          return Some(MissingFile(p.parts[|p.parts| - 1])), newPath;
        }
        newPath := Some(p);
      }
      lines := lines[g := lines[g].(path := newPath.value)];
      err := None;
    }
  }

  predicate Distinct(gs: seq<GlossKey>) {
    forall i, j :: 0 <= i < j < |gs| ==> gs[i] != gs[j]
  }

  /** Every key of `gs` has a line. */
  predicate Keyed(gs: seq<GlossKey>, lines: map<GlossKey, MmsLine>) {
    forall i :: 0 <= i < |gs| ==> gs[i] in lines
  }

  /** The loop has handled positions `0 .. n-1` without failing. */
  predicate SucceedsBefore(gs: seq<GlossKey>, lines: map<GlossKey, MmsLine>, root: Path, present: Exists, n: nat)
    requires n <= |gs| && Keyed(gs, lines)
  {
    forall k :: 0 <= k < n ==> ResolveStep(gs, lines, root, present, k).None?
  }

  lemma SucceedsBeforeNext(gs: seq<GlossKey>, lines: map<GlossKey, MmsLine>, root: Path, present: Exists, n: nat)
    requires n < |gs| && Keyed(gs, lines)
    requires SucceedsBefore(gs, lines, root, present, n)
    requires ResolveStep(gs, lines, root, present, n).None?
    ensures SucceedsBefore(gs, lines, root, present, n + 1)
  {
  }

  /** A failure right after successful steps is the failure of the whole pass. */
  lemma SucceedsBeforeError(gs: seq<GlossKey>, lines: map<GlossKey, MmsLine>, root: Path, present: Exists, n: nat)
    requires n < |gs| && Keyed(gs, lines)
    requires SucceedsBefore(gs, lines, root, present, n)
    requires ResolveStep(gs, lines, root, present, n).Some?
    ensures ResolveError(gs, lines, root, present, 0) == ResolveStep(gs, lines, root, present, n)
  {
    ResolveErrorAt(gs, lines, root, present, n);
  }

  /** What one turn of the path loop decides at position `k`, given the path carried in from `k - 1`. */
  lemma ResolveLoopStep(gs: seq<GlossKey>, lines: map<GlossKey, MmsLine>, root: Path, present: Exists, k: nat, lastPath: Option<Path>)
    requires k < |gs| && Keyed(gs, lines)
    requires lastPath == if k == 0 then None else ResolvedPath(gs, lines, root, k - 1)
    ensures IsHold(lines[gs[k]].name) ==> ResolvedPath(gs, lines, root, k) == lastPath
    ensures !IsHold(lines[gs[k]].name) ==> ResolvedPath(gs, lines, root, k) == Some(GlossPath(root, lines[gs[k]]))
    ensures ResolveStep(gs, lines, root, present, k).None? <==>
      if IsHold(lines[gs[k]].name) then lastPath.Some? else present(GlossPath(root, lines[gs[k]]))
    ensures ResolvedPath(gs, lines, root, k).Some? ==>
      ResolvedLines(gs, lines, root, k + 1) == ResolvedLines(gs, lines, root, k)[gs[k] := ResolvedLineAt(gs, lines, root, k)]
  {
  }

  /** The category a HOLD entry gets. */
  const HoldCategory := "HOLD"

  /** A HOLD entry: the first `<...>` of its name reads `HOLD`. */
  predicate IsHold(name: string) {
    FirstBracketed(name) == Some("HOLD")
  }

  /** Position of the first `>` in `t` that comes before any line break. */
  function Closing(t: string): (r: Option<nat>)
    ensures r.Some? ==> r.value < |t| && t[r.value] == '>' && forall k :: 0 <= k < r.value ==> t[k] != '>' && t[k] != '\n'
  {
    if |t| == 0 || t[0] == '\n' then None
    else if t[0] == '>' then Some(0)
    else match Closing(t[1..])
      case None => None
      case Some(j) => Some(j + 1)
  }

  /**
   * The first match of `<(.*?)>`: the shortest text after a `<` up to a `>`
   * on the same line, from the first `<` where there is one.
   */
  function FirstBracketed(s: string): (r: Option<string>)
    ensures r.Some? ==> '>' !in r.value && '\n' !in r.value
  {
    if |s| == 0 then None
    else if s[0] == '<' then
      match Closing(s[1..])
      case Some(j) => Some(s[1..][..j])
      case None => FirstBracketed(s[1..])
    else FirstBracketed(s[1..])
  }

  lemma {:induction false} ClosingAfter(pre: string, post: string)
    requires '>' !in pre && '\n' !in pre
    ensures Closing(pre + ">" + post) == Some(|pre|)
  {
    if |pre| > 0 {
      assert (pre + ">" + post)[1..] == pre[1..] + ">" + post;
      ClosingAfter(pre[1..], post);
    }
  }

  /** A name holding `<HOLD>` after text without `<` is a HOLD. */
  lemma {:induction false} HoldMarker(before: string, after: string)
    requires '<' !in before
    ensures IsHold(before + "<HOLD>" + after)
    decreases |before|
  {
    var s := before + "<HOLD>" + after;
    if |before| == 0 {
      assert s[0] == '<';
      assert s[1..] == "HOLD" + ">" + after;
      ClosingAfter("HOLD", after);
      assert s[1..][..4] == "HOLD";
    } else {
      assert s[1..] == before[1..] + "<HOLD>" + after;
      HoldMarker(before[1..], after);
    }
  }

  /** `generated_root / datatype / "trimmed" / (name + ".blend")` */
  function GlossPath(root: Path, line: MmsLine): (r: Path)
    ensures r.parts == root.parts + [line.category, "trimmed", line.name + ".blend"]
  {
    root.Join(line.category).Join("trimmed").Join(line.name + ".blend")
  }

  /** The path computed when the loop reaches position `k`: the last non-HOLD path up to `k`. */
  function ResolvedPath(gs: seq<GlossKey>, lines: map<GlossKey, MmsLine>, root: Path, k: nat): Option<Path>
    requires k < |gs| && Keyed(gs, lines)
  {
    if !IsHold(lines[gs[k]].name) then Some(GlossPath(root, lines[gs[k]]))
    else if k == 0 then None
    else ResolvedPath(gs, lines, root, k - 1)
  }

  /** A computed path is that of the nearest non-HOLD entry at or before `k`, with only HOLDs after it. */
  lemma {:induction false} ResolvedPathIsLastNonHold(gs: seq<GlossKey>, lines: map<GlossKey, MmsLine>, root: Path, k: nat)
    requires k < |gs| && Keyed(gs, lines)
    requires ResolvedPath(gs, lines, root, k).Some?
    ensures exists j :: (0 <= j <= k && !IsHold(lines[gs[j]].name) &&
      ResolvedPath(gs, lines, root, k) == Some(GlossPath(root, lines[gs[j]])) &&
      forall m :: j < m <= k ==> IsHold(lines[gs[m]].name))
  {
    if IsHold(lines[gs[k]].name) {
      ResolvedPathIsLastNonHold(gs, lines, root, k - 1);
      var j :| 0 <= j <= k - 1 && !IsHold(lines[gs[j]].name) &&
        ResolvedPath(gs, lines, root, k - 1) == Some(GlossPath(root, lines[gs[j]])) &&
        forall m :: j < m <= k - 1 ==> IsHold(lines[gs[m]].name);
      assert forall m :: j < m <= k ==> IsHold(lines[gs[m]].name);
    }
  }

  /** The failure at position `k`, if the loop fails there. */
  function ResolveStep(gs: seq<GlossKey>, lines: map<GlossKey, MmsLine>, root: Path, present: Exists, k: nat): Option<PyError>
    requires k < |gs| && Keyed(gs, lines)
  {
    var line := lines[gs[k]];
    if IsHold(line.name) then
      if ResolvedPath(gs, lines, root, k).None? then Some(UnboundLocalError("gloss_path")) else None
    else
      var p := GlossPath(root, line);
      if present(p) then None else Some(MissingFile(p.parts[|p.parts| - 1]))
  }

  /** The first failure at or after position `k`. */
  function ResolveError(gs: seq<GlossKey>, lines: map<GlossKey, MmsLine>, root: Path, present: Exists, k: nat): (r: Option<PyError>)
    requires Keyed(gs, lines)
    ensures r.Some? ==> k < |gs| && (r.value.MissingFile? || r.value == UnboundLocalError("gloss_path"))
    decreases |gs| - k
  {
    if k >= |gs| then None
    else match ResolveStep(gs, lines, root, present, k)
      case Some(e) => Some(e)
      case None => ResolveError(gs, lines, root, present, k + 1)
  }

  lemma {:induction false} ResolveErrorAt(gs: seq<GlossKey>, lines: map<GlossKey, MmsLine>, root: Path, present: Exists, k: nat)
    requires k < |gs| && Keyed(gs, lines)
    requires forall m :: 0 <= m < k ==> ResolveStep(gs, lines, root, present, m).None?
    requires ResolveStep(gs, lines, root, present, k).Some?
    ensures ResolveError(gs, lines, root, present, 0) == ResolveStep(gs, lines, root, present, k)
  {
    ResolveErrorSkip(gs, lines, root, present, k);
    var m := k;
    while m > 0
      invariant 0 <= m <= k
      invariant ResolveError(gs, lines, root, present, m) == ResolveStep(gs, lines, root, present, k)
    {
      ResolveErrorSkip(gs, lines, root, present, m - 1);
      m := m - 1;
    }
  }

  lemma {:induction false} ResolveErrorNone(gs: seq<GlossKey>, lines: map<GlossKey, MmsLine>, root: Path, present: Exists, k: nat)
    requires k <= |gs| && Keyed(gs, lines)
    requires forall m :: 0 <= m < k ==> ResolveStep(gs, lines, root, present, m).None?
    ensures ResolveError(gs, lines, root, present, 0) == ResolveError(gs, lines, root, present, k)
  {
    var m := k;
    while m > 0
      invariant 0 <= m <= k
      invariant ResolveError(gs, lines, root, present, m) == ResolveError(gs, lines, root, present, k)
    {
      ResolveErrorSkip(gs, lines, root, present, m - 1);
      m := m - 1;
    }
  }

  /** A position that fails reports its own failure; one that does not hands on to the next. */
  lemma ResolveErrorSkip(gs: seq<GlossKey>, lines: map<GlossKey, MmsLine>, root: Path, present: Exists, m: nat)
    requires m < |gs| && Keyed(gs, lines)
    ensures ResolveStep(gs, lines, root, present, m).Some? ==>
      ResolveError(gs, lines, root, present, m) == ResolveStep(gs, lines, root, present, m)
    ensures ResolveStep(gs, lines, root, present, m).None? ==>
      ResolveError(gs, lines, root, present, m) == ResolveError(gs, lines, root, present, m + 1)
  {
  }

  /** The lines after the loop has handled positions `0 .. k-1` without failing. */
  function ResolvedLines(gs: seq<GlossKey>, lines: map<GlossKey, MmsLine>, root: Path, k: nat): (r: map<GlossKey, MmsLine>)
    requires k <= |gs| && Keyed(gs, lines)
    ensures Keyed(gs, r)
  {
    if k == 0 then lines
    else
      var prior := ResolvedLines(gs, lines, root, k - 1);
      var g := gs[k - 1];
      var line := lines[g];
      var p := match ResolvedPath(gs, lines, root, k - 1) case Some(p) => p case None => line.path;
      prior[g := if IsHold(line.name) then line.(path := p, category := HoldCategory) else line.(path := p)]
  }

  /** Positions the loop has not reached yet still hold their original lines. */
  lemma {:induction false} ResolvedLinesUnchanged(gs: seq<GlossKey>, lines: map<GlossKey, MmsLine>, root: Path, k: nat, m: nat)
    requires k <= m < |gs| && Keyed(gs, lines)
    requires Distinct(gs)
    ensures ResolvedLines(gs, lines, root, k)[gs[m]] == lines[gs[m]]
  {
    if k > 0 {
      ResolvedLinesUnchanged(gs, lines, root, k - 1, m);
    }
  }

  /**
   * After the loop, an entry that is not a HOLD has its own motion file, and a
   * HOLD at position `k` has the file of position `k - 1` and the HOLD category.
   */
  lemma ResolvedEntries(gs: seq<GlossKey>, lines: map<GlossKey, MmsLine>, root: Path, present: Exists)
    requires Keyed(gs, lines)
    requires Distinct(gs)
    requires ResolveError(gs, lines, root, present, 0).None?
    ensures forall k :: 0 <= k < |gs| && !IsHold(lines[gs[k]].name) ==>
      ResolvedLines(gs, lines, root, |gs|)[gs[k]] == lines[gs[k]].(path := GlossPath(root, lines[gs[k]])) &&
      present(GlossPath(root, lines[gs[k]]))
    ensures forall k :: 0 < k < |gs| && IsHold(lines[gs[k]].name) ==>
      ResolvedLines(gs, lines, root, |gs|)[gs[k]].category == HoldCategory &&
      ResolvedLines(gs, lines, root, |gs|)[gs[k]].path == ResolvedLines(gs, lines, root, |gs|)[gs[k - 1]].path
    ensures |gs| > 0 ==> !IsHold(lines[gs[0]].name)
  {
    forall k | 0 <= k < |gs| && !IsHold(lines[gs[k]].name)
      ensures ResolvedLines(gs, lines, root, |gs|)[gs[k]] == lines[gs[k]].(path := GlossPath(root, lines[gs[k]]))
      ensures present(GlossPath(root, lines[gs[k]]))
    {
      ResolvedEntryAt(gs, lines, root, present, k);
    }
    forall k | 0 < k < |gs| && IsHold(lines[gs[k]].name)
      ensures ResolvedLines(gs, lines, root, |gs|)[gs[k]].category == HoldCategory
      ensures ResolvedLines(gs, lines, root, |gs|)[gs[k]].path == ResolvedLines(gs, lines, root, |gs|)[gs[k - 1]].path
    {
      ResolvedHoldAt(gs, lines, root, present, k);
    }
    if |gs| > 0 {
      ResolvedEntryAt(gs, lines, root, present, 0);
    }
  }

  /** A HOLD after the first position ends with the HOLD category and the path of the position before it. */
  lemma ResolvedHoldAt(gs: seq<GlossKey>, lines: map<GlossKey, MmsLine>, root: Path, present: Exists, k: nat)
    requires 0 < k < |gs| && Keyed(gs, lines)
    requires Distinct(gs)
    requires ResolveError(gs, lines, root, present, 0).None?
    requires IsHold(lines[gs[k]].name)
    ensures ResolvedLines(gs, lines, root, |gs|)[gs[k]].category == HoldCategory
    ensures ResolvedLines(gs, lines, root, |gs|)[gs[k]].path == ResolvedLines(gs, lines, root, |gs|)[gs[k - 1]].path
  {
    ResolvedEntryAt(gs, lines, root, present, k);
    ResolvedEntryAt(gs, lines, root, present, k - 1);
    assert ResolvedPath(gs, lines, root, k) == ResolvedPath(gs, lines, root, k - 1);
  }

  /** What the loop leaves at one position when the whole pass succeeds. */
  lemma ResolvedEntryAt(gs: seq<GlossKey>, lines: map<GlossKey, MmsLine>, root: Path, present: Exists, k: nat)
    requires k < |gs| && Keyed(gs, lines)
    requires Distinct(gs)
    requires ResolveError(gs, lines, root, present, 0).None?
    ensures ResolvedPath(gs, lines, root, k).Some?
    ensures ResolvedLines(gs, lines, root, |gs|)[gs[k]] == ResolvedLineAt(gs, lines, root, k)
    ensures !IsHold(lines[gs[k]].name) ==> present(GlossPath(root, lines[gs[k]]))
  {
    ResolveErrorNoneBefore(gs, lines, root, present, k);
    ResolvedLinesSettled(gs, lines, root, k, |gs|);
    ResolvedLineSettledAt(gs, lines, root, k);
  }

  /** The line the loop writes at position `k`. */
  function ResolvedLineAt(gs: seq<GlossKey>, lines: map<GlossKey, MmsLine>, root: Path, k: nat): (r: MmsLine)
    requires k < |gs| && Keyed(gs, lines)
    requires ResolvedPath(gs, lines, root, k).Some?
    ensures !IsHold(lines[gs[k]].name) ==> r == lines[gs[k]].(path := GlossPath(root, lines[gs[k]]))
    ensures IsHold(lines[gs[k]].name) ==> r == lines[gs[k]].(path := ResolvedPath(gs, lines, root, k).value, category := HoldCategory)
    ensures r.path == ResolvedPath(gs, lines, root, k).value
  {
    var line := lines[gs[k]];
    var p := ResolvedPath(gs, lines, root, k).value;
    if IsHold(line.name) then line.(path := p, category := HoldCategory) else line.(path := p)
  }

  lemma ResolvedLineSettledAt(gs: seq<GlossKey>, lines: map<GlossKey, MmsLine>, root: Path, k: nat)
    requires k < |gs| && Keyed(gs, lines)
    requires ResolvedPath(gs, lines, root, k).Some?
    ensures ResolvedLines(gs, lines, root, k + 1)[gs[k]] == ResolvedLineAt(gs, lines, root, k)
  {
  }

  /** Once the loop has passed position `k`, the line at `k` no longer changes. */
  lemma {:induction false} ResolvedLinesSettled(gs: seq<GlossKey>, lines: map<GlossKey, MmsLine>, root: Path, k: nat, n: nat)
    requires k < n <= |gs| && Keyed(gs, lines)
    requires Distinct(gs)
    ensures ResolvedLines(gs, lines, root, n)[gs[k]] == ResolvedLines(gs, lines, root, k + 1)[gs[k]]
    decreases n
  {
    if n > k + 1 {
      ResolvedLinesSettled(gs, lines, root, k, n - 1);
      assert gs[k] != gs[n - 1];
    }
  }

  /** No failure from position 0 means no failure at any position. */
  lemma {:induction false} ResolveErrorNoneBefore(gs: seq<GlossKey>, lines: map<GlossKey, MmsLine>, root: Path, present: Exists, k: nat)
    requires k < |gs| && Keyed(gs, lines)
    requires ResolveError(gs, lines, root, present, 0).None?
    ensures ResolveStep(gs, lines, root, present, k).None?
  {
    var m := 0;
    while m < k
      invariant 0 <= m <= k
      invariant ResolveError(gs, lines, root, present, m).None?
    {
      ResolveErrorSkip(gs, lines, root, present, m);
      m := m + 1;
    }
  }

  /** The path pass fails with an unbound path exactly when the first entry is a HOLD. */
  lemma UnboundOnlyFirst(gs: seq<GlossKey>, lines: map<GlossKey, MmsLine>, root: Path, present: Exists)
    requires Keyed(gs, lines)
    ensures ResolveError(gs, lines, root, present, 0) == Some(UnboundLocalError("gloss_path")) <==>
      |gs| > 0 && IsHold(lines[gs[0]].name)
  {
    if |gs| > 0 && !IsHold(lines[gs[0]].name) {
      UnboundNeverAfterNonHold(gs, lines, root, present, 0);
    }
  }

  lemma {:induction false} UnboundNeverAfterNonHold(gs: seq<GlossKey>, lines: map<GlossKey, MmsLine>, root: Path, present: Exists, k: nat)
    requires Keyed(gs, lines)
    requires 0 < |gs| && !IsHold(lines[gs[0]].name)
    ensures ResolveError(gs, lines, root, present, k) != Some(UnboundLocalError("gloss_path"))
    decreases |gs| - k
  {
    if k < |gs| {
      ResolvedPathFromFirst(gs, lines, root, k);
      UnboundNeverAfterNonHold(gs, lines, root, present, k + 1);
    }
  }

  /** With a first entry that is not a HOLD, every position has a computed path. */
  lemma {:induction false} ResolvedPathFromFirst(gs: seq<GlossKey>, lines: map<GlossKey, MmsLine>, root: Path, k: nat)
    requires k < |gs| && Keyed(gs, lines)
    requires !IsHold(lines[gs[0]].name)
    ensures ResolvedPath(gs, lines, root, k).Some?
  {
    if k > 0 && IsHold(lines[gs[k]].name) {
      ResolvedPathFromFirst(gs, lines, root, k - 1);
    }
  }
}
