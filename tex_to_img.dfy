/** The batch renderer: it checks that the typesetting tools are on the
    PATH, cuts the input lines into consecutive chunks of 1 or 15 lines and
    renders chunk i to `output_dir/prefix_i.png`. The rendering itself is a
    tool call; the model records, per chunk, the lines and the output path
    handed to `tex_to_img`. */
module TexToImg {
  import opened Wrappers
  import opened Seqs
  import opened PyStr
  import opened PyPath

  /** Lines per image: 1 in `single` mode, 15 in `combine` mode; any other
      mode fails the assertion of the script. */
  function SliceFor(mode: string): (r: Option<nat>)
    ensures r == Some(1) <==> mode == "single"
    ensures r == Some(15) <==> mode == "combine"
    ensures r.None? <==> mode != "single" && mode != "combine"
  {
    if mode == "single" then Some(1)
    else if mode == "combine" then Some(15)
    else None
  }

  /** `generate_filepath(i)`: `output_dir/{prefix}_{i}.png`. */
  function GenerateFilepath(outputDir: string, prefix: string, i: nat): string
  {
    Join(outputDir, prefix + "_" + NatToString(i) + ".png")
  }

  lemma JoinCancel(dir: string, a: string, b: string)
    requires StartsWith(a, "/") <==> StartsWith(b, "/")
    requires Join(dir, a) == Join(dir, b)
    ensures a == b
  {
    if !StartsWith(a, "/") {
      if dir == [] || EndsWith(dir, "/") {
        assert (dir + a)[|dir|..] == a;
        assert (dir + b)[|dir|..] == b;
      } else {
        assert (dir + "/" + a)[|dir| + 1..] == a;
        assert (dir + "/" + b)[|dir| + 1..] == b;
      }
    }
  }

  lemma AffixCancel(lead: string, x: string, y: string, tail: string)
    requires lead + x + tail == lead + y + tail
    ensures x == y
  {
    var a := lead + x + tail;
    var b := lead + y + tail;
    assert a[|lead|..|a| - |tail|] == x;
    assert b[|lead|..|b| - |tail|] == y;
  }

  lemma SameLead(lead: string, x: string, y: string)
    requires lead != []
    ensures StartsWith(lead + x, "/") <==> StartsWith(lead + y, "/")
  {
    assert (lead + x)[0] == (lead + y)[0];
  }

  /** Different chunks never share an output file. */
  lemma GenerateFilepathInjective(outputDir: string, prefix: string, i: nat, j: nat)
    requires GenerateFilepath(outputDir, prefix, i) == GenerateFilepath(outputDir, prefix, j)
    ensures i == j
  {
    var lead := prefix + "_";
    var si := NatToString(i);
    var sj := NatToString(j);
    assert lead + si + ".png" == lead + (si + ".png");
    assert lead + sj + ".png" == lead + (sj + ".png");
    SameLead(lead, si + ".png", sj + ".png");
    JoinCancel(outputDir, lead + si + ".png", lead + sj + ".png");
    AffixCancel(lead, si, sj, ".png");
    NatToStringInjective(i, j);
  }

  lemma GenerateFilepathDistinct(outputDir: string, prefix: string, i: nat, j: nat)
    requires i != j
    ensures GenerateFilepath(outputDir, prefix, i) != GenerateFilepath(outputDir, prefix, j)
  {
    if GenerateFilepath(outputDir, prefix, i) == GenerateFilepath(outputDir, prefix, j) {
      GenerateFilepathInjective(outputDir, prefix, i, j);
    }
  }

  /** One call of `tex_to_img`: the lines of a chunk and its output path. */
  datatype Job = Job(text: seq<string>, outputPath: string)

  function Texts(jobs: seq<Job>): seq<seq<string>>
  {
    seq(|jobs|, j requires 0 <= j < |jobs| => jobs[j].text)
  }

  lemma ChunkStartInRange(n: nat, slice: nat, j: nat)
    requires slice >= 1 && j < CeilDiv(n, slice)
    ensures j * slice < n
  {
    CeilDivBounds(n, slice);
    MulMonotone(slice, j, CeilDiv(n, slice) - 1);
  }

  /** Chunk j: `lines[j * slice : min(j * slice + slice, len(lines))]`. */
  function ChunkAt(lines: seq<string>, slice: nat, j: nat): seq<string>
    requires slice >= 1 && j < CeilDiv(|lines|, slice)
  {
    ChunkStartInRange(|lines|, slice, j);
    lines[j * slice .. Min(j * slice + slice, |lines|)]
  }

  /** Every chunk but the last is full. */
  lemma ChunkFull(n: nat, slice: nat, k: nat)
    requires slice >= 1 && k + 1 < CeilDiv(n, slice)
    ensures k * slice + slice < n
  {
    var c := CeilDiv(n, slice);
    CeilDivBounds(n, slice);
    MulMonotone(slice, k + 1, c - 1);
    assert (k + 1) * slice == k * slice + slice;
  }

  lemma ChunkAtSize(lines: seq<string>, slice: nat, j: nat)
    requires slice >= 1 && j < CeilDiv(|lines|, slice)
    ensures 0 < |ChunkAt(lines, slice, j)| <= slice
    ensures j + 1 < CeilDiv(|lines|, slice) ==> |ChunkAt(lines, slice, j)| == slice
  {
    ChunkStartInRange(|lines|, slice, j);
    if j + 1 < CeilDiv(|lines|, slice) {
      ChunkFull(|lines|, slice, j);
    }
  }

  /** The jobs `main` hands to `tex_to_img`, one per element of
      `lines[::slice]`: chunk i of the lines, written to output file i. */
  function ChunkJobs(lines: seq<string>, slice: nat, outputDir: string, prefix: string): seq<Job>
    requires slice >= 1
  {
    seq(CeilDiv(|lines|, slice), j requires 0 <= j < CeilDiv(|lines|, slice) =>
      Job(ChunkAt(lines, slice, j), GenerateFilepath(outputDir, prefix, j)))
  }

  /** One step of the chunking loop: with `start == t * slice`, the slice
      `lines[start:end]` is chunk t and extends the lines covered so far. */
  lemma ChunkStep(lines: seq<string>, slice: nat, t: nat, start: nat, end: nat)
    requires slice >= 1 && t < CeilDiv(|lines|, slice) && start == t * slice
    requires end == Min(start + slice, |lines|)
    ensures start < |lines| && start <= end
    ensures lines[start..end] == ChunkAt(lines, slice, t)
    ensures lines[..start] + lines[start..end] == lines[..end]
    ensures start + slice == (t + 1) * slice
  {
    ChunkStartInRange(|lines|, slice, t);
  }

  /** The chunking loop of `main`: `start` advances by `slice` and `end`
      is capped at `len(lines)`; the chunks together are exactly `lines`. */
  method PlanChunks(lines: seq<string>, slice: nat, outputDir: string, prefix: string) returns (jobs: seq<Job>)
    requires slice >= 1
    ensures jobs == ChunkJobs(lines, slice, outputDir, prefix)
    ensures Concat(Texts(jobs)) == lines
  {
    var strided := Stride(lines, slice);
    StrideLength(lines, slice);
    var n := |lines|;
    var c := |strided|;
    ghost var spec := ChunkJobs(lines, slice, outputDir, prefix);
    var i, start := 0, 0;
    jobs := [];
    for t := 0 to c
      invariant i == t && start == t * slice
      invariant jobs == spec[..t]
      invariant Concat(Texts(jobs)) == lines[..Min(start, n)]
    {
      var end := start + slice;
      end := if end > n then n else end;
      ChunkStep(lines, slice, t, start, end);
      var job := Job(lines[start..end], GenerateFilepath(outputDir, prefix, i));
      assert spec[..t + 1] == spec[..t] + [job];
      assert Texts(jobs + [job]) == Texts(jobs) + [job.text];
      ConcatAppend(Texts(jobs), job.text);
      jobs := jobs + [job];
      i := i + 1;
      start := start + slice;
    }
    CeilDivBounds(n, slice);
    assert Min(c * slice, n) == n;
    assert lines[..n] == lines;
    assert spec[..c] == spec;
  }

  /** The planned chunks are non-empty, all but the last hold `slice`
      lines, and no two share an output file. */
  lemma PlannedJobs(lines: seq<string>, slice: nat, outputDir: string, prefix: string)
    requires slice >= 1
    ensures var jobs := ChunkJobs(lines, slice, outputDir, prefix);
      (forall i :: 0 <= i < |jobs| ==> jobs[i].text != []) &&
      (forall i :: 0 <= i < |jobs| - 1 ==> |jobs[i].text| == slice) &&
      (forall i, j :: 0 <= i < j < |jobs| ==> jobs[i].outputPath != jobs[j].outputPath)
  {
    var jobs := ChunkJobs(lines, slice, outputDir, prefix);
    forall k | 0 <= k < |jobs|
      ensures jobs[k].text != []
      ensures k < |jobs| - 1 ==> |jobs[k].text| == slice
    {
      ChunkAtSize(lines, slice, k);
    }
    forall a, b | 0 <= a < b < |jobs|
      ensures jobs[a].outputPath != jobs[b].outputPath
    {
      GenerateFilepathDistinct(outputDir, prefix, a, b);
    }
  }

  /** A PATH entry with its quotes stripped, joined with the program name. */
  function Candidate(entry: string, program: string): string
  {
    Join(Strip(entry, '"'), program)
  }

  /** The paths `which` tries, one per PATH entry, in PATH order. */
  function Candidates(entries: seq<string>, program: string): (r: seq<string>)
    ensures |r| == |entries|
    ensures forall i :: 0 <= i < |entries| ==> r[i] == Candidate(entries[i], program)
  {
    seq(|entries|, i requires 0 <= i < |entries| => Candidate(entries[i], program))
  }

  /** The first of `candidates` that the executable check accepts. */
  function FirstExecutable(candidates: seq<string>, isExe: string -> bool): Option<string>
  {
    if |candidates| == 0 then None
    else if isExe(candidates[0]) then Some(candidates[0])
    else FirstExecutable(candidates[1..], isExe)
  }

  /** Read PATH although it is not set: `os.environ["PATH"]` raises. */
  datatype WhichError = PathUnset

  /** What `which(program)` returns. `isExe` stands for the file-system test
      "is a regular file with execute permission". */
  function WhichResult(program: string, pathEnv: Option<string>, isExe: string -> bool): Result<Option<string>, WhichError>
  {
    if '/' in program then Ok(if isExe(program) then Some(program) else None)
    else if pathEnv.None? then Err(PathUnset)
    else Ok(FirstExecutable(Candidates(SplitOn(pathEnv.value, ':'), program), isExe))
  }

  /** The PATH loop of `which`: each entry, stripped of quotes and joined
      with the program name, is checked in order. */
  method SearchPath(entries: seq<string>, program: string, isExe: string -> bool) returns (r: Option<string>)
    ensures r == FirstExecutable(Candidates(entries, program), isExe)
  {
    ghost var candidates := Candidates(entries, program);
    for k := 0 to |entries|
      invariant FirstExecutable(candidates[k..], isExe) == FirstExecutable(candidates, isExe)
    {
      var exeFile := Join(Strip(entries[k], '"'), program);
      assert candidates[k..][0] == exeFile;
      assert candidates[k..][1..] == candidates[k + 1..];
      if isExe(exeFile) {
        return Some(exeFile);
      }
    }
    assert candidates[|entries|..] == [];
    return None;
  }

  /** `which(program)`: with a directory part only the program path itself
      is checked; otherwise the PATH entries are searched in order and the
      first executable candidate is returned. */
  method Which(program: string, pathEnv: Option<string>, isExe: string -> bool) returns (r: Result<Option<string>, WhichError>)
    ensures r == WhichResult(program, pathEnv, isExe)
  {
    DirnameEmpty(program);
    if Dirname(program) != [] {
      r := Ok(if isExe(program) then Some(program) else None);
    } else if pathEnv.None? {
      r := Err(PathUnset);
    } else {
      var found := SearchPath(SplitOn(pathEnv.value, ':'), program, isExe);
      r := Ok(found);
    }
  }

  /** The search finds nothing exactly when no candidate is executable. */
  lemma {:induction false} FirstExecutableNone(candidates: seq<string>, isExe: string -> bool)
    ensures FirstExecutable(candidates, isExe).None? <==>
      forall k :: 0 <= k < |candidates| ==> !isExe(candidates[k])
  {
    if |candidates| > 0 {
      FirstExecutableNone(candidates[1..], isExe);
      assert forall k :: 1 <= k < |candidates| ==> candidates[k] == candidates[1..][k - 1];
    }
  }

  /** The search returns the first executable candidate. */
  lemma {:induction false} FirstExecutableFirst(candidates: seq<string>, isExe: string -> bool, k: nat)
    requires k < |candidates| && isExe(candidates[k])
    requires forall j :: 0 <= j < k ==> !isExe(candidates[j])
    ensures FirstExecutable(candidates, isExe) == Some(candidates[k])
  {
    if k > 0 {
      var rest := candidates[1..];
      assert rest[k - 1] == candidates[k];
      assert forall j :: 0 <= j < k - 1 ==> rest[j] == candidates[j + 1];
      FirstExecutableFirst(rest, isExe, k - 1);
    }
  }

  /** How `main` ends: it stops when a tool is missing, fails its mode
      assertion, or renders the planned jobs. */
  datatype Outcome = ToolsMissing | Rendered(jobs: seq<Job>)

  datatype RunError = PathNotSet | InvalidMode

  /** What `main` does, as a value: the dependency test comes before
      anything else, then the mode assertion, then the chunking loop. */
  function MainOutcome(pathEnv: Option<string>, isExe: string -> bool, mode: string, lines: seq<string>, outputDir: string, prefix: string)
    : Result<Outcome, RunError>
  {
    match WhichResult("latex", pathEnv, isExe)
    case Err(_) => Err(PathNotSet)
    case Ok(None) => Ok(ToolsMissing)
    case Ok(Some(_)) =>
      match WhichResult("dvipng", pathEnv, isExe)
      case Err(_) => Err(PathNotSet)
      case Ok(None) => Ok(ToolsMissing)
      case Ok(Some(_)) =>
        match SliceFor(mode)
        case None => Err(InvalidMode)
        case Some(slice) => Ok(Rendered(ChunkJobs(lines, slice, outputDir, prefix)))
  }

  /** `main`: a missing `latex` or `dvipng` ends the run before the input
      is read; otherwise every chunk of the input is rendered. */
  method Run(pathEnv: Option<string>, isExe: string -> bool, mode: string, lines: seq<string>, outputDir: string, prefix: string)
    returns (r: Result<Outcome, RunError>)
    ensures r == MainOutcome(pathEnv, isExe, mode, lines, outputDir, prefix)
    ensures r.Ok? && r.value.Rendered? ==> Concat(Texts(r.value.jobs)) == lines
  {
    var latex := Which("latex", pathEnv, isExe);
    if latex.Err? {
      return Err(PathNotSet);
    }
    if latex.value.None? {
      return Ok(ToolsMissing);
    }
    var dvipng := Which("dvipng", pathEnv, isExe);
    if dvipng.Err? {
      return Err(PathNotSet);
    }
    if dvipng.value.None? {
      return Ok(ToolsMissing);
    }
    var slice := SliceFor(mode);
    if slice.None? {
      return Err(InvalidMode);
    }
    var jobs := PlanChunks(lines, slice.value, outputDir, prefix);
    return Ok(Rendered(jobs));
  }

  /** Without PATH the lookup of `latex` raises before anything else. */
  lemma MainWithoutPath(isExe: string -> bool, mode: string, lines: seq<string>, outputDir: string, prefix: string)
    ensures MainOutcome(None, isExe, mode, lines, outputDir, prefix) == Err(PathNotSet)
  {
  }

  /** With both tools found the outcome depends on the mode alone. */
  lemma MainToolsFound(pathEnv: Option<string>, isExe: string -> bool, mode: string, lines: seq<string>, outputDir: string, prefix: string)
    requires WhichResult("latex", pathEnv, isExe).Ok? && WhichResult("latex", pathEnv, isExe).value.Some?
    requires WhichResult("dvipng", pathEnv, isExe).Ok? && WhichResult("dvipng", pathEnv, isExe).value.Some?
    ensures MainOutcome(pathEnv, isExe, mode, lines, outputDir, prefix) ==
      if SliceFor(mode).Some? then Ok(Rendered(ChunkJobs(lines, SliceFor(mode).value, outputDir, prefix)))
      else Err(InvalidMode)
  {
  }

  /** Rendering happens exactly when both tools are found along PATH and
      the mode is valid; with PATH set and a valid mode nothing fails. */
  lemma MainRendered(path: string, isExe: string -> bool, mode: string, lines: seq<string>, outputDir: string, prefix: string)
    ensures var r := MainOutcome(Some(path), isExe, mode, lines, outputDir, prefix);
      r.Ok? && r.value.Rendered? <==>
        FirstExecutable(Candidates(SplitOn(path, ':'), "latex"), isExe).Some? &&
        FirstExecutable(Candidates(SplitOn(path, ':'), "dvipng"), isExe).Some? &&
        SliceFor(mode).Some?
    ensures SliceFor(mode).Some? ==> MainOutcome(Some(path), isExe, mode, lines, outputDir, prefix).Ok?
  {
    assert '/' !in "latex" && '/' !in "dvipng";
  }

  /** A bad mode is reported only once both tools were found. */
  lemma MainInvalidMode(pathEnv: Option<string>, isExe: string -> bool, mode: string, lines: seq<string>, outputDir: string, prefix: string)
    ensures MainOutcome(pathEnv, isExe, mode, lines, outputDir, prefix) == Err(InvalidMode) <==>
      WhichResult("latex", pathEnv, isExe).Ok? && WhichResult("latex", pathEnv, isExe).value.Some? &&
      WhichResult("dvipng", pathEnv, isExe).Ok? && WhichResult("dvipng", pathEnv, isExe).value.Some? &&
      SliceFor(mode).None?
  {
  }
}
