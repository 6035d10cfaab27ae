/** The `POST /api/tasks` handler of `app/server.py`: upload admission,
    the relative-path fallback and the rename on a name collision. The
    filesystem is a map from stored paths to their bytes. */
module Server {
  import opened Utils
  import opened Wrappers
  import opened OcrClient
  import opened TaskQueue

  // ------------------------------------------------------------------
  // Requests and responses

  /** An `UploadFile`: its name and content type ("" when absent) and its bytes. */
  datatype Upload = Upload(filename: string, contentType: string, data: seq<bv8>)

  /** What the handler reads from `settings`; `configError` is the message
      `settings.validate()` raises, if it does. */
  datatype Settings = Settings(configError: Option<string>, outputRoot: Path, maxFileBytes: int, maxTotalBytes: int)

  /** The form: the files, the raw `relpaths` field ("" when absent), and the flags. */
  datatype Request = Request(files: seq<Upload>, relpaths: string, forceAsync: bool, options: OcrOptions)

  datatype Rejection =
    | ConfigInvalid(detail: string)
    | MalformedRelpaths
    | RelpathCountMismatch
    | UnsupportedFormat(name: string)
    | FileTooLarge(name: string)
    | TotalTooLarge
    | UnknownTaskError(taskId: string)

  /** The HTTP status each rejection is raised with. */
  function StatusCode(r: Rejection): (code: int)
    ensures code == 400 || code == 413 || code == 500
  {
    match r
    case ConfigInvalid(_) => 500
    case MalformedRelpaths => 400
    case RelpathCountMismatch => 400
    case UnsupportedFormat(_) => 400
    case FileTooLarge(_) => 413
    case TotalTooLarge => 413
    case UnknownTaskError(_) => 500
  }

  /** One entry of the response's `items`. */
  datatype CreatedItem = CreatedItem(itemId: string, filename: string, relpath: string, status: Status)

  datatype Response = Created(taskId: string, items: seq<CreatedItem>) | Rejected(reason: Rejection)

  type FileSystem = map<Path, seq<bv8>>

  // ------------------------------------------------------------------
  // Format admission

  /** `f.filename or "file"`. */
  function NameRaw(f: Upload): string {
    if f.filename == "" then "file" else f.filename
  }

  predicate IsPdf(f: Upload) {
    Lower(f.contentType) == "application/pdf" || EndsWith(Lower(NameRaw(f)), ".pdf")
  }

  predicate HasImageExtension(nameLower: string) {
    EndsWith(nameLower, ".png") || EndsWith(nameLower, ".jpg") || EndsWith(nameLower, ".jpeg")
    || EndsWith(nameLower, ".webp") || EndsWith(nameLower, ".bmp") || EndsWith(nameLower, ".tif")
    || EndsWith(nameLower, ".tiff")
  }

  predicate IsImage(f: Upload) {
    StartsWith(Lower(f.contentType), "image/") || HasImageExtension(Lower(NameRaw(f)))
  }

  predicate IsAccepted(f: Upload) {
    IsPdf(f) || IsImage(f)
  }

  // ------------------------------------------------------------------
  // str.rfind, pathlib's stem and suffix, str.rsplit(".", 1)

  /** `s.rfind(c)`: the last index of `c`, or -1. */
  function RFind(s: string, c: char): (r: int)
    ensures -1 <= r < |s|
    ensures r >= 0 ==> s[r] == c
    ensures forall j :: r < j < |s| ==> s[j] != c
  {
    if s == [] then -1
    else if s[|s| - 1] == c then |s| - 1
    else RFind(s[..|s| - 1], c)
  }

  /** `PurePath.suffix`: from the last dot, unless it is the first or the last character. */
  function Suffix(name: string): string {
    var i := RFind(name, '.');
    if 0 < i < |name| - 1 then name[i..] else ""
  }

  /** `PurePath.stem`. */
  function Stem(name: string): string {
    var i := RFind(name, '.');
    if 0 < i < |name| - 1 then name[..i] else name
  }

  lemma StemSuffix(name: string)
    ensures Stem(name) + Suffix(name) == name
  {
  }

  /** The display name with `_k` added: before the last dot, or at the end. */
  function Renamed(last: string, k: nat): string {
    var i := RFind(last, '.');
    if i >= 0 then last[..i] + "_" + NatToString(k) + "." + last[i + 1..]
    else last + "_" + NatToString(k)
  }

  lemma RFindAfter(s: string, t: string, c: char)
    requires forall j :: 0 <= j < |t| ==> t[j] != c
    ensures RFind(s + [c] + t, c) == |s|
  {
    var u := s + [c] + t;
    var r := RFind(u, c);
    assert u[|s|] == c;
  }

  /** With a dot, `_k` lands just before the last dot and everything from
      that dot on, the extension, is kept: it is still after the last dot. */
  lemma RenamedWithDot(last: string, k: nat)
    requires RFind(last, '.') >= 0
    ensures var i := RFind(last, '.');
      Renamed(last, k) == last[..i] + "_" + NatToString(k) + last[i..]
      && RFind(Renamed(last, k), '.') == i + 1 + |NatToString(k)|
  {
    var i := RFind(last, '.');
    var base, ext := last[..i], last[i + 1..];
    assert last[i..] == ['.'] + ext;
    RFindAfter(base + "_" + NatToString(k), ext, '.');
  }

  /** Without a dot, `_k` is appended and the name still has no dot. */
  lemma RenamedNoDot(last: string, k: nat)
    requires RFind(last, '.') < 0
    ensures Renamed(last, k) == last + "_" + NatToString(k)
    ensures RFind(Renamed(last, k), '.') < 0
  {
  }

  // ------------------------------------------------------------------
  // The `while True` collision loop

  /** `dest_path.with_name(f"{stem}_{k}{suffix}")`. */
  function Candidate(dir: Path, stem: string, suffix: string, k: nat): Path {
    dir + [stem + "_" + NatToString(k) + suffix]
  }

  lemma CandidateInjective(dir: Path, stem: string, suffix: string, a: nat, b: nat)
    requires Candidate(dir, stem, suffix, a) == Candidate(dir, stem, suffix, b)
    ensures a == b
  {
    var x, y := stem + "_" + NatToString(a) + suffix, stem + "_" + NatToString(b) + suffix;
    assert x == Candidate(dir, stem, suffix, a)[|dir|];
    assert y == Candidate(dir, stem, suffix, b)[|dir|];
    var n := |stem| + 1;
    assert |NatToString(a)| == |NatToString(b)|;
    assert NatToString(a) == x[n..n + |NatToString(a)|];
    assert NatToString(b) == y[n..n + |NatToString(b)|];
    NatToStringInjective(a, b);
  }

  function Candidates(dir: Path, stem: string, suffix: string, k: nat): set<Path> {
    set j: nat | 1 <= j < k :: Candidate(dir, stem, suffix, j)
  }

  lemma {:induction false} CandidatesCount(dir: Path, stem: string, suffix: string, k: nat)
    requires k >= 1
    ensures |Candidates(dir, stem, suffix, k)| == k - 1
  {
    if k == 1 {
      assert Candidates(dir, stem, suffix, k) == {};
    } else {
      CandidatesCount(dir, stem, suffix, k - 1);
      CandidatesSnoc(dir, stem, suffix, k - 1);
    }
  }

  /** One more index adds one new candidate. */
  lemma CandidatesSnoc(dir: Path, stem: string, suffix: string, k: nat)
    requires k >= 1
    ensures Candidates(dir, stem, suffix, k + 1) == Candidates(dir, stem, suffix, k) + {Candidate(dir, stem, suffix, k)}
    ensures Candidate(dir, stem, suffix, k) !in Candidates(dir, stem, suffix, k)
  {
    var c := Candidate(dir, stem, suffix, k);
    if c in Candidates(dir, stem, suffix, k) {
      var j: nat :| 1 <= j < k && Candidate(dir, stem, suffix, j) == c;
      CandidateInjective(dir, stem, suffix, j, k);
    }
  }

  lemma SubsetCard<T>(a: set<T>, b: set<T>)
    requires a <= b
    ensures |a| <= |b|
  {
    assert b == a + (b - a);
    assert a * (b - a) == {};
  }

  /** Only finitely many candidates can be taken: the loop gets past all of them. */
  lemma Pigeonhole(fs: FileSystem, dir: Path, stem: string, suffix: string, k: nat)
    requires k >= 1
    requires forall j: nat :: 1 <= j < k ==> Candidate(dir, stem, suffix, j) in fs
    ensures k - 1 <= |fs.Keys|
  {
    CandidatesCount(dir, stem, suffix, k);
    SubsetCard(Candidates(dir, stem, suffix, k), fs.Keys);
  }

  /** The first free candidate from `k` on. */
  function FreeFrom(fs: FileSystem, dir: Path, stem: string, suffix: string, k: nat): (r: nat)
    requires k >= 1
    requires forall j: nat :: 1 <= j < k ==> Candidate(dir, stem, suffix, j) in fs
    decreases |fs.Keys| + 1 - k
  {
    Pigeonhole(fs, dir, stem, suffix, k);
    if Candidate(dir, stem, suffix, k) !in fs then k
    else FreeFrom(fs, dir, stem, suffix, k + 1)
  }

  function FirstFree(fs: FileSystem, dir: Path, stem: string, suffix: string): nat {
    FreeFrom(fs, dir, stem, suffix, 1)
  }

  lemma {:induction false} FreeFromSmallest(fs: FileSystem, dir: Path, stem: string, suffix: string, k: nat)
    requires k >= 1
    requires forall j: nat :: 1 <= j < k ==> Candidate(dir, stem, suffix, j) in fs
    ensures var r := FreeFrom(fs, dir, stem, suffix, k);
      r >= k && Candidate(dir, stem, suffix, r) !in fs
      && forall j: nat :: 1 <= j < r ==> Candidate(dir, stem, suffix, j) in fs
    decreases |fs.Keys| + 1 - k
  {
    Pigeonhole(fs, dir, stem, suffix, k);
    if Candidate(dir, stem, suffix, k) in fs {
      FreeFromSmallest(fs, dir, stem, suffix, k + 1);
    }
  }

  /** The suffix chosen is the smallest `k >= 1` whose candidate does not exist. */
  lemma FirstFreeSmallest(fs: FileSystem, dir: Path, stem: string, suffix: string)
    ensures var k := FirstFree(fs, dir, stem, suffix);
      k >= 1 && Candidate(dir, stem, suffix, k) !in fs
      && forall j: nat :: 1 <= j < k ==> Candidate(dir, stem, suffix, j) in fs
  {
    FreeFromSmallest(fs, dir, stem, suffix, 1);
  }

  /** The `k = 1; while True: ... k += 1` loop. */
  method FindFreeIndex(fs: FileSystem, dir: Path, stem: string, suffix: string) returns (k: nat)
    ensures k == FirstFree(fs, dir, stem, suffix)
  {
    k := 1;
    while true
      invariant k >= 1
      invariant forall j: nat :: 1 <= j < k ==> Candidate(dir, stem, suffix, j) in fs
      invariant k - 1 <= |fs.Keys|
      invariant FreeFrom(fs, dir, stem, suffix, k) == FirstFree(fs, dir, stem, suffix)
      decreases |fs.Keys| + 1 - k
    {
      var cand := Candidate(dir, stem, suffix, k);
      if cand !in fs {
        break;
      }
      Pigeonhole(fs, dir, stem, suffix, k + 1);
      k := k + 1;
    }
  }

  // ------------------------------------------------------------------
  // Where an upload is stored, and under which name it is shown

  /** The handler's fixed inputs for one request. */
  datatype Context = Context(
    settings: Settings, taskId: string, relList: seq<string>,
    forceAsync: bool, options: OcrOptions, itemIds: nat -> string)

  function InputsDir(ctx: Context): Path {
    ctx.settings.outputRoot + [ctx.taskId, "inputs"]
  }

  /** `rel_list[idx]` when present, else the original name. */
  function Relpath(ctx: Context, idx: nat, f: Upload): string {
    if idx < |ctx.relList| then ctx.relList[idx] else NameRaw(f)
  }

  /** `rel_safe_parts`: the display parts sanitised, or the sanitised name. */
  function SafeRelParts(displayParts: seq<string>, f: Upload): (parts: Path)
    ensures |parts| >= 1
  {
    if displayParts != [] then SanitizeEach(displayParts) else [SafePathSegment(NameRaw(f))]
  }

  /** Where an upload ends up and what the client is shown. */
  datatype Placed = Placed(dest: Path, displayRelpath: string)

  /** The path and display relpath before any collision. */
  function Unrenamed(ctx: Context, idx: nat, f: Upload): Placed {
    var displayParts := SplitRelpath(Relpath(ctx, idx, f));
    Placed(InputsDir(ctx) + SafeRelParts(displayParts, f),
           if displayParts != [] then Join(displayParts, "/") else NameRaw(f))
  }

  /** The `k` the collision loop settles on for a taken path. */
  function CollisionIndex(taken: Path, fs: FileSystem): nat
    requires |taken| >= 1
  {
    FirstFree(fs, taken[..|taken| - 1], Stem(Last(taken)), Suffix(Last(taken)))
  }

  /** `dest_path.with_name(f"{stem}_{k}{suffix}")` for that `k`. */
  function RenamedDest(taken: Path, fs: FileSystem): Path
    requires |taken| >= 1
  {
    Candidate(taken[..|taken| - 1], Stem(Last(taken)), Suffix(Last(taken)), CollisionIndex(taken, fs))
  }

  /** The path and display relpath after the `{stem}_{k}{suffix}` rename. */
  function RenamedPlacement(ctx: Context, idx: nat, f: Upload, fs: FileSystem): Placed {
    var displayParts := SplitRelpath(Relpath(ctx, idx, f));
    var taken := InputsDir(ctx) + SafeRelParts(displayParts, f);
    var k := CollisionIndex(taken, fs);
    var last := if displayParts != [] then Last(displayParts) else NameRaw(f);
    Placed(RenamedDest(taken, fs),
           if displayParts != [] then Join(displayParts[|displayParts| - 1 := Renamed(last, k)], "/")
           else Renamed(last, k))
  }

  function Placement(ctx: Context, idx: nat, f: Upload, fs: FileSystem): Placed {
    var p := Unrenamed(ctx, idx, f);
    if p.dest !in fs then p else RenamedPlacement(ctx, idx, f, fs)
  }

  /** The relpath-to-path statements of the loop body. */
  method PlaceUpload(ctx: Context, idx: nat, f: Upload, fs: FileSystem) returns (placed: Placed)
    ensures placed == Placement(ctx, idx, f, fs)
  {
    var originalName := NameRaw(f);
    var rp := if idx < |ctx.relList| then ctx.relList[idx] else originalName;
    var displayParts := SplitRelpath(rp);
    var displayRelpath := if displayParts != [] then Join(displayParts, "/") else originalName;
    var relSafeParts := SafeRelParts(displayParts, f);
    var destPath := InputsDir(ctx) + relSafeParts;
    assert Placed(destPath, displayRelpath) == Unrenamed(ctx, idx, f);
    if destPath in fs {
      placed := RenameOnCollision(ctx, idx, f, fs, displayParts, relSafeParts);
    } else {
      placed := Placed(destPath, displayRelpath);
    }
  }

  /** The `if dest_path.exists()` block. */
  method RenameOnCollision(ctx: Context, idx: nat, f: Upload, fs: FileSystem, displayParts: seq<string>, relSafeParts: Path)
    returns (placed: Placed)
    requires displayParts == SplitRelpath(Relpath(ctx, idx, f)) && relSafeParts == SafeRelParts(displayParts, f)
    ensures placed == RenamedPlacement(ctx, idx, f, fs)
  {
    var destPath := InputsDir(ctx) + relSafeParts;
    var dir := destPath[..|destPath| - 1];
    var stem := Stem(Last(destPath));
    var suffix := Suffix(Last(destPath));
    var k := FindFreeIndex(fs, dir, stem, suffix);
    destPath := Candidate(dir, stem, suffix, k);
    var last := if displayParts != [] then Last(displayParts) else NameRaw(f);
    var last2 := Renamed(last, k);
    var displayRelpath;
    if displayParts != [] {
      var parts := displayParts[|displayParts| - 1 := last2];
      displayRelpath := Join(parts, "/");
    } else {
      displayRelpath := last2;
    }
    placed := Placed(destPath, displayRelpath);
  }

  /** Without a collision the upload is stored under its sanitised relative
      path, and shown under the cleaned relative path, which splits back
      into the same parts. */
  lemma PlacementPlain(ctx: Context, idx: nat, f: Upload, fs: FileSystem)
    requires Unrenamed(ctx, idx, f).dest !in fs
    ensures var displayParts := SplitRelpath(Relpath(ctx, idx, f));
      Placement(ctx, idx, f, fs).dest == InputsDir(ctx) + SafeRelParts(displayParts, f)
      && (displayParts != [] ==> SplitRelpath(Placement(ctx, idx, f, fs).displayRelpath) == displayParts)
      && (displayParts == [] ==> Placement(ctx, idx, f, fs).displayRelpath == NameRaw(f))
  {
    var displayParts := SplitRelpath(Relpath(ctx, idx, f));
    if displayParts != [] {
      SplitRelpathParts(Relpath(ctx, idx, f));
      SplitRelpathJoin(displayParts);
    }
  }

  /** The stored path never overwrites an existing file. */
  lemma PlacementFresh(ctx: Context, idx: nat, f: Upload, fs: FileSystem)
    ensures Placement(ctx, idx, f, fs).dest !in fs
  {
    var p := Unrenamed(ctx, idx, f);
    if p.dest in fs {
      RenamedDestSmallest(p.dest, fs);
    }
  }

  /** The renamed path sits next to the taken one, as `{stem}_{k}{suffix}`
      for the smallest `k >= 1` whose name is free. */
  lemma RenamedDestSmallest(taken: Path, fs: FileSystem)
    requires |taken| >= 1
    ensures var dir, name, k := taken[..|taken| - 1], Last(taken), CollisionIndex(taken, fs);
      k >= 1 && RenamedDest(taken, fs) == dir + [Stem(name) + "_" + NatToString(k) + Suffix(name)]
      && RenamedDest(taken, fs) !in fs
      && (forall j: nat :: 1 <= j < k ==> Candidate(dir, Stem(name), Suffix(name), j) in fs)
  {
    FirstFreeSmallest(fs, taken[..|taken| - 1], Stem(Last(taken)), Suffix(Last(taken)));
  }

  /** On a collision the stored path is that renamed path, and the display
      relpath's last segment (or the original name) carries the same `_k`. */
  lemma PlacementCollision(ctx: Context, idx: nat, f: Upload, fs: FileSystem)
    requires Unrenamed(ctx, idx, f).dest in fs
    ensures var displayParts, taken := SplitRelpath(Relpath(ctx, idx, f)), Unrenamed(ctx, idx, f).dest;
      var k := CollisionIndex(taken, fs);
      Placement(ctx, idx, f, fs).dest == RenamedDest(taken, fs)
      && (displayParts == [] ==> Placement(ctx, idx, f, fs).displayRelpath == Renamed(NameRaw(f), k))
      && (displayParts != [] ==>
            Placement(ctx, idx, f, fs).displayRelpath
            == Join(displayParts[..|displayParts| - 1] + [Renamed(Last(displayParts), k)], "/"))
  {
    var displayParts := SplitRelpath(Relpath(ctx, idx, f));
    if displayParts != [] {
      var last := Renamed(Last(displayParts), CollisionIndex(Unrenamed(ctx, idx, f).dest, fs));
      assert displayParts[|displayParts| - 1 := last] == displayParts[..|displayParts| - 1] + [last];
    }
  }

  /** The stored path stays inside the task's `inputs` directory: every
      segment after it is safe, the renamed one included. */
  lemma PlacementInside(ctx: Context, idx: nat, f: Upload, fs: FileSystem)
    ensures var dest, base := Placement(ctx, idx, f, fs).dest, InputsDir(ctx);
      |dest| > |base| && dest[..|base|] == base
      && forall j :: |base| <= j < |dest| ==> IsSafeSegment(dest[j])
  {
    var displayParts := SplitRelpath(Relpath(ctx, idx, f));
    var parts := SafeRelParts(displayParts, f);
    var base := InputsDir(ctx);
    assert AllSafeSegments(parts) by {
      forall j | 0 <= j < |parts| ensures IsSafeSegment(parts[j]) {
        if displayParts != [] {
          SafePathSegmentIsSafe(displayParts[j]);
        } else {
          SafePathSegmentIsSafe(NameRaw(f));
        }
      }
    }
    if Unrenamed(ctx, idx, f).dest in fs {
      RenamedDestInside(base, parts, fs);
    } else {
      AppendSafe(base, parts);
    }
  }

  lemma RenamedDestInside(base: Path, parts: Path, fs: FileSystem)
    requires |parts| >= 1 && AllSafeSegments(parts)
    ensures var dest := RenamedDest(base + parts, fs);
      |dest| > |base| && dest[..|base|] == base
      && forall j :: |base| <= j < |dest| ==> IsSafeSegment(dest[j])
  {
    var taken := base + parts;
    var name := Last(parts);
    assert Last(taken) == name;
    var front := parts[..|parts| - 1];
    assert taken[..|taken| - 1] == base + front;
    var k := CollisionIndex(taken, fs);
    var seg := Stem(name) + "_" + NatToString(k) + Suffix(name);
    RenamedSegmentSafe(name, k);
    var tail := front + [seg];
    assert AllSafeSegments(tail) by {
      forall j | 0 <= j < |tail| ensures IsSafeSegment(tail[j]) {
        if j < |front| {
          assert tail[j] == parts[j];
        }
      }
    }
    assert RenamedDest(taken, fs) == (base + front) + [seg];
    assert (base + front) + [seg] == base + tail;
    AppendSafe(base, tail);
  }

  lemma RenamedSegmentSafe(name: string, k: nat)
    requires IsSafeSegment(name)
    ensures IsSafeSegment(Stem(name) + "_" + NatToString(k) + Suffix(name))
  {
    StemSuffix(name);
    var stem, suffix := Stem(name), Suffix(name);
    assert AllSafe(stem) && AllSafe(suffix) by {
      assert forall j :: 0 <= j < |stem| ==> stem[j] == name[j];
      assert forall j :: 0 <= j < |suffix| ==> suffix[j] == name[|stem| + j];
    }
    NumberedNameSafe(stem, k, suffix);
    var s := stem + "_" + NatToString(k) + suffix;
    assert s[|stem|] == '_';
  }

  // ------------------------------------------------------------------
  // The `for idx, f in enumerate(files)` loop

  /** The loop's state: `total_bytes`, the filesystem, the queue and `created_items`. */
  datatype Progress = Progress(totalBytes: int, fs: FileSystem, queue: QueueState, created: seq<CreatedItem>)

  function Summary(item: TaskItem): CreatedItem {
    CreatedItem(item.itemId, item.filename, item.relpath, item.status)
  }

  /** One loop iteration: format check, size checks, placement, write, enqueue. */
  function AdmitFile(ctx: Context, idx: nat, f: Upload, p: Progress): Result<Progress, Rejection> {
    if !IsAccepted(f) then Err(UnsupportedFormat(NameRaw(f)))
    else
      var size := |f.data|;
      var total := p.totalBytes + size;
      if size > ctx.settings.maxFileBytes then Err(FileTooLarge(f.filename))
      else if total > ctx.settings.maxTotalBytes then Err(TotalTooLarge)
      else
        var placed := Placement(ctx, idx, f, p.fs);
        var e := Enqueue(p.queue, ctx.settings.outputRoot, ctx.taskId, ctx.itemIds(idx), placed.dest,
                         SafePathSegment(NameRaw(f)), placed.displayRelpath, size, ctx.forceAsync, ctx.options);
        if e.Err? then Err(UnknownTaskError(ctx.taskId))
        else Ok(Progress(total, p.fs[placed.dest := f.data], e.value.0, p.created + [Summary(e.value.1)]))
  }

  /** `for i, x in enumerate(xs[:n])` whose body may reject: the first
      rejection ends the loop and carries the state it was raised in. */
  function RunSteps<X, S, E>(step: (nat, X, S) -> Result<S, E>, xs: seq<X>, n: nat, start: S): Result<S, (E, S)>
    requires n <= |xs|
  {
    if n == 0 then Ok(start)
    else
      var prev := RunSteps(step, xs, n - 1, start);
      if prev.Err? then prev
      else
        var next := step(n - 1, xs[n - 1], prev.value);
        if next.Err? then Err((next.error, prev.value)) else Ok(next.value)
  }

  /** A rejection ends the loop: later elements do not matter. */
  lemma {:induction false} RunStepsErrSticky<X, S, E>(step: (nat, X, S) -> Result<S, E>, xs: seq<X>, i: nat, n: nat, start: S)
    requires i <= n <= |xs| && RunSteps(step, xs, i, start).Err?
    ensures RunSteps(step, xs, n, start) == RunSteps(step, xs, i, start)
  {
    if i < n {
      RunStepsErrSticky(step, xs, i, n - 1, start);
    }
  }

  /** A rejection is raised by exactly one step, in the state the earlier steps left. */
  lemma {:induction false} RunStepsRejectedAt<X, S, E>(step: (nat, X, S) -> Result<S, E>, xs: seq<X>, n: nat, start: S)
    requires n <= |xs| && RunSteps(step, xs, n, start).Err?
    ensures var (e, p) := RunSteps(step, xs, n, start).error;
      exists i :: 0 <= i < n && RunSteps(step, xs, i, start) == Ok(p) && step(i, xs[i], p) == Err(e)
  {
    var prev := RunSteps(step, xs, n - 1, start);
    if prev.Err? {
      RunStepsRejectedAt(step, xs, n - 1, start);
    }
  }

  function AdmitStep(ctx: Context): (nat, Upload, Progress) -> Result<Progress, Rejection> {
    (idx: nat, f: Upload, p: Progress) => AdmitFile(ctx, idx, f, p)
  }

  /** The first `n` iterations of the upload loop. */
  function AdmitUpTo(ctx: Context, files: seq<Upload>, n: nat, start: Progress): Result<Progress, (Rejection, Progress)>
    requires n <= |files|
  {
    RunSteps(AdmitStep(ctx), files, n, start)
  }

  /** The whole handler, parsing `relpaths` with `parse` (`json.loads`). */
  function Handle(settings: Settings, req: Request, parse: string -> Option<seq<string>>,
                  q: QueueState, fs: FileSystem, taskId: string, itemIds: nat -> string)
    : (Response, QueueState, FileSystem)
  {
    if settings.configError.Some? then (Rejected(ConfigInvalid(settings.configError.value)), q, fs)
    else
      var relList := if req.relpaths == "" then Some([]) else parse(req.relpaths);
      if relList.None? then (Rejected(MalformedRelpaths), q, fs)
      else if relList.value != [] && |relList.value| != |req.files| then (Rejected(RelpathCountMismatch), q, fs)
      else
        var ctx := Context(settings, taskId, relList.value, req.forceAsync, req.options, itemIds);
        var r := AdmitUpTo(ctx, req.files, |req.files|, Progress(0, fs, Create(q, taskId), []));
        if r.Ok? then (Created(taskId, r.value.created), r.value.queue, r.value.fs)
        else (Rejected(r.error.0), r.error.1.queue, r.error.1.fs)
  }

  /** `POST /api/tasks` on the shared queue `q`; the generated task id is
      `taskId` and the id of the item for file `idx` is `itemIds(idx)`. */
  method CreateTaskHandler(q: TaskQueue, settings: Settings, req: Request, parse: string -> Option<seq<string>>,
                           fs: FileSystem, taskId: string, itemIds: nat -> string)
    returns (resp: Response, fs': FileSystem)
    requires q.outputRoot == settings.outputRoot
    modifies q
    ensures (resp, q.State(), fs') == Handle(settings, req, parse, old(q.State()), fs, taskId, itemIds)
  {
    fs' := fs;
    if settings.configError.Some? {
      return Rejected(ConfigInvalid(settings.configError.value)), fs';
    }
    var relList: seq<string> := [];
    if req.relpaths != "" {
      var parsed := parse(req.relpaths);
      if parsed.None? {
        return Rejected(MalformedRelpaths), fs';
      }
      relList := parsed.value;
    }
    if relList != [] && |relList| != |req.files| {
      return Rejected(RelpathCountMismatch), fs';
    }
    var ctx := Context(settings, taskId, relList, req.forceAsync, req.options, itemIds);
    var task := q.CreateTask(taskId);
    var r := AdmitAll(q, ctx, req.files, fs);
    if r.Err? {
      return Rejected(r.error.0), r.error.1.fs;
    }
    resp, fs' := Created(taskId, r.value.created), r.value.fs;
  }

  /** The `for idx, f in enumerate(files)` loop, on the shared queue. */
  method AdmitAll(q: TaskQueue, ctx: Context, files: seq<Upload>, fs: FileSystem)
    returns (r: Result<Progress, (Rejection, Progress)>)
    requires q.outputRoot == ctx.settings.outputRoot && ctx.taskId in q.tasks
    modifies q
    ensures r == AdmitUpTo(ctx, files, |files|, Progress(0, fs, old(q.State()), []))
    ensures q.State() == (if r.Ok? then r.value.queue else r.error.1.queue)
  {
    ghost var start := Progress(0, fs, q.State(), []);
    var totalBytes := 0;
    var fs' := fs;
    var created: seq<CreatedItem> := [];
    for idx := 0 to |files|
      invariant AdmitUpTo(ctx, files, idx, start) == Ok(Progress(totalBytes, fs', q.State(), created))
      invariant ctx.taskId in q.tasks
    {
      var next := AdmitOne(q, ctx, idx, files[idx], totalBytes, fs', created);
      if next.Err? {
        RunStepsErrSticky(AdmitStep(ctx), files, idx + 1, |files|, start);
        return Err((next.error, Progress(totalBytes, fs', q.State(), created)));
      }
      totalBytes, fs', created := next.value.totalBytes, next.value.fs, next.value.created;
    }
    r := Ok(Progress(totalBytes, fs', q.State(), created));
  }

  /** One iteration of the loop, on the shared queue. */
  method AdmitOne(q: TaskQueue, ctx: Context, idx: nat, f: Upload, totalBytes: int, fs: FileSystem,
                  created: seq<CreatedItem>)
    returns (r: Result<Progress, Rejection>)
    requires q.outputRoot == ctx.settings.outputRoot && ctx.taskId in q.tasks
    modifies q
    ensures ctx.taskId in q.tasks
    ensures var spec := AdmitFile(ctx, idx, f, Progress(totalBytes, fs, old(q.State()), created));
      r.Err? == spec.Err? && (r.Err? ==> r.error == spec.error && q.State() == old(q.State()))
      && (r.Ok? ==> r.value == spec.value && q.State() == r.value.queue)
  {
    var nameRaw := NameRaw(f);
    if !IsAccepted(f) {
      return Err(UnsupportedFormat(nameRaw));
    }
    var size := |f.data|;
    var total := totalBytes + size;
    if size > ctx.settings.maxFileBytes {
      return Err(FileTooLarge(f.filename));
    }
    if total > ctx.settings.maxTotalBytes {
      return Err(TotalTooLarge);
    }
    var filename := SafePathSegment(nameRaw);
    var placed := PlaceUpload(ctx, idx, f, fs);
    var fs' := fs[placed.dest := f.data];
    var item := q.EnqueueFile(ctx.taskId, ctx.itemIds(idx), placed.dest, filename, placed.displayRelpath,
                              size, ctx.forceAsync, ctx.options);
    if item.Ok? {
      r := Ok(Progress(total, fs', q.State(), created + [Summary(item.value)]));
    } else {
      r := Err(UnknownTaskError(ctx.taskId));
    }
  }

  // ------------------------------------------------------------------
  // Properties of the handler

  /** A configuration error is a 500 before anything happens. */
  lemma HandleConfigError(settings: Settings, req: Request, parse: string -> Option<seq<string>>,
                          q: QueueState, fs: FileSystem, taskId: string, itemIds: nat -> string)
    requires settings.configError.Some?
    ensures var (resp, q', fs') := Handle(settings, req, parse, q, fs, taskId, itemIds);
      resp.Rejected? && StatusCode(resp.reason) == 500 && q' == q && fs' == fs
  {
  }

  /** A non-empty relpath list of the wrong length is a 400, and no task is
      created and no file is written. */
  lemma HandleCountMismatch(settings: Settings, req: Request, parse: string -> Option<seq<string>>,
                            q: QueueState, fs: FileSystem, taskId: string, itemIds: nat -> string)
    requires settings.configError.None? && req.relpaths != ""
    requires parse(req.relpaths).Some? && parse(req.relpaths).value != []
    requires |parse(req.relpaths).value| != |req.files|
    ensures var (resp, q', fs') := Handle(settings, req, parse, q, fs, taskId, itemIds);
      resp == Rejected(RelpathCountMismatch) && StatusCode(resp.reason) == 400 && q' == q && fs' == fs
  {
  }

  /** Each rejection of a file is the format check (400), the per-file limit
      (413) or the running total limit (413), in that order of precedence;
      an accepted file is written to its placement and enqueued. */
  lemma AdmitFileCases(ctx: Context, idx: nat, f: Upload, p: Progress)
    requires ctx.taskId in p.queue.tasks
    ensures var r := AdmitFile(ctx, idx, f, p);
      (!IsAccepted(f) ==> r == Err(UnsupportedFormat(NameRaw(f))))
      && (IsAccepted(f) && |f.data| > ctx.settings.maxFileBytes ==> r == Err(FileTooLarge(f.filename)))
      && (IsAccepted(f) && |f.data| <= ctx.settings.maxFileBytes && p.totalBytes + |f.data| > ctx.settings.maxTotalBytes
          ==> r == Err(TotalTooLarge))
      && (r.Ok? <==> IsAccepted(f) && |f.data| <= ctx.settings.maxFileBytes && p.totalBytes + |f.data| <= ctx.settings.maxTotalBytes)
      && (r.Ok? ==>
            var placed := Placement(ctx, idx, f, p.fs);
            r.value.totalBytes == p.totalBytes + |f.data|
            && r.value.fs == p.fs[placed.dest := f.data]
            && r.value.created == p.created + [CreatedItem(ctx.itemIds(idx), SafePathSegment(NameRaw(f)), placed.displayRelpath, Queued)])
  {
  }

  /** One admitted file adds one queued item to the response and one job to the queue. */
  lemma AdmitFileStep(ctx: Context, idx: nat, f: Upload, p: Progress)
    requires ctx.taskId in p.queue.tasks && AdmitFile(ctx, idx, f, p).Ok?
    ensures AppendsOne(ctx, idx, f, p, AdmitFile(ctx, idx, f, p).value)
  {
    var placed := Placement(ctx, idx, f, p.fs);
    EnqueueEffect(p.queue, ctx.settings.outputRoot, ctx.taskId, ctx.itemIds(idx), placed.dest,
                  SafePathSegment(NameRaw(f)), placed.displayRelpath, |f.data|, ctx.forceAsync, ctx.options);
    var p' := AdmitFile(ctx, idx, f, p).value;
    assert p'.created[..|p.created|] == p.created;
  }

  /** After `n` files from `start`, the state `p` lists one item per file,
      in order, each queued under the id generated for it with the file's
      sanitised name, and one job per file was appended in the same order. */
  predicate AdmittedInOrder(ctx: Context, files: seq<Upload>, n: nat, start: Progress, p: Progress)
    requires n <= |files|
  {
    var c0, j0 := |start.created|, |start.queue.jobs|;
    |p.created| == c0 + n && p.created[..c0] == start.created
    && |p.queue.jobs| == j0 + n && p.queue.jobs[..j0] == start.queue.jobs
    && (forall j :: c0 <= j < |p.created| ==>
         p.created[j].itemId == ctx.itemIds(j - c0) && p.created[j].status == Queued
         && p.created[j].filename == SafePathSegment(NameRaw(files[j - c0])))
    && (forall j :: j0 <= j < |p.queue.jobs| ==>
         p.queue.jobs[j].itemId == ctx.itemIds(j - j0) && p.queue.jobs[j].taskId == ctx.taskId)
  }

  /** What one admitted file does to the loop state: the task stays, and one
      queued item and one job for that file are appended. */
  predicate AppendsOne(ctx: Context, idx: nat, f: Upload, prev: Progress, p: Progress) {
    ctx.taskId in p.queue.tasks
    && |p.created| == |prev.created| + 1 && p.created[..|prev.created|] == prev.created
    && Last(p.created).itemId == ctx.itemIds(idx) && Last(p.created).status == Queued
    && Last(p.created).filename == SafePathSegment(NameRaw(f))
    && |p.queue.jobs| == |prev.queue.jobs| + 1 && p.queue.jobs[..|prev.queue.jobs|] == prev.queue.jobs
    && Last(p.queue.jobs).itemId == ctx.itemIds(idx) && Last(p.queue.jobs).taskId == ctx.taskId
  }

  /** Files are admitted in upload order. */
  lemma AdmitOrder(ctx: Context, files: seq<Upload>, n: nat, start: Progress)
    requires n <= |files| && ctx.taskId in start.queue.tasks
    requires AdmitUpTo(ctx, files, n, start).Ok?
    ensures ctx.taskId in AdmitUpTo(ctx, files, n, start).value.queue.tasks
    ensures AdmittedInOrder(ctx, files, n, start, AdmitUpTo(ctx, files, n, start).value)
  {
    forall idx: nat, f: Upload, p: Progress | ctx.taskId in p.queue.tasks && AdmitStep(ctx)(idx, f, p).Ok?
      ensures AppendsOne(ctx, idx, f, p, AdmitStep(ctx)(idx, f, p).value)
    {
      AdmitFileStep(ctx, idx, f, p);
    }
    StepsInOrder(ctx, AdmitStep(ctx), files, n, start);
  }

  /** The induction behind `AdmitOrder`, for any step that appends one item per file. */
  lemma {:induction false} StepsInOrder(ctx: Context, step: (nat, Upload, Progress) -> Result<Progress, Rejection>,
                                        files: seq<Upload>, n: nat, start: Progress)
    requires forall idx: nat, f: Upload, p: Progress :: ctx.taskId in p.queue.tasks && step(idx, f, p).Ok? ==>
      AppendsOne(ctx, idx, f, p, step(idx, f, p).value)
    requires n <= |files| && ctx.taskId in start.queue.tasks && RunSteps(step, files, n, start).Ok?
    ensures ctx.taskId in RunSteps(step, files, n, start).value.queue.tasks
    ensures AdmittedInOrder(ctx, files, n, start, RunSteps(step, files, n, start).value)
  {
    if n > 0 {
      StepsInOrder(ctx, step, files, n - 1, start);
      var prev := RunSteps(step, files, n - 1, start).value;
      AdmitOrderStep(ctx, files, n, start, prev, RunSteps(step, files, n, start).value);
    }
  }

  lemma AdmitOrderStep(ctx: Context, files: seq<Upload>, n: nat, start: Progress, prev: Progress, p: Progress)
    requires 1 <= n <= |files| && AdmittedInOrder(ctx, files, n - 1, start, prev)
    requires AppendsOne(ctx, n - 1, files[n - 1], prev, p)
    ensures AdmittedInOrder(ctx, files, n, start, p)
  {
    var c0, j0 := |start.created|, |start.queue.jobs|;
    assert p.created[..c0] == p.created[..|prev.created|][..c0];
    assert p.queue.jobs[..j0] == p.queue.jobs[..|prev.queue.jobs|][..j0];
    forall j | c0 <= j < |p.created| - 1 ensures p.created[j] == prev.created[j] {
      assert p.created[j] == p.created[..|prev.created|][j];
    }
    forall j | j0 <= j < |p.queue.jobs| - 1 ensures p.queue.jobs[j] == prev.queue.jobs[j] {
      assert p.queue.jobs[j] == p.queue.jobs[..|prev.queue.jobs|][j];
    }
  }

  /** A rejected request keeps what the earlier files did: the state it
      leaves is the state after exactly the files before the rejected one. */
  lemma AdmitRejectedAt(ctx: Context, files: seq<Upload>, n: nat, start: Progress)
    requires n <= |files| && AdmitUpTo(ctx, files, n, start).Err?
    ensures var (e, p) := AdmitUpTo(ctx, files, n, start).error;
      exists i :: 0 <= i < n && AdmitUpTo(ctx, files, i, start) == Ok(p) && AdmitFile(ctx, i, files[i], p) == Err(e)
  {
    RunStepsRejectedAt(AdmitStep(ctx), files, n, start);
    var (e, p) := AdmitUpTo(ctx, files, n, start).error;
    var i :| 0 <= i < n && RunSteps(AdmitStep(ctx), files, i, start) == Ok(p) && AdmitStep(ctx)(i, files[i], p) == Err(e);
    assert AdmitUpTo(ctx, files, i, start) == Ok(p);
  }

  /** The per-file checks an upload must pass: an accepted format and at most `max_file_bytes`. */
  predicate Admissible(ctx: Context, f: Upload) {
    IsAccepted(f) && |f.data| <= ctx.settings.maxFileBytes
  }

  /** The total size of the uploads. */
  function SumSizes(files: seq<Upload>): nat {
    if files == [] then 0 else SumSizes(files[..|files| - 1]) + |Last(files).data|
  }

  /** A step that admits a file exactly when it passes the per-file checks and
      the running total stays within `max_total_bytes`, and then adds its size. */
  ghost predicate CountsBytes(ctx: Context, step: (nat, Upload, Progress) -> Result<Progress, Rejection>) {
    forall idx: nat, f: Upload, p: Progress :: ctx.taskId in p.queue.tasks ==>
      (step(idx, f, p).Ok? <==> Admissible(ctx, f) && p.totalBytes + |f.data| <= ctx.settings.maxTotalBytes)
      && (step(idx, f, p).Ok? ==>
            step(idx, f, p).value.totalBytes == p.totalBytes + |f.data| && ctx.taskId in step(idx, f, p).value.queue.tasks)
  }

  /** The induction behind `AdmitTotal`, for any step that counts bytes. */
  lemma {:induction false} StepsTotal(ctx: Context, step: (nat, Upload, Progress) -> Result<Progress, Rejection>,
                                      files: seq<Upload>, n: nat, start: Progress)
    requires CountsBytes(ctx, step)
    requires n <= |files| && ctx.taskId in start.queue.tasks
    ensures RunSteps(step, files, n, start).Ok? <==>
      (forall i :: 0 <= i < n ==> Admissible(ctx, files[i]))
      && (n == 0 || start.totalBytes + SumSizes(files[..n]) <= ctx.settings.maxTotalBytes)
    ensures RunSteps(step, files, n, start).Ok? ==>
      RunSteps(step, files, n, start).value.totalBytes == start.totalBytes + SumSizes(files[..n])
      && ctx.taskId in RunSteps(step, files, n, start).value.queue.tasks
  {
    if n == 0 {
      assert files[..0] == [];
    } else {
      StepsTotal(ctx, step, files, n - 1, start);
      assert files[..n][..n - 1] == files[..n - 1];
      assert SumSizes(files[..n]) == SumSizes(files[..n - 1]) + |files[n - 1].data|;
    }
  }

  /** The upload loop admits its first `n` files exactly when each passes the
      per-file checks and their total size, added to the starting total, stays
      within `max_total_bytes`; `total_bytes` is then that sum. With no file the
      limit is never compared, so the empty loop succeeds. */
  lemma AdmitTotal(ctx: Context, files: seq<Upload>, n: nat, start: Progress)
    requires n <= |files| && ctx.taskId in start.queue.tasks
    ensures AdmitUpTo(ctx, files, n, start).Ok? <==>
      (forall i :: 0 <= i < n ==> Admissible(ctx, files[i]))
      && (n == 0 || start.totalBytes + SumSizes(files[..n]) <= ctx.settings.maxTotalBytes)
    ensures AdmitUpTo(ctx, files, n, start).Ok? ==>
      AdmitUpTo(ctx, files, n, start).value.totalBytes == start.totalBytes + SumSizes(files[..n])
  {
    forall idx: nat, f: Upload, p: Progress | ctx.taskId in p.queue.tasks
      ensures (AdmitStep(ctx)(idx, f, p).Ok? <==> Admissible(ctx, f) && p.totalBytes + |f.data| <= ctx.settings.maxTotalBytes)
        && (AdmitStep(ctx)(idx, f, p).Ok? ==>
              AdmitStep(ctx)(idx, f, p).value.totalBytes == p.totalBytes + |f.data|
              && ctx.taskId in AdmitStep(ctx)(idx, f, p).value.queue.tasks)
    {
      AdmitFileCases(ctx, idx, f, p);
      if AdmitFile(ctx, idx, f, p).Ok? {
        AdmitFileStep(ctx, idx, f, p);
      }
    }
    StepsTotal(ctx, AdmitStep(ctx), files, n, start);
  }

  /** With a valid configuration and relpath list, a request creates its task
      with one item per file exactly when every file passes the per-file checks
      and all files together fit in `max_total_bytes` (a request without files
      is never compared against the limit). */
  lemma HandleAccepts(settings: Settings, req: Request, parse: string -> Option<seq<string>>,
                      q: QueueState, fs: FileSystem, taskId: string, itemIds: nat -> string)
    requires settings.configError.None?
    requires req.relpaths == "" || (parse(req.relpaths).Some? &&
      (parse(req.relpaths).value == [] || |parse(req.relpaths).value| == |req.files|))
    ensures var (resp, _, _) := Handle(settings, req, parse, q, fs, taskId, itemIds);
      (resp.Created? <==>
        (forall i :: 0 <= i < |req.files| ==> IsAccepted(req.files[i]) && |req.files[i].data| <= settings.maxFileBytes)
        && (req.files == [] || SumSizes(req.files) <= settings.maxTotalBytes))
      && (resp.Created? ==> resp.taskId == taskId && |resp.items| == |req.files|)
  {
    var relList := if req.relpaths == "" then [] else parse(req.relpaths).value;
    var ctx := Context(settings, taskId, relList, req.forceAsync, req.options, itemIds);
    var start := Progress(0, fs, Create(q, taskId), []);
    AdmitTotal(ctx, req.files, |req.files|, start);
    assert req.files[..|req.files|] == req.files;
    if AdmitUpTo(ctx, req.files, |req.files|, start).Ok? {
      AdmitOrder(ctx, req.files, |req.files|, start);
    }
  }

  // ------------------------------------------------------------------
  // POST /api/tasks/{task_id}/cancel

  datatype CancelResponse = TaskNotFound | MissingCancelMethod

  /** `cancel_task`: 404 for an unknown task; otherwise the call to the
      `cancel_task` method `TaskQueue` does not have raises, and nothing changes. */
  function CancelEndpoint(q: QueueState, taskId: string): (r: CancelResponse)
    ensures r == TaskNotFound <==> taskId !in q.tasks
  {
    if taskId !in q.tasks then TaskNotFound else MissingCancelMethod
  }
}
