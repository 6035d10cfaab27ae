/** `materialize_result_to_dir` of `app/storage.py`: turns one OCR result
    into markdown files and image assets under an output directory.
    Image downloads are an abstract `fetch` from URL to (status, bytes), and
    the files it writes are recorded as a sequence of writes. */
module Storage {
  import opened Utils
  import opened Wrappers

  /** The `markdown` object of a layout result; `images` maps an image path
      to its URL, in the dict's iteration order. A missing `text` is None. */
  datatype Markdown = Markdown(text: Option<string>, images: seq<(string, string)>)

  /** One entry of `layoutParsingResults`; `outputImages` maps a name to a URL. */
  datatype LayoutResult = LayoutResult(markdown: Option<Markdown>, outputImages: seq<(string, string)>)

  /** An OCR result object; a missing or empty `layoutParsingResults` is the empty sequence. */
  datatype OcrResult = OcrResult(layoutParsingResults: seq<LayoutResult>)

  /** What `requests.get(url)` returned. */
  datatype Fetch = Fetch(status: int, content: seq<bv8>)

  datatype FileWrite = WriteText(path: Path, text: string) | WriteBytes(path: Path, data: seq<bv8>)

  /** `MaterializedItem`, plus the files written on the way. */
  datatype Materialized = Materialized(mdFiles: seq<Path>, assets: seq<Path>, writes: seq<FileWrite>)

  /** An image path with no non-empty segment names the output directory
      itself, and writing the image bytes to a directory fails. */
  datatype StorageError = ImageTargetIsDirectory

  // ------------------------------------------------------------------
  // Names and per-result pieces

  function DocName(i: nat): string {
    "doc_" + NatToString(i) + ".md"
  }

  /** `f"{safe_path_segment(name)}_{i}.jpg"`. */
  function OutputImageName(name: string, i: nat): string {
    SafePathSegment(name) + "_" + NatToString(i) + ".jpg"
  }

  /** `((res.get("markdown") or {}).get("text")) or ""`. */
  function MarkdownText(res: LayoutResult): string {
    match res.markdown
    case None => ""
    case Some(m) => m.text.GetOr("")
  }

  /** `((res.get("markdown") or {}).get("images")) or {}`. */
  function MarkdownImages(res: LayoutResult): seq<(string, string)> {
    match res.markdown
    case None => []
    case Some(m) => m.images
  }

  /** Where the markdown image with this path is stored under `outputDir`. */
  function ImageTarget(outputDir: Path, imgPath: string): Path {
    outputDir + SafeParts(imgPath)
  }

  /** The paths of a layout result's markdown images, in order. */
  function ImageAssets(outputDir: Path, images: seq<(string, string)>): seq<Path> {
    seq(|images|, k requires 0 <= k < |images| => ImageTarget(outputDir, images[k].0))
  }

  function ImageWrites(outputDir: Path, images: seq<(string, string)>, fetch: string -> Fetch): seq<FileWrite> {
    seq(|images|, k requires 0 <= k < |images| =>
      WriteBytes(ImageTarget(outputDir, images[k].0), fetch(images[k].1).content))
  }

  /** The output images whose download answers 200, in order. */
  function Kept(outImages: seq<(string, string)>, fetch: string -> Fetch): seq<(string, string)> {
    if outImages == [] then []
    else
      var last := Last(outImages);
      Kept(outImages[..|outImages| - 1], fetch) + (if fetch(last.1).status == 200 then [last] else [])
  }

  /** The output images of layout result `i` that are stored. */
  function OutputImageAssets(outputDir: Path, i: nat, outImages: seq<(string, string)>, fetch: string -> Fetch): seq<Path> {
    var kept := Kept(outImages, fetch);
    seq(|kept|, k requires 0 <= k < |kept| => outputDir + [OutputImageName(kept[k].0, i)])
  }

  function OutputImageWrites(outputDir: Path, i: nat, outImages: seq<(string, string)>, fetch: string -> Fetch): seq<FileWrite> {
    var kept := Kept(outImages, fetch);
    seq(|kept|, k requires 0 <= k < |kept| =>
      WriteBytes(outputDir + [OutputImageName(kept[k].0, i)], fetch(kept[k].1).content))
  }

  function LayoutAssets(outputDir: Path, i: nat, res: LayoutResult, fetch: string -> Fetch): seq<Path> {
    ImageAssets(outputDir, MarkdownImages(res)) + OutputImageAssets(outputDir, i, res.outputImages, fetch)
  }

  function LayoutWrites(outputDir: Path, i: nat, res: LayoutResult, fetch: string -> Fetch): seq<FileWrite> {
    [WriteText(outputDir + [DocName(i)], MarkdownText(res))]
    + ImageWrites(outputDir, MarkdownImages(res), fetch)
    + OutputImageWrites(outputDir, i, res.outputImages, fetch)
  }

  // ------------------------------------------------------------------
  // The whole result

  function MdFiles(outputDir: Path, n: nat): seq<Path> {
    seq(n, i requires 0 <= i < n => outputDir + [DocName(i)])
  }

  function AssetsUpTo(outputDir: Path, layouts: seq<LayoutResult>, n: nat, fetch: string -> Fetch): seq<Path>
    requires n <= |layouts|
  {
    if n == 0 then [] else AssetsUpTo(outputDir, layouts, n - 1, fetch) + LayoutAssets(outputDir, n - 1, layouts[n - 1], fetch)
  }

  function WritesUpTo(outputDir: Path, layouts: seq<LayoutResult>, n: nat, fetch: string -> Fetch): seq<FileWrite>
    requires n <= |layouts|
  {
    if n == 0 then [] else WritesUpTo(outputDir, layouts, n - 1, fetch) + LayoutWrites(outputDir, n - 1, layouts[n - 1], fetch)
  }

  /** Some markdown image path has no non-empty segment. */
  predicate DirectoryImage(images: seq<(string, string)>) {
    exists j :: 0 <= j < |images| && SafeParts(images[j].0) == []
  }

  /** Some markdown image of the first `n` layout results names the output directory itself. */
  predicate HasDirectoryImage(layouts: seq<LayoutResult>, n: nat)
    requires n <= |layouts|
  {
    exists i :: 0 <= i < n && DirectoryImage(MarkdownImages(layouts[i]))
  }

  /** What `materialize_result_to_dir(result, output_dir)` returns or raises. */
  function Materialize(result: OcrResult, outputDir: Path, fetch: string -> Fetch): Result<Materialized, StorageError> {
    var layouts := result.layoutParsingResults;
    if HasDirectoryImage(layouts, |layouts|) then Err(ImageTargetIsDirectory)
    else Ok(Materialized(MdFiles(outputDir, |layouts|),
                         AssetsUpTo(outputDir, layouts, |layouts|, fetch),
                         WritesUpTo(outputDir, layouts, |layouts|, fetch)))
  }

  // ------------------------------------------------------------------
  // The loops

  /** The loop over `markdown.images` of one layout result. */
  method StoreMarkdownImages(outputDir: Path, images: seq<(string, string)>, fetch: string -> Fetch)
    returns (r: Result<(seq<Path>, seq<FileWrite>), StorageError>)
    ensures r == if DirectoryImage(images) then Err(ImageTargetIsDirectory)
                 else Ok((ImageAssets(outputDir, images), ImageWrites(outputDir, images, fetch)))
  {
    var assets: seq<Path> := [];
    var writes: seq<FileWrite> := [];
    ghost var allAssets := ImageAssets(outputDir, images);
    ghost var allWrites := ImageWrites(outputDir, images, fetch);
    for j := 0 to |images|
      invariant assets == allAssets[..j]
      invariant writes == allWrites[..j]
      invariant forall k :: 0 <= k < j ==> SafeParts(images[k].0) != []
    {
      var (imgPath, imgUrl) := images[j];
      var imgRel := SafeParts(imgPath);
      var fullImgPath := outputDir + imgRel;
      var imgBytes := fetch(imgUrl).content;
      if imgRel == [] {
        return Err(ImageTargetIsDirectory);
      }
      writes := writes + [WriteBytes(fullImgPath, imgBytes)];
      assets := assets + [fullImgPath];
      assert allAssets[..j + 1] == allAssets[..j] + [fullImgPath];
      assert allWrites[..j + 1] == allWrites[..j] + [WriteBytes(fullImgPath, imgBytes)];
    }
    assert allAssets[..|images|] == allAssets;
    assert allWrites[..|images|] == allWrites;
    r := Ok((assets, writes));
  }

  /** The loop over `outputImages` of layout result `i`. */
  method StoreOutputImages(outputDir: Path, i: nat, outImages: seq<(string, string)>, fetch: string -> Fetch)
    returns (assets: seq<Path>, writes: seq<FileWrite>)
    ensures assets == OutputImageAssets(outputDir, i, outImages, fetch)
    ensures writes == OutputImageWrites(outputDir, i, outImages, fetch)
  {
    assets, writes := [], [];
    for j := 0 to |outImages|
      invariant assets == OutputImageAssets(outputDir, i, outImages[..j], fetch)
      invariant writes == OutputImageWrites(outputDir, i, outImages[..j], fetch)
    {
      var (imgName, imgUrl) := outImages[j];
      var name := SafePathSegment(imgName);
      var filename := outputDir + [name + "_" + NatToString(i) + ".jpg"];
      var imgResp := fetch(imgUrl);
      OutputImagesSnoc(outputDir, i, outImages[..j + 1], fetch);
      assert outImages[..j + 1][..j] == outImages[..j];
      if imgResp.status == 200 {
        writes := writes + [WriteBytes(filename, imgResp.content)];
        assets := assets + [filename];
      }
    }
    assert outImages[..|outImages|] == outImages;
  }

  /** Each output image, in order, adds one asset and one write when its download answers 200, and nothing otherwise. */
  lemma OutputImagesSnoc(outputDir: Path, i: nat, outImages: seq<(string, string)>, fetch: string -> Fetch)
    requires outImages != []
    ensures var init, last := outImages[..|outImages| - 1], outImages[|outImages| - 1];
      var ok := fetch(last.1).status == 200;
      var path := outputDir + [OutputImageName(last.0, i)];
      OutputImageAssets(outputDir, i, outImages, fetch)
        == OutputImageAssets(outputDir, i, init, fetch) + (if ok then [path] else [])
      && OutputImageWrites(outputDir, i, outImages, fetch)
        == OutputImageWrites(outputDir, i, init, fetch) + (if ok then [WriteBytes(path, fetch(last.1).content)] else [])
  {
  }

  /** The body of the loop over layout results, for result `i`. */
  method StoreLayout(outputDir: Path, i: nat, res: LayoutResult, fetch: string -> Fetch)
    returns (r: Result<(seq<Path>, seq<FileWrite>), StorageError>)
    ensures r == if DirectoryImage(MarkdownImages(res)) then Err(ImageTargetIsDirectory)
                 else Ok((LayoutAssets(outputDir, i, res, fetch), LayoutWrites(outputDir, i, res, fetch)))
  {
    var mdPath := outputDir + [DocName(i)];
    var writes := [WriteText(mdPath, MarkdownText(res))];
    var stored := StoreMarkdownImages(outputDir, MarkdownImages(res), fetch);
    if stored.Err? {
      return Err(ImageTargetIsDirectory);
    }
    var outAssets, outWrites := StoreOutputImages(outputDir, i, res.outputImages, fetch);
    r := Ok((stored.value.0 + outAssets, writes + stored.value.1 + outWrites));
  }

  method MaterializeResultToDir(result: OcrResult, outputDir: Path, fetch: string -> Fetch)
    returns (r: Result<Materialized, StorageError>)
    ensures r == Materialize(result, outputDir, fetch)
  {
    var mdFiles: seq<Path> := [];
    var assets: seq<Path> := [];
    var writes: seq<FileWrite> := [];
    var layouts := result.layoutParsingResults;
    for i := 0 to |layouts|
      invariant mdFiles == MdFiles(outputDir, i)
      invariant assets == AssetsUpTo(outputDir, layouts, i, fetch)
      invariant writes == WritesUpTo(outputDir, layouts, i, fetch)
      invariant !HasDirectoryImage(layouts, i)
    {
      var stored := StoreLayout(outputDir, i, layouts[i], fetch);
      HasDirectoryImageStep(layouts, i);
      if stored.Err? {
        HasDirectoryImageMonotone(layouts, i + 1, |layouts|);
        return Err(ImageTargetIsDirectory);
      }
      MdFilesStep(outputDir, i);
      mdFiles := mdFiles + [outputDir + [DocName(i)]];
      assets := assets + stored.value.0;
      writes := writes + stored.value.1;
    }
    r := Ok(Materialized(mdFiles, assets, writes));
  }

  /** One more layout result adds its markdown images and then its kept output images. */
  lemma AssetsStep(outputDir: Path, layouts: seq<LayoutResult>, i: nat, fetch: string -> Fetch)
    requires i < |layouts|
    ensures AssetsUpTo(outputDir, layouts, i + 1, fetch)
      == AssetsUpTo(outputDir, layouts, i, fetch)
         + ImageAssets(outputDir, MarkdownImages(layouts[i]))
         + OutputImageAssets(outputDir, i, layouts[i].outputImages, fetch)
  {
    var res := layouts[i];
    var a, b := AssetsUpTo(outputDir, layouts, i, fetch), ImageAssets(outputDir, MarkdownImages(res));
    var c := OutputImageAssets(outputDir, i, res.outputImages, fetch);
    assert a + (b + c) == a + b + c;
  }

  lemma HasDirectoryImageStep(layouts: seq<LayoutResult>, i: nat)
    requires i < |layouts|
    ensures HasDirectoryImage(layouts, i + 1) <==>
      HasDirectoryImage(layouts, i) || DirectoryImage(MarkdownImages(layouts[i]))
  {
    if HasDirectoryImage(layouts, i + 1) && !DirectoryImage(MarkdownImages(layouts[i])) {
      var i' :| 0 <= i' < i + 1 && DirectoryImage(MarkdownImages(layouts[i']));
      assert i' < i;
    }
  }

  lemma MdFilesStep(outputDir: Path, i: nat)
    ensures MdFiles(outputDir, i + 1) == MdFiles(outputDir, i) + [outputDir + [DocName(i)]]
  {
  }

  lemma HasDirectoryImageMonotone(layouts: seq<LayoutResult>, m: nat, n: nat)
    requires m <= n <= |layouts|
    ensures HasDirectoryImage(layouts, m) ==> HasDirectoryImage(layouts, n)
  {
    if HasDirectoryImage(layouts, m) {
      var i :| 0 <= i < m && DirectoryImage(MarkdownImages(layouts[i]));
      assert 0 <= i < n;
    }
  }

  // ------------------------------------------------------------------
  // Properties

  /** No layout results: nothing is produced. */
  lemma MaterializeEmpty(result: OcrResult, outputDir: Path, fetch: string -> Fetch)
    requires result.layoutParsingResults == []
    ensures Materialize(result, outputDir, fetch) == Ok(Materialized([], [], []))
  {
    assert !HasDirectoryImage(result.layoutParsingResults, 0);
    assert MdFiles(outputDir, 0) == [];
  }

  /** A layout result's images name the output directory itself exactly when some image path is all separators. */
  lemma DirectoryImageIff(images: seq<(string, string)>)
    ensures DirectoryImage(images) <==> exists j :: 0 <= j < |images| && AllSeparators(images[j].0)
  {
    forall j | 0 <= j < |images| ensures SafeParts(images[j].0) == [] <==> AllSeparators(images[j].0) {
      SafePartsEmpty(images[j].0);
    }
  }

  /** The result fails exactly when some markdown image path is made only of separators. */
  lemma MaterializeFails(result: OcrResult, outputDir: Path, fetch: string -> Fetch)
    ensures Materialize(result, outputDir, fetch).Err? <==>
      exists i :: 0 <= i < |result.layoutParsingResults| &&
        exists j :: 0 <= j < |MarkdownImages(result.layoutParsingResults[i])|
          && AllSeparators(MarkdownImages(result.layoutParsingResults[i])[j].0)
  {
    var layouts := result.layoutParsingResults;
    forall i | 0 <= i < |layouts|
      ensures DirectoryImage(MarkdownImages(layouts[i])) <==>
        exists j :: 0 <= j < |MarkdownImages(layouts[i])| && AllSeparators(MarkdownImages(layouts[i])[j].0)
    {
      DirectoryImageIff(MarkdownImages(layouts[i]));
    }
  }

  lemma DocNameInjective(i: nat, j: nat)
    requires DocName(i) == DocName(j)
    ensures i == j
  {
    var a, b := NatToString(i), NatToString(j);
    assert DocName(i) == "doc_" + a + ".md";
    assert |a| == |b|;
    assert a == DocName(i)[4..4 + |a|];
    assert b == DocName(j)[4..4 + |b|];
    NatToStringInjective(i, j);
  }

  /** One markdown file per layout result, `doc_{i}.md` in index order, all different. */
  lemma MaterializeMdFiles(result: OcrResult, outputDir: Path, fetch: string -> Fetch)
    requires Materialize(result, outputDir, fetch).Ok?
    ensures var m := Materialize(result, outputDir, fetch).value;
      |m.mdFiles| == |result.layoutParsingResults|
      && (forall i :: 0 <= i < |m.mdFiles| ==> m.mdFiles[i] == outputDir + [DocName(i)])
      && (forall i, j :: 0 <= i < j < |m.mdFiles| ==> m.mdFiles[i] != m.mdFiles[j])
  {
    var m := Materialize(result, outputDir, fetch).value;
    forall i, j | 0 <= i < j < |m.mdFiles| ensures m.mdFiles[i] != m.mdFiles[j] {
      if m.mdFiles[i] == m.mdFiles[j] {
        assert m.mdFiles[i][|outputDir|] == DocName(i);
        assert m.mdFiles[j][|outputDir|] == DocName(j);
        DocNameInjective(i, j);
      }
    }
  }

  /** The writes of the first `m` results come first, in order. */
  lemma {:induction false} WritesUpToPrefix(outputDir: Path, layouts: seq<LayoutResult>, m: nat, n: nat, fetch: string -> Fetch)
    requires m <= n <= |layouts|
    ensures WritesUpTo(outputDir, layouts, m, fetch) <= WritesUpTo(outputDir, layouts, n, fetch)
  {
    if m < n {
      WritesUpToPrefix(outputDir, layouts, m, n - 1, fetch);
    }
  }

  /** The assets of the first `m` results come first, in order. */
  lemma {:induction false} AssetsUpToPrefix(outputDir: Path, layouts: seq<LayoutResult>, m: nat, n: nat, fetch: string -> Fetch)
    requires m <= n <= |layouts|
    ensures AssetsUpTo(outputDir, layouts, m, fetch) <= AssetsUpTo(outputDir, layouts, n, fetch)
  {
    if m < n {
      AssetsUpToPrefix(outputDir, layouts, m, n - 1, fetch);
    }
  }

  /** Each `doc_{i}.md` is written with the result's markdown text, or "" when it has none. */
  lemma MaterializeWritesMarkdown(result: OcrResult, outputDir: Path, fetch: string -> Fetch, i: nat)
    requires Materialize(result, outputDir, fetch).Ok?
    requires i < |result.layoutParsingResults|
    ensures var res := result.layoutParsingResults[i];
      var text := if res.markdown.None? || res.markdown.value.text.None? then "" else res.markdown.value.text.value;
      WriteText(outputDir + [DocName(i)], text) in Materialize(result, outputDir, fetch).value.writes
  {
    var layouts := result.layoutParsingResults;
    WritesUpToPrefix(outputDir, layouts, i + 1, |layouts|, fetch);
    var w := WritesUpTo(outputDir, layouts, i + 1, fetch);
    var before := WritesUpTo(outputDir, layouts, i, fetch);
    assert w[|before|] == WriteText(outputDir + [DocName(i)], MarkdownText(layouts[i]));
  }

  /** Each markdown image is written with whatever its download returned, whatever the status. */
  lemma MaterializeWritesImage(result: OcrResult, outputDir: Path, fetch: string -> Fetch, i: nat, j: nat)
    requires Materialize(result, outputDir, fetch).Ok?
    requires i < |result.layoutParsingResults| && j < |MarkdownImages(result.layoutParsingResults[i])|
    ensures var img := MarkdownImages(result.layoutParsingResults[i])[j];
      WriteBytes(outputDir + SafeParts(img.0), fetch(img.1).content) in Materialize(result, outputDir, fetch).value.writes
  {
    var layouts := result.layoutParsingResults;
    WritesUpToImage(outputDir, layouts, |layouts|, fetch, i, j);
  }

  lemma WritesUpToImage(outputDir: Path, layouts: seq<LayoutResult>, n: nat, fetch: string -> Fetch, i: nat, j: nat)
    requires i < n <= |layouts| && j < |MarkdownImages(layouts[i])|
    ensures var img := MarkdownImages(layouts[i])[j];
      WriteBytes(outputDir + SafeParts(img.0), fetch(img.1).content) in WritesUpTo(outputDir, layouts, n, fetch)
  {
    var img := MarkdownImages(layouts[i])[j];
    var x := WriteBytes(outputDir + SafeParts(img.0), fetch(img.1).content);
    var l := LayoutWrites(outputDir, i, layouts[i], fetch);
    LayoutWritesImage(outputDir, i, layouts[i], fetch, j);
    assert x in WritesUpTo(outputDir, layouts, i + 1, fetch) by {
      InConcat(x, WritesUpTo(outputDir, layouts, i, fetch), l);
    }
    WritesUpToPrefix(outputDir, layouts, i + 1, n, fetch);
    InPrefix(x, WritesUpTo(outputDir, layouts, i + 1, fetch), WritesUpTo(outputDir, layouts, n, fetch));
  }

  lemma InConcat<T>(x: T, a: seq<T>, b: seq<T>)
    requires x in b
    ensures x in a + b
  {
    var k :| 0 <= k < |b| && b[k] == x;
    assert (a + b)[|a| + k] == x;
  }

  lemma InPrefix<T>(x: T, a: seq<T>, b: seq<T>)
    requires x in a && a <= b
    ensures x in b
  {
    var k :| 0 <= k < |a| && a[k] == x;
    assert b[k] == x;
  }

  lemma LayoutWritesImage(outputDir: Path, i: nat, res: LayoutResult, fetch: string -> Fetch, j: nat)
    requires j < |MarkdownImages(res)|
    ensures var img := MarkdownImages(res)[j];
      |LayoutWrites(outputDir, i, res, fetch)| > 1 + j
      && LayoutWrites(outputDir, i, res, fetch)[1 + j] == WriteBytes(outputDir + SafeParts(img.0), fetch(img.1).content)
  {
    var images := ImageWrites(outputDir, MarkdownImages(res), fetch);
    assert LayoutWrites(outputDir, i, res, fetch)[1 + j] == images[j];
  }

  /** The output image names are safe single segments ending in ".jpg". */
  lemma OutputImageNameSafe(name: string, i: nat)
    ensures IsSafeSegment(OutputImageName(name, i))
    ensures EndsWith(OutputImageName(name, i), ".jpg")
  {
    SafePathSegmentIsSafe(name);
    assert AllSafe(".jpg");
    NumberedNameSafe(SafePathSegment(name), i, ".jpg");
    var o := OutputImageName(name, i);
    assert o[|o| - 4..] == ".jpg";
  }

  /** `Kept` keeps exactly the output images whose download answered 200. */
  lemma {:induction false} KeptIn(outImages: seq<(string, string)>, fetch: string -> Fetch, x: (string, string))
    ensures x in Kept(outImages, fetch) <==> x in outImages && fetch(x.1).status == 200
  {
    if outImages != [] {
      var init := outImages[..|outImages| - 1];
      KeptIn(init, fetch, x);
      assert outImages == init + [Last(outImages)];
    }
  }

  /** An output image is stored exactly when its download answered 200. */
  lemma OutputImageAssetsKept(outputDir: Path, i: nat, outImages: seq<(string, string)>, fetch: string -> Fetch, p: Path)
    ensures p in OutputImageAssets(outputDir, i, outImages, fetch) <==>
      exists k :: 0 <= k < |outImages| && fetch(outImages[k].1).status == 200
        && p == outputDir + [OutputImageName(outImages[k].0, i)]
  {
    var kept := Kept(outImages, fetch);
    var assets := OutputImageAssets(outputDir, i, outImages, fetch);
    if p in assets {
      var k' :| 0 <= k' < |kept| && p == assets[k'];
      KeptIn(outImages, fetch, kept[k']);
      var k :| 0 <= k < |outImages| && outImages[k] == kept[k'];
      assert fetch(outImages[k].1).status == 200 && p == outputDir + [OutputImageName(outImages[k].0, i)];
    }
    if exists k :: 0 <= k < |outImages| && fetch(outImages[k].1).status == 200
        && p == outputDir + [OutputImageName(outImages[k].0, i)] {
      var k :| 0 <= k < |outImages| && fetch(outImages[k].1).status == 200
        && p == outputDir + [OutputImageName(outImages[k].0, i)];
      KeptIn(outImages, fetch, outImages[k]);
      var k' :| 0 <= k' < |kept| && kept[k'] == outImages[k];
      assert assets[k'] == p;
    }
  }

  /** `a` is `outputDir` followed by one or more safe segments. */
  predicate Inside(outputDir: Path, a: Path) {
    |a| > |outputDir| && a[..|outputDir|] == outputDir
    && forall k :: |outputDir| <= k < |a| ==> IsSafeSegment(a[k])
  }

  lemma ImageAssetsInside(outputDir: Path, images: seq<(string, string)>)
    requires !DirectoryImage(images)
    ensures forall a :: a in ImageAssets(outputDir, images) ==> Inside(outputDir, a)
  {
    forall j | 0 <= j < |images| ensures Inside(outputDir, outputDir + SafeParts(images[j].0)) {
      SafePartsSafe(images[j].0);
    }
  }

  lemma OutputImageAssetsInside(outputDir: Path, i: nat, outImages: seq<(string, string)>, fetch: string -> Fetch)
    ensures forall a :: a in OutputImageAssets(outputDir, i, outImages, fetch) ==> Inside(outputDir, a)
  {
    forall a | a in OutputImageAssets(outputDir, i, outImages, fetch) ensures Inside(outputDir, a) {
      OutputImageAssetsKept(outputDir, i, outImages, fetch, a);
      var k :| 0 <= k < |outImages| && a == outputDir + [OutputImageName(outImages[k].0, i)];
      OutputImageNameSafe(outImages[k].0, i);
    }
  }

  lemma {:induction false} AssetsUnder(outputDir: Path, layouts: seq<LayoutResult>, n: nat, fetch: string -> Fetch)
    requires n <= |layouts|
    requires !HasDirectoryImage(layouts, n)
    ensures forall a :: a in AssetsUpTo(outputDir, layouts, n, fetch) ==> Inside(outputDir, a)
  {
    if n > 0 {
      HasDirectoryImageStep(layouts, n - 1);
      AssetsUnder(outputDir, layouts, n - 1, fetch);
      ImageAssetsInside(outputDir, MarkdownImages(layouts[n - 1]));
      OutputImageAssetsInside(outputDir, n - 1, layouts[n - 1].outputImages, fetch);
    }
  }

  /** Everything recorded in `assets` lies strictly inside the output directory. */
  lemma MaterializeAssetsUnder(result: OcrResult, outputDir: Path, fetch: string -> Fetch)
    requires Materialize(result, outputDir, fetch).Ok?
    ensures forall a :: a in Materialize(result, outputDir, fetch).value.assets ==> Inside(outputDir, a)
  {
    AssetsUnder(outputDir, result.layoutParsingResults, |result.layoutParsingResults|, fetch);
  }

  /** The assets of result `i` appear in order: its markdown images, then its kept output images, after those of every earlier result. */
  lemma MaterializeAssetsOrder(result: OcrResult, outputDir: Path, fetch: string -> Fetch, i: nat)
    requires Materialize(result, outputDir, fetch).Ok?
    requires i < |result.layoutParsingResults|
    ensures var layouts := result.layoutParsingResults;
      AssetsUpTo(outputDir, layouts, i, fetch)
      + ImageAssets(outputDir, MarkdownImages(layouts[i]))
      + OutputImageAssets(outputDir, i, layouts[i].outputImages, fetch)
      <= Materialize(result, outputDir, fetch).value.assets
  {
    var layouts := result.layoutParsingResults;
    AssetsStep(outputDir, layouts, i, fetch);
    AssetsUpToPrefix(outputDir, layouts, i + 1, |layouts|, fetch);
  }
}
