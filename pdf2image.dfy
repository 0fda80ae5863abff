/** The PDF rasteriser of PDF/PDF2Image.cs: the mapping from a format name to
    an encoder, the validation and page naming of a single conversion, and
    the batch conversion with its concurrency level and the flattening of
    the per-file path lists.

    The rendering library is an oracle `render` giving, for a PDF and a
    resolution, how many pages it renders (or None when it throws); the
    file system is a `Disk` value; Environment.ProcessorCount is a
    parameter. */
module PDF2Image {
  import opened Wrappers
  import opened Text
  import Paths
  import opened Storage
  import Seqs

  /** The exceptions the conversion throws, with the parameter they name. */
  datatype PdfError =
    | ArgumentNull(paramName: string)
    | FileNotFound(path: string)
    | ArgumentOutOfRange(paramName: string)
    | Argument(paramName: string)
    | RenderFailed(path: string)

  // ---------------------------------------------------------------------------
  // Format names

  /** GetSkiaSharpEncodeFormat. */
  function GetSkiaSharpEncodeFormat(format: string): (r: Result<ImageFormat, PdfError>)
    ensures IsNullOrWhiteSpace(format) ==> r == Err(ArgumentNull("format"))
    ensures r.Err? && !IsNullOrWhiteSpace(format) ==> r == Err(Argument("format"))
    ensures r.Ok? <==> ToLower(format) in {"png", "jpeg", "jpg", "webp", "bmp", "gif"}
  {
    if IsNullOrWhiteSpace(format) then
      BlankFormatsUnlisted(format);
      Err(ArgumentNull("format"))
    else
      var f := ToLower(format);
      if f == "png" then Ok(Png)
      else if f == "jpeg" || f == "jpg" then Ok(Jpeg)
      else if f == "webp" then Ok(Webp)
      else if f == "bmp" then Ok(Bmp)
      else if f == "gif" then Ok(Gif)
      else Err(Argument("format"))
  }

  /** No supported name is blank. */
  lemma BlankFormatsUnlisted(format: string)
    requires IsNullOrWhiteSpace(format)
    ensures ToLower(format) !in {"png", "jpeg", "jpg", "webp", "bmp", "gif"}
  {
    BlankUnderCase(format);
    var f := ToLower(format);
    if |f| > 0 {
      assert IsWhiteSpace(f[0]);
    }
  }

  /** The lower-case name of each encoder. */
  function FormatName(f: ImageFormat): string {
    match f
    case Png => "png"
    case Jpeg => "jpeg"
    case Webp => "webp"
    case Bmp => "bmp"
    case Gif => "gif"
  }

  /** The mapping ignores case. */
  lemma FormatCaseInsensitive(a: string, b: string)
    requires ToLower(a) == ToLower(b)
    ensures GetSkiaSharpEncodeFormat(a) == GetSkiaSharpEncodeFormat(b)
  {
    BlankUnderCase(a);
    BlankUnderCase(b);
  }

  /** Every encoder is reached from its own name, in any case, and "jpg"
      is a second name for JPEG. */
  lemma FormatNamesRoundTrip(f: ImageFormat)
    ensures GetSkiaSharpEncodeFormat(FormatName(f)) == Ok(f)
    ensures GetSkiaSharpEncodeFormat(ToUpper(FormatName(f))) == Ok(f)
    ensures GetSkiaSharpEncodeFormat("jpg") == Ok(Jpeg)
  {
    var n := FormatName(f);
    assert ToLower(n) == n;
    LowerOfUpper(n);
    FormatCaseInsensitive(ToUpper(n), n);
    assert ToLower("jpg") == "jpg";
  }

  /** A supported name holds no separator. */
  lemma SupportedFormatIsPlain(format: string)
    requires GetSkiaSharpEncodeFormat(format).Ok?
    ensures !Paths.HasSeparator(ToLower(format))
  {
    var f := ToLower(format);
    assert f in {"png", "jpeg", "jpg", "webp", "bmp", "gif"};
    assert forall i :: 0 <= i < |f| ==> 'a' <= f[i] <= 'z';
  }

  // ---------------------------------------------------------------------------
  // Page names

  /** `<outputDirectory>/<baseName>_page_<k>.<lower-case format>`. */
  function PageFileName(baseName: string, imageFormat: string, k: nat): string {
    baseName + "_page_" + NatToString(k) + "." + ToLower(imageFormat)
  }

  function PagePath(outputDirectory: string, baseName: string, imageFormat: string, k: nat): string {
    Paths.Combine(outputDirectory, PageFileName(baseName, imageFormat, k))
  }

  /** The paths of the first `n` pages, numbered from 1. */
  function PagePaths(outputDirectory: string, baseName: string, imageFormat: string, n: nat): (r: seq<string>)
    ensures |r| == n
    ensures forall i :: 0 <= i < n ==> r[i] == PagePath(outputDirectory, baseName, imageFormat, i + 1)
  {
    seq(n, i requires 0 <= i < n => PagePath(outputDirectory, baseName, imageFormat, i + 1))
  }

  lemma PlainPageFileName(baseName: string, imageFormat: string, k: nat)
    requires !Paths.HasSeparator(baseName) && !Paths.HasSeparator(ToLower(imageFormat))
    ensures !Paths.HasSeparator(PageFileName(baseName, imageFormat, k))
  {
    var num := NatToString(k);
    assert !Paths.HasSeparator("_page_");
    assert !Paths.HasSeparator(num) by {
      assert forall i :: 0 <= i < |num| ==> IsDigit(num[i]);
    }
    assert !Paths.HasSeparator(".");
    Paths.PlainConcat(baseName, "_page_");
    Paths.PlainConcat(baseName + "_page_", num);
    Paths.PlainConcat(baseName + "_page_" + num, ".");
    Paths.PlainConcat(baseName + "_page_" + num + ".", ToLower(imageFormat));
  }

  /** A page's file name says which page it holds: the number reads back
      from the name. */
  lemma PageFileNameInjective(baseName: string, imageFormat: string, j: nat, k: nat)
    requires PageFileName(baseName, imageFormat, j) == PageFileName(baseName, imageFormat, k)
    ensures j == k
  {
    var pre := baseName + "_page_";
    var post := "." + ToLower(imageFormat);
    var nj, nk := NatToString(j), NatToString(k);
    var a, b := pre + nj + post, pre + nk + post;
    assert a == PageFileName(baseName, imageFormat, j);
    assert b == PageFileName(baseName, imageFormat, k);
    assert |nj| == |nk|;
    assert a[|pre|..|pre| + |nj|] == nj;
    assert b[|pre|..|pre| + |nk|] == nk;
    NatToStringInjective(j, k);
  }

  /** Each page has its own file, named after the PDF and the page number,
      directly inside the output directory. */
  lemma PagePathsDistinct(outputDirectory: string, baseName: string, imageFormat: string, j: nat, k: nat)
    requires !Paths.HasSeparator(baseName) && !Paths.HasSeparator(ToLower(imageFormat))
    ensures Paths.GetFileName(PagePath(outputDirectory, baseName, imageFormat, k)) == PageFileName(baseName, imageFormat, k)
    ensures outputDirectory != "" && outputDirectory[|outputDirectory| - 1] !in Paths.Separators ==>
      Paths.GetDirectoryName(PagePath(outputDirectory, baseName, imageFormat, k)) == outputDirectory
    ensures j != k ==> PagePath(outputDirectory, baseName, imageFormat, j) != PagePath(outputDirectory, baseName, imageFormat, k)
  {
    PlainPageFileName(baseName, imageFormat, j);
    PlainPageFileName(baseName, imageFormat, k);
    Paths.CombineSplits(outputDirectory, PageFileName(baseName, imageFormat, j));
    Paths.CombineSplits(outputDirectory, PageFileName(baseName, imageFormat, k));
    if PagePath(outputDirectory, baseName, imageFormat, j) == PagePath(outputDirectory, baseName, imageFormat, k) {
      PageFileNameInjective(baseName, imageFormat, j, k);
    }
  }

  lemma PagePathInjective(outputDirectory: string, baseName: string, imageFormat: string, j: nat, k: nat)
    requires !Paths.HasSeparator(baseName) && !Paths.HasSeparator(ToLower(imageFormat))
    requires j != k
    ensures PagePath(outputDirectory, baseName, imageFormat, j) != PagePath(outputDirectory, baseName, imageFormat, k)
  {
    PagePathsDistinct(outputDirectory, baseName, imageFormat, j, k);
  }

  // ---------------------------------------------------------------------------
  // One PDF

  /** The checks at the top of ProcessSinglePdfFileAsync, the first that
      fails naming the error. */
  function ValidateSingle(pdfFilePath: string, outputDirectory: string, dpi: int, quality: int, disk: Disk): (r: Option<PdfError>)
    ensures r.None? <==>
      && !IsNullOrWhiteSpace(pdfFilePath) && Exists(disk, pdfFilePath)
      && !IsNullOrWhiteSpace(outputDirectory) && dpi > 0 && 0 <= quality <= 100
  {
    if IsNullOrWhiteSpace(pdfFilePath) then Some(ArgumentNull("pdfFilePath"))
    else if !Exists(disk, pdfFilePath) then Some(FileNotFound(pdfFilePath))
    else if IsNullOrWhiteSpace(outputDirectory) then Some(ArgumentNull("outputDirectory"))
    else if dpi <= 0 then Some(ArgumentOutOfRange("dpi"))
    else if quality < 0 || quality > 100 then Some(ArgumentOutOfRange("quality"))
    else None
  }

  /** The checks run in source order: each error comes back exactly when its
      own check fails and every earlier one passes. */
  lemma ValidationOrder(pdfFilePath: string, outputDirectory: string, dpi: int, quality: int, disk: Disk)
    ensures var r := ValidateSingle(pdfFilePath, outputDirectory, dpi, quality, disk);
      && (r == Some(ArgumentNull("pdfFilePath")) <==> IsNullOrWhiteSpace(pdfFilePath))
      && (r == Some(FileNotFound(pdfFilePath)) <==>
            !IsNullOrWhiteSpace(pdfFilePath) && !Exists(disk, pdfFilePath))
      && (r == Some(ArgumentNull("outputDirectory")) <==>
            !IsNullOrWhiteSpace(pdfFilePath) && Exists(disk, pdfFilePath) && IsNullOrWhiteSpace(outputDirectory))
      && (r == Some(ArgumentOutOfRange("dpi")) <==>
            !IsNullOrWhiteSpace(pdfFilePath) && Exists(disk, pdfFilePath) && !IsNullOrWhiteSpace(outputDirectory)
            && dpi <= 0)
      && (r == Some(ArgumentOutOfRange("quality")) <==>
            !IsNullOrWhiteSpace(pdfFilePath) && Exists(disk, pdfFilePath) && !IsNullOrWhiteSpace(outputDirectory)
            && dpi > 0 && (quality < 0 || quality > 100))
  {
  }

  /** Page `i + 1`'s path, and the image encoded there. */
  function PageAt(outputDirectory: string, baseName: string, imageFormat: string): nat -> string {
    (i: nat) => PagePath(outputDirectory, baseName, imageFormat, i + 1)
  }

  function PageImageAt(pdfFilePath: string, skFormat: ImageFormat, quality: int): nat -> Content {
    (i: nat) => PageImage(pdfFilePath, i + 1, skFormat, Some(quality))
  }

  /** The disk after the first `n` pages of `pdfFilePath` were encoded. */
  function WritePages(d: Disk, pdfFilePath: string, outputDirectory: string, baseName: string, imageFormat: string,
                      skFormat: ImageFormat, quality: int, n: nat): Disk
  {
    WriteEach(d, n, PageAt(outputDirectory, baseName, imageFormat), PageImageAt(pdfFilePath, skFormat, quality))
  }

  datatype Converted = Converted(result: Result<seq<string>, PdfError>, disk: Disk)

  /** What converting one PDF returns, and the disk it leaves. */
  function SingleFile(pdfFilePath: string, outputDirectory: string, imageFormat: string, dpi: int, quality: int,
                      render: (string, int) -> Option<nat>, disk: Disk): Converted
  {
    match ValidateSingle(pdfFilePath, outputDirectory, dpi, quality, disk)
    case Some(e) => Converted(Err(e), disk)
    case None =>
      var d1 := CreateDirectory(disk, outputDirectory);
      match GetSkiaSharpEncodeFormat(imageFormat)
      case Err(e) => Converted(Err(e), d1)
      case Ok(skFormat) =>
        match render(pdfFilePath, dpi)
        case None => Converted(Err(RenderFailed(pdfFilePath)), d1)
        case Some(n) =>
          var baseName := Paths.GetFileNameWithoutExtension(pdfFilePath);
          Converted(Ok(PagePaths(outputDirectory, baseName, imageFormat, n)),
                    WritePages(d1, pdfFilePath, outputDirectory, baseName, imageFormat, skFormat, quality, n))
  }

  /** ProcessSinglePdfFileAsync. */
  method ProcessSinglePdfFile(pdfFilePath: string, outputDirectory: string, imageFormat: string, dpi: int, quality: int,
                              render: (string, int) -> Option<nat>, disk: Disk)
    returns (r: Result<seq<string>, PdfError>, disk': Disk)
    ensures Converted(r, disk') == SingleFile(pdfFilePath, outputDirectory, imageFormat, dpi, quality, render, disk)
  {
    disk' := disk;
    var invalid := ValidateSingle(pdfFilePath, outputDirectory, dpi, quality, disk);
    if invalid.Some? {
      return Err(invalid.value), disk';
    }
    disk' := CreateDirectory(disk', outputDirectory);
    var format := GetSkiaSharpEncodeFormat(imageFormat);
    if format.Err? {
      return Err(format.error), disk';
    }
    var skFormat := format.value;
    var baseName := Paths.GetFileNameWithoutExtension(pdfFilePath);
    var images := render(pdfFilePath, dpi);
    if images.None? {
      return Err(RenderFailed(pdfFilePath)), disk';
    }
    var currentFileImagePaths;
    currentFileImagePaths, disk' := EncodePages(pdfFilePath, outputDirectory, baseName, imageFormat, skFormat, quality,
                                                images.value, disk');
    r := Ok(currentFileImagePaths);
  }

  /** The loop over the rendered pages, numbered from 1, encoding each to
      its own file. */
  method EncodePages(pdfFilePath: string, outputDirectory: string, baseName: string, imageFormat: string,
                     skFormat: ImageFormat, quality: int, count: nat, disk: Disk)
    returns (currentFileImagePaths: seq<string>, disk': Disk)
    ensures currentFileImagePaths == PagePaths(outputDirectory, baseName, imageFormat, count)
    ensures disk' == WritePages(disk, pdfFilePath, outputDirectory, baseName, imageFormat, skFormat, quality, count)
  {
    disk' := disk;
    currentFileImagePaths := [];
    var pageNumber := 1;
    while pageNumber <= count
      invariant 1 <= pageNumber <= count + 1
      invariant currentFileImagePaths == PagePaths(outputDirectory, baseName, imageFormat, pageNumber - 1)
      invariant disk' == WritePages(disk, pdfFilePath, outputDirectory, baseName, imageFormat, skFormat, quality, pageNumber - 1)
    {
      var outputFileName := baseName + "_page_" + NatToString(pageNumber) + "." + ToLower(imageFormat);
      var outputFilePath := Paths.Combine(outputDirectory, outputFileName);
      assert outputFilePath == PageAt(outputDirectory, baseName, imageFormat)(pageNumber - 1);
      assert PageImage(pdfFilePath, pageNumber, skFormat, Some(quality)) == PageImageAt(pdfFilePath, skFormat, quality)(pageNumber - 1);
      disk' := WriteFile(disk', outputFilePath, PageImage(pdfFilePath, pageNumber, skFormat, Some(quality)));
      currentFileImagePaths := currentFileImagePaths + [outputFilePath];
      pageNumber := pageNumber + 1;
    }
  }

  /** PDFToImageAsync, with its defaults: 150 dpi, "jpg", quality 80. */
  method PDFToImageAsync(pdfFilePath: string, outputDirectory: string, render: (string, int) -> Option<nat>, disk: Disk,
                         dpi: int := 150, imageFormat: string := "jpg", quality: int := 80)
    returns (r: Result<seq<string>, PdfError>, disk': Disk)
    ensures Converted(r, disk') == SingleFile(pdfFilePath, outputDirectory, imageFormat, dpi, quality, render, disk)
  {
    r, disk' := ProcessSinglePdfFile(pdfFilePath, outputDirectory, imageFormat, dpi, quality, render, disk);
  }

  /** The pages written are those the result lists, each holding its page. */
  lemma WritePagesContents(d: Disk, pdfFilePath: string, outputDirectory: string, baseName: string,
                           imageFormat: string, skFormat: ImageFormat, quality: int, n: nat, k: nat)
    requires !Paths.HasSeparator(baseName) && !Paths.HasSeparator(ToLower(imageFormat))
    requires 1 <= k <= n
    ensures var files := WritePages(d, pdfFilePath, outputDirectory, baseName, imageFormat, skFormat, quality, n).files;
      && PagePath(outputDirectory, baseName, imageFormat, k) in files
      && files[PagePath(outputDirectory, baseName, imageFormat, k)] == PageImage(pdfFilePath, k, skFormat, Some(quality))
    ensures WritePages(d, pdfFilePath, outputDirectory, baseName, imageFormat, skFormat, quality, n).dirs == d.dirs
  {
    var path := PageAt(outputDirectory, baseName, imageFormat);
    var content := PageImageAt(pdfFilePath, skFormat, quality);
    LaterPagesElsewhere(outputDirectory, baseName, imageFormat, n, k);
    WriteEachContents(d, n, path, content, k - 1);
    WriteEachKeys(d, n, path, content);
  }

  lemma LaterPagesElsewhere(outputDirectory: string, baseName: string, imageFormat: string, n: nat, k: nat)
    requires !Paths.HasSeparator(baseName) && !Paths.HasSeparator(ToLower(imageFormat))
    requires 1 <= k
    ensures forall j :: k - 1 < j < n ==> PageAt(outputDirectory, baseName, imageFormat)(j) != PageAt(outputDirectory, baseName, imageFormat)(k - 1)
  {
    var path := PageAt(outputDirectory, baseName, imageFormat);
    forall j | k - 1 < j < n
      ensures path(j) != path(k - 1)
    {
      PagePathInjective(outputDirectory, baseName, imageFormat, j + 1, k);
    }
  }

  /** A converted PDF returns one path per rendered page, in page order,
      each distinct and holding that page; the checks are made in order and
      before anything is written; the format is checked before any page is
      rendered. */
  lemma SingleFileFacts(pdfFilePath: string, outputDirectory: string, imageFormat: string, dpi: int, quality: int,
                        render: (string, int) -> Option<nat>, disk: Disk)
    ensures var c := SingleFile(pdfFilePath, outputDirectory, imageFormat, dpi, quality, render, disk);
      && (ValidateSingle(pdfFilePath, outputDirectory, dpi, quality, disk).Some? ==> c.disk == disk)
      && (ValidateSingle(pdfFilePath, outputDirectory, dpi, quality, disk).None? && GetSkiaSharpEncodeFormat(imageFormat).Err? ==>
            c.disk == CreateDirectory(disk, outputDirectory) && c.result == Err(GetSkiaSharpEncodeFormat(imageFormat).error))
      && (c.result.Ok? ==>
            var baseName := Paths.GetFileNameWithoutExtension(pdfFilePath);
            var paths := c.result.value;
            && render(pdfFilePath, dpi) == Some(|paths|)
            && (forall i :: 0 <= i < |paths| ==> paths[i] == PagePath(outputDirectory, baseName, imageFormat, i + 1))
            && (forall i, j :: 0 <= i < j < |paths| ==> paths[i] != paths[j])
            && (forall i :: 0 <= i < |paths| ==>
                  (paths[i] in c.disk.files
                   && c.disk.files[paths[i]] == PageImage(pdfFilePath, i + 1, GetSkiaSharpEncodeFormat(imageFormat).value, Some(quality))))
            && outputDirectory in c.disk.dirs)
  {
    var c := SingleFile(pdfFilePath, outputDirectory, imageFormat, dpi, quality, render, disk);
    if c.result.Ok? {
      var baseName := Paths.GetFileNameWithoutExtension(pdfFilePath);
      var skFormat := GetSkiaSharpEncodeFormat(imageFormat).value;
      var n := render(pdfFilePath, dpi).value;
      var d1 := CreateDirectory(disk, outputDirectory);
      var paths := c.result.value;
      SupportedFormatIsPlain(imageFormat);
      forall i, j | 0 <= i < j < |paths| ensures paths[i] != paths[j] {
        PagePathsDistinct(outputDirectory, baseName, imageFormat, i + 1, j + 1);
      }
      forall i | 0 <= i < |paths|
        ensures paths[i] in c.disk.files && c.disk.files[paths[i]] == PageImage(pdfFilePath, i + 1, skFormat, Some(quality))
      {
        WritePagesContents(d1, pdfFilePath, outputDirectory, baseName, imageFormat, skFormat, quality, n, i + 1);
      }
      if n > 0 {
        WritePagesContents(d1, pdfFilePath, outputDirectory, baseName, imageFormat, skFormat, quality, n, 1);
      }
    }
  }

  // ---------------------------------------------------------------------------
  // A batch of PDFs

  predicate FileOk(disk: Disk, path: string) {
    !IsNullOrWhiteSpace(path) && Exists(disk, path)
  }

  /** The first path that is blank or names no file. */
  function FirstMissing(files: seq<string>, disk: Disk): (r: Option<string>)
    ensures r.None? <==> forall i :: 0 <= i < |files| ==> FileOk(disk, files[i])
    ensures r.Some? ==>
      exists i :: (0 <= i < |files| && files[i] == r.value && !FileOk(disk, files[i]) &&
                   forall j :: 0 <= j < i ==> FileOk(disk, files[j]))
    decreases |files|
  {
    if |files| == 0 then None
    else if !FileOk(disk, files[0]) then Some(files[0])
    else
      var r := FirstMissing(files[1..], disk);
      assert forall i :: 0 < i < |files| ==> files[i] == files[1..][i - 1];
      r
  }

  lemma {:induction false} FirstMissingAt(files: seq<string>, disk: Disk, i: nat)
    requires i < |files| && !FileOk(disk, files[i])
    requires forall j :: 0 <= j < i ==> FileOk(disk, files[j])
    ensures FirstMissing(files, disk) == Some(files[i])
    decreases i
  {
    if i > 0 {
      FirstMissingAt(files[1..], disk, i - 1);
    }
  }

  /** `concurrency` in PDFToImagesAsync. */
  function EffectiveConcurrency(maxConcurrentTasks: int, processorCount: int, fileCount: int): (c: int)
    ensures fileCount >= 1 && processorCount >= 1 ==> 1 <= c <= fileCount
    ensures c <= fileCount
    ensures c <= (if maxConcurrentTasks <= 0 then processorCount else maxConcurrentTasks)
    ensures c == fileCount || c == (if maxConcurrentTasks <= 0 then processorCount else maxConcurrentTasks)
  {
    var concurrency := if maxConcurrentTasks <= 0 then processorCount else maxConcurrentTasks;
    if concurrency < fileCount then concurrency else fileCount
  }

  datatype BatchState = BatchState(results: seq<Result<seq<string>, PdfError>>, disk: Disk)

  /** The results and the disk after converting `files` in list order. */
  function RunFiles(files: seq<string>, outputDirectory: string, imageFormat: string, dpi: int, quality: int,
                    render: (string, int) -> Option<nat>, disk: Disk): (s: BatchState)
    ensures |s.results| == |files|
    decreases |files|
  {
    if |files| == 0 then BatchState([], disk)
    else
      var s := RunFiles(files[..|files| - 1], outputDirectory, imageFormat, dpi, quality, render, disk);
      var c := SingleFile(files[|files| - 1], outputDirectory, imageFormat, dpi, quality, render, s.disk);
      BatchState(s.results + [c.result], c.disk)
  }

  /** The exception Task.WhenAll re-throws: that of the first failed task
      in task order. */
  function FirstError(results: seq<Result<seq<string>, PdfError>>): (r: Option<PdfError>)
    ensures r.None? <==> forall i :: 0 <= i < |results| ==> results[i].Ok?
    ensures r.Some? ==> exists i :: 0 <= i < |results| && results[i] == Err(r.value)
                                   && forall j :: 0 <= j < i ==> results[j].Ok?
    decreases |results|
  {
    if |results| == 0 then None
    else if results[0].Err? then Some(results[0].error)
    else
      assert forall i :: 0 < i < |results| ==> results[i] == results[1..][i - 1];
      var r := FirstError(results[1..]);
      assert r.Some? ==> exists i :: 1 <= i < |results| && results[i] == Err(r.value)
                                   && forall j :: 0 <= j < i ==> results[j].Ok?
      by {
        if r.Some? {
          var i :| 0 <= i < |results[1..]| && results[1..][i] == Err(r.value)
                   && forall j :: 0 <= j < i ==> results[1..][j].Ok?;
          assert results[i + 1] == Err(r.value);
          assert forall j :: 0 <= j < i + 1 ==> results[j].Ok?;
        }
      }
      r
  }

  function PathsOf(r: Result<seq<string>, PdfError>): seq<string> {
    if r.Ok? then r.value else []
  }

  /** The per-file lists one after the other. */
  function Flatten(results: seq<Result<seq<string>, PdfError>>): seq<string> {
    Seqs.FlatMap(results, PathsOf)
  }

  /** PDFToImagesAsync; `pdfFilePaths` is None for a null list, and
      `freeSlots` is the semaphore's count after the last release. */
  method PDFToImagesAsync(pdfFilePaths: Option<seq<string>>, outputDirectory: string,
                          render: (string, int) -> Option<nat>, processorCount: int, disk: Disk,
                          dpi: int := 150, imageFormat: string := "jpg", quality: int := 80, maxConcurrentTasks: int := 0)
    returns (r: Result<seq<string>, PdfError>, freeSlots: int, disk': Disk)
    requires processorCount >= 1
    ensures pdfFilePaths.None? ==> r == Err(ArgumentNull("pdfFilePaths")) && disk' == disk
    ensures pdfFilePaths.Some? && IsNullOrWhiteSpace(outputDirectory) ==>
      r == Err(ArgumentNull("outputDirectory")) && disk' == disk
    ensures pdfFilePaths.Some? && !IsNullOrWhiteSpace(outputDirectory) ==>
      var files := pdfFilePaths.value;
      var d1 := CreateDirectory(disk, outputDirectory);
      && (files == [] ==> r == Ok([]) && disk' == d1)
      && (files != [] && FirstMissing(files, d1).Some? ==> r == Err(FileNotFound(FirstMissing(files, d1).value)) && disk' == d1)
      && (files != [] && FirstMissing(files, d1).None? ==>
            var run := RunFiles(files, outputDirectory, imageFormat, dpi, quality, render, d1);
            && disk' == run.disk
            && r == (if FirstError(run.results).Some? then Err(FirstError(run.results).value) else Ok(Flatten(run.results)))
            && freeSlots == EffectiveConcurrency(maxConcurrentTasks, processorCount, |files|))
  {
    freeSlots, disk' := 0, disk;
    if pdfFilePaths.None? {
      return Err(ArgumentNull("pdfFilePaths")), freeSlots, disk';
    }
    if IsNullOrWhiteSpace(outputDirectory) {
      return Err(ArgumentNull("outputDirectory")), freeSlots, disk';
    }
    disk' := CreateDirectory(disk', outputDirectory);
    var files := pdfFilePaths.value;
    if |files| == 0 {
      return Ok([]), freeSlots, disk';
    }
    var missing := CheckFiles(files, disk');
    if missing.Some? {
      return Err(FileNotFound(missing.value)), freeSlots, disk';
    }
    var concurrency := if maxConcurrentTasks <= 0 then processorCount else maxConcurrentTasks;
    concurrency := if concurrency < |files| then concurrency else |files|;
    var results;
    results, freeSlots, disk' := RunAll(files, outputDirectory, imageFormat, dpi, quality, render, concurrency, disk');
    var failure := FirstError(results);
    if failure.Some? {
      return Err(failure.value), freeSlots, disk';
    }
    var allGeneratedImagePaths := Concatenate(results);
    r := Ok(allGeneratedImagePaths);
  }

  /** The foreach over the paths that throws at the first missing one. */
  method CheckFiles(files: seq<string>, disk: Disk) returns (missing: Option<string>)
    ensures missing == FirstMissing(files, disk)
  {
    var k := 0;
    while k < |files|
      invariant 0 <= k <= |files|
      invariant forall j :: 0 <= j < k ==> FileOk(disk, files[j])
    {
      if IsNullOrWhiteSpace(files[k]) || !Exists(disk, files[k]) {
        FirstMissingAt(files, disk, k);
        return Some(files[k]);
      }
      k := k + 1;
    }
    return None;
  }

  /** The tasks, one per file, each holding a slot of a semaphore of
      `concurrency` slots while it converts its file. */
  method RunAll(files: seq<string>, outputDirectory: string, imageFormat: string, dpi: int, quality: int,
                render: (string, int) -> Option<nat>, concurrency: int, disk: Disk)
    returns (results: seq<Result<seq<string>, PdfError>>, freeSlots: int, disk': Disk)
    requires files == [] || concurrency >= 1
    ensures BatchState(results, disk') == RunFiles(files, outputDirectory, imageFormat, dpi, quality, render, disk)
    ensures freeSlots == concurrency
  {
    freeSlots, disk' := concurrency, disk;
    results := [];
    var i := 0;
    while i < |files|
      invariant 0 <= i <= |files|
      invariant BatchState(results, disk') == RunFiles(files[..i], outputDirectory, imageFormat, dpi, quality, render, disk)
      invariant freeSlots == concurrency
    {
      // semaphore.WaitAsync(): a slot is free, since every earlier task has released its own
      assert freeSlots >= 1;
      freeSlots := freeSlots - 1;
      var result, diskAfter := ProcessSinglePdfFile(files[i], outputDirectory, imageFormat, dpi, quality, render, disk');
      disk' := diskAfter;
      results := results + [result];
      // finally: semaphore.Release()
      freeSlots := freeSlots + 1;
      assert files[..i + 1][..i] == files[..i];
      i := i + 1;
    }
    assert files[..i] == files;
  }

  /** The AddRange loop over the per-file results, all of them Ok. */
  method Concatenate(results: seq<Result<seq<string>, PdfError>>) returns (all: seq<string>)
    requires forall i :: 0 <= i < |results| ==> results[i].Ok?
    ensures all == Flatten(results)
  {
    all := [];
    var j := 0;
    while j < |results|
      invariant 0 <= j <= |results|
      invariant all == Flatten(results[..j])
    {
      assert results[..j + 1][..j] == results[..j];
      all := all + results[j].value;
      j := j + 1;
    }
    assert results[..j] == results;
  }

  // ---------------------------------------------------------------------------
  // Properties of a batch

  /** A conversion only adds to the disk: every existing file is still
      there, so every input PDF still exists when its own task runs. */
  lemma {:induction false} SingleFileKeepsFiles(pdfFilePath: string, outputDirectory: string, imageFormat: string, dpi: int,
                                                quality: int, render: (string, int) -> Option<nat>, disk: Disk)
    ensures disk.files.Keys <= SingleFile(pdfFilePath, outputDirectory, imageFormat, dpi, quality, render, disk).disk.files.Keys
  {
    var c := SingleFile(pdfFilePath, outputDirectory, imageFormat, dpi, quality, render, disk);
    if c.result.Ok? {
      var n := render(pdfFilePath, dpi).value;
      WritePagesGrows(CreateDirectory(disk, outputDirectory), pdfFilePath, outputDirectory,
        Paths.GetFileNameWithoutExtension(pdfFilePath), imageFormat, GetSkiaSharpEncodeFormat(imageFormat).value, quality, n);
    }
  }

  lemma WritePagesGrows(d: Disk, pdfFilePath: string, outputDirectory: string, baseName: string,
                        imageFormat: string, skFormat: ImageFormat, quality: int, n: nat)
    ensures d.files.Keys <= WritePages(d, pdfFilePath, outputDirectory, baseName, imageFormat, skFormat, quality, n).files.Keys
  {
    WriteEachKeys(d, n, PageAt(outputDirectory, baseName, imageFormat), PageImageAt(pdfFilePath, skFormat, quality));
  }

  /** A conversion's result depends on the disk only through whether its
      PDF exists. */
  lemma SingleFileResultStable(pdfFilePath: string, outputDirectory: string, imageFormat: string, dpi: int, quality: int,
                               render: (string, int) -> Option<nat>, d: Disk, e: Disk)
    requires Exists(d, pdfFilePath) == Exists(e, pdfFilePath)
    ensures SingleFile(pdfFilePath, outputDirectory, imageFormat, dpi, quality, render, d).result
         == SingleFile(pdfFilePath, outputDirectory, imageFormat, dpi, quality, render, e).result
  {
  }

  /** With every input present, each task returns what converting its
      PDF alone against the starting disk returns. */
  lemma {:induction false} RunFilesResults(files: seq<string>, outputDirectory: string, imageFormat: string, dpi: int, quality: int,
                                           render: (string, int) -> Option<nat>, disk: Disk)
    requires forall i :: 0 <= i < |files| ==> Exists(disk, files[i])
    ensures var s := RunFiles(files, outputDirectory, imageFormat, dpi, quality, render, disk);
      && disk.files.Keys <= s.disk.files.Keys
      && forall i :: 0 <= i < |files| ==>
           s.results[i] == SingleFile(files[i], outputDirectory, imageFormat, dpi, quality, render, disk).result
    decreases |files|
  {
    if |files| > 0 {
      var init := files[..|files| - 1];
      var last := files[|files| - 1];
      RunFilesResults(init, outputDirectory, imageFormat, dpi, quality, render, disk);
      var s := RunFiles(init, outputDirectory, imageFormat, dpi, quality, render, disk);
      SingleFileKeepsFiles(last, outputDirectory, imageFormat, dpi, quality, render, s.disk);
      SingleFileResultStable(last, outputDirectory, imageFormat, dpi, quality, render, s.disk, disk);
    }
  }

  /** The expected pages of one PDF, when its conversion succeeds. */
  function ExpectedPages(pdfFilePath: string, outputDirectory: string, imageFormat: string, dpi: int,
                         render: (string, int) -> Option<nat>): seq<string> {
    if render(pdfFilePath, dpi).Some? then
      PagePaths(outputDirectory, Paths.GetFileNameWithoutExtension(pdfFilePath), imageFormat, render(pdfFilePath, dpi).value)
    else []
  }

  function Expecter(outputDirectory: string, imageFormat: string, dpi: int, render: (string, int) -> Option<nat>): string -> seq<string> {
    f => ExpectedPages(f, outputDirectory, imageFormat, dpi, render)
  }

  lemma {:induction false} FlattenResults(files: seq<string>, results: seq<Result<seq<string>, PdfError>>, g: string -> seq<string>)
    requires |results| == |files|
    requires forall i :: 0 <= i < |files| ==> results[i] == Ok(g(files[i]))
    ensures Flatten(results) == Seqs.FlatMap(files, g)
    decreases |files|
  {
    if |files| > 0 {
      FlattenResults(files[..|files| - 1], results[..|results| - 1], g);
    }
  }

  /** A successful batch returns the page paths of every PDF, PDF by PDF in
      input order and page by page within each; a batch whose inputs all
      exist fails exactly when some conversion fails, with the error of the
      first of them in input order. */
  lemma BatchIsConcatenation(files: seq<string>, outputDirectory: string, imageFormat: string, dpi: int, quality: int,
                             render: (string, int) -> Option<nat>, disk: Disk)
    requires FirstMissing(files, disk).None?
    ensures var run := RunFiles(files, outputDirectory, imageFormat, dpi, quality, render, disk);
      && (FirstError(run.results).None? <==>
            && (|files| > 0 ==>
                  !IsNullOrWhiteSpace(outputDirectory) && dpi > 0 && 0 <= quality <= 100
                  && GetSkiaSharpEncodeFormat(imageFormat).Ok?)
            && forall i :: 0 <= i < |files| ==> render(files[i], dpi).Some?)
      && (FirstError(run.results).None? ==>
            Flatten(run.results) == Seqs.FlatMap(files, Expecter(outputDirectory, imageFormat, dpi, render)))
  {
    var run := RunFiles(files, outputDirectory, imageFormat, dpi, quality, render, disk);
    RunFilesResults(files, outputDirectory, imageFormat, dpi, quality, render, disk);
    var good := !IsNullOrWhiteSpace(outputDirectory) && dpi > 0 && 0 <= quality <= 100;
    if FirstError(run.results).None? {
      forall i | 0 <= i < |files|
        ensures run.results[i] == Ok(Expecter(outputDirectory, imageFormat, dpi, render)(files[i]))
      {
        assert run.results[i].Ok?;
      }
      FlattenResults(files, run.results, Expecter(outputDirectory, imageFormat, dpi, render));
      if |files| > 0 {
        assert run.results[0].Ok?;
      }
      forall i | 0 <= i < |files| ensures render(files[i], dpi).Some? {
        assert run.results[i].Ok?;
      }
    } else if |files| > 0 && good && GetSkiaSharpEncodeFormat(imageFormat).Ok? {
      var e := FirstError(run.results).value;
      var i :| 0 <= i < |files| && run.results[i] == Err(e);
      assert render(files[i], dpi).None?;
    }
  }
}
