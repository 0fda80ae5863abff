/** The second PDF rasteriser, PDF/PDFToImage.cs: conversion options with
    their defaults, one output folder per PDF, page files named from 1, the
    choice of encoder from the extension, and a batch that converts each
    path in turn and counts them.

    Docnet's page count is an oracle `pageCount` (None when opening the
    document throws); the file system is a `Disk` value; the console
    messages are not modelled. */
module PDFToImage {
  import opened Wrappers
  import opened Text
  import Paths
  import opened Storage

  datatype ConvertOptions = ConvertOptions(dpi: int, imageFormat: string, jpegQuality: int, outputDir: string)

  /** A `new ConvertOptions()`. */
  const DefaultOptions: ConvertOptions := ConvertOptions(300, "png", 90, "Output")

  /** `options ??= new ConvertOptions()`. */
  function OptionsOrDefault(options: Option<ConvertOptions>): ConvertOptions {
    if options.Some? then options.value else DefaultOptions
  }

  /** The ImageSharp encoders `Convert` chooses between. */
  datatype Encoder = JpegEncoder(quality: int) | BmpEncoder | PngEncoder

  /** The switch on the lower-cased extension: JPEG at the configured
      quality for "jpg" and "jpeg", BMP for "bmp", PNG for anything else. */
  function EncoderFor(ext: string, jpegQuality: int): (e: Encoder)
    ensures e.JpegEncoder? <==> ext == "jpg" || ext == "jpeg"
    ensures e.JpegEncoder? ==> e.quality == jpegQuality
    ensures e.BmpEncoder? <==> ext == "bmp"
    ensures e.PngEncoder? <==> ext !in {"jpg", "jpeg", "bmp"}
  {
    if ext == "jpg" || ext == "jpeg" then JpegEncoder(jpegQuality)
    else if ext == "bmp" then BmpEncoder
    else PngEncoder
  }

  /** The file an encoder writes for page `page` of `source`. */
  function Encoded(source: string, page: nat, e: Encoder): Content {
    match e
    case JpegEncoder(q) => PageImage(source, page, Jpeg, Some(q))
    case BmpEncoder => PageImage(source, page, Bmp, None)
    case PngEncoder => PageImage(source, page, Png, None)
  }

  /** `<OutputDir>/<pdf file name without extension>`. */
  function OutputDirFor(options: ConvertOptions, pdfPath: string): string {
    Paths.Combine(options.outputDir, Paths.GetFileNameWithoutExtension(pdfPath))
  }

  /** `page_<i + 1>.<lower-cased ImageFormat>` for the 0-based page `i`. */
  function PageFileName(options: ConvertOptions, i: nat): string {
    "page_" + NatToString(i + 1) + "." + ToLower(options.imageFormat)
  }

  function PagePath(options: ConvertOptions, pdfPath: string, i: nat): string {
    Paths.Combine(OutputDirFor(options, pdfPath), PageFileName(options, i))
  }

  /** Page `i`'s path, and the file its encoder writes there. */
  function PageAt(options: ConvertOptions, pdfPath: string): nat -> string {
    (i: nat) => PagePath(options, pdfPath, i)
  }

  function PageContentAt(options: ConvertOptions, pdfPath: string): nat -> Content {
    (i: nat) => Encoded(pdfPath, i + 1, EncoderFor(ToLower(options.imageFormat), options.jpegQuality))
  }

  /** The disk after the pages `0 .. n - 1` were saved. */
  function WritePages(d: Disk, options: ConvertOptions, pdfPath: string, n: nat): Disk {
    WriteEach(d, n, PageAt(options, pdfPath), PageContentAt(options, pdfPath))
  }

  /** How one conversion ends: a missing PDF is skipped silently; opening
      the document can throw; otherwise every page is saved. */
  datatype ConvertOutcome = Skipped | Failed | Converted(pages: nat)

  datatype Conversion = Conversion(outcome: ConvertOutcome, disk: Disk)

  function ConvertSpec(pdfPath: string, options: ConvertOptions, pageCount: (string, int) -> Option<nat>, disk: Disk): Conversion {
    if !Exists(disk, pdfPath) then Conversion(Skipped, disk)
    else
      var d1 := CreateDirectory(disk, OutputDirFor(options, pdfPath));
      match pageCount(pdfPath, options.dpi)
      case None => Conversion(Failed, d1)
      case Some(n) => Conversion(Converted(n), WritePages(d1, options, pdfPath, n))
  }

  /** Convert. */
  method Convert(pdfPath: string, options: ConvertOptions, pageCount: (string, int) -> Option<nat>, disk: Disk)
    returns (outcome: ConvertOutcome, disk': Disk)
    ensures Conversion(outcome, disk') == ConvertSpec(pdfPath, options, pageCount, disk)
  {
    disk' := disk;
    if !Exists(disk, pdfPath) {
      return Skipped, disk';
    }
    var fileName := Paths.GetFileNameWithoutExtension(pdfPath);
    var outDir := Paths.Combine(options.outputDir, fileName);
    disk' := CreateDirectory(disk', outDir);
    var count := pageCount(pdfPath, options.dpi);
    if count.None? {
      return Failed, disk';
    }
    ghost var d1 := disk';
    var i := 0;
    while i < count.value
      invariant 0 <= i <= count.value
      invariant disk' == WritePages(d1, options, pdfPath, i)
    {
      var ext := ToLower(options.imageFormat);
      var outPath := Paths.Combine(outDir, "page_" + NatToString(i + 1) + "." + ext);
      var encoder := EncoderFor(ext, options.jpegQuality);
      assert outPath == PageAt(options, pdfPath)(i);
      assert Encoded(pdfPath, i + 1, encoder) == PageContentAt(options, pdfPath)(i);
      disk' := WriteFile(disk', outPath, Encoded(pdfPath, i + 1, encoder));
      i := i + 1;
    }
    outcome := Converted(count.value);
  }

  // ---------------------------------------------------------------------------
  // Properties of one conversion

  lemma PlainPageFileName(options: ConvertOptions, i: nat)
    requires !Paths.HasSeparator(options.imageFormat)
    ensures !Paths.HasSeparator(PageFileName(options, i))
  {
    var num := NatToString(i + 1);
    var ext := ToLower(options.imageFormat);
    assert !Paths.HasSeparator(ext) by {
      forall k | 0 <= k < |ext| ensures ext[k] !in Paths.Separators {
        assert options.imageFormat[k] !in Paths.Separators;
      }
    }
    assert !Paths.HasSeparator("page_");
    assert !Paths.HasSeparator(num) by {
      assert forall k :: 0 <= k < |num| ==> IsDigit(num[k]);
    }
    assert !Paths.HasSeparator(".");
    Paths.PlainConcat("page_", num);
    Paths.PlainConcat("page_" + num, ".");
    Paths.PlainConcat("page_" + num + ".", ext);
  }

  lemma PageFileNameInjective(options: ConvertOptions, i: nat, j: nat)
    requires PageFileName(options, i) == PageFileName(options, j)
    ensures i == j
  {
    var post := "." + ToLower(options.imageFormat);
    var ni, nj := NatToString(i + 1), NatToString(j + 1);
    var a, b := "page_" + ni + post, "page_" + nj + post;
    assert a == PageFileName(options, i);
    assert b == PageFileName(options, j);
    assert |ni| == |nj|;
    assert a[5..5 + |ni|] == ni;
    assert b[5..5 + |nj|] == nj;
    NatToStringInjective(i + 1, j + 1);
  }

  /** Pages land in the PDF's own folder under distinct names that keep the
      configured extension, whichever encoder wrote them. */
  lemma PagePathFacts(options: ConvertOptions, pdfPath: string, i: nat, j: nat)
    requires !Paths.HasSeparator(options.imageFormat)
    ensures Paths.GetFileName(PagePath(options, pdfPath, i)) == PageFileName(options, i)
    ensures i != j ==> PagePath(options, pdfPath, i) != PagePath(options, pdfPath, j)
  {
    PlainPageFileName(options, i);
    PlainPageFileName(options, j);
    Paths.CombineSplits(OutputDirFor(options, pdfPath), PageFileName(options, i));
    Paths.CombineSplits(OutputDirFor(options, pdfPath), PageFileName(options, j));
    if PagePath(options, pdfPath, i) == PagePath(options, pdfPath, j) {
      PageFileNameInjective(options, i, j);
    }
  }

  /** A page file keeps the configured extension, lower-cased. */
  lemma ExtensionOfPageName(options: ConvertOptions, pdfPath: string, i: nat)
    requires !Paths.HasSeparator(options.imageFormat)
    requires options.imageFormat != "" && '.' !in options.imageFormat
    ensures Paths.GetExtension(PagePath(options, pdfPath, i)) == "." + ToLower(options.imageFormat)
  {
    var name := PageFileName(options, i);
    var path := PagePath(options, pdfPath, i);
    PlainPageFileName(options, i);
    Paths.CombineSplits(OutputDirFor(options, pdfPath), name);
    assert Paths.GetFileName(path) == name;
    var dot := PageNameLastDot(options, i);
    Paths.ExtensionAfterLastDot(path, dot);
  }

  /** The dot before the extension is the last in a page's file name. */
  lemma PageNameLastDot(options: ConvertOptions, i: nat) returns (dot: nat)
    requires options.imageFormat != "" && '.' !in options.imageFormat
    ensures var name := PageFileName(options, i);
      && dot < |name| - 1 && name[dot] == '.' && name[dot..] == "." + ToLower(options.imageFormat)
      && forall k :: dot < k < |name| ==> name[k] != '.'
  {
    var ext := ToLower(options.imageFormat);
    var name := PageFileName(options, i);
    var pre := "page_" + NatToString(i + 1);
    assert name == pre + ("." + ext);
    dot := |pre|;
    assert name[dot..] == "." + ext;
    forall k | dot < k < |name| ensures name[k] != '.' {
      var c := options.imageFormat[k - dot - 1];
      assert name[k] == ext[k - dot - 1] == ToLowerChar(c);
      assert c != '.' by {
        assert c in options.imageFormat;
      }
    }
  }

  /** The disk after converting one PDF: nothing when it is missing; its
      folder when Docnet fails; otherwise its folder and exactly `n` page
      files, page `i` holding what the chosen encoder produced. */
  lemma WritePagesContents(d: Disk, options: ConvertOptions, pdfPath: string, n: nat, i: nat)
    requires !Paths.HasSeparator(options.imageFormat)
    requires i < n
    ensures var files := WritePages(d, options, pdfPath, n).files;
      && PagePath(options, pdfPath, i) in files
      && files[PagePath(options, pdfPath, i)] == Encoded(pdfPath, i + 1, EncoderFor(ToLower(options.imageFormat), options.jpegQuality))
  {
    var path := PageAt(options, pdfPath);
    forall j | i < j < n ensures path(j) != path(i) {
      PagePathFacts(options, pdfPath, i, j);
    }
    WriteEachContents(d, n, path, PageContentAt(options, pdfPath), i);
  }

  lemma WritePagesKeys(d: Disk, options: ConvertOptions, pdfPath: string, n: nat)
    ensures WritePages(d, options, pdfPath, n).files.Keys == d.files.Keys + (set i | 0 <= i < n :: PagePath(options, pdfPath, i))
    ensures WritePages(d, options, pdfPath, n).dirs == d.dirs
  {
    var path := PageAt(options, pdfPath);
    WriteEachKeys(d, n, path, PageContentAt(options, pdfPath));
    assert forall i :: 0 <= i < n ==> path(i) == PagePath(options, pdfPath, i);
    assert (set i | 0 <= i < n :: path(i)) == (set i | 0 <= i < n :: PagePath(options, pdfPath, i));
  }

  lemma ConvertFacts(pdfPath: string, options: ConvertOptions, pageCount: (string, int) -> Option<nat>, disk: Disk)
    requires !Paths.HasSeparator(options.imageFormat)
    ensures var c := ConvertSpec(pdfPath, options, pageCount, disk);
      && (!Exists(disk, pdfPath) <==> c.outcome.Skipped?)
      && (c.outcome.Skipped? ==> c.disk == disk)
      && (!c.outcome.Skipped? ==> c.disk.dirs == disk.dirs + {OutputDirFor(options, pdfPath)})
      && (c.outcome.Failed? ==> c.disk.files == disk.files)
      && (c.outcome.Converted? ==>
            && pageCount(pdfPath, options.dpi) == Some(c.outcome.pages)
            && c.disk.files.Keys == disk.files.Keys + (set i | 0 <= i < c.outcome.pages :: PagePath(options, pdfPath, i))
            && forall i :: 0 <= i < c.outcome.pages ==>
                 c.disk.files[PagePath(options, pdfPath, i)]
                 == Encoded(pdfPath, i + 1, EncoderFor(ToLower(options.imageFormat), options.jpegQuality)))
  {
    var c := ConvertSpec(pdfPath, options, pageCount, disk);
    if c.outcome.Converted? {
      var d1 := CreateDirectory(disk, OutputDirFor(options, pdfPath));
      WritePagesKeys(d1, options, pdfPath, c.outcome.pages);
      forall i | 0 <= i < c.outcome.pages
        ensures c.disk.files[PagePath(options, pdfPath, i)]
             == Encoded(pdfPath, i + 1, EncoderFor(ToLower(options.imageFormat), options.jpegQuality))
      {
        WritePagesContents(d1, options, pdfPath, c.outcome.pages, i);
      }
    }
  }

  // ---------------------------------------------------------------------------
  // A batch

  /** The count and the disk of a batch after some paths; `stopped` once a
      conversion has thrown, which ends the batch. */
  datatype BatchState = BatchState(total: nat, stopped: bool, disk: Disk)

  function BatchStep(s: BatchState, pdfPath: string, options: ConvertOptions, pageCount: (string, int) -> Option<nat>): BatchState {
    if s.stopped then s
    else
      var c := ConvertSpec(pdfPath, options, pageCount, s.disk);
      BatchState(s.total + 1, c.outcome.Failed?, c.disk)
  }

  function BatchAfter(pdfPaths: seq<string>, options: ConvertOptions, pageCount: (string, int) -> Option<nat>, disk: Disk): BatchState
    decreases |pdfPaths|
  {
    if |pdfPaths| == 0 then BatchState(0, false, disk)
    else BatchStep(BatchAfter(pdfPaths[..|pdfPaths| - 1], options, pageCount, disk), pdfPaths[|pdfPaths| - 1], options, pageCount)
  }

  /** ConvertBatch; `completed` is false when a conversion threw. */
  method ConvertBatch(pdfPaths: seq<string>, pageCount: (string, int) -> Option<nat>, disk: Disk,
                      options: Option<ConvertOptions> := None)
    returns (total: nat, completed: bool, disk': Disk)
    ensures BatchState(total, !completed, disk') == BatchAfter(pdfPaths, OptionsOrDefault(options), pageCount, disk)
  {
    var opts := if options.Some? then options.value else DefaultOptions;
    total, completed, disk' := 0, true, disk;
    var i := 0;
    while i < |pdfPaths|
      invariant 0 <= i <= |pdfPaths|
      invariant BatchState(total, false, disk') == BatchAfter(pdfPaths[..i], opts, pageCount, disk)
    {
      var pdfPath := pdfPaths[i];
      total := total + 1;
      assert pdfPaths[..i + 1][..i] == pdfPaths[..i];
      var outcome, diskAfter := Convert(pdfPath, opts, pageCount, disk');
      disk' := diskAfter;
      if outcome.Failed? {
        completed := false;
        BatchStopped(pdfPaths, opts, pageCount, disk, i + 1);
        return;
      }
      i := i + 1;
    }
    assert pdfPaths[..i] == pdfPaths;
  }

  /** Once stopped, the batch stays as it is. */
  lemma {:induction false} BatchStopped(pdfPaths: seq<string>, options: ConvertOptions, pageCount: (string, int) -> Option<nat>,
                                        disk: Disk, k: nat)
    requires k <= |pdfPaths| && BatchAfter(pdfPaths[..k], options, pageCount, disk).stopped
    ensures BatchAfter(pdfPaths, options, pageCount, disk) == BatchAfter(pdfPaths[..k], options, pageCount, disk)
    decreases |pdfPaths| - k
  {
    if k < |pdfPaths| {
      assert pdfPaths[..k + 1][..k] == pdfPaths[..k];
      BatchStopped(pdfPaths, options, pageCount, disk, k + 1);
    } else {
      assert pdfPaths[..k] == pdfPaths;
    }
  }

  /** A batch counts every path it reaches: all of them when none throws,
      and up to and including the one that throws otherwise, after which
      nothing more is converted. */
  lemma {:induction false} BatchCount(pdfPaths: seq<string>, options: ConvertOptions, pageCount: (string, int) -> Option<nat>, disk: Disk)
    ensures var s := BatchAfter(pdfPaths, options, pageCount, disk);
      && (!s.stopped ==> s.total == |pdfPaths|)
      && (s.stopped ==>
            && 1 <= s.total <= |pdfPaths|
            && BatchAfter(pdfPaths[..s.total], options, pageCount, disk) == s
            && !BatchAfter(pdfPaths[..s.total - 1], options, pageCount, disk).stopped)
    decreases |pdfPaths|
  {
    if |pdfPaths| > 0 {
      var init := pdfPaths[..|pdfPaths| - 1];
      BatchCount(init, options, pageCount, disk);
      var s0 := BatchAfter(init, options, pageCount, disk);
      if s0.stopped {
        assert pdfPaths[..s0.total] == init[..s0.total];
        assert pdfPaths[..s0.total - 1] == init[..s0.total - 1];
      } else {
        assert pdfPaths[..|pdfPaths|] == pdfPaths;
        assert pdfPaths[..|pdfPaths| - 1] == init;
      }
    }
  }

  /** The defaults stand in for absent options. */
  lemma DefaultsApply()
    ensures OptionsOrDefault(None) == ConvertOptions(300, "png", 90, "Output")
    ensures EncoderFor(ToLower(DefaultOptions.imageFormat), DefaultOptions.jpegQuality) == PngEncoder
    ensures forall o :: OptionsOrDefault(Some(o)) == o
  {
    assert ToLower("png") == "png";
  }
}
