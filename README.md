# PeachOCR, modelled in Dafny

PeachOCR is a small WPF desktop front end for PaddleOCR. The user picks or
drops image and PDF files into a list, chooses a model (PP-OCRv4 or
PP-OCRv5), the GPU and the "save result image" and "merge txt" boxes, and
presses the OCR button. The window then does four things:

- it builds an `OcrBatchProcessor`;
- it runs every queued image through the predictor, at most two at a time;
- it writes a `<stem>.txt` file into an `OCR_Result` folder beside each image,
  and optionally a `<stem>_result.jpg` visualisation beside the image;
- it keys the recognised lines by file name, shows the first file's lines,
  optionally writes one merged text file, and names the result folder in the
  status bar.

Two static helpers rasterise PDFs into page images: `PDF.Convert` and `PDFToImage`.

This project models that bookkeeping and proves what it promises. The modules are:

| module | file | contents |
|---|---|---|
| `Wrappers` | `wrappers.dfy` | `Option`, `Result`. |
| `Text` | `text.dfy` | ASCII case mapping (`ToLowerInvariant`, `ToUpperInvariant`), `string.IsNullOrWhiteSpace`, decimal rendering of counts, `string.Join`, `WriteLine` / `AppendLine` line joining with `"\r\n"`, and the `OrdinalIgnoreCase` order as upper-casing followed by a lexicographic comparison of characters, proved a total preorder. |
| `Paths` | `paths.dfy` | `System.IO.Path` as plain string functions: split at the last separator, then at the last dot. |
| `Storage` | `storage.dfy` | The file system as a value `Disk(dirs, files)`, with the loop that writes one file per step (`WriteEach`) and overlay on a disk. |
| `Seqs` | `seqs.dfy` | `Select` and `SelectMany` over sequences (`MapSeq`, `FlatMap`) and their permutation and concatenation laws. |
| `Sorting` | `sorting.dfy` | `List<T>.Sort` by a string key under `OrdinalIgnoreCase`, as a sorted permutation. Any two sortings of one multiset give the same sequence of case-folded keys. |
| `OCR` | `ocr.dfy` | `OcrBatchProcessor` as a class with its setters, `InitOcr`, and `RunBatchOcrAsync` as a method over a caller-chosen task completion order. |
| `PDF2Image` | `pdf2image.dfy` | `PDF/PDF2Image.cs`: format mapping, single-file validation and page naming, and batch conversion with its concurrency level and flattening. |
| `PDFToImage` | `pdftoimage.dfy` | `PDF/PDFToImage.cs`: options and defaults, output folder and page naming, encoder selection, and the batch counting loop. |
| `PeachOCR` | `mainwindow.dfy` | `MainWindow` as a class over the selection, the listed names, the status line, the result map, the lines on show and the last merged path, with its event handlers and the pieces of the OCR button. |

The rest of the system appears in the model in these forms:

- **Engines and clocks are parameters.**
  - An `OCR.Engine` is three functions:
    - whether `Cv2.ImRead` yields a non-empty image;
    - what `OCRPredictor.ocr` returns (texts, null, or an exception);
    - the stopwatch reading.
  - The PDF renderers are functions from a path and a resolution to a page
    count, or `None` when they throw.
- **Concurrency is an order.** In `RunBatchOcr` the tasks complete in the
  order `completion`, which must be a permutation of the queue. Every
  property of a run is proved for every such order.
  `PDFToImagesAsync` runs its tasks one after another in file order.
- **The semaphore is a slot counter.** Each task takes a slot before its
  body and gives it back after it, on every path. The counter is
  bookkeeping: it does not bound how many tasks are in flight.
- **I/O returns a value.** Every operation that touches files takes a
  `Disk` and returns the new one.
- **The window's controls are parameters.** The combo box index, the check
  boxes, the dialog's files and the dropped files are passed into the
  handlers.

Where a comment or the documentation and the code disagree, the model
follows the code:

- A predictor exception is not handled per image. It escapes
  `RunBatchOcrAsync` through `Task.WhenAll`, so a run containing one is
  modelled as `PredictorFault`, with no details.
- The comment on the final sort says it keeps the input order. The code
  sorts by path under `OrdinalIgnoreCase`, and that is what the model does.
- PDFs given to the OCR button are queued like images and go through the
  image decoder. Nothing expands them into pages first.

## Model

| member | source | states |
|---|---|---|
| OCR.OcrBatchProcessor.constructor | OCR/OcrBatchProcessor.cs:18-36 | A new processor has no model paths, batch sizes 1, both stages on "CPU" without GPU, an empty queue, result images saved and not shown. |
| OCR.OcrBatchProcessor.SetModel | OCR/OcrBatchProcessor.cs:46-63 | Each model type sets the four fixed model paths of its folder. After it, `InitOcr` succeeds with exactly those files. |
| OCR.OcrBatchProcessor.SetBatchNum | OCR/OcrBatchProcessor.cs:68-72 | Both batch sizes take the given values and nothing else changes. |
| OCR.OcrBatchProcessor.SetUseGpu | OCR/OcrBatchProcessor.cs:77-83 | Both GPU flags take the given values. A stage's device becomes `device` only when its flag is true, and otherwise keeps its previous name. |
| OCR.OcrBatchProcessor.AddImage | OCR/OcrBatchProcessor.cs:88-91 | The path is appended at the end of the queue, and the earlier entries are unchanged. |
| OCR.OcrBatchProcessor.AddImages | OCR/OcrBatchProcessor.cs:96-99 | The paths are appended in order, and the earlier entries are unchanged. |
| OCR.OcrBatchProcessor.SetSaveResultImage | OCR/OcrBatchProcessor.cs:104 | Sets the save flag. |
| OCR.OcrBatchProcessor.SetShowResultImage | OCR/OcrBatchProcessor.cs:108 | Sets the show flag. |
| OCR.OcrBatchProcessor.InitOcr | OCR/OcrBatchProcessor.cs:113-131 | Fails with `ModelNotSet` exactly when one of the four model paths is unset. Otherwise the configuration carries those four paths. |
| OCR.RunItem | OCR/OcrBatchProcessor.cs:164-240 | One task equals its specification `ProcessItem` / `ItemArtifacts`. An unreadable image gives the null record with time 0 and writes nothing. A throwing predictor faults the task. A text result writes `<dir>/OCR_Result/<stem>.txt` and, when saving, `<dir>/<stem>_result.jpg`. The visualisation is queued for display exactly when showing is on and there is a text result. |
| OCR.WriteLines | OCR/OcrBatchProcessor.cs:220-226 | The `WriteLine` loop writes each text followed by a line break, in result order (`JoinLines`). |
| OCR.RunTasks | OCR/OcrBatchProcessor.cs:160-247 | After the tasks run in completion order, the shared list is `Collect` of that order and the disk is `ArtifactsAfter` of it. The run faults exactly when some task's predictor throws. Progress is reported once per record, as (1, total), (2, total), …, only when a callback is given. The bookkeeping slot counter ends where it started. |
| OCR.OcrBatchProcessor.RunBatchOcr | OCR/OcrBatchProcessor.cs:149-262 | The error cases, each of which returns before any image is read or written: no model set (`InitOcr` throws), parallelism below zero (the semaphore throws), and zero slots with work to do (the run never completes). Otherwise the outcome is the sorted collected records, or a fault. A completed run holds one record per queued path, as a permutation sorted by path, and its last progress call is (total, total). Images are displayed only after a completed run. |
| OCR.RunStep | OCR/OcrBatchProcessor.cs:228-239 | One more completed task extends the records, the displayed images and the disk by its own part. The run has faulted exactly when it had before or this task faulted. |
| OCR.CollectRecordsEveryPath | OCR/OcrBatchProcessor.cs:168-239 | Without a predictor fault, every completed task leaves exactly one record, for its own path, in completion order. |
| OCR.CompletedRunCoversQueue | OCR/OcrBatchProcessor.cs:159-260 | For every completion order that is a permutation of the queue, the sorted result has `total` records whose paths are a permutation of the queue, sorted under `OrdinalIgnoreCase`. |
| OCR.CompletionOrderIrrelevant | OCR/OcrBatchProcessor.cs:160-260 | Two completion orders of the same queue agree on whether the run faults and on the multiset of records, and their sorted results have the same sequence of case-folded paths. |
| OCR.RecordFacts | OCR/OcrBatchProcessor.cs:168-236 | Every record names a queued path. An undecodable image has the null sentinel record. A result image path is present exactly when there is a result and images are saved, and it is then `<dir>/<stem>_result.jpg`. A result holds the predictor's texts. |
| OCR.ArtifactsOverlay | OCR/OcrBatchProcessor.cs:195-227 | A run writes the same files whatever the disk held before, and replaces only those. |
| OCR.WrittenPaths | OCR/OcrBatchProcessor.cs:200-219 | The files and folders a run creates are exactly the artifact paths and `OCR_Result` folders of the images whose recognition succeeded. |
| OCR.RerunOverwrites | OCR/OcrBatchProcessor.cs:202-226 | A second run over the same queue, in any order, leaves the disk exactly as a single run would. Artifacts are overwritten, never appended to. |
| OCR.ArtifactPathsDiffer | OCR/OcrBatchProcessor.cs:201-219 | A result image path (ending in `_result.jpg`) is never a text result path (ending in `.txt`). |
| OCR.LastWriterIsLast | OCR/OcrBatchProcessor.cs:214-227 | `LastWriter` gives the position of a task that writes the given text path, with no later task writing it, or `None` exactly when no task writes it. |
| OCR.TextArtifactWritten | OCR/OcrBatchProcessor.cs:214-227 | After a run, every successfully recognised image has its text file. The file holds the texts, one line each in result order, of the last task to complete that writes that same text path (`LastWriter`). |
| OCR.StepText | OCR/OcrBatchProcessor.cs:214-227 | A task either writes the text path in question with its own lines, or leaves that file as it was. |
| OCR.ItemPreserves | OCR/OcrBatchProcessor.cs:195-227 | A task leaves unchanged every file other than its two artifact paths. |
| Sorting.SortByKey | OCR/OcrBatchProcessor.cs:260 | The sort's result is sorted under `OrdinalIgnoreCase` and is a permutation of its input. |
| Sorting.InsertSorted | OCR/OcrBatchProcessor.cs:260 | Inserting into a sorted sequence keeps it sorted. |
| Sorting.InsertPermutes | OCR/OcrBatchProcessor.cs:260 | Inserting adds exactly the inserted element to the multiset. |
| Sorting.SortedKeysDetermined | OCR/OcrBatchProcessor.cs:260 | Two sorted permutations of one multiset have the same sequence of upper-cased keys, so only ties up to case can be ordered differently. |
| Text.OrdinalIgnoreCaseTotalPreorder | OCR/OcrBatchProcessor.cs:260 | The `OrdinalIgnoreCase` comparison is reflexive, total and transitive. Mutual `<=` means equal up to case. |
| PDF2Image.GetSkiaSharpEncodeFormat | PDF/PDF2Image.cs:19-35 | A blank format gives `ArgumentNullException("format")`. Any other error is `ArgumentException("format")`. Success happens exactly when the lower-cased name is one of png, jpeg, jpg, webp, bmp, gif. |
| PDF2Image.FormatCaseInsensitive | PDF/PDF2Image.cs:24 | Formats that differ only in case map to the same result. |
| PDF2Image.FormatNamesRoundTrip | PDF/PDF2Image.cs:24-31 | Each encoder's own name, lower or upper case, maps back to that encoder, and "jpg" maps to JPEG. |
| PDF2Image.ValidateSingle | PDF/PDF2Image.cs:48-57 | Validation passes exactly when the path is not blank and exists, the output folder is not blank, `dpi > 0` and `0 <= quality <= 100`. Which error comes back is stated by `ValidationOrder`. |
| PDF2Image.ValidationOrder | PDF/PDF2Image.cs:48-57 | The checks run in source order: `ArgumentNull("pdfFilePath")`, `FileNotFound(path)`, `ArgumentNull("outputDirectory")`, `ArgumentOutOfRange("dpi")` and `ArgumentOutOfRange("quality")` each come back exactly when their own check fails and every earlier check passes. |
| PDF2Image.PagePaths | PDF/PDF2Image.cs:85-97 | The path list has one entry per page, and entry `i` is `<outputDirectory>/<baseName>_page_<i+1>.<format lower-cased>`. |
| PDF2Image.PageFileNameInjective | PDF/PDF2Image.cs:88 | Different page numbers give different file names. |
| PDF2Image.PagePathsDistinct | PDF/PDF2Image.cs:88-89 | For a supported format and a plain base name, the path's file name is the page file name and its folder is the output directory. Different page numbers give different paths. |
| PDF2Image.EncodePages | PDF/PDF2Image.cs:85-99 | The page loop returns the page paths in render order and writes page `k` at the `k`-th path. |
| PDF2Image.ProcessSinglePdfFile | PDF/PDF2Image.cs:40-108 | One conversion equals its specification `SingleFile`: validation, then the output folder, then the format check, then rendering and the page loop. |
| PDF2Image.PDFToImageAsync | PDF/PDF2Image.cs:126-135 | The defaults are 150 dpi, "jpg" and quality 80, and the call is the single conversion. |
| PDF2Image.WritePagesContents | PDF/PDF2Image.cs:85-97 | After the loop, each page's path holds that page encoded in the chosen format and quality, and no folder is added. |
| PDF2Image.SingleFileFacts | PDF/PDF2Image.cs:47-108 | A failed validation writes nothing. A bad format fails after the output folder is created and before anything is rendered. A success returns one distinct path per rendered page in page order, each holding its page, inside an existing output folder. |
| PDF2Image.FirstMissing | PDF/PDF2Image.cs:178-184 | Finds the first blank or missing path of the list. It is `None` exactly when every path is present. |
| PDF2Image.EffectiveConcurrency | PDF/PDF2Image.cs:192-193 | The result is at most the file count and at most the requested level (`ProcessorCount` when `maxConcurrentTasks <= 0`, `maxConcurrentTasks` otherwise), and equals one of the two. With files and a processor it lies within [1, files]. |
| PDF2Image.FirstError | PDF/PDF2Image.cs:226 | `None` exactly when every task succeeded. Otherwise it is the error of a failed task with every earlier task in task order successful. |
| PDF2Image.RunAll | PDF/PDF2Image.cs:196-226 | Run one after another in file order, the tasks give the results and the disk of `RunFiles`: each file converted alone, on the disk the earlier files left. |
| PDF2Image.Concatenate | PDF/PDF2Image.cs:229-232 | The `AddRange` loop yields the per-file lists one after another. |
| PDF2Image.PDFToImagesAsync | PDF/PDF2Image.cs:154-236 | A null list or a blank output folder throws before anything is written. Otherwise the output folder is created first. An empty list returns an empty list. A blank or missing path throws `FileNotFound` for the first such path before any conversion. Otherwise the result is the first task error, or the concatenated page lists. |
| PDF2Image.RunFilesResults | PDF/PDF2Image.cs:198-226 | Each file's task result is what converting it alone would give, and the batch never removes files. |
| PDF2Image.BatchIsConcatenation | PDF/PDF2Image.cs:198-232 | With all input files present, the batch succeeds exactly when the shared arguments are valid and every PDF renders. It then returns the page paths of each file, in input file order. |
| PDFToImage.DefaultsApply | PDF/PDFToImage.cs:24-40 | Null options become Dpi 300, "png", JpegQuality 90, OutputDir "Output", and given options are used as they are. The default format is PNG-encoded. |
| PDFToImage.EncoderFor | PDF/PDFToImage.cs:81-94 | "jpg" and "jpeg" get JPEG at `JpegQuality`, and "bmp" gets BMP. Every other extension gets PNG. |
| PDFToImage.Convert | PDF/PDFToImage.cs:56-98 | A conversion equals its specification `ConvertSpec`: a missing PDF is skipped, then the output folder is created, then the page loop runs. |
| PDFToImage.PagePathFacts | PDF/PDFToImage.cs:63-80 | A page path's file name is `page_<i+1>.<ext>`. Different pages give different paths. |
| PDFToImage.PageFileNameInjective | PDF/PDFToImage.cs:80 | Different page indices give different file names. |
| PDFToImage.ExtensionOfPageName | PDF/PDFToImage.cs:79-80 | The page file's extension is the lower-cased format, whatever encoder is used. |
| PDFToImage.ConvertFacts | PDF/PDFToImage.cs:56-98 | The result is `Skipped` exactly when the PDF is missing, and then the disk is unchanged. Otherwise `OutputDir/<pdf stem>` is among the folders, and it is the only folder the model records. An open that throws writes no file. A conversion writes exactly `pageCount` files, page `i` at `outDir/page_<i+1>.<ext>` with its encoder's output. |
| PDFToImage.ConvertBatch | PDF/PDFToImage.cs:38-49 | Null options become the defaults. Each path is converted once in order while `total` counts them. A conversion that throws ends the batch. |
| PDFToImage.BatchCount | PDF/PDFToImage.cs:41-47 | A batch that runs through counts every path. One that stops counts the paths up to and including the one that threw. |
| PDFToImage.BatchStopped | PDF/PDFToImage.cs:46 | Once a conversion has thrown, the later paths change nothing. |
| PeachOCR.DropFilterMembers | MainWindow.xaml.cs:108-109 | The dropped files kept are exactly those whose lower-cased extension is a supported one. |
| PeachOCR.DropFilterConcat | MainWindow.xaml.cs:109 | The filter works file by file, in order. |
| PeachOCR.DropFilterIdempotent | MainWindow.xaml.cs:109 | Filtering twice is filtering once. |
| PeachOCR.MainWindow.constructor | MainWindow.xaml.cs:25-51 | A new window has no selection, no results, and the "no file selected" status. |
| PeachOCR.MainWindow.SelectImages | MainWindow.xaml.cs:61-77 | An accepted dialog replaces the selection, lists its names, counts it in the status line and clears the results. A cancelled dialog changes nothing. |
| PeachOCR.MainWindow.Clear | MainWindow.xaml.cs:78-88 | The selection, the list, the status line, the results map and the lines on show are emptied. |
| PeachOCR.MainWindow.Drop | MainWindow.xaml.cs:103-119 | The supported dropped files are appended in order, and the list and the status line follow the new selection. No file or none supported leaves everything as it was. |
| PeachOCR.MainWindow.SelectionChanged | MainWindow.xaml.cs:239-257 | Shows the mapped lines of a known file name, and an empty list otherwise. |
| PeachOCR.LinesFor | MainWindow.xaml.cs:165-176 | A failed detail gives the one line "识别失败". Otherwise the texts in result order are given. |
| PeachOCR.BuildResultMap | MainWindow.xaml.cs:162-178 | The loop builds `ResultMap`, keyed by file name, where a later detail replaces an earlier one of the same name. |
| PeachOCR.ResultMapKeys | MainWindow.xaml.cs:164-177 | The map has a key for the file name of each detail and for nothing else. |
| PeachOCR.ResultMapLastWins | MainWindow.xaml.cs:177 | A file name's entry holds the lines of the last detail of that name. |
| PeachOCR.ResultMapCoversSelection | MainWindow.xaml.cs:145-178 | After a completed run, the map's keys are exactly the file names of the selected files. |
| PeachOCR.MergeText | MainWindow.xaml.cs:192-197 | The `StringBuilder` loop yields `JoinLines(MergedLines(details))`. |
| PeachOCR.MergedTextGrows | MainWindow.xaml.cs:193-197 | Each detail appends its texts joined by one space plus a line break, or nothing when it failed. |
| PeachOCR.MergedLinesCount | MainWindow.xaml.cs:195-196 | The merged text has one line per successful detail, and none when every detail failed. |
| PeachOCR.SaveMerged | MainWindow.xaml.cs:190-213 | The merged text is written to `<parent>/OCR_Result/OCR_Result_Merged.txt`, and its path is recorded, exactly when merging is on, there are details and the first file has a parent folder. Otherwise nothing is written. |
| PeachOCR.StatusDir | MainWindow.xaml.cs:216-234 | The status bar names the merged file's folder, else `<parent>/OCR_Result` when the parent is not empty, else "(未合并txt)". |
| PeachOCR.ResultDirAgrees | MainWindow.xaml.cs:199-234 | Merged or not, the status bar names the `OCR_Result` folder beside the first selected file, or "(未合并txt)" when that file has no parent. |
| PeachOCR.NewProcessor | MainWindow.xaml.cs:141-145 | The processor gets combo index 0 → PP-OCRv4 and any other → PP-OCRv5, and the GPU box for both stages (device "GPU" or "CPU"). It also gets the save box and the selection, in order. |
| PeachOCR.RunSelection | MainWindow.xaml.cs:146-160 | The run with two slots and a progress callback always gets past its checks. Its outcome and disk are those of `RunOutcomeFor` and `ArtifactsAfter`. |
| PeachOCR.ShowCompleted | MainWindow.xaml.cs:161-235 | After a completed run, the map, the first file's lines, the merged file, the status folder and the disk are those of `Present`. |
| PeachOCR.OcrClick | MainWindow.xaml.cs:135-235 | The button on a non-empty selection equals `ClickResult`. A run that throws leaves the results cleared. |
| PeachOCR.MainWindow.BtnOcrClick | MainWindow.xaml.cs:128-236 | An empty selection returns before a processor exists and changes nothing. Otherwise the run starts, and the results, the lines on show, the merged path, the status folder and the disk are those of `ClickResult`. The selection, its list and its status line stay consistent. |
| PeachOCR.ListedNames | MainWindow.xaml.cs:71-114 | The list shows the file name of each selected path, in order. |

## Left out

- OpenCV decoding and writing, `visualize_bboxes`, the predictor, and the `Cv2.ImShow` / `WaitKey` display. These are foreign calls. They are oracles of `OCR.Engine`, a visualisation is the value `Visualization(path)`, and display is the list of images shown.
- PDFtoImage / SkiaSharp and Docnet / ImageSharp rendering. These are foreign calls, modelled by a page count. A page image is the value `PageImage(pdf, page, format, quality)`.
- The static `RuntimeOption` settings. They are process-wide library state, and the model keeps them only as the stage settings of a `PredictorConfig`.
- The `ocr` field written by `InitOcr`. Nothing reads it. `InitOcr` is modelled as its check and the configuration it builds.
- Real concurrency: `Task.Run`, `SemaphoreSlim` waits and `lock`. The OCR run is replaced by a sequential run in a caller-chosen completion order, and the PDF batch by a sequential run in file order. Thread safety is not modelled. The slot counters (`freeSlots`) are bookkeeping only: they do not bound how many tasks are in flight.
- `PDF2Image.RunAll`: the tasks start in file order but run concurrently, up to `concurrency` at a time. The model runs them one after another in file order. Two PDFs with the same stem (`a\x.pdf`, `b\x.pdf`) write the same page paths, so in the source which file's pages survive depends on completion order, or the clash throws. The model always keeps the later file's pages.
- `Stopwatch` readings, `totalMs`, the progress bar's floating-point percentage and the status bar's seconds. These are clocks and floating point. `OcrMs` is the engine's reading, taken as given.
- WPF plumbing: `FindName`, drag-move, minimise / close, `Dispatcher.Invoke`, `ListImages_PreviewDragOver`, `UpdateListImagesHint`, the message boxes, the button's enable / disable, the status bar's "正在识别..." text, and `App.xaml.cs`. They are user-interface effects with no state the model keeps.
- `Console.WriteLine` output in `PDF/PDFToImage.cs`. It is logging only.
- `null` strings other than the ones modelled as `Option`. Dafny strings are never null.
- `OCR.OcrBatchProcessor.RunBatchOcr`: `details.Sort` sorts the list in place. The model returns the sorted sequence instead.
- `Sorting.SortByKey`: `List<T>.Sort` is an unstable introsort. The model is a stable insertion sort, so it fixes one order among paths that are equal up to case. `Sorting.SortedKeysDetermined` states what every order shares.
- `Storage.CreateDirectory`: only the named folder is recorded. `Directory.CreateDirectory` also creates every missing ancestor, so with the default `OutputDir = "Output"` converting `x.pdf` creates both `Output` and `Output\x`, and the model records only `Output\x`. It also throws `IOException` when a file already has that path, which the model does not capture. `PDFToImage.ConvertFacts`, `PDF2Image.SingleFileFacts`, `OCR.WrittenPaths` and `PeachOCR.SaveMerged` state the folders over this simplified disk.
- `Storage.Disk`: files are keyed by their exact path string. On Windows, paths that differ only in letter case, or in `/` against `\`, name one file. So the queue [`C:\d\A.jpg`, `C:\d\a.png`] writes one text file in the source, holding the lines of whichever task wrote it last, while the model keeps two. `OCR.TextArtifactWritten`, `OCR.LastWriterIsLast` and `OCR.WrittenPaths` are stated over exact paths, and `PDF2Image.RunAll` likewise treats `a\X.pdf` and `b\x.pdf` as writing different page files.
- `Text.OrdinalIgnoreCaseTotalPreorder`: case folding covers the ASCII letters only. A Dafny `char` is a Unicode scalar value, not a UTF-16 code unit, so characters above U+FFFF order differently from .NET `Ordinal`.
- `Text.ToLower`: lower-casing covers the ASCII letters only. It stands for the culture-sensitive `ToLower()` in `PeachOCR.MainWindow.Drop` (through `PeachOCR.DropFilter`), `PDFToImage.EncoderFor` and `PDFToImage.Convert`, and for `ToLowerInvariant` in `PDF2Image.GetSkiaSharpEncodeFormat`. Under a Turkish culture `".TIFF".ToLower()` gives `".tıff"`, which the source's drop rejects and the model accepts. `"G\u0130F".ToLowerInvariant()` gives `"gif"`, which the source accepts and the model rejects.
- `OCR.Engine`: decoding and recognition depend on the image path only, not on the disk. The run writes `<stem>_result.jpg` beside each image, and the queue may hold such a file. With `x.jpg` and `x_result.jpg` both queued, the source's record for `x_result.jpg` depends on whether it is read before or during the overwrite. `OCR.CompletionOrderIrrelevant` and `OCR.RerunOverwrites` hold for the model because the engine cannot see those writes.
- `OCR.OcrBatchProcessor.InitOcr`: `new OCRPredictor(config)` can throw before any task starts. The model returns the configuration and does not model that failure.
- `Paths`: `Path` functions are split at the last `\` or `/` and then at the last dot. Drive letters, UNC paths, trailing-separator and invalid-character rules are not modelled. `Combine` returns the first part when the second is empty, returns the second part when the first is empty or the second starts with a separator, and otherwise joins them with `\` unless the first already ends with a separator.
- `PeachOCR.StatusDir`: the `?? lastMergedTxtPath` fallback and the `catch` around `GetDirectoryName` are not modelled. With the simplified `GetDirectoryName` neither can occur for a merged path.
- `PDF2Image.ProcessSinglePdfFile`: a library exception while pages are being produced is modelled as the render failing before any page is written.
- `PDFToImage.Convert`: an exception from `GetPageReader`, `GetImage`, `LoadPixelData` or `Save` at page k leaves pages 1 to k-1 on disk. The model fails only when the PDF is opened, before any page is written.
- `PDFToImage.ConvertBatch`: a conversion that throws mid-loop ends the batch with that file's earlier pages on disk. In the model the failing file leaves only its output folder.
- `PeachOCR.MainWindow.BtnOcrClick`: the click is modelled as one atomic step. In the source the handler yields at `await task`, and only the OCR button is disabled. While it waits, selecting files, clearing or dropping files can run. After the wait the handler reads the selection as it is then. So a selection made during a run gets the old run's results, and the merged file is written beside the new first file. The model does not capture this interleaving.
- `Environment.ProcessorCount` is a parameter of `PDF2Image.PDFToImagesAsync`, required to be at least 1.
- `PeachOCR.OcrClick`: when the run throws, the exception escapes the `async void` handler. The model records the state the handler leaves at that point: results cleared, no merged path, and the disk as the tasks left it.
