/** The main window of MainWindow.xaml.cs, reduced to the state its event
    handlers keep: the selected files and the list showing their names, the
    file-status line, the per-file result map, the results list on show and
    the path of the last merged text file. Controls' values (the model
    combo box and the check boxes) are parameters of the handlers; a closed
    file dialog or a drop without files is None. */
module PeachOCR {
  import opened Wrappers
  import opened Text
  import Paths
  import opened Storage
  import Seqs
  import OCR

  // ---------------------------------------------------------------------------
  // Dropping files

  const SupportedExtensions: set<string> := {".jpg", ".jpeg", ".png", ".bmp", ".tiff", ".webp", ".pdf"}

  /** The extension test of the drop handler, after ToLower. */
  predicate IsSupported(f: string) {
    ToLower(Paths.GetExtension(f)) in SupportedExtensions
  }

  function KeepSupported(f: string): seq<string> {
    if IsSupported(f) then [f] else []
  }

  /** `files.Where(f => supported.Contains(...)).ToList()`. */
  function DropFilter(files: seq<string>): seq<string> {
    Seqs.FlatMap(files, KeepSupported)
  }

  /** The filter keeps exactly the supported files. */
  lemma DropFilterMembers(files: seq<string>)
    ensures forall f :: f in DropFilter(files) <==> f in files && IsSupported(f)
  {
    Seqs.FlatMapMembers(files, KeepSupported);
  }

  /** The filter keeps the dropped order: it works file by file. */
  lemma DropFilterConcat(a: seq<string>, b: seq<string>)
    ensures DropFilter(a + b) == DropFilter(a) + DropFilter(b)
    ensures DropFilter([]) == []
    ensures forall f :: DropFilter([f]) == (if IsSupported(f) then [f] else [])
  {
    Seqs.FlatMapConcat(a, b, KeepSupported);
    forall f ensures DropFilter([f]) == (if IsSupported(f) then [f] else []) {
      Seqs.FlatMapSingle(f, KeepSupported);
    }
  }

  /** Filtering twice is filtering once. */
  lemma {:induction false} DropFilterIdempotent(files: seq<string>)
    ensures DropFilter(DropFilter(files)) == DropFilter(files)
    decreases |files|
  {
    if |files| > 0 {
      var init, last := files[..|files| - 1], files[|files| - 1];
      DropFilterIdempotent(init);
      DropFilterConcat(DropFilter(init), KeepSupported(last));
    }
  }

  // ---------------------------------------------------------------------------
  // Results as the window shows them

  const FailureLine: string := "识别失败"
  const MergedFileName: string := "OCR_Result_Merged.txt"
  const NoMergeStatus: string := "(未合并txt)"

  /** The lines the window lists for one detail. */
  function LinesOf(d: OCR.OcrResultDetail): seq<string> {
    if d.result.None? then [FailureLine] else d.result.value
  }

  /** fileResultMap after the loop over `details`: keyed by file name, a
      later detail replacing an earlier one of the same name. */
  function ResultMap(details: seq<OCR.OcrResultDetail>): map<string, seq<string>>
    decreases |details|
  {
    if |details| == 0 then map[]
    else
      var last := details[|details| - 1];
      ResultMap(details[..|details| - 1])[Paths.GetFileName(last.imgPath) := LinesOf(last)]
  }

  function FileNameOf(d: OCR.OcrResultDetail): string {
    Paths.GetFileName(d.imgPath)
  }

  function FileNames(details: seq<OCR.OcrResultDetail>): seq<string> {
    Seqs.MapSeq(details, FileNameOf)
  }

  /** The map has an entry for the file name of each detail and no other. */
  lemma {:induction false} ResultMapKeys(details: seq<OCR.OcrResultDetail>)
    ensures forall k :: k in ResultMap(details) <==> k in FileNames(details)
    decreases |details|
  {
    if |details| > 0 {
      var init, last := details[..|details| - 1], details[|details| - 1];
      ResultMapKeys(init);
      assert details == init + [last];
      Seqs.MapSeqConcat(init, [last], FileNameOf);
    }
  }

  /** The entry of a file name holds the lines of the last detail with that
      name. */
  lemma {:induction false} ResultMapLastWins(details: seq<OCR.OcrResultDetail>, i: nat)
    requires i < |details|
    requires forall j :: i < j < |details| ==> FileNameOf(details[j]) != FileNameOf(details[i])
    ensures FileNameOf(details[i]) in ResultMap(details)
    ensures ResultMap(details)[FileNameOf(details[i])] == LinesOf(details[i])
    decreases |details|
  {
    var init := details[..|details| - 1];
    if i < |init| {
      assert init[i] == details[i];
      forall j | i < j < |init|
        ensures FileNameOf(init[j]) != FileNameOf(init[i])
      {
        assert init[j] == details[j];
      }
      ResultMapLastWins(init, i);
    }
  }

  function MergedLine(d: OCR.OcrResultDetail): seq<string> {
    if d.result.Some? then [Join(" ", d.result.value)] else []
  }

  /** The lines the merged text is made of: one per successful detail, its
      texts joined by a space, in detail order. */
  function MergedLines(details: seq<OCR.OcrResultDetail>): seq<string> {
    Seqs.FlatMap(details, MergedLine)
  }

  /** Each detail adds its own line, or nothing when it failed. */
  lemma MergedTextGrows(details: seq<OCR.OcrResultDetail>, d: OCR.OcrResultDetail)
    ensures JoinLines(MergedLines(details + [d]))
         == JoinLines(MergedLines(details)) + (if d.result.Some? then Join(" ", d.result.value) + NewLine else "")
  {
    Seqs.FlatMapConcat(details, [d], MergedLine);
    Seqs.FlatMapSingle(d, MergedLine);
    if d.result.Some? {
      JoinLinesAppend(MergedLines(details), Join(" ", d.result.value));
    } else {
      assert MergedLines(details + [d]) == MergedLines(details);
    }
  }

  /** Failed details leave no trace in the merged text. */
  lemma {:induction false} MergedLinesCount(details: seq<OCR.OcrResultDetail>)
    ensures |MergedLines(details)| == |Seqs.FlatMap(details, Successful)|
    ensures (forall i :: 0 <= i < |details| ==> details[i].result.None?) ==> MergedLines(details) == []
    decreases |details|
  {
    if |details| > 0 {
      var init := details[..|details| - 1];
      MergedLinesCount(init);
      assert forall i :: 0 <= i < |init| ==> init[i] == details[i];
    }
  }

  function Successful(d: OCR.OcrResultDetail): seq<OCR.OcrResultDetail> {
    if d.result.Some? then [d] else []
  }

  /** The folder `<parent of file>/OCR_Result`, when the parent is not empty. */
  function ResultFolderOf(firstImg: string): Option<string> {
    var parentDir := Paths.GetDirectoryName(firstImg);
    if parentDir != "" then Some(Paths.Combine(parentDir, OCR.ResultDirName)) else None
  }

  /** The folder named in the status bar after a run. */
  function InferredResultDir(selected: seq<string>, lastMergedTxtPath: Option<string>): string {
    if lastMergedTxtPath.Some? then Paths.GetDirectoryName(lastMergedTxtPath.value)
    else if |selected| > 0 && ResultFolderOf(selected[0]).Some? then ResultFolderOf(selected[0]).value
    else NoMergeStatus
  }

  /** Whether or not the texts were merged, the status bar names the
      `OCR_Result` folder beside the first selected file, or says that
      nothing was merged when that file has no parent folder. */
  lemma ResultDirAgrees(selected: seq<string>, merged: bool)
    requires |selected| > 0
    ensures var folder := ResultFolderOf(selected[0]);
      var saved := if merged && folder.Some? then Some(Paths.Combine(folder.value, MergedFileName)) else None;
      InferredResultDir(selected, saved) == (if folder.Some? then folder.value else NoMergeStatus)
  {
    var folder := ResultFolderOf(selected[0]);
    if folder.Some? {
      var parentDir := Paths.GetDirectoryName(selected[0]);
      ResultNamesPlain();
      Paths.CombineEndsWithName(parentDir, OCR.ResultDirName);
      Paths.CombineSplits(folder.value, MergedFileName);
    }
  }

  lemma ResultNamesPlain()
    ensures !Paths.HasSeparator(OCR.ResultDirName) && !Paths.HasSeparator(MergedFileName)
  {
    assert forall i :: 0 <= i < |OCR.ResultDirName| ==> OCR.ResultDirName[i] !in Paths.Separators;
    assert forall i :: 0 <= i < |MergedFileName| ==> MergedFileName[i] !in Paths.Separators;
  }

  const NoFilesStatus: string := "未选择文件"
  const SelectedPrefix: string := "已选择 "
  const SelectedSuffix: string := " 个文件"

  /** TxtFileStatus for a selection of `n` files. */
  function FileStatus(n: nat): string {
    if n > 0 then SelectedPrefix + NatToString(n) + SelectedSuffix else NoFilesStatus
  }

  /** The predictor settings the OCR button produces: combo index 0 picks
      PP-OCRv4, any other PP-OCRv5; the GPU box drives both stages. */
  function ModelFor(comboIndex: int): OCR.ModelType {
    if comboIndex == 0 then OCR.PP_OCRv4 else OCR.PP_OCRv5
  }

  function WindowConfig(comboIndex: int, useGpu: bool): OCR.PredictorConfig {
    var device := if useGpu then "GPU" else "CPU";
    OCR.PredictorConfig(OCR.ModelFilesFor(ModelFor(comboIndex)), 1, 1, useGpu, device, useGpu, device)
  }

  /** The run the OCR button starts, over the selection in completion order. */
  function RunOutcomeFor(comboIndex: int, useGpu: bool, saveResult: bool, engine: OCR.Engine, completion: seq<string>): OCR.RunOutcome {
    var cfg := WindowConfig(comboIndex, useGpu);
    if OCR.AnyFault(cfg, engine, completion) then OCR.PredictorFault
    else OCR.Completed(OCR.SortByPath(OCR.Collect(cfg, engine, saveResult, completion)))
  }

  /** The records are built one detail at a time. */
  method LinesFor(d: OCR.OcrResultDetail) returns (lines: seq<string>)
    ensures lines == LinesOf(d)
    ensures |lines| >= 1 || d.result == Some([])
  {
    lines := [];
    if d.result.None? {
      lines := lines + [FailureLine];
    } else {
      var texts := d.result.value;
      var j := 0;
      while j < |texts|
        invariant 0 <= j <= |texts|
        invariant lines == texts[..j]
      {
        lines := lines + [texts[j]];
        j := j + 1;
      }
      assert texts[..j] == texts;
    }
  }

  /** The loop that fills fileResultMap. */
  method BuildResultMap(details: seq<OCR.OcrResultDetail>) returns (m: map<string, seq<string>>)
    ensures m == ResultMap(details)
  {
    m := map[];
    var i := 0;
    while i < |details|
      invariant 0 <= i <= |details|
      invariant m == ResultMap(details[..i])
    {
      var fileName := Paths.GetFileName(details[i].imgPath);
      var lines := LinesFor(details[i]);
      assert details[..i + 1][..i] == details[..i];
      m := m[fileName := lines];
      i := i + 1;
    }
    assert details[..i] == details;
  }

  /** The StringBuilder loop of the merge: one AppendLine per successful
      detail. */
  method MergeText(details: seq<OCR.OcrResultDetail>) returns (text: string)
    ensures text == JoinLines(MergedLines(details))
  {
    text := "";
    var j := 0;
    while j < |details|
      invariant 0 <= j <= |details|
      invariant text == JoinLines(MergedLines(details[..j]))
    {
      MergedTextGrows(details[..j], details[j]);
      assert details[..j + 1] == details[..j] + [details[j]];
      if details[j].result.Some? {
        text := text + Join(" ", details[j].result.value) + NewLine;
      }
      j := j + 1;
    }
    assert details[..j] == details;
  }

  /** The processor the OCR button builds: the chosen model, the GPU box
      for both stages, the save box, and the selection queued. */
  method NewProcessor(comboIndex: int, useGpu: bool, saveResult: bool, selected: seq<string>)
    returns (processor: OCR.OcrBatchProcessor)
    ensures fresh(processor)
    ensures processor.InitOcr() == Ok(WindowConfig(comboIndex, useGpu))
    ensures processor.imagePaths == selected && processor.saveResultImage == saveResult
  {
    var device := if useGpu then "GPU" else "CPU";
    var models := OCR.ModelFilesFor(ModelFor(comboIndex));
    processor := new OCR.OcrBatchProcessor();
    processor.SetModel(ModelFor(comboIndex));
    processor.SetUseGpu(useGpu, useGpu);
    assert processor.deviceForCls == device && processor.deviceForRec == device;
    processor.SetSaveResultImage(saveResult);
    processor.AddImages(selected);
    assert processor.clsBatchNum == 1 && processor.recBatchNum == 1;
    assert processor.detModelPath == Some(models.det) && processor.clsModelPath == Some(models.cls);
    assert processor.recModelPath == Some(models.rec) && processor.keyPath == Some(models.keys);
    assert processor.InitOcr() == Ok(OCR.PredictorConfig(models, 1, 1, useGpu, device, useGpu, device));
  }

  /** The run the OCR button starts: at most two images at a time, with a
      progress callback. */
  method RunSelection(comboIndex: int, useGpu: bool, saveResult: bool, selected: seq<string>,
                      engine: OCR.Engine, completion: seq<string>, disk: Disk)
    returns (outcome: OCR.RunOutcome, disk': Disk)
    requires multiset(completion) == multiset(selected)
    ensures outcome == RunOutcomeFor(comboIndex, useGpu, saveResult, engine, completion)
    ensures disk' == OCR.ArtifactsAfter(disk, WindowConfig(comboIndex, useGpu), engine, saveResult, completion)
  {
    var processor := NewProcessor(comboIndex, useGpu, saveResult, selected);
    assert processor.Starts(2);
    var progress, displayed, freeSlots;
    outcome, progress, displayed, freeSlots, disk' := processor.RunBatchOcr(2, true, engine, completion, disk);
  }

  /** The merge of the OCR button: the merged text goes to
      `OCR_Result_Merged.txt` in the `OCR_Result` folder beside the first
      selected file, when asked for, when there are details and when that
      file has a parent folder. */
  method SaveMerged(details: seq<OCR.OcrResultDetail>, firstImg: string, mergeTxt: bool, disk: Disk)
    returns (saved: Option<string>, disk': Disk)
    ensures var folder := ResultFolderOf(firstImg);
      var merges := mergeTxt && |details| > 0 && folder.Some?;
      && saved == (if merges then Some(Paths.Combine(folder.value, MergedFileName)) else None)
      && disk' == (if merges then
                     WriteFile(CreateDirectory(disk, folder.value), Paths.Combine(folder.value, MergedFileName),
                               Text(JoinLines(MergedLines(details))))
                   else disk)
  {
    saved, disk' := None, disk;
    if mergeTxt && |details| > 0 {
      var sb := MergeText(details);
      var parentDir := Paths.GetDirectoryName(firstImg);
      if parentDir != "" {
        var mergedDir := Paths.Combine(parentDir, OCR.ResultDirName);
        disk' := CreateDirectory(disk', mergedDir);
        var savePath := Paths.Combine(mergedDir, MergedFileName);
        disk' := WriteFile(disk', savePath, Text(sb));
        saved := Some(savePath);
      }
    }
  }

  /** The folder the status bar names after a run. */
  method StatusDir(selected: seq<string>, lastMergedTxtPath: Option<string>) returns (resultDir: string)
    ensures resultDir == InferredResultDir(selected, lastMergedTxtPath)
  {
    resultDir := NoMergeStatus;
    if lastMergedTxtPath.Some? {
      resultDir := Paths.GetDirectoryName(lastMergedTxtPath.value);
    } else if |selected| > 0 {
      var parentDir := Paths.GetDirectoryName(selected[0]);
      if parentDir != "" {
        resultDir := Paths.Combine(parentDir, OCR.ResultDirName);
      }
    }
  }

  /** The window after a completed run: the result map, the lines shown,
      the merged text file, the folder the status bar names, and the disk. */
  datatype Presented = Presented(resultMap: map<string, seq<string>>, shown: seq<string>,
                                 saved: Option<string>, resultDir: string, disk: Disk)

  function Present(details: seq<OCR.OcrResultDetail>, selected: seq<string>, mergeTxt: bool, disk: Disk): Presented
    requires |selected| > 0
  {
    var m := ResultMap(details);
    var firstFile := Paths.GetFileName(selected[0]);
    var folder := ResultFolderOf(selected[0]);
    var merges := mergeTxt && |details| > 0 && folder.Some?;
    var saved := if merges then Some(Paths.Combine(folder.value, MergedFileName)) else None;
    Presented(
      m,
      if firstFile in m then m[firstFile] else [],
      saved,
      InferredResultDir(selected, saved),
      if merges then
        WriteFile(CreateDirectory(disk, folder.value), saved.value, Text(JoinLines(MergedLines(details))))
      else disk)
  }

  /** What the OCR button does with a completed run's details. */
  method ShowCompleted(details: seq<OCR.OcrResultDetail>, selected: seq<string>, mergeTxt: bool, disk: Disk)
    returns (m: map<string, seq<string>>, shown: seq<string>, saved: Option<string>, resultDir: string, disk': Disk)
    requires |selected| > 0
    ensures Presented(m, shown, saved, resultDir, disk') == Present(details, selected, mergeTxt, disk)
  {
    m := BuildResultMap(details);
    var firstFile := Paths.GetFileName(selected[0]);
    shown := [];
    if firstFile in m {
      shown := m[firstFile];
    }
    saved, disk' := SaveMerged(details, selected[0], mergeTxt, disk);
    resultDir := StatusDir(selected, saved);
  }

  /** The OCR button on a non-empty selection: the run's outcome and the
      window it leaves. A run that throws (PredictorFault) leaves the
      results cleared, as they are when the exception escapes the handler;
      its `resultDir` is then no status the handler shows, since the
      handler never reaches the status-bar update. */
  function ClickResult(comboIndex: int, useGpu: bool, saveResult: bool, mergeTxt: bool,
                       engine: OCR.Engine, completion: seq<string>, selected: seq<string>, disk: Disk)
    : (OCR.RunOutcome, Presented)
    requires |selected| > 0
  {
    var ran := OCR.ArtifactsAfter(disk, WindowConfig(comboIndex, useGpu), engine, saveResult, completion);
    var outcome := RunOutcomeFor(comboIndex, useGpu, saveResult, engine, completion);
    if outcome.Completed? then (outcome, Present(outcome.details, selected, mergeTxt, ran))
    else (outcome, Presented(map[], [], None, NoMergeStatus, ran))
  }

  method OcrClick(comboIndex: int, useGpu: bool, saveResult: bool, mergeTxt: bool,
                  engine: OCR.Engine, completion: seq<string>, selected: seq<string>, disk: Disk)
    returns (outcome: OCR.RunOutcome, p: Presented)
    requires |selected| > 0
    requires multiset(completion) == multiset(selected)
    ensures (outcome, p) == ClickResult(comboIndex, useGpu, saveResult, mergeTxt, engine, completion, selected, disk)
  {
    var disk';
    outcome, disk' := RunSelection(comboIndex, useGpu, saveResult, selected, engine, completion, disk);
    if !outcome.Completed? {
      p := Presented(map[], [], None, NoMergeStatus, disk');
      return;
    }
    var m, shown, saved, resultDir;
    m, shown, saved, resultDir, disk' := ShowCompleted(outcome.details, selected, mergeTxt, disk');
    p := Presented(m, shown, saved, resultDir, disk');
  }

  /** The names ListImages shows for a selection. */
  function ListedNames(paths: seq<string>): (r: seq<string>)
    ensures |r| == |paths| && forall i :: 0 <= i < |paths| ==> r[i] == Paths.GetFileName(paths[i])
  {
    Seqs.MapSeq(paths, Paths.GetFileName)
  }

  class MainWindow {
    var selectedImages: seq<string>
    /** ListImages.ItemsSource: the file names of the selection. */
    var listItems: seq<string>
    var fileStatus: string
    var fileResultMap: map<string, seq<string>>
    /** ListResults.ItemsSource; null is the empty list. */
    var shownResults: seq<string>
    var lastMergedTxtPath: Option<string>

    /** The list shows the names of the selected files, and the status line
        counts them. */
    predicate Valid()
      reads this`selectedImages, this`listItems, this`fileStatus
    {
      listItems == ListedNames(selectedImages) && fileStatus == FileStatus(|selectedImages|)
    }

    constructor ()
      ensures Valid()
      ensures selectedImages == [] && fileResultMap == map[] && shownResults == [] && lastMergedTxtPath == None
    {
      selectedImages := [];
      listItems := [];
      fileStatus := NoFilesStatus;
      fileResultMap := map[];
      shownResults := [];
      lastMergedTxtPath := None;
    }

    /** BtnSelectImages_Click: an accepted dialog replaces the selection and
        forgets every result. */
    method SelectImages(dialogFiles: Option<seq<string>>)
      requires Valid()
      modifies this`selectedImages, this`listItems, this`fileStatus, this`fileResultMap, this`shownResults
      ensures Valid()
      ensures dialogFiles.None? ==>
        selectedImages == old(selectedImages) && fileResultMap == old(fileResultMap) && shownResults == old(shownResults)
      ensures dialogFiles.Some? ==>
        selectedImages == dialogFiles.value && fileResultMap == map[] && shownResults == []
    {
      if dialogFiles.Some? {
        selectedImages := dialogFiles.value;
        listItems := ListedNames(selectedImages);
        fileStatus := if |selectedImages| > 0 then SelectedPrefix + NatToString(|selectedImages|) + SelectedSuffix else NoFilesStatus;
        fileResultMap := map[];
        shownResults := [];
      }
    }

    /** BtnClear_Click. */
    method Clear()
      modifies this`selectedImages, this`listItems, this`fileStatus, this`fileResultMap, this`shownResults
      ensures Valid()
      ensures selectedImages == [] && fileResultMap == map[] && shownResults == []
    {
      selectedImages := [];
      listItems := [];
      fileStatus := NoFilesStatus;
      shownResults := [];
      fileResultMap := map[];
    }

    /** ListImages_Drop: the supported files among those dropped are
        appended, in order; results are kept. */
    method Drop(droppedFiles: Option<seq<string>>)
      requires Valid()
      modifies this`selectedImages, this`listItems, this`fileStatus
      ensures Valid()
      ensures droppedFiles.None? ==> selectedImages == old(selectedImages)
      ensures droppedFiles.Some? ==> selectedImages == old(selectedImages) + DropFilter(droppedFiles.value)
    {
      if droppedFiles.Some? {
        var addFiles := DropFilter(droppedFiles.value);
        if |addFiles| > 0 {
          selectedImages := selectedImages + addFiles;
          listItems := ListedNames(selectedImages);
          fileStatus := SelectedPrefix + NatToString(|selectedImages|) + SelectedSuffix;
        }
      }
    }

    /** ListImages_SelectionChanged; `selected` is None when no item is
        selected. */
    method SelectionChanged(selected: Option<string>)
      modifies this`shownResults
      ensures shownResults == if selected.Some? && selected.value in fileResultMap then fileResultMap[selected.value] else []
    {
      if selected.Some? && selected.value in fileResultMap {
        shownResults := fileResultMap[selected.value];
      } else {
        shownResults := [];
      }
    }

    /** BtnOcr_Click. The run's tasks complete in the order `completion`, a
        permutation of the selection; `resultDir` is the folder the status
        bar names. A run that throws ends the handler with the results
        cleared. */
    method BtnOcrClick(comboIndex: int, useGpu: bool, saveResult: bool, mergeTxt: bool,
                       engine: OCR.Engine, completion: seq<string>, disk: Disk)
      returns (started: bool, outcome: OCR.RunOutcome, resultDir: string, disk': Disk)
      requires Valid()
      requires multiset(completion) == multiset(selectedImages)
      modifies this`fileResultMap, this`shownResults, this`lastMergedTxtPath
      ensures Valid()
      ensures started <==> |selectedImages| > 0
      ensures !started ==>
        && fileResultMap == old(fileResultMap) && shownResults == old(shownResults)
        && lastMergedTxtPath == old(lastMergedTxtPath) && disk' == disk
      ensures started ==>
        (outcome, Presented(fileResultMap, shownResults, lastMergedTxtPath, resultDir, disk'))
        == ClickResult(comboIndex, useGpu, saveResult, mergeTxt, engine, completion, selectedImages, disk)
    {
      disk' := disk;
      outcome := OCR.PredictorFault;
      resultDir := NoMergeStatus;
      if |selectedImages| == 0 {
        started := false;
        return;
      }
      started := true;
      var p;
      outcome, p := OcrClick(comboIndex, useGpu, saveResult, mergeTxt, engine, completion, selectedImages, disk);
      fileResultMap, shownResults, lastMergedTxtPath, resultDir, disk' := p.resultMap, p.shown, p.saved, p.resultDir, p.disk;
    }
  }

  /** After a completed run the map has an entry for the name of each
      selected file and for nothing else. */
  lemma ResultMapCoversSelection(cfg: OCR.PredictorConfig, engine: OCR.Engine, save: bool,
                                 completion: seq<string>, selected: seq<string>)
    requires multiset(completion) == multiset(selected)
    requires !OCR.AnyFault(cfg, engine, completion)
    ensures var details := OCR.SortByPath(OCR.Collect(cfg, engine, save, completion));
      forall k :: k in ResultMap(details) <==> k in Seqs.MapSeq(selected, Paths.GetFileName)
  {
    var details := OCR.SortByPath(OCR.Collect(cfg, engine, save, completion));
    OCR.CompletedRunCoversQueue(cfg, engine, save, completion, selected);
    ResultMapKeys(details);
    var paths := OCR.ImgPaths(details);
    assert FileNames(details) == Seqs.MapSeq(paths, Paths.GetFileName);
    Seqs.MapSeqPermute(paths, selected, Paths.GetFileName);
    forall k ensures k in FileNames(details) <==> k in Seqs.MapSeq(selected, Paths.GetFileName) {
      assert k in FileNames(details) <==> k in multiset(FileNames(details));
      assert k in Seqs.MapSeq(selected, Paths.GetFileName) <==> k in multiset(Seqs.MapSeq(selected, Paths.GetFileName));
    }
  }
}
