/** The batch OCR processor of OCR/OcrBatchProcessor.cs: model selection and
    stage settings, the queue of image paths, and one batch run that
    records one result per queued image, reports progress, writes the text
    and visualisation artifacts and sorts the results by path.

    The run is modelled sequentially: the tasks complete in an order the
    caller supplies as `completion`, which holds exactly the queued paths,
    and each completion appends its record and advances the counter as the
    locked block does. OpenCV decoding, the PaddleOCR predictor and the
    stopwatch are the oracles of an `Engine`; the file system is a `Disk`
    value passed in and returned. */
module OCR {
  import opened Wrappers
  import opened Text
  import Paths
  import opened Storage
  import Sorting
  import Seqs

  datatype ModelType = PP_OCRv4 | PP_OCRv5

  /** Detection, classification and recognition models and the key file. */
  datatype ModelFiles = ModelFiles(det: string, cls: string, rec: string, keys: string)

  // The model files under ./models, per model type.
  const V4Det: string := "./models/ch_PP-OCRv4/PP-OCRv4_mobile_det_onnx.onnx"
  const V4Cls: string := "./models/ch_PP-OCRv4/PP-OCRv4_mobile_cls_onnx.onnx"
  const V4Rec: string := "./models/ch_PP-OCRv4/PP-OCRv4_mobile_rec_onnx.onnx"
  const V4Keys: string := "./models/ch_PP-OCRv4/ppocr_keys_v1.txt"
  const V5Det: string := "./models/ch_PP-OCRv5/PP-OCRv5_mobile_det_onnx.onnx"
  const V5Cls: string := "./models/ch_PP-OCRv5/PP-OCRv5_mobile_cls_onnx.onnx"
  const V5Rec: string := "./models/ch_PP-OCRv5/PP-OCRv5_mobile_rec_onnx.onnx"
  const V5Keys: string := "./models/ch_PP-OCRv5/ppocrv5_dict.txt"

  /** The files SetModel selects for each model type. */
  function ModelFilesFor(t: ModelType): ModelFiles {
    match t
    case PP_OCRv4 =>
      ModelFiles(V4Det, V4Cls, V4Rec, V4Keys)
    case PP_OCRv5 =>
      ModelFiles(V5Det, V5Cls, V5Rec, V5Keys)
  }

  /** What a predictor is built from: the OcrConfig model files and the
      stage settings written into RuntimeOption. */
  datatype PredictorConfig = PredictorConfig(
    models: ModelFiles,
    clsBatchNum: int, recBatchNum: int,
    clsUseGpu: bool, clsDevice: string,
    recUseGpu: bool, recDevice: string)

  /** The InvalidOperationException of InitOcr. */
  datatype ProcessorError = ModelNotSet

  /** What OCRPredictor.ocr does with a decoded image: the recognised texts
      in result order, a null result, or an exception. */
  datatype Recognition = Texts(texts: seq<string>) | NullResult | Throws

  /** The external engines: whether Cv2.ImRead yields a non-empty image,
      the predictor, and the stopwatch reading around the predictor call. */
  datatype Engine = Engine(
    decodes: string -> bool,
    recognize: (PredictorConfig, string) -> Recognition,
    elapsedMs: string -> nat)

  /** OcrResultDetail; `result` holds the texts of the OCRPredictResult list. */
  datatype OcrResultDetail = OcrResultDetail(
    imgPath: string,
    result: Option<seq<string>>,
    resultImgPath: Option<string>,
    ocrMs: int)

  /** How RunBatchOcrAsync ends: with its sorted details, or by throwing
      (InvalidOperationException from InitOcr, ArgumentOutOfRangeException
      from the semaphore, the predictor's exception re-thrown by
      Task.WhenAll), or by never completing (a semaphore with no slot). */
  datatype RunOutcome =
    | Completed(details: seq<OcrResultDetail>)
    | MissingModel
    | ParallelismOutOfRange
    | Stalled
    | PredictorFault

  /** The record of an image that does not decode. */
  function UnreadableDetail(imgPath: string): OcrResultDetail {
    OcrResultDetail(imgPath, None, None, 0)
  }

  const ResultDirName: string := "OCR_Result"

  /** `<dir>/<stem>_result.jpg`, beside the image. */
  function ResultImagePath(imgPath: string): string {
    Paths.Combine(Paths.GetDirectoryName(imgPath), Paths.GetFileNameWithoutExtension(imgPath) + "_result.jpg")
  }

  /** `<dir>/OCR_Result`. */
  function TextResultDir(imgPath: string): string {
    Paths.Combine(Paths.GetDirectoryName(imgPath), ResultDirName)
  }

  /** `<dir>/OCR_Result/<stem>.txt`. */
  function TextResultPath(imgPath: string): string {
    Paths.Combine(TextResultDir(imgPath), Paths.GetFileNameWithoutExtension(imgPath) + ".txt")
  }

  // ---------------------------------------------------------------------------
  // One task of the run, and a prefix of completed tasks

  datatype ItemOutcome = Recorded(detail: OcrResultDetail) | Faulted

  /** What the task for `p` contributes to the shared list. */
  function ProcessItem(cfg: PredictorConfig, engine: Engine, save: bool, p: string): ItemOutcome {
    if !engine.decodes(p) then Recorded(UnreadableDetail(p))
    else match engine.recognize(cfg, p)
      case Throws => Faulted
      case NullResult => Recorded(OcrResultDetail(p, None, None, engine.elapsedMs(p)))
      case Texts(ts) =>
        Recorded(OcrResultDetail(p, Some(ts), if save then Some(ResultImagePath(p)) else None, engine.elapsedMs(p)))
  }

  /** The files the task for `p` writes. */
  function ItemArtifacts(d: Disk, cfg: PredictorConfig, engine: Engine, save: bool, p: string): Disk {
    if !engine.decodes(p) then d
    else match engine.recognize(cfg, p)
      case Throws => d
      case NullResult => d
      case Texts(ts) =>
        var d1 := if save then WriteFile(d, ResultImagePath(p), Visualization(p)) else d;
        var d2 := CreateDirectory(d1, TextResultDir(p));
        WriteFile(d2, TextResultPath(p), Text(JoinLines(ts)))
  }

  /** Whether the task for `p` queues its visualisation for display. */
  predicate ItemShown(cfg: PredictorConfig, engine: Engine, show: bool, p: string) {
    show && engine.decodes(p) && engine.recognize(cfg, p).Texts?
  }

  function ItemRecord(cfg: PredictorConfig, engine: Engine, save: bool, p: string): seq<OcrResultDetail> {
    match ProcessItem(cfg, engine, save, p)
    case Recorded(d) => [d]
    case Faulted => []
  }

  function Recorder(cfg: PredictorConfig, engine: Engine, save: bool): string -> seq<OcrResultDetail> {
    p => ItemRecord(cfg, engine, save, p)
  }

  function Shower(cfg: PredictorConfig, engine: Engine, show: bool): string -> seq<string> {
    p => if ItemShown(cfg, engine, show, p) then [p] else []
  }

  /** The shared list after the tasks for `ps` completed, in that order. */
  function Collect(cfg: PredictorConfig, engine: Engine, save: bool, ps: seq<string>): seq<OcrResultDetail> {
    Seqs.FlatMap(ps, Recorder(cfg, engine, save))
  }

  /** The images queued for display after the tasks for `ps` completed. */
  function ShownAfter(cfg: PredictorConfig, engine: Engine, show: bool, ps: seq<string>): seq<string> {
    Seqs.FlatMap(ps, Shower(cfg, engine, show))
  }

  /** The disk after the tasks for `ps` completed, in that order. */
  function ArtifactsAfter(d: Disk, cfg: PredictorConfig, engine: Engine, save: bool, ps: seq<string>): Disk
    decreases |ps|
  {
    if |ps| == 0 then d
    else ItemArtifacts(ArtifactsAfter(d, cfg, engine, save, ps[..|ps| - 1]), cfg, engine, save, ps[|ps| - 1])
  }

  predicate Faults(cfg: PredictorConfig, engine: Engine, p: string) {
    engine.decodes(p) && engine.recognize(cfg, p).Throws?
  }

  predicate AnyFault(cfg: PredictorConfig, engine: Engine, ps: seq<string>) {
    exists p :: p in ps && Faults(cfg, engine, p)
  }

  function DetailKey(d: OcrResultDetail): string {
    d.imgPath
  }

  /** details.Sort by ImgPath under OrdinalIgnoreCase. */
  function SortByPath(ds: seq<OcrResultDetail>): seq<OcrResultDetail> {
    Sorting.SortByKey(ds, DetailKey)
  }

  function ImgPaths(ds: seq<OcrResultDetail>): seq<string> {
    Seqs.MapSeq(ds, DetailKey)
  }

  /** A StreamWriter given one WriteLine call per line, in order. */
  method WriteLines(lines: seq<string>) returns (text: string)
    ensures text == JoinLines(lines)
  {
    text := "";
    var j := 0;
    while j < |lines|
      invariant 0 <= j <= |lines|
      invariant text == JoinLines(lines[..j])
    {
      JoinLinesAppend(lines[..j], lines[j]);
      assert lines[..j + 1] == lines[..j] + [lines[j]];
      text := text + lines[j] + NewLine;
      j := j + 1;
    }
    assert lines[..j] == lines;
  }

  /** The body of one task, between acquiring and releasing its slot:
      decode, recognise, write the artifacts. */
  method RunItem(cfg: PredictorConfig, engine: Engine, save: bool, show: bool, imgPath: string, disk: Disk)
    returns (outcome: ItemOutcome, shown: bool, disk': Disk)
    ensures outcome == ProcessItem(cfg, engine, save, imgPath)
    ensures outcome.Faulted? <==> Faults(cfg, engine, imgPath)
    ensures shown == ItemShown(cfg, engine, show, imgPath)
    ensures disk' == ItemArtifacts(disk, cfg, engine, save, imgPath)
  {
    disk', shown := disk, false;
    if !engine.decodes(imgPath) {
      return Recorded(UnreadableDetail(imgPath)), shown, disk';
    }
    var ocrResult := engine.recognize(cfg, imgPath);
    if ocrResult.Throws? {
      return Faulted, shown, disk';
    }
    var resultImgPath: Option<string> := None;
    if ocrResult.Texts? {
      var resultPath := ResultImagePath(imgPath);
      if save {
        disk' := WriteFile(disk', resultPath, Visualization(imgPath));
        resultImgPath := Some(resultPath);
      }
      shown := show;
    }
    if ocrResult.Texts? {
      disk' := CreateDirectory(disk', TextResultDir(imgPath));
      var txtPath := TextResultPath(imgPath);
      var text := WriteLines(ocrResult.texts);
      disk' := WriteFile(disk', txtPath, Text(text));
    }
    var result := if ocrResult.Texts? then Some(ocrResult.texts) else None;
    outcome := Recorded(OcrResultDetail(imgPath, result, resultImgPath, engine.elapsedMs(imgPath)));
  }

  /** The tasks of one run, taken in completion order: each acquires a slot,
      runs its body, adds its record and reports progress under the lock,
      and releases its slot. */
  method RunTasks(cfg: PredictorConfig, engine: Engine, saveResultImage: bool, showResultImage: bool,
                  maxDegreeOfParallelism: int, hasProgressCallback: bool, total: int,
                  completion: seq<string>, disk: Disk)
    returns (details: seq<OcrResultDetail>, faulted: bool, progress: seq<(int, int)>, shownImages: seq<string>,
             freeSlots: int, disk': Disk)
    ensures details == Collect(cfg, engine, saveResultImage, completion)
    ensures faulted == AnyFault(cfg, engine, completion)
    ensures disk' == ArtifactsAfter(disk, cfg, engine, saveResultImage, completion)
    ensures shownImages == ShownAfter(cfg, engine, showResultImage, completion)
    ensures |progress| == (if hasProgressCallback then |details| else 0)
    ensures forall k :: 0 <= k < |progress| ==> progress[k] == (k + 1, total)
    ensures freeSlots == maxDegreeOfParallelism
  {
    progress, disk' := [], disk;
    details := [];
    var finished := 0;
    faulted := false;
    shownImages := [];
    freeSlots := maxDegreeOfParallelism;
    var i := 0;
    while i < |completion|
      invariant 0 <= i <= |completion|
      invariant details == Collect(cfg, engine, saveResultImage, completion[..i])
      invariant disk' == ArtifactsAfter(disk, cfg, engine, saveResultImage, completion[..i])
      invariant faulted == AnyFault(cfg, engine, completion[..i])
      invariant finished == |details|
      invariant |progress| == (if hasProgressCallback then finished else 0)
      invariant forall k :: 0 <= k < |progress| ==> progress[k] == (k + 1, total)
      invariant shownImages == ShownAfter(cfg, engine, showResultImage, completion[..i])
      invariant freeSlots == maxDegreeOfParallelism
    {
      var imgPath := completion[i];
      // semaphore.WaitAsync()
      freeSlots := freeSlots - 1;
      var item, isShown, diskAfter := RunItem(cfg, engine, saveResultImage, showResultImage, imgPath, disk');
      disk' := diskAfter;
      if isShown {
        shownImages := shownImages + [imgPath];
      }
      if item.Faulted? {
        faulted := true;
      } else {
        // lock (lockObj)
        details := details + [item.detail];
        finished := finished + 1;
        if hasProgressCallback {
          progress := progress + [(finished, total)];
        }
      }
      // finally: semaphore.Release()
      freeSlots := freeSlots + 1;
      RunStep(disk, cfg, engine, saveResultImage, showResultImage, completion, i);
      i := i + 1;
    }
    assert completion[..i] == completion;
  }

  // ---------------------------------------------------------------------------
  // The processor

  class OcrBatchProcessor {
    var detModelPath: Option<string>
    var clsModelPath: Option<string>
    var recModelPath: Option<string>
    var keyPath: Option<string>
    var clsBatchNum: int
    var recBatchNum: int
    var useGpuForCls: bool
    var useGpuForRec: bool
    var deviceForCls: string
    var deviceForRec: string
    var imagePaths: seq<string>
    var saveResultImage: bool
    var showResultImage: bool

    constructor ()
      ensures detModelPath == None && clsModelPath == None && recModelPath == None && keyPath == None
      ensures clsBatchNum == 1 && recBatchNum == 1
      ensures !useGpuForCls && !useGpuForRec && deviceForCls == "CPU" && deviceForRec == "CPU"
      ensures imagePaths == []
      ensures saveResultImage && !showResultImage
    {
      detModelPath, clsModelPath, recModelPath, keyPath := None, None, None, None;
      clsBatchNum, recBatchNum := 1, 1;
      useGpuForCls, useGpuForRec := false, false;
      deviceForCls, deviceForRec := "CPU", "CPU";
      imagePaths := [];
      saveResultImage, showResultImage := true, false;
    }

    method SetModel(t: ModelType)
      modifies this`detModelPath, this`clsModelPath, this`recModelPath, this`keyPath
      ensures detModelPath == Some(ModelFilesFor(t).det) && clsModelPath == Some(ModelFilesFor(t).cls)
      ensures recModelPath == Some(ModelFilesFor(t).rec) && keyPath == Some(ModelFilesFor(t).keys)
      ensures InitOcr().Ok? && InitOcr().value.models == ModelFilesFor(t)
    {
      var m := ModelFilesFor(t);
      detModelPath := Some(m.det);
      clsModelPath := Some(m.cls);
      recModelPath := Some(m.rec);
      keyPath := Some(m.keys);
    }

    method SetBatchNum(clsBatch: int, recBatch: int)
      modifies this`clsBatchNum, this`recBatchNum
      ensures clsBatchNum == clsBatch && recBatchNum == recBatch
    {
      clsBatchNum := clsBatch;
      recBatchNum := recBatch;
    }

    /** A stage's device changes only when that stage is switched to the GPU;
        switching it off keeps the previous device name. */
    method SetUseGpu(useGpuForCls: bool, useGpuForRec: bool, device: string := "GPU")
      modifies this`useGpuForCls, this`useGpuForRec, this`deviceForCls, this`deviceForRec
      ensures this.useGpuForCls == useGpuForCls && this.useGpuForRec == useGpuForRec
      ensures deviceForCls == if useGpuForCls then device else old(deviceForCls)
      ensures deviceForRec == if useGpuForRec then device else old(deviceForRec)
    {
      this.useGpuForCls := useGpuForCls;
      this.useGpuForRec := useGpuForRec;
      if useGpuForCls {
        deviceForCls := device;
      }
      if useGpuForRec {
        deviceForRec := device;
      }
    }

    method AddImage(imgPath: string)
      modifies this`imagePaths
      ensures imagePaths == old(imagePaths) + [imgPath]
    {
      imagePaths := imagePaths + [imgPath];
    }

    method AddImages(imgPaths: seq<string>)
      modifies this`imagePaths
      ensures imagePaths == old(imagePaths) + imgPaths
    {
      imagePaths := imagePaths + imgPaths;
    }

    method SetSaveResultImage(save: bool)
      modifies this`saveResultImage
      ensures saveResultImage == save
    {
      saveResultImage := save;
    }

    method SetShowResultImage(show: bool)
      modifies this`showResultImage
      ensures showResultImage == show
    {
      showResultImage := show;
    }

    /** The precondition check and configuration of InitOcr. */
    function InitOcr(): (r: Result<PredictorConfig, ProcessorError>)
      reads this
      ensures r.Err? <==> detModelPath.None? || clsModelPath.None? || recModelPath.None? || keyPath.None?
      ensures r.Ok? ==> r.value.models == ModelFiles(detModelPath.value, clsModelPath.value, recModelPath.value, keyPath.value)
    {
      if detModelPath.None? || clsModelPath.None? || recModelPath.None? || keyPath.None? then Err(ModelNotSet)
      else Ok(PredictorConfig(
        ModelFiles(detModelPath.value, clsModelPath.value, recModelPath.value, keyPath.value),
        clsBatchNum, recBatchNum, useGpuForCls, deviceForCls, useGpuForRec, deviceForRec))
    }

    /** The run gets past its checks: a model is set, the semaphore can be
        created, and it has a slot whenever there is work. */
    predicate Starts(maxDegreeOfParallelism: int)
      reads this
    {
      InitOcr().Ok? && maxDegreeOfParallelism >= 0 && (maxDegreeOfParallelism > 0 || |imagePaths| == 0)
    }

    /** RunBatchOcrAsync. `progress` lists the (finished, total) calls made
        to the callback, `displayed` the images whose visualisation is shown
        after the run, and `freeSlots` is the semaphore's count once every
        task has released it. */
    method RunBatchOcr(maxDegreeOfParallelism: int, hasProgressCallback: bool, engine: Engine,
                       completion: seq<string>, disk: Disk)
      returns (outcome: RunOutcome, progress: seq<(int, int)>, displayed: seq<string>, freeSlots: int, disk': Disk)
      requires multiset(completion) == multiset(imagePaths)
      ensures InitOcr().Err? ==> outcome == MissingModel && progress == [] && disk' == disk
      ensures InitOcr().Ok? && maxDegreeOfParallelism < 0 ==>
        outcome == ParallelismOutOfRange && progress == [] && disk' == disk
      ensures InitOcr().Ok? && maxDegreeOfParallelism == 0 && |imagePaths| > 0 ==>
        outcome == Stalled && progress == [] && disk' == disk
      ensures Starts(maxDegreeOfParallelism) ==>
        var cfg := InitOcr().value;
        var collected := Collect(cfg, engine, saveResultImage, completion);
        var fault := AnyFault(cfg, engine, completion);
        && outcome == (if fault then PredictorFault else Completed(SortByPath(collected)))
        && disk' == ArtifactsAfter(disk, cfg, engine, saveResultImage, completion)
        && |progress| == (if hasProgressCallback then |collected| else 0)
        && (forall k :: 0 <= k < |progress| ==> progress[k] == (k + 1, |imagePaths|))
        && displayed == (if fault then [] else ShownAfter(cfg, engine, showResultImage, completion))
        && freeSlots == maxDegreeOfParallelism
      ensures !Starts(maxDegreeOfParallelism) ==> displayed == []
      // A completed run holds one record per queued path, sorted by path.
      ensures outcome.Completed? ==>
        && |outcome.details| == |imagePaths|
        && multiset(ImgPaths(outcome.details)) == multiset(imagePaths)
        && Sorting.SortedBy(outcome.details, DetailKey)
        && (hasProgressCallback && |imagePaths| > 0 ==> progress[|progress| - 1] == (|imagePaths|, |imagePaths|))
    {
      progress, displayed, freeSlots, disk' := [], [], 0, disk;
      var init := InitOcr();
      if init.Err? {
        return MissingModel, progress, displayed, freeSlots, disk';
      }
      var cfg := init.value;
      if maxDegreeOfParallelism < 0 {
        return ParallelismOutOfRange, progress, displayed, freeSlots, disk';
      }
      var total := |imagePaths|;
      if maxDegreeOfParallelism == 0 && total > 0 {
        return Stalled, progress, displayed, freeSlots, disk';
      }
      var details, faulted, shownImages;
      details, faulted, progress, shownImages, freeSlots, disk' :=
        RunTasks(cfg, engine, saveResultImage, showResultImage, maxDegreeOfParallelism, hasProgressCallback, total, completion, disk);
      if faulted {
        outcome := PredictorFault;
      } else {
        CompletedRunCoversQueue(cfg, engine, saveResultImage, completion, imagePaths);
        outcome := Completed(SortByPath(details));
        displayed := shownImages;
      }
    }
  }


  // ---------------------------------------------------------------------------
  // Properties of a run

  /** One more completed task extends each fold by that task's part. */
  lemma RunStep(d: Disk, cfg: PredictorConfig, engine: Engine, save: bool, show: bool, c: seq<string>, i: nat)
    requires i < |c|
    ensures Collect(cfg, engine, save, c[..i + 1]) == Collect(cfg, engine, save, c[..i]) + ItemRecord(cfg, engine, save, c[i])
    ensures ShownAfter(cfg, engine, show, c[..i + 1])
         == ShownAfter(cfg, engine, show, c[..i]) + (if ItemShown(cfg, engine, show, c[i]) then [c[i]] else [])
    ensures ArtifactsAfter(d, cfg, engine, save, c[..i + 1]) == ItemArtifacts(ArtifactsAfter(d, cfg, engine, save, c[..i]), cfg, engine, save, c[i])
    ensures AnyFault(cfg, engine, c[..i + 1]) <==> AnyFault(cfg, engine, c[..i]) || Faults(cfg, engine, c[i])
  {
    var c' := c[..i + 1];
    assert c'[..i] == c[..i];
    assert c'[i] == c[i];
    assert forall p :: p in c' <==> p in c[..i] || p == c[i];
  }

  /** Without a failing predictor call every completed task leaves exactly
      one record, for its own path, in completion order. */
  lemma {:induction false} CollectRecordsEveryPath(cfg: PredictorConfig, engine: Engine, save: bool, ps: seq<string>)
    requires !AnyFault(cfg, engine, ps)
    ensures ImgPaths(Collect(cfg, engine, save, ps)) == ps
    decreases |ps|
  {
    if |ps| > 0 {
      var init, last := ps[..|ps| - 1], ps[|ps| - 1];
      assert forall p :: p in init ==> p in ps;
      CollectRecordsEveryPath(cfg, engine, save, init);
      assert last in ps;
      assert ps == init + [last];
      Seqs.MapSeqConcat(Collect(cfg, engine, save, init), ItemRecord(cfg, engine, save, last), DetailKey);
    }
  }

  /** The headline result of a completed run: one record per queued path,
      as a permutation, sorted by path. */
  lemma CompletedRunCoversQueue(cfg: PredictorConfig, engine: Engine, save: bool, completion: seq<string>, queue: seq<string>)
    requires multiset(completion) == multiset(queue)
    requires !AnyFault(cfg, engine, completion)
    ensures var r := SortByPath(Collect(cfg, engine, save, completion));
      && |r| == |queue|
      && multiset(ImgPaths(r)) == multiset(queue)
      && Sorting.SortedBy(r, DetailKey)
  {
    var c := Collect(cfg, engine, save, completion);
    CollectRecordsEveryPath(cfg, engine, save, completion);
    var r := SortByPath(c);
    Seqs.MapSeqPermute(r, c, DetailKey);
    assert |completion| == |multiset(completion)| == |multiset(queue)| == |queue|;
  }

  /** Whichever order the tasks complete in, the run ends the same way, and
      when it completes its records are the same multiset and come out with
      the same sequence of case-folded paths. */
  lemma CompletionOrderIrrelevant(cfg: PredictorConfig, engine: Engine, save: bool, c1: seq<string>, c2: seq<string>)
    requires multiset(c1) == multiset(c2)
    ensures AnyFault(cfg, engine, c1) <==> AnyFault(cfg, engine, c2)
    ensures multiset(Collect(cfg, engine, save, c1)) == multiset(Collect(cfg, engine, save, c2))
    ensures Sorting.UpperKeys(SortByPath(Collect(cfg, engine, save, c1)), DetailKey)
         == Sorting.UpperKeys(SortByPath(Collect(cfg, engine, save, c2)), DetailKey)
  {
    forall p | p in c1 ensures p in c2 {
      assert p in multiset(c1);
    }
    forall p | p in c2 ensures p in c1 {
      assert p in multiset(c2);
    }
    Seqs.FlatMapPermute(c1, c2, Recorder(cfg, engine, save));
    var r1 := SortByPath(Collect(cfg, engine, save, c1));
    var r2 := SortByPath(Collect(cfg, engine, save, c2));
    Sorting.SortedKeysDetermined(r1, r2, DetailKey);
  }

  /** What every record says, whatever the completion order: an unreadable
      image gets the failure sentinel; a result image path is present
      exactly when there is a result and images are saved, and then it is
      `<dir>/<stem>_result.jpg`; a result holds the predictor's texts. */
  lemma RecordFacts(cfg: PredictorConfig, engine: Engine, save: bool, ps: seq<string>)
    ensures forall d :: d in Collect(cfg, engine, save, ps) ==>
      && d.imgPath in ps
      && (!engine.decodes(d.imgPath) ==> d == UnreadableDetail(d.imgPath))
      && (d.resultImgPath.Some? <==> d.result.Some? && save)
      && (d.resultImgPath.Some? ==> d.resultImgPath.value == ResultImagePath(d.imgPath))
      && (d.result.Some? ==> engine.recognize(cfg, d.imgPath) == Texts(d.result.value))
  {
    var f := Recorder(cfg, engine, save);
    Seqs.FlatMapMembers(ps, f);
    forall d | d in Collect(cfg, engine, save, ps)
      ensures d.imgPath in ps
      ensures !engine.decodes(d.imgPath) ==> d == UnreadableDetail(d.imgPath)
      ensures d.resultImgPath.Some? <==> d.result.Some? && save
      ensures d.resultImgPath.Some? ==> d.resultImgPath.value == ResultImagePath(d.imgPath)
      ensures d.result.Some? ==> engine.recognize(cfg, d.imgPath) == Texts(d.result.value)
    {
      var p :| p in ps && d in f(p);
      assert d in ItemRecord(cfg, engine, save, p);
    }
  }

  // ---------------------------------------------------------------------------
  // Artifacts

  lemma ItemOverlay(d: Disk, e: Disk, cfg: PredictorConfig, engine: Engine, save: bool, p: string)
    ensures ItemArtifacts(Overlay(d, e), cfg, engine, save, p) == Overlay(d, ItemArtifacts(e, cfg, engine, save, p))
  {
    if engine.decodes(p) && engine.recognize(cfg, p).Texts? {
      var ts := engine.recognize(cfg, p).texts;
      var e1 := if save then WriteFile(e, ResultImagePath(p), Visualization(p)) else e;
      if save {
        WriteOverlay(d, e, ResultImagePath(p), Visualization(p));
      }
      CreateOverlay(d, e1, TextResultDir(p));
      WriteOverlay(d, CreateDirectory(e1, TextResultDir(p)), TextResultPath(p), Text(JoinLines(ts)));
    }
  }

  /** A run writes the same files whatever the disk held before, and only
      replaces what it writes. */
  lemma {:induction false} ArtifactsOverlay(d: Disk, cfg: PredictorConfig, engine: Engine, save: bool, ps: seq<string>)
    ensures ArtifactsAfter(d, cfg, engine, save, ps) == Overlay(d, ArtifactsAfter(EmptyDisk, cfg, engine, save, ps))
    decreases |ps|
  {
    if |ps| == 0 {
      OverlayEmpty(d);
    } else {
      var init := ps[..|ps| - 1];
      ArtifactsOverlay(d, cfg, engine, save, init);
      ItemOverlay(d, ArtifactsAfter(EmptyDisk, cfg, engine, save, init), cfg, engine, save, ps[|ps| - 1]);
    }
  }

  /** The paths the task for `p` writes, and the directory it creates. */
  function ItemFiles(cfg: PredictorConfig, engine: Engine, save: bool, p: string): set<string> {
    if engine.decodes(p) && engine.recognize(cfg, p).Texts? then
      (if save then {ResultImagePath(p)} else {}) + {TextResultPath(p)}
    else {}
  }

  function ItemDirs(cfg: PredictorConfig, engine: Engine, p: string): set<string> {
    if engine.decodes(p) && engine.recognize(cfg, p).Texts? then {TextResultDir(p)} else {}
  }

  lemma ItemKeys(e: Disk, cfg: PredictorConfig, engine: Engine, save: bool, p: string)
    ensures ItemArtifacts(e, cfg, engine, save, p).files.Keys == e.files.Keys + ItemFiles(cfg, engine, save, p)
    ensures ItemArtifacts(e, cfg, engine, save, p).dirs == e.dirs + ItemDirs(cfg, engine, p)
  {
  }

  /** The paths a run writes are those of its tasks. */
  lemma {:induction false} WrittenPaths(cfg: PredictorConfig, engine: Engine, save: bool, ps: seq<string>)
    ensures forall k :: k in ArtifactsAfter(EmptyDisk, cfg, engine, save, ps).files <==>
      exists p :: p in ps && k in ItemFiles(cfg, engine, save, p)
    ensures forall k :: k in ArtifactsAfter(EmptyDisk, cfg, engine, save, ps).dirs <==>
      exists p :: p in ps && k in ItemDirs(cfg, engine, p)
    decreases |ps|
  {
    if |ps| > 0 {
      var init, last := ps[..|ps| - 1], ps[|ps| - 1];
      WrittenPaths(cfg, engine, save, init);
      var before := ArtifactsAfter(EmptyDisk, cfg, engine, save, init);
      ItemKeys(before, cfg, engine, save, last);
      assert forall p :: p in ps <==> p in init || p == last;
    }
  }

  /** Running the batch again over the same queue, in any completion order,
      leaves the disk as one run leaves it: every artifact of the first run
      is overwritten, none is appended to. */
  lemma RerunOverwrites(d: Disk, cfg: PredictorConfig, engine: Engine, save: bool, c1: seq<string>, c2: seq<string>)
    requires multiset(c1) == multiset(c2)
    ensures ArtifactsAfter(ArtifactsAfter(d, cfg, engine, save, c1), cfg, engine, save, c2)
         == ArtifactsAfter(d, cfg, engine, save, c2)
  {
    var e1 := ArtifactsAfter(EmptyDisk, cfg, engine, save, c1);
    var e2 := ArtifactsAfter(EmptyDisk, cfg, engine, save, c2);
    ArtifactsOverlay(d, cfg, engine, save, c1);
    ArtifactsOverlay(Overlay(d, e1), cfg, engine, save, c2);
    ArtifactsOverlay(d, cfg, engine, save, c2);
    WrittenPaths(cfg, engine, save, c1);
    WrittenPaths(cfg, engine, save, c2);
    forall p | p in c1 ensures p in c2 {
      assert p in multiset(c1);
    }
    forall k | k in e1.files ensures k in e2.files {
      var p :| p in c1 && k in ItemFiles(cfg, engine, save, p);
      assert p in c2;
    }
    forall k | k in e1.dirs ensures k in e2.dirs {
      var p :| p in c1 && k in ItemDirs(cfg, engine, p);
      assert p in c2;
    }
    OverlayAbsorb(d, e1, e2);
  }

  /** A text artifact ends with `.txt`, a result image with `_result.jpg`,
      so the two never share a path. */
  lemma ArtifactPathsDiffer(p: string, q: string)
    ensures ResultImagePath(p) != TextResultPath(q)
  {
    var ni := Paths.GetFileNameWithoutExtension(p) + "_result.jpg";
    var nt := Paths.GetFileNameWithoutExtension(q) + ".txt";
    Paths.PlainConcat(Paths.GetFileNameWithoutExtension(p), "_result.jpg");
    Paths.PlainConcat(Paths.GetFileNameWithoutExtension(q), ".txt");
    Paths.CombineSplits(Paths.GetDirectoryName(p), ni);
    Paths.CombineSplits(TextResultDir(q), nt);
    assert ni[|ni| - 1] == 'g' && nt[|nt| - 1] == 't';
  }

  /** The task for `q` writes a text artifact at `k`. */
  predicate WritesText(cfg: PredictorConfig, engine: Engine, q: string, k: string) {
    engine.decodes(q) && engine.recognize(cfg, q).Texts? && TextResultPath(q) == k
  }

  function Writer(cfg: PredictorConfig, engine: Engine, k: string): string -> bool {
    q => WritesText(cfg, engine, q, k)
  }

  /** The position in `ps` of the last task that writes the text path `k`. */
  function LastWriter(cfg: PredictorConfig, engine: Engine, ps: seq<string>, k: string): Option<nat> {
    Seqs.LastIndex(ps, Writer(cfg, engine, k))
  }

  /** `LastWriter` picks a task that writes `k` with no later task writing
      it, and picks none exactly when no task writes `k`. */
  lemma LastWriterIsLast(cfg: PredictorConfig, engine: Engine, ps: seq<string>, k: string)
    ensures var r := LastWriter(cfg, engine, ps, k);
      && (r.Some? ==> r.value < |ps| && WritesText(cfg, engine, ps[r.value], k))
      && (r.Some? ==> forall i :: r.value < i < |ps| ==> !WritesText(cfg, engine, ps[i], k))
      && (r.None? <==> forall i :: 0 <= i < |ps| ==> !WritesText(cfg, engine, ps[i], k))
  {
    Seqs.LastIndexIsLast(ps, Writer(cfg, engine, k));
  }

  function Stepper(cfg: PredictorConfig, engine: Engine, save: bool): (Disk, string) -> Disk {
    (e, q) => ItemArtifacts(e, cfg, engine, save, q)
  }

  /** The text file the task for `q` writes when its recognition succeeds. */
  function TextContent(cfg: PredictorConfig, engine: Engine): string -> Content {
    q => Text(JoinLines(if engine.recognize(cfg, q).Texts? then engine.recognize(cfg, q).texts else []))
  }

  lemma {:induction false} ArtifactsAfterIsFold(d: Disk, cfg: PredictorConfig, engine: Engine, save: bool, ps: seq<string>)
    ensures ArtifactsAfter(d, cfg, engine, save, ps) == Fold(d, ps, Stepper(cfg, engine, save))
    decreases |ps|
  {
    if |ps| > 0 {
      ArtifactsAfterIsFold(d, cfg, engine, save, ps[..|ps| - 1]);
    }
  }

  /** Every image whose recognition succeeded has its text artifact, and
      the artifact holds the texts, one line each in result order, of the
      last task to complete that writes that text path. */
  lemma {:induction false} TextArtifactWritten(d: Disk, cfg: PredictorConfig, engine: Engine, save: bool, ps: seq<string>, p: string)
    requires p in ps && engine.decodes(p) && engine.recognize(cfg, p).Texts?
    ensures var files := ArtifactsAfter(d, cfg, engine, save, ps).files;
      var k := TextResultPath(p);
      var j := LastWriter(cfg, engine, ps, k);
      && j.Some?
      && k in files
      && files[k] == Text(JoinLines(engine.recognize(cfg, ps[j.value]).texts))
  {
    var k := TextResultPath(p);
    var step := Stepper(cfg, engine, save);
    forall e: Disk, x: string | Writer(cfg, engine, k)(x)
      ensures k in step(e, x).files && step(e, x).files[k] == TextContent(cfg, engine)(x)
    {
      StepText(e, cfg, engine, save, x, p);
    }
    forall e: Disk, x: string | !Writer(cfg, engine, k)(x) && k in e.files
      ensures k in step(e, x).files && step(e, x).files[k] == e.files[k]
    {
      StepText(e, cfg, engine, save, x, p);
    }
    LastWriterIsLast(cfg, engine, ps, k);
    var i :| 0 <= i < |ps| && ps[i] == p;
    assert WritesText(cfg, engine, ps[i], k);
    ArtifactsAfterIsFold(d, cfg, engine, save, ps);
    LastWriteWins(d, ps, step, Writer(cfg, engine, k), TextContent(cfg, engine), k);
  }

  /** The task for `last` either writes the text path of `p`, or leaves
      that file as it was. */
  lemma StepText(before: Disk, cfg: PredictorConfig, engine: Engine, save: bool, last: string, p: string)
    ensures var after := ItemArtifacts(before, cfg, engine, save, last);
      var k := TextResultPath(p);
      && (WritesText(cfg, engine, last, k) ==>
            k in after.files && after.files[k] == Text(JoinLines(engine.recognize(cfg, last).texts)))
      && (!WritesText(cfg, engine, last, k) && k in before.files ==>
            k in after.files && after.files[k] == before.files[k])
  {
    var k := TextResultPath(p);
    if WritesText(cfg, engine, last, k) {
      ItemWritesText(before, cfg, engine, save, last);
    } else if k in before.files {
      ArtifactPathsDiffer(last, p);
      ItemPreserves(before, cfg, engine, save, last, k);
    }
  }

  lemma ItemWritesText(d: Disk, cfg: PredictorConfig, engine: Engine, save: bool, q: string)
    requires engine.decodes(q) && engine.recognize(cfg, q).Texts?
    ensures TextResultPath(q) in ItemArtifacts(d, cfg, engine, save, q).files
    ensures ItemArtifacts(d, cfg, engine, save, q).files[TextResultPath(q)] == Text(JoinLines(engine.recognize(cfg, q).texts))
  {
  }

  /** A task leaves alone every file it does not write. */
  lemma ItemPreserves(d: Disk, cfg: PredictorConfig, engine: Engine, save: bool, q: string, k: string)
    requires k in d.files
    requires engine.decodes(q) && engine.recognize(cfg, q).Texts? ==> k != TextResultPath(q) && k != ResultImagePath(q)
    ensures k in ItemArtifacts(d, cfg, engine, save, q).files
    ensures ItemArtifacts(d, cfg, engine, save, q).files[k] == d.files[k]
  {
    if engine.decodes(q) && engine.recognize(cfg, q).Texts? {
      var rp, tp := ResultImagePath(q), TextResultPath(q);
      assert k != rp && k != tp;
      var d1 := if save then WriteFile(d, rp, Visualization(q)) else d;
      if save {
        WriteElsewhere(d, rp, Visualization(q), k);
      }
      var d2 := CreateDirectory(d1, TextResultDir(q));
      WriteElsewhere(d2, tp, Text(JoinLines(engine.recognize(cfg, q).texts)), k);
      assert ItemArtifacts(d, cfg, engine, save, q) == WriteFile(d2, tp, Text(JoinLines(engine.recognize(cfg, q).texts)));
    }
  }
}
