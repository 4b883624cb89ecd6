/** The upscale pipeline: its model cache, the rewrite of a generation request,
    the keyword-file lookup for a LoRA, and the sequence of progress events and
    the result of one `process` call, with the image and model work replaced by
    given outcomes. */
module UpscalePipeline {
  import opened Wrappers
  import opened Text

  // ---------------------------------------------------------------------------
  // The model cache
  // ---------------------------------------------------------------------------

  /** A `pipeline` object; the class attribute `model_hash` starts out empty. */
  class Pipeline {
    var modelHash: string

    constructor()
      ensures modelHash == ""
    {
      modelHash := "";
    }

    /** `load_base_model(name)`: `loaded` tells whether the model counted as
        newly loaded (the branch that prints `Loading model`). A second call with
        the same name finds it loaded and changes nothing. */
    method LoadBaseModel(name: string) returns (loaded: bool)
      modifies this
      ensures modelHash == name
      ensures loaded <==> old(modelHash) != name
    {
      if modelHash == name {
        return false;
      }
      modelHash := name;
      return true;
    }
  }

  // ---------------------------------------------------------------------------
  // parse_gen_data
  // ---------------------------------------------------------------------------

  /** A value of a generation request. */
  datatype Value = Int(i: int) | Bool(b: bool) | Str(s: string) | Handle(id: nat) | NoValue

  /** The `gen_data` dictionary, which `parse_gen_data` changes in place. */
  class GenData {
    var entries: map<string, Value>

    constructor(entries: map<string, Value>)
      ensures this.entries == entries
    {
      this.entries := entries;
    }
  }

  /** The request as `parse_gen_data` leaves it (when it has an `image_number`). */
  function Rewritten(entries: map<string, Value>): map<string, Value>
    requires "image_number" in entries
  {
    entries["original_image_number" := entries["image_number"]]["image_number" := Int(1)]["show_preview" := Bool(false)]
  }

  /** The rewrite asks for one image without previews, remembers how many were
      asked for, and keeps every other entry. */
  lemma RewrittenEntries(entries: map<string, Value>)
    requires "image_number" in entries
    ensures var r := Rewritten(entries);
      r.Keys == entries.Keys + {"original_image_number", "show_preview"}
      && r["original_image_number"] == entries["image_number"]
      && r["image_number"] == Int(1)
      && r["show_preview"] == Bool(false)
      && forall k :: k in entries && k !in {"original_image_number", "image_number", "show_preview"} ==> r[k] == entries[k]
  {
  }

  /** `parse_gen_data(gen_data)`: the same object, rewritten in place, or `None`
      for the `KeyError` raised, before any change, when `image_number` is
      missing. */
  method ParseGenData(genData: GenData) returns (r: Option<GenData>)
    modifies genData
    ensures "image_number" !in old(genData.entries) ==> r.None? && genData.entries == old(genData.entries)
    ensures "image_number" in old(genData.entries) ==>
      r == Some(genData) && genData.entries == Rewritten(old(genData.entries))
  {
    if "image_number" !in genData.entries {
      return None;
    }
    genData.entries := genData.entries["original_image_number" := genData.entries["image_number"]];
    genData.entries := genData.entries["image_number" := Int(1)];
    genData.entries := genData.entries["show_preview" := Bool(false)];
    return Some(genData);
  }

  // ---------------------------------------------------------------------------
  // load_keywords
  // ---------------------------------------------------------------------------

  const Safetensors := ".safetensors"
  const TextSuffix := ".txt"

  /** The file `load_keywords` opens: the LoRA's name with every `.safetensors`
      replaced by `.txt`. */
  function KeywordFile(lora: string): string {
    Replace(lora, Safetensors, TextSuffix)
  }

  /** `load_keywords(lora)`: the contents of the keyword file, or `" "` when it
      does not exist. `files` maps each existing file to its contents. */
  function LoadKeywords(lora: string, files: map<string, string>): (r: string)
    ensures KeywordFile(lora) in files ==> r == files[KeywordFile(lora)]
    ensures KeywordFile(lora) !in files ==> r == " "
  {
    if KeywordFile(lora) in files then files[KeywordFile(lora)] else " "
  }

  /** The usual LoRA file `<stem>.safetensors` has its keywords in `<stem>.txt`. */
  lemma KeywordFileOfLora(stem: string)
    requires forall i: nat :: !OccursAt(stem, Safetensors, i)
    ensures KeywordFile(stem + Safetensors) == stem + TextSuffix
  {
    assert HeadUnique(Safetensors) by {
      assert forall d :: 0 < d < |Safetensors| ==> Safetensors[d] != '.';
    }
    ReplaceTrailing(stem, Safetensors, TextSuffix);
    ReplaceAbsent(stem, Safetensors, TextSuffix);
  }

  /** A name without `.safetensors` in it is looked up as it is. */
  lemma KeywordFileOfOtherName(lora: string)
    requires forall i: nat :: !OccursAt(lora, Safetensors, i)
    ensures KeywordFile(lora) == lora
  {
    ReplaceAbsent(lora, Safetensors, TextSuffix);
  }

  // ---------------------------------------------------------------------------
  // Finding the upscaler
  // ---------------------------------------------------------------------------

  const DefaultUpscaler := "4x-UltraSharp.pth"

  /** The upscaler `process` uses: `path_manager.get_file_path` of the configured
      name, or of `4x-UltraSharp.pth` when that finds nothing. `resolver` maps
      the names `get_file_path` finds to their paths. */
  function UpscalerPath(name: string, resolver: map<string, string>): (r: Option<string>)
    ensures name in resolver ==> r == Some(resolver[name])
    ensures name !in resolver ==> r == (if DefaultUpscaler in resolver then Some(resolver[DefaultUpscaler]) else None)
  {
    if name in resolver then Some(resolver[name])
    else if DefaultUpscaler in resolver then Some(resolver[DefaultUpscaler])
    else None
  }

  /** The file `load_upscaler_model` reads: `get_file_path(path)`, defaulting to
      `path` inside the upscaler directory. `None` for a path that is `None`,
      where `os.path.join` raises `TypeError`. */
  function UpscalerFile(path: Option<string>, resolver: map<string, string>, upscalerDir: string): (r: Option<string>)
    ensures path.None? <==> r.None?
    ensures path.Some? && path.value !in resolver ==> r == Some(JoinPath(upscalerDir, path.value))
    ensures path.Some? && path.value in resolver ==> r == Some(resolver[path.value])
  {
    match path
    case None => None
    case Some(p) => Some(if p in resolver then resolver[p] else JoinPath(upscalerDir, p))
  }

  /** When neither the configured upscaler nor the default one is known, the
      model cannot even be looked for. */
  lemma NoUpscalerFound(name: string, resolver: map<string, string>, upscalerDir: string)
    requires name !in resolver && DefaultUpscaler !in resolver
    ensures UpscalerFile(UpscalerPath(name, resolver), resolver, upscalerDir).None?
  {
  }

  // ---------------------------------------------------------------------------
  // process
  // ---------------------------------------------------------------------------

  /** The third field of a progress event: percentage, message and optional image. */
  datatype Payload = Payload(percent: int, message: string, image: Option<string>)

  /** One call of `worker.add_result(task_id, channel, payload)`. */
  datatype Event = Event(taskId: Value, channel: string, payload: Payload)

  /** The worker's result queue, as far as one task's events go. */
  class ResultSink {
    var events: seq<Event>

    constructor()
      ensures events == []
    {
      events := [];
    }

    /** `worker.add_result`. */
    method AddResult(taskId: Value, channel: string, payload: Payload)
      modifies this
      ensures events == old(events) + [Event(taskId, channel, payload)]
    {
      events := events + [Event(taskId, channel, payload)];
    }
  }

  /** One image of the upscaler's output, and its conversion to 8-bit pixels. */
  datatype Frame = Frame(id: nat)
  datatype Picture = Picture(frame: Frame)

  /** The outcomes of the foreign steps of one `process` call. `decodes`: the
      input image converts to a tensor. `upscalerName`: `get_settings(...)["upscaler"]`,
      `None` where that raises. `firstLoad`, `secondLoad`: whether reading the
      model file succeeds on each call. `firstUpscale`, `secondUpscale`: the
      upscaled frames of each call, `None` where it raises. */
  datatype Externals = Externals(
    decodes: bool,
    upscalerName: Option<string>,
    resolver: map<string, string>,
    upscalerDir: string,
    firstLoad: bool,
    firstUpscale: Option<seq<Frame>>,
    secondLoad: bool,
    secondUpscale: Option<seq<Frame>>)

  /** How a `process` call ends: by raising, or by returning images. */
  datatype Outcome = Raised | Returned(images: seq<Picture>)

  /** The events one `process` call appends, and how it ends. */
  datatype Trace = Trace(events: seq<Event>, outcome: Outcome)

  const Preview := "preview"
  const ErrorImage := "html/error.png"

  /** A progress message on the preview channel. */
  function Progress(taskId: Value, message: string): Event {
    Event(taskId, Preview, Payload(-1, message, None))
  }

  /** The failure message of the guarded part. */
  function Oops(taskId: Value): Event {
    Event(taskId, Preview, Payload(-1, "Oops ...", Some(ErrorImage)))
  }

  /** The conversion of the upscaled frames, one picture per frame. */
  function Convert(frames: seq<Frame>): (pictures: seq<Picture>)
    ensures |pictures| == |frames|
    ensures forall i :: 0 <= i < |frames| ==> pictures[i] == Picture(frames[i])
  {
    if frames == [] then [] else [Picture(frames[0])] + Convert(frames[1..])
  }

  /** Whether loading the upscaler model from `path` succeeds (`load_upscaler_model`). */
  predicate LoadsModel(path: Option<string>, ext: Externals, fileRead: bool) {
    UpscalerFile(path, ext.resolver, ext.upscalerDir).Some? && fileRead
  }

  /** The events a part of `process` appends, and whether it raises. */
  datatype Partial = Partial(events: seq<Event>, raises: bool)

  /** The first, unguarded load and upscale: the message sent before the
      upscale, if it is reached, and whether either step raises. */
  function FirstPass(taskId: Value, path: Option<string>, ext: Externals): Partial {
    if !LoadsModel(path, ext, ext.firstLoad) then Partial([], true)
    else Partial([Progress(taskId, "Upscaling image ...")], ext.firstUpscale.None?)
  }

  /** The part inside `try`: the events it appends and the images it returns,
      with the failure message and no images when any step raises. */
  function GuardedPass(taskId: Value, path: Option<string>, ext: Externals): Trace {
    if !LoadsModel(path, ext, ext.secondLoad) then
      Trace([Oops(taskId)], Returned([]))
    else if ext.secondUpscale.None? then
      Trace([Progress(taskId, "Upscaling image ..."), Oops(taskId)], Returned([]))
    else
      Trace([Progress(taskId, "Upscaling image ..."), Progress(taskId, "Converting ..."), Progress(taskId, "Done ...")],
            Returned(Convert(ext.secondUpscale.value)))
  }

  /** The events and the outcome of `process(gen_data)`. */
  function Run(genData: map<string, Value>, ext: Externals): Trace {
    if "input_image" !in genData || !ext.decodes || "task_id" !in genData then Trace([], Raised)
    else
      var taskId := genData["task_id"];
      var start := [Progress(taskId, "Load upscaling model ...")];
      if ext.upscalerName.None? then Trace(start, Raised)
      else
        var path := UpscalerPath(ext.upscalerName.value, ext.resolver);
        var first := FirstPass(taskId, path, ext);
        if first.raises then Trace(start + first.events, Raised)
        else
          var guarded := GuardedPass(taskId, path, ext);
          Trace(start + first.events + guarded.events, guarded.outcome)
  }

  /** `process(gen_data)`: appends its progress events to `worker` and returns
      the upscaled images, or `Raised`. */
  method Process(genData: map<string, Value>, ext: Externals, worker: ResultSink) returns (outcome: Outcome)
    modifies worker
    ensures worker.events == old(worker.events) + Run(genData, ext).events
    ensures outcome == Run(genData, ext).outcome
  {
    if "input_image" !in genData || !ext.decodes {
      return Raised;
    }
    if "task_id" !in genData {
      return Raised;
    }
    var taskId := genData["task_id"];
    worker.AddResult(taskId, Preview, Payload(-1, "Load upscaling model ...", None));
    if ext.upscalerName.None? {
      return Raised;
    }
    var upscalePath := UpscalerPath(ext.upscalerName.value, ext.resolver);
    var modelFile := UpscalerFile(upscalePath, ext.resolver, ext.upscalerDir);
    if modelFile.None? || !ext.firstLoad {
      return Raised;
    }
    worker.AddResult(taskId, Preview, Payload(-1, "Upscaling image ...", None));
    if ext.firstUpscale.None? {
      return Raised;
    }
    outcome := GuardedSteps(taskId, upscalePath, ext, worker);
  }

  /** The `try` block of `process` and its `except` handler. */
  method GuardedSteps(taskId: Value, upscalePath: Option<string>, ext: Externals, worker: ResultSink)
    returns (outcome: Outcome)
    modifies worker
    ensures worker.events == old(worker.events) + GuardedPass(taskId, upscalePath, ext).events
    ensures outcome == GuardedPass(taskId, upscalePath, ext).outcome
  {
    var modelFile := UpscalerFile(upscalePath, ext.resolver, ext.upscalerDir);
    if modelFile.None? || !ext.secondLoad {
      worker.AddResult(taskId, Preview, Payload(-1, "Oops ...", Some(ErrorImage)));
      return Returned([]);
    }
    worker.AddResult(taskId, Preview, Payload(-1, "Upscaling image ...", None));
    if ext.secondUpscale.None? {
      worker.AddResult(taskId, Preview, Payload(-1, "Oops ...", Some(ErrorImage)));
      return Returned([]);
    }
    var decodedLatent := ext.secondUpscale.value;
    worker.AddResult(taskId, Preview, Payload(-1, "Converting ...", None));
    var images := Convert(decodedLatent);
    worker.AddResult(taskId, Preview, Payload(-1, "Done ...", None));
    return Returned(images);
  }

  // ---------------------------------------------------------------------------
  // What process promises
  // ---------------------------------------------------------------------------

  /** When every step succeeds: the five progress messages in order, and one
      picture per upscaled frame of the second pass. */
  lemma ProcessSucceeds(genData: map<string, Value>, ext: Externals)
    requires "input_image" in genData && "task_id" in genData && ext.decodes && ext.upscalerName.Some?
    requires UpscalerFile(UpscalerPath(ext.upscalerName.value, ext.resolver), ext.resolver, ext.upscalerDir).Some?
    requires ext.firstLoad && ext.firstUpscale.Some? && ext.secondLoad && ext.secondUpscale.Some?
    ensures var t := genData["task_id"];
      Run(genData, ext).events ==
        [Progress(t, "Load upscaling model ..."), Progress(t, "Upscaling image ..."), Progress(t, "Upscaling image ..."),
         Progress(t, "Converting ..."), Progress(t, "Done ...")]
    ensures Run(genData, ext).outcome.Returned?
    ensures var images := Run(genData, ext).outcome.images;
      |images| == |ext.secondUpscale.value|
      && forall i :: 0 <= i < |images| ==> images[i] == Picture(ext.secondUpscale.value[i])
  {
  }

  /** A failure in the guarded part ends with the failure message, after the
      messages already sent, and no images. */
  lemma GuardedFailureReported(genData: map<string, Value>, ext: Externals)
    requires "input_image" in genData && "task_id" in genData && ext.decodes && ext.upscalerName.Some?
    requires UpscalerFile(UpscalerPath(ext.upscalerName.value, ext.resolver), ext.resolver, ext.upscalerDir).Some?
    requires ext.firstLoad && ext.firstUpscale.Some?
    requires !ext.secondLoad || ext.secondUpscale.None?
    ensures var t := genData["task_id"];
      var before := [Progress(t, "Load upscaling model ..."), Progress(t, "Upscaling image ...")];
      Run(genData, ext).events == before + (if ext.secondLoad then [Progress(t, "Upscaling image ...")] else []) + [Oops(t)]
    ensures Run(genData, ext).outcome == Returned([])
  {
  }

  /** A failure before the `try` reaches the caller: `process` raises, after at
      most the first two messages. */
  lemma UnguardedFailureRaises(genData: map<string, Value>, ext: Externals)
    requires !ext.firstLoad || ext.firstUpscale.None?
    ensures Run(genData, ext).outcome == Raised
    ensures |Run(genData, ext).events| <= 2
  {
  }

  /** `process` raises exactly when a step before the `try` fails, and otherwise
      returns images; a failed `process` has returned no images. */
  lemma RaisesOnlyBeforeTry(genData: map<string, Value>, ext: Externals)
    ensures Run(genData, ext).outcome == Raised <==>
      !("input_image" in genData && ext.decodes && "task_id" in genData && ext.upscalerName.Some?
        && LoadsModel(UpscalerPath(ext.upscalerName.value, ext.resolver), ext, ext.firstLoad) && ext.firstUpscale.Some?)
  {
  }

  /** Every event goes to the preview channel, for the request's task, at
      percentage -1; only the failure message carries an image. */
  lemma EventsArePreviews(genData: map<string, Value>, ext: Externals)
    ensures forall e :: e in Run(genData, ext).events ==>
      "task_id" in genData && e.taskId == genData["task_id"] && e.channel == Preview && e.payload.percent == -1
      && (e.payload.image.Some? <==> e == Oops(genData["task_id"]))
  {
  }

  /** The frames of the first, unguarded upscale never reach the result. */
  lemma FirstUpscaleDiscarded(genData: map<string, Value>, ext: Externals, frames: seq<Frame>)
    requires ext.firstUpscale.Some?
    ensures Run(genData, ext.(firstUpscale := Some(frames))) == Run(genData, ext)
  {
  }
}
