/** `extract_text_from_image` in main.py: classify the input, download or
    validate it, fill in the default model, dispatch to a provider, report
    any failure with exit code 1, and in every case clean up a downloaded
    file. Everything outside the program is an oracle in `World`. */
module Pipeline {
  import opened Wrappers
  import opened Text
  import opened PosixPath
  import opened ImageSource
  import opened Providers

  /** How `process_huggingface_model` ends: normally, with an `ImportError`
      (re-raised with a prefix), or with any other exception. */
  datatype HfOutcome = HfDone | HfImportError(message: string) | HfFailure(message: string)

  /** The answers of the outside world to everything the command asks. */
  datatype World = World(
    fetch: FetchEnv,               // network, `mkstemp` and the write
    fileExists: bool,              // `Path(image_path).exists()` for a local file
    confirm: bool,                 // the answer to "Continue anyway?"
    hf: HfOutcome,                 // the Hugging Face run
    clientFailure: Option<string>, // an exception from constructing the chat client
    agentFailure: Option<string>,  // an exception from the tool-calling agent run
    tempStillExists: bool,         // `path.exists()` at cleanup time
    unlinkSucceeds: bool)          // whether `path.unlink()` at cleanup succeeds

  /** What the command did, in order. */
  datatype Step =
    | TempCreated(path: string)
    | TempDiscarded(path: string)
    | Validated(verdict: Validation)
    | ModelChosen(model: string)
    | HuggingFaceRun(imagePath: string, prompt: string, model: string)
    | ToolsRequested(model: string)
    | AgentRun(backend: Backend, imagePath: string, prompt: string)
    | Reported(errorText: string, hint: Hint)
    | CleanedUp(path: string, removed: bool)

  /** The model a run uses: the one given, or the provider's default. */
  function ChosenModel(provider: string, model: Option<string>): string
    requires model.Some? || GetDefaultModel(provider).Ok?
  {
    if model.Some? then model.value else GetDefaultModel(provider).value
  }

  /** The exception the input stage raises, if any: the download's, or the
      exit of `validate_image_file` (text "1"). */
  function AcquireFailure(imageInput: string, isUrl: bool, w: World): Option<string>
  {
    if isUrl then
      match DownloadOutcome(imageInput, w.fetch)
      case Ok(_) => None
      case Err(e) => Some(e)
    else if ValidateImageFile(imageInput, w.fileExists, w.confirm).Accepted? then None
    else Some(ExitText)
  }

  /** The exception the model stage raises, if any: the exit of
      `get_default_model`, the prefixed `ImportError` or other exception of
      the Hugging Face run, the `ValueError` of `get_llm_with_tools`, or an
      exception from the client or the agent. */
  function RunFailure(provider: string, model: Option<string>, w: World): Option<string>
  {
    if model.None? && GetDefaultModel(provider).Err? then Some(ExitText)
    else if Lower(provider) == "huggingface" then
      match w.hf
      case HfDone => None
      case HfImportError(message) => Some("Hugging Face dependencies missing: " + message)
      case HfFailure(message) => Some(message)
    else
      match GetLlmWithTools(provider, ChosenModel(provider, model))
      case Err(e) => Some(e)
      case Ok(_) => if w.clientFailure.Some? then w.clientFailure else w.agentFailure
  }

  /** The exception that reaches the `except` clause, if any. */
  function CommandFailure(imageInput: string, isUrl: bool, provider: string, model: Option<string>, w: World): Option<string>
  {
    if AcquireFailure(imageInput, isUrl, w).Some? then AcquireFailure(imageInput, isUrl, w)
    else RunFailure(provider, model, w)
  }

  /** The input stage succeeds exactly for a complete download, or for an
      existing local file with a valid extension or the user's consent. */
  lemma AcquireSucceedsIff(imageInput: string, isUrl: bool, w: World)
    ensures AcquireFailure(imageInput, isUrl, w).None? <==>
      if isUrl then
        w.fetch.reply.Response? && GetImageExtension(imageInput, w.fetch.reply.contentType).Ok? &&
        w.fetch.mkstempFailure.None? && w.fetch.writeFailure.None?
      else
        w.fileExists && (HasImageExtension(imageInput) || w.confirm)
  {
  }

  /** The model stage succeeds exactly when Hugging Face runs to the end, or
      OpenAI or Ollama is chosen and neither the client nor the agent raises;
      any other provider name fails, whether or not a model is given. */
  lemma RunSucceedsIff(provider: string, model: Option<string>, w: World)
    ensures RunFailure(provider, model, w).None? <==>
      (Lower(provider) == "huggingface" && w.hf.HfDone?) ||
      ((Lower(provider) == "openai" || Lower(provider) == "ollama") && w.clientFailure.None? && w.agentFailure.None?)
  {
    if model.Some? && Lower(provider) !in ProviderNames {
      assert GetLlmWithTools(provider, model.value).Err?;
    }
  }

  /** A local file that does not exist always ends the command with the text
      of `typer.Exit(1)`, whatever the provider. */
  lemma MissingFileFails(imageInput: string, provider: string, model: Option<string>, w: World)
    requires !w.fileExists
    ensures CommandFailure(imageInput, false, provider, model, w) == Some(ExitText)
  {
  }

  /** Steps that only the input stage takes. */
  predicate IsInputStep(s: Step)
  {
    s.TempCreated? || s.TempDiscarded? || s.Validated?
  }

  /** A model was run on the image. */
  predicate IsRunStep(s: Step)
  {
    s.HuggingFaceRun? || s.AgentRun?
  }

  predicate IsRunModelStep(s: Step)
  {
    s.ModelChosen? || s.ToolsRequested? || IsRunStep(s)
  }

  /** The `try` block, the error report and the cleanup take different
      kinds of steps, so in the whole trace a step of a kind lies in the part
      that takes it. */
  lemma {:induction false} KindsOfTrace(attempt: seq<Step>, report: seq<Step>, cleanup: seq<Step>)
    requires forall s :: s in attempt ==> IsInputStep(s) || IsRunModelStep(s)
    requires forall s :: s in report ==> s.Reported?
    requires forall s :: s in cleanup ==> s.CleanedUp?
    ensures forall s :: s in attempt + report + cleanup ==>
      (IsInputStep(s) || IsRunModelStep(s) ==> s in attempt) && (s.Reported? ==> s in report) && (s.CleanedUp? ==> s in cleanup)
  {
    forall s | s in attempt + report + cleanup
      ensures (IsInputStep(s) || IsRunModelStep(s) ==> s in attempt) && (s.Reported? ==> s in report) && (s.CleanedUp? ==> s in cleanup)
    {
      assert s in attempt || s in report || s in cleanup;
    }
  }

  /** Every temporary file created is either discarded again or handed to
      cleanup in the very last step. */
  predicate TempFilesHandled(trace: seq<Step>, removed: bool)
  {
    forall s :: s in trace && s.TempCreated? ==>
      TempDiscarded(s.path) in trace || trace[|trace| - 1] == CleanedUp(s.path, removed)
  }

  /** The first half of the `try` block: a URL is downloaded, anything else
      is validated as a local file. `isUrl` is `is_url(image_input)`, which
      the caller evaluates once. `tempFilePath` is "" unless a file was
      downloaded and kept. */
  method AcquireImage(imageInput: string, isUrl: bool, w: World)
    returns (imagePath: string, tempFilePath: string, failure: Option<string>, steps: seq<Step>)
    requires "/" <= w.fetch.tempDir
    ensures forall s :: s in steps ==> IsInputStep(s)
    ensures tempFilePath != "" ==>
      failure.None? && imagePath == tempFilePath && steps == [TempCreated(tempFilePath)] &&
      IsAncestor(w.fetch.tempDir, tempFilePath)
    ensures tempFilePath == "" ==> forall s :: s in steps && s.TempCreated? ==> TempDiscarded(s.path) in steps
    ensures failure.Some? ==> tempFilePath == ""
    ensures failure.None? && tempFilePath == "" ==>
      |steps| == 1 && steps[0].Validated? && steps[0].verdict.Accepted? && imagePath == imageInput
    // a URL is downloaded and never validated; a download that fails leaves no file behind
    ensures isUrl ==> forall s :: s in steps ==> !s.Validated?
    ensures isUrl && failure.None? ==> tempFilePath != ""
    // anything else is validated, and only an accepted file goes on
    ensures !isUrl ==>
      var verdict := ValidateImageFile(imageInput, w.fileExists, w.confirm);
      steps == [Validated(verdict)] && tempFilePath == "" && imagePath == imageInput &&
      (failure.None? <==> verdict.Accepted?) && (failure.Some? ==> failure == Some(ExitText))
    // the outcome is the download's, or the verdict's
    ensures failure == AcquireFailure(imageInput, isUrl, w)
    ensures isUrl ==> tempFilePath == match DownloadOutcome(imageInput, w.fetch) case Ok(p) => p case Err(_) => ""
  {
    failure := None;
    tempFilePath := "";
    if isUrl {
      var downloaded, events := DownloadImageFromUrl(imageInput, w.fetch);
      if downloaded.Ok? {
        tempFilePath := downloaded.value;
        imagePath := downloaded.value;
        steps := [TempCreated(tempFilePath)];
        TempFileInTempDir(w.fetch.tempDir, w.fetch.randomName, GetImageExtension(imageInput, w.fetch.reply.contentType).value);
      } else {
        imagePath := "";
        failure := Some(downloaded.error);
        steps := if events == [] then [] else [TempCreated(events[0].path), TempDiscarded(events[0].path)];
      }
    } else {
      imagePath := imageInput;
      var verdict := ValidateImageFile(imagePath, w.fileExists, w.confirm);
      steps := [Validated(verdict)];
      if !verdict.Accepted? {
        failure := Some(ExitText);
      }
    }
  }

  /** The second half of the `try` block: fill in the default model when
      none is given, then run Hugging Face directly or ask for a
      tool-calling backend and run the agent. */
  method RunModel(imagePath: string, prompt: string, provider: string, model: Option<string>, w: World)
    returns (failure: Option<string>, steps: seq<Step>)
    ensures forall s :: s in steps ==> IsRunModelStep(s)
    ensures forall s :: s in steps && s.ModelChosen? ==>
      (model.Some? || GetDefaultModel(provider).Ok?) && s.model == ChosenModel(provider, model)
    ensures forall s :: s in steps && s.HuggingFaceRun? ==> Lower(provider) == "huggingface"
    ensures forall s :: s in steps && s.ToolsRequested? ==> Lower(provider) != "huggingface"
    ensures forall s :: s in steps && IsRunStep(s) ==> s.prompt == prompt && s.imagePath == imagePath
    ensures failure.None? ==> exists s :: s in steps && IsRunStep(s)
    ensures failure == RunFailure(provider, model, w)
    ensures model.None? && GetDefaultModel(provider).Err? ==> failure == Some(ExitText) && steps == []
    ensures model.Some? || GetDefaultModel(provider).Ok? ==>
      var chosen := ChosenModel(provider, model);
      |steps| >= 2 && steps[0] == ModelChosen(chosen) &&
      (Lower(provider) == "huggingface" ==>
        steps == [ModelChosen(chosen), HuggingFaceRun(imagePath, prompt, chosen)] &&
        (failure.None? <==> w.hf.HfDone?)) &&
      (Lower(provider) != "huggingface" ==>
        steps[1] == ToolsRequested(chosen) &&
        match GetLlmWithTools(provider, chosen)
        case Err(e) => failure == Some(e) && |steps| == 2
        case Ok(backend) =>
          if w.clientFailure.Some? then failure == w.clientFailure && |steps| == 2
          else steps == [ModelChosen(chosen), ToolsRequested(chosen), AgentRun(backend, imagePath, prompt)] &&
               failure == w.agentFailure)
  {
    steps := [];
    failure := None;
    var chosen := "";
    if model.None? {
      var fallback := GetDefaultModel(provider);
      if fallback.Err? {
        failure := Some(fallback.error);
        return;
      }
      chosen := fallback.value;
    } else {
      chosen := model.value;
    }
    steps := [ModelChosen(chosen)];
    if Lower(provider) == "huggingface" {
      steps := steps + [HuggingFaceRun(imagePath, prompt, chosen)];
      match w.hf {
        case HfDone =>
        case HfImportError(message) => failure := Some("Hugging Face dependencies missing: " + message);
        case HfFailure(message) => failure := Some(message);
      }
    } else {
      steps := steps + [ToolsRequested(chosen)];
      var backend := GetLlmWithTools(provider, chosen);
      if backend.Err? {
        failure := Some(backend.error);
      } else if w.clientFailure.Some? {
        failure := w.clientFailure;
      } else {
        steps := steps + [AgentRun(backend.value, imagePath, prompt)];
        failure := w.agentFailure;
      }
    }
    if failure.None? {
      assert IsRunStep(steps[|steps| - 1]);
    }
  }

  /** The `try` block of `extract_text_from_image`: acquire the image, then
      run the model on it. A failure of either stage is returned as the text
      of the exception. */
  method TryBlock(imageInput: string, isUrl: bool, prompt: string, provider: string, model: Option<string>, w: World)
    returns (tempFilePath: string, failure: Option<string>, steps: seq<Step>)
    requires "/" <= w.fetch.tempDir
    ensures forall s :: s in steps ==> IsInputStep(s) || IsRunModelStep(s)
    ensures failure.None? ==> exists s :: s in steps && IsRunStep(s)
    ensures tempFilePath != "" ==> |steps| > 0 && steps[0] == TempCreated(tempFilePath) && IsAncestor(w.fetch.tempDir, tempFilePath)
    ensures forall s :: s in steps && s.TempCreated? ==> s.path == tempFilePath != "" || TempDiscarded(s.path) in steps
    // routing: URLs are downloaded and never validated, local paths are validated and never downloaded
    ensures isUrl ==> forall s :: s in steps ==> !s.Validated?
    ensures !isUrl ==>
      tempFilePath == "" && |steps| > 0 && steps[0].Validated? && forall s :: s in steps ==> !s.TempCreated?
    // a model only ever runs on a validated local file or on the downloaded copy, with the user's prompt
    ensures forall s :: s in steps && IsRunStep(s) ==> s.prompt == prompt
    ensures isUrl ==> forall s :: s in steps && IsRunStep(s) ==> s.imagePath == tempFilePath != ""
    ensures !isUrl ==> forall s :: s in steps && IsRunStep(s) ==>
      s.imagePath == imageInput && steps[0].verdict.Accepted?
    // the verdict is the one on the world's file, and a rejected file stops the block
    ensures !isUrl ==> steps[0] == Validated(ValidateImageFile(imageInput, w.fileExists, w.confirm))
    ensures !isUrl && !ValidateImageFile(imageInput, w.fileExists, w.confirm).Accepted? ==>
      failure == Some(ExitText) && |steps| == 1
    ensures failure == CommandFailure(imageInput, isUrl, provider, model, w)
    // a completed download is the file handed on to cleanup; a failed one leaves none
    ensures isUrl ==> tempFilePath == match DownloadOutcome(imageInput, w.fetch) case Ok(p) => p case Err(_) => ""
    // Hugging Face runs directly, every other provider asks for a tool-calling backend
    ensures forall s :: s in steps && s.HuggingFaceRun? ==> Lower(provider) == "huggingface"
    ensures forall s :: s in steps && s.ToolsRequested? ==> Lower(provider) != "huggingface"
  {
    var imagePath, acquired, inputSteps;
    imagePath, tempFilePath, acquired, inputSteps := AcquireImage(imageInput, isUrl, w);
    failure := acquired;
    var runSteps: seq<Step> := [];
    if failure.None? {
      failure, runSteps := RunModel(imagePath, prompt, provider, model, w);
    }
    steps := inputSteps + runSteps;
    assert forall s :: s in steps ==> s in inputSteps || s in runSteps;
    assert forall s :: s in inputSteps ==> !IsRunStep(s);
    assert forall s :: s in runSteps ==> !s.TempCreated? && !s.Validated?;
    forall s | s in steps && s.TempCreated?
      ensures s.path == tempFilePath != "" || TempDiscarded(s.path) in steps
    {
      assert s in inputSteps;
      if s.path != tempFilePath || tempFilePath == "" {
        assert TempDiscarded(s.path) in inputSteps;
      }
    }
  }

  /** The `try` statement of `extract_text_from_image` once `is_url` has
      decided `isUrl`: the `try` block, then on failure the error report
      (the `except` clause, exit code 1), and in every case the cleanup of a
      downloaded file (the `finally` clause). */
  method TryStatement(imageInput: string, isUrl: bool, prompt: string, provider: string, model: Option<string>, w: World)
    returns (exitCode: int, failure: Option<string>, trace: seq<Step>)
    requires "/" <= w.fetch.tempDir
    // any exception ends in exit code 1 after the error is reported with its hint
    ensures exitCode == (if failure.Some? then 1 else 0)
    ensures failure.Some? ==> Reported(failure.value, ErrorHint(failure.value, provider)) in trace
    ensures failure.None? ==> (exists s :: s in trace && IsRunStep(s)) && forall s :: s in trace ==> !s.Reported?
    // routing: URLs are downloaded and never validated, local paths are never downloaded
    ensures isUrl ==> forall s :: s in trace ==> !s.Validated?
    ensures !isUrl ==> forall s :: s in trace ==> !s.TempCreated? && !s.CleanedUp?
    // a downloaded file always reaches cleanup, which removes it when it still exists
    ensures TempFilesHandled(trace, w.tempStillExists && w.unlinkSucceeds)
    ensures forall s :: s in trace && s.CleanedUp? ==> TempCreated(s.path) in trace
    // which exception, if any, is determined by the world
    ensures failure == CommandFailure(imageInput, isUrl, provider, model, w)
    ensures !isUrl && !w.fileExists ==> exitCode == 1 && forall s :: s in trace ==> !IsRunStep(s)
    // a completed download is created, any model runs on it, and its cleanup is the last step
    ensures isUrl && DownloadOutcome(imageInput, w.fetch).Ok? ==>
      var p := DownloadOutcome(imageInput, w.fetch).value;
      TempCreated(p) in trace && trace[|trace| - 1] == CleanedUp(p, w.tempStillExists && w.unlinkSucceeds) &&
      forall s :: s in trace && IsRunStep(s) ==> s.imagePath == p
    // Hugging Face runs directly, every other provider asks for a tool-calling backend
    ensures forall s :: s in trace && s.HuggingFaceRun? ==> Lower(provider) == "huggingface"
    ensures forall s :: s in trace && s.ToolsRequested? ==> Lower(provider) != "huggingface"
  {
    var tempFilePath, attempted, steps := TryBlock(imageInput, isUrl, prompt, provider, model, w);
    failure := attempted;
    var reportSteps: seq<Step> := [];
    if failure.Some? {
      reportSteps := [Reported(failure.value, ErrorHint(failure.value, provider))];
    }
    exitCode := if failure.Some? then 1 else 0;
    var cleanupSteps: seq<Step> := [];
    if tempFilePath != "" {
      var removed := CleanupTempFile(tempFilePath, w.fetch.tempDir, w.tempStillExists, w.unlinkSucceeds);
      cleanupSteps := [CleanedUp(tempFilePath, removed)];
    }
    trace := steps + reportSteps + cleanupSteps;
    KindsOfTrace(steps, reportSteps, cleanupSteps);
  }

  /** `extract_text_from_image`: classify the input with `is_url`, then run
      the `try` statement on it. */
  method ExtractTextFromImage(imageInput: string, prompt: string, provider: string, model: Option<string>, w: World)
    returns (exitCode: int, failure: Option<string>, trace: seq<Step>)
    requires "/" <= w.fetch.tempDir
    ensures exitCode == (if failure.Some? then 1 else 0)
    ensures failure.Some? ==> Reported(failure.value, ErrorHint(failure.value, provider)) in trace
    ensures failure.None? ==> (exists s :: s in trace && IsRunStep(s)) && forall s :: s in trace ==> !s.Reported?
    ensures IsUrl(imageInput) ==> forall s :: s in trace ==> !s.Validated?
    ensures !IsUrl(imageInput) ==> forall s :: s in trace ==> !s.TempCreated? && !s.CleanedUp?
    ensures TempFilesHandled(trace, w.tempStillExists && w.unlinkSucceeds)
    ensures forall s :: s in trace && s.CleanedUp? ==> TempCreated(s.path) in trace
    ensures failure == CommandFailure(imageInput, IsUrl(imageInput), provider, model, w)
    // a local file that does not exist: "Image file not found", exit code 1, no model run
    ensures !IsUrl(imageInput) && !w.fileExists ==> exitCode == 1 && forall s :: s in trace ==> !IsRunStep(s)
    // a downloaded file is the one the model sees, and its cleanup is the last step
    ensures IsUrl(imageInput) && DownloadOutcome(imageInput, w.fetch).Ok? ==>
      var p := DownloadOutcome(imageInput, w.fetch).value;
      TempCreated(p) in trace && trace[|trace| - 1] == CleanedUp(p, w.tempStillExists && w.unlinkSucceeds) &&
      forall s :: s in trace && IsRunStep(s) ==> s.imagePath == p
    ensures forall s :: s in trace && s.HuggingFaceRun? ==> Lower(provider) == "huggingface"
    ensures forall s :: s in trace && s.ToolsRequested? ==> Lower(provider) != "huggingface"
  {
    var isUrl := IsUrl(imageInput);
    exitCode, failure, trace := TryStatement(imageInput, isUrl, prompt, provider, model, w);
  }
}
