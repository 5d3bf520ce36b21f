/**
 * The mode session of the app, as a value: the active mode, the uploaded
 * images, the last generated image, the prompt, and the loading and error
 * flags. `RunSpec` states what one press of the run button does to it:
 * the retention rule for the generated image, the per-mode validation chain
 * with its fixed messages, the one request sent to the image service, and
 * how the service's answer or failure lands in the session. The `Controller`
 * module keeps the same state in an object and is proved against this one.
 */
module ModeSession {
  import opened Outcomes
  import opened DataUrl

  datatype Mode = Visualize | Generate | Edit | Analyze

  /** The text of a mode, as the run button's label `Run <mode>` shows it. */
  function ModeName(m: Mode): string
  {
    match m
    case Visualize => "Visualize"
    case Generate => "Generate"
    case Edit => "Edit"
    case Analyze => "Analyze"
  }

  /** The component's state; `None` stands for `null`. */
  datatype Session = Session(
    mode: Option<Mode>,
    isLoading: bool,
    error: Option<string>,
    environmentImage: Option<File>,
    modelImage: Option<File>,
    generatedImage: Option<string>,
    prompt: string)

  /** One request to the image service. */
  datatype Call =
    | VisualizeFurniture(environment: File, model: File)
    | GenerateImage(prompt: string)
    | EditImage(image: File, prompt: string)
    | AnalyzeImage(image: File, prompt: string)

  /** The mode whose run sends a request of this kind. */
  function CallMode(c: Call): Mode
  {
    match c
    case VisualizeFurniture(_, _) => Visualize
    case GenerateImage(_) => Generate
    case EditImage(_, _) => Edit
    case AnalyzeImage(_, _) => Analyze
  }

  /** What a run leaves behind: the session, the request it sent (if any), the alert it showed (if any). */
  datatype RunResult = RunResult(session: Session, call: Option<Call>, alert: Option<string>)

  const VisualizeInputsMessage := "Please upload both an environment and a model image."
  const EditImageMessage := "Please upload an image to edit."
  const EditPromptMessage := "Please enter a prompt to edit the image."
  const GeneratePromptMessage := "Please enter a prompt to generate an image."
  const AnalyzeImageMessage := "Please upload an image to analyze."
  const AnalyzePromptMessage := "Please enter a prompt to analyze the image."

  /** The name given to the generated image when it is sent back for editing. */
  const EditFileName := "last-generated.png"

  const ProcessingLabel := "Processing..."
  const ModifyLabel := "Modify Image"

  /** The alert that shows an analysis. */
  function AnalysisAlert(result: string): string
  {
    "Analysis Result:\n\n" + result
  }

  /** A `string | null` used as a condition: neither null nor empty. */
  predicate Present(text: Option<string>)
  {
    text.Some? && text.value != ""
  }

  /**
   * The retention rule applied as a run starts: the generated image is kept
   * in Edit mode, and in Visualize mode when there is one; otherwise cleared.
   */
  predicate KeepsGenerated(mode: Mode, generated: Option<string>)
    ensures mode == Edit ==> KeepsGenerated(mode, generated)
    ensures mode == Generate || mode == Analyze ==> !KeepsGenerated(mode, generated)
    ensures mode == Visualize ==> (KeepsGenerated(mode, generated) <==> Present(generated))
  {
    mode == Edit || (mode == Visualize && Present(generated))
  }

  /** The generated image once the retention rule has run. */
  function RetainedImage(mode: Mode, generated: Option<string>): (kept: Option<string>)
    // The rule never invents an image: it keeps the one there was or clears it.
    ensures kept == generated || kept.None?
    ensures mode == Edit ==> kept == generated
    ensures mode == Visualize ==> (Present(kept) <==> Present(generated))
    ensures mode == Generate || mode == Analyze ==> kept.None?
  {
    if KeepsGenerated(mode, generated) then generated else None
  }

  /**
   * The image an Edit run works on: the generated image turned back into a
   * file when there is one (its conversion may throw), else the upload.
   */
  function ImageToEdit(s: Session, atob: string -> Outcome<string>): (image: Outcome<Option<File>>)
    // Only the conversion can fail, and then with its own error.
    ensures image.Err? <==> Present(s.generatedImage) && ConvertDataUrl(s.generatedImage.value, EditFileName, atob).Err?
    ensures image.Err? ==> image.message == ConvertDataUrl(s.generatedImage.value, EditFileName, atob).message
    // A generated image wins over the upload, and always yields a file.
    ensures Present(s.generatedImage) && image.Ok? ==>
              image.value == Some(ConvertDataUrl(s.generatedImage.value, EditFileName, atob).value)
    ensures !Present(s.generatedImage) ==> image == Ok(s.environmentImage)
  {
    if Present(s.generatedImage) then
      match ConvertDataUrl(s.generatedImage.value, EditFileName, atob)
      case Ok(f) => Ok(Some(f))
      case Err(message) => Err(message)
    else Ok(s.environmentImage)
  }

  /**
   * The validation chain of a run and the request it leads to: either the one
   * call to the image service, or the error thrown before any call is made.
   */
  function Dispatch(s: Session, atob: string -> Outcome<string>): (r: Outcome<Call>)
    requires s.mode.Some?
    ensures r.Ok? ==> CallMode(r.value) == s.mode.value
    // Visualize needs both uploads.
    ensures s.mode == Some(Visualize) ==>
              ((s.environmentImage.None? || s.modelImage.None?) <==> r == Err(Some(VisualizeInputsMessage)))
    ensures s.mode == Some(Visualize) && r.Ok? ==>
              r.value == VisualizeFurniture(s.environmentImage.value, s.modelImage.value)
    ensures s.mode == Some(Visualize) && s.environmentImage.Some? && s.modelImage.Some? ==>
              r == Ok(VisualizeFurniture(s.environmentImage.value, s.modelImage.value))
    // Generate needs a prompt.
    ensures s.mode == Some(Generate) ==> (s.prompt == "" <==> r == Err(Some(GeneratePromptMessage)))
    ensures s.mode == Some(Generate) && r.Ok? ==> r.value == GenerateImage(s.prompt)
    ensures s.mode == Some(Generate) && s.prompt != "" ==> r == Ok(GenerateImage(s.prompt))
    // Edit needs an image, then a prompt; the generated image wins over the upload.
    ensures s.mode == Some(Edit) && Present(s.generatedImage) ==>
              var converted := ConvertDataUrl(s.generatedImage.value, EditFileName, atob);
              (converted.Err? ==> r == Err(converted.message)) &&
              (converted.Ok? && s.prompt == "" ==> r == Err(Some(EditPromptMessage))) &&
              (converted.Ok? && s.prompt != "" ==> r == Ok(EditImage(converted.value, s.prompt)))
    ensures s.mode == Some(Edit) && !Present(s.generatedImage) ==>
              (s.environmentImage.None? ==> r == Err(Some(EditImageMessage))) &&
              (s.environmentImage.Some? && s.prompt == "" ==> r == Err(Some(EditPromptMessage))) &&
              (s.environmentImage.Some? && s.prompt != "" ==> r == Ok(EditImage(s.environmentImage.value, s.prompt)))
    // Analyze needs the upload, then a prompt.
    ensures s.mode == Some(Analyze) ==> (s.environmentImage.None? <==> r == Err(Some(AnalyzeImageMessage)))
    ensures s.mode == Some(Analyze) && s.environmentImage.Some? ==>
              (s.prompt == "" <==> r == Err(Some(AnalyzePromptMessage)))
    ensures s.mode == Some(Analyze) && r.Ok? ==> r.value == AnalyzeImage(s.environmentImage.value, s.prompt)
    ensures s.mode == Some(Analyze) && s.environmentImage.Some? && s.prompt != "" ==>
              r == Ok(AnalyzeImage(s.environmentImage.value, s.prompt))
  {
    match s.mode.value
    case Visualize =>
      if s.environmentImage.None? || s.modelImage.None? then Err(Some(VisualizeInputsMessage))
      else Ok(VisualizeFurniture(s.environmentImage.value, s.modelImage.value))
    case Edit =>
      (match ImageToEdit(s, atob)
       case Err(message) => Err(message)
       case Ok(image) =>
         if image.None? then Err(Some(EditImageMessage))
         else if s.prompt == "" then Err(Some(EditPromptMessage))
         else Ok(EditImage(image.value, s.prompt)))
    case Generate =>
      if s.prompt == "" then Err(Some(GeneratePromptMessage))
      else Ok(GenerateImage(s.prompt))
    case Analyze =>
      if s.environmentImage.None? then Err(Some(AnalyzeImageMessage))
      else if s.prompt == "" then Err(Some(AnalyzePromptMessage))
      else Ok(AnalyzeImage(s.environmentImage.value, s.prompt))
  }

  /**
   * One press of the run button, as one atomic step. `outcome` is what the
   * image service answers (or throws) if a request is sent; `atob` is the
   * browser's base64 decoder.
   */
  function RunSpec(s: Session, outcome: Outcome<string>, atob: string -> Outcome<string>): (r: RunResult)
    // Without a mode nothing happens.
    ensures s.mode.None? ==> r == RunResult(s, None, None)
    // A run never changes the mode or the uploads, and always ends not loading.
    ensures s.mode.Some? ==>
              r.session.mode == s.mode && !r.session.isLoading &&
              r.session.environmentImage == s.environmentImage && r.session.modelImage == s.modelImage
    // Exactly one request, and only when validation passes.
    ensures s.mode.Some? ==> r.call == (if Dispatch(s, atob).Ok? then Some(Dispatch(s, atob).value) else None)
    // The error is cleared exactly when the request was sent and answered.
    ensures s.mode.Some? ==> (r.session.error.None? <==> r.call.Some? && outcome.Ok?)
    ensures s.mode.Some? && r.call.None? ==> r.session.error == Some(ErrorText(Dispatch(s, atob).message))
    ensures s.mode.Some? && r.call.Some? && outcome.Err? ==> r.session.error == Some(ErrorText(outcome.message))
    // An image answer replaces the generated image and clears the prompt.
    ensures s.mode.Some? && s.mode != Some(Analyze) && r.call.Some? && outcome.Ok? ==>
              r.session.generatedImage == Some(outcome.value) && r.session.prompt == ""
    // Otherwise only the retention rule touches the generated image, and the prompt stays.
    ensures s.mode.Some? && !(s.mode != Some(Analyze) && r.call.Some? && outcome.Ok?) ==>
              r.session.generatedImage == RetainedImage(s.mode.value, s.generatedImage) &&
              r.session.prompt == s.prompt
    // An analysis is shown in an alert and nowhere else.
    ensures r.alert.Some? <==> s.mode == Some(Analyze) && r.call.Some? && outcome.Ok?
    ensures r.alert.Some? ==> r.alert.value == AnalysisAlert(outcome.value)
  {
    if s.mode.None? then RunResult(s, None, None)
    else
      var m := s.mode.value;
      var started := s.(isLoading := true, error := None,
                        generatedImage := RetainedImage(m, s.generatedImage));
      match Dispatch(s, atob)
      case Err(message) =>
        RunResult(started.(isLoading := false, error := Some(ErrorText(message))), None, None)
      case Ok(c) =>
        match outcome
        case Err(message) =>
          RunResult(started.(isLoading := false, error := Some(ErrorText(message))), Some(c), None)
        case Ok(result) =>
          if m == Analyze then
            RunResult(started.(isLoading := false), Some(c), Some(AnalysisAlert(result)))
          else
            RunResult(started.(isLoading := false, generatedImage := Some(result), prompt := ""), Some(c), None)
  }

  /**
   * The run button's label. It is only shown once a mode is chosen: the
   * welcome screen has no run button.
   */
  function RunButtonText(s: Session): (text: string)
    requires s.mode.Some?
    ensures text == ProcessingLabel <==> s.isLoading
    ensures text == ModifyLabel <==> !s.isLoading && Present(s.generatedImage) && s.mode != Some(Analyze)
    ensures text != ProcessingLabel && text != ModifyLabel ==> text == "Run " + ModeName(s.mode.value)
  {
    if s.isLoading then ProcessingLabel
    else if Present(s.generatedImage) && s.mode != Some(Analyze) then ModifyLabel
    else
      var run := "Run " + ModeName(s.mode.value);
      assert run[0] == 'R' && ProcessingLabel[0] == 'P' && ModifyLabel[0] == 'M';
      run
  }

  /** The session `resetState(m)` installs, whatever came before. */
  function Fresh(m: Mode): (f: Session)
    ensures f.mode == Some(m) && !f.isLoading && f.error.None? && f.prompt == ""
    ensures f.environmentImage.None? && f.modelImage.None? && f.generatedImage.None?
    // With nothing generated yet, the button offers to run the mode.
    ensures RunButtonText(f) == "Run " + ModeName(m)
  {
    Session(Some(m), false, None, None, None, None, "")
  }

  /** A fresh session has none of the inputs, so a run fails the first check of its mode and sends nothing. */
  lemma RunAfterReset(m: Mode, outcome: Outcome<string>, atob: string -> Outcome<string>)
    ensures var r := RunSpec(Fresh(m), outcome, atob);
            r.call.None? && r.session.generatedImage.None? && r.session.prompt == "" &&
            r.session.error == Some(match m
                                    case Visualize => VisualizeInputsMessage
                                    case Generate => GeneratePromptMessage
                                    case Edit => EditImageMessage
                                    case Analyze => AnalyzeImageMessage)
  {
  }

  /**
   * The editing chain: after an Edit run that produced an image, the next
   * Edit run with a new prompt sends that image, converted back into a file,
   * without it being uploaded again.
   */
  lemma EditChain(s: Session, result: string, nextPrompt: string, next: Outcome<string>,
                  atob: string -> Outcome<string>)
    requires s.mode == Some(Edit) && Dispatch(s, atob).Ok?
    requires result != "" && nextPrompt != ""
    ensures var s' := RunSpec(s, Ok(result), atob).session.(prompt := nextPrompt);
            RunSpec(s', next, atob).call ==
              match ConvertDataUrl(result, EditFileName, atob)
              case Ok(f) => Some(EditImage(f, nextPrompt))
              case Err(_) => None
  {
  }

  /**
   * A Visualize result is kept while it is refined: a later Visualize run
   * that fails (validation or service) still shows the previous result.
   */
  lemma VisualizeKeepsResult(s: Session, result: string, next: Outcome<string>, atob: string -> Outcome<string>)
    requires s.mode == Some(Visualize)
    requires RunSpec(s, Ok(result), atob).call.Some? && result != ""
    ensures var s' := RunSpec(s, Ok(result), atob).session;
            var r := RunSpec(s', next, atob);
            r.call.Some? && (next.Err? ==> r.session.generatedImage == Some(result))
  {
  }

  /**
   * The label offers to modify the current image in Generate mode too, but a
   * Generate run clears that image first and sends only the prompt.
   */
  lemma GenerateModifyStartsAfresh(s: Session, outcome: Outcome<string>, atob: string -> Outcome<string>)
    requires s.mode == Some(Generate) && RunButtonText(s) == ModifyLabel
    ensures var r := RunSpec(s, outcome, atob);
            (r.call.Some? ==> r.call.value == GenerateImage(s.prompt)) &&
            (outcome.Err? || r.call.None? ==> r.session.generatedImage.None?)
  {
  }

  /** An analysis leaves the generated image as the retention rule left it (cleared) and keeps the prompt. */
  lemma AnalyzeLeavesImageAndPrompt(s: Session, result: string, atob: string -> Outcome<string>)
    requires s.mode == Some(Analyze) && s.environmentImage.Some? && s.prompt != ""
    ensures var r := RunSpec(s, Ok(result), atob);
            r.call == Some(AnalyzeImage(s.environmentImage.value, s.prompt)) &&
            r.alert == Some(AnalysisAlert(result)) &&
            r.session.generatedImage.None? && r.session.prompt == s.prompt && r.session.error.None?
  {
  }
}
