/**
 * The `App` component as an object: each state hook is a field, and each
 * handler is a method that updates the fields in the order the handler does.
 * The methods are proved against the session value of `ModeSession`.
 */
module Controller {
  import opened Outcomes
  import opened DataUrl
  import opened ModeSession

  class App {
    var mode: Option<Mode>
    var isLoading: bool
    var error: Option<string>
    var environmentImage: Option<File>
    var modelImage: Option<File>
    var generatedImage: Option<string>
    var prompt: string

    /** The session the fields hold. */
    function State(): Session
      reads this
    {
      Session(mode, isLoading, error, environmentImage, modelImage, generatedImage, prompt)
    }

    /** The state hooks' initial values: no mode yet (the welcome screen), nothing uploaded, empty prompt. */
    constructor ()
      ensures State() == Session(None, false, None, None, None, None, "")
    {
      mode := None;
      isLoading := false;
      error := None;
      environmentImage := None;
      modelImage := None;
      generatedImage := None;
      prompt := "";
    }

    /** A mode button on the welcome screen: only the mode changes. */
    method ChooseMode(m: Mode)
      modifies this`mode
      ensures mode == Some(m)
    {
      mode := Some(m);
    }

    /** An upload into the environment (or only) image slot. */
    method SetEnvironmentImage(f: File)
      modifies this`environmentImage
      ensures environmentImage == Some(f)
    {
      environmentImage := Some(f);
    }

    /** An upload into the furniture-model image slot. */
    method SetModelImage(f: File)
      modifies this`modelImage
      ensures modelImage == Some(f)
    {
      modelImage := Some(f);
    }

    /** Typing into the prompt box. */
    method SetPrompt(text: string)
      modifies this`prompt
      ensures prompt == text
    {
      prompt := text;
    }

    /**
     * `handleRun`: without a mode, return at once; otherwise set loading,
     * clear the error, apply the retention rule, run the validation chain of
     * the mode and send its one request, then apply the service's answer
     * (`outcome`) or the error, and stop loading. Returns the request sent
     * and the alert shown.
     */
    method Run(outcome: Outcome<string>, atob: string -> Outcome<string>)
      returns (call: Option<Call>, alert: Option<string>)
      modifies this
      ensures RunResult(State(), call, alert) == RunSpec(old(State()), outcome, atob)
    {
      call, alert := None, None;
      if mode.None? {
        return;
      }
      var m := mode.value;
      // The handler reads the generated image it was created with.
      var generated := generatedImage;
      isLoading := true;
      error := None;
      if m != Edit && !(m == Visualize && Present(generatedImage)) {
        generatedImage := None;
      }
      var request: Outcome<Call>;
      match m {
        case Visualize =>
          if environmentImage.None? || modelImage.None? {
            request := Err(Some(VisualizeInputsMessage));
          } else {
            request := Ok(VisualizeFurniture(environmentImage.value, modelImage.value));
          }
        case Edit =>
          var imageToEdit: Outcome<Option<File>>;
          if Present(generated) {
            var converted := DataUrlToFile(generated.value, EditFileName, atob);
            imageToEdit := if converted.Ok? then Ok(Some(converted.value)) else Err(converted.message);
          } else {
            imageToEdit := Ok(environmentImage);
          }
          if imageToEdit.Err? {
            request := Err(imageToEdit.message);
          } else if imageToEdit.value.None? {
            request := Err(Some(EditImageMessage));
          } else if prompt == "" {
            request := Err(Some(EditPromptMessage));
          } else {
            request := Ok(EditImage(imageToEdit.value.value, prompt));
          }
        case Generate =>
          if prompt == "" {
            request := Err(Some(GeneratePromptMessage));
          } else {
            request := Ok(GenerateImage(prompt));
          }
        case Analyze =>
          if environmentImage.None? {
            request := Err(Some(AnalyzeImageMessage));
          } else if prompt == "" {
            request := Err(Some(AnalyzePromptMessage));
          } else {
            request := Ok(AnalyzeImage(environmentImage.value, prompt));
          }
      }
      if request.Err? {
        error := Some(ErrorText(request.message));
      } else {
        call := Some(request.value);
        match outcome {
          case Err(message) =>
            error := Some(ErrorText(message));
          case Ok(result) =>
            if m == Analyze {
              alert := Some(AnalysisAlert(result));
            } else {
              generatedImage := Some(result);
              prompt := "";
            }
        }
      }
      isLoading := false;
    }

    /** `resetState(newMode)`: a fresh session in `newMode`, whatever the state was. */
    method ResetState(newMode: Mode)
      modifies this
      ensures State() == Fresh(newMode)
      ensures mode == Some(newMode) && !isLoading && error.None?
      ensures environmentImage.None? && modelImage.None? && generatedImage.None? && prompt == ""
    {
      mode := Some(newMode);
      isLoading := false;
      error := None;
      environmentImage := None;
      modelImage := None;
      generatedImage := None;
      prompt := "";
    }

    /** `handleStartOver`: `resetState` with the current mode, or nothing when there is none. */
    method StartOver()
      modifies this
      ensures old(mode).Some? ==> State() == Fresh(old(mode).value)
      ensures old(mode).None? ==> State() == old(State())
    {
      if mode.Some? {
        ResetState(mode.value);
      }
    }
  }
}
