/**
 * Clients of the `App` object that go through whole interactions, proved
 * from the methods' contracts alone.
 */
module Scenarios {
  import opened Outcomes
  import opened DataUrl
  import opened ModeSession
  import opened Controller

  /**
   * Choose Generate, type "red chair", run: the one request is
   * `generateImage("red chair")`; its answer becomes the generated image and
   * the prompt is cleared.
   */
  method GenerateRedChair(answer: string, atob: string -> Outcome<string>)
    returns (call: Option<Call>, app: App)
    ensures call == Some(GenerateImage("red chair"))
    ensures app.mode == Some(Generate) && !app.isLoading && app.error.None?
    ensures app.generatedImage == Some(answer) && app.prompt == ""
    ensures RunButtonText(app.State()) == if answer == "" then "Run Generate" else ModifyLabel
  {
    app := new App();
    app.ChooseMode(Generate);
    app.SetPrompt("red chair");
    var alert;
    call, alert := app.Run(Ok(answer), atob);
  }

  /**
   * Choose Visualize, upload only the room, run: validation fails with its
   * message, no request is sent, and Start Over brings back an empty session.
   */
  method VisualizeWithoutModel(room: File, outcome: Outcome<string>, atob: string -> Outcome<string>)
    returns (call: Option<Call>, shown: Option<string>, app: App)
    ensures call.None?
    ensures shown == Some(VisualizeInputsMessage)
    ensures app.State() == Fresh(Visualize)
  {
    app := new App();
    app.ChooseMode(Visualize);
    app.SetEnvironmentImage(room);
    var alert;
    call, alert := app.Run(outcome, atob);
    shown := app.error;
    app.StartOver();
  }
}
