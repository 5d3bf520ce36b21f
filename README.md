# Dekowood visualizer: the mode-session controller in Dafny

The app is a browser front end for an image service. It has four modes:
Visualize places a furniture model in a room photo, Generate makes an image
from a prompt, Edit changes an image, and Analyze describes an image. Its
logic lives in the `App` component of `App.tsx`. This project models that
logic:

- the session state: the mode, a loading flag, an error, the two uploaded images, the last generated image and the prompt;
- `handleRun`, one press of the run button: it sets loading and clears the error, applies the retention rule to the generated image, runs the mode's validation chain, sends exactly one request to the image service, and applies the answer or the failure;
- `resetState` and `handleStartOver`;
- the run button's label;
- `dataURLtoFile`, which turns the generated image (a data URL) back into a file for the next Edit. It finds the MIME type with the pattern `:(.*?);`, decodes the body with `atob` and copies the character codes into a byte array with a backwards loop.

Layout:

- `outcomes.dfy` (`Outcomes`): `Option`, `Outcome` (a value or a thrown error with an optional message), and `ErrorText`, the `e.message || "An unknown error occurred."` fallback.
- `dataurl.dfy` (`DataUrl`): `dataURLtoFile`. It holds the comma split, a search that follows JavaScript's regular-expression semantics (leftmost colon, lazy group, `.` excluding line terminators), the in-place copy loop on an `array<uint8>`, and the round trip from a file to its data URL and back.
- `session.dfy` (`ModeSession`): the session as a value. `Dispatch` is the validation chain together with the request it leads to. `RunSpec` is a whole run. Also here: the button label and lemmas that relate several runs.
- `controller.dfy` (`Controller`): class `App`. Its fields are the state hooks and its methods are the handlers. Each method updates the fields step by step and is proved equal to the value-level specification.
- `scenarios.dfy` (`Scenarios`): two clients that drive `App` through whole interactions.

Inputs the code does not compute are parameters:
- `outcome` is what the image service answers or throws;
- `atob` is the browser's base64 decoder, given as a function that may throw.

A run is one atomic step.

Points where the code's behaviour is easy to misread, modelled as written:
- A run clears the generated image at its start, unless the mode is Edit, or the mode is Visualize and an image exists. This happens even when validation or the service then fails: in Generate and Analyze (and in Visualize with no image yet), a failed run leaves no generated image.
- The code has no re-entrancy or stale-response guard: the run and start-over buttons are hidden while loading. The model adds no guard.
- JavaScript truthiness is modelled as written. An empty generated-image string counts as absent (`Present`), an empty prompt fails validation, and an empty error message falls back to the generic text.

## Model

| member | source | states |
|---|---|---|
| `Outcomes.ErrorText` | App.tsx:86 | the stored error is never empty: it is the thrown message when that is non-empty, else "An unknown error occurred." |
| `DataUrl.Head` | App.tsx:15 | `split(',')[0]` is the prefix of the URL with no comma that ends at the first comma or at the end |
| `DataUrl.Payload` | App.tsx:15-21 | the text passed to `atob` is the field after the first comma, ending at the next comma; with no comma it is "undefined" |
| `DataUrl.GroupStop` | App.tsx:16 | the lazy group `.*?` runs from its start to the first `;` or line terminator, over characters that are neither |
| `DataUrl.MatchEnd` | App.tsx:16 | once the colon is fixed, `:(.*?);` can match in at most one way, ending where the group stops |
| `DataUrl.FindGroup` | App.tsx:16-19 | the search returns the leftmost colon where `:(.*?);` matches, with that match's end; `None` exactly when the pattern matches nowhere |
| `DataUrl.MimeType` | App.tsx:16-20 | the MIME type is absent exactly when the pattern matches nowhere in the head; otherwise it is the captured text of the leftmost match, the one `String.prototype.match` returns |
| `DataUrl.LeftmostMatch` | App.tsx:16 | a match at the first colon of the text is the match the search reports |
| `DataUrl.MimeTypeOnSingleLine` | App.tsx:16-20 | on text without line breaks, a `:` followed later by `;` makes the MIME type the text between the first `:` and the next `;` |
| `DataUrl.MimeTypeNeedsColonThenSemicolon` | App.tsx:16-19 | if there is a MIME type, the head holds a `:` followed later by a `;`; so "Invalid data URL" is thrown exactly when there is no such pair (on single-line text) |
| `DataUrl.ToUint8` | App.tsx:25 | a `Uint8Array` store keeps a character code below 256 unchanged and otherwise keeps it modulo 256 |
| `DataUrl.CharCodes` | App.tsx:22-26 | the byte sequence has the decoded text's length, and byte `i` is character code `i` modulo 256 |
| `DataUrl.CopyCharCodes` | App.tsx:22-26 | the backwards loop leaves a byte array as long as the text, with byte `i` equal to character code `i` modulo 256, for every `i` |
| `DataUrl.ConvertDataUrl` | App.tsx:14-28 | with no MIME type the result is `Invalid data URL`; otherwise an `atob` failure passes through; otherwise the result is a file with the given name, the extracted MIME type and the decoded character codes |
| `DataUrl.DataUrlToFile` | App.tsx:14-28 | the step-by-step conversion, which uses the copy loop, returns exactly what `ConvertDataUrl` specifies |
| `DataUrl.HeadOfJoin` | App.tsx:15 | splitting `a,rest` where `a` has no comma gives `a` as the first field |
| `DataUrl.MimeTypeOfDataHead` | App.tsx:16-20 | for `data:<mime>;base64` with a plain MIME type, the extracted MIME type is `<mime>` |
| `DataUrl.RoundTrip` | App.tsx:14-28 | converting `data:<mime>;base64,<btoa(bytes)>` gives back the same file (name, MIME type, bytes), when `atob` inverts `btoa` and the body has no comma |
| `ModeSession.Dispatch` | App.tsx:55-77 | per mode, which missing input yields which fixed message, in which order; in Edit, the generated image takes priority over the upload and a bad data URL is reported; a session that passes every check of its mode gets exactly that mode's request, carrying the session's images and prompt, and only such a session gets one |
| `ModeSession.KeepsGenerated` | App.tsx:49 | the retention test: true in Edit, false in Generate and Analyze, and in Visualize exactly when a generated image is present |
| `ModeSession.RetainedImage` | App.tsx:48-51 | the retention rule never invents an image: Edit keeps the generated image, Visualize keeps a present one, Generate and Analyze clear it |
| `ModeSession.ImageToEdit` | App.tsx:61 | a present generated image is converted back into a file and wins over the upload; only that conversion can fail, with its own error; otherwise the upload (possibly none) is used |
| `ModeSession.Fresh` | App.tsx:92-100 | the session `resetState(m)` installs: mode `m`, not loading, no error, no images, empty prompt; its button reads `Run <mode>` |
| `ModeSession.RunSpec` | App.tsx:43-90 | with no mode nothing changes and nothing is sent. Otherwise the mode and uploads stay and loading ends false. A request is sent exactly when validation passes. The error is cleared exactly on an answered request; failures get their message or the fallback. An image answer replaces the generated image and clears the prompt. Otherwise only the retention rule touches the generated image. An analysis goes to the alert only |
| `ModeSession.RunButtonText` | App.tsx:203-207 | the label is "Processing..." exactly while loading; "Modify Image" exactly when not loading, a generated image is present and the mode is not Analyze; otherwise `Run <mode>` |
| `ModeSession.RunAfterReset` | App.tsx:92-100 | a run right after `resetState(m)` sends nothing and reports the first check of mode `m` |
| `ModeSession.EditChain` | App.tsx:61 | after an Edit run that produced an image, the next Edit run with a new prompt sends that image, converted back into a file, without a new upload; if the image is not a valid data URL, nothing is sent |
| `ModeSession.VisualizeKeepsResult` | App.tsx:48-51 | after a Visualize result, the next Visualize run still sends a request, and if it fails the previous result is still shown |
| `ModeSession.GenerateModifyStartsAfresh` | App.tsx:49-50 | in Generate mode under the "Modify Image" label, a run sends only the prompt and the old image is gone unless a new one arrives |
| `ModeSession.AnalyzeLeavesImageAndPrompt` | App.tsx:70-81 | a valid Analyze run sends the upload and prompt, shows the answer in the alert, keeps the prompt and clears the error; the generated image is left cleared |
| `Controller.App.constructor` | App.tsx:34-41 | the initial state: no mode, not loading, no error, no images, empty prompt |
| `Controller.App.ChooseMode` | App.tsx:122-125 | a welcome-screen button sets the mode and nothing else |
| `Controller.App.SetEnvironmentImage` | App.tsx:159 | an upload fills the environment image slot and nothing else |
| `Controller.App.SetModelImage` | App.tsx:160 | an upload fills the model image slot and nothing else |
| `Controller.App.SetPrompt` | App.tsx:145 | typing sets the prompt and nothing else |
| `Controller.App.Run` | App.tsx:43-90 | the handler, updating the fields in the code's order, leaves the state, the request and the alert that `RunSpec` gives for the state before it |
| `Controller.App.ResetState` | App.tsx:92-100 | the state becomes: mode `m`, not loading, no error, no images, no generated image, empty prompt, whatever it was before |
| `Controller.App.StartOver` | App.tsx:102-106 | with a mode, the state becomes the one `resetState` gives for that mode; without one, nothing changes |
| `Scenarios.GenerateRedChair` | App.tsx:66-68 | Generate with "red chair" sends `generateImage("red chair")`; the answer becomes the generated image, the prompt is cleared and the label offers to modify it |
| `Scenarios.VisualizeWithoutModel` | App.tsx:56-57 | Visualize with only the room uploaded sends nothing and shows "Please upload both an environment and a model image."; Start Over then gives a fresh Visualize session |

## Left out

- The image service (`visualizeFurniture`, `generateImage`, `editImage`, `analyzeImage`) is not part of this model. Its answer or thrown error is the `outcome` parameter of a run.
- `atob` is the `atob` parameter. Base64 decoding itself is not modelled.
- JavaScript strings are sequences of UTF-16 code units. Here a string is a sequence of `char`, and `charCodeAt` is the character's code. The two agree on the output of `atob`, whose characters are all below 256.
- DataUrl.ConvertDataUrl: the browser's `File` constructor lower-cases the type and empties it when it contains characters outside U+0020 to U+007E. The model keeps the extracted MIME text unchanged.
- The state in the middle of a run is not modelled: loading on, error cleared, retention applied. Only the state at the end of the run is specified.
- Asynchrony and React's batching are not modelled: a run is one atomic step. No state is observed while the request is in flight, and a mode change during a pending request is not modelled. The code has no guard against either.
- A rejection with `null` or `undefined` is not modelled. In that case reading `e.message` throws inside the `catch`.
- The `default` branch that throws "Invalid mode selected." cannot be reached with the four modes. It is not modelled.
- `RunButtonText` uses each mode's display name for `Run <mode>`. The enum's declaration (`types.ts`) is not part of this model, so its string values are taken to be those names.
- The JSX rendering, the welcome screen, the upload widget's previews and drag events, the loader's rotating messages, the header and the tab button are presentation only.
- `alert` is modelled only as the text it would show.
