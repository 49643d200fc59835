# ProductVisualize AI — a Dafny model of its state and orchestration core

ProductVisualize AI is a browser front-end: the user uploads a product
photo, picks placement scenarios (coffee mug, billboard, t-shirt, …), the
application asks a remote image model for one composite per scenario, and
each result can then be re-edited with follow-up instructions. All image
synthesis happens remotely; what runs locally is a small layer of stateful
rules. This project models that layer and proves its properties:

- `constants.dfy` (module `Catalog`): the six-entry scenario table and its
  shape (ids, names, icon keys).
- `application.dfy` (module `Application`): the application component
  mounted over that table (`Launch`), lookups in it, and the batch
  behaviour over it.
- `gemini_service.dfy` (module `GeminiService`): the data-URL prefix
  stripping (`cleanBase64`), the two prompt templates, the missing-key
  guard, the remote call as an oracle, and the loop that returns the first
  inline image of a response wrapped as a PNG data URL.
- `app.dfy` (module `App`): the application component as a class with its
  five state cells (`appState`, `originalImage`, `selectedScenarios`,
  `generatedResults`, `isGenerating`) and its handlers; the selection toggle,
  the `find` lookup and the success filter as functions; the batch as a loop
  over the selection proved against `BatchResults`. The batch functions take
  the scenario table as a parameter and the component holds it in a
  constant field; `Application.Launch` builds the component over
  `Catalog.Scenarios`, the table of constants.ts.
- `editor_modal.dfy` (module `EditorModal`): the per-image edit session as a
  pure transition `Edit` and as a class whose `HandleEdit` is proved against
  it; `onUpdateImage` invocations are recorded in a field.
- `result_gallery.dfy` (module `ResultGallery`): the gallery's local copy of
  the results, the update-by-id that edits report through, and the wiring of
  the modal's callback to it.
- `types.dfy`, `wrappers.dfy`, `text.dfy`: the shared records, Option and
  Result, and the two JavaScript string operations used (`trim` with
  ECMAScript's whitespace set, and decimal rendering of a timestamp).

Each remote call is an oracle: a `Client` holds the API key and a function
from the request sent to how the call settles (`Delivered(response)` or
`Rejected(message)`). `Date.now()` is a parameter (`clock`).

Behaviours of the code worth stating outright, since a reader might expect
otherwise:

- `handleToggleScenario` does not consult the catalog: an unknown id is
  appended like any other (`Application.ToggleIgnoresCatalog`); unknown ids are only
  skipped when the batch runs (App.tsx:37-38).
- The selection is a list, not a set; toggling a present id twice moves it
  to the end (`App.TogglePresentTwice`).
- Results come in selection order, because `Promise.all` keeps the order of
  its input (App.tsx:58-59), not in completion order.
- `handleRestart` does not clear `isGenerating` (App.tsx:71-76).
- `!originalImage` also treats an empty image string as absent, so the
  batch guard is `App.HasImage`, not just "an image was submitted".

## Model

| member | source | states |
|---|---|---|
| `Text.TrimStartSpec` | components/EditorModal.tsx:19 | the leading part `trim` drops is all whitespace, what remains is a suffix of the input and does not start with whitespace |
| `Text.TrimEndSpec` | components/EditorModal.tsx:19 | the trailing part `trim` drops is all whitespace, what remains is a prefix of the input and does not end with whitespace |
| `Text.Trim` | components/EditorModal.tsx:19 | `s.trim()` as `TrimEnd(TrimStart(s))`; no contract of its own, see `Text.TrimStartSpec`, `Text.TrimEndSpec`, `Text.TrimEmptyIffBlank` |
| `Text.TrimEmptyIffBlank` | components/EditorModal.tsx:19 | `!prompt.trim()` holds exactly when every character of the prompt is ECMAScript whitespace (the empty prompt included) |
| `Text.Decimal` | App.tsx:44 | the timestamp in a result id renders as a non-empty run of decimal digits without a leading zero (except "0" itself) |
| `Text.DigitsValueAppend` | App.tsx:44 | reading a digit string from the left, one more digit multiplies the value by ten and adds the digit |
| `Text.DecimalRoundTrip` | App.tsx:44 | reading the rendering of `n` back from the left gives `n` |
| `Catalog.CatalogShape` | constants.ts:3-46 | the catalog has six entries with ids mug, billboard, tshirt, magazine, tote, instagram, pairwise distinct |
| `Catalog.CatalogNames` | constants.ts:3-46 | the six names in catalog order are Coffee Mug, City Billboard, T-Shirt Model, Magazine Spread, Canvas Tote Bag, Social Media Story |
| `Catalog.CatalogNamesDistinct` | constants.ts:3-46 | no two scenarios share a name |
| `Application.Launch` | App.tsx:7-15 | the page mounts a fresh component over the six-entry table, on the upload screen with no image, no selection, no results and not generating |
| `Application.Find` | App.tsx:37 | `SCENARIOS.find(s => s.id === id)` over the real catalog; no contract of its own, see `Application.FindKnownIds`, `Application.FindSucceedsIffCatalogId` |
| `Application.FindKnownIds` | constants.ts:5-20 | looking up `mug` yields "Coffee Mug" and `tshirt` yields "T-Shirt Model" |
| `Application.FindSucceedsIffCatalogId` | App.tsx:37-38 | a lookup succeeds exactly for the six catalog ids and then yields the entry with that id; every other id yields nothing, so the batch skips it |
| `Catalog.IconsAreKnown` | constants.ts:9-44 | every scenario's icon key is one of the six keys of the selector's icon table |
| `Application.ToggleIgnoresCatalog` | App.tsx:22-26 | an id outside the catalog is appended, not ignored |
| `Application.MugAndTShirtBothSucceed` | App.tsx:36-59 | selecting mug and tshirt with the two calls sent succeeding yields two results named "Coffee Mug" and "T-Shirt Model", in that order |
| `Application.MugAloneFailing` | App.tsx:36-59 | selecting only mug with its call failing yields no result |
| `GeminiService.MatchedPrefix` | services/geminiService.ts:7 | the anchored data-URL pattern for png, jpeg, jpg or webp, tried alternative by alternative; no contract of its own, see `GeminiService.MatchedPrefixIsAlternative`, `GeminiService.PrefixAlternativesExclusive` |
| `GeminiService.CleanBase64` | services/geminiService.ts:6-8 | `cleanBase64`: one `replace` of the matched prefix by the empty string; no contract of its own, see `GeminiService.CleanBase64Strips`, `GeminiService.CleanUnwrapsPng`, `GeminiService.CleanStripsOnlyOnce` |
| `GeminiService.WrapPng` | services/geminiService.ts:43 | the returned `data:image/png;base64,` data URL; no contract of its own, see `GeminiService.CleanUnwrapsPng`, `GeminiService.SuccessStripsToPayload` |
| `GeminiService.MatchedPrefixIsAlternative` | services/geminiService.ts:7 | a match of the anchored data-URL pattern is the prefix for png, jpeg, jpg or webp and starts the string; there is no match exactly when no alternative's prefix starts it |
| `GeminiService.CleanBase64Strips` | services/geminiService.ts:6-8 | the result is a suffix of the input; with a matching prefix the input is that prefix followed by the result; otherwise the input is returned unchanged |
| `GeminiService.PrefixAlternativesExclusive` | services/geminiService.ts:7 | at most one alternative of the pattern matches a given string, so the order they are tried in does not matter |
| `GeminiService.CleanUnwrapsPng` | services/geminiService.ts:43 | round trip: cleaning `data:image/png;base64,` + d gives back d for every d |
| `GeminiService.CleanStripsOnlyOnce` | services/geminiService.ts:7 | only one prefix is removed: a doubly wrapped payload keeps one prefix |
| `GeminiService.GenerationText` | services/geminiService.ts:27 | the prompt followed by the fixed consistency sentence; no contract of its own, see `GeminiService.GenerationTextInjective` |
| `GeminiService.EditText` | services/geminiService.ts:69 | the instruction inside the fixed edit template; no contract of its own, see `GeminiService.EditTextInjective` |
| `GeminiService.GenerationTextInjective` | services/geminiService.ts:27 | the generation text (prompt followed by the fixed consistency sentence) determines the prompt |
| `GeminiService.EditTextInjective` | services/geminiService.ts:69 | the edit text `Edit the following image: … . Return the modified image.` determines the instruction |
| `GeminiService.ResolveApiKey` | services/geminiService.ts:3 | the key is empty exactly when the variable is unset or empty |
| `GeminiService.EnvironmentKeyGuardsCalls` | services/geminiService.ts:3-14 | a client keyed from the environment fails with the missing-key error exactly when the variable is unset or empty |
| `GeminiService.ResponseParts` | services/geminiService.ts:41 | the first candidate's parts, or nothing when any link is missing; no contract of its own, see `GeminiService.ExtractImage` |
| `GeminiService.FirstInlineIndex` | services/geminiService.ts:41-45 | yields the first part carrying inline data (all earlier parts carry none), or nothing when no part carries any |
| `GeminiService.ExtractImage` | services/geminiService.ts:41-47 | the loop returns the PNG data URL of the first inline part's data, and fails with NoImageInResponse exactly when no part (or no candidate) carries inline data |
| `GeminiService.ImageFromResponse` | services/geminiService.ts:41-47 | the PNG data URL of the first inline part, or the no-image error; no contract of its own, see `GeminiService.ExtractImage` (the loop proved equal to it) and `GeminiService.SuccessStripsToPayload` |
| `GeminiService.CallOutcome` | services/geminiService.ts:14-47 | how one guarded call settles: missing key, rejection, or extraction; no contract of its own, see `GeminiService.Call` (proved equal to it) and `GeminiService.EnvironmentKeyGuardsCalls` |
| `GeminiService.Call` | services/geminiService.ts:14-47 | with an empty key no request is sent and the result is MissingApiKey; otherwise exactly the given request is sent, a rejection is an error and a response goes through the extraction |
| `GeminiService.GenerateMarketingImage` | services/geminiService.ts:10-52 | sends the source payload cleaned of its data-URL prefix with the prompt plus the consistency sentence, unless the key is empty |
| `GeminiService.EditGeneratedImage` | services/geminiService.ts:54-92 | sends the image cleaned of its prefix with the edit template around the instruction, unless the key is empty |
| `GeminiService.SuccessStripsToPayload` | services/geminiService.ts:43 | a successful call returns a data URL that cleans back to the raw data of the response's first inline part |
| `App.RemoveAll` | App.tsx:24 | the filter keeps exactly the members other than the id, and no more entries than before |
| `App.Toggle` | App.tsx:22-26 | after a toggle the id is a member exactly when it was not; membership of every other id is unchanged; an absent id is appended at the end of the unchanged selection |
| `App.RemoveAllConcat` | App.tsx:24 | `filter` distributes over concatenation, so it keeps the order of the remaining ids |
| `App.RemoveAllSingle` | App.tsx:24 | `filter` on one id keeps it exactly when it differs from the removed id |
| `App.RemoveAllCounts` | App.tsx:24 | `filter` drops every occurrence of the id and keeps every other id with its multiplicity |
| `App.ToggleKeepsDistinct` | App.tsx:22-26 | a selection without duplicates stays without duplicates |
| `App.ToggleAbsentTwice` | App.tsx:24 | toggling an absent id twice restores the exact list |
| `App.TogglePresentTwice` | App.tsx:24 | toggling a present id twice restores the same members, with the id moved to the end |
| `App.FindScenario` | App.tsx:37 | `find` yields nothing exactly when no entry carries the id, and otherwise an entry of the table carrying that id |
| `App.FindScenarioFirst` | App.tsx:37 | the entry `find` yields is the first one carrying the id |
| `App.NamesIdentifyEntries` | App.tsx:37 | in a table whose names are distinct, two entries with the same name are the same entry |
| `App.ResultId` | App.tsx:44 | `${scenarioId}-${Date.now()}`; no contract of its own, see `Text.Decimal`, `Text.DecimalRoundTrip`, `App.BatchResultsFromSelection` (ids start with the scenario id and `-`) |
| `App.Attempt` | App.tsx:37-54 | one element of the map: null for an unknown id or a failed call, else the new record; no contract of its own, see `App.GenerateForScenario` (proved equal to it), `App.AllFailedYieldsEmpty`, `App.MissingKeyYieldsEmpty` |
| `App.Attempts` | App.tsx:36-55 | one settled value per selected id, in selection order, each the attempt for that id |
| `App.Successes` | App.tsx:59 | the filtered list is no longer than the settled list |
| `App.SuccessesMembers` | App.tsx:59 | a value is in the filtered list exactly when some settled entry holds it |
| `App.SuccessesAllNone` | App.tsx:59 | when every settled value is null the filtered list is empty |
| `App.SuccessesAllSome` | App.tsx:59 | when no settled value is null nothing is dropped |
| `App.SuccessIndices` | App.tsx:58-59 | positions in range whose settled values are not null |
| `App.SuccessIndicesAscending` | App.tsx:58-59 | the positions are strictly ascending |
| `App.SuccessIndicesComplete` | App.tsx:58-59 | every non-null position is among them |
| `App.SuccessesInOrder` | App.tsx:58-59 | the filtered list is the settled values at those positions, in the same order |
| `App.OneGapDropsOne` | App.tsx:59 | exactly one null among the settled values drops exactly one element |
| `App.BatchResults` | App.tsx:36-59 | the successes of the attempts over the selection; no contract of its own, see `App.BatchResultsFromSelection`, `App.BatchResultsKeepImage`, `App.BatchResultsInSelectionOrder` |
| `App.BatchResultsFromSelection` | App.tsx:36-59 | a batch has at most as many results as selected ids, and each result has the name and prompt template of a known selected scenario, the source image, and an id that starts with the scenario id and `-` |
| `App.BatchResultsKeepImage` | App.tsx:45 | every result of a batch carries the batch's source image |
| `App.BatchResultsInSelectionOrder` | App.tsx:36-59 | the k-th result is the record of the k-th successful selected id: the positions ascend and include every selected id whose attempt succeeded, so results are the successful part of the selection in its order |
| `App.AllFailedYieldsEmpty` | App.tsx:51-59 | when every call fails or every id is unknown the result list is empty, with no error |
| `App.MissingKeyYieldsEmpty` | App.tsx:40-54 | with an empty API key every batch yields an empty list |
| `App.FailedScenarioNotShown` | App.tsx:36-59 | when the attempt for a known selected id fails, among distinct ids over a table with distinct names, no result carries that scenario's name |
| `App.OneFailureDropsOne` | App.tsx:36-59 | one failing call among distinct selected ids that otherwise succeed gives one result fewer than selected, none of them for the failed scenario |
| `App.TwoSucceedInOrder` | App.tsx:36-59 | two known selected ids whose two calls succeed yield two results, named after the two scenarios in selection order |
| `App.AloneFailing` | App.tsx:36-59 | a single known selected id whose call fails yields no result |
| `App.GenerateForScenario` | App.tsx:37-54 | one element of the map: unknown id or failed call settles to null, a success to the record built from the scenario, the source image and the returned URL |
| `App.GenerateAll` | App.tsx:36-58 | the loop attempts every selected id and the settled values keep selection order |
| `App.HasImage` | App.tsx:29 | `!originalImage` is false: an image is present and not the empty string; no contract of its own, see the guard clause of `App.AppComponent.HandleGenerate` |
| `App.AppComponent.constructor` | App.tsx:11-15 | starts over the given scenario table on the upload screen with no image, no selection, no results and not generating |
| `App.AppComponent.HandleImageSelected` | App.tsx:17-20 | stores the image and moves to scenario selection, keeping selection, results and flag |
| `App.AppComponent.HandleToggleScenario` | App.tsx:22-26 | the selection becomes its toggle and nothing else changes; the selection stays free of duplicates |
| `App.AppComponent.HandleGenerate` | App.tsx:28-69 | does nothing without a non-empty image or with an empty selection; otherwise ends on the results screen, not generating, with the filtered batch as results and image and selection kept; the results screen only shows results of the current image, as long as handlers run one at a time (see Left out) |
| `App.AppComponent.HandleRestart` | App.tsx:71-76 | from any state: upload screen, no image, empty selection, empty results; the in-progress flag is left as it was |
| `App.AppComponent.ChangeImage` | App.tsx:122 | only the screen changes, to upload; image, selection and results are kept |
| `EditorModal.Open` | components/EditorModal.tsx:13-16 | the session starts from the image's URL, with an empty prompt, not editing and no error |
| `EditorModal.ApplyEnabled` | components/EditorModal.tsx:101 | the negation of the Apply button's `disabled` expression; no contract of its own, see `EditorModal.ApplyEnabledIff` |
| `EditorModal.Edit` | components/EditorModal.tsx:18-34 | `handleEdit` as a transition of the session state and the URL reported to the gallery; no contract of its own, see `EditorModal.BlankPromptChangesNothing`, `EditorModal.EditOutcomes`, `EditorModal.EditsChain`, `EditorModal.EditorState.HandleEdit` |
| `EditorModal.ApplyEnabledIff` | components/EditorModal.tsx:101 | Apply is enabled exactly when no edit is running and the prompt has a non-whitespace character |
| `EditorModal.BlankPromptChangesNothing` | components/EditorModal.tsx:19 | an edit with an empty or whitespace-only prompt changes no state and invokes no callback |
| `EditorModal.EditOutcomes` | components/EditorModal.tsx:18-34 | a success makes the new URL current, reports it once, clears prompt and error; a failure keeps URL and prompt, reports nothing and shows the fixed retry message; the in-flight flag ends false either way |
| `EditorModal.EditsChain` | components/EditorModal.tsx:24-26 | after a successful edit the next edit is applied to its output, never to the session's starting version |
| `EditorModal.EditorState.constructor` | components/EditorModal.tsx:12-16 | the modal's state cells start as `Open(image)` and no callback has been invoked |
| `EditorModal.EditorState.SetPrompt` | components/EditorModal.tsx:94 | typing changes only the prompt |
| `EditorModal.EditorState.HandleEdit` | components/EditorModal.tsx:18-34 | the state cells become `Edit`'s next state and the callback log grows by `(image.id, url)` exactly when the edit succeeded |
| `ResultGallery.WithUrlIfMatch` | components/ResultGallery.tsx:22 | one element of the `map`: the URL is replaced exactly when the id matches; no contract of its own, see `ResultGallery.ReplaceUrl` |
| `ResultGallery.ReplaceUrl` | components/ResultGallery.tsx:21-23 | same length; every entry keeps all fields but `imageUrl`, which becomes the new URL exactly on entries with the id |
| `ResultGallery.ReplaceUrlKeepsIds` | components/ResultGallery.tsx:21-23 | the ids, and so the order of the cards, are unchanged |
| `ResultGallery.ReplaceUrlLeavesOthers` | components/ResultGallery.tsx:22 | entries with another id are left exactly as they were |
| `ResultGallery.ReplaceUrlUnknownId` | components/ResultGallery.tsx:22 | an id no entry carries leaves the list unchanged |
| `ResultGallery.ReplaceUrlIdempotent` | components/ResultGallery.tsx:21-23 | applying the same update twice equals applying it once |
| `ResultGallery.GalleryState.constructor` | components/ResultGallery.tsx:14 | the gallery list starts equal to the results, with nothing selected |
| `ResultGallery.GalleryState.SelectImage` | components/ResultGallery.tsx:70 | opening a card selects that card's image; the selected image is always one of the cards, as long as handlers run one at a time (see Left out) |
| `ResultGallery.GalleryState.CloseEditor` | components/ResultGallery.tsx:108 | closing the modal clears the selection only |
| `ResultGallery.GalleryState.HandleUpdateImage` | components/ResultGallery.tsx:20-29 | the list becomes its update by id; the selected image takes the new URL only when its id matches, otherwise it is unchanged |
| `ResultGallery.EditInModal` | components/ResultGallery.tsx:105-110 | an edit in the modal that reports a URL updates the cards with the edited image's id, and the selected image when it carries that id, leaving any other selection as it was; an edit that reports nothing leaves the gallery unchanged |

## Left out

- The remote model (`GoogleGenAI`, `generateContent`): an oracle from the
  request to how the call settles. The oracle is a function, so two
  identical requests settle the same way; a real model may answer them
  differently. Model name and MIME type are recorded in the request only.
- Concurrency of `Promise.all`: the batch is a sequential loop in selection
  order. Results of a batch that arrive after a restart, and a second batch
  started while one is running, are not modelled. `isGenerating` is set
  before the loop and cleared after it, so its true value is never visible
  between handler calls.
- Interleaving of a running batch with other handlers: `App.AppComponent.HandleGenerate`
  runs as one atomic step, and the `Valid()` conjunct "on the results screen
  every result carries the current image" relies on that. In the source the
  "Change image" button (App.tsx:122) is not disabled during a batch, the
  upload handler (App.tsx:17-20) stays live and the scenario cards stay
  clickable (components/ScenarioSelector.tsx:63), so a user can replace the
  image or change the selection while the batch runs; when it settles,
  App.tsx:61-62 shows results built from the old image and old selection.
  The model does not capture that state.
- Interleaving of an edit with the gallery: `ResultGallery.GalleryState.HandleUpdateImage`
  and `ResultGallery.EditInModal` run as one step, and the `Valid()` conjunct
  "the selected image is one of the cards" relies on that. In the source
  `handleUpdateImage` tests the `selectedImage` its closure captured
  (components/ResultGallery.tsx:26) but rewrites the current one (:27): if the
  user closes image X's modal during an edit and opens card C, X's settling
  edit gives C's selected record X's URL, and that record is then no longer
  one of the cards. The model does not capture that state.
- The batch-level `catch` with its alert (App.tsx:63-65) is not modelled:
  every per-scenario promise catches its own error, so `Promise.all` cannot
  reject.
- `Date.now()`: `clock(i)` gives the time for the i-th selected id and is
  used for both reads in that record (id and timestamp), which in the source
  are two reads. Uniqueness of result ids cannot follow from wall-clock time
  and is not claimed.
- The Enter key calls `handleEdit` even while an edit is running
  (components/EditorModal.tsx:97); overlapping edits of one session are not
  modelled.
- `EditorModal.EditorState.HandleEdit` is one atomic step: the text input
  stays enabled while the call runs (components/EditorModal.tsx:91-98), and
  on success `setPrompt('')` (components/EditorModal.tsx:28) also wipes
  whatever was typed during the call; typing during an edit is not
  modelled.
- `console.error`, `alert`, downloads (components/EditorModal.tsx:36-43,
  components/ResultGallery.tsx:32-39), all rendering, the upload area's file
  reading and the selector's rendering: I/O and layout.
- Image contents and base64 validity: payloads are opaque strings.
  `inlineData.data` is taken to be present when `inlineData` is.
- `isLoading` is carried in the record but never set by this core.
