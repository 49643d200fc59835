/** The per-image edit session: a prompt, an in-flight flag, the current
    version of the image and an error message. Each edit is applied to the
    current version; a success replaces it, reports it through the update
    callback and clears the prompt; a failure keeps both and shows a fixed
    retry message. */
module EditorModal {
  import opened Wrappers
  import opened Types
  import Text
  import GeminiService

  const EditFailedMessage := "Failed to edit image. Please try again."

  /** The four state cells of the modal. */
  datatype Session = Session(prompt: string, isEditing: bool, currentImageUrl: string, error: Option<string>)

  /** The state after one edit and the URL handed to `onUpdateImage`, if
      the callback was invoked. */
  datatype EditEffect = EditEffect(after: Session, notified: Option<string>)

  /** The state when the modal opens on `image`. */
  function Open(image: GeneratedImage): (s: Session)
    ensures s.currentImageUrl == image.imageUrl
    ensures s.prompt == "" && !s.isEditing && s.error == None
  {
    Session("", false, image.imageUrl, None)
  }

  /** `disabled={isEditing || !prompt.trim()}`, negated. */
  predicate ApplyEnabled(s: Session) {
    !s.isEditing && Text.Trim(s.prompt) != ""
  }

  /** `handleEdit`, as a transition of the session state. */
  function Edit(s: Session, client: GeminiService.Client): EditEffect {
    if Text.Trim(s.prompt) == "" then EditEffect(s, None)
    else match GeminiService.EditOutcome(client, s.currentImageUrl, s.prompt)
      case Ok(url) => EditEffect(Session("", false, url, None), Some(url))
      case Err(_) => EditEffect(Session(s.prompt, false, s.currentImageUrl, Some(EditFailedMessage)), None)
  }

  /** Apply is enabled exactly when no edit is running and the prompt holds
      a character other than whitespace. */
  lemma ApplyEnabledIff(s: Session)
    ensures ApplyEnabled(s) <==> !s.isEditing && !Text.AllWhitespace(s.prompt)
  {
    Text.TrimEmptyIffBlank(s.prompt);
  }

  /** An empty or whitespace-only prompt changes nothing and calls nothing. */
  lemma BlankPromptChangesNothing(s: Session, client: GeminiService.Client)
    requires Text.AllWhitespace(s.prompt)
    ensures Edit(s, client) == EditEffect(s, None)
  {
    Text.TrimEmptyIffBlank(s.prompt);
  }

  /** A real edit sends the current version with the prompt; on success the
      new URL becomes current, is reported once and the prompt is cleared;
      on failure URL and prompt stay and the retry message is shown. Either
      way the in-flight flag ends false. */
  lemma EditOutcomes(s: Session, client: GeminiService.Client)
    requires !Text.AllWhitespace(s.prompt)
    ensures var e := Edit(s, client);
            var out := GeminiService.EditOutcome(client, s.currentImageUrl, s.prompt);
            && !e.after.isEditing
            && (out.Ok? ==> e.after.currentImageUrl == out.value && e.notified == Some(out.value)
                            && e.after.prompt == "" && e.after.error == None)
            && (out.Err? ==> e.after.currentImageUrl == s.currentImageUrl && e.notified == None
                             && e.after.prompt == s.prompt && e.after.error == Some(EditFailedMessage))
  {
    Text.TrimEmptyIffBlank(s.prompt);
  }

  /** Edits chain: after a successful first edit and a new prompt, the
      second edit is applied to the first edit's output, never to the
      version the session started from. */
  lemma EditsChain(s0: Session, client: GeminiService.Client, second: string)
    requires !Text.AllWhitespace(s0.prompt) && !Text.AllWhitespace(second)
    requires GeminiService.EditOutcome(client, s0.currentImageUrl, s0.prompt).Ok?
    ensures var u1 := GeminiService.EditOutcome(client, s0.currentImageUrl, s0.prompt).value;
            var s1 := Edit(s0, client).after.(prompt := second);
            && s1.currentImageUrl == u1
            && Edit(s1, client).after.currentImageUrl ==
                 match GeminiService.EditOutcome(client, u1, second)
                 case Ok(u2) => u2
                 case Err(_) => u1
  {
    EditOutcomes(s0, client);
    var s1 := Edit(s0, client).after.(prompt := second);
    EditOutcomes(s1, client);
  }

  /** The modal component's state; `updateCalls` records every invocation
      of `onUpdateImage(id, newUrl)`, oldest first. */
  class EditorState {
    const image: GeneratedImage
    var prompt: string
    var isEditing: bool
    var currentImageUrl: string
    var error: Option<string>
    var updateCalls: seq<(string, string)>

    function State(): Session
      reads this
    {
      Session(prompt, isEditing, currentImageUrl, error)
    }

    constructor (image: GeneratedImage)
      ensures this.image == image && State() == Open(image) && updateCalls == []
    {
      this.image := image;
      prompt := "";
      isEditing := false;
      currentImageUrl := image.imageUrl;
      error := None;
      updateCalls := [];
    }

    /** The input's `onChange`. */
    method SetPrompt(text: string)
      modifies this
      ensures State() == old(State()).(prompt := text) && updateCalls == old(updateCalls)
    {
      prompt := text;
    }

    /** `handleEdit` */
    method HandleEdit(client: GeminiService.Client)
      modifies this
      ensures State() == Edit(old(State()), client).after
      ensures updateCalls == old(updateCalls) +
        match Edit(old(State()), client).notified
        case Some(url) => [(image.id, url)]
        case None => []
    {
      ghost var e := Edit(State(), client);
      if Text.Trim(prompt) == "" {
        assert e.after == State() && e.notified == None;
        return;
      }
      isEditing := true;
      error := None;
      var outcome, _ := GeminiService.EditGeneratedImage(client, currentImageUrl, prompt);
      match outcome {
        case Ok(url) =>
          assert e == EditEffect(Session("", false, url, None), Some(url));
          currentImageUrl := url;
          updateCalls := updateCalls + [(image.id, url)];
          prompt := "";
        case Err(_) =>
          assert e.notified == None && e.after.error == Some(EditFailedMessage);
          error := Some(EditFailedMessage);
      }
      isEditing := false;
    }
  }
}
