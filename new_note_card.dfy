/** The note-creation dialog: its three pieces of state and the event handlers
    that change them. Each handler is one atomic update. */
module NoteCard {
  import opened Transcription
  import opened SpeechApi

  class NewNoteCard {
    /** Whether the onboarding prompt is shown instead of the text area. */
    var shouldShowOnboarding: bool
    /** The draft note. */
    var content: string
    /** Whether the stop button is shown instead of the save button. */
    var isRecording: bool
    /** Whether this card has installed its result and error callbacks on the
        recognition session. */
    var handlersAttached: bool
    /** Every note passed to the parent's `onNoteCreated`, in order. */
    var createdNotes: seq<string>
    /** The module-level recognition session. */
    const recognition: SpeechRecognition

    /** What every reachable state satisfies: the session listens exactly while
        the card shows it is recording, a listening session has this card's
        callbacks, and no empty note has ever been emitted. */
    ghost predicate Valid()
      reads this, recognition
    {
      && (isRecording <==> recognition.listening)
      && (isRecording ==> handlersAttached)
      && forall i :: 0 <= i < |createdNotes| ==> createdNotes[i] != ""
    }

    /** The text area is rendered exactly when onboarding is hidden. */
    predicate ShowsTextarea()
      reads this
    {
      !shouldShowOnboarding
    }

    /** The save button is rendered exactly when not recording; while
        recording the stop button takes its place. */
    predicate ShowsSaveButton()
      reads this
    {
      !isRecording
    }

    /** The initial state of the three `useState` hooks. */
    constructor (recognition: SpeechRecognition)
      requires !recognition.listening
      ensures Valid()
      ensures this.recognition == recognition
      ensures shouldShowOnboarding && content == "" && !isRecording
      ensures !handlersAttached && createdNotes == []
    {
      this.recognition := recognition;
      shouldShowOnboarding, content, isRecording := true, "", false;
      handlersAttached, createdNotes := false, [];
    }

    /** "Use text only": hide onboarding, nothing else. */
    method StartEditor()
      requires Valid()
      modifies this
      ensures Valid()
      ensures !shouldShowOnboarding
      ensures content == old(content) && isRecording == old(isRecording)
      ensures handlersAttached == old(handlersAttached) && createdNotes == old(createdNotes)
    {
      shouldShowOnboarding := false;
    }

    /** The text area's change handler, present only while the text area is
        rendered. Clearing the text brings onboarding back, also while
        recording; other text leaves the view as it was. */
    method ContentChanged(value: string)
      requires Valid()
      requires ShowsTextarea()
      modifies this
      ensures Valid()
      ensures content == value
      ensures shouldShowOnboarding == (value == "" || old(shouldShowOnboarding))
      ensures isRecording == old(isRecording)
      ensures handlersAttached == old(handlersAttached) && createdNotes == old(createdNotes)
    {
      content := value;
      if value == "" {
        shouldShowOnboarding := true;
      }
    }

    /** The save button's handler. An empty draft is ignored; otherwise the
        draft is emitted once, as it is, and the card goes back to onboarding
        with an empty draft. */
    method Save()
      requires Valid()
      requires ShowsSaveButton()
      modifies this
      ensures Valid()
      ensures old(content) == "" ==>
        && createdNotes == old(createdNotes)
        && content == "" && shouldShowOnboarding == old(shouldShowOnboarding)
      ensures old(content) != "" ==>
        && createdNotes == old(createdNotes) + [old(content)]
        && content == "" && shouldShowOnboarding
      ensures isRecording == old(isRecording) && handlersAttached == old(handlersAttached)
    {
      if content == "" {
        return;
      }
      createdNotes := createdNotes + [content];
      content := "";
      shouldShowOnboarding := true;
    }

    /** The record button's handler. `speechRecognitionInWindow` is whether
        the browser defines `SpeechRecognition`; the availability test passes
        either way, so recording always starts. */
    method StartRecording(speechRecognitionInWindow: bool)
      requires Valid()
      modifies this, recognition
      ensures Valid()
      ensures isRecording && !shouldShowOnboarding && recognition.listening
      ensures content == old(content) && createdNotes == old(createdNotes)
      ensures handlersAttached
    {
      var isAvailable := AvailabilityCheck(speechRecognitionInWindow);
      if !Truthy(isAvailable) {
        // The unsupported-browser alert; this branch cannot be taken.
        return;
      }
      isRecording := true;
      shouldShowOnboarding := false;
      handlersAttached := true;
      recognition.Start();
    }

    /** The session's result callback, once this card has installed it: the
        draft becomes the transcript of the whole result list, replacing what
        was there. A result without alternatives makes the callback throw
        before the draft is set. */
    method OnResult(results: RecognitionResults)
      requires Valid()
      modifies this
      ensures Valid()
      ensures content ==
        if handlersAttached && Transcript(results).Some? then Transcript(results).value
        else old(content)
      ensures shouldShowOnboarding == old(shouldShowOnboarding) && isRecording == old(isRecording)
      ensures handlersAttached == old(handlersAttached) && createdNotes == old(createdNotes)
    {
      if handlersAttached {
        var transcription := Transcript(results);
        if transcription.Some? {
          content := transcription.value;
        }
      }
    }

    /** The session's error callback only logs the error. */
    method OnError(error: string)
      requires Valid()
      ensures Valid()
      ensures unchanged(this)
    {
    }

    /** The stop button's handler: the card stops showing it is recording and
        the session stops listening; the draft and the view stay. */
    method StopRecording()
      requires Valid()
      modifies this, recognition
      ensures Valid()
      ensures !isRecording && !recognition.listening
      ensures content == old(content) && shouldShowOnboarding == old(shouldShowOnboarding)
      ensures handlersAttached == old(handlersAttached) && createdNotes == old(createdNotes)
    {
      isRecording := false;
      // The session is created at module load and never reset, so the
      // handler's null check always passes.
      recognition.Stop();
    }

    /** The dialog's `onOpenChange`: closing brings onboarding back; it keeps
        the draft and does not stop a recording. Opening changes nothing. */
    method OpenChanged(open: bool)
      requires Valid()
      modifies this
      ensures Valid()
      ensures shouldShowOnboarding == (!open || old(shouldShowOnboarding))
      ensures content == old(content) && isRecording == old(isRecording)
      ensures handlersAttached == old(handlersAttached) && createdNotes == old(createdNotes)
    {
      if !open {
        shouldShowOnboarding := true;
      }
    }
  }
}
