/** Whole interactions with the note card, derived from the handlers'
    contracts alone. */
module Scenarios {
  import opened Transcription
  import opened SpeechApi
  import opened NoteCard

  /** Dictate "Oi" and then " tudo bem" (the second event carries both
      results), stop and save: the parent receives the whole sentence once,
      and the card is back at onboarding with an empty draft. */
  method DictateStopAndSave(speechRecognitionInWindow: bool)
    returns (notes: seq<string>, content: string, onboarding: bool)
    ensures notes == ["Oi tudo bem"]
    ensures content == "" && onboarding
  {
    var recognition := new SpeechRecognition();
    var card := new NewNoteCard(recognition);
    card.StartRecording(speechRecognitionInWindow);
    card.OnResult([["Oi"]]);
    assert card.content == "Oi";
    card.OnResult([["Oi"], [" tudo bem"]]);
    assert card.content == "Oi tudo bem";
    card.StopRecording();
    card.Save();
    notes, content, onboarding := card.createdNotes, card.content, card.shouldShowOnboarding;
  }

  /** Type, clear (which brings onboarding back), type again and save: only
      the text typed last is emitted. */
  method TypeClearRetypeAndSave()
    returns (notes: seq<string>, onboardingAfterClear: bool)
    ensures notes == ["test2"]
    ensures onboardingAfterClear
  {
    var recognition := new SpeechRecognition();
    var card := new NewNoteCard(recognition);
    card.StartEditor();
    card.ContentChanged("test");
    card.ContentChanged("");
    onboardingAfterClear := card.shouldShowOnboarding;
    card.StartEditor();
    card.ContentChanged("test2");
    card.Save();
    notes := card.createdNotes;
  }

  /** Saving twice in a row emits the note once: the first save empties the
      draft, so the second one is ignored. */
  method SaveTwiceEmitsOnce(text: string)
    returns (notes: seq<string>)
    ensures notes == if text == "" then [] else [text]
  {
    var recognition := new SpeechRecognition();
    var card := new NewNoteCard(recognition);
    card.StartEditor();
    card.ContentChanged(text);
    card.Save();
    card.Save();
    notes := card.createdNotes;
  }

  /** Closing the dialog while dictating shows onboarding again but keeps the
      draft and the recording; a later result still rewrites the draft. */
  method CloseWhileRecording(first: RecognitionResults, later: RecognitionResults)
    returns (contentAfterClose: string, recordingAfterClose: bool, finalContent: string)
    requires EveryResultHasAlternative(first) && EveryResultHasAlternative(later)
    ensures Transcript(first).Some? && Transcript(later).Some?
    ensures contentAfterClose == Transcript(first).value && recordingAfterClose
    ensures finalContent == Transcript(later).value
  {
    TranscriptFailsIff(first);
    TranscriptFailsIff(later);
    var recognition := new SpeechRecognition();
    var card := new NewNoteCard(recognition);
    card.StartRecording(false);
    card.OnResult(first);
    card.OpenChanged(false);
    contentAfterClose, recordingAfterClose := card.content, card.isRecording;
    card.OnResult(later);
    finalContent := card.content;
  }

  /** A result event replaces the draft instead of appending to it, so
      delivering the same result list again leaves the draft as it was. */
  method RedeliveredResultsAreIdempotent(card: NewNoteCard, results: RecognitionResults)
    requires card.Valid()
    modifies card
    ensures card.Valid()
    ensures card.content ==
      if old(card.handlersAttached) && Transcript(results).Some? then Transcript(results).value
      else old(card.content)
  {
    card.OnResult(results);
    ghost var once := card.content;
    card.OnResult(results);
    assert card.content == once;
  }
}
