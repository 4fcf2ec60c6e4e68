# New-note card: a verified model of its dialog state machine

The notes app lets a user add a note through a dialog, `NewNoteCard`. In the
dialog the user either types the note or dictates it through the browser's
continuous speech recognition. When the note is saved, it goes to the parent
component through the `onNoteCreated` callback. This project models the
dialog's state and its event handlers in Dafny and proves what each handler
does to that state.

- `transcription.dfy`, module `Transcription`: the result callback's `reduce`.
  It is a left fold that starts from `''` and appends the first alternative's
  transcript of every result. It is proved equal to an independent reference
  definition (take the first alternatives, then join them). Further lemmas
  show that it distributes over concatenated result lists, only grows as
  results are added, reads only the best alternative, and fails exactly when
  some result has no alternative.
- `speech_api.dfy`, module `SpeechApi`: the availability test. It is written
  over a small model of JavaScript values, truthiness and `||`, which shows the
  test is always truthy. The module also has the module-level recognition
  session, modelled only as a listening flag that `start()` and `stop()` set.
- `new_note_card.dfy`, module `NoteCard`: class `NewNoteCard`. Its fields are
  the three `useState` values (`shouldShowOnboarding`, `content`,
  `isRecording`), a flag saying whether the card has installed its recognition
  callbacks, and `createdNotes`, the log of `onNoteCreated` calls. There is one
  method per handler, and each method states its whole effect on that state.
  `Valid()` is kept by every handler. It says the session listens exactly while
  `isRecording` holds, that a listening session has the card's callbacks, and
  that no empty note was ever emitted.
- `scenarios.dfy`, module `Scenarios`: whole interactions derived from the
  handlers' contracts. Dictate and save. Type, clear and retype. Save twice.
  Close while dictating. Deliver the same results twice.

Two render conditionals enter the model as preconditions. The text area, and
with it its change handler, is shown exactly when onboarding is hidden
(`ShowsTextarea`), so `ContentChanged` requires it. The save button exists only
while not recording, because the stop button takes its place
(`ShowsSaveButton`), so `Save` requires it.

The availability test `'SpeechRecognition' in window ||
'webkitSpeechRecognition'` has a non-empty string literal as its right operand.
So it is truthy in every browser. `StartRecording` therefore always starts
recording, and the unsupported-browser branch is dead. This has no visible
effect: the session object is built when the module loads
(`new-note-card.tsx:11-13`), so a browser without the API fails before the
card exists.

Three behaviours of the component are easy to miss:
- Closing the dialog does not clear the draft or stop a recording. It only
  brings back the onboarding prompt.
- Stopping a recording does not change the view.
- Starting a recording while one is running is not refused. It calls `start()`
  again, which the browser rejects while the session keeps listening (see
  "Left out"). Closing the dialog or clearing the text area while recording
  brings the record button back, so this can happen.

## Model

| member | source | states |
|---|---|---|
| `Transcription.TranscriptFromAppendsFirsts` | src/components/new-note-card.tsx:67-69 | folding from accumulated text `text` yields `text` followed by the joined first alternatives, when every result has one |
| `Transcription.TranscriptIsJoinOfFirsts` | src/components/new-note-card.tsx:67-69 | the handler's text is the in-order concatenation of each result's first-alternative transcript, starting from the empty string |
| `Transcription.TranscriptFromFailsIff` | src/components/new-note-card.tsx:68 | from any accumulated text, the fold fails exactly when some result has no alternative |
| `Transcription.TranscriptFailsIff` | src/components/new-note-card.tsx:68 | `result[0].transcript` throws for some result exactly when some result has no alternative; otherwise the fold yields a text |
| `Transcription.TranscriptAppend` | src/components/new-note-card.tsx:67-69 | the text of `a + b` is the text of `a` followed by the text of `b` |
| `Transcription.TranscriptOfPrefixIsPrefix` | src/components/new-note-card.tsx:67-69 | the text of a prefix of the result list is a prefix of the text of the whole list |
| `Transcription.TranscriptIgnoresLaterAlternatives` | src/components/new-note-card.tsx:63-68 | result lists that agree on every first alternative give the same text |
| `Transcription.FirstAlternatives` | src/components/new-note-card.tsx:68 | one transcript per result, the first alternative of that result, in order |
| `SpeechApi.JsOr` | src/components/new-note-card.tsx:50 | JavaScript `a or b` (written with two bars) returns one of its operands and is truthy iff either operand is |
| `SpeechApi.AvailabilityCheck` | src/components/new-note-card.tsx:50 | the availability test is truthy whether or not `SpeechRecognition` is in `window`; without it the value is the string `'webkitSpeechRecognition'` |
| `SpeechApi.SpeechRecognition.constructor` | src/components/new-note-card.tsx:13 | the session created at module load is not listening |
| `SpeechApi.SpeechRecognition.Start` | src/components/new-note-card.tsx:78 | `start()` leaves the session listening |
| `SpeechApi.SpeechRecognition.Stop` | src/components/new-note-card.tsx:85 | `stop()` leaves the session not listening |
| `NoteCard.NewNoteCard.constructor` | src/components/new-note-card.tsx:17-19 | initially onboarding is shown, the draft is empty, nothing is recording and no note has been emitted |
| `NoteCard.NewNoteCard.StartEditor` | src/components/new-note-card.tsx:22-24 | onboarding is hidden and nothing else changes |
| `NoteCard.NewNoteCard.ContentChanged` | src/components/new-note-card.tsx:27-32 | the draft becomes the new value; onboarding is shown if the value is empty and otherwise stays as it was; recording is untouched; callable only while the text area is shown (lines 117-138) |
| `NoteCard.NewNoteCard.Save` | src/components/new-note-card.tsx:34-47 | an empty draft changes nothing and emits nothing; a non-empty draft is emitted exactly once, untrimmed, and then the draft is empty and onboarding is shown; recording is untouched; callable only while the save button is shown (lines 142-157) |
| `NoteCard.NewNoteCard.StartRecording` | src/components/new-note-card.tsx:49-79 | always succeeds: recording is on, onboarding hidden, callbacks installed, session listening, draft and emitted notes unchanged |
| `NoteCard.NewNoteCard.OnResult` | src/components/new-note-card.tsx:66-72 | once the callback is installed, the draft is replaced by the transcript of the whole result list (not appended to); if the fold throws, or no callback is installed, the draft stays; nothing else changes |
| `NoteCard.NewNoteCard.OnError` | src/components/new-note-card.tsx:74-76 | an error event changes no state |
| `NoteCard.NewNoteCard.StopRecording` | src/components/new-note-card.tsx:81-87 | recording is off and the session stops listening; draft and view are unchanged |
| `NoteCard.NewNoteCard.OpenChanged` | src/components/new-note-card.tsx:90 | closing shows onboarding again; opening changes nothing; the draft and recording are never touched |
| `Scenarios.DictateStopAndSave` | src/components/new-note-card.tsx:34-87 | start, results `[["Oi"]]` then `[["Oi"], [" tudo bem"]]`, stop, save: exactly `"Oi tudo bem"` is emitted, once, and the card ends at onboarding with an empty draft |
| `Scenarios.TypeClearRetypeAndSave` | src/components/new-note-card.tsx:22-47 | type "test", clear (onboarding returns), type "test2", save: only "test2" is emitted |
| `Scenarios.SaveTwiceEmitsOnce` | src/components/new-note-card.tsx:34-47 | two saves in a row emit a non-empty draft once and an empty one never |
| `Scenarios.CloseWhileRecording` | src/components/new-note-card.tsx:66-90 | after closing during dictation the draft and the recording remain, and a later result still rewrites the draft |
| `Scenarios.RedeliveredResultsAreIdempotent` | src/components/new-note-card.tsx:66-72 | delivering a result list twice leaves the draft as one delivery does |

## Left out

- JSX rendering, styling and the Radix dialog parts (lines 89-163) are not modelled. Only the two view conditions above are used.
- The dialog's own open state is not modelled. It belongs to the dialog component, not to the card.
- `toast.success` (line 46), `alert` (line 53) and `console.log` (line 75) are not modelled. They are external notices with no state in the card.
- The session's configuration (`lang`, `continuous`, `maxAlternatives`, `interimResults`, lines 61-64) is not modelled. It is platform data, and only the listening flag is kept.
- The platform ending a session by itself is not modelled. The component installs no handler for it, and `Valid()` assumes only `start()` and `stop()` change the flag.
- The `InvalidStateError` that a browser raises when `start()` is called on a session that is already listening is not modelled. It is platform behaviour outside the component; in the model a second `start()` leaves the session listening, which is what the user sees.
- One card per recognition session is assumed. The component shares one module-level session among all cards, but the app renders a single card.
- `event.preventDefault()` (line 35) and text-area focus (line 134) are not modelled. They are browser effects with no state in the card.
- React's batched, asynchronous state updates are not modelled. Each handler is one atomic update.
- `StopRecording`: the null check at line 84 is not modelled as a branch. The session is a non-null object built once at module load, so the check always passes.
