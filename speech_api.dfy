/** The parts of the browser's speech-recognition platform that the note card
    touches: the availability test it evaluates before recording, and the
    recognition session object it starts and stops. */
module SpeechApi {

  /** The JavaScript values the availability test can evaluate to. */
  datatype JsValue = JsBool(b: bool) | JsString(s: string)

  /** JavaScript truthiness, for the values above. */
  predicate Truthy(v: JsValue)
  {
    match v
    case JsBool(b) => b
    case JsString(s) => s != []
  }

  /** JavaScript `a || b`: the left operand when it is truthy, else the right. */
  function JsOr(a: JsValue, b: JsValue): (r: JsValue)
    ensures r == a || r == b
    ensures Truthy(r) <==> Truthy(a) || Truthy(b)
  {
    if Truthy(a) then a else b
  }

  /** The test `'SpeechRecognition' in window || 'webkitSpeechRecognition'`.
      Its right operand is a non-empty string literal rather than a second
      `in window` test, so the value is truthy whatever the browser offers. */
  function AvailabilityCheck(speechRecognitionInWindow: bool): (v: JsValue)
    ensures Truthy(v)
    ensures !speechRecognitionInWindow ==> v == JsString("webkitSpeechRecognition")
  {
    JsOr(JsBool(speechRecognitionInWindow), JsString("webkitSpeechRecognition"))
  }

  /** The recognition session, created once when the module loads. Only
      whether it is listening is modelled; its configuration is not. */
  class SpeechRecognition {
    var listening: bool

    constructor ()
      ensures !listening
    {
      listening := false;
    }

    method Start()
      modifies this
      ensures listening
    {
      listening := true;
    }

    method Stop()
      modifies this
      ensures !listening
    {
      listening := false;
    }
  }
}
