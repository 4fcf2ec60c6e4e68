/** The transcription adapter of the note card: how the list of results that a
    speech-recognition event carries becomes the text of the draft note.
    The component's result handler builds that text with a `reduce` that starts from the empty
    string and appends the transcript of the first alternative of every result,
    in order. */
module Transcription {

  datatype Option<+T> = None | Some(value: T)

  /** One recognition result: the transcripts of its alternatives, best first. */
  type RecognitionResult = seq<string>

  /** The results of one event, in segment order. */
  type RecognitionResults = seq<RecognitionResult>

  /** Every result carries at least one alternative, so `result[0]` exists. */
  predicate EveryResultHasAlternative(results: RecognitionResults)
  {
    forall i :: 0 <= i < |results| ==> results[i] != []
  }

  /** The `reduce` callback applied from accumulated text `text` over `results`.
      A result without alternatives makes `result[0].transcript` throw, which
      is `None` here. */
  function TranscriptFrom(text: string, results: RecognitionResults): Option<string>
    decreases |results|
  {
    if results == [] then Some(text)
    else if results[0] == [] then None
    else TranscriptFrom(text + results[0][0], results[1..])
  }

  /** The text the result handler computes: the fold started from `''`. */
  function Transcript(results: RecognitionResults): Option<string>
  {
    TranscriptFrom("", results)
  }

  // Reference definition, independent of the fold: pick the first alternative
  // of each result, then join the pieces.

  function FirstAlternatives(results: RecognitionResults): (firsts: seq<string>)
    requires EveryResultHasAlternative(results)
    ensures |firsts| == |results|
    ensures forall i :: 0 <= i < |results| ==> firsts[i] == results[i][0]
  {
    if results == [] then [] else [results[0][0]] + FirstAlternatives(results[1..])
  }

  function Join(pieces: seq<string>): string
  {
    if pieces == [] then "" else pieces[0] + Join(pieces[1..])
  }

  lemma {:induction false} JoinAppend(a: seq<string>, b: seq<string>)
    ensures Join(a + b) == Join(a) + Join(b)
  {
    if a == [] {
      assert a + b == b;
    } else {
      assert (a + b)[1..] == a[1..] + b;
      JoinAppend(a[1..], b);
    }
  }

  lemma {:induction false} FirstAlternativesAppend(a: RecognitionResults, b: RecognitionResults)
    requires EveryResultHasAlternative(a) && EveryResultHasAlternative(b)
    ensures EveryResultHasAlternative(a + b)
    ensures FirstAlternatives(a + b) == FirstAlternatives(a) + FirstAlternatives(b)
  {
    assert forall i :: 0 <= i < |a + b| ==> (a + b)[i] == if i < |a| then a[i] else b[i - |a|];
    var lhs, rhs := FirstAlternatives(a + b), FirstAlternatives(a) + FirstAlternatives(b);
    assert |lhs| == |rhs|;
    forall i | 0 <= i < |lhs| ensures lhs[i] == rhs[i] {
      if i < |a| {
        assert lhs[i] == (a + b)[i][0] == a[i][0];
      } else {
        assert lhs[i] == (a + b)[i][0] == b[i - |a|][0];
      }
    }
  }

  /** The fold appends exactly the reference text to what it started from. */
  lemma {:induction false} TranscriptFromAppendsFirsts(text: string, results: RecognitionResults)
    requires EveryResultHasAlternative(results)
    ensures TranscriptFrom(text, results) == Some(text + Join(FirstAlternatives(results)))
    decreases |results|
  {
    if results != [] {
      assert EveryResultHasAlternative(results[1..]) by {
        forall i | 0 <= i < |results[1..]| ensures results[1..][i] != [] {
          assert results[1..][i] == results[i + 1];
        }
      }
      TranscriptFromAppendsFirsts(text + results[0][0], results[1..]);
      var firsts := FirstAlternatives(results);
      assert firsts == [results[0][0]] + FirstAlternatives(results[1..]);
      assert firsts[1..] == FirstAlternatives(results[1..]);
      assert (text + results[0][0]) + Join(firsts[1..]) == text + (firsts[0] + Join(firsts[1..]));
    } else {
      assert text + "" == text;
    }
  }

  /** When every result has an alternative, the handler's text is the in-order
      concatenation of the first alternatives, and nothing else. */
  lemma TranscriptIsJoinOfFirsts(results: RecognitionResults)
    requires EveryResultHasAlternative(results)
    ensures Transcript(results) == Some(Join(FirstAlternatives(results)))
  {
    TranscriptFromAppendsFirsts("", results);
    assert "" + Join(FirstAlternatives(results)) == Join(FirstAlternatives(results));
  }

  lemma {:induction false} TranscriptFromFailsIff(text: string, results: RecognitionResults)
    ensures TranscriptFrom(text, results).None? <==> !EveryResultHasAlternative(results)
    decreases |results|
  {
    if results != [] && results[0] != [] {
      TranscriptFromFailsIff(text + results[0][0], results[1..]);
      if !EveryResultHasAlternative(results) {
        var i :| 0 <= i < |results| && results[i] == [];
        assert results[1..][i - 1] == results[i];
      }
      if !EveryResultHasAlternative(results[1..]) {
        var i :| 0 <= i < |results[1..]| && results[1..][i] == [];
        assert results[i + 1] == [];
      }
    }
  }

  /** The handler throws (and so leaves the note alone) exactly when some
      result has no alternative. */
  lemma TranscriptFailsIff(results: RecognitionResults)
    ensures Transcript(results).None? <==> !EveryResultHasAlternative(results)
  {
    TranscriptFromFailsIff("", results);
  }

  /** The transcript of a concatenated result list is the concatenation of the
      transcripts: the fold is a homomorphism from result lists to text. */
  lemma TranscriptAppend(a: RecognitionResults, b: RecognitionResults)
    requires EveryResultHasAlternative(a) && EveryResultHasAlternative(b)
    ensures Transcript(a).Some? && Transcript(b).Some?
    ensures Transcript(a + b) == Some(Transcript(a).value + Transcript(b).value)
  {
    FirstAlternativesAppend(a, b);
    TranscriptIsJoinOfFirsts(a);
    TranscriptIsJoinOfFirsts(b);
    TranscriptIsJoinOfFirsts(a + b);
    JoinAppend(FirstAlternatives(a), FirstAlternatives(b));
  }

  /** As the platform adds results to the list, the text only grows: the text
      of a prefix of the list is a prefix of the text of the whole list. */
  lemma TranscriptOfPrefixIsPrefix(results: RecognitionResults, n: nat)
    requires EveryResultHasAlternative(results)
    requires n <= |results|
    ensures Transcript(results[..n]).Some? && Transcript(results).Some?
    ensures Transcript(results[..n]).value <= Transcript(results).value
  {
    assert results == results[..n] + results[n..];
    assert EveryResultHasAlternative(results[..n]) by {
      forall i | 0 <= i < n ensures results[..n][i] != [] {
        assert results[..n][i] == results[i];
      }
    }
    assert EveryResultHasAlternative(results[n..]) by {
      forall i | 0 <= i < |results| - n ensures results[n..][i] != [] {
        assert results[n..][i] == results[n + i];
      }
    }
    TranscriptAppend(results[..n], results[n..]);
  }

  /** Only the best alternative of each result matters: two result lists that
      agree on their first alternatives give the same text. */
  lemma TranscriptIgnoresLaterAlternatives(a: RecognitionResults, b: RecognitionResults)
    requires EveryResultHasAlternative(a) && EveryResultHasAlternative(b)
    requires |a| == |b|
    requires forall i :: 0 <= i < |a| ==> a[i][0] == b[i][0]
    ensures Transcript(a) == Transcript(b)
  {
    TranscriptIsJoinOfFirsts(a);
    TranscriptIsJoinOfFirsts(b);
    assert FirstAlternatives(a) == FirstAlternatives(b);
  }
}
