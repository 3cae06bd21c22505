/** The speech-to-text hook: a recognizer whose event handlers keep four pieces of
    state — whether it is listening, the cumulative final transcript, the interim
    (provisional) text of the latest result event, and the last error message. */
module SpeechRecognition {
  import opened Wrappers

  /** One entry of a result event's `results` list: whether it is final, and the
      text of its best alternative. */
  type Result = (bool, string)

  const UnsupportedMessage := "Browser does not support Speech Recognition"
  const PermissionMessage := "Microphone access denied. Check permissions."
  const NetworkMessage := "Network error accessing speech service."
  const GenericPrefix := "Error: "

  /** The message shown for an error code reported by the engine. */
  function ErrorMessage(code: string): (m: string)
    ensures m == PermissionMessage <==> code == "not-allowed"
    ensures m == NetworkMessage <==> code == "network"
    ensures code != "not-allowed" && code != "network" ==>
              |m| == |GenericPrefix| + |code| && m[..|GenericPrefix|] == GenericPrefix && m[|GenericPrefix|..] == code
    ensures m != UnsupportedMessage
  {
    if code == "not-allowed" then PermissionMessage
    else if code == "network" then NetworkMessage
    else
      var m := GenericPrefix + code;
      assert m[0] == 'E' != PermissionMessage[0];
      assert m[0] != NetworkMessage[0] && m[0] != UnsupportedMessage[0];
      m
  }

  /** Different codes are never reported with the same message. */
  lemma ErrorMessageInjective(c1: string, c2: string)
    requires ErrorMessage(c1) == ErrorMessage(c2)
    ensures c1 == c2
  {
    if c1 != "not-allowed" && c1 != "network" && c2 != "not-allowed" && c2 != "network" {
      calc {
        c1;
        ErrorMessage(c1)[|GenericPrefix|..];
        ErrorMessage(c2)[|GenericPrefix|..];
        c2;
      }
    }
  }

  /** The concatenated texts of the results whose finality is `final`, in order. */
  function Joined(rs: seq<Result>, final: bool): string
  {
    if rs == [] then ""
    else Joined(rs[..|rs| - 1], final) + (if rs[|rs| - 1].0 == final then rs[|rs| - 1].1 else "")
  }

  /** The concatenated texts of all results, whatever their finality. */
  function AllText(rs: seq<Result>): string
  {
    if rs == [] then "" else AllText(rs[..|rs| - 1]) + rs[|rs| - 1].1
  }

  /** The results a result event asks the handler to look at: those from
      `resultIndex` to the end; none when the index lies past the end. */
  function Unseen(rs: seq<Result>, resultIndex: nat): (u: seq<Result>)
    ensures resultIndex <= |rs| ==> u == rs[resultIndex..]
    ensures resultIndex >= |rs| ==> u == []
  {
    if resultIndex <= |rs| then rs[resultIndex..] else []
  }

  /** The part of `Unseen` that a loop at index `i` has already scanned. */
  function Scanned(rs: seq<Result>, resultIndex: nat, i: nat): seq<Result>
  {
    if resultIndex <= i <= |rs| then rs[resultIndex..i] else []
  }

  /** Scanning one more result extends the joined text of its side by its text. */
  lemma ScanStep(rs: seq<Result>, resultIndex: nat, i: nat, final: bool)
    requires resultIndex <= i < |rs|
    ensures Joined(Scanned(rs, resultIndex, i + 1), final) ==
            Joined(Scanned(rs, resultIndex, i), final) + (if rs[i].0 == final then rs[i].1 else "")
  {
    assert Scanned(rs, resultIndex, i + 1)[..i - resultIndex] == Scanned(rs, resultIndex, i);
  }

  /** Splitting a run of results in two splits each joined text in two. */
  lemma {:induction false} JoinedAppend(a: seq<Result>, b: seq<Result>, final: bool)
    ensures Joined(a + b, final) == Joined(a, final) + Joined(b, final)
  {
    if b == [] {
      assert a + b == a;
    } else {
      assert (a + b)[..|a + b| - 1] == a + b[..|b| - 1];
      JoinedAppend(a, b[..|b| - 1], final);
    }
  }

  /** An event that starts where the previous one stopped counts every result exactly
      once: handling [i, j) and then [j, end) gives what handling [i, end) gives. */
  lemma {:induction false} ConsecutiveEventsCountOnce(rs: seq<Result>, i: nat, j: nat, final: bool)
    requires i <= j <= |rs|
    ensures Joined(rs[i..j], final) + Joined(Unseen(rs, j), final) == Joined(Unseen(rs, i), final)
  {
    assert rs[i..] == rs[i..j] + rs[j..];
    JoinedAppend(rs[i..j], rs[j..], final);
  }

  /** A batch with no final result adds no final text. */
  lemma {:induction false} NoFinalNoText(rs: seq<Result>)
    requires forall k :: 0 <= k < |rs| ==> !rs[k].0
    ensures Joined(rs, true) == ""
  {
    if rs != [] {
      NoFinalNoText(rs[..|rs| - 1]);
    }
  }

  /** A single result's text is joined on its own side and nowhere else. */
  lemma OneResultOneSide(r: Result, final: bool)
    ensures Joined([r], final) == if r.0 == final then r.1 else ""
  {
    assert [r][..0] == [];
  }

  /** Every result's text lands in exactly one of the two joined texts, at its own
      place: on its own side it sits between the texts of the results before and
      after it, and on the other side those two meet with nothing in between. */
  lemma {:induction false} FinalAndInterimPartition(rs: seq<Result>, k: nat)
    requires k < |rs|
    ensures Joined(rs, rs[k].0) == Joined(rs[..k], rs[k].0) + rs[k].1 + Joined(rs[k + 1..], rs[k].0)
    ensures Joined(rs, !rs[k].0) == Joined(rs[..k], !rs[k].0) + Joined(rs[k + 1..], !rs[k].0)
  {
    assert rs == rs[..k] + [rs[k]] + rs[k + 1..];
    forall final: bool
      ensures Joined(rs, final) == Joined(rs[..k], final) + Joined([rs[k]], final) + Joined(rs[k + 1..], final)
    {
      JoinedAppend(rs[..k] + [rs[k]], rs[k + 1..], final);
      JoinedAppend(rs[..k], [rs[k]], final);
    }
    OneResultOneSide(rs[k], rs[k].0);
    OneResultOneSide(rs[k], !rs[k].0);
  }

  /** The final and the interim texts together are exactly as long as all texts. */
  lemma {:induction false} FinalAndInterimLengths(rs: seq<Result>)
    ensures |Joined(rs, true)| + |Joined(rs, false)| == |AllText(rs)|
  {
    if rs != [] {
      FinalAndInterimLengths(rs[..|rs| - 1]);
    }
  }

  class Recognizer {
    /** Whether the browser offers a recognition implementation at all. */
    const supported: bool
    var isListening: bool
    var transcript: string
    var interimTranscript: string
    var error: Option<string>

    /** Mounting the hook: state starts empty; without an implementation the error
        is set and no handler is installed. */
    constructor (supported: bool)
      ensures this.supported == supported
      ensures !isListening && transcript == "" && interimTranscript == ""
      ensures error == if supported then None else Some(UnsupportedMessage)
    {
      this.supported := supported;
      isListening := false;
      transcript := "";
      interimTranscript := "";
      error := if supported then None else Some(UnsupportedMessage);
    }

    /** Setting the listening flag. The setup effect depends on the flag, so it runs
        again only when the value changes; without an implementation that re-run sets
        the unsupported error again. */
    method SetListening(want: bool)
      modifies this
      ensures isListening == want
      ensures transcript == old(transcript) && interimTranscript == old(interimTranscript)
      ensures error == if !supported && want != old(isListening) then Some(UnsupportedMessage) else old(error)
    {
      if want != isListening {
        isListening := want;
        if !supported {
          error := Some(UnsupportedMessage);
        }
      }
    }

    /** `startListening`; starting while already listening changes nothing. */
    method Start()
      modifies this
      ensures isListening
      ensures transcript == old(transcript) && interimTranscript == old(interimTranscript)
      ensures error == if !supported && !old(isListening) then Some(UnsupportedMessage) else old(error)
    {
      SetListening(true);
    }

    /** `stopListening`. */
    method Stop()
      modifies this
      ensures !isListening
      ensures transcript == old(transcript) && interimTranscript == old(interimTranscript)
      ensures error == if !supported && old(isListening) then Some(UnsupportedMessage) else old(error)
    {
      SetListening(false);
    }

    /** The engine's `start` event: listening, and any earlier error cleared. */
    method OnStart()
      modifies this
      ensures supported ==> isListening && error == None
      ensures !supported ==> isListening == old(isListening) && error == old(error)
      ensures transcript == old(transcript) && interimTranscript == old(interimTranscript)
    {
      if supported {
        isListening := true;
        error := None;
      }
    }

    /** The engine's `result` event: the results from `resultIndex` on are split into
        final and interim text; final text is appended to the transcript, interim text
        replaces the previous interim text. */
    method OnResult(results: seq<Result>, resultIndex: nat)
      modifies this`transcript, this`interimTranscript
      ensures supported ==> transcript == old(transcript) + Joined(Unseen(results, resultIndex), true)
      ensures supported ==> interimTranscript == Joined(Unseen(results, resultIndex), false)
      ensures !supported ==> transcript == old(transcript) && interimTranscript == old(interimTranscript)
      ensures isListening == old(isListening) && error == old(error)
    {
      if supported {
        var finalText := "";
        var currentInterim := "";
        var i := resultIndex;
        while i < |results|
          invariant resultIndex <= i && (resultIndex <= |results| ==> i <= |results|)
          invariant finalText == Joined(Scanned(results, resultIndex, i), true)
          invariant currentInterim == Joined(Scanned(results, resultIndex, i), false)
          invariant transcript == old(transcript)
        {
          ScanStep(results, resultIndex, i, true);
          ScanStep(results, resultIndex, i, false);
          if results[i].0 {
            finalText := finalText + results[i].1;
          } else {
            currentInterim := currentInterim + results[i].1;
          }
          i := i + 1;
        }
        assert Scanned(results, resultIndex, i) == Unseen(results, resultIndex);
        transcript := transcript + finalText;
        interimTranscript := currentInterim;
      }
    }

    /** The engine's `end` event, whether the user or the engine ended the session. */
    method OnEnd()
      modifies this
      ensures isListening == (old(isListening) && !supported)
      ensures transcript == old(transcript) && interimTranscript == old(interimTranscript) && error == old(error)
    {
      if supported {
        isListening := false;
      }
    }

    /** The engine's `error` event: the code's message is shown and listening stops. */
    method OnError(code: string)
      modifies this
      ensures supported ==> !isListening && error == Some(ErrorMessage(code))
      ensures !supported ==> isListening == old(isListening) && error == old(error)
      ensures transcript == old(transcript) && interimTranscript == old(interimTranscript)
    {
      if supported {
        error := Some(ErrorMessage(code));
        isListening := false;
      }
    }

    /** `resetTranscript`: both texts and the error cleared; listening untouched. */
    method Reset()
      modifies this
      ensures transcript == "" && interimTranscript == "" && error == None
      ensures isListening == old(isListening)
    {
      transcript := "";
      interimTranscript := "";
      error := None;
    }
  }
}
