/** The audience screen: the last received transcript on display, and the
    read-aloud toggle. */
module AudienceScreen {

  /** What a press of the read-aloud button asks of the browser. */
  datatype SpeechCommand = CancelSpeech | Speak(text: string) | ShowAlert(message: string)

  const UnsupportedAlert := "Text-to-speech not supported on this browser."

  /** The display after a run of received texts: the latest one, or "" before any. */
  function Displayed(received: seq<string>): string
  {
    if received == [] then "" else received[|received| - 1]
  }

  /** The display after each prefix of a run of received texts, starting empty. */
  function DisplayTrace(received: seq<string>): (trace: seq<string>)
    ensures |trace| == |received| + 1
    ensures trace[0] == ""
    ensures forall k :: 0 <= k < |received| ==> trace[k + 1] == received[k]
  {
    seq(|received| + 1, k requires 0 <= k <= |received| => Displayed(received[..k]))
  }

  /** Last write wins: once a later run of texts arrives, what came before it no
      longer shows. */
  lemma LastWriteWins(earlier: seq<string>, later: seq<string>)
    requires later != []
    ensures Displayed(earlier + later) == Displayed(later)
  {
  }

  /** The host sends the whole session transcript each time, so the display moves
      from one full text to the next and never shows two glued together. */
  lemma HelloScenario()
    ensures DisplayTrace(["Hello", "Hello world"]) == ["", "Hello", "Hello world"]
  {
    var r := ["Hello", "Hello world"];
    assert r[..0] == [] && r[..1] == ["Hello"] && r[..2] == r;
  }

  class AudienceView {
    var liveText: string
    var isSpeaking: bool
    /** The texts received so far, in arrival order. */
    ghost var received: seq<string>

    ghost predicate Valid()
      reads this
    {
      liveText == Displayed(received)
    }

    constructor ()
      ensures Valid() && liveText == "" && !isSpeaking && received == []
    {
      liveText := "";
      isSpeaking := false;
      received := [];
    }

    /** `receive_transcript`: the text replaces the display and is passed up to the
        parent. */
    method Receive(text: string) returns (forwarded: string)
      requires Valid()
      modifies this`liveText, this`received
      ensures Valid()
      ensures received == old(received) + [text]
      ensures liveText == text && forwarded == text
    {
      liveText := text;
      received := received + [text];
      forwarded := text;
    }

    /** The read-aloud button: cancel while speaking, otherwise read the current
        text; without speech synthesis only an alert is shown. */
    method HandleSpeak(synthesisAvailable: bool) returns (command: SpeechCommand)
      modifies this`isSpeaking
      ensures !synthesisAvailable ==> command == ShowAlert(UnsupportedAlert) && isSpeaking == old(isSpeaking)
      ensures synthesisAvailable && old(isSpeaking) ==> command == CancelSpeech && !isSpeaking
      ensures synthesisAvailable && !old(isSpeaking) ==> command == Speak(liveText) && isSpeaking
    {
      if synthesisAvailable {
        if isSpeaking {
          command := CancelSpeech;
          isSpeaking := false;
        } else {
          command := Speak(liveText);
          isSpeaking := true;
        }
      } else {
        command := ShowAlert(UnsupportedAlert);
      }
    }

    /** The utterance's `end` event. */
    method OnUtteranceEnd()
      modifies this`isSpeaking
      ensures !isSpeaking
    {
      isSpeaking := false;
    }
  }
}
