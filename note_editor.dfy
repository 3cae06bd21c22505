/** The solo note editor: while the recognizer runs, its transcript is shown after
    the note's content; when it stops, the transcript is committed to the note and
    the recognizer's texts are cleared. */
module SoloEditor {
  import opened Wrappers
  import opened Session
  import opened SpeechRecognition

  /** The content committed on stop: the old content, a space and the transcript,
      or the transcript alone for an empty note. */
  function CommittedContent(content: string, transcript: string): (c: string)
    ensures content == "" ==> c == transcript
    ensures content != "" ==> |c| == |content| + 1 + |transcript|
    ensures content != "" ==> c[..|content|] == content && c[|content|] == ' ' && c[|content| + 1..] == transcript
  {
    (if content != "" then content + " " else "") + transcript
  }

  /** The text shown in the editor: the stored content, followed by a space and the
      transcript only while listening with a non-empty transcript. */
  function DisplayContent(content: string, listening: bool, transcript: string): (d: string)
    ensures !(listening && transcript != "") ==> d == content
    ensures listening && transcript != "" ==> |d| == |content| + 1 + |transcript| && d[..|content|] == content
    ensures listening && transcript != "" ==> d[|content|] == ' ' && d[|content| + 1..] == transcript
  {
    content + (if listening && transcript != "" then " " + transcript else "")
  }

  /** What is previewed while listening is what a stop commits, except that an empty
      note's preview starts with a space the commit leaves out. */
  lemma PreviewIsCommit(content: string, transcript: string)
    requires transcript != ""
    ensures content != "" ==> DisplayContent(content, true, transcript) == CommittedContent(content, transcript)
    ensures content == "" ==> DisplayContent(content, true, transcript) == " " + CommittedContent(content, transcript)
  {
  }

  /** Editing the title: only the title changes. */
  function EditTitle(note: Note, title: string): (n: Note)
    ensures n.title == title
    ensures n.id == note.id && n.content == note.content
    ensures n.createdAt == note.createdAt && n.updatedAt == note.updatedAt
  {
    note.(title := title)
  }

  /** The commit effect: when the recognizer is not listening and holds a transcript,
      the note is handed back with the transcript committed to its content (every
      other field kept), and the recognizer's texts are reset. */
  method CommitOnStop(rec: Recognizer, note: Note) returns (update: Option<Note>)
    modifies rec
    ensures old(!rec.isListening && rec.transcript != "") ==>
              update == Some(note.(content := CommittedContent(note.content, old(rec.transcript))))
    ensures old(!rec.isListening && rec.transcript != "") ==>
              rec.transcript == "" && rec.interimTranscript == "" && rec.error == None && !rec.isListening
    ensures !old(!rec.isListening && rec.transcript != "") ==> update == None && unchanged(rec)
  {
    if !rec.isListening && rec.transcript != "" {
      var newContent := CommittedContent(note.content, rec.transcript);
      update := Some(note.(content := newContent));
      rec.Reset();
    } else {
      update := None;
    }
  }

  /** A stop commits once: the effect running again right after a commit (its
      dependencies changed) hands nothing back. */
  method CommitRunsTwice(rec: Recognizer, note: Note) returns (first: Option<Note>, second: Option<Note>)
    modifies rec
    ensures old(!rec.isListening && rec.transcript != "") ==> first.Some?
    ensures second == None
  {
    first := CommitOnStop(rec, note);
    var committed := if first.Some? then first.value else note;
    second := CommitOnStop(rec, committed);
  }
}
