/** The host screen's transcript reconciler: a base text captured from the bound
    note, the document recomputed from that fixed base on every transcript change,
    the broadcast of the session transcript, and the share link. */
module HostReconciler {
  import opened Wrappers

  /** `x || ""` on an optional string prop: missing reads as the empty string. */
  function OrEmpty(c: Option<string>): string
  {
    c.GetOr("")
  }

  const Separator: char := '\n'

  /** The document written back to the note: the base, a newline and the session
      transcript, or the transcript alone when the base is empty. */
  function FullContent(base: string, transcript: string): (doc: string)
    ensures base == "" ==> doc == transcript
    ensures base != "" ==> |doc| == |base| + 1 + |transcript|
    ensures base != "" ==> doc[..|base|] == base && doc[|base|] == Separator && doc[|base| + 1..] == transcript
  {
    (if base != "" then base + [Separator] else "") + transcript
  }

  /** From a fixed base, distinct transcripts give distinct documents. */
  lemma FullContentInjective(base: string, t1: string, t2: string)
    requires FullContent(base, t1) == FullContent(base, t2)
    ensures t1 == t2
  {
    if base != "" {
      calc {
        t1;
        FullContent(base, t1)[|base| + 1..];
        FullContent(base, t2)[|base| + 1..];
        t2;
      }
    }
  }

  /** Concatenation of a list of text pieces, in order. */
  function Concat(pieces: seq<string>): string
  {
    if pieces == [] then "" else Concat(pieces[..|pieces| - 1]) + pieces[|pieces| - 1]
  }

  /** The independent reference: a document kept by appending only each new piece
      of final text to the previous document. */
  function AppendEach(doc: string, pieces: seq<string>): string
    decreases |pieces|
  {
    if pieces == [] then doc else AppendEach(doc + pieces[0], pieces[1..])
  }

  lemma {:induction false} AppendEachIsConcat(doc: string, pieces: seq<string>)
    ensures AppendEach(doc, pieces) == doc + Concat(pieces)
    decreases |pieces|
  {
    if pieces != [] {
      AppendEachIsConcat(doc + pieces[0], pieces[1..]);
      ConcatCons(pieces);
    }
  }

  lemma {:induction false} ConcatCons(pieces: seq<string>)
    requires pieces != []
    ensures Concat(pieces) == pieces[0] + Concat(pieces[1..])
  {
    if |pieces| > 1 {
      var init := pieces[..|pieces| - 1];
      assert init[0] == pieces[0] && init[1..] == pieces[1..][..|pieces[1..]| - 1];
      ConcatCons(init);
    } else {
      assert pieces[1..] == [];
      assert pieces[..0] == [];
    }
  }

  /** Recomputing from a fixed base never doubles history: when the cumulative
      transcript grows by pieces of final text, the recomputed document is exactly
      the previous document with those pieces appended, once each. */
  lemma RecomputeIsAppendOnly(base: string, transcript: string, pieces: seq<string>)
    ensures FullContent(base, transcript + Concat(pieces)) == AppendEach(FullContent(base, transcript), pieces)
  {
    AppendEachIsConcat(FullContent(base, transcript), pieces);
  }

  /** The base after a render in which the note id and content props may have
      changed: a new note id recaptures the base from the new content; under the same
      note id a changed content fills the base only while the base is empty. */
  function NextBase(noteId: Option<string>, initial: Option<string>, base: string,
                    newNoteId: Option<string>, newInitial: Option<string>): (b: string)
    ensures newNoteId != noteId ==> b == OrEmpty(newInitial)
    ensures newNoteId == noteId ==>
              (b != base <==> newInitial != initial && base == "" && OrEmpty(newInitial) != "")
    ensures newNoteId == noteId && b != base ==> b == OrEmpty(newInitial)
  {
    if newNoteId != noteId then OrEmpty(newInitial)
    else if newInitial != initial && base == "" && OrEmpty(newInitial) != "" then OrEmpty(newInitial)
    else base
  }

  /** A message of the `send_transcript` event. */
  datatype Broadcast = Broadcast(roomCode: string, text: string)

  /** JavaScript truthiness of an optional string. */
  predicate Truthy(s: Option<string>)
  {
    s.Some? && s.value != ""
  }

  class HostSession {
    var noteId: Option<string>
    var initialContent: Option<string>
    var baseContent: string

    /** Mounting the screen: the base is the initial content, or "" when missing. */
    constructor (noteId: Option<string>, initialContent: Option<string>)
      ensures this.noteId == noteId && this.initialContent == initialContent
      ensures baseContent == OrEmpty(initialContent)
    {
      this.noteId := noteId;
      this.initialContent := initialContent;
      baseContent := OrEmpty(initialContent);
    }

    /** A render with new props, followed by its two effects in declaration order:
        the note-id effect, then the late-fill effect, which reads the base as it was
        when the render began. */
    method Render(newNoteId: Option<string>, newInitial: Option<string>)
      modifies this
      ensures noteId == newNoteId && initialContent == newInitial
      ensures baseContent == NextBase(old(noteId), old(initialContent), old(baseContent), newNoteId, newInitial)
    {
      var renderedBase := baseContent;
      var next := baseContent;
      if newNoteId != noteId {
        next := OrEmpty(newInitial);
      }
      if newInitial != initialContent && renderedBase == "" && OrEmpty(newInitial) != "" {
        next := OrEmpty(newInitial);
      }
      baseContent := next;
      noteId := newNoteId;
      initialContent := newInitial;
    }

    /** One run of the broadcast effect: with a room code, a non-empty transcript and
        a connection, the transcript (without the base) is sent to the room and the
        recomputed document is handed to the parent. */
    method BroadcastEffect(roomCode: Option<string>, transcript: string, connected: bool, hasOnUpdate: bool)
      returns (sent: Option<Broadcast>, update: Option<string>)
      ensures sent.Some? <==> Truthy(roomCode) && transcript != "" && connected
      ensures sent.Some? ==> sent.value == Broadcast(roomCode.value, transcript)
      ensures update.Some? <==> sent.Some? && hasOnUpdate
      ensures update.Some? ==> update.value == FullContent(baseContent, transcript)
    {
      sent, update := None, None;
      if Truthy(roomCode) && transcript != "" && connected {
        sent := Some(Broadcast(roomCode.value, transcript));
        if hasOnUpdate {
          update := Some(FullContent(baseContent, transcript));
        }
      }
    }
  }

  /** The emissions of a host loop in which every document handed to the parent is
      written into the bound note and comes back as the new content prop, so that the
      late-fill rule sees it. A changed base re-runs the broadcast effect. The next
      round sees the first document of the round as the content prop, not the
      re-emitted one; once the base is non-empty the late fill ignores the content
      prop, so which of the two comes back does not change any later base. Every
      non-empty transcript emits at least one document, the first being the base so
      far followed by that transcript. */
  function EchoLoop(id: Option<string>, base: string, initial: Option<string>, ts: seq<string>): (docs: seq<string>)
    ensures |docs| >= |NonEmpty(ts)|
    ensures ts != [] && ts[0] != "" ==> docs[0] == FullContent(base, ts[0])
    decreases |ts|
  {
    if ts == [] then []
    else if ts[0] == "" then EchoLoop(id, base, initial, ts[1..])
    else
      var t := ts[0];
      var doc := FullContent(base, t);
      var base' := NextBase(id, initial, base, id, Some(doc));
      var again := if base' != base then [FullContent(base', t)] else [];
      [doc] + again + EchoLoop(id, base', Some(doc), ts[1..])
  }

  /** As written: with an empty bound note, the first emission is taken back as the
      base, and the re-run effect writes the transcript twice. */
  lemma EchoDoublesTranscript(id: Option<string>)
    ensures EchoLoop(id, "", Some(""), ["Hello"]) == ["Hello", "Hello\nHello"]
  {
    assert ["Hello"][1..] == [];
    assert EchoLoop(id, "Hello", Some("Hello"), []) == [];
    assert FullContent("", "Hello") == "Hello";
    assert NextBase(id, Some(""), "", id, Some("Hello")) == "Hello";
    assert FullContent("Hello", "Hello") == "Hello\nHello";
  }

  /** Putting one document for transcript `t` in front keeps "each document is the
      base followed by the matching transcript". */
  lemma ConsDocuments(base: string, t: string, tail: seq<string>, texts: seq<string>)
    requires |tail| == |texts|
    requires forall k :: 0 <= k < |tail| ==> tail[k] == FullContent(base, texts[k])
    ensures var docs := [FullContent(base, t)] + tail;
            |docs| == |[t] + texts| &&
            forall k :: 0 <= k < |docs| ==> docs[k] == FullContent(base, ([t] + texts)[k])
  {
    var docs := [FullContent(base, t)] + tail;
    forall k | 0 <= k < |docs| ensures docs[k] == FullContent(base, ([t] + texts)[k]) {
      if k > 0 { assert docs[k] == tail[k - 1] && ([t] + texts)[k] == texts[k - 1]; }
    }
  }

  /** One round of the loop under a non-empty base: one document, and the base kept. */
  lemma EchoStepStableBase(id: Option<string>, base: string, initial: Option<string>, ts: seq<string>)
    requires base != "" && ts != [] && ts[0] != ""
    ensures EchoLoop(id, base, initial, ts) ==
            [FullContent(base, ts[0])] + EchoLoop(id, base, Some(FullContent(base, ts[0])), ts[1..])
  {
    assert NextBase(id, initial, base, id, Some(FullContent(base, ts[0]))) == base;
  }

  /** As written, the loop is harmless once the base is non-empty: every emitted
      document is that base followed by the transcript of the moment, one document
      per non-empty transcript. */
  lemma {:induction false} EchoLoopStableBase(id: Option<string>, base: string, initial: Option<string>, ts: seq<string>)
    requires base != ""
    ensures var docs := EchoLoop(id, base, initial, ts);
            |docs| == |NonEmpty(ts)| &&
            forall k :: 0 <= k < |docs| ==> docs[k] == FullContent(base, NonEmpty(ts)[k])
    decreases |ts|
  {
    if ts != [] {
      var docs := EchoLoop(id, base, initial, ts);
      var rest := ts[1..];
      if ts[0] == "" {
        assert docs == EchoLoop(id, base, initial, rest);
        assert NonEmpty(ts) == NonEmpty(rest);
        EchoLoopStableBase(id, base, initial, rest);
      } else {
        var doc := FullContent(base, ts[0]);
        var tail := EchoLoop(id, base, Some(doc), rest);
        EchoStepStableBase(id, base, initial, ts);
        assert docs == [doc] + tail;
        assert NonEmpty(ts) == [ts[0]] + NonEmpty(rest);
        EchoLoopStableBase(id, base, Some(doc), rest);
        ConsDocuments(base, ts[0], tail, NonEmpty(rest));
      }
    }
  }

  /** Corrected rule: a content change fills an empty base only while nothing has
      been emitted for the bound note yet. */
  function NextBaseGuarded(noteId: Option<string>, initial: Option<string>, base: string, emitted: bool,
                           newNoteId: Option<string>, newInitial: Option<string>): (b: string)
    ensures newNoteId != noteId ==> b == OrEmpty(newInitial)
    ensures newNoteId == noteId && emitted ==> b == base
    ensures newNoteId == noteId && !emitted ==> b == NextBase(noteId, initial, base, newNoteId, newInitial)
  {
    if newNoteId != noteId then OrEmpty(newInitial)
    else if !emitted && newInitial != initial && base == "" && OrEmpty(newInitial) != "" then OrEmpty(newInitial)
    else base
  }

  /** The same host loop under the corrected rule. */
  function GuardedEchoLoop(id: Option<string>, base: string, initial: Option<string>, ts: seq<string>): (docs: seq<string>)
    ensures |docs| >= |NonEmpty(ts)|
    ensures ts != [] && ts[0] != "" ==> docs[0] == FullContent(base, ts[0])
    decreases |ts|
  {
    if ts == [] then []
    else if ts[0] == "" then GuardedEchoLoop(id, base, initial, ts[1..])
    else
      var t := ts[0];
      var doc := FullContent(base, t);
      var base' := NextBaseGuarded(id, initial, base, true, id, Some(doc));
      var again := if base' != base then [FullContent(base', t)] else [];
      [doc] + again + GuardedEchoLoop(id, base', Some(doc), ts[1..])
  }

  /** One round of the loop under the corrected rule: one document, and the base kept. */
  lemma GuardedStep(id: Option<string>, base: string, initial: Option<string>, ts: seq<string>)
    requires ts != [] && ts[0] != ""
    ensures GuardedEchoLoop(id, base, initial, ts) ==
            [FullContent(base, ts[0])] + GuardedEchoLoop(id, base, Some(FullContent(base, ts[0])), ts[1..])
  {
    assert NextBaseGuarded(id, initial, base, true, id, Some(FullContent(base, ts[0]))) == base;
  }

  /** The non-empty transcripts of a sequence, in order. */
  function NonEmpty(ts: seq<string>): seq<string>
  {
    if ts == [] then [] else (if ts[0] == "" then [] else [ts[0]]) + NonEmpty(ts[1..])
  }

  /** Under the corrected rule every emitted document is the fixed base followed by
      the transcript of that moment: one document per non-empty transcript, and no
      transcript ever taken into the base. */
  lemma {:induction false} GuardedLoopNeverDoubles(id: Option<string>, base: string, initial: Option<string>, ts: seq<string>)
    ensures var docs := GuardedEchoLoop(id, base, initial, ts);
            |docs| == |NonEmpty(ts)| &&
            forall k :: 0 <= k < |docs| ==> docs[k] == FullContent(base, NonEmpty(ts)[k])
    decreases |ts|
  {
    if ts != [] {
      var docs := GuardedEchoLoop(id, base, initial, ts);
      var rest := ts[1..];
      if ts[0] == "" {
        assert docs == GuardedEchoLoop(id, base, initial, rest);
        assert NonEmpty(ts) == NonEmpty(rest);
        GuardedLoopNeverDoubles(id, base, initial, rest);
      } else {
        var doc := FullContent(base, ts[0]);
        var tail := GuardedEchoLoop(id, base, Some(doc), rest);
        GuardedStep(id, base, initial, ts);
        assert docs == [doc] + tail;
        assert NonEmpty(ts) == [ts[0]] + NonEmpty(rest);
        GuardedLoopNeverDoubles(id, base, Some(doc), rest);
        ConsDocuments(base, ts[0], tail, NonEmpty(rest));
      }
    }
  }

  /** The share link: the page origin, replaced by the server's network address and
      the page's port (80 when it has none) when that address is known and is not
      `localhost`, followed by the room code query. */
  function ShareUrl(origin: string, ip: Option<string>, pagePort: string, roomCode: string): (url: string)
    ensures Truthy(ip) && ip.value != "localhost" ==>
              url == "http://" + ip.value + ":" + (if pagePort != "" then pagePort else "80") + "?code=" + roomCode
    ensures !(Truthy(ip) && ip.value != "localhost") ==> url == origin + "?code=" + roomCode
  {
    var baseUrl := if Truthy(ip) && ip.value != "localhost"
                   then "http://" + ip.value + ":" + (if pagePort != "" then pagePort else "80")
                   else origin;
    baseUrl + "?code=" + roomCode
  }

  /** The room code can be read back unchanged from the end of the share link. */
  lemma ShareUrlCarriesCode(origin: string, ip: Option<string>, pagePort: string, roomCode: string)
    ensures var url := ShareUrl(origin, ip, pagePort, roomCode);
            |url| >= |roomCode| + 6 &&
            url[|url| - |roomCode| - 6..|url| - |roomCode|] == "?code=" && url[|url| - |roomCode|..] == roomCode
  {
  }
}
