# Live transcript bridge — a Dafny model

This project models the live-transcript pipeline of a voice-notes application.
A host speaks. A browser speech recognizer turns the speech into final and interim
text. The host screen rebuilds the bound note's document from a fixed base plus the
session transcript and sends the transcript to a room on the relay server. Audience
members join that room with a six-digit code and see the last text they received;
they can have it read aloud. The model covers:

- the recognizer state machine (`SpeechRecognition`);
- the host-side reconciler and share link (`HostReconciler`);
- the server's room table, relay, code generator, network-address loop and
  assistant endpoint (`RoomServer`);
- the client session controller and its note table (`Session`);
- the solo editor's commit rule (`SoloEditor`);
- the room-code entry screen (`LoginScreen`);
- the audience display and read-aloud toggle (`AudienceScreen`).

`Decimal` prints natural numbers the way JavaScript's `toString()` does, and
`Wrappers` holds an `Option` type.

Objects that the source changes through event handlers are classes with
`modifies` clauses. Examples are the recognizer hook's state, the host screen's
base, the `rooms` map, the App component's state, and the login and audience
screens. Pure expressions in the source are functions, and the lemmas are stated
about those functions. Each React effect is one explicit method call. Calls run in
arrival order.

Inputs stand in for the outside world:
- `r` is the random draw.
- `now` is the clock.
- `next` is the handle of a new connection.
- `supported` and `synthesisAvailable` say whether the browser has the engine.
- `generate` stands for the loaded language model.
- The server's replies (`OnRoomCreated`, `OnRoomJoined`) are events the caller delivers.

The pipeline is meant to fold the spoken text into the note when the host stops
listening, and to start a fresh transcript when the host switches to another note.
Where the code does otherwise, the model follows the code:
- The host screen never folds the transcript into the base when listening stops.
  It also does not clear the transcript when the bound note changes. After a note
  switch, the next document is the new note's content, a newline, and the whole
  session transcript, including text spoken under the previous note
  (`HostReconciler.NextBase`, `HostSession.BroadcastEffect`).
- The broadcast carries the session transcript, not the full document
  (`HostSession.BroadcastEffect`).
- Sessions within one note are not separated by a separator. The transcript just
  keeps growing.
- Generated room codes lie in [100000, 999999], so they never start with `0`
  (`RoomServer.RoomCode`). The entry screen accepts any six digits and passes them
  on as typed (`LoginScreen.LeadingZerosKept`), so a typed code such as `004521`
  can never name a room.

## Model

| member | source | states |
|---|---|---|
| `SpeechRecognition.ErrorMessage` | useSpeechToText.js:51-57 | The permission message exactly for `not-allowed` and the network message exactly for `network`. Any other code gives `"Error: "` followed by the code. No message equals the unsupported message. |
| `SpeechRecognition.ErrorMessageInjective` | useSpeechToText.js:51-57 | Different error codes never produce the same message. |
| `SpeechRecognition.JoinedAppend` | useSpeechToText.js:31-37 | The joined final (or interim) text of two runs of results is the first run's text followed by the second's. |
| `SpeechRecognition.ConsecutiveEventsCountOnce` | useSpeechToText.js:31 | Take an event that starts where the previous one ended. Together the two events count every result once: that gives the same text as one event over the whole range. |
| `SpeechRecognition.NoFinalNoText` | useSpeechToText.js:28-39 | A batch with no final result contributes no final text. |
| `SpeechRecognition.OneResultOneSide` | useSpeechToText.js:32-36 | A single result's text is joined on the side its finality names, and the other side gets "". |
| `SpeechRecognition.FinalAndInterimPartition` | useSpeechToText.js:31-37 | Each result's text goes to exactly one of the final text and the interim text, at its own place. On its own side it sits between the texts of the results before and after it. On the other side those two texts meet with nothing in between. |
| `SpeechRecognition.FinalAndInterimLengths` | useSpeechToText.js:31-37 | The final and interim texts together are exactly as long as all the results' texts. |
| `SpeechRecognition.Recognizer.constructor` | useSpeechToText.js:4-15 | Starts not listening with empty texts. The error is null, or the unsupported message when there is no implementation. |
| `SpeechRecognition.Recognizer.SetListening` | useSpeechToText.js:9-15 | Sets the flag and leaves the texts alone. The setup effect runs again only on a real change; without an implementation, that run sets the unsupported error again. |
| `SpeechRecognition.Recognizer.Start` | useSpeechToText.js:78 | Afterwards the recognizer is listening and the texts are unchanged. Starting while already listening changes nothing else. |
| `SpeechRecognition.Recognizer.Stop` | useSpeechToText.js:79 | Afterwards the recognizer is not listening and the texts are unchanged. |
| `SpeechRecognition.Recognizer.OnStart` | useSpeechToText.js:22-25 | Listening, with the error cleared. Without an installed listener, nothing changes. |
| `SpeechRecognition.Recognizer.OnResult` | useSpeechToText.js:27-41 | Only results from `resultIndex` on count. The transcript becomes the old transcript plus their final text. The interim text becomes exactly their interim text and is never accumulated. |
| `SpeechRecognition.Recognizer.OnEnd` | useSpeechToText.js:43-47 | Not listening afterwards; texts and error unchanged. |
| `SpeechRecognition.Recognizer.OnError` | useSpeechToText.js:49-59 | The error becomes the code's message and listening stops. The texts are untouched. |
| `SpeechRecognition.Recognizer.Reset` | useSpeechToText.js:80-84 | Both texts are emptied and the error cleared. The listening flag is untouched. |
| `HostReconciler.FullContent` | HostView.jsx:132 | With an empty base the document is the transcript. Otherwise it splits into the base, one newline, and the transcript. |
| `HostReconciler.FullContentInjective` | HostView.jsx:132 | From a fixed base, different transcripts give different documents. |
| `HostReconciler.RecomputeIsAppendOnly` | HostView.jsx:129-133 | Recompute from the fixed base after the transcript has grown by some pieces. The result equals the previous document with just those pieces appended once each, so history is never doubled. |
| `HostReconciler.AppendEachIsConcat` | HostView.jsx:129-133 | The append-only reference document equals the previous document followed by all the pieces, in order. |
| `HostReconciler.NextBase` | HostView.jsx:89-102 | A new note id recaptures the base from the new content, or "" when it is missing. Under the same id, the base changes exactly when it was empty and a changed, non-empty content arrives; it then becomes that content. |
| `HostReconciler.HostSession.constructor` | HostView.jsx:89 | On mount the base is the initial content, or "" when it is missing. |
| `HostReconciler.HostSession.Render` | HostView.jsx:93-102 | Both effects of one render run in order, and the late fill reads the base from the start of the render. The new base is `NextBase` of the old state and props. |
| `HostReconciler.HostSession.BroadcastEffect` | HostView.jsx:125-137 | The effect emits only with a room code, a non-empty transcript and a connection. The payload is `{roomCode, text: transcript}`, and the parent receives `FullContent(base, transcript)`. |
| `HostReconciler.EchoLoop` | HostView.jsx:98-102 | The host loop as written, with each emitted document written into the note (App.jsx:154-158) and fed back as the content prop (App.jsx:196). Each non-empty transcript emits at least one document. The first is the base so far, a newline where needed, and that transcript. |
| `HostReconciler.EchoLoopStableBase` | HostView.jsx:125-134 | As written, the loop is harmless once the base is non-empty: one document per non-empty transcript, each the base followed by that transcript. |
| `HostReconciler.EchoDoublesTranscript` | HostView.jsx:98-102 | As written, with an empty bound note the host's own first document returns as the content prop and becomes the base. The effect then writes `"Hello\nHello"`. |
| `HostReconciler.NextBaseGuarded` | HostView.jsx:98-102 | Corrected late fill: a note switch still recaptures the base. Once the note has been emitted to, the base never changes. Before that it behaves as `NextBase`. |
| `HostReconciler.GuardedEchoLoop` | HostView.jsx:98-102 | The same loop under the corrected late fill. Each non-empty transcript emits at least one document, the first being the base so far followed by that transcript. |
| `HostReconciler.GuardedLoopNeverDoubles` | HostView.jsx:125-134 | Under the corrected rule and with every document echoed back, the loop emits one document per non-empty transcript. Each document is the fixed base followed by that transcript. |
| `HostReconciler.ShareUrl` | HostView.jsx:107-119 | Uses `http://ip:port` only for a present address other than `localhost`, with port `80` when the page has none; otherwise the page origin. `?code=` and the room code follow. |
| `HostReconciler.ShareUrlCarriesCode` | HostView.jsx:119 | The link always ends with `?code=` and then the unchanged room code. |
| `Decimal.NatToString` | index.js:106 | A natural prints as a non-empty string of decimal digits. The lemmas below show that it is the shortest numeral of that natural. |
| `Decimal.ParsePrinted` | index.js:106 | Reading back a printed natural gives that natural. |
| `Decimal.NoLeadingZero` | index.js:106 | A positive natural is never printed with a leading zero. |
| `Decimal.PrintedLength` | index.js:106 | A natural with k significant digits prints as k characters. |
| `Decimal.PrintedInjective` | index.js:106 | Different naturals print differently. |
| `RoomServer.RoomCode` | index.js:105-107 | Six decimal digits with no leading zero. The value is `100000 + r`, so it lies in [100000, 999999]. |
| `RoomServer.RoomCodeInjective` | index.js:105-107 | Two codes coincide only when the draws do. |
| `RoomServer.JoinChannel` | index.js:115 | The joiner is added to that channel's members and every other channel is unchanged. |
| `RoomServer.AddAudience` | index.js:121-128 | On a known code the caller is added to that room's audience. The host and every other room stay the same, and an unknown code leaves the table as it was. |
| `RoomServer.AddAudienceIdempotent` | index.js:123 | Joining twice has the same effect as joining once. |
| `RoomServer.LeaveAll` | index.js:138-141 | The departed connection is removed from every channel; the set of channels stays the same. |
| `RoomServer.Registry.constructor` | index.js:103 | The room table starts empty. |
| `RoomServer.Registry.CreateRoom` | index.js:112-118 | The code maps to `{host: caller, audience: {}}`, replacing any room with that code. The caller joins the code's channel and is told the code. |
| `RoomServer.Registry.JoinRoom` | index.js:120-129 | A known code adds the caller to the audience and the channel and replies `room_joined`. An unknown code replies `Room not found` and changes nothing. |
| `RoomServer.Registry.SendTranscript` | index.js:131-136 | The unchanged text goes to every channel member except the sender, and the room table is not involved. |
| `RoomServer.Registry.Disconnect` | index.js:138-141 | The room table is unchanged and departed hosts and audience entries remain. The connection leaves its channels. |
| `RoomServer.SelectNetworkIp` | index.js:49-67 | The nested loop with its inner `break` computes the scan of all interfaces, starting from `localhost`. |
| `RoomServer.ScanListResult` | index.js:54-64 | A list without an external IPv4 address keeps the current value. A list with one yields one of its own such addresses, whatever came before. |
| `RoomServer.ScanAllSnoc` | index.js:53-65 | Scanning one more interface applies that interface's scan to the result so far. |
| `RoomServer.LastInterfaceWins` | index.js:53-65 | If the last interface has a candidate, its own pick is the result: a preferred address stops only its own list. |
| `RoomServer.NetworkIpResult` | index.js:50-66 | The result is `localhost` when no interface has an external IPv4 address, and otherwise one of those addresses. |
| `RoomServer.ReferenceText` | index.js:84 | The prompt's reference text is the context when it is a non-empty string, and `No context.` otherwise. |
| `RoomServer.Prompt` | index.js:83-84 | The prompt is the instruction and reference text, then the question, then the closing `Answer:`. The question sits exactly between the fixed head and tail. |
| `RoomServer.PromptDeterminesQuestion` | index.js:84 | Under one context, equal prompts mean equal questions. |
| `RoomServer.ChatPrompt` | index.js:76-84 | A request with messages hands the model the prompt for its last message's text. A request without messages hands it nothing. |
| `RoomServer.Chat` | index.js:70-99 | Answers 503 with the loading message while no model is loaded. A request with no messages gets 500. Otherwise the generator's text for the prompt of the last message is the answer, and a failing generator gives 500 with the generation error. |
| `RoomServer.ChatUsesLastMessageOnly` | index.js:76-84 | Two requests with the same context hand the model the same prompt exactly when their last messages have the same text, whatever messages precede them. |
| `Session.NoteTitle` | App.jsx:65 | Empty content gives `New Note`. Content of up to 30 characters is its own title. Longer content gives its first 30 characters followed by `...`. |
| `Session.NewNote` | App.jsx:62-69 | The id is the clock reading printed in decimal, the title is derived from the content, and both timestamps are the reading. |
| `Session.NotesAfterCreate` | App.jsx:70 | The new note comes first, followed by the old list unchanged. |
| `Session.NotesAfterUpdate` | App.jsx:75-78 | Notes with the updated id become the updated note with a refreshed `updatedAt`. Length, order, ids and every other note stay the same. |
| `Session.UpdateIdempotent` | App.jsx:76 | Repeating an update with the same note and time changes nothing more. |
| `Session.NotesAfterDelete` | App.jsx:81 | No note with the id remains and every other note is kept. The result holds only notes from the original list. |
| `Session.DeleteKeepsOrder` | App.jsx:81 | Deleting commutes with concatenation, so the survivors keep their order. |
| `Session.DeleteAbsentIsIdentity` | App.jsx:81 | Deleting an id that no note has leaves the list unchanged. |
| `Session.NotesAfterImport` | App.jsx:142-145 | An imported array goes after the existing notes, which are kept. Anything else changes nothing. |
| `Session.ActiveNote` | App.jsx:60 | The result is a note of the list carrying the active id, and no earlier note carries that id. None when no note has the id or there is no active id. |
| `Session.AiContext` | App.jsx:182 | The audience role gets `audienceText`. Otherwise the session text is used, else the active note's content, else "". |
| `Session.HostUpdateKeepsActive` | App.jsx:154-158 | After a host update, the active note is the updated note, with the new content and time. |
| `Session.App.constructor` | App.jsx:23-37 | The saved notes are loaded; there is no active note, role, connection or room, and both texts are empty. |
| `Session.App.CreateNote` | App.jsx:62-73 | The note list is `NotesAfterCreate`, and the new note is active and found by `Active()`. |
| `Session.App.UpdateNote` | App.jsx:75-78 | The note list is `NotesAfterUpdate`; nothing else changes. |
| `Session.App.DeleteNote` | App.jsx:80-85 | The note list is `NotesAfterDelete`. The active id is cleared only when it was the deleted id. |
| `Session.App.SelectNote` | App.jsx:253 | The chosen id becomes active. |
| `Session.App.InitSocket` | App.jsx:89-96 | A connection is opened only when there is none; otherwise the existing one is returned and kept. |
| `Session.App.JoinAsHost` | App.jsx:98-100 | Ensures a connection, then sends `create_room`. |
| `Session.App.OnRoomCreated` | App.jsx:101-106 | Sets the room code and the host role. A note `Live Session <code>` is created and becomes active. |
| `Session.App.JoinAsAudience` | App.jsx:109-111 | Ensures a connection, then sends `join_room` with the code exactly as typed. |
| `Session.App.OnRoomJoined` | App.jsx:112-115 | Sets the room code and the audience role. |
| `Session.App.Logout` | App.jsx:119-124 | The connection, if any, is closed. Connection, role and room code are cleared. |
| `Session.App.HostUpdate` | App.jsx:154-159 | The session text is always set. Only when an active note exists is its content set to the text. |
| `Session.App.SetAudienceText` | App.jsx:210 | The text received by the audience screen is kept for the assistant. |
| `Session.App.Import` | App.jsx:137-151 | Only a parsed array is appended, with the success alert. A non-array changes nothing silently, and invalid JSON gives the invalid-file alert. |
| `SoloEditor.CommittedContent` | NoteEditor.jsx:41 | An empty note gets the transcript alone. Otherwise the content is the old content, one space, and the transcript. |
| `SoloEditor.DisplayContent` | NoteEditor.jsx:66 | Listening with a non-empty transcript shows the content, one space and the transcript. Otherwise exactly the content is shown. |
| `SoloEditor.PreviewIsCommit` | NoteEditor.jsx:66 | The preview shown while listening is what the stop commits. An empty note's preview also has a leading space. |
| `SoloEditor.EditTitle` | NoteEditor.jsx:74 | Only the title changes. |
| `SoloEditor.CommitOnStop` | NoteEditor.jsx:38-45 | Commits only when not listening with a non-empty transcript. The note comes back with the committed content and every other field kept, and the recognizer's texts are reset. Otherwise nothing happens. |
| `SoloEditor.CommitRunsTwice` | NoteEditor.jsx:38-45 | A second run right after a commit hands nothing back, so text is never appended twice. |
| `LoginScreen.StripNonDigits` | LoginView.jsx:22 | Only digits remain, and the result is no longer than the input. A string of digits is left as it is, and a string without digits becomes "". With `StripDistributes` this fixes the result as the input's digits in order. |
| `LoginScreen.StripDistributes` | LoginView.jsx:22 | Stripping commutes with concatenation, so the digits keep their order. |
| `LoginScreen.Truncate` | LoginView.jsx:21 | The result is a prefix of the input. A short enough input is kept whole, and a longer one is cut to exactly n characters. |
| `LoginScreen.SanitizedCode` | LoginView.jsx:21-22 | The stored code is the digits among the first 6 characters of the input, in order, so at most 6 digits. Up to 6 typed digits are stored as typed. |
| `LoginScreen.LeadingZerosKept` | LoginView.jsx:35 | `004521` is stored and passed on with its leading zeros. |
| `LoginScreen.Login.constructor` | LoginView.jsx:6-7 | The selection view, with an empty code. |
| `LoginScreen.Login.ChooseAudience` | LoginView.jsx:71 | The audience card switches to `audience-input`, and the code stays at most 6 digits. |
| `LoginScreen.Login.Back` | LoginView.jsx:29 | Back returns to `selection`, and the code stays at most 6 digits. |
| `LoginScreen.Login.Input` | LoginView.jsx:22 | The stored code is the sanitised input and stays at most 6 digits. |
| `LoginScreen.Login.JoinEnabled` | LoginView.jsx:36 | The button is enabled exactly when the code has 6 characters. |
| `LoginScreen.Login.Join` | LoginView.jsx:35 | Joins exactly when the code has 6 characters, and passes the stored string unchanged; that string holds only digits. |
| `AudienceScreen.DisplayTrace` | AudienceView.jsx:6-16 | The display starts as "", and after the k-th message it shows exactly that message. |
| `AudienceScreen.LastWriteWins` | AudienceView.jsx:13-16 | After a later run of messages, what came before no longer shows. |
| `AudienceScreen.HelloScenario` | AudienceView.jsx:13-16 | `Hello` then `Hello world` displays `""`, `Hello`, `Hello world`, never the two glued together. |
| `AudienceScreen.AudienceView.constructor` | AudienceView.jsx:6-7 | Empty display, not speaking. |
| `AudienceScreen.AudienceView.Receive` | AudienceView.jsx:13-16 | The display becomes exactly the received text, which is forwarded to the parent. The invariant "display is the last message" is kept. |
| `AudienceScreen.AudienceView.HandleSpeak` | AudienceView.jsx:31-45 | While speaking it cancels and stops speaking. Otherwise it speaks the current text and is speaking. Without synthesis it only alerts, and the speaking flag is unchanged. |
| `AudienceScreen.AudienceView.OnUtteranceEnd` | AudienceView.jsx:38 | The end of the utterance clears the speaking flag. |

## Findings

| source | as written | input that shows it | evidently intended | confidence | as-written member | corrected member |
|---|---|---|---|---|---|---|
| HostView.jsx:98-102 | The late-fill effect copies any changed, non-empty content into an empty base. The host's own emitted document comes back as that content, because App.jsx:154-158 writes it into the active note. | While hosting, make an empty note active (the sidebar's "New chat"), then say "Hello". The note becomes `Hello`, then `Hello\nHello`. | The late fill is meant for content that arrives late, before the session writes anything. The document should stay `base + "\n" + transcript`. | not executed | `HostReconciler.EchoLoop`, `HostReconciler.EchoDoublesTranscript` | `HostReconciler.NextBaseGuarded`, `HostReconciler.GuardedLoopNeverDoubles` |

## Left out

- Rendering, CSS, animations, the clipboard, the share modal, auto-scroll and the offline banner: these are interface with no state the pipeline depends on.
- The socket.io and Express setup, the `fetch` of the network address and the browser engines are not modelled. Their events and answers are inputs. The channel membership that `send_transcript` fans out to is modelled as the transport's: a socket joins on `create_room` or `join_room` and leaves on disconnect.
- `Math.random` and `Date.now` are parameters. `Session.NewNote` uses one clock reading for the id and both timestamps, where the source reads the clock three times.
- `RoomServer.RoomCode` takes the draw as an integer in [0, 900000). The floating-point product and its rounding are not modelled.
- Loading the local model is not modelled. `RoomServer.Chat` takes the generator as a function, and server-side faults such as a missing `messages` field (outside the `try`) are not modelled.
- RoomServer.Chat: generation is random in the source (`do_sample: true`, `temperature: 0.6`), so two identical requests may get different answers. The model treats the generator as a fixed function, and `ChatUsesLastMessageOnly` is therefore stated about the prompt handed to the model, not the reply.
- localStorage, JSON parsing and export are not modelled. `Session.App.Import` receives the parse result.
- React scheduling is not modelled. Each effect is an explicit call. Two consequences:
  - The handlers in App.jsx read the state of the render that created them. The model always uses the current state.
  - `handleJoinAsHost` and `handleJoinAsAudience` register another reply listener on every call. The model delivers each reply once.
- The `error` listener of `handleJoinAsAudience` only shows an alert; there is no member for it.
- The editor's free-text edit of the content (NoteEditor.jsx:93) is not modelled: it is plain replacement of the field. One consequence is lost with it. While listening, the textarea shows `DisplayContent`, which already holds a space and the live transcript (NoteEditor.jsx:66). A keystroke then writes that transcript into the content, and the commit on stop (NoteEditor.jsx:41) appends it a second time.
- The recognizer's `start()` exceptions and the cleanup `stop()` of the previous instance are not modelled. Their only effect is the `end` event, which is an input.
- Characters are Dafny `char`s, whereas `slice(0, 30)` counts UTF-16 code units.
- Cancel-on-new-utterance and role exit on the audience side are not modelled: the source does neither.
