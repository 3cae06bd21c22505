/** The client's session controller: the note table with its active note, the role
    and connection transitions, the routing of host updates and the choice of the
    assistant's context. */
module Session {
  import opened Wrappers
  import opened Decimal

  datatype Note = Note(id: string, title: string, content: string, createdAt: nat, updatedAt: nat)

  const TitleLength := 30
  const UntitledTitle := "New Note"
  const Ellipsis := "..."

  /** A created note's title: a placeholder for empty content, otherwise the first
      30 characters, marked with an ellipsis exactly when something was cut off. */
  function NoteTitle(content: string): (t: string)
    ensures content == "" ==> t == UntitledTitle
    ensures 0 < |content| <= TitleLength ==> t == content
    ensures |content| > TitleLength ==>
              |t| == TitleLength + 3 && t[..TitleLength] == content[..TitleLength] && t[TitleLength..] == Ellipsis
  {
    if content == "" then UntitledTitle
    else if |content| > TitleLength then content[..TitleLength] + Ellipsis
    else content
  }

  /** The note `createNote` builds, with the clock reading `now`; its id is the
      reading printed in decimal. */
  function NewNote(content: string, now: nat): (n: Note)
    ensures n.id == NatToString(now) && AllDigits(n.id)
    ensures n.content == content && n.title == NoteTitle(content)
    ensures n.createdAt == now && n.updatedAt == now
  {
    Note(NatToString(now), NoteTitle(content), content, now, now)
  }

  /** The note list after `createNote`: the new note in front, the rest as before. */
  function NotesAfterCreate(notes: seq<Note>, content: string, now: nat): (r: seq<Note>)
    ensures |r| == |notes| + 1 && r[0] == NewNote(content, now) && r[1..] == notes
  {
    [NewNote(content, now)] + notes
  }

  /** The note list after `updateNote`: every note with the updated note's id is
      replaced by it, stamped with `now`; the others and the order stay. */
  function NotesAfterUpdate(notes: seq<Note>, updated: Note, now: nat): (r: seq<Note>)
    ensures |r| == |notes|
    ensures forall i :: 0 <= i < |notes| ==> r[i].id == notes[i].id
    ensures forall i :: 0 <= i < |notes| && notes[i].id != updated.id ==> r[i] == notes[i]
    ensures forall i :: 0 <= i < |notes| && notes[i].id == updated.id ==> r[i] == updated.(updatedAt := now)
  {
    seq(|notes|, i requires 0 <= i < |notes| => if notes[i].id == updated.id then updated.(updatedAt := now) else notes[i])
  }

  /** Updating twice with the same note and time is updating once. */
  lemma UpdateIdempotent(notes: seq<Note>, updated: Note, now: nat)
    ensures NotesAfterUpdate(NotesAfterUpdate(notes, updated, now), updated, now) == NotesAfterUpdate(notes, updated, now)
  {
  }

  /** The note list after `deleteNote`: the notes with another id, in order. */
  function NotesAfterDelete(notes: seq<Note>, id: string): (r: seq<Note>)
    ensures |r| <= |notes|
    ensures forall k :: 0 <= k < |r| ==> r[k].id != id && r[k] in notes
    ensures forall n :: n in notes && n.id != id ==> n in r
    decreases |notes|
  {
    if notes == [] then []
    else (if notes[0].id == id then [] else [notes[0]]) + NotesAfterDelete(notes[1..], id)
  }

  /** Deleting keeps the order: it distributes over concatenation. */
  lemma {:induction false} DeleteKeepsOrder(a: seq<Note>, b: seq<Note>, id: string)
    ensures NotesAfterDelete(a + b, id) == NotesAfterDelete(a, id) + NotesAfterDelete(b, id)
    decreases |a|
  {
    if a == [] {
      assert a + b == b;
    } else {
      assert (a + b)[0] == a[0] && (a + b)[1..] == a[1..] + b;
      DeleteKeepsOrder(a[1..], b, id);
    }
  }

  /** Deleting an id no note has changes nothing. */
  lemma {:induction false} DeleteAbsentIsIdentity(notes: seq<Note>, id: string)
    requires forall k :: 0 <= k < |notes| ==> notes[k].id != id
    ensures NotesAfterDelete(notes, id) == notes
    decreases |notes|
  {
    if notes != [] {
      DeleteAbsentIsIdentity(notes[1..], id);
    }
  }

  /** The value read from an imported file. */
  datatype Parsed = JsonArray(items: seq<Note>) | JsonOther | Invalid

  /** The note list after an import: an array is appended after the existing notes;
      anything else leaves the list as it was. */
  function NotesAfterImport(notes: seq<Note>, parsed: Parsed): (r: seq<Note>)
    ensures |r| >= |notes| && r[..|notes|] == notes
    ensures parsed.JsonArray? ==> r[|notes|..] == parsed.items
    ensures !parsed.JsonArray? ==> r == notes
  {
    if parsed.JsonArray? then notes + parsed.items else notes
  }

  /** `notes.find(n => n.id === activeNoteId)`: the first note with the active id. */
  function ActiveNote(notes: seq<Note>, activeId: Option<string>): (r: Option<Note>)
    ensures r.Some? ==> r.value in notes && activeId == Some(r.value.id)
    ensures r.None? ==> activeId.None? || forall k :: 0 <= k < |notes| ==> notes[k].id != activeId.value
    ensures r.Some? && notes != [] && notes[0].id == activeId.value ==> r.value == notes[0]
    ensures r.Some? ==> exists i :: 0 <= i < |notes| && notes[i] == r.value &&
                                    forall k :: 0 <= k < i ==> notes[k].id != activeId.value
    decreases |notes|
  {
    if activeId.None? || notes == [] then None
    else if notes[0].id == activeId.value then Some(notes[0])
    else
      var r := ActiveNote(notes[1..], activeId);
      if r.None? then r
      else
        var i :| 0 <= i < |notes[1..]| && notes[1..][i] == r.value &&
                 forall k :: 0 <= k < i ==> notes[1..][k].id != activeId.value;
        assert notes[i + 1] == r.value;
        assert forall k :: 0 <= k < i + 1 ==> notes[k].id != activeId.value by {
          forall k | 0 <= k < i + 1 ensures notes[k].id != activeId.value {
            if k > 0 { assert notes[k] == notes[1..][k - 1]; }
          }
        }
        r
  }

  datatype Role = NoRole | Host | Audience

  /** The text given to the assistant: the received text for the audience; otherwise
      the host's session text, else the active note's content, else nothing. */
  function AiContext(role: Role, audienceText: string, sessionText: string, active: Option<Note>): (c: string)
    ensures role == Audience ==> c == audienceText
    ensures role != Audience && sessionText != "" ==> c == sessionText
    ensures role != Audience && sessionText == "" && active.Some? ==> c == active.value.content
    ensures role != Audience && sessionText == "" && active.None? ==> c == ""
  {
    if role == Audience then audienceText
    else if sessionText != "" then sessionText
    else if active.Some? then active.value.content
    else ""
  }

  /** A realtime connection, identified by a handle the transport hands out. */
  type ConnId = nat

  /** A request the controller sends over its connection. */
  datatype Request = CreateRoomRequest | JoinRoomRequest(code: string)

  const ImportSuccess := "Notes imported successfully!"
  const ImportInvalid := "Invalid JSON file"
  const HostNotePrefix := "Live Session "

  class App {
    var notes: seq<Note>
    var activeNoteId: Option<string>
    var userRole: Role
    var socket: Option<ConnId>
    var roomCode: Option<string>
    var audienceText: string
    var currentSessionText: string

    /** Start-up, with the notes read back from local storage. */
    constructor (saved: seq<Note>)
      ensures notes == saved && activeNoteId == None && userRole == NoRole
      ensures socket == None && roomCode == None && audienceText == "" && currentSessionText == ""
    {
      notes := saved;
      activeNoteId := None;
      userRole := NoRole;
      socket := None;
      roomCode := None;
      audienceText := "";
      currentSessionText := "";
    }

    /** The note the active id selects, if any. */
    function Active(): Option<Note>
      reads this
    {
      ActiveNote(notes, activeNoteId)
    }

    /** `createNote`: the new note goes in front and becomes the active note. */
    method CreateNote(content: string, now: nat) returns (id: string)
      modifies this`notes, this`activeNoteId
      ensures id == NatToString(now)
      ensures notes == NotesAfterCreate(old(notes), content, now) && activeNoteId == Some(id)
      ensures Active() == Some(NewNote(content, now))
    {
      var note := NewNote(content, now);
      notes := NotesAfterCreate(notes, content, now);
      activeNoteId := Some(note.id);
      id := note.id;
    }

    /** `updateNote`. */
    method UpdateNote(updated: Note, now: nat)
      modifies this`notes
      ensures notes == NotesAfterUpdate(old(notes), updated, now)
    {
      notes := NotesAfterUpdate(notes, updated, now);
    }

    /** `deleteNote`: the active id is cleared only when it was the deleted one. */
    method DeleteNote(id: string)
      modifies this`notes, this`activeNoteId
      ensures notes == NotesAfterDelete(old(notes), id)
      ensures activeNoteId == if old(activeNoteId) == Some(id) then None else old(activeNoteId)
    {
      notes := NotesAfterDelete(notes, id);
      if activeNoteId == Some(id) {
        activeNoteId := None;
      }
    }

    /** Choosing a note in the sidebar. */
    method SelectNote(id: string)
      modifies this`activeNoteId
      ensures activeNoteId == Some(id)
    {
      activeNoteId := Some(id);
    }

    /** `initSocket`: a connection is opened (the transport's next handle is `next`)
        only when there is none; otherwise the existing one is reused. */
    method InitSocket(next: ConnId) returns (s: ConnId)
      modifies this`socket
      ensures old(socket).Some? ==> s == old(socket).value && socket == old(socket)
      ensures old(socket).None? ==> s == next && socket == Some(next)
    {
      if socket.None? {
        socket := Some(next);
        s := next;
      } else {
        s := socket.value;
      }
    }

    /** `handleJoinAsHost`: ensure a connection, then ask for a room. */
    method JoinAsHost(next: ConnId) returns (s: ConnId, request: Request)
      modifies this`socket
      ensures old(socket).Some? ==> s == old(socket).value && socket == old(socket)
      ensures old(socket).None? ==> s == next && socket == Some(next)
      ensures request == CreateRoomRequest
    {
      s := InitSocket(next);
      request := CreateRoomRequest;
    }

    /** The `room_created` reply: the controller becomes the host of `code` and a note
        for the session is created and made active. */
    method OnRoomCreated(code: string, now: nat)
      modifies this`roomCode, this`userRole, this`notes, this`activeNoteId
      ensures roomCode == Some(code) && userRole == Host
      ensures notes == NotesAfterCreate(old(notes), HostNotePrefix + code, now)
      ensures activeNoteId == Some(NatToString(now))
    {
      roomCode := Some(code);
      userRole := Host;
      var _ := CreateNote(HostNotePrefix + code, now);
    }

    /** `handleJoinAsAudience`: ensure a connection, then ask to join `code` as typed. */
    method JoinAsAudience(code: string, next: ConnId) returns (s: ConnId, request: Request)
      modifies this`socket
      ensures old(socket).Some? ==> s == old(socket).value && socket == old(socket)
      ensures old(socket).None? ==> s == next && socket == Some(next)
      ensures request == JoinRoomRequest(code)
    {
      s := InitSocket(next);
      request := JoinRoomRequest(code);
    }

    /** The `room_joined` reply: the controller becomes an audience member of `code`. */
    method OnRoomJoined(code: string)
      modifies this`roomCode, this`userRole
      ensures roomCode == Some(code) && userRole == Audience
    {
      roomCode := Some(code);
      userRole := Audience;
    }

    /** `handleLogout`: the connection, if any, is closed and forgotten, and the role
        and room are cleared; notes and texts stay. */
    method Logout() returns (closed: Option<ConnId>)
      modifies this`socket, this`userRole, this`roomCode
      ensures closed == old(socket)
      ensures socket == None && userRole == NoRole && roomCode == None
    {
      closed := socket;
      socket := None;
      userRole := NoRole;
      roomCode := None;
    }

    /** `handleHostUpdate`: the session text always follows the host's document; the
        active note, when there is one, gets it as its content. */
    method HostUpdate(text: string, now: nat)
      modifies this`notes, this`currentSessionText
      ensures currentSessionText == text
      ensures old(Active()).None? ==> notes == old(notes)
      ensures old(Active()).Some? ==> notes == NotesAfterUpdate(old(notes), old(Active()).value.(content := text), now)
    {
      currentSessionText := text;
      var active := ActiveNote(notes, activeNoteId);
      if active.Some? {
        UpdateNote(active.value.(content := text), now);
      }
    }

    /** The audience screen's `onTextUpdate`. */
    method SetAudienceText(text: string)
      modifies this`audienceText
      ensures audienceText == text
    {
      audienceText := text;
    }

    /** The import handler once the file is read: an array is appended; the alert
        to show is returned. */
    method Import(parsed: Parsed) returns (alert: Option<string>)
      modifies this`notes
      ensures notes == NotesAfterImport(old(notes), parsed)
      ensures alert == match parsed
                       case JsonArray(_) => Some(ImportSuccess)
                       case JsonOther => None
                       case Invalid => Some(ImportInvalid)
    {
      match parsed
      case JsonArray(items) =>
        notes := notes + items;
        alert := Some(ImportSuccess);
      case JsonOther =>
        alert := None;
      case Invalid =>
        alert := Some(ImportInvalid);
    }
  }

  /** Updating the active note keeps it selectable: after a host update under an
      active note, the active note is the updated one. */
  lemma {:induction false} HostUpdateKeepsActive(notes: seq<Note>, activeId: Option<string>, text: string, now: nat)
    requires ActiveNote(notes, activeId).Some?
    ensures var n := ActiveNote(notes, activeId).value;
            ActiveNote(NotesAfterUpdate(notes, n.(content := text), now), activeId) == Some(n.(content := text, updatedAt := now))
    decreases |notes|
  {
    var n := ActiveNote(notes, activeId).value;
    var r := NotesAfterUpdate(notes, n.(content := text), now);
    if notes[0].id != activeId.value {
      assert r[1..] == NotesAfterUpdate(notes[1..], n.(content := text), now);
      HostUpdateKeepsActive(notes[1..], activeId, text, now);
    }
  }
}
