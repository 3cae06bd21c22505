/** The relay server: the table of rooms, the room-code generator, the realtime
    event handlers, the network-address discovery loop and the assistant endpoint's
    request handling. */
module RoomServer {
  import opened Wrappers
  import opened Decimal

  /** A connection's identifier. */
  type SocketId = string

  /** A room record: its host connection and the set of audience connections. */
  datatype Room = Room(host: SocketId, audience: set<SocketId>)

  /** What a handler sends back to the calling connection. */
  datatype Reply = RoomCreated(code: string) | RoomJoined(code: string) | Error(message: string)

  const RoomNotFound := "Room not found"

  /** `Math.floor(100000 + Math.random() * 900000).toString()`, with the random draw
      `Math.floor(Math.random() * 900000)` taken as the input `r`. */
  function RoomCode(r: int): (code: string)
    requires 0 <= r < 900000
    ensures |code| == 6 && AllDigits(code) && code[0] != '0'
    ensures ParseDigits(code) == 100000 + r
    ensures 100000 <= ParseDigits(code) <= 999999
  {
    var n := 100000 + r;
    assert Pow10(5) == 100000 && Pow10(6) == 1000000;
    PrintedLength(n, 6);
    NoLeadingZero(n);
    ParsePrinted(n);
    NatToString(n)
  }

  /** Distinct draws give distinct codes, so two rooms share a code only when the
      draws coincide. */
  lemma RoomCodeInjective(r1: int, r2: int)
    requires 0 <= r1 < 900000 && 0 <= r2 < 900000
    requires RoomCode(r1) == RoomCode(r2)
    ensures r1 == r2
  {
  }

  /** The members of a realtime channel (none when nobody has joined it). */
  function Members(channels: map<string, set<SocketId>>, code: string): set<SocketId>
  {
    if code in channels then channels[code] else {}
  }

  /** The channel table after `s` joins channel `code`. */
  function JoinChannel(channels: map<string, set<SocketId>>, code: string, s: SocketId): (c: map<string, set<SocketId>>)
    ensures c.Keys == channels.Keys + {code}
    ensures Members(c, code) == Members(channels, code) + {s}
    ensures forall k :: k in channels && k != code ==> c[k] == channels[k]
  {
    channels[code := Members(channels, code) + {s}]
  }

  /** The room table after `caller` joins room `code`: on a known code the caller is
      added to that room's audience; an unknown code leaves the table as it was. */
  function AddAudience(rooms: map<string, Room>, code: string, caller: SocketId): (r: map<string, Room>)
    ensures r.Keys == rooms.Keys
    ensures code !in rooms ==> r == rooms
    ensures code in rooms ==> r[code].host == rooms[code].host && r[code].audience == rooms[code].audience + {caller}
    ensures forall k :: k in rooms && k != code ==> r[k] == rooms[k]
  {
    if code in rooms then rooms[code := rooms[code].(audience := rooms[code].audience + {caller})] else rooms
  }

  /** Joining twice is joining once: the audience is a set. */
  lemma AddAudienceIdempotent(rooms: map<string, Room>, code: string, caller: SocketId)
    ensures AddAudience(AddAudience(rooms, code, caller), code, caller) == AddAudience(rooms, code, caller)
  {
    if code in rooms {
      var once := AddAudience(rooms, code, caller);
      assert once[code].audience + {caller} == once[code].audience;
    }
  }

  /** The channel table after a connection goes away: the transport drops it from
      every channel it had joined. */
  function LeaveAll(channels: map<string, set<SocketId>>, s: SocketId): (c: map<string, set<SocketId>>)
    ensures c.Keys == channels.Keys
    ensures forall k :: k in channels ==> c[k] == channels[k] - {s}
  {
    map k | k in channels :: channels[k] - {s}
  }

  class Registry {
    /** The `rooms` table, keyed by room code. */
    var rooms: map<string, Room>
    /** The transport's channel membership, which `send_transcript` fans out to. */
    var channels: map<string, set<SocketId>>

    constructor ()
      ensures rooms == map[] && channels == map[]
    {
      rooms := map[];
      channels := map[];
    }

    /** `create_room`: a fresh code is mapped to a room hosted by the caller, with no
        check against live rooms, so a repeated code replaces the earlier room; the
        caller joins the code's channel and is told the code. */
    method CreateRoom(caller: SocketId, r: int) returns (reply: Reply)
      requires 0 <= r < 900000
      modifies this
      ensures reply == RoomCreated(RoomCode(r))
      ensures rooms == old(rooms)[RoomCode(r) := Room(caller, {})]
      ensures channels == JoinChannel(old(channels), RoomCode(r), caller)
    {
      var code := RoomCode(r);
      rooms := rooms[code := Room(caller, {})];
      channels := JoinChannel(channels, code, caller);
      reply := RoomCreated(code);
    }

    /** `join_room`: a known code adds the caller to the room's audience and channel;
        an unknown code is answered with an error and changes nothing. */
    method JoinRoom(caller: SocketId, code: string) returns (reply: Reply)
      modifies this
      ensures old(code in rooms) ==> reply == RoomJoined(code)
      ensures old(code !in rooms) ==> reply == Error(RoomNotFound)
      ensures rooms == AddAudience(old(rooms), code, caller)
      ensures channels == if old(code in rooms) then JoinChannel(old(channels), code, caller) else old(channels)
    {
      if code in rooms {
        channels := JoinChannel(channels, code, caller);
        rooms := AddAudience(rooms, code, caller);
        reply := RoomJoined(code);
      } else {
        reply := Error(RoomNotFound);
      }
    }

    /** `send_transcript`: the text goes unchanged to every member of the code's
        channel except the sender; the room table is not consulted. */
    method SendTranscript(sender: SocketId, code: string, text: string)
      returns (recipients: set<SocketId>, delivered: string)
      ensures recipients == Members(channels, code) - {sender}
      ensures sender !in recipients
      ensures forall s :: s in Members(channels, code) && s != sender ==> s in recipients
      ensures delivered == text
    {
      recipients := Members(channels, code) - {sender};
      delivered := text;
    }

    /** `disconnect`: the handler only logs, so departed hosts and audience members
        stay in the room table; the transport drops the connection from its channels. */
    method Disconnect(s: SocketId)
      modifies this
      ensures rooms == old(rooms)
      ensures channels == LeaveAll(old(channels), s)
    {
      channels := LeaveAll(channels, s);
    }
  }

  /** One entry of an interface's address list. */
  datatype NetAddress = NetAddress(family: string, internal: bool, address: string)

  predicate StartsWith(s: string, prefix: string)
  {
    |prefix| <= |s| && s[..|prefix|] == prefix
  }

  /** An address the discovery loop takes: an external IPv4 address. */
  predicate Candidate(a: NetAddress)
  {
    a.family == "IPv4" && !a.internal
  }

  /** An address after which the loop stops scanning its interface's list. */
  predicate Preferred(address: string)
  {
    StartsWith(address, "192") || StartsWith(address, "10")
  }

  /** The address held after scanning one interface's list, starting from `cur`. */
  function ScanList(list: seq<NetAddress>, cur: string): string
    decreases |list|
  {
    if list == [] then cur
    else if Candidate(list[0]) then
      (if Preferred(list[0].address) then list[0].address else ScanList(list[1..], list[0].address))
    else ScanList(list[1..], cur)
  }

  /** The address held after scanning the interfaces in order, starting from `cur`. */
  function ScanAll(nets: seq<seq<NetAddress>>, cur: string): string
    decreases |nets|
  {
    if nets == [] then cur else ScanAll(nets[1..], ScanList(nets[0], cur))
  }

  predicate HasCandidate(list: seq<NetAddress>)
  {
    exists j :: 0 <= j < |list| && Candidate(list[j])
  }

  /** `addr` is the address of some candidate entry of `nets`. */
  predicate IsCandidateAddress(nets: seq<seq<NetAddress>>, addr: string)
  {
    exists i, j :: 0 <= i < |nets| && 0 <= j < |nets[i]| && Candidate(nets[i][j]) && nets[i][j].address == addr
  }

  /** `/api/network-ip`: the nested loop over the interfaces and their addresses; a
      preferred address ends only the inner loop. */
  method SelectNetworkIp(nets: seq<seq<NetAddress>>) returns (networkIp: string)
    ensures networkIp == ScanAll(nets, "localhost")
  {
    networkIp := "localhost";
    var i := 0;
    while i < |nets|
      invariant 0 <= i <= |nets|
      invariant ScanAll(nets[i..], networkIp) == ScanAll(nets, "localhost")
    {
      var list := nets[i];
      ghost var target := ScanList(list, networkIp);
      var j := 0;
      while j < |list|
        invariant 0 <= j <= |list|
        invariant ScanList(list[j..], networkIp) == target
      {
        var net := list[j];
        if net.family == "IPv4" && !net.internal {
          networkIp := net.address;
          if StartsWith(networkIp, "192") || StartsWith(networkIp, "10") {
            break;
          }
        }
        j := j + 1;
      }
      assert networkIp == target;
      assert nets[i..][1..] == nets[i + 1..];
      i := i + 1;
    }
  }

  /** A list without candidates leaves the address as it was; a list with one
      yields a candidate of that list, whatever the address was before. */
  lemma {:induction false} ScanListResult(list: seq<NetAddress>, cur: string)
    ensures !HasCandidate(list) ==> ScanList(list, cur) == cur
    ensures HasCandidate(list) ==>
              (forall other :: ScanList(list, other) == ScanList(list, cur)) &&
              exists j :: 0 <= j < |list| && Candidate(list[j]) && list[j].address == ScanList(list, cur)
    decreases |list|
  {
    if list != [] {
      ScanListResult(list[1..], cur);
      if !Candidate(list[0]) {
        if HasCandidate(list) {
          var j :| 0 <= j < |list| && Candidate(list[j]);
          assert Candidate(list[1..][j - 1]);
        } else {
          forall j | 0 <= j < |list[1..]| ensures !Candidate(list[1..][j]) {
            assert list[1..][j] == list[j + 1];
          }
        }
        forall other ensures ScanList(list, other) == ScanList(list[1..], other) {}
        if HasCandidate(list) {
          var j :| 0 <= j < |list[1..]| && Candidate(list[1..][j]) && list[1..][j].address == ScanList(list[1..], cur);
          assert Candidate(list[j + 1]) && list[j + 1].address == ScanList(list, cur);
        }
      } else if !Preferred(list[0].address) {
        ScanListResult(list[1..], list[0].address);
        forall other ensures ScanList(list, other) == ScanList(list[1..], list[0].address) {}
        if HasCandidate(list[1..]) {
          var j :| 0 <= j < |list[1..]| && Candidate(list[1..][j]) && list[1..][j].address == ScanList(list[1..], list[0].address);
          assert Candidate(list[j + 1]) && list[j + 1].address == ScanList(list, cur);
        } else {
          assert Candidate(list[0]) && list[0].address == ScanList(list, cur);
        }
      } else {
        assert Candidate(list[0]) && list[0].address == ScanList(list, cur);
      }
    }
  }

  /** Scanning one more interface after the others. */
  lemma {:induction false} ScanAllSnoc(nets: seq<seq<NetAddress>>, last: seq<NetAddress>, cur: string)
    ensures ScanAll(nets + [last], cur) == ScanList(last, ScanAll(nets, cur))
    decreases |nets|
  {
    if nets == [] {
      assert [] + [last] == [last];
      assert [last][1..] == [];
    } else {
      assert (nets + [last])[1..] == nets[1..] + [last];
      ScanAllSnoc(nets[1..], last, ScanList(nets[0], cur));
    }
  }

  /** Later interfaces win: when the last interface has a candidate, the result is
      that interface's own pick, whatever the earlier interfaces held. */
  lemma LastInterfaceWins(nets: seq<seq<NetAddress>>, last: seq<NetAddress>)
    requires HasCandidate(last)
    ensures ScanAll(nets + [last], "localhost") == ScanList(last, "")
  {
    ScanAllSnoc(nets, last, "localhost");
    ScanListResult(last, "");
  }

  /** The discovery result is `localhost` when no interface has an external IPv4
      address, and otherwise the address of one such entry. */
  lemma {:induction false} NetworkIpResult(nets: seq<seq<NetAddress>>)
    ensures (forall i :: 0 <= i < |nets| ==> !HasCandidate(nets[i])) ==> ScanAll(nets, "localhost") == "localhost"
    ensures (exists i :: 0 <= i < |nets| && HasCandidate(nets[i])) ==> IsCandidateAddress(nets, ScanAll(nets, "localhost"))
    decreases |nets|
  {
    if nets != [] {
      var init, last := nets[..|nets| - 1], nets[|nets| - 1];
      assert nets == init + [last];
      NetworkIpResult(init);
      ScanAllSnoc(init, last, "localhost");
      ScanListResult(last, ScanAll(init, "localhost"));
      if HasCandidate(last) {
        var j :| 0 <= j < |last| && Candidate(last[j]) && last[j].address == ScanAll(nets, "localhost");
        assert nets[|nets| - 1][j] == last[j];
      } else if exists i :: 0 <= i < |nets| && HasCandidate(nets[i]) {
        var i :| 0 <= i < |nets| && HasCandidate(nets[i]);
        assert i < |init| && HasCandidate(init[i]);
        var i', j :| 0 <= i' < |init| && 0 <= j < |init[i']| && Candidate(init[i'][j]) && init[i'][j].address == ScanAll(init, "localhost");
        assert nets[i'][j] == init[i'][j];
      } else {
        assert forall i :: 0 <= i < |init| ==> init[i] == nets[i];
      }
    }
  }

  /** A chat message from the assistant panel. */
  datatype ChatMessage = ChatMessage(role: string, text: string)

  /** An HTTP answer of the assistant endpoint. */
  datatype ChatReply = Answer(text: string) | Failure(status: nat, error: string)

  const LoadingError := "AI model is still loading... Please wait a moment."
  const GenerationError := "Failed to generate response."
  const Instruction := "Answer the question truthfully and in full sentences. You may use the provided reference text if it is relevant to the question, but you should primarily rely on your own general knowledge to give a complete and helpful answer."

  /** The reference text of a prompt: `context || 'No context.'`. */
  function ReferenceText(context: Option<string>): (t: string)
    ensures context.Some? && context.value != "" ==> t == context.value
    ensures context.None? || context.value == "" ==> t == "No context."
  {
    if context.Some? && context.value != "" then context.value else "No context."
  }

  /** What the prompt says before the question: the instruction and the reference text. */
  function PromptHead(context: Option<string>): string
  {
    "Instruction: " + Instruction + "\n\nReference Text: \"" + ReferenceText(context) + "\"\n\nQuestion: "
  }

  const PromptTail := "\n\nAnswer:"

  /** The prompt given to the model: the question sits between the fixed head, which
      carries the context, and the fixed tail. */
  function Prompt(context: Option<string>, question: string): (p: string)
    ensures |p| == |PromptHead(context)| + |question| + |PromptTail|
    ensures p[..|PromptHead(context)|] == PromptHead(context)
    ensures p[|PromptHead(context)|..|p| - |PromptTail|] == question
    ensures p[|p| - |PromptTail|..] == PromptTail
  {
    var head := PromptHead(context);
    var p := head + question + PromptTail;
    assert p[..|head|] == head;
    assert p[|head|..|p| - |PromptTail|] == question;
    assert p[|p| - |PromptTail|..] == PromptTail;
    p
  }

  /** Under one context, the prompt determines the question. */
  lemma {:induction false} PromptDeterminesQuestion(context: Option<string>, q1: string, q2: string)
    requires Prompt(context, q1) == Prompt(context, q2)
    ensures q1 == q2
  {
    var p := Prompt(context, q1);
    assert q1 == p[|PromptHead(context)|..|p| - |PromptTail|];
  }

  /** The prompt a request hands to the model: built from its last message alone and
      the context; a request without messages gets none. */
  function ChatPrompt(messages: seq<ChatMessage>, context: Option<string>): (p: Option<string>)
    ensures p.None? <==> messages == []
    ensures p.Some? ==> p.value == Prompt(context, messages[|messages| - 1].text)
  {
    if messages == [] then None else Some(Prompt(context, messages[|messages| - 1].text))
  }

  /** `/api/chat`: 503 while no model is loaded; a request without messages fails
      inside the handler's `try` (the last message is undefined) and gets 500;
      otherwise the last message alone is the question, and `generate` (the loaded
      model, `None` when it throws) produces the answer. */
  function Chat(loaded: bool, messages: seq<ChatMessage>, context: Option<string>,
                generate: string -> Option<string>): (reply: ChatReply)
    ensures !loaded ==> reply == Failure(503, LoadingError)
    ensures loaded && messages == [] ==> reply == Failure(500, GenerationError)
    ensures loaded && messages != [] ==>
      reply == match generate(Prompt(context, messages[|messages| - 1].text))
               case Some(t) => Answer(t)
               case None => Failure(500, GenerationError)
    ensures reply.Failure? ==> reply.status in {500, 503}
  {
    var prompt := ChatPrompt(messages, context);
    if !loaded then Failure(503, LoadingError)
    else if prompt.None? then Failure(500, GenerationError)
    else
      match generate(prompt.value)
      case Some(text) => Answer(text)
      case None => Failure(500, GenerationError)
  }

  /** Only the last message matters: two requests with the same context hand the
      model the same prompt exactly when their last messages carry the same text,
      whatever history precedes them. */
  lemma {:induction false} ChatUsesLastMessageOnly(m1: seq<ChatMessage>, m2: seq<ChatMessage>, context: Option<string>)
    requires m1 != [] && m2 != []
    ensures ChatPrompt(m1, context) == ChatPrompt(m2, context) <==> m1[|m1| - 1].text == m2[|m2| - 1].text
  {
    if ChatPrompt(m1, context) == ChatPrompt(m2, context) {
      PromptDeterminesQuestion(context, m1[|m1| - 1].text, m2[|m2| - 1].text);
    }
  }
}
