/** The clipboard-sync hub of src/routes/ws.rs: the registry shared by every connection
    (`ClipboardState`), the counter that hands out connection ids, and one connection's
    session (`WsClipboardSession`) with its start, stop, heartbeat tick and frame handler.
    Time is a number of whole seconds passed in by the caller; every registry call is one
    atomic step; outbound traffic is the list of frames a call returns. */
module WsHub {
  import opened Wrappers
  import opened Strings
  import opened WsCodec

  type ClientId = nat

  /** A session is closed when strictly more than this many seconds have passed since the
      last sign of life from its peer. */
  const HeartbeatTimeout: nat := 30

  /** The registry: the last clipboard text and the ids of the connected sessions. */
  class ClipboardState {
    var content: string
    var clients: set<ClientId>

    constructor(initial: string)
      ensures content == initial && clients == {}
    {
      content := initial;
      clients := {};
    }

    /** Stores new content and lists every registered id once, in no particular order. */
    method UpdateContent(s: string) returns (ids: seq<ClientId>)
      modifies this
      ensures content == s && clients == old(clients)
      ensures forall id :: id in ids <==> id in clients
      ensures forall i, j :: 0 <= i < j < |ids| ==> ids[i] != ids[j]
    {
      content := s;
      ids := [];
      var rest := clients;
      while rest != {}
        invariant rest <= clients
        invariant forall id :: id in ids <==> id in clients && id !in rest
        invariant forall i, j :: 0 <= i < j < |ids| ==> ids[i] != ids[j]
        decreases rest
      {
        var id :| id in rest;
        ids := ids + [id];
        rest := rest - {id};
      }
    }

    /** Adds `id` to the connected set and hands back the current content. */
    method RegisterClient(id: ClientId) returns (current: string)
      modifies this
      ensures clients == old(clients) + {id}
      ensures content == old(content) && current == content
    {
      clients := clients + {id};
      current := content;
    }

    /** Removes `id`; an id that is not registered leaves the set as it is. */
    method UnregisterClient(id: ClientId)
      modifies this
      ensures clients == old(clients) - {id}
      ensures old(id !in clients) ==> clients == old(clients)
      ensures content == old(content)
    {
      clients := clients - {id};
    }

    method GetCurrentContent() returns (current: string)
      ensures current == content
    {
      current := content;
    }
  }

  /** The process-wide id source: it starts at 1 and each fetch returns the current value
      and advances it, so no id is handed out twice. */
  class IdCounter {
    var next: nat
    /** The ids handed out so far. */
    ghost var issued: set<ClientId>

    ghost predicate Valid()
      reads this
    {
      1 <= next && forall id :: id in issued ==> id < next
    }

    constructor()
      ensures Valid() && next == 1 && issued == {}
    {
      next := 1;
      issued := {};
    }

    method FetchAdd() returns (id: ClientId)
      requires Valid()
      modifies this
      ensures Valid()
      ensures id == old(next) && next == old(next) + 1
      ensures id !in old(issued) && issued == old(issued) + {id}
    {
      id := next;
      next := next + 1;
      issued := issued + {id};
    }
  }

  datatype CloseReason = CloseReason(code: nat, description: Option<string>)

  /** What the transport delivers to a session: one of the WebSocket frame kinds, or a
      protocol error. */
  datatype Inbound =
    | Ping(payload: seq<byte>)
    | Pong(payload: seq<byte>)
    | Text(text: string)
    | Binary(data: seq<byte>)
    | Close(reason: Option<CloseReason>)
    | Continuation
    | Nop
    | ProtocolError

  /** The JSON a text frame carries: a serialised `WsMessage`, or the error object the
      handler writes by hand. */
  datatype TextPayload = Message(msg: WsMessage) | ErrorReport(detail: string)

  /** What a session sends to its peer. */
  datatype Outbound =
    | TextFrame(body: TextPayload)
    | PingFrame(payload: seq<byte>)
    | PongFrame(payload: seq<byte>)
    | CloseFrame(reason: Option<CloseReason>)

  /** The error frame the handler sends: `{"type":"error","data":detail}`. */
  function ErrorFrame(detail: string): string {
    "{" + FieldText("type", "error") + "," + FieldText("data", detail) + "}"
  }

  /** The text of a text frame on the wire. */
  function PayloadText(p: TextPayload): string {
    match p
    case Message(m) => Encode(m)
    case ErrorReport(detail) => ErrorFrame(detail)
  }

  const InvalidFormat: string := "Invalid message format"
  const BinaryNotSupported: string := "Binary messages not supported"

  /** Seconds from `since` to `now`; zero when `now` is earlier, as
      `Instant::duration_since` saturates. */
  function Elapsed(now: nat, since: nat): (d: nat)
    ensures now >= since ==> since + d == now
    ensures now < since ==> d == 0
  {
    if now >= since then now - since else 0
  }

  /** One connection's actor state. */
  class Session {
    const id: ClientId
    var lastHeartbeat: nat
    /** Whether the actor has asked to stop. */
    var stopped: bool
    const registry: ClipboardState

    /** `WsClipboardSession::new`: a fresh id from the counter and the current time. */
    constructor(registry: ClipboardState, counter: IdCounter, now: nat)
      requires counter.Valid()
      modifies counter
      ensures this.registry == registry
      ensures id == old(counter.next) && id !in old(counter.issued)
      ensures counter.Valid() && counter.next == old(counter.next) + 1
      ensures counter.issued == old(counter.issued) + {id}
      ensures lastHeartbeat == now && !stopped
    {
      var issuedId := counter.FetchAdd();
      id := issuedId;
      lastHeartbeat := now;
      stopped := false;
      this.registry := registry;
    }

    /** The actor's start: register and send the current content, once. The heartbeat
        timer it schedules is `HeartbeatTick`, which the caller drives. */
    method Started() returns (out: seq<Outbound>)
      modifies registry
      ensures registry.clients == old(registry.clients) + {id}
      ensures registry.content == old(registry.content)
      ensures out == [TextFrame(Message(Clipboard(registry.content)))]
    {
      var current := registry.RegisterClient(id);
      out := [TextFrame(Message(Clipboard(current)))];
    }

    /** The actor's stop: unregister. */
    method Stopping()
      modifies registry
      ensures registry.clients == old(registry.clients) - {id}
      ensures registry.content == old(registry.content)
    {
      registry.UnregisterClient(id);
    }

    /** One run of the periodic heartbeat check. */
    method HeartbeatTick(now: nat) returns (out: seq<Outbound>)
      modifies this, registry
      ensures Elapsed(now, old(lastHeartbeat)) > HeartbeatTimeout ==>
        registry.clients == old(registry.clients) - {id} && stopped && out == []
      ensures Elapsed(now, old(lastHeartbeat)) <= HeartbeatTimeout ==>
        registry.clients == old(registry.clients) && stopped == old(stopped) && out == [PingFrame([])]
      ensures registry.content == old(registry.content) && lastHeartbeat == old(lastHeartbeat)
    {
      if Elapsed(now, lastHeartbeat) > HeartbeatTimeout {
        registry.UnregisterClient(id);
        stopped := true;
        out := [];
        return;
      }
      out := [PingFrame([])];
    }

    /** How a text frame that decodes to `decoded` leaves the session and the registry:
        Connect and Heartbeat refresh the heartbeat and answer nothing; Clipboard stores the
        text, echoes it to this client and lists every registered client as a peer; Sync
        sends the stored text; a frame that does not decode gets the "Invalid message
        format" error frame. Nothing else changes. */
    twostate predicate TextHandled(decoded: Option<WsMessage>, now: nat, out: seq<Outbound>, peers: seq<ClientId>)
      reads this, registry
    {
      && (decoded in {Some(Connect), Some(Heartbeat)} ==> out == [] && lastHeartbeat == now)
      && (decoded.Some? && decoded.value.Clipboard? ==>
            registry.content == decoded.value.text
            && out == [TextFrame(Message(Clipboard(decoded.value.text)))]
            && (forall c :: c in peers <==> c in old(registry.clients)))
      && (decoded == Some(Sync) ==> out == [TextFrame(Message(Clipboard(old(registry.content))))])
      && (decoded.None? ==> out == [TextFrame(ErrorReport(InvalidFormat))])
      && (!(decoded in {Some(Connect), Some(Heartbeat)}) ==> lastHeartbeat == old(lastHeartbeat))
      && (!(decoded.Some? && decoded.value.Clipboard?) ==> registry.content == old(registry.content) && peers == [])
    }

    /** The reaction to a text frame, given what its text decodes to. */
    method HandleText(decoded: Option<WsMessage>, now: nat) returns (out: seq<Outbound>, peers: seq<ClientId>)
      modifies this, registry
      ensures TextHandled(decoded, now, out, peers)
      ensures registry.clients == old(registry.clients) && stopped == old(stopped)
    {
      peers := [];
      match decoded
      case Some(Connect) =>
        lastHeartbeat := now;
        out := [];
      case Some(Clipboard(content)) =>
        peers := registry.UpdateContent(content);
        out := [TextFrame(Message(Clipboard(content)))];
      case Some(Sync) =>
        var current := registry.GetCurrentContent();
        out := [TextFrame(Message(Clipboard(current)))];
      case Some(Heartbeat) =>
        lastHeartbeat := now;
        out := [];
      case None =>
        out := [TextFrame(ErrorReport(InvalidFormat))];
    }

    /** The reaction to every frame that is not a text frame. */
    method HandleOther(msg: Inbound, now: nat) returns (out: seq<Outbound>)
      requires !msg.Text?
      modifies this, registry
      ensures msg.Ping? ==> out == [PongFrame(msg.payload)] && lastHeartbeat == now
      ensures msg.Pong? ==> out == [] && lastHeartbeat == now
      ensures msg.Binary? ==> out == [TextFrame(ErrorReport(BinaryNotSupported))]
      ensures msg.Close? ==>
        registry.clients == old(registry.clients) - {id} && stopped && out == [CloseFrame(msg.reason)]
      ensures !msg.Close? ==> registry.clients == old(registry.clients) && stopped == old(stopped)
      ensures !(msg.Ping? || msg.Binary? || msg.Close?) ==> out == []
      ensures registry.content == old(registry.content)
      ensures !(msg.Ping? || msg.Pong?) ==> lastHeartbeat == old(lastHeartbeat)
    {
      out := [];
      match msg
      case Ping(payload) =>
        lastHeartbeat := now;
        out := [PongFrame(payload)];
      case Pong(_) =>
        lastHeartbeat := now;
      case Binary(_) =>
        out := [TextFrame(ErrorReport(BinaryNotSupported))];
      case Close(reason) =>
        registry.UnregisterClient(id);
        out := [CloseFrame(reason)];
        stopped := true;
      case Continuation =>
      case Nop =>
      case ProtocolError =>
    }

    /** The frame handler. `peers` is the id list the registry returns when a clipboard
        update is stored; the handler computes it and sends nothing to those peers. */
    method Handle(msg: Inbound, now: nat) returns (out: seq<Outbound>, peers: seq<ClientId>)
      modifies this, registry
      ensures msg.Ping? ==> out == [PongFrame(msg.payload)] && lastHeartbeat == now
      ensures msg.Pong? ==> out == [] && lastHeartbeat == now
      ensures msg.Text? ==> TextHandled(Decode(msg.text), now, out, peers)
      ensures msg.Binary? ==> out == [TextFrame(ErrorReport(BinaryNotSupported))]
      ensures msg.Close? ==>
        registry.clients == old(registry.clients) - {id} && stopped && out == [CloseFrame(msg.reason)]
      ensures !msg.Close? ==> registry.clients == old(registry.clients) && stopped == old(stopped)
      ensures !(msg.Ping? || msg.Text? || msg.Binary? || msg.Close?) ==> out == []
      ensures !msg.Text? ==> registry.content == old(registry.content) && peers == []
      ensures !(msg.Ping? || msg.Pong? || msg.Text?) ==> lastHeartbeat == old(lastHeartbeat)
    {
      if msg.Text? {
        out, peers := HandleText(Decode(msg.text), now);
      } else {
        out := HandleOther(msg, now);
        peers := [];
      }
    }

    /** A Close frame followed by the actor's stop unregisters twice; the second call
        changes nothing, so the registry ends as after one removal. */
    method CloseThenStop(reason: Option<CloseReason>, now: nat) returns (out: seq<Outbound>)
      modifies this, registry
      ensures registry.clients == old(registry.clients) - {id}
      ensures registry.content == old(registry.content)
      ensures stopped && out == [CloseFrame(reason)]
      ensures lastHeartbeat == old(lastHeartbeat)
    {
      var peers;
      out, peers := Handle(Close(reason), now);
      Stopping();
    }

    /** A heartbeat timeout followed by the actor's stop: the same single removal. */
    method TimeoutThenStop(now: nat) returns (out: seq<Outbound>)
      requires Elapsed(now, lastHeartbeat) > HeartbeatTimeout
      modifies this, registry
      ensures registry.clients == old(registry.clients) - {id}
      ensures registry.content == old(registry.content)
      ensures stopped && out == []
      ensures lastHeartbeat == old(lastHeartbeat)
    {
      out := HeartbeatTick(now);
      Stopping();
    }
  }

  // ---------------------------------------------------------------------------------------
  // The error frames

  /** Text with no quote, backslash and control character, which JSON writes as it is. */
  predicate Plain(t: string) {
    forall i :: 0 <= i < |t| ==> t[i] != '"' && t[i] != '\\' && t[i] as int >= 0x20
  }

  /** Plain text is written between quotes as it is. */
  lemma QuotePlain(t: string)
    requires Plain(t)
    ensures Quote(t) == "\"" + t + "\""
  {
    EscapePlain(t);
  }

  /** A field with a plain key and a plain value is `"key":"value"`. */
  lemma FieldTextPlain(k: string, v: string)
    requires Plain(k) && Plain(v)
    ensures FieldText(k, v) == "\"" + k + "\":\"" + v + "\""
  {
    QuotePlain(k);
    QuotePlain(v);
    assert "\"" + k + "\"" + ":" + ("\"" + v + "\"") == "\"" + k + "\":\"" + v + "\"";
  }

  /** So an error frame with a plain detail is `{"type":"error","data":"` + detail + `"}`,
      the text the handler writes for its two error cases. */
  lemma ErrorFrameText(detail: string)
    requires Plain(detail)
    ensures ErrorFrame(detail)
         == "{" + ("\"" + "type" + "\":\"" + "error" + "\"") + "," + ("\"" + "data" + "\":\"" + detail + "\"") + "}"
  {
    FieldTextPlain("type", "error");
    FieldTextPlain("data", detail);
  }

  /** An error frame never reads back as a clipboard message: "error" names no variant. */
  lemma {:induction false} ErrorFrameIsNoMessage(detail: string)
    ensures Decode(ErrorFrame(detail)) == None
  {
    ParseTwoFields("type", "error", "data", detail);
    var ms := [Member("type", JString("error")), Member("data", JString(detail))];
    assert ValuesOf(ms, "type") == [JString("error")];
    assert ValuesOf(ms, "data") == [JString(detail)];
  }

  /** What the peer reads from a text frame: the message itself, or nothing for an error
      report. */
  lemma PayloadDecodes(p: TextPayload)
    ensures Decode(PayloadText(p)) == (if p.Message? then Some(p.msg) else None)
  {
    match p
    case Message(m) => DecodeEncode(m);
    case ErrorReport(detail) => ErrorFrameIsNoMessage(detail);
  }
}
