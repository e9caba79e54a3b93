/** `InternalWebSocketManager`: the process-wide table from session id to
    engine socket, filled by a handshake that listens for the socket's first
    string message.

    The socket library is not modelled: a socket is an opaque handle, and
    each string message arrives already decoded as an engine packet
    `(type, data)`. A handshake is a small state machine driven by the
    socket's events. */
module SocketRegistry {
  import opened Base

  /** An engine socket. */
  datatype Handle = Handle(id: nat)

  datatype Registry = Registry(sockets: map<string, Handle>)

  const Empty := Registry(map[])

  /** The process-wide instance slot: created on first use, then reused. */
  function GetInstance(slot: Option<Registry>): (r: (Registry, Option<Registry>))
    ensures r.1 == Some(r.0)
    ensures slot.Some? ==> r.0 == slot.value
    ensures slot.None? ==> r.0 == Empty
  {
    match slot
    case Some(reg) => (reg, slot)
    case None => (Empty, Some(Empty))
  }

  /** What the socket emits on its "message" event. */
  datatype Incoming =
    | NonString                              // binary frames and other non-strings
    | Packet(kind: string, data: string)     // a string, as the engine packet decoder reads it

  datatype Outcome = Pending | Resolved(socket: Handle) | Rejected(reason: string)

  /** One handshake: the endpoint and socket it opened (none if it threw
      first), whether its message handler is still attached, and its
      promise. */
  datatype Handshake = Handshake(endpoint: Option<string>, socket: Option<Handle>, listening: bool, outcome: Outcome)

  const MainWorldReason := "Not allowed in main world"

  const Host := "www.perplexity.ai/"
  const SrcParam := "?src="

  /** The endpoint the handshake connects to; a truthy id is passed as `src`. */
  function Endpoint(id: Option<string>): (url: string)
    ensures id.None? || id.value == "" ==> url == Host
    ensures id.Some? && id.value != "" ==> url == Host + SrcParam + id.value
  {
    Host + (if id.Some? && id.value != "" then SrcParam + id.value else "")
  }

  /** Different truthy ids connect to different endpoints, and every one of
      them differs from the endpoint without an id. */
  lemma {:induction false} EndpointInjective(a: string, b: string)
    requires a != "" && b != ""
    ensures Endpoint(Some(a)) == Endpoint(Some(b)) ==> a == b
    ensures Endpoint(Some(a)) != Endpoint(None)
  {
    var ua := Endpoint(Some(a));
    var ub := Endpoint(Some(b));
    assert |ua| > |Host|;
    if ua == ub {
      assert a == ua[|Host| + |SrcParam|..];
      assert b == ub[|Host| + |SrcParam|..];
    }
  }

  /** `handShake`: refused in the page's main world, where it throws before
      opening anything; otherwise a new socket on the endpoint for `id`,
      with its handler attached. */
  function StartHandshake(mainWorld: bool, id: Option<string>, sock: Handle): (h: Handshake)
    ensures mainWorld ==> h.outcome == Rejected(MainWorldReason) && !h.listening && h.socket.None? && h.endpoint.None?
    ensures !mainWorld ==> h.outcome.Pending? && h.listening && h.socket == Some(sock) && h.endpoint == Some(Endpoint(id))
  {
    if mainWorld then Handshake(None, None, false, Rejected(MainWorldReason))
    else Handshake(Some(Endpoint(id)), Some(sock), true, Pending)
  }

  const SidPrefix := "{\"sid\":\""
  const SidSuffix := "\"}"

  /** Characters `.` does not match in a JavaScript regular expression. */
  predicate IsLineTerminator(c: char) {
    c == '\n' || c == '\r' || c == '\U{2028}' || c == '\U{2029}'
  }

  predicate NoLineTerminator(s: string) {
    forall i :: 0 <= i < |s| ==> !IsLineTerminator(s[i])
  }

  /** The capture of `/^\{"sid":"(.+)"\}$/`: anchored at both ends, so the
      capture is everything between the prefix and the final `"}`, and it must
      be non-empty and free of line terminators. */
  function ExtractSid(data: string): (sid: Option<string>)
    ensures sid.Some? ==> sid.value != "" && NoLineTerminator(sid.value)
                          && data == SidPrefix + sid.value + SidSuffix
  {
    if |data| > |SidPrefix| + |SidSuffix| && data[..|SidPrefix|] == SidPrefix
       && data[|data| - |SidSuffix|..] == SidSuffix
       && NoLineTerminator(data[|SidPrefix|..|data| - |SidSuffix|])
    then
      var sid := data[|SidPrefix|..|data| - |SidSuffix|];
      assert data == data[..|SidPrefix|] + sid + data[|data| - |SidSuffix|..];
      Some(sid)
    else None
  }

  /** Every non-empty id without line terminators is recovered from the open
      packet that carries it. */
  lemma ExtractSidRoundTrip(sid: string)
    requires sid != "" && NoLineTerminator(sid)
    ensures ExtractSid(SidPrefix + sid + SidSuffix) == Some(sid)
  {
    var data := SidPrefix + sid + SidSuffix;
    assert data[..|SidPrefix|] == SidPrefix;
    assert data[|data| - |SidSuffix|..] == SidSuffix;
    assert data[|SidPrefix|..|data| - |SidSuffix|] == sid;
  }

  /** The socket's "message" event. The handler ignores non-strings and stays
      attached; the first string detaches it whatever it holds, and only an
      open packet with a session id stores the socket and resolves. The store
      happens even if an error already rejected the promise. */
  function OnMessage(reg: Registry, h: Handshake, m: Incoming): (r: (Registry, Handshake))
    requires h.listening ==> h.socket.Some?
    ensures !h.listening || m.NonString? ==> r == (reg, h)
    ensures h.listening && m.Packet? ==> !r.1.listening && r.1.socket == h.socket && r.1.endpoint == h.endpoint
    ensures h.listening && m.Packet? && m.kind == "open" && ExtractSid(m.data).Some? ==>
      && r.0.sockets == reg.sockets[ExtractSid(m.data).value := h.socket.value]
      && r.1.outcome == (if h.outcome.Pending? then Resolved(h.socket.value) else h.outcome)
    ensures !(h.listening && m.Packet? && m.kind == "open" && ExtractSid(m.data).Some?) ==>
      r.0 == reg && r.1.outcome == h.outcome
  {
    if !h.listening || m.NonString? then (reg, h)
    else
      var sid := ExtractSid(m.data);
      if m.kind == "open" && sid.Some? then
        var outcome := if h.outcome.Pending? then Resolved(h.socket.value) else h.outcome;
        (Registry(reg.sockets[sid.value := h.socket.value]), h.(listening := false, outcome := outcome))
      else
        (reg, h.(listening := false))
  }

  /** The socket's "error" event rejects a pending handshake; the message
      handler stays attached. */
  function OnError(h: Handshake, reason: string): (h': Handshake)
    ensures h'.listening == h.listening && h'.socket == h.socket
    ensures h'.outcome == (if h.outcome.Pending? then Rejected(reason) else h.outcome)
  {
    if h.outcome.Pending? then h.(outcome := Rejected(reason)) else h
  }

  /** Only the first string message counts: once it has been handled, no
      later message changes the registry or the handshake. */
  lemma FirstStringMessageOnly(reg: Registry, h: Handshake, first: string, data: string, later: Incoming)
    requires h.listening && h.socket.Some?
    ensures var (reg1, h1) := OnMessage(reg, h, Packet(first, data));
      OnMessage(reg1, h1, later) == (reg1, h1)
  {
  }

  /** A successful handshake makes its socket retrievable under the id the
      server sent. */
  lemma HandshakeRegisters(reg: Registry, id: Option<string>, sock: Handle, sid: string)
    requires sid != "" && NoLineTerminator(sid)
    ensures var (reg1, h1) := OnMessage(reg, StartHandshake(false, id, sock), Packet("open", SidPrefix + sid + SidSuffix));
      GetSocket(reg1, sid) == Some(sock) && h1.outcome == Resolved(sock)
  {
    ExtractSidRoundTrip(sid);
  }

  /** `getSocket` */
  function GetSocket(reg: Registry, sid: string): (r: Option<Handle>)
    ensures r.Some? <==> sid in reg.sockets
    ensures r.Some? ==> r.value == reg.sockets[sid]
  {
    if sid in reg.sockets then Some(reg.sockets[sid]) else None
  }

  /** `removeSocket`: closes the stored socket if any and deletes the entry. */
  function RemoveSocket(reg: Registry, sid: string): (r: (Registry, bool, Option<Handle>))
    ensures r.1 <==> sid in reg.sockets
    ensures r.2 == GetSocket(reg, sid)
    ensures sid !in r.0.sockets
    ensures forall k :: k != sid ==> GetSocket(r.0, k) == GetSocket(reg, k)
  {
    (Registry(reg.sockets - {sid}), sid in reg.sockets, GetSocket(reg, sid))
  }
}
