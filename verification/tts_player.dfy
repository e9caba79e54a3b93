/** The text-to-speech player of `tts.ts`: a FIFO of PCM chunks fed by
    socket messages, played one at a time, and a pending `play` promise
    resolved when playback drains or is stopped.

    Audio output, the socket and timers are abstracted: starting a chunk,
    resolving or rejecting the promise, closing the socket and sending the
    request are `Effect`s; a chunk finishing, a socket message and the idle
    timer firing are inputs. */
module TtsPlayer {
  import opened Base
  import opened JsValue
  import opened Wire

  datatype Voice = Mike | Alex | Kate | Mary

  function VoiceName(v: Voice): string {
    match v
    case Mike => "Mike"
    case Alex => "Alex"
    case Kate => "Kate"
    case Mary => "Mary"
  }

  // ---------------------------------------------------------------------
  // PCM frames: `new Int16Array(arrayBuffer)` on a little-endian platform

  /** An octet of an `ArrayBuffer`. */
  newtype Byte = x: int | 0 <= x < 256

  predicate InInt16(x: int) {
    -32768 <= x < 32768
  }

  /** The signed 16-bit value of a little-endian byte pair. */
  function Int16Of(lo: Byte, hi: Byte): (x: int)
    ensures InInt16(x)
  {
    var u := (hi as int) * 256 + (lo as int);
    if u >= 32768 then u - 65536 else u
  }

  /** The samples of a buffer with an even number of bytes. */
  function DecodePcm(bytes: seq<Byte>): (samples: seq<int>)
    requires |bytes| % 2 == 0
    ensures 2 * |samples| == |bytes|
    ensures forall i :: 0 <= i < |samples| ==> InInt16(samples[i]) && samples[i] == Int16Of(bytes[2 * i], bytes[2 * i + 1])
    decreases |bytes|
  {
    if |bytes| == 0 then []
    else [Int16Of(bytes[0], bytes[1])] + DecodePcm(bytes[2..])
  }

  /** The little-endian bytes of 16-bit samples, as the server sends them. */
  function EncodePcm(samples: seq<int>): (bytes: seq<Byte>)
    requires forall i :: 0 <= i < |samples| ==> InInt16(samples[i])
    ensures |bytes| == 2 * |samples|
    decreases |samples|
  {
    if |samples| == 0 then []
    else
      var pair := EncodeSample(samples[0]);
      [pair.0, pair.1] + EncodePcm(samples[1..])
  }

  /** The two's-complement byte pair of one sample, low byte first. */
  function EncodeSample(x: int): (pair: (Byte, Byte))
    requires InInt16(x)
    ensures Int16Of(pair.0, pair.1) == x
  {
    var u := if x < 0 then x + 65536 else x;
    ((u % 256) as Byte, (u / 256) as Byte)
  }

  /** Decoding recovers every sequence of 16-bit samples from its bytes. */
  lemma {:induction false} DecodeEncodePcm(samples: seq<int>)
    requires forall i :: 0 <= i < |samples| ==> InInt16(samples[i])
    ensures DecodePcm(EncodePcm(samples)) == samples
    decreases |samples|
  {
    if |samples| > 0 {
      var bytes := EncodePcm(samples);
      var pair := EncodeSample(samples[0]);
      assert bytes == [pair.0, pair.1] + EncodePcm(samples[1..]);
      assert bytes[2..] == EncodePcm(samples[1..]);
      DecodeEncodePcm(samples[1..]);
    }
  }

  // ---------------------------------------------------------------------
  // Player state

  type Chunk = seq<int>

  datatype Socket = Socket(handle: nat, closed: bool)

  /** A `play` call suspended on its handshake: the id of its promise and
      what it will send. */
  datatype Request = Request(promise: nat, uuid: string, voice: Voice)

  /** `audioQueue`, `isPlaying`, `currentResolve` (the id of the `play`
      promise it resolves), the number of "message" listeners on the socket,
      whether the idle timer is armed, the socket, and the `play` calls
      waiting for a handshake, in the order they started. */
  datatype Player = Player(
    queue: seq<Chunk>,
    isPlaying: bool,
    pending: Option<nat>,
    listeners: nat,
    timerArmed: bool,
    socket: Option<Socket>,
    handshakes: seq<Request>)

  const Initial := Player([], false, None, 0, false, None, [])

  /** The process-wide player slot: created on first use, then reused. */
  function GetInstance(slot: Option<Player>): (r: (Player, Option<Player>))
    ensures r.1 == Some(r.0)
    ensures slot.Some? ==> r.0 == slot.value
    ensures slot.None? ==> r.0 == Initial
  {
    match slot
    case Some(p) => (p, slot)
    case None => (Initial, Some(Initial))
  }

  datatype Effect =
    | PlayChunk(samples: Chunk)
    | ResolvePlay(promise: nat)
    | RejectPlay(promise: nat)
    | CloseSocket(handle: nat)
    | Send(handle: nat, envelope: Envelope)

  datatype Step = Step(player: Player, effects: seq<Effect>)

  /** The chunks handed to the audio sink, in order. */
  function Played(effects: seq<Effect>): seq<Chunk>
    decreases |effects|
  {
    if |effects| == 0 then []
    else (if effects[0].PlayChunk? then [effects[0].samples] else []) + Played(effects[1..])
  }

  lemma {:induction false} PlayedAppend(a: seq<Effect>, b: seq<Effect>)
    ensures Played(a + b) == Played(a) + Played(b)
    decreases |a|
  {
    if |a| == 0 {
      assert a + b == b;
    } else {
      assert (a + b)[0] == a[0];
      assert (a + b)[1..] == a[1..] + b;
      PlayedAppend(a[1..], b);
    }
  }

  /** Idle means drained: the queue only holds chunks while playing. */
  predicate IdleEmpty(p: Player) {
    !p.isPlaying ==> |p.queue| == 0
  }

  // ---------------------------------------------------------------------
  // Operations

  /** `playNextChunk`: start the head of the queue, or, once it is empty,
      stop playing and resolve the pending promise once. */
  function PlayNextChunk(p: Player): (s: Step)
    ensures |p.queue| > 0 ==>
      s == Step(p.(queue := p.queue[1..]), [PlayChunk(p.queue[0])])
    ensures |p.queue| == 0 ==>
      && !s.player.isPlaying && s.player.queue == [] && s.player.pending.None?
      && s.effects == (if p.pending.Some? then [ResolvePlay(p.pending.value)] else [])
      && s.player.listeners == p.listeners && s.player.socket == p.socket && s.player.timerArmed == p.timerArmed
    ensures Played(s.effects) + s.player.queue == p.queue
  {
    if |p.queue| == 0 then
      var effects := if p.pending.Some? then [ResolvePlay(p.pending.value)] else [];
      assert Played(effects) == [];
      Step(p.(isPlaying := false, queue := [], pending := None), effects)
    else
      assert Played([PlayChunk(p.queue[0])]) == [p.queue[0]];
      Step(p.(queue := p.queue[1..]), [PlayChunk(p.queue[0])])
  }

  /** `handleAudioChunk`: append the decoded chunk at the tail and start
      playback unless already playing; re-arm the idle timer. A buffer of odd
      length cannot be viewed as 16-bit samples; that error is caught and the
      chunk dropped. */
  function HandleAudioChunk(p: Player, bytes: seq<Byte>): (s: Step)
    ensures |bytes| % 2 != 0 ==> s == Step(p, [])
    ensures |bytes| % 2 == 0 ==>
      && s.player.isPlaying && s.player.timerArmed
      && Played(s.effects) + s.player.queue == p.queue + [DecodePcm(bytes)]
      && (p.isPlaying ==> s.effects == [])
      && (!p.isPlaying ==> s.effects == [PlayChunk((p.queue + [DecodePcm(bytes)])[0])])
      && s.player.pending == p.pending && s.player.listeners == p.listeners && s.player.socket == p.socket
    ensures IdleEmpty(p) ==> IdleEmpty(s.player)
  {
    if |bytes| % 2 != 0 then Step(p, [])
    else
      var p1 := p.(queue := p.queue + [DecodePcm(bytes)]);
      if !p1.isPlaying then
        var s1 := PlayNextChunk(p1.(isPlaying := true));
        Step(s1.player.(timerArmed := true), s1.effects)
      else Step(p1.(timerArmed := true), [])
  }

  /** `stopListening`: disarm the idle timer and detach every listener. */
  function StopListening(p: Player): (p': Player)
    ensures !p'.timerArmed && p'.listeners == 0
    ensures p'.(timerArmed := p.timerArmed, listeners := p.listeners) == p
    ensures IdleEmpty(p) ==> IdleEmpty(p')
  {
    p.(timerArmed := false, listeners := 0)
  }

  /** What the socket delivers to a listener. */
  datatype Incoming = Binary(bytes: seq<Byte>) | Text(text: string) | Other

  const DoneMarker := "\"status\":\"completed\",\"state\":\"DONE\""

  /** `handleMessage`: binary data is audio; a string carrying the
      completion marker stops listening; anything else is ignored. */
  function HandleMessage(p: Player, m: Incoming): (s: Step)
    ensures m.Binary? ==> s == HandleAudioChunk(p, m.bytes)
    ensures m.Text? && Contains(m.text, DoneMarker) ==> s == Step(StopListening(p), [])
    ensures m.Other? || (m.Text? && !Contains(m.text, DoneMarker)) ==> s == Step(p, [])
    ensures IdleEmpty(p) ==> IdleEmpty(s.player)
  {
    match m
    case Binary(bytes) => HandleAudioChunk(p, bytes)
    case Text(text) => if Includes(text, DoneMarker) then Step(StopListening(p), []) else Step(p, [])
    case Other => Step(p, [])
  }

  /** `stop`: close the socket if playing, resolve the pending promise, empty
      the queue and stop listening. A `play` waiting for its handshake is not
      cancelled. */
  function Stop(p: Player): (s: Step)
    ensures !s.player.isPlaying && s.player.queue == [] && s.player.pending.None?
    ensures s.player.listeners == 0 && !s.player.timerArmed
    ensures (exists h :: CloseSocket(h) in s.effects) <==> p.isPlaying && p.socket.Some?
    ensures (exists q :: ResolvePlay(q) in s.effects) <==> p.pending.Some?
    ensures p.pending.Some? ==> ResolvePlay(p.pending.value) in s.effects
    ensures Played(s.effects) == []
    ensures s.player.socket.Some? <==> p.socket.Some?
    ensures s.player.socket.Some? ==> s.player.socket.value.handle == p.socket.value.handle
    ensures s.player.socket.Some? && p.isPlaying ==> s.player.socket.value.closed
    ensures s.player.handshakes == p.handshakes
  {
    var closing := p.isPlaying && p.socket.Some?;
    var closeEffects := if closing then [CloseSocket(p.socket.value.handle)] else [];
    var socket := if closing then Some(p.socket.value.(closed := true)) else p.socket;
    var resolveEffects := if p.pending.Some? then [ResolvePlay(p.pending.value)] else [];
    var effects := closeEffects + resolveEffects;
    assert Played(effects) == [] by {
      PlayedAppend(closeEffects, resolveEffects);
    }
    Step(Player([], false, None, 0, false, socket, p.handshakes), effects)
  }

  /** `sendTTSRequest`'s envelope. */
  function TtsRequest(uuid: string, voice: Voice): (e: Envelope)
    ensures e.messageCode == 222 && e.event == "voice_over"
    ensures e.data.Some? && |e.data.value| == 1
    ensures Prop(e.data.value[0], "uuid") == Str(uuid)
    ensures Prop(e.data.value[0], "preset") == Str(VoiceName(voice))
  {
    Envelope(222, "voice_over", Some([Obj(map[
      "is_page" := Bool(false),
      "version" := Str("2.13"),
      "completed" := Bool(true),
      "uuid" := Str(uuid),
      "preset" := Str(VoiceName(voice)),
      "voice_over_language" := Str("en")])]))
  }

  /** `play` must handshake: the socket is missing or closed. */
  predicate NeedsSocket(p: Player) {
    p.socket.None? || p.socket.value.closed
  }

  /** The rest of `play` on an open socket: take over the pending promise,
      add a listener and send the request. */
  function Attach(p: Player, r: Request): Step
    requires p.socket.Some?
  {
    Step(p.(pending := Some(r.promise), listeners := p.listeners + 1),
         [Send(p.socket.value.handle, TtsRequest(r.uuid, r.voice))])
  }

  /** `play` up to its first suspension: stop an active playback first; on
      an open socket, take over the pending promise, add a listener and send
      the request; otherwise start a handshake and wait for it
      (`HandshakeSettled`). Stopping a playback closes its socket, so a `play`
      that interrupts one always handshakes. A pending promise of an earlier
      call is replaced without being resolved. */
  function Play(p: Player, uuid: string, voice: Voice, promise: nat): (s: Step)
    ensures var q := if p.isPlaying then Stop(p).player else p;
      if NeedsSocket(q) then
        s.player == q.(handshakes := q.handshakes + [Request(promise, uuid, voice)])
      else
        && s.player.socket == q.socket
        && s.player.pending == Some(promise)
        && s.player.listeners == q.listeners + 1
        && s.player.queue == q.queue && s.player.isPlaying == q.isPlaying && s.player.handshakes == q.handshakes
        && |s.effects| > 0 && s.effects[|s.effects| - 1] == Send(q.socket.value.handle, TtsRequest(uuid, voice))
    ensures p.isPlaying ==> NeedsSocket(Stop(p).player)
    ensures p.isPlaying ==> s.effects == Stop(p).effects
    ensures !p.isPlaying && NeedsSocket(p) ==> s.effects == []
    ensures Played(s.effects) == []
    ensures IdleEmpty(p) ==> IdleEmpty(s.player)
  {
    var s1 := if p.isPlaying then Stop(p) else Step(p, []);
    var q := s1.player;
    if NeedsSocket(q) then
      Step(q.(handshakes := q.handshakes + [Request(promise, uuid, voice)]), s1.effects)
    else
      var s2 := Attach(q, Request(promise, uuid, voice));
      assert Played(s2.effects) == [];
      Step(s2.player, s1.effects + s2.effects)
  }

  /** The `i`-th waiting `play` resumes: a rejected handshake rejects its
      promise; a resolved one installs the new socket, which carries no
      listener yet, and the call goes on as on an open socket. Handshakes
      settle in any order. */
  function SettleHandshake(p: Player, i: nat, handle: Option<nat>): (s: Step)
    ensures i >= |p.handshakes| ==> s == Step(p, [])
    ensures i < |p.handshakes| ==>
      var r := p.handshakes[i];
      && s.player.handshakes == p.handshakes[..i] + p.handshakes[i + 1..]
      && s.player.queue == p.queue && s.player.isPlaying == p.isPlaying && s.player.timerArmed == p.timerArmed
      && (handle.None? ==>
            s.effects == [RejectPlay(r.promise)] && s.player == p.(handshakes := s.player.handshakes))
      && (handle.Some? ==>
            && s.player.socket == Some(Socket(handle.value, false))
            && s.player.listeners == 1
            && s.player.pending == Some(r.promise)
            && s.effects == [Send(handle.value, TtsRequest(r.uuid, r.voice))])
  {
    if i >= |p.handshakes| then Step(p, [])
    else
      var r := p.handshakes[i];
      var q := p.(handshakes := p.handshakes[..i] + p.handshakes[i + 1..]);
      match handle
      case None => Step(q, [RejectPlay(r.promise)])
      case Some(h) => Attach(q.(socket := Some(Socket(h, false)), listeners := 0), r)
  }

  // ---------------------------------------------------------------------
  // Event-driven runs

  datatype Event =
    | SocketMessage(m: Incoming) // delivered once to every attached listener
    | ChunkEnded                 // the audio source's `onended`
    | TimerFired                 // the idle timer armed by the last chunk
    | HandshakeSettled(index: nat, handle: Option<nat>) // a waiting `play`'s handshake, `None` on rejection

  /** A socket message runs `handleMessage` once per listener attached when
      it is emitted. */
  function DeliverTimes(p: Player, m: Incoming, n: nat): (s: Step)
    ensures n == 0 ==> s == Step(p, [])
    ensures m.Other? ==> s == Step(p, [])
    ensures s.player.pending == p.pending && s.player.socket == p.socket
    ensures IdleEmpty(p) ==> IdleEmpty(s.player)
    decreases n
  {
    if n == 0 then Step(p, [])
    else
      var s1 := HandleMessage(p, m);
      var s2 := DeliverTimes(s1.player, m, n - 1);
      Step(s2.player, s1.effects + s2.effects)
  }

  function Apply(p: Player, e: Event): (s: Step)
    ensures IdleEmpty(p) ==> IdleEmpty(s.player)
  {
    match e
    case SocketMessage(m) => DeliverTimes(p, m, p.listeners)
    case ChunkEnded => PlayNextChunk(p)
    case TimerFired => if p.timerArmed then Step(StopListening(p), []) else Step(p, [])
    case HandshakeSettled(i, handle) => SettleHandshake(p, i, handle)
  }

  /** The chunks an event appends to the queue, in order. */
  function Arrivals(p: Player, e: Event): seq<Chunk> {
    if e.SocketMessage? && e.m.Binary? && |e.m.bytes| % 2 == 0
    then Repeat(DecodePcm(e.m.bytes), p.listeners)
    else []
  }

  function Repeat(c: Chunk, n: nat): (r: seq<Chunk>)
    ensures |r| == n && forall i :: 0 <= i < n ==> r[i] == c
  {
    if n == 0 then [] else [c] + Repeat(c, n - 1)
  }

  /** Two steps that each keep the chunk order compose into one that does. */
  lemma FifoCompose(e1: seq<Effect>, e2: seq<Effect>, q0: seq<Chunk>, q1: seq<Chunk>, q2: seq<Chunk>,
                    a1: seq<Chunk>, a2: seq<Chunk>)
    requires Played(e1) + q1 == q0 + a1
    requires Played(e2) + q2 == q1 + a2
    ensures Played(e1 + e2) + q2 == q0 + (a1 + a2)
  {
    PlayedAppend(e1, e2);
    calc {
      Played(e1 + e2) + q2;
      Played(e1) + (Played(e2) + q2);
      Played(e1) + (q1 + a2);
      (Played(e1) + q1) + a2;
    }
  }

  /** Delivering to `n` listeners appends `n` copies of a binary chunk and
      starts chunks from the head only. */
  lemma {:induction false} DeliverTimesFifo(p: Player, m: Incoming, n: nat)
    ensures var s := DeliverTimes(p, m, n);
      Played(s.effects) + s.player.queue
      == p.queue + (if m.Binary? && |m.bytes| % 2 == 0 then Repeat(DecodePcm(m.bytes), n) else [])
    decreases n
  {
    if n == 0 {
      assert Played([]) == [];
    } else {
      var s1 := HandleMessage(p, m);
      var s2 := DeliverTimes(s1.player, m, n - 1);
      DeliverTimesFifo(s1.player, m, n - 1);
      if m.Binary? && |m.bytes| % 2 == 0 {
        var c := DecodePcm(m.bytes);
        FifoCompose(s1.effects, s2.effects, p.queue, s1.player.queue, s2.player.queue, [c], Repeat(c, n - 1));
      } else {
        assert Played(s1.effects) + s1.player.queue == p.queue + [];
        FifoCompose(s1.effects, s2.effects, p.queue, s1.player.queue, s2.player.queue, [], []);
      }
    }
  }

  /** One event keeps the chunk order: what it starts, followed by what
      remains queued, is the old queue followed by what arrived. */
  lemma ApplyFifo(p: Player, e: Event)
    ensures var s := Apply(p, e);
      Played(s.effects) + s.player.queue == p.queue + Arrivals(p, e)
  {
    match e
    case SocketMessage(m) =>
      DeliverTimesFifo(p, m, p.listeners);
    case ChunkEnded =>
    case TimerFired =>
    case HandshakeSettled(i, handle) =>
      var s := SettleHandshake(p, i, handle);
      assert Played(s.effects) == [];
  }

  /** The completion marker detaches every listener and touches nothing else. */
  lemma {:induction false} DeliverTimesDone(p: Player, text: string, n: nat)
    requires Contains(text, DoneMarker) && n > 0
    ensures DeliverTimes(p, Text(text), n) == Step(StopListening(p), [])
    decreases n
  {
    if n > 1 {
      DeliverTimesDone(StopListening(p), text, n - 1);
      assert StopListening(StopListening(p)) == StopListening(p);
    }
  }

  datatype Trace = Trace(player: Player, effects: seq<Effect>, arrived: seq<Chunk>)

  function Run(p: Player, events: seq<Event>): (t: Trace)
    ensures IdleEmpty(p) ==> IdleEmpty(t.player)
    decreases |events|
  {
    if |events| == 0 then Trace(p, [], [])
    else
      var s := Apply(p, events[0]);
      var t := Run(s.player, events[1..]);
      Trace(t.player, s.effects + t.effects, Arrivals(p, events[0]) + t.arrived)
  }

  /** Playback is first in, first out: over any run of socket messages,
      chunk ends and timer ticks, the chunks handed to the audio sink
      followed by those still queued are exactly the queued chunks followed
      by every chunk that arrived, in arrival order. */
  lemma {:induction false} RunFifo(p: Player, events: seq<Event>)
    ensures var t := Run(p, events);
      Played(t.effects) + t.player.queue == p.queue + t.arrived
    decreases |events|
  {
    if |events| > 0 {
      var s := Apply(p, events[0]);
      var t := Run(s.player, events[1..]);
      ApplyFifo(p, events[0]);
      RunFifo(s.player, events[1..]);
      FifoCompose(s.effects, t.effects, p.queue, s.player.queue, t.player.queue, Arrivals(p, events[0]), t.arrived);
    } else {
      assert Played([]) == [];
    }
  }

  /** A `play` issued while an earlier one is still waiting for audio (not
      yet playing, socket open) takes over the pending slot: the earlier
      promise is neither resolved nor rejected. */
  lemma PlayOrphansPending(p: Player, uuid: string, voice: Voice, earlier: nat, promise: nat)
    requires !p.isPlaying && p.pending == Some(earlier) && earlier != promise
    requires p.socket.Some? && !p.socket.value.closed
    ensures var s := Play(p, uuid, voice, promise);
      s.player.pending == Some(promise) && ResolvePlay(earlier) !in s.effects && RejectPlay(earlier) !in s.effects
  {
  }

  /** `stop` while a `play` waits for its handshake does not cancel it: once
      the handshake resolves, that call takes the pending slot and sends its
      request on the new socket after all. */
  lemma StopDuringHandshake(p: Player, uuid: string, voice: Voice, promise: nat, handle: nat)
    requires NeedsSocket(if p.isPlaying then Stop(p).player else p)
    requires p.pending != Some(promise)
    ensures var s1 := Play(p, uuid, voice, promise);
      var s2 := Stop(s1.player);
      && |s2.player.handshakes| > 0
      && var s3 := SettleHandshake(s2.player, |s2.player.handshakes| - 1, Some(handle));
         && ResolvePlay(promise) !in s2.effects
         && s3.player.pending == Some(promise)
         && s3.player.listeners == 1
         && s3.effects == [Send(handle, TtsRequest(uuid, voice))]
  {
    var s1 := Play(p, uuid, voice, promise);
    var s2 := Stop(s1.player);
    assert s2.player.handshakes == s1.player.handshakes;
    assert s1.player.handshakes[|s1.player.handshakes| - 1] == Request(promise, uuid, voice);
  }

  /** Two `play` calls that both find no open socket both handshake; each
      resumption installs its own socket and sends, the later one takes the
      pending slot, and the earlier promise is never settled. */
  lemma OverlappingHandshakes(p: Player, u1: string, v1: Voice, pr1: nat, u2: string, v2: Voice, pr2: nat,
                              h1: nat, h2: nat)
    requires !p.isPlaying && NeedsSocket(p) && p.handshakes == []
    ensures var s1 := Play(p, u1, v1, pr1);
      var s2 := Play(s1.player, u2, v2, pr2);
      var s3 := SettleHandshake(s2.player, 0, Some(h1));
      var s4 := SettleHandshake(s3.player, 0, Some(h2));
      && s2.player.handshakes == [Request(pr1, u1, v1), Request(pr2, u2, v2)]
      && s1.effects + s2.effects == []
      && s3.effects + s4.effects == [Send(h1, TtsRequest(u1, v1)), Send(h2, TtsRequest(u2, v2))]
      && s4.player.pending == Some(pr2)
      && s4.player.socket == Some(Socket(h2, false))
  {
    var s1 := Play(p, u1, v1, pr1);
    var s2 := Play(s1.player, u2, v2, pr2);
    var s3 := SettleHandshake(s2.player, 0, Some(h1));
    assert s3.player.handshakes == [Request(pr2, u2, v2)];
  }
}
