/** The decoded wire envelope an interceptor sees, and the verdict an
    interceptor policy reaches about one message.

    The text codec that turns the transport's string into an envelope is not
    part of this model: a message reaches a policy as the codec's result,
    either a parsed envelope, a plain string tunnelled by the transport, or
    nothing. A rewritten message is represented by its new envelope. */
module Wire {
  import opened Base
  import opened JsValue

  /** `{messageCode, event, data}`; `data` may be absent. */
  datatype Envelope = Envelope(messageCode: int, event: string, data: Option<seq<Value>>)

  /** What parsing a message's payload yields; only `Parsed` passes the
      envelope shape check that every interceptor performs first. */
  datatype ParseResult = Parsed(envelope: Envelope) | RawString(raw: string) | Unparsable

  /** What a matching interceptor does with the message. */
  datatype Action =
    | Keep                       // the callback returns the message unchanged
    | Replace(envelope: Envelope) // the callback returns the message with a rewritten payload
    | Suppress                   // the callback returns null

  /** Side effects a callback performs on collaborators outside the pipeline. */
  datatype Effect =
    | InvalidateUserSettings            // query key ["userSettings"]
    /** Once the next thread-collection upsert completes, invalidate query key
        ["threadInfo", threadId]; the id is read from the page path at that
        moment, not when the message passes. */
    | RefreshThreadInfo(threadId: string)

  datatype Verdict = NoMatch | Match(action: Action, effects: seq<Effect>)

  /** The parsed envelope of a message, or none (`parseStructuredMessage`). */
  function ParseStructured(p: ParseResult): (r: Option<Envelope>)
    ensures r.Some? <==> p.Parsed?
    ensures r.Some? ==> p == Parsed(r.value)
  {
    if p.Parsed? then Some(p.envelope) else None
  }

  /** What one interceptor passes on: the message itself when it does not
      match or keeps it, the rewrite, or nothing when it suppresses. */
  function Deliver(p: ParseResult, v: Verdict): Option<ParseResult> {
    match v
    case NoMatch => Some(p)
    case Match(Keep, _) => Some(p)
    case Match(Replace(e), _) => Some(Parsed(e))
    case Match(Suppress, _) => None
  }

  /** `data?.[i]` */
  function DataAt(e: Envelope, i: nat): Value {
    if e.data.Some? && i < |e.data.value| then e.data.value[i] else Undefined
  }

  /** `data?.length === n` */
  predicate DataLengthIs(e: Envelope, n: nat) {
    e.data.Some? && |e.data.value| == n
  }

  /** An ask event carries its query parameters at `data[1]`; reading a
      property of it throws when `data` is missing or shorter, or when
      `data[1]` is `null` or `undefined`. */
  predicate HasAskPayload(e: Envelope) {
    e.data.Some? && |e.data.value| >= 2 && !Nullish(e.data.value[1])
  }

  /** The envelope with `data[i]` replaced. */
  function WithData(e: Envelope, i: nat, x: Value): (r: Envelope)
    requires e.data.Some? && i < |e.data.value|
    ensures r.messageCode == e.messageCode && r.event == e.event
    ensures r.data.Some? && |r.data.value| == |e.data.value|
    ensures r.data.value[i] == x
    ensures forall j :: 0 <= j < |e.data.value| && j != i ==> r.data.value[j] == e.data.value[j]
  {
    e.(data := Some(e.data.value[i := x]))
  }
}
