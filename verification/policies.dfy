/** The persistent interceptors of `WebpageMessageInterceptors.ts` other than
    the ask rewrite, the match predicates of its one-shot waiters, and the
    registration parameters each of them is added with. */
module Policies {
  import opened Base
  import opened JsValue
  import opened Wire

  // ---------------------------------------------------------------------
  // Registrations

  /** When an interceptor's stop condition deregisters it. */
  datatype StopRule =
    | Never    // `() => false`
    | Always   // `() => true`: after the first message it sees, matched or not
    | OnMatch  // the stop condition is the match condition

  /** The options an interceptor is added with; `timeoutMs` is the
      messenger's own expiry of the registration. */
  datatype Registration = Registration(stop: StopRule, timeoutMs: Option<nat>, stopPropagation: bool)

  /** Whether the interceptor is deregistered after seeing a message. */
  function Deregisters(rule: StopRule, matched: bool): (r: bool)
    ensures rule == OnMatch ==> (r <==> matched)
    ensures rule == Never ==> !r
    ensures rule == Always ==> r
  {
    match rule
    case Never => false
    case Always => true
    case OnMatch => matched
  }

  /** How many of a run of messages an interceptor sees before its stop
      condition removes it; `matches` tells, per message, whether the match
      condition held. The messenger's own timeout is not counted. */
  function Seen(stop: StopRule, matches: seq<bool>): (n: nat)
    ensures n <= |matches|
    ensures stop == Never ==> n == |matches|
    ensures stop == Always ==> n == (if |matches| == 0 then 0 else 1)
    ensures stop == OnMatch ==>
      && (|matches| > 0 ==> n > 0)
      && (forall i :: 0 <= i < n - 1 ==> !matches[i])
      && (n < |matches| ==> matches[n - 1])
    decreases |matches|
  {
    if |matches| == 0 then 0
    else if Deregisters(stop, matches[0]) then 1
    else 1 + Seen(stop, matches[1..])
  }

  /** The interceptors that filter every message. */
  const Persistent := Registration(Never, None, false)

  /** `alterNextQuery` claims the next message exclusively and expires after five seconds. */
  const NextQueryRegistration := Registration(Always, Some(5000), true)

  /** The waiters deregister on their first match; their rejection timers are separate. */
  const WaiterRegistration := Registration(OnMatch, None, false)

  /** The persistent interceptors see every message, `alterNextQuery` only
      the first one whether or not it matched, and a waiter every message up
      to and including its first match. */
  lemma RegistrationLifetimes(matches: seq<bool>, k: nat)
    requires k < |matches| && matches[k] && forall i :: 0 <= i < k ==> !matches[i]
    ensures Seen(Persistent.stop, matches) == |matches|
    ensures Seen(NextQueryRegistration.stop, matches) == 1
    ensures Seen(WaiterRegistration.stop, matches) == k + 1
  {
  }

  // ---------------------------------------------------------------------
  // Persistent interceptors

  /** `updateQueryLimits`: a rate-limit query invalidates the cached user
      settings and passes through unchanged. */
  function UpdateQueryLimits(p: ParseResult): (v: Verdict)
    ensures v.Match? <==> p.Parsed? && (p.envelope.event == "get_rate_limit" || p.envelope.event == "get_opus_rate_limit")
    ensures v.Match? ==> v == Match(Keep, [InvalidateUserSettings])
    ensures Deliver(p, v) == Some(p)
  {
    if p.Parsed? && (p.envelope.event == "get_rate_limit" || p.envelope.event == "get_opus_rate_limit")
    then Match(Keep, [InvalidateUserSettings])
    else NoMatch
  }

  /** `"new_collection_uuid" in data[0]` throws on a primitive `data[0]`. */
  predicate SpaceSwapReadable(p: ParseResult) {
    p.Parsed? && p.envelope.event == "upsert_thread_collection" && p.envelope.data.Some?
    && |p.envelope.data.value| > 0
    ==> p.envelope.data.value[0].Obj? || p.envelope.data.value[0].Arr?
  }

  /** The thread id is the last path segment of the page URL, or "". */
  function ThreadIdFromPath(path: string): (id: string)
    ensures '/' !in id
    ensures '/' !in path ==> id == path
  {
    var parts := Split(path, '/');
    assert '/' !in path ==> parts == [path] by {
      if '/' !in path { SplitWithoutSeparator(path, '/'); }
    }
    parts[|parts| - 1]
  }

  /** The thread id taken from `…/<id>` is `<id>` itself. */
  lemma ThreadIdOfPath(prefix: string, id: string)
    requires '/' !in id
    ensures ThreadIdFromPath(prefix + "/" + id) == id
  {
    SplitAppend(prefix, '/', id);
    SplitWithoutSeparator(id, '/');
    assert prefix + "/" + id == prefix + ['/'] + id;
  }

  /** `detectSpaceSwap`: moving a thread into a space or out of one schedules
      a refresh of that thread's cached info; the message passes unchanged.
      The refresh runs after a timer tick and the next upsert, and only then
      reads the page path: `pathAtRefresh` is the path at that later moment. */
  function DetectSpaceSwap(p: ParseResult, pathAtRefresh: string): (v: Verdict)
    requires SpaceSwapReadable(p)
    ensures v.Match? <==>
      (p.Parsed? &&
       ((p.envelope.event == "upsert_thread_collection" && p.envelope.data.Some? && |p.envelope.data.value| > 0
         && HasProp(p.envelope.data.value[0], "new_collection_uuid"))
        || p.envelope.event == "remove_collection_thread"))
    ensures v.Match? ==> v.action == Keep && v.effects == [RefreshThreadInfo(ThreadIdFromPath(pathAtRefresh))]
    ensures Deliver(p, v) == Some(p)
  {
    if !p.Parsed? then NoMatch
    else
      var e := p.envelope;
      if (e.event == "upsert_thread_collection" && e.data.Some? && |e.data.value| > 0
          && HasProp(e.data.value[0], "new_collection_uuid"))
         || e.event == "remove_collection_thread"
      then Match(Keep, [RefreshThreadInfo(ThreadIdFromPath(pathAtRefresh))])
      else NoMatch
  }

  /** `removeComplexityIdentifier`: a message whose first data element carries
      a truthy `is_complexity` is forwarded with that field cleared. */
  function RemoveComplexityIdentifier(p: ParseResult): (v: Verdict)
    ensures v.Match? <==> p.Parsed? && Truthy(Prop(DataAt(p.envelope, 0), "is_complexity"))
    ensures v.Match? ==>
      && v.effects == [] && v.action.Replace?
      && var e := v.action.envelope;
         && e.messageCode == p.envelope.messageCode && e.event == p.envelope.event
         && e.data.Some? && |e.data.value| == |p.envelope.data.value|
         && (forall j :: 0 < j < |e.data.value| ==> e.data.value[j] == p.envelope.data.value[j])
         && e.data.value[0].Obj?
         && Prop(e.data.value[0], "is_complexity") == Undefined
         && (forall k :: k != "is_complexity" ==> Prop(e.data.value[0], k) == Prop(DataAt(p.envelope, 0), k))
  {
    if !p.Parsed? then NoMatch
    else
      var first := DataAt(p.envelope, 0);
      if !Truthy(Prop(first, "is_complexity")) then NoMatch
      else Match(Replace(WithData(p.envelope, 0, WithProp(first, "is_complexity", Undefined))), [])
  }

  /** Once stripped, a message no longer matches the stripping interceptor. */
  lemma RemoveComplexityIdentifierOnce(p: ParseResult)
    requires RemoveComplexityIdentifier(p).Match?
    ensures RemoveComplexityIdentifier(Parsed(RemoveComplexityIdentifier(p).action.envelope)).NoMatch?
  {
    var e := RemoveComplexityIdentifier(p).action.envelope;
    assert DataAt(e, 0) == e.data.value[0];
  }

  /** `blockTelemetry`: registered only when the setting is on; it then
      suppresses every analytics event. */
  function BlockTelemetry(blockTelemetry: bool, p: ParseResult): (v: Verdict)
    ensures v.Match? <==> blockTelemetry && p.Parsed? && p.envelope.event == "analytics_event"
    ensures v.Match? ==> v == Match(Suppress, [])
    ensures Deliver(p, v).None? <==> blockTelemetry && p.Parsed? && p.envelope.event == "analytics_event"
  {
    if blockTelemetry && p.Parsed? && p.envelope.event == "analytics_event" then Match(Suppress, [])
    else NoMatch
  }

  // ---------------------------------------------------------------------
  // One-shot waiters: match predicates and what they resolve with

  /** `data[0].status` is read only when `data` has exactly one element; it
      throws on `null`/`undefined`. */
  predicate SingleReadable(e: Envelope) {
    DataLengthIs(e, 1) ==> !Nullish(e.data.value[0])
  }

  /** `data` is exactly one element whose status is "completed". */
  predicate SingleCompleted(e: Envelope) {
    DataLengthIs(e, 1) && Prop(e.data.value[0], "status") == Str("completed")
  }

  /** `waitForUpsertThreadCollection`: the first single completed element;
      resolves with `null`. */
  function UpsertWaiterMatch(p: ParseResult): (r: Option<Value>)
    requires p.Parsed? ==> SingleReadable(p.envelope)
    ensures r.Some? <==> p.Parsed? && SingleCompleted(p.envelope)
    ensures r.Some? ==> r.value == Null
  {
    if p.Parsed? && SingleCompleted(p.envelope) then Some(Null) else None
  }

  const ProfileCode := 430
  const CollectionsCode := 431

  /** `waitForUserAiProfile`: a code-430 message with one element that the
      profile schema accepts; resolves with what the schema parses out of
      that element (`profileSchema` returns none when validation fails). */
  function ProfileWaiterMatch(p: ParseResult, profileSchema: Value -> Option<Value>): (r: Option<Value>)
    ensures r.Some? <==> p.Parsed? && p.envelope.messageCode == ProfileCode
                         && DataLengthIs(p.envelope, 1) && profileSchema(p.envelope.data.value[0]).Some?
    ensures r.Some? ==> r == profileSchema(p.envelope.data.value[0])
  {
    if p.Parsed? && p.envelope.messageCode == ProfileCode && DataLengthIs(p.envelope, 1)
    then profileSchema(p.envelope.data.value[0])
    else None
  }

  /** `waitForCollections`: a code-431 message whose single element is a
      non-empty array whose first entry passes the space schema; resolves with
      the whole array. Only the first entry is checked. */
  function CollectionsWaiterMatch(p: ParseResult, spaceValid: Value -> bool): (r: Option<Value>)
    ensures r.Some? <==> p.Parsed? && p.envelope.messageCode == CollectionsCode
                         && DataLengthIs(p.envelope, 1) && p.envelope.data.value[0].Arr?
                         && |p.envelope.data.value[0].items| > 0
                         && spaceValid(p.envelope.data.value[0].items[0])
    ensures r.Some? ==> r.value == p.envelope.data.value[0]
  {
    if p.Parsed? && p.envelope.messageCode == CollectionsCode && DataLengthIs(p.envelope, 1)
       && p.envelope.data.value[0].Arr? && |p.envelope.data.value[0].items| > 0
       && spaceValid(p.envelope.data.value[0].items[0])
    then Some(p.envelope.data.value[0])
    else None
  }

  /** A non-430 message carrying one completed element with a title, a
      description and instructions: the acknowledgement of a created space. */
  predicate SpaceCreatedAck(e: Envelope) {
    e.messageCode != ProfileCode && SingleCompleted(e)
    && HasProp(e.data.value[0], "title") && HasProp(e.data.value[0], "description")
    && HasProp(e.data.value[0], "instructions")
  }

  /** `waitForSpaceCreation`, as written: the predicate is negated, so it
      matches every parsed message except the acknowledgement; resolves with
      `null`. */
  function SpaceCreationWaiterMatch(p: ParseResult): (r: Option<Value>)
    requires p.Parsed? && p.envelope.messageCode != ProfileCode ==> SingleReadable(p.envelope)
    ensures r.Some? <==> p.Parsed? && !SpaceCreatedAck(p.envelope)
    ensures r.Some? ==> r.value == Null
  {
    if p.Parsed? && !SpaceCreatedAck(p.envelope) then Some(Null) else None
  }

  /** Consequences of the negation: every parsed code-430 message and every
      parsed message without exactly one data element releases the
      space-creation waiter, while the acknowledgement itself never does. */
  lemma SpaceCreationWaiterInverted(e: Envelope)
    requires e.messageCode != ProfileCode ==> SingleReadable(e)
    ensures e.messageCode == ProfileCode ==> SpaceCreationWaiterMatch(Parsed(e)).Some?
    ensures !DataLengthIs(e, 1) ==> SpaceCreationWaiterMatch(Parsed(e)).Some?
    ensures SpaceCreatedAck(e) ==> SpaceCreationWaiterMatch(Parsed(e)).None?
    ensures SpaceCreatedAck(e) ==> UpsertWaiterMatch(Parsed(e)).Some?
  {
  }
}
