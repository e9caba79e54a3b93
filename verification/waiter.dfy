/** The life of a one-shot waiter (`waitForUserAiProfile`,
    `waitForCollections`, `waitForSpaceCreation`,
    `waitForUpsertThreadCollection`): an interceptor whose stop condition is
    its match condition (`Policies.WaiterRegistration`). The first three also
    arm a timer that removes the interceptor and rejects;
    `waitForUpsertThreadCollection` arms none and can only resolve.

    The waiter sees each message as the result of its match predicate (the
    `…WaiterMatch` functions of `Policies`); the timer firing is an event of
    its own. A promise settles once: a later resolve or reject is ignored,
    and removing an interceptor twice is harmless. */
module Waiter {
  import opened Base
  import opened JsValue
  import opened Policies

  datatype Settled = Pending | Resolved(value: Value) | Rejected(reason: string)

  datatype Waiter = Waiter(registered: bool, outcome: Settled)

  datatype Event =
    | Message(result: Option<Value>) // the match predicate's verdict on one message
    | TimerFired                     // the waiter's own `setTimeout`

  /** The rejection timer a waiter arms: its delay and the error message. */
  datatype Timer = Timer(ms: nat, reason: string)

  const ProfileTimer := Some(Timer(5000, "Fetching user profile settings timed out"))
  const CollectionsTimer := Some(Timer(3000, "Fetching spaces timed out"))
  const SpaceCreationTimer := Some(Timer(5000, "Space creation timed out"))
  const UpsertTimer: Option<Timer> := None

  /** Just registered, nothing settled. */
  const Start := Waiter(true, Pending)

  /** A registered waiter is exactly a pending one. */
  predicate Consistent(w: Waiter) {
    w.registered <==> w.outcome.Pending?
  }

  /** One event. A message is only seen while registered: on a match the
      callback resolves and the stop condition (the same predicate) removes
      the interceptor. A timer, when the waiter has one, removes the
      interceptor and rejects; without one there is nothing to fire. */
  function Step(w: Waiter, e: Event, timer: Option<Timer>): (w': Waiter)
    ensures Consistent(w) ==> Consistent(w')
    ensures e.Message? && w.registered ==> (w'.registered <==> e.result.None?)
    ensures e.TimerFired? && timer.None? ==> w' == w
    ensures w'.outcome.Rejected? ==> w.outcome.Rejected? || (e.TimerFired? && timer.Some?)
  {
    match e
    case Message(r) =>
      if !w.registered then w
      else
        var stays := !Deregisters(WaiterRegistration.stop, r.Some?);
        Waiter(stays, if r.Some? && w.outcome.Pending? then Resolved(r.value) else w.outcome)
    case TimerFired =>
      if timer.None? then w
      else Waiter(false, if w.outcome.Pending? then Rejected(timer.value.reason) else w.outcome)
  }

  function Run(w: Waiter, events: seq<Event>, timer: Option<Timer>): Waiter
    decreases |events|
  {
    if |events| == 0 then w else Run(Step(w, events[0], timer), events[1..], timer)
  }

  /** An event that ends the wait: a matching message or the waiter's timer. */
  predicate Settles(e: Event, timer: Option<Timer>) {
    (e.TimerFired? && timer.Some?) || (e.Message? && e.result.Some?)
  }

  /** The outcome the first settling event gives. */
  function SettledBy(e: Event, timer: Option<Timer>): Settled
    requires Settles(e, timer)
  {
    if e.TimerFired? then Rejected(timer.value.reason) else Resolved(e.result.value)
  }

  /** A settled waiter ignores everything that follows. */
  lemma {:induction false} RunSettled(w: Waiter, events: seq<Event>, timer: Option<Timer>)
    requires Consistent(w) && !w.registered
    ensures Run(w, events, timer) == w
    decreases |events|
  {
    if |events| > 0 {
      assert Step(w, events[0], timer) == w;
      RunSettled(w, events[1..], timer);
    }
  }

  /** One-shot semantics: the waiter stays registered and pending exactly as
      long as no event has settled it, and the first settling event alone
      decides the outcome; later matches neither resolve again nor bring
      the interceptor back. */
  lemma {:induction false} OneShot(events: seq<Event>, timer: Option<Timer>)
    ensures var w := Run(Start, events, timer);
      && (w.registered <==> forall i :: 0 <= i < |events| ==> !Settles(events[i], timer))
      && (w.outcome.Pending? <==> w.registered)
      && forall i :: 0 <= i < |events| && Settles(events[i], timer) && (forall j :: 0 <= j < i ==> !Settles(events[j], timer))
           ==> w.outcome == SettledBy(events[i], timer)
  {
    RunFromRegistered(Start, events, timer);
  }

  lemma {:induction false} RunFromRegistered(w: Waiter, events: seq<Event>, timer: Option<Timer>)
    requires w.registered && w.outcome.Pending?
    ensures var w' := Run(w, events, timer);
      && Consistent(w')
      && (w'.registered <==> forall i :: 0 <= i < |events| ==> !Settles(events[i], timer))
      && (w'.registered ==> w' == w)
      && forall i :: 0 <= i < |events| && Settles(events[i], timer) && (forall j :: 0 <= j < i ==> !Settles(events[j], timer))
           ==> w'.outcome == SettledBy(events[i], timer)
    decreases |events|
  {
    if |events| > 0 {
      var w1 := Step(w, events[0], timer);
      var rest := events[1..];
      if Settles(events[0], timer) {
        assert w1.outcome == SettledBy(events[0], timer) && !w1.registered;
        RunSettled(w1, rest, timer);
      } else {
        assert w1 == w;
        RunFromRegistered(w1, rest, timer);
        assert forall i :: 1 <= i < |events| ==> events[i] == rest[i - 1];
      }
    }
  }

  /** `waitForUpsertThreadCollection` arms no timer: whatever messages and
      ticks arrive, it is never rejected. */
  lemma {:induction false} NoTimerNeverRejects(w: Waiter, events: seq<Event>)
    requires !w.outcome.Rejected?
    ensures !Run(w, events, UpsertTimer).outcome.Rejected?
    decreases |events|
  {
    if |events| > 0 {
      NoTimerNeverRejects(Step(w, events[0], UpsertTimer), events[1..]);
    }
  }
}
