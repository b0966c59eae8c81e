/**
 * The session monitor of the systemd controller (the callback that
 * `run_monitor` registers, src/controller/linux.rs): it remembers the
 * active login session and, on every notification, sends a connect event
 * for a newly active session and a disconnect event for the one it
 * replaces.
 *
 * The channel the events are sent on is the sequence `events`; a session is
 * known by its identifier only.
 */
module Monitor {
  import opened Wrappers
  import opened Lib

  /** The active session as the callback reads it: a failed query
      (`Err`, whose cause is only logged) counts as no session. */
  function ActiveSession(query: Result<Session, string>): (s: Option<Session>)
    ensures s.Some? <==> query.Ok?
    ensures s.Some? ==> s.value == query.value
  {
    match query
    case Ok(session) => Some(session)
    case Err(_) => None
  }

  /** The events one notification sends, by the previous and the observed
      session: nothing when they agree, a connect for a new session, a
      disconnect for a lost one, and both (connect first) for a switch. */
  function Transition<T>(previous: Option<Session>, observed: Option<Session>): (es: seq<ServiceEvent<T>>)
    ensures |es| <= 2
    ensures es == [] <==> previous == observed
    ensures forall i :: 0 <= i < |es| ==> es[i].SessionConnect? || es[i].SessionDisconnect?
    ensures forall i :: 0 <= i < |es| && es[i].SessionConnect? ==> observed == Some(es[i].session)
    ensures forall i :: 0 <= i < |es| && es[i].SessionDisconnect? ==> previous == Some(es[i].session)
    ensures previous.None? && observed.Some? ==> es == [SessionConnect(observed.value)]
    ensures previous.Some? && observed.None? ==> es == [SessionDisconnect(previous.value)]
    ensures previous.Some? && observed.Some? && previous != observed ==>
      es == [SessionConnect(observed.value), SessionDisconnect(previous.value)]
  {
    match (previous, observed)
    case (None, None) => []
    case (None, Some(b)) => [SessionConnect(b)]
    case (Some(a), None) => [SessionDisconnect(a)]
    case (Some(a), Some(b)) => if a == b then [] else [SessionConnect(b), SessionDisconnect(a)]
  }

  /** The active session as a receiver of the events sees it, starting from
      `start`: a connect makes its session active; a disconnect of the
      active session leaves none; any other event changes nothing. */
  function View<T>(start: Option<Session>, es: seq<ServiceEvent<T>>): Option<Session>
    decreases |es|
  {
    if |es| == 0 then start
    else
      var last := es[|es| - 1];
      var before := View(start, es[..|es| - 1]);
      if last.SessionConnect? then Some(last.session)
      else if last.SessionDisconnect? && before == Some(last.session) then None
      else before
  }

  /** Reading two runs of events one after the other. */
  lemma {:induction false} ViewAppend<T>(start: Option<Session>, es: seq<ServiceEvent<T>>, more: seq<ServiceEvent<T>>)
    ensures View(start, es + more) == View(View(start, es), more)
    decreases |more|
  {
    if |more| > 0 {
      var all := es + more;
      assert all[..|all| - 1] == es + more[..|more| - 1];
      assert all[|all| - 1] == more[|more| - 1];
      ViewAppend(start, es, more[..|more| - 1]);
    } else {
      assert es + more == es;
    }
  }

  /** A receiver that knows the previous session learns the observed one
      from the events of one notification. For a switch, the disconnect
      after the connect names the previous session, so it does not clear
      the new one. */
  lemma ViewOfTransition<T>(previous: Option<Session>, observed: Option<Session>)
    ensures View(previous, Transition<T>(previous, observed)) == observed
  {
    var es := Transition<T>(previous, observed);
    if previous.Some? && observed.Some? && previous != observed {
      assert es[..1] == [SessionConnect(observed.value)];
      assert View(previous, es[..1]) == observed;
    }
  }

  /** All events a run of notifications sends, starting from slot `start`. */
  function Sent<T>(start: Option<Session>, queries: seq<Result<Session, string>>): seq<ServiceEvent<T>>
    decreases |queries|
  {
    if |queries| == 0 then []
    else
      var init := queries[..|queries| - 1];
      var previous := if |init| == 0 then start else ActiveSession(init[|init| - 1]);
      Sent(start, init) + Transition(previous, ActiveSession(queries[|queries| - 1]))
  }

  /** After any run of notifications, a receiver that knows the initial
      session and reads every event sent knows the session observed last. */
  lemma {:induction false} ReplayKnowsLast<T>(start: Option<Session>, queries: seq<Result<Session, string>>)
    requires |queries| > 0
    ensures View(start, Sent<T>(start, queries)) == ActiveSession(queries[|queries| - 1])
    decreases |queries|
  {
    var init := queries[..|queries| - 1];
    var previous := if |init| == 0 then start else ActiveSession(init[|init| - 1]);
    var observed := ActiveSession(queries[|queries| - 1]);
    if |init| > 0 {
      ReplayKnowsLast<T>(start, init);
    }
    ViewAppend(start, Sent<T>(start, init), Transition<T>(previous, observed));
    ViewOfTransition<T>(previous, observed);
  }

  /** The callback's captured state: the slot `current_session` and the
      channel it sends on. */
  class SessionMonitor<T> {
    var current: Option<Session>
    var events: seq<ServiceEvent<T>>
    /** The slot as `run_monitor` initialised it. */
    ghost var start: Option<Session>

    /** The events sent so far tell a receiver the slot's value. */
    ghost predicate Valid()
      reads this
    {
      View(start, events) == current
    }

    /** `run_monitor`: the slot starts with the session active at
        registration, and nothing is sent. */
    constructor (initial: Result<Session, string>)
      ensures current == ActiveSession(initial) && events == [] && start == current
      ensures Valid()
    {
      current := ActiveSession(initial);
      events := [];
      start := current;
    }

    /** One notification: compare the slot with the observed session, send
        the connect event, then the disconnect event, when they differ, and
        overwrite the slot in every case. */
    method Notify(query: Result<Session, string>)
      requires Valid()
      modifies this
      ensures current == ActiveSession(query)
      ensures events == old(events) + Transition(old(current), ActiveSession(query))
      ensures start == old(start)
      ensures Valid()
    {
      var active := ActiveSession(query);
      var changed := match (current, active)
        case (Some(a), Some(b)) => a != b
        case (None, None) => false
        case _ => true;
      if changed {
        if active.Some? {
          events := events + [SessionConnect(active.value)];
        }
        if current.Some? {
          events := events + [SessionDisconnect(current.value)];
        }
      }
      assert events == old(events) + Transition(current, active);
      ViewAppend(start, old(events), Transition<T>(current, active));
      ViewOfTransition<T>(current, active);
      current := active;
    }
  }
}
