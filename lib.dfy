/**
 * The crate root (src/lib.rs): the crate's one error type, the events a
 * service receives, and how both are displayed.
 */
module Lib {
  /** The crate's error: nothing but a human-readable message. */
  datatype Error = Error(message: string)

  /** `Error::new(message)`. */
  function NewError(message: string): (e: Error)
    ensures e.message == message
  {
    Error(message)
  }

  /** `Error::from(message)`, the `From<&str>` conversion used by `?`. */
  function ErrorFrom(message: string): (e: Error)
    ensures e == NewError(message)
  {
    Error(message)
  }

  /** `format!("{}", e)`: the `Display` of an error. */
  function DisplayError(e: Error): (r: string)
    ensures r == e.message
  {
    e.message
  }

  /** `std::error::Error::description`. */
  function Description(e: Error): (r: string)
    ensures r == DisplayError(e)
  {
    e.message
  }

  /** Displaying an error built from a message gives back that message,
      by either constructor. */
  lemma DisplayRoundTrip(m: string)
    ensures DisplayError(NewError(m)) == m
    ensures DisplayError(ErrorFrom(m)) == m
  {
  }

  /** A login session, identified by its identifier only: two sessions are
      equal exactly when their identifiers are. */
  datatype Session = Session(identifier: string)

  /** The events sent to the service. `T` is the application's own event type. */
  datatype ServiceEvent<T> =
    | Continue
    | Pause
    | Stop
    | SessionConnect(session: Session)
    | SessionDisconnect(session: Session)
    | SessionRemoteConnect(session: Session)
    | SessionRemoteDisconnect(session: Session)
    | SessionLogon(session: Session)
    | SessionLogoff(session: Session)
    | SessionLock(session: Session)
    | SessionUnlock(session: Session)
    | Custom(payload: T)
  {
    /** The variants that carry a session. */
    predicate CarriesSession()
    {
      !(Continue? || Pause? || Stop? || Custom?)
    }

    /** The variant's name as it is displayed. */
    function Name(): string
    {
      match this
      case Continue => "Continue"
      case Pause => "Pause"
      case Stop => "Stop"
      case SessionConnect(_) => "SessionConnect"
      case SessionDisconnect(_) => "SessionDisconnect"
      case SessionRemoteConnect(_) => "SessionRemoteConnect"
      case SessionRemoteDisconnect(_) => "SessionRemoteDisconnect"
      case SessionLogon(_) => "SessionLogon"
      case SessionLogoff(_) => "SessionLogoff"
      case SessionLock(_) => "SessionLock"
      case SessionUnlock(_) => "SessionUnlock"
      case Custom(_) => "Custom"
    }
  }

  /** `format!("{}", event)`. The `Display` of a `Session` lives outside this
      model, so it is the parameter `show`. */
  function DisplayEvent<T>(e: ServiceEvent<T>, show: Session -> string): (r: string)
    ensures e.Continue? ==> r == "Continue"
    ensures e.Pause? ==> r == "Pause"
    ensures e.Stop? ==> r == "Stop"
    ensures e.Custom? ==> r == "Custom"
    ensures e.CarriesSession() ==> r == e.Name() + "(" + show(e.session) + ")"
  {
    if e.CarriesSession() then e.Name() + "(" + show(e.session) + ")" else e.Name()
  }

  /** `Custom(x)` is displayed the same whatever its payload. */
  lemma CustomIgnoresPayload<T>(x: T, y: T, show: Session -> string)
    ensures DisplayEvent(Custom(x), show) == DisplayEvent(Custom(y), show) == "Custom"
  {
  }

  /** No variant name contains a parenthesis. */
  lemma NameHasNoParen<T>(e: ServiceEvent<T>)
    ensures '(' !in e.Name()
  {
  }

  /** Different variants have different names. */
  lemma NameDetermines<T>(e1: ServiceEvent<T>, e2: ServiceEvent<T>)
    requires e1.Name() == e2.Name()
    ensures e1.CarriesSession() == e2.CarriesSession()
    ensures e1.Continue? == e2.Continue? && e1.Pause? == e2.Pause? && e1.Stop? == e2.Stop?
    ensures e1.SessionConnect? == e2.SessionConnect? && e1.SessionDisconnect? == e2.SessionDisconnect?
    ensures e1.SessionLogon? == e2.SessionLogon? && e1.SessionLogoff? == e2.SessionLogoff?
    ensures e1.SessionLock? == e2.SessionLock? && e1.SessionUnlock? == e2.SessionUnlock?
    ensures e1.SessionRemoteConnect? == e2.SessionRemoteConnect?
    ensures e1.SessionRemoteDisconnect? == e2.SessionRemoteDisconnect?
  {
  }

  /** A displayed event holds a parenthesis exactly when the event carries a session. */
  lemma DisplayParenIffSession<T>(e: ServiceEvent<T>, show: Session -> string)
    ensures '(' in DisplayEvent(e, show) <==> e.CarriesSession()
  {
    NameHasNoParen(e);
    if e.CarriesSession() {
      assert DisplayEvent(e, show)[|e.Name()|] == '(';
    }
  }

  /** The index of the first `c` in `s` (or `|s|` when there is none). */
  ghost function FirstIndex(s: string, c: char): nat
  {
    if |s| == 0 || s[0] == c then 0 else 1 + FirstIndex(s[1..], c)
  }

  lemma {:induction false} FirstIndexAfter(a: string, c: char, x: string)
    requires c !in a
    ensures FirstIndex(a + [c] + x, c) == |a|
  {
    if |a| > 0 {
      assert (a + [c] + x)[1..] == a[1..] + [c] + x;
      FirstIndexAfter(a[1..], c, x);
    }
  }

  /** The first parenthesis of `name + "(" + rest` is the one after `name`,
      when `name` holds none. */
  lemma SplitAtParen(a: string, x: string, b: string, y: string)
    requires '(' !in a && '(' !in b
    requires a + "(" + x == b + "(" + y
    ensures a == b && x == y
  {
    var s := a + "(" + x;
    FirstIndexAfter(a, '(', x);
    FirstIndexAfter(b, '(', y);
    assert a == s[..|a|] == b;
    assert x == s[|a| + 1..] == y;
  }

  /** The display of a session-carrying event names the variant and the
      session's display unambiguously: two such events that display alike
      are the same variant and their sessions display alike. */
  lemma {:induction false} DisplayEventInjective<T>(e1: ServiceEvent<T>, e2: ServiceEvent<T>, show: Session -> string)
    requires e1.CarriesSession() && e2.CarriesSession()
    requires DisplayEvent(e1, show) == DisplayEvent(e2, show)
    ensures e1.Name() == e2.Name() && show(e1.session) == show(e2.session)
    ensures e1.(session := e2.session) == e2
  {
    NameHasNoParen(e1);
    NameHasNoParen(e2);
    var x1, x2 := show(e1.session) + ")", show(e2.session) + ")";
    assert e1.Name() + "(" + x1 == DisplayEvent(e1, show);
    assert e2.Name() + "(" + x2 == DisplayEvent(e2, show);
    SplitAtParen(e1.Name(), x1, e2.Name(), x2);
    assert show(e1.session) == x1[..|x1| - 1] == x2[..|x2| - 1] == show(e2.session);    NameDetermines(e1, e2);
  }
}
