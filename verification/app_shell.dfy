/** The application shell: which screen is shown, decided by the held
    session and the selected view.

    The shell holds two values. The session starts `null`, is set once by
    the initial session lookup and again by every auth-state notification.
    The view starts as "dashboard" and is changed only by the two
    navigation buttons. Without a session the sign-in screen is shown
    whatever the view; with one, "dashboard" shows the dashboard and any
    other view the history. Logging out signs out and reloads the page,
    which starts the shell afresh. */
module AppShell {
  import opened Ledger

  /** An authenticated session; only its user id matters here. */
  datatype Session = Session(userId: string)

  datatype AppState = AppState(session: Option<Session>, view: string)

  datatype Screen = AuthScreen | DashboardScreen | HistoryScreen

  /** What can happen to the shell. */
  datatype Event =
    | SessionLoaded(loaded: Option<Session>)
    | AuthChanged(changed: Option<Session>)
    | ShowDashboard
    | ShowHistory
    | LogoutAndReload

  const DashboardView: string := "dashboard"
  const HistoryView: string := "history"

  function Init(): (st: AppState)
    ensures st.session.None? && st.view == DashboardView
  {
    AppState(None, DashboardView)
  }

  /** The screen for a state. */
  function Render(st: AppState): (screen: Screen)
    ensures st.session.None? ==> screen == AuthScreen
    ensures st.session.Some? ==> (screen == DashboardScreen <==> st.view == DashboardView)
    ensures st.session.Some? ==> (screen == HistoryScreen <==> st.view != DashboardView)
  {
    if st.session.None? then AuthScreen
    else if st.view == DashboardView then DashboardScreen
    else HistoryScreen
  }

  /** One event. Session events replace the session and keep the view;
      navigation sets the view and keeps the session; logout reloads. */
  function Step(st: AppState, e: Event): (r: AppState)
    ensures e.SessionLoaded? ==> r.session == e.loaded && r.view == st.view
    ensures e.AuthChanged? ==> r.session == e.changed && r.view == st.view
    ensures e.ShowDashboard? ==> r.view == DashboardView && r.session == st.session
    ensures e.ShowHistory? ==> r.view == HistoryView && r.session == st.session
    ensures e.LogoutAndReload? ==> r == Init()
  {
    match e
    case SessionLoaded(s) => st.(session := s)
    case AuthChanged(s) => st.(session := s)
    case ShowDashboard => st.(view := DashboardView)
    case ShowHistory => st.(view := HistoryView)
    case LogoutAndReload => Init()
  }

  /** The events in order, from the first. */
  function Run(st: AppState, events: seq<Event>): AppState
    decreases |events|
  {
    if events == [] then st else Run(Step(st, events[0]), events[1..])
  }

  // ---------------------------------------------------------------------
  // Reference: read the state off the most recent relevant event.

  /** The session of the latest session event since the last reload. */
  function LatestSession(events: seq<Event>): Option<Session>
    decreases |events|
  {
    if events == [] then None
    else
      match events[|events| - 1]
      case SessionLoaded(s) => s
      case AuthChanged(s) => s
      case LogoutAndReload => None
      case _ => LatestSession(events[..|events| - 1])
  }

  /** The view of the latest navigation since the last reload, or the
      dashboard when there was none. */
  function LatestView(events: seq<Event>): string
    decreases |events|
  {
    if events == [] then DashboardView
    else
      match events[|events| - 1]
      case ShowDashboard => DashboardView
      case ShowHistory => HistoryView
      case LogoutAndReload => DashboardView
      case _ => LatestView(events[..|events| - 1])
  }

  lemma {:induction false} RunSnoc(st: AppState, events: seq<Event>, e: Event)
    ensures Run(st, events + [e]) == Step(Run(st, events), e)
    decreases |events|
  {
    if events == [] {
      assert events + [e] == [e];
      assert [e][1..] == [];
    } else {
      assert (events + [e])[0] == events[0];
      assert (events + [e])[1..] == events[1..] + [e];
      RunSnoc(Step(st, events[0]), events[1..], e);
    }
  }

  /** From start-up, the shell holds the session of the latest session
      event and the view of the latest navigation, each reset by a reload. */
  lemma {:induction false} RunMatchesLatest(events: seq<Event>)
    ensures Run(Init(), events) == AppState(LatestSession(events), LatestView(events))
    decreases |events|
  {
    if events != [] {
      var prefix := events[..|events| - 1];
      var e := events[|events| - 1];
      assert events == prefix + [e];
      RunSnoc(Init(), prefix, e);
      RunMatchesLatest(prefix);
    }
  }

  /** The view is always one of the two the buttons offer. */
  lemma ViewIsKnown(events: seq<Event>)
    ensures Run(Init(), events).view == DashboardView || Run(Init(), events).view == HistoryView
  {
    RunMatchesLatest(events);
    LatestViewIsKnown(events);
  }

  lemma {:induction false} LatestViewIsKnown(events: seq<Event>)
    ensures LatestView(events) == DashboardView || LatestView(events) == HistoryView
    decreases |events|
  {
    if events != [] {
      LatestViewIsKnown(events[..|events| - 1]);
    }
  }

  /** The sign-in screen is shown exactly when the latest session event
      since the last reload carried no session. */
  lemma AuthShownIffNoSession(events: seq<Event>)
    ensures Render(Run(Init(), events)) == AuthScreen <==> LatestSession(events).None?
  {
    RunMatchesLatest(events);
  }

  /** A notification that signs the user in again returns to the view the
      user had navigated to, not to the dashboard. */
  lemma AuthChangeKeepsView(st: AppState, s: Session)
    requires st.view == HistoryView
    ensures Render(Step(st, AuthChanged(Some(s)))) == HistoryScreen
  {
  }
}
