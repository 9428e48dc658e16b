/** The page-level screen machine of `Index`: which screen is shown, which
    book is selected, the reflection handed to the synthesis screen, the
    per-visit session counter and the pending focus rating. A step consumes
    one user event and returns the store calls it makes as effects; the
    settings flags are an input of every step. */
module ScreenFlow {
  import opened Common
  import opened GameTypes

  datatype Screen =
    | OnboardingScreen | DashboardScreen | BookSelectionScreen | FocusSessionScreen
    | FocusRatingScreen | ReflectionScreen | AISynthesisScreen | StatsScreen
    | GalleryScreen | SettingsScreen | SocialScreen | WaitlistScreen

  /** The preference record the flow reads; only the two flags matter here. */
  datatype Settings = Settings(notesEnabled: bool, focusRatingEnabled: bool,
                               reduceAnimations: bool, theme: string)

  datatype FlowState = FlowState(screen: Screen, selectedBook: Option<Book>,
                                 currentReflection: Option<Reflection>,
                                 sessionsThisVisit: nat, pendingRating: Option<int>)

  const InitialFlow: FlowState := FlowState(OnboardingScreen, None, None, 0, None)

  /** The callbacks the screens can fire. `Close` is the back or continue
      button of the stats, gallery, settings, social and waitlist screens. */
  datatype Event =
    | OnboardingComplete
    | StartSession
    | SelectBook(book: Book)
    | BookSelectionStart
    | SessionComplete
    | SessionCancel
    | RateFocus(rating: int)
    | SkipRating
    | ReflectionComplete(reflection: Reflection)
    | ReflectionSkip
    | SynthesisComplete
    | SynthesisSkip
    | ViewStats | ViewGallery | ViewSettings | ViewSocial
    | Close

  /** The store calls a step makes. */
  datatype Effect =
    | CallCompleteSession(bookId: string, rating: Option<int>)
    | CallCompleteReflection
    | CallCompleteSynthesis

  /** The screens of one session attempt, from the timer to the synthesis. */
  predicate InAttempt(sc: Screen) {
    sc == FocusSessionScreen || sc == FocusRatingScreen || sc == ReflectionScreen || sc == AISynthesisScreen
  }

  /** Whether the event's handler is wired on the current screen (the focus
      session renders only with a selected book, the synthesis screen only
      with a reflection, the start button only with a selected book, and the
      rating screen offers stars 1 to 5). */
  function Enabled(s: FlowState, e: Event): (b: bool)
    ensures b && s.screen == OnboardingScreen ==> e.OnboardingComplete?
    ensures b && (e.BookSelectionStart? || e.SessionComplete? || e.SessionCancel?) ==> s.selectedBook.Some?
    ensures b && (e.SynthesisComplete? || e.SynthesisSkip?) ==> s.currentReflection.Some?
    ensures b && e.RateFocus? ==> 1 <= e.rating <= 5
  {
    match e
    case OnboardingComplete => s.screen == OnboardingScreen
    case StartSession => s.screen == DashboardScreen
    case ViewStats => s.screen == DashboardScreen
    case ViewGallery => s.screen == DashboardScreen
    case ViewSettings => s.screen == DashboardScreen
    case ViewSocial => s.screen == DashboardScreen
    case SelectBook(_) => s.screen == BookSelectionScreen
    case BookSelectionStart => s.screen == BookSelectionScreen && s.selectedBook.Some?
    case SessionComplete => s.screen == FocusSessionScreen && s.selectedBook.Some?
    case SessionCancel => s.screen == FocusSessionScreen && s.selectedBook.Some?
    case RateFocus(r) => s.screen == FocusRatingScreen && 1 <= r <= 5
    case SkipRating => s.screen == FocusRatingScreen
    case ReflectionComplete(_) => s.screen == ReflectionScreen
    case ReflectionSkip => s.screen == ReflectionScreen
    case SynthesisComplete => s.screen == AISynthesisScreen && s.currentReflection.Some?
    case SynthesisSkip => s.screen == AISynthesisScreen && s.currentReflection.Some?
    case Close =>
      s.screen == StatsScreen || s.screen == GalleryScreen || s.screen == SettingsScreen
      || s.screen == SocialScreen || s.screen == WaitlistScreen
  }

  /** `handleSessionEnd`: counts the session, clears the pending rating, and
      sends the first end of the visit to the dashboard and later ones to the
      waitlist (the test reads the counter before the increment). */
  function SessionEnd(s: FlowState): (r: FlowState)
    ensures r.sessionsThisVisit == s.sessionsThisVisit + 1
    ensures r.pendingRating == None
    ensures r.screen == (if s.sessionsThisVisit == 0 then DashboardScreen else WaitlistScreen)
    ensures r.selectedBook == s.selectedBook && r.currentReflection == s.currentReflection
  {
    s.(sessionsThisVisit := s.sessionsThisVisit + 1,
       pendingRating := None,
       screen := if s.sessionsThisVisit >= 1 then WaitlistScreen else DashboardScreen)
  }

  /** The completed-session call for the selected book, if any. */
  function CompleteCall(s: FlowState, rating: Option<int>): seq<Effect> {
    if s.selectedBook.Some? then [CallCompleteSession(s.selectedBook.value.id, rating)] else []
  }

  /** After the session is counted: the reflection screen when notes are on,
      otherwise the session ends. */
  function AfterCompletion(s: FlowState, settings: Settings): FlowState {
    if settings.notesEnabled then s.(screen := ReflectionScreen) else SessionEnd(s)
  }

  /** One handler call. A disabled event changes nothing. */
  function Step(s: FlowState, settings: Settings, e: Event): (r: (FlowState, seq<Effect>))
    ensures !Enabled(s, e) ==> r == (s, [])
    ensures |r.1| <= 1
    ensures r.0.selectedBook != s.selectedBook ==> e.SelectBook?
    ensures r.0.currentReflection != s.currentReflection ==> e.ReflectionComplete?
    ensures r.0.sessionsThisVisit == s.sessionsThisVisit || r.0.sessionsThisVisit == s.sessionsThisVisit + 1
  {
    if !Enabled(s, e) then (s, [])
    else match e
      case OnboardingComplete => (s.(screen := DashboardScreen), [])
      case StartSession =>
        (s.(screen := if s.selectedBook.Some? then FocusSessionScreen else BookSelectionScreen), [])
      case SelectBook(b) => (s.(selectedBook := Some(b)), [])
      case BookSelectionStart => (s.(screen := FocusSessionScreen), [])
      case SessionComplete =>
        if settings.focusRatingEnabled then (s.(screen := FocusRatingScreen), [])
        else (AfterCompletion(s, settings), CompleteCall(s, None))
      case RateFocus(r) =>
        (AfterCompletion(s.(pendingRating := Some(r)), settings), CompleteCall(s, Some(r)))
      case SkipRating => (AfterCompletion(s, settings), CompleteCall(s, None))
      case ReflectionComplete(refl) =>
        (s.(currentReflection := Some(refl), screen := AISynthesisScreen), [CallCompleteReflection])
      case ReflectionSkip => (SessionEnd(s), [])
      case SynthesisComplete => (SessionEnd(s), [CallCompleteSynthesis])
      case SynthesisSkip => (SessionEnd(s), [])
      case SessionCancel => (s.(screen := DashboardScreen), [])
      case ViewStats => (s.(screen := StatsScreen), [])
      case ViewGallery => (s.(screen := GalleryScreen), [])
      case ViewSettings => (s.(screen := SettingsScreen), [])
      case ViewSocial => (s.(screen := SocialScreen), [])
      case Close => (s.(screen := DashboardScreen), [])
  }

  /** The XP bar is shown on every screen but onboarding. */
  function ShowXPBar(s: FlowState): (b: bool)
    ensures InAttempt(s.screen) ==> b
    ensures s == InitialFlow ==> !b
  {
    s.screen != OnboardingScreen
  }

  // ---------------------------------------------------------------------
  // Accounting of store calls

  function EffectXP(f: Effect): nat {
    match f
    case CallCompleteSession(_, _) => SessionCompleteXP
    case CallCompleteReflection => ReflectionXP
    case CallCompleteSynthesis => SynthesisXP
  }

  /** The XP the calls grant. */
  function XPOf(fs: seq<Effect>): nat {
    if fs == [] then 0 else EffectXP(fs[0]) + XPOf(fs[1..])
  }

  /** How many `completeSession` calls the effects hold. */
  function SessionCalls(fs: seq<Effect>): nat {
    if fs == [] then 0 else (if fs[0].CallCompleteSession? then 1 else 0) + SessionCalls(fs[1..])
  }

  lemma {:induction false} AccountingDistributes(a: seq<Effect>, b: seq<Effect>)
    ensures XPOf(a + b) == XPOf(a) + XPOf(b)
    ensures SessionCalls(a + b) == SessionCalls(a) + SessionCalls(b)
    decreases |a|
  {
    if a == [] {
      assert a + b == b;
    } else {
      assert (a + b)[1..] == a[1..] + b;
      AccountingDistributes(a[1..], b);
    }
  }

  /** Reachable states: inside an attempt a book is selected, and the
      synthesis screen has a reflection to work on. */
  predicate Valid(s: FlowState) {
    && (InAttempt(s.screen) ==> s.selectedBook.Some?)
    && (s.screen == AISynthesisScreen ==> s.currentReflection.Some?)
  }

  /** `completeSession` calls made so far in the current attempt. */
  function SessionsInAttempt(sc: Screen): nat {
    if sc == ReflectionScreen || sc == AISynthesisScreen then 1 else 0
  }

  /** XP granted so far in the current attempt. */
  function XPInAttempt(sc: Screen): nat {
    if sc == ReflectionScreen then SessionCompleteXP
    else if sc == AISynthesisScreen then SessionCompleteXP + ReflectionXP
    else 0
  }

  // ---------------------------------------------------------------------
  // Properties of single steps

  lemma InitialFlowValid()
    ensures Valid(InitialFlow) && !ShowXPBar(InitialFlow)
  {
  }

  /** Every step keeps the state valid. */
  lemma StepPreservesValid(s: FlowState, settings: Settings, e: Event)
    requires Valid(s)
    ensures Valid(Step(s, settings, e).0)
  {
  }

  /** Onboarding leads only to the dashboard, and nothing leads back to it;
      so once it is left the XP bar stays shown. */
  lemma OnboardingIsOneWay(s: FlowState, settings: Settings, e: Event)
    ensures s.screen == OnboardingScreen ==>
              Step(s, settings, e).0.screen in {OnboardingScreen, DashboardScreen}
    ensures s.screen != OnboardingScreen ==> Step(s, settings, e).0.screen != OnboardingScreen
    ensures ShowXPBar(s) ==> ShowXPBar(Step(s, settings, e).0)
  {
  }

  /** Starting from the dashboard opens the timer iff a book is already
      selected, and the book picker otherwise. */
  lemma StartSessionRoutes(s: FlowState, settings: Settings)
    requires s.screen == DashboardScreen
    ensures var r := Step(s, settings, StartSession);
            && (r.0.screen == FocusSessionScreen <==> s.selectedBook.Some?)
            && (r.0.screen == BookSelectionScreen <==> s.selectedBook.None?)
            && r.1 == []
  {
  }

  /** The rating screen follows a finished timer iff ratings are enabled,
      and only rating or skipping leaves it. */
  lemma RatingScreenRule(s: FlowState, settings: Settings, e: Event)
    ensures Enabled(s, SessionComplete) ==>
              (Step(s, settings, SessionComplete).0.screen == FocusRatingScreen <==> settings.focusRatingEnabled)
    ensures s.screen == FocusRatingScreen && !e.RateFocus? && !e.SkipRating? ==>
              Step(s, settings, e).0 == s
  {
  }

  /** The reflection screen follows the counted session iff notes are on,
      and the synthesis screen is entered only by completing a reflection. */
  lemma ReflectionAndSynthesisEntry(s: FlowState, settings: Settings, e: Event)
    requires Valid(s)
    ensures (e.SkipRating? || e.RateFocus? || (e == SessionComplete && !settings.focusRatingEnabled))
            && Enabled(s, e) ==>
              (Step(s, settings, e).0.screen == ReflectionScreen <==> settings.notesEnabled)
    ensures Step(s, settings, e).0.screen == AISynthesisScreen && s.screen != AISynthesisScreen ==>
              s.screen == ReflectionScreen && e.ReflectionComplete?
  {
  }

  /** The close buttons of the side screens all return to the dashboard. */
  lemma CloseReturnsToDashboard(s: FlowState, settings: Settings)
    requires s.screen in {StatsScreen, GalleryScreen, SettingsScreen, SocialScreen, WaitlistScreen}
    ensures Step(s, settings, Close).0 == s.(screen := DashboardScreen)
    ensures Step(s, settings, Close).1 == []
  {
  }

  /** Cancelling the timer returns to the dashboard and calls nothing. */
  lemma CancelGrantsNothing(s: FlowState, settings: Settings)
    requires Enabled(s, SessionCancel)
    ensures Step(s, settings, SessionCancel) == (s.(screen := DashboardScreen), [])
  {
  }

  /** Per step, the store calls follow the attempt's bookkeeping: inside an
      attempt the counters advance by exactly the calls made; an attempt
      that ends has made exactly one `completeSession` call unless it was
      cancelled, and at most the per-session XP maximum; outside an attempt
      no call is made. */
  lemma StepAccounting(s: FlowState, settings: Settings, e: Event)
    requires Valid(s)
    ensures var (s', fs) := Step(s, settings, e);
            && (InAttempt(s.screen) && InAttempt(s'.screen) ==>
                  && SessionsInAttempt(s'.screen) == SessionsInAttempt(s.screen) + SessionCalls(fs)
                  && XPInAttempt(s'.screen) == XPInAttempt(s.screen) + XPOf(fs))
            && (InAttempt(s.screen) && !InAttempt(s'.screen) ==>
                  && SessionsInAttempt(s.screen) + SessionCalls(fs) == (if e == SessionCancel then 0 else 1)
                  && XPInAttempt(s.screen) + XPOf(fs) <= MaxXPPerSession)
            && (!InAttempt(s.screen) ==> fs == [] && (InAttempt(s'.screen) ==> s'.screen == FocusSessionScreen))
  {
  }

  // ---------------------------------------------------------------------
  // Runs

  /** Feeds the events in order and collects every store call. */
  function Run(s: FlowState, settings: Settings, events: seq<Event>): (FlowState, seq<Effect>)
    decreases |events|
  {
    if events == [] then (s, [])
    else
      var (s1, fs1) := Step(s, settings, events[0]);
      var (s2, fs2) := Run(s1, settings, events[1..]);
      (s2, fs1 + fs2)
  }

  /** How many steps of a run end an attempt other than by cancelling. */
  function CompletedAttempts(s: FlowState, settings: Settings, events: seq<Event>): nat
    decreases |events|
  {
    if events == [] then 0
    else
      var s1 := Step(s, settings, events[0]).0;
      (if InAttempt(s.screen) && !InAttempt(s1.screen) && events[0] != SessionCancel then 1 else 0)
      + CompletedAttempts(s1, settings, events[1..])
  }

  /** Over any run from a valid state, `completeSession` is called exactly
      once per attempt that ends without cancelling, and the XP granted is
      at most the per-session maximum per such attempt, counting the attempt
      still open at either end. */
  lemma {:induction false} RunAccounting(s: FlowState, settings: Settings, events: seq<Event>)
    requires Valid(s)
    ensures var (s', fs) := Run(s, settings, events);
            && Valid(s')
            && SessionsInAttempt(s.screen) + SessionCalls(fs)
               == CompletedAttempts(s, settings, events) + SessionsInAttempt(s'.screen)
            && XPInAttempt(s.screen) + XPOf(fs)
               <= MaxXPPerSession * CompletedAttempts(s, settings, events) + XPInAttempt(s'.screen)
    decreases |events|
  {
    if events != [] {
      var (s1, fs1) := Step(s, settings, events[0]);
      var (s2, fs2) := Run(s1, settings, events[1..]);
      StepPreservesValid(s, settings, events[0]);
      StepAccounting(s, settings, events[0]);
      RunAccounting(s1, settings, events[1..]);
      AccountingDistributes(fs1, fs2);
    }
  }

  /** From the first screen, the whole visit grants at most the per-session
      maximum for each attempt ended so far, plus what the open attempt has. */
  lemma VisitXPBound(settings: Settings, events: seq<Event>)
    ensures var (s', fs) := Run(InitialFlow, settings, events);
            XPOf(fs) <= MaxXPPerSession * CompletedAttempts(InitialFlow, settings, events) + XPInAttempt(s'.screen)
  {
    RunAccounting(InitialFlow, settings, events);
  }

  // ---------------------------------------------------------------------
  // The completion timeout

  /** The focus screen's timer seen from the page: the final tick schedules
      `onComplete` half a second later, and the scheduled callback is the
      handler of that render, so it carries the book then selected.
      `scheduled` is that pending callback's book. */
  datatype TimedFlow = TimedFlow(flow: FlowState, scheduled: Option<Book>)

  /** A user event, the timer's final tick, or the scheduled callback
      running. `User(SessionComplete)` is no user action: the completion
      arrives only through `CompletionFires`. */
  datatype TimedEvent = User(e: Event) | FinalTick | CompletionFires

  /** The final tick: only on the running timer, with nothing pending. */
  function Tick(t: TimedFlow): (r: TimedFlow)
    ensures r.flow == t.flow
    ensures r.scheduled.Some? <==> t.scheduled.Some? || (t.flow.screen == FocusSessionScreen && t.flow.selectedBook.Some?)
    ensures t.scheduled.None? && r.scheduled.Some? ==> r.scheduled == t.flow.selectedBook
  {
    if t.flow.screen == FocusSessionScreen && t.flow.selectedBook.Some? && t.scheduled.None?
    then t.(scheduled := t.flow.selectedBook)
    else t
  }

  /** `handleSessionComplete` of the render that scheduled it, run on the
      page as it now is: it does not look at the screen, and the session it
      counts is the captured book's. */
  function LateCompletion(s: FlowState, book: Book, settings: Settings): (r: (FlowState, seq<Effect>))
    ensures settings.focusRatingEnabled ==> r == (s.(screen := FocusRatingScreen), [])
    ensures !settings.focusRatingEnabled ==> r.1 == [CallCompleteSession(book.id, None)]
    ensures !settings.focusRatingEnabled ==> (r.0.screen == ReflectionScreen <==> settings.notesEnabled)
  {
    if settings.focusRatingEnabled then (s.(screen := FocusRatingScreen), [])
    else (AfterCompletion(s, settings), [CallCompleteSession(book.id, None)])
  }

  /** On the timer with its own book, the late callback is the ordinary
      completion. */
  lemma LateCompletionOnTimer(s: FlowState, book: Book, settings: Settings)
    requires s.screen == FocusSessionScreen && s.selectedBook == Some(book)
    ensures LateCompletion(s, book, settings) == Step(s, settings, SessionComplete)
  {
  }

  /** As written: cancelling leaves the timeout pending (the effect's
      cleanup clears only the interval), and the callback then runs on
      whatever screen is shown. */
  function TimedStepAsWritten(t: TimedFlow, settings: Settings, te: TimedEvent): (r: (TimedFlow, seq<Effect>))
    ensures te.User? && te.e != SessionComplete ==>
              r == (t.(flow := Step(t.flow, settings, te.e).0), Step(t.flow, settings, te.e).1)
    ensures te.CompletionFires? && t.scheduled.Some? && !settings.focusRatingEnabled ==>
              r.1 == [CallCompleteSession(t.scheduled.value.id, None)]
    ensures te.CompletionFires? ==> r.0.scheduled.None?
    ensures te.CompletionFires? && t.scheduled.None? ==> r == (t, [])
  {
    match te
    case FinalTick => (Tick(t), [])
    case CompletionFires =>
      if t.scheduled.Some? then
        var (s1, fs) := LateCompletion(t.flow, t.scheduled.value, settings);
        (TimedFlow(s1, None), fs)
      else (t, [])
    case User(e) =>
      if e == SessionComplete then (t, [])
      else (t.(flow := Step(t.flow, settings, e).0), Step(t.flow, settings, e).1)
  }

  function TimedRunAsWritten(t: TimedFlow, settings: Settings, ts: seq<TimedEvent>): (TimedFlow, seq<Effect>)
    decreases |ts|
  {
    if ts == [] then (t, [])
    else
      var (t1, fs1) := TimedStepAsWritten(t, settings, ts[0]);
      var (t2, fs2) := TimedRunAsWritten(t1, settings, ts[1..]);
      (t2, fs1 + fs2)
  }

  /** Corrected: the pending completion is dropped as soon as the timer
      screen is left, so a cancel at 00:00 discards it. */
  function TimedStep(t: TimedFlow, settings: Settings, te: TimedEvent): (r: (TimedFlow, seq<Effect>))
    ensures (t.scheduled.Some? ==> t.flow.screen == FocusSessionScreen) ==>
              (r.0.scheduled.Some? ==> r.0.flow.screen == FocusSessionScreen)
    ensures te.CompletionFires? ==> r.0.scheduled.None?
    ensures te.User? && te.e == SessionCancel && Enabled(t.flow, SessionCancel) ==>
              r == (TimedFlow(t.flow.(screen := DashboardScreen), None), [])
  {
    match te
    case FinalTick => (Tick(t), [])
    case CompletionFires =>
      if t.scheduled.Some? && Enabled(t.flow, SessionComplete) then
        var (s1, fs) := Step(t.flow, settings, SessionComplete);
        (TimedFlow(s1, None), fs)
      else (t.(scheduled := None), [])
    case User(e) =>
      if e == SessionComplete then (t, [])
      else
        var (s1, fs) := Step(t.flow, settings, e);
        (TimedFlow(s1, if s1.screen == FocusSessionScreen then t.scheduled else None), fs)
  }

  function TimedRun(t: TimedFlow, settings: Settings, ts: seq<TimedEvent>): (TimedFlow, seq<Effect>)
    decreases |ts|
  {
    if ts == [] then (t, [])
    else
      var (t1, fs1) := TimedStep(t, settings, ts[0]);
      var (t2, fs2) := TimedRun(t1, settings, ts[1..]);
      (t2, fs1 + fs2)
  }

  /** Reachable timed states: the flow is valid, and a pending completion
      belongs to the timer on screen and its book. */
  predicate TimedValid(t: TimedFlow) {
    && Valid(t.flow)
    && (t.scheduled.Some? ==> t.flow.screen == FocusSessionScreen && t.flow.selectedBook == t.scheduled)
  }

  /** The page event a corrected timed step amounts to, if any. */
  function PageEvent(t: TimedFlow, te: TimedEvent): Option<Event> {
    match te
    case FinalTick => None
    case CompletionFires => if t.scheduled.Some? then Some(SessionComplete) else None
    case User(e) => if e == SessionComplete then None else Some(e)
  }

  /** The page events of a corrected timed run. */
  function PageEvents(t: TimedFlow, settings: Settings, ts: seq<TimedEvent>): seq<Event>
    decreases |ts|
  {
    if ts == [] then []
    else
      (match PageEvent(t, ts[0]) case Some(e) => [e] case None => [])
      + PageEvents(TimedStep(t, settings, ts[0]).0, settings, ts[1..])
  }

  /** Each corrected timed step is a page step of `Step`, or nothing. */
  lemma TimedStepIsStep(t: TimedFlow, settings: Settings, te: TimedEvent)
    requires TimedValid(t)
    ensures var r := TimedStep(t, settings, te);
            && TimedValid(r.0)
            && (r.0.flow, r.1) == (match PageEvent(t, te)
                                   case Some(e) => Step(t.flow, settings, e)
                                   case None => (t.flow, []))
  {
    if te.User? {
      StepPreservesValid(t.flow, settings, te.e);
    }
  }

  /** A corrected timed run is a run of page events. */
  lemma {:induction false} TimedRunIsRun(t: TimedFlow, settings: Settings, ts: seq<TimedEvent>)
    requires TimedValid(t)
    ensures var r := TimedRun(t, settings, ts);
            TimedValid(r.0) && (r.0.flow, r.1) == Run(t.flow, settings, PageEvents(t, settings, ts))
    decreases |ts|
  {
    if ts != [] {
      var (t1, fs1) := TimedStep(t, settings, ts[0]);
      TimedStepIsStep(t, settings, ts[0]);
      TimedRunIsRun(t1, settings, ts[1..]);
      var rest := PageEvents(t1, settings, ts[1..]);
      var (t2, fs2) := TimedRun(t1, settings, ts[1..]);
      match PageEvent(t, ts[0])
      case Some(e) =>
        assert ([e] + rest)[1..] == rest;
      case None =>
        assert PageEvents(t, settings, ts) == rest;
        assert t1.flow == t.flow && fs1 == [];
        assert fs1 + fs2 == fs2;
    }
  }

  /** With the pending completion dropped on leaving the timer, the run
      accounting holds for every timed run: `completeSession` is called once
      per attempt ended other than by cancelling. */
  lemma TimedRunAccounting(t: TimedFlow, settings: Settings, ts: seq<TimedEvent>)
    requires TimedValid(t)
    ensures var events := PageEvents(t, settings, ts);
            var (t', fs) := TimedRun(t, settings, ts);
            && TimedValid(t')
            && SessionsInAttempt(t.flow.screen) + SessionCalls(fs)
               == CompletedAttempts(t.flow, settings, events) + SessionsInAttempt(t'.flow.screen)
            && XPInAttempt(t.flow.screen) + XPOf(fs)
               <= MaxXPPerSession * CompletedAttempts(t.flow, settings, events) + XPInAttempt(t'.flow.screen)
  {
    TimedRunIsRun(t, settings, ts);
    RunAccounting(t.flow, settings, PageEvents(t, settings, ts));
  }

  /** As written, a cancel within half a second of 00:00 is followed by the
      late completion: with ratings off it still calls `completeSession`
      for the cancelled attempt and grants its XP, and with ratings on it
      pulls the dashboard to the rating screen. The corrected timer grants
      nothing and stays on the dashboard. */
  lemma CancelAfterFinalTickStillCompletes(s: FlowState, settings: Settings, b: Book)
    requires s.screen == FocusSessionScreen && s.selectedBook == Some(b)
    ensures var ts := [FinalTick, User(SessionCancel), CompletionFires];
            var (w, fs) := TimedRunAsWritten(TimedFlow(s, None), settings, ts);
            && (!settings.focusRatingEnabled ==>
                  fs == [CallCompleteSession(b.id, None)] && XPOf(fs) == SessionCompleteXP)
            && (settings.focusRatingEnabled ==> w.flow.screen == FocusRatingScreen)
            && TimedRun(TimedFlow(s, None), settings, ts) == (TimedFlow(s.(screen := DashboardScreen), None), [])
  {
    var ts := [FinalTick, User(SessionCancel), CompletionFires];
    var t0 := TimedFlow(s, None);
    var t1 := TimedFlow(s, Some(b));
    var t2 := TimedFlow(s.(screen := DashboardScreen), Some(b));
    assert TimedStepAsWritten(t0, settings, FinalTick) == (t1, []);
    assert TimedStepAsWritten(t1, settings, User(SessionCancel)) == (t2, []);
    assert ts[1..][1..] == [CompletionFires];
    var late := TimedStepAsWritten(t2, settings, CompletionFires);
    assert TimedRunAsWritten(t2, settings, [CompletionFires]) == (late.0, late.1 + []);
    assert XPOf([CallCompleteSession(b.id, None)]) == SessionCompleteXP;
    assert TimedStep(t0, settings, FinalTick) == (t1, []);
    var u2 := TimedFlow(s.(screen := DashboardScreen), None);
    assert TimedStep(t1, settings, User(SessionCancel)) == (u2, []);
    assert TimedStep(u2, settings, CompletionFires) == (u2, []);
    assert [CompletionFires][1..] == [];
    assert TimedRun(u2, settings, []) == (u2, []);
    var none: seq<Effect> := [];
    assert none + none == none;
    assert TimedRun(u2, settings, [CompletionFires]) == (u2, none);
  }
}
