/**
 * The setup wizard (src/components/Setup/index.tsx) as a pure transition
 * function.
 *
 * The component's four pieces of React state form `SetupState`.  Its two async
 * handlers suspend at each `await`; the continuations still waiting for a
 * response are recorded in `Awaiting`, and each response is an `Event` of its
 * own.  Every transition returns the next wizard and the side effects it
 * issued, in issue order.  User events are only delivered to what is on
 * screen: the sign-in form at step 1, the media-server form and its Continue
 * button at step 2, the Finish button at step 3, and a disabled button ignores
 * its click.
 */
module SetupWizard {
  import opened Wrappers

  type Locale = string

  /** The step number as the component stores it. */
  type StepNumber = n: int | 1 <= n <= 3 witness 1

  /** The component's own state. */
  datatype SetupState = SetupState(
    currentStep: StepNumber,
    isUpdating: bool,
    mediaServerSettingsComplete: bool,
    mediaServerType: string)

  /** Suspended async continuations, one count or slot per `await`. */
  datatype Awaiting = Awaiting(
    typeLookups: nat,            // media-server type lookups waiting for the main-settings GET
    initialize: Option<Locale>,  // a finish waiting for the initialize POST, with the locale it captured
    mainPosts: nat)              // finishes waiting for the main-settings POST

  datatype Wizard = Wizard(ui: SetupState, awaiting: Awaiting)

  datatype Event =
    | LoginComplete                            // the sign-in form signals completion
    | MediaServerTypeResolved(reported: string) // the main-settings GET answers with its media-server type
    | MediaServerTypeLookupFailed              // that GET rejects
    | MediaServerFormComplete                  // the Plex or Jellyfin form signals completion
    | ContinueClicked
    | FinishClicked(locale: Locale)            // carries the locale in effect at the click
    | InitializeResponded(initialized: bool)   // the initialize POST answers
    | InitializeFailed                         // the initialize POST rejects
    | MainSettingsPosted                       // the main-settings POST answers
    | MainSettingsPostFailed                   // the main-settings POST rejects

  datatype Effect =
    | GetMain                       // GET /api/v1/settings/main
    | PostInitialize                // POST /api/v1/settings/initialize
    | PostMainLocale(locale: Locale) // POST /api/v1/settings/main with the locale
    | Mutate(key: string)           // invalidate a cache key
    | PushRoot                      // navigate to "/"

  /** The result of one transition. */
  datatype Outcome = Outcome(next: Wizard, effects: seq<Effect>)

  /** The wizard as first rendered. */
  function Init(): (w: Wizard)
    ensures w.ui.currentStep == 1
    ensures !w.ui.isUpdating && !w.ui.mediaServerSettingsComplete
    ensures w.ui.mediaServerType == ""
    ensures w.awaiting.typeLookups == 0 && w.awaiting.initialize.None? && w.awaiting.mainPosts == 0
  {
    Wizard(SetupState(1, false, false, ""), Awaiting(0, None, 0))
  }

  /** The media-server form shown at step 2. */
  datatype Form = PlexForm | JellyfinForm

  /** Which collaborator is mounted, and whether its action button is enabled. */
  datatype Panel =
    | SignInPanel
    | MediaServerPanel(form: Form, continueEnabled: bool)
    | ServicesPanel(finishEnabled: bool)

  /** The Plex form for exactly the type "PLEX"; any other value, the empty one included, gets the Jellyfin form. */
  function FormFor(mediaServerType: string): (f: Form)
    ensures f == PlexForm <==> mediaServerType == "PLEX"
    ensures f == JellyfinForm <==> mediaServerType != "PLEX"
  {
    if mediaServerType == "PLEX" then PlexForm else JellyfinForm
  }

  /** The panel rendered for the current step. */
  function PanelOf(ui: SetupState): (p: Panel)
    ensures p.SignInPanel? <==> ui.currentStep == 1
    ensures p.MediaServerPanel? <==> ui.currentStep == 2
    ensures p.ServicesPanel? <==> ui.currentStep == 3
    ensures p.MediaServerPanel? ==> p.form == FormFor(ui.mediaServerType)
    ensures p.MediaServerPanel? ==> (p.continueEnabled <==> ui.mediaServerSettingsComplete)
    ensures p.ServicesPanel? ==> (p.finishEnabled <==> !ui.isUpdating)
  {
    if ui.currentStep == 1 then SignInPanel
    else if ui.currentStep == 2 then MediaServerPanel(FormFor(ui.mediaServerType), ui.mediaServerSettingsComplete)
    else ServicesPanel(!ui.isUpdating)
  }

  /** One badge of the step indicator. */
  datatype Badge = Badge(active: bool, completed: bool)

  /** Badge k of the indicator; the last badge has no completed mark. */
  function BadgeOf(ui: SetupState, k: StepNumber): (b: Badge)
    ensures b.active <==> ui.currentStep == k
    ensures b.completed <==> ui.currentStep > k
  {
    Badge(ui.currentStep == k, k < 3 && ui.currentStep > k)
  }

  /**
   * The transition function: the handlers of the component, each delivered
   * only while its collaborator or button is on screen and enabled.
   */
  function Step(w: Wizard, e: Event): (r: Outcome)
    // the step moves only to 2 when a lookup answers, or to 3 by an enabled Continue
    ensures r.next.ui.currentStep != w.ui.currentStep ==>
      (e.MediaServerTypeResolved? && w.awaiting.typeLookups > 0 && r.next.ui.currentStep == 2) ||
      (e == ContinueClicked && w.ui.currentStep == 2 && w.ui.mediaServerSettingsComplete &&
       r.next.ui.currentStep == 3)
    // busy is raised only by an enabled Finish and lowered only by an initialize answer
    ensures r.next.ui.isUpdating != w.ui.isUpdating ==>
      (e.FinishClicked? && w.ui.currentStep == 3 && !w.ui.isUpdating && r.next.ui.isUpdating) ||
      (e.InitializeResponded? && w.awaiting.initialize.Some? && !r.next.ui.isUpdating)
    ensures w.ui.mediaServerSettingsComplete ==> r.next.ui.mediaServerSettingsComplete
    // the only effect lists a transition issues, and the events that issue them
    ensures || r.effects == []
            || (r.effects == [GetMain] && e == LoginComplete && w.ui.currentStep == 1)
            || (r.effects == [PostInitialize] && e.FinishClicked? && w.ui.currentStep == 3 &&
                !w.ui.isUpdating && r.next.ui.isUpdating && r.next.awaiting.initialize == Some(e.locale))
            || (w.awaiting.initialize.Some? && e == InitializeResponded(true) &&
                r.effects == [PostMainLocale(w.awaiting.initialize.value)])
            || (r.effects == [Mutate("/api/v1/settings/public"), PushRoot] && e == MainSettingsPosted &&
                w.awaiting.mainPosts > 0)
  {
    var ui := w.ui;
    var aw := w.awaiting;
    var panel := PanelOf(ui);
    match e
    case LoginComplete =>
      if panel.SignInPanel? then
        Outcome(w.(awaiting := aw.(typeLookups := aw.typeLookups + 1)), [GetMain])
      else Outcome(w, [])
    case MediaServerTypeResolved(t) =>
      if aw.typeLookups > 0 then
        Outcome(Wizard(ui.(mediaServerType := t, currentStep := 2),
                       aw.(typeLookups := aw.typeLookups - 1)), [])
      else Outcome(w, [])
    case MediaServerTypeLookupFailed =>
      if aw.typeLookups > 0 then
        Outcome(w.(awaiting := aw.(typeLookups := aw.typeLookups - 1)), [])
      else Outcome(w, [])
    case MediaServerFormComplete =>
      if panel.MediaServerPanel? then
        Outcome(w.(ui := ui.(mediaServerSettingsComplete := true)), [])
      else Outcome(w, [])
    case ContinueClicked =>
      if panel.MediaServerPanel? && panel.continueEnabled then
        Outcome(w.(ui := ui.(currentStep := 3)), [])
      else Outcome(w, [])
    case FinishClicked(locale) =>
      if panel.ServicesPanel? && panel.finishEnabled then
        Outcome(Wizard(ui.(isUpdating := true), aw.(initialize := Some(locale))), [PostInitialize])
      else Outcome(w, [])
    case InitializeResponded(initialized) =>
      if aw.initialize.None? then Outcome(w, [])
      else if initialized then
        Outcome(Wizard(ui.(isUpdating := false),
                       aw.(initialize := None, mainPosts := aw.mainPosts + 1)),
                [PostMainLocale(aw.initialize.value)])
      else
        Outcome(Wizard(ui.(isUpdating := false), aw.(initialize := None)), [])
    case InitializeFailed =>
      if aw.initialize.Some? then
        Outcome(w.(awaiting := aw.(initialize := None)), [])
      else Outcome(w, [])
    case MainSettingsPosted =>
      if aw.mainPosts > 0 then
        Outcome(w.(awaiting := aw.(mainPosts := aw.mainPosts - 1)),
                [Mutate("/api/v1/settings/public"), PushRoot])
      else Outcome(w, [])
    case MainSettingsPostFailed =>
      if aw.mainPosts > 0 then
        Outcome(w.(awaiting := aw.(mainPosts := aw.mainPosts - 1)), [])
      else Outcome(w, [])
  }

  /** A run of events from `w`: the final wizard and every effect issued, in order. */
  function Run(w: Wizard, es: seq<Event>): (r: Outcome)
    ensures |r.effects| <= 2 * |es|
    ensures w.ui.mediaServerSettingsComplete ==> r.next.ui.mediaServerSettingsComplete
    ensures w.ui.currentStep >= 2 ==> r.next.ui.currentStep >= 2
  {
    if |es| == 0 then Outcome(w, [])
    else
      var before := Run(w, es[..|es| - 1]);
      var last := Step(before.next, es[|es| - 1]);
      Outcome(last.next, before.effects + last.effects)
  }
}
