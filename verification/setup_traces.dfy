/**
 * Properties of the setup wizard over single transitions and whole runs, and
 * the link between its cache invalidation and the public-settings provider.
 */
module SetupTraces {
  import opened Wrappers
  import opened SetupWizard
  import PublicSettings

  /** A non-empty run is the run of all but its last event, followed by that event. */
  lemma RunLast(w: Wizard, es: seq<Event>)
    requires |es| > 0
    ensures var before := Run(w, es[..|es| - 1]);
      var last := Step(before.next, es[|es| - 1]);
      Run(w, es) == Outcome(last.next, before.effects + last.effects)
  {
  }

  /** A run of one event is that event's transition. */
  lemma RunOne(w: Wizard, e: Event)
    ensures Run(w, [e]) == Step(w, e)
  {
    RunLast(w, [e]);
    assert [e][..0] == [];
    assert [] + Step(w, e).effects == Step(w, e).effects;
  }

  /** A run of two events. */
  lemma RunTwo(w: Wizard, e1: Event, e2: Event)
    ensures Run(w, [e1, e2]).next == Step(Step(w, e1).next, e2).next
    ensures Run(w, [e1, e2]).effects == Step(w, e1).effects + Step(Step(w, e1).next, e2).effects
  {
    RunLast(w, [e1, e2]);
    assert [e1, e2][..1] == [e1];
    RunOne(w, e1);
  }

  /** A run of three events. */
  lemma RunThree(w: Wizard, e1: Event, e2: Event, e3: Event)
    ensures var o1 := Step(w, e1);
      var o2 := Step(o1.next, e2);
      var o3 := Step(o2.next, e3);
      Run(w, [e1, e2, e3]) == Outcome(o3.next, o1.effects + o2.effects + o3.effects)
  {
    RunLast(w, [e1, e2, e3]);
    assert [e1, e2, e3][..2] == [e1, e2];
    RunTwo(w, e1, e2);
  }

  // ---------------------------------------------------------------------------
  // Sign-in and the media-server type lookup
  // ---------------------------------------------------------------------------

  /**
   * Sign-in completion only issues the main-settings GET; the wizard reaches
   * step 2 when that GET answers, holding exactly the reported type.  A failed
   * lookup leaves the wizard at step 1.
   */
  lemma SignInAdvancesOnlyAfterLookup(w: Wizard, t: string)
    requires w.ui.currentStep == 1
    ensures Step(w, LoginComplete).effects == [GetMain]
    ensures Step(w, LoginComplete).next.ui == w.ui
    ensures Run(w, [LoginComplete, MediaServerTypeResolved(t)]).effects == [GetMain]
    ensures Run(w, [LoginComplete, MediaServerTypeResolved(t)]).next.ui
         == w.ui.(currentStep := 2, mediaServerType := t)
    ensures Run(w, [LoginComplete, MediaServerTypeLookupFailed]).next == w
  {
    RunTwo(w, LoginComplete, MediaServerTypeResolved(t));
    RunTwo(w, LoginComplete, MediaServerTypeLookupFailed);
  }

  /** The form shown after the lookup answers depends on the reported type alone. */
  lemma ResolvedTypePicksForm(w: Wizard, t: string)
    requires w.awaiting.typeLookups > 0
    ensures PanelOf(Step(w, MediaServerTypeResolved(t)).next.ui)
         == MediaServerPanel(FormFor(t), w.ui.mediaServerSettingsComplete)
    ensures PanelOf(Step(w, MediaServerTypeResolved(t)).next.ui).form == PlexForm <==> t == "PLEX"
  {
  }

  // ---------------------------------------------------------------------------
  // The step number
  // ---------------------------------------------------------------------------

  /**
   * The only step assignments: to 2 when a lookup answers, and to 3 by an enabled
   * Continue at step 2.  The lookup is only issued at step 1, so the only way
   * down is a lookup answering once the wizard has already reached step 3.
   */
  lemma StepAssignments(w: Wizard, e: Event)
    ensures var w' := Step(w, e).next;
      w'.ui.currentStep != w.ui.currentStep ==>
        (e.MediaServerTypeResolved? && w.awaiting.typeLookups > 0 && w'.ui.currentStep == 2) ||
        (e == ContinueClicked && w.ui.currentStep == 2 && w'.ui.currentStep == 3)
    ensures Step(w, e).next.ui.currentStep < w.ui.currentStep ==>
      e.MediaServerTypeResolved? && w.ui.currentStep == 3
    ensures GetMain in Step(w, e).effects ==> w.ui.currentStep == 1 && e == LoginComplete
  {
  }

  /** At most one lookup outstanding, and only while still at step 1; busy only at step 3. */
  ghost predicate Orderly(w: Wizard)
  {
    && (w.awaiting.typeLookups > 0 ==> w.awaiting.typeLookups == 1 && w.ui.currentStep == 1)
    && (w.ui.isUpdating ==> w.ui.currentStep == 3)
  }

  /** Sign-in completion is not signalled again while a lookup is outstanding. */
  ghost predicate SignInOnce(w: Wizard, e: Event)
  {
    !(e.LoginComplete? && w.awaiting.typeLookups > 0)
  }

  /** Every event of the run, delivered in the wizard it meets, respects `SignInOnce`. */
  ghost predicate SignsInOnce(w: Wizard, es: seq<Event>)
  {
    forall i :: 0 <= i < |es| ==> SignInOnce(Run(w, es[..i]).next, es[i])
  }

  lemma StepKeepsOrderly(w: Wizard, e: Event)
    requires Orderly(w) && SignInOnce(w, e)
    ensures Orderly(Step(w, e).next)
    ensures Step(w, e).next.ui.currentStep >= w.ui.currentStep
  {
  }

  /**
   * On every run from the initial wizard in which sign-in completion is not
   * signalled twice over an outstanding lookup, no earlier step number exceeds
   * the current one, and the wizard is busy only at step 3.
   */
  lemma {:induction false} StepNeverDecreases(es: seq<Event>)
    requires SignsInOnce(Init(), es)
    ensures Orderly(Run(Init(), es).next)
    ensures Run(Init(), es).next.ui.isUpdating ==> Run(Init(), es).next.ui.currentStep == 3
    ensures forall i :: 0 <= i <= |es| ==>
      Run(Init(), es[..i]).next.ui.currentStep <= Run(Init(), es).next.ui.currentStep
  {
    if |es| == 0 {
      assert es[..0] == es;
    } else {
      var p := es[..|es| - 1];
      SignsInOncePrefix(Init(), es);
      StepNeverDecreases(p);
      var before := Run(Init(), p).next;
      StepKeepsOrderly(before, es[|es| - 1]);
      RunLast(Init(), es);
      var now := Run(Init(), es).next;
      assert now == Step(before, es[|es| - 1]).next;
      forall i | 0 <= i <= |es|
        ensures Run(Init(), es[..i]).next.ui.currentStep <= now.ui.currentStep
      {
        if i < |es| {
          assert es[..i] == p[..i];
        } else {
          assert es[..i] == es;
        }
      }
    }
  }

  /** A run that signs in once is, up to its last event, a run that signs in once, and its last event respects the rule. */
  lemma SignsInOncePrefix(w: Wizard, es: seq<Event>)
    requires |es| > 0 && SignsInOnce(w, es)
    ensures SignsInOnce(w, es[..|es| - 1])
    ensures SignInOnce(Run(w, es[..|es| - 1]).next, es[|es| - 1])
  {
    var p := es[..|es| - 1];
    forall i | 0 <= i < |p|
      ensures SignInOnce(Run(w, p[..i]).next, p[i])
    {
      assert p[..i] == es[..i];
    }
  }

  /** The events of a run in which sign-in completion is signalled twice before the lookup answers. */
  function TwoSignIns(): (es: seq<Event>)
    ensures |es| == 5 && es[0] == es[1] == LoginComplete
  {
    [LoginComplete, LoginComplete, MediaServerTypeResolved("PLEX"), MediaServerFormComplete, ContinueClicked]
  }

  /** After `TwoSignIns` the wizard is at step 3, not busy, with the second lookup still outstanding. */
  lemma TwoSignInsReachStepThree()
    ensures Run(Init(), TwoSignIns()).next
         == Wizard(SetupState(3, false, true, "PLEX"), Awaiting(1, None, 0))
  {
    var es := TwoSignIns();
    var w1 := Step(Init(), es[0]).next;
    assert es[..1][..0] == [];
    assert Run(Init(), es[..1]).next == w1;
    var w2 := Step(w1, es[1]).next;
    assert es[..2][..1] == es[..1];
    assert Run(Init(), es[..2]).next == w2;
    var w3 := Step(w2, es[2]).next;
    assert es[..3][..2] == es[..2];
    assert Run(Init(), es[..3]).next == w3;
    var w4 := Step(w3, es[3]).next;
    assert es[..4][..3] == es[..3];
    assert Run(Init(), es[..4]).next == w4;
    assert es[..4] == es[..|es| - 1];
  }

  /** Sign-in completion signalled twice at step 1 lets the late lookup answer take step 3 back to 2. */
  lemma RepeatedSignInCanRegressStep()
    ensures Run(Init(), TwoSignIns()).next.ui.currentStep == 3
    ensures Run(Init(), TwoSignIns() + [MediaServerTypeResolved("PLEX")]).next.ui.currentStep == 2
  {
    TwoSignInsReachStepThree();
    var es := TwoSignIns() + [MediaServerTypeResolved("PLEX")];
    RunLast(Init(), es);
    assert es[..|es| - 1] == TwoSignIns();
  }

  /** On the same run, a Finish pressed before the late lookup answers leaves the wizard busy at step 2. */
  lemma RepeatedSignInLeavesBusyAwayFromFinish()
    ensures var w := Run(Init(), TwoSignIns() + [FinishClicked("en"), MediaServerTypeResolved("PLEX")]).next;
      w.ui.isUpdating && w.ui.currentStep == 2
  {
    TwoSignInsReachStepThree();
    var w5 := Wizard(SetupState(3, false, true, "PLEX"), Awaiting(1, None, 0));
    var w6 := Wizard(SetupState(3, true, true, "PLEX"), Awaiting(1, Some("en"), 0));
    assert Step(w5, FinishClicked("en")) == Outcome(w6, [PostInitialize]);
    assert Step(w6, MediaServerTypeResolved("PLEX")).next.ui == SetupState(2, true, true, "PLEX");
    var front := TwoSignIns() + [FinishClicked("en")];
    var es := front + [MediaServerTypeResolved("PLEX")];
    assert Run(Init(), front).next == w6 by {
      RunLast(Init(), front);
      assert front[..|front| - 1] == TwoSignIns();
    }
    assert es[..|es| - 1] == front;
    assert es == TwoSignIns() + [FinishClicked("en"), MediaServerTypeResolved("PLEX")];
    RunLast(Init(), es);
    assert Run(Init(), es).next == Step(w6, MediaServerTypeResolved("PLEX")).next;
  }

  // ---------------------------------------------------------------------------
  // Media-server form and Continue
  // ---------------------------------------------------------------------------

  /** Continue does nothing until the media-server settings are complete; then it sets step 3 and nothing else. */
  lemma ContinueGuard(w: Wizard)
    ensures w.ui.currentStep != 2 || !w.ui.mediaServerSettingsComplete ==>
      Step(w, ContinueClicked) == Outcome(w, [])
    ensures w.ui.currentStep == 2 && w.ui.mediaServerSettingsComplete ==>
      Step(w, ContinueClicked) == Outcome(w.(ui := w.ui.(currentStep := 3)), [])
  {
  }

  /** The completion flag is raised only by the media-server form at step 2, and never lowered. */
  lemma SettingsCompleteOnlyFromForm(w: Wizard, e: Event)
    ensures !w.ui.mediaServerSettingsComplete && Step(w, e).next.ui.mediaServerSettingsComplete ==>
      e == MediaServerFormComplete && w.ui.currentStep == 2
    ensures w.ui.mediaServerSettingsComplete ==> Step(w, e).next.ui.mediaServerSettingsComplete
  {
  }

  // ---------------------------------------------------------------------------
  // Finishing
  // ---------------------------------------------------------------------------

  /** Finish at step 3 marks the wizard busy as it issues the initialize POST; while busy it is ignored. */
  lemma FinishGuard(w: Wizard, locale: Locale)
    ensures w.ui.currentStep == 3 && !w.ui.isUpdating ==>
      Step(w, FinishClicked(locale))
      == Outcome(Wizard(w.ui.(isUpdating := true), w.awaiting.(initialize := Some(locale))), [PostInitialize])
    ensures w.ui.currentStep != 3 || w.ui.isUpdating ==>
      Step(w, FinishClicked(locale)) == Outcome(w, [])
  {
  }

  /**
   * Any initialize answer clears the busy flag; only `initialized == true`
   * goes on to POST the locale captured at the click.
   */
  lemma InitializeResponseClearsBusy(w: Wizard, initialized: bool)
    requires w.awaiting.initialize.Some?
    ensures Step(w, InitializeResponded(initialized)).next.ui == w.ui.(isUpdating := false)
    ensures Step(w, InitializeResponded(initialized)).effects
         == if initialized then [PostMainLocale(w.awaiting.initialize.value)] else []
  {
  }

  /** A rejected initialize POST leaves the wizard busy and issues nothing. */
  lemma InitializeFailureLeavesBusy(w: Wizard)
    requires w.awaiting.initialize.Some?
    ensures Step(w, InitializeFailed).next.ui == w.ui
    ensures Step(w, InitializeFailed).next.awaiting.initialize.None?
    ensures Step(w, InitializeFailed).effects == []
  {
  }

  /** Once busy with no initialize outstanding, the wizard stays busy for good and never initializes again. */
  lemma {:induction false} FailedFinishStaysBusy(w: Wizard, es: seq<Event>)
    requires w.ui.isUpdating && w.awaiting.initialize.None?
    ensures Run(w, es).next.ui.isUpdating
    ensures Run(w, es).next.awaiting.initialize.None?
    ensures PostInitialize !in Run(w, es).effects
  {
    if |es| > 0 {
      var p := es[..|es| - 1];
      FailedFinishStaysBusy(w, p);
      RunLast(w, es);
      StepStaysBusy(Run(w, p).next, es[|es| - 1]);
    }
  }

  lemma StepStaysBusy(w: Wizard, e: Event)
    requires w.ui.isUpdating && w.awaiting.initialize.None?
    ensures Step(w, e).next.ui.isUpdating && Step(w, e).next.awaiting.initialize.None?
    ensures PostInitialize !in Step(w, e).effects
  {
  }

  /**
   * A successful finish issues, in order: the initialize POST, the main-settings
   * POST with the click's locale, the invalidation of the public-settings key,
   * and navigation to the root; the busy flag is clear afterwards.
   */
  lemma SuccessfulFinishSequence(w: Wizard, locale: Locale)
    requires w.ui.currentStep == 3 && !w.ui.isUpdating
    ensures var o := Run(w, [FinishClicked(locale), InitializeResponded(true), MainSettingsPosted]);
      o.effects == [PostInitialize, PostMainLocale(locale), Mutate(PublicSettings.CacheKey), PushRoot] &&
      o.next.ui == w.ui
  {
    SuccessfulFinishSteps(w, locale);
    RunThree(w, FinishClicked(locale), InitializeResponded(true), MainSettingsPosted);
  }

  /** `SuccessfulFinishSequence`, one transition at a time. */
  lemma SuccessfulFinishSteps(w: Wizard, locale: Locale)
    requires w.ui.currentStep == 3 && !w.ui.isUpdating
    ensures var o1 := Step(w, FinishClicked(locale));
      var o2 := Step(o1.next, InitializeResponded(true));
      var o3 := Step(o2.next, MainSettingsPosted);
      o1.effects + o2.effects + o3.effects
        == [PostInitialize, PostMainLocale(locale), Mutate(PublicSettings.CacheKey), PushRoot] &&
      o3.next.ui == w.ui
  {
  }

  /** A rejected finish issues only the initialize POST and leaves Finish enabled for another try. */
  lemma RejectedFinishSequence(w: Wizard, locale: Locale)
    requires w.ui.currentStep == 3 && !w.ui.isUpdating
    ensures var o := Run(w, [FinishClicked(locale), InitializeResponded(false)]);
      o.effects == [PostInitialize] && o.next.ui == w.ui &&
      PanelOf(o.next.ui) == ServicesPanel(true)
  {
    RejectedFinishSteps(w, locale);
    RunTwo(w, FinishClicked(locale), InitializeResponded(false));
  }

  /** `RejectedFinishSequence`, one transition at a time. */
  lemma RejectedFinishSteps(w: Wizard, locale: Locale)
    requires w.ui.currentStep == 3 && !w.ui.isUpdating
    ensures var o1 := Step(w, FinishClicked(locale));
      var o2 := Step(o1.next, InitializeResponded(false));
      o1.effects + o2.effects == [PostInitialize] && o2.next.ui == w.ui
  {
  }

  /** The busy flag is cleared before the main-settings POST answers, so Finish is enabled again meanwhile. */
  lemma FinishReenabledDuringMainPost(w: Wizard, locale: Locale)
    requires w.ui.currentStep == 3 && !w.ui.isUpdating
    ensures var o := Run(w, [FinishClicked(locale), InitializeResponded(true)]);
      o.next.awaiting.mainPosts > 0 &&
      Step(o.next, FinishClicked(locale)).effects == [PostInitialize]
  {
    FinishReenabledSteps(w, locale);
    RunTwo(w, FinishClicked(locale), InitializeResponded(true));
  }

  /** `FinishReenabledDuringMainPost`, one transition at a time. */
  lemma FinishReenabledSteps(w: Wizard, locale: Locale)
    requires w.ui.currentStep == 3 && !w.ui.isUpdating
    ensures var o1 := Step(w, FinishClicked(locale));
      var o2 := Step(o1.next, InitializeResponded(true));
      o2.next.awaiting.mainPosts > 0 && Step(o2.next, FinishClicked(locale)).effects == [PostInitialize]
  {
  }

  // ---------------------------------------------------------------------------
  // Invariants of every run
  // ---------------------------------------------------------------------------

  /** An outstanding initialize implies busy; completion implies the media-server step was reached. */
  ghost predicate Valid(w: Wizard)
  {
    && (w.awaiting.initialize.Some? ==> w.ui.isUpdating)
    && (w.ui.mediaServerSettingsComplete ==> w.ui.currentStep >= 2)
  }

  lemma {:induction false} ReachableValid(es: seq<Event>)
    ensures Valid(Run(Init(), es).next)
  {
    if |es| > 0 {
      ReachableValid(es[..|es| - 1]);
      RunLast(Init(), es);
      StepKeepsValid(Run(Init(), es[..|es| - 1]).next, es[|es| - 1]);
    }
  }

  lemma StepKeepsValid(w: Wizard, e: Event)
    requires Valid(w)
    ensures Valid(Step(w, e).next)
  {
  }

  /** With an initialize outstanding, Finish is ignored: at most one initialize is ever in flight. */
  lemma AtMostOneInitialize(w: Wizard, locale: Locale)
    requires Valid(w) && w.awaiting.initialize.Some?
    ensures Step(w, FinishClicked(locale)) == Outcome(w, [])
  {
  }

  /** The effects whose order matters. */
  datatype Kind = InitializeKind | MainPostKind | MutateKind | PushKind | OtherKind

  function KindOf(f: Effect): (k: Kind)
  {
    match f
    case PostInitialize => InitializeKind
    case PostMainLocale(_) => MainPostKind
    case Mutate(_) => MutateKind
    case PushRoot => PushKind
    case GetMain => OtherKind
  }

  /** How many effects of kind `k` the log holds. */
  function Count(log: seq<Effect>, k: Kind): (n: nat)
  {
    if |log| == 0 then 0
    else Count(log[..|log| - 1], k) + (if KindOf(log[|log| - 1]) == k then 1 else 0)
  }

  /** Appending one effect adds one to its own kind's count and nothing to the others. */
  lemma CountSnoc(log: seq<Effect>, f: Effect)
    ensures forall k :: Count(log + [f], k) == Count(log, k) + (if KindOf(f) == k then 1 else 0)
  {
    assert (log + [f])[..|log|] == log;
  }

  /** No navigation without an invalidation, none without a locale POST, none without an initialize POST. */
  ghost predicate Chain(log: seq<Effect>)
  {
    Count(log, PushKind) <= Count(log, MutateKind) <= Count(log, MainPostKind) <= Count(log, InitializeKind)
  }

  /** `Chain` holds at every point of the log. */
  ghost predicate PrefixChained(log: seq<Effect>)
  {
    forall n :: 0 <= n <= |log| ==> Chain(log[..n])
  }

  /**
   * The effect counts, with the follow-up effects still owed: one locale POST
   * if an initialize is outstanding (`initializing`), and an invalidation per
   * outstanding main-settings POST.
   */
  ghost predicate Owed(initializing: bool, mainPosts: nat, log: seq<Effect>)
  {
    && Count(log, MainPostKind) + (if initializing then 1 else 0) <= Count(log, InitializeKind)
    && Count(log, MutateKind) + mainPosts <= Count(log, MainPostKind)
    && Count(log, PushKind) == Count(log, MutateKind)
  }

  ghost predicate Accounts(w: Wizard, log: seq<Effect>)
  {
    Owed(w.awaiting.initialize.Some?, w.awaiting.mainPosts, log)
  }

  /** The effects one transition may issue, with how it changes what is outstanding. */
  ghost predicate Shape(i: bool, m: nat, effs: seq<Effect>, i': bool, m': nat)
  {
    || (effs == [] && m' <= m && (i' ==> i))
    || (|effs| == 1 && KindOf(effs[0]) == OtherKind && m' == m && i' == i)
    || (|effs| == 1 && KindOf(effs[0]) == InitializeKind && m' == m && i')
    || (|effs| == 1 && KindOf(effs[0]) == MainPostKind && i && !i' && m' == m + 1)
    || (|effs| == 2 && KindOf(effs[0]) == MutateKind && KindOf(effs[1]) == PushKind
        && m > 0 && m' == m - 1 && i' == i)
  }

  lemma StepShape(w: Wizard, e: Event)
    ensures Shape(w.awaiting.initialize.Some?, w.awaiting.mainPosts, Step(w, e).effects,
                  Step(w, e).next.awaiting.initialize.Some?, Step(w, e).next.awaiting.mainPosts)
  {
  }

  lemma PrefixSnoc(log: seq<Effect>, f: Effect)
    requires PrefixChained(log) && Chain(log + [f])
    ensures PrefixChained(log + [f])
  {
    forall n | 0 <= n <= |log| + 1
      ensures Chain((log + [f])[..n])
    {
      if n <= |log| {
        assert (log + [f])[..n] == log[..n];
      } else {
        assert (log + [f])[..n] == log + [f];
      }
    }
  }

  /** One request effect: an unordered GET, an initialize POST, or a locale POST owed by an initialize. */
  lemma AppendSingle(i: bool, m: nat, log: seq<Effect>, f: Effect, i': bool, m': nat)
    requires Owed(i, m, log) && PrefixChained(log)
    requires || (KindOf(f) == OtherKind && m' == m && i' == i)
             || (KindOf(f) == InitializeKind && m' == m && i')
             || (KindOf(f) == MainPostKind && i && !i' && m' == m + 1)
    ensures Owed(i', m', log + [f]) && PrefixChained(log + [f])
  {
    CountSnoc(log, f);
    assert Chain(log + [f]);
    PrefixSnoc(log, f);
  }

  /** An invalidation then a navigation, owed by an outstanding locale POST. */
  lemma AppendPair(i: bool, m: nat, log: seq<Effect>, f: Effect, g: Effect, i': bool, m': nat)
    requires Owed(i, m, log) && PrefixChained(log)
    requires KindOf(f) == MutateKind && KindOf(g) == PushKind && m > 0 && m' == m - 1 && i' == i
    ensures Owed(i', m', log + [f] + [g]) && PrefixChained(log + [f] + [g])
  {
    var one := log + [f];
    CountSnoc(log, f);
    assert Chain(one);
    PrefixSnoc(log, f);
    CountSnoc(one, g);
    assert Chain(one + [g]);
    PrefixSnoc(one, g);
  }

  lemma AppendKeepsOrder(i: bool, m: nat, log: seq<Effect>, effs: seq<Effect>, i': bool, m': nat)
    requires Owed(i, m, log) && PrefixChained(log) && Shape(i, m, effs, i', m')
    ensures Owed(i', m', log + effs) && PrefixChained(log + effs)
  {
    if |effs| == 0 {
      assert log + effs == log;
    } else if |effs| == 1 {
      assert log + effs == log + [effs[0]];
      AppendSingle(i, m, log, effs[0], i', m');
    } else {
      assert log + effs == log + [effs[0]] + [effs[1]];
      AppendPair(i, m, log, effs[0], effs[1], i', m');
    }
  }

  lemma StepKeepsOrder(w: Wizard, log: seq<Effect>, e: Event)
    requires Accounts(w, log) && PrefixChained(log)
    ensures Accounts(Step(w, e).next, log + Step(w, e).effects)
    ensures PrefixChained(log + Step(w, e).effects)
  {
    StepShape(w, e);
    AppendKeepsOrder(w.awaiting.initialize.Some?, w.awaiting.mainPosts, log, Step(w, e).effects,
                     Step(w, e).next.awaiting.initialize.Some?, Step(w, e).next.awaiting.mainPosts);
  }

  /**
   * On every run from the initial wizard, at every point of the effect log,
   * navigations never outnumber invalidations, invalidations never outnumber
   * locale POSTs, and locale POSTs never outnumber initialize POSTs.
   */
  lemma {:induction false} EffectsOrdered(es: seq<Event>)
    ensures Accounts(Run(Init(), es).next, Run(Init(), es).effects)
    ensures PrefixChained(Run(Init(), es).effects)
  {
    if |es| == 0 {
      assert Run(Init(), es).effects == [];
    } else {
      var p := es[..|es| - 1];
      EffectsOrdered(p);
      var before := Run(Init(), p);
      StepKeepsOrder(before.next, before.effects, es[|es| - 1]);
    }
  }

  // ---------------------------------------------------------------------------
  // Link with the public-settings provider
  // ---------------------------------------------------------------------------

  /** Every invalidation the wizard issues, on any run, names the provider's cache key. */
  lemma {:induction false} WizardInvalidatesProviderKey(w: Wizard, es: seq<Event>)
    ensures forall f :: f in Run(w, es).effects && f.Mutate? ==> f.key == PublicSettings.CacheKey
  {
    if |es| > 0 {
      WizardInvalidatesProviderKey(w, es[..|es| - 1]);
    }
  }

  /**
   * The provider sees the invalidation of a successful finish: once the refetch
   * lands, readers see the fetched snapshot; if it fails, they see the defaults.
   */
  lemma FinishRefreshesProvider(w: Wizard, locale: Locale, c: PublicSettings.Cache, f: PublicSettings.Fetch)
    requires w.ui.currentStep == 3 && !w.ui.isUpdating
    ensures var o := Run(w, [FinishClicked(locale), InitializeResponded(true), MainSettingsPosted]);
      exists key :: Mutate(key) in o.effects
    ensures var o := Run(w, [FinishClicked(locale), InitializeResponded(true), MainSettingsPosted]);
      forall key :: Mutate(key) in o.effects ==>
        (f.Fetched? ==> PublicSettings.Visible(PublicSettings.Invalidate(c, key, f)) == f.snapshot) &&
        (f.FetchFailed? ==> PublicSettings.Visible(PublicSettings.Invalidate(c, key, f)) == PublicSettings.Defaults())
  {
    SuccessfulFinishSequence(w, locale);
    var o := Run(w, [FinishClicked(locale), InitializeResponded(true), MainSettingsPosted]);
    assert o.effects[2] == Mutate(PublicSettings.CacheKey);
  }
}
