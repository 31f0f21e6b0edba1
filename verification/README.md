# Setup wizard and public-settings context — a Dafny model

This project models the two pieces of control logic in the front end of a
media-request application (a Jellyfin/Plex request manager):

* **The setup wizard** (`src/components/Setup/index.tsx`). It is a
  three-step onboarding flow:
  1. sign in;
  2. configure the media server, using the Plex or the Jellyfin form;
  3. configure services and press Finish.

  Finish POSTs `/api/v1/settings/initialize`. If the answer says `initialized`,
  the wizard POSTs the locale in effect at the click to `/api/v1/settings/main`.
  Once that POST succeeds, it invalidates the `/api/v1/settings/public` cache
  key and navigates to `/`. A failed POST issues nothing further.
* **The settings context** (`src/context/SettingsContext.tsx`). This is the
  revalidating cache entry for the public settings. It is seeded with the
  snapshot the server supplies. Readers see the cached data when there is data
  and no error. Otherwise they see a fixed default record.

The wizard is a pure transition function `SetupWizard.Step(wizard, event)`.
It returns the next wizard and the effects issued, in order. These effects are
`GetMain`, `PostInitialize`, `PostMainLocale(locale)`, `Mutate(key)` and
`PushRoot`.

The wizard state has two parts:

* the component's four state fields (`SetupState`);
* the async continuations still waiting for an answer (`Awaiting`).

Every `await` in `finishSetup` and `getMediaServerType` becomes a response
event of its own, for success and for rejection. User events reach only what
is on screen, as computed by `SetupWizard.PanelOf`:

* the sign-in form at step 1;
* the media-server form and Continue at step 2;
* Finish at step 3.

A disabled button ignores clicks. `SetupWizard.Run` folds a sequence of events.

The settings context is modelled as follows:

* `PublicSettings.Cache` is a data option plus an error flag.
* `PublicSettings.Visible` is the provider's choice.
* `PublicSettings.Revalidate` is a completed refetch. A fetched snapshot
  replaces the data and clears the error. A failure keeps the stale data and
  raises the error.
* `PublicSettings.Replay` is a seed followed by a history of refetches.
* `PublicSettings.CacheKey` is `/api/v1/settings/public`. The provider reads
  this key, and the wizard writes the same literal when it invalidates the cache.

Modules: `Wrappers` (option type), `PublicSettings` (the context),
`SetupWizard` (state, events, effects, view guards, transitions) and
`SetupTraces` (properties of single transitions and of whole runs, and the link
to the settings context).

## Behaviour of the code worth knowing

* The wizard holds the media-server type as the raw value the main-settings GET
  returns. It starts as the empty string. It is compared with the string
  `"PLEX"`: any other value, `""` included, selects the Jellyfin form.
  Every lookup answer overwrites it, not only the first.
* The step is set to 2 whenever a lookup answers, whatever the current step is
  (`index.tsx:120-122`). The step never decreases if sign-in completion is
  signalled once per outstanding lookup (`SetupTraces.StepNeverDecreases`).
  If the sign-in form signals completion twice before the first lookup
  answers, the late answer takes the wizard from step 3 back to step 2
  (`SetupTraces.RepeatedSignInCanRegressStep`). On such runs the wizard can
  also be busy at step 2, if Finish is pressed before the late answer arrives
  (`SetupTraces.RepeatedSignInLeavesBusyAwayFromFinish`). On runs that sign in
  once, the wizard is busy only at step 3.
* The busy flag is cleared as soon as the initialize POST answers
  (`index.tsx:50`). This happens before the main-settings POST. So Finish is
  enabled again while that POST is outstanding
  (`SetupTraces.FinishReenabledDuringMainPost`). What the guard does ensure is
  that at most one initialize POST is outstanding
  (`SetupTraces.AtMostOneInitialize`).
* A rejected initialize POST leaves the busy flag set for good. Finish is then
  never enabled again (`SetupTraces.FailedFinishStaysBusy`).

## Model

| member | source | states |
|---|---|---|
| PublicSettings.Defaults | src/context/SettingsContext.tsx:10-27 | the fallback record is not initialized, has the title "Overseerr", locale "en", media server not configured, local login and partial requests on, every other toggle off and every other string empty |
| PublicSettings.ContextValue | src/context/SettingsContext.tsx:29-50 | a reader with no provider sees the defaults; under a provider it sees the provider's choice |
| PublicSettings.Seed | src/context/SettingsContext.tsx:37-40 | before any refetch the cache entry holds the caller's seed as its data, with no error |
| PublicSettings.Revalidate | src/context/SettingsContext.tsx:37-40 | a fetched snapshot replaces the data whole and clears the error; a failed fetch keeps the stale data and flags the error |
| PublicSettings.Invalidate | src/context/SettingsContext.tsx:38 | only an invalidation of the provider's own key refetches its entry; any other key leaves it unchanged |
| PublicSettings.Visible | src/context/SettingsContext.tsx:42-46 | the data is visible exactly when present and error-free; otherwise the defaults are |
| PublicSettings.ReplayKeepsLastGood | src/context/SettingsContext.tsx:37-46 | after any seed and refetch history the entry still holds the last good snapshot, and its error flag is set exactly when the latest fetch failed |
| PublicSettings.VisibleAfterHistory | src/context/SettingsContext.tsx:37-46 | readers see the seed before any refetch, the fetched snapshot after a success, and the defaults after a failure even though the last good snapshot is still held |
| PublicSettings.ErrorHidesLastGood | src/context/SettingsContext.tsx:44-46 | with an error, readers see the defaults even when good data is cached, so the application reads as not initialized |
| PublicSettings.FetchReplacesWholeSnapshot | src/context/SettingsContext.tsx:45 | after a successful fetch readers see exactly the fetched snapshot, with nothing merged from earlier data or the defaults |
| SetupWizard.Init | src/components/Setup/index.tsx:34-40 | the wizard starts at step 1, not busy, media-server settings incomplete, type "", nothing awaited |
| SetupWizard.FormFor | src/components/Setup/index.tsx:128-136 | the Plex form is chosen exactly for the type "PLEX"; every other value, "" included, gets the Jellyfin form |
| SetupWizard.PanelOf | src/components/Setup/index.tsx:117-177 | sign-in is mounted exactly at step 1, the media-server form with Continue exactly at step 2 (Continue enabled iff settings complete), services with Finish exactly at step 3 (Finish enabled iff not busy) |
| SetupWizard.Step | src/components/Setup/index.tsx:44-177 | the step changes only to 2 on a lookup answer, or to 3 by an enabled Continue at step 2; busy is raised only by an enabled Finish and lowered only by an initialize answer; the completion flag is never lowered; a transition issues nothing, or the GET on sign-in at step 1, or the initialize POST from an enabled Finish (recording its locale), or the captured locale's POST on `initialized == true`, or the invalidation of `/api/v1/settings/public` then navigation on the main-settings answer |
| SetupWizard.Run | src/components/Setup/index.tsx:44-177 | over any run of events, at most two effects per event, the completion flag is never lowered, and once past sign-in the wizard never returns to step 1 |
| SetupWizard.BadgeOf | src/components/Setup/index.tsx:93-110 | indicator badge k is active iff the step is k and completed iff the step is past k |
| SetupTraces.SignInAdvancesOnlyAfterLookup | src/components/Setup/index.tsx:59-123 | sign-in completion only issues the main-settings GET; its answer moves to step 2 with the type set to exactly the reported value; a failed lookup leaves the wizard at step 1 |
| SetupTraces.ResolvedTypePicksForm | src/components/Setup/index.tsx:119-136 | after the lookup answers, the form shown is Plex iff the reported type is "PLEX" |
| SetupTraces.StepAssignments | src/components/Setup/index.tsx:117-149 | the step changes only to 2 on a lookup answer or to 3 by Continue at step 2; it goes down only when a lookup answers at step 3; the lookup is issued only at step 1 |
| SetupTraces.StepNeverDecreases | src/components/Setup/index.tsx:44-167 | on every run from the start where sign-in is not signalled again over an outstanding lookup, no earlier step number exceeds the current one, and the wizard is busy only at step 3 |
| SetupTraces.RepeatedSignInCanRegressStep | src/components/Setup/index.tsx:119-123 | a concrete run with two sign-in completions reaches step 3 and is then taken back to step 2 by the late lookup answer |
| SetupTraces.RepeatedSignInLeavesBusyAwayFromFinish | src/components/Setup/index.tsx:44-167 | on the same two-sign-in run, a Finish pressed before the late lookup answer leaves the wizard busy at step 2 |
| SetupTraces.ContinueGuard | src/components/Setup/index.tsx:146-149 | Continue does nothing until the media-server settings are complete; then it sets step 3 and changes nothing else |
| SetupTraces.SettingsCompleteOnlyFromForm | src/components/Setup/index.tsx:126-136 | the completion flag is raised only by the media-server form at step 2 and is never lowered |
| SetupTraces.FinishGuard | src/components/Setup/index.tsx:44-167 | Finish at step 3, when not busy, sets busy, records the click's locale and issues only the initialize POST; when busy it does nothing |
| SetupTraces.InitializeResponseClearsBusy | src/components/Setup/index.tsx:46-52 | any initialize answer clears busy; only `initialized == true` POSTs the locale captured at the click, and nothing else changes |
| SetupTraces.InitializeFailureLeavesBusy | src/components/Setup/index.tsx:44-50 | a rejected initialize POST leaves busy set and issues nothing |
| SetupTraces.FailedFinishStaysBusy | src/components/Setup/index.tsx:44-50 | once busy with no initialize outstanding, every later run stays busy and never issues another initialize POST |
| SetupTraces.SuccessfulFinishSequence | src/components/Setup/index.tsx:44-57 | a successful finish issues exactly: initialize POST, main-settings POST with the click's locale, invalidation of the public-settings key, navigation to "/"; busy is clear afterwards |
| SetupTraces.RejectedFinishSequence | src/components/Setup/index.tsx:44-57 | an `initialized == false` answer issues nothing beyond the initialize POST and leaves Finish enabled for a retry |
| SetupTraces.FinishReenabledDuringMainPost | src/components/Setup/index.tsx:50-52 | after a successful initialize answer the main-settings POST is still outstanding while Finish already issues a new initialize POST |
| SetupTraces.ReachableValid | src/components/Setup/index.tsx:44-136 | on every run, an outstanding initialize implies busy, and completed media-server settings imply step 2 or later |
| SetupTraces.AtMostOneInitialize | src/components/Setup/index.tsx:44-48 | in any reachable wizard with an initialize outstanding, Finish is ignored |
| SetupTraces.EffectsOrdered | src/components/Setup/index.tsx:44-57 | on every run, at every point of the effect log, navigations never outnumber invalidations, which never outnumber locale POSTs, which never outnumber initialize POSTs |
| SetupTraces.WizardInvalidatesProviderKey | src/components/Setup/index.tsx:53 | every invalidation the wizard issues on any run names the key the settings provider reads |
| SetupTraces.FinishRefreshesProvider | src/components/Setup/index.tsx:51-55 | the invalidation of a successful finish reaches the provider's entry: readers see the refetched snapshot, or the defaults if the refetch fails |

## Left out

- Layout, styling, the background image fader, the logo, the language picker and the app-data warning: presentation only.
- Message catalog and formatted labels, such as "Finish Setup" and "Finishing…": labels only.
- The sign-in, Plex, Jellyfin and services forms are not part of this model. They contribute only their completion events.
- The HTTP client, the router and the revalidating-cache library are foreign code. Requests, cache invalidation and navigation are effects; their answers are events.
- The cache's request deduplication, refetch timing and stale-while-revalidate scheduling are not modelled. So there is no statement about two invalidations issued before either refetch answers.
- React re-render semantics are not modelled. The lookup handler updates the type and then the step in a chained callback; both updates are one transition here.
- Navigation to "/" unmounts the wizard in the application. The model keeps accepting events afterwards.
- The current locale comes from a locale hook. It is the parameter of the Finish event.
- The server's media-server-type constants and the public-settings response interface are not part of this model. The settings record holds the sixteen fields the defaults list. Its media-server type has the values Plex, Jellyfin, Emby and NotConfigured.
- The media-server type returned by the main-settings GET is taken as any string. The wizard only compares it with "PLEX". Whether the server ever sends exactly that value is outside this model, and nothing ties this string to the settings record's media-server type.
- SetupTraces.StepNeverDecreases: the monotone step and "busy only at step 3" are stated only for runs in which sign-in completion is not signalled again while a lookup is outstanding, because the code does not guard the late step assignment (see `SetupTraces.RepeatedSignInCanRegressStep` and `SetupTraces.RepeatedSignInLeavesBusyAwayFromFinish`).
- SetupTraces.AtMostOneInitialize: bounds outstanding initialize POSTs, not whole finishes, because the busy flag is cleared before the main-settings POST answers.
