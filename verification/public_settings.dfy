/**
 * The public-settings snapshot that the application reads through its settings
 * context (src/context/SettingsContext.tsx).
 *
 * The provider reads one revalidating cache entry, seeded with the snapshot the
 * server handed over at start-up.  Whatever the cache holds, the value shown to
 * readers is either the cached data (when there is data and no error) or the
 * fixed default record.  The cache library itself is abstracted to the two
 * outcomes a revalidation can have: it delivers a new snapshot, which replaces
 * the data and clears the error, or it fails, which sets the error and keeps
 * the stale data.
 */
module PublicSettings {
  import opened Wrappers

  /** The server's media-server kinds; only `NotConfigured` is used by the defaults. */
  datatype MediaServerType = Plex | Jellyfin | Emby | NotConfigured

  /** One public-settings snapshot, field for field as the defaults spell it out. */
  datatype Settings = Settings(
    initialized: bool,
    applicationTitle: string,
    applicationUrl: string,
    hideAvailable: bool,
    localLogin: bool,
    movie4kEnabled: bool,
    series4kEnabled: bool,
    region: string,
    originalLanguage: string,
    mediaServerType: MediaServerType,
    partialRequestsEnabled: bool,
    cacheImages: bool,
    vapidPublic: string,
    enablePushRegistration: bool,
    locale: string,
    emailEnabled: bool)

  /** The cache key the provider reads and the setup wizard invalidates. */
  const CacheKey: string := "/api/v1/settings/public"

  /** The fixed fallback record. */
  function Defaults(): (d: Settings)
    ensures !d.initialized
    ensures d.applicationTitle == "Overseerr"
    ensures d.locale == "en"
    ensures d.mediaServerType == NotConfigured
    ensures d.localLogin && d.partialRequestsEnabled
    ensures !d.hideAvailable && !d.movie4kEnabled && !d.series4kEnabled
    ensures !d.cacheImages && !d.enablePushRegistration && !d.emailEnabled
    ensures d.applicationUrl == "" && d.region == "" && d.originalLanguage == ""
    ensures d.vapidPublic == ""
  {
    Settings(
      initialized := false,
      applicationTitle := "Overseerr",
      applicationUrl := "",
      hideAvailable := false,
      localLogin := true,
      movie4kEnabled := false,
      series4kEnabled := false,
      region := "",
      originalLanguage := "",
      mediaServerType := NotConfigured,
      partialRequestsEnabled := true,
      cacheImages := false,
      vapidPublic := "",
      enablePushRegistration := false,
      locale := "en",
      emailEnabled := false)
  }

  /** The state of the revalidating cache entry: its data, if any, and whether the last fetch failed. */
  datatype Cache = Cache(data: Option<Settings>, error: bool)

  /** The outcome of one revalidation fetch. */
  datatype Fetch = Fetched(snapshot: Settings) | FetchFailed

  /** The cache entry before any revalidation: the seed is its initial data. */
  function Seed(seed: Settings): (c: Cache)
    ensures c.data == Some(seed) && !c.error
  {
    Cache(Some(seed), false)
  }

  /** A completed revalidation: a fetched snapshot replaces the data whole; a failure keeps the stale data but flags the error. */
  function Revalidate(c: Cache, f: Fetch): (c': Cache)
    ensures f.Fetched? ==> c'.data == Some(f.snapshot) && !c'.error
    ensures f.FetchFailed? ==> c'.data == c.data && c'.error
  {
    match f
    case Fetched(s) => Cache(Some(s), false)
    case FetchFailed => Cache(c.data, true)
  }

  /** An invalidation signal followed by its fetch; only the provider's own key touches this entry. */
  function Invalidate(c: Cache, key: string, f: Fetch): (c': Cache)
    ensures key != CacheKey ==> c' == c
    ensures key == CacheKey ==> c' == Revalidate(c, f)
  {
    if key == CacheKey then Revalidate(c, f) else c
  }

  /** The settings the provider passes down. */
  function Visible(c: Cache): (r: Settings)
    ensures c.data.Some? && !c.error ==> r == c.data.value
    ensures c.data.None? || c.error ==> r == Defaults()
  {
    if c.data.Some? && !c.error then c.data.value else Defaults()
  }

  /** What a reader of the context sees: the provider's choice, or the defaults when there is no provider. */
  function ContextValue(provider: Option<Cache>): (r: Settings)
    ensures provider.None? ==> r == Defaults()
    ensures provider.Some? ==> r == Visible(provider.value)
  {
    match provider
    case None => Defaults()
    case Some(c) => Visible(c)
  }

  /** The cache entry after a seed and a history of completed revalidations, oldest first. */
  function Replay(seed: Settings, history: seq<Fetch>): (c: Cache)
  {
    if |history| == 0 then Seed(seed)
    else Revalidate(Replay(seed, history[..|history| - 1]), history[|history| - 1])
  }

  /** The last snapshot that arrived intact: the latest fetched one, or the seed. */
  function LastGood(seed: Settings, history: seq<Fetch>): (s: Settings)
  {
    if |history| == 0 then seed
    else match history[|history| - 1]
      case Fetched(s) => s
      case FetchFailed => LastGood(seed, history[..|history| - 1])
  }

  /** A seeded entry never loses its data: it always holds the last good snapshot, failures included. */
  lemma {:induction false} ReplayKeepsLastGood(seed: Settings, history: seq<Fetch>)
    ensures Replay(seed, history).data == Some(LastGood(seed, history))
    ensures Replay(seed, history).error <==> |history| > 0 && history[|history| - 1].FetchFailed?
  {
    if |history| > 0 {
      ReplayKeepsLastGood(seed, history[..|history| - 1]);
    }
  }

  /**
   * The visible value after any history: the seed before any revalidation, the
   * last good snapshot while the latest fetch succeeded, and the defaults after a
   * failure even though a good snapshot is still held.
   */
  lemma {:induction false} VisibleAfterHistory(seed: Settings, history: seq<Fetch>)
    ensures |history| == 0 ==> Visible(Replay(seed, history)) == seed
    ensures |history| > 0 && history[|history| - 1].Fetched? ==>
      Visible(Replay(seed, history)) == history[|history| - 1].snapshot
    ensures |history| > 0 && history[|history| - 1].FetchFailed? ==>
      Visible(Replay(seed, history)) == Defaults() &&
      Replay(seed, history).data == Some(LastGood(seed, history))
  {
    ReplayKeepsLastGood(seed, history);
  }

  /** An error hides any data, however good: the application then sees itself as not initialized. */
  lemma ErrorHidesLastGood(c: Cache)
    requires c.error
    ensures Visible(c) == Defaults()
    ensures !Visible(c).initialized && Visible(c).mediaServerType == NotConfigured
  {
  }

  /** A successful revalidation shows exactly the fetched snapshot, whatever the entry held before. */
  lemma FetchReplacesWholeSnapshot(c: Cache, s: Settings)
    ensures Visible(Revalidate(c, Fetched(s))) == s
  {
  }
}
