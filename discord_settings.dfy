/**
 * Equality of Discord settings, which decides whether the chat bot restarts:
 * scalar fields compare as they are, array fields compare element by element
 * in order, and a null array counts as an empty one.
 */
module DiscordSettingsEquality {
  import opened Wrappers

  /** The Discord settings; every string and array may be null (`None`). */
  datatype DiscordSettings = DiscordSettings(
    botToken: Option<string>,
    clientId: Option<string>,
    statusMessage: Option<string>,
    monitoredChannels: Option<seq<string>>,
    tvShowRoles: Option<seq<string>>,
    movieRoles: Option<seq<string>>,
    musicRoles: Option<seq<string>>,
    movieDownloadClient: Option<string>,
    movieDownloadClientConfigurationHash: int,
    tvShowDownloadClient: Option<string>,
    tvShowDownloadClientConfigurationHash: int,
    musicDownloadClient: Option<string>,
    musicDownloadClientConfigurationHash: int,
    adminUserIds: Option<seq<string>>,
    adminChannelIds: Option<seq<string>>,
    adminChannelAllRequests: bool,
    enableRequestsThroughDirectMessages: bool,
    automaticallyNotifyRequesters: bool,
    notificationMode: Option<string>,
    notificationChannels: Option<seq<string>>,
    automaticallyPurgeCommandMessages: bool)

  /** What `Equals` may be handed: a settings object, an object of another type, or null. */
  datatype Object = Settings(settings: DiscordSettings) | OtherObject | Null

  /** `(a ?? Array.Empty<string>()).SequenceEqual(b ?? Array.Empty<string>())`. */
  predicate SameArray(a: Option<seq<string>>, b: Option<seq<string>>)
  {
    a.GetOr([]) == b.GetOr([])
  }

  /**
   * `DiscordSettings.Equals`: only settings equal settings, and two settings
   * are equal exactly when they agree once null arrays are made empty.
   */
  function Equals(self: DiscordSettings, obj: Object): (r: bool)
    ensures r ==> obj.Settings?
    ensures obj.Settings? ==> (r <==> Canonical(self) == Canonical(obj.settings))
  {
    obj.Settings? &&
    var other := obj.settings;
    assert Canonical(self) == Canonical(other) ==>
             Canonical(self).monitoredChannels == Canonical(other).monitoredChannels
             && Canonical(self).tvShowRoles == Canonical(other).tvShowRoles
             && Canonical(self).movieRoles == Canonical(other).movieRoles
             && Canonical(self).musicRoles == Canonical(other).musicRoles
             && Canonical(self).adminUserIds == Canonical(other).adminUserIds
             && Canonical(self).adminChannelIds == Canonical(other).adminChannelIds
             && Canonical(self).notificationChannels == Canonical(other).notificationChannels;
    self.botToken == other.botToken &&
    self.clientId == other.clientId &&
    self.statusMessage == other.statusMessage &&
    SameArray(self.monitoredChannels, other.monitoredChannels) &&
    SameArray(self.tvShowRoles, other.tvShowRoles) &&
    SameArray(self.movieRoles, other.movieRoles) &&
    SameArray(self.musicRoles, other.musicRoles) &&
    self.movieDownloadClient == other.movieDownloadClient &&
    self.movieDownloadClientConfigurationHash == other.movieDownloadClientConfigurationHash &&
    self.tvShowDownloadClient == other.tvShowDownloadClient &&
    self.tvShowDownloadClientConfigurationHash == other.tvShowDownloadClientConfigurationHash &&
    self.musicDownloadClient == other.musicDownloadClient &&
    self.musicDownloadClientConfigurationHash == other.musicDownloadClientConfigurationHash &&
    SameArray(self.adminUserIds, other.adminUserIds) &&
    SameArray(self.adminChannelIds, other.adminChannelIds) &&
    self.adminChannelAllRequests == other.adminChannelAllRequests &&
    self.enableRequestsThroughDirectMessages == other.enableRequestsThroughDirectMessages &&
    self.automaticallyNotifyRequesters == other.automaticallyNotifyRequesters &&
    self.notificationMode == other.notificationMode &&
    SameArray(self.notificationChannels, other.notificationChannels) &&
    self.automaticallyPurgeCommandMessages == other.automaticallyPurgeCommandMessages
  }

  /** The settings with every null array replaced by an empty one. */
  function Canonical(s: DiscordSettings): (r: DiscordSettings)
    ensures r.monitoredChannels.Some? && r.tvShowRoles.Some? && r.movieRoles.Some? && r.musicRoles.Some? &&
            r.adminUserIds.Some? && r.adminChannelIds.Some? && r.notificationChannels.Some?
  {
    s.(monitoredChannels := Some(s.monitoredChannels.GetOr([])),
       tvShowRoles := Some(s.tvShowRoles.GetOr([])),
       movieRoles := Some(s.movieRoles.GetOr([])),
       musicRoles := Some(s.musicRoles.GetOr([])),
       adminUserIds := Some(s.adminUserIds.GetOr([])),
       adminChannelIds := Some(s.adminChannelIds.GetOr([])),
       notificationChannels := Some(s.notificationChannels.GetOr([])))
  }

  /** Nothing but a settings object equals settings. */
  lemma OnlySettingsEqual(a: DiscordSettings, obj: Object)
    requires !obj.Settings?
    ensures !Equals(a, obj)
  {
  }

  /** `Equals` is reflexive, symmetric and transitive on settings. */
  lemma EqualsEquivalence(a: DiscordSettings, b: DiscordSettings, c: DiscordSettings)
    ensures Equals(a, Settings(a))
    ensures Equals(a, Settings(b)) ==> Equals(b, Settings(a))
    ensures Equals(a, Settings(b)) && Equals(b, Settings(c)) ==> Equals(a, Settings(c))
  {
  }

  /** A null array and an empty array of monitored channels compare equal. */
  lemma NullArrayEqualsEmpty(a: DiscordSettings)
    ensures Equals(a.(monitoredChannels := None), Settings(a.(monitoredChannels := Some([]))))
  {
  }

  /** Swapping two different monitored channels breaks equality: the arrays compare in order. */
  lemma OrderMatters(a: DiscordSettings, x: string, y: string)
    requires x != y
    ensures !Equals(a.(monitoredChannels := Some([x, y])), Settings(a.(monitoredChannels := Some([y, x]))))
  {
    assert [x, y][0] != [y, x][0];
  }

  /**
   * The restart test of the chat bot's settings poll: the bot restarts when
   * the settings are not `Equals`, the language or the guilds changed, or no
   * client runs, the wait is over and a bot token is set.
   */
  function ShouldRestart(current: DiscordSettings, next: DiscordSettings, languageChanged: bool,
                         guildsChanged: bool, clientRunning: bool, waitTimeout: int, tokenBlank: bool): (r: bool)
    ensures languageChanged || guildsChanged ==> r
    ensures !clientRunning && waitTimeout <= 0 && !tokenBlank ==> r
    ensures !languageChanged && !guildsChanged && clientRunning ==> (r <==> Canonical(current) != Canonical(next))
  {
    !Equals(current, Settings(next)) || languageChanged || guildsChanged ||
    (!clientRunning && waitTimeout <= 0 && !tokenBlank)
  }

  /** Replacing null arrays with empty ones (or back) never by itself restarts a running bot. */
  lemma CanonicalNoRestart(current: DiscordSettings, next: DiscordSettings, waitTimeout: int, tokenBlank: bool)
    requires Canonical(current) == Canonical(next)
    ensures !ShouldRestart(current, next, false, false, true, waitTimeout, tokenBlank)
  {
  }
}
