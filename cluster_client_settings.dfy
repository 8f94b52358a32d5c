/**
 * The settings of a cluster client: immutable values built by a validating constructor,
 * copied field by field by the `With*` methods, and read from the `akka.cluster.client`
 * configuration section. Durations are in ticks (100 ns).
 */
module ClusterClientSettingsModel {
  import opened Wrappers
  import opened Hocon

  /** A receptionist's actor path; its parsing is not modelled. */
  datatype ActorPath = ActorPath(text: string)

  /** Contact-discovery settings, read from configuration elsewhere; only their identity matters. */
  datatype DiscoverySettings = DiscoverySettings(id: nat)

  /** The settings used when none are given. */
  const EmptyDiscovery: DiscoverySettings := DiscoverySettings(0)

  /** The largest accepted buffer size. */
  const MaxBufferSize: int := 10000

  datatype SettingsError =
    /** The buffer size lies outside 0..10000. */
    | BufferSizeOutOfRange
    /** `WithInitialContacts` was given no contact. */
    | NoInitialContacts
    | Config(error: ConfigError)

  datatype ClusterClientSettings = ClusterClientSettings(
    initialContacts: set<ActorPath>,
    establishingGetContactsInterval: int,
    refreshContactsInterval: int,
    heartbeatInterval: int,
    acceptableHeartbeatPause: int,
    bufferSize: int,
    reconnectTimeout: Option<int>,
    useLegacySerialization: bool,
    useInitialContactDiscovery: bool,
    discoverySettings: DiscoverySettings,
    verboseLogging: bool)

  /** What every constructed value satisfies. */
  predicate Valid(s: ClusterClientSettings) {
    0 <= s.bufferSize <= MaxBufferSize
  }

  /**
   * The main constructor: rejects a buffer size outside 0..10000 and replaces absent
   * discovery settings by the empty ones; every other argument is kept as given.
   */
  function New(
    initialContacts: set<ActorPath>,
    establishingGetContactsInterval: int,
    refreshContactsInterval: int,
    heartbeatInterval: int,
    acceptableHeartbeatPause: int,
    bufferSize: int,
    useLegacySerialization: bool,
    useInitialContactsDiscovery: bool,
    discoverySettings: Option<DiscoverySettings>,
    reconnectTimeout: Option<int>,
    verboseLogging: bool): (r: Result<ClusterClientSettings, SettingsError>)
    ensures r.Success? <==> 0 <= bufferSize <= MaxBufferSize
    ensures r.Failure? ==> r.error == BufferSizeOutOfRange
    ensures r.Success? ==> Valid(r.value)
    ensures r.Success? ==>
      r.value.discoverySettings == (if discoverySettings.Some? then discoverySettings.value else EmptyDiscovery)
    ensures r.Success? ==> r.value == ClusterClientSettings(
      initialContacts, establishingGetContactsInterval, refreshContactsInterval, heartbeatInterval,
      acceptableHeartbeatPause, bufferSize, reconnectTimeout, useLegacySerialization,
      useInitialContactsDiscovery, r.value.discoverySettings, verboseLogging)
  {
    if bufferSize < 0 || bufferSize > MaxBufferSize then Failure(BufferSizeOutOfRange)
    else
      Success(ClusterClientSettings(
        initialContacts, establishingGetContactsInterval, refreshContactsInterval, heartbeatInterval,
        acceptableHeartbeatPause, bufferSize, reconnectTimeout, useLegacySerialization,
        useInitialContactsDiscovery, discoverySettings.GetOr(EmptyDiscovery), verboseLogging))
  }

  /**
   * The oldest (obsolete) constructor: legacy serialization on, no contact discovery,
   * the empty discovery settings and no verbose logging.
   */
  function NewWithoutSerializationChoice(
    initialContacts: set<ActorPath>,
    establishingGetContactsInterval: int,
    refreshContactsInterval: int,
    heartbeatInterval: int,
    acceptableHeartbeatPause: int,
    bufferSize: int,
    reconnectTimeout: Option<int>): (r: Result<ClusterClientSettings, SettingsError>)
    ensures r.Success? <==> 0 <= bufferSize <= MaxBufferSize
    ensures r.Success? ==>
      && r.value.useLegacySerialization && !r.value.useInitialContactDiscovery
      && r.value.discoverySettings == EmptyDiscovery && !r.value.verboseLogging
      && r.value.bufferSize == bufferSize && r.value.reconnectTimeout == reconnectTimeout
      && r.value.initialContacts == initialContacts
  {
    NewWithoutDiscovery(initialContacts, establishingGetContactsInterval, refreshContactsInterval,
                        heartbeatInterval, acceptableHeartbeatPause, bufferSize, true, reconnectTimeout)
  }

  /**
   * The obsolete constructor without discovery: no contact discovery, the empty discovery
   * settings and no verbose logging.
   */
  function NewWithoutDiscovery(
    initialContacts: set<ActorPath>,
    establishingGetContactsInterval: int,
    refreshContactsInterval: int,
    heartbeatInterval: int,
    acceptableHeartbeatPause: int,
    bufferSize: int,
    useLegacySerialization: bool,
    reconnectTimeout: Option<int>): (r: Result<ClusterClientSettings, SettingsError>)
    ensures r.Success? <==> 0 <= bufferSize <= MaxBufferSize
    ensures r.Success? ==>
      && r.value.useLegacySerialization == useLegacySerialization && !r.value.useInitialContactDiscovery
      && r.value.discoverySettings == EmptyDiscovery && !r.value.verboseLogging
      && r.value.bufferSize == bufferSize && r.value.reconnectTimeout == reconnectTimeout
      && r.value.initialContacts == initialContacts
  {
    New(initialContacts, establishingGetContactsInterval, refreshContactsInterval, heartbeatInterval,
        acceptableHeartbeatPause, bufferSize, useLegacySerialization, false, None, reconnectTimeout, false)
  }

  /** `x ?? y` */
  function Coalesce<T>(x: Option<T>, y: T): T {
    if x.Some? then x.value else y
  }

  /**
   * A copy in which each given value replaces the field and each absent one keeps it;
   * so an absent reconnect timeout keeps the old one rather than clearing it.
   */
  function Copy(
    s: ClusterClientSettings,
    initialContacts: Option<set<ActorPath>> := None,
    establishingGetContactsInterval: Option<int> := None,
    refreshContactsInterval: Option<int> := None,
    heartbeatInterval: Option<int> := None,
    acceptableHeartbeatPause: Option<int> := None,
    bufferSize: Option<int> := None,
    useLegacySerialization: Option<bool> := None,
    useInitialContactsDiscovery: Option<bool> := None,
    discoverySettings: Option<DiscoverySettings> := None,
    reconnectTimeout: Option<int> := None,
    verboseLogging: Option<bool> := None): (r: Result<ClusterClientSettings, SettingsError>)
    ensures r.Success? <==> 0 <= Coalesce(bufferSize, s.bufferSize) <= MaxBufferSize
    ensures r.Failure? ==> r.error == BufferSizeOutOfRange
    ensures r.Success? ==>
      && r.value.initialContacts == Coalesce(initialContacts, s.initialContacts)
      && r.value.establishingGetContactsInterval == Coalesce(establishingGetContactsInterval, s.establishingGetContactsInterval)
      && r.value.refreshContactsInterval == Coalesce(refreshContactsInterval, s.refreshContactsInterval)
      && r.value.heartbeatInterval == Coalesce(heartbeatInterval, s.heartbeatInterval)
      && r.value.acceptableHeartbeatPause == Coalesce(acceptableHeartbeatPause, s.acceptableHeartbeatPause)
      && r.value.bufferSize == Coalesce(bufferSize, s.bufferSize)
      && r.value.useLegacySerialization == Coalesce(useLegacySerialization, s.useLegacySerialization)
      && r.value.useInitialContactDiscovery == Coalesce(useInitialContactsDiscovery, s.useInitialContactDiscovery)
      && r.value.discoverySettings == Coalesce(discoverySettings, s.discoverySettings)
      && r.value.reconnectTimeout == (if reconnectTimeout.Some? then reconnectTimeout else s.reconnectTimeout)
      && r.value.verboseLogging == Coalesce(verboseLogging, s.verboseLogging)
  {
    New(Coalesce(initialContacts, s.initialContacts),
        Coalesce(establishingGetContactsInterval, s.establishingGetContactsInterval),
        Coalesce(refreshContactsInterval, s.refreshContactsInterval),
        Coalesce(heartbeatInterval, s.heartbeatInterval),
        Coalesce(acceptableHeartbeatPause, s.acceptableHeartbeatPause),
        Coalesce(bufferSize, s.bufferSize),
        Coalesce(useLegacySerialization, s.useLegacySerialization),
        Coalesce(useInitialContactsDiscovery, s.useInitialContactDiscovery),
        Some(Coalesce(discoverySettings, s.discoverySettings)),
        if reconnectTimeout.Some? then reconnectTimeout else s.reconnectTimeout,
        Coalesce(verboseLogging, s.verboseLogging))
  }

  /** Copying with nothing given reproduces a valid value exactly. */
  lemma CopyNothingIsIdentity(s: ClusterClientSettings)
    requires Valid(s)
    ensures Copy(s) == Success(s)
  {
  }

  function WithInitialContacts(s: ClusterClientSettings, initialContacts: set<ActorPath>): (r: Result<ClusterClientSettings, SettingsError>)
    requires Valid(s)
    ensures initialContacts == {} ==> r == Failure(NoInitialContacts)
    ensures initialContacts != {} ==> r == Success(s.(initialContacts := initialContacts))
  {
    if |initialContacts| == 0 then Failure(NoInitialContacts)
    else Copy(s, initialContacts := Some(initialContacts))
  }

  function WithEstablishingGetContactsInterval(s: ClusterClientSettings, value: int): (r: Result<ClusterClientSettings, SettingsError>)
    requires Valid(s)
    ensures r == Success(s.(establishingGetContactsInterval := value))
  {
    Copy(s, establishingGetContactsInterval := Some(value))
  }

  function WithRefreshContactsInterval(s: ClusterClientSettings, value: int): (r: Result<ClusterClientSettings, SettingsError>)
    requires Valid(s)
    ensures r == Success(s.(refreshContactsInterval := value))
  {
    Copy(s, refreshContactsInterval := Some(value))
  }

  function WithHeartbeatInterval(s: ClusterClientSettings, value: int): (r: Result<ClusterClientSettings, SettingsError>)
    requires Valid(s)
    ensures r == Success(s.(heartbeatInterval := value))
  {
    Copy(s, heartbeatInterval := Some(value))
  }

  /** The buffer size goes through the constructor's bound like any other. */
  function WithBufferSize(s: ClusterClientSettings, bufferSize: int): (r: Result<ClusterClientSettings, SettingsError>)
    requires Valid(s)
    ensures 0 <= bufferSize <= MaxBufferSize ==> r == Success(s.(bufferSize := bufferSize))
    ensures !(0 <= bufferSize <= MaxBufferSize) ==> r == Failure(BufferSizeOutOfRange)
  {
    Copy(s, bufferSize := Some(bufferSize))
  }

  /** A given timeout replaces the old one; an absent one keeps it (it cannot clear it). */
  function WithReconnectTimeout(s: ClusterClientSettings, reconnectTimeout: Option<int>): (r: Result<ClusterClientSettings, SettingsError>)
    requires Valid(s)
    ensures reconnectTimeout.Some? ==> r == Success(s.(reconnectTimeout := reconnectTimeout))
    ensures reconnectTimeout.None? ==> r == Success(s)
  {
    Copy(s, reconnectTimeout := reconnectTimeout)
  }

  function WithUseLegacySerialization(s: ClusterClientSettings, useLegacySerialization: bool): (r: Result<ClusterClientSettings, SettingsError>)
    requires Valid(s)
    ensures r == Success(s.(useLegacySerialization := useLegacySerialization))
  {
    Copy(s, useLegacySerialization := Some(useLegacySerialization))
  }

  /** Switches discovery; absent discovery settings keep the old ones. */
  function WithInitialContactsDiscovery(s: ClusterClientSettings, useInitialContactsDiscovery: bool,
                                        discoverySettings: Option<DiscoverySettings> := None): (r: Result<ClusterClientSettings, SettingsError>)
    requires Valid(s)
    ensures r == Success(s.(useInitialContactDiscovery := useInitialContactsDiscovery,
                            discoverySettings := Coalesce(discoverySettings, s.discoverySettings)))
  {
    Copy(s, useInitialContactsDiscovery := Some(useInitialContactsDiscovery), discoverySettings := discoverySettings)
  }

  /** Each `With*` on a valid value yields a valid value or the documented error. */
  lemma WithKeepsValidity(s: ClusterClientSettings, n: int)
    requires Valid(s)
    ensures Valid(WithEstablishingGetContactsInterval(s, n).value)
    ensures WithBufferSize(s, n).Success? ==> Valid(WithBufferSize(s, n).value)
    ensures WithBufferSize(s, n).Success? <==> 0 <= n <= MaxBufferSize
  {
  }

  // ----------------------------------------------------------------------------------
  // Reading the configuration section

  /** The words that switch the reconnect timeout off, compared after lower-casing. */
  predicate IsOffWord(s: string) {
    s == "off" || s == "false" || s == "no"
  }

  /**
   * The reconnect timeout: none when the configured text lower-cases to off, false or
   * no; otherwise the value read as a duration (zero when the key is absent).
   */
  function ReconnectTimeout(config: Config): (r: Result<Option<int>, ConfigError>)
    ensures r == Success(None) <==> IsOffWord(ToLowerInvariant(GetString(config, "reconnect-timeout", Some("")).value))
    ensures r.Failure? ==> r.error == BadValue("reconnect-timeout")
    ensures !IsOffWord(ToLowerInvariant(GetString(config, "reconnect-timeout", Some("")).value)) ==>
      (r.Success? <==> GetTimeSpan(config, "reconnect-timeout").Success?)
      && (r.Success? ==> r.value == Some(GetTimeSpan(config, "reconnect-timeout").value))
  {
    var useReconnect := ToLowerInvariant(GetString(config, "reconnect-timeout", Some("")).value);
    if IsOffWord(useReconnect) then Success(None)
    else
      match GetTimeSpan(config, "reconnect-timeout")
      case Success(t) => Success(Some(t))
      case Failure(e) => Failure(e)
  }

  /** The off words are recognised in any ASCII letter case. */
  lemma OffWordsAnyCase()
    ensures IsOffWord(ToLowerInvariant("OFF")) && IsOffWord(ToLowerInvariant("False"))
    ensures IsOffWord(ToLowerInvariant("No"))
    ensures !IsOffWord(ToLowerInvariant("on"))
  {
  }

  function ToActorPaths(texts: seq<string>): (paths: set<ActorPath>)
    ensures forall t :: t in texts <==> ActorPath(t) in paths
  {
    set t | t in texts :: ActorPath(t)
  }

  /**
   * Settings from a configuration section. An empty section is rejected; every value is
   * read in the constructor's argument order and the first unreadable one is reported;
   * the buffer size is then checked by the constructor. The discovery settings, built
   * from the same section elsewhere, are a parameter.
   */
  function Create(config: Config, discovery: DiscoverySettings): (r: Result<ClusterClientSettings, SettingsError>)
    ensures IsEmpty(config) ==> r == Failure(Config(NullOrEmptyConfig))
    ensures r.Success? ==> Valid(r.value) && r.value.discoverySettings == discovery
    ensures r.Success? ==> ReconnectTimeout(config) == Success(r.value.reconnectTimeout)
    ensures r.Success? ==> GetInt(config, "buffer-size") == Success(r.value.bufferSize)
    ensures r.Success? ==>
      && GetStringList(config, "initial-contacts", []).Success?
      && r.value.initialContacts == ToActorPaths(GetStringList(config, "initial-contacts", []).value)
      && GetTimeSpan(config, "establishing-get-contacts-interval") == Success(r.value.establishingGetContactsInterval)
      && GetTimeSpan(config, "refresh-contacts-interval") == Success(r.value.refreshContactsInterval)
      && GetTimeSpan(config, "heartbeat-interval") == Success(r.value.heartbeatInterval)
      && GetTimeSpan(config, "acceptable-heartbeat-pause") == Success(r.value.acceptableHeartbeatPause)
      && GetBoolean(config, "use-legacy-serialization") == Success(r.value.useLegacySerialization)
      && GetBoolean(config, "use-initial-contacts-discovery") == Success(r.value.useInitialContactDiscovery)
      && GetBoolean(config, "verbose-logging") == Success(r.value.verboseLogging)
    ensures !IsEmpty(config) && GetInt(config, "buffer-size").Success?
      && !(0 <= GetInt(config, "buffer-size").value <= MaxBufferSize)
      ==> r.Failure?
    ensures
      && !IsEmpty(config)
      && GetStringList(config, "initial-contacts", []).Success?
      && ReconnectTimeout(config).Success?
      && GetTimeSpan(config, "establishing-get-contacts-interval").Success?
      && GetTimeSpan(config, "refresh-contacts-interval").Success?
      && GetTimeSpan(config, "heartbeat-interval").Success?
      && GetTimeSpan(config, "acceptable-heartbeat-pause").Success?
      && GetInt(config, "buffer-size").Success?
      && 0 <= GetInt(config, "buffer-size").value <= MaxBufferSize
      && GetBoolean(config, "use-legacy-serialization").Success?
      && GetBoolean(config, "use-initial-contacts-discovery").Success?
      && GetBoolean(config, "verbose-logging").Success?
      ==> r.Success?
  {
    if IsEmpty(config) then Failure(Config(NullOrEmptyConfig))
    else
      match GetStringList(config, "initial-contacts", [])
      case Failure(e) => Failure(Config(e))
      case Success(contacts) =>
        match ReconnectTimeout(config)
        case Failure(e) => Failure(Config(e))
        case Success(reconnectTimeout) =>
          match GetTimeSpan(config, "establishing-get-contacts-interval")
          case Failure(e) => Failure(Config(e))
          case Success(establishing) =>
            match GetTimeSpan(config, "refresh-contacts-interval")
            case Failure(e) => Failure(Config(e))
            case Success(refresh) =>
              match GetTimeSpan(config, "heartbeat-interval")
              case Failure(e) => Failure(Config(e))
              case Success(heartbeat) =>
                match GetTimeSpan(config, "acceptable-heartbeat-pause")
                case Failure(e) => Failure(Config(e))
                case Success(pause) =>
                  match GetInt(config, "buffer-size")
                  case Failure(e) => Failure(Config(e))
                  case Success(bufferSize) =>
                    match GetBoolean(config, "use-legacy-serialization")
                    case Failure(e) => Failure(Config(e))
                    case Success(legacy) =>
                      match GetBoolean(config, "use-initial-contacts-discovery")
                      case Failure(e) => Failure(Config(e))
                      case Success(useDiscovery) =>
                        match GetBoolean(config, "verbose-logging")
                        case Failure(e) => Failure(Config(e))
                        case Success(verbose) =>
                          New(ToActorPaths(contacts), establishing, refresh, heartbeat, pause, bufferSize,
                              legacy, useDiscovery, Some(discovery), reconnectTimeout, verbose)
  }

  /**
   * A section whose reconnect-timeout is "Off" yields settings without a reconnect
   * timeout, while one without the key yields a timeout of zero.
   */
  lemma ReconnectTimeoutExamples(discovery: DiscoverySettings)
    ensures var off := map["reconnect-timeout" := Scalar("Off", None, None, Some(false))];
      Create(off, discovery).Success? && Create(off, discovery).value.reconnectTimeout.None?
    ensures var other := map["buffer-size" := Scalar("100", None, Some(100), None)];
      Create(other, discovery).Success? && Create(other, discovery).value.reconnectTimeout == Some(0)
  {
    var off := map["reconnect-timeout" := Scalar("Off", None, None, Some(false))];
    assert ToLowerInvariant("Off") == "off";
    assert GetString(off, "reconnect-timeout", Some("")).value == "Off";
    var other := map["buffer-size" := Scalar("100", None, Some(100), None)];
    assert GetString(other, "reconnect-timeout", Some("")).value == "";
  }
}
