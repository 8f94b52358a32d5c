/**
 * The split brain resolver's settings, read from the `akka.cluster.split-brain-resolver`
 * section. The common settings are checked when the value is built; the settings of each
 * strategy are read, and checked, only when asked for. Durations are in ticks (100 ns).
 */
module SplitBrainResolverSettingsModel {
  import opened Wrappers
  import opened Hocon

  const KeepMajorityName: string := "keep-majority"
  const LeaseMajorityName: string := "lease-majority"
  const StaticQuorumName: string := "static-quorum"
  const KeepOldestName: string := "keep-oldest"
  const DownAllName: string := "down-all"

  const AllStrategyNames: set<string> :=
    {KeepMajorityName, LeaseMajorityName, StaticQuorumName, KeepOldestName, DownAllName}

  /** The configuration path of the section, element by element. */
  const SectionPath: seq<string> := ["akka", "cluster", "split-brain-resolver"]

  datatype SbrError =
    | Config(error: ConfigError)
    | StableAfterNotPositive
    | UnknownStrategy(name: Option<string>)
    | DownAllWhenUnstableNotPositive
    | QuorumSizeTooSmall
    | LeaseImplementationMissing

  /**
   * The checked common settings; `section` is kept so that the strategy settings can be
   * read from it on demand.
   */
  datatype SplitBrainResolverSettings = SplitBrainResolverSettings(
    downingStableAfter: int,
    downingStrategy: string,
    downAllWhenUnstable: int,
    section: Config)

  datatype StaticQuorumSettings = StaticQuorumSettings(size: int, role: Option<string>)

  datatype KeepOldestSettings = KeepOldestSettings(downIfAlone: bool, role: Option<string>)

  datatype LeaseMajoritySettings = LeaseMajoritySettings(
    leaseImplementation: string,
    acquireLeaseDelayForMinority: int,
    releaseAfter: int,
    role: Option<string>,
    leaseName: Option<string>)

  function Lower(s: Option<string>): Option<string> {
    if s.Some? then Some(ToLowerInvariant(s.value)) else None
  }

  /** The larger of two durations. */
  function MaxTicks(a: int, b: int): int {
    if a >= b then a else b
  }

  /**
   * `down-all-when-unstable`: "on" derives it from `stable-after` (three quarters of it,
   * but at least four seconds), "off" disables it, anything else is read as a duration,
   * which must be positive.
   */
  function DownAllWhenUnstable(cc: Config, stableAfter: int): (r: Result<int, SbrError>)
    requires stableAfter > 0
  {
    var key := "down-all-when-unstable";
    match Lower(GetString(cc, key, None))
    case Some("on") => Success(MaxTicks(4 * TicksPerSecond, stableAfter * 3 / 4))
    case Some("off") => Success(0)
    case _ =>
      match GetTimeSpan(cc, key)
      case Failure(e) => Failure(Config(e))
      case Success(d) => if d <= 0 then Failure(DownAllWhenUnstableNotPositive) else Success(d)
  }

  /**
   * The same derivation as the code states it: the guard after reading the duration
   * tests `stable-after` again, which is already known to be positive, so the duration
   * itself is never checked.
   */
  function DownAllWhenUnstableAsWritten(cc: Config, stableAfter: int): (r: Result<int, SbrError>)
    requires stableAfter > 0
    ensures Lower(GetString(cc, "down-all-when-unstable", None)) !in {Some("on"), Some("off")} ==>
      r == (match GetTimeSpan(cc, "down-all-when-unstable")
            case Failure(e) => Failure(Config(e))
            case Success(d) => Success(d))
    ensures r != Failure(DownAllWhenUnstableNotPositive)
  {
    var key := "down-all-when-unstable";
    match Lower(GetString(cc, key, None))
    case Some("on") => Success(MaxTicks(4 * TicksPerSecond, stableAfter * 3 / 4))
    case Some("off") => Success(0)
    case _ =>
      match GetTimeSpan(cc, key)
      case Failure(e) => Failure(Config(e))
      case Success(d) => if stableAfter <= 0 then Failure(DownAllWhenUnstableNotPositive) else Success(d)
  }

  /**
   * What the derived value means: zero exactly when the setting is "off" (in any case),
   * otherwise a positive duration; "on" gives at least four seconds and at least three
   * quarters of `stable-after`, and one of the two.
   */
  lemma DownAllWhenUnstableMeaning(cc: Config, stableAfter: int)
    requires stableAfter > 0
    ensures var r := DownAllWhenUnstable(cc, stableAfter);
      r.Success? ==> (r.value == 0 <==> Lower(GetString(cc, "down-all-when-unstable", None)) == Some("off"))
    ensures var r := DownAllWhenUnstable(cc, stableAfter);
      r.Success? ==> r.value >= 0
    ensures var r := DownAllWhenUnstable(cc, stableAfter);
      Lower(GetString(cc, "down-all-when-unstable", None)) == Some("on") ==>
        && r.Success? && r.value >= 4 * TicksPerSecond && r.value >= stableAfter * 3 / 4
        && (r.value == 4 * TicksPerSecond || r.value == stableAfter * 3 / 4)
  {
  }

  /** A negative duration such as -5s gets through the guard as written, not the intended one. */
  lemma NegativeDownAllWhenUnstableAccepted()
    ensures var cc := map["down-all-when-unstable" := Scalar("-5s", Some(-5 * TicksPerSecond), None, None)];
      && DownAllWhenUnstableAsWritten(cc, 20 * TicksPerSecond) == Success(-50_000_000)
      && DownAllWhenUnstable(cc, 20 * TicksPerSecond) == Failure(DownAllWhenUnstableNotPositive)
  {
    var cc := map["down-all-when-unstable" := Scalar("-5s", Some(-5 * TicksPerSecond), None, None)];
    assert ToLowerInvariant("-5s") == "-5s";
    assert Lower(GetString(cc, "down-all-when-unstable", None)) == Some("-5s");
  }

  /**
   * The intended derivation refuses exactly the durations that are not positive and
   * otherwise agrees with the code; its only new error is DownAllWhenUnstableNotPositive.
   */
  lemma IntendedRefinesAsWritten(cc: Config, stableAfter: int)
    requires stableAfter > 0
    ensures DownAllWhenUnstableAsWritten(cc, stableAfter).Failure? ==>
      DownAllWhenUnstable(cc, stableAfter) == DownAllWhenUnstableAsWritten(cc, stableAfter)
    ensures DownAllWhenUnstable(cc, stableAfter).Success? ==>
      DownAllWhenUnstable(cc, stableAfter) == DownAllWhenUnstableAsWritten(cc, stableAfter)
    ensures var w := DownAllWhenUnstableAsWritten(cc, stableAfter);
      w.Success? ==>
        (DownAllWhenUnstable(cc, stableAfter).Success? <==>
           w.value > 0 || Lower(GetString(cc, "down-all-when-unstable", None)) == Some("off"))
    ensures DownAllWhenUnstable(cc, stableAfter).Failure? && DownAllWhenUnstableAsWritten(cc, stableAfter).Success? ==>
      DownAllWhenUnstable(cc, stableAfter) == Failure(DownAllWhenUnstableNotPositive)
  {
    DownAllWhenUnstableMeaning(cc, stableAfter);
  }

  /**
   * Builds the common settings, as the code does: the section must exist and be non-empty,
   * `stable-after` must be positive, the lower-cased `active-strategy` must name a
   * strategy, and `down-all-when-unstable` must be readable; a duration of any sign is
   * kept, since the guard after it never fires. Nothing about the strategies is read.
   */
  function New(config: Config): (r: Result<SplitBrainResolverSettings, SbrError>)
    ensures IsEmpty(GetConfig(config, SectionPath)) ==> r == Failure(Config(NullOrEmptyConfig))
    ensures r != Failure(DownAllWhenUnstableNotPositive)
    ensures r.Success? ==>
      && r.value.section == GetConfig(config, SectionPath)
      && Success(r.value.downingStableAfter) == GetTimeSpan(GetConfig(config, SectionPath), "stable-after")
      && r.value.downingStableAfter > 0
      && r.value.downingStrategy in AllStrategyNames
      && Lower(GetString(r.value.section, "active-strategy", None)) == Some(r.value.downingStrategy)
      && DownAllWhenUnstableAsWritten(r.value.section, r.value.downingStableAfter) == Success(r.value.downAllWhenUnstable)
    ensures r.Success? <==>
      && !IsEmpty(GetConfig(config, SectionPath))
      && GetTimeSpan(GetConfig(config, SectionPath), "stable-after").Success?
      && GetTimeSpan(GetConfig(config, SectionPath), "stable-after").value > 0
      && Lower(GetString(GetConfig(config, SectionPath), "active-strategy", None)).Some?
      && Lower(GetString(GetConfig(config, SectionPath), "active-strategy", None)).value in AllStrategyNames
      && DownAllWhenUnstableAsWritten(GetConfig(config, SectionPath),
                                      GetTimeSpan(GetConfig(config, SectionPath), "stable-after").value).Success?
  {
    var cc := GetConfig(config, SectionPath);
    if IsEmpty(cc) then Failure(Config(NullOrEmptyConfig))
    else
      match GetTimeSpan(cc, "stable-after")
      case Failure(e) => Failure(Config(e))
      case Success(stableAfter) =>
        if stableAfter <= 0 then Failure(StableAfterNotPositive)
        else
          var strategy := Lower(GetString(cc, "active-strategy", None));
          if strategy.None? || strategy.value !in AllStrategyNames then Failure(UnknownStrategy(strategy))
          else
            match DownAllWhenUnstableAsWritten(cc, stableAfter)
            case Failure(e) => Failure(e)
            case Success(downAll) => Success(SplitBrainResolverSettings(stableAfter, strategy.value, downAll, cc))
  }

  /**
   * The constructor with the evidently intended check: the settings the code builds,
   * except that a `down-all-when-unstable` duration that is not positive is refused.
   */
  function NewIntended(config: Config): (r: Result<SplitBrainResolverSettings, SbrError>)
    ensures New(config).Failure? ==> r == New(config)
    ensures r.Success? ==> r == New(config)
    ensures r.Success? ==>
      && r.value.downAllWhenUnstable >= 0
      && (r.value.downAllWhenUnstable == 0 <==>
            Lower(GetString(r.value.section, "down-all-when-unstable", None)) == Some("off"))
    ensures New(config).Success? ==>
      (r.Success? <==>
         New(config).value.downAllWhenUnstable > 0
         || Lower(GetString(New(config).value.section, "down-all-when-unstable", None)) == Some("off"))
    ensures New(config).Success? && r.Failure? ==> r == Failure(DownAllWhenUnstableNotPositive)
  {
    match New(config)
    case Failure(e) => Failure(e)
    case Success(s) =>
      IntendedRefinesAsWritten(s.section, s.downingStableAfter);
      DownAllWhenUnstableMeaning(s.section, s.downingStableAfter);
      match DownAllWhenUnstable(s.section, s.downingStableAfter)
      case Failure(e) => Failure(e)
      case Success(downAll) => Success(s.(downAllWhenUnstable := downAll))
  }

  /**
   * The code builds settings whose down-all duration is zero or negative, including
   * for an absent key, which reads as zero; the intended check refuses them.
   */
  lemma NewAcceptsNonPositiveDownAll(config: Config, cc: Config, d: int)
    requires GetConfig(config, SectionPath) == cc && !IsEmpty(cc)
    requires GetTimeSpan(cc, "stable-after") == Success(20 * TicksPerSecond)
    requires GetString(cc, "active-strategy", None) == Some(KeepMajorityName)
    requires Lower(GetString(cc, "down-all-when-unstable", None)) !in {Some("on"), Some("off")}
    requires GetTimeSpan(cc, "down-all-when-unstable") == Success(d) && d <= 0
    ensures New(config) == Success(SplitBrainResolverSettings(20 * TicksPerSecond, KeepMajorityName, d, cc))
    ensures NewIntended(config) == Failure(DownAllWhenUnstableNotPositive)
  {
    LowerCaseUnchanged(KeepMajorityName);
  }

  /** The strategy names are matched whatever their letter case. */
  lemma StrategyNameAnyCase(config: Config, cc: Config)
    requires GetConfig(config, SectionPath) == cc && !IsEmpty(cc)
    requires GetTimeSpan(cc, "stable-after") == Success(20 * TicksPerSecond)
    requires GetString(cc, "active-strategy", None) == Some("Keep-Majority")
    requires GetString(cc, "down-all-when-unstable", None) == Some("Off")
    ensures New(config) == Success(SplitBrainResolverSettings(20 * TicksPerSecond, KeepMajorityName, 0, cc))
  {
    assert ToLowerInvariant("Keep-Majority") == KeepMajorityName;
    assert ToLowerInvariant("Off") == "off";
    assert DownAllWhenUnstableAsWritten(cc, 20 * TicksPerSecond) == Success(0);
  }

  /** The sub-section of one strategy. */
  function StrategyConfig(s: SplitBrainResolverSettings, strategyName: string): Config {
    GetConfig(s.section, [strategyName])
  }

  /** A role restricts a strategy; an absent or empty one means none. */
  function Role(c: Config): (r: Option<string>)
    ensures r.Some? <==> GetString(c, "role", None).Some? && GetString(c, "role", None).value != ""
    ensures r.Some? ==> r == GetString(c, "role", None)
  {
    var role := GetString(c, "role", None);
    if role.None? || role.value == "" then None else role
  }

  function KeepMajorityRole(s: SplitBrainResolverSettings): (r: Option<string>)
    ensures var role := GetString(GetConfig(s.section, [KeepMajorityName]), "role", None);
      r.Some? <==> role.Some? && role.value != ""
    ensures r.Some? ==> r == GetString(GetConfig(s.section, [KeepMajorityName]), "role", None) && r.value != ""
  {
    Role(StrategyConfig(s, KeepMajorityName))
  }

  /** The static quorum, whose size must be at least one. */
  function StaticQuorum(s: SplitBrainResolverSettings): (r: Result<StaticQuorumSettings, SbrError>)
    ensures var c := StrategyConfig(s, StaticQuorumName);
      r.Success? <==> GetInt(c, "quorum-size").Success? && GetInt(c, "quorum-size").value >= 1
    ensures r.Success? ==>
      && r.value.size >= 1
      && r.value.size == GetInt(StrategyConfig(s, StaticQuorumName), "quorum-size").value
      && r.value.role == Role(StrategyConfig(s, StaticQuorumName))
    ensures var c := StrategyConfig(s, StaticQuorumName);
      GetInt(c, "quorum-size").Success? && GetInt(c, "quorum-size").value < 1 ==> r == Failure(QuorumSizeTooSmall)
  {
    var c := StrategyConfig(s, StaticQuorumName);
    match GetInt(c, "quorum-size")
    case Failure(e) => Failure(Config(e))
    case Success(size) =>
      if size < 1 then Failure(QuorumSizeTooSmall) else Success(StaticQuorumSettings(size, Role(c)))
  }

  function KeepOldest(s: SplitBrainResolverSettings): (r: Result<KeepOldestSettings, SbrError>)
    ensures var c := StrategyConfig(s, KeepOldestName);
      r.Success? <==> GetBoolean(c, "down-if-alone").Success?
    ensures r.Success? ==>
      && Success(r.value.downIfAlone) == GetBoolean(StrategyConfig(s, KeepOldestName), "down-if-alone")
      && r.value.role == Role(StrategyConfig(s, KeepOldestName))
  {
    var c := StrategyConfig(s, KeepOldestName);
    match GetBoolean(c, "down-if-alone")
    case Failure(e) => Failure(Config(e))
    case Success(downIfAlone) => Success(KeepOldestSettings(downIfAlone, Role(c)))
  }

  /**
   * The lease-majority settings: the lease implementation must be named; the lease name
   * is trimmed and a blank one means none, but an absent one is dereferenced and fails.
   */
  function LeaseMajority(s: SplitBrainResolverSettings): (r: Result<LeaseMajoritySettings, SbrError>)
    ensures var c := StrategyConfig(s, LeaseMajorityName);
      GetString(c, "lease-implementation", None) in {None, Some("")} ==> r == Failure(LeaseImplementationMissing)
    ensures var c := StrategyConfig(s, LeaseMajorityName);
      && GetString(c, "lease-implementation", None) !in {None, Some("")}
      && GetTimeSpan(c, "acquire-lease-delay-for-minority").Success?
      && GetString(c, "lease-name", None).None?
      ==> r == Failure(Config(MissingString("lease-name")))
    ensures var c := StrategyConfig(s, LeaseMajorityName);
      && GetString(c, "lease-implementation", None) !in {None, Some("")}
      && GetTimeSpan(c, "acquire-lease-delay-for-minority").Failure?
      ==> r == Failure(Config(GetTimeSpan(c, "acquire-lease-delay-for-minority").error))
    ensures var c := StrategyConfig(s, LeaseMajorityName);
      && GetString(c, "lease-implementation", None) !in {None, Some("")}
      && GetTimeSpan(c, "acquire-lease-delay-for-minority").Success?
      && GetString(c, "lease-name", None).Some?
      && GetTimeSpan(c, "release-after").Success?
      ==> r.Success?
    ensures var c := StrategyConfig(s, LeaseMajorityName);
      && GetString(c, "lease-implementation", None) !in {None, Some("")}
      && GetTimeSpan(c, "acquire-lease-delay-for-minority").Success?
      && GetString(c, "lease-name", None).Some?
      && GetTimeSpan(c, "release-after").Failure?
      ==> r == Failure(Config(GetTimeSpan(c, "release-after").error))
    ensures r.Success? ==> var c := StrategyConfig(s, LeaseMajorityName);
      && Success(r.value.acquireLeaseDelayForMinority) == GetTimeSpan(c, "acquire-lease-delay-for-minority")
      && Success(r.value.releaseAfter) == GetTimeSpan(c, "release-after")
    ensures r.Success? ==>
      && r.value.leaseImplementation != ""
      && Some(r.value.leaseImplementation) == GetString(StrategyConfig(s, LeaseMajorityName), "lease-implementation", None)
      && r.value.role == Role(StrategyConfig(s, LeaseMajorityName))
    ensures r.Success? ==> var c := StrategyConfig(s, LeaseMajorityName);
      && GetString(c, "lease-name", None).Some?
      && (r.value.leaseName.None? <==> Trim(GetString(c, "lease-name", None).value) == [])
      && (r.value.leaseName.Some? ==> r.value.leaseName.value == Trim(GetString(c, "lease-name", None).value))
  {
    var c := StrategyConfig(s, LeaseMajorityName);
    var leaseImplementation := GetString(c, "lease-implementation", None);
    if leaseImplementation.None? || leaseImplementation.value == "" then Failure(LeaseImplementationMissing)
    else
      match GetTimeSpan(c, "acquire-lease-delay-for-minority")
      case Failure(e) => Failure(Config(e))
      case Success(acquireLeaseDelay) =>
        match GetString(c, "lease-name", None)
        case None => Failure(Config(MissingString("lease-name")))
        case Some(text) =>
          var trimmed := Trim(text);
          var leaseName := if trimmed == [] then None else Some(trimmed);
          match GetTimeSpan(c, "release-after")
          case Failure(e) => Failure(Config(e))
          case Success(releaseAfter) =>
            Success(LeaseMajoritySettings(leaseImplementation.value, acquireLeaseDelay, releaseAfter, Role(c), leaseName))
  }

  /** The lease name to use: the configured one, or one derived from the actor system's name. */
  function SafeLeaseName(l: LeaseMajoritySettings, systemName: string): (r: string)
    ensures l.leaseName.None? ==> r == systemName + "-akka-sbr"
    ensures l.leaseName.Some? ==> r == l.leaseName.value
  {
    l.leaseName.GetOr(systemName + "-akka-sbr")
  }

  /**
   * For lease-majority settings read from configuration the lease name in use is never
   * empty: a configured name is non-blank and trimmed, otherwise the derived name ends in
   * "-akka-sbr".
   */
  lemma SafeLeaseNameNeverBlank(s: SplitBrainResolverSettings, systemName: string)
    requires LeaseMajority(s).Success?
    ensures var name := SafeLeaseName(LeaseMajority(s).value, systemName);
      && name != []
      && (LeaseMajority(s).value.leaseName.Some? ==> !IsWhiteSpace(name[0]) && !IsWhiteSpace(name[|name| - 1]))
      && (LeaseMajority(s).value.leaseName.None? ==> name[|systemName|..] == "-akka-sbr")
  {
    var l := LeaseMajority(s).value;
    if l.leaseName.Some? {
      var c := StrategyConfig(s, LeaseMajorityName);
      TrimIsSlice(GetString(c, "lease-name", None).value);
    }
  }

  /**
   * With `down-all-when-unstable = on` and a stable-after of 20 s, the settings build
   * with a down-all duration of 15 s, three quarters of stable-after.
   */
  lemma DownAllOnBuilds(config: Config, cc: Config)
    requires GetConfig(config, SectionPath) == cc && !IsEmpty(cc)
    requires GetTimeSpan(cc, "stable-after") == Success(20 * TicksPerSecond)
    requires GetString(cc, "active-strategy", None) == Some(KeepMajorityName)
    requires GetString(cc, "down-all-when-unstable", None) == Some("on")
    ensures New(config) == Success(SplitBrainResolverSettings(20 * TicksPerSecond, KeepMajorityName,
                                                              15 * TicksPerSecond, cc))
  {
    LowerCaseUnchanged(KeepMajorityName);
    LowerCaseUnchanged("on");
    assert DownAllWhenUnstableAsWritten(cc, 20 * TicksPerSecond) == Success(15 * TicksPerSecond);
  }

  /**
   * Strategy settings are read on demand: a section selecting keep-majority with a
   * quorum size of zero builds, and only asking for the static quorum fails.
   */
  lemma StrategySettingsCheckedLazily(config: Config, cc: Config)
    requires GetConfig(config, SectionPath) == cc && !IsEmpty(cc)
    requires GetTimeSpan(cc, "stable-after") == Success(20 * TicksPerSecond)
    requires GetString(cc, "active-strategy", None) == Some(KeepMajorityName)
    requires GetString(cc, "down-all-when-unstable", None) == Some("on")
    requires GetInt(GetConfig(cc, [StaticQuorumName]), "quorum-size") == Success(0)
    ensures New(config).Success? && New(config).value.downAllWhenUnstable == 15 * TicksPerSecond
    ensures StaticQuorum(New(config).value) == Failure(QuorumSizeTooSmall)
  {
    DownAllOnBuilds(config, cc);
  }
}
