/** The logger configuration as a value: in the source it is a struct that is copied whole. */
module Config {
  import opened Records
  import opened Trimming
  import Render

  /** The level bounds of the four built-in streams. */
  datatype Levels = Levels(
    stdoutMinimum: int, stdoutMaximum: int, stderrMinimum: int, stderrMaximum: int,
    fileMinimum: int, fileMaximum: int, udpMinimum: int, udpMaximum: int)

  datatype Config = Config(
    serviceName: string, environmentName: string, buildVersion: string,
    capacities: Capacities, format: Render.Format, pretty: bool,
    logDirectory: string, filePrefix: string, backupPrefix: string, activeStreams: string,
    levels: Levels, udpHost: string, udpPort: nat)

  const NAME_CAPACITY: nat := 64
  const PATH_CAPACITY: nat := 256
  const ACTIVE_STREAMS_CAPACITY: nat := 128
  const HOST_CAPACITY: nat := 128

  function RenderSettings(config: Config): Render.Settings {
    Render.Settings(config.serviceName, config.environmentName, config.format, config.pretty)
  }

  /** mp_logger_validate_config. */
  predicate IsValid(config: Config) {
    && config.capacities.Valid()
    && config.serviceName != "" && config.environmentName != "" && config.buildVersion != ""
    && config.filePrefix != "" && config.backupPrefix != "" && config.logDirectory != ""
  }

  function SafeChar(c: char): char {
    if 'a' <= c <= 'z' || 'A' <= c <= 'Z' || '0' <= c <= '9' || c == '-' || c == '_' then c else '_'
  }

  /** mp_logger_sanitize_file_component. */
  function Sanitized(s: string): (r: string)
    ensures |r| == |s|
  {
    seq(|s|, i requires 0 <= i < |s| => SafeChar(s[i]))
  }

  function Normalized(config: Config): Config {
    config.(filePrefix := Sanitized(config.filePrefix), backupPrefix := Sanitized(config.backupPrefix))
  }

  /** The settings that cannot change while the logger lives. */
  predicate Compatible(current: Config, next: Config) {
    && current.capacities == next.capacities
    && current.logDirectory == next.logDirectory
    && current.filePrefix == next.filePrefix
    && current.backupPrefix == next.backupPrefix
    && current.activeStreams == next.activeStreams
    && current.udpHost == next.udpHost
    && current.udpPort == next.udpPort
  }

  /** Names are kept in buffers of 64 bytes. */
  predicate NamesFit(config: Config) {
    && |config.serviceName| < NAME_CAPACITY
    && |config.environmentName| < NAME_CAPACITY
    && |config.buildVersion| < NAME_CAPACITY
  }

  function ConfigureStatus(current: Config, request: Config): Status {
    if IsValid(request) && Compatible(current, Normalized(request)) then Ok else ConfigError
  }

  /** The configuration after mp_logger_configure; a rejected request changes nothing. */
  function Configured(current: Config, request: Config): (next: Config)
    ensures next.capacities == current.capacities
  {
    if ConfigureStatus(current, request) != Ok then current
    else current.(
      serviceName := TrimTo(request.serviceName, NAME_CAPACITY),
      environmentName := TrimTo(request.environmentName, NAME_CAPACITY),
      buildVersion := TrimTo(request.buildVersion, NAME_CAPACITY),
      format := request.format,
      pretty := request.pretty,
      levels := request.levels)
  }

  /** Configuring twice with one request is configuring once, and the configuration that a logger was
      created from is always taken. */
  lemma ConfigureTwice(current: Config, request: Config)
    ensures ConfigureStatus(Configured(current, request), request) == ConfigureStatus(current, request)
    ensures Configured(Configured(current, request), request) == Configured(current, request)
    ensures IsValid(request) ==> ConfigureStatus(Normalized(request), request) == Ok
  {
  }

  lemma ConfigureKeepsNames(current: Config, request: Config)
    requires NamesFit(current)
    ensures NamesFit(Configured(current, request))
  {
  }

  /** A request is checked before its names are trimmed: the new configuration is valid exactly if they
      hold more than whitespace. */
  lemma ConfigureKeepsValidIff(current: Config, request: Config)
    requires IsValid(current) && ConfigureStatus(current, request) == Ok
    ensures IsValid(Configured(current, request)) <==>
            Trim(request.serviceName) != "" && Trim(request.environmentName) != "" && Trim(request.buildVersion) != ""
  {
  }

  /** A name of one space is taken, and then the logger refuses its own configuration. */
  lemma BlankNameIsTaken(current: Config)
    requires IsValid(current) && Normalized(current) == current
    ensures var request := current.(serviceName := " ");
            && ConfigureStatus(current, request) == Ok
            && ConfigureStatus(Configured(current, request), Configured(current, request)) == ConfigError
  {
    TrimIsUnique(" ", "", "");
    assert " " + "" + "" == " ";
  }

  /** A valid request is taken exactly if, after its prefixes are sanitized, it differs from the current
      configuration in nothing but the six settings that may change. */
  lemma ConfigureAcceptsIff(current: Config, request: Config)
    ensures ConfigureStatus(current, request) == Ok <==>
            && IsValid(request)
            && Normalized(request).(
                 serviceName := current.serviceName, environmentName := current.environmentName,
                 buildVersion := current.buildVersion, format := current.format, pretty := current.pretty,
                 levels := current.levels) == current
  {
  }
}
