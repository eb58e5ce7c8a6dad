/**
  The `ConfigManager` of osv-scanner: it decides which configuration applies
  to a scan target (an explicit override, else the `osv-scanner.toml` beside
  the target, else the default) and caches what it loaded per config path.

  The filesystem and the TOML decoder are not modelled; they are the oracles
  of an `Env` value handed to each call, together with the path library's
  `Dir` and `Join`, which are left uninterpreted.
 */
module Manager {
  import opened Wrappers
  import opened Rules

  /** The fixed name of the per-directory configuration file. */
  const ConfigFileName := "osv-scanner.toml"

  /** What `os.Stat` reports for a path. */
  datatype StatResult = StatError | Directory | NotDirectory

  /** What reading and decoding a configuration file yields. */
  datatype ReadResult = CannotOpen | Malformed | Decoded(config: Config)

  /**
    The world outside the model: `stat` and `read` stand for the filesystem
    and the TOML decoder, `dir` and `join` for `filepath.Dir` and `filepath.Join`.
   */
  datatype Env = Env(
    stat: string -> StatResult,
    read: string -> ReadResult,
    dir: string -> string,
    join: (string, string) -> string)

  /** Why a configuration could not be loaded. */
  datatype LoadError = OpenFailed(path: string) | DecodeFailed(path: string)

  /** Why no config path could be derived for a target. */
  datatype PathError = CannotStat(target: string)

  /**
    The config path for a target: `osv-scanner.toml` in the target itself
    when it is a directory, otherwise in its containing directory; an error
    when the target cannot be stat'ed.
   */
  function NormalizeConfigLoadPath(env: Env, target: string): (r: Result<string, PathError>)
    ensures r.Failure? <==> env.stat(target) == StatError
    ensures r.Failure? ==> r.error == CannotStat(target)
    ensures env.stat(target) == NotDirectory ==> r == Success(env.join(env.dir(target), ConfigFileName))
    ensures env.stat(target) == Directory ==> r == Success(env.join(target, ConfigFileName))
  {
    match env.stat(target)
    case StatError => Failure(CannotStat(target))
    case NotDirectory => Success(env.join(env.dir(target), ConfigFileName))
    case Directory => Success(env.join(target, ConfigFileName))
  }

  /** A file and the directory containing it share one config path, and so one cache entry. */
  lemma FileSharesConfigPathWithItsDirectory(env: Env, file: string)
    requires env.stat(file) == NotDirectory && env.stat(env.dir(file)) == Directory
    ensures NormalizeConfigLoadPath(env, file) == NormalizeConfigLoadPath(env, env.dir(file))
  {
  }

  /** `toml.DecodeFile`: the decoded document, or why it could not be opened or decoded. */
  function DecodeFile(env: Env, path: string): (r: Result<Config, LoadError>)
    ensures r.Success? <==> env.read(path).Decoded?
    ensures r.Success? ==> r.value == env.read(path).config
    ensures env.read(path) == CannotOpen ==> r == Failure(OpenFailed(path))
    ensures env.read(path) == Malformed ==> r == Failure(DecodeFailed(path))
  {
    match env.read(path)
    case CannotOpen => Failure(OpenFailed(path))
    case Malformed => Failure(DecodeFailed(path))
    case Decoded(config) => Success(config)
  }

  /** The decoded configuration with its provenance stamped as `path`. */
  function Stamped(config: Config, path: string): (r: Config)
    ensures r.loadPath == path
    ensures r.ignoredVulns == config.ignoredVulns && r.packageOverrides == config.packageOverrides
    ensures r.goVersionOverride == config.goVersionOverride
  {
    config.(loadPath := path)
  }

  /**
    `tryLoadConfig`: the configuration at `path` with its `loadPath` set to
    `path` (whatever the document itself said), or an error when the file
    cannot be opened or decoded.
   */
  function TryLoadConfig(env: Env, path: string): (r: Result<Config, LoadError>)
    ensures r.Success? <==> env.read(path).Decoded?
    ensures r.Success? ==> r.value == Stamped(env.read(path).config, path)
    ensures r.Failure? ==> r.error == DecodeFile(env, path).error
  {
    match DecodeFile(env, path)
    case Failure(e) => Failure(e)
    case Success(config) => Success(Stamped(config, path))
  }

  /** The line logged when a discovered configuration is loaded. */
  function LoadedMessage(path: string): string
  {
    "Loaded filter from: " + path + "\n"
  }

  /** The reporter, reduced to the informational lines it has received. */
  class Reporter {
    var infoLines: seq<string>

    constructor ()
      ensures infoLines == []
    {
      infoLines := [];
    }

    method Infof(line: string)
      modifies this
      ensures infoLines == old(infoLines) + [line]
    {
      infoLines := infoLines + [line];
    }
  }

  class ConfigManager {
    /** Replaces every other configuration when set. */
    var overrideConfig: Option<Config>
    /** Used when no configuration file can be loaded beside a target. */
    var defaultConfig: Config
    /** Loaded (or defaulted) configurations by config path; only ever grows. */
    var configMap: map<string, Config>
    /** The config paths `Get` has tried to load, in order. */
    ghost var loadAttempts: seq<string>

    /**
      Every cache key was loaded exactly once, every load left a key, and a
      cached value is the default or a configuration stamped with its own key.
     */
    ghost predicate Valid()
      reads this
    {
      && (forall i, j :: 0 <= i < j < |loadAttempts| ==> loadAttempts[i] != loadAttempts[j])
      && (forall p :: p in configMap <==> p in loadAttempts)
      && (forall p :: p in configMap ==> configMap[p] == defaultConfig || configMap[p].loadPath == p)
    }

    constructor (defaultConfig: Config)
      ensures Valid()
      ensures overrideConfig == None && this.defaultConfig == defaultConfig
      ensures configMap == map[] && loadAttempts == []
    {
      overrideConfig := None;
      this.defaultConfig := defaultConfig;
      configMap := map[];
      loadAttempts := [];
    }

    /**
      Loads the configuration at `configPath` and installs it as the override.
      On failure the error is returned and the override is left as it was.
     */
    method UseOverride(env: Env, configPath: string) returns (err: Option<LoadError>)
      requires Valid()
      modifies this`overrideConfig
      ensures Valid()
      ensures DecodeFile(env, configPath).Failure? ==>
                err == Some(DecodeFile(env, configPath).error) && overrideConfig == old(overrideConfig)
      ensures DecodeFile(env, configPath).Success? ==>
                err == None && overrideConfig == Some(Stamped(DecodeFile(env, configPath).value, configPath))
    {
      var decoded := DecodeFile(env, configPath);
      if decoded.Failure? {
        return Some(decoded.error);
      }
      var config := decoded.value.(loadPath := configPath);
      overrideConfig := Some(config);
      return None;
    }

    /**
      The configuration for `targetPath`: the override if one is set; the empty
      configuration if the target cannot be stat'ed; the cached value for its
      config path if there is one; otherwise the freshly loaded configuration
      (logged), or the default when loading fails, which is cached either way.
     */
    method Get(r: Reporter, env: Env, targetPath: string) returns (config: Config)
      requires Valid()
      modifies this`configMap, this`loadAttempts, r
      ensures Valid()
      ensures old(overrideConfig).Some? ==>
                && config == old(overrideConfig).value
                && configMap == old(configMap) && loadAttempts == old(loadAttempts)
                && r.infoLines == old(r.infoLines)
      ensures old(overrideConfig).None? && NormalizeConfigLoadPath(env, targetPath).Failure? ==>
                && config == EmptyConfig
                && configMap == old(configMap) && loadAttempts == old(loadAttempts)
                && r.infoLines == old(r.infoLines)
      ensures old(overrideConfig).None? && NormalizeConfigLoadPath(env, targetPath).Success? ==>
                var key := NormalizeConfigLoadPath(env, targetPath).value;
                if key in old(configMap) then
                  && config == old(configMap)[key]
                  && configMap == old(configMap) && loadAttempts == old(loadAttempts)
                  && r.infoLines == old(r.infoLines)
                else
                  && configMap == old(configMap)[key := config]
                  && loadAttempts == old(loadAttempts) + [key]
                  && match TryLoadConfig(env, key)
                     case Success(loaded) =>
                       config == loaded && r.infoLines == old(r.infoLines) + [LoadedMessage(key)]
                     case Failure(_) =>
                       config == defaultConfig && r.infoLines == old(r.infoLines)
    {
      if overrideConfig.Some? {
        return overrideConfig.value;
      }

      var normalized := NormalizeConfigLoadPath(env, targetPath);
      if normalized.Failure? {
        return EmptyConfig;
      }
      var configPath := normalized.value;

      if configPath in configMap {
        return configMap[configPath];
      }

      loadAttempts := loadAttempts + [configPath];
      var loaded := TryLoadConfig(env, configPath);
      if loaded.Success? {
        config := loaded.value;
        r.Infof(LoadedMessage(config.loadPath));
      } else {
        config := defaultConfig;
      }
      configMap := configMap[configPath := config];
    }
  }

  /**
    Two lookups of the same target in the same environment give the same
    configuration, and together load at most one file.
   */
  method GetTwice(m: ConfigManager, r: Reporter, env: Env, targetPath: string) returns (first: Config, second: Config)
    requires m.Valid()
    modifies m, r
    ensures m.Valid()
    ensures first == second
    ensures |m.loadAttempts| <= |old(m.loadAttempts)| + 1
    ensures m.overrideConfig == old(m.overrideConfig) && m.defaultConfig == old(m.defaultConfig)
  {
    first := m.Get(r, env, targetPath);
    second := m.Get(r, env, targetPath);
  }

  /**
    Once an override has been installed, every lookup returns it, whatever the
    target and the filesystem say, and touches neither the cache nor the log.
   */
  method OverrideThenGet(m: ConfigManager, r: Reporter, env: Env, configPath: string, targetEnv: Env, targetPath: string)
    returns (err: Option<LoadError>, config: Config)
    requires m.Valid()
    modifies m, r
    ensures m.Valid()
    ensures DecodeFile(env, configPath).Success? ==>
              && err == None
              && config == Stamped(DecodeFile(env, configPath).value, configPath)
              && config.loadPath == configPath
              && m.configMap == old(m.configMap) && r.infoLines == old(r.infoLines)
    ensures DecodeFile(env, configPath).Failure? ==> err == Some(DecodeFile(env, configPath).error)
  {
    err := m.UseOverride(env, configPath);
    config := m.Get(r, targetEnv, targetPath);
  }
}
