# osv-scanner configuration: a Dafny model

This project models the configuration core of osv-scanner (`pkg/config/config.go`). It has two parts.

- **Rule matching on a `Config`** (module `Rules`, `rules.dfy`). A configuration holds two ordered
  rule lists. `IgnoredVulns` ignores vulnerabilities by ID. `PackageOverrides` ignores packages, or
  overrides their licences, by name, version, ecosystem and dependency group. Empty match fields are
  wildcards. The first rule in list order that fits decides. Its expiry timestamp then says whether it
  is still in effect: a zero timestamp means "never expires", otherwise the rule applies only while the
  timestamp is strictly in the future.
- **The `ConfigManager`** (module `Manager`, `manager.dfy`). This is a class holding an optional
  override configuration, a default configuration and a cache from config path to configuration.
  `UseOverride` loads and installs an override. `Get` resolves the configuration for a scan target with
  this precedence: override, then cached entry, then a freshly loaded `osv-scanner.toml` from the
  target's directory, then the default. Load failures are cached as the default.

`slices.dfy` (module `Slices`) models Go's `slices.Contains` and `slices.IndexFunc`, which the rule
lookups are built on. `wrappers.dfy` holds `Option` and `Result`. `scenarios.dfy` checks concrete
situations against the model: an expired ignore, a group rule, first-match-wins over a more specific
rule, a sub-second expiry, a target with no configuration file and a target that cannot be stat'ed.

Timestamps are integer instants: nanoseconds since 0001-01-01 00:00:00 UTC, the resolution at
which Go's `time.Time.After` compares. So 0 is Go's zero `time.Time`. The current time is a `now`
parameter. The filesystem, the TOML decoder and the path functions `filepath.Dir` and
`filepath.Join` are the fields of an `Env` value passed to each call:
- `stat` returns `StatError`, `Directory` or `NotDirectory`;
- `read` returns `CannotOpen`, `Malformed` or `Decoded(config)`;
- `dir` and `join` are left uninterpreted.

The reporter is reduced to the list of informational lines it receives. A ghost field
`loadAttempts` records every config path that `Get` tried to load. The class invariant `Valid()`
says three things:
- these paths are pairwise distinct, so each resolved path is loaded at most once;
- they are exactly the cache keys;
- a cached value is either the default configuration or one whose `LoadPath` is its own key.

When the target cannot be stat'ed, `Get` returns an empty `Config{}`, not the manager's
`DefaultConfig`, and it caches nothing (`pkg/config/config.go:160-166`). One might expect
`DefaultConfig` here; the code returns `Config{}` (see the TODO at `pkg/config/config.go:162-163`)
and the model follows the code.

## Model

| member | source | states |
|---|---|---|
| `Slices.Contains` | pkg/config/config.go:61 | the group test is membership: true exactly when the value occurs in the sequence |
| `Slices.IndexFunc` | pkg/config/config.go:73-76 | returns -1 exactly when no element satisfies the test; otherwise an index whose element satisfies it and before which none does |
| `Rules.ShouldIgnore` | pkg/config/config.go:72-80 | no entry with the ID gives (false, zero entry); otherwise the lowest-index entry with the ID is returned, expired or not, together with the expiry policy applied to its `IgnoreUntil` |
| `Rules.AppendedIgnoresCannotPreempt` | pkg/config/config.go:73 | first match wins: once some entry has the ID, appending further entries never changes the result |
| `Rules.LeadingIgnoreGoverns` | pkg/config/config.go:73-79 | an entry placed first decides its own ID, whatever entries follow it |
| `Rules.Matches` | pkg/config/config.go:51-66 | a rule selects a package iff each non-empty name, version and ecosystem equals the package's and a non-empty group is among its dependency groups |
| `Rules.WildcardEntryMatchesEverything` | pkg/config/config.go:51-66 | a rule with all match fields empty selects every package |
| `Rules.EmptyVersionMatchesAnyVersion` | pkg/config/config.go:41-42 | a rule with an empty version gives the same answer whatever the package's version |
| `Rules.GroupEntryNeedsGroups` | pkg/config/config.go:61-63 | a rule naming a group never selects a package with no dependency groups |
| `Rules.FilterPackageVersionEntries` | pkg/config/config.go:82-92 | no rule that both matches and meets the condition gives (false, zero entry); otherwise the lowest-index such rule is returned with the expiry policy applied to its `EffectiveUntil` |
| `Rules.AppendedOverridesCannotPreempt` | pkg/config/config.go:83-85 | once some rule selects the package for the condition, appending further rules never changes the result |
| `Rules.FilterAgreesOnAlikePackages` | pkg/config/config.go:82-92 | two packages that every rule selects alike get the same decision |
| `Rules.ShouldIgnorePackage` | pkg/config/config.go:95-99 | the returned rule has `Ignore` set, matches the package and comes from the list, or the result is (false, zero entry); the first matching rule with `Ignore` set decides |
| `Rules.ShouldOverridePackageLicense` | pkg/config/config.go:113-117 | the returned rule has a non-empty licence override, matches the package and comes from the list, or the result is (false, zero entry); the first such rule decides |
| `Rules.BarePackage` | pkg/config/config.go:103-109 | the package the deprecated lookups build carries the given name, version and ecosystem and no dependency groups |
| `Rules.ShouldIgnorePackageVersion` | pkg/config/config.go:102-110 | the deprecated lookup never returns a rule naming a group; the first rule with no group, `Ignore` set and name, version and ecosystem each empty or equal to the arguments decides, through its expiry; with none, (false, zero entry) |
| `Rules.ShouldOverridePackageVersionLicense` | pkg/config/config.go:120-128 | the same for the deprecated licence lookup, with a non-empty licence override in place of `Ignore` |
| `Rules.DeprecatedLookupsAgreeWithoutGroupRules` | pkg/config/config.go:101-128 | when no rule names a group, both deprecated lookups equal their record-based counterparts for any dependency groups |
| `Rules.IgnoreCondition` | pkg/config/config.go:96-98 | the purpose of the ignore lookup: the rule has `Ignore` set |
| `Rules.LicenseOverrideCondition` | pkg/config/config.go:114-116 | the purpose of the licence lookup: the rule has at least one replacement licence |
| `Rules.ShouldIgnoreTimestamp` | pkg/config/config.go:130-138 | a zero timestamp is always in effect; a set one is in effect exactly while `now` is strictly before it (see the three lemmas below) |
| `Rules.UnsetExpiryNeverLapses` | pkg/config/config.go:131-134 | a zero timestamp is in effect at every instant |
| `Rules.ExpiryBoundary` | pkg/config/config.go:135-137 | a set timestamp is in effect strictly before it and not at or after it; exactly at the timestamp it is not |
| `Rules.ExpiryIsFinal` | pkg/config/config.go:137 | a rule that has lapsed at one instant has lapsed at every later instant |
| `Manager.NormalizeConfigLoadPath` | pkg/config/config.go:186-201 | fails, naming the target, exactly when the target cannot be stat'ed; otherwise returns `osv-scanner.toml` joined to the target when it is a directory and to its containing directory when it is not |
| `Manager.FileSharesConfigPathWithItsDirectory` | pkg/config/config.go:192-198 | a file and its containing directory resolve to the same config path, and so to one cache entry |
| `Manager.DecodeFile` | pkg/config/config.go:143-147 | succeeds exactly when the document decodes, with the decoded document; an unopenable file and a malformed one give distinct errors naming the path |
| `Manager.Stamped` | pkg/config/config.go:148 | the stamped configuration has the given `LoadPath` and keeps the rule lists and the Go version override |
| `Manager.TryLoadConfig` | pkg/config/config.go:205-221 | succeeds exactly when the file opens and decodes, with the decoded configuration stamped with the path; otherwise an error |
| `Manager.LoadedMessage` | pkg/config/config.go:175 | the informational line naming the path a configuration was loaded from |
| `Manager.Reporter.Infof` | pkg/config/config.go:175 | the reporter's log gains exactly the given line at its end |
| `Manager.ConfigManager.constructor` | pkg/config/config.go:17-24 | a new manager has no override, the given default, an empty cache and no loads |
| `Manager.ConfigManager.UseOverride` | pkg/config/config.go:142-152 | on a load failure returns the error and leaves the override as it was; on success installs the decoded configuration stamped with the path; the cache and default never change |
| `Manager.ConfigManager.Get` | pkg/config/config.go:155-183 | override first, with no state change; a failed stat gives the empty configuration and no state change; a cache hit returns the cached value with no load, log or state change; a miss inserts exactly the resolved key, holding the stamped and logged loaded configuration or the default on failure, and returns it; the invariant holds |
| `Manager.GetTwice` | pkg/config/config.go:168-182 | two lookups of the same target in the same environment return the same configuration and load at most one file between them |
| `Manager.OverrideThenGet` | pkg/config/config.go:156-158 | after a successful override every lookup returns it, for any target and filesystem, with cache and log untouched |
| `Scenarios.ExpiredIgnoreIsReported` | pkg/config/config.go:72-80 | an ignore that expired in 2020, evaluated in 2025, gives false together with the entry |
| `Scenarios.GroupRuleNeedsTheGroup` | pkg/config/config.go:61-63 | a rule for group "dev" ignores a package in "dev" and "test", and not one only in "test" |
| `Scenarios.EarlierRuleBeatsMoreSpecificOne` | pkg/config/config.go:83-89 | of two ignoring rules for one package, the earlier and broader one is returned |
| `Scenarios.SubSecondExpiryStillApplies` | pkg/config/config.go:137 | an expiry 0.3 s after `now`, within the same whole second (00:00:00.5 against 00:00:00.2), is still in effect, and not at the expiry itself |
| `Scenarios.MissingConfigFallsBackToDefault` | pkg/config/config.go:173-180 | a target whose directory has no configuration file gets a non-empty default, cached under that directory's `osv-scanner.toml` |
| `Scenarios.UnstatableTargetGetsEmptyConfig` | pkg/config/config.go:160-166 | a target that cannot be stat'ed gets the empty configuration, not the non-empty default, and nothing is cached |

## Left out

- TOML decoding (`toml.DecodeFile`, `toml.NewDecoder`) is a foreign library. It is the `read` oracle of `Env`, so unknown keys, zero values for missing keys and the decoder's error texts are not modelled.
- `os.Stat`, `os.Open` and `file.Close` are filesystem I/O. They are the `stat` and `read` oracles. A file that opens but then fails to decode is one `Malformed` outcome. The deferred close is not modelled.
- `filepath.Dir` and `filepath.Join` are uninterpreted functions of `Env`, so path cleaning and separators are not modelled.
- `time.Now()` and time zones: instants are absolute integers and `now` is a parameter. Go's monotonic clock reading and the location of a `time.Time` are not modelled.
- `reporter.Reporter` is reduced to a list of informational lines. Its other output channels are not used by this code.
- `Reason` and `GoVersionOverride` carry no behaviour; they are kept only as data.
- `models.PackageVulns` and `models.PackageInfo` are kept only as the fields the matching reads: name, version, ecosystem and dependency groups.
- A `ConfigManager` built with a nil `ConfigMap` panics in Go on its first insert. The model's constructor always creates an empty map, so that case is not modelled.
- Go's error wrapping texts (`fmt.Errorf`) become error constructors that name the path.
- Concurrency: the code has no synchronisation and the model assumes sequential use.
- The error that `normalizeConfigLoadPath` returns is discarded by `Get`; the model keeps it only as `PathError`.
