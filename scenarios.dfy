/** Concrete situations checked against the model. */
module Scenarios {
  import opened Rules
  import opened Wrappers
  import opened Manager

  /** 2020-01-01 and 2025-01-01, 00:00 UTC, as nanoseconds since Go's zero time. */
  const Jan2020: Instant := 63713433600 * 1_000_000_000
  const Jan2025: Instant := 63871286400 * 1_000_000_000

  /**
    An ignore expiring at 00:00:00.5 is still in effect at 00:00:00.2, 0.3 s
    before it and within the same whole second, and not at the expiry itself.
   */
  lemma SubSecondExpiryStillApplies()
    ensures ShouldIgnoreTimestamp(Jan2025 + 500_000_000, Jan2025 + 200_000_000)
    ensures !ShouldIgnoreTimestamp(Jan2025 + 500_000_000, Jan2025 + 500_000_000)
  {
  }

  /** An ignore that expired in 2020 no longer applies in 2025, but is still reported. */
  lemma ExpiredIgnoreIsReported()
    ensures var entry := IgnoreEntry("CVE-1", Jan2020, "");
            ShouldIgnore(EmptyConfig.(ignoredVulns := [entry]), "CVE-1", Jan2025) == Decision(false, entry)
  {
    var entry := IgnoreEntry("CVE-1", Jan2020, "");
    assert IsFirstWithId([entry], "CVE-1", 0);
  }

  /** A rule for group "dev" selects a package in "dev" and "test", but not one only in "test". */
  lemma GroupRuleNeedsTheGroup()
    ensures var rule := ZeroPackageOverrideEntry.(name := "foo", group := "dev", ignore := true);
            var c := EmptyConfig.(packageOverrides := [rule]);
            && ShouldIgnorePackage(c, PackageVulns(PackageInfo("foo", "", ""), ["dev", "test"]), Jan2025)
               == Decision(true, rule)
            && ShouldIgnorePackage(c, PackageVulns(PackageInfo("foo", "", ""), ["test"]), Jan2025)
               == Decision(false, ZeroPackageOverrideEntry)
  {
    var rule := ZeroPackageOverrideEntry.(name := "foo", group := "dev", ignore := true);
    var c := EmptyConfig.(packageOverrides := [rule]);
    assert IsFirstSelecting(c.packageOverrides, PackageVulns(PackageInfo("foo", "", ""), ["dev", "test"]), IgnoreCondition, 0);
    assert "dev" !in ["test"];
  }

  /** The earlier of two rules selecting a package wins, even over a more specific later one. */
  lemma EarlierRuleBeatsMoreSpecificOne(pkg: PackageVulns)
    requires pkg.package == PackageInfo("foo", "1.0.0", "npm")
    ensures var broad := ZeroPackageOverrideEntry.(name := "foo", ignore := true, reason := "all versions");
            var narrow := ZeroPackageOverrideEntry.(name := "foo", version := "1.0.0", ecosystem := "npm",
                                                    ignore := true, reason := "this version");
            ShouldIgnorePackage(EmptyConfig.(packageOverrides := [broad, narrow]), pkg, Jan2025)
              == Decision(true, broad)
  {
    var broad := ZeroPackageOverrideEntry.(name := "foo", ignore := true, reason := "all versions");
    var narrow := ZeroPackageOverrideEntry.(name := "foo", version := "1.0.0", ecosystem := "npm",
                                            ignore := true, reason := "this version");
    assert IsFirstSelecting([broad, narrow], pkg, IgnoreCondition, 0);
  }

  /** A filesystem holding the manifest /repo/a/package.json and no configuration file. */
  function RepoWithoutConfig(): Env
  {
    Env(
      p => if p == "/repo/a/package.json" then NotDirectory
           else if p == "/repo/a" then Directory
           else StatError,
      p => CannotOpen,
      p => if p == "/repo/a/package.json" then "/repo/a" else p,
      (d, f) => d + "/" + f)
  }

  /** A default configuration that differs from the empty one. */
  const PinnedDefault := EmptyConfig.(goVersionOverride := "1.22")

  /**
    A target whose directory holds no configuration file gets the default
    configuration, which is then cached under /repo/a/osv-scanner.toml.
   */
  method MissingConfigFallsBackToDefault() returns (config: Config, cache: map<string, Config>)
    ensures config == PinnedDefault
    ensures cache == map["/repo/a/osv-scanner.toml" := PinnedDefault]
  {
    var m := new ConfigManager(PinnedDefault);
    var r := new Reporter();
    assert NormalizeConfigLoadPath(RepoWithoutConfig(), "/repo/a/package.json")
           == Success("/repo/a" + "/" + ConfigFileName);
    assert "/repo/a" + "/" + ConfigFileName == "/repo/a/osv-scanner.toml";
    config := m.Get(r, RepoWithoutConfig(), "/repo/a/package.json");
    cache := m.configMap;
  }

  /**
    A target that cannot be stat'ed gets the empty configuration, not the
    default, and nothing is cached.
   */
  method UnstatableTargetGetsEmptyConfig() returns (config: Config, cache: map<string, Config>)
    ensures config == EmptyConfig && config != PinnedDefault
    ensures cache == map[]
  {
    var m := new ConfigManager(PinnedDefault);
    var r := new Reporter();
    config := m.Get(r, RepoWithoutConfig(), "docker:alpine");
    cache := m.configMap;
  }
}
