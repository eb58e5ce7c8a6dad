/**
  The policy configuration of osv-scanner and its pure decision functions:
  which vulnerability IDs are ignored, which packages are ignored or have
  their licence overridden, and when such a rule has expired.

  Timestamps are integer instants, nanoseconds since 0001-01-01 00:00:00 UTC
  (the resolution at which Go's `time.Time.After` compares), so that 0
  (`ZeroTime`) is Go's zero `time.Time`, which the configuration uses
  for "no expiry set". The current time is passed in as `now` instead of
  being read from the clock.
 */
module Rules {
  import opened Slices

  type Instant = int

  /** The zero timestamp: a rule whose expiry is this never expires. */
  const ZeroTime: Instant := 0

  /** A rule that ignores one vulnerability ID, optionally until an instant. */
  datatype IgnoreEntry = IgnoreEntry(id: string, ignoreUntil: Instant, reason: string)

  /** The licence identifiers that replace a package's detected licences. */
  datatype License = License(override: seq<string>)

  /**
    A rule over packages. Empty `name`, `version`, `ecosystem` and `group`
    are wildcards; `ignore` suppresses the package and a non-empty
    `license.override` relicenses it.
   */
  datatype PackageOverrideEntry = PackageOverrideEntry(
    name: string,
    version: string,
    ecosystem: string,
    group: string,
    ignore: bool,
    license: License,
    effectiveUntil: Instant,
    reason: string)

  /** One configuration document; rule order is significant (first match wins). */
  datatype Config = Config(
    ignoredVulns: seq<IgnoreEntry>,
    packageOverrides: seq<PackageOverrideEntry>,
    loadPath: string,
    goVersionOverride: string)

  /** The identifying part of a scanned package. */
  datatype PackageInfo = PackageInfo(name: string, version: string, ecosystem: string)

  /** A scanned package together with the dependency groups it belongs to. */
  datatype PackageVulns = PackageVulns(package: PackageInfo, depGroups: seq<string>)

  /** The pair a lookup returns: whether the rule is in effect, and the rule that was found. */
  datatype Decision<E> = Decision(applies: bool, entry: E)

  /** Go's zero values of the three record types. */
  const ZeroIgnoreEntry := IgnoreEntry("", ZeroTime, "")
  const ZeroPackageOverrideEntry := PackageOverrideEntry("", "", "", "", false, License([]), ZeroTime, "")
  const EmptyConfig := Config([], [], "", "")

  // ---------------------------------------------------------------------------
  // Expiry policy
  // ---------------------------------------------------------------------------

  /** Whether a rule with expiry `until` is still in effect at instant `now`. */
  function ShouldIgnoreTimestamp(until: Instant, now: Instant): (r: bool)
    ensures until == ZeroTime ==> r
    ensures until != ZeroTime ==> (r <==> now < until)
  {
    if until == ZeroTime then true
    else until > now
  }

  /** A rule without an expiry is in effect at every instant. */
  lemma UnsetExpiryNeverLapses(now: Instant)
    ensures ShouldIgnoreTimestamp(ZeroTime, now)
  {
  }

  /** A rule with an expiry is in effect strictly before it, and not at or after it. */
  lemma ExpiryBoundary(until: Instant, now: Instant)
    requires until != ZeroTime
    ensures now < until ==> ShouldIgnoreTimestamp(until, now)
    ensures until <= now ==> !ShouldIgnoreTimestamp(until, now)
    ensures !ShouldIgnoreTimestamp(until, until)
  {
  }

  /** Once a rule has lapsed it stays lapsed as time goes on. */
  lemma ExpiryIsFinal(until: Instant, earlier: Instant, later: Instant)
    requires earlier <= later
    requires !ShouldIgnoreTimestamp(until, earlier)
    ensures !ShouldIgnoreTimestamp(until, later)
  {
  }

  // ---------------------------------------------------------------------------
  // Vulnerability ignores
  // ---------------------------------------------------------------------------

  /** `i` is the lowest index of `entries` whose ID is `id`. */
  ghost predicate IsFirstWithId(entries: seq<IgnoreEntry>, id: string, i: int)
  {
    && 0 <= i < |entries|
    && entries[i].id == id
    && forall j :: 0 <= j < i ==> entries[j].id != id
  }

  /**
    The ignore rule for `vulnID`: the first entry with that ID decides, and it
    is returned even when it has expired; with no such entry the answer is
    "not ignored" together with the zero entry.
   */
  function ShouldIgnore(c: Config, vulnID: string, now: Instant): (r: Decision<IgnoreEntry>)
    ensures (forall i :: 0 <= i < |c.ignoredVulns| ==> c.ignoredVulns[i].id != vulnID) ==>
              r == Decision(false, ZeroIgnoreEntry)
    ensures forall i :: IsFirstWithId(c.ignoredVulns, vulnID, i) ==>
              r == Decision(ShouldIgnoreTimestamp(c.ignoredVulns[i].ignoreUntil, now), c.ignoredVulns[i])
  {
    var index := IndexFunc(c.ignoredVulns, (e: IgnoreEntry) => e.id == vulnID);
    if index == -1 then Decision(false, ZeroIgnoreEntry)
    else
      var ignoredLine := c.ignoredVulns[index];
      Decision(ShouldIgnoreTimestamp(ignoredLine.ignoreUntil, now), ignoredLine)
  }

  /** Rules appended after one that already names `vulnID` cannot change the decision. */
  lemma {:induction false} AppendedIgnoresCannotPreempt(c: Config, extra: seq<IgnoreEntry>, vulnID: string, now: Instant)
    requires exists i :: 0 <= i < |c.ignoredVulns| && c.ignoredVulns[i].id == vulnID
    ensures ShouldIgnore(c.(ignoredVulns := c.ignoredVulns + extra), vulnID, now) == ShouldIgnore(c, vulnID, now)
  {
    var k := IndexFunc(c.ignoredVulns, (e: IgnoreEntry) => e.id == vulnID);
    assert IsFirstWithId(c.ignoredVulns, vulnID, k);
    assert IsFirstWithId(c.ignoredVulns + extra, vulnID, k);
  }

  /** A rule put in front of the list governs its own ID, whatever follows it. */
  lemma {:induction false} LeadingIgnoreGoverns(c: Config, e: IgnoreEntry, now: Instant)
    ensures ShouldIgnore(c.(ignoredVulns := [e] + c.ignoredVulns), e.id, now)
            == Decision(ShouldIgnoreTimestamp(e.ignoreUntil, now), e)
  {
    assert IsFirstWithId([e] + c.ignoredVulns, e.id, 0);
  }

  // ---------------------------------------------------------------------------
  // Package overrides
  // ---------------------------------------------------------------------------

  /**
    Whether the rule `e` selects the package: every non-empty match field
    must equal the package's, and a non-empty group must be one of its
    dependency groups.
   */
  function Matches(e: PackageOverrideEntry, pkg: PackageVulns): (r: bool)
    ensures r <==>
              && (e.name == "" || e.name == pkg.package.name)
              && (e.version == "" || e.version == pkg.package.version)
              && (e.ecosystem == "" || e.ecosystem == pkg.package.ecosystem)
              && (e.group == "" || e.group in pkg.depGroups)
  {
    if e.name != "" && e.name != pkg.package.name then false
    else if e.version != "" && e.version != pkg.package.version then false
    else if e.ecosystem != "" && e.ecosystem != pkg.package.ecosystem then false
    else if e.group != "" && !Contains(pkg.depGroups, e.group) then false
    else true
  }

  /** A rule with every match field empty selects every package. */
  lemma WildcardEntryMatchesEverything(e: PackageOverrideEntry, pkg: PackageVulns)
    requires e.name == "" && e.version == "" && e.ecosystem == "" && e.group == ""
    ensures Matches(e, pkg)
  {
  }

  /** A rule with an empty version does not look at the package's version. */
  lemma EmptyVersionMatchesAnyVersion(e: PackageOverrideEntry, pkg: PackageVulns, otherVersion: string)
    requires e.version == ""
    ensures Matches(e, pkg) == Matches(e, pkg.(package := pkg.package.(version := otherVersion)))
  {
  }

  /** A rule naming a group never selects a package that belongs to no group. */
  lemma GroupEntryNeedsGroups(e: PackageOverrideEntry, pkg: PackageVulns)
    requires e.group != "" && pkg.depGroups == []
    ensures !Matches(e, pkg)
  {
  }

  /** `entry` both selects `pkg` and serves the purpose `condition`. */
  predicate Selects(entry: PackageOverrideEntry, pkg: PackageVulns, condition: PackageOverrideEntry -> bool)
  {
    Matches(entry, pkg) && condition(entry)
  }

  /** `i` is the lowest index of `entries` that selects `pkg` for `condition`. */
  ghost predicate IsFirstSelecting(entries: seq<PackageOverrideEntry>, pkg: PackageVulns,
                                   condition: PackageOverrideEntry -> bool, i: int)
  {
    && 0 <= i < |entries|
    && Selects(entries[i], pkg, condition)
    && forall j :: 0 <= j < i ==> !Selects(entries[j], pkg, condition)
  }

  /**
    The shared engine of the package lookups: the first rule that selects the
    package and satisfies `condition` decides, through its expiry; with none,
    "does not apply" together with the zero entry.
   */
  function FilterPackageVersionEntries(c: Config, pkg: PackageVulns,
                                       condition: PackageOverrideEntry -> bool, now: Instant)
    : (r: Decision<PackageOverrideEntry>)
    ensures (forall i :: 0 <= i < |c.packageOverrides| ==> !Selects(c.packageOverrides[i], pkg, condition)) ==>
              r == Decision(false, ZeroPackageOverrideEntry)
    ensures forall i :: IsFirstSelecting(c.packageOverrides, pkg, condition, i) ==>
              r == Decision(ShouldIgnoreTimestamp(c.packageOverrides[i].effectiveUntil, now), c.packageOverrides[i])
  {
    var index := IndexFunc(c.packageOverrides, (e: PackageOverrideEntry) => Selects(e, pkg, condition));
    if index == -1 then Decision(false, ZeroPackageOverrideEntry)
    else
      var ignoredLine := c.packageOverrides[index];
      Decision(ShouldIgnoreTimestamp(ignoredLine.effectiveUntil, now), ignoredLine)
  }

  /** Rules appended after one that already selects the package cannot change the decision. */
  lemma {:induction false} AppendedOverridesCannotPreempt(c: Config, extra: seq<PackageOverrideEntry>, pkg: PackageVulns,
                                                          condition: PackageOverrideEntry -> bool, now: Instant)
    requires exists i :: 0 <= i < |c.packageOverrides| && Selects(c.packageOverrides[i], pkg, condition)
    ensures FilterPackageVersionEntries(c.(packageOverrides := c.packageOverrides + extra), pkg, condition, now)
            == FilterPackageVersionEntries(c, pkg, condition, now)
  {
    var k := IndexFunc(c.packageOverrides, (e: PackageOverrideEntry) => Selects(e, pkg, condition));
    assert IsFirstSelecting(c.packageOverrides, pkg, condition, k);
    assert IsFirstSelecting(c.packageOverrides + extra, pkg, condition, k);
  }

  /** The purpose of `ShouldIgnorePackage`: the rule suppresses packages. */
  predicate IgnoreCondition(e: PackageOverrideEntry)
  {
    e.ignore
  }

  /** The purpose of `ShouldOverridePackageLicense`: the rule carries replacement licences. */
  predicate LicenseOverrideCondition(e: PackageOverrideEntry)
  {
    |e.license.override| > 0
  }

  /**
    Whether the package is ignored: the first rule that selects it and has
    `ignore` set decides; any rule returned has `ignore` set.
   */
  function ShouldIgnorePackage(c: Config, pkg: PackageVulns, now: Instant): (r: Decision<PackageOverrideEntry>)
    ensures r.entry.ignore || r == Decision(false, ZeroPackageOverrideEntry)
    ensures r.entry.ignore ==> Matches(r.entry, pkg) && r.entry in c.packageOverrides
    ensures (forall i :: 0 <= i < |c.packageOverrides| ==> !Selects(c.packageOverrides[i], pkg, IgnoreCondition)) ==>
              r == Decision(false, ZeroPackageOverrideEntry)
    ensures forall i :: IsFirstSelecting(c.packageOverrides, pkg, IgnoreCondition, i) ==>
              r == Decision(ShouldIgnoreTimestamp(c.packageOverrides[i].effectiveUntil, now), c.packageOverrides[i])
  {
    FilterPackageVersionEntries(c, pkg, IgnoreCondition, now)
  }

  /**
    Whether the package's licence is overridden: the first rule that selects
    it and carries replacement licences decides; any rule returned carries them.
   */
  function ShouldOverridePackageLicense(c: Config, pkg: PackageVulns, now: Instant): (r: Decision<PackageOverrideEntry>)
    ensures |r.entry.license.override| > 0 || r == Decision(false, ZeroPackageOverrideEntry)
    ensures |r.entry.license.override| > 0 ==> Matches(r.entry, pkg) && r.entry in c.packageOverrides
    ensures (forall i :: 0 <= i < |c.packageOverrides| ==> !Selects(c.packageOverrides[i], pkg, LicenseOverrideCondition)) ==>
              r == Decision(false, ZeroPackageOverrideEntry)
    ensures forall i :: IsFirstSelecting(c.packageOverrides, pkg, LicenseOverrideCondition, i) ==>
              r == Decision(ShouldIgnoreTimestamp(c.packageOverrides[i].effectiveUntil, now), c.packageOverrides[i])
  {
    FilterPackageVersionEntries(c, pkg, LicenseOverrideCondition, now)
  }

  /** The package record the deprecated lookups build: no dependency groups. */
  function BarePackage(name: string, version: string, ecosystem: string): (r: PackageVulns)
    ensures r.package.name == name && r.package.version == version && r.package.ecosystem == ecosystem
    ensures |r.depGroups| == 0
  {
    PackageVulns(PackageInfo(name, version, ecosystem), [])
  }

  /**
    What the deprecated lookups select by, stated without `Matches`: the rule
    names no group, each of its name, version and ecosystem is empty or equal
    to the argument, and it serves `condition`.
   */
  predicate SelectsByFields(entry: PackageOverrideEntry, name: string, version: string, ecosystem: string,
                            condition: PackageOverrideEntry -> bool)
  {
    && entry.group == ""
    && (entry.name == "" || entry.name == name)
    && (entry.version == "" || entry.version == version)
    && (entry.ecosystem == "" || entry.ecosystem == ecosystem)
    && condition(entry)
  }

  /** `i` is the lowest index of `entries` that selects by fields for `condition`. */
  ghost predicate IsFirstSelectingByFields(entries: seq<PackageOverrideEntry>, name: string, version: string,
                                           ecosystem: string, condition: PackageOverrideEntry -> bool, i: int)
  {
    && 0 <= i < |entries|
    && SelectsByFields(entries[i], name, version, ecosystem, condition)
    && forall j :: 0 <= j < i ==> !SelectsByFields(entries[j], name, version, ecosystem, condition)
  }

  /** On the package the deprecated lookups build, selecting is selecting by fields. */
  lemma BareSelectsByFields(entries: seq<PackageOverrideEntry>, name: string, version: string, ecosystem: string,
                            condition: PackageOverrideEntry -> bool)
    ensures forall i :: 0 <= i < |entries| ==>
              (Selects(entries[i], BarePackage(name, version, ecosystem), condition)
               <==> SelectsByFields(entries[i], name, version, ecosystem, condition))
  {
  }

  /**
    Deprecated lookup by name, version and ecosystem: the first rule that
    names no group, has `ignore` set and whose name, version and ecosystem
    are empty or equal to the arguments decides; with none, "not ignored"
    together with the zero entry.
   */
  function ShouldIgnorePackageVersion(c: Config, name: string, version: string, ecosystem: string, now: Instant)
    : (r: Decision<PackageOverrideEntry>)
    ensures r.entry.group == ""
    ensures r.entry.ignore || r == Decision(false, ZeroPackageOverrideEntry)
    ensures (forall i :: 0 <= i < |c.packageOverrides| ==>
               !SelectsByFields(c.packageOverrides[i], name, version, ecosystem, IgnoreCondition)) ==>
              r == Decision(false, ZeroPackageOverrideEntry)
    ensures forall i :: IsFirstSelectingByFields(c.packageOverrides, name, version, ecosystem, IgnoreCondition, i) ==>
              r == Decision(ShouldIgnoreTimestamp(c.packageOverrides[i].effectiveUntil, now), c.packageOverrides[i])
  {
    BareSelectsByFields(c.packageOverrides, name, version, ecosystem, IgnoreCondition);
    ShouldIgnorePackage(c, BarePackage(name, version, ecosystem), now)
  }

  /**
    Deprecated licence lookup by name, version and ecosystem: as above, with
    "carries replacement licences" in place of `ignore`.
   */
  function ShouldOverridePackageVersionLicense(c: Config, name: string, version: string, ecosystem: string, now: Instant)
    : (r: Decision<PackageOverrideEntry>)
    ensures r.entry.group == ""
    ensures |r.entry.license.override| > 0 || r == Decision(false, ZeroPackageOverrideEntry)
    ensures (forall i :: 0 <= i < |c.packageOverrides| ==>
               !SelectsByFields(c.packageOverrides[i], name, version, ecosystem, LicenseOverrideCondition)) ==>
              r == Decision(false, ZeroPackageOverrideEntry)
    ensures forall i :: IsFirstSelectingByFields(c.packageOverrides, name, version, ecosystem, LicenseOverrideCondition, i) ==>
              r == Decision(ShouldIgnoreTimestamp(c.packageOverrides[i].effectiveUntil, now), c.packageOverrides[i])
  {
    BareSelectsByFields(c.packageOverrides, name, version, ecosystem, LicenseOverrideCondition);
    ShouldOverridePackageLicense(c, BarePackage(name, version, ecosystem), now)
  }

  /** Two packages that every rule selects alike get the same decision. */
  lemma {:induction false} FilterAgreesOnAlikePackages(c: Config, p: PackageVulns, q: PackageVulns,
                                                       condition: PackageOverrideEntry -> bool, now: Instant)
    requires forall i :: 0 <= i < |c.packageOverrides| ==>
               Selects(c.packageOverrides[i], p, condition) == Selects(c.packageOverrides[i], q, condition)
    ensures FilterPackageVersionEntries(c, p, condition, now) == FilterPackageVersionEntries(c, q, condition, now)
  {
    IndexFuncAgrees(c.packageOverrides, (e: PackageOverrideEntry) => Selects(e, p, condition),
                    (e: PackageOverrideEntry) => Selects(e, q, condition));
  }

  /**
    Where no rule names a group, the deprecated lookups agree with the
    record-based ones whatever dependency groups the package has.
   */
  lemma {:induction false} DeprecatedLookupsAgreeWithoutGroupRules(c: Config, name: string, version: string, ecosystem: string,
                                                                   depGroups: seq<string>, now: Instant)
    requires forall i :: 0 <= i < |c.packageOverrides| ==> c.packageOverrides[i].group == ""
    ensures ShouldIgnorePackageVersion(c, name, version, ecosystem, now)
            == ShouldIgnorePackage(c, PackageVulns(PackageInfo(name, version, ecosystem), depGroups), now)
    ensures ShouldOverridePackageVersionLicense(c, name, version, ecosystem, now)
            == ShouldOverridePackageLicense(c, PackageVulns(PackageInfo(name, version, ecosystem), depGroups), now)
  {
    var full := PackageVulns(PackageInfo(name, version, ecosystem), depGroups);
    FilterAgreesOnAlikePackages(c, BarePackage(name, version, ecosystem), full, IgnoreCondition, now);
    FilterAgreesOnAlikePackages(c, BarePackage(name, version, ecosystem), full, LicenseOverrideCondition, now);
  }
}
