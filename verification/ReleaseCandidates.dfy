/** Which releases the updater offers: those of a channel and a line that are complete for the router,
    newest first. */
module ReleaseCandidates {
  import opened Wrappers
  import opened Text
  import opened ReleaseOrder

  /** A release as published; its date is its rank among the dates as localeCompare orders them. */
  datatype Release = Release(tagName: string, draft: bool, prerelease: bool, assets: seq<string>, date: nat)

  datatype Updater = Updater(canUpdate: bool, packageManager: string, assetSuffix: string, installedRelease: string)

  datatype Package = Package(name: string, version: string)

  datatype Plan =
    | Incompatible
    | Compatible(tag: string, version: string, comparison: Option<int>, required: seq<string>)

  const PACKAGES := ["luci-theme-freenetic", "luci-app-freenetic", "luci-i18n-theme-freenetic-ru", "luci-i18n-freenetic-ru"]
  const COMPARED := ["luci-theme-freenetic", "luci-app-freenetic"]
  const APP := "luci-app-freenetic-"

  // ---------- assets ----------

  predicate EndsWith(s: string, suffix: string) {
    |suffix| <= |s| && s[|s| - |suffix|..] == suffix
  }

  /** name.slice(prefix.length, -suffix.length). */
  function Middle(name: string, prefix: string, suffix: string): string {
    if |name| < |prefix| + |suffix| then "" else name[|prefix|..|name| - |suffix|]
  }

  function PackageSuffix(u: Updater): string {
    if u.packageManager == "apk" then "-" + u.assetSuffix + ".apk" else "-all.ipk"
  }

  predicate IsAppAsset(name: string, u: Updater) {
    StartsWith(name, APP) && EndsWith(name, PackageSuffix(u))
  }

  /** The first application asset for the router. */
  function FindApp(assets: seq<string>, u: Updater): Option<string> {
    if assets == [] then None else if IsAppAsset(assets[0], u) then Some(assets[0]) else FindApp(assets[1..], u)
  }

  predicate IsVersionChar(c: char) {
    IsDigit(c) || IsLetter(c) || c == '.' || c == '_' || c == '-'
  }

  predicate IsVersion(s: string) {
    s != "" && IsDigit(s[0]) && forall k :: 0 <= k < |s| ==> IsVersionChar(s[k])
  }

  /** Everything a release of this version must have for the router. */
  function Required(version: string, u: Updater): seq<string> {
    var suffix := "-" + version + PackageSuffix(u);
    [PACKAGES[0] + suffix, PACKAGES[1] + suffix, PACKAGES[2] + suffix, PACKAGES[3] + suffix,
     "fnc-" + version + "-" + u.assetSuffix + "-" + (if u.packageManager == "apk" then "apk" else "ipk")]
  }

  predicate IsComplete(assets: seq<string>, version: string, u: Updater) {
    forall name :: name in Required(version, u) ==> name in assets
  }

  predicate IsTarget(u: Updater) {
    && u.canUpdate && (u.packageManager == "apk" || u.packageManager == "opkg")
    && (u.assetSuffix == "aarch64_cortex-a53" || u.assetSuffix == "mipsel_24kc" || u.assetSuffix == "x86_64")
  }

  // ---------- builds ----------

  function DigitRun(s: string): (n: nat)
    ensures n <= |s| && AllDigits(s[..n])
  {
    if s == "" || !IsDigit(s[0]) then 0
    else
      assert s[..1 + DigitRun(s[1..])] == [s[0]] + s[1..][..DigitRun(s[1..])];
      1 + DigitRun(s[1..])
  }

  function Undotted(s: string): string {
    if s == "" then "" else [if s[0] == '~' then '.' else s[0]] + Undotted(s[1..])
  }

  /** Three numbers separated by points at the beginning. */
  function BuildVersion(value: string): Option<(nat, nat, nat)> {
    var s := Undotted(value);
    var a := DigitRun(s);
    if a == 0 || a == |s| || s[a] != '.' then None
    else
      var t := s[a + 1..];
      var b := DigitRun(t);
      if b == 0 || b == |t| || t[b] != '.' then None
      else
        var u := t[b + 1..];
        var c := DigitRun(u);
        if c == 0 then None
        else Some((ParseDecimal(s[..a]), ParseDecimal(t[..b]), ParseDecimal(u[..c])))
  }

  function CompareBuilds(x: (nat, nat, nat), y: (nat, nat, nat)): int {
    if x.0 != y.0 then if x.0 > y.0 then 1 else -1
    else if x.1 != y.1 then if x.1 > y.1 then 1 else -1
    else if x.2 != y.2 then if x.2 > y.2 then 1 else -1
    else 0
  }

  function InstalledBuilds(installed: seq<Package>): seq<(nat, nat, nat)> {
    if installed == [] then []
    else
      var p := installed[0];
      var build := BuildVersion(p.version);
      (if p.name in COMPARED && build.Some? then [build.value] else []) + InstalledBuilds(installed[1..])
  }

  /** Newer than some installed build, the same as all, or neither; None where nothing can be compared. */
  function Comparison(version: string, installed: seq<Package>): Option<int> {
    var build, current := BuildVersion(version), InstalledBuilds(installed);
    if build == None || current == [] then None
    else if exists k :: 0 <= k < |current| && CompareBuilds(build.value, current[k]) > 0 then Some(1)
    else if forall k :: 0 <= k < |current| ==> CompareBuilds(build.value, current[k]) == 0 then Some(0)
    else Some(-1)
  }

  // ---------- plans ----------

  predicate IsTagText(s: string) {
    Trim(s) == s && ParseTag(s).Some?
  }

  /** freeneticReleasePlan, without the reasons of a refusal. */
  function ReleasePlan(r: Release, u: Updater, installed: seq<Package>): Plan {
    if !IsTagText(r.tagName) || !IsTarget(u) then Incompatible
    else
      var app := FindApp(r.assets, u);
      if app == None then Incompatible
      else
        var version := Middle(app.value, APP, PackageSuffix(u));
        if !IsVersion(version) || !IsComplete(r.assets, version, u) then Incompatible
        else
          var builds := Comparison(version, installed);
          var comparison :=
            if builds == Some(0) && ParseTag(u.installedRelease).Some? then Some(CompareTexts(r.tagName, u.installedRelease))
            else builds;
          Compatible(r.tagName, version, comparison, Required(version, u))
  }

  /** Every asset that a compatible plan names is there, all of one version, with the application first. */
  lemma CompatibleIsComplete(r: Release, u: Updater, installed: seq<Package>)
    ensures var plan := ReleasePlan(r, u, installed);
      plan.Compatible? ==>
        && IsTarget(u) && IsVersion(plan.version) && plan.required == Required(plan.version, u)
        && (forall name :: name in plan.required ==> name in r.assets)
        && APP + plan.version + PackageSuffix(u) in plan.required
  {
    hide IsAppAsset, Middle, IsVersion, IsTarget, IsTagText, Comparison, CompareTexts, ParseTag, PackageSuffix, FindApp;
    var plan := ReleasePlan(r, u, installed);
    if plan.Compatible? {
      AppName(plan.version, u);
      assert Required(plan.version, u)[1] in Required(plan.version, u);
    }
  }

  lemma AppName(version: string, u: Updater)
    ensures Required(version, u)[1] == APP + version + PackageSuffix(u)
  {
    var t := PackageSuffix(u);
    hide PackageSuffix;
    assert PACKAGES[1] + ("-" + version + t) == PACKAGES[1] + "-" + version + t;
    assert PACKAGES[1] + "-" == APP;
  }

  lemma {:induction false} SingleFound(assets: seq<string>, u: Updater, k: nat)
    requires k < |assets| && IsAppAsset(assets[k], u) && forall j :: 0 <= j < k ==> !IsAppAsset(assets[j], u)
    ensures FindApp(assets, u) == Some(assets[k])
  {
    hide IsAppAsset;
    if k > 0 {
      SingleFound(assets[1..], u, k - 1);
    }
  }

  /** A release is offered exactly when the version of its first application asset for the router is
      complete. */
  lemma OfferedWhenComplete(r: Release, u: Updater, installed: seq<Package>, k: nat)
    requires IsTagText(r.tagName) && IsTarget(u)
    requires k < |r.assets| && IsAppAsset(r.assets[k], u) && forall j :: 0 <= j < k ==> !IsAppAsset(r.assets[j], u)
    ensures var version := Middle(r.assets[k], APP, PackageSuffix(u));
      ReleasePlan(r, u, installed).Compatible? <==> IsVersion(version) && IsComplete(r.assets, version, u)
  {
    hide *;
    SingleFound(r.assets, u, k);
    PlanOfApp(r, u, installed, r.assets[k]);
  }

  lemma PlanOfApp(r: Release, u: Updater, installed: seq<Package>, app: string)
    requires IsTagText(r.tagName) && IsTarget(u) && FindApp(r.assets, u) == Some(app)
    ensures ReleasePlan(r, u, installed).Compatible? <==>
      IsVersion(Middle(app, APP, PackageSuffix(u))) && IsComplete(r.assets, Middle(app, APP, PackageSuffix(u)), u)
  {
    hide Middle, IsVersion, IsComplete, IsTagText, IsTarget, Comparison, CompareTexts, ParseTag, FindApp, Required, PackageSuffix;
  }

  /** The version of the first application asset for the router is one, and everything it needs is there. */
  ghost predicate IsCompleteRelease(r: Release, u: Updater) {
    && IsTagText(r.tagName) && IsTarget(u)
    && exists k: nat ::
         && IsFirstApp(r.assets, u, k)
         && IsVersion(Middle(r.assets[k], APP, PackageSuffix(u))) && IsComplete(r.assets, Middle(r.assets[k], APP, PackageSuffix(u)), u)
  }

  ghost predicate IsFirstApp(assets: seq<string>, u: Updater, k: nat) {
    k < |assets| && IsAppAsset(assets[k], u) && forall j :: 0 <= j < k ==> !IsAppAsset(assets[j], u)
  }

  lemma {:induction false} FirstApp(assets: seq<string>, u: Updater)
    ensures FindApp(assets, u).Some? <==> exists k: nat :: IsFirstApp(assets, u, k)
  {
    hide IsAppAsset;
    if assets != [] && !IsAppAsset(assets[0], u) {
      FirstApp(assets[1..], u);
      if k: nat :| IsFirstApp(assets[1..], u, k) {
        assert IsFirstApp(assets, u, k + 1);
      }
      if k: nat :| IsFirstApp(assets, u, k) {
        assert IsFirstApp(assets[1..], u, k - 1);
      }
    } else if assets != [] {
      assert IsFirstApp(assets, u, 0);
    }
  }

  lemma CompatibleExactly(r: Release, u: Updater, installed: seq<Package>)
    ensures ReleasePlan(r, u, installed).Compatible? <==> IsCompleteRelease(r, u)
  {
    FirstApp(r.assets, u);
    forall k: nat | IsTagText(r.tagName) && IsTarget(u) && IsFirstApp(r.assets, u, k)
      ensures ReleasePlan(r, u, installed).Compatible? <==>
        var version := Middle(r.assets[k], APP, PackageSuffix(u)); IsVersion(version) && IsComplete(r.assets, version, u)
      ensures forall j: nat :: IsFirstApp(r.assets, u, j) ==> j == k
    {
      OfferedWhenComplete(r, u, installed, k);
      hide IsAppAsset;
    }
    hide Middle, IsVersion, IsComplete, IsTagText, IsTarget, Comparison, CompareTexts, ParseTag, PackageSuffix, Required, IsFirstApp;
  }

  // ---------- candidates ----------

  datatype Candidate = Candidate(release: Release, plan: Plan)

  predicate IsLine(s: string) {
    var parts := Split(s, '.');
    |parts| == 2 && IsNumeral(parts[0]) && IsNumeral(parts[1])
  }

  /** The line of a tag, as written; empty where there is no tag. */
  function ReleaseLine(tagName: string): string {
    var t := ParseTag(tagName);
    if t == None then "" else t.value.major + "." + t.value.minor
  }

  predicate IsSelected(r: Release, beta: bool, line: string) {
    && !r.draft && r.prerelease == beta
    && (IsLine(line) ==> ReleaseLine(r.tagName) == line)
  }

  /** The order of the list: later tags first, and among equal ones later dates. */
  predicate NotBehind(a: Candidate, b: Candidate) {
    var c := CompareTexts(b.release.tagName, a.release.tagName);
    c < 0 || (c == 0 && a.release.date >= b.release.date)
  }

  ghost predicate NewestFirst(cs: seq<Candidate>) {
    forall i, j :: 0 <= i < j < |cs| ==> NotBehind(cs[i], cs[j])
  }

  /** A tag without leading zeros in its numbers. */
  ghost predicate HasCanonicalTag(c: Candidate) {
    var t := ParseTag(c.release.tagName);
    t.Some? && IsCanonicalTag(t.value)
  }

  ghost predicate AllCanonicalTags(cs: seq<Candidate>) {
    forall k :: 0 <= k < |cs| ==> HasCanonicalTag(cs[k])
  }

  /** The releases on offer, with their plans, as they are listed. */
  function Offers(releases: seq<Release>, u: Updater, installed: seq<Package>, beta: bool, line: string): seq<Candidate> {
    if releases == [] then []
    else
      var r := releases[0];
      var plan := ReleasePlan(r, u, installed);
      (if IsSelected(r, beta, line) && plan.Compatible? then [Candidate(r, plan)] else [])
      + Offers(releases[1..], u, installed, beta, line)
  }

  /** On offer: a complete release of the channel and the line, with the plan made for it. */
  ghost predicate IsOffer(c: Candidate, releases: seq<Release>, u: Updater, installed: seq<Package>, beta: bool, line: string) {
    && c.release in releases && IsSelected(c.release, beta, line) && IsCompleteRelease(c.release, u)
    && c.plan == ReleasePlan(c.release, u, installed)
  }

  /** Exactly the complete releases of the channel and the line are on offer. */
  lemma {:induction false} OfferedExactly(releases: seq<Release>, u: Updater, installed: seq<Package>, beta: bool, line: string,
                                          c: Candidate)
    ensures c in Offers(releases, u, installed, beta, line) <==> IsOffer(c, releases, u, installed, beta, line)
  {
    hide ReleasePlan, IsSelected, IsCompleteRelease;
    CompatibleExactly(c.release, u, installed);
    if releases != [] {
      OfferedExactly(releases[1..], u, installed, beta, line, c);
    }
  }

  lemma NotBehindOrder(a: Candidate, b: Candidate, c: Candidate)
    requires HasCanonicalTag(a) && HasCanonicalTag(b) && HasCanonicalTag(c)
    ensures NotBehind(a, b) || NotBehind(b, a)
    ensures NotBehind(a, b) && NotBehind(b, c) ==> NotBehind(a, c)
  {
    hide CompareTags, IsCanonicalTag, ParseTag;
    var x, y, z := ParseTag(a.release.tagName).value, ParseTag(b.release.tagName).value, ParseTag(c.release.tagName).value;
    ParsedIsTag(a.release.tagName);
    ParsedIsTag(b.release.tagName);
    ParsedIsTag(c.release.tagName);
    hide IsTag;
    TotalOrder(x, y, z);
    TotalOrder(y, x, z);
    TotalOrder(z, y, x);
    TotalOrder(y, z, x);
    TotalOrder(x, z, y);
    TotalOrder(z, x, y);
  }

  /** The sort by tag and date: nothing is lost, and for tags without leading zeros the newest come first. */
  method SortCandidates(cs: seq<Candidate>) returns (sorted: seq<Candidate>)
    ensures multiset(sorted) == multiset(cs)
    ensures AllCanonicalTags(cs) ==> NewestFirst(sorted)
  {
    hide NotBehind, HasCanonicalTag;
    sorted := [];
    assert cs[..0] == [];
    for n := 0 to |cs|
      invariant multiset(sorted) == multiset(cs[..n])
      invariant AllCanonicalTags(cs) ==> AllCanonicalTags(sorted) && NewestFirst(sorted)
    {
      var p := |sorted|;
      while p > 0 && !NotBehind(sorted[p - 1], cs[n])
        invariant 0 <= p <= |sorted|
        invariant forall j :: p <= j < |sorted| ==> !NotBehind(sorted[j], cs[n])
      {
        p := p - 1;
      }
      InsertedMembers(sorted, p, cs[n]);
      if AllCanonicalTags(cs) {
        InsertedSorted(sorted, p, cs[n]);
      }
      assert cs[..n + 1] == cs[..n] + [cs[n]];
      sorted := InsertAt(sorted, p, cs[n]);
    }
    assert cs[..|cs|] == cs;
  }

  function InsertAt(cs: seq<Candidate>, p: nat, c: Candidate): seq<Candidate>
    requires p <= |cs|
  {
    cs[..p] + [c] + cs[p..]
  }

  lemma InsertedMembers(sorted: seq<Candidate>, p: nat, c: Candidate)
    requires p <= |sorted|
    ensures multiset(InsertAt(sorted, p, c)) == multiset(sorted) + multiset{c}
  {
    assert sorted == sorted[..p] + sorted[p..];
  }

  lemma InsertedSorted(sorted: seq<Candidate>, p: nat, c: Candidate)
    requires p <= |sorted| && (p > 0 ==> NotBehind(sorted[p - 1], c))
    requires forall j :: p <= j < |sorted| ==> !NotBehind(sorted[j], c)
    requires AllCanonicalTags(sorted) && NewestFirst(sorted) && HasCanonicalTag(c)
    ensures AllCanonicalTags(InsertAt(sorted, p, c)) && NewestFirst(InsertAt(sorted, p, c))
  {
    hide NotBehind, HasCanonicalTag;
    var after := InsertAt(sorted, p, c);
    forall i, j | 0 <= i < j < |after|
      ensures NotBehind(after[i], after[j])
    {
      if j == p {
        if i < p - 1 {
          NotBehindOrder(sorted[i], sorted[p - 1], c);
        }
      } else if i == p {
        NotBehindOrder(sorted[j - 1], c, c);
      }
    }
  }

  /** Every asset that the plan of a candidate needs is there, all of one version, with the application. */
  ghost predicate CanUpdate(c: Candidate, u: Updater) {
    && c.plan.Compatible? && c.plan.required == Required(c.plan.version, u)
    && (forall name :: name in c.plan.required ==> name in c.release.assets)
    && APP + c.plan.version + PackageSuffix(u) in c.plan.required
  }

  method ReleaseCandidates(releases: seq<Release>, u: Updater, installed: seq<Package>, channel: string, line: string)
    returns (candidates: seq<Candidate>)
    ensures multiset(candidates) == multiset(Offers(releases, u, installed, channel == "beta", line))
    ensures forall c :: c in candidates <==> IsOffer(c, releases, u, installed, channel == "beta", line)
    ensures forall c :: c in candidates ==> CanUpdate(c, u)
    ensures AllCanonicalTags(candidates) ==> NewestFirst(candidates)
  {
    hide IsOffer, CanUpdate, HasCanonicalTag, NotBehind;
    var offers := Offers(releases, u, installed, channel == "beta", line);
    candidates := SortCandidates(offers);
    SameMembers(candidates, offers);
    forall c
      ensures c in candidates <==> IsOffer(c, releases, u, installed, channel == "beta", line)
    {
      OfferedExactly(releases, u, installed, channel == "beta", line, c);
    }
    forall c | c in candidates
      ensures CanUpdate(c, u)
    {
      OfferCanUpdate(c, releases, u, installed, channel == "beta", line);
    }
  }

  lemma SameMembers(a: seq<Candidate>, b: seq<Candidate>)
    requires multiset(a) == multiset(b)
    ensures forall c :: c in a <==> c in b
    ensures AllCanonicalTags(a) <==> AllCanonicalTags(b)
  {
    hide HasCanonicalTag;
    forall c
      ensures c in a <==> c in b
    {
      assert c in a <==> c in multiset(a);
    }
    if AllCanonicalTags(a) {
      forall k | 0 <= k < |b|
        ensures HasCanonicalTag(b[k])
      {
        assert b[k] in a;
      }
    }
    if AllCanonicalTags(b) {
      forall k | 0 <= k < |a|
        ensures HasCanonicalTag(a[k])
      {
        assert a[k] in b;
      }
    }
  }

  lemma OfferCanUpdate(c: Candidate, releases: seq<Release>, u: Updater, installed: seq<Package>, beta: bool, line: string)
    requires IsOffer(c, releases, u, installed, beta, line)
    ensures CanUpdate(c, u)
  {
    hide ReleasePlan, IsSelected, IsCompleteRelease, Required, PackageSuffix;
    CompatibleExactly(c.release, u, installed);
    CompatibleIsComplete(c.release, u, installed);
  }
}
