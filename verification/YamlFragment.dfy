/** parserYaml: the entries a user typed become a fragment of YAML with names that nothing else uses. */
module YamlFragment {
  import opened Wrappers
  import opened Text
  import opened YamlText
  import opened YamlEmit

  datatype SourceMode = Links | Subscriptions

  datatype Fragment = Fragment(text: string, names: seq<string>, skipped: nat)

  // ---------- names ----------

  ghost predicate Distinct(candidate: nat -> string) {
    forall i: nat, j: nat :: candidate(i) == candidate(j) ==> i == j
  }

  /** The first candidate that is not in use. The set of used names is finite, so there is one. */
  method FirstFree(candidate: nat -> string, used: set<string>) returns (k: nat)
    requires Distinct(candidate)
    ensures candidate(k) !in used
    ensures forall j :: 0 <= j < k ==> candidate(j) in used
  {
    k := 0;
    ghost var left := used;
    while candidate(k) in used
      invariant forall j :: 0 <= j < k ==> candidate(j) in used
      invariant left <= used && forall j: nat :: j >= k && candidate(j) in used ==> candidate(j) in left
      decreases |left|
    {
      left := left - {candidate(k)};
      k := k + 1;
    }
  }

  /** base, "base (2)", "base (3)", ... */
  function ProxyCandidate(base: string, k: nat): string {
    if k == 0 then base else base + " (" + Decimal(k + 1) + ")"
  }

  function ProxyCandidates(base: string): (c: nat -> string)
    ensures Distinct(c) && forall k :: c(k) == ProxyCandidate(base, k)
  {
    ProxyCandidatesDistinct(base);
    (k: nat) => ProxyCandidate(base, k)
  }

  lemma ProxyCandidatesDistinct(base: string)
    ensures forall i: nat, j: nat :: ProxyCandidate(base, i) == ProxyCandidate(base, j) ==> i == j
  {
    forall i: nat, j: nat | ProxyCandidate(base, i) == ProxyCandidate(base, j)
      ensures i == j
    {
      var a, b := ProxyCandidate(base, i), ProxyCandidate(base, j);
      if i > 0 && j > 0 {
        var n := |base| + 2;
        assert a[n..|a| - 1] == Decimal(i + 1) && b[n..|b| - 1] == Decimal(j + 1);
        DecimalInjective(i + 1, j + 1);
      } else if i + j > 0 {
        assert |a| == |b|;
      }
    }
  }

  /** The numbered names for the subscription at a position: from its own number on. */
  function ProviderCandidate(position: nat, k: nat): string {
    "freenetic-" + Decimal(position + 1 + k)
  }

  function ProviderCandidates(position: nat): (c: nat -> string)
    ensures Distinct(c) && forall k :: c(k) == ProviderCandidate(position, k)
  {
    ProviderCandidatesDistinct(position);
    (k: nat) => ProviderCandidate(position, k)
  }

  lemma ProviderCandidatesDistinct(position: nat)
    ensures forall i: nat, j: nat :: ProviderCandidate(position, i) == ProviderCandidate(position, j) ==> i == j
  {
    forall i: nat, j: nat | ProviderCandidate(position, i) == ProviderCandidate(position, j)
      ensures i == j
    {
      var a, b := ProviderCandidate(position, i), ProviderCandidate(position, j);
      assert a[10..] == Decimal(position + 1 + i) && b[10..] == Decimal(position + 1 + j);
      DecimalInjective(position + 1 + i, position + 1 + j);
    }
  }

  /** Different from each other and from everything reserved. */
  ghost predicate AreFresh(names: seq<string>, reserved: set<string>) {
    && (forall i, j :: 0 <= i < j < |names| ==> names[i] != names[j])
    && (forall i :: 0 <= i < |names| ==> names[i] !in reserved)
  }

  lemma FreshAppend(names: seq<string>, reserved: set<string>, used: set<string>, name: string)
    requires AreFresh(names, reserved) && used == reserved + NameSet(names) && name !in used
    ensures AreFresh(names + [name], reserved)
    ensures used + {name} == reserved + NameSet(names + [name])
  {
    assert forall i :: 0 <= i < |names| ==> names[i] in names;
  }

  // ---------- the entries ----------

  /** The trimmed lines that are neither empty nor comments. */
  function Entries(source: string): seq<string> {
    Meaningful(Split(source, '\n'))
  }

  function Meaningful(lines: seq<string>): seq<string> {
    if lines == [] then []
    else
      var entry := Trim(lines[0]);
      (if entry == "" || entry[0] == '#' then [] else [entry]) + Meaningful(lines[1..])
  }

  // ---------- links ----------

  /** The proxies of the first n entries, under their own names. */
  function Parsed(entries: seq<string>, parse: (string, nat) -> Option<Proxy>, n: nat): seq<Proxy>
    requires n <= |entries|
  {
    if n == 0 then []
    else
      var p := parse(entries[n - 1], n - 1);
      Parsed(entries, parse, n - 1) + (if p == None then [] else [p.value])
  }

  function NameSet(names: seq<string>): set<string> {
    set n | n in names
  }

  ghost predicate IsFirstFree(base: string, used: set<string>, name: string) {
    exists k: nat ::
      && name == ProxyCandidate(base, k) && name !in used
      && forall j :: 0 <= j < k ==> ProxyCandidate(base, j) in used
  }

  /** Only the names differ, and each is the first free variant of the original. */
  ghost predicate IsRenaming(parsed: seq<Proxy>, proxies: seq<Proxy>, reserved: set<string>) {
    && |proxies| == |parsed|
    && forall k :: 0 <= k < |proxies| ==>
         && proxies[k].fields == parsed[k].fields
         && IsFirstFree(parsed[k].name, reserved + NameSet(ProxyNamesOf(proxies[..k])), proxies[k].name)
  }

  lemma RenamingAppend(parsed: seq<Proxy>, proxies: seq<Proxy>, reserved: set<string>, base: Proxy, p: Proxy)
    requires IsRenaming(parsed, proxies, reserved) && p.fields == base.fields
    requires IsFirstFree(base.name, reserved + NameSet(ProxyNamesOf(proxies)), p.name)
    ensures IsRenaming(parsed + [base], proxies + [p], reserved)
  {
    hide IsFirstFree;
    assert (proxies + [p])[..|proxies|] == proxies;
    assert forall k :: 0 <= k < |proxies| ==> (proxies + [p])[..k] == proxies[..k];
  }

  lemma NothingNamed(reserved: set<string>)
    ensures AreFresh([], reserved) && IsRenaming([], [], reserved)
  {
  }

  /** The proxies of the supported entries, renamed where their name is in use. */
  method NameProxies(entries: seq<string>, parse: (string, nat) -> Option<Proxy>, reserved: set<string>)
    returns (proxies: seq<Proxy>, skipped: nat)
    requires forall e: string, k: nat :: parse(e, k).Some? ==> WellFormed(parse(e, k).value.fields)
    ensures IsRenaming(Parsed(entries, parse, |entries|), proxies, reserved)
    ensures AreFresh(ProxyNamesOf(proxies), reserved) && AllWellFormed(proxies)
    ensures |proxies| + skipped == |entries|
  {
    hide WellFormed, IsFirstFree, IsRenaming, AreFresh;
    proxies, skipped := [], 0;
    var used := reserved;
    NothingNamed(reserved);
    for index := 0 to |entries|
      invariant used == reserved + NameSet(ProxyNamesOf(proxies))
      invariant AreFresh(ProxyNamesOf(proxies), reserved) && AllWellFormed(proxies)
      invariant IsRenaming(Parsed(entries, parse, index), proxies, reserved)
      invariant |proxies| + skipped == index
    {
      var parsed := parse(entries[index], index);
      if parsed == None {
        assert Parsed(entries, parse, index) + [] == Parsed(entries, parse, index);
        skipped := skipped + 1;
      } else {
        var name := FirstFreeName(parsed.value.name, used);
        FreshAppend(ProxyNamesOf(proxies), reserved, used, name);
        var proxy := parsed.value.(name := name);
        RenamingAppend(Parsed(entries, parse, index), proxies, reserved, parsed.value, proxy);
        assert ProxyNamesOf(proxies + [proxy]) == ProxyNamesOf(proxies) + [name];
        proxies := proxies + [proxy];
        used := used + {name};
      }
    }
  }

  method FirstFreeName(base: string, used: set<string>) returns (name: string)
    ensures name !in used && IsFirstFree(base, used, name)
  {
    var k := FirstFree(ProxyCandidates(base), used);
    name := ProxyCandidate(base, k);
  }

  // ---------- subscriptions ----------

  function Urls(entries: seq<string>, isUrl: string -> bool): seq<string> {
    if entries == [] then []
    else (if isUrl(entries[0]) then [entries[0]] else []) + Urls(entries[1..], isUrl)
  }

  function ProviderLines(name: string, url: string): seq<string> {
    [Spaces(2) + name + ":",
     Spaces(4) + "type: http",
     Spaces(4) + "url: " + Quote(url),
     Spaces(4) + ("path: ./proxy-providers/" + name + ".yaml"),
     Spaces(4) + "interval: 3600",
     Spaces(4) + "format: uri"]
  }

  function ProviderList(names: seq<string>, urls: seq<string>): seq<string>
    requires |names| <= |urls|
  {
    if names == [] then []
    else
      var n := |names| - 1;
      ProviderList(names[..n], urls) + ProviderLines(names[n], urls[n])
  }

  /** The first number from the position of the subscription on that no used name has. */
  ghost predicate IsFirstNumber(position: nat, used: set<string>, name: string) {
    exists k: nat ::
      && name == ProviderCandidate(position, k) && name !in used
      && forall j :: 0 <= j < k ==> ProviderCandidate(position, j) in used
  }

  method FirstNumberedName(position: nat, used: set<string>) returns (name: string)
    ensures name !in used && IsFirstNumber(position, used, name)
  {
    var k := FirstFree(ProviderCandidates(position), used);
    name := ProviderCandidate(position, k);
  }

  ghost predicate AreProviderNames(names: seq<string>, reserved: set<string>) {
    forall k :: 0 <= k < |names| ==> IsFirstNumber(k, reserved + NameSet(names[..k]), names[k])
  }

  lemma ProviderNameAppend(names: seq<string>, reserved: set<string>, name: string)
    requires AreProviderNames(names, reserved) && IsFirstNumber(|names|, reserved + NameSet(names), name)
    ensures AreProviderNames(names + [name], reserved)
  {
    hide IsFirstNumber;
    assert (names + [name])[..|names|] == names;
    assert forall k :: 0 <= k < |names| ==> (names + [name])[..k] == names[..k];
  }

  method NameProviders(urls: seq<string>, reserved: set<string>) returns (names: seq<string>, lines: seq<string>)
    ensures |names| == |urls| && lines == ProviderList(names, urls)
    ensures AreFresh(names, reserved) && AreProviderNames(names, reserved)
  {
    hide IsFirstNumber, AreProviderNames, AreFresh, ProviderLines;
    names, lines := [], [];
    var used := reserved;
    NothingNamed(reserved);
    assert AreProviderNames([], reserved) by {
      NoProviders(reserved);
    }
    for index := 0 to |urls|
      invariant |names| == index && lines == ProviderList(names, urls)
      invariant used == reserved + NameSet(names)
      invariant AreFresh(names, reserved) && AreProviderNames(names, reserved)
    {
      var name := FirstNumberedName(index, used);
      FreshAppend(names, reserved, used, name);
      ProviderNameAppend(names, reserved, name);
      assert (names + [name])[..|names|] == names;
      lines := lines + ProviderLines(name, urls[index]);
      names := names + [name];
      used := used + {name};
    }
  }

  lemma NoProviders(reserved: set<string>)
    ensures AreProviderNames([], reserved)
  {
  }

  // ---------- parserYaml ----------

  function FragmentText(lines: seq<string>): string {
    if lines == [] then "" else Join(lines, "\n") + "\n"
  }

  /** What parserYaml makes of links: the first free name for every supported proxy, in order. */
  ghost predicate IsLinkFragment(f: Fragment, entries: seq<string>, parse: (string, nat) -> Option<Proxy>,
                                 reserved: set<string>, proxies: seq<Proxy>) {
    && IsRenaming(Parsed(entries, parse, |entries|), proxies, reserved) && AllWellFormed(proxies)
    && f.names == ProxyNamesOf(proxies) && f.skipped == |entries| - |proxies|
    && f.text == FragmentText(if proxies == [] then [] else ["proxies:"] + ListLines(proxies, 2))
  }

  ghost predicate IsProviderFragment(f: Fragment, entries: seq<string>, isUrl: string -> bool, reserved: set<string>) {
    var urls := Urls(entries, isUrl);
    && AreProviderNames(f.names, reserved)
    && |f.names| == |urls| && f.skipped == |entries| - |urls|
    && f.text == FragmentText(if urls == [] then [] else ["proxy-providers:"] + ProviderList(f.names, urls))
  }

  method ParserYaml(mode: SourceMode, source: string, reservedNames: seq<string>,
                    parse: (string, nat) -> Option<Proxy>, isUrl: string -> bool)
    returns (f: Fragment, ghost proxies: seq<Proxy>)
    requires forall e: string, k: nat :: parse(e, k).Some? ==> WellFormed(parse(e, k).value.fields)
    ensures AreFresh(f.names, NameSet(reservedNames))
    ensures mode == Links ==> IsLinkFragment(f, Entries(source), parse, NameSet(reservedNames), proxies)
    ensures mode == Subscriptions ==> IsProviderFragment(f, Entries(source), isUrl, NameSet(reservedNames))
  {
    hide WellFormed, IsRenaming, AreFresh, AreProviderNames, Entries;
    var entries := Entries(source);
    var used := NameSet(reservedNames);
    proxies := [];
    NothingNamed(used);
    NoProviders(used);
    if entries == [] {
      return Fragment("", [], 0), proxies;
    }
    var lines: seq<string> := [];
    if mode == Subscriptions {
      var urls := Urls(entries, isUrl);
      FewerUrls(entries, isUrl);
      var names, list := NameProviders(urls, used);
      if urls != [] {
        lines := ["proxy-providers:"] + list;
      }
      f := Fragment(FragmentText(lines), names, |entries| - |urls|);
    } else {
      var named, skipped := NameProxies(entries, parse, used);
      proxies := named;
      if named != [] {
        lines := EmitProxies(["proxies:"], named);
      }
      f := Fragment(FragmentText(lines), ProxyNamesOf(named), skipped);
    }
  }

  lemma {:induction false} FewerUrls(entries: seq<string>, isUrl: string -> bool)
    ensures |Urls(entries, isUrl)| <= |entries|
  {
    if entries != [] {
      FewerUrls(entries[1..], isUrl);
    }
  }

  method EmitProxies(lines: seq<string>, proxies: seq<Proxy>) returns (out: seq<string>)
    ensures out == lines + ListLines(proxies, 2)
  {
    hide ProxyLines;
    out := lines;
    for k := 0 to |proxies|
      invariant out == lines + ListLines(proxies[..k], 2)
    {
      assert proxies[..k + 1][..k] == proxies[..k];
      out := EmitProxy(out, proxies[k]);
    }
    assert proxies[..|proxies|] == proxies;
  }
}
