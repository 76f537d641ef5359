/** The sections outside the network configuration that go with the segment of a port: which there have to be, and
    when the segments of several ports get in each other's way. */
module PortServices {
  import opened Wrappers
  import opened Text
  import opened Ports

  function At(others: Others, key: (string, string)): Option<Owner> {
    if key in others then Some(others[key]) else None
  }

  function Owned(purpose: Purpose): Option<Owner> {
    Some(Owner(true, PORT_SCOPE, purpose))
  }

  /** What a port with a segment of its own wants at a name: its services, and the section of its policy; where the
      section of another policy would be, nothing. */
  ghost predicate Claims(c: Card, policyName: string -> string, key: (string, string), want: Option<Owner>) {
    var n := PortNetwork(c.port);
    IsDedicated(c)
    && (|| (key == ("dhcp", n) && want == Owned(Pool(n)))
        || (key == ("firewall", n) && want == Owned(Zone(n)))
        || (key == ("firewall", n + "_wan") && want == Owned(Forward(n)))
        || (key == ("firewall", n + "_dhcp") && want == Owned(Service(n, "67")))
        || (key == ("firewall", n + "_dns") && want == Owned(Service(n, "53")))
        || (key == ("firewall", policyName(n) + "_block")
            && want == if c.policy.Block? then Some(Owner(true, "network", Reject(n))) else None)
        || (key == ("pbr", policyName(n))
            && want == if c.policy.Vpn? then Some(Owner(true, "network", Route(n, c.policy.interface))) else None))
  }

  /** Every port with a segment of its own has what it wants. */
  ghost predicate ClaimsMet(others: Others, cards: seq<Card>, policyName: string -> string) {
    forall c, key, want :: c in cards && Claims(c, policyName, key, want) ==> At(others, key) == want
  }

  /** No two ports want different things at one name. */
  ghost predicate ClaimsAgree(cards: seq<Card>, policyName: string -> string) {
    forall c, d, key, x, y :: c in cards && d in cards && Claims(c, policyName, key, x) && Claims(d, policyName, key, y) ==> x == y
  }

  lemma MetMeansAgreed(others: Others, cards: seq<Card>, policyName: string -> string)
    requires ClaimsMet(others, cards, policyName)
    ensures ClaimsAgree(cards, policyName)
  {
    hide Claims;
  }

  function OwnKeys(c: Card, policyName: string -> string): set<(string, string)> {
    set key | key in SegmentKeys(PortNetwork(c.port)) + PolicyKeys(PortNetwork(c.port), policyName)
  }

  /** No dedicated port needs the name. */
  ghost predicate IsFreeKey(cards: seq<Card>, policyName: string -> string, key: (string, string)) {
    forall c :: c in cards && IsDedicated(c) ==> key !in OwnKeys(c, policyName)
  }

  // ---------- what an earlier assignment has left ----------

  /** A section that goes when the segment of a port goes. */
  ghost predicate IsEditors(others: Others, n: string, hasPbr: bool, policyName: string -> string, key: (string, string)) {
    && key in others && others[key].managed
    && (|| (key in SegmentKeys(n) && others[key].scope == PORT_SCOPE)
        || (key in PolicyKeys(n, policyName) && (key.0 == "pbr" ==> hasPbr)))
  }

  /** All that the editor had for one port is gone, and nothing else. */
  ghost predicate AreCleared(a: Others, b: Others, n: string, hasPbr: bool, policyName: string -> string) {
    forall key :: At(b, key) == (if IsEditors(a, n, hasPbr, policyName, key) then None else At(a, key))
  }

  ghost predicate IsRemoved(others: Others, cards: seq<Card>, hasPbr: bool, policyName: string -> string, key: (string, string)) {
    exists c :: c in cards && IsEditors(others, PortNetwork(c.port), hasPbr, policyName, key)
  }

  /** Where no dedicated port needs a name, the editor's sections of the ports are gone, and all else is as it was. */
  ghost predicate RestIs(a: Others, b: Others, cards: seq<Card>, hasPbr: bool, policyName: string -> string) {
    forall key :: IsFreeKey(cards, policyName, key) ==>
      At(b, key) == (if IsRemoved(a, cards, hasPbr, policyName, key) then None else At(a, key))
  }

  /** All that the editor had for some ports is gone, and nothing else. */
  ghost predicate AreRemoved(a: Others, b: Others, cards: seq<Card>, hasPbr: bool, policyName: string -> string) {
    forall key :: At(b, key) == (if IsRemoved(a, cards, hasPbr, policyName, key) then None else At(a, key))
  }

  lemma OneMoreRemoved(a: Others, left: Others, b: Others, cards: seq<Card>, k: nat, hasPbr: bool, policyName: string -> string)
    requires k < |cards| && AreRemoved(a, left, cards[..k], hasPbr, policyName)
    requires AreCleared(left, b, PortNetwork(cards[k].port), hasPbr, policyName)
    ensures AreRemoved(a, b, cards[..k + 1], hasPbr, policyName)
  {
    hide PortNetwork, SegmentKeys, PolicyKeys;
    assert cards[..k + 1] == cards[..k] + [cards[k]];
    forall key
      ensures At(b, key) == if IsRemoved(a, cards[..k + 1], hasPbr, policyName, key) then None else At(a, key)
    {
      if IsRemoved(a, cards[..k], hasPbr, policyName, key) {
        var c :| c in cards[..k] && IsEditors(a, PortNetwork(c.port), hasPbr, policyName, key);
        assert c in cards[..k + 1];
        assert At(left, key) == None;
      } else {
        assert At(left, key) == At(a, key);
        assert IsEditors(left, PortNetwork(cards[k].port), hasPbr, policyName, key)
          == IsEditors(a, PortNetwork(cards[k].port), hasPbr, policyName, key);
        if IsEditors(a, PortNetwork(cards[k].port), hasPbr, policyName, key) {
          assert cards[k] in cards[..k + 1];
        }
      }
    }
  }

  /** Nothing of the editor's is left of a port that has no segment any more, where no other port needs the name. */
  lemma NothingLeft(a: Others, b: Others, cards: seq<Card>, hasPbr: bool, policyName: string -> string, c: Card, key: (string, string))
    requires RestIs(a, b, cards, hasPbr, policyName) && c in cards && IsFreeKey(cards, policyName, key)
    ensures !IsEditors(b, PortNetwork(c.port), hasPbr, policyName, key)
  {
    hide PortNetwork, SegmentKeys, PolicyKeys, IsFreeKey;
    if IsRemoved(a, cards, hasPbr, policyName, key) {
      assert At(b, key) == None;
    } else {
      assert At(b, key) == At(a, key);
      assert IsEditors(b, PortNetwork(c.port), hasPbr, policyName, key) == IsEditors(a, PortNetwork(c.port), hasPbr, policyName, key);
    }
  }

  predicate IsRemovable(others: Others, key: (string, string), scope: string) {
    key in others && others[key].managed && (scope != "" ==> others[key].scope == scope)
  }

  function Left(others: Others, key: (string, string), scope: string): Others {
    if IsRemovable(others, key, scope) then others - {key} else others
  }

  /** Removing the sections one by one. */
  function LeftBehind(others: Others, n: string, hasPbr: bool, policyName: string -> string): Others {
    var a := Left(Left(others, ("dhcp", n), PORT_SCOPE), ("firewall", n), PORT_SCOPE);
    var b := Left(Left(Left(a, ("firewall", n + "_wan"), PORT_SCOPE), ("firewall", n + "_dhcp"), PORT_SCOPE),
                  ("firewall", n + "_dns"), PORT_SCOPE);
    Left(if hasPbr then Left(b, ("pbr", policyName(n)), "") else b, ("firewall", policyName(n) + "_block"), "")
  }

  lemma LeftAt(others: Others, key: (string, string), scope: string, x: (string, string))
    ensures At(Left(others, key, scope), x) == if x == key && IsRemovable(others, key, scope) then None else At(others, x)
  {
  }

  lemma ClearedOneByOne(others: Others, n: string, hasPbr: bool, policyName: string -> string)
    ensures AreCleared(others, LeftBehind(others, n, hasPbr, policyName), n, hasPbr, policyName)
  {
    forall x: (string, string)
      ensures At(LeftBehind(others, n, hasPbr, policyName), x)
        == if IsEditors(others, n, hasPbr, policyName, x) then None else At(others, x)
    {
      ClearedAt(others, n, hasPbr, policyName, x);
    }
  }

  lemma ClearedAt(others: Others, n: string, hasPbr: bool, policyName: string -> string, x: (string, string))
    ensures At(LeftBehind(others, n, hasPbr, policyName), x)
      == if IsEditors(others, n, hasPbr, policyName, x) then None else At(others, x)
  {
    var a := Left(others, ("dhcp", n), PORT_SCOPE);
    var b := Left(a, ("firewall", n), PORT_SCOPE);
    var c := Left(b, ("firewall", n + "_wan"), PORT_SCOPE);
    var d := Left(c, ("firewall", n + "_dhcp"), PORT_SCOPE);
    var e := Left(d, ("firewall", n + "_dns"), PORT_SCOPE);
    var f := if hasPbr then Left(e, ("pbr", policyName(n)), "") else e;
    LeftAt(others, ("dhcp", n), PORT_SCOPE, x);
    LeftAt(a, ("firewall", n), PORT_SCOPE, x);
    LeftAt(b, ("firewall", n + "_wan"), PORT_SCOPE, x);
    LeftAt(c, ("firewall", n + "_dhcp"), PORT_SCOPE, x);
    LeftAt(d, ("firewall", n + "_dns"), PORT_SCOPE, x);
    LeftAt(e, ("pbr", policyName(n)), "", x);
    LeftAt(f, ("firewall", policyName(n) + "_block"), "", x);
    assert LeftBehind(others, n, hasPbr, policyName) == Left(f, ("firewall", policyName(n) + "_block"), "");
    hide Left;
    assert "dhcp" != "firewall" && "pbr" != "firewall" && "dhcp" != "pbr";
  }

  lemma NoneRemoved(a: Others, cards: seq<Card>, hasPbr: bool, policyName: string -> string)
    ensures AreRemoved(a, a, cards[..0], hasPbr, policyName)
  {
  }

  // ---------- making a segment ----------

  function WithServices(others: Others, n: string): Others {
    others[("dhcp", n) := Owner(true, PORT_SCOPE, Pool(n))][("firewall", n) := Owner(true, PORT_SCOPE, Zone(n))]
    [("firewall", n + "_" + "dhcp") := Owner(true, PORT_SCOPE, Service(n, "67"))]
    [("firewall", n + "_" + "dns") := Owner(true, PORT_SCOPE, Service(n, "53"))]
    [("firewall", n + "_wan") := Owner(true, PORT_SCOPE, Forward(n))]
  }

  /** The section of the policy is there; that of another one is gone, if it is the editor's. */
  ghost predicate IsPolicySet(a: Others, b: Others, n: string, policy: Policy, policyName: string -> string) {
    var pbr, block := ("pbr", policyName(n)), ("firewall", policyName(n) + "_block");
    && At(b, pbr) == (if policy.Vpn? then Some(Owner(true, "network", Route(n, policy.interface)))
                      else if IsRemovable(a, pbr, "") then None else At(a, pbr))
    && At(b, block) == (if policy.Block? then Some(Owner(true, "network", Reject(n)))
                        else if IsRemovable(a, block, "") then None else At(a, block))
    && forall key :: key != pbr && key != block ==> At(b, key) == At(a, key)
  }

  /** No section that is not the editor's is in the place of a policy. */
  ghost predicate IsPolicyFree(others: Others, c: Card, policyName: string -> string) {
    forall key :: key in PolicyKeys(PortNetwork(c.port), policyName) && key in others ==> others[key].managed
  }

  ghost predicate ArePoliciesFree(others: Others, cards: seq<Card>, policyName: string -> string) {
    forall c :: c in cards && IsDedicated(c) ==> IsPolicyFree(others, c, policyName)
  }

  lemma OwnKeysAre(c: Card, policyName: string -> string)
    ensures var n := PortNetwork(c.port);
      OwnKeys(c, policyName) == {("dhcp", n), ("firewall", n), ("firewall", n + "_wan"), ("firewall", n + "_dhcp"),
                                 ("firewall", n + "_dns"), ("firewall", policyName(n) + "_block"), ("pbr", policyName(n))}
  {
    hide PortNetwork;
  }

  lemma ServicesDiffer(n: string)
    ensures n + "_wan" != n && n + "_dhcp" != n && n + "_dns" != n
    ensures n + "_wan" != n + "_dhcp" && n + "_wan" != n + "_dns" && n + "_dhcp" != n + "_dns"
  {
    assert |n + "_wan"| == |n| + 4 && |n + "_dns"| == |n| + 4 && |n + "_dhcp"| == |n| + 5;
    assert (n + "_wan")[|n| + 3] == 'n' && (n + "_dns")[|n| + 3] == 's';
  }

  lemma ServedAsClaimed(before: Others, c: Card, policyName: string -> string, key: (string, string), want: Option<Owner>)
    requires Claims(c, policyName, key, want) && want.Some? && want.value.scope == PORT_SCOPE
    ensures At(WithServices(before, PortNetwork(c.port)), key) == want
  {
    hide PortNetwork;
    var n := PortNetwork(c.port);
    ServicesDiffer(n);
    assert n + "_" + "dhcp" == n + "_dhcp" && n + "_" + "dns" == n + "_dns";
    assert PORT_SCOPE[0] != "network"[0];
  }

  lemma ClaimIsMet(before: Others, served: Others, after: Others, c: Card, policyName: string -> string, key: (string, string),
                   want: Option<Owner>)
    requires served == WithServices(before, PortNetwork(c.port)) && Claims(c, policyName, key, want)
    requires IsPolicySet(served, after, PortNetwork(c.port), c.policy, policyName)
    requires ClaimsAgree([c], policyName) && IsPolicyFree(before, c, policyName)
    ensures At(after, key) == want
  {
    hide PortNetwork, WithServices;
    var n := PortNetwork(c.port);
    var pbr, block := ("pbr", policyName(n)), ("firewall", policyName(n) + "_block");
    var atPbr := if c.policy.Vpn? then Some(Owner(true, "network", Route(n, c.policy.interface))) else None;
    var atBlock := if c.policy.Block? then Some(Owner(true, "network", Reject(n))) else None;
    assert c in [c] && Claims(c, policyName, pbr, atPbr) && Claims(c, policyName, block, atBlock);
    PoliciesMeet(before, served, after, c, policyName);
    if key != pbr && key != block {
      ServedAsClaimed(before, c, policyName, key, want);
    }
  }

  lemma PoliciesMeet(before: Others, served: Others, after: Others, c: Card, policyName: string -> string)
    requires served == WithServices(before, PortNetwork(c.port))
    requires IsPolicySet(served, after, PortNetwork(c.port), c.policy, policyName) && IsPolicyFree(before, c, policyName)
    ensures var n := PortNetwork(c.port);
      && At(after, ("pbr", policyName(n))) == (if c.policy.Vpn? then Some(Owner(true, "network", Route(n, c.policy.interface))) else None)
      && At(after, ("firewall", policyName(n) + "_block")) == (if c.policy.Block? then Some(Owner(true, "network", Reject(n))) else None)
  {
    hide PortNetwork;
    var n := PortNetwork(c.port);
    var keys := PolicyKeys(n, policyName);
    assert keys[0] in keys && keys[1] in keys;
  }

  lemma ServedElsewhere(others: Others, n: string, key: (string, string))
    ensures At(WithServices(others, n), key) == At(others, key)
      || (At(WithServices(others, n), key).Some? && At(WithServices(others, n), key).value.managed
          && key in {("dhcp", n), ("firewall", n), ("firewall", n + "_wan"), ("firewall", n + "_dhcp"), ("firewall", n + "_dns")})
  {
    assert n + "_" + "dhcp" == n + "_dhcp" && n + "_" + "dns" == n + "_dns";
  }

  lemma PolicyElsewhere(a: Others, b: Others, n: string, policy: Policy, policyName: string -> string, key: (string, string))
    requires IsPolicySet(a, b, n, policy, policyName)
    ensures At(b, key) == At(a, key)
      || (key in {("pbr", policyName(n)), ("firewall", policyName(n) + "_block")} && (At(b, key).Some? ==> At(b, key).value.managed))
  {
  }

  /** The services and then the policy make the segment what its port wants. */
  lemma ClaimsAreMet(before: Others, served: Others, after: Others, c: Card, policyName: string -> string)
    requires IsDedicated(c) && served == WithServices(before, PortNetwork(c.port))
    requires IsPolicySet(served, after, PortNetwork(c.port), c.policy, policyName)
    ensures ClaimsAgree([c], policyName) && IsPolicyFree(before, c, policyName) ==> ClaimsMet(after, [c], policyName)
    ensures forall key :: key !in OwnKeys(c, policyName) ==> At(after, key) == At(before, key)
    ensures forall key :: key in after && (key !in before || after[key] != before[key]) ==> after[key].managed
  {
    hide PortNetwork;
    var n := PortNetwork(c.port);
    OwnKeysAre(c, policyName);
    hide OwnKeys;
    forall key
      ensures key !in OwnKeys(c, policyName) ==> At(after, key) == At(before, key)
      ensures At(after, key) == At(before, key) || (key in after ==> after[key].managed)
    {
      ServedElsewhere(before, n, key);
      PolicyElsewhere(served, after, n, c.policy, policyName, key);
    }
    if ClaimsAgree([c], policyName) && IsPolicyFree(before, c, policyName) {
      forall d, key, want | d in [c] && Claims(d, policyName, key, want)
        ensures At(after, key) == want
      {
        ClaimIsMet(before, served, after, c, policyName, key, want);
      }
    }
  }

  lemma NoneClaimed(others: Others, cards: seq<Card>, policyName: string -> string)
    ensures ClaimsMet(others, cards[..0], policyName)
  {
    hide Claims;
  }

  /** The segment of one more port takes nothing from those before, where all want the same at common names. */
  lemma OneMoreClaimed(start: Others, before: Others, after: Others, cards: seq<Card>, k: nat, policyName: string -> string)
    requires k < |cards|
    requires forall key :: key in before && (key !in start || before[key] != start[key]) ==> before[key].managed
    requires ClaimsAgree(cards, policyName) && ArePoliciesFree(start, cards, policyName) ==> ClaimsMet(before, cards[..k], policyName)
    requires if IsDedicated(cards[k]) then
        && (ClaimsAgree([cards[k]], policyName) && IsPolicyFree(before, cards[k], policyName) ==> ClaimsMet(after, [cards[k]], policyName))
        && forall key :: key !in OwnKeys(cards[k], policyName) ==> At(after, key) == At(before, key)
      else after == before
    ensures ClaimsAgree(cards, policyName) && ArePoliciesFree(start, cards, policyName) ==> ClaimsMet(after, cards[..k + 1], policyName)
  {
    hide Claims, OwnKeys, PortNetwork, PolicyKeys;
    var c := cards[k];
    assert c in cards;
    if ClaimsAgree(cards, policyName) && ArePoliciesFree(start, cards, policyName) {
      forall d, key, want | d in cards[..k + 1] && Claims(d, policyName, key, want)
        ensures At(after, key) == want
      {
        assert d in cards;
        if !IsDedicated(c) {
          ClaimsDedicated(d, policyName, key, want);
          assert d in cards[..k];
        } else if d == c {
          assert d in [c];
        } else if key in OwnKeys(c, policyName) {
          assert d in cards[..k];
          var x := ClaimAt(c, policyName, key);
          assert x == want && c in [c];
        }
      }
    }
  }

  lemma ClaimsDedicated(c: Card, policyName: string -> string, key: (string, string), want: Option<Owner>)
    requires Claims(c, policyName, key, want)
    ensures IsDedicated(c)
  {
  }

  /** A port with a segment wants something at each of its names. */
  lemma ClaimAt(c: Card, policyName: string -> string, key: (string, string)) returns (want: Option<Owner>)
    requires IsDedicated(c) && key in OwnKeys(c, policyName)
    ensures Claims(c, policyName, key, want)
  {
    OwnKeysAre(c, policyName);
    hide OwnKeys, PortNetwork;
    var n := PortNetwork(c.port);
    want :=
      if key == ("dhcp", n) then Owned(Pool(n)) else if key == ("firewall", n) then Owned(Zone(n))
      else if key == ("firewall", n + "_wan") then Owned(Forward(n)) else if key == ("firewall", n + "_dhcp") then Owned(Service(n, "67"))
      else if key == ("firewall", n + "_dns") then Owned(Service(n, "53"))
      else if key == ("firewall", policyName(n) + "_block") then (if c.policy.Block? then Some(Owner(true, "network", Reject(n))) else None)
      else if c.policy.Vpn? then Some(Owner(true, "network", Route(n, c.policy.interface))) else None;
  }

  // ---------- when the names of ports clash ----------

  const SUFFIXES := ["_wan", "_dhcp", "_dns"]

  /** No port is called like the service of another one. */
  ghost predicate AreNamesApart(cards: seq<Card>) {
    forall c, d, s :: c in cards && d in cards && IsDedicated(c) && IsDedicated(d) && s in SUFFIXES ==>
      PortNetwork(c.port) + s != PortNetwork(d.port)
  }

  /** Policies are called differently for different networks, and not like services. */
  ghost predicate ArePoliciesApart(cards: seq<Card>, policyName: string -> string) {
    && (forall c, d :: c in cards && d in cards && policyName(PortNetwork(c.port)) == policyName(PortNetwork(d.port)) ==>
         PortNetwork(c.port) == PortNetwork(d.port))
    && (forall c, d, s :: c in cards && d in cards && s in SUFFIXES + [""] ==>
         policyName(PortNetwork(c.port)) + "_block" != PortNetwork(d.port) + s)
  }

  /** A port that is called like a service of another one is in its way. */
  lemma NamesClash(cards: seq<Card>, policyName: string -> string, c: Card, d: Card, s: string)
    requires c in cards && d in cards && IsDedicated(c) && IsDedicated(d) && s in SUFFIXES
    requires PortNetwork(c.port) + s == PortNetwork(d.port)
    ensures !ClaimsAgree(cards, policyName)
  {
    hide PortNetwork;
    var m, n := PortNetwork(c.port), PortNetwork(d.port);
    assert Claims(c, policyName, ("firewall", n), Owned(ServiceAt(m, s)));
    assert Claims(d, policyName, ("firewall", n), Owned(Zone(n)));
  }

  function ServiceAt(n: string, s: string): Purpose {
    if s == "" then Zone(n) else if s == "_wan" then Forward(n) else if s == "_dhcp" then Service(n, "67") else Service(n, "53")
  }

  lemma SuffixOnce(m: string, n: string, s: string, t: string)
    requires s in SUFFIXES && t in SUFFIXES && m + s == n + t
    ensures s == t && m == n
  {
    var a, b := m + s, n + t;
    assert a[|a| - 1] == s[|s| - 1] && b[|b| - 1] == t[|t| - 1];
    assert s == t;
    assert m == a[..|a| - |s|] && n == b[..|b| - |t|];
  }

  /** A claim in the firewall is for one of the four services, or for the blocking rule. */
  lemma FirewallClaim(c: Card, policyName: string -> string, name: string, want: Option<Owner>) returns (s: string)
    requires Claims(c, policyName, ("firewall", name), want)
    ensures var n := PortNetwork(c.port);
      || (s in SUFFIXES + [""] && name == n + s && want == Owned(ServiceAt(n, s)))
      || (name == policyName(n) + "_block" && want == if c.policy.Block? then Some(Owner(true, "network", Reject(n))) else None)
  {
    hide PortNetwork;
    var n := PortNetwork(c.port);
    assert n + "" == n;
    s := if want == Owned(Zone(n)) then "" else if want == Owned(Forward(n)) then "_wan"
         else if want == Owned(Service(n, "67")) then "_dhcp" else "_dns";
  }

  /** Two ports want the same where policies are named apart and no port is called like a service of the other. */
  lemma OneClaim(c: Card, d: Card, policyName: string -> string, key: (string, string), x: Option<Owner>, y: Option<Owner>)
    requires Claims(c, policyName, key, x) && Claims(d, policyName, key, y)
    requires PortNetwork(c.port) == PortNetwork(d.port) ==> c == d
    requires AreNamesApart([c, d]) && ArePoliciesApart([c, d], policyName)
    ensures x == y
  {
    hide PortNetwork;
    var m, n := PortNetwork(c.port), PortNetwork(d.port);
    assert c in [c, d] && d in [c, d];
    assert m + "" == m && n + "" == n;
    if key.0 == "firewall" {
      var s := FirewallClaim(c, policyName, key.1, x);
      var t := FirewallClaim(d, policyName, key.1, y);
      FirewallOnce(c, d, policyName, key.1, x, y, s, t);
    } else {
      assert "dhcp" != "firewall" && "pbr" != "firewall" && "dhcp" != "pbr";
    }
  }

  lemma FirewallOnce(c: Card, d: Card, policyName: string -> string, name: string, x: Option<Owner>, y: Option<Owner>, s: string, t: string)
    requires var m := PortNetwork(c.port);
      || (s in SUFFIXES + [""] && name == m + s && x == Owned(ServiceAt(m, s)))
      || (name == policyName(m) + "_block" && x == if c.policy.Block? then Some(Owner(true, "network", Reject(m))) else None)
    requires var n := PortNetwork(d.port);
      || (t in SUFFIXES + [""] && name == n + t && y == Owned(ServiceAt(n, t)))
      || (name == policyName(n) + "_block" && y == if d.policy.Block? then Some(Owner(true, "network", Reject(n))) else None)
    requires IsDedicated(c) && IsDedicated(d) && (PortNetwork(c.port) == PortNetwork(d.port) ==> c == d)
    requires AreNamesApart([c, d]) && ArePoliciesApart([c, d], policyName)
    ensures x == y
  {
    hide PortNetwork, ServiceAt;
    var m, n := PortNetwork(c.port), PortNetwork(d.port);
    assert c in [c, d] && d in [c, d];
    if s in SUFFIXES + [""] && name == m + s && x == Owned(ServiceAt(m, s))
       && t in SUFFIXES + [""] && name == n + t && y == Owned(ServiceAt(n, t)) {
      if s in SUFFIXES && t in SUFFIXES {
        SuffixOnce(m, n, s, t);
      } else {
        assert m + "" == m && n + "" == n;
      }
    } else if name == policyName(m) + "_block" && name == policyName(n) + "_block" {
      assert policyName(m) == name[..|name| - 6] == policyName(n);
    }
  }

  /** With policies named apart, the ports get what they want exactly when none is called like a service of another. */
  lemma NamesDecide(cards: seq<Card>, policyName: string -> string)
    requires forall c, d :: c in cards && d in cards && PortNetwork(c.port) == PortNetwork(d.port) ==> c == d
    requires ArePoliciesApart(cards, policyName)
    ensures ClaimsAgree(cards, policyName) <==> AreNamesApart(cards)
  {
    hide PortNetwork, Claims;
    if AreNamesApart(cards) {
      forall c, d, key, x, y | c in cards && d in cards && Claims(c, policyName, key, x) && Claims(d, policyName, key, y)
        ensures x == y
      {
        OneClaim(c, d, policyName, key, x, y);
      }
    } else {
      var c, d, s :| c in cards && d in cards && IsDedicated(c) && IsDedicated(d) && s in SUFFIXES
                     && PortNetwork(c.port) + s == PortNetwork(d.port);
      NamesClash(cards, policyName, c, d, s);
    }
  }

  /** Two ports of which one is called like the way of the other one to the Internet. */
  lemma PortLikeService(policyName: string -> string, a: string, b: string, p: Policy, q: Policy)
    ensures !ClaimsAgree([Card("eth0", Dedicated, false, a, p), Card("eth0_wan", Dedicated, false, b, q)], policyName)
  {
    var c, d := Card("eth0", Dedicated, false, a, p), Card("eth0_wan", Dedicated, false, b, q);
    assert SafeName("eth0") == "eth0" && SafeName("eth0_wan") == "eth0_wan";
    assert PortNetwork("eth0") + "_wan" == PortNetwork("eth0_wan");
    assert c in [c, d] && d in [c, d];
    NamesClash([c, d], policyName, c, d, "_wan");
  }
}
