/** The staged transaction of savePorts on the network configuration, and the sections it owns elsewhere. */
module PortAssignment {
  import opened Wrappers
  import opened Text
  import opened Ports
  import opened PortServices

  const WANB_SCOPE := "ethernet-port"

  function Bridges(network: Network, device: string): set<string> {
    set id | id in network && network[id].kind == Device && network[id].bridge && network[id].name == device
  }

  function Without(ports: seq<string>, builtin: seq<string>): seq<string> {
    if ports == [] then []
    else Without(ports[..|ports| - 1], builtin) + (if ports[|ports| - 1] in builtin then [] else [ports[|ports| - 1]])
  }

  function PortsOf(cards: seq<Card>): seq<string> {
    seq(|cards|, i requires 0 <= i < |cards| => cards[i].port)
  }

  /** The ports of the cards that are not locked and have a role, in order. */
  function PortsWith(cards: seq<Card>, role: Role): seq<string> {
    if cards == [] then []
    else
      var c := cards[|cards| - 1];
      PortsWith(cards[..|cards| - 1], role) + (if !c.locked && c.role == role then [c.port] else [])
  }

  /** The ports that join the LAN bridge: those of the guests too, where both networks are on one bridge. */
  function LanPorts(cards: seq<Card>, lan: string, guest: Option<string>): seq<string> {
    if guest == Some(lan) then PortsWith(cards, Lan) + PortsWith(cards, Guest) else PortsWith(cards, Lan)
  }

  /** The ports of custom configurations are locked. */
  predicate AreCards(cards: seq<Card>) {
    && (forall k :: 0 <= k < |cards| ==> (cards[k].locked <==> cards[k].role == Custom))
    && (forall j, k :: 0 <= j < k < |cards| ==> cards[j].port != cards[k].port)
    && (forall j, k :: 0 <= j < k < |cards| ==> PortNetwork(cards[j].port) != PortNetwork(cards[k].port))
  }

  /** The names of the uplinks and of port segments belong to interfaces. */
  ghost predicate IsOrdinary(network: Network) {
    forall id :: id in network && IsInterfaceName(id) ==> network[id].kind == Interface
  }

  /** Every interface of b is one of a, with the same addresses. */
  ghost predicate AddressesKept(a: Network, b: Network) {
    forall id :: id in b && b[id].kind == Interface ==>
      id in a && a[id].kind == Interface && a[id].addresses == b[id].addresses && a[id].netmask == b[id].netmask
  }

  predicate IsInterfaceName(id: string) {
    id == WAN || id == WAN6 || id == WANB || IsSegmentName(id)
  }

  predicate IsSegmentName(id: string) {
    |PREFIX| <= |id| && id[..|PREFIX|] == PREFIX
  }

  lemma SegmentNames(port: string)
    ensures IsSegmentName(PortNetwork(port))
    ensures PortNetwork(port) != WAN && PortNetwork(port) != WAN6 && PortNetwork(port) != WANB
  {
    assert PortNetwork(port)[..|PREFIX|] == PREFIX;
  }

  function NewBridge(device: string): Section {
    Section(Device, "", device, true, [], true, "", [], "")
  }

  function Segment(c: Card): Section {
    Section(Interface, c.port, "", false, [], true, PORT_SCOPE, [Trim(c.address)], "255.255.255.0")
  }

  /** The backup uplink on a port; its former addresses go. */
  function BackupOn(s: Section, port: string): Section {
    s.(device := port, addresses := [], netmask := "", managed := true, scope := WANB_SCOPE)
  }

  class Uci {
    var network: Network
    var others: Others

    /** uci.set of a device; sections that do not exist are left alone. */
    method SetDevice(id: string, device: string)
      modifies `network
      ensures network == if id in old(network) then old(network)[id := old(network)[id].(device := device)] else old(network)
    {
      if id in network {
        network := network[id := network[id].(device := device)];
      }
    }

    method SetPorts(id: string, ports: seq<string>)
      requires id in network
      modifies `network
      ensures network == old(network)[id := old(network)[id].(ports := ports)]
    {
      network := network[id := network[id].(ports := ports)];
    }

    /** The bridge for a device name; created where there is none. The order of the sections decides
        between several. */
    method EnsureBridge(device: string, suggested: string, first: set<string> -> string) returns (id: string)
      requires forall s: set<string> :: s != {} ==> first(s) in s
      modifies `network
      ensures if Bridges(old(network), device) == {} then id == suggested && network == old(network)[id := NewBridge(device)]
        else id in Bridges(network, device) && network == old(network)
    {
      var found := Bridges(network, device);
      if found == {} {
        id := suggested;
        network := network[id := NewBridge(device)];
      } else {
        id := first(found);
      }
    }

    /** The bridge of a shared network, created if there is none for it yet; None where the network uses some other device. */
    method SharedBridge(networkName: string, fallback: string, suggested: string, first: set<string> -> string)
      returns (id: Option<string>)
      requires forall s: set<string> :: s != {} ==> first(s) in s
      requires !IsInterfaceName(suggested) && !IsInterfaceName(networkName) && suggested != networkName
      requires IsOrdinary(network)
      modifies `network
      ensures IsOrdinary(network)
      ensures id.Some? ==> id.value in network && network[id.value].kind == Device && !IsInterfaceName(id.value)
      ensures id.Some? <==> CanShare(old(network), networkName, fallback)
      ensures id.Some? ==> network[id.value].bridge
      ensures id.Some? && networkName in network ==> network[id.value].name == network[networkName].device
      ensures id.Some? && id.value in old(network) && id.value != suggested && id.value != networkName ==>
        network[id.value] == old(network)[id.value]
      ensures forall s :: s != suggested && s != networkName ==>
        (s in network <==> s in old(network)) && (s in network ==> network[s] == old(network)[s])
      ensures networkName in network <==> networkName in old(network)
      ensures networkName in network ==> network[networkName] == old(network)[networkName].(device := network[networkName].device)
      ensures suggested in old(network) ==> suggested in network
      ensures AddressesKept(old(network), network)
    {
      var attached := if networkName in network then network[networkName].device else "";
      var found := Bridges(network, attached);
      if found != {} {
        return Some(first(found));
      }
      if attached != "" && attached != fallback {
        return None;
      }
      var created := EnsureBridge(fallback, suggested, first);
      if attached == "" {
        SetDevice(networkName, fallback);
      }
      id := Some(created);
    }

    /** removeManagedPortSegment: only sections of the editor are removed. */
    method RemoveSegment(port: string, hasPbr: bool, policyName: string -> string)
      modifies this
      ensures network == if IsOwnSegment(old(network), PortNetwork(port)) then old(network) - {PortNetwork(port)} else old(network)
      ensures AreCleared(old(others), others, PortNetwork(port), hasPbr, policyName)
    {
      hide PortNetwork, AreCleared, Left;
      var n := PortNetwork(port);
      ClearedOneByOne(others, n, hasPbr, policyName);
      if IsOwnSegment(network, n) {
        network := network - {n};
      }
      Remove(("dhcp", n), PORT_SCOPE);
      Remove(("firewall", n), PORT_SCOPE);
      Remove(("firewall", n + "_wan"), PORT_SCOPE);
      Remove(("firewall", n + "_dhcp"), PORT_SCOPE);
      Remove(("firewall", n + "_dns"), PORT_SCOPE);
      if hasPbr {
        Remove(("pbr", policyName(n)), "");
      }
      Remove(("firewall", policyName(n) + "_block"), "");
    }

    /** A section goes if it is the editor's, and of the given scope where one is given. */
    method Remove(key: (string, string), scope: string)
      modifies `others
      ensures others == Left(old(others), key, scope)
    {
      if IsRemovable(others, key, scope) {
        others := others - {key};
      }
    }

    method RemoveSegments(cards: seq<Card>, hasPbr: bool, policyName: string -> string)
      modifies this
      ensures AreRemoved(old(others), others, cards, hasPbr, policyName)
      ensures IsCleared(old(network), network, cards)
    {
      hide PortNetwork, IsSegmentName, AreCleared, AreRemoved;
      NoneRemoved(others, cards, hasPbr, policyName);
      for k := 0 to |cards|
        invariant AreRemoved(old(others), others, cards[..k], hasPbr, policyName)
        invariant network.Keys <= old(network).Keys
        invariant forall id :: id in network ==> network[id] == old(network)[id]
        invariant forall j :: 0 <= j < k ==> !IsOwnSegment(network, PortNetwork(cards[j].port))
        invariant forall id :: id in old(network) && id !in network ==>
          IsOwnSegment(old(network), id) && IsSegmentName(id) && IsNameOfCard(cards, id)
      {
        SegmentNames(cards[k].port);
        assert cards[k] in cards && IsNameOfCard(cards, PortNetwork(cards[k].port));
        ghost var left := others;
        RemoveSegment(cards[k].port, hasPbr, policyName);
        OneMoreRemoved(old(others), left, others, cards, k, hasPbr, policyName);
      }
      assert cards[..|cards|] == cards;
    }

    method UpdateWanDevices(wanPort: string)
      modifies `network
      ensures IsRewired(old(network), network, wanPort)
    {
      var oldWan := if WAN in network then network[WAN].device else "";
      var oldWan6 := if WAN6 in network then network[WAN6].device else "";
      SetDevice(WAN, wanPort);
      if WAN6 in network && oldWan6 == oldWan {
        SetDevice(WAN6, wanPort);
      }
    }

    /** updateBackupWan on the network; other reasons to refuse a backup are given. */
    method UpdateBackupWan(port: Option<string>, refused: bool) returns (ok: bool)
      modifies `network
      ensures ok ==> IsBacked(old(network), network, port)
      ensures ok <==> port == None || (!refused && IsBackupFree(old(network)))
    {
      ok := true;
      if port == None {
        if WANB in network && IsManaged(network[WANB], WANB_SCOPE) {
          network := network - {WANB};
        }
        return;
      }
      if refused || (WANB in network && !IsManaged(network[WANB], WANB_SCOPE)) {
        return false;
      }
      if WANB !in network {
        network := network[WANB := EMPTY.(kind := Interface)];
      }
      network := network[WANB := BackupOn(network[WANB], port.value)];
    }

    /** createPortSegment: the interface, its services and its policy, all marked as the editor's. */
    method CreateSegment(c: Card, policyName: string -> string)
      requires IsDedicated(c)
      modifies this
      ensures network == old(network)[PortNetwork(c.port) := Segment(c)]
      ensures ClaimsAgree([c], policyName) && IsPolicyFree(old(others), c, policyName) ==> ClaimsMet(others, [c], policyName)
      ensures forall key :: key in others && (key !in old(others) || others[key] != old(others)[key]) ==> others[key].managed
      ensures forall key :: key !in OwnKeys(c, policyName) ==> At(others, key) == At(old(others), key)
    {
      hide PortNetwork, OwnKeys, ClaimsAgree, ClaimsMet, IsPolicyFree;
      var n := PortNetwork(c.port);
      network := network[n := Segment(c)];
      AddServices(n);
      ghost var served := others;
      ApplyPolicy(n, c.policy, policyName);
      OwnKeysAre(c, policyName);
      ClaimsAreMet(old(others), served, others, c, policyName);
    }

    /** DHCP and the firewall of a segment. */
    method AddServices(n: string)
      modifies `others
      ensures others == WithServices(old(others), n)
    {
      others := others[("dhcp", n) := Owner(true, PORT_SCOPE, Pool(n))];
      others := others[("firewall", n) := Owner(true, PORT_SCOPE, Zone(n))];
      CreateServiceRule(n, "dhcp", "67");
      CreateServiceRule(n, "dns", "53");
      others := others[("firewall", n + "_wan") := Owner(true, PORT_SCOPE, Forward(n))];
    }

    /** createRouterServiceRule: what clients of the segment may use on the router. */
    method CreateServiceRule(n: string, suffix: string, port: string)
      modifies `others
      ensures others == old(others)[("firewall", n + "_" + suffix) := Owner(true, PORT_SCOPE, Service(n, port))]
    {
      others := others[("firewall", n + "_" + suffix) := Owner(true, PORT_SCOPE, Service(n, port))];
    }

    /** applyPortPolicy: the earlier policy goes, as far as it is the editor's, and the new one comes. */
    method ApplyPolicy(n: string, policy: Policy, policyName: string -> string)
      modifies `others
      ensures IsPolicySet(old(others), others, n, policy, policyName)
    {
      var pbr, block := ("pbr", policyName(n)), ("firewall", policyName(n) + "_block");
      assert "pbr" != "firewall";
      Remove(pbr, "");
      Remove(block, "");
      if policy.Vpn? {
        others := others[pbr := Owner(true, "network", Route(n, policy.interface))];
      } else if policy.Block? {
        others := others[block := Owner(true, "network", Reject(n))];
      }
    }

    /** The built-in ports leave the shared bridges; all other members stay, in order. */
    method StripBridges(lan: string, guest: Option<string>, builtin: seq<string>)
      requires lan in network && (guest.Some? ==> guest.value in network)
      modifies `network
      ensures IsStripped(old(network), network, lan, guest, builtin)
    {
      WithoutTwice(network[lan].ports, builtin);
      SetPorts(lan, Without(network[lan].ports, builtin));
      if guest.Some? {
        SetPorts(guest.value, Without(network[guest.value].ports, builtin));
      }
    }

    /** Every port that is to be shared joins its bridge, behind the members that stayed. */
    method FillBridges(lan: string, guest: Option<string>, cards: seq<Card>)
      requires lan in network && (guest.Some? ==> guest.value in network)
      modifies `network
      ensures IsFilled(old(network), network, lan, guest, cards)
    {
      SetPorts(lan, network[lan].ports + PortsWith(cards, Lan));
      if guest.Some? {
        SetPorts(guest.value, network[guest.value].ports + PortsWith(cards, Guest));
      }
    }

    method CreateSegments(cards: seq<Card>, policyName: string -> string)
      requires AreCards(cards)
      modifies this
      ensures IsCreated(old(network), network, cards)
      ensures forall key :: key in others && (key !in old(others) || others[key] != old(others)[key]) ==> others[key].managed
      ensures forall key :: IsFreeKey(cards, policyName, key) ==> At(others, key) == At(old(others), key)
      ensures ClaimsAgree(cards, policyName) && ArePoliciesFree(old(others), cards, policyName) ==> ClaimsMet(others, cards, policyName)
    {
      hide OwnKeys, PortNetwork, Segment, ClaimsAgree, ClaimsMet, Claims, ArePoliciesFree, IsPolicyFree;
      NoneClaimed(others, cards, policyName);
      for k := 0 to |cards|
        invariant forall j :: 0 <= j < k && IsDedicated(cards[j]) ==>
          PortNetwork(cards[j].port) in network && network[PortNetwork(cards[j].port)] == Segment(cards[j])
        invariant forall id :: IsFree(cards, id) ==> Unchanged(old(network), network, id)
        invariant forall key :: key in others && (key !in old(others) || others[key] != old(others)[key]) ==> others[key].managed
        invariant forall key :: IsFreeKey(cards, policyName, key) ==> At(others, key) == At(old(others), key)
        invariant ClaimsAgree(cards, policyName) && ArePoliciesFree(old(others), cards, policyName) ==>
          ClaimsMet(others, cards[..k], policyName)
      {
        ghost var before := others;
        if IsDedicated(cards[k]) {
          assert cards[k] in cards;
          CreateSegment(cards[k], policyName);
        }
        OneMoreClaimed(old(others), before, others, cards, k, policyName);
      }
      assert cards[..|cards|] == cards;
    }

    method FindCard(cards: seq<Card>, role: Role) returns (port: Option<string>)
      ensures port == PortOfRole(cards, role, 0)
    {
      var k := 0;
      while k < |cards| && cards[k].role != role
        invariant k <= |cards| && PortOfRole(cards, role, 0) == PortOfRole(cards, role, k)
      {
        k := k + 1;
      }
      port := if k < |cards| then Some(cards[k].port) else None;
    }

    /** The shared bridges, created where they are missing; None when a network uses some other device. */
    method ShareBridges(hasGuest: bool, first: set<string> -> string) returns (lan: Option<string>, guest: Option<string>)
      requires forall s: set<string> :: s != {} ==> first(s) in s
      requires IsOrdinary(network)
      modifies `network
      ensures lan.Some? ==> lan.value in network && !IsInterfaceName(lan.value)
      ensures guest.Some? ==> guest.value in network && !IsInterfaceName(guest.value)
      ensures lan.Some? <==> CanShare(old(network), "lan", "br-lan")
      ensures !hasGuest ==> guest == None
      ensures hasGuest && lan.Some? && CanShareGuest(old(network)) ==> guest.Some?
      ensures forall id :: id !in SHARED ==> Unchanged(old(network), network, id)
      ensures AddressesKept(old(network), network)
    {
      hide IsOrdinary, IsInterfaceName, CanShareGuest, CanShare;
      NotInterfaces();
      lan := SharedBridge("lan", "br-lan", "freenetic_br_lan", first);
      ghost var middle := network;
      guest := None;
      if lan.Some? && hasGuest {
        GuestStaysShareable(old(network), middle);
        guest := SharedBridge("guest", "br-guest", "freenetic_br_guest", first);
        BridgeStays(middle, network, lan.value);
      }
    }

    /** The part of savePorts that changes the configuration, once the bridges are there. */
    method Reassign(cards: seq<Card>, lan: string, guest: Option<string>, hasPbr: bool, refused: bool,
                    policyName: string -> string) returns (ok: bool)
      requires AreCards(cards) && CountRole(cards, Wan) == 1
      requires lan in network && !IsInterfaceName(lan)
      requires guest.Some? ==> guest.value in network && !IsInterfaceName(guest.value)
      modifies this
      ensures ok ==> IsStaged(old(network), network, cards, lan, guest)
      ensures ok ==> KeptForeign(old(others), others, cards, policyName)
      ensures ok ==> RestIs(old(others), others, cards, hasPbr, policyName)
      ensures ok && ClaimsAgree(cards, policyName) && ArePoliciesFree(old(others), cards, policyName) ==>
        ClaimsMet(others, cards, policyName)
      ensures ok <==> PortOfRole(cards, Wanb, 0) == None || (!refused && IsBackupFree(old(network)))
    {
      hide IsStaged, AreCards, CountRole, KeptForeign, IsStripped, IsCleared, IsRewired, IsBacked, IsFilled, IsCreated,
        IsBackupFree, AreRemoved, RestIs, ClaimsAgree, ClaimsMet, ArePoliciesFree, IsFreeKey;
      StripBridges(lan, guest, PortsOf(cards));
      ghost var stripped := network;
      RemoveSegments(cards, hasPbr, policyName);
      ghost var cleared, left := network, others;
      var wan := FindCard(cards, Wan);
      var backup := FindCard(cards, Wanb);
      SomeWan(cards);
      UpdateWanDevices(wan.value);
      ghost var rewired := network;
      BackupUntouched(old(network), stripped, cleared, rewired, cards, lan, guest, wan.value);
      ok := UpdateBackupWan(backup, refused);
      if !ok {
        return;
      }
      ghost var backed := network;
      BridgesThere(old(network), stripped, cleared, rewired, backed, cards, lan, guest, wan.value, backup);
      FillBridges(lan, guest, cards);
      ghost var filled := network;
      CreateSegments(cards, policyName);
      ForeignKept(old(others), left, others, cards, hasPbr, policyName);
      ghost var t := Phases(old(network), stripped, cleared, rewired, backed, filled, network);
      StagedByPhases(t, cards, lan, guest, wan.value, backup);
    }

    /** savePorts up to the point where the change is saved. before is the network with the shared bridges. */
    method Save(cards: seq<Card>, ids: seq<string>, hasGuest: bool, hasPbr: bool, refused: bool, policyName: string -> string,
                first: set<string> -> string)
      returns (staged: bool, ghost before: Network, ghost lan: string, ghost guest: Option<string>)
      requires forall id :: id in ids ==> id in network
      requires forall s: set<string> :: s != {} ==> first(s) in s
      requires AreCards(cards) && IsOrdinary(network)
      modifies this
      ensures staged ==> AreValid(cards, old(network), ids, old(others), hasPbr, policyName)
      ensures (AreValid(cards, old(network), ids, old(others), hasPbr, policyName) && CanShare(old(network), "lan", "br-lan")
               && (hasGuest ==> CanShareGuest(old(network))) && !refused && IsBackupFree(old(network))) ==> staged
      ensures !AreValid(cards, old(network), ids, old(others), hasPbr, policyName) ==>
        network == old(network) && others == old(others)
      ensures staged ==> guest.Some? == hasGuest && IsStaged(before, network, cards, lan, guest)
      ensures staged ==> forall id :: id !in SHARED ==> Unchanged(old(network), before, id)
      ensures staged ==> AddressesKept(old(network), before) && !IsInterfaceName(lan) && (guest.Some? ==> !IsInterfaceName(guest.value))
      ensures staged ==> forall key :: key in old(others) && !old(others)[key].managed ==>
        key in others && others[key] == old(others)[key]
      ensures staged ==> forall key :: key in others && (key !in old(others) || others[key] != old(others)[key]) ==> others[key].managed
      // in the other configurations every port with a segment has what it wants, exactly when no two ports want
      // different things at one name; all that the editor had for other ports is gone, and the rest stays
      ensures staged ==> (ClaimsMet(others, cards, policyName) <==> ClaimsAgree(cards, policyName))
      ensures staged ==> RestIs(old(others), others, cards, hasPbr, policyName)
    {
      hide RestIs, ClaimsMet, ClaimsAgree, ArePoliciesFree, CountRole, IsStaged, Unchanged, AreCards, IsOrdinary, AddressesKept, CardIsValid, KeptForeign, IsInterfaceName, CanShare,
        CanShareGuest, IsBackupFree;
      staged, before, lan, guest := false, network, "", None;
      var accepted := Validate(cards, network, ids, others, hasPbr, policyName);
      if !accepted {
        return;
      }
      var lanBridge, guestBridge := ShareBridges(hasGuest, first);
      if lanBridge == None || (hasGuest && guestBridge == None) {
        return;
      }
      before, lan, guest := network, lanBridge.value, guestBridge;
      SameBackup(old(network), before);
      PoliciesAreFree(old(network), others, cards, ids, hasPbr, policyName);
      staged := Reassign(cards, lanBridge.value, guestBridge, hasPbr, refused, policyName);
      if staged {
        NothingForeignNeeded(old(network), old(others), others, cards, ids, hasPbr, policyName);
        if ClaimsMet(others, cards, policyName) {
          MetMeansAgreed(others, cards, policyName);
        }
      }
    }
  }

  // ---------- the phases ----------

  const SHARED := {"lan", "guest", "freenetic_br_lan", "freenetic_br_guest"}

  function PortOfRole(cards: seq<Card>, role: Role, k: nat): Option<string>
    decreases |cards| - k
  {
    if k >= |cards| then None else if cards[k].role == role then Some(cards[k].port) else PortOfRole(cards, role, k + 1)
  }

  ghost predicate Unchanged(a: Network, b: Network, id: string) {
    (id in a <==> id in b) && (id in a ==> b[id] == a[id])
  }

  ghost predicate IsStripped(a: Network, b: Network, lan: string, guest: Option<string>, builtin: seq<string>) {
    && b.Keys == a.Keys
    && (forall id :: id != lan && guest != Some(id) ==> Unchanged(a, b, id))
    && (lan in a ==> b[lan] == a[lan].(ports := Without(a[lan].ports, builtin)))
    && (guest.Some? && guest.value in a ==>
         b[guest.value] == a[guest.value].(ports := Without(a[guest.value].ports, builtin)))
  }

  ghost predicate IsFilled(a: Network, b: Network, lan: string, guest: Option<string>, cards: seq<Card>) {
    && b.Keys == a.Keys
    && (forall id :: id != lan && guest != Some(id) ==> Unchanged(a, b, id))
    && (lan in a ==> b[lan] == a[lan].(ports := a[lan].ports + LanPorts(cards, lan, guest)))
    && (guest != Some(lan) && guest.Some? && guest.value in a ==>
         b[guest.value] == a[guest.value].(ports := a[guest.value].ports + PortsWith(cards, Guest)))
  }

  ghost predicate IsCleared(a: Network, b: Network, cards: seq<Card>) {
    && b.Keys <= a.Keys
    && (forall id :: id in b ==> b[id] == a[id])
    && (forall c :: c in cards ==> !IsOwnSegment(b, PortNetwork(c.port)))
    && (forall id :: id in a && id !in b ==> IsOwnSegment(a, id) && IsSegmentName(id) && IsNameOfCard(cards, id))
  }

  ghost predicate IsRewired(a: Network, b: Network, wanPort: string) {
    && b.Keys == a.Keys
    && (forall id :: id != WAN && id != WAN6 ==> Unchanged(a, b, id))
    && WansAre(a, b, wanPort)
  }

  /** The uplink moves to a port, and its IPv6 side with it where they were on one device. */
  ghost predicate WansAre(a: Network, b: Network, wanPort: string) {
    && (WAN in a <==> WAN in b) && (WAN6 in a <==> WAN6 in b)
    && (WAN in a && WAN in b ==> b[WAN] == a[WAN].(device := wanPort))
    && (WAN6 in a && WAN6 in b ==>
         b[WAN6] == a[WAN6].(device := if a[WAN6].device == DeviceOf(a, WAN) then wanPort else a[WAN6].device))
  }

  ghost predicate IsBacked(a: Network, b: Network, port: Option<string>) {
    && (forall id :: id != WANB ==> Unchanged(a, b, id))
    && match port
       case Some(p) =>
         && (WANB in a ==> IsManaged(a[WANB], WANB_SCOPE))
         && WANB in b && b[WANB] == BackupOn(if WANB in a then a[WANB] else EMPTY.(kind := Interface), p)
       case None =>
         if WANB in a && !IsManaged(a[WANB], WANB_SCOPE) then Unchanged(a, b, WANB) else WANB !in b
  }

  ghost predicate IsCreated(a: Network, b: Network, cards: seq<Card>) {
    && (forall c :: c in cards && IsDedicated(c) ==> PortNetwork(c.port) in b && b[PortNetwork(c.port)] == Segment(c))
    && (forall id :: IsFree(cards, id) ==> Unchanged(a, b, id))
  }

  /** No dedicated port needs the name. */
  ghost predicate IsFree(cards: seq<Card>, id: string) {
    forall c :: c in cards && IsDedicated(c) ==> PortNetwork(c.port) != id
  }

  predicate IsNameOfCard(cards: seq<Card>, id: string) {
    exists c :: c in cards && PortNetwork(c.port) == id
  }

  /** In the other configurations everything unmanaged stays, and whatever is new is managed. */
  ghost predicate KeptForeign(a: Others, b: Others, cards: seq<Card>, policyName: string -> string) {
    && (forall key :: key in a && !a[key].managed && IsFreeKey(cards, policyName, key) ==> key in b && b[key] == a[key])
    && (forall key :: key in b && (key !in a || b[key] != a[key]) ==> b[key].managed)
  }

  predicate IsOwnSegment(network: Network, id: string) {
    id in network && IsManaged(network[id], PORT_SCOPE)
  }

  // ---------- the result ----------

  /** The shared bridges hold their former members but for the built-in ports, then the ports of their role. */
  ghost predicate SharedAre(before: Network, after: Network, cards: seq<Card>, lan: string, guest: Option<string>) {
    && lan in before && lan in after && (guest.Some? ==> guest.value in before && guest.value in after)
    && after[lan] == before[lan].(ports := Without(before[lan].ports, PortsOf(cards)) + LanPorts(cards, lan, guest))
    && (guest != Some(lan) && guest.Some? ==>
         after[guest.value] == before[guest.value].(ports := Without(before[guest.value].ports, PortsOf(cards)) + PortsWith(cards, Guest)))
  }

  ghost predicate UplinksAre(before: Network, after: Network, cards: seq<Card>) {
    && PortOfRole(cards, Wan, 0).Some? && WansAre(before, after, PortOfRole(cards, Wan, 0).value)
    && match PortOfRole(cards, Wanb, 0)
       case Some(p) =>
         WANB in after && after[WANB] == BackupOn(if WANB in before then before[WANB] else EMPTY.(kind := Interface), p)
       case None => WANB in after ==> !IsManaged(after[WANB], WANB_SCOPE) && Unchanged(before, after, WANB)
  }

  ghost predicate SegmentsAre(before: Network, after: Network, cards: seq<Card>) {
    && (forall c :: c in cards && IsDedicated(c) ==> PortNetwork(c.port) in after && after[PortNetwork(c.port)] == Segment(c))
    && (forall c :: c in cards && !IsDedicated(c) ==> !IsOwnSegment(after, PortNetwork(c.port)))
    && (forall id :: IsSegmentName(id) && IsFree(cards, id) ==>
         || Unchanged(before, after, id)
         || (id !in after && IsOwnSegment(before, id) && IsNameOfCard(cards, id)))
  }

  ghost predicate RestStays(before: Network, after: Network, lan: string, guest: Option<string>) {
    forall id :: !IsInterfaceName(id) && id != lan && guest != Some(id) ==> Unchanged(before, after, id)
  }

  /** Where everything is after the change, section by section. */
  ghost predicate IsStaged(before: Network, after: Network, cards: seq<Card>, lan: string, guest: Option<string>) {
    && SharedAre(before, after, cards, lan, guest) && UplinksAre(before, after, cards)
    && SegmentsAre(before, after, cards) && RestStays(before, after, lan, guest)
  }

  /** The network after each phase of the change. */
  datatype Phases = Phases(before: Network, stripped: Network, cleared: Network, rewired: Network, backed: Network,
                           filled: Network, after: Network)

  ghost predicate ArePhases(t: Phases, cards: seq<Card>, lan: string, guest: Option<string>, wan: string, backup: Option<string>) {
    && IsStripped(t.before, t.stripped, lan, guest, PortsOf(cards)) && IsCleared(t.stripped, t.cleared, cards)
    && IsRewired(t.cleared, t.rewired, wan) && IsBacked(t.rewired, t.backed, backup)
    && IsFilled(t.backed, t.filled, lan, guest, cards) && IsCreated(t.filled, t.after, cards)
    && lan in t.before && !IsInterfaceName(lan)
    && (guest.Some? ==> guest.value in t.before && !IsInterfaceName(guest.value))
  }

  lemma NotInterfaces()
    ensures !IsInterfaceName("lan") && !IsInterfaceName("guest")
    ensures !IsInterfaceName("freenetic_br_lan") && !IsInterfaceName("freenetic_br_guest")
  {
    NotSegment("lan", 0);
    NotSegment("guest", 0);
    NotSegment("freenetic_br_lan", 10);
    NotSegment("freenetic_br_guest", 10);
  }

  lemma NotSegment(id: string, k: nat)
    requires k < |id| && k < |PREFIX| && id[k] != PREFIX[k]
    ensures !IsSegmentName(id)
  {
    if IsSegmentName(id) {
      SegmentAt(id, k);
    }
  }

  lemma SegmentAt(id: string, k: nat)
    requires IsSegmentName(id) && k < |PREFIX|
    ensures k < |id| && id[k] == PREFIX[k]
  {
    assert id[..|PREFIX|][k] == PREFIX[k];
  }

  /** No section with the name of the backup belongs to someone else. */
  predicate IsBackupFree(network: Network) {
    WANB in network ==> IsManaged(network[WANB], WANB_SCOPE)
  }

  function DeviceOf(network: Network, id: string): string {
    if id in network then network[id].device else ""
  }

  /** A shared network is on a bridge, on no device, or on the device whose bridge is to be created. */
  predicate CanShare(network: Network, id: string, fallback: string) {
    var device := DeviceOf(network, id);
    Bridges(network, device) != {} || device == "" || device == fallback
  }

  /** The same for the guest network, after the LAN bridge may have been created. */
  predicate CanShareGuest(network: Network) {
    var device := DeviceOf(network, "guest");
    Bridges(network, device) - {"freenetic_br_lan"} != {} || device == "" || device == "br-guest"
  }

  lemma GuestStaysShareable(a: Network, b: Network)
    requires forall s :: s != "freenetic_br_lan" && s != "lan" ==> (s in b <==> s in a) && (s in b ==> b[s] == a[s])
    requires "lan" in a <==> "lan" in b
    requires "lan" in b ==> b["lan"] == a["lan"].(device := b["lan"].device)
    ensures CanShareGuest(a) ==> CanShare(b, "guest", "br-guest")
  {
    assert "guest"[0] != "freenetic_br_lan"[0] && "guest"[0] != "lan"[0];
    var device := DeviceOf(a, "guest");
    assert DeviceOf(b, "guest") == device;
    if id :| id in Bridges(a, device) && id != "freenetic_br_lan" {
      assert id in Bridges(b, device);
    }
  }

  lemma SameBackup(a: Network, b: Network)
    requires forall id :: id !in SHARED ==> Unchanged(a, b, id)
    ensures IsBackupFree(a) == IsBackupFree(b)
  {
    assert WANB[0] == 'w' && "lan"[0] == 'l' && "guest"[0] == 'g' && "freenetic_br_lan"[0] == 'f' && "freenetic_br_guest"[0] == 'f';
    assert Unchanged(a, b, WANB);
  }

  lemma BackupUntouched(before: Network, stripped: Network, cleared: Network, rewired: Network, cards: seq<Card>, lan: string,
                        guest: Option<string>, wan: string)
    requires IsStripped(before, stripped, lan, guest, PortsOf(cards)) && IsCleared(stripped, cleared, cards)
    requires IsRewired(cleared, rewired, wan)
    requires !IsInterfaceName(lan) && (guest.Some? ==> !IsInterfaceName(guest.value))
    ensures IsBackupFree(before) == IsBackupFree(rewired)
  {
    hide PortNetwork, IsSegmentName, IsOwnSegment, IsManaged, Without, PortsOf;
    NamesDiffer();
    assert Unchanged(before, stripped, WANB) && Unchanged(cleared, rewired, WANB);
  }

  lemma BridgeStays(a: Network, b: Network, lan: string)
    requires lan in a && (forall s :: s != "freenetic_br_guest" && s != "guest" ==> (s in b <==> s in a))
    requires "freenetic_br_guest" in a ==> "freenetic_br_guest" in b
    requires "guest" in a ==> "guest" in b
    ensures lan in b
  {
  }

  lemma {:induction false} SomeFrom(cards: seq<Card>, role: Role, j: nat, k: nat)
    requires j <= k < |cards| && cards[k].role == role
    ensures PortOfRole(cards, role, j).Some?
    decreases k - j
  {
    if j < k {
      SomeFrom(cards, role, j + 1, k);
    }
  }

  lemma {:induction false} CountSome(cards: seq<Card>, role: Role)
    requires CountRole(cards, role) > 0
    ensures exists k :: 0 <= k < |cards| && cards[k].role == role
  {
    var n := |cards| - 1;
    if cards[n].role != role {
      CountSome(cards[..n], role);
      var k :| 0 <= k < n && cards[..n][k].role == role;
      assert cards[k].role == role;
    }
  }

  lemma SomeWan(cards: seq<Card>)
    requires CountRole(cards, Wan) == 1
    ensures PortOfRole(cards, Wan, 0).Some?
  {
    CountSome(cards, Wan);
    var k :| 0 <= k < |cards| && cards[k].role == Wan;
    SomeFrom(cards, Wan, 0, k);
  }

  lemma BridgesThere(before: Network, stripped: Network, cleared: Network, rewired: Network, backed: Network, cards: seq<Card>,
                     lan: string, guest: Option<string>, wan: string, backup: Option<string>)
    requires IsStripped(before, stripped, lan, guest, PortsOf(cards)) && IsCleared(stripped, cleared, cards)
    requires IsRewired(cleared, rewired, wan) && IsBacked(rewired, backed, backup)
    requires lan in before && !IsInterfaceName(lan)
    requires guest.Some? ==> guest.value in before && !IsInterfaceName(guest.value)
    ensures lan in backed && (guest.Some? ==> guest.value in backed)
  {
    hide PortNetwork, IsSegmentName, Without, IsOwnSegment, IsManaged;
    StaysPut(stripped, cleared, rewired, backed, cards, wan, backup, lan);
    if guest.Some? {
      StaysPut(stripped, cleared, rewired, backed, cards, wan, backup, guest.value);
    }
  }

  /** Sections that are no interfaces of the editor are not touched while segments and uplinks change. */
  lemma StaysPut(stripped: Network, cleared: Network, rewired: Network, backed: Network, cards: seq<Card>, wan: string,
                 backup: Option<string>, id: string)
    requires IsCleared(stripped, cleared, cards) && IsRewired(cleared, rewired, wan) && IsBacked(rewired, backed, backup)
    requires !IsInterfaceName(id)
    ensures Unchanged(stripped, backed, id)
  {
    hide PortNetwork, IsSegmentName, IsOwnSegment, IsManaged;
    assert Unchanged(cleared, rewired, id) && Unchanged(rewired, backed, id);
  }

  lemma ForeignKept(before: Others, left: Others, after: Others, cards: seq<Card>, hasPbr: bool, policyName: string -> string)
    requires AreRemoved(before, left, cards, hasPbr, policyName)
    requires forall key :: key in after && (key !in left || after[key] != left[key]) ==> after[key].managed
    requires forall key :: IsFreeKey(cards, policyName, key) ==> At(after, key) == At(left, key)
    ensures KeptForeign(before, after, cards, policyName) && RestIs(before, after, cards, hasPbr, policyName)
    ensures ArePoliciesFree(before, cards, policyName) ==> ArePoliciesFree(left, cards, policyName)
  {
    hide IsFreeKey, PortNetwork, SegmentKeys, PolicyKeys;
    forall key
      ensures IsRemoved(before, cards, hasPbr, policyName, key) ==> key in before && before[key].managed
      ensures key in left ==> key in before && left[key] == before[key]
      ensures key in before && !before[key].managed ==> key in left
    {
      assert At(left, key) == if IsRemoved(before, cards, hasPbr, policyName, key) then None else At(before, key);
    }
  }

  lemma NamesAreFree(cards: seq<Card>)
    ensures forall id :: !IsSegmentName(id) ==> IsFree(cards, id)
  {
    hide IsSegmentName, PortNetwork, IsDedicated;
    forall id | !IsSegmentName(id)
      ensures IsFree(cards, id)
    {
      forall c | c in cards && IsDedicated(c)
        ensures PortNetwork(c.port) != id
      {
        SegmentNames(c.port);
      }
    }
  }

  lemma NamesDiffer()
    ensures WAN != WAN6 && WAN != WANB && WAN6 != WANB
    ensures !IsSegmentName(WAN) && !IsSegmentName(WAN6) && !IsSegmentName(WANB)
  {
    assert WAN6[3] == '6' && WANB[3] == 'b';
  }

  lemma OthersStay(t: Phases, cards: seq<Card>, lan: string, guest: Option<string>, wan: string, backup: Option<string>)
    requires ArePhases(t, cards, lan, guest, wan, backup)
    ensures RestStays(t.before, t.after, lan, guest)
  {
    hide PortNetwork, IsSegmentName, Without, IsManaged, PortsWith, PortsOf, Segment, IsOwnSegment, IsCleared, IsRewired, IsBacked;
    NamesAreFree(cards);
    forall id | !IsInterfaceName(id) && id != lan && guest != Some(id)
      ensures Unchanged(t.before, t.after, id)
    {
      StaysPut(t.stripped, t.cleared, t.rewired, t.backed, cards, wan, backup, id);
      assert Unchanged(t.before, t.stripped, id) && Unchanged(t.backed, t.filled, id) && Unchanged(t.filled, t.after, id);
    }
  }

  lemma SharedPorts(t: Phases, cards: seq<Card>, lan: string, guest: Option<string>, wan: string, backup: Option<string>)
    requires ArePhases(t, cards, lan, guest, wan, backup)
    ensures SharedAre(t.before, t.after, cards, lan, guest)
  {
    hide PortNetwork, IsSegmentName, Without, IsManaged, PortsWith, PortsOf, Segment, IsOwnSegment, IsCleared, IsRewired, IsBacked;
    NamesAreFree(cards);
    StaysPut(t.stripped, t.cleared, t.rewired, t.backed, cards, wan, backup, lan);
    assert Unchanged(t.filled, t.after, lan);
    if guest.Some? {
      StaysPut(t.stripped, t.cleared, t.rewired, t.backed, cards, wan, backup, guest.value);
      assert Unchanged(t.filled, t.after, guest.value);
    }
  }

  lemma WansPlaced(t: Phases, cards: seq<Card>, lan: string, guest: Option<string>, wan: string, backup: Option<string>)
    requires ArePhases(t, cards, lan, guest, wan, backup)
    ensures WansAre(t.before, t.after, wan)
  {
    hide PortNetwork, IsSegmentName, Without, IsManaged, PortsWith, PortsOf, Segment, IsOwnSegment, WansAre;
    NamesDiffer();
    NamesAreFree(cards);
    forall id | id == WAN || id == WAN6
      ensures Unchanged(t.before, t.cleared, id) && Unchanged(t.rewired, t.after, id)
    {
      assert Unchanged(t.before, t.stripped, id) && Unchanged(t.rewired, t.backed, id);
      assert Unchanged(t.backed, t.filled, id) && Unchanged(t.filled, t.after, id);
    }
    SameWans(t.before, t.cleared, t.rewired, t.after, wan);
  }

  lemma SameWans(a: Network, b: Network, c: Network, d: Network, wan: string)
    requires Unchanged(a, b, WAN) && Unchanged(a, b, WAN6) && Unchanged(c, d, WAN) && Unchanged(c, d, WAN6)
    requires WansAre(b, c, wan)
    ensures WansAre(a, d, wan)
  {
  }

  lemma UplinksPlaced(t: Phases, cards: seq<Card>, lan: string, guest: Option<string>, wan: string, backup: Option<string>)
    requires ArePhases(t, cards, lan, guest, wan, backup)
    requires Some(wan) == PortOfRole(cards, Wan, 0) && backup == PortOfRole(cards, Wanb, 0)
    ensures UplinksAre(t.before, t.after, cards)
  {
    hide PortNetwork, IsSegmentName, Without, IsManaged, PortsWith, PortsOf, Segment, IsOwnSegment, PortOfRole;
    hide WansAre;
    NamesDiffer();
    NamesAreFree(cards);
    WansPlaced(t, cards, lan, guest, wan, backup);
    assert Unchanged(t.before, t.stripped, WANB) && Unchanged(t.cleared, t.rewired, WANB);
    assert Unchanged(t.backed, t.filled, WANB) && Unchanged(t.filled, t.after, WANB);
  }

  lemma SegmentsPlaced(t: Phases, cards: seq<Card>, lan: string, guest: Option<string>, wan: string, backup: Option<string>)
    requires ArePhases(t, cards, lan, guest, wan, backup) && AreCards(cards)
    ensures SegmentsAre(t.before, t.after, cards)
  {
    hide PortNetwork, IsSegmentName, Without, IsManaged, PortsWith, PortsOf, Segment;
    NamesDiffer();
    forall id | IsSegmentName(id)
      ensures Unchanged(t.before, t.stripped, id) && Unchanged(t.cleared, t.rewired, id)
      ensures Unchanged(t.rewired, t.backed, id) && Unchanged(t.backed, t.filled, id)
    {
    }
    forall c | c in cards && !IsDedicated(c)
      ensures !IsOwnSegment(t.after, PortNetwork(c.port))
    {
      SegmentNames(c.port);
      OwnNames(cards, c);
      assert Unchanged(t.filled, t.after, PortNetwork(c.port));
    }
  }

  /** No other port's segment has the name of a port's segment. */
  lemma OwnNames(cards: seq<Card>, c: Card)
    requires AreCards(cards) && c in cards && !IsDedicated(c)
    ensures IsFree(cards, PortNetwork(c.port))
  {
    hide PortNetwork;
  }

  lemma StagedByPhases(t: Phases, cards: seq<Card>, lan: string, guest: Option<string>, wan: string, backup: Option<string>)
    requires ArePhases(t, cards, lan, guest, wan, backup) && AreCards(cards)
    requires Some(wan) == PortOfRole(cards, Wan, 0) && backup == PortOfRole(cards, Wanb, 0)
    ensures IsStaged(t.before, t.after, cards, lan, guest)
  {
    hide ArePhases, AreCards, PortOfRole, SharedAre, UplinksAre, SegmentsAre, RestStays;
    OthersStay(t, cards, lan, guest, wan, backup);
    SharedPorts(t, cards, lan, guest, wan, backup);
    UplinksPlaced(t, cards, lan, guest, wan, backup);
    SegmentsPlaced(t, cards, lan, guest, wan, backup);
  }

  lemma NothingForeignNeeded(network: Network, a: Others, b: Others, cards: seq<Card>, ids: seq<string>, hasPbr: bool,
                             policyName: string -> string)
    requires forall id :: id in ids ==> id in network
    requires AreValid(cards, network, ids, a, hasPbr, policyName) && KeptForeign(a, b, cards, policyName)
    ensures forall key :: key in a && !a[key].managed ==> key in b && b[key] == a[key]
    ensures forall key :: key in b && (key !in a || b[key] != a[key]) ==> b[key].managed
  {
    hide OwnKeys, NoCollision, PortNetwork, PortRange, UsedBy, DedicatedRanges, Apart, CountRole;
    forall key | key in a && !a[key].managed
      ensures IsFreeKey(cards, policyName, key)
    {
      forall c | c in cards && IsDedicated(c)
        ensures key !in OwnKeys(c, policyName)
      {
        var k :| 0 <= k < |cards| && cards[k] == c;
        assert CardIsValid(cards[k], network, a, hasPbr, policyName, UsedBy(network, ids) + DedicatedRanges(cards[..k]));
        OwnedKeys(network, a, c, policyName);
      }
    }
  }

  /** Where a plan is accepted, policies take the place of nothing foreign. */
  lemma PoliciesAreFree(network: Network, others: Others, cards: seq<Card>, ids: seq<string>, hasPbr: bool, policyName: string -> string)
    requires forall id :: id in ids ==> id in network
    requires AreValid(cards, network, ids, others, hasPbr, policyName)
    ensures ArePoliciesFree(others, cards, policyName)
  {
    hide PolicyKeys, PortNetwork, PortRange, UsedBy, DedicatedRanges, Apart, CountRole;
    forall c | c in cards && IsDedicated(c)
      ensures IsPolicyFree(others, c, policyName)
    {
      var k :| 0 <= k < |cards| && cards[k] == c;
      assert CardIsValid(cards[k], network, others, hasPbr, policyName, UsedBy(network, ids) + DedicatedRanges(cards[..k]));
    }
  }

  lemma OwnedKeys(network: Network, a: Others, c: Card, policyName: string -> string)
    requires NoCollision(network, a, PortNetwork(c.port), policyName)
    ensures forall key :: key in OwnKeys(c, policyName) && key in a ==> a[key].managed
  {
    hide SegmentKeys, PolicyKeys, PortNetwork;
    var segment, policies := SegmentKeys(PortNetwork(c.port)), PolicyKeys(PortNetwork(c.port), policyName);
    forall key | key in OwnKeys(c, policyName) && key in a
      ensures a[key].managed
    {
      assert key in segment || key in policies;
    }
  }

  // ---------- one place for every port ----------

  lemma {:induction false} InWithout(ports: seq<string>, builtin: seq<string>, p: string)
    ensures p in Without(ports, builtin) <==> p in ports && p !in builtin
  {
    if ports != [] {
      var n := |ports| - 1;
      InWithout(ports[..n], builtin, p);
      assert ports == ports[..n] + [ports[n]];
    }
  }

  lemma {:induction false} WithoutSplits(a: seq<string>, b: seq<string>, builtin: seq<string>)
    ensures Without(a + b, builtin) == Without(a, builtin) + Without(b, builtin)
  {
    if b == [] {
      assert a + b == a;
    } else {
      var n := |b| - 1;
      WithoutSplits(a, b[..n], builtin);
      assert (a + b)[..|a + b| - 1] == a + b[..n];
    }
  }

  lemma {:induction false} WithoutTwice(ports: seq<string>, builtin: seq<string>)
    ensures Without(Without(ports, builtin), builtin) == Without(ports, builtin)
  {
    if ports != [] {
      var n := |ports| - 1;
      var kept := Without(ports[..n], builtin);
      WithoutTwice(ports[..n], builtin);
      if ports[n] !in builtin {
        assert (kept + [ports[n]])[..|kept|] == kept;
      } else {
        assert kept + [] == kept;
      }
    }
  }

  lemma {:induction false} WithoutAll(ports: seq<string>, builtin: seq<string>)
    requires forall p :: p in ports ==> p in builtin
    ensures Without(ports, builtin) == []
  {
    if ports != [] {
      WithoutAll(ports[..|ports| - 1], builtin);
    }
  }

  lemma {:induction false} InPortsWith(cards: seq<Card>, role: Role, p: string)
    ensures p in PortsWith(cards, role) <==> exists k :: 0 <= k < |cards| && !cards[k].locked && cards[k].role == role && cards[k].port == p
  {
    if cards != [] {
      var n := |cards| - 1;
      InPortsWith(cards[..n], role, p);
      assert forall k :: 0 <= k < n ==> cards[..n][k] == cards[k];
      if p in PortsWith(cards[..n], role) {
        var k :| 0 <= k < n && !cards[..n][k].locked && cards[..n][k].role == role && cards[..n][k].port == p;
        assert cards[k].port == p;
      }
      if k :| 0 <= k < n && !cards[k].locked && cards[k].role == role && cards[k].port == p {
        assert cards[..n][k].port == p;
      }
    }
  }

  lemma {:induction false} CountTwo(cards: seq<Card>, role: Role, j: nat, k: nat)
    requires j < k < |cards| && cards[j].role == role && cards[k].role == role
    ensures CountRole(cards, role) >= 2
  {
    var n := |cards| - 1;
    if k < n {
      CountTwo(cards[..n], role, j, k);
    } else {
      CountOne(cards[..n], role, j);
    }
  }

  lemma {:induction false} CountOne(cards: seq<Card>, role: Role, j: nat)
    requires j < |cards| && cards[j].role == role
    ensures CountRole(cards, role) >= 1
  {
    if j < |cards| - 1 {
      CountOne(cards[..|cards| - 1], role, j);
    }
  }

  lemma {:induction false} RoleAt(cards: seq<Card>, role: Role, j: nat)
    requires j <= |cards|
    ensures match PortOfRole(cards, role, j)
      case Some(p) => exists k :: j <= k < |cards| && cards[k].role == role && cards[k].port == p
      case None => forall k :: j <= k < |cards| ==> cards[k].role != role
    decreases |cards| - j
  {
    if j < |cards| && cards[j].role != role {
      RoleAt(cards, role, j + 1);
    }
  }

  /** Where a role is given at most once, its port is the one with the role. */
  lemma OnlyPortOfRole(cards: seq<Card>, role: Role, k: nat)
    requires AreCards(cards) && CountRole(cards, role) <= 1 && k < |cards|
    ensures PortOfRole(cards, role, 0) == Some(cards[k].port) <==> cards[k].role == role
  {
    hide PortNetwork, CountRole, PortOfRole;
    RoleAt(cards, role, 0);
    var p := PortOfRole(cards, role, 0);
    if p.Some? {
      var j :| 0 <= j < |cards| && cards[j].role == role && cards[j].port == p.value;
      if j != k && cards[k].role == role {
        CountTwo(cards, role, if j < k then j else k, if j < k then k else j);
      }
    }
  }

  /** A port is in a shared bridge exactly when it has the role of the bridge. */
  lemma InBridge(cards: seq<Card>, ports: seq<string>, role: Role, k: nat)
    requires AreCards(cards) && k < |cards| && !cards[k].locked
    ensures cards[k].port in Without(ports, PortsOf(cards)) + PortsWith(cards, role) <==> cards[k].role == role
  {
    hide PortNetwork, Without, PortsWith;
    var p := cards[k].port;
    assert PortsOf(cards)[k] == p;
    InWithout(ports, PortsOf(cards), p);
    InPortsWith(cards, role, p);
  }

  /** Every port that is not locked is in the one place its role names, and in no other. */
  lemma EveryPortPlaced(before: Network, after: Network, cards: seq<Card>, lan: string, guest: Option<string>, k: nat)
    requires AreCards(cards) && CountRole(cards, Wan) == 1 && CountRole(cards, Wanb) <= 1
    requires IsStaged(before, after, cards, lan, guest) && guest != Some(lan) && WAN in before
    requires k < |cards| && !cards[k].locked
    ensures var p, role := cards[k].port, cards[k].role;
      && WAN in after && lan in after && (guest.Some? ==> guest.value in after)
      && (after[WAN].device == p <==> role == Wan)
      && (WANB in after && IsManaged(after[WANB], WANB_SCOPE) && after[WANB].device == p <==> role == Wanb)
      && (p in after[lan].ports <==> role == Lan)
      && (guest.Some? ==> (p in after[guest.value].ports <==> role == Guest))
      && (IsOwnSegment(after, PortNetwork(p)) && after[PortNetwork(p)].device == p <==> role == Dedicated)
  {
    hide PortNetwork, Without, PortsWith, CountRole, PortOfRole, AreCards, PortsOf, RestStays;
    OnlyPortOfRole(cards, Wan, k);
    OnlyPortOfRole(cards, Wanb, k);
    InBridge(cards, before[lan].ports, Lan, k);
    if guest.Some? {
      InBridge(cards, before[guest.value].ports, Guest, k);
    }
    assert cards[k] in cards;
  }

  /** The other members of the shared bridges stay, as often as before and in order. */
  lemma MembersStay(before: Network, after: Network, cards: seq<Card>, lan: string, guest: Option<string>)
    requires IsStaged(before, after, cards, lan, guest) && guest != Some(lan)
    ensures lan in before && lan in after
    ensures Without(after[lan].ports, PortsOf(cards)) == Without(before[lan].ports, PortsOf(cards))
    ensures guest.Some? ==> guest.value in before && guest.value in after
    ensures guest.Some? ==> Without(after[guest.value].ports, PortsOf(cards)) == Without(before[guest.value].ports, PortsOf(cards))
  {
    hide Without, PortsWith, PortsOf, UplinksAre, SegmentsAre, RestStays;
    BridgeMembers(cards, before[lan].ports, Lan);
    if guest.Some? {
      BridgeMembers(cards, before[guest.value].ports, Guest);
    }
  }

  lemma BridgeMembers(cards: seq<Card>, ports: seq<string>, role: Role)
    ensures Without(Without(ports, PortsOf(cards)) + PortsWith(cards, role), PortsOf(cards)) == Without(ports, PortsOf(cards))
  {
    hide Without, PortsWith;
    var builtin := PortsOf(cards);
    WithoutSplits(Without(ports, builtin), PortsWith(cards, role), builtin);
    WithoutTwice(ports, builtin);
    forall p | p in PortsWith(cards, role)
      ensures p in builtin
    {
      InPortsWith(cards, role, p);
      var k :| 0 <= k < |cards| && cards[k].port == p;
      assert builtin[k] == p;
    }
    WithoutAll(PortsWith(cards, role), builtin);
  }
}
