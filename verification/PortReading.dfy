/** Reading the assignment of a port back from the network configuration after a change. */
module PortReading {
  import opened Wrappers
  import opened Ports
  import opened PortAssignment

  function InterfacesOn(network: Network, device: string): set<string> {
    set id | id in network && network[id].kind == Interface && network[id].device == device
  }

  function BridgesWith(network: Network, port: string): set<string> {
    set id | id in network && network[id].kind == Device && network[id].bridge && port in network[id].ports
  }

  /** assignmentFor: the role a port has in a configuration. Where several sections qualify, the order of the
      sections decides. */
  function AssignmentFor(port: string, network: Network, first: set<string> -> string): Role
    requires forall s: set<string> :: s != {} ==> first(s) in s
  {
    if WAN in network && network[WAN].device == port then Wan
    else if WANB in network && network[WANB].device == port then
      if IsManaged(network[WANB], WANB_SCOPE) then Wanb else Custom
    else
      var direct := InterfacesOn(network, port);
      var bridges := BridgesWith(network, port);
      if direct != {} then
        if first(direct) == PortNetwork(port) && IsManaged(network[first(direct)], PORT_SCOPE) then Dedicated else Custom
      else if bridges == {} then NoRole
      else
        var on := InterfacesOn(network, network[first(bridges)].name);
        if on != {} && first(on) == "lan" then Lan else if on != {} && first(on) == "guest" then Guest else Custom
  }

  // ---------- conditions on the configuration before a change ----------

  /** A use of a port by the editor's own sections, or by the uplink. */
  predicate IsOwnUse(network: Network, id: string, port: string)
    requires id in network
  {
    || id == WAN || (id == WAN6 && DeviceOf(network, WAN) == port)
    || (id == WANB && IsManaged(network[id], WANB_SCOPE))
    || (id == PortNetwork(port) && IsManaged(network[id], PORT_SCOPE))
  }

  /** Nothing else uses the port: no other interface is on it, and no other bridge has it. */
  ghost predicate IsUnclaimed(network: Network, port: string, lan: string, guest: Option<string>) {
    && (forall id :: id in InterfacesOn(network, port) ==> IsOwnUse(network, id, port))
    && (forall id :: id in BridgesWith(network, port) ==> id == lan || guest == Some(id))
  }

  ghost predicate AreUnclaimed(network: Network, cards: seq<Card>, lan: string, guest: Option<string>) {
    forall c :: c in cards && !c.locked ==> IsUnclaimed(network, c.port, lan, guest)
  }

  /** A shared network, and only it, is on its bridge. */
  ghost predicate IsAttached(network: Network, id: string, bridge: string) {
    && bridge in network && network[bridge].kind == Device && network[bridge].bridge && !IsInterfaceName(bridge)
    && InterfacesOn(network, network[bridge].name) == {id}
  }

  ghost predicate IsReady(before: Network, cards: seq<Card>, lan: string, guest: Option<string>) {
    && AreCards(cards) && IsOrdinary(before) && AreUnclaimed(before, cards, lan, guest)
    && IsAttached(before, "lan", lan) && (guest.Some? ==> IsAttached(before, "guest", guest.value)) && guest != Some(lan)
    && WAN in before && CountRole(cards, Wan) == 1 && CountRole(cards, Wanb) <= 1
  }

  // ---------- who uses a device after the change ----------

  /** A use that the change brings about. */
  predicate IsNewUse(cards: seq<Card>, id: string, device: string) {
    exists c :: c in cards && c.port == device && !c.locked && IsUseOf(c, id)
  }

  predicate IsUseOf(c: Card, id: string) {
    || (c.role == Wan && (id == WAN || id == WAN6))
    || (c.role == Wanb && id == WANB)
    || (c.role == Dedicated && id == PortNetwork(c.port))
  }

  /** A use that was there before, by a section that has not changed. */
  ghost predicate IsOldUse(before: Network, after: Network, id: string, device: string) {
    && id in before && id in after && after[id] == before[id] && id != WAN
    && (id == WAN6 ==> DeviceOf(before, WAN) != device)
    && (id == WANB ==> !IsManaged(after[id], WANB_SCOPE))
  }

  lemma UseAfter(before: Network, after: Network, cards: seq<Card>, lan: string, guest: Option<string>, id: string, device: string)
    requires IsReady(before, cards, lan, guest) && IsStaged(before, after, cards, lan, guest)
    requires id in InterfacesOn(after, device)
    ensures IsNewUse(cards, id, device) || IsOldUse(before, after, id, device)
  {
    if id == WAN || id == WAN6 || id == WANB {
      UplinkAfter(before, after, cards, lan, guest, id, device);
    } else if IsSegmentName(id) {
      SegmentAfter(before, after, cards, lan, guest, id, device);
    } else {
      hide PortNetwork, CountRole, AreCards, UplinksAre, SegmentsAre, AreUnclaimed, IsOrdinary, Without, PortsWith, PortsOf,
           IsSegmentName;
      assert id != lan && guest != Some(id);
      assert Unchanged(before, after, id);
    }
  }

  lemma UplinkAfter(before: Network, after: Network, cards: seq<Card>, lan: string, guest: Option<string>, id: string, device: string)
    requires IsReady(before, cards, lan, guest) && IsStaged(before, after, cards, lan, guest)
    requires id in InterfacesOn(after, device) && (id == WAN || id == WAN6 || id == WANB)
    ensures IsNewUse(cards, id, device) || IsOldUse(before, after, id, device)
  {
    hide PortNetwork, CountRole, PortOfRole, SharedAre, SegmentsAre, RestStays, AreUnclaimed, IsOrdinary, IsAttached;
    NamesDiffer();
    RoleAt(cards, Wan, 0);
    RoleAt(cards, Wanb, 0);
    var wan, backup := PortOfRole(cards, Wan, 0), PortOfRole(cards, Wanb, 0);
    if id != WANB && wan == Some(device) {
      var k :| 0 <= k < |cards| && cards[k].role == Wan && cards[k].port == device;
      assert cards[k] in cards && IsUseOf(cards[k], id);
    } else if id == WANB && backup.Some? {
      var k :| 0 <= k < |cards| && cards[k].role == Wanb && cards[k].port == backup.value;
      assert cards[k] in cards && IsUseOf(cards[k], id);
    }
  }

  lemma SegmentAfter(before: Network, after: Network, cards: seq<Card>, lan: string, guest: Option<string>, id: string, device: string)
    requires IsReady(before, cards, lan, guest) && IsStaged(before, after, cards, lan, guest)
    requires id in InterfacesOn(after, device) && IsSegmentName(id)
    ensures IsNewUse(cards, id, device) || IsOldUse(before, after, id, device)
  {
    hide PortNetwork, CountRole, SharedAre, UplinksAre, RestStays, AreUnclaimed, IsOrdinary, IsAttached, IsSegmentName, IsNameOfCard;
    NamesDiffer();
    if !IsFree(cards, id) {
      var c :| c in cards && IsDedicated(c) && PortNetwork(c.port) == id;
      assert IsUseOf(c, id);
    }
  }

  // ---------- the assignment after the change ----------

  /** Only a segment of its own is on a port that is no uplink. */
  lemma PortUses(before: Network, after: Network, cards: seq<Card>, lan: string, guest: Option<string>, k: nat)
    requires IsReady(before, cards, lan, guest) && IsStaged(before, after, cards, lan, guest)
    requires k < |cards| && !cards[k].locked && cards[k].role != Wan && cards[k].role != Wanb
    ensures InterfacesOn(after, cards[k].port) == if cards[k].role == Dedicated then {PortNetwork(cards[k].port)} else {}
  {
    var c := cards[k];
    assert c in cards;
    hide PortNetwork, CountRole, AreCards, IsAttached, IsOrdinary, SharedAre, RestStays, IsNewUse, IsStaged, IsReady, UplinksAre, SegmentsAre,
         IsSegmentName;
    forall id | id in InterfacesOn(after, c.port)
      ensures c.role == Dedicated && id == PortNetwork(c.port)
    {
      UseAfter(before, after, cards, lan, guest, id, c.port);
      if IsNewUse(cards, id, c.port) {
        NewUseOf(cards, id, k);
      } else {
        NoOldUse(before, after, cards, lan, guest, id, k);
      }
    }
    if c.role == Dedicated {
      SegmentThere(before, after, cards, lan, guest, c);
    }
  }

  lemma SegmentThere(before: Network, after: Network, cards: seq<Card>, lan: string, guest: Option<string>, c: Card)
    requires IsStaged(before, after, cards, lan, guest) && c in cards && IsDedicated(c)
    ensures PortNetwork(c.port) in InterfacesOn(after, c.port)
  {
    hide PortNetwork, IsSegmentName, SharedAre, UplinksAre, RestStays;
  }

  lemma NewUseOf(cards: seq<Card>, id: string, k: nat)
    requires AreCards(cards) && k < |cards| && IsNewUse(cards, id, cards[k].port)
    ensures IsUseOf(cards[k], id)
  {
    hide PortNetwork;
    var c :| c in cards && c.port == cards[k].port && !c.locked && IsUseOf(c, id);
    var j :| 0 <= j < |cards| && cards[j] == c;
    assert j == k;
  }

  /** Before the change only the editor's own sections used the port, and those have changed. */
  lemma NoOldUse(before: Network, after: Network, cards: seq<Card>, lan: string, guest: Option<string>, id: string, k: nat)
    requires IsReady(before, cards, lan, guest) && IsStaged(before, after, cards, lan, guest)
    requires k < |cards| && !cards[k].locked && id in InterfacesOn(after, cards[k].port)
    requires IsOldUse(before, after, id, cards[k].port)
    ensures id == PortNetwork(cards[k].port) && cards[k].role == Dedicated
  {
    hide PortNetwork, CountRole, AreCards, IsAttached, IsOrdinary, SharedAre, RestStays, UplinksAre, IsSegmentName;
    var c := cards[k];
    assert c in cards && IsUnclaimed(before, c.port, lan, guest);
    assert id in InterfacesOn(before, c.port);
  }

  /** A shared network stays the only one on its bridge. */
  lemma BridgeUses(before: Network, after: Network, cards: seq<Card>, lan: string, guest: Option<string>, id: string, bridge: string)
    requires IsReady(before, cards, lan, guest) && IsStaged(before, after, cards, lan, guest)
    requires (id == "lan" && bridge == lan) || (id == "guest" && guest == Some(bridge))
    ensures bridge in after && bridge in before && after[bridge].name == before[bridge].name
    ensures InterfacesOn(after, after[bridge].name) == {id}
  {
    hide PortNetwork, CountRole, AreCards, IsOrdinary, UplinksAre, SegmentsAre, IsNewUse, AreUnclaimed, IsInterfaceName, Without,
         PortsWith, PortsOf;
    NotInterfaces();
    var device := before[bridge].name;
    assert id in InterfacesOn(before, device);
    forall other | other in InterfacesOn(after, device)
      ensures other == id
    {
      UseAfter(before, after, cards, lan, guest, other, device);
      if IsNewUse(cards, other, device) {
        NotAPort(before, cards, lan, guest, id, bridge, other);
      } else {
        assert other in InterfacesOn(before, device);
      }
    }
    assert Unchanged(before, after, id);
  }

  /** No port has the name of a shared bridge: the shared network would be one of its other uses. */
  lemma NotAPort(before: Network, cards: seq<Card>, lan: string, guest: Option<string>, id: string, bridge: string, other: string)
    requires IsReady(before, cards, lan, guest)
    requires (id == "lan" && bridge == lan) || (id == "guest" && guest == Some(bridge))
    ensures bridge in before && !IsNewUse(cards, other, before[bridge].name)
  {
    hide PortNetwork, CountRole, AreCards, IsOrdinary, IsSegmentName;
    NotInterfaces();
    if IsNewUse(cards, other, before[bridge].name) {
      var c :| c in cards && c.port == before[bridge].name && !c.locked && IsUseOf(c, other);
      assert IsUnclaimed(before, c.port, lan, guest);
      assert id in InterfacesOn(before, c.port);
      SegmentNames(c.port);
    }
  }

  /** The bridges that have a port after the change. */
  lemma BridgesAfter(before: Network, after: Network, cards: seq<Card>, lan: string, guest: Option<string>, k: nat)
    requires IsReady(before, cards, lan, guest) && IsStaged(before, after, cards, lan, guest)
    requires k < |cards| && !cards[k].locked
    ensures BridgesWith(after, cards[k].port) ==
      if cards[k].role == Lan then {lan} else if cards[k].role == Guest && guest.Some? then {guest.value} else {}
  {
    var c := cards[k];
    assert c in cards && IsUnclaimed(before, c.port, lan, guest);
    InBridge(cards, before[lan].ports, Lan, k);
    if guest.Some? {
      InBridge(cards, before[guest.value].ports, Guest, k);
    }
    forall id | id != lan && guest != Some(id)
      ensures id !in BridgesWith(after, c.port)
    {
      NotElsewhere(before, after, cards, lan, guest, c.port, id);
    }
    hide PortNetwork, CountRole, AreCards, IsOrdinary, UplinksAre, SegmentsAre, IsInterfaceName, Without, PortsWith, PortsOf, InterfacesOn,
         RestStays, AreUnclaimed;
  }

  lemma NotElsewhere(before: Network, after: Network, cards: seq<Card>, lan: string, guest: Option<string>, port: string, id: string)
    requires IsReady(before, cards, lan, guest) && IsStaged(before, after, cards, lan, guest)
    requires IsUnclaimed(before, port, lan, guest) && id != lan && guest != Some(id)
    ensures id !in BridgesWith(after, port)
  {
    hide PortNetwork, CountRole, AreCards, IsOrdinary, UplinksAre, SegmentsAre, IsInterfaceName, Without, PortsWith, PortsOf, InterfacesOn,
         AreUnclaimed, SharedAre;
    if id in after && after[id].kind == Device {
      NoInterfaceBridge(before, after, cards, lan, guest, id);
      assert Unchanged(before, after, id);
    }
  }

  /** What has the name of an uplink or a segment is an interface. */
  lemma NoInterfaceBridge(before: Network, after: Network, cards: seq<Card>, lan: string, guest: Option<string>, id: string)
    requires IsReady(before, cards, lan, guest) && IsStaged(before, after, cards, lan, guest)
    requires id in after && after[id].kind == Device
    ensures !IsInterfaceName(id)
  {
    hide PortNetwork, CountRole, AreCards, SharedAre, RestStays, AreUnclaimed, IsAttached, IsNameOfCard;
    NamesDiffer();
    if IsSegmentName(id) && !IsFree(cards, id) {
      SegmentKind(before, after, cards, id);
    }
  }

  lemma SegmentKind(before: Network, after: Network, cards: seq<Card>, id: string)
    requires SegmentsAre(before, after, cards) && !IsFree(cards, id)
    ensures id in after && after[id].kind == Interface
  {
    hide PortNetwork, IsSegmentName, IsNameOfCard;
    var c :| c in cards && IsDedicated(c) && PortNetwork(c.port) == id;
  }

  /** After the change every port that is not locked is read back with the role it was given. */
  lemma AssignmentReadBack(before: Network, after: Network, cards: seq<Card>, lan: string, guest: Option<string>, k: nat,
                           first: set<string> -> string)
    requires forall s: set<string> :: s != {} ==> first(s) in s
    requires IsReady(before, cards, lan, guest) && IsStaged(before, after, cards, lan, guest)
    requires k < |cards| && !cards[k].locked
    ensures AssignmentFor(cards[k].port, after, first) ==
      if cards[k].role == Guest && guest == None then NoRole else cards[k].role
  {
    var c := cards[k];
    UplinksOf(before, after, cards, lan, guest, k);
    if c.role != Wan && c.role != Wanb {
      PortUses(before, after, cards, lan, guest, k);
      BridgesAfter(before, after, cards, lan, guest, k);
      BridgeUses(before, after, cards, lan, guest, "lan", lan);
      if guest.Some? {
        BridgeUses(before, after, cards, lan, guest, "guest", guest.value);
      }
    }
    if c.role == Dedicated {
      SegmentOfDedicated(before, after, cards, lan, guest, c);
    }
    NotCustom(cards, k);
    hide PortNetwork, IsReady, IsStaged, InterfacesOn, BridgesWith, IsAttached, AreUnclaimed, IsOrdinary, AreCards;
  }

  lemma NotCustom(cards: seq<Card>, k: nat)
    requires AreCards(cards) && k < |cards| && !cards[k].locked
    ensures cards[k].role != Custom
  {
    hide PortNetwork;
  }

  lemma UplinksOf(before: Network, after: Network, cards: seq<Card>, lan: string, guest: Option<string>, k: nat)
    requires IsReady(before, cards, lan, guest) && IsStaged(before, after, cards, lan, guest)
    requires k < |cards| && !cards[k].locked
    ensures WAN in after && (after[WAN].device == cards[k].port <==> cards[k].role == Wan)
    ensures cards[k].role == Wanb ==> WANB in after && IsManaged(after[WANB], WANB_SCOPE) && after[WANB].device == cards[k].port
    ensures cards[k].role != Wanb && cards[k].role != Wan ==> !(WANB in after && after[WANB].device == cards[k].port)
  {
    hide PortNetwork, CountRole, PortOfRole, SharedAre, SegmentsAre, RestStays, IsAttached, IsSegmentName, AreCards;
    NamesDiffer();
    OnlyPortOfRole(cards, Wan, k);
    OnlyPortOfRole(cards, Wanb, k);
    assert cards[k] in cards;
    BackupIsOwn(before, cards, lan, guest, cards[k].port);
    hide AreUnclaimed, IsUnclaimed, IsOrdinary;
  }

  lemma BackupIsOwn(before: Network, cards: seq<Card>, lan: string, guest: Option<string>, port: string)
    requires IsUnclaimed(before, port, lan, guest) && IsOrdinary(before)
    ensures WANB in before && before[WANB].device == port ==> IsManaged(before[WANB], WANB_SCOPE)
  {
    NamesDiffer();
    SegmentNames(port);
    hide PortNetwork, IsSegmentName;
    if WANB in before && before[WANB].device == port {
      assert WANB in InterfacesOn(before, port);
    }
  }

  lemma SegmentOfDedicated(before: Network, after: Network, cards: seq<Card>, lan: string, guest: Option<string>, c: Card)
    requires IsStaged(before, after, cards, lan, guest) && c in cards && IsDedicated(c)
    ensures PortNetwork(c.port) in after && IsManaged(after[PortNetwork(c.port)], PORT_SCOPE)
  {
    hide PortNetwork, SharedAre, UplinksAre, RestStays;
  }
}
