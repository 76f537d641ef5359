/** Assigning physical ports to networks: the checks before a change, and the staged transaction that gives
    every port the place its role names. */
module Ports {
  import opened Wrappers
  import opened Text
  import opened Prefix
  import opened Ipv4

  // ---------- the configuration ----------

  datatype Kind = Interface | Device | Other

  /** A section of the network configuration, with the options that decide where ports are. */
  datatype Section = Section(kind: Kind, device: string, name: string, bridge: bool, ports: seq<string>,
                             managed: bool, scope: string, addresses: seq<string>, netmask: string)

  type Network = map<string, Section>

  /** What a section of another configuration is for: the address pool of a network, its firewall zone, its way to the
      Internet, a service of the router it may use, a policy that rejects or routes its traffic, or something else. */
  datatype Purpose =
    | Pool(network: string)
    | Zone(network: string)
    | Forward(network: string)
    | Service(network: string, port: string)
    | Reject(network: string)
    | Route(network: string, interface: string)
    | Foreign

  /** A section of another configuration: whether it is the editor's, and what it is for. */
  datatype Owner = Owner(managed: bool, scope: string, purpose: Purpose)

  type Others = map<(string, string), Owner>

  const EMPTY := Section(Other, "", "", false, [], false, "", [], "")
  const PORT_SCOPE := "ethernet-port"
  const PREFIX := "freenetic_port_"
  const WAN := "wan"
  const WAN6 := "wan6"
  const WANB := "wanb"

  datatype Role = Wan | Wanb | Lan | Guest | Dedicated | NoRole | Custom

  datatype Policy = Direct | Vpn(interface: string) | Block

  datatype Card = Card(port: string, role: Role, locked: bool, address: string, policy: Policy)

  function SafeChar(c: char): char {
    if IsLetter(c) || IsDigit(c) || c == '_' then c else '_'
  }

  function SafeName(port: string): string {
    seq(|port|, i requires 0 <= i < |port| => SafeChar(port[i]))
  }

  /** Section names of UCI are made of letters, digits and underscores; ports that are called so keep their name. */
  lemma SafeNames(port: string)
    ensures |SafeName(port)| == |port|
    ensures forall c :: c in SafeName(port) ==> IsLetter(c) || IsDigit(c) || c == '_'
    ensures (forall c :: c in port ==> IsLetter(c) || IsDigit(c) || c == '_') ==> SafeName(port) == port
  {
  }

  function PortNetwork(port: string): string {
    PREFIX + SafeName(port)
  }

  predicate IsManaged(s: Section, scope: string) {
    s.managed && s.scope == scope
  }

  // ---------- subnets ----------

  function NetmaskLength(value: nat, p: nat): Option<nat>
    requires p <= 33
    decreases 33 - p
  {
    if p == 33 then None else if value == Mask32(p) then Some(p) else NetmaskLength(value, p + 1)
  }

  /** The addresses of an interface address, with the prefix behind its slash or of its netmask. */
  function AddressRange(address: string, netmask: string): Option<Range> {
    var parts := Split(address, '/');
    var mask := if netmask == "" then "255.255.255.0" else netmask;
    var prefix :=
      if |parts| > 1 then
        if parts[1] == "" then Some(0) else if IsNumeral(parts[1]) then Some(ParseDecimal(parts[1])) else None
      else if ValidIpv4(mask) then NetmaskLength(Address(OctetsOf(mask)), 0)
      else None;
    if !ValidIpv4(parts[0]) || prefix == None || prefix.value > 32 then None
    else Some(Ipv4Range(Address(OctetsOf(parts[0])), prefix.value))
  }

  predicate EndsInOne(address: string) {
    |address| >= 2 && address[|address| - 2..] == ".1"
  }

  /** The subnet of a dedicated port, if its address is acceptable. */
  function PortRange(address: string): Option<Range> {
    if EndsInOne(Trim(address)) then AddressRange(Trim(address), "255.255.255.0") else None
  }

  function Ranges(addresses: seq<string>, netmask: string): seq<Range> {
    if addresses == [] then []
    else
      var r := AddressRange(addresses[0], netmask);
      (if r.Some? then [r.value] else []) + Ranges(addresses[1..], netmask)
  }

  /** The subnets in use, but for those of interfaces that look like the editor's own. */
  function UsedBy(network: Network, ids: seq<string>): seq<Range>
    requires forall id :: id in ids ==> id in network
  {
    if ids == [] then []
    else
      var last := ids[|ids| - 1];
      UsedBy(network, ids[..|ids| - 1])
      + (if StartsWith(last, PREFIX) then [] else Ranges(network[last].addresses, network[last].netmask))
  }

  ghost predicate Apart(used: seq<Range>, r: Range) {
    forall k :: 0 <= k < |used| ==> !Overlap(used[k], r)
  }

  // ---------- validate ----------

  predicate IsDedicated(c: Card) {
    !c.locked && c.role == Dedicated
  }

  /** The sections of other configurations that a segment needs. */
  function SegmentKeys(n: string): seq<(string, string)> {
    [("dhcp", n), ("firewall", n), ("firewall", n + "_wan"), ("firewall", n + "_dhcp"), ("firewall", n + "_dns")]
  }

  function PolicyKeys(n: string, policyName: string -> string): seq<(string, string)> {
    [("firewall", policyName(n) + "_block"), ("pbr", policyName(n))]
  }

  /** Nothing that is needed belongs to someone else. */
  predicate NoCollision(network: Network, others: Others, n: string, policyName: string -> string) {
    && (n in network ==> IsManaged(network[n], PORT_SCOPE))
    && (forall key :: key in SegmentKeys(n) && key in others ==> others[key].managed && others[key].scope == PORT_SCOPE)
    && (forall key :: key in PolicyKeys(n, policyName) && key in others ==> others[key].managed)
  }

  predicate PolicyPossible(policy: Policy, hasPbr: bool) {
    policy.Vpn? ==> hasPbr && policy.interface != ""
  }

  /** What a card for a segment of its own must satisfy, given the subnets in use. */
  ghost predicate CardIsValid(c: Card, network: Network, others: Others, hasPbr: bool, policyName: string -> string, used: seq<Range>) {
    && NoCollision(network, others, PortNetwork(c.port), policyName)
    && PortRange(c.address).Some? && Apart(used, PortRange(c.address).value)
    && PolicyPossible(c.policy, hasPbr)
  }

  function DedicatedRanges(cards: seq<Card>): seq<Range> {
    if cards == [] then []
    else
      var c := cards[|cards| - 1];
      DedicatedRanges(cards[..|cards| - 1])
      + (if IsDedicated(c) && PortRange(c.address).Some? then [PortRange(c.address).value] else [])
  }

  function CountRole(cards: seq<Card>, role: Role): nat {
    if cards == [] then 0 else CountRole(cards[..|cards| - 1], role) + (if cards[|cards| - 1].role == role then 1 else 0)
  }

  ghost predicate AreValid(cards: seq<Card>, network: Network, ids: seq<string>, others: Others, hasPbr: bool,
                           policyName: string -> string)
    requires forall id :: id in ids ==> id in network
  {
    && CountRole(cards, Wan) == 1 && CountRole(cards, Wanb) <= 1
    && forall k :: 0 <= k < |cards| && IsDedicated(cards[k]) ==>
         CardIsValid(cards[k], network, others, hasPbr, policyName, UsedBy(network, ids) + DedicatedRanges(cards[..k]))
  }

  method Overlaps(used: seq<Range>, r: Range) returns (some: bool)
    ensures some <==> !Apart(used, r)
  {
    for k := 0 to |used|
      invariant forall j :: 0 <= j < k ==> !Overlap(used[j], r)
    {
      if Overlap(used[k], r) {
        return true;
      }
    }
    some := false;
  }

  method CountCards(cards: seq<Card>, role: Role) returns (n: nat)
    ensures n == CountRole(cards, role)
  {
    n := 0;
    for k := 0 to |cards|
      invariant n == CountRole(cards[..k], role)
    {
      assert cards[..k + 1][..k] == cards[..k];
      if cards[k].role == role {
        n := n + 1;
      }
    }
    assert cards[..|cards|] == cards;
  }

  method UsedSubnets(network: Network, ids: seq<string>) returns (used: seq<Range>)
    requires forall id :: id in ids ==> id in network
    ensures used == UsedBy(network, ids)
  {
    hide Ranges;
    used := [];
    for k := 0 to |ids|
      invariant used == UsedBy(network, ids[..k])
    {
      assert ids[..k + 1][..k] == ids[..k] && ids[k] in ids;
      if !StartsWith(ids[k], PREFIX) {
        used := used + Ranges(network[ids[k]].addresses, network[ids[k]].netmask);
      }
    }
    assert ids[..|ids|] == ids;
  }

  /** validate: accepted exactly when there is one WAN port, at most one backup, and every dedicated port
      has a subnet apart from those in use and from those of the dedicated ports before it. */
  method Validate(cards: seq<Card>, network: Network, ids: seq<string>, others: Others, hasPbr: bool, policyName: string -> string)
    returns (accepted: bool)
    requires forall id :: id in ids ==> id in network
    ensures accepted <==> AreValid(cards, network, ids, others, hasPbr, policyName)
  {
    hide CountRole, UsedBy, NoCollision, PortRange, Apart, CardIsValid, DedicatedRanges;
    var wans := CountCards(cards, Wan);
    var backups := CountCards(cards, Wanb);
    if wans != 1 || backups > 1 {
      return false;
    }
    var before := UsedSubnets(network, ids);
    var used := before;
    NoRanges(cards);
    for k := 0 to |cards|
      invariant used == before + DedicatedRanges(cards[..k])
      invariant forall j :: 0 <= j < k && IsDedicated(cards[j]) ==>
        CardIsValid(cards[j], network, others, hasPbr, policyName, before + DedicatedRanges(cards[..j]))
    {
      var c := cards[k];
      OneMoreRange(cards, k);
      if IsDedicated(c) {
        var ok := CheckCard(c, network, others, hasPbr, policyName, used);
        if !ok {
          return false;
        }
        used := used + [PortRange(c.address).value];
      }
    }
    accepted := true;
  }

  lemma NoRanges(cards: seq<Card>)
    ensures DedicatedRanges(cards[..0]) == []
  {
  }

  lemma OneMoreRange(cards: seq<Card>, k: nat)
    requires k < |cards|
    ensures DedicatedRanges(cards[..k + 1]) == DedicatedRanges(cards[..k])
      + (if IsDedicated(cards[k]) && PortRange(cards[k].address).Some? then [PortRange(cards[k].address).value] else [])
  {
    hide PortRange;
    assert cards[..k + 1][..k] == cards[..k];
  }

  method CheckCard(c: Card, network: Network, others: Others, hasPbr: bool, policyName: string -> string, used: seq<Range>)
    returns (ok: bool)
    ensures ok <==> CardIsValid(c, network, others, hasPbr, policyName, used)
    ensures ok ==> PortRange(c.address).Some?
  {
    hide NoCollision, PortRange, Apart;
    var range := PortRange(c.address);
    if !NoCollision(network, others, PortNetwork(c.port), policyName) || range == None {
      return false;
    }
    var overlaps := Overlaps(used, range.value);
    ok := !overlaps && PolicyPossible(c.policy, hasPbr);
  }

  // ---------- what an accepted plan guarantees ----------

  lemma {:induction false} DedicatedRangeAt(cards: seq<Card>, j: nat, k: nat)
    requires j < k <= |cards| && IsDedicated(cards[j]) && PortRange(cards[j].address).Some?
    ensures PortRange(cards[j].address).value in DedicatedRanges(cards[..k])
  {
    hide PortRange;
    assert cards[..k][..k - 1] == cards[..k - 1];
    if j < k - 1 {
      DedicatedRangeAt(cards, j, k - 1);
    }
  }

  /** Dedicated subnets do not overlap. */
  lemma DedicatedDisjoint(cards: seq<Card>, network: Network, ids: seq<string>, others: Others, hasPbr: bool,
                          policyName: string -> string, j: nat, k: nat)
    requires forall id :: id in ids ==> id in network
    requires AreValid(cards, network, ids, others, hasPbr, policyName)
    requires j < k < |cards| && IsDedicated(cards[j]) && IsDedicated(cards[k])
    ensures PortRange(cards[j].address).Some? && PortRange(cards[k].address).Some?
    ensures !Overlap(PortRange(cards[j].address).value, PortRange(cards[k].address).value)
  {
    hide PortRange, CountRole, UsedBy, NoCollision, Overlap;
    assert CardIsValid(cards[j], network, others, hasPbr, policyName, UsedBy(network, ids) + DedicatedRanges(cards[..j]));
    assert CardIsValid(cards[k], network, others, hasPbr, policyName, UsedBy(network, ids) + DedicatedRanges(cards[..k]));
    DedicatedRangeAt(cards, j, k);
    var r := PortRange(cards[j].address).value;
    var d, u := DedicatedRanges(cards[..k]), UsedBy(network, ids);
    var i :| 0 <= i < |d| && d[i] == r;
    assert (u + d)[|u| + i] == r;
  }

  lemma {:induction false} UsedAt(network: Network, ids: seq<string>, id: string, r: Range)
    requires forall i :: i in ids ==> i in network
    requires id in ids && !StartsWith(id, PREFIX) && r in Ranges(network[id].addresses, network[id].netmask)
    ensures r in UsedBy(network, ids)
  {
    hide Ranges;
    if ids[|ids| - 1] != id {
      UsedAt(network, ids[..|ids| - 1], id, r);
    }
  }

  /** Nor do they overlap the subnets of interfaces that do not look like segments of ports. */
  lemma DedicatedApart(cards: seq<Card>, network: Network, ids: seq<string>, others: Others, hasPbr: bool,
                       policyName: string -> string, k: nat, id: string, r: Range)
    requires forall i :: i in ids ==> i in network
    requires AreValid(cards, network, ids, others, hasPbr, policyName) && k < |cards| && IsDedicated(cards[k])
    requires id in ids && !StartsWith(id, PREFIX) && r in Ranges(network[id].addresses, network[id].netmask)
    ensures PortRange(cards[k].address).Some? && !Overlap(r, PortRange(cards[k].address).value)
  {
    hide PortRange, CountRole, UsedBy, NoCollision, Overlap, Ranges;
    assert CardIsValid(cards[k], network, others, hasPbr, policyName, UsedBy(network, ids) + DedicatedRanges(cards[..k]));
    UsedAt(network, ids, id, r);
    var u, d := UsedBy(network, ids), DedicatedRanges(cards[..k]);
    var i :| 0 <= i < |u| && u[i] == r;
    assert (u + d)[i] == r;
  }

  /** All subnets of an interface are apart from a range. */
  ghost predicate InterfaceApart(network: Network, id: string, r: Range)
    requires id in network
  {
    forall x :: x in Ranges(network[id].addresses, network[id].netmask) ==> !Overlap(x, r)
  }

  /** A segment left over from a port that is gone is not seen: whatever an accepted plan is, it is still
      accepted when such an interface already has the very subnet of one of its dedicated ports. */
  lemma StaleSegmentOverlaps(cards: seq<Card>, network: Network, ids: seq<string>, others: Others, hasPbr: bool,
                             policyName: string -> string, k: nat, id: string)
    requires forall i :: i in ids ==> i in network
    requires AreValid(cards, network, ids, others, hasPbr, policyName) && k < |cards| && IsDedicated(cards[k])
    requires StartsWith(id, PREFIX) && id !in network
    requires forall c :: c in cards && IsDedicated(c) ==> PortNetwork(c.port) != id
    ensures var stale := EMPTY.(kind := Interface, addresses := [Trim(cards[k].address)], netmask := "255.255.255.0");
      var network' := network[id := stale];
      && AreValid(cards, network', ids + [id], others, hasPbr, policyName)
      && PortRange(cards[k].address).Some? && !InterfaceApart(network', id, PortRange(cards[k].address).value)
  {
    hide PortRange, CountRole, UsedBy, NoCollision, Overlap, Ranges, StartsWith, Apart, PortNetwork, DedicatedRanges;
    var stale := EMPTY.(kind := Interface, addresses := [Trim(cards[k].address)], netmask := "255.255.255.0");
    var network' := network[id := stale];
    assert CardIsValid(cards[k], network, others, hasPbr, policyName, UsedBy(network, ids) + DedicatedRanges(cards[..k]));
    NotUsed(network, ids, id, stale);
    forall j | 0 <= j < |cards| && IsDedicated(cards[j])
      ensures CardIsValid(cards[j], network', others, hasPbr, policyName, UsedBy(network', ids + [id]) + DedicatedRanges(cards[..j]))
    {
      assert cards[j] in cards;
      SameCollisions(network, others, PortNetwork(cards[j].port), policyName, id, stale);
    }
    OwnRange(cards[k].address);
  }

  lemma SameCollisions(network: Network, others: Others, n: string, policyName: string -> string, id: string, s: Section)
    requires n != id
    ensures NoCollision(network[id := s], others, n, policyName) == NoCollision(network, others, n, policyName)
  {
    hide SegmentKeys, PolicyKeys;
  }

  lemma {:induction false} NotUsed(network: Network, ids: seq<string>, id: string, s: Section)
    requires forall i :: i in ids ==> i in network
    requires StartsWith(id, PREFIX) && id !in network
    ensures UsedBy(network[id := s], ids + [id]) == UsedBy(network, ids)
  {
    hide Ranges, StartsWith;
    assert (ids + [id])[..|ids|] == ids;
    SameUsed(network, ids, id, s);
  }

  lemma {:induction false} SameUsed(network: Network, ids: seq<string>, id: string, s: Section)
    requires (forall i :: i in ids ==> i in network) && id !in network
    ensures UsedBy(network[id := s], ids) == UsedBy(network, ids)
  {
    hide Ranges, StartsWith;
    if ids != [] {
      SameUsed(network, ids[..|ids| - 1], id, s);
    }
  }

  lemma OwnRange(address: string)
    requires PortRange(address).Some?
    ensures PortRange(address).value in Ranges([Trim(address)], "255.255.255.0")
    ensures Overlap(PortRange(address).value, PortRange(address).value)
  {
    hide AddressRange, Trim, EndsInOne;
    assert [Trim(address)][1..] == [];
    RangeOrdered(Trim(address), "255.255.255.0");
  }

  lemma RangeOrdered(address: string, netmask: string)
    ensures AddressRange(address, netmask).Some? ==>
      AddressRange(address, netmask).value.start <= AddressRange(address, netmask).value.end
  {
    hide Split, ValidIpv4, OctetsOf, NetmaskLength, Power;
  }
}
