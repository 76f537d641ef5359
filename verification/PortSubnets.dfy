/** The subnets of dedicated ports after a change, against those of all other interfaces. */
module PortSubnets {
  import opened Wrappers
  import opened Text
  import opened Prefix
  import opened Ports
  import opened PortAssignment

  ghost predicate AreInterfaces(network: Network, ids: seq<string>) {
    && (forall id :: id in ids ==> id in network && network[id].kind == Interface)
    && (forall id :: id in network && network[id].kind == Interface ==> id in ids)
  }

  /** An interface that is named like the segment of a port, but neither becomes one nor is removed as one:
      its name is of no card, or it is not the editor's and the port gets no segment. */
  ghost predicate IsLeftOver(network: Network, cards: seq<Card>, id: string) {
    && id in network && network[id].kind == Interface && IsSegmentName(id) && IsFree(cards, id)
    && !(IsOwnSegment(network, id) && IsNameOfCard(cards, id))
  }

  ghost predicate LeftOversApart(network: Network, cards: seq<Card>, r: Range) {
    forall id :: IsLeftOver(network, cards, id) ==> InterfaceApart(network, id, r)
  }

  /** A range is apart from the subnets of all interfaces but one. */
  ghost predicate AllApart(network: Network, own: string, r: Range) {
    forall id :: id in network && network[id].kind == Interface && id != own ==> InterfaceApart(network, id, r)
  }

  /** A change as it is saved: before is the configuration with the shared bridges. */
  ghost predicate IsSaved(network: Network, ids: seq<string>, others: Others, hasPbr: bool, policyName: string -> string,
                          cards: seq<Card>, before: Network, after: Network, lan: string, guest: Option<string>) {
    && AreCards(cards) && AreInterfaces(network, ids) && AreValid(cards, network, ids, others, hasPbr, policyName)
    && AddressesKept(network, before) && (forall id :: id !in SHARED ==> Unchanged(network, before, id))
    && !IsInterfaceName(lan) && (guest.Some? ==> !IsInterfaceName(guest.value))
    && IsStaged(before, after, cards, lan, guest)
  }

  /** After a change the subnet of a dedicated port is apart from those of all other interfaces exactly when it
      is apart from those of the left-over interfaces that were there before. */
  lemma SubnetsApart(network: Network, ids: seq<string>, others: Others, hasPbr: bool, policyName: string -> string,
                     cards: seq<Card>, before: Network, after: Network, lan: string, guest: Option<string>, k: nat)
    requires IsSaved(network, ids, others, hasPbr, policyName, cards, before, after, lan, guest)
    requires k < |cards| && IsDedicated(cards[k])
    ensures PortRange(cards[k].address).Some?
    ensures AllApart(after, PortNetwork(cards[k].port), PortRange(cards[k].address).value)
      <==> LeftOversApart(network, cards, PortRange(cards[k].address).value)
  {
    hide AreCards, AreInterfaces, AddressesKept, IsStaged, PortNetwork, PortRange, IsLeftOver, InterfaceApart, Unchanged, AreValid,
         IsInterfaceName;
    HasRange(network, ids, others, hasPbr, policyName, cards, k);
    var own, r := PortNetwork(cards[k].port), PortRange(cards[k].address).value;
    if LeftOversApart(network, cards, r) {
      forall id | id in after && after[id].kind == Interface && id != own
        ensures InterfaceApart(after, id, r)
      {
        OthersApart(network, ids, others, hasPbr, policyName, cards, before, after, lan, guest, k, id);
      }
    }
    forall id | IsLeftOver(network, cards, id)
      ensures id != own && id in after && id in network && after[id] == network[id] && after[id].kind == Interface
    {
      LeftOverStays(network, cards, before, after, lan, guest, id);
      LeftOverName(network, cards, id, k);
    }
    if AllApart(after, own, r) {
      forall id | IsLeftOver(network, cards, id)
        ensures InterfaceApart(network, id, r)
      {
        SameApart(network, after, id, r);
      }
    }
  }

  /** So a saved plan leaves every dedicated subnet apart, exactly when no left-over interface is in its way. */
  method SaveApart(u: Uci, cards: seq<Card>, ids: seq<string>, hasGuest: bool, hasPbr: bool, refused: bool,
                   policyName: string -> string, first: set<string> -> string) returns (staged: bool)
    requires AreInterfaces(u.network, ids) && AreCards(cards) && IsOrdinary(u.network)
    requires forall s: set<string> :: s != {} ==> first(s) in s
    modifies u
    ensures staged ==> forall k :: 0 <= k < |cards| && IsDedicated(cards[k]) ==> IsKeptApart(old(u.network), u.network, cards, cards[k])
  {
    hide AreCards, IsOrdinary, IsStaged, AddressesKept, Unchanged, AreValid, IsInterfaceName, AllApart, LeftOversApart;
    ghost var network, others := u.network, u.others;
    ghost var before, lan, guest;
    staged, before, lan, guest := u.Save(cards, ids, hasGuest, hasPbr, refused, policyName, first);
    if staged {
      forall k | 0 <= k < |cards| && IsDedicated(cards[k])
        ensures IsKeptApart(network, u.network, cards, cards[k])
      {
        SubnetsApart(network, ids, others, hasPbr, policyName, cards, before, u.network, lan, guest, k);
      }
    }
  }

  ghost predicate IsKeptApart(network: Network, after: Network, cards: seq<Card>, c: Card) {
    && PortRange(c.address).Some?
    && (AllApart(after, PortNetwork(c.port), PortRange(c.address).value)
        <==> LeftOversApart(network, cards, PortRange(c.address).value))
  }

  lemma HasRange(network: Network, ids: seq<string>, others: Others, hasPbr: bool, policyName: string -> string,
                 cards: seq<Card>, k: nat)
    requires AreInterfaces(network, ids) && AreValid(cards, network, ids, others, hasPbr, policyName)
    requires k < |cards| && IsDedicated(cards[k])
    ensures PortRange(cards[k].address).Some?
  {
    hide PortRange, CountRole, UsedBy, NoCollision, Apart;
    assert CardIsValid(cards[k], network, others, hasPbr, policyName, UsedBy(network, ids) + DedicatedRanges(cards[..k]));
  }

  lemma LeftOverName(network: Network, cards: seq<Card>, id: string, k: nat)
    requires IsLeftOver(network, cards, id) && k < |cards| && IsDedicated(cards[k])
    ensures id in network && id != PortNetwork(cards[k].port)
  {
    hide PortNetwork, IsSegmentName, IsOwnSegment, IsNameOfCard;
    assert cards[k] in cards;
  }

  lemma SameApart(a: Network, b: Network, id: string, r: Range)
    requires id in a && id in b && a[id] == b[id]
    ensures InterfaceApart(a, id, r) == InterfaceApart(b, id, r)
  {
    hide Ranges, Overlap;
  }

  /** Names of port segments are none of the shared sections. */
  lemma NotShared(id: string)
    requires IsSegmentName(id)
    ensures id !in SHARED
  {
    NotInterfaces();
    hide IsSegmentName;
  }

  lemma LeftOverStays(network: Network, cards: seq<Card>, before: Network, after: Network, lan: string, guest: Option<string>,
                      id: string)
    requires (forall id :: id !in SHARED ==> Unchanged(network, before, id)) && IsStaged(before, after, cards, lan, guest)
    requires IsLeftOver(network, cards, id)
    ensures id in after && id in network && after[id] == network[id] && after[id].kind == Interface
  {
    hide PortNetwork, IsSegmentName, SharedAre, UplinksAre, RestStays, IsNameOfCard, IsFree;
    NotShared(id);
    assert Unchanged(network, before, id);
  }

  /** After the change, an interface that is not the segment itself is apart. */
  lemma OthersApart(network: Network, ids: seq<string>, others: Others, hasPbr: bool, policyName: string -> string,
                    cards: seq<Card>, before: Network, after: Network, lan: string, guest: Option<string>, k: nat, id: string)
    requires IsSaved(network, ids, others, hasPbr, policyName, cards, before, after, lan, guest)
    requires k < |cards| && IsDedicated(cards[k]) && PortRange(cards[k].address).Some?
    requires LeftOversApart(network, cards, PortRange(cards[k].address).value)
    requires id in after && after[id].kind == Interface && id != PortNetwork(cards[k].port)
    ensures InterfaceApart(after, id, PortRange(cards[k].address).value)
  {
    hide AreCards, AreInterfaces, AddressesKept, IsStaged, PortNetwork, PortRange, IsLeftOver, InterfaceApart, Unchanged, AreValid,
         IsSegmentName;
    var r := PortRange(cards[k].address).value;
    if !IsSegmentName(id) {
      PlainApart(network, ids, others, hasPbr, policyName, cards, before, after, lan, guest, k, id);
    } else if !IsFree(cards, id) {
      SegmentApart(network, ids, others, hasPbr, policyName, cards, before, after, lan, guest, k, id);
    } else {
      FreeStays(network, cards, before, after, lan, guest, id);
      SameApart(network, after, id, r);
    }
  }

  lemma FreeStays(network: Network, cards: seq<Card>, before: Network, after: Network, lan: string, guest: Option<string>, id: string)
    requires (forall id :: id !in SHARED ==> Unchanged(network, before, id)) && IsStaged(before, after, cards, lan, guest)
    requires IsSegmentName(id) && IsFree(cards, id) && id in after && after[id].kind == Interface
    ensures id in network && after[id] == network[id] && IsLeftOver(network, cards, id)
  {
    hide PortNetwork, IsSegmentName, SharedAre, UplinksAre, RestStays;
    NotShared(id);
    assert Unchanged(network, before, id);
    assert Unchanged(before, after, id);
    if IsOwnSegment(network, id) && IsNameOfCard(cards, id) {
      OwnIsRemoved(cards, before, after, id);
    }
  }

  lemma OwnIsRemoved(cards: seq<Card>, before: Network, after: Network, id: string)
    requires SegmentsAre(before, after, cards) && IsFree(cards, id) && IsNameOfCard(cards, id)
    ensures !IsOwnSegment(after, id)
  {
    hide PortNetwork, IsSegmentName, IsOwnSegment;
    var c :| c in cards && PortNetwork(c.port) == id;
  }

  /** The subnets of a segment are its own. */
  lemma SegmentRanges(c: Card)
    requires PortRange(c.address).Some?
    ensures forall x :: x in Ranges(Segment(c).addresses, Segment(c).netmask) ==> x == PortRange(c.address).value
  {
    hide AddressRange, Trim, EndsInOne;
    assert [Trim(c.address)][1..] == [];
  }

  lemma SegmentApart(network: Network, ids: seq<string>, others: Others, hasPbr: bool, policyName: string -> string,
                     cards: seq<Card>, before: Network, after: Network, lan: string, guest: Option<string>, k: nat, id: string)
    requires IsSaved(network, ids, others, hasPbr, policyName, cards, before, after, lan, guest)
    requires k < |cards| && IsDedicated(cards[k]) && PortRange(cards[k].address).Some?
    requires !IsFree(cards, id) && id != PortNetwork(cards[k].port)
    ensures id in after && InterfaceApart(after, id, PortRange(cards[k].address).value)
  {
    hide AreCards, AddressesKept, PortNetwork, PortRange, Unchanged, AreValid, IsSegmentName, Segment, Ranges, SharedAre, UplinksAre,
         RestStays, IsOwnSegment;
    var c :| c in cards && IsDedicated(c) && PortNetwork(c.port) == id;
    var j :| 0 <= j < |cards| && cards[j] == c;
    HasRange(network, ids, others, hasPbr, policyName, cards, j);
    SegmentRanges(c);
    if j < k {
      DedicatedDisjoint(cards, network, ids, others, hasPbr, policyName, j, k);
    } else {
      DedicatedDisjoint(cards, network, ids, others, hasPbr, policyName, k, j);
    }
  }

  /** An interface with another name has the addresses it had, or none. */
  lemma PlainSame(cards: seq<Card>, before: Network, after: Network, lan: string, guest: Option<string>, id: string)
    requires IsStaged(before, after, cards, lan, guest)
    requires !IsSegmentName(id) && id in after && after[id].kind == Interface
    ensures after[id].addresses == []
      || (id in before && before[id].kind == Interface
          && before[id].addresses == after[id].addresses && before[id].netmask == after[id].netmask)
  {
    hide PortNetwork, IsSegmentName, SegmentsAre, Without, PortsOf, PortsWith, PortOfRole, LanPorts;
    NamesDiffer();
    if !IsInterfaceName(id) && id != lan && guest != Some(id) {
      assert Unchanged(before, after, id);
    }
  }

  lemma PlainApart(network: Network, ids: seq<string>, others: Others, hasPbr: bool, policyName: string -> string,
                   cards: seq<Card>, before: Network, after: Network, lan: string, guest: Option<string>, k: nat, id: string)
    requires IsSaved(network, ids, others, hasPbr, policyName, cards, before, after, lan, guest)
    requires k < |cards| && IsDedicated(cards[k]) && PortRange(cards[k].address).Some?
    requires !IsSegmentName(id) && id in after && after[id].kind == Interface
    ensures InterfaceApart(after, id, PortRange(cards[k].address).value)
  {
    hide AreCards, PortNetwork, PortRange, Unchanged, AreValid, IsSegmentName, Overlap, IsStaged;
    PlainSame(cards, before, after, lan, guest, id);
    if after[id].addresses != [] {
      SameName(id);
      forall x | x in Ranges(after[id].addresses, after[id].netmask)
        ensures !Overlap(x, PortRange(cards[k].address).value)
      {
        DedicatedApart(cards, network, ids, others, hasPbr, policyName, k, id, x);
      }
    }
  }

  lemma SameName(id: string)
    ensures IsSegmentName(id) == StartsWith(id, PREFIX)
  {
  }
}
