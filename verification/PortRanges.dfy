/** The subnets that addresses and netmasks of interfaces stand for. */
module PortRanges {
  import opened Wrappers
  import opened Text
  import opened Prefix
  import opened Ipv4
  import opened Ports

  lemma {:induction false} MaskLength(q: nat, p: nat)
    requires p <= q <= 32
    ensures NetmaskLength(Mask32(q), p) == Some(q)
    decreases q - p
  {
    hide Mask32;
    if p < q {
      if Mask32(q) == Mask32(p) {
        MaskInjective(q, p);
      }
      MaskLength(q, p + 1);
    }
  }

  /** A printed address: it is no list, and nothing in it is a slash. */
  lemma DottedPlain(o: seq<nat>)
    requires AreBytes(o)
    ensures '/' !in Dotted(o) && Trim(Dotted(o)) == Dotted(o)
    ensures Split(Dotted(o), '/') == [Dotted(o)] && Dotted(o) != ""
    ensures EndsInOne(Dotted(o)) <==> o[3] == 1
  {
    hide Decimal, IsDigit, Trim, Split, IsSpace, Dotted;
    var front := DottedParts(o);
    var last := Decimal(o[3]);
    LastOctet(o[3]);
    DigitsVisible();
    assert Dotted(o) == front + last && front[|front| - 1] == '.';
    forall k | 0 <= k < |Dotted(o)|
      ensures Dotted(o)[k] != '/' && !IsSpace(Dotted(o)[k])
    {
      assert IsDigit(Dotted(o)[k]) || Dotted(o)[k] == '.';
    }
    TrimVisible(Dotted(o));
    SplitPrefix(Dotted(o), "", '/');
    EmptySplit();
    assert Dotted(o) + "" == Dotted(o);
    var t := Dotted(o);
    assert t[|t| - 2..] == [t[|t| - 2], t[|t| - 1]];
    if |last| == 1 {
      assert t[|t| - 2] == '.' && t[|t| - 1] == last[0];
    } else {
      assert t[|t| - 2] == last[|last| - 2];
    }
  }

  lemma EmptySplit()
    ensures Split("", '/') == [""]
  {
  }

  lemma DigitsVisible()
    ensures forall c: char :: IsDigit(c) || c == '.' ==> c != '/' && !IsSpace(c)
    ensures !IsDigit('.')
  {
  }

  /** Three octets and their dots in front of the last one. */
  lemma DottedParts(o: seq<nat>) returns (front: string)
    requires AreBytes(o)
    ensures Dotted(o) == front + Decimal(o[3]) && front != "" && front[|front| - 1] == '.'
    ensures forall k :: 0 <= k < |Dotted(o)| ==> IsDigit(Dotted(o)[k]) || Dotted(o)[k] == '.'
  {
    hide Decimal, IsDigit;
    DecimalChars(o[0]);
    DecimalChars(o[1]);
    DecimalChars(o[2]);
    DecimalChars(o[3]);
    var a, b, c, d := Decimal(o[0]), Decimal(o[1]), Decimal(o[2]), Decimal(o[3]);
    assert [a, b, c, d][1..] == [b, c, d] && [b, c, d][1..] == [c, d] && [c, d][1..] == [d];
    assert Join([c, d], ".") == c + "." + d;
    assert Join([b, c, d], ".") == b + "." + (c + "." + d);
    front := a + "." + b + "." + c + ".";
    assert Dotted(o) == a + "." + (b + "." + (c + "." + d));
    assert Dotted(o) == front + d;
  }

  lemma DecimalChars(n: nat)
    ensures forall k :: 0 <= k < |Decimal(n)| ==> IsDigit(Decimal(n)[k])
  {
    ParseOfDecimal(n);
  }

  lemma LastOctet(n: nat)
    ensures Decimal(n) != "" && (Decimal(n) == "1" <==> n == 1)
    ensures forall k :: 0 <= k < |Decimal(n)| ==> IsDigit(Decimal(n)[k])
  {
    DecimalChars(n);
    ParseOfDecimal(n);
    assert Decimal(1) == "1";
    ParseOfDecimal(1);
  }

  /** An address with a netmask of its own: the subnet has the prefix of the mask. */
  lemma NetmaskRange(o: seq<nat>, m: seq<nat>, q: nat)
    requires AreBytes(o) && AreBytes(m) && q <= 32 && Address(m) == Mask32(q)
    ensures AddressRange(Dotted(o), Dotted(m)) == Some(Ipv4Range(Address(o), q))
  {
    hide Dotted, Address, Mask32, Split, ValidIpv4, OctetsOf, NetmaskLength, Ipv4Range;
    DottedPlain(o);
    DottedPlain(m);
    DottedRoundTrip(o);
    DottedRoundTrip(m);
    MaskLength(q, 0);
  }

  /** An address with a prefix behind a slash: that is the prefix of the subnet, whatever the netmask. */
  lemma SlashRange(o: seq<nat>, q: nat, netmask: string)
    requires AreBytes(o) && q <= 32
    ensures AddressRange(Dotted(o) + "/" + Decimal(q), netmask) == Some(Ipv4Range(Address(o), q))
  {
    DecimalParts(q);
    hide Dotted, Address, ValidIpv4, OctetsOf, NetmaskLength, Ipv4Range, Decimal, ParseDecimal;
    DottedPlain(o);
    DottedRoundTrip(o);
    assert Join([Dotted(o), Decimal(q)], "/") == Dotted(o) + "/" + Decimal(q);
    SplitJoin([Dotted(o), Decimal(q)], '/');
    hide Split;
  }

  lemma DecimalParts(q: nat)
    ensures Decimal(q) != "" && IsNumeral(Decimal(q)) && ParseDecimal(Decimal(q)) == q && '/' !in Decimal(q)
  {
    DecimalChars(q);
    ParseOfDecimal(q);
  }

  /** Of the printed addresses those that end in the octet 1 are acceptable for a port; their subnet has 24 bits. */
  lemma PortRangeOfOctets(o: seq<nat>)
    requires AreBytes(o)
    ensures PortRange(Dotted(o)) == if o[3] == 1 then Some(Ipv4Range(Address(o), 24)) else None
  {
    DottedPlain(o);
    MaskOf24();
    NetmaskRange(o, [255, 255, 255, 0], 24);
    hide Dotted, Address, AddressRange, Trim, EndsInOne, Ipv4Range, Mask32;
  }

  lemma MaskOf24()
    ensures Dotted([255, 255, 255, 0]) == "255.255.255.0" && Address([255, 255, 255, 0]) == Mask32(24)
  {
    MaskNumber();
    hide Mask32;
    assert Decimal(255) == "255" && Decimal(0) == "0";
    hide Decimal;
    assert ["255", "255", "255", "0"][1..] == ["255", "255", "0"] && ["255", "255", "0"][1..] == ["255", "0"]
      && ["255", "0"][1..] == ["0"];
    assert Join(["255", "0"], ".") == "255.0" && Join(["255", "255", "0"], ".") == "255.255.0";
  }

  lemma MaskNumber()
    ensures Mask32(24) == 4294967040
  {
    MaskValue(32, 8);
    Power8();
    Power32();
    hide Power;
  }
}
