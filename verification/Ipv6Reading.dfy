/** Other ways of writing an IPv6 address: capital letters, a zone, and an IPv4 address in the last two words. */
module Ipv6Reading {
  import opened Wrappers
  import opened Text
  import opened Prefix
  import opened Ipv4
  import opened Ipv6

  lemma SameExpansion(s: string, t: string)
    requires ExpandTail(Lower(BeforeFirst(s, '%'))) == ExpandTail(Lower(BeforeFirst(t, '%')))
    ensures ParseIpv6Words(s) == ParseIpv6Words(t)
  {
    hide ExpandTail, Lower, BeforeFirst, DoubleColon, ParseHalf, IsHexOrColon;
  }

  /** A zone behind an address does not matter. */
  lemma ZoneIgnored(text: string, zone: string)
    requires '%' !in text
    ensures ParseIpv6Words(text + "%" + zone) == ParseIpv6Words(text)
  {
    hide ExpandTail, Lower, BeforeFirst, ParseIpv6Words;
    FirstAt(text, '%', zone);
    FirstNowhere(text, '%');
    assert text + "%" + zone == text + ['%'] + zone;
    SameExpansion(text + "%" + zone, text);
  }

  /** Capital letters are read as small ones. */
  lemma CaseIgnored(s: string, t: string)
    requires '%' !in s && '%' !in t && Lower(s) == Lower(t)
    ensures ParseIpv6Words(s) == ParseIpv6Words(t)
  {
    hide ExpandTail, Lower, BeforeFirst, ParseIpv6Words;
    FirstNowhere(s, '%');
    FirstNowhere(t, '%');
    SameExpansion(s, t);
  }

  lemma {:induction false} LastColon(front: string, tail: string)
    requires ':' !in tail && (front == "" || front[|front| - 1] == ':')
    ensures AfterLastColon(front + tail) == |front|
  {
    if tail == "" {
      assert front + tail == front;
    } else {
      assert (front + tail)[..|front + tail| - 1] == front + tail[..|tail| - 1];
      LastColon(front, tail[..|tail| - 1]);
    }
  }

  /** Four octets at the end stand for two words, the first two for the first one. */
  lemma OctetsAreWords(front: string, o: seq<nat>)
    requires AllHexOrColon(front) && front != "" && front[|front| - 1] == ':' && AreBytes(o)
    ensures ParseIpv6Words(front + Dotted(o)) == ParseIpv6Words(front + (HexText(256 * o[0] + o[1]) + ":" + HexText(256 * o[2] + o[3])))
  {
    hide Dotted, HexText, ExpandTail, Lower, BeforeFirst, ParseIpv6Words, AllHexOrColon, IsDigit;
    var address, plain := front + Dotted(o), front + (HexText(256 * o[0] + o[1]) + ":" + HexText(256 * o[2] + o[3]));
    DottedChars(o);
    FrontLower(front, Dotted(o));
    OctetsExpanded(front, o);
    PlainWords(front, 256 * o[0] + o[1], 256 * o[2] + o[3]);
    AlreadyLower(plain);
    NothingExpanded(plain);
    SameExpansion(address, plain);
  }

  lemma NothingExpanded(s: string)
    requires '.' !in s
    ensures ExpandTail(s) == Some(s)
  {
  }

  lemma OctetsExpanded(front: string, o: seq<nat>)
    requires front != "" && front[|front| - 1] == ':' && AreBytes(o) && ':' !in Dotted(o) && '.' in Dotted(o)
    ensures ExpandTail(front + Dotted(o)) == Some(front + (HexText(256 * o[0] + o[1]) + ":" + HexText(256 * o[2] + o[3])))
  {
    hide Dotted, HexText, ValidIpv4, OctetsOf;
    DottedRoundTrip(o);
    LastColon(front, Dotted(o));
    hide AfterLastColon;
    var address := front + Dotted(o);
    assert address[|front|..] == Dotted(o) && address[..|front|] == front;
    var x, y := HexText(256 * o[0] + o[1]), HexText(256 * o[2] + o[3]);
    assert front + x + ":" + y == front + (x + ":" + y);
  }

  lemma DottedChars(o: seq<nat>)
    requires AreBytes(o)
    ensures var t := Dotted(o); '.' in t && forall k :: 0 <= k < |t| ==> IsDigit(t[k]) || t[k] == '.'
  {
    hide Decimal, IsDigit;
    DigitsOnly(o[0]);
    DigitsOnly(o[1]);
    DigitsOnly(o[2]);
    DigitsOnly(o[3]);
    var a, b, c, d := Decimal(o[0]), Decimal(o[1]), Decimal(o[2]), Decimal(o[3]);
    assert Join([a, b, c, d], ".") == a + "." + (b + "." + (c + "." + d)) by {
      assert [a, b, c, d][1..] == [b, c, d] && [b, c, d][1..] == [c, d] && [c, d][1..] == [d];
      assert Join([c, d], ".") == c + "." + d;
      assert Join([b, c, d], ".") == b + "." + (c + "." + d);
    }
    assert Dotted(o)[|a|] == '.';
  }

  lemma DigitsOnly(n: nat)
    ensures forall k :: 0 <= k < |Decimal(n)| ==> IsDigit(Decimal(n)[k])
  {
    ParseOfDecimal(n);
  }

  lemma FrontLower(front: string, tail: string)
    requires AllHexOrColon(front) && forall k :: 0 <= k < |tail| ==> IsDigit(tail[k]) || tail[k] == '.'
    ensures Lower(BeforeFirst(front + tail, '%')) == front + tail && ':' !in tail
  {
    var s := front + tail;
    forall k | 0 <= k < |s|
      ensures s[k] != '%' && LowerChar(s[k]) == s[k]
    {
      if k < |front| {
        assert IsHexOrColon(front[k]);
      } else {
        assert s[k] == tail[k - |front|];
      }
    }
    FirstNowhere(s, '%');
    LowerIs(s, s);
  }

  lemma PlainWords(front: string, x: nat, y: nat)
    requires AllHexOrColon(front) && x < 65536 && y < 65536
    ensures AllHexOrColon(front + (HexText(x) + ":" + HexText(y)))
  {
    HexTextShape(x);
    HexTextShape(y);
    hide HexText;
  }
}
