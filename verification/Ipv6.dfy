/** IPv6 addresses as text and as eight words: reading, printing, and clearing the bits behind a prefix. */
module Ipv6 {
  import opened Wrappers
  import opened Text
  import opened Prefix
  import opened Ipv4

  // ---------- parseIpv6Words ----------

  /** The position behind the last colon; 0 where there is none. */
  function AfterLastColon(s: string): (n: nat)
    ensures n <= |s|
  {
    if s == "" then 0 else if s[|s| - 1] == ':' then |s| else AfterLastColon(s[..|s| - 1])
  }

  /** An IPv4 address at the end stands for two words. */
  function ExpandTail(s: string): Option<string> {
    if '.' !in s then Some(s)
    else
      var n := AfterLastColon(s);
      var tail := if n == 0 then "" else s[n..];
      if !ValidIpv4(tail) then None
      else
        var o := OctetsOf(tail);
        Some(s[..n] + HexText(256 * o[0] + o[1]) + ":" + HexText(256 * o[2] + o[3]))
  }

  /** The first place of a double colon. */
  function DoubleColon(s: string): (i: Option<nat>)
    ensures i.Some? ==> i.value + 2 <= |s|
  {
    if |s| < 2 then None
    else if s[0] == ':' && s[1] == ':' then Some(0)
    else
      var rest := DoubleColon(s[1..]);
      if rest == None then None else Some(rest.value + 1)
  }

  predicate IsGroup(s: string) {
    1 <= |s| <= 4 && AllLowerHex(s)
  }

  function ParseGroups(groups: seq<string>): Option<seq<nat>> {
    if groups == [] then Some([])
    else
      var rest := ParseGroups(groups[1..]);
      if !IsGroup(groups[0]) || rest == None then None else Some([ParseHex(groups[0])] + rest.value)
  }

  function ParseHalf(s: string): Option<seq<nat>> {
    if s == "" then Some([]) else ParseGroups(Split(s, ':'))
  }

  function Zeros(n: nat): seq<nat> {
    seq(n, _ => 0)
  }

  predicate IsHexOrColon(c: char) {
    IsLowerHex(c) || c == ':'
  }

  function ParseIpv6Words(address: string): Option<seq<nat>> {
    var expanded := ExpandTail(Lower(BeforeFirst(address, '%')));
    if expanded == None then None
    else
      var a := expanded.value;
      var i := DoubleColon(a);
      if a == "" || (i.Some? && DoubleColon(a[i.value + 2..]).Some?) || exists k :: 0 <= k < |a| && !IsHexOrColon(a[k]) then None
      else if i == None then
        var words := ParseHalf(a);
        if words == None || |words.value| != 8 then None else words
      else
        var left, right := ParseHalf(a[..i.value]), ParseHalf(a[i.value + 2..]);
        if left == None || right == None || |left.value| + |right.value| > 7 then None
        else Some(left.value + Zeros(8 - |left.value| - |right.value|) + right.value)
  }

  // ---------- formatIpv6Words ----------

  predicate IsZeroRun(words: seq<nat>, start: nat, length: nat) {
    start + length <= |words| && forall k :: start <= k < start + length ==> words[k] == 0
  }

  /** The first of the longest runs of zero words; length 0 where no word is zero. */
  ghost predicate IsBestRun(words: seq<nat>, start: nat, length: nat) {
    && IsZeroRun(words, start, length)
    && forall s: nat, n: nat :: IsZeroRun(words, s, n) && n > 0 ==> n < length || (n == length && start <= s)
  }

  method BestRun(words: seq<nat>) returns (bestStart: nat, bestLength: nat)
    ensures IsBestRun(words, bestStart, bestLength)
  {
    bestStart, bestLength := 0, 0;
    var start := 0;
    while start < |words|
      invariant start <= |words| && (start > 0 && start < |words| && words[start] == 0 ==> words[start - 1] != 0)
      invariant IsZeroRun(words, bestStart, bestLength) && bestStart + bestLength <= start
      invariant forall s: nat, n: nat :: IsZeroRun(words, s, n) && n > 0 && s < start ==>
        n < bestLength || (n == bestLength && bestStart <= s)
      decreases |words| - start
    {
      if words[start] != 0 {
        start := start + 1;
      } else {
        var end := start;
        while end < |words| && words[end] == 0
          invariant start <= end <= |words| && IsZeroRun(words, start, end - start)
        {
          end := end + 1;
        }
        ghost var oldStart, oldLength := bestStart, bestLength;
        if end - start > bestLength {
          bestStart, bestLength := start, end - start;
        }
        forall s: nat, n: nat | IsZeroRun(words, s, n) && n > 0 && s < end
          ensures n < bestLength || (n == bestLength && bestStart <= s)
        {
          if s >= start {
            RunEnds(words, s, n, end);
          }
        }
        start := end;
      }
    }
  }

  lemma RunEnds(words: seq<nat>, s: nat, n: nat, end: nat)
    requires IsZeroRun(words, s, n) && s < end <= |words| && (end < |words| ==> words[end] != 0)
    ensures s + n <= end
  {
  }

  function HexTexts(words: seq<nat>): seq<string> {
    seq(|words|, i requires 0 <= i < |words| => HexText(words[i]))
  }

  /** A text with a run of zero words left out. */
  function WithoutRun(words: seq<nat>, start: nat, length: nat): string
    requires start + length <= |words|
  {
    Join(HexTexts(words[..start]), ":") + "::" + Join(HexTexts(words[start + length..]), ":")
  }

  function Plain(words: seq<nat>): string {
    Join(HexTexts(words), ":")
  }

  /** The shortest run that is left out is of two words, as section 4.2.2 of RFC 5952 asks. */
  ghost predicate IsCanonical(words: seq<nat>, text: string) {
    exists start: nat, length: nat ::
      IsBestRun(words, start, length) && text == if length < 2 then Plain(words) else WithoutRun(words, start, length)
  }

  method FormatIpv6Words(words: seq<nat>) returns (text: string)
    ensures IsCanonical(words, text)
  {
    hide IsBestRun;
    var start, length := BestRun(words);
    assert start + length <= |words| by {
      BestRunFits(words, start, length);
    }
    text := if length < 2 then Plain(words) else WithoutRun(words, start, length);
  }

  lemma BestRunFits(words: seq<nat>, start: nat, length: nat)
    requires IsBestRun(words, start, length)
    ensures start + length <= |words|
  {
  }

  // ---------- reading what was printed ----------

  predicate AreWords(words: seq<nat>) {
    forall k :: 0 <= k < |words| ==> words[k] < 65536
  }

  lemma GroupText(n: nat)
    requires n < 65536
    ensures IsGroup(HexText(n)) && ParseHex(HexText(n)) == n
    ensures forall k :: 0 <= k < |HexText(n)| ==> HexText(n)[k] != ':' && HexText(n)[k] != '.'
  {
    HexRoundTrip(n);
    assert forall k :: 0 <= k < |HexText(n)| ==> IsLowerHex(HexText(n)[k]);
  }

  lemma {:induction false} GroupsRoundTrip(words: seq<nat>)
    requires AreWords(words)
    ensures ParseGroups(HexTexts(words)) == Some(words)
  {
    hide HexText, ParseHex, IsGroup;
    if words != [] {
      GroupText(words[0]);
      GroupsRoundTrip(words[1..]);
      assert HexTexts(words)[1..] == HexTexts(words[1..]);
      assert [words[0]] + words[1..] == words;
    }
  }

  /** Characters of a printed half: hexadecimal digits and colons. */
  ghost predicate AllHexOrColon(s: string) {
    forall k :: 0 <= k < |s| ==> IsHexOrColon(s[k])
  }

  /** Texts in which colons only separate: none at an end, no two in a row. */
  ghost predicate IsSeparated(s: string) {
    && AllHexOrColon(s)
    && (s != "" ==> s[0] != ':' && s[|s| - 1] != ':')
    && (forall k :: 0 <= k < |s| - 1 ==> s[k] != ':' || s[k + 1] != ':')
  }

  lemma {:induction false} HalfIsSeparated(words: seq<nat>)
    requires AreWords(words)
    ensures IsSeparated(Join(HexTexts(words), ":"))
    ensures Join(HexTexts(words), ":") == "" <==> words == []
  {
    hide HexText, IsLowerHex;
    if words != [] {
      HexTextShape(words[0]);
      var rest := Join(HexTexts(words[1..]), ":");
      HalfIsSeparated(words[1..]);
      assert HexTexts(words)[1..] == HexTexts(words[1..]);
    }
  }

  lemma HexTextShape(n: nat)
    requires n < 65536
    ensures HexText(n) != "" && forall k :: 0 <= k < |HexText(n)| ==> IsHexOrColon(HexText(n)[k]) && HexText(n)[k] != ':'
  {
    HexRoundTrip(n);
  }

  lemma HalfRoundTrip(words: seq<nat>)
    requires AreWords(words)
    ensures ParseHalf(Join(HexTexts(words), ":")) == Some(words)
  {
    hide HexText, ParseGroups;
    HalfIsSeparated(words);
    if words != [] {
      forall k | 0 <= k < |words|
        ensures ':' !in HexTexts(words)[k]
      {
        HexTextShape(words[k]);
      }
      SplitJoin(HexTexts(words), ':');
      GroupsRoundTrip(words);
    }
  }

  lemma {:induction false} NoDoubleColon(s: string)
    requires forall k :: 0 <= k < |s| - 1 ==> s[k] != ':' || s[k + 1] != ':'
    ensures DoubleColon(s) == None
  {
    if |s| >= 2 {
      var tail := s[1..];
      assert forall k :: 0 <= k < |tail| ==> tail[k] == s[k + 1];
      NoDoubleColon(tail);
    }
  }

  lemma {:induction false} FirstDoubleColon(left: string, right: string)
    requires IsSeparated(left)
    ensures DoubleColon(left + "::" + right) == Some(|left|)
  {
    var s := left + "::" + right;
    if left != "" {
      var rest := left[1..];
      assert s[1..] == rest + "::" + right;
      if rest != "" {
        assert forall k :: 0 <= k < |rest| ==> rest[k] == left[k + 1];
      }
      assert s[0] == left[0] && s[0] != ':';
      FirstDoubleColonAfter(rest, right);
    }
  }

  lemma {:induction false} FirstDoubleColonAfter(rest: string, right: string)
    requires rest != "" ==> rest[|rest| - 1] != ':'
    requires forall k :: 0 <= k < |rest| - 1 ==> rest[k] != ':' || rest[k + 1] != ':'
    ensures DoubleColon(rest + "::" + right) == Some(|rest|)
  {
    if rest != "" {
      var s := rest + "::" + right;
      assert s[1..] == rest[1..] + "::" + right;
      assert forall k :: 0 <= k < |rest[1..]| ==> rest[1..][k] == rest[k + 1];
      assert |rest| > 1 ==> s[1] == rest[1];
      FirstDoubleColonAfter(rest[1..], right);
    }
  }

  lemma {:induction false} AlreadyLower(s: string)
    requires AllHexOrColon(s)
    ensures Lower(BeforeFirst(s, '%')) == s && '.' !in s
  {
    if s != "" {
      assert IsHexOrColon(s[0]);
      assert forall k :: 0 <= k < |s[1..]| ==> s[1..][k] == s[k + 1];
      AlreadyLower(s[1..]);
      assert forall k :: 0 <= k < |s| ==> s[k] != '.';
    }
  }

  lemma PlainRoundTrip(words: seq<nat>)
    requires |words| == 8 && AreWords(words)
    ensures ParseIpv6Words(Plain(words)) == Some(words)
  {
    hide HexTexts, ParseHalf, ValidIpv4, IsLowerHex, IsHexOrColon, Lower, BeforeFirst;
    HalfIsSeparated(words);
    HalfRoundTrip(words);
    var a := Plain(words);
    AlreadyLower(a);
    NoDoubleColon(a);
    assert forall k :: 0 <= k < |a| ==> IsHexOrColon(a[k]);
  }

  lemma WithoutRunRoundTrip(words: seq<nat>, start: nat, length: nat)
    requires |words| == 8 && AreWords(words) && IsZeroRun(words, start, length) && length > 0
    ensures ParseIpv6Words(WithoutRun(words, start, length)) == Some(words)
  {
    hide HexTexts, ParseHalf, ValidIpv4, IsLowerHex, IsHexOrColon, Lower, BeforeFirst, DoubleColon, Join;
    var l, r := words[..start], words[start + length..];
    var left, right := Join(HexTexts(l), ":"), Join(HexTexts(r), ":");
    HalfIsSeparated(l);
    HalfIsSeparated(r);
    HalfRoundTrip(l);
    HalfRoundTrip(r);
    var a := left + "::" + right;
    ColonIsFine();
    assert AllHexOrColon(a);
    AlreadyLower(a);
    FirstDoubleColon(left, right);
    NoDoubleColon(right);
    assert a[..|left|] == left && a[|left| + 2..] == right;
    assert l + Zeros(length) + r == words;
  }

  lemma ColonIsFine()
    ensures IsHexOrColon(':')
  {
  }

  /** Every printed address is read back. */
  lemma FormatRoundTrip(words: seq<nat>, text: string)
    requires |words| == 8 && AreWords(words) && IsCanonical(words, text)
    ensures ParseIpv6Words(text) == Some(words)
  {
    hide ParseIpv6Words, Plain, WithoutRun;
    var start: nat, length: nat :|
      IsBestRun(words, start, length) && text == if length < 2 then Plain(words) else WithoutRun(words, start, length);
    if length < 2 {
      PlainRoundTrip(words);
    } else {
      WithoutRunRoundTrip(words, start, length);
    }
  }

  // ---------- ipv6NetworkCidr ----------

  /** The number that words stand for, the first one most significant. */
  function Number(words: seq<nat>): nat {
    if words == [] then 0 else 65536 * Number(words[..|words| - 1]) + words[|words| - 1]
  }

  /** (0xffff << (16 - keep)) & 0xffff. */
  function WordMask(keep: nat): nat
    requires keep < 16
  {
    And(65535 * Power(16 - keep), 65535)
  }

  /** What clearing the bits behind a prefix leaves of the word at an index. */
  function MaskedWord(word: nat, keep: int): nat {
    if keep <= 0 then 0 else if keep < 16 then And(word, WordMask(keep)) else word
  }

  lemma Power16()
    ensures Power(16) == 65536
  {
    Power8();
    PowerAdd(8, 8);
  }

  lemma ClearBelow(n: nat, k: nat)
    ensures Clear(n, k) <= n
  {
  }

  lemma MaskedWordIs(word: nat, keep: int)
    requires word < 65536
    ensures MaskedWord(word, keep) == if keep <= 0 then 0 else if keep < 16 then Clear(word, 16 - keep) else word
    ensures MaskedWord(word, keep) < 65536
  {
    hide Power, And, Clear;
    if 0 < keep < 16 {
      Power16();
      AndLow(65535 * Power(16 - keep), 16);
      MaskValue(16, 16 - keep);
      AndHigh(word, 16, 16 - keep);
      ClearBelow(word, 16 - keep);
    }
  }

  lemma ClearParts(x: nat, y: nat, k: nat)
    requires y < 65536
    ensures Clear(65536 * x + y, k) == if k >= 16 then 65536 * Clear(x, k - 16) else 65536 * x + Clear(y, k)
  {
    Power16();
    var n := 65536 * x + y;
    if k >= 16 {
      PowerAdd(16, k - 16);
      hide Power;
      ClearHighParts(x, y, Power(k - 16));
    } else {
      PowerAdd(k, 16 - k);
      hide Power;
      ClearLowParts(x, y, Power(k), Power(16 - k));
    }
  }

  lemma ClearHighParts(x: nat, y: nat, p: nat)
    requires y < 65536 && p > 0
    ensures (65536 * x + y) % (65536 * p) == 65536 * (x % p) + y
  {
    ModBelow(x, p);
    var q, r := x / p, x % p;
    assert 65536 * x == (65536 * p) * q + 65536 * r by {
      assert 65536 * (p * q) == (65536 * p) * q;
    }
    assert 65536 * r + y < 65536 * p;
    DivisionUnique(65536 * x + y, 65536 * p, q, 65536 * r + y);
  }

  lemma ClearLowParts(x: nat, y: nat, p: nat, s: nat)
    requires p > 0 && p * s == 65536
    ensures (65536 * x + y) % p == y % p
  {
    ModBelow(y, p);
    var q := y / p;
    assert 65536 * x == p * (s * x) by {
      assert (p * s) * x == p * (s * x);
    }
    assert p * (s * x + q) == p * (s * x) + p * q;
    DivisionUnique(65536 * x + y, p, s * x + q, y % p);
  }

  /** The words are masked one by one, the number as a whole. */
  ghost predicate AreMasked(words: seq<nat>, prefix: nat, masked: seq<nat>) {
    |masked| == |words| && forall i :: 0 <= i < |words| ==> masked[i] == MaskedWord(words[i], prefix - 16 * i)
  }

  lemma {:induction false} MaskedNumber(words: seq<nat>, prefix: nat, masked: seq<nat>)
    requires AreWords(words) && AreMasked(words, prefix, masked) && prefix <= 16 * |words|
    ensures AreWords(masked) && Number(masked) == Clear(Number(words), 16 * |words| - prefix)
  {
    hide MaskedWord, Clear;
    if words == [] {
      hide Power;
      assert Power(0) == 1 && Clear(0, 0) == 0 by {
        ClearZero();
      }
    } else {
      var n := |words| - 1;
      var w := words[n];
      MaskedWordIs(w, prefix - 16 * n);
      ClearParts(Number(words[..n]), w, 16 * |words| - prefix);
      if prefix <= 16 * n {
        MaskedNumber(words[..n], prefix, masked[..n]);
      } else {
        MaskedNumberAll(words[..n], prefix, masked[..n]);
        if prefix == 16 * |words| {
          ClearNothing(w);
        }
      }
    }
  }

  lemma ClearZero()
    ensures Power(0) == 1 && Clear(0, 0) == 0
  {
  }

  lemma MaskedNumberAll(words: seq<nat>, prefix: nat, masked: seq<nat>)
    requires AreWords(words) && AreMasked(words, prefix, masked) && prefix > 16 * |words|
    ensures masked == words
  {
    hide WordMask;
    forall i | 0 <= i < |words|
      ensures masked[i] == words[i]
    {
      assert prefix - 16 * i >= 16;
    }
  }

  /** The loop over the words: those of the prefix stay, one may be cut, the others are cleared. */
  method MaskWords(words: seq<nat>, prefix: nat) returns (masked: seq<nat>)
    ensures AreMasked(words, prefix, masked)
  {
    hide WordMask;
    masked := words;
    for index := 0 to |words|
      invariant |masked| == |words|
      invariant forall i :: 0 <= i < index ==> masked[i] == MaskedWord(words[i], prefix - 16 * i)
      invariant forall i :: index <= i < |words| ==> masked[i] == words[i]
    {
      var keep := prefix - index * 16;
      if keep <= 0 {
        masked := masked[index := 0];
      } else if keep < 16 {
        masked := masked[index := And(masked[index], WordMask(keep))];
      }
    }
  }

  /** A text that reads as the network of an address: the same number with the bits behind the prefix
      cleared, and the prefix. */
  ghost predicate IsNetworkText(cidr: string, words: seq<nat>, prefix: nat)
    requires |words| == 8 && prefix <= 128
  {
    exists text: string, network: seq<nat> ::
      && cidr == text + ("/" + Decimal(prefix)) && ParseIpv6Words(text) == Some(network) && IsCanonical(network, text)
      && AreWords(network) && |network| == 8 && Number(network) == Clear(Number(words), 128 - prefix)
  }

  lemma {:induction false} GroupsAreWords(groups: seq<string>)
    ensures ParseGroups(groups).Some? ==> AreWords(ParseGroups(groups).value)
  {
    if groups != [] {
      GroupsAreWords(groups[1..]);
      if IsGroup(groups[0]) {
        GroupBound(groups[0]);
      }
    }
  }

  lemma {:induction false} HexBound(s: string, w: nat)
    requires AllLowerHex(s) && |s| <= w
    ensures ParseHex(s) < Power(4 * w)
  {
    if s != "" {
      HexBound(s[..|s| - 1], w - 1);
      PowerAdd(4, 4 * (w - 1));
      assert Power(4) == 16;
    }
  }

  lemma GroupBound(s: string)
    requires IsGroup(s)
    ensures ParseHex(s) < 65536
  {
    HexBound(s, 4);
    Power16();
  }

  lemma ParsedWords(address: string)
    ensures ParseIpv6Words(address).Some? ==>
      |ParseIpv6Words(address).value| == 8 && AreWords(ParseIpv6Words(address).value)
  {
    hide ParseGroups, DoubleColon, ExpandTail, Lower, BeforeFirst, IsHexOrColon;
    var expanded := ExpandTail(Lower(BeforeFirst(address, '%')));
    if expanded.Some? {
      var a := expanded.value;
      HalfWords(a);
      var i := DoubleColon(a);
      if i.Some? {
        DoubleColonFits(a);
        HalfWords(a[..i.value]);
        HalfWords(a[i.value + 2..]);
      }
    }
  }

  lemma DoubleColonFits(a: string)
    ensures DoubleColon(a).Some? ==> DoubleColon(a).value + 2 <= |a|
  {
  }

  lemma HalfWords(s: string)
    ensures ParseHalf(s).Some? ==> AreWords(ParseHalf(s).value)
  {
    if s != "" {
      GroupsAreWords(Split(s, ':'));
    }
  }

  method Ipv6NetworkCidr(address: string, prefix: int) returns (cidr: Option<string>)
    ensures cidr.Some? <==> ParseIpv6Words(address).Some? && 0 <= prefix <= 128
    ensures cidr.Some? ==> |ParseIpv6Words(address).value| == 8 && IsNetworkText(cidr.value, ParseIpv6Words(address).value, prefix)
  {
    hide ParseIpv6Words, Number, Clear, AreMasked, IsCanonical, AreWords, Decimal;
    var parsed := ParseIpv6Words(address);
    if parsed == None || !(0 <= prefix <= 128) {
      return None;
    }
    ParsedWords(address);
    var words := MaskWords(parsed.value, prefix);
    MaskedNumber(parsed.value, prefix, words);
    MaskedLength(parsed.value, prefix, words);
    var text := FormatIpv6Words(words);
    FormatRoundTrip(words, text);
    cidr := Some(text + "/" + Decimal(prefix));
    assert text + "/" + Decimal(prefix) == text + ("/" + Decimal(prefix));
  }

  lemma MaskedLength(words: seq<nat>, prefix: nat, masked: seq<nat>)
    requires AreMasked(words, prefix, masked)
    ensures |masked| == |words|
  {
  }

  // ---------- splitIpv6 ----------

  predicate IsZoneChar(c: char) {
    IsLetter(c) || IsDigit(c) || c == '_' || c == '.' || c == '-'
  }

  predicate IsPrefixText(s: string) {
    s != "" && AllDigits(s) && ParseDecimal(s) <= 128
  }

  /** The address and the prefix of a text. The mode asks for a prefix, forbids one, or leaves it open. */
  function SplitIpv6(raw: string, prefixMode: Option<bool>): Option<(string, Option<string>)> {
    var value := Trim(raw);
    var prefix := AfterFirst(value, '/');
    var rest := BeforeFirst(value, '/');
    var zone := AfterFirst(rest, '%');
    var address := BeforeFirst(rest, '%');
    if prefix.Some? && '/' in prefix.value then None
    else if (prefixMode == Some(true) && prefix == None) || (prefixMode == Some(false) && prefix.Some?) then None
    else if prefix.Some? && !IsPrefixText(prefix.value) then None
    else if zone.Some? && (zone.value == "" || exists k :: 0 <= k < |zone.value| && !IsZoneChar(zone.value[k])) then None
    else if ParseIpv6Words(address) == None then None
    else Some((address, prefix))
  }

  lemma CanonicalShape(words: seq<nat>, text: string)
    requires |words| == 8 && AreWords(words) && IsCanonical(words, text)
    ensures AllHexOrColon(text) && text != ""
  {
    hide HexTexts, Join, IsHexOrColon;
    HalfIsSeparated(words);
    ColonIsFine();
    var start: nat, length: nat :|
      IsBestRun(words, start, length) && text == if length < 2 then Plain(words) else WithoutRun(words, start, length);
    HalfIsSeparated(words[..start]);
    HalfIsSeparated(words[start + length..]);
  }

  lemma PrefixText(prefix: nat)
    requires prefix <= 128
    ensures IsPrefixText(Decimal(prefix)) && '/' !in Decimal(prefix)
    ensures !IsSpace(Decimal(prefix)[|Decimal(prefix)| - 1])
  {
    ParseOfDecimal(prefix);
    assert forall k :: 0 <= k < |Decimal(prefix)| ==> IsDigit(Decimal(prefix)[k]);
  }

  /** A printed network is accepted where a prefix is, and its parts are what was printed. */
  lemma PrintedNetworkSplits(words: seq<nat>, text: string, prefix: nat, prefixMode: Option<bool>)
    requires |words| == 8 && AreWords(words) && IsCanonical(words, text) && prefix <= 128 && prefixMode != Some(false)
    ensures SplitIpv6(text + ("/" + Decimal(prefix)), prefixMode) == Some((text, Some(Decimal(prefix))))
  {
    hide ParseIpv6Words, Decimal, IsPrefixText, IsZoneChar, IsSpace, AreWords, Trim;
    CanonicalShape(words, text);
    FormatRoundTrip(words, text);
    hide IsCanonical;
    PrefixText(prefix);
    PlainChars(text);
    var value := text + ("/" + Decimal(prefix));
    TrimVisible(value);
    assert value == text + ['/'] + Decimal(prefix);
    FirstAt(text, '/', Decimal(prefix));
    FirstNowhere(text, '%');
  }

  lemma PlainChars(text: string)
    requires AllHexOrColon(text) && text != ""
    ensures '/' !in text && '%' !in text && !IsSpace(text[0])
  {
    assert forall k :: 0 <= k < |text| ==> text[k] != '/' && text[k] != '%';
  }

  // ---------- networks of networks ----------

  lemma {:induction false} NumberInjective(a: seq<nat>, b: seq<nat>)
    requires AreWords(a) && AreWords(b) && |a| == |b| && Number(a) == Number(b)
    ensures a == b
  {
    if a != [] {
      var n := |a| - 1;
      LastWord(Number(a[..n]), a[n], Number(b[..n]), b[n]);
      NumberInjective(a[..n], b[..n]);
      assert a == a[..n] + [a[n]] && b == b[..n] + [b[n]];
    }
  }

  lemma LastWord(x: nat, a: nat, y: nat, b: nat)
    requires a < 65536 && b < 65536 && 65536 * x + a == 65536 * y + b
    ensures x == y && a == b
  {
  }

  /** An address has one text. */
  lemma CanonicalUnique(words: seq<nat>, text: string, text': string)
    requires IsCanonical(words, text) && IsCanonical(words, text')
    ensures text == text'
  {
    hide Plain, WithoutRun;
    var start: nat, length: nat :|
      IsBestRun(words, start, length) && text == if length < 2 then Plain(words) else WithoutRun(words, start, length);
    var start': nat, length': nat :|
      IsBestRun(words, start', length') && text' == if length' < 2 then Plain(words) else WithoutRun(words, start', length');
    assert IsZeroRun(words, start, length) && IsZeroRun(words, start', length');
  }

  /** So has a network. */
  lemma NetworkTextUnique(cidr: string, cidr': string, a: seq<nat>, p: nat, b: seq<nat>, q: nat)
    requires |a| == |b| == 8 && p <= 128 && q <= 128 && IsNetworkText(cidr, a, p) && IsNetworkText(cidr', b, q)
    requires Clear(Number(a), 128 - p) == Clear(Number(b), 128 - q)
    ensures exists text ::
      && SplitIpv6(cidr, Some(true)) == Some((text, Some(Decimal(p)))) && SplitIpv6(cidr', Some(true)) == Some((text, Some(Decimal(q))))
      && (p == q ==> cidr == cidr')
  {
    hide ParseIpv6Words, SplitIpv6, IsCanonical, Number, Clear, AreWords, Decimal;
    var text: string, network: seq<nat> :|
      && cidr == text + ("/" + Decimal(p)) && ParseIpv6Words(text) == Some(network) && IsCanonical(network, text)
      && AreWords(network) && |network| == 8 && Number(network) == Clear(Number(a), 128 - p);
    var text': string, network': seq<nat> :|
      && cidr' == text' + ("/" + Decimal(q)) && ParseIpv6Words(text') == Some(network') && IsCanonical(network', text')
      && AreWords(network') && |network'| == 8 && Number(network') == Clear(Number(b), 128 - q);
    NumberInjective(network, network');
    CanonicalUnique(network, text, text');
    PrintedNetworkSplits(network, text, p, Some(true));
    PrintedNetworkSplits(network, text, q, Some(true));
  }

  /** The network, with a prefix q, of the address of a printed network with a prefix p: its address is that of the
      network of the original address with the shorter prefix; it is that very text where q is the shorter one. */
  method Ipv6NetworkTwice(address: string, p: int, q: int) returns (once: Option<string>, twice: Option<string>, direct: Option<string>)
    requires ParseIpv6Words(address).Some? && 0 <= p <= 128 && 0 <= q <= 128
    ensures once.Some? && SplitIpv6(once.value, Some(true)).Some? && twice.Some? && direct.Some?
    ensures |ParseIpv6Words(address).value| == 8
    ensures IsNetworkText(once.value, ParseIpv6Words(address).value, p)
    ensures IsNetworkText(direct.value, ParseIpv6Words(address).value, if p < q then p else q)
    ensures var (text, _) := SplitIpv6(once.value, Some(true)).value;
      && ParseIpv6Words(text).Some? && |ParseIpv6Words(text).value| == 8
      && IsNetworkText(twice.value, ParseIpv6Words(text).value, q)
    ensures exists text ::
      && SplitIpv6(twice.value, Some(true)) == Some((text, Some(Decimal(q))))
      && SplitIpv6(direct.value, Some(true)) == Some((text, Some(Decimal(if p < q then p else q))))
    ensures q <= p ==> twice == direct
  {
    hide *;
    once := Ipv6NetworkCidr(address, p);
    var words := ParseIpv6Words(address).value;
    ghost var network := NetworkWords(once.value, words, p);
    var parts := SplitIpv6(once.value, Some(true));
    twice := Ipv6NetworkCidr(parts.value.0, q);
    direct := Ipv6NetworkCidr(address, if p < q then p else q);
    ClearTwice(Number(words), 128 - p, 128 - q);
    NetworkTextUnique(twice.value, direct.value, network, q, words, if p < q then p else q);
  }

  /** The address of a printed network, as words. */
  lemma NetworkWords(cidr: string, words: seq<nat>, p: nat) returns (network: seq<nat>)
    requires |words| == 8 && p <= 128 && IsNetworkText(cidr, words, p)
    ensures |network| == 8 && Number(network) == Clear(Number(words), 128 - p)
    ensures SplitIpv6(cidr, Some(true)).Some? && ParseIpv6Words(SplitIpv6(cidr, Some(true)).value.0) == Some(network)
  {
    hide ParseIpv6Words, SplitIpv6, IsCanonical, Number, Clear, AreWords, Decimal;
    var text: string;
    text, network :|
      && cidr == text + ("/" + Decimal(p)) && ParseIpv6Words(text) == Some(network) && IsCanonical(network, text)
      && AreWords(network) && |network| == 8 && Number(network) == Clear(Number(words), 128 - p);
    PrintedNetworkSplits(network, text, p, Some(true));
  }
}
