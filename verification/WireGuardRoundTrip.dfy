/** An exported configuration is imported as it was. */
module WireGuardRoundTrip {
  import opened Wrappers
  import opened Text
  import opened Endpoint
  import opened WireGuard

  // ---------- single lines ----------

  /** Values that stand in a line as they are: trimmed, without comment signs and line breaks. */
  predicate IsPlain(v: string) {
    && (v == "" || IsTrimmed(v)) && NoBreak(v)
    && forall k :: 0 <= k < |v| ==> v[k] != '#' && v[k] != ';'
  }

  predicate IsKeyName(s: string) {
    s != "" && forall k :: 0 <= k < |s| ==> IsLetter(s[k]) || IsDigit(s[k])
  }

  lemma {:induction false} NotCommented(s: string)
    requires forall k :: 0 <= k < |s| ==> s[k] != '#' && s[k] != ';'
    ensures Uncommented(s) == s
  {
    if s != "" {
      NotCommented(s[1..]);
    }
  }

  lemma TrimAfterKey(key: string)
    requires IsKeyName(key)
    ensures Trim(key + " ") == key
  {
    IndentIs(key + " ", 0);
    assert (key + " ")[0..] == key + " ";
    assert (key + " ")[..|key|] == key;
    assert !IsSpace(key[|key| - 1]);
  }

  lemma KeyShape(key: string)
    requires IsKeyName(key)
    ensures !IsSpace(key[0]) && key[0] != '[' && '=' !in key + " "
    ensures forall k :: 0 <= k < |key| ==> key[k] != '#' && key[k] != ';'
  {
    assert forall k :: 0 <= k < |key| ==> key[k] != '=' && key[k] != '#' && key[k] != ';';
  }

  lemma ItemNotCommented(key: string, value: string)
    requires IsKeyName(key) && value != "" && IsPlain(value)
    ensures var raw := key + " = " + value; Trim(Uncommented(raw)) == raw && raw[0] == key[0]
  {
    var raw := key + " = " + value;
    KeyShape(key);
    hide IsKeyName, IsSpace, NoBreak;
    NotCommented(raw);
    assert raw[0] == key[0] && raw[|raw| - 1] == value[|value| - 1];
    TrimVisible(raw);
  }

  lemma ItemRead(key: string, value: string)
    requires IsKeyName(key) && value != "" && IsPlain(value)
    ensures Classify(key + " = " + value) == Item(Lower(key), value)
  {
    var raw := key + " = " + value;
    ItemNotCommented(key, value);
    KeyShape(key);
    hide IsKeyName, IsSpace, Uncommented, Trim, Lower;
    assert raw == key + " " + ['='] + (" " + value);
    FirstAt(key + " ", '=', " " + value);
    TrimAfterKey(key);
    TrimAfterSpace(value);
    IndentIs(" " + value, 1);
    assert (" " + value)[1..] == value;
  }

  lemma HeadersRead()
    ensures Classify("[Interface]") == Header(Interface)
    ensures Classify("[Peer]") == Header(PeerSection)
    ensures Classify("") == Empty
  {
    InterfaceHeader();
    PeerHeader();
    EmptyRead();
  }

  lemma InterfaceHeader()
    ensures Classify("[Interface]") == Header(Interface)
  {
    hide Classify;
    HeaderRead("Interface", "interface");
    assert "[" + "Interface" + "]" == "[Interface]";
  }

  lemma PeerHeader()
    ensures Classify("[Peer]") == Header(PeerSection)
  {
    hide Classify;
    assert "peer" != "interface";
    HeaderRead("Peer", "peer");
    assert "[" + "Peer" + "]" == "[Peer]";
  }

  lemma EmptyRead()
    ensures Classify("") == Empty
  {
    assert Trim("") == "";
  }

  lemma HeaderRead(name: string, lower: string)
    requires IsKeyName(name) && |name| == |lower| && forall k :: 0 <= k < |name| ==> LowerChar(name[k]) == lower[k]
    requires lower == "interface" || lower == "peer"
    ensures Classify("[" + name + "]") == Header(if lower == "interface" then Interface else PeerSection)
  {
    var line := "[" + name + "]";
    KeyShape(name);
    KeyEnds(name);
    LowerIs(name, lower);
    hide IsKeyName, IsSpace, Lower, LowerChar;
    NotCommented(line);
    BracketsVisible();
    TrimVisible(line);
    TrimVisible(name);
    assert line[1..|line| - 1] == name;
  }

  lemma BracketsVisible()
    ensures !IsSpace('[') && !IsSpace(']')
  {
  }

  lemma KeyEnds(key: string)
    requires IsKeyName(key)
    ensures !IsSpace(key[0]) && !IsSpace(key[|key| - 1])
  {
  }

  // ---------- runs ----------

  lemma {:induction false} RunAppend(d: Draft, a: seq<string>, b: seq<string>)
    ensures Run(d, a + b) == Run(Run(d, a), b)
  {
    if b == [] {
      assert a + b == a;
    } else {
      assert (a + b)[..|a + b| - 1] == a + b[..|b| - 1];
      RunAppend(d, a, b[..|b| - 1]);
    }
  }

  lemma RunOne(d: Draft, line: string)
    ensures Run(d, [line]) == Step(d, Classify(line))
  {
    assert [line][..0] == [];
  }

  lemma RunItem(d: Draft, key: string, value: string, rest: seq<string>)
    requires IsKeyName(key) && IsPlain(value)
    ensures Run(d, ItemLine(key, value) + rest) == Run(if value == "" then d else Step(d, Item(Lower(key), value)), rest)
  {
    hide Step, Classify, IsPlain, IsKeyName;
    RunAppend(d, ItemLine(key, value), rest);
    if value == "" {
    } else {
      RunOne(d, key + " = " + value);
      ItemRead(key, value);
    }
  }

  /** The words of a list that survive in a line. */
  predicate IsListWord(s: string) {
    IsWord(s) && forall k :: 0 <= k < |s| ==> s[k] != '#' && s[k] != ';'
  }

  ghost predicate AreListWords(words: seq<string>) {
    forall k :: 0 <= k < |words| ==> IsListWord(words[k])
  }

  lemma {:induction false} ListPlain(words: seq<string>)
    requires words != [] && AreListWords(words)
    ensures Join(words, ", ") != "" && IsPlain(Join(words, ", "))
  {
    var w := words[0];
    assert IsListWord(w);
    assert forall k :: 0 <= k < |w| ==> !IsBreaker(w[k]) && !IsBreak(w[k]);
    if |words| > 1 {
      ListPlain(words[1..]);
      var rest := Join(words[1..], ", ");
      var s := w + ", " + rest;
      hide IsSpace, IsBreaker;
      assert s[|s| - 1] == rest[|rest| - 1] && s[0] == w[0];
    }
  }

  lemma RunList(d: Draft, key: string, words: seq<string>, rest: seq<string>)
    requires IsKeyName(key) && AreListWords(words)
    ensures Run(d, ListLine(key, words) + rest)
         == Run(if words == [] then d else Step(d, Item(Lower(key), Join(words, ", "))), rest)
    ensures ParseList(Join(words, ", ")) == words
  {
    hide Step, Classify, IsPlain, IsKeyName, Join;
    forall k | 0 <= k < |words|
      ensures IsWord(words[k])
    {
      assert IsListWord(words[k]);
    }
    ListRoundTrip(words);
    if words != [] {
      ListPlain(words);
      RunItem(d, key, Join(words, ", "), rest);
    } else {
      assert [] + rest == rest;
    }
  }

  // ---------- the interface ----------

  /** The key of a line, as it is written and as it is compared. */
  ghost predicate IsKey(key: string, lower: string) {
    IsKeyName(key) && Lower(key) == lower
  }

  lemma KeyIs(key: string, lower: string)
    requires IsKeyName(key) && |key| == |lower| && forall k :: 0 <= k < |key| ==> LowerChar(key[k]) == lower[k]
    ensures IsKey(key, lower)
  {
    LowerIs(key, lower);
  }

  lemma SetPrivateKey(d: Draft, v: string)
    ensures IsKey("PrivateKey", "privatekey") && SetInterface(d, "privatekey", v) == d.(privateKey := v)
  {
    KeyIs("PrivateKey", "privatekey");
    hide IsKey;
  }

  lemma SetAddress(d: Draft, v: string)
    ensures IsKey("Address", "address") && SetInterface(d, "address", v) == d.(addresses := Some(ParseList(v)))
  {
    KeyIs("Address", "address");
    hide IsKey;
  }

  lemma SetListenPort(d: Draft, v: string)
    ensures IsKey("ListenPort", "listenport") && SetInterface(d, "listenport", v) == d.(listenPort := v)
  {
    KeyIs("ListenPort", "listenport");
    hide IsKey;
  }

  lemma SetMtu(d: Draft, v: string)
    ensures IsKey("MTU", "mtu") && SetInterface(d, "mtu", v) == d.(mtu := v)
  {
    KeyIs("MTU", "mtu");
    hide IsKey;
  }

  lemma SetFwMark(d: Draft, v: string)
    ensures IsKey("FwMark", "fwmark") && SetInterface(d, "fwmark", v) == d.(fwmark := v)
  {
    KeyIs("FwMark", "fwmark");
    hide IsKey;
  }

  lemma SetDns(d: Draft, v: string)
    ensures IsKey("DNS", "dns") && SetInterface(d, "dns", v) == d.(dns := ParseList(v))
  {
    KeyIs("DNS", "dns");
    hide IsKey;
  }

  ghost predicate BasicsAreWellFormed(c: Connection) {
    && IsPlain(c.privateKey) && IsPlain(c.listenPort) && IsPlain(c.mtu) && IsPlain(c.fwmark)
    && c.addresses != [] && AreListWords(c.addresses) && AreListWords(c.dns)
  }

  function BasicDraft(c: Connection): Draft {
    Draft(Interface, Wg, c.privateKey, Some(c.addresses), c.listenPort, c.mtu, c.fwmark, c.dns, map[], [])
  }

  lemma BasicsRead(c: Connection)
    requires BasicsAreWellFormed(c)
    ensures Run(START, BasicLines(c)) == BasicDraft(c)
  {
    hide Classify, IsPlain, IsKeyName, ItemLine, ListLine, Join, AreListWords, Run, ParseList, SetInterface, Lower;
    HeadersRead();
    var dns := ListLine("DNS", c.dns);
    var fwmark := ItemLine("FwMark", c.fwmark) + dns;
    var mtu := ItemLine("MTU", c.mtu) + fwmark;
    var port := ItemLine("ListenPort", c.listenPort) + mtu;
    var address := ListLine("Address", c.addresses) + port;
    RunAppend(START, ["[Interface]"], ItemLine("PrivateKey", c.privateKey) + address);
    RunOne(START, "[Interface]");
    var d := START.(section := Interface);
    SetPrivateKey(d, c.privateKey);
    RunItem(d, "PrivateKey", c.privateKey, address);
    d := d.(privateKey := c.privateKey);
    SetAddress(d, Join(c.addresses, ", "));
    RunList(d, "Address", c.addresses, port);
    d := d.(addresses := Some(c.addresses));
    SetListenPort(d, c.listenPort);
    RunItem(d, "ListenPort", c.listenPort, mtu);
    d := d.(listenPort := c.listenPort);
    BasicsReadRest(c, d);
  }

  lemma BasicsReadRest(c: Connection, d0: Draft)
    requires BasicsAreWellFormed(c)
    requires d0 == BasicDraft(c).(mtu := "", fwmark := "", dns := [])
    ensures Run(d0, ItemLine("MTU", c.mtu) + (ItemLine("FwMark", c.fwmark) + ListLine("DNS", c.dns))) == BasicDraft(c)
  {
    hide Classify, IsPlain, IsKeyName, ItemLine, ListLine, Join, AreListWords, Run, ParseList, SetInterface, Lower;
    var d := d0;
    var dns := ListLine("DNS", c.dns);
    SetMtu(d, c.mtu);
    RunItem(d, "MTU", c.mtu, ItemLine("FwMark", c.fwmark) + dns);
    d := d.(mtu := c.mtu);
    SetFwMark(d, c.fwmark);
    RunItem(d, "FwMark", c.fwmark, dns);
    d := d.(fwmark := c.fwmark);
    SetDns(d, Join(c.dns, ", "));
    RunList(d, "DNS", c.dns, []);
    assert dns + [] == dns;
    RunNothing(BasicDraft(c));
    RunNothing(d);
  }

  lemma RunNothing(d: Draft)
    ensures Run(d, []) == d
  {
  }

  // ---------- the options of AmneziaWG ----------

  function OptionNames(k: nat): set<string>
    requires k <= |OPTIONS|
  {
    set i | 0 <= i < k :: OPTIONS[i].0
  }

  ghost predicate AwgIsWellFormed(awg: map<string, string>) {
    && awg.Keys <= OptionNames(|OPTIONS|)
    && forall o :: o in awg ==> awg[o] != "" && IsPlain(awg[o])
  }

  function Restricted(awg: map<string, string>, k: nat): map<string, string>
    requires k <= |OPTIONS|
  {
    map o | o in awg && o in OptionNames(k) :: awg[o]
  }

  const LOWER: seq<string> := ["jc", "jmin", "jmax", "s1", "s2", "h1", "h2", "h3", "h4"]

  lemma OptionKey(k: nat)
    requires k < |OPTIONS|
    ensures IsKey(OPTIONS[k].1, LOWER[k])
  {
    hide IsKey, Lower;
    if k == 0 { KeyIs("Jc", "jc"); }
    else if k == 1 { KeyIs("Jmin", "jmin"); }
    else if k == 2 { KeyIs("Jmax", "jmax"); }
    else if k == 3 { KeyIs("S1", "s1"); }
    else if k == 4 { KeyIs("S2", "s2"); }
    else if k == 5 { KeyIs("H1", "h1"); }
    else if k == 6 { KeyIs("H2", "h2"); }
    else if k == 7 { KeyIs("H3", "h3"); }
    else { KeyIs("H4", "h4"); }
  }

  lemma LowerDistinct(i: nat, k: nat)
    requires i < k < |LOWER|
    ensures LOWER[i] != LOWER[k]
  {
    var a, b := LOWER[i], LOWER[k];
    assert |a| != |b| || a[0] != b[0] || a[|a| - 1] != b[|b| - 1];
  }

  lemma {:induction false} OptionFound(k: nat, i: nat)
    requires i <= k < |OPTIONS|
    ensures OptionNamed(LOWER[k], i) == Some(OPTIONS[k].0)
    decreases k - i
  {
    assert |OPTIONS| == 9 && |LOWER| == 9;
    hide Lower, OPTIONS, LOWER;
    OptionKey(i);
    if i < k {
      LowerDistinct(i, k);
      OptionFound(k, i + 1);
    }
  }

  lemma SetAwg(d: Draft, k: nat, v: string)
    requires k < |OPTIONS|
    ensures |LOWER| == |OPTIONS|
    ensures SetInterface(d, LOWER[k], v) == d.(awg := d.awg[OPTIONS[k].0 := v], protocol := Awg)
  {
    var key := LOWER[k];
    assert |key| == 2 || |key| == 4;
    OptionFound(k, 0);
    hide LOWER, OPTIONS, OptionNamed;
    assert KnownAwg(key) == OptionNamed(key, 0);
  }

  lemma RestrictedNext(awg: map<string, string>, k: nat)
    requires k < |OPTIONS|
    ensures var o := OPTIONS[k].0;
      Restricted(awg, k + 1) == if o in awg then Restricted(awg, k)[o := awg[o]] else Restricted(awg, k)
  {
    hide OPTIONS;
    assert OptionNames(k + 1) == OptionNames(k) + {OPTIONS[k].0};
  }

  lemma RestrictedAll(awg: map<string, string>)
    requires AwgIsWellFormed(awg)
    ensures Restricted(awg, |OPTIONS|) == awg
    ensures Restricted(awg, 0) == map[]
  {
    hide OPTIONS;
  }

  /** The lines of the options restore the options, and with them the protocol. */
  lemma {:induction false} AwgRead(d: Draft, awg: map<string, string>, k: nat)
    requires AwgIsWellFormed(awg) && k <= |OPTIONS| && d.section == Interface && d.awg == map[] && d.protocol == Wg
    ensures Run(d, AwgLines(awg, k)) ==
      d.(awg := Restricted(awg, k), protocol := if Restricted(awg, k) == map[] then Wg else Awg)
  {
    hide OPTIONS, LOWER, Classify, IsPlain, ItemLine, Run, Restricted, SetInterface, IsKeyName, Lower, AwgLines, Step;
    if k == 0 {
      RestrictedAll(awg);
      RunNothing(d);
      NoAwgLines(awg);
    } else {
      var o := OPTIONS[k - 1];
      AwgRead(d, awg, k - 1);
      RestrictedNext(awg, k - 1);
      var before := Run(d, AwgLines(awg, k - 1));
      AwgNext(awg, k - 1);
      if o.0 in awg {
        RunAppend(d, AwgLines(awg, k - 1), ItemLine(o.1, awg[o.0]));
        OptionKey(k - 1);
        SetAwg(before, k - 1, awg[o.0]);
        RunItem(before, o.1, awg[o.0], []);
        assert ItemLine(o.1, awg[o.0]) + [] == ItemLine(o.1, awg[o.0]);
        RunNothing(Step(before, Item(LOWER[k - 1], awg[o.0])));
        InterfaceStep(before, LOWER[k - 1], awg[o.0]);
        SomeOption(Restricted(awg, k - 1), o.0, awg[o.0]);
      }
    }
  }

  lemma SomeOption(m: map<string, string>, key: string, value: string)
    ensures m[key := value] != map[]
  {
    assert key in m[key := value];
  }

  lemma InterfaceStep(d: Draft, key: string, value: string)
    requires d.section == Interface
    ensures Step(d, Item(key, value)) == SetInterface(d, key, value)
  {
  }

  lemma NoAwgLines(awg: map<string, string>)
    ensures AwgLines(awg, 0) == []
  {
  }

  lemma AwgNext(awg: map<string, string>, k: nat)
    requires k < |OPTIONS|
    ensures var o := OPTIONS[k];
      AwgLines(awg, k + 1) == if o.0 in awg then AwgLines(awg, k) + ItemLine(o.1, awg[o.0]) else AwgLines(awg, k)
  {
    hide OPTIONS, ItemLine;
    assert AwgLines(awg, k) + [] == AwgLines(awg, k);
  }

  // ---------- peers ----------

  predicate AllHostChars(s: string) {
    forall k :: 0 <= k < |s| ==> IsHostChar(s[k])
  }

  /** Without a host there is no endpoint; with one, host and port must come apart again. */
  ghost predicate EndpointIsWellFormed(p: Peer) {
    if p.endpointHost == "" then p.endpointPort == ""
    else
      && AllHostChars(p.endpointHost) && Survives(p.endpointHost, p.endpointPort)
      && (p.endpointPort == "" || (IsNumeral(p.endpointPort) && ValidPort(p.endpointPort, true)))
  }

  ghost predicate AreAddresses(words: seq<string>) {
    AreListWords(words) && forall k :: 0 <= k < |words| ==> ValidAddress(words[k])
  }

  ghost predicate PeerIsWellFormed(p: Peer) {
    && p.publicKey != "" && IsPlain(p.publicKey) && ValidKey(p.publicKey, false)
    && IsPlain(p.privateKey) && IsPlain(p.presharedKey) && (p.presharedKey == "" || ValidKey(p.presharedKey, true))
    && AreAddresses(p.allowedIps) && EndpointIsWellFormed(p) && IsPlain(p.keepalive)
  }

  lemma KeepaliveKey()
    ensures IsKey("PersistentKeepalive", "persistentkeepalive")
  {
    hide IsKey, Lower;
    KeyIs("PersistentKeepalive", "persistentkeepalive");
  }

  lemma AllowedIpsKey()
    ensures IsKey("AllowedIPs", "allowedips")
  {
    hide IsKey, Lower;
    KeyIs("AllowedIPs", "allowedips");
  }

  lemma PresharedKeyKey()
    ensures IsKey("PresharedKey", "presharedkey")
  {
    hide IsKey, Lower;
    KeyIs("PresharedKey", "presharedkey");
  }

  lemma EndpointKey()
    ensures IsKey("Endpoint", "endpoint")
  {
    hide IsKey, Lower;
    KeyIs("Endpoint", "endpoint");
  }

  lemma SetPublicKey(p: PeerDraft, v: string)
    ensures IsKey("PublicKey", "publickey") && SetPeer(p, "publickey", v) == p.(peer := p.peer.(publicKey := v))
  {
    KeyIs("PublicKey", "publickey");
    hide IsKey;
  }

  lemma SetPeerPrivateKey(p: PeerDraft, v: string)
    ensures IsKey("PrivateKey", "privatekey") && SetPeer(p, "privatekey", v) == p.(peer := p.peer.(privateKey := v))
  {
    KeyIs("PrivateKey", "privatekey");
    hide IsKey;
  }

  lemma SetPresharedKey(p: PeerDraft, v: string)
    ensures IsKey("PresharedKey", "presharedkey") && SetPeer(p, "presharedkey", v) == p.(peer := p.peer.(presharedKey := v))
  {
    hide IsKey;
    PresharedKeyKey();
  }

  lemma SetAllowedIps(p: PeerDraft, v: string)
    ensures IsKey("AllowedIPs", "allowedips") && SetPeer(p, "allowedips", v) == p.(peer := p.peer.(allowedIps := ParseList(v)))
  {
    hide IsKey;
    AllowedIpsKey();
  }

  lemma SetEndpoint(p: PeerDraft, v: string)
    ensures IsKey("Endpoint", "endpoint")
    ensures SetPeer(p, "endpoint", v)
         == PeerDraft(p.peer.(endpointHost := ParseEndpoint(v).host, endpointPort := ParseEndpoint(v).port), v)
  {
    hide IsKey, ParseEndpoint;
    EndpointKey();
  }

  lemma SetKeepalive(p: PeerDraft, v: string)
    ensures IsKey("PersistentKeepalive", "persistentkeepalive")
    ensures SetPeer(p, "persistentkeepalive", v) == p.(peer := p.peer.(keepalive := v))
  {
    hide IsKey;
    KeepaliveKey();
  }

  /** An item read for the peer at the end. */
  lemma StepPeer(d: Draft, init: seq<PeerDraft>, p: PeerDraft, key: string, value: string)
    requires d.section == PeerSection && d.peers == init + [p]
    ensures Step(d, Item(key, value)) == d.(peers := init + [SetPeer(p, key, value)])
  {
    hide SetPeer;
    assert d.peers[..|d.peers| - 1] == init;
  }

  function PeerOf(p: Peer): PeerDraft {
    PeerDraft(p.(routeAllowed := false), EndpointOf(p))
  }

  lemma EndpointRead(p: Peer)
    requires EndpointIsWellFormed(p)
    ensures IsPlain(EndpointOf(p))
    ensures p.endpointHost != "" ==> EndpointOf(p) != ""
    ensures p.endpointHost != "" ==> ParseEndpoint(EndpointOf(p)) == HostPort(p.endpointHost, p.endpointPort)
  {
    if p.endpointHost != "" {
      EndpointRoundTrip(p.endpointHost, p.endpointPort);
      EndpointPlain(p.endpointHost, p.endpointPort);
    }
  }

  lemma EndpointPlain(host: string, port: string)
    requires host != "" && AllHostChars(host) && (port == "" || IsNumeral(port))
    ensures IsPlain(EndpointText(host, port)) && EndpointText(host, port) != ""
  {
    var t := EndpointText(host, port);
    forall k | 0 <= k < |t|
      ensures IsHostChar(t[k])
    {
    }
    HostCharsPlain(t);
  }

  lemma HostCharsPlain(t: string)
    requires AllHostChars(t)
    ensures IsPlain(t)
  {
  }

  lemma PeerRead(d: Draft, p: Peer)
    requires PeerIsWellFormed(p)
    ensures Run(d, PeerLines(p)) == d.(section := PeerSection, peers := d.peers + [PeerOf(p)])
  {
    hide Classify, IsPlain, IsKeyName, ItemLine, ListLine, Join, AreListWords, Run, ParseList, SetPeer, Lower, ValidKey, ValidAddress,
         EndpointIsWellFormed, ParseEndpoint, EndpointOf, Step;
    var alive := ItemLine("PersistentKeepalive", p.keepalive);
    var endpoint := ItemLine("Endpoint", EndpointOf(p)) + alive;
    var ips := ListLine("AllowedIPs", p.allowedIps) + endpoint;
    var preshared := ItemLine("PresharedKey", p.presharedKey) + ips;
    var private := ItemLine("PrivateKey", p.privateKey) + preshared;
    var fields := ItemLine("PublicKey", p.publicKey) + private;
    var e := d.(section := PeerSection, peers := d.peers + [NO_PEER]);
    PeerStart(d, fields);
    var q := NO_PEER;
    SetPublicKey(q, p.publicKey);
    RunItem(e, "PublicKey", p.publicKey, private);
    StepPeer(e, d.peers, q, "publickey", p.publicKey);
    q := q.(peer := q.peer.(publicKey := p.publicKey));
    e := e.(peers := d.peers + [q]);
    SetPeerPrivateKey(q, p.privateKey);
    RunItem(e, "PrivateKey", p.privateKey, preshared);
    StepPeer(e, d.peers, q, "privatekey", p.privateKey);
    q := q.(peer := q.peer.(privateKey := p.privateKey));
    e := e.(peers := d.peers + [q]);
    SetPresharedKey(q, p.presharedKey);
    RunItem(e, "PresharedKey", p.presharedKey, ips);
    StepPeer(e, d.peers, q, "presharedkey", p.presharedKey);
    q := q.(peer := q.peer.(presharedKey := p.presharedKey));
    e := e.(peers := d.peers + [q]);
    PeerReadRest(e, d.peers, q, p);
  }

  lemma PeerStart(d: Draft, fields: seq<string>)
    ensures Run(d, ["", "[Peer]"] + fields) == Run(d.(section := PeerSection, peers := d.peers + [NO_PEER]), fields)
  {
    hide Classify, Run;
    HeadersRead();
    RunAppend(d, ["", "[Peer]"], fields);
    assert ["", "[Peer]"] == [""] + ["[Peer]"];
    RunAppend(d, [""], ["[Peer]"]);
    RunOne(d, "");
    RunOne(d, "[Peer]");
  }

  lemma PeerReadRest(d: Draft, init: seq<PeerDraft>, q0: PeerDraft, p: Peer)
    requires PeerIsWellFormed(p) && d.section == PeerSection && d.peers == init + [q0]
    requires q0 == PeerDraft(Peer(p.publicKey, p.privateKey, p.presharedKey, [], "", "", "", false), "")
    ensures Run(d, ListLine("AllowedIPs", p.allowedIps)
                   + (ItemLine("Endpoint", EndpointOf(p)) + ItemLine("PersistentKeepalive", p.keepalive)))
         == d.(peers := init + [PeerOf(p)])
  {
    hide Classify, IsPlain, IsKeyName, ItemLine, ListLine, Join, AreListWords, Run, ParseList, SetPeer, Lower, ValidKey, ValidAddress,
         ParseEndpoint, Step, Survives, ValidPort;
    var alive := ItemLine("PersistentKeepalive", p.keepalive);
    var endpoint := ItemLine("Endpoint", EndpointOf(p)) + alive;
    var e, q := d, q0;
    SetAllowedIps(q, Join(p.allowedIps, ", "));
    RunList(e, "AllowedIPs", p.allowedIps, endpoint);
    StepPeer(e, init, q, "allowedips", Join(p.allowedIps, ", "));
    q := q.(peer := q.peer.(allowedIps := p.allowedIps));
    e := e.(peers := init + [q]);
    EndpointRead(p);
    SetEndpoint(q, EndpointOf(p));
    RunItem(e, "Endpoint", EndpointOf(p), alive);
    StepPeer(e, init, q, "endpoint", EndpointOf(p));
    q := PeerDraft(q.peer.(endpointHost := p.endpointHost, endpointPort := p.endpointPort), EndpointOf(p));
    e := e.(peers := init + [q]);
    SetKeepalive(q, p.keepalive);
    RunItem(e, "PersistentKeepalive", p.keepalive, []);
    StepPeer(e, init, q, "persistentkeepalive", p.keepalive);
    assert alive + [] == alive;
    RunNothing(e);
    RunNothing(e.(peers := init + [PeerOf(p)]));
  }

  ghost predicate PeersAreWellFormed(peers: seq<Peer>) {
    forall k :: 0 <= k < |peers| ==> PeerIsWellFormed(peers[k])
  }

  function PeersOf(peers: seq<Peer>): seq<PeerDraft> {
    seq(|peers|, i requires 0 <= i < |peers| => PeerOf(peers[i]))
  }

  lemma {:induction false} PeersRead(d: Draft, peers: seq<Peer>)
    requires PeersAreWellFormed(peers)
    ensures Run(d, PeersLines(peers)) ==
      d.(section := if peers == [] then d.section else PeerSection, peers := d.peers + PeersOf(peers))
  {
    hide PeerLines, PeerIsWellFormed, PeerOf, Run;
    if peers == [] {
      RunNothing(d);
      assert d.peers + [] == d.peers;
    } else {
      var n := |peers| - 1;
      PeersRead(d, peers[..n]);
      RunAppend(d, PeersLines(peers[..n]), PeerLines(peers[n]));
      PeerRead(Run(d, PeersLines(peers[..n])), peers[n]);
      assert PeersOf(peers) == PeersOf(peers[..n]) + [PeerOf(peers[n])];
      assert d.peers + PeersOf(peers) == d.peers + PeersOf(peers[..n]) + [PeerOf(peers[n])];
    }
  }

  // ---------- the whole file ----------

  /** A connection that can be exported and imported: valid keys and addresses; values and words that
      stand in a line; options exactly for AmneziaWG; endpoints that come apart again. */
  ghost predicate IsWellFormed(c: Connection) {
    && BasicsAreWellFormed(c) && c.privateKey != "" && ValidKey(c.privateKey, false) && AreAddresses(c.addresses)
    && AwgIsWellFormed(c.awg) && (c.protocol == Awg <==> c.awg != map[])
    && PeersAreWellFormed(c.peers)
  }

  /** What a file holds of a connection: all but whether the addresses of a peer are routed. */
  function Exported(c: Connection): Connection {
    c.(peers := seq(|c.peers|, i requires 0 <= i < |c.peers| => c.peers[i].(routeAllowed := false)))
  }

  ghost predicate AllNoBreak(lines: seq<string>) {
    forall k :: 0 <= k < |lines| ==> NoBreak(lines[k])
  }

  lemma NoBreakAppend(a: seq<string>, b: seq<string>)
    requires AllNoBreak(a) && AllNoBreak(b)
    ensures AllNoBreak(a + b)
  {
  }

  lemma ItemNoBreak(key: string, value: string)
    requires IsKeyName(key) && IsPlain(value)
    ensures AllNoBreak(ItemLine(key, value))
  {
    assert forall k :: 0 <= k < |key| ==> !IsBreak(key[k]);
  }

  lemma ListNoBreak(key: string, words: seq<string>)
    requires IsKeyName(key) && AreListWords(words)
    ensures AllNoBreak(ListLine(key, words))
  {
    if words != [] {
      ListPlain(words);
      ItemNoBreak(key, Join(words, ", "));
    }
  }

  lemma BasicsNoBreak(c: Connection)
    requires BasicsAreWellFormed(c)
    ensures AllNoBreak(BasicLines(c))
  {
    hide IsPlain, IsKeyName, ItemLine, ListLine, AllNoBreak, AreListWords, Lower, SetInterface;
    SetPrivateKey(START, "");
    SetAddress(START, "");
    SetListenPort(START, "");
    SetMtu(START, "");
    SetFwMark(START, "");
    SetDns(START, "");
    ItemNoBreak("PrivateKey", c.privateKey);
    ListNoBreak("Address", c.addresses);
    ItemNoBreak("ListenPort", c.listenPort);
    ItemNoBreak("MTU", c.mtu);
    ItemNoBreak("FwMark", c.fwmark);
    ListNoBreak("DNS", c.dns);
    FixedNoBreak();
    var dns := ListLine("DNS", c.dns);
    NoBreakAppend(ItemLine("FwMark", c.fwmark), dns);
    var fwmark := ItemLine("FwMark", c.fwmark) + dns;
    NoBreakAppend(ItemLine("MTU", c.mtu), fwmark);
    var mtu := ItemLine("MTU", c.mtu) + fwmark;
    NoBreakAppend(ItemLine("ListenPort", c.listenPort), mtu);
    var port := ItemLine("ListenPort", c.listenPort) + mtu;
    NoBreakAppend(ListLine("Address", c.addresses), port);
    var address := ListLine("Address", c.addresses) + port;
    NoBreakAppend(ItemLine("PrivateKey", c.privateKey), address);
    NoBreakAppend(["[Interface]"], ItemLine("PrivateKey", c.privateKey) + address);
  }

  lemma FixedNoBreak()
    ensures AllNoBreak(["[Interface]"]) && AllNoBreak(["", "[Peer]"]) && AllNoBreak([]) && AllNoBreak([""])
  {
  }

  lemma {:induction false} AwgNoBreak(awg: map<string, string>, k: nat)
    requires AwgIsWellFormed(awg) && k <= |OPTIONS|
    ensures AllNoBreak(AwgLines(awg, k))
  {
    hide OPTIONS, LOWER, IsPlain, IsKeyName, ItemLine, NoBreak, Lower;
    if k > 0 {
      AwgNoBreak(awg, k - 1);
      OptionKey(k - 1);
      var o := OPTIONS[k - 1];
      if o.0 in awg {
        ItemNoBreak(o.1, awg[o.0]);
      }
    }
  }

  lemma PeerNoBreak(p: Peer)
    requires PeerIsWellFormed(p)
    ensures AllNoBreak(PeerLines(p))
  {
    hide IsPlain, IsKeyName, ItemLine, ListLine, AllNoBreak, AreListWords, Lower, SetPeer, ValidKey, ValidAddress, EndpointOf,
         EndpointIsWellFormed, ParseEndpoint;
    SetPublicKey(NO_PEER, "");
    SetPeerPrivateKey(NO_PEER, "");
    PresharedKeyKey();
    AllowedIpsKey();
    EndpointKey();
    KeepaliveKey();
    EndpointRead(p);
    ItemNoBreak("PublicKey", p.publicKey);
    ItemNoBreak("PrivateKey", p.privateKey);
    ItemNoBreak("PresharedKey", p.presharedKey);
    ListNoBreak("AllowedIPs", p.allowedIps);
    ItemNoBreak("Endpoint", EndpointOf(p));
    ItemNoBreak("PersistentKeepalive", p.keepalive);
    FixedNoBreak();
    var alive := ItemLine("PersistentKeepalive", p.keepalive);
    NoBreakAppend(ItemLine("Endpoint", EndpointOf(p)), alive);
    var endpoint := ItemLine("Endpoint", EndpointOf(p)) + alive;
    NoBreakAppend(ListLine("AllowedIPs", p.allowedIps), endpoint);
    var ips := ListLine("AllowedIPs", p.allowedIps) + endpoint;
    NoBreakAppend(ItemLine("PresharedKey", p.presharedKey), ips);
    var preshared := ItemLine("PresharedKey", p.presharedKey) + ips;
    NoBreakAppend(ItemLine("PrivateKey", p.privateKey), preshared);
    var private := ItemLine("PrivateKey", p.privateKey) + preshared;
    NoBreakAppend(ItemLine("PublicKey", p.publicKey), private);
    NoBreakAppend(["", "[Peer]"], ItemLine("PublicKey", p.publicKey) + private);
  }

  lemma {:induction false} PeersNoBreak(peers: seq<Peer>)
    requires PeersAreWellFormed(peers)
    ensures AllNoBreak(PeersLines(peers))
  {
    hide PeerLines, PeerIsWellFormed, AllNoBreak;
    FixedNoBreak();
    if peers != [] {
      PeersNoBreak(peers[..|peers| - 1]);
      PeerNoBreak(peers[|peers| - 1]);
      NoBreakAppend(PeersLines(peers[..|peers| - 1]), PeerLines(peers[|peers| - 1]));
    }
  }

  /** Lines without breaks are the lines of their text. */
  lemma LinesOfText(lines: seq<string>)
    requires lines != [] && AllNoBreak(lines)
    ensures TextLines(Join(lines, "\n") + "\n") == lines + [""]
  {
    var parts := lines + [""];
    JoinSnoc(lines, "", "\n");
    assert Join(parts, "\n") == Join(lines, "\n") + "\n";
    forall k | 0 <= k < |parts|
      ensures '\n' !in parts[k] && Chomp(parts[k]) == parts[k]
    {
      assert NoBreak(parts[k]);
    }
    SplitJoin(parts, '\n');
  }

  /** The draft a well-formed connection is read back into. */
  lemma DraftRead(c: Connection)
    requires IsWellFormed(c)
    ensures var d := Run(START, InterfaceLines(c) + PeersLines(c.peers));
      && d == BasicDraft(c).(section := d.section, protocol := c.protocol, awg := c.awg, peers := PeersOf(c.peers))
  {
    hide OPTIONS, BasicLines, PeersLines, AwgLines, BasicsAreWellFormed, AwgIsWellFormed, PeersAreWellFormed, AreAddresses, ValidKey,
         Run, PeersOf, Restricted;
    BasicsRead(c);
    var d := BasicDraft(c);
    RestrictedAll(c.awg);
    if c.protocol == Awg {
      RunAppend(START, BasicLines(c), AwgLines(c.awg, |OPTIONS|));
      AwgRead(d, c.awg, |OPTIONS|);
    } else {
      assert BasicLines(c) + [] == BasicLines(c);
    }
    RunAppend(START, InterfaceLines(c), PeersLines(c.peers));
    PeersRead(Run(START, InterfaceLines(c)), c.peers);
    assert [] + PeersOf(c.peers) == PeersOf(c.peers);
  }

  lemma PeersAreValid(peers: seq<Peer>)
    requires PeersAreWellFormed(peers)
    ensures forall k :: 0 <= k < |PeersOf(peers)| ==> PeerIsValid(PeersOf(peers)[k])
  {
    hide PeerIsValid, PeerIsWellFormed;
    forall k | 0 <= k < |peers|
      ensures PeerIsValid(PeersOf(peers)[k])
    {
      PeerValid(peers[k]);
    }
  }

  lemma PeerValid(p: Peer)
    requires PeerIsWellFormed(p)
    ensures PeerIsValid(PeerOf(p))
  {
    hide ValidKey, ValidAddress, IsPlain, Survives, IsListWord, EndpointText;
    if p.endpointHost != "" {
      HostValid(p.endpointHost);
      PortOptional();
    }
  }

  lemma PortOptional()
    ensures ValidPort("", true)
  {
    assert Trim("") == "";
  }

  lemma HostValid(host: string)
    requires AllHostChars(host)
    ensures ValidHost(host)
  {
    var v := Trim(host);
    var n := Indent(host);
    assert forall k :: 0 <= k < |v| ==> v[k] == host[n + k];
  }

  /** Importing an export restores the connection. */
  lemma ExportImport(c: Connection)
    requires IsWellFormed(c)
    ensures Parsed(Serialized(c)) == Some(Exported(c))
  {
    hide OPTIONS, BasicLines, PeersLines, AwgLines, BasicsAreWellFormed, AwgIsWellFormed, PeersAreWellFormed, ValidKey, AllNoBreak,
         Run, PeersOf, PeerIsValid, TextLines, ValidAddress, AreListWords, Join;
    BasicsNoBreak(c);
    AwgNoBreak(c.awg, |OPTIONS|);
    PeersNoBreak(c.peers);
    FixedNoBreak();
    NoBreakAppend(BasicLines(c), if c.protocol == Awg then AwgLines(c.awg, |OPTIONS|) else []);
    NoBreakAppend(InterfaceLines(c), PeersLines(c.peers));
    var lines := InterfaceLines(c) + PeersLines(c.peers);
    SomeLines(c);
    LinesOfText(lines);
    DraftRead(c);
    RunAppend(START, lines, [""]);
    LastEmpty(Run(START, lines));
    PeersAreValid(c.peers);
    ExportedPeers(c);
    var d := Run(START, lines);
    assert DraftIsValid(d);
    assert Finished(d).value.peers == Exported(c).peers;
  }

  lemma SomeLines(c: Connection)
    ensures InterfaceLines(c) + PeersLines(c.peers) != []
  {
  }

  lemma LastEmpty(d: Draft)
    ensures Run(d, [""]) == d
  {
    RunOne(d, "");
    HeadersRead();
  }

  lemma ExportedPeers(c: Connection)
    ensures |PeersOf(c.peers)| == |c.peers|
    ensures forall k :: 0 <= k < |c.peers| ==> PeersOf(c.peers)[k].peer == Exported(c).peers[k]
  {
  }

  // ---------- comments ----------

  /** A comment: white space, a comment sign and anything else in the line. */
  ghost predicate IsComment(s: string) {
    NoBreak(s) && Indent(s) < |s| && (s[Indent(s)] == '#' || s[Indent(s)] == ';')
  }

  /** A line, or one with a comment behind it. */
  ghost predicate IsCommented(line: string, raw: string) {
    raw == line || exists comment :: IsComment(comment) && raw == line + comment
  }

  lemma {:induction false} UncommentedSpace(comment: string)
    requires IsComment(comment)
    ensures Uncommented(comment) == comment[..Indent(comment)]
  {
    if Indent(comment) == 0 {
    } else {
      assert comment[1..][Indent(comment) - 1] == comment[Indent(comment)];
      assert Indent(comment[1..]) == Indent(comment) - 1;
      UncommentedSpace(comment[1..]);
      assert comment[0] != '#' && comment[0] != ';';
    }
  }

  lemma {:induction false} UncommentedThen(line: string, comment: string)
    requires NoBreak(line) && IsComment(comment)
    ensures Uncommented(line + comment) == Uncommented(line)
      || Uncommented(line + comment) == Uncommented(line) + comment[..Indent(comment)]
  {
    if line == "" {
      UncommentedSpace(comment);
      assert line + comment == comment;
    } else {
      assert (line + comment)[1..] == line[1..] + comment;
      assert NoBreak(line + comment);
      UncommentedThen(line[1..], comment);
    }
  }

  lemma TrimmedThen(s: string, blank: string)
    requires forall k :: 0 <= k < |blank| ==> IsSpace(blank[k])
    ensures Trim(s + blank) == Trim(s)
  {
    if IsBlank(s) {
      BlankTrims(s);
      BlankTrims(s + blank);
    } else {
      var n := Indent(s);
      BlankIndent(s);
      IndentIs(s + blank, n);
      assert (s + blank)[n..] == s[n..] + blank;
      TrimEndThen(s[n..], blank);
    }
  }

  lemma BlankTrims(s: string)
    requires IsBlank(s)
    ensures Trim(s) == ""
  {
    IndentIs(s, |s|);
  }

  lemma BlankIndent(s: string)
    requires !IsBlank(s)
    ensures Indent(s) < |s|
  {
  }

  lemma {:induction false} TrimEndThen(s: string, blank: string)
    requires forall k :: 0 <= k < |blank| ==> IsSpace(blank[k])
    ensures TrimEnd(s + blank) == TrimEnd(s)
  {
    if blank == "" {
      assert s + blank == s;
    } else {
      var n := |blank| - 1;
      assert (s + blank)[..|s + blank| - 1] == s + blank[..n];
      TrimEndThen(s, blank[..n]);
    }
  }

  /** A comment behind a line, and the white space in front of it, change nothing. */
  lemma CommentIgnored(line: string, comment: string)
    requires NoBreak(line) && IsComment(comment)
    ensures Classify(line + comment) == Classify(line)
  {
    UncommentedThen(line, comment);
    TrimmedThen(Uncommented(line), comment[..Indent(comment)]);
    hide Uncommented, Trim, HeaderOf, ItemOf;
  }

  lemma {:induction false} CommentsIgnored(d: Draft, lines: seq<string>, raws: seq<string>)
    requires AllNoBreak(lines) && |raws| == |lines| && forall k :: 0 <= k < |lines| ==> IsCommented(lines[k], raws[k])
    ensures Run(d, raws) == Run(d, lines)
  {
    hide Classify, Step, NoBreak, IsComment;
    if lines != [] {
      var n := |lines| - 1;
      CommentsIgnored(d, lines[..n], raws[..n]);
      assert IsCommented(lines[n], raws[n]);
      if raws[n] != lines[n] {
        var comment :| IsComment(comment) && raws[n] == lines[n] + comment;
        CommentIgnored(lines[n], comment);
      }
    }
  }

  lemma CommentedNoBreak(lines: seq<string>, raws: seq<string>)
    requires AllNoBreak(lines) && |raws| == |lines| && forall k :: 0 <= k < |lines| ==> IsCommented(lines[k], raws[k])
    ensures AllNoBreak(raws)
  {
    forall k | 0 <= k < |raws|
      ensures NoBreak(raws[k])
    {
      assert IsCommented(lines[k], raws[k]) && NoBreak(lines[k]);
    }
  }

  /** A file is imported alike with and without comments behind its lines. */
  lemma CommentedImport(lines: seq<string>, raws: seq<string>)
    requires lines != [] && AllNoBreak(lines) && |raws| == |lines|
    requires forall k :: 0 <= k < |lines| ==> IsCommented(lines[k], raws[k])
    ensures Parsed(Join(raws, "\n") + "\n") == Parsed(Join(lines, "\n") + "\n")
  {
    CommentedNoBreak(lines, raws);
    LinesOfText(lines);
    LinesOfText(raws);
    CommentsIgnored(START, lines, raws);
    hide IsCommented, AllNoBreak, Finished, TextLines, Join;
    RunAppend(START, lines, [""]);
    RunAppend(START, raws, [""]);
  }
}
