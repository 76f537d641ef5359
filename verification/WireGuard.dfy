/** WireGuard and AmneziaWG configurations: reading a file line by line, writing one, and reading back what
    was written. */
module WireGuard {
  import opened Wrappers
  import opened Text
  import opened Ipv4
  import opened Ipv6
  import opened Endpoint

  datatype Protocol = Wg | Awg

  datatype Peer = Peer(publicKey: string, privateKey: string, presharedKey: string, allowedIps: seq<string>,
                       endpointHost: string, endpointPort: string, keepalive: string, routeAllowed: bool)

  datatype Connection = Connection(protocol: Protocol, privateKey: string, addresses: seq<string>, listenPort: string,
                                   mtu: string, fwmark: string, dns: seq<string>, awg: map<string, string>, peers: seq<Peer>)

  /** The options of AmneziaWG and their names in a file. */
  const OPTIONS: seq<(string, string)> :=
    [("awg_jc", "Jc"), ("awg_jmin", "Jmin"), ("awg_jmax", "Jmax"), ("awg_s1", "S1"), ("awg_s2", "S2"),
     ("awg_h1", "H1"), ("awg_h2", "H2"), ("awg_h3", "H3"), ("awg_h4", "H4")]

  // ---------- validators ----------

  predicate IsKeyChar(c: char) {
    IsLetter(c) || IsDigit(c) || c == '+' || c == '/'
  }

  predicate ValidKey(value: string, optional: bool) {
    var v := Trim(value);
    || (optional && v == "") || v == "generate"
    || (|v| == 44 && v[43] == '=' && forall k :: 0 <= k < 43 ==> IsKeyChar(v[k]))
  }

  predicate ValidAddress(value: string) {
    var v := Trim(value);
    if ':' in v then SplitIpv6(v, None).Some?
    else
      var parts := Split(v, '/');
      || (|parts| == 1 && ValidIpv4(parts[0]))
      || (|parts| == 2 && ValidIpv4(parts[0]) && IsNumeral(parts[1]) && ParseDecimal(parts[1]) <= 32)
  }

  predicate IsHostChar(c: char) {
    IsLetter(c) || IsDigit(c) || c == '.' || c == '_' || c == ':' || c == '[' || c == ']' || c == '%' || c == '~' || c == '-'
  }

  predicate ValidHost(value: string) {
    var v := Trim(value);
    forall k :: 0 <= k < |v| ==> IsHostChar(v[k])
  }

  predicate ValidPort(value: string, optional: bool) {
    var v := Trim(value);
    (optional && v == "") || (IsNumeral(v) && 0 < ParseDecimal(v) <= 65535)
  }

  // ---------- lists ----------

  predicate IsBreaker(c: char) {
    IsSpace(c) || c == ','
  }

  function FirstWord(s: string): (n: nat)
    ensures n <= |s|
  {
    if s == "" || IsBreaker(s[0]) then 0 else 1 + FirstWord(s[1..])
  }

  /** The words between white space and commas. */
  function ParseList(s: string): seq<string>
    decreases |s|
  {
    if s == "" then []
    else if IsBreaker(s[0]) then ParseList(s[1..])
    else
      var n := FirstWord(s);
      [s[..n]] + ParseList(s[n..])
  }

  predicate IsWord(s: string) {
    s != "" && forall k :: 0 <= k < |s| ==> !IsBreaker(s[k])
  }

  lemma {:induction false} FirstWordIs(w: string, rest: string)
    requires (forall k :: 0 <= k < |w| ==> !IsBreaker(w[k])) && (rest == "" || IsBreaker(rest[0]))
    ensures FirstWord(w + rest) == |w|
  {
    if w != "" {
      assert (w + rest)[1..] == w[1..] + rest;
      FirstWordIs(w[1..], rest);
    } else {
      assert w + rest == rest;
    }
  }

  /** Words joined by commas are read back. */
  lemma {:induction false} ListRoundTrip(words: seq<string>)
    requires forall k :: 0 <= k < |words| ==> IsWord(words[k])
    ensures ParseList(Join(words, ", ")) == words
  {
    if words != [] {
      var w := words[0];
      assert IsWord(w);
      if |words| == 1 {
        WordThen(w, "");
        assert w + "" == w;
      } else {
        var rest := Join(words[1..], ", ");
        WordThen(w, ", " + rest);
        assert w + ", " + rest == w + (", " + rest);
        ListRoundTrip(words[1..]);
        SkipComma(rest);
      }
    }
  }

  lemma WordThen(w: string, rest: string)
    requires IsWord(w) && (rest == "" || IsBreaker(rest[0]))
    ensures ParseList(w + rest) == [w] + ParseList(rest)
  {
    FirstWordIs(w, rest);
    assert (w + rest)[..|w|] == w && (w + rest)[|w|..] == rest;
  }

  lemma SkipComma(rest: string)
    ensures ParseList(", " + rest) == ParseList(rest)
  {
    assert (", " + rest)[1..] == " " + rest && (" " + rest)[1..] == rest;
  }

  // ---------- lines ----------

  /** Up to the first # or ; with no line break behind it. */
  function Uncommented(s: string): string {
    if s == "" || ((s[0] == '#' || s[0] == ';') && NoBreak(s)) then "" else [s[0]] + Uncommented(s[1..])
  }

  datatype SectionKind = Outside | Interface | PeerSection

  datatype Line = Empty | Header(kind: SectionKind) | Item(key: string, value: string) | Unknown

  function HeaderOf(line: string): Option<SectionKind> {
    if |line| < 2 || line[0] != '[' || line[|line| - 1] != ']' then None
    else
      var name := Lower(Trim(line[1..|line| - 1]));
      if name == "interface" then Some(Interface) else if name == "peer" then Some(PeerSection) else None
  }

  function ItemOf(line: string): Line {
    var key := BeforeFirst(line, '=');
    var rest := AfterFirst(line, '=');
    if key == "" || rest == None || !NoBreak(rest.value[Indent(rest.value)..]) then Unknown
    else Item(Lower(Trim(key)), Trim(rest.value))
  }

  function Classify(raw: string): Line {
    var line := Trim(Uncommented(raw));
    if line == "" then Empty
    else if HeaderOf(line).Some? then Header(HeaderOf(line).value)
    else ItemOf(line)
  }

  // ---------- parseConfig ----------

  /** An endpoint is kept as written as well; addresses may be missing. */
  datatype PeerDraft = PeerDraft(peer: Peer, endpoint: string)

  datatype Draft = Draft(section: SectionKind, protocol: Protocol, privateKey: string, addresses: Option<seq<string>>,
                         listenPort: string, mtu: string, fwmark: string, dns: seq<string>, awg: map<string, string>,
                         peers: seq<PeerDraft>)

  const START := Draft(Outside, Wg, "", None, "", "", "", [], map[], [])
  const NO_PEER := PeerDraft(Peer("", "", "", [], "", "", "", false), "")

  function OptionNamed(key: string, k: nat): Option<string>
    requires k <= |OPTIONS|
    decreases |OPTIONS| - k
  {
    if k == |OPTIONS| then None
    else if Lower(OPTIONS[k].1) == key then Some(OPTIONS[k].0)
    else OptionNamed(key, k + 1)
  }

  /** The lookup is in a plain object, which inherits two names that are all lower case. */
  function KnownAwg(key: string): Option<string> {
    if key == "constructor" then Some("function Object() { [native code] }")
    else if key == "__proto__" then Some("[object Object]")
    else OptionNamed(key, 0)
  }

  function SetInterface(d: Draft, key: string, value: string): Draft {
    if key == "privatekey" then d.(privateKey := value)
    else if key == "address" || key == "addresses" then d.(addresses := Some(ParseList(value)))
    else if key == "listenport" then d.(listenPort := value)
    else if key == "mtu" then d.(mtu := value)
    else if key == "fwmark" then d.(fwmark := value)
    else if key == "dns" then d.(dns := ParseList(value))
    else
      var option := KnownAwg(key);
      if option.Some? then d.(awg := d.awg[option.value := value], protocol := Awg) else d
  }

  function SetPeer(p: PeerDraft, key: string, value: string): PeerDraft {
    if key == "publickey" then p.(peer := p.peer.(publicKey := value))
    else if key == "privatekey" then p.(peer := p.peer.(privateKey := value))
    else if key == "presharedkey" then p.(peer := p.peer.(presharedKey := value))
    else if key == "allowedips" then p.(peer := p.peer.(allowedIps := ParseList(value)))
    else if key == "endpoint" then
      var e := ParseEndpoint(value);
      PeerDraft(p.peer.(endpointHost := e.host, endpointPort := e.port), value)
    else if key == "persistentkeepalive" then p.(peer := p.peer.(keepalive := value))
    else if key == "routeallowedips" then p.(peer := p.peer.(routeAllowed := value == "1" || Lower(value) == "true"))
    else p
  }

  /** What one line does. Items before the first section, and lines of no known form, do nothing. */
  function Step(d: Draft, line: Line): Draft {
    match line
    case Header(Interface) => d.(section := Interface)
    case Header(PeerSection) => d.(section := PeerSection, peers := d.peers + [NO_PEER])
    case Item(key, value) =>
      if d.section == Interface then SetInterface(d, key, value)
      else if d.section == PeerSection && d.peers != [] then
        var last := |d.peers| - 1;
        d.(peers := d.peers[..last] + [SetPeer(d.peers[last], key, value)])
      else d
    case _ => d
  }

  function Run(d: Draft, lines: seq<string>): Draft {
    if lines == [] then d else Step(Run(d, lines[..|lines| - 1]), Classify(lines[|lines| - 1]))
  }

  predicate PeerIsValid(p: PeerDraft) {
    && p.peer.publicKey != "" && ValidKey(p.peer.publicKey, false)
    && (p.peer.presharedKey == "" || ValidKey(p.peer.presharedKey, true))
    && (forall k :: 0 <= k < |p.peer.allowedIps| ==> ValidAddress(p.peer.allowedIps[k]))
    && (p.endpoint == "" || (p.peer.endpointHost != "" && ValidHost(p.peer.endpointHost) && ValidPort(p.peer.endpointPort, true)))
  }

  predicate DraftIsValid(d: Draft) {
    && d.privateKey != "" && ValidKey(d.privateKey, false)
    && d.addresses.Some? && (forall k :: 0 <= k < |d.addresses.value| ==> ValidAddress(d.addresses.value[k]))
    && (forall k :: 0 <= k < |d.peers| ==> PeerIsValid(d.peers[k]))
  }

  function Finished(d: Draft): Option<Connection> {
    if !DraftIsValid(d) then None
    else Some(Connection(d.protocol, d.privateKey, d.addresses.value, d.listenPort, d.mtu, d.fwmark, d.dns, d.awg,
                         seq(|d.peers|, i requires 0 <= i < |d.peers| => d.peers[i].peer)))
  }

  /** text.split(/\r?\n/): a carriage return in front of a line break belongs to the break. */
  function TextLines(text: string): seq<string> {
    var parts := Split(text, '\n');
    seq(|parts|, i requires 0 <= i < |parts| => if i + 1 < |parts| then Chomp(parts[i]) else parts[i])
  }

  function Chomp(s: string): string {
    if s != "" && s[|s| - 1] == '\r' then s[..|s| - 1] else s
  }

  /** None stands for the error message. */
  function Parsed(text: string): Option<Connection> {
    Finished(Run(START, TextLines(text)))
  }

  method ParseConfig(text: string) returns (connection: Option<Connection>)
    ensures connection == Parsed(text)
  {
    hide Step, Classify;
    var lines := TextLines(text);
    var d := START;
    for k := 0 to |lines|
      invariant d == Run(START, lines[..k])
    {
      assert lines[..k + 1][..k] == lines[..k];
      d := Step(d, Classify(lines[k]));
    }
    assert lines[..|lines|] == lines;
    connection := Finished(d);
  }

  // ---------- serializeConfig ----------

  /** A line is left out when its value is empty. */
  function ItemLine(key: string, value: string): seq<string> {
    if value == "" then [] else [key + " = " + value]
  }

  function ListLine(key: string, list: seq<string>): seq<string> {
    if list == [] then [] else [key + " = " + Join(list, ", ")]
  }

  function AwgLines(awg: map<string, string>, k: nat): seq<string>
    requires k <= |OPTIONS|
  {
    if k == 0 then []
    else
      var o := OPTIONS[k - 1];
      AwgLines(awg, k - 1) + (if o.0 in awg then ItemLine(o.1, awg[o.0]) else [])
  }

  function EndpointOf(p: Peer): string {
    if p.endpointHost == "" then "" else EndpointText(p.endpointHost, p.endpointPort)
  }

  function PeerLines(p: Peer): seq<string> {
    ["", "[Peer]"]
    + (ItemLine("PublicKey", p.publicKey) + (ItemLine("PrivateKey", p.privateKey) + (ItemLine("PresharedKey", p.presharedKey)
    + (ListLine("AllowedIPs", p.allowedIps) + (ItemLine("Endpoint", EndpointOf(p))
    + ItemLine("PersistentKeepalive", p.keepalive))))))
  }

  function PeersLines(peers: seq<Peer>): seq<string> {
    if peers == [] then [] else PeersLines(peers[..|peers| - 1]) + PeerLines(peers[|peers| - 1])
  }

  function BasicLines(c: Connection): seq<string> {
    ["[Interface]"]
    + (ItemLine("PrivateKey", c.privateKey) + (ListLine("Address", c.addresses) + (ItemLine("ListenPort", c.listenPort)
    + (ItemLine("MTU", c.mtu) + (ItemLine("FwMark", c.fwmark) + ListLine("DNS", c.dns))))))
  }

  function InterfaceLines(c: Connection): seq<string> {
    BasicLines(c) + (if c.protocol == Awg then AwgLines(c.awg, |OPTIONS|) else [])
  }

  function Serialized(c: Connection): string {
    Join(InterfaceLines(c) + PeersLines(c.peers), "\n") + "\n"
  }

  method PushAwg(lines: seq<string>, awg: map<string, string>) returns (out: seq<string>)
    ensures out == lines + AwgLines(awg, |OPTIONS|)
  {
    hide ItemLine;
    out := lines;
    for k := 0 to |OPTIONS|
      invariant out == lines + AwgLines(awg, k)
    {
      var o := OPTIONS[k];
      if o.0 in awg {
        out := out + ItemLine(o.1, awg[o.0]);
      }
    }
  }

  method PushPeers(lines: seq<string>, peers: seq<Peer>) returns (out: seq<string>)
    ensures out == lines + PeersLines(peers)
  {
    hide PeerLines;
    out := lines;
    for k := 0 to |peers|
      invariant out == lines + PeersLines(peers[..k])
    {
      assert peers[..k + 1][..k] == peers[..k];
      out := out + PeerLines(peers[k]);
    }
    assert peers[..|peers|] == peers;
  }

  method SerializeConfig(c: Connection) returns (text: string)
    ensures text == Serialized(c)
  {
    hide BasicLines, AwgLines, PeersLines;
    var lines := BasicLines(c);
    if c.protocol == Awg {
      lines := PushAwg(lines, c.awg);
    }
    assert lines == InterfaceLines(c);
    lines := PushPeers(lines, c.peers);
    text := Join(lines, "\n") + "\n";
  }
}
