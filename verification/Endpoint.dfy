/** Endpoints of WireGuard peers: host and port as one text, and exactly when they come apart again. */
module Endpoint {
  import opened Wrappers
  import opened Text

  datatype HostPort = HostPort(host: string, port: string)

  /** The position of the last colon. */
  function LastColon(s: string): (i: Option<nat>)
    ensures i.Some? ==> i.value < |s| && s[i.value] == ':' && forall k :: i.value < k < |s| ==> s[k] != ':'
    ensures i == None ==> ':' !in s
  {
    if s == "" then None else if s[|s| - 1] == ':' then Some(|s| - 1) else LastColon(s[..|s| - 1])
  }

  /** A host in brackets, with an optional port. */
  function Bracketed(value: string): Option<HostPort> {
    if value == "" || value[0] != '[' then None
    else
      var host := BeforeFirst(value[1..], ']');
      var rest := AfterFirst(value[1..], ']');
      if host == "" || rest == None then None
      else if rest.value == "" then Some(HostPort(host, ""))
      else if rest.value[0] == ':' && IsNumeral(rest.value[1..]) then Some(HostPort(host, rest.value[1..]))
      else None
  }

  /** A host and the port behind its last colon. */
  function Unbracketed(value: string): HostPort {
    var i := LastColon(value);
    if i.Some? && IsNumeral(value[i.value + 1..]) then HostPort(value[..i.value], value[i.value + 1..])
    else HostPort(value, "")
  }

  function ParseEndpoint(text: string): HostPort {
    var value := Trim(text);
    if value == "" then HostPort("", "")
    else
      var b := Bracketed(value);
      if b.Some? then b.value else Unbracketed(value)
  }

  /** endpointText, for a host that is not empty: an address with colons gets brackets. */
  function EndpointText(host: string, port: string): string
    requires host != ""
  {
    var displayed := if ':' in host && host[0] != '[' then "[" + host + "]" else host;
    if port != "" then displayed + ":" + port else displayed
  }

  predicate IsTrimmed(s: string) {
    s != "" && !IsSpace(s[0]) && !IsSpace(s[|s| - 1])
  }

  /** Hosts whose text, with this port, is read back. */
  predicate Survives(host: string, port: string)
    requires host != ""
  {
    if ':' in host && host[0] != '[' then ']' !in host
    else if port == "" then IsTrimmed(host) && Bracketed(host) == None && Unbracketed(host).port == ""
    else !IsSpace(host[0]) && Bracketed(host + ":" + port) == None
  }

  lemma {:induction false} LastColonIs(a: string, b: string)
    requires ':' !in b
    ensures LastColon(a + ":" + b) == Some(|a|)
  {
    var s := a + ":" + b;
    if b == "" {
      assert s[|s| - 1] == ':';
    } else {
      assert s[..|s| - 1] == a + ":" + b[..|b| - 1];
      LastColonIs(a, b[..|b| - 1]);
    }
  }

  function PortTail(port: string): string {
    if port == "" then "" else ":" + port
  }

  lemma BracketsReadBack(host: string, port: string)
    requires host != "" && (port == "" || IsNumeral(port))
    ensures ParseEndpoint("[" + host + "]" + PortTail(port)) == HostPort(host, port) <==> ']' !in host
  {
    var tail := PortTail(port);
    var text := "[" + host + "]" + tail;
    assert port != "" ==> tail[1..] == port;
    assert port != "" ==> IsDigit(port[|port| - 1]);
    TrimVisible(text);
    if ']' !in host {
      assert text[1..] == host + [']'] + tail;
      FirstAt(host, ']', tail);
    } else {
      BracketInHost(host, tail);
      FallBack(text, host);
    }
  }

  lemma BracketInHost(host: string, tail: string)
    requires ']' in host
    ensures Bracketed("[" + host + "]" + tail) == None
  {
    var text := "[" + host + "]" + tail;
    var inner := FirstSplit(host, ']');
    var last := host[|inner| + 1..];
    var rest := last + [']'] + tail;
    assert host == inner + [']'] + last;
    assert text[1..] == inner + [']'] + rest;
    FirstAt(inner, ']', rest);
    assert rest[|last|] == ']';
    BracketInside(rest, |last|);
  }

  lemma {:induction false} FirstSplit(s: string, c: char) returns (a: string)
    requires c in s
    ensures |a| < |s| && a == s[..|a|] && s[|a|] == c && c !in a
  {
    if s[0] == c {
      a := "";
    } else {
      a := FirstSplit(s[1..], c);
      a := [s[0]] + a;
    }
  }

  lemma BracketInside(rest: string, k: nat)
    requires k < |rest| && rest[k] == ']'
    ensures rest != "" && !(rest[0] == ':' && IsNumeral(rest[1..]))
  {
    if k > 0 {
      assert rest[1..][k - 1] == ']';
    }
  }

  /** Read without the form in brackets, the host keeps its first bracket. */
  lemma FallBack(text: string, host: string)
    requires text != "" && text[0] == '[' && |text| > |host| + 1 && text[1..|host| + 1] == host && text[|host| + 1] == ']'
    ensures Unbracketed(text).host != host
  {
    var i := LastColon(text);
    if i.Some? && i.value <= |host| {
      EarlyColon(text, i.value, |host| + 1);
    }
  }

  lemma EarlyColon(text: string, i: nat, k: nat)
    requires i < k < |text| && text[k] == ']'
    ensures !IsNumeral(text[i + 1..])
  {
    assert text[i + 1..][k - i - 1] == ']';
  }

  lemma PlainReadBack(host: string, port: string)
    requires host != "" && !(':' in host && host[0] != '[') && (port == "" || IsNumeral(port))
    ensures ParseEndpoint(EndpointText(host, port)) == HostPort(host, port) <==> Survives(host, port)
  {
    if port == "" {
      if IsTrimmed(host) {
        TrimVisible(host);
        BracketedShorter(host);
      } else {
        TrimChanges(host);
        ReadWithin(host);
      }
    } else {
      var text := host + ":" + port;
      assert forall k :: 0 <= k < |port| ==> IsDigit(port[k]);
      if IsSpace(host[0]) {
        LeadingSpace(host, port);
      } else {
        TrimVisible(text);
        LastColonIs(host, port);
        assert text[|host| + 1..] == port && text[..|host|] == host;
        BracketedShorterWithPort(host, port);
      }
    }
  }

  lemma {:induction false} BeforeFirstShorter(s: string, c: char)
    ensures |BeforeFirst(s, c)| <= |s|
    ensures AfterFirst(s, c).Some? ==> |BeforeFirst(s, c)| + 1 + |AfterFirst(s, c).value| == |s|
  {
    if s != "" {
      BeforeFirstShorter(s[1..], c);
    }
  }

  lemma BracketedShorter(value: string)
    ensures Bracketed(value).Some? ==> |Bracketed(value).value.host| < |value|
  {
    if value != "" {
      BeforeFirstShorter(value[1..], ']');
    }
  }

  lemma BracketedShorterWithPort(host: string, port: string)
    requires port != ""
    ensures Bracketed(host + ":" + port) != Some(HostPort(host, port))
  {
    var value := host + ":" + port;
    BeforeFirstShorter(value[1..], ']');
  }

  lemma TrimChanges(s: string)
    requires s != "" && !IsTrimmed(s)
    ensures |Trim(s)| < |s|
  {
    if IsSpace(s[0]) {
      assert Indent(s) > 0;
    } else {
      IndentIs(s, 0);
      assert s[0..] == s;
    }
  }

  lemma ReadWithin(text: string)
    ensures |ParseEndpoint(text).host| <= |Trim(text)|
  {
    BracketedShorter(Trim(text));
  }

  lemma LeadingSpace(host: string, port: string)
    requires host != "" && IsSpace(host[0]) && IsNumeral(port)
    ensures ParseEndpoint(host + ":" + port) != HostPort(host, port)
  {
    var text := host + ":" + port;
    assert Indent(text) > 0;
    var value := Trim(text);
    assert |value| < |text|;
    BeforeFirstShorter(if value == "" then "" else value[1..], ']');
  }

  lemma BracketedText(host: string, port: string)
    requires host != "" && ':' in host && host[0] != '['
    ensures EndpointText(host, port) == "[" + host + "]" + PortTail(port)
  {
    if port != "" {
      var shown := "[" + host + "]";
      assert shown + ":" + port == shown + (":" + port);
    }
  }

  /** An endpoint is read back exactly when its host survives. */
  lemma EndpointRoundTrip(host: string, port: string)
    requires host != "" && (port == "" || IsNumeral(port))
    ensures ParseEndpoint(EndpointText(host, port)) == HostPort(host, port) <==> Survives(host, port)
  {
    hide ParseEndpoint, Bracketed, Unbracketed, IsTrimmed, EndpointText;
    if ':' in host && host[0] != '[' {
      BracketedText(host, port);
      BracketsReadBack(host, port);
    } else {
      PlainReadBack(host, port);
    }
  }
}
