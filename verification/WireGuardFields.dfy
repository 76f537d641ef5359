/** What the validators of WireGuard fields accept: keys of 32 bytes, and ports. */
module WireGuardFields {
  import opened Wrappers
  import opened Text
  import opened WireGuard

  // ---------- keys ----------

  predicate AreBytes(b: seq<nat>) {
    forall k :: 0 <= k < |b| ==> b[k] < 256
  }

  /** The characters of base 64 (table 1 of RFC 4648). */
  function Character(n: nat): char
    requires n < 64
  {
    if n < 26 then 'A' + n as char
    else if n < 52 then 'a' + (n - 26) as char
    else if n < 62 then '0' + (n - 52) as char
    else if n == 62 then '+'
    else '/'
  }

  /** Base 64 with padding (section 4 of RFC 4648). */
  function Base64(b: seq<nat>): string
    requires AreBytes(b)
  {
    if |b| == 0 then ""
    else if |b| == 1 then [Character(b[0] / 4), Character(b[0] % 4 * 16), '=', '=']
    else if |b| == 2 then [Character(b[0] / 4), Character(b[0] % 4 * 16 + b[1] / 16), Character(b[1] % 16 * 4), '=']
    else
      [Character(b[0] / 4), Character(b[0] % 4 * 16 + b[1] / 16), Character(b[1] % 16 * 4 + b[2] / 64), Character(b[2] % 64)]
      + Base64(b[3..])
  }

  lemma CharacterShape(n: nat)
    requires n < 64
    ensures IsKeyChar(Character(n))
  {
  }

  /** Signs of padding at the end. */
  function Padding(n: nat): nat {
    if n % 3 == 0 then 0 else 3 - n % 3
  }

  function EncodedLength(n: nat): nat {
    4 * ((n + 2) / 3)
  }

  lemma ThreeMore(n: nat)
    ensures EncodedLength(n + 3) == EncodedLength(n) + 4 && Padding(n + 3) == Padding(n)
  {
    OneMore(n);
    OneMore(n + 2);
  }

  lemma OneMore(n: nat)
    ensures (n + 3) / 3 == n / 3 + 1 && (n + 3) % 3 == n % 3
  {
  }

  /** Four characters for three bytes, with padding at the end. */
  ghost predicate IsPadded(t: string, length: nat, padding: nat) {
    && |t| == length && padding <= length
    && (forall k :: 0 <= k < length - padding ==> IsKeyChar(t[k]))
    && (forall k :: length - padding <= k < length ==> t[k] == '=')
  }

  lemma {:induction false} Base64Shape(b: seq<nat>)
    requires AreBytes(b)
    ensures IsPadded(Base64(b), EncodedLength(|b|), Padding(|b|))
    decreases |b|
  {
    hide Character, IsKeyChar;
    if |b| >= 3 {
      Base64Shape(b[3..]);
      ThreeMore(|b[3..]|);
      FirstFour(b);
      assert Base64(b) == Base64(b)[..4] + Base64(b[3..]);
      hide Base64, EncodedLength, Padding;
      FourAndRest(Base64(b)[..4], Base64(b[3..]), EncodedLength(|b[3..]|), Padding(|b[3..]|));
    } else if |b| > 0 {
      LastFour(b);
    }
  }

  lemma FirstFour(b: seq<nat>)
    requires AreBytes(b) && |b| >= 3
    ensures |Base64(b)| >= 4 && forall k :: 0 <= k < 4 ==> IsKeyChar(Base64(b)[k])
  {
    CharacterShape(b[0] / 4);
    CharacterShape(b[0] % 4 * 16 + b[1] / 16);
    CharacterShape(b[1] % 16 * 4 + b[2] / 64);
    CharacterShape(b[2] % 64);
    hide Character, IsKeyChar;
  }

  lemma LastFour(b: seq<nat>)
    requires AreBytes(b) && 1 <= |b| <= 2
    ensures IsPadded(Base64(b), 4, 3 - |b|)
  {
    CharacterShape(b[0] / 4);
    if |b| == 1 {
      CharacterShape(b[0] % 4 * 16);
    } else {
      CharacterShape(b[0] % 4 * 16 + b[1] / 16);
      CharacterShape(b[1] % 16 * 4);
    }
    hide Character, IsKeyChar;
  }

  lemma FourAndRest(four: string, rest: string, length: nat, padding: nat)
    requires |four| == 4 && (forall k :: 0 <= k < 4 ==> IsKeyChar(four[k])) && IsPadded(rest, length, padding)
    ensures IsPadded(four + rest, length + 4, padding)
  {
    hide IsKeyChar;
  }

  /** The text of some bytes is accepted as a key exactly if there are 32 of them, or if it is the word for a new key. */
  lemma KeysAccepted(b: seq<nat>)
    requires AreBytes(b)
    ensures ValidKey(Base64(b), false) <==> |b| == 32 || Base64(b) == "generate"
  {
    Base64Shape(b);
    hide Base64, IsKeyChar, Trim, IsPadded, EncodedLength, Padding;
    KeyTrimmed(Base64(b), EncodedLength(|b|), Padding(|b|));
    PaddedKey(Base64(b), |b|);
  }

  lemma PaddedKey(t: string, n: nat)
    requires IsPadded(t, EncodedLength(n), Padding(n))
    ensures (|t| == 44 && t[43] == '=' && forall k :: 0 <= k < 43 ==> IsKeyChar(t[k])) <==> n == 32
  {
    EqualsNoKey();
    hide IsKeyChar;
    if |t| == 44 {
      assert 31 <= n <= 33;
      assert n == 31 ==> t[42] == '=';
    }
  }

  lemma KeyTrimmed(t: string, length: nat, padding: nat)
    requires IsPadded(t, length, padding)
    ensures Trim(t) == t
  {
    if t == "" {
      NothingTrimmed();
    } else {
      assert t[0] == '=' || IsKeyChar(t[0]);
      assert t[|t| - 1] == '=' || IsKeyChar(t[|t| - 1]);
      TrimVisible(t);
    }
  }

  lemma EqualsNoKey()
    ensures !IsKeyChar('=')
  {
  }

  lemma NothingTrimmed()
    ensures Trim("") == ""
  {
  }

  // ---------- ports ----------

  /** A number is accepted as a port exactly if it is one. */
  lemma PortsAccepted(n: nat)
    ensures ValidPort(Decimal(n), false) <==> 1 <= n <= 65535
  {
    ParseOfDecimal(n);
    var t := Decimal(n);
    assert forall k :: 0 <= k < |t| ==> IsDigit(t[k]) && !IsSpace(t[k]);
    TrimVisible(t);
    hide Trim, Decimal;
  }
}
