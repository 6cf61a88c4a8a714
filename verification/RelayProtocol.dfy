/** computer_relay_protocol.py: host names, tokens and the bytes a relay proof signs. */
module RelayProtocol {
  import opened Wrappers

  type byte = x: int | 0 <= x < 256

  type Bytes = seq<byte>

  datatype Error = InvalidHostname | InvalidToken | InvalidPurpose

  // ----- Host names -----------------------------------------------------------------------------------

  predicate LetterOrDigit(c: char) {
    'a' <= c <= 'z' || '0' <= c <= '9'
  }

  predicate Label(part: string) {
    && 1 <= |part| <= 63 && LetterOrDigit(part[0]) && LetterOrDigit(part[|part| - 1])
    && forall c :: c in part ==> LetterOrDigit(c) || c == '-'
  }

  /** Where the first label ends. */
  function LabelEnd(host: string): (n: nat)
    ensures n <= |host| && forall c :: c in host[..n] ==> c != '.'
    ensures n < |host| ==> host[n] == '.'
  {
    if host == "" || host[0] == '.' then 0
    else
      var n := LabelEnd(host[1..]);
      assert host[..n + 1] == [host[0]] + host[1..][..n];
      n + 1
  }

  predicate AllLabels(host: string)
    decreases |host|
  {
    var n := LabelEnd(host);
    Label(host[..n]) && (n < |host| ==> AllLabels(host[n + 1..]))
  }

  /** `isAddress` tells IP addresses, which are no host names. */
  predicate DnsName(host: string, isAddress: string -> bool) {
    3 <= |host| <= 200 && '.' in host && AllLabels(host) && !isAddress(host)
  }

  lemma {:induction false} LabelsArePlain(host: string)
    requires AllLabels(host)
    ensures forall c :: c in host ==> LetterOrDigit(c) || c == '-' || c == '.'
    decreases |host|
  {
    var n := LabelEnd(host);
    if n < |host| {
      LabelsArePlain(host[n + 1..]);
      assert host == host[..n] + [host[n]] + host[n + 1..];
    } else {
      assert host == host[..n];
    }
  }

  // ----- Tokens -----------------------------------------------------------------------------------------

  type sextet = x: int | 0 <= x < 64

  function Letter(s: sextet): (c: char)
    ensures IsLetter(c) && Value(c) == s
  {
    if s < 26 then (65 + s) as char
    else if s < 52 then (71 + s) as char
    else if s < 62 then (s - 4) as char
    else if s == 62 then '-' else '_'
  }

  predicate IsLetter(c: char) {
    'A' <= c <= 'Z' || 'a' <= c <= 'z' || '0' <= c <= '9' || c == '-' || c == '_'
  }

  function Value(c: char): sextet
    requires IsLetter(c)
  {
    if 'A' <= c <= 'Z' then c as int - 65
    else if 'a' <= c <= 'z' then c as int - 71
    else if '0' <= c <= '9' then c as int + 4
    else if c == '-' then 62 else 63
  }

  function Sextets(b: Bytes): seq<sextet> {
    if b == [] then []
    else if |b| == 1 then [b[0] / 4, b[0] % 4 * 16]
    else if |b| == 2 then [b[0] / 4, b[0] % 4 * 16 + b[1] / 16, b[1] % 16 * 4]
    else [b[0] / 4, b[0] % 4 * 16 + b[1] / 16, b[1] % 16 * 4 + b[2] / 64, b[2] % 64] + Sextets(b[3..])
  }

  function Octet(a: sextet, b: sextet, k: int): (r: byte)
    requires k == 4 || k == 16 || k == 64
  {
    if k == 4 then a * 4 + b / 16 else if k == 16 then a % 16 * 16 + b / 4 else a % 4 * 64 + b
  }

  /** Bits that are left over are dropped. */
  function Octets(s: seq<sextet>): Bytes {
    if |s| < 2 then []
    else if |s| == 2 then [Octet(s[0], s[1], 4)]
    else if |s| == 3 then [Octet(s[0], s[1], 4), Octet(s[1], s[2], 16)]
    else [Octet(s[0], s[1], 4), Octet(s[1], s[2], 16), Octet(s[2], s[3], 64)] + Octets(s[4..])
  }

  lemma ThreeOctets(a: byte, b: byte, c: byte)
    ensures Octet(a / 4, a % 4 * 16 + b / 16, 4) == a
    ensures Octet(a % 4 * 16 + b / 16, b % 16 * 4 + c / 64, 16) == b
    ensures Octet(b % 16 * 4 + c / 64, c % 64, 64) == c
  {}

  lemma {:induction false} OctetsOfSextets(b: Bytes)
    ensures Octets(Sextets(b)) == b
    ensures |Sextets(b)| == |b| / 3 * 4 + (if |b| % 3 == 0 then 0 else |b| % 3 + 1)
  {
    if |b| >= 3 {
      ThreeOctets(b[0], b[1], b[2]);
      OctetsOfSextets(b[3..]);
      assert Sextets(b)[4..] == Sextets(b[3..]);
      assert b == [b[0], b[1], b[2]] + b[3..];
    } else if |b| == 2 {
      ThreeOctets(b[0], b[1], 0);
      assert b == [b[0], b[1]];
    } else if |b| == 1 {
      ThreeOctets(b[0], 0, 0);
      assert b == [b[0]];
    }
  }

  function Number(digits: seq<int>, base: int): int {
    if digits == [] then 0 else Number(digits[..|digits| - 1], base) * base + digits[|digits| - 1]
  }

  lemma NumberStep(digits: seq<int>, n: nat, base: int)
    requires n < |digits|
    ensures Number(digits[..n + 1], base) == Number(digits[..n], base) * base + digits[n]
    ensures Number(digits[..0], base) == 0
  {
    assert digits[..n + 1][..n] == digits[..n];
  }

  lemma NumberOf(digits: seq<int>, base: int)
    ensures |digits| >= 1 ==> Number(digits[..1], base) == digits[0]
    ensures |digits| >= 2 ==> Number(digits[..2], base) == digits[0] * base + digits[1]
    ensures |digits| >= 3 ==> Number(digits[..3], base) == (digits[0] * base + digits[1]) * base + digits[2]
    ensures |digits| >= 4 ==>
      Number(digits[..4], base) == ((digits[0] * base + digits[1]) * base + digits[2]) * base + digits[3]
  {
    hide Number;
    if |digits| >= 1 { NumberStep(digits, 0, base); }
    if |digits| >= 2 { NumberStep(digits, 1, base); }
    if |digits| >= 3 { NumberStep(digits, 2, base); }
    if |digits| >= 4 { NumberStep(digits, 3, base); }
  }

  /** Three bytes become the four digits to base 64 of the same number, the highest first; what is
      left over at the end is filled up with zero bits (section 4 of RFC 4648). */
  lemma GroupsAreBigEndian(b: Bytes)
    ensures |b| >= 3 ==>
      |Sextets(b)| >= 4 && Number(Sextets(b)[..4], 64) == Number(b[..3], 256) && Sextets(b)[4..] == Sextets(b[3..])
    ensures |b| == 2 ==> |Sextets(b)| == 3 && Number(Sextets(b)[..3], 64) == Number(b[..2], 256) * 4
    ensures |b| == 1 ==> |Sextets(b)| == 2 && Number(Sextets(b)[..2], 64) == Number(b[..1], 256) * 16
  {
    hide Number;
    NumberOf(Sextets(b), 64);
    NumberOf(b, 256);
    if |b| >= 3 {
      assert Sextets(b)[4..] == Sextets(b[3..]);
    }
  }

  /** The alphabet of section 5 of RFC 4648: upper case, lower case, digits, '-' and '_'. */
  lemma LetterIsExact(s: sextet)
    ensures var c := Letter(s) as int;
            && (c == 'A' as int + s <==> s < 26) && (c == 'a' as int + s - 26 <==> 26 <= s < 52)
            && (c == '0' as int + s - 52 <==> 52 <= s < 62)
            && (Letter(s) == '-' <==> s == 62) && (Letter(s) == '_' <==> s == 63)
  {}

  function Letters(s: seq<sextet>): (r: string)
    ensures |r| == |s| && forall i :: 0 <= i < |s| ==> IsLetter(r[i]) && Value(r[i]) == s[i]
  {
    seq(|s|, i requires 0 <= i < |s| => Letter(s[i]))
  }

  function Values(text: string): seq<sextet>
    requires forall c :: c in text ==> IsLetter(c)
  {
    seq(|text|, i requires 0 <= i < |text| => Value(text[i]))
  }

  function Token(value: Bytes): Result<string, Error> {
    if |value| != 32 then Failure(InvalidToken) else Success(Letters(Sextets(value)))
  }

  function Untoken(text: string): Result<Bytes, Error> {
    if |text| != 43 || exists c :: c in text && !IsLetter(c) then Failure(InvalidToken)
    else
      var result := Octets(Values(text));
      if Token(result) != Success(text) then Failure(InvalidToken) else Success(result)
  }

  /** Tokens and 32-byte values are in one-to-one correspondence. */
  lemma TokensAreExact(text: string, value: Bytes)
    ensures Untoken(text) == Success(value) <==> Token(value) == Success(text)
    ensures Token(value).Success? <==> |value| == 32
  {
    if Token(value) == Success(text) {
      OctetsOfSextets(value);
      assert Values(text) == Sextets(value);
    }
  }

  // ----- Challenges ---------------------------------------------------------------------------------------

  predicate IsAscii(text: string) {
    forall i :: 0 <= i < |text| ==> text[i] < 128 as char
  }

  /** Text without a NUL character. */
  predicate IsPlain(text: string) {
    forall i :: 0 <= i < |text| ==> 0 as char < text[i] < 128 as char
  }

  function Code(c: char): (b: byte)
    requires c < 128 as char
    ensures b == c as int
  {
    c as int
  }

  function Ascii(text: string): (b: Bytes)
    requires IsAscii(text)
    ensures |b| == |text| && forall i :: 0 <= i < |text| ==> b[i] == text[i] as int
  {
    seq(|text|, i requires 0 <= i < |text| => Code(text[i]))
  }

  const LABEL := "clarify-computer-relay"
  const VERSION := "v1"

  /** Everything in front of the nonce. */
  function Heading(purpose: string, host: string): Bytes
    requires IsAscii(purpose)
    requires IsAscii(host)
  {
    Ascii(LABEL) + [0] + (Ascii(VERSION) + [0] + (Ascii(purpose) + [0] + (Ascii(host) + [0])))
  }

  lemma HostIsAscii(host: string, isAddress: string -> bool)
    requires DnsName(host, isAddress)
    ensures IsPlain(host) && IsAscii(host)
  {
    LabelsArePlain(host);
    forall i | 0 <= i < |host| ensures 0 as char < host[i] < 128 as char {
      assert host[i] in host;
    }
  }

  function Challenge(purpose: string, host: string, isAddress: string -> bool, nonce: Bytes, pending: Option<Bytes>)
    : Result<Bytes, Error>
  {
    if !DnsName(host, isAddress) then Failure(InvalidHostname)
    else if |nonce| != 32 then Failure(InvalidToken)
    else if purpose == "register" && pending.None? then
      HostIsAscii(host, isAddress);
      Success(Heading(purpose, host) + nonce)
    else if purpose == "attach" && pending.Some? then
      HostIsAscii(host, isAddress);
      if |pending.value| != 32 then Failure(InvalidToken) else Success(Heading(purpose, host) + (nonce + pending.value))
    else Failure(InvalidPurpose)
  }

  /** There is a challenge exactly for a DNS name, a nonce of 32 bytes and either a registration or
      an attach with a pending ID of 32 bytes; it ends in the nonce and that ID. */
  lemma ChallengeIsExact(purpose: string, host: string, isAddress: string -> bool, nonce: Bytes, pending: Option<Bytes>)
    ensures var c := Challenge(purpose, host, isAddress, nonce, pending);
            var tail := nonce + match pending case None => [] case Some(id) => id;
            && (c.Success? <==>
                  && DnsName(host, isAddress) && |nonce| == 32
                  && ((purpose == "register" && pending.None?) ||
                      (purpose == "attach" && pending.Some? && |pending.value| == 32)))
            && (c.Success? ==> |tail| <= |c.value| && c.value[|c.value| - |tail|..] == tail)
  {
    hide DnsName, Heading;
  }

  predicate NoZero(b: Bytes) {
    forall i :: 0 <= i < |b| ==> b[i] != 0
  }

  function FirstZero(b: Bytes): nat {
    if b == [] || b[0] == 0 then 0 else 1 + FirstZero(b[1..])
  }

  lemma {:induction false} FieldEndsAtZero(a: Bytes, x: Bytes)
    requires NoZero(a)
    ensures FirstZero(a + [0] + x) == |a|
  {
    if a != [] {
      assert (a + [0] + x)[1..] == a[1..] + [0] + x;
      FieldEndsAtZero(a[1..], x);
    } else {
      assert (a + [0] + x)[0] == 0;
    }
  }

  /** A field that ends at the first zero byte is read back as it was. */
  lemma FieldsAreExact(a: Bytes, b: Bytes, x: Bytes, y: Bytes)
    requires NoZero(a) && NoZero(b) && a + [0] + x == b + [0] + y
    ensures a == b && x == y
  {
    FieldEndsAtZero(a, x);
    FieldEndsAtZero(b, y);
    assert a == (a + [0] + x)[..|a|] && b == (b + [0] + y)[..|b|];
    assert x == (a + [0] + x)[|a| + 1..] && y == (b + [0] + y)[|b| + 1..];
  }

  lemma AsciiIsExact(a: string, b: string)
    requires IsAscii(a) && IsAscii(b)
    ensures Ascii(a) == Ascii(b) ==> a == b
  {
    if Ascii(a) == Ascii(b) {
      forall i | 0 <= i < |a| ensures a[i] == b[i] {
        assert Ascii(a)[i] == Ascii(b)[i];
      }
    }
  }

  lemma PlainHasNoZero(text: string)
    requires IsPlain(text)
    ensures NoZero(Ascii(text))
  {}

  /** The heading can be told from what follows it. */
  lemma HeadingsAreExact(purpose1: string, host1: string, rest1: Bytes, purpose2: string, host2: string, rest2: Bytes)
    requires IsPlain(purpose1)
    requires IsPlain(host1)
    requires IsPlain(purpose2)
    requires IsPlain(host2)
    requires Heading(purpose1, host1) + rest1 == Heading(purpose2, host2) + rest2
    ensures purpose1 == purpose2 && host1 == host2 && rest1 == rest2
  {
    hide Ascii;
    var p1, h1, p2, h2 := Ascii(purpose1), Ascii(host1), Ascii(purpose2), Ascii(host2);
    var l, v := Ascii(LABEL), Ascii(VERSION);
    PlainHasNoZero(LABEL);
    PlainHasNoZero(VERSION);
    PlainHasNoZero(purpose1);
    PlainHasNoZero(host1);
    PlainHasNoZero(purpose2);
    PlainHasNoZero(host2);
    Regroup(l, v, p1, h1, rest1);
    Regroup(l, v, p2, h2, rest2);
    FieldsAreExact(l, l, v + [0] + (p1 + [0] + (h1 + [0] + rest1)), v + [0] + (p2 + [0] + (h2 + [0] + rest2)));
    FieldsAreExact(v, v, p1 + [0] + (h1 + [0] + rest1), p2 + [0] + (h2 + [0] + rest2));
    FieldsAreExact(p1, p2, h1 + [0] + rest1, h2 + [0] + rest2);
    FieldsAreExact(h1, h2, rest1, rest2);
    AsciiIsExact(purpose1, purpose2);
    AsciiIsExact(host1, host2);
  }

  lemma Regroup(l: Bytes, v: Bytes, p: Bytes, h: Bytes, rest: Bytes)
    ensures l + [0] + (v + [0] + (p + [0] + (h + [0]))) + rest ==
            l + [0] + (v + [0] + (p + [0] + (h + [0] + rest)))
  {}

  /** No two requests have the same challenge: a proof binds purpose, host, nonce and pending ID. */
  lemma ChallengeIsInjective(purpose1: string, host1: string, nonce1: Bytes, pending1: Option<Bytes>,
                             purpose2: string, host2: string, nonce2: Bytes, pending2: Option<Bytes>,
                             isAddress: string -> bool)
    requires Challenge(purpose1, host1, isAddress, nonce1, pending1).Success?
    requires Challenge(purpose1, host1, isAddress, nonce1, pending1) ==
             Challenge(purpose2, host2, isAddress, nonce2, pending2)
    ensures purpose1 == purpose2 && host1 == host2 && nonce1 == nonce2 && pending1 == pending2
  {
    hide Heading, DnsName;
    HostIsAscii(host1, isAddress);
    HostIsAscii(host2, isAddress);
    var rest1 := nonce1 + (if pending1.Some? then pending1.value else []);
    var rest2 := nonce2 + (if pending2.Some? then pending2.value else []);
    assert nonce1 + [] == nonce1 && nonce2 + [] == nonce2;
    HeadingsAreExact(purpose1, host1, rest1, purpose2, host2, rest2);
    assert nonce1 == rest1[..32] && nonce2 == rest2[..32];
    if pending1.Some? {
      assert pending1.value == rest1[32..] && pending2.value == rest2[32..];
    }
  }
}
