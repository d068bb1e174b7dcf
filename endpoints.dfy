/**
 * The IP:port pattern of the capture importer and Python's `re.findall`
 * over it, for the pattern at hand: four dotted octets, each a decimal 0 to
 * 255 with no leading zero, then a colon and a run of digits. Each match
 * yields the IP text (group 1) and the port text (the last group).
 *
 * The scan tries every start position from left to right and resumes after
 * each match. At a start position an octet must extend to the end of its
 * digit run: a shorter alternative would be followed by a digit where the
 * pattern needs '.' or ':'. The port is the whole digit run after ':'.
 */
module Endpoints {
  import opened Wrappers
  import opened Decimal

  datatype IpPortMatch = IpPortMatch(ip: string, port: string)

  /** The number of digits at the front of `t`. */
  function LeadingDigits(t: string): (k: nat)
    ensures k <= |t|
  {
    if t == [] || !IsDigit(t[0]) then 0 else 1 + LeadingDigits(t[1..])
  }

  /** The leading digits are digits, and what follows them is not one. */
  lemma {:induction false} LeadingDigitsAreTheDigitRun(t: string)
    ensures IsDigits(t[..LeadingDigits(t)])
    ensures LeadingDigits(t) < |t| ==> !IsDigit(t[LeadingDigits(t)])
  {
    if t != [] && IsDigit(t[0]) {
      LeadingDigitsAreTheDigitRun(t[1..]);
      assert t[..LeadingDigits(t)] == [t[0]] + t[1..][..LeadingDigits(t[1..])];
    }
  }

  /** The octet group `[0-9]|[1-9][0-9]|1[0-9]{2}|2[0-4][0-9]|25[0-5]`, matching all of `s`. */
  predicate ValidOctet(s: string) {
    || (|s| == 1 && IsDigit(s[0]))
    || (|s| == 2 && '1' <= s[0] <= '9' && IsDigit(s[1]))
    || (|s| == 3 && s[0] == '1' && IsDigit(s[1]) && IsDigit(s[2]))
    || (|s| == 3 && s[0] == '2' && '0' <= s[1] <= '4' && IsDigit(s[2]))
    || (|s| == 3 && s[0] == '2' && s[1] == '5' && '0' <= s[2] <= '5')
  }

  /** `s` is `count` octet texts joined by dots. */
  ghost predicate DottedOctets(s: string, count: nat) {
    exists os: seq<string> :: 1 <= |os| == count && (forall i :: 0 <= i < |os| ==> ValidOctet(os[i])) && s == OctetsText(os)
  }

  /** What a match means: group 1 is four dotted octets and the port group a non-empty digit run. */
  ghost predicate IsMatch(m: IpPortMatch) {
    DottedOctets(m.ip, 4) && m.port != [] && IsDigits(m.port)
  }

  /**
   * The length of `octets` dotted octets at the front of `t` when the last is
   * followed by ':' (which is not counted), or none.
   */
  function IpLength(t: string, octets: nat): (r: Option<nat>)
    requires octets >= 1
    ensures r.Some? ==> r.value < |t| && t[r.value] == ':'
    decreases octets
  {
    var k := LeadingDigits(t);
    if !ValidOctet(t[..k]) || k == |t| then None
    else if octets == 1 then (if t[k] == ':' then Some(k) else None)
    else if t[k] != '.' then None
    else
      match IpLength(t[k + 1..], octets - 1)
      case None => None
      case Some(m) => Some(k + 1 + m)
  }

  /** A length `IpLength` finds covers `octets` octet texts joined by dots, and nothing more. */
  lemma {:induction false} IpLengthSound(t: string, octets: nat)
    requires octets >= 1 && IpLength(t, octets).Some?
    ensures DottedOctets(t[..IpLength(t, octets).value], octets)
    decreases octets
  {
    var k := LeadingDigits(t);
    if octets == 1 {
      OneOctet(t[..k]);
    } else {
      var m := IpLength(t[k + 1..], octets - 1).value;
      IpLengthSound(t[k + 1..], octets - 1);
      DottedStep(t, k, m, octets);
    }
  }

  lemma OneOctet(o: string)
    requires ValidOctet(o)
    ensures DottedOctets(o, 1)
  {
    assert OctetsText([o]) == o;
  }

  /** An octet and a dot in front of `count - 1` dotted octets make `count` of them. */
  lemma DottedStep(t: string, k: nat, m: nat, count: nat)
    requires count >= 2 && k < |t| && k + 1 + m <= |t| && ValidOctet(t[..k]) && t[k] == '.'
    requires DottedOctets(t[k + 1..][..m], count - 1)
    ensures DottedOctets(t[..k + 1 + m], count)
  {
    var more: seq<string> :| 1 <= |more| == count - 1 && (forall i :: 0 <= i < |more| ==> ValidOctet(more[i]))
                             && t[k + 1..][..m] == OctetsText(more);
    var os := [t[..k]] + more;
    assert os[1..] == more;
    assert OctetsText(os) == t[..k] + "." + OctetsText(more);
    assert t[..k + 1 + m] == t[..k] + "." + t[k + 1..][..m];
  }

  /**
   * `t` starts with the match `m` of length `n`: its IP text, ':' and its port
   * text, where the IP text is four dotted octets and the port is the whole
   * digit run after ':'.
   */
  ghost predicate MatchAt(t: string, m: IpPortMatch, n: nat) {
    0 < n <= |t| && t[..n] == m.ip + ":" + m.port && IsMatch(m) && (n < |t| ==> !IsDigit(t[n]))
  }

  /** A match of the pattern at the front of `t` and its length, or none. */
  function MatchPrefix(t: string): (r: Option<(IpPortMatch, nat)>)
    ensures r.Some? ==> 0 < r.value.1 <= |t|
  {
    match IpLength(t, 4)
    case None => None
    case Some(n) =>
      var rest := t[n + 1..];
      var p := LeadingDigits(rest);
      if p == 0 then None else Some((IpPortMatch(t[..n], rest[..p]), n + 1 + p))
  }

  /** A match found at the front of `t` is one: see MatchAt. */
  lemma MatchPrefixSound(t: string)
    requires MatchPrefix(t).Some?
    ensures MatchAt(t, MatchPrefix(t).value.0, MatchPrefix(t).value.1)
  {
    var n := IpLength(t, 4).value;
    IpLengthSound(t, 4);
    MatchFound(t, n, LeadingDigits(t[n + 1..]));
  }

  lemma MatchFound(t: string, n: nat, p: nat)
    requires n < |t| && t[n] == ':' && DottedOctets(t[..n], 4)
    requires 0 < p == LeadingDigits(t[n + 1..])
    ensures MatchAt(t, IpPortMatch(t[..n], t[n + 1..][..p]), n + 1 + p)
  {
    LeadingDigitsAreTheDigitRun(t[n + 1..]);
    MatchPieces(t, n, p);
  }

  lemma MatchPieces(t: string, n: nat, p: nat)
    requires n < |t| && t[n] == ':' && n + 1 + p <= |t|
    ensures t[..n + 1 + p] == t[..n] + ":" + t[n + 1..][..p]
    ensures n + 1 + p < |t| ==> t[n + 1 + p] == t[n + 1..][p]
  {
  }

  /** `re.findall(IP_PORT_REGEX, t)`. */
  function FindAll(t: string): seq<IpPortMatch>
    decreases |t|
  {
    if t == [] then []
    else
      match MatchPrefix(t)
      case Some((m, n)) => [m] + FindAll(t[n..])
      case None => FindAll(t[1..])
  }

  /** Every element `findall` yields is a match of the pattern. */
  lemma {:induction false} FindAllSound(t: string)
    ensures forall i :: 0 <= i < |FindAll(t)| ==> IsMatch(FindAll(t)[i])
    decreases |t|
  {
    if t != [] {
      match MatchPrefix(t)
      case Some((m, n)) =>
        MatchPrefixSound(t);
        FindAllSound(t[n..]);
        assert FindAll(t) == [m] + FindAll(t[n..]);
      case None =>
        FindAllSound(t[1..]);
    }
  }

  /**
   * An IPv4 endpoint as the packet library prints it in a session name: the
   * texts of its octets and of its port.
   */
  datatype Endpoint = Endpoint(octets: seq<string>, port: string)

  /** Four octet texts (each the decimal text of 0 to 255, see ValidOctetIsDecimalByte) and a port number's text. */
  predicate WellFormed(e: Endpoint) {
    |e.octets| == 4 && (forall i :: 0 <= i < 4 ==> ValidOctet(e.octets[i])) && Canonical(e.port)
  }

  /** The octets joined by dots. */
  function OctetsText(os: seq<string>): string
    requires |os| >= 1
  {
    if |os| == 1 then os[0] else os[0] + "." + OctetsText(os[1..])
  }

  function EndpointText(e: Endpoint): string
    requires |e.octets| >= 1
  {
    OctetsText(e.octets) + ":" + e.port
  }

  /** A TCP or UDP session's name: `<protocol> <ip>:<port> > <ip>:<port>`. */
  function SessionName(protocol: string, src: Endpoint, dst: Endpoint): string
    requires |src.octets| >= 1 && |dst.octets| >= 1
  {
    protocol + " " + EndpointText(src) + " > " + EndpointText(dst)
  }

  predicate NoDigits(s: string) {
    forall i :: 0 <= i < |s| ==> !IsDigit(s[i])
  }

  /** What `findall` yields for an endpoint: its IP text and its port text. */
  function MatchOf(e: Endpoint): IpPortMatch
    requires |e.octets| >= 1
  {
    IpPortMatch(OctetsText(e.octets), e.port)
  }

  /** The octet group accepts exactly the decimal texts of 0 to 255. */
  lemma ValidOctetIsDecimalByte(s: string)
    ensures ValidOctet(s) <==> exists n: nat :: n <= 255 && s == FromNat(n)
  {
    if ValidOctet(s) {
      OctetIsCanonical(s);
      CanonicalRoundTrip(s);
    }
    if exists n: nat :: n <= 255 && s == FromNat(n) {
      var n: nat :| n <= 255 && s == FromNat(n);
      DecimalByteIsOctet(n);
    }
  }

  lemma OctetIsCanonical(s: string)
    requires ValidOctet(s)
    ensures Canonical(s) && Value(s) <= 255
  {
    ValueAppend([], s[0]);
    assert [] + [s[0]] == s[..1];
    if |s| >= 2 {
      ValueAppend(s[..1], s[1]);
      assert s[..1] + [s[1]] == s[..2];
    }
    if |s| == 3 {
      ValueAppend(s[..2], s[2]);
      assert s[..2] + [s[2]] == s;
    }
    assert |s| <= 2 ==> s[..|s|] == s;
  }

  lemma DecimalByteIsOctet(n: nat)
    requires n <= 255
    ensures ValidOctet(FromNat(n))
  {
    var s := FromNat(n);
    if n < 10 {
      assert s == [DigitChar(n)];
    } else if n < 100 {
      assert FromNat(n / 10) == [DigitChar(n / 10)];
      assert s == [DigitChar(n / 10), DigitChar(n % 10)];
    } else {
      assert FromNat(n / 100) == [DigitChar(n / 100)];
      assert FromNat(n / 10) == [DigitChar(n / 100), DigitChar(n / 10 % 10)];
      assert s == [DigitChar(n / 100), DigitChar(n / 10 % 10), DigitChar(n % 10)];
    }
  }

  lemma {:induction false} LeadingDigitsOfConcat(d: string, r: string)
    requires IsDigits(d) && (r == [] || !IsDigit(r[0]))
    ensures LeadingDigits(d + r) == |d|
  {
    if d != [] {
      assert (d + r)[1..] == d[1..] + r;
      LeadingDigitsOfConcat(d[1..], r);
    }
  }

  /** Characters that are not digits are skipped one at a time. */
  lemma {:induction false} SkipNonDigits(u: string, r: string)
    requires NoDigits(u)
    ensures FindAll(u + r) == FindAll(r)
  {
    if u != [] {
      var t := u + r;
      assert LeadingDigits(t) == 0 && t[..0] == "";
      assert MatchPrefix(t).None?;
      assert t[1..] == u[1..] + r;
      SkipNonDigits(u[1..], r);
    } else {
      assert u + r == r;
    }
  }

  /** An octet followed by a separator that is not a digit is read as one digit run. */
  lemma OctetThen(o: string, sep: char, tail: string)
    requires ValidOctet(o) && !IsDigit(sep)
    ensures var t := o + [sep] + tail;
      && LeadingDigits(t) == |o| && t[..|o|] == o && |o| < |t| && t[|o|] == sep && t[|o| + 1..] == tail
  {
    OctetIsCanonical(o);
    var t := o + [sep] + tail;
    assert t == o + ([sep] + tail);
    LeadingDigitsOfConcat(o, [sep] + tail);
  }

  /** The last octet, followed by ':'. */
  lemma IpLengthOfLast(o: string, tail: string)
    requires ValidOctet(o)
    ensures IpLength(o + [':'] + tail, 1) == Some(|o|)
  {
    OctetThen(o, ':', tail);
  }

  /** A dotted octet in front of the remaining octets. */
  lemma IpLengthAfterDot(t: string, o: string, rest: string, octets: nat, m: nat, n: nat)
    requires ValidOctet(o) && octets >= 2 && IpLength(rest, octets - 1) == Some(m)
    requires t == o + ['.'] + rest && n == |o| + 1 + m
    ensures IpLength(t, octets) == Some(n)
  {
    OctetThen(o, '.', rest);
    assert LeadingDigits(t) == |o| && t[..|o|] == o && t[|o|] == '.' && t[|o| + 1..] == rest;
  }

  /** The text of two or more octets is the first, a dot and the text of the others. */
  lemma OctetsTextSplit(os: seq<string>, tail: string)
    requires |os| >= 2
    ensures OctetsText(os) + [':'] + tail == os[0] + ['.'] + (OctetsText(os[1..]) + [':'] + tail)
    ensures |OctetsText(os)| == |os[0]| + 1 + |OctetsText(os[1..])|
  {
  }

  lemma {:induction false} IpLengthOfText(os: seq<string>, tail: string)
    requires |os| >= 1 && forall i :: 0 <= i < |os| ==> ValidOctet(os[i])
    ensures IpLength(OctetsText(os) + [':'] + tail, |os|) == Some(|OctetsText(os)|)
  {
    if |os| == 1 {
      IpLengthOfLast(os[0], tail);
    } else {
      var more := OctetsText(os[1..]);
      IpLengthOfText(os[1..], tail);
      OctetsTextSplit(os, tail);
      IpLengthAfterDot(OctetsText(os) + [':'] + tail, os[0], more + [':'] + tail, |os|, |more|, |OctetsText(os)|);
    }
  }

  /** MatchPrefix when the IP text and the port's digit run are known. */
  lemma MatchPrefixOf(t: string, ip: string, port: string, m: IpPortMatch, n: nat)
    requires IpLength(t, 4) == Some(|ip|) && t[..|ip|] == ip
    requires 0 < |port| == LeadingDigits(t[|ip| + 1..]) && t[|ip| + 1..][..|port|] == port
    requires m == IpPortMatch(ip, port) && n == |ip| + 1 + |port|
    ensures MatchPrefix(t) == Some((m, n))
  {
  }

  /**
   * Four dotted octets, ':' and a non-empty digit run, followed by anything
   * but a digit, is one match of exactly that text.
   */
  lemma MatchPrefixComplete(t: string, ip: string, port: string, r: string, m: IpPortMatch, n: nat)
    requires IsMatch(IpPortMatch(ip, port)) && (r == [] || !IsDigit(r[0]))
    requires t == ip + ":" + port + r && m == IpPortMatch(ip, port) && n == |ip| + 1 + |port|
    ensures MatchPrefix(t) == Some((m, n))
  {
    MatchTextPieces(t, ip, port, r);
    IpLengthOfDotted(t, ip, port + r);
    MatchPrefixOf(t, ip, port, m, n);
  }

  lemma MatchTextPieces(t: string, ip: string, port: string, r: string)
    requires t == ip + ":" + port + r && IsDigits(port) && (r == [] || !IsDigit(r[0]))
    ensures t == ip + [':'] + (port + r) && t[..|ip|] == ip
    ensures LeadingDigits(t[|ip| + 1..]) == |port| && t[|ip| + 1..][..|port|] == port
  {
    var rest := t[|ip| + 1..];
    assert rest == port + r;
    LeadingDigitsOfConcat(port, r);
  }

  lemma IpLengthOfDotted(t: string, ip: string, tail: string)
    requires DottedOctets(ip, 4) && t == ip + [':'] + tail
    ensures IpLength(t, 4) == Some(|ip|)
  {
    var os: seq<string> :| 1 <= |os| == 4 && (forall i :: 0 <= i < |os| ==> ValidOctet(os[i])) && ip == OctetsText(os);
    IpLengthOfText(os, tail);
  }

  /** A well-formed endpoint's text, followed by anything but a digit, is one match. */
  lemma MatchEndpoint(e: Endpoint, r: string)
    requires WellFormed(e) && (r == [] || !IsDigit(r[0]))
    ensures MatchPrefix(EndpointText(e) + r) == Some((MatchOf(e), |EndpointText(e)|))
  {
    assert DottedOctets(OctetsText(e.octets), 4);
    MatchPrefixComplete(EndpointText(e) + r, OctetsText(e.octets), e.port, r, MatchOf(e), |EndpointText(e)|);
  }

  lemma FindAllAfterEndpoint(e: Endpoint, r: string)
    requires WellFormed(e) && (r == [] || !IsDigit(r[0]))
    ensures FindAll(EndpointText(e) + r) == [MatchOf(e)] + FindAll(r)
  {
    MatchEndpoint(e, r);
    var t := EndpointText(e) + r;
    assert t[|EndpointText(e)|..] == r;
  }

  /**
   * In a session name of well-formed endpoints whose protocol word has no
   * digit, `findall` yields exactly the source endpoint, then the destination.
   */
  lemma SessionNameMatches(protocol: string, src: Endpoint, dst: Endpoint)
    requires WellFormed(src) && WellFormed(dst) && NoDigits(protocol)
    ensures FindAll(SessionName(protocol, src, dst)) == [MatchOf(src), MatchOf(dst)]
  {
    var x := EndpointText(dst) + "";
    var y := " > " + x;
    var z := EndpointText(src) + y;
    SessionNameParts(protocol, src, dst, z);
    SkipNonDigits(protocol + " ", z);
    FindAllAfterEndpoint(src, y);
    SkipNonDigits(" > ", x);
    FindAllAfterEndpoint(dst, "");
    assert FindAll("") == [];
  }

  lemma SessionNameParts(protocol: string, src: Endpoint, dst: Endpoint, z: string)
    requires |src.octets| >= 1 && |dst.octets| >= 1 && NoDigits(protocol)
    requires z == EndpointText(src) + (" > " + (EndpointText(dst) + ""))
    ensures SessionName(protocol, src, dst) == (protocol + " ") + z && NoDigits(protocol + " ") && NoDigits(" > ")
  {
  }

  /** A name with no digit at all has no match. */
  lemma NoDigitsNoMatch(name: string)
    requires NoDigits(name)
    ensures FindAll(name) == []
  {
    SkipNonDigits(name, "");
    assert name + "" == name;
  }
}
