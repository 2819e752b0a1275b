/** The text form of prefixes and of allowed-IPs lists. */
module CidrText {
  import opened Options
  import opened Cidrs

  /** The first position of a character, or the length. */
  function IndexOf(s: string, c: char): (i: nat)
    ensures i <= |s| && (i < |s| ==> s[i] == c) && forall j :: 0 <= j < i ==> s[j] != c
  {
    if s == "" || s[0] == c then 0 else 1 + IndexOf(s[1..], c)
  }

  predicate IsDigit(c: char) {
    '0' <= c <= '9'
  }

  predicate IsBlank(c: char) {
    c == ' ' || c == '\t'
  }

  predicate IsSpace(c: char) {
    IsBlank(c) || c == '\n' || c == '\r' || c == '\U{000B}' || c == '\U{000C}'
  }

  predicate AllDigits(s: string) {
    forall i :: 0 <= i < |s| ==> IsDigit(s[i])
  }

  function Decimal(s: string): nat
    requires AllDigits(s)
  {
    if s == "" then 0 else 10 * Decimal(s[..|s| - 1]) + (s[|s| - 1] as int - '0' as int)
  }

  /** The length of the leading run of digits. */
  function DigitRun(s: string): (n: nat)
    ensures n <= |s| && (n < |s| ==> !IsDigit(s[n])) && forall i :: 0 <= i < n ==> IsDigit(s[i])
  {
    if s == "" || !IsDigit(s[0]) then 0 else 1 + DigitRun(s[1..])
  }

  function SpaceRun(s: string): (n: nat)
    ensures n <= |s| && (n < |s| ==> !IsSpace(s[n])) && forall i :: 0 <= i < n ==> IsSpace(s[i])
  {
    if s == "" || !IsSpace(s[0]) then 0 else 1 + SpaceRun(s[1..])
  }

  /** Where the digits of a leading integer start. */
  function DigitsAt(s: string): (n: nat)
    ensures n <= |s|
  {
    var n := SpaceRun(s);
    if n < |s| && (s[n] == '+' || s[n] == '-') then n + 1 else n
  }

  /** The leading integer of a text, within 32 bits; what follows it is ignored. */
  function LeadingInt(s: string): Option<int> {
    var at := DigitsAt(s);
    var n := DigitRun(s[at..]);
    if n == 0 then None
    else
      var magnitude: int := Decimal(s[at..][..n]);
      var value := if 0 < at && s[at - 1] == '-' then -magnitude else magnitude;
      if value < -0x8000_0000 || 0x7fff_ffff < value then None else Some(value)
  }

  function Octet(s: string): (r: Option<nat>)
    ensures r.Some? ==> r.value <= 255 && s != "" && AllDigits(s)
  {
    if s == "" || 3 < |s| || !AllDigits(s) then None
    else if 255 < Decimal(s) then None
    else Some(Decimal(s))
  }

  function Appended(address: bv32, octet: nat): bv32
    requires octet <= 255
  {
    (address << 8) | (octet as bv32)
  }

  /** Exactly so many dot-separated octets, onto those read before. */
  function Octets(s: string, left: nat, address: bv32): Option<bv32>
    requires 1 <= left
    decreases left
  {
    var dot := IndexOf(s, '.');
    var last := left == 1;
    if last != (dot == |s|) then None
    else
      var octet := Octet(s[..dot]);
      if octet.None? then None
      else
        var now := Appended(address, octet.value);
        if last then Some(now) else Octets(s[dot + 1..], left - 1, now)
  }

  function Address(s: string): Option<bv32> {
    Octets(s, 4, 0)
  }

  /** A prefix length as it is stored. */
  function PrefixByte(n: int): (b: bv8)
    requires 0 <= n <= 32
    ensures b <= 32
    ensures n == 32 ==> b == 32
  {
    n as bv8
  }

  function Block(address: bv32, prefixLen: bv8): Cidr
    requires prefixLen <= 32
  {
    Cidr(address & Mask(prefixLen), Mask(prefixLen), prefixLen)
  }

  function AddrPart(text: string): string {
    text[..IndexOf(text, '/')]
  }

  /** "network/prefix", or a bare address taken as /32. */
  function Parse(text: string): Option<Cidr> {
    var slash := IndexOf(text, '/');
    BlockOf(text[..slash], if slash == |text| then Some(32) else LeadingInt(text[slash + 1..]))
  }

  function BlockOf(text: string, prefix: Option<int>): Option<Cidr> {
    if prefix.None? || prefix.value < 0 || 32 < prefix.value then None
    else
      var address := Address(text);
      if address.None? then None else Some(Block(address.value, PrefixByte(prefix.value)))
  }

  function TrimLeft(s: string): string {
    if s != "" && IsBlank(s[0]) then TrimLeft(s[1..]) else s
  }

  function TrimRight(s: string): (r: string)
    ensures r <= s && forall i :: |r| <= i < |s| ==> IsBlank(s[i])
  {
    if s != "" && IsBlank(s[|s| - 1]) then TrimRight(s[..|s| - 1]) else s
  }

  function Token(s: string): seq<Cidr> {
    var token := TrimRight(TrimLeft(s));
    if token == "" then []
    else
      var c := Parse(token);
      if c.Some? then [c.value] else []
  }

  /** A comma-separated list; entries that do not parse are skipped. */
  function ParseList(s: string): seq<Cidr> {
    var comma := IndexOf(s, ',');
    Token(s[..comma]) + if comma == |s| then [] else ParseList(s[comma + 1..])
  }

  /** A tunnel address: one address, bare or "/32". */
  function ParseTunnelAddress(text: string): Option<Cidr> {
    var slash := IndexOf(text, '/');
    if text == "" || (slash < |text| && text[slash..] != "/32") then None
    else
      var c := Parse(text);
      if c.None? || c.value.prefixLen != 32 then None else c
  }

  /** A subnet given as "network/prefix", with no host bits set. */
  function ParseSubnet(text: string): Option<Cidr> {
    if IndexOf(text, '/') == |text| then None
    else
      var c := Parse(text);
      if c.None? then None
      else
        var exact := Parse(AddrPart(text) + "/32");
        if exact.None? || exact.value.network != c.value.network then None else c
  }

  lemma {:induction false} ParsedIsAligned(text: string)
    ensures Parse(text).Some? ==> Aligned(Parse(text).value)
  {
  }

  // What a list of parsed texts reads back as

  lemma {:induction false} IndexIs(s: string, c: char, i: nat)
    requires i <= |s| && (i < |s| ==> s[i] == c) && forall j :: 0 <= j < i ==> s[j] != c
    ensures IndexOf(s, c) == i
  {
  }

  lemma {:induction false} DigitRunIs(s: string, n: nat)
    requires n <= |s| && (n < |s| ==> !IsDigit(s[n])) && forall i :: 0 <= i < n ==> IsDigit(s[i])
    ensures DigitRun(s) == n
  {
  }

  lemma {:induction false} SpaceRunIs(s: string, n: nat)
    requires n <= |s| && (n < |s| ==> !IsSpace(s[n])) && forall i :: 0 <= i < n ==> IsSpace(s[i])
    ensures SpaceRun(s) == n
  {
  }

  /** Where the leading integer of a text ends. */
  function IntEnd(s: string): (e: nat)
    ensures e <= |s|
  {
    DigitsAt(s) + DigitRun(s[DigitsAt(s)..])
  }

  /** Cutting a text behind its leading integer keeps the integer. */
  lemma {:induction false} CutKeepsInt(s: string, m: nat)
    requires LeadingInt(s).Some? && IntEnd(s) <= m <= |s|
    ensures LeadingInt(s[..m]) == LeadingInt(s)
  {
    hide Decimal;
    var t := s[..m];
    var at := DigitsAt(s);
    var n := DigitRun(s[at..]);
    SpaceRunIs(t, SpaceRun(s));
    assert DigitsAt(t) == at;
    assert t[at..][..n] == s[at..][..n];
    DigitRunIs(t[at..], n);
  }

  /** A leading integer holds no comma and ends in a digit. */
  lemma {:induction false} IntChars(s: string)
    requires LeadingInt(s).Some?
    ensures 0 < IntEnd(s) && IsDigit(s[IntEnd(s) - 1])
    ensures ',' !in s[..IntEnd(s)]
  {
  }

  predicate IsAddressChar(c: char) {
    IsDigit(c) || c == '.'
  }

  /** An address is digits and dots, and starts with a digit. */
  lemma {:induction false} AddressChars(s: string, left: nat, address: bv32)
    requires 1 <= left && Octets(s, left, address).Some?
    ensures s != "" && IsDigit(s[0])
    ensures forall i :: 0 <= i < |s| ==> IsAddressChar(s[i])
    decreases left
  {
    hide Octet, Appended, Decimal;
    var dot := IndexOf(s, '.');
    var octet := s[..dot];
    assert forall i :: 0 <= i < dot ==> s[i] == octet[i];
    if left != 1 {
      var rest := s[dot + 1..];
      AddressChars(rest, left - 1, Appended(address, Octet(octet).value));
      assert forall i :: dot < i < |s| ==> s[i] == rest[i - dot - 1];
    }
  }

  /** Where an accepted "network/prefix" ends inside its text. */
  function TextEnd(s: string): (e: nat)
    requires IndexOf(s, '/') < |s|
    ensures e <= |s|
  {
    IndexOf(s, '/') + 1 + IntEnd(s[IndexOf(s, '/') + 1..])
  }

  lemma {:induction false} TextChars(s: string)
    requires IndexOf(s, '/') < |s| && Parse(s).Some?
    ensures 0 < TextEnd(s) && IsDigit(s[0]) && IsDigit(s[TextEnd(s) - 1])
    ensures forall i :: 0 <= i < TextEnd(s) ==> s[i] != ','
  {
    hide Octets, LeadingInt, Block, IntEnd;
    var slash := IndexOf(s, '/');
    var address, rest := s[..slash], s[slash + 1..];
    var e := IntEnd(rest);
    AddressChars(address, 4, 0);
    IntChars(rest);
    assert s[0] == address[0] && s[slash + e] == rest[e - 1];
    assert forall i :: 0 <= i < slash ==> s[i] == address[i];
    assert forall i :: slash < i < slash + 1 + e ==> s[i] == rest[..e][i - slash - 1];
  }

  /** The first entry of a list that starts with an accepted prefix text. */
  lemma {:induction false} FirstEntry(s: string)
    requires IndexOf(s, '/') < |s| && Parse(s).Some?
    ensures Token(s[..IndexOf(s, ',')]) == [Parse(s).value]
  {
    hide Parse, TrimLeft, TextEnd;
    var token := s[..IndexOf(s, ',')];
    TextChars(s);
    NoLeadingBlank(token);
    var t := TrimRight(token);
    assert TextEnd(s) <= |token| && token[TextEnd(s) - 1] == s[TextEnd(s) - 1];
    assert TextEnd(s) <= |t|;
    CutKeepsPrefix(s, |t|);
    assert t == s[..|t|];
  }

  lemma {:induction false} NoLeadingBlank(s: string)
    requires s != "" && !IsBlank(s[0])
    ensures TrimLeft(s) == s
  {
  }

  lemma {:induction false} CutKeepsPrefix(s: string, m: nat)
    requires IndexOf(s, '/') < |s| && Parse(s).Some? && m <= |s|
    requires TextEnd(s) <= m
    ensures Parse(s[..m]) == Parse(s)
  {
    hide Octets, LeadingInt, Block, IntEnd;
    var slash := IndexOf(s, '/');
    var t, rest := s[..m], s[slash + 1..];
    assert t[..slash] == s[..slash];
    IndexIs(t, '/', slash);
    assert t[slash + 1..] == rest[..m - slash - 1];
    CutKeepsInt(rest, m - slash - 1);
  }

  lemma {:induction false} ThirtyTwo()
    ensures LeadingInt("32") == Some(32)
  {
    var s := "32";
    SpaceRunIs(s, 0);
    assert s[0..] == s;
    assert s[..2] == s;
    DigitRunIs(s, 2);
    assert s[..1] == "3";
    assert "3"[..0] == "";
    assert Decimal("3") == 3;
    assert Decimal(s) == 32;
  }

  /** The route text of an accepted tunnel address, as the head of a list. */
  lemma {:induction false} TunnelEntry(text: string)
    requires ParseTunnelAddress(text).Some?
    ensures var route := AddrPart(text) + "/32";
      && IndexOf(route, '/') < |route| && ',' !in route
      && Parse(route) == ParseTunnelAddress(text)
  {
    hide Octets, LeadingInt, Block;
    var slash := IndexOf(text, '/');
    var a := AddrPart(text);
    var route := a + "/32";
    AddressChars(a, 4, 0);
    assert route[..|a|] == a;
    forall i | 0 <= i < |route| ensures route[i] != ',' {
      assert i < |a| ==> IsAddressChar(a[i]);
    }
    IndexIs(route, '/', |a|);
    assert route[|a| + 1..] == "32";
    ThirtyTwo();
    assert slash < |text| ==> text[slash + 1..] == text[slash..][1..] == "32";
  }

  /** A list that starts with a text without commas. */
  lemma {:induction false} ListOf(head: string, tail: string)
    requires ',' !in head
    ensures ParseList(head) == Token(head)
    ensures ParseList(head + "," + tail) == Token(head) + ParseList(tail)
  {
    hide Token;
    IndexIs(head, ',', |head|);
    assert head[..|head|] == head;
    var s := head + "," + tail;
    assert s[..|head|] == head && s[|head| + 1..] == tail;
    IndexIs(s, ',', |head|);
  }

  /** What follows the first comma of a text. */
  function AfterComma(s: string): (rest: seq<Cidr>) {
    var comma := IndexOf(s, ',');
    if comma == |s| then [] else ParseList(s[comma + 1..])
  }

  /** A granted route, read back: the tunnel address alone, or with a subnet the tunnel
      address, the subnet, and whatever its text lists after a comma. */
  lemma {:induction false} RouteReadsBack(tunnel: string, subnet: string)
    requires ParseTunnelAddress(tunnel).Some?
    ensures ParseList(AddrPart(tunnel) + "/32") == [ParseTunnelAddress(tunnel).value]
    ensures ParseSubnet(subnet).Some? ==>
      ParseList(AddrPart(tunnel) + "/32" + "," + subnet)
      == [ParseTunnelAddress(tunnel).value] + [ParseSubnet(subnet).value] + AfterComma(subnet)
  {
    hide Token, Parse, ParseTunnelAddress, AddrPart;
    var route := AddrPart(tunnel) + "/32";
    TunnelEntry(tunnel);
    FirstEntry(route);
    IndexIs(route, ',', |route|);
    assert route[..|route|] == route;
    ListOf(route, subnet);
    if ParseSubnet(subnet).Some? {
      FirstEntry(subnet);
    }
  }

  // Printing and parsing again

  function Digits(n: nat): (s: string)
    ensures s != "" && AllDigits(s)
  {
    if n < 10 then [(n as char) + '0'] else Digits(n / 10) + [((n % 10) as char) + '0']
  }

  lemma {:induction false} DigitsRoundTrip(n: nat)
    ensures Decimal(Digits(n)) == n
    ensures n <= 255 ==> |Digits(n)| <= 3
  {
    if n < 10 {
      assert Digits(n)[..0] == "";
    } else {
      DigitsRoundTrip(n / 10);
      DigitsAreShort(n / 10);
      var s := Digits(n);
      assert s[..|s| - 1] == Digits(n / 10);
    }
  }

  lemma {:induction false} DigitsAreShort(n: nat)
    ensures n < 10 ==> |Digits(n)| == 1
    ensures n < 100 ==> |Digits(n)| <= 2
  {
  }

  lemma {:induction false} SignedStart(blanks: string, sign: string, digits: string, rest: string)
    requires (forall i :: 0 <= i < |blanks| ==> IsSpace(blanks[i])) && sign in {"", "+", "-"}
    requires digits != "" && IsDigit(digits[0])
    ensures var s, at := blanks + sign + digits + rest, |blanks| + |sign|;
      && DigitsAt(s) == at && s[at..] == digits + rest && (0 < at && s[at - 1] == '-' <==> sign == "-")
  {
    hide IsSpace, IsDigit;
    var s, at := blanks + sign + digits + rest, |blanks| + |sign|;
    SignsAreNoSpaces(digits[0]);
    assert s[|blanks|] == if sign == "" then digits[0] else sign[0];
    SpaceRunIs(s, |blanks|);
    if sign == "" && 0 < at {
      assert IsSpace(s[at - 1]);
      SpaceIsNoSign(s[at - 1]);
    }
  }

  /** A leading integer is read after blanks of any kind, with or without a sign and whatever
      follows its digits, unless it does not fit 32 bits. */
  lemma {:induction false} IntReadsBack(blanks: string, sign: string, n: nat, rest: string)
    requires (forall i :: 0 <= i < |blanks| ==> IsSpace(blanks[i])) && sign in {"", "+", "-"}
    requires rest == "" || !IsDigit(rest[0])
    ensures var value: int := if sign == "-" then 0 - n as int else n as int;
      LeadingInt(blanks + sign + Digits(n) + rest) == if -0x8000_0000 <= value <= 0x7fff_ffff then Some(value) else None
  {
    hide Digits, Decimal, IsSpace, IsDigit, DigitsAt;
    DigitsRoundTrip(n);
    var s, at := blanks + sign + Digits(n) + rest, |blanks| + |sign|;
    SignedStart(blanks, sign, Digits(n), rest);
    DigitRunIs(s[at..], |Digits(n)|);
    assert s[at..][..|Digits(n)|] == Digits(n);
  }

  lemma SpaceIsNoSign(c: char)
    requires IsSpace(c)
    ensures c != '-' && c != '+'
  {
  }

  lemma SignsAreNoSpaces(c: char)
    requires IsDigit(c)
    ensures !IsSpace(c) && !IsSpace('+') && !IsSpace('-') && c != '+' && c != '-'
  {
  }

  lemma {:induction false} OctetRoundTrip(n: nat)
    requires n <= 255
    ensures Octet(Digits(n)) == Some(n)
  {
    hide Digits, Decimal;
    DigitsRoundTrip(n);
  }

  /** One octet and what follows it. */
  lemma {:induction false} NextOctet(n: nat, rest: string, left: nat, address: bv32)
    requires n <= 255 && 2 <= left
    ensures Octets(Digits(n) + "." + rest, left, address) == Octets(rest, left - 1, Appended(address, n))
  {
    hide Digits, Octet, Appended;
    var s := Digits(n) + "." + rest;
    OctetRoundTrip(n);
    assert s[..|Digits(n)|] == Digits(n) && s[|Digits(n)| + 1..] == rest;
    assert forall i :: 0 <= i < |Digits(n)| ==> s[i] == Digits(n)[i] && IsDigit(s[i]);
    IndexIs(s, '.', |Digits(n)|);
  }

  lemma {:induction false} LastOctet(n: nat, address: bv32)
    requires n <= 255
    ensures Octets(Digits(n), 1, address) == Some(Appended(address, n))
  {
    hide Digits, Octet, Appended;
    OctetRoundTrip(n);
    IndexIs(Digits(n), '.', |Digits(n)|);
    assert Digits(n)[..|Digits(n)|] == Digits(n);
  }

  function Dotted(a: nat, b: nat, c: nat, d: nat): string {
    Digits(a) + "." + (Digits(b) + "." + (Digits(c) + "." + Digits(d)))
  }

  function Joined(a: nat, b: nat, c: nat, d: nat): bv32
    requires a <= 255 && b <= 255 && c <= 255 && d <= 255
  {
    ((a as bv32) << 24) | ((b as bv32) << 16) | ((c as bv32) << 8) | (d as bv32)
  }

  lemma {:induction false} ShiftsJoin(a: bv32, b: bv32, c: bv32, d: bv32)
    ensures (((((((0 << 8) | a) << 8) | b) << 8) | c) << 8) | d == (a << 24) | (b << 16) | (c << 8) | d
  {
  }

  /** Four printed octets parse to the address that they write, most significant first. */
  lemma {:induction false} AddressRoundTrip(a: nat, b: nat, c: nat, d: nat)
    requires a <= 255 && b <= 255 && c <= 255 && d <= 255
    ensures Address(Dotted(a, b, c, d)) == Some(Joined(a, b, c, d))
  {
    hide Digits, Octets;
    NextOctet(a, Digits(b) + "." + (Digits(c) + "." + Digits(d)), 4, 0);
    NextOctet(b, Digits(c) + "." + Digits(d), 3, Appended(0, a));
    NextOctet(c, Digits(d), 2, Appended(Appended(0, a), b));
    LastOctet(d, Appended(Appended(Appended(0, a), b), c));
    ShiftsJoin(a as bv32, b as bv32, c as bv32, d as bv32);
  }

  lemma {:induction false} IntRoundTrip(n: nat)
    requires n <= 0x7fff_ffff
    ensures LeadingInt(Digits(n)) == Some(n)
  {
    hide Digits, Decimal;
    var s := Digits(n);
    DigitsRoundTrip(n);
    SpaceRunIs(s, 0);
    assert s[0..] == s && s[..|s|] == s;
    DigitRunIs(s, |s|);
  }

  /** An address, a slash and something. */
  lemma {:induction false} ParseSlash(address: string, tail: string)
    requires Address(address).Some?
    ensures var text := address + "/" + tail;
      && IndexOf(text, '/') == |address| && AddrPart(text) == address && text[|address| + 1..] == tail
      && Parse(text) == BlockOf(address, LeadingInt(tail))
  {
    hide Octets, LeadingInt, BlockOf;
    var text := address + "/" + tail;
    AddressChars(address, 4, 0);
    assert text[..|address|] == address && text[|address| + 1..] == tail;
    assert forall i :: 0 <= i < |address| ==> text[i] == address[i] && IsAddressChar(address[i]);
    IndexIs(text, '/', |address|);
  }

  /** A printed prefix parses to its block, whatever its length. */
  lemma {:induction false} PrefixRoundTrip(a: nat, b: nat, c: nat, d: nat, prefix: nat)
    requires a <= 255 && b <= 255 && c <= 255 && d <= 255 && prefix <= 32
    ensures Parse(Dotted(a, b, c, d) + "/" + Digits(prefix)) == Some(Block(Joined(a, b, c, d), PrefixByte(prefix)))
  {
    hide Digits, LeadingInt, Block, Joined, Dotted, PrefixByte, Parse;
    AddressRoundTrip(a, b, c, d);
    IntRoundTrip(prefix);
    ParseSlash(Dotted(a, b, c, d), Digits(prefix));
  }

  lemma {:induction false} IntGoesOn(n: nat, rest: string)
    requires n <= 0x7fff_ffff
    ensures LeadingInt(Digits(n) + "," + rest) == Some(n)
  {
    hide Digits, Decimal;
    var s := Digits(n) + "," + rest;
    DigitsRoundTrip(n);
    assert s[0] == Digits(n)[0];
    SpaceRunIs(s, 0);
    assert s[0..] == s && s[..|Digits(n)|] == Digits(n);
    assert forall i :: 0 <= i < |Digits(n)| ==> s[i] == Digits(n)[i];
    DigitRunIs(s, |Digits(n)|);
  }

  lemma {:induction false} PrintedHasNoComma(a: nat, b: nat, c: nat, d: nat, prefix: nat)
    requires a <= 255 && b <= 255 && c <= 255 && d <= 255
    ensures ',' !in Dotted(a, b, c, d) + "/" + Digits(prefix)
  {
  }

  /** A subnet text may go on after a comma: it is accepted as without, and what follows is
      read as more of the list. */
  lemma {:induction false} SubnetGoesOn(a: nat, b: nat, c: nat, d: nat, prefix: nat, rest: string)
    requires a <= 255 && b <= 255 && c <= 255 && d <= 255 && prefix <= 32
    ensures var text := Dotted(a, b, c, d) + "/" + Digits(prefix);
      && ParseSubnet(text + "," + rest) == ParseSubnet(text)
      && AfterComma(text + "," + rest) == ParseList(rest)
  {
    hide Digits, LeadingInt, Dotted, BlockOf, Parse, ParseList, AddrPart;
    var address := Dotted(a, b, c, d);
    var text := address + "/" + Digits(prefix);
    AddressRoundTrip(a, b, c, d);
    IntRoundTrip(prefix);
    IntGoesOn(prefix, rest);
    ParseSlash(address, Digits(prefix));
    ParseSlash(address, Digits(prefix) + "," + rest);
    assert text + "," + rest == address + "/" + (Digits(prefix) + "," + rest);
    PrintedHasNoComma(a, b, c, d, prefix);
    FollowsComma(text, rest);
  }

  lemma {:induction false} FollowsComma(text: string, rest: string)
    requires ',' !in text
    ensures AfterComma(text + "," + rest) == ParseList(rest)
  {
    hide ParseList;
    var s := text + "," + rest;
    assert s[|text| + 1..] == rest;
    assert forall i :: 0 <= i < |text| ==> s[i] == text[i];
    IndexIs(s, ',', |text|);
  }

  /** A printed address is accepted as a tunnel address. */
  lemma {:induction false} TunnelRoundTrip(a: nat, b: nat, c: nat, d: nat)
    requires a <= 255 && b <= 255 && c <= 255 && d <= 255
    ensures ParseTunnelAddress(Dotted(a, b, c, d)) == Some(Block(Joined(a, b, c, d), 32))
  {
    hide Digits, Octets, Dotted, Joined;
    var text := Dotted(a, b, c, d);
    AddressRoundTrip(a, b, c, d);
    AddressChars(text, 4, 0);
    IndexIs(text, '/', |text|);
    assert text[..|text|] == text;
  }

  /** A printed prefix without host bits is accepted as a subnet, and is a list of its own. */
  lemma {:induction false} SubnetRoundTrip(a: nat, b: nat, c: nat, d: nat, prefix: nat)
    requires a <= 255 && b <= 255 && c <= 255 && d <= 255 && prefix <= 32
    ensures var text := Dotted(a, b, c, d) + "/" + Digits(prefix);
      var block := Block(Joined(a, b, c, d), PrefixByte(prefix));
      && ParseList(text) == [block]
      && (block.network == Block(Joined(a, b, c, d), 32).network ==> ParseSubnet(text) == Some(block))
  {
    hide Digits, LeadingInt, Block, Dotted, Joined, Token, Parse, AddrPart;
    var address := Dotted(a, b, c, d);
    var text := address + "/" + Digits(prefix);
    AddressRoundTrip(a, b, c, d);
    PrefixRoundTrip(a, b, c, d, prefix);
    ThirtyTwo();
    ParseSlash(address, Digits(prefix));
    ParseSlash(address, "32");
    assert address + "/32" == address + "/" + "32";
    PrintedHasNoComma(a, b, c, d, prefix);
    ListOf(text, "");
    FirstEntry(text);
    IndexIs(text, ',', |text|);
    assert text[..|text|] == text;
  }
}
