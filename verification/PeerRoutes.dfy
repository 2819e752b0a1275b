/** Which routes the peers of a list are given. */
module PeerRoutes {
  import opened Options
  import opened Cidrs
  import opened CidrText

  datatype Peer = Peer(tunnelIp: string, privateSubnet: string)

  /** The tunnel plane, and the addresses no peer may claim. */
  datatype Rules = Rules(plane: seq<Cidr>, reserved: seq<bv32>)

  const DEFAULT_PLANE := Block(0x0A40_0000, 10)   // 10.64.0.0/10
  const POOL := Block(0x0A80_0000, 9)             // 10.128.0.0/9
  const MAX_SUBNET_PREFIX: bv8 := 24

  function ParsedPlane(texts: seq<string>): seq<Cidr> {
    if texts == [] then []
    else
      var c := Parse(texts[|texts| - 1]);
      ParsedPlane(texts[..|texts| - 1]) + if c.Some? then [c.value] else []
  }

  function PlaneOf(texts: seq<string>): seq<Cidr> {
    if ParsedPlane(texts) == [] then [DEFAULT_PLANE] else ParsedPlane(texts)
  }

  function ReservedOf(text: string): seq<bv32> {
    var c := ParseTunnelAddress(AddrPart(text));
    if c.Some? then [c.value.network] else []
  }

  function RulesOf(plane: seq<string>, own: string, server: string): Rules {
    Rules(PlaneOf(plane), ReservedOf(own) + ReservedOf(server))
  }

  predicate InPlane(rules: Rules, address: bv32) {
    exists i :: 0 <= i < |rules.plane| && rules.plane[i].Contains(address)
  }

  predicate HoldsReserved(rules: Rules, c: Cidr) {
    exists i :: 0 <= i < |rules.reserved| && c.Contains(rules.reserved[i])
  }

  // Valid claims

  function TunnelClaim(rules: Rules, p: Peer): Option<Cidr> {
    var c := ParseTunnelAddress(p.tunnelIp);
    if c.None? || c.value.network in rules.reserved || !InPlane(rules, c.value.network) then None else c
  }

  function SubnetClaim(rules: Rules, p: Peer): Option<Cidr> {
    if p.privateSubnet == "" then None
    else
      var c := ParseSubnet(p.privateSubnet);
      if c.None? || c.value.prefixLen < MAX_SUBNET_PREFIX || !Within(c.value, POOL) || HoldsReserved(rules, c.value) then None
      else c
  }

  datatype Claim = Claim(tunnel: Option<Cidr>, subnet: Option<Cidr>)

  function Claims(rules: Rules, peers: seq<Peer>): (claims: seq<Claim>)
    ensures |claims| == |peers|
    ensures forall i :: 0 <= i < |peers| ==> claims[i] == Claim(TunnelClaim(rules, peers[i]), SubnetClaim(rules, peers[i]))
  {
    seq(|peers|, i requires 0 <= i < |peers| => Claim(TunnelClaim(rules, peers[i]), SubnetClaim(rules, peers[i])))
  }

  // Collisions

  predicate SameTunnel(a: Claim, b: Claim) {
    a.tunnel.Some? && b.tunnel.Some? && a.tunnel.value.network == b.tunnel.value.network
  }

  predicate SubnetsOverlap(a: Claim, b: Claim) {
    a.subnet.Some? && b.subnet.Some? && Overlaps(a.subnet.value, b.subnet.value)
  }

  predicate Covers(a: Claim, b: Claim) {
    a.subnet.Some? && b.tunnel.Some? && a.subnet.value.Contains(b.tunnel.value.network)
  }

  predicate TunnelFree(claims: seq<Claim>, i: nat)
    requires i < |claims|
  {
    forall j :: 0 <= j < |claims| && j != i ==> !SameTunnel(claims[i], claims[j])
  }

  predicate SubnetFree(claims: seq<Claim>, i: nat)
    requires i < |claims|
  {
    forall j :: 0 <= j < |claims| && j != i ==> !SubnetsOverlap(claims[i], claims[j]) && !Covers(claims[i], claims[j])
  }

  predicate TunnelGranted(claims: seq<Claim>, i: nat)
    requires i < |claims|
  {
    claims[i].tunnel.Some? && TunnelFree(claims, i)
  }

  predicate SubnetGranted(claims: seq<Claim>, i: nat)
    requires i < |claims|
  {
    TunnelGranted(claims, i) && claims[i].subnet.Some? && SubnetFree(claims, i)
  }

  /** The routes of an entry. */
  function Granted(claims: seq<Claim>, i: nat): seq<Cidr>
    requires i < |claims|
  {
    (if TunnelGranted(claims, i) then [claims[i].tunnel.value] else [])
    + if SubnetGranted(claims, i) then [claims[i].subnet.value] else []
  }

  /** Their text. */
  function RouteText(claims: seq<Claim>, peers: seq<Peer>, i: nat): string
    requires |claims| == |peers| && i < |peers|
  {
    if !TunnelGranted(claims, i) then ""
    else
      AddrPart(peers[i].tunnelIp) + "/32" + if SubnetGranted(claims, i) then "," + peers[i].privateSubnet else ""
  }

  // The admission loops

  method ReadPlane(texts: seq<string>) returns (plane: seq<Cidr>)
    ensures plane == PlaneOf(texts)
  {
    plane := [];
    for i := 0 to |texts|
      invariant plane == ParsedPlane(texts[..i])
    {
      assert texts[..i + 1][..i] == texts[..i];
      var c := Parse(texts[i]);
      if c.Some? {
        plane := plane + [c.value];
      }
    }
    assert texts[..|texts|] == texts;
    if plane == [] {
      plane := [DEFAULT_PLANE];
    }
  }

  /** The pairs that nested loops over `i < j` have met. */
  predicate Met(i: int, j: int, a: int, b: int) {
    || (a < b && (a < i || (a == i && b < j)))
    || (b < a && (b < i || (b == i && a < j)))
  }

  ghost predicate TunnelFreeSoFar(claims: seq<Claim>, i: int, j: int, k: nat)
    requires k < |claims|
  {
    forall l :: 0 <= l < |claims| && Met(i, j, k, l) ==> !SameTunnel(claims[k], claims[l])
  }

  ghost predicate SubnetFreeSoFar(claims: seq<Claim>, i: int, j: int, k: nat)
    requires k < |claims|
  {
    forall l :: 0 <= l < |claims| && Met(i, j, k, l) ==> !SubnetsOverlap(claims[k], claims[l]) && !Covers(claims[k], claims[l])
  }

  ghost predicate Flags(claims: seq<Claim>, i: int, j: int, tunnelOk: seq<bool>, subnetOk: seq<bool>) {
    && |tunnelOk| == |claims| && |subnetOk| == |claims|
    && (forall k :: 0 <= k < |claims| ==> (tunnelOk[k] <==> TunnelFreeSoFar(claims, i, j, k)))
    && (forall k :: 0 <= k < |claims| ==> (subnetOk[k] <==> SubnetFreeSoFar(claims, i, j, k)))
  }

  function Off(flags: seq<bool>, k: nat, off: bool): (r: seq<bool>)
    requires k < |flags|
  {
    if off then flags[k := false] else flags
  }

  lemma {:induction false} Symmetric(a: Claim, b: Claim)
    ensures SameTunnel(a, b) == SameTunnel(b, a) && SubnetsOverlap(a, b) == SubnetsOverlap(b, a)
  {
  }

  /** Meeting one more pair. */
  lemma {:induction false} MeetPair(claims: seq<Claim>, i: nat, j: nat, k: nat)
    requires i < j < |claims| && k < |claims|
    ensures TunnelFreeSoFar(claims, i, j + 1, k) <==>
      TunnelFreeSoFar(claims, i, j, k) && (k == i ==> !SameTunnel(claims[i], claims[j])) && (k == j ==> !SameTunnel(claims[j], claims[i]))
    ensures SubnetFreeSoFar(claims, i, j + 1, k) <==>
      && SubnetFreeSoFar(claims, i, j, k)
      && (k == i ==> !SubnetsOverlap(claims[i], claims[j]) && !Covers(claims[i], claims[j]))
      && (k == j ==> !SubnetsOverlap(claims[j], claims[i]) && !Covers(claims[j], claims[i]))
  {
  }

  method FindCollisions(claims: seq<Claim>) returns (tunnelOk: seq<bool>, subnetOk: seq<bool>)
    ensures |tunnelOk| == |claims| && |subnetOk| == |claims|
    ensures forall k :: 0 <= k < |claims| ==> (tunnelOk[k] <==> TunnelFree(claims, k))
    ensures forall k :: 0 <= k < |claims| ==> (subnetOk[k] <==> SubnetFree(claims, k))
  {
    hide SameTunnel, SubnetsOverlap, Covers, TunnelFreeSoFar, SubnetFreeSoFar, TunnelFree, SubnetFree;
    var n := |claims|;
    tunnelOk, subnetOk := seq(n, _ => true), seq(n, _ => true);
    NothingMet(claims, tunnelOk, subnetOk);
    for i := 0 to n
      invariant Flags(claims, i, i + 1, tunnelOk, subnetOk)
    {
      for j := i + 1 to n
        invariant Flags(claims, i, j, tunnelOk, subnetOk)
      {
        var a, b := claims[i], claims[j];
        ghost var t, s := tunnelOk, subnetOk;
        var clash := SameTunnel(a, b);
        tunnelOk := Off(Off(tunnelOk, i, clash), j, clash);
        clash := SubnetsOverlap(a, b);
        subnetOk := Off(Off(subnetOk, i, clash), j, clash);
        subnetOk := Off(subnetOk, i, Covers(a, b));
        subnetOk := Off(subnetOk, j, Covers(b, a));
        Symmetric(a, b);
        forall k | 0 <= k < n
          ensures tunnelOk[k] <==> TunnelFreeSoFar(claims, i, j + 1, k)
          ensures subnetOk[k] <==> SubnetFreeSoFar(claims, i, j + 1, k)
        {
          MeetPair(claims, i, j, k);
        }
      }
      RowMet(claims, i, tunnelOk, subnetOk);
    }
    AllMet(claims, tunnelOk, subnetOk);
  }

  lemma {:induction false} NothingMet(claims: seq<Claim>, tunnelOk: seq<bool>, subnetOk: seq<bool>)
    requires |tunnelOk| == |claims| && |subnetOk| == |claims|
    requires forall k :: 0 <= k < |claims| ==> tunnelOk[k] && subnetOk[k]
    ensures Flags(claims, 0, 1, tunnelOk, subnetOk)
  {
  }

  lemma {:induction false} RowMet(claims: seq<Claim>, i: nat, tunnelOk: seq<bool>, subnetOk: seq<bool>)
    requires i < |claims| && Flags(claims, i, |claims|, tunnelOk, subnetOk)
    ensures Flags(claims, i + 1, i + 2, tunnelOk, subnetOk)
  {
  }

  lemma {:induction false} AllMet(claims: seq<Claim>, tunnelOk: seq<bool>, subnetOk: seq<bool>)
    requires Flags(claims, |claims|, |claims| + 1, tunnelOk, subnetOk)
    ensures forall k :: 0 <= k < |claims| ==> (tunnelOk[k] <==> TunnelFree(claims, k))
    ensures forall k :: 0 <= k < |claims| ==> (subnetOk[k] <==> SubnetFree(claims, k))
  {
  }

  /** One text per entry: its routes, or nothing. */
  method PeerAllowedIps(peers: seq<Peer>, plane: seq<string>, own: string, server: string) returns (out: seq<string>)
    ensures |out| == |peers|
    ensures var claims := Claims(RulesOf(plane, own, server), peers);
      forall i :: 0 <= i < |peers| ==> out[i] == RouteText(claims, peers, i)
  {
    hide TunnelClaim, SubnetClaim, TunnelFree, SubnetFree, PlaneOf, ReservedOf, AddrPart;
    var blocks := ReadPlane(plane);
    var rules := Rules(blocks, ReservedOf(own) + ReservedOf(server));
    var n := |peers|;
    var claims: seq<Claim> := [];
    for i := 0 to n
      invariant |claims| == i
      invariant forall k :: 0 <= k < i ==> claims[k] == Claim(TunnelClaim(rules, peers[k]), SubnetClaim(rules, peers[k]))
    {
      claims := claims + [Claim(TunnelClaim(rules, peers[i]), SubnetClaim(rules, peers[i]))];
    }
    assert claims == Claims(rules, peers);
    var tunnelOk, subnetOk := FindCollisions(claims);
    out := [];
    for i := 0 to n
      invariant |out| == i
      invariant forall k :: 0 <= k < i ==> out[k] == RouteText(claims, peers, k)
    {
      var route := "";
      if claims[i].tunnel.Some? && tunnelOk[i] {
        route := AddrPart(peers[i].tunnelIp) + "/32";
        if claims[i].subnet.Some? && subnetOk[i] {
          route := route + "," + peers[i].privateSubnet;
        }
      }
      out := out + [route];
    }
  }

  // What the routes are

  /** Claims as a list of peers can make them. */
  ghost predicate WellFormed(rules: Rules, c: Claim) {
    && (c.tunnel.Some? ==>
      && Aligned(c.tunnel.value) && c.tunnel.value.prefixLen == 32
      && c.tunnel.value.network !in rules.reserved && InPlane(rules, c.tunnel.value.network))
    && (c.subnet.Some? ==>
      && Aligned(c.subnet.value) && Includes(POOL, c.subnet.value) && !HoldsReserved(rules, c.subnet.value)
      && MAX_SUBNET_PREFIX <= c.subnet.value.prefixLen)
  }

  lemma {:induction false} PoolIsAligned()
    ensures Aligned(POOL)
  {
  }

  lemma {:induction false} ClaimsAreWellFormed(rules: Rules, p: Peer)
    ensures WellFormed(rules, Claim(TunnelClaim(rules, p), SubnetClaim(rules, p)))
  {
    hide Parse, Aligned, Includes, Block, Within;
    PoolIsAligned();
    ParsedIsAligned(p.tunnelIp);
    ParsedIsAligned(p.privateSubnet);
    var c := SubnetClaim(rules, p);
    if c.Some? {
      WithinIffIncluded(c.value, POOL);
    }
  }

  /** A /32 holds one address. */
  lemma {:induction false} OneAddress(c: Cidr, ip: bv32)
    requires Aligned(c) && c.prefixLen == 32
    ensures c.Contains(ip) <==> ip == c.network
  {
  }

  /** The independent reading of the rule: a tunnel address is granted exactly when the claim
      is valid and no other valid tunnel claim is the same address. */
  lemma {:induction false} TunnelGrantedExactly(rules: Rules, peers: seq<Peer>, i: nat)
    requires i < |peers|
    ensures TunnelGranted(Claims(rules, peers), i) <==>
      && TunnelClaim(rules, peers[i]).Some?
      && forall j :: 0 <= j < |peers| && j != i && TunnelClaim(rules, peers[j]).Some? ==>
           !Share(TunnelClaim(rules, peers[i]).value, TunnelClaim(rules, peers[j]).value)
  {
    hide TunnelClaim, SubnetClaim, Share, Aligned;
    var claims := Claims(rules, peers);
    forall j | 0 <= j < |peers| && claims[i].tunnel.Some? && claims[j].tunnel.Some?
      ensures SameTunnel(claims[i], claims[j]) <==> Share(claims[i].tunnel.value, claims[j].tunnel.value)
    {
      ClaimsAreWellFormed(rules, peers[i]);
      ClaimsAreWellFormed(rules, peers[j]);
      OverlapsIffShared(claims[i].tunnel.value, claims[j].tunnel.value);
      OneAddress(claims[i].tunnel.value, claims[j].tunnel.value.network);
      OneAddress(claims[j].tunnel.value, claims[i].tunnel.value.network);
    }
  }

  /** No address of this claim belongs to a valid claim of that peer. */
  ghost predicate Apart(c: Cidr, claim: Claim) {
    (claim.tunnel.Some? ==> !Share(c, claim.tunnel.value)) && (claim.subnet.Some? ==> !Share(c, claim.subnet.value))
  }

  lemma {:induction false} ApartIffFree(rules: Rules, a: Claim, b: Claim)
    requires WellFormed(rules, a) && WellFormed(rules, b) && a.subnet.Some?
    ensures Apart(a.subnet.value, b) <==> !SubnetsOverlap(a, b) && !Covers(a, b)
  {
    hide Share, Aligned, Includes;
    if b.subnet.Some? {
      OverlapsIffShared(a.subnet.value, b.subnet.value);
    }
    if b.tunnel.Some? {
      OverlapsIffShared(a.subnet.value, b.tunnel.value);
      OneAddress(b.tunnel.value, a.subnet.value.network);
      SelfContained(a.subnet.value);
    }
  }

  lemma {:induction false} SelfContained(c: Cidr)
    requires Aligned(c)
    ensures c.Contains(c.network)
  {
  }

  /** And a subnet exactly when the tunnel address is granted, the claim is valid and it
      shares no address with any valid claim of another peer. */
  lemma {:induction false} SubnetGrantedExactly(rules: Rules, peers: seq<Peer>, i: nat)
    requires i < |peers|
    ensures SubnetGranted(Claims(rules, peers), i) <==>
      && TunnelGranted(Claims(rules, peers), i) && SubnetClaim(rules, peers[i]).Some?
      && forall j :: 0 <= j < |peers| && j != i ==> Apart(SubnetClaim(rules, peers[i]).value, Claims(rules, peers)[j])
  {
    hide TunnelClaim, SubnetClaim, Apart, WellFormed, SubnetsOverlap, Covers;
    var claims := Claims(rules, peers);
    if claims[i].subnet.Some? {
      forall j | 0 <= j < |peers|
        ensures Apart(claims[i].subnet.value, claims[j]) <==> !SubnetsOverlap(claims[i], claims[j]) && !Covers(claims[i], claims[j])
      {
        ClaimsAreWellFormed(rules, peers[i]);
        ClaimsAreWellFormed(rules, peers[j]);
        ApartIffFree(rules, claims[i], claims[j]);
      }
    }
  }

  lemma {:induction false} ShareIsSymmetric(a: Cidr, b: Cidr)
    ensures Share(a, b) == Share(b, a)
  {
  }

  /** Routes of different entries never share an address. */
  lemma {:induction false} RoutesAreDisjoint(rules: Rules, peers: seq<Peer>, i: nat, j: nat, a: Cidr, b: Cidr)
    requires i < |peers| && j < |peers| && i != j
    requires a in Granted(Claims(rules, peers), i) && b in Granted(Claims(rules, peers), j)
    ensures !Share(a, b)
  {
    hide TunnelClaim, SubnetClaim, TunnelFree, SubnetFree, Share;
    var claims := Claims(rules, peers);
    TunnelGrantedExactly(rules, peers, i);
    SubnetGrantedExactly(rules, peers, i);
    SubnetGrantedExactly(rules, peers, j);
    ShareIsSymmetric(a, b);
  }

  /** A route holds no reserved address, is no wider than the largest subnet, and lies in the
      plane or in the private pool. */
  lemma {:induction false} RoutesAreAllowed(rules: Rules, peers: seq<Peer>, i: nat, a: Cidr, address: bv32)
    requires i < |peers| && a in Granted(Claims(rules, peers), i) && a.Contains(address)
    ensures address !in rules.reserved && MAX_SUBNET_PREFIX <= a.prefixLen
    ensures InPlane(rules, address) || POOL.Contains(address)
  {
    hide TunnelClaim, SubnetClaim, Aligned, Block;
    ClaimsAreWellFormed(rules, peers[i]);
    var c := Claims(rules, peers)[i];
    if c.tunnel.Some? && a == c.tunnel.value {
      OneAddress(a, address);
    }
  }

  /** In particular no route holds this device's or the session server's tunnel address. */
  lemma {:induction false} RoutesAvoidBothEnds(peers: seq<Peer>, plane: seq<string>, own: string, server: string, i: nat, a: Cidr, end: Cidr)
    requires i < |peers| && a in Granted(Claims(RulesOf(plane, own, server), peers), i)
    requires ParseTunnelAddress(AddrPart(own)) == Some(end) || ParseTunnelAddress(AddrPart(server)) == Some(end)
    ensures !a.Contains(end.network)
  {
    hide ParseTunnelAddress, Granted, Claims, PlaneOf, AddrPart;
    if a.Contains(end.network) {
      RoutesAreAllowed(RulesOf(plane, own, server), peers, i, a, end.network);
    }
  }

  // Order does not matter

  /** A reordering of indices. */
  ghost predicate Permutes(perm: seq<int>, n: nat) {
    && |perm| == n
    && (forall i :: 0 <= i < n ==> 0 <= perm[i] < n)
    && (forall i, j :: 0 <= i < j < n ==> perm[i] != perm[j])
    && (forall k :: 0 <= k < n ==> k in perm)
  }

  function Reordered<T>(s: seq<T>, perm: seq<int>): (r: seq<T>)
    requires forall i :: 0 <= i < |perm| ==> 0 <= perm[i] < |s|
    ensures |r| == |perm| && forall i :: 0 <= i < |perm| ==> r[i] == s[perm[i]]
  {
    seq(|perm|, i requires 0 <= i < |perm| => s[perm[i]])
  }

  lemma {:induction false} FreedomIsReordered(claims: seq<Claim>, perm: seq<int>, i: nat)
    requires Permutes(perm, |claims|) && i < |claims|
    ensures TunnelFree(Reordered(claims, perm), i) <==> TunnelFree(claims, perm[i])
    ensures SubnetFree(Reordered(claims, perm), i) <==> SubnetFree(claims, perm[i])
  {
    hide SameTunnel, SubnetsOverlap, Covers;
    var now := Reordered(claims, perm);
    forall j | 0 <= j < |claims| ensures exists k :: 0 <= k < |claims| && perm[k] == j && now[k] == claims[j] {
      assert j in perm;
      var k :| 0 <= k < |perm| && perm[k] == j;
      assert now[k] == claims[j];
    }
  }

  /** Permuting the list permutes the result. */
  lemma {:induction false} RoutesAreReordered(rules: Rules, peers: seq<Peer>, perm: seq<int>, i: nat)
    requires Permutes(perm, |peers|) && i < |peers|
    ensures Granted(Claims(rules, Reordered(peers, perm)), i) == Granted(Claims(rules, peers), perm[i])
    ensures RouteText(Claims(rules, Reordered(peers, perm)), Reordered(peers, perm), i) == RouteText(Claims(rules, peers), peers, perm[i])
  {
    hide TunnelClaim, SubnetClaim, TunnelFree, SubnetFree;
    var claims := Claims(rules, peers);
    assert Claims(rules, Reordered(peers, perm)) == Reordered(claims, perm);
    FreedomIsReordered(claims, perm, i);
  }

  // The text that is installed

  /** Read back as the dataplane reads it, an entry's text is its granted routes, and after
      a granted subnet whatever the subnet's text lists behind a comma. */
  lemma {:induction false} InstalledRoutes(rules: Rules, peers: seq<Peer>, i: nat)
    requires i < |peers| && RouteText(Claims(rules, peers), peers, i) != ""
    ensures var claims := Claims(rules, peers);
      ParseList(RouteText(claims, peers, i))
      == Granted(claims, i) + if SubnetGranted(claims, i) then AfterComma(peers[i].privateSubnet) else []
  {
    hide ParseTunnelAddress, ParseSubnet, ParseList, TunnelFree, SubnetFree, AfterComma;
    var claims := Claims(rules, peers);
    var tunnel, subnet := peers[i].tunnelIp, peers[i].privateSubnet;
    RouteReadsBack(tunnel, subnet);
    assert AddrPart(tunnel) + "/32" + ("," + subnet) == AddrPart(tunnel) + "/32" + "," + subnet;
    assert AddrPart(tunnel) + "/32" + "" == AddrPart(tunnel) + "/32";
  }

  /** So exactly the granted routes are installed if and only if nothing that parses follows a
      comma in the text of a granted subnet. */
  lemma {:induction false} InstalledIffNothingFollows(rules: Rules, peers: seq<Peer>, i: nat)
    requires i < |peers| && RouteText(Claims(rules, peers), peers, i) != ""
    ensures var claims := Claims(rules, peers);
      ParseList(RouteText(claims, peers, i)) == Granted(claims, i) <==>
      (SubnetGranted(claims, i) ==> AfterComma(peers[i].privateSubnet) == [])
  {
    hide ParseList, Granted, RouteText, AfterComma, SubnetGranted, Claims;
    InstalledRoutes(rules, peers, i);
    var claims := Claims(rules, peers);
    var more := if SubnetGranted(claims, i) then AfterComma(peers[i].privateSubnet) else [];
    assert |Granted(claims, i) + more| == |Granted(claims, i)| + |more|;
    assert more == [] ==> Granted(claims, i) + more == Granted(claims, i);
  }

  const SUBNET_TEXT := Dotted(10, 128, 1, 0) + "/" + Digits(24)
  const OTHER_TEXT := Dotted(192, 168, 0, 0) + "/" + Digits(16)
  const OTHER_BLOCK := Block(Joined(192, 168, 0, 0), PrefixByte(16))

  // The blocks of the example, as words

  lemma {:induction false} JoinedWords()
    ensures Joined(10, 64, 0, 2) == 0x0A40_0002
    ensures Joined(10, 128, 1, 0) == 0x0A80_0100
  {
    assert 10 as bv32 == 0x0A && 64 as bv32 == 0x40 && 0 as bv32 == 0 && 2 as bv32 == 2;
    assert 128 as bv32 == 0x80 && 1 as bv32 == 1;
  }

  lemma {:induction false} LongMasks()
    ensures Mask(32) == 0xFFFF_FFFF
    ensures Mask(24) == 0xFFFF_FF00
  {
  }

  lemma {:induction false} ShortMasks()
    ensures Mask(10) == 0xFFC0_0000
    ensures Mask(9) == 0xFF80_0000
  {
  }

  lemma {:induction false} ExamplePrefix()
    ensures PrefixByte(24) == 24
  {
  }

  lemma {:induction false} TunnelExample()
    ensures var tunnel := Block(Joined(10, 64, 0, 2), 32);
      tunnel.prefixLen == 32 && DEFAULT_PLANE.Contains(tunnel.network)
  {
    hide Mask, Joined;
    JoinedWords();
    LongMasks();
    ShortMasks();
    assert DEFAULT_PLANE.network == 0x0A40_0000;
  }

  lemma {:induction false} SubnetExample()
    ensures var subnet := Block(Joined(10, 128, 1, 0), PrefixByte(24));
      && subnet.network == Block(Joined(10, 128, 1, 0), 32).network
      && !(subnet.prefixLen < MAX_SUBNET_PREFIX) && Within(subnet, POOL)
  {
    hide Mask, Joined, PrefixByte;
    JoinedWords();
    LongMasks();
    ShortMasks();
    ExamplePrefix();
    assert POOL.network == 0x0A80_0000;
  }

  lemma {:induction false} ExampleRules()
    ensures RulesOf([], "", "") == Rules([DEFAULT_PLANE], [])
  {
  }

  /** An input on which more is installed than was granted: the text of a granted subnet goes
      on, after a comma, with a block outside the pool. */
  lemma {:induction false} MoreThanGranted()
    ensures var peers := [Peer(Dotted(10, 64, 0, 2), SUBNET_TEXT + "," + OTHER_TEXT)];
      var claims := Claims(RulesOf([], "", ""), peers);
      && SubnetGranted(claims, 0)
      && ParseList(RouteText(claims, peers, 0)) == Granted(claims, 0) + [OTHER_BLOCK]
  {
    hide Dotted, Joined, Digits, Block, ParseList, ParseSubnet, ParseTunnelAddress, RouteText, AfterComma;
    var rules := RulesOf([], "", "");
    var peer := Peer(Dotted(10, 64, 0, 2), SUBNET_TEXT + "," + OTHER_TEXT);
    var claims := Claims(rules, [peer]);
    ExampleRules();
    ExampleClaims(rules, peer);
    SubnetGoesOn(10, 128, 1, 0, 24, OTHER_TEXT);
    SubnetRoundTrip(192, 168, 0, 0, 16);
    TextIsNotEmpty(claims, [peer], 0);
    InstalledRoutes(rules, [peer], 0);
  }

  lemma {:induction false} ExampleClaims(rules: Rules, peer: Peer)
    requires rules == Rules([DEFAULT_PLANE], [])
    requires peer == Peer(Dotted(10, 64, 0, 2), SUBNET_TEXT + "," + OTHER_TEXT)
    ensures TunnelClaim(rules, peer).Some? && SubnetClaim(rules, peer).Some?
  {
    hide Dotted, Joined, Digits, ParseSubnet, ParseTunnelAddress, Block, Within;
    TunnelRoundTrip(10, 64, 0, 2);
    SubnetGoesOn(10, 128, 1, 0, 24, OTHER_TEXT);
    SubnetRoundTrip(10, 128, 1, 0, 24);
    TunnelExample();
    SubnetExample();
    assert rules.plane[0] == DEFAULT_PLANE;
  }

  lemma {:induction false} TextIsNotEmpty(claims: seq<Claim>, peers: seq<Peer>, i: nat)
    requires |claims| == |peers| && i < |peers| && TunnelGranted(claims, i)
    ensures RouteText(claims, peers, i) != ""
  {
  }
}
