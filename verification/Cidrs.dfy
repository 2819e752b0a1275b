/** IPv4 prefixes in host byte order. */
module Cidrs {

  datatype Cidr = Cidr(network: bv32, mask: bv32, prefixLen: bv8) {
    predicate Contains(ip: bv32) {
      ip & mask == network
    }
  }

  /** The mask of a prefix length: as many leading ones. */
  function Mask(prefixLen: bv8): bv32
    requires prefixLen <= 32
  {
    if prefixLen == 0 then 0 else !((1 << (32 - prefixLen)) - 1)
  }

  /** A block as section 3.1 of RFC 4632 has it: no bits below the prefix. */
  predicate Aligned(c: Cidr) {
    c.prefixLen <= 32 && c.mask == Mask(c.prefixLen) && c.network & c.mask == c.network
  }

  /** The bits below a prefix: the number of other addresses in a block. */
  function LowBits(prefixLen: bv8): bv32
    requires prefixLen <= 32
  {
    if prefixLen == 0 then 0xFFFF_FFFF else (1 << (32 - prefixLen)) - 1
  }

  /** A mask leaves exactly these free. */
  lemma {:induction false} MaskIsComplement(prefixLen: bv8)
    requires prefixLen <= 32
    ensures Mask(prefixLen) == !LowBits(prefixLen)
  {
  }

  predicate Overlaps(a: Cidr, b: Cidr) {
    a.Contains(b.network) || b.Contains(a.network)
  }

  predicate Within(inner: Cidr, outer: Cidr) {
    outer.prefixLen <= inner.prefixLen && outer.Contains(inner.network)
  }

  lemma {:induction false} MasksAreNested(p: bv8, q: bv8)
    requires p <= q <= 32
    ensures Mask(p) & Mask(q) == Mask(p)
  {
  }

  lemma {:induction false} SharedAddress(a: Cidr, b: Cidr, ip: bv32)
    requires Aligned(a) && Aligned(b) && a.prefixLen <= b.prefixLen && a.Contains(ip) && b.Contains(ip)
    ensures a.Contains(b.network)
  {
    MasksAreNested(a.prefixLen, b.prefixLen);
    Regroup(ip, a.mask, b.mask);
  }

  lemma {:induction false} Regroup(ip: bv32, m: bv32, n: bv32)
    requires m & n == m
    ensures (ip & n) & m == ip & m
  {
  }

  ghost predicate Share(a: Cidr, b: Cidr) {
    exists ip: bv32 :: a.Contains(ip) && b.Contains(ip)
  }

  /** The overlap test is exact on aligned blocks. */
  lemma {:induction false} OverlapsIffShared(a: Cidr, b: Cidr)
    requires Aligned(a) && Aligned(b)
    ensures Overlaps(a, b) <==> Share(a, b)
  {
    if a.Contains(b.network) {
      assert b.Contains(b.network);
    }
    if b.Contains(a.network) {
      assert a.Contains(a.network);
    }
    if ip: bv32 :| a.Contains(ip) && b.Contains(ip) {
      if a.prefixLen <= b.prefixLen {
        SharedAddress(a, b, ip);
      } else {
        SharedAddress(b, a, ip);
      }
    }
  }

  ghost predicate Includes(outer: Cidr, inner: Cidr) {
    forall ip: bv32 :: inner.Contains(ip) ==> outer.Contains(ip)
  }

  /** The lowest bit of a mask that a shorter one lacks. */
  lemma {:induction false} BitBetween(p: bv8, q: bv8)
    requires p < q <= 32
    ensures (1 << (32 - q)) & Mask(p) == 0
    ensures (1 << (32 - q)) & Mask(q) == 1 << (32 - q)
    ensures (1 as bv32) << (32 - q) != 0
  {
  }

  lemma {:induction false} Flip(n: bv32, bit: bv32, m: bv32)
    ensures bit & m == 0 ==> (n ^ bit) & m == n & m
    ensures bit & m == bit && bit != 0 ==> (n ^ bit) & m != n & m
  {
  }

  lemma {:induction false} WithinContains(inner: Cidr, outer: Cidr, ip: bv32)
    requires Aligned(inner) && Aligned(outer) && Within(inner, outer) && inner.Contains(ip)
    ensures outer.Contains(ip)
  {
    hide Mask;
    MasksAreNested(outer.prefixLen, inner.prefixLen);
    Regroup(ip, outer.mask, inner.mask);
  }

  /** A shorter prefix holds an address that the longer one does not. */
  lemma {:induction false} ShorterIsWider(inner: Cidr, outer: Cidr) returns (ip: bv32)
    requires Aligned(inner) && Aligned(outer) && inner.prefixLen < outer.prefixLen && outer.Contains(inner.network)
    ensures inner.Contains(ip) && !outer.Contains(ip)
  {
    hide Mask;
    var bit: bv32 := 1 << (32 - outer.prefixLen);
    BitBetween(inner.prefixLen, outer.prefixLen);
    Flip(inner.network, bit, inner.mask);
    Flip(inner.network, bit, outer.mask);
    ip := inner.network ^ bit;
  }

  /** The containment test is exact on aligned blocks. */
  lemma {:induction false} WithinIffIncluded(inner: Cidr, outer: Cidr)
    requires Aligned(inner) && Aligned(outer)
    ensures Within(inner, outer) <==> Includes(outer, inner)
  {
    hide Mask;
    if Within(inner, outer) {
      forall ip: bv32 | inner.Contains(ip) ensures outer.Contains(ip) {
        WithinContains(inner, outer, ip);
      }
    }
    assert inner.Contains(inner.network);
    if outer.Contains(inner.network) && inner.prefixLen < outer.prefixLen {
      var ip := ShorterIsWider(inner, outer);
    }
  }
}
