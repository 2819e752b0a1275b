/** Wall-clock slots that both ends of a pair compute on their own. */
module PairSlots {

  type Byte = b: int | 0 <= b < 256
  type Key = seq<Byte>

  /** The remainder of C++: it has the sign of the dividend. */
  function TruncatedRemainder(a: int, b: int): int
    requires 0 < b
  {
    if 0 <= a then a % b else -(-a % b)
  }

  /** Milliseconds to the next slot. */
  function NextSlotDelay(now: int, interval: int, offset: int): int {
    if interval <= 0 then 1
    else
      var phase := TruncatedRemainder(TruncatedRemainder(now + offset, interval) + interval, interval);
      interval - phase
  }

  /** Instants of the grid of a pair. */
  predicate OnGrid(t: int, interval: int, offset: int)
    requires 0 < interval
  {
    (t + offset) % interval == 0
  }

  lemma {:induction false} QuotientIsUnique(x: int, m: int, q: int, r: int)
    requires 0 < m && 0 <= r < m && x == q * m + r
    ensures x % m == r && x / m == q
  {
    var d := x / m - q;
    assert x == (x / m) * m + x % m;
    assert d * m == r - x % m;
    assert 1 <= d ==> m <= d * m;
    assert d <= -1 ==> d * m <= -m;
  }

  lemma {:induction false} PhaseIsRemainder(x: int, m: int)
    requires 0 < m
    ensures TruncatedRemainder(TruncatedRemainder(x, m) + m, m) == x % m
  {
    var t := TruncatedRemainder(x, m);
    if 0 <= x {
      QuotientIsUnique(t + m, m, 1, x % m);
    } else {
      var q, r := (-x) / m, (-x) % m;
      assert -x == q * m + r;
      if r == 0 {
        assert x == (-q) * m + 0;
        QuotientIsUnique(x, m, -q, 0);
        QuotientIsUnique(m, m, 1, 0);
      } else {
        assert x == (-q - 1) * m + (m - r);
        QuotientIsUnique(x, m, -q - 1, m - r);
        QuotientIsUnique(m - r, m, 0, m - r);
      }
    }
  }

  /** The instant that a clock reading leads to: the end of its window. */
  lemma {:induction false} SlotInstant(now: int, interval: int, offset: int)
    requires 0 < interval
    ensures now + NextSlotDelay(now, interval, offset) == ((now + offset) / interval + 1) * interval - offset
    ensures 1 <= NextSlotDelay(now, interval, offset) <= interval
  {
    PhaseIsRemainder(now + offset, interval);
    var q := (now + offset) / interval;
    assert now + offset == q * interval + (now + offset) % interval;
    assert (q + 1) * interval == q * interval + interval;
  }

  /** The delay is the least positive one that lands on the grid, for every clock, negative
      ones included. */
  lemma {:induction false} DelayIsLeast(now: int, interval: int, offset: int, delay: int)
    requires 0 < interval && 0 < delay
    ensures OnGrid(now + NextSlotDelay(now, interval, offset), interval, offset)
    ensures delay < NextSlotDelay(now, interval, offset) ==> !OnGrid(now + delay, interval, offset)
  {
    SlotInstant(now, interval, offset);
    var q := (now + offset) / interval;
    QuotientIsUnique((q + 1) * interval, interval, q + 1, 0);
    if delay < NextSlotDelay(now, interval, offset) {
      PhaseIsRemainder(now + offset, interval);
      var r := (now + offset) % interval + delay;
      assert now + delay + offset == q * interval + r;
      QuotientIsUnique(now + delay + offset, interval, q, r);
    }
  }

  lemma {:induction false} SameMultiple(a: int, b: int, m: int)
    requires 0 < m
    ensures a * m == b * m <==> a == b
  {
  }

  /** Rendezvous: two clock readings lead to the same instant exactly when they fall between
      the same two slots. */
  lemma {:induction false} SameWindowSameInstant(t: int, u: int, interval: int, offset: int)
    requires 0 < interval
    ensures t + NextSlotDelay(t, interval, offset) == u + NextSlotDelay(u, interval, offset)
       <==> (t + offset) / interval == (u + offset) / interval
  {
    hide NextSlotDelay;
    SlotInstant(t, interval, offset);
    SlotInstant(u, interval, offset);
    SameMultiple((t + offset) / interval + 1, (u + offset) / interval + 1, interval);
  }

  // The offset of a pair

  /** The order of byte strings. */
  predicate Less(a: Key, b: Key) {
    b != [] && (a == [] || a[0] < b[0] || (a[0] == b[0] && Less(a[1..], b[1..])))
  }

  lemma {:induction false} LessIsTotal(a: Key, b: Key)
    ensures a == b || Less(a, b) || Less(b, a)
    ensures !(Less(a, b) && Less(b, a))
    ensures a == b ==> !Less(a, b)
  {
    if a != [] && b != [] {
      LessIsTotal(a[1..], b[1..]);
      assert a == [a[0]] + a[1..] && b == [b[0]] + b[1..];
    }
  }

  function Lower(a: Key, b: Key): Key {
    if Less(b, a) then b else a
  }

  function Higher(a: Key, b: Key): Key {
    if Less(a, b) then b else a
  }

  /** 64-bit words, with exclusive or and a product that wraps around. */
  const WORD: int := 0x1_0000_0000_0000_0000
  const FNV_BASIS: nat := 0xcbf2_9ce4_8422_2325
  const FNV_PRIME: nat := 0x100_0000_01b3

  function Xor(a: nat, b: nat): nat
    decreases a + b
  {
    if a == 0 && b == 0 then 0 else (a + b) % 2 + 2 * Xor(a / 2, b / 2)
  }

  function TimesPrime(hash: nat): nat {
    (hash * FNV_PRIME) % WORD
  }

  function Mix(hash: nat, c: Byte): nat {
    TimesPrime(Xor(hash, c))
  }

  function Mixed(hash: nat, bytes: Key): nat {
    if bytes == [] then hash else Mix(Mixed(hash, bytes[..|bytes| - 1]), bytes[|bytes| - 1])
  }

  function PairHash(a: Key, b: Key): nat {
    Mixed(Mix(Mixed(FNV_BASIS, Lower(a, b)), 0), Higher(a, b))
  }

  function PairOffset(a: Key, b: Key, interval: int): int {
    if interval <= 0 then 0 else PairHash(a, b) % interval
  }

  method PairSlotOffset(a: Key, b: Key, interval: int) returns (offset: int)
    ensures offset == PairOffset(a, b, interval)
  {
    hide Mix;
    if interval <= 0 {
      return 0;
    }
    var low, high := Lower(a, b), Higher(a, b);
    var hash := FNV_BASIS;
    for i := 0 to |low|
      invariant hash == Mixed(FNV_BASIS, low[..i])
    {
      assert low[..i + 1][..i] == low[..i];
      hash := Mix(hash, low[i]);
    }
    assert low[..|low|] == low;
    hash := Mix(hash, 0);
    ghost var middle := hash;
    for i := 0 to |high|
      invariant hash == Mixed(middle, high[..i])
    {
      assert high[..i + 1][..i] == high[..i];
      hash := Mix(hash, high[i]);
    }
    assert high[..|high|] == high;
    offset := hash % interval;
  }

  // The hash tells keys apart

  function Power(n: nat): nat {
    if n == 0 then 1 else 2 * Power(n - 1)
  }

  lemma {:induction false} XorIsWord(a: nat, b: nat, n: nat)
    requires a < Power(n) && b < Power(n)
    ensures Xor(a, b) < Power(n)
  {
    if 0 < n && (a != 0 || b != 0) {
      XorIsWord(a / 2, b / 2, n - 1);
    }
  }

  lemma Halves(r: int, t: int)
    requires 0 <= r < 2
    ensures (r + 2 * t) % 2 == r && (r + 2 * t) / 2 == t
  {
  }

  lemma {:induction false} XorStep(a: nat, b: nat)
    ensures Xor(a, b) % 2 == (a + b) % 2 && Xor(a, b) / 2 == Xor(a / 2, b / 2)
  {
    if a == 0 && b == 0 {
    } else {
      Halves((a + b) % 2, Xor(a / 2, b / 2));
    }
  }

  lemma SameParity(a: int, b: int, c: int)
    requires (a + c) % 2 == (b + c) % 2
    ensures a % 2 == b % 2
  {
  }

  lemma {:induction false} XorTellsApart(a: nat, b: nat, c: nat)
    requires Xor(a, c) == Xor(b, c)
    ensures a == b
    decreases a + b + c
  {
    hide Xor;
    if a + b + c != 0 {
      XorStep(a, c);
      XorStep(b, c);
      SameParity(a, b, c);
      XorTellsApart(a / 2, b / 2, c / 2);
      assert a == 2 * (a / 2) + a % 2 && b == 2 * (b / 2) + b % 2;
    }
  }

  lemma {:induction false} XorCommutes(a: nat, b: nat)
    ensures Xor(a, b) == Xor(b, a)
    decreases a + b
  {
    if a + b != 0 {
      XorCommutes(a / 2, b / 2);
    }
  }

  /** The prime is odd, so multiplying by it loses nothing: it has an inverse. */
  lemma {:induction false} ProductTellsApart(x: int, y: int)
    requires 0 <= x < WORD && 0 <= y < WORD && TimesPrime(x) == TimesPrime(y)
    ensures x == y
  {
    var inverse := 0xce96_5057_aff6_957b;
    var d := x * FNV_PRIME / WORD - y * FNV_PRIME / WORD;
    assert (x - y) * FNV_PRIME == d * WORD;
    assert (x - y) * (FNV_PRIME * inverse) == d * inverse * WORD;
    assert FNV_PRIME * inverse == 1 + 887285111055 * WORD;
    var k := d * inverse - (x - y) * 887285111055;
    assert x - y == k * WORD;
  }

  lemma {:induction false} PowerAdds(m: nat, n: nat)
    ensures Power(m + n) == Power(m) * Power(n)
  {
    if n != 0 {
      PowerAdds(m, n - 1);
    }
  }

  lemma SmallPower()
    ensures Power(4) == 16
  {
  }

  lemma {:induction false} WordIsPower()
    ensures Power(8) == 256 && Power(64) == WORD
  {
    hide Power;
    SmallPower();
    PowerAdds(4, 4);
    PowerAdds(8, 8);
    PowerAdds(16, 16);
    PowerAdds(32, 32);
  }

  lemma {:induction false} XorZero(a: nat)
    ensures Xor(a, 0) == a
  {
    if a != 0 {
      XorZero(a / 2);
    }
  }

  /** A byte changes only the low byte of a word. */
  lemma {:induction false} XorLow(high: nat, low: nat, c: nat, n: nat)
    requires low < Power(n) && c < Power(n)
    ensures Xor(high * Power(n) + low, c) == high * Power(n) + Xor(low, c)
  {
    hide Xor;
    if n == 0 {
      XorZero(high);
      XorZero(0);
    } else {
      var p := Power(n - 1);
      assert high * Power(n) == 2 * (high * p);
      XorLow(high, low / 2, c / 2, n - 1);
      LowStep(high * p, low, c);
    }
  }

  lemma {:induction false} LowStep(h: nat, low: nat, c: nat)
    requires Xor(h + low / 2, c / 2) == h + Xor(low / 2, c / 2)
    ensures Xor(2 * h + low, c) == 2 * h + Xor(low, c)
  {
    hide Xor;
    var x := 2 * h + low;
    assert x / 2 == h + low / 2 && (x + c) % 2 == (low + c) % 2;
    XorStep(x, c);
    XorStep(low, c);
    assert Xor(x, c) == 2 * (Xor(x, c) / 2) + Xor(x, c) % 2;
  }

  /** One byte, or one hash, more or less makes a difference. */
  lemma {:induction false} MixTellsApart(x: nat, y: nat, c: Byte, d: Byte)
    requires x < WORD && y < WORD
    ensures Mix(x, c) < WORD
    ensures Mix(x, c) == Mix(y, c) ==> x == y
    ensures Mix(x, c) == Mix(x, d) ==> c == d
  {
    WordIsPower();
    hide Xor, Power;
    XorIsWord(x, c, 64);
    XorIsWord(y, c, 64);
    XorIsWord(x, d, 64);
    if Mix(x, c) == Mix(y, c) {
      ProductTellsApart(Xor(x, c), Xor(y, c));
      XorTellsApart(x, y, c);
    }
    if Mix(x, c) == Mix(x, d) {
      ProductTellsApart(Xor(x, c), Xor(x, d));
      XorCommutes(x, c);
      XorCommutes(x, d);
      XorTellsApart(c, d, x);
    }
  }

  ghost predicate DifferAt(a: Key, b: Key, i: nat) {
    |a| == |b| && i < |a| && a[i] != b[i] && forall j :: 0 <= j < |a| && j != i ==> a[j] == b[j]
  }

  lemma {:induction false} MixedIsWord(hash: nat, a: Key)
    requires hash < WORD
    ensures Mixed(hash, a) < WORD
  {
    hide Mix;
    if a != [] {
      MixedIsWord(hash, a[..|a| - 1]);
      MixTellsApart(Mixed(hash, a[..|a| - 1]), 0, a[|a| - 1], 0);
    }
  }

  /** Strings that differ in one byte hash apart, from any start. */
  lemma {:induction false} MixedTellsApart(hash: nat, a: Key, b: Key, i: nat)
    requires hash < WORD && DifferAt(a, b, i)
    ensures Mixed(hash, a) != Mixed(hash, b)
    decreases |a|
  {
    hide Mix;
    var n := |a| - 1;
    MixedIsWord(hash, a[..n]);
    MixedIsWord(hash, b[..n]);
    if i < n {
      MixedTellsApart(hash, a[..n], b[..n], i);
      MixTellsApart(Mixed(hash, a[..n]), Mixed(hash, b[..n]), a[n], a[n]);
    } else {
      assert a[..n] == b[..n];
      MixTellsApart(Mixed(hash, a[..n]), Mixed(hash, a[..n]), a[n], b[n]);
    }
  }

  lemma {:induction false} StartTellsApart(x: nat, y: nat, a: Key)
    requires x < WORD && y < WORD && x != y
    ensures Mixed(x, a) != Mixed(y, a)
  {
    hide Mix;
    if a != [] {
      var n := |a| - 1;
      StartTellsApart(x, y, a[..n]);
      MixedIsWord(x, a[..n]);
      MixedIsWord(y, a[..n]);
      MixTellsApart(Mixed(x, a[..n]), Mixed(y, a[..n]), a[n], a[n]);
    }
  }

  /** Pairs whose lower or higher key differs in one byte hash apart. */
  lemma {:induction false} PairsHashApart(a: Key, b: Key, other: Key, i: nat)
    requires DifferAt(b, other, i) && (Less(a, b) <==> Less(a, other)) && a != b && a != other
    ensures PairHash(a, b) != PairHash(a, other)
  {
    hide Mix, Mixed;
    LessIsTotal(a, b);
    LessIsTotal(a, other);
    MixedIsWord(FNV_BASIS, a);
    MixedIsWord(FNV_BASIS, b);
    MixedIsWord(FNV_BASIS, other);
    if Less(a, b) {
      MixTellsApart(Mixed(FNV_BASIS, a), 0, 0, 0);
      MixedTellsApart(Mix(Mixed(FNV_BASIS, a), 0), b, other, i);
    } else {
      MixedTellsApart(FNV_BASIS, b, other, i);
      MixTellsApart(Mixed(FNV_BASIS, b), Mixed(FNV_BASIS, other), 0, 0);
      MixTellsApart(Mixed(FNV_BASIS, other), 0, 0, 0);
      StartTellsApart(Mix(Mixed(FNV_BASIS, b), 0), Mix(Mixed(FNV_BASIS, other), 0), a);
    }
  }

  lemma {:induction false} MixLow(high: nat, low: nat, c: Byte)
    requires low < 256
    ensures Mix(high * 256 + low, c) == TimesPrime(high * 256 + Xor(low, c))
  {
    hide TimesPrime;
    WordIsPower();
    XorLow(high, low, c, 8);
  }

  lemma XorBy(a: nat, b: nat, half: nat)
    requires Xor(a / 2, b / 2) == half && 0 < a + b
    ensures Xor(a, b) == (a + b) % 2 + 2 * half
  {
  }

  lemma {:induction false} KnownXors()
    ensures Xor(0x25, 0x61) == 0x44 && Xor(0xe4, 0x62) == 0x86
  {
    hide Xor;
    XorZero(0);
    XorBy(0, 1, 0);
    XorBy(1, 3, 1);
    XorBy(2, 6, 2);
    XorBy(4, 12, 4);
    XorBy(9, 24, 8);
    XorBy(18, 48, 17);
    XorBy(37, 97, 34);
    XorBy(1, 0, 0);
    XorBy(3, 1, 1);
    XorBy(7, 3, 2);
    XorBy(14, 6, 4);
    XorBy(28, 12, 8);
    XorBy(57, 24, 16);
    XorBy(114, 49, 33);
    XorBy(228, 98, 67);
  }

  lemma {:induction false} KnownSteps()
    ensures Mix(FNV_BASIS, 0x61) == 0xaf63_dc4c_8601_ec8c
    ensures Mix(0xaf63_dc4c_8601_ec8c, 0) == 0x89be207b544f1e4
    ensures Mix(0x89be207b544f1e4, 0x62) == 0xe5d2_9919_0426_66b2
  {
    hide Mix, Xor;
    KnownXors();
    XorZero(0x8c);
    MixLow(0xcb_f29c_e484_2223, 0x25, 0x61);
    MixLow(0xaf_63dc_4c86_01ec, 0x8c, 0);
    MixLow(0x89be207b544f1, 0xe4, 0x62);
  }

  /** Known values: of "a" alone, and of the pair "a", "b". */
  lemma {:induction false} KnownHashes()
    ensures Mixed(FNV_BASIS, [0x61]) == 0xaf63_dc4c_8601_ec8c
    ensures PairHash([0x61], [0x62]) == 0xe5d2_9919_0426_66b2
  {
    hide Mix;
    KnownSteps();
    var a: Key, b: Key := [0x61], [0x62];
    assert a[..0] == [] && b[..0] == [];
    assert Less(a, b) && !Less(b, a);
    assert Mixed(FNV_BASIS, a) == Mix(Mixed(FNV_BASIS, []), 0x61);
    assert Mixed(0x89be207b544f1e4, b) == Mix(Mixed(0x89be207b544f1e4, []), 0x62);
  }

  /** Both ends compute the same offset, within the interval. */
  lemma {:induction false} OffsetIsShared(a: Key, b: Key, interval: int)
    ensures PairOffset(a, b, interval) == PairOffset(b, a, interval)
    ensures 0 < interval ==> 0 <= PairOffset(a, b, interval) < interval
  {
    hide Mixed, Mix;
    LessIsTotal(a, b);
  }

  /** The two ends of a pair meet: whatever their keys, and whenever they read the clock
      between two slots, both come to the same instant of the grid. */
  lemma {:induction false} PairMeets(a: Key, b: Key, interval: int, t: int, u: int)
    requires 0 < interval
    requires (t + PairOffset(a, b, interval)) / interval == (u + PairOffset(a, b, interval)) / interval
    ensures t + NextSlotDelay(t, interval, PairOffset(a, b, interval)) == u + NextSlotDelay(u, interval, PairOffset(b, a, interval))
    ensures OnGrid(t + NextSlotDelay(t, interval, PairOffset(a, b, interval)), interval, PairOffset(b, a, interval))
  {
    hide PairOffset, NextSlotDelay;
    OffsetIsShared(a, b, interval);
    SameWindowSameInstant(t, u, interval, PairOffset(a, b, interval));
    DelayIsLeast(t, interval, PairOffset(a, b, interval), 1);
  }
}
