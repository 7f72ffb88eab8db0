/**
 Enumeration of the hosts of one IPv4 subnet. Addresses are `uint` in the original: here
 they are integers below 2^32, and every sum and difference goes through `Wrap`.
 */
module SubnetWindow {
  import opened Common

  const TWO32 := 0x1_0000_0000
  const TWO64 := 0x1_0000_0000_0000_0000
  const MAX_DESTINATIONS := 1024

  type Address = x: int | 0 <= x < 0x1_0000_0000

  /** The sum or difference `x` of two addresses as a `uint`. */
  function Wrap(x: int): Address
    requires -TWO32 <= x < 2 * TWO32
  {
    if x < 0 then x + TWO32 else if x >= TWO32 then x - TWO32 else x
  }

  // ----- addresses and bytes -----

  type Byte = x: int | 0 <= x < 256

  datatype Bytes = Bytes(b0: Byte, b1: Byte, b2: Byte, b3: Byte)

  function ToUInt32(a: Bytes): Address {
    a.b0 * 0x1000000 + a.b1 * 0x10000 + a.b2 * 0x100 + a.b3
  }

  function FromUInt32(v: Address): (a: Bytes)
    ensures ToUInt32(a) == v
  {
    var high3 := v / 0x100;
    var high2 := high3 / 0x100;
    Bytes(high2 / 0x100, high2 % 0x100, high3 % 0x100, v % 0x100)
  }

  /** The other direction: no two byte arrays are the same number. */
  lemma BytesRoundTrip(a: Bytes)
    ensures FromUInt32(ToUInt32(a)) == a
  {
    var v := ToUInt32(a);
    assert v / 0x100 == a.b0 * 0x10000 + a.b1 * 0x100 + a.b2;
    assert v / 0x100 / 0x100 == a.b0 * 0x100 + a.b1;
  }

  predicate IsPrivate(a: Bytes) {
    || a.b0 == 10
    || (a.b0 == 172 && 16 <= a.b1 <= 31)
    || (a.b0 == 192 && a.b1 == 168)
    || (a.b0 == 169 && a.b1 == 254)
  }

  /** The private blocks as intervals: section 3 of RFC 1918 and section 2.1 of RFC 3927. */
  lemma PrivateBlocks(a: Bytes)
    ensures var v := ToUInt32(a);
            IsPrivate(a) <==>
              || 0x0A000000 <= v <= 0x0AFFFFFF
              || 0xAC100000 <= v <= 0xAC1FFFFF
              || 0xC0A80000 <= v <= 0xC0A8FFFF
              || 0xA9FE0000 <= v <= 0xA9FEFFFF
  {
  }

  predicate PrivateAddress(v: Address) { IsPrivate(FromUInt32(v)) }

  // ----- bitwise operations -----

  function And(a: nat, b: nat): (r: nat)
    ensures r <= a && r <= b
  {
    if a == 0 || b == 0 then 0
    else (if a % 2 == 1 && b % 2 == 1 then 1 else 0) + 2 * And(a / 2, b / 2)
  }

  function Or(a: nat, b: nat): (r: nat)
    ensures r <= a + b
  {
    if a == 0 then b else if b == 0 then a
    else (if a % 2 == 1 || b % 2 == 1 then 1 else 0) + 2 * Or(a / 2, b / 2)
  }

  function Complement(a: Address): Address { TWO32 - 1 - a }

  /** A host mask of a contiguous network mask: ones at the low end, zeros above. */
  predicate OnesAtLowEnd(h: nat) {
    h == 0 || (h % 2 == 1 && OnesAtLowEnd(h / 2))
  }

  lemma {:induction false} DisjointFromSuccessor(h: nat)
    ensures And(h, h + 1) == 0 <==> OnesAtLowEnd(h)
  {
    if h != 0 {
      if h % 2 == 1 {
        assert (h + 1) / 2 == h / 2 + 1;
        DisjointFromSuccessor(h / 2);
      } else {
        assert (h + 1) / 2 == h / 2;
        AndSelf(h / 2);
      }
    }
  }

  lemma {:induction false} AndSelf(a: nat)
    ensures And(a, a) == a
  {
    if a != 0 {
      AndSelf(a / 2);
    }
  }

  lemma OneMoreOne(h: nat)
    requires OnesAtLowEnd(h)
    ensures OnesAtLowEnd(2 * h + 1)
  {
    assert (2 * h + 1) / 2 == h;
  }

  lemma EightMoreOnes(h: nat)
    requires OnesAtLowEnd(h)
    ensures OnesAtLowEnd(256 * h + 255)
  {
    OneMoreOne(h);
    OneMoreOne(2 * h + 1);
    OneMoreOne(4 * h + 3);
    OneMoreOne(8 * h + 7);
    OneMoreOne(16 * h + 15);
    OneMoreOne(32 * h + 31);
    OneMoreOne(64 * h + 63);
    OneMoreOne(128 * h + 127);
  }

  lemma AllOnes(all: nat)
    requires all == TWO32 - 1
    ensures OnesAtLowEnd(all)
  {
    EightMoreOnes(0);
    EightMoreOnes(0xFF);
    EightMoreOnes(0xFFFF);
    EightMoreOnes(0xFF_FFFF);
  }

  /** The test of the original, wrap-around included, decides whether the mask is contiguous. */
  lemma ContiguityTest(hostMask: Address)
    ensures And(hostMask, Wrap(hostMask + 1)) == 0 <==> OnesAtLowEnd(hostMask)
  {
    DisjointFromSuccessor(hostMask);
    if hostMask == TWO32 - 1 {
      AllOnes(hostMask);
    }
  }

  lemma {:induction false} AndAllOnes(a: nat, all: nat)
    requires OnesAtLowEnd(all) && a <= all
    ensures And(a, all) == a
  {
    if a != 0 {
      AndAllOnes(a / 2, all / 2);
    }
  }

  /** `n` is the start of the interval of width `h` that holds `a`; `y` that of `x`. */
  predicate SameInterval(a: int, x: int, n: int, y: int, h: int, all: int) {
    && n <= a <= n + h <= all
    && (y == n <==> n <= x <= n + h)
  }

  lemma SameIntervalDoubles(a: int, x: int, n: int, y: int, h: int, all: int, abit: int, xbit: int)
    requires SameInterval(a, x, n, y, h, all) && 0 <= abit <= 1 && 0 <= xbit <= 1
    ensures SameInterval(2 * a + abit, 2 * x + xbit, 2 * n, 2 * y, 2 * h + 1, 2 * all + 1)
  {
  }

  /** Masking with a contiguous mask cuts the numbers up to `h + mask` into intervals of equal width. */
  lemma {:induction false} MaskIsInterval(a: nat, x: nat, h: nat, mask: nat)
    requires OnesAtLowEnd(h + mask) && OnesAtLowEnd(h) && a <= h + mask && x <= h + mask
    ensures SameInterval(a, x, And(a, mask), And(x, mask), h, h + mask)
    decreases h
  {
    if h == 0 {
      AndAllOnes(a, mask);
      AndAllOnes(x, mask);
    } else {
      var g, m := Halves(h, mask);
      MaskIsInterval(a / 2, x / 2, g, m);
      SameIntervalDoubles(a / 2, x / 2, And(a / 2, m), And(x / 2, m), g, g + m, a % 2, x % 2);
      AndEven(a, m);
      AndEven(x, m);
    }
  }

  lemma Halves(h: nat, mask: nat) returns (g: nat, m: nat)
    requires OnesAtLowEnd(h + mask) && OnesAtLowEnd(h) && h > 0
    ensures h == 2 * g + 1 && mask == 2 * m && OnesAtLowEnd(g) && OnesAtLowEnd(g + m)
  {
    g, m := h / 2, mask / 2;
    assert (h + mask) / 2 == g + m;
  }

  /** Host bits and network bits do not overlap, so `|` adds them. */
  lemma {:induction false} OrIsSum(a: nat, h: nat, mask: nat)
    requires OnesAtLowEnd(h + mask) && OnesAtLowEnd(h)
    ensures Or(And(a, mask), h) == And(a, mask) + h
    decreases h
  {
    if h > 0 {
      var g, m := Halves(h, mask);
      OrIsSum(a / 2, g, m);
      AndEven(a, m);
      OrOdd(And(a / 2, m), g);
    }
  }

  lemma AndEven(a: nat, b: nat)
    ensures And(a, 2 * b) == 2 * And(a / 2, b)
  {
    assert (2 * b) / 2 == b;
  }

  lemma OrOdd(a: nat, b: nat)
    ensures Or(2 * a, 2 * b + 1) == 2 * Or(a, b) + 1
  {
    assert (2 * a) / 2 == a && (2 * b + 1) / 2 == b;
  }

  // ----- the subnet -----

  predicate Scannable(mask: Address) {
    var hostMask := Complement(mask);
    hostMask >= 2 && And(hostMask, Wrap(hostMask + 1)) == 0
  }

  function Network(local: Address, mask: Address): nat { And(local, mask) }

  function Broadcast(local: Address, mask: Address): nat { Or(Network(local, mask), Complement(mask)) }

  /** The subnet is the interval of addresses sharing the masked bits, and nothing wraps. */
  lemma SubnetIsInterval(local: Address, mask: Address, x: Address)
    requires Scannable(mask)
    ensures Network(local, mask) <= local <= Broadcast(local, mask) < TWO32
    ensures Broadcast(local, mask) == Network(local, mask) + Complement(mask)
    ensures And(x, mask) == Network(local, mask) <==> Network(local, mask) <= x <= Broadcast(local, mask)
    ensures Broadcast(local, mask) >= Network(local, mask) + 3
  {
    var h, all := Complement(mask), Complement(0);
    assert OnesAtLowEnd(h) by {
      ContiguityTest(h);
    }
    AllOnes(all);
    assert h + mask == all;
    MaskIsInterval(local, x, h, mask);
    OrIsSum(local, h, mask);
  }

  // ----- masks by prefix length -----

  /** The number of addresses of a subnet with `k` host bits. */
  function Pow2(k: nat): (n: nat)
    ensures n >= 1
  {
    if k == 0 then 1 else 2 * Pow2(k - 1)
  }

  lemma {:induction false} OnesArePowers(h: nat) returns (k: nat)
    requires OnesAtLowEnd(h)
    ensures h + 1 == Pow2(k)
  {
    if h == 0 {
      k := 0;
    } else {
      k := OnesArePowers(h / 2);
      k := k + 1;
    }
  }

  lemma {:induction false} PowersAreOnes(k: nat)
    ensures OnesAtLowEnd(Pow2(k) - 1)
  {
    if k > 0 {
      PowersAreOnes(k - 1);
      assert Pow2(k) - 1 == 2 * (Pow2(k - 1) - 1) + 1;
      OneMoreOne(Pow2(k - 1) - 1);
    }
  }

  lemma {:induction false} PowersGrow(j: nat, k: nat)
    requires j < k
    ensures 2 * Pow2(j) <= Pow2(k)
  {
    if j + 1 < k {
      PowersGrow(j, k - 1);
    }
  }

  lemma Pow32()
    ensures Pow2(2) == 4 && Pow2(10) == 1024 && Pow2(32) == 4294967296
  {
    assert Pow2(8) == 256;
    assert Pow2(16) == 65536;
    assert Pow2(24) == 16777216;
  }

  /** The network mask that leaves `k` host bits. */
  predicate PrefixMask(mask: Address, k: nat) { 2 <= k <= 32 && mask == 4294967296 - Pow2(k) }

  /** A subnet is scanned exactly if its mask leaves 2 to 32 host bits, all at the low end. */
  lemma ScannedMasks(mask: Address)
    ensures Scannable(mask) <==> exists k :: PrefixMask(mask, k)
  {
    var h := Complement(mask);
    ContiguityTest(h);
    Pow32();
    if Scannable(mask) {
      var k := OnesArePowers(h);
      if k < 2 {
        PowersGrow(k, 2);
      }
      if k > 32 {
        PowersGrow(32, k);
      }
      assert PrefixMask(mask, k);
    }
    if exists k :: PrefixMask(mask, k) {
      var k :| PrefixMask(mask, k);
      PowersAreOnes(k);
      if k > 2 {
        PowersGrow(2, k);
      }
    }
  }

  /** The first address of the block of 2^k addresses that holds `a`: halve and double `k` times. */
  function Base(a: nat, k: nat): (b: nat)
    ensures b <= a < b + Pow2(k)
  {
    if k == 0 then a else 2 * Base(a / 2, k - 1)
  }

  /** Masking clears the host bits. */
  lemma {:induction false} MaskClears(a: nat, k: nat, mask: nat)
    requires OnesAtLowEnd(Pow2(k) - 1 + mask) && a <= Pow2(k) - 1 + mask
    ensures And(a, mask) == Base(a, k)
    decreases k
  {
    if k == 0 {
      AndAllOnes(a, mask);
    } else {
      PowersAreOnes(k);
      var g, m := Halves(Pow2(k) - 1, mask);
      assert g == Pow2(k - 1) - 1;
      MaskClears(a / 2, k - 1, m);
      AndEven(a, m);
    }
  }

  lemma SubnetOfPrefix(local: Address, mask: Address, k: nat)
    requires PrefixMask(mask, k)
    ensures Scannable(mask) && Network(local, mask) == Base(local, k)
    ensures Broadcast(local, mask) == Base(local, k) + Pow2(k) - 1
  {
    ScannedMasks(mask);
    AllOnes(Complement(0));
    assert Pow2(k) - 1 + mask == Complement(0);
    MaskClears(local, k, mask);
    SubnetIsInterval(local, mask, local);
  }

  // ----- the window -----

  datatype Window = Window(first: Address, last: Address)

  /** `(ulong)last - first + 1` */
  function Available(w: Window): nat {
    var width := w.last - w.first + 1;
    if width < 0 then width + TWO64 else width
  }

  /** All usable hosts of the subnet. */
  function Hosts(local: Address, mask: Address): Window {
    Window(Wrap(Network(local, mask) + 1), Wrap(Broadcast(local, mask) - 1))
  }

  lemma HostsAreInside(local: Address, mask: Address)
    requires Scannable(mask)
    ensures var n, b, h := Network(local, mask), Broadcast(local, mask), Hosts(local, mask);
            && h.first == n + 1 && h.last == b - 1 && h.first < h.last
            && n <= local <= b && b - n == Complement(mask)
  {
    SubnetIsInterval(local, mask, local);
  }

  /** At most 1024 of them, around the local address. */
  function Narrow(hosts: Window, local: Address): Window {
    if Available(hosts) <= MAX_DESTINATIONS then hosts
    else
      var half := MAX_DESTINATIONS / 2;
      var first := if local > half then Max(hosts.first, Wrap(local - half)) else hosts.first;
      var last := Min(hosts.last, Wrap(first + MAX_DESTINATIONS - 1));
      if Available(Window(first, last)) < MAX_DESTINATIONS && last == hosts.last
      then Window(Max(hosts.first, Wrap(last - (MAX_DESTINATIONS - 1))), last)
      else Window(first, last)
  }

  /** The part of the subnet that is scanned. */
  function ScanWindow(local: Address, mask: Address): Window {
    Narrow(Hosts(local, mask), local)
  }

  predicate Within(w: Window, x: int) { w.first <= x <= w.last }

  lemma PrivateIsFarFromEnd(local: Address)
    requires PrivateAddress(local)
    ensures local + 511 < TWO32
  {
    PrivateBlocks(FromUInt32(local));
  }

  lemma NarrowIsExact(h: Window, local: Address)
    requires local + 511 < TWO32
    requires h.first <= h.last && h.first - 1 <= local <= h.last + 1
    ensures var w := Narrow(h, local);
            && h.first <= w.first <= w.last <= h.last
            && Available(h) == h.last - h.first + 1
            && (if Available(h) <= MAX_DESTINATIONS then w == h
                else w.last == w.first + MAX_DESTINATIONS - 1 && forall x | Within(h, x) && local - 512 <= x <= local + 511 :: Within(w, x))
  {
  }

  /**
   No operation wraps: the window lies strictly between network and broadcast address.
   A subnet of more than 1024 hosts gets exactly 1024 addresses, among them every usable
   host from 512 below to 511 above the local address.
   */
  lemma WindowIsExact(local: Address, mask: Address)
    requires Scannable(mask) && PrivateAddress(local)
    ensures var n, b := Network(local, mask), Broadcast(local, mask);
            var w := ScanWindow(local, mask);
            && n < w.first <= w.last < b
            && (b - n - 1 <= 1024 ==> w.first == n + 1 && w.last == b - 1)
            && (b - n - 1 > 1024 ==>
                  && w.last == w.first + 1023
                  && forall x | n < x < b && local - 512 <= x <= local + 511 :: Within(w, x))
  {
    PrivateIsFarFromEnd(local);
    HostsAreInside(local, mask);
    NarrowIsExact(Hosts(local, mask), local);
  }

  /**
   For an arbitrary local address in a large subnet the sum `first + 1023` may wrap and leave
   an empty window; it does so exactly in the last 511 addresses, which are never private.
   */
  lemma WindowSurvives(local: Address, mask: Address)
    requires Scannable(mask) && Complement(mask) > MAX_DESTINATIONS + 1
    ensures ScanWindow(local, mask).first <= ScanWindow(local, mask).last <==> local + 511 < TWO32
  {
    HostsAreInside(local, mask);
    NarrowSurvives(Hosts(local, mask), local);
  }

  lemma NarrowSurvives(h: Window, local: Address)
    requires h.first + MAX_DESTINATIONS <= h.last && h.first - 1 <= local <= h.last + 1
    ensures Narrow(h, local).first <= Narrow(h, local).last <==> local + 511 < TWO32
  {
  }

  predicate Ascending(hosts: seq<Address>) {
    forall i, j | 0 <= i < j < |hosts| :: hosts[i] < hosts[j]
  }

  /** The addresses from `first` to `last` except `local`. */
  method Enumerate(w: Window, local: Address) returns (hosts: seq<Address>)
    ensures Ascending(hosts)
    ensures forall x: Address :: x in hosts <==> Within(w, x) && x != local
  {
    hosts := [];
    var candidate := w.first;
    while candidate <= w.last
      invariant w.first <= candidate <= Max(w.first, w.last + 1)
      invariant Ascending(hosts)
      invariant forall i | 0 <= i < |hosts| :: w.first <= hosts[i] < candidate && hosts[i] != local
      invariant forall x: Address :: w.first <= x < candidate && x != local ==> x in hosts
    {
      if candidate != local {
        hosts := hosts + [candidate];
      }
      if candidate == TWO32 - 1 {
        return;
      }
      candidate := Wrap(candidate + 1);
    }
  }

  /** The window never leaves the subnet, not even where it is emptied by wrapping. */
  lemma WindowIsInside(local: Address, mask: Address, x: Address)
    requires Scannable(mask) && Within(ScanWindow(local, mask), x)
    ensures Network(local, mask) < x < Broadcast(local, mask) && And(x, mask) == Network(local, mask)
  {
    HostsAreInside(local, mask);
    SubnetIsInterval(local, mask, x);
    if local + 511 < TWO32 {
      NarrowIsExact(Hosts(local, mask), local);
    } else if Complement(mask) > MAX_DESTINATIONS + 1 {
      WindowSurvives(local, mask);
      assert false;
    }
  }

  /** A subnet of at most 1024 hosts is scanned as a whole, whatever the local address. */
  lemma SmallSubnetIsWhole(local: Address, mask: Address, k: nat)
    requires PrefixMask(mask, k) && k <= 10
    ensures ScanWindow(local, mask).first == Base(local, k) + 1
    ensures ScanWindow(local, mask).last == Base(local, k) + Pow2(k) - 2
  {
    SubnetOfPrefix(local, mask, k);
    HostsAreInside(local, mask);
    assert Pow2(k) <= 1024 by {
      Pow32();
      if k < 10 {
        PowersGrow(k, 10);
      }
    }
    KeepsSmall(Hosts(local, mask), local);
  }

  lemma KeepsSmall(hosts: Window, local: Address)
    requires hosts.first <= hosts.last < hosts.first + 1024
    ensures Narrow(hosts, local) == hosts
  {
  }

  /** `x` is a host of the subnet of `local` with `k` host bits, other than `local` itself. */
  predicate OtherHost(local: Address, k: nat, x: Address) {
    Base(local, k) < x < Base(local, k) + Pow2(k) - 1 && x != local
  }

  /**
   A larger subnet is scanned in a window of exactly 1024 of its hosts, among them all from 512
   below to 511 above a private local address.
   */
  lemma LargeSubnetIsCut(local: Address, mask: Address, k: nat)
    requires PrefixMask(mask, k) && k > 10 && PrivateAddress(local)
    ensures var w := ScanWindow(local, mask);
            && Base(local, k) < w.first && w.last == w.first + 1023 && w.last < Base(local, k) + Pow2(k) - 1
            && forall x: Address | OtherHost(local, k, x) && local - 512 <= x <= local + 511 :: Within(w, x)
  {
    SubnetOfPrefix(local, mask, k);
    Pow32();
    PowersGrow(10, k);
    WindowIsExact(local, mask);
  }

  /**
   Every address of the window except the local one, in increasing order. Nothing for a mask
   that is not contiguous or leaves fewer than two host bits; every other host of a subnet
   of at most ten host bits.
   */
  method EnumerateSubnet(local: Address, mask: Address) returns (hosts: seq<Address>)
    ensures Ascending(hosts)
    ensures hosts != [] ==> exists k :: PrefixMask(mask, k)
    ensures forall k | PrefixMask(mask, k) && k <= 10 :: forall x: Address :: x in hosts <==> OtherHost(local, k, x)
    ensures !Scannable(mask) ==> hosts == []
    ensures Scannable(mask) ==>
              forall x: Address :: x in hosts <==> Within(ScanWindow(local, mask), x) && x != local
    ensures forall x <- hosts :: And(x, mask) == Network(local, mask)
    ensures forall x <- hosts :: x != local && Network(local, mask) < x < Broadcast(local, mask)
  {
    hosts := [];
    ScannedMasks(mask);
    if Scannable(mask) {
      hosts := Enumerate(ScanWindow(local, mask), local);
      forall x <- hosts ensures Network(local, mask) < x < Broadcast(local, mask) && And(x, mask) == Network(local, mask) {
        WindowIsInside(local, mask, x);
      }
      forall k | PrefixMask(mask, k) && k <= 10 ensures forall x: Address :: x in hosts <==> OtherHost(local, k, x) {
        SmallSubnetIsWhole(local, mask, k);
      }
    }
  }
}
