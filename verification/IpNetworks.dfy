/**
 IPv4 networks: membership by a netmask in network byte order, and the dotted form of a mask. A 32-bit
 integer is the sequence of its bits, the highest first; an address is kept as it lies in memory, so
 that a little-endian host reads its bytes in the wrong order.
 */
module IpNetworks {
  import opened Basics

  type Word = w: seq<bool> | |w| == 32 witness seq(32, i => false)

  datatype IpAddress = Null | IPv4(v4: Word) | IPv6

  datatype IpNetwork = IpNetwork(addr: IpAddress, mask: nat)

  /** `1 << k`. */
  function Shifted(k: nat): Word
    requires k < 32
  {
    seq(32, i => i == 31 - k)
  }

  function Or(a: Word, b: Word): Word {
    seq(32, i requires 0 <= i < 32 => a[i] || b[i])
  }

  function And(a: Word, b: Word): Word {
    seq(32, i requires 0 <= i < 32 => a[i] && b[i])
  }

  const ZERO: Word := seq(32, i => false)

  /** `(x >> k) & 1`. */
  predicate BitAt(x: Word, k: nat)
    requires k < 32
  {
    x[31 - k]
  }

  /** `htonl` and `ntohl`. */
  function Swap(x: Word): Word {
    x[24..32] + x[16..24] + x[8..16] + x[0..8]
  }

  /** The netmask with `n` ones from the top, in host order; section 3.1 of RFC 4632. */
  function Top(n: nat): Word
    requires n <= 32
  {
    seq(32, i => i < n)
  }

  /** Where the `i`-th bit comes from: the same place in the byte on the other side. */
  function Across(i: nat): (j: nat)
    requires i < 32
    ensures j < 32
  {
    if i < 8 then i + 24 else if i < 16 then i + 8 else if i < 24 then i - 8 else i - 24
  }

  lemma SwapAt(x: Word, i: nat)
    requires i < 32
    ensures Swap(x)[i] == x[Across(i)]
  {
  }

  lemma SwapTwice(x: Word)
    ensures Swap(Swap(x)) == x
  {
    forall i | 0 <= i < 32 ensures Swap(Swap(x))[i] == x[i] {
      SwapAt(Swap(x), i);
      SwapAt(x, Across(i));
    }
  }

  lemma SwapAnd(a: Word, b: Word)
    ensures And(Swap(a), Swap(b)) == Swap(And(a, b))
  {
    forall i | 0 <= i < 32 ensures And(Swap(a), Swap(b))[i] == Swap(And(a, b))[i] {
      SwapAt(a, i);
      SwapAt(b, i);
      SwapAt(And(a, b), i);
    }
  }

  /** Two addresses agree under a netmask exactly when they begin with the same bits. */
  lemma MaskedIsPrefix(a: Word, b: Word, n: nat)
    requires n <= 32
    ensures And(a, Top(n)) == And(b, Top(n)) <==> a[..n] == b[..n]
  {
    if And(a, Top(n)) == And(b, Top(n)) {
      forall i | 0 <= i < n ensures a[i] == b[i] {
        assert And(a, Top(n))[i] == a[i] && And(b, Top(n))[i] == b[i];
      }
    }
    if a[..n] == b[..n] {
      forall i | 0 <= i < 32 ensures And(a, Top(n))[i] == And(b, Top(n))[i] {
        assert i < n ==> a[..n][i] == a[i] && b[..n][i] == b[i];
      }
    }
  }

  /** It does not matter on which side of the byte swap the mask is applied. */
  lemma SwappedMask(a: Word, b: Word, m: Word)
    ensures And(a, Swap(m)) == And(b, Swap(m)) <==> And(Swap(a), m) == And(Swap(b), m)
  {
    SwapAnd(Swap(a), m);
    SwapAnd(Swap(b), m);
    SwapTwice(a);
    SwapTwice(b);
    SwapTwice(And(Swap(a), m));
    SwapTwice(And(Swap(b), m));
  }

  /** Four bytes, in the order in which an address is written and sent. */
  datatype Quad = Quad(a: seq<bool>, b: seq<bool>, c: seq<bool>, d: seq<bool>)
  {
    predicate Valid() {
      |a| == 8 && |b| == 8 && |c| == 8 && |d| == 8
    }

    /** The word that a little-endian host reads where these bytes lie. */
    function InMemory(): Word
      requires Valid()
    {
      d + c + b + a
    }

    function Bits(): Word
      requires Valid()
    {
      a + b + c + d
    }
  }

  /** `ntohl` puts the bytes in the order in which they are written, and `htonl` puts them back. */
  lemma HostOrder(q: Quad)
    requires q.Valid()
    ensures Swap(q.InMemory()) == q.Bits() && Swap(q.Bits()) == q.InMemory()
  {
  }

  /** Membership as section 3.1 of RFC 4632 has it, on the bits of the addresses as they are written. */
  method QuadIsInside(net: Quad, mask: nat, ip: Quad) returns (res: bool)
    requires net.Valid() && ip.Valid() && mask <= 32
    ensures res <==> net.Bits()[..mask] == ip.Bits()[..mask]
  {
    HostOrder(net);
    HostOrder(ip);
    res := IsInside(IpNetwork(IPv4(net.InMemory()), mask), IPv4(ip.InMemory()));
  }

  /** The loop with which `isInside` builds a netmask. */
  method BuildNetmask(mask: nat) returns (netmask: Word)
    requires mask <= 32
    ensures netmask == Top(mask)
  {
    netmask := ZERO;
    for j := 0 to mask
      invariant netmask == Top(j)
    {
      netmask := Or(netmask, Shifted(31 - j));
    }
  }

  /** Whether an address belongs to a network, unless both are of version 6. */
  method IsInside(net: IpNetwork, ip: IpAddress) returns (res: bool)
    requires net.mask <= 32 && !(net.addr.IPv6? && ip.IPv6?)
    ensures res <==> net.addr.IPv4? && ip.IPv4? && Swap(net.addr.v4)[..net.mask] == Swap(ip.v4)[..net.mask]
  {
    res := false;
    if ip.IPv4? {
      if net.addr.IPv4? {
        var netmask := BuildNetmask(net.mask);
        SwappedMask(net.addr.v4, ip.v4, netmask);
        MaskedIsPrefix(Swap(net.addr.v4), Swap(ip.v4), net.mask);
        netmask := Swap(netmask);
        res := And(net.addr.v4, netmask) == And(ip.v4, netmask);
      }
    }
  }

  // ---- Dotted masks ----

  /** No one follows a zero. */
  predicate Contiguous(x: Word) {
    forall i, j :: 0 <= i < j < 32 && x[j] ==> x[i]
  }

  lemma ContiguousIsTop(x: Word) returns (n: nat)
    requires Contiguous(x)
    ensures n <= 32 && x == Top(n)
  {
    n := 0;
    while n < 32 && x[n]
      invariant n <= 32 && forall i :: 0 <= i < n ==> x[i]
    {
      n := n + 1;
    }
  }

  /** The masks without a gap are those that a prefix length stands for. */
  lemma ContiguousExactlyWhenTop(x: Word)
    ensures Contiguous(x) <==> exists n: nat :: n <= 32 && x == Top(n)
  {
    if Contiguous(x) {
      var n := ContiguousIsTop(x);
    }
  }

  lemma TopsDiffer(m: nat, n: nat)
    requires m <= 32 && n <= 32
    ensures Top(m) == Top(n) <==> m == n
  {
    if m != n {
      var k := if m < n then m else n;
      assert Top(m)[k] != Top(n)[k];
    }
  }

  /** The loop with which `fromString` turns a dotted mask into a length, or refuses it. */
  method DottedMask(s_addr: Word) returns (maskDec: Option<nat>)
    ensures maskDec.Some? <==> Contiguous(Swap(s_addr))
    ensures maskDec.Some? <==> exists n: nat :: n <= 32 && Swap(s_addr) == Top(n)
    ensures maskDec.Some? ==> maskDec.value <= 32 && Swap(s_addr) == Top(maskDec.value)
  {
    ContiguousExactlyWhenTop(Swap(s_addr));
    var netmask := Swap(s_addr);
    var thisistheend := false;
    var count := 0;
    for j := 0 to 32
      invariant forall i :: 0 <= i < j ==> netmask[i] == (i < count)
      invariant if thisistheend then count < j else count == j
    {
      if BitAt(netmask, 31 - j) {
        if !thisistheend {
          count := count + 1;
        } else {
          assert !netmask[count] && netmask[j];
          return None;
        }
      } else {
        thisistheend := true;
      }
    }
    return Some(count);
  }

  /** The netmask of a prefix length, written as a dotted mask, is read back as that length. */
  method WriteAndReadMask(mask: nat) returns (back: Option<nat>)
    requires mask <= 32
    ensures back == Some(mask)
  {
    var netmask := BuildNetmask(mask);
    SwapTwice(netmask);
    back := DottedMask(Swap(netmask));
    TopsDiffer(back.value, mask);
  }

  /** A dotted mask that is accepted is rebuilt by `isInside` from the length read. */
  method ReadAndRebuildMask(s_addr: Word) returns (rebuilt: Option<Word>)
    ensures rebuilt.Some? <==> Contiguous(Swap(s_addr))
    ensures rebuilt.Some? ==> rebuilt.value == s_addr
  {
    var mask := DottedMask(s_addr);
    if mask.None? {
      return None;
    }
    var netmask := BuildNetmask(mask.value);
    SwapTwice(s_addr);
    return Some(Swap(netmask));
  }
}
