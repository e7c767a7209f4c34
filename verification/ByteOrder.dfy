/**
 Multi-byte integers in memory and on the wire. The host is little-endian; `Memory` is what a store
 of an unsigned integer leaves in memory and `Load` what a read through a cast pointer finds there.
 */
module ByteOrder {

  type Byte = bv8

  function Power256(k: nat): (p: nat)
    ensures p > 0
  {
    if k == 0 then 1 else 256 * Power256(k - 1)
  }

  lemma NextByte(b: Byte)
    requires b != 255
    ensures (b + 1) as int == b as int + 1
  {
  }

  /** The byte of value `n`, by counting up to it. */
  function AsByte(n: nat): (b: Byte)
    requires n < 256
    ensures b as int == n
  {
    if n == 0 then 0 else NextByte(AsByte(n - 1)); AsByte(n - 1) + 1
  }

  function LowByte(n: nat): (b: Byte)
    ensures b as nat == n % 256
  {
    AsByte(n % 256)
  }

  /** The `k` lowest bytes of `n`, most significant first. */
  function BigEndian(n: nat, k: nat): (s: seq<Byte>)
    ensures |s| == k
  {
    if k == 0 then [] else BigEndian(n / 256, k - 1) + [LowByte(n)]
  }

  function FromBigEndian(s: seq<Byte>): nat {
    if s == [] then 0 else FromBigEndian(s[..|s| - 1]) * 256 + s[|s| - 1] as nat
  }

  function Memory(n: nat, k: nat): (s: seq<Byte>)
    ensures |s| == k
  {
    if k == 0 then [] else [LowByte(n)] + Memory(n / 256, k - 1)
  }

  function Load(s: seq<Byte>): nat {
    if s == [] then 0 else s[0] as nat + 256 * Load(s[1..])
  }

  /** `htons`, `htonl`: the word whose bytes in memory are those of `n`, most significant first. */
  function HostToNet(n: nat, k: nat): nat {
    Load(BigEndian(n, k))
  }

  /** `htonll`: the two halves swapped one by one and joined through a union. */
  function Htonll(v: nat): nat
    requires v < Power256(8)
  {
    Load(Memory(HostToNet(v / 0x1_0000_0000, 4), 4) + Memory(HostToNet(v % 0x1_0000_0000, 4), 4))
  }

  function Ntohll(v: nat): nat
    requires v < Power256(8)
  {
    Htonll(v)
  }

  function Reverse(s: seq<Byte>): (r: seq<Byte>)
    ensures |r| == |s|
  {
    if s == [] then [] else Reverse(s[1..]) + [s[0]]
  }

  lemma DropByte(n: nat, p: nat)
    requires n < 256 * p
    ensures n / 256 < p && n == n / 256 * 256 + n % 256
  {
  }

  lemma {:induction false} FromToBigEndian(n: nat, k: nat)
    requires n < Power256(k)
    ensures FromBigEndian(BigEndian(n, k)) == n
  {
    if k > 0 {
      DropByte(n, Power256(k - 1));
      FromToBigEndian(n / 256, k - 1);
      assert BigEndian(n, k)[..k - 1] == BigEndian(n / 256, k - 1);
    }
  }

  lemma {:induction false} LoadStored(n: nat, k: nat)
    requires n < Power256(k)
    ensures Load(Memory(n, k)) == n
  {
    if k > 0 {
      DropByte(n, Power256(k - 1));
      LoadStored(n / 256, k - 1);
      assert Memory(n, k)[1..] == Memory(n / 256, k - 1);
    }
  }

  lemma {:induction false} StoreLoaded(s: seq<Byte>)
    ensures Load(s) < Power256(|s|)
    ensures Memory(Load(s), |s|) == s
  {
    if s != [] {
      StoreLoaded(s[1..]);
      FirstDigit(s[0] as nat, Load(s[1..]));
      SameByte(LowByte(Load(s)), s[0]);
    }
  }

  lemma FirstDigit(digit: nat, rest: nat)
    requires digit < 256
    ensures (digit + 256 * rest) % 256 == digit && (digit + 256 * rest) / 256 == rest
  {
  }

  lemma SameByte(a: Byte, b: Byte)
    requires a as nat == b as nat
    ensures a == b
  {
  }

  lemma {:induction false} MemoryIsReversed(n: nat, k: nat)
    ensures Memory(n, k) == Reverse(BigEndian(n, k))
  {
    if k > 0 {
      MemoryIsReversed(n / 256, k - 1);
      ReverseAppend(BigEndian(n / 256, k - 1), [LowByte(n)]);
    }
  }

  lemma {:induction false} ReverseAppend(a: seq<Byte>, b: seq<Byte>)
    ensures Reverse(a + b) == Reverse(b) + Reverse(a)
  {
    if a == [] {
      assert a + b == b;
    } else {
      ReverseAppend(a[1..], b);
      assert (a + b)[1..] == a[1..] + b;
    }
  }

  lemma {:induction false} ReverseTwice(s: seq<Byte>)
    ensures Reverse(Reverse(s)) == s
  {
    if s != [] {
      ReverseAppend(Reverse(s[1..]), [s[0]]);
      ReverseTwice(s[1..]);
    }
  }

  lemma {:induction false} ReversedLoad(s: seq<Byte>)
    ensures Load(Reverse(s)) == FromBigEndian(s)
  {
    if s != [] {
      ReverseAppend(s[..|s| - 1], [s[|s| - 1]]);
      assert s == s[..|s| - 1] + [s[|s| - 1]];
      ReversedLoad(s[..|s| - 1]);
    }
  }

  lemma SplitQuotient(n: nat, p: nat, q: nat, r: nat)
    requires r < 256 * p && n == q * (256 * p) + r
    ensures n / 256 == q * p + r / 256 && n % 256 == r % 256 && r / 256 < p
  {
    DropByte(r, p);
    var m := q * p;
    assert q * (256 * p) == 256 * m;
    assert n == 256 * (m + r / 256) + r % 256;
  }

  /** Splitting an integer at a byte boundary splits its bytes. */
  lemma {:induction false} BigEndianHalves(n: nat, high: nat, low: nat, q: nat, r: nat)
    requires r < Power256(low) && n == q * Power256(low) + r
    ensures BigEndian(n, high + low) == BigEndian(q, high) + BigEndian(r, low)
  {
    if low > 0 {
      SplitQuotient(n, Power256(low - 1), q, r);
      BigEndianHalves(n / 256, high, low - 1, q, r / 256);
      assert LowByte(n) == LowByte(r);
    }
  }

  lemma Power256Of8()
    ensures Power256(4) == 0x1_0000_0000 && Power256(8) == 0x1_0000_0000_0000_0000
    ensures Power256(2) == 0x1_0000
  {
    assert Power256(1) == 256;
    assert Power256(2) == 256 * Power256(1);
    assert Power256(3) == 256 * Power256(2);
    assert Power256(4) == 256 * Power256(3);
    assert Power256(5) == 256 * Power256(4);
    assert Power256(6) == 256 * Power256(5);
    assert Power256(7) == 256 * Power256(6);
  }

  /** Storing the result of `htonll` writes the bytes of `v` in network order. */
  lemma HtonllIsBigEndian(v: nat)
    requires v < Power256(8)
    ensures Htonll(v) < Power256(8)
    ensures Memory(Htonll(v), 8) == BigEndian(v, 8)
  {
    Power256Of8();
    var high, low := v / 0x1_0000_0000, v % 0x1_0000_0000;
    StoreLoaded(BigEndian(high, 4));
    StoreLoaded(BigEndian(low, 4));
    BigEndianHalves(v, 4, 4, high, low);
    StoreLoaded(BigEndian(v, 8));
  }

  /** Reading eight bytes and applying `ntohll` gives the integer that they write in network order. */
  lemma NtohllReads(s: seq<Byte>)
    requires |s| == 8
    ensures Load(s) < Power256(8)
    ensures Ntohll(Load(s)) == FromBigEndian(s)
  {
    StoreLoaded(s);
    HtonllIsBigEndian(Load(s));
    MemoryIsReversed(Load(s), 8);
    ReverseTwice(BigEndian(Load(s), 8));
    LoadStored(Htonll(Load(s)), 8);
    ReversedLoad(s);
  }

  lemma NtohllInvertsHtonll(v: nat)
    requires v < Power256(8)
    ensures Htonll(v) < Power256(8) && Ntohll(Htonll(v)) == v
  {
    HtonllIsBigEndian(v);
    LoadStored(Htonll(v), 8);
    NtohllReads(BigEndian(v, 8));
    FromToBigEndian(v, 8);
  }

  /** `ntohs` of two bytes in memory; `htons` is its own inverse. */
  lemma NtohsReads(s: seq<Byte>)
    requires |s| == 2
    ensures HostToNet(Load(s), 2) == FromBigEndian(s)
  {
    StoreLoaded(s);
    MemoryIsReversed(Load(s), 2);
    ReverseTwice(BigEndian(Load(s), 2));
    ReversedLoad(s);
  }
}
