/** Base64, section 4 of RFC 4648: the loops of `base64_encode` and `base64_decode`, and their round trip. */
module Base64 {
  import opened Basics

  type Octet = bv8

  // ---- The alphabet ----

  function Next(c: char): (r: char)
    ensures c < '~' ==> r as int == c as int + 1
  {
    if c < '~' then (c as int + 1) as char else c
  }

  /** `base64_chars[k]`: three runs of consecutive characters and two more. */
  function Letter(k: Octet): (c: char)
    requires k < 64
    decreases k
  {
    if k == 0 then 'A'
    else if k == 26 then 'a'
    else if k == 52 then '0'
    else if k == 62 then '+'
    else if k == 63 then '/'
    else Next(Letter(k - 1))
  }

  /** `is_base64`. */
  predicate IsBase64(c: char) {
    'A' <= c <= 'Z' || 'a' <= c <= 'z' || '0' <= c <= '9' || c == '+' || c == '/'
  }

  /** `base64_chars.find(c)`, as the unsigned char it is assigned to; `npos` becomes 255. */
  function Find(c: char, from: Octet): (k: Octet)
    requires from <= 64
    decreases 64 - from
  {
    if from == 64 then 255 else if Letter(from) == c then from else Find(c, from + 1)
  }

  function Code(k: nat): nat {
    if k < 26 then 65 + k else if k < 52 then 97 + (k - 26) else if k < 62 then 48 + (k - 52)
    else if k == 62 then 43 else 47
  }

  lemma Predecessor(k: Octet)
    requires 0 < k < 64
    ensures (k - 1) as int == k as int - 1 && k as int < 64
    ensures k == 26 <==> k as int == 26
    ensures k == 52 <==> k as int == 52
    ensures k == 62 <==> k as int == 62
    ensures k == 63 <==> k as int == 63
  {
  }

  lemma {:induction false} LetterCode(k: Octet)
    requires k < 64
    ensures k as int < 64 && Letter(k) as int == Code(k as int)
    decreases k
  {
    if k > 0 {
      Predecessor(k);
      LetterCode(k - 1);
    }
  }

  lemma {:induction false} LetterIsFound(k: Octet, from: Octet)
    requires from <= k < 64
    ensures Find(Letter(k), from) == k && IsBase64(Letter(k))
    decreases 64 - from
  {
    LetterCode(k);
    LetterCode(from);
    if from < k {
      LetterIsFound(k, from + 1);
    }
  }

  lemma {:induction false} FoundIsLetter(c: char, from: Octet, k: Octet)
    requires from <= k < 64 && Letter(k) == c
    ensures Find(c, from) < 64
    decreases 64 - from
  {
    if from < k && Letter(from) != c {
      FoundIsLetter(c, from + 1, k);
    }
  }

  lemma {:induction false} LetterOfCode(k: Octet, n: nat)
    requires k < 64 && k as int <= n < 64
    ensures exists j: Octet :: j < 64 && Letter(j) as int == Code(n)
    decreases 64 - k
  {
    LetterCode(k);
    if k as int < n {
      Predecessor(k + 1);
      LetterOfCode(k + 1, n);
    }
  }

  lemma {:induction false} FoundIsThere(c: char, from: Octet)
    requires from <= 64 && Find(c, from) < 64
    ensures Letter(Find(c, from)) == c
    decreases 64 - from
  {
    if from < 64 && Letter(from) != c {
      FoundIsThere(c, from + 1);
    }
  }

  /** The test for letters, digits and two signs admits exactly the characters of the alphabet. */
  lemma IsBase64IsFound(c: char)
    ensures IsBase64(c) <==> Find(c, 0) < 64
  {
    if IsBase64(c) {
      var n := if 'a' <= c <= 'z' then c as int - 97 + 26 else if 'A' <= c <= 'Z' then c as int - 65
               else if '0' <= c <= '9' then c as int - 48 + 52 else if c == '+' then 62 else 63;
      LetterOfCode(0, n);
      var k: Octet :| k < 64 && Letter(k) as int == Code(n);
      FoundIsLetter(c, 0, k);
    }
    if Find(c, 0) < 64 {
      FoundIsThere(c, 0);
      LetterIsFound(Find(c, 0), 0);
    }
  }

  // ---- Three octets and four sextets ----

  predicate AreSextets(r: seq<Octet>) {
    |r| == 4 && r[0] < 64 && r[1] < 64 && r[2] < 64 && r[3] < 64
  }

  function Split(group: seq<Octet>): (r: seq<Octet>)
    requires |group| == 3
    ensures AreSextets(r)
  {
    [(group[0] & 0xfc) >> 2,
     ((group[0] & 0x03) << 4) + ((group[1] & 0xf0) >> 4),
     ((group[1] & 0x0f) << 2) + ((group[2] & 0xc0) >> 6),
     group[2] & 0x3f]
  }

  function Join(r: seq<Octet>): (group: seq<Octet>)
    requires |r| == 4
    ensures |group| == 3
  {
    [(r[0] << 2) + ((r[1] & 0x30) >> 4), ((r[1] & 0x0f) << 4) + ((r[2] & 0x3c) >> 2), ((r[2] & 0x03) << 6) + r[3]]
  }

  /** The 24-bit group that section 4 of RFC 4648 forms of three octets, and of four sextets. */
  function OfOctets(a: Octet, b: Octet, c: Octet): bv24 {
    (a as bv24 << 16) | (b as bv24 << 8) | c as bv24
  }

  function OfSextets(p: Octet, q: Octet, r: Octet, s: Octet): bv24 {
    (p as bv24 << 18) | (q as bv24 << 12) | (r as bv24 << 6) | s as bv24
  }

  lemma SplitKeepsBits(group: seq<Octet>)
    requires |group| == 3
    ensures var r := Split(group);
            OfSextets(r[0], r[1], r[2], r[3]) == OfOctets(group[0], group[1], group[2])
  {
  }

  lemma JoinKeepsBits(r: seq<Octet>)
    requires AreSextets(r)
    ensures var group := Join(r);
            OfOctets(group[0], group[1], group[2]) == OfSextets(r[0], r[1], r[2], r[3])
  {
  }

  lemma JoinOfSplit(group: seq<Octet>)
    requires |group| == 3
    ensures Join(Split(group)) == group
  {
  }

  lemma SplitOfJoin(r: seq<Octet>)
    requires AreSextets(r)
    ensures Split(Join(r)) == r
  {
  }

  function Letters(r: seq<Octet>): (s: string)
    requires forall i :: 0 <= i < |r| ==> r[i] < 64
    ensures |s| == |r|
  {
    seq(|r|, i requires 0 <= i < |r| => Letter(r[i]))
  }

  lemma LettersAreFound(r: seq<Octet>)
    requires forall i :: 0 <= i < |r| ==> r[i] < 64
    ensures Finds(Letters(r)) == r && AllBase64(Letters(r))
  {
    forall i | 0 <= i < |r| ensures IsBase64(Letters(r)[i]) && Find(Letters(r)[i], 0) == r[i] {
      LetterIsFound(r[i], 0);
    }
  }

  // ---- Encoding ----

  function Zeros(n: nat): (z: seq<Octet>)
    ensures |z| == n && forall i :: 0 <= i < n ==> z[i] == 0
  {
    if n == 0 then [] else [0] + Zeros(n - 1)
  }

  function Padding(n: nat): (p: string)
    ensures |p| == n && forall i :: 0 <= i < n ==> p[i] == '='
  {
    if n == 0 then "" else "=" + Padding(n - 1)
  }

  /** One or two octets: as many sextets as they reach into, and padding. */
  function EncodeLast(rest: seq<Octet>): string
    requires |rest| < 3
  {
    Letters(Split(rest + Zeros(3 - |rest|))[..|rest| + 1]) + Padding(3 - |rest|)
  }

  function Encode(b: seq<Octet>): string {
    if |b| >= 3 then Letters(Split(b[..3])) + Encode(b[3..])
    else if b == [] then ""
    else EncodeLast(b)
  }

  method Base64Encode(bytes_to_encode: seq<Octet>) returns (ret: string)
    requires |bytes_to_encode| < 0x1_0000_0000
    ensures ret == Encode(bytes_to_encode)
  {
    var char_array_3 := new Octet[3];
    var groups, rest, i := EncodeGroups(bytes_to_encode, char_array_3, Encode(bytes_to_encode));
    ret := groups;
    if i > 0 {
      var last := EncodeRest(char_array_3, i);
      ret := ret + last;
    }
  }

  /** The loop over the octets; `i` of them are left in the array. */
  method EncodeGroups(bytes_to_encode: seq<Octet>, char_array_3: array<Octet>, ghost whole: string)
      returns (ret: string, ghost rest: seq<Octet>, i: nat)
    requires char_array_3.Length == 3 && whole == Encode(bytes_to_encode)
    modifies char_array_3
    ensures i < 3 && |rest| == i && char_array_3[..i] == rest && ret + Encode(rest) == whole
  {
    ret, i := "", 0;
    for n := 0 to |bytes_to_encode|
      invariant i < 3 && i <= n && EncodedTo(bytes_to_encode, n, i, char_array_3[..i], ret, whole)
    {
      ret, i := TakeOctet(char_array_3, i, bytes_to_encode[n], ret, bytes_to_encode, n, whole);
    }
    rest := char_array_3[..i];
    EncodedRest(bytes_to_encode, i, rest, ret, whole);
  }

  lemma EncodedRest(b: seq<Octet>, i: nat, part: seq<Octet>, ret: string, whole: string)
    requires i <= |b| && EncodedTo(b, |b|, i, part, ret, whole)
    ensures |part| == i && ret + Encode(part) == whole
  {
    assert b[|b| - i..|b|] == b[|b| - i..];
  }

  /** Octets before position `n` are encoded but for the last `i`, which are `part`. */
  ghost predicate EncodedTo(b: seq<Octet>, n: nat, i: nat, part: seq<Octet>, ret: string, whole: string)
    requires i <= n <= |b|
  {
    part == b[n - i..n] && ret + Encode(b[n - i..]) == whole
  }

  method TakeOctet(char_array_3: array<Octet>, i: nat, octet: Octet, ret: string, ghost b: seq<Octet>, ghost n: nat,
                   ghost whole: string)
      returns (ret': string, i': nat)
    requires char_array_3.Length == 3 && i < 3 && i <= n < |b| && octet == b[n]
    requires EncodedTo(b, n, i, char_array_3[..i], ret, whole)
    modifies char_array_3
    ensures i' < 3 && i' <= n + 1 && EncodedTo(b, n + 1, i', char_array_3[..i'], ret', whole)
  {
    EncodedMore(b, n, i, char_array_3[..i], ret, whole);
    char_array_3[i] := octet;
    i' := i + 1;
    ret' := ret;
    assert char_array_3[..i'] == old(char_array_3[..i]) + [octet];
    if i' == 3 {
      assert char_array_3[..] == char_array_3[..3];
      var quad := EncodeGroup(char_array_3, b, n + 1, ret, whole);
      ret' := ret + quad;
      i' := 0;
      assert char_array_3[..0] == [];
    }
  }

  lemma EncodedMore(b: seq<Octet>, n: nat, i: nat, part: seq<Octet>, ret: string, whole: string)
    requires i <= n < |b| && EncodedTo(b, n, i, part, ret, whole)
    ensures EncodedTo(b, n + 1, i + 1, part + [b[n]], ret, whole)
  {
  }

  /** The four characters for the three octets before position `n`. */
  method EncodeGroup(char_array_3: array<Octet>, ghost b: seq<Octet>, ghost n: nat, ghost ret: string,
                     ghost whole: string)
      returns (quad: string)
    requires char_array_3.Length == 3 && 3 <= n <= |b| && EncodedTo(b, n, 3, char_array_3[..], ret, whole)
    ensures EncodedTo(b, n, 0, [], ret + quad, whole)
  {
    var char_array_4 := Split(char_array_3[..]);
    quad := Letters(char_array_4);
    EncodeStep(b, n, ret, whole);
  }

  lemma FirstGroup(b: seq<Octet>, n: nat)
    requires n + 3 <= |b|
    ensures Encode(b[n..]) == Letters(Split(b[n..n + 3])) + Encode(b[n + 3..])
  {
    assert b[n..][..3] == b[n..n + 3] && b[n..][3..] == b[n + 3..];
  }

  lemma EncodeStep(b: seq<Octet>, n: nat, ret: string, whole: string)
    requires 3 <= n <= |b| && ret + Encode(b[n - 3..]) == whole
    ensures ret + Letters(Split(b[n - 3..n])) + Encode(b[n..]) == whole
  {
    FirstGroup(b, n - 3);
    Regroup(ret, Letters(Split(b[n - 3..n])), Encode(b[n..]));
  }

  /** One or two octets at the end, with padding. */
  method EncodeRest(char_array_3: array<Octet>, count: nat) returns (ret: string)
    requires char_array_3.Length == 3 && 1 <= count <= 2
    modifies char_array_3
    ensures ret == Encode(old(char_array_3[..count]))
  {
    for j := count to 3
      invariant char_array_3[..count] == old(char_array_3[..count])
      invariant forall k :: count <= k < j ==> char_array_3[k] == 0
    {
      char_array_3[j] := 0;
    }
    var char_array_4 := Split(char_array_3[..]);
    assert char_array_3[..] == old(char_array_3[..count]) + Zeros(3 - count);
    ret := Letters(char_array_4[..count + 1]);
    var i := count;
    while i < 3
      invariant 1 <= i <= 3
      invariant ret + Padding(3 - i) == Encode(old(char_array_3[..count]))
    {
      Regroup(ret, "=", Padding(3 - i - 1));
      ret := ret + "=";
      i := i + 1;
    }
  }

  // ---- Decoding ----

  predicate AllBase64(s: string) {
    forall i :: 0 <= i < |s| ==> IsBase64(s[i])
  }

  function Finds(s: string): (r: seq<Octet>)
    ensures |r| == |s|
  {
    seq(|s|, i requires 0 <= i < |s| => Find(s[i], 0))
  }

  predicate IsValidPrefix(s: string, v: string) {
    v <= s && AllBase64(v) && (|v| < |s| ==> !IsBase64(s[|v|]))
  }

  /** The characters before the first one that is not in the alphabet, which may be the padding. */
  function ValidPrefix(s: string): (v: string)
    ensures IsValidPrefix(s, v)
  {
    if s == "" || !IsBase64(s[0]) then "" else [s[0]] + ValidPrefix(s[1..])
  }

  /** Fewer than four characters: the octets that they have all bits of. */
  function DecodeLast(v: string): seq<Octet>
    requires 1 <= |v| < 4
  {
    Join(Finds(v) + Zeros(4 - |v|))[..|v| - 1]
  }

  function DecodeValid(v: string): seq<Octet> {
    if |v| >= 4 then Join(Finds(v[..4])) + DecodeValid(v[4..])
    else if v == "" then []
    else DecodeLast(v)
  }

  function Decode(s: string): seq<Octet> {
    DecodeValid(ValidPrefix(s))
  }

  method Base64Decode(encoded_string: string) returns (ret: seq<Octet>)
    requires |encoded_string| < 0x8000_0000
    ensures ret == Decode(encoded_string)
  {
    var char_array_4 := new char[4];
    ghost var v := ValidPrefix(encoded_string);
    var groups, rest, i := DecodeGroups(encoded_string, char_array_4, v, DecodeValid(v));
    ret := groups;
    if i > 0 {
      var last := DecodeRest(char_array_4, i, rest);
      ret := ret + last;
    }
  }

  /** The loop over the characters of the alphabet; `i` of them are left in the array. */
  method DecodeGroups(encoded_string: string, char_array_4: array<char>, ghost v: string, ghost whole: seq<Octet>)
      returns (ret: seq<Octet>, ghost rest: string, i: nat)
    requires char_array_4.Length == 4 && IsValidPrefix(encoded_string, v) && whole == DecodeValid(v)
    modifies char_array_4
    ensures i < 4 && |rest| == i && char_array_4[..i] == rest && AllBase64(rest)
    ensures ret + DecodeValid(rest) == whole
  {
    i := 0;
    var in_ := 0;
    ret := [];
    NothingDecoded(v);
    assert char_array_4[..0] == [];
    while in_ < |encoded_string| && encoded_string[in_] != '=' && IsBase64(encoded_string[in_])
      invariant i < 4 && i <= in_ <= |v| && DecodedTo(v, in_, i, char_array_4[..i], ret, whole)
      decreases |encoded_string| - in_
    {
      StillValid(encoded_string, v, in_);
      ret, i := TakeCharacter(char_array_4, i, encoded_string[in_], ret, v, in_, whole);
      in_ := in_ + 1;
    }
    ValidEnds(encoded_string, v, in_);
    rest := v[in_ - i..];
    DecodedRest(v, in_, i, char_array_4[..i], ret, whole);
  }

  lemma NothingDecoded(v: string)
    requires AllBase64(v)
    ensures DecodedTo(v, 0, 0, [], [], DecodeValid(v))
  {
    assert v[0..] == v;
  }

  lemma StillValid(s: string, v: string, k: nat)
    requires IsValidPrefix(s, v) && k < |s| && k <= |v| && IsBase64(s[k])
    ensures k < |v| && v[k] == s[k]
  {
  }

  lemma ValidEnds(s: string, v: string, k: nat)
    requires IsValidPrefix(s, v) && k <= |v| && (k == |s| || (k < |s| && (s[k] == '=' || !IsBase64(s[k]))))
    ensures k == |v|
  {
  }

  lemma DecodedRest(v: string, n: nat, i: nat, part: string, ret: seq<Octet>, whole: seq<Octet>)
    requires i <= n == |v| && AllBase64(v) && DecodedTo(v, n, i, part, ret, whole)
    ensures part == v[n - i..] && AllBase64(v[n - i..]) && ret + DecodeValid(v[n - i..]) == whole
  {
    assert v[n - i..n] == v[n - i..];
  }

  /** Characters before position `n` are decoded but for the last `i`, which are `part`. */
  ghost predicate DecodedTo(v: string, n: nat, i: nat, part: string, ret: seq<Octet>, whole: seq<Octet>)
    requires i <= n <= |v| && AllBase64(v)
  {
    part == v[n - i..n] && ret + DecodeValid(v[n - i..]) == whole
  }

  method TakeCharacter(char_array_4: array<char>, i: nat, c: char, ret: seq<Octet>, ghost v: string, ghost n: nat,
                       ghost whole: seq<Octet>)
      returns (ret': seq<Octet>, i': nat)
    requires char_array_4.Length == 4 && i < 4 && i <= n < |v| && c == v[n] && AllBase64(v)
    requires DecodedTo(v, n, i, char_array_4[..i], ret, whole)
    modifies char_array_4
    ensures i' < 4 && i' <= n + 1 && DecodedTo(v, n + 1, i', char_array_4[..i'], ret', whole)
  {
    DecodedMore(v, n, i, char_array_4[..i], ret, whole);
    char_array_4[i] := c;
    i' := i + 1;
    ret' := ret;
    assert char_array_4[..i'] == old(char_array_4[..i]) + [c];
    if i' == 4 {
      assert char_array_4[..] == char_array_4[..4];
      var octets := DecodeGroup(char_array_4, v, n + 1, ret, whole);
      ret' := ret + octets;
      i' := 0;
      assert char_array_4[..0] == [];
    }
  }

  lemma DecodedMore(v: string, n: nat, i: nat, part: string, ret: seq<Octet>, whole: seq<Octet>)
    requires i <= n < |v| && AllBase64(v) && DecodedTo(v, n, i, part, ret, whole)
    ensures DecodedTo(v, n + 1, i + 1, part + [v[n]], ret, whole)
  {
  }

  /** The positions in the alphabet of the characters in the array. */
  method FindAll(codes: array<char>) returns (found: seq<Octet>)
    requires codes.Length == 4
    ensures found == Finds(codes[..])
  {
    found := [];
    for j := 0 to 4
      invariant |found| == j && forall k :: 0 <= k < j ==> found[k] == Find(codes[k], 0)
    {
      found := found + [Find(codes[j], 0)];
    }
  }

  /** The three octets that the four characters before position `n` stand for. */
  method DecodeGroup(char_array_4: array<char>, ghost v: string, ghost n: nat, ghost ret: seq<Octet>,
                     ghost whole: seq<Octet>)
      returns (octets: seq<Octet>)
    requires char_array_4.Length == 4 && 4 <= n <= |v| && AllBase64(v)
             && DecodedTo(v, n, 4, char_array_4[..], ret, whole)
    ensures DecodedTo(v, n, 0, [], ret + octets, whole)
  {
    var found := FindAll(char_array_4);
    DecodeStep(v, n, ret, whole);
    octets := Join(found);
  }

  lemma FirstFour(v: string, n: nat)
    requires n + 4 <= |v| && AllBase64(v)
    ensures DecodeValid(v[n..]) == Join(Finds(v[n..n + 4])) + DecodeValid(v[n + 4..])
  {
    assert v[n..][..4] == v[n..n + 4] && v[n..][4..] == v[n + 4..];
  }

  lemma DecodeStep(v: string, n: nat, ret: seq<Octet>, whole: seq<Octet>)
    requires 4 <= n <= |v| && AllBase64(v)
    requires ret + DecodeValid(v[n - 4..]) == whole
    ensures ret + Join(Finds(v[n - 4..n])) + DecodeValid(v[n..]) == whole
  {
    FirstFour(v, n - 4);
    Regroup(ret, Join(Finds(v[n - 4..n])), DecodeValid(v[n..]));
  }

  /** Fewer than four characters at the end. */
  method DecodeRest(char_array_4: array<char>, count: nat, ghost rest: string) returns (ret: seq<Octet>)
    requires char_array_4.Length == 4 && 1 <= count < 4 && |rest| == count && char_array_4[..count] == rest
    requires AllBase64(rest)
    modifies char_array_4
    ensures ret == DecodeValid(rest)
  {
    for j := count to 4
      invariant char_array_4[..count] == rest
      invariant forall k :: count <= k < j ==> char_array_4[k] == '\0'
    {
      char_array_4[j] := '\0';
    }
    var found := FindAll(char_array_4);
    RestIsFound(rest, char_array_4[..]);
    ret := Join(found)[..count - 1];
  }

  /** What stands in the place of missing characters does not reach the octets that are kept. */
  lemma RestIsFound(rest: string, codes: string)
    requires 1 <= |rest| < 4 && |codes| == 4 && codes[..|rest|] == rest
    ensures Join(Finds(codes))[..|rest| - 1] == DecodeLast(rest)
  {
    forall i | 0 <= i < |rest| ensures Finds(codes)[i] == Finds(rest)[i] {
      assert codes[i] == codes[..|rest|][i];
    }
    SameStart(Finds(codes), Finds(rest) + Zeros(4 - |rest|), |rest|);
  }

  lemma SameStart(q: seq<Octet>, r: seq<Octet>, k: nat)
    requires |q| == |r| == 4 && 1 <= k < 4 && forall i :: 0 <= i < k ==> q[i] == r[i]
    ensures Join(q)[..k - 1] == Join(r)[..k - 1]
  {
  }

  // ---- What they do together ----

  lemma ValidPrefixOfMore(v: string, s: string)
    requires AllBase64(v)
    ensures ValidPrefix(v + s) == v + ValidPrefix(s)
  {
    if v == "" {
      assert v + s == s;
    } else {
      assert (v + s)[1..] == v[1..] + s;
      ValidPrefixOfMore(v[1..], s);
      assert v == [v[0]] + v[1..];
    }
  }

  lemma AllIsValid(v: string)
    requires AllBase64(v)
    ensures ValidPrefix(v) == v
  {
    ValidPrefixOfMore(v, "");
    assert v + "" == v;
  }

  /** Everything from the first character outside of the alphabet on is ignored. */
  lemma DecodeStops(v: string, s: string)
    requires AllBase64(v) && (s == "" || !IsBase64(s[0]))
    ensures Decode(v + s) == Decode(v) && ValidPrefix(v + s) == v
  {
    ValidPrefixOfMore(v, s);
    AllIsValid(v);
    assert v + "" == v;
  }

  /** The sextets that one or two octets do not reach into are zero. */
  lemma ZeroSextets(group: seq<Octet>, count: nat)
    requires |group| == 3 && 1 <= count <= 2 && forall i :: count <= i < 3 ==> group[i] == 0
    ensures Split(group)[..count + 1] + Zeros(3 - count) == Split(group)
  {
  }

  /** One or two octets lose nothing to the characters that are missing. */
  lemma LastIsDecoded(rest: seq<Octet>)
    requires 1 <= |rest| <= 2
    ensures Decode(EncodeLast(rest)) == rest
  {
    var group := rest + Zeros(3 - |rest|);
    var r := Split(group)[..|rest| + 1];
    LettersAreFound(r);
    DecodeStops(Letters(r), Padding(3 - |rest|));
    ZeroSextets(group, |rest|);
    JoinOfSplit(group);
    assert group[..|rest|] == rest;
  }

  lemma GroupIsDecoded(group: seq<Octet>, s: string)
    requires |group| == 3
    ensures Decode(Letters(Split(group)) + s) == group + Decode(s)
  {
    var v := Letters(Split(group));
    LettersAreFound(Split(group));
    ValidPrefixOfMore(v, s);
    JoinOfSplit(group);
    assert (v + ValidPrefix(s))[..4] == v && (v + ValidPrefix(s))[4..] == ValidPrefix(s);
  }

  /** Decoding gives back what was encoded, whatever the length. */
  lemma {:induction false} DecodeInvertsEncode(b: seq<Octet>)
    ensures Decode(Encode(b)) == b
  {
    if |b| >= 3 {
      DecodeInvertsEncode(b[3..]);
      GroupIsDecoded(b[..3], Encode(b[3..]));
      assert b == b[..3] + b[3..];
    } else if b != [] {
      LastIsDecoded(b);
    }
  }

  lemma FoundLetters(v: string)
    requires |v| == 4 && AllBase64(v)
    ensures AreSextets(Finds(v)) && Letters(Finds(v)) == v
  {
    forall i | 0 <= i < 4 ensures Finds(v)[i] < 64 && Letter(Finds(v)[i]) == v[i] {
      IsBase64IsFound(v[i]);
      FoundIsThere(v[i], 0);
    }
  }

  /** Encoding gives back what was decoded, for complete groups of characters of the alphabet. */
  lemma {:induction false} EncodeInvertsDecode(v: string)
    requires AllBase64(v) && |v| % 4 == 0
    ensures Encode(Decode(v)) == v
  {
    AllIsValid(v);
    if v != "" {
      var first := Join(Finds(v[..4]));
      EncodeInvertsDecode(v[4..]);
      AllIsValid(v[4..]);
      FoundLetters(v[..4]);
      SplitOfJoin(Finds(v[..4]));
      assert (first + Decode(v[4..]))[..3] == first && (first + Decode(v[4..]))[3..] == Decode(v[4..]);
      assert v == v[..4] + v[4..];
    }
  }

  /** The length of the padding. */
  function Missing(length: nat): nat {
    (3 - length % 3) % 3
  }

  /** `e` ends with as many padding characters as are missing, and has only letters before. */
  predicate Padded(e: string, missing: nat) {
    if missing > |e| then false
    else AllBase64(e[..|e| - missing]) && forall i :: |e| - missing <= i < |e| ==> e[i] == '='
  }

  /** The form of `n` octets: four characters for every three octets begun. */
  predicate Formed(e: string, n: nat) {
    if |e| != (n + 2) / 3 * 4 then false else Padded(e, Missing(n))
  }

  lemma MoreInFront(head: string, tail: string, n: nat)
    requires |head| == 4 && AllBase64(head) && Formed(tail, n)
    ensures Formed(head + tail, n + 3)
  {
    var missing := Missing(n);
    assert Missing(n + 3) == missing && (n + 3 + 2) / 3 * 4 == 4 + (n + 2) / 3 * 4;
    assert (head + tail)[..|head + tail| - missing] == head + tail[..|tail| - missing];
  }

  lemma LastForm(rest: seq<Octet>)
    requires 1 <= |rest| <= 2
    ensures Formed(EncodeLast(rest), |rest|)
  {
    var r := Split(rest + Zeros(3 - |rest|))[..|rest| + 1];
    LettersAreFound(r);
    var missing := 3 - |rest|;
    assert (Letters(r) + Padding(missing))[..|rest| + 1] == Letters(r);
  }

  /** Four characters for every three octets begun, all of the alphabet but for the padding at the end. */
  lemma {:induction false} EncodedForm(b: seq<Octet>)
    ensures Formed(Encode(b), |b|)
  {
    if |b| >= 3 {
      EncodedForm(b[3..]);
      LettersAreFound(Split(b[..3]));
      MoreInFront(Letters(Split(b[..3])), Encode(b[3..]), |b| - 3);
    } else if b != [] {
      LastForm(b);
    }
  }

  // ---- The encoding letter by letter ----

  /** Table 1 in section 4 of RFC 4648. */
  const UPPER: string := "ABCDEFGHIJKLMNOPQRSTUVWXYZ"
  const LOWER: string := "abcdefghijklmnopqrstuvwxyz"
  const DIGITS: string := "0123456789"
  const ALPHABET: string := UPPER + LOWER + DIGITS + "+/"

  lemma UpperCode(n: nat)
    requires n < 26
    ensures UPPER[n] as int == 65 + n
  {
  }

  lemma LowerCode(n: nat)
    requires n < 26
    ensures LOWER[n] as int == 97 + n
  {
  }

  lemma DigitCode(n: nat)
    requires n < 10
    ensures DIGITS[n] as int == 48 + n
  {
  }

  lemma AlphabetCode(n: nat)
    requires n < 64
    ensures ALPHABET[n] as int == Code(n)
  {
    if n < 26 {
      UpperCode(n);
    } else if n < 52 {
      LowerCode(n - 26);
    } else if n < 62 {
      DigitCode(n - 52);
    }
  }

  /** The octets of the input, with zero bits added on the right. */
  function OctetAt(b: seq<Octet>, i: nat): Octet {
    if i < |b| then b[i] else 0
  }

  /** The j-th run of six bits. */
  function SextetAt(b: seq<Octet>, j: nat): bv24 {
    var first := j / 4 * 3;
    var group := OfOctets(OctetAt(b, first), OctetAt(b, first + 1), OctetAt(b, first + 2));
    match j % 4
    case 0 => group >> 18
    case 1 => (group >> 12) & 63
    case 2 => (group >> 6) & 63
    case _ => group & 63
  }

  lemma SplitSextet(group: seq<Octet>, j: nat)
    requires |group| == 3 && j < 4
    ensures SextetAt(group, j) == Split(group)[j] as bv24
  {
  }

  lemma LetterOfSextet(k: Octet, n: bv24)
    requires k < 64 && n == k as bv24
    ensures n < 64 && n as int < 64 && Letter(k) == ALPHABET[n as int]
  {
    LetterCode(k);
    assert n as int == k as int;
    AlphabetCode(n as int);
  }

  lemma SextetOfRest(b: seq<Octet>, j: nat)
    requires |b| >= 3 && j >= 4
    ensures SextetAt(b, j) == SextetAt(b[3..], j - 4)
  {
    assert (j - 4) / 4 == j / 4 - 1 && (j - 4) % 4 == j % 4;
  }

  lemma SextetOfFirst(b: seq<Octet>, group: seq<Octet>, j: nat)
    requires |group| == 3 && j < 4 && forall i :: 0 <= i < 3 ==> group[i] == OctetAt(b, i)
    ensures SextetAt(b, j) == SextetAt(group, j)
  {
  }

  lemma FirstLetters(b: seq<Octet>, group: seq<Octet>, j: nat)
    requires |group| == 3 && j < 4 && forall i :: 0 <= i < 3 ==> group[i] == OctetAt(b, i)
    ensures SextetAt(b, j) as int < 64 && Letters(Split(group))[j] == ALPHABET[SextetAt(b, j) as int]
  {
    SextetOfFirst(b, group, j);
    SplitSextet(group, j);
    LetterOfSextet(Split(group)[j], SextetAt(b, j));
  }

  lemma FirstFourLetters(b: seq<Octet>)
    requires |b| >= 3
    ensures |Encode(b)| == 4 + |Encode(b[3..])|
    ensures forall j :: 0 <= j < 4 ==> Encode(b)[j] == Letters(Split(b[..3]))[j]
    ensures forall j :: 4 <= j < |Encode(b)| ==> Encode(b)[j] == Encode(b[3..])[j - 4]
  {
  }

  lemma LastLetters(b: seq<Octet>, j: nat)
    requires 1 <= |b| < 3 && j < (8 * |b| + 5) / 6
    ensures j < 4 && j < |Encode(b)| && Encode(b)[j] == Letters(Split(b + Zeros(3 - |b|)))[j]
  {
  }

  /** Every run of six bits, the last one with zero bits added, stands in its place as its letter of the alphabet. */
  lemma {:induction false} EncodedLetters(b: seq<Octet>, j: nat)
    requires j < (8 * |b| + 5) / 6
    ensures SextetAt(b, j) as int < 64 && j < |Encode(b)| && Encode(b)[j] == ALPHABET[SextetAt(b, j) as int]
    decreases |b|
  {
    if |b| < 3 {
      LastLetters(b, j);
      FirstLetters(b, b + Zeros(3 - |b|), j);
    } else {
      FirstFourLetters(b);
      if j < 4 {
        FirstLetters(b, b[..3], j);
      } else {
        EncodedLetters(b[3..], j - 4);
        SextetOfRest(b, j);
      }
    }
  }

  // ---- The decoding octet by octet ----

  /** The positions in the alphabet, with zero bits where characters are missing. */
  function PositionAt(v: string, j: nat): (k: Octet)
    ensures j < |v| && IsBase64(v[j]) ==> k < 64 && v[j] == ALPHABET[k as int]
  {
    if j < |v| then FoundAt(v[j]) else 0
  }

  function FoundAt(c: char): (k: Octet)
    ensures IsBase64(c) ==> k < 64 && c == ALPHABET[k as int]
  {
    FoundInAlphabet(c);
    Find(c, 0)
  }

  lemma FoundInAlphabet(c: char)
    ensures IsBase64(c) ==> Find(c, 0) < 64 && c == ALPHABET[Find(c, 0) as int]
  {
    if IsBase64(c) {
      IsBase64IsFound(c);
      FoundIsThere(c, 0);
      LetterOfSextet(Find(c, 0), Find(c, 0) as bv24);
    }
  }

  function EightBits(group: bv24, k: nat): bv24 {
    match k
    case 0 => group >> 16
    case 1 => (group >> 8) & 255
    case _ => group & 255
  }

  /** The 24 bits of four characters. */
  function GroupAt(v: string, first: nat): bv24 {
    OfSextets(PositionAt(v, first), PositionAt(v, first + 1), PositionAt(v, first + 2), PositionAt(v, first + 3))
  }

  /** The i-th run of eight bits. */
  function DecodedAt(v: string, i: nat): bv24 {
    EightBits(GroupAt(v, i / 3 * 4), i % 3)
  }

  lemma OctetBits(a: Octet, b: Octet, c: Octet)
    ensures EightBits(OfOctets(a, b, c), 0) == a as bv24
    ensures EightBits(OfOctets(a, b, c), 1) == b as bv24
    ensures EightBits(OfOctets(a, b, c), 2) == c as bv24
  {
  }

  lemma GroupBits(group: seq<Octet>, i: nat)
    requires |group| == 3 && i < 3
    ensures group[i] as bv24 == EightBits(OfOctets(group[0], group[1], group[2]), i)
  {
    OctetBits(group[0], group[1], group[2]);
  }

  lemma JoinOctet(r: seq<Octet>, i: nat)
    requires AreSextets(r) && i < 3
    ensures Join(r)[i] as bv24 == EightBits(OfSextets(r[0], r[1], r[2], r[3]), i)
  {
    JoinKeepsBits(r);
    GroupBits(Join(r), i);
  }

  lemma FirstOctets(v: string, r: seq<Octet>, i: nat)
    requires AreSextets(r) && i < 3 && forall j :: 0 <= j < 4 ==> r[j] == PositionAt(v, j)
    ensures Join(r)[i] as bv24 == DecodedAt(v, i)
  {
    JoinOctet(r, i);
    assert i / 3 * 4 == 0 && i % 3 == i;
    assert GroupAt(v, 0) == OfSextets(r[0], r[1], r[2], r[3]);
  }

  lemma GroupOfRest(v: string, first: nat)
    requires |v| >= 4 && first >= 4
    ensures GroupAt(v, first) == GroupAt(v[4..], first - 4)
  {
  }

  lemma OneGroupLess(i: nat)
    requires i >= 3
    ensures (i - 3) / 3 * 4 == i / 3 * 4 - 4 && i / 3 * 4 >= 4 && (i - 3) % 3 == i % 3
  {
    assert (i - 3) / 3 == i / 3 - 1;
  }

  lemma OctetOfRest(v: string, i: nat)
    requires |v| >= 4 && i >= 3
    ensures DecodedAt(v, i) == DecodedAt(v[4..], i - 3)
  {
    OneGroupLess(i);
    GroupOfRest(v, i / 3 * 4);
  }

  lemma FirstThreeOctets(v: string)
    requires |v| >= 4
    ensures |DecodeValid(v)| == 3 + |DecodeValid(v[4..])|
    ensures forall i :: 0 <= i < 3 ==> DecodeValid(v)[i] == Join(Finds(v[..4]))[i]
    ensures forall i :: 3 <= i < |DecodeValid(v)| ==> DecodeValid(v)[i] == DecodeValid(v[4..])[i - 3]
  {
  }

  lemma PaddedAt(v: string, j: nat)
    requires |v| <= 4 && AllBase64(v) && j < 4
    ensures (Finds(v) + Zeros(4 - |v|))[j] == PositionAt(v, j) && PositionAt(v, j) < 64
  {
    if j < |v| {
      assert IsBase64(v[j]);
    } else {
      assert (Finds(v) + Zeros(4 - |v|))[j] == Zeros(4 - |v|)[j - |v|];
    }
  }

  lemma FoundSextets(v: string, padded: seq<Octet>)
    requires |v| <= 4 && AllBase64(v) && padded == Finds(v) + Zeros(4 - |v|)
    ensures AreSextets(padded) && forall j :: 0 <= j < 4 ==> padded[j] == PositionAt(v, j)
  {
    PaddedAt(v, 0);
    PaddedAt(v, 1);
    PaddedAt(v, 2);
    PaddedAt(v, 3);
  }

  /** Every run of eight bits that the characters hold is decoded, and bits left over are dropped. */
  lemma {:induction false} DecodedOctets(v: string)
    requires AllBase64(v)
    ensures |DecodeValid(v)| == 6 * |v| / 8
    ensures forall i :: 0 <= i < |DecodeValid(v)| ==> DecodeValid(v)[i] as bv24 == DecodedAt(v, i)
  {
    if |v| >= 4 {
      DecodedOctets(v[4..]);
      FirstThreeOctets(v);
      FoundLetters(v[..4]);
      forall i | 0 <= i < |DecodeValid(v)| ensures DecodeValid(v)[i] as bv24 == DecodedAt(v, i) {
        if i < 3 {
          FirstOctets(v, Finds(v[..4]), i);
        } else {
          OctetOfRest(v, i);
        }
      }
    } else if v != "" {
      var padded := Finds(v) + Zeros(4 - |v|);
      FoundSextets(v, padded);
      forall i | 0 <= i < |DecodeValid(v)| ensures DecodeValid(v)[i] as bv24 == DecodedAt(v, i) {
        FirstOctets(v, padded, i);
      }
    }
  }

  /** The octets decoded, whatever follows the characters of the alphabet. */
  lemma DecodedBits(v: string, s: string, i: nat)
    requires AllBase64(v) && (s == "" || !IsBase64(s[0]))
    ensures |Decode(v + s)| == 6 * |v| / 8
    ensures i < |Decode(v + s)| ==> Decode(v + s)[i] as bv24 == DecodedAt(v, i)
  {
    DecodeStops(v, s);
    AllIsValid(v);
    DecodedOctets(v);
  }
}
