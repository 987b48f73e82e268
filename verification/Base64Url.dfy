/** Fixed-width big-endian bit strings, the vocabulary in which RFC 4648 defines its encodings. */
module BitStrings {
  type Bit = b: int | 0 <= b < 2

  function Pow2(k: nat): (p: nat)
    ensures p > 0
  {
    if k == 0 then 1 else 2 * Pow2(k - 1)
  }

  /** The `w` low bits of `v`, most significant first. */
  function BitsOf(v: nat, w: nat): (r: seq<Bit>)
    ensures |r| == w
  {
    if w == 0 then [] else BitsOf(v / 2, w - 1) + [v % 2]
  }

  function ValueOf(bits: seq<Bit>): (v: nat)
    ensures v < Pow2(|bits|)
  {
    if bits == [] then 0 else 2 * ValueOf(bits[..|bits| - 1]) + bits[|bits| - 1]
  }

  function Zeros(n: nat): (r: seq<Bit>)
    ensures |r| == n
  {
    seq(n, i => 0)
  }

  /** The bit stream of a sequence of `w`-bit groups. */
  function Flatten(vs: seq<nat>, w: nat): (r: seq<Bit>)
  {
    if vs == [] then [] else BitsOf(vs[0], w) + Flatten(vs[1..], w)
  }

  /** Cuts a bit stream into whole `w`-bit groups and drops an incomplete last one. */
  function Group(bits: seq<Bit>, w: nat): (r: seq<nat>)
    requires w > 0
    ensures forall i :: 0 <= i < |r| ==> r[i] < Pow2(w)
  {
    if |bits| < w then [] else
      [ValueOf(bits[..w])] + Group(bits[w..], w)
  }

  lemma {:induction false} BitsOfValue(bits: seq<Bit>)
    ensures BitsOf(ValueOf(bits), |bits|) == bits
  {
    if bits != [] {
      BitsOfValue(bits[..|bits| - 1]);
    }
  }

  lemma {:induction false} ValueOfBits(v: nat, w: nat)
    requires v < Pow2(w)
    ensures ValueOf(BitsOf(v, w)) == v
  {
    if w > 0 {
      ValueOfBits(v / 2, w - 1);
      assert BitsOf(v, w)[..w - 1] == BitsOf(v / 2, w - 1);
    }
  }

  /** The bits of a number built from a high and a low part are the bits of the parts. */
  lemma {:induction false} BitsOfSplit(hi: nat, lo: nat, w: nat, k: nat)
    requires lo < Pow2(k)
    ensures BitsOf(hi * Pow2(k) + lo, w + k) == BitsOf(hi, w) + BitsOf(lo, k)
  {
    if k > 0 {
      var p := Pow2(k - 1);
      var v := hi * Pow2(k) + lo;
      DoubleProduct(hi, p);
      HalveSum(hi * p, lo);
      BitsOfSplit(hi, lo / 2, w, k - 1);
      assert BitsOf(v, w + k) == BitsOf(v / 2, w + (k - 1)) + [v % 2];
      assert BitsOf(lo, k) == BitsOf(lo / 2, k - 1) + [lo % 2];
    }
  }

  lemma DoubleProduct(a: nat, p: nat)
    ensures a * (2 * p) == 2 * (a * p)
    ensures a * p >= 0
  {
  }

  lemma HalveSum(q: nat, lo: nat)
    ensures (2 * q + lo) / 2 == q + lo / 2 && (2 * q + lo) % 2 == lo % 2
  {
  }

  lemma {:induction false} FlattenAppend(a: seq<nat>, b: seq<nat>, w: nat)
    ensures Flatten(a + b, w) == Flatten(a, w) + Flatten(b, w)
  {
    if a == [] {
      assert a + b == b;
    } else {
      FlattenAppend(a[1..], b, w);
      assert (a + b)[1..] == a[1..] + b;
    }
  }

  /** Grouping undoes flattening, and ignores what does not fill a group. */
  lemma {:induction false} GroupOfFlatten(vs: seq<nat>, tail: seq<Bit>, w: nat)
    requires w > 0 && |tail| < w
    requires forall i :: 0 <= i < |vs| ==> vs[i] < Pow2(w)
    ensures Group(Flatten(vs, w) + tail, w) == vs
  {
    var bits := Flatten(vs, w) + tail;
    if vs == [] {
      assert bits == tail;
    } else {
      ValueOfBits(vs[0], w);
      GroupOfFlatten(vs[1..], tail, w);
      assert bits == BitsOf(vs[0], w) + (Flatten(vs[1..], w) + tail);
      assert bits[..w] == BitsOf(vs[0], w);
      assert bits[w..] == Flatten(vs[1..], w) + tail;
    }
  }

  /** Flattening undoes grouping, up to the dropped incomplete group. */
  lemma {:induction false} FlattenOfGroup(bits: seq<Bit>, w: nat)
    requires w > 0
    ensures var kept := Flatten(Group(bits, w), w);
            |kept| <= |bits| < |kept| + w && kept == bits[..|kept|]
  {
    if |bits| >= w {
      FlattenOfGroup(bits[w..], w);
      BitsOfValue(bits[..w]);
      var rest := Flatten(Group(bits[w..], w), w);
      assert Group(bits, w)[1..] == Group(bits[w..], w);
      assert Flatten(Group(bits, w), w) == bits[..w] + rest;
      assert bits[..w + |rest|] == bits[..w] + bits[w..][..|rest|];
    }
  }

  lemma {:induction false} FlattenLength(vs: seq<nat>, w: nat)
    ensures |Flatten(vs, w)| == |vs| * w
  {
    if vs != [] {
      FlattenLength(vs[1..], w);
    }
  }

  lemma DivMod(v: nat, u: nat)
    requires u > 0
    ensures v / u >= 0 && 0 <= v % u < u && v == v / u * u + v % u
  {
  }
}

/** The unpadded base64url codec of src/claude_gateway.rs. */
module Base64Url {
  import opened Common
  import opened BitStrings

  newtype u8 = x: int | 0 <= x < 0x100
  newtype u32 = x: int | 0 <= x < 0x1_0000_0000

  function CharsFrom(first: char, n: nat): (r: string)
    requires first as int + n <= 0xD800
    ensures |r| == n
  {
    seq(n, i requires 0 <= i < n => (first as int + i) as char)
  }

  /** The alphabet of section 5 of RFC 4648: A-Z, a-z, 0-9, '-' and '_'. */
  const TABLE: string := CharsFrom('A', 26) + CharsFrom('a', 26) + CharsFrom('0', 10) + "-_"

  /** The decoder's match on one character. */
  function SextetOf(c: char): (r: Option<u32>)
    ensures r.Some? ==> r.value < 64
  {
    if 'A' <= c <= 'Z' then Some((c as int - 'A' as int) as u32)
    else if 'a' <= c <= 'z' then Some((c as int - 'a' as int + 26) as u32)
    else if '0' <= c <= '9' then Some((c as int - '0' as int + 52) as u32)
    else if c == '-' then Some(62)
    else if c == '_' then Some(63)
    else None
  }

  predicate InAlphabet(s: string) {
    forall i :: 0 <= i < |s| ==> SextetOf(s[i]).Some?
  }

  function Sextets(s: string): (r: seq<nat>)
    requires InAlphabet(s)
    ensures |r| == |s|
    ensures forall i :: 0 <= i < |s| ==> r[i] < 64 && r[i] == SextetOf(s[i]).value as int
  {
    seq(|s|, i requires 0 <= i < |s| => SextetOf(s[i]).value as int)
  }

  function Chars(vs: seq<nat>): (r: string)
    requires forall i :: 0 <= i < |vs| ==> vs[i] < 64
    ensures |r| == |vs|
  {
    seq(|vs|, i requires 0 <= i < |vs| => TABLE[vs[i]])
  }

  /** The number of zero bits that fill the last sextet of `n` bits. */
  function PadBits(n: nat): (p: nat)
    ensures p < 6 && (n + p) % 6 == 0
  {
    (6 - n % 6) % 6
  }

  /** Sections 4 and 5 of RFC 4648, unpadded: the octets as one bit stream, zero bits added on the
      right up to a whole number of six-bit groups, each group written as a character. */
  function Encode(x: seq<Byte>): (s: string) {
    var bits := Flatten(x, 8);
    Pow2Values();
    Chars(Group(bits + Zeros(PadBits(|bits|)), 6))
  }

  /** The inverse reading: the sextets as one bit stream, cut into whole octets. */
  function Decode(s: string): (r: Option<seq<Byte>>) {
    Pow2Values();
    if InAlphabet(s) then Some(Group(Flatten(Sextets(s), 6), 8)) else None
  }

  lemma Pow2Values()
    ensures Pow2(0) == 1 && Pow2(2) == 4 && Pow2(4) == 16 && Pow2(6) == 64 && Pow2(8) == 256
    ensures Pow2(10) == 1024 && Pow2(12) == 4096
  {
    assert Pow2(3) == 8;
    assert Pow2(6) == 64;
    assert Pow2(9) == 512;
    assert Pow2(12) == 4096;
  }

  lemma SextetOfTable(v: nat)
    requires v < 64
    ensures SextetOf(TABLE[v]) == Some(v as u32)
  {
  }

  lemma TableOfSextet(c: char)
    requires SextetOf(c).Some?
    ensures TABLE[SextetOf(c).value] == c
  {
  }

  lemma SextetsOfChars(vs: seq<nat>)
    requires forall i :: 0 <= i < |vs| ==> vs[i] < 64
    ensures InAlphabet(Chars(vs)) && Sextets(Chars(vs)) == vs
  {
    forall i | 0 <= i < |vs|
      ensures SextetOf(Chars(vs)[i]) == Some(vs[i] as u32)
    {
      SextetOfTable(vs[i]);
    }
  }

  lemma CharsOfSextets(s: string)
    requires InAlphabet(s)
    ensures Chars(Sextets(s)) == s
  {
    forall i | 0 <= i < |s|
      ensures Chars(Sextets(s))[i] == s[i]
    {
      TableOfSextet(s[i]);
    }
  }

  lemma FlattenOfSextetGroups(bits: seq<Bit>)
    requires |bits| % 6 == 0
    ensures Flatten(Group(bits, 6), 6) == bits
  {
    FlattenOfGroup(bits, 6);
    FlattenLength(Group(bits, 6), 6);
    SameMultiple(|bits|, |Group(bits, 6)|);
  }

  lemma SameMultiple(n: nat, m: nat)
    requires n % 6 == 0 && m * 6 <= n < m * 6 + 6
    ensures n == m * 6
  {
  }

  /** Every octet sequence survives encoding and decoding. */
  lemma RoundTrip(x: seq<Byte>)
    ensures Decode(Encode(x)) == Some(x)
  {
    Pow2Values();
    var bits := Flatten(x, 8);
    var pad := Zeros(PadBits(|bits|));
    var vs := Group(bits + pad, 6);
    SextetsOfChars(vs);
    FlattenOfSextetGroups(bits + pad);
    GroupOfFlatten(x, pad, 8);
  }

  /** The letters, the digits, '-' and '_'. */
  predicate UrlSafe(c: char) {
    'A' <= c <= 'Z' || 'a' <= c <= 'z' || '0' <= c <= '9' || c == '-' || c == '_'
  }

  /** Table 2 of RFC 4648, for the encoder and for the decoder. */
  lemma AlphabetIs(c: char, v: nat)
    requires v < 64
    ensures SextetOf(c).Some? <==> UrlSafe(c)
    ensures TABLE[v] == c <==> SextetOf(c) == Some(v as u32)
    ensures v < 26 ==> TABLE[v] as int == 65 + v
    ensures 26 <= v < 52 ==> TABLE[v] as int == 97 + (v - 26)
    ensures 52 <= v < 62 ==> TABLE[v] as int == 48 + (v - 52)
    ensures TABLE[62] == '-' && TABLE[63] == '_'
  {
    SextetOfTable(v);
    if SextetOf(c).Some? {
      TableOfSextet(c);
    }
  }

  /** Encodings use only these characters. */
  lemma EncodeAlphabet(x: seq<Byte>)
    ensures InAlphabet(Encode(x)) && forall i :: 0 <= i < |Encode(x)| ==> UrlSafe(Encode(x)[i])
  {
    Pow2Values();
    var bits := Flatten(x, 8);
    SextetsOfChars(Group(bits + Zeros(PadBits(|bits|)), 6));
  }

  /** Exactly the strings of these characters can be decoded. */
  lemma DecodeAlphabet(s: string)
    ensures Decode(s).Some? <==> forall i :: 0 <= i < |s| ==> UrlSafe(s[i])
  {
    forall i | 0 <= i < |s|
      ensures SextetOf(s[i]).Some? <==> UrlSafe(s[i])
    {
      AlphabetIs(s[i], 0);
    }
  }

  lemma EncodeInjective(x: seq<Byte>, y: seq<Byte>)
    requires Encode(x) == Encode(y)
    ensures x == y
  {
    RoundTrip(x);
    RoundTrip(y);
  }

  /** Section 3.5 of RFC 4648: no stray last character, and zero bits after the last whole octet. */
  predicate Canonical(s: string)
    requires InAlphabet(s)
  {
    var vs := Sextets(s);
    match |s| % 4
    case 0 => true
    case 1 => false
    case 2 => vs[|s| - 1] % 16 == 0
    case _ => vs[|s| - 1] % 4 == 0
  }

  lemma ZeroBits(v: nat, k: nat)
    requires v < Pow2(k)
    ensures BitsOf(v, k) == Zeros(k) <==> v == 0
  {
    ValueOfBits(v, k);
    ZeroBitsOfZero(k);
  }

  lemma {:induction false} ZeroBitsOfZero(k: nat)
    ensures BitsOf(0, k) == Zeros(k)
  {
    if k > 0 {
      ZeroBitsOfZero(k - 1);
    }
  }

  /** The last `k` bits of a sextet stream are zero exactly when the last sextet is a multiple of 2^k. */
  lemma LeftoverBits(vs: seq<nat>, k: nat)
    requires vs != [] && k <= 6
    ensures var f := Flatten(vs, 6);
            && k <= |f|
            && (f[|f| - k..] == Zeros(k) <==> vs[|vs| - 1] % Pow2(k) == 0)
  {
    hide BitsOf, Pow2, Flatten;
    var n := |vs|;
    var last := vs[n - 1];
    var front := Flatten(vs[..n - 1], 6);
    FlattenAppend(vs[..n - 1], [last], 6);
    assert vs == vs[..n - 1] + [last];
    Flatten1(last, 6);
    SplitBits(last, 6, k, Pow2(k));
    TailOfSum(front, BitsOf(last / Pow2(k), 6 - k), BitsOf(last % Pow2(k), k));
    ZeroBits(last % Pow2(k), k);
  }

  lemma SplitBits(v: nat, w: nat, k: nat, unit: nat)
    requires k <= w && unit == Pow2(k)
    ensures v / unit >= 0 && 0 <= v % unit < unit
    ensures BitsOf(v, w) == BitsOf(v / unit, w - k) + BitsOf(v % unit, k)
  {
    DivMod(v, unit);
    BitsOfSplit(v / unit, v % unit, w - k, k);
  }

  lemma TailOfSum<T>(a: seq<T>, b: seq<T>, c: seq<T>)
    ensures (a + (b + c))[|a| + |b|..] == c
  {
  }

  /** Decoding and re-encoding a string over the alphabet gives it back exactly when it is canonical;
      the strings that are not canonical decode all the same. */
  lemma CanonicalForm(s: string)
    requires InAlphabet(s)
    ensures Decode(s).Some? && |Decode(s).value| == 6 * |s| / 8
    ensures Encode(Decode(s).value) == s <==> Canonical(s)
  {
    hide BitsOf, Pow2, Flatten, Group;
    Pow2Values();
    var vs := Sextets(s);
    var bits := Flatten(vs, 6);
    var x: seq<Byte> := Group(bits, 8);
    FlattenOfGroup(bits, 8);
    FlattenLength(vs, 6);
    FlattenLength(x, 8);
    OctetCount(|s|, |x|);
    var kept := Flatten(x, 8);
    var pad := Zeros(PadBits(|kept|));
    assert Encode(x) == s <==> kept + pad == bits by {
      ReencodedBits(vs, kept + pad);
      CharsOfSextets(s);
      SextetsOfChars(Group(kept + pad, 6));
    }
    if |s| % 4 != 1 {
      assert bits == kept + bits[|kept|..];
      if |s| % 4 == 0 {
        assert kept + pad == bits;
      } else {
        LeftoverBits(vs, |pad|);
        assert bits[|bits| - |pad|..] == bits[|kept|..];
      }
    }
  }

  /** How many whole octets `n` sextets hold, and whether re-encoding them needs `n` sextets again. */
  lemma OctetCount(n: nat, m: nat)
    requires 8 * m <= 6 * n < 8 * m + 8
    ensures m == 6 * n / 8
    ensures 8 * m + PadBits(8 * m) == 6 * n <==> n % 4 != 1
    ensures n % 4 == 0 ==> PadBits(8 * m) == 0
    ensures n % 4 == 2 ==> PadBits(8 * m) == 4
    ensures n % 4 == 3 ==> PadBits(8 * m) == 2
  {
    var q, r := n / 4, n % 4;
    assert n == 4 * q + r;
    assert r == 0 ==> m == 3 * q;
    assert r == 1 ==> m == 3 * q;
    assert r == 2 ==> m == 3 * q + 1;
    assert r == 3 ==> m == 3 * q + 2;
  }

  /** Two sextet sequences are equal exactly when their bit streams are. */
  lemma ReencodedBits(vs: seq<nat>, bits: seq<Bit>)
    requires |bits| % 6 == 0
    requires forall i :: 0 <= i < |vs| ==> vs[i] < 64
    ensures Group(bits, 6) == vs <==> bits == Flatten(vs, 6)
  {
    Pow2Values();
    FlattenOfSextetGroups(bits);
    GroupOfFlatten(vs, [], 6);
    assert Flatten(vs, 6) + [] == Flatten(vs, 6);
  }

  function Join24(b0: nat, b1: nat, b2: nat): nat {
    b0 * 65536 + b1 * 256 + b2
  }

  /** The k-th of the four sextets of a 24-bit group. */
  function Sextet(n: nat, k: nat): (v: nat)
    ensures v < 64
  {
    match k
    case 0 => n / 262144 % 64
    case 1 => n / 4096 % 64
    case 2 => n / 64 % 64
    case _ => n % 64
  }

  /** Division recovers the quotient that a sum was built from. */
  lemma DivOfSum(n: nat, q: nat, r: nat, d: nat)
    requires d == 64 || d == 4096 || d == 262144
    requires r < d && n == (if d == 64 then 64 * q else if d == 4096 then 4096 * q else 262144 * q) + r
    ensures n / d == q && n % d == r
  {
  }

  lemma Sextet0(b0: nat, b1: nat, b2: nat)
    requires b0 < 256 && b1 < 256 && b2 < 256
    ensures Sextet(Join24(b0, b1, b2), 0) == b0 / 4
  {
    DivOfSum(Join24(b0, b1, b2), b0 / 4, b0 % 4 * 65536 + b1 * 256 + b2, 262144);
  }

  lemma Sextet1(b0: nat, b1: nat, b2: nat)
    requires b0 < 256 && b1 < 256 && b2 < 256
    ensures Sextet(Join24(b0, b1, b2), 1) == b0 % 4 * 16 + b1 / 16
  {
    var h, l := b1 / 16, b1 % 16;
    DivOfSum(Join24(b0, b1, b2), b0 * 16 + h, l * 256 + b2, 4096);
    DivOfSum(b0 * 16 + h, b0 / 4, b0 % 4 * 16 + h, 64);
  }

  lemma Sextet2(b0: nat, b1: nat, b2: nat)
    requires b0 < 256 && b1 < 256 && b2 < 256
    ensures Sextet(Join24(b0, b1, b2), 2) == b1 % 16 * 4 + b2 / 64
    ensures Sextet(Join24(b0, b1, b2), 3) == b2 % 64
  {
    var h, l := b2 / 64, b2 % 64;
    DivOfSum(Join24(b0, b1, b2), b0 * 1024 + b1 * 4 + h, l, 64);
    Sextet2Quotient(b0, b1, h);
  }

  lemma Sextet2Quotient(b0: nat, b1: nat, h: nat)
    requires h < 4
    ensures (b0 * 1024 + b1 * 4 + h) % 64 == b1 % 16 * 4 + h
  {
    DivOfSum(b0 * 1024 + b1 * 4 + h, b0 * 16 + b1 / 16, b1 % 16 * 4 + h, 64);
  }

  lemma RegroupParts<T>(a: seq<T>, b: seq<T>, c: seq<T>, d: seq<T>, e: seq<T>, f: seq<T>,
                        s1: seq<T>, s2: seq<T>, o0: seq<T>, o1: seq<T>, o2: seq<T>)
    requires s1 == b + c && s2 == d + e && o0 == a + b && o1 == c + d && o2 == e + f
    ensures a + s1 + s2 + f == o0 + o1 + o2
  {
  }

  lemma SplitAt(v: nat, hi: nat, lo: nat, w: nat, k: nat)
    requires k == 2 || k == 4 || k == 6
    requires lo < (if k == 2 then 4 else if k == 4 then 16 else 64)
    requires v == lo + (if k == 2 then 4 * hi else if k == 4 then 16 * hi else 64 * hi)
    requires k <= w
    ensures BitsOf(v, w) == BitsOf(hi, w - k) + BitsOf(lo, k)
  {
    Pow2Values();
    assert hi * Pow2(k) == (if k == 2 then 4 * hi else if k == 4 then 16 * hi else 64 * hi);
    BitsOfSplit(hi, lo, w - k, k);
  }

  ghost predicate SameBits(b0: nat, b1: nat, b2: nat, n: nat) {
    BitsOf(Sextet(n, 0), 6) + BitsOf(Sextet(n, 1), 6) + BitsOf(Sextet(n, 2), 6) + BitsOf(Sextet(n, 3), 6)
    == BitsOf(b0, 8) + BitsOf(b1, 8) + BitsOf(b2, 8)
  }

  /** One 24-bit group of the encoder, read as four sextets and as three octets. */
  lemma Join24Bits(b0: nat, b1: nat, b2: nat)
    requires b0 < 256 && b1 < 256 && b2 < 256
    ensures SameBits(b0, b1, b2, Join24(b0, b1, b2))
  {
    hide BitsOf, Join24, Sextet;
    var n := Join24(b0, b1, b2);
    var s0, s1, s2, s3 := Sextet(n, 0), Sextet(n, 1), Sextet(n, 2), Sextet(n, 3);
    var l0, h1, l1, h2 := b0 % 4, b1 / 16, b1 % 16, b2 / 64;
    Sextet0(b0, b1, b2);
    Sextet1(b0, b1, b2);
    Sextet2(b0, b1, b2);
    SplitAt(b0, s0, l0, 8, 2);
    SplitAt(s1, l0, h1, 6, 4);
    SplitAt(b1, h1, l1, 8, 4);
    SplitAt(s2, l1, h2, 6, 2);
    SplitAt(b2, h2, s3, 8, 6);
    RegroupParts(BitsOf(s0, 6), BitsOf(l0, 2), BitsOf(h1, 4), BitsOf(l1, 4), BitsOf(h2, 2), BitsOf(s3, 6),
                 BitsOf(s1, 6), BitsOf(s2, 6), BitsOf(b0, 8), BitsOf(b1, 8), BitsOf(b2, 8));
  }

  ghost function ChunkSextets(chunk: seq<Byte>): (r: seq<nat>)
    requires 1 <= |chunk| <= 3
    ensures |r| == |chunk| + 1
    ensures forall k :: 0 <= k < |r| ==> r[k] < 64
  {
    if |chunk| == 1 then
      var n := Join24(chunk[0], 0, 0);
      [Sextet(n, 0), Sextet(n, 1)]
    else if |chunk| == 2 then
      var n := Join24(chunk[0], chunk[1], 0);
      [Sextet(n, 0), Sextet(n, 1), Sextet(n, 2)]
    else
      var n := Join24(chunk[0], chunk[1], chunk[2]);
      [Sextet(n, 0), Sextet(n, 1), Sextet(n, 2), Sextet(n, 3)]
  }

  lemma Flatten1(a: nat, w: nat)
    ensures Flatten([a], w) == BitsOf(a, w)
  {
    assert Flatten([a], w) == BitsOf(a, w) + Flatten([], w);
  }

  lemma Flatten2(a: nat, b: nat, w: nat)
    ensures Flatten([a, b], w) == BitsOf(a, w) + BitsOf(b, w)
  {
    FlattenAppend([a], [b], w);
    assert [a] + [b] == [a, b];
    Flatten1(a, w);
    Flatten1(b, w);
  }

  lemma Flatten3(a: nat, b: nat, c: nat, w: nat)
    ensures Flatten([a, b, c], w) == BitsOf(a, w) + BitsOf(b, w) + BitsOf(c, w)
  {
    FlattenAppend([a, b], [c], w);
    assert [a, b] + [c] == [a, b, c];
    Flatten2(a, b, w);
    Flatten1(c, w);
  }

  /** A whole or partial chunk carries its own octets, followed by zero bits. */
  lemma ChunkSextetsBits(chunk: seq<Byte>)
    requires 1 <= |chunk| <= 3
    ensures Flatten(ChunkSextets(chunk), 6) == Flatten(chunk, 8) + Zeros(6 - 2 * |chunk|)
  {
    hide *;
    if |chunk| == 1 {
      assert chunk == [chunk[0]];
      Chunk1Bits(chunk[0]);
    } else if |chunk| == 2 {
      assert chunk == [chunk[0], chunk[1]];
      Chunk2Bits(chunk[0], chunk[1]);
    } else {
      Display3(chunk);
      Chunk3Bits(chunk[0], chunk[1], chunk[2]);
    }
  }

  lemma Chunk1Bits(b0: Byte)
    ensures Flatten(ChunkSextets([b0]), 6) == Flatten([b0], 8) + Zeros(4)
  {
    hide BitsOf, Flatten, Zeros, SameBits, Sextet, Join24;
    Join24Bits(b0, 0, 0);
    OneOctet(b0, 0, 0, Join24(b0, 0, 0));
  }

  lemma Chunk2Bits(b0: Byte, b1: Byte)
    ensures Flatten(ChunkSextets([b0, b1]), 6) == Flatten([b0, b1], 8) + Zeros(2)
  {
    hide BitsOf, Flatten, Zeros, SameBits, Sextet, Join24;
    Join24Bits(b0, b1, 0);
    TwoOctets(b0, b1, 0, Join24(b0, b1, 0));
  }

  lemma Chunk3Bits(b0: Byte, b1: Byte, b2: Byte)
    ensures Flatten(ChunkSextets([b0, b1, b2]), 6) == Flatten([b0, b1, b2], 8) + Zeros(0)
  {
    hide BitsOf, Flatten, Zeros, SameBits, Sextet, Join24;
    Join24Bits(b0, b1, b2);
    ThreeOctets(b0, b1, b2, Join24(b0, b1, b2));
  }

  lemma Display3<T>(s: seq<T>)
    requires |s| == 3
    ensures s == [s[0], s[1], s[2]]
  {
  }

  lemma OneOctet(b0: nat, b1: nat, b2: nat, n: nat)
    requires SameBits(b0, b1, b2, n) && b1 == 0
    ensures Flatten([Sextet(n, 0), Sextet(n, 1)], 6) == Flatten([b0], 8) + Zeros(4)
  {
    hide BitsOf, Flatten, Sextet;
    Flatten2(Sextet(n, 0), Sextet(n, 1), 6);
    Flatten1(b0, 8);
    ZeroBitsOfZero(8);
    SharedPrefix(BitsOf(Sextet(n, 0), 6) + BitsOf(Sextet(n, 1), 6), BitsOf(Sextet(n, 2), 6), BitsOf(Sextet(n, 3), 6),
                 BitsOf(b0, 8), BitsOf(b1, 8), BitsOf(b2, 8), 4);
  }

  lemma TwoOctets(b0: nat, b1: nat, b2: nat, n: nat)
    requires SameBits(b0, b1, b2, n) && b2 == 0
    ensures Flatten([Sextet(n, 0), Sextet(n, 1), Sextet(n, 2)], 6) == Flatten([b0, b1], 8) + Zeros(2)
  {
    hide BitsOf, Flatten, Sextet;
    Flatten3(Sextet(n, 0), Sextet(n, 1), Sextet(n, 2), 6);
    Flatten2(b0, b1, 8);
    ZeroBitsOfZero(8);
    var x := BitsOf(Sextet(n, 0), 6) + BitsOf(Sextet(n, 1), 6) + BitsOf(Sextet(n, 2), 6);
    var o := BitsOf(b0, 8) + BitsOf(b1, 8);
    assert x + BitsOf(Sextet(n, 3), 6) + [] == o + BitsOf(b2, 8) + [];
    SharedPrefix(x, BitsOf(Sextet(n, 3), 6), [], o, BitsOf(b2, 8), [], 2);
  }

  lemma ThreeOctets(b0: nat, b1: nat, b2: nat, n: nat)
    requires SameBits(b0, b1, b2, n)
    ensures Flatten([Sextet(n, 0), Sextet(n, 1), Sextet(n, 2), Sextet(n, 3)], 6) == Flatten([b0, b1, b2], 8) + Zeros(0)
  {
    hide BitsOf, Flatten, Sextet;
    var front, last := [Sextet(n, 0), Sextet(n, 1), Sextet(n, 2)], [Sextet(n, 3)];
    assert [Sextet(n, 0), Sextet(n, 1), Sextet(n, 2), Sextet(n, 3)] == front + last;
    Flatten3(Sextet(n, 0), Sextet(n, 1), Sextet(n, 2), 6);
    Flatten1(Sextet(n, 3), 6);
    Flatten3(b0, b1, b2, 8);
    FlattenAppend(front, last, 6);
    var o := BitsOf(b0, 8) + BitsOf(b1, 8) + BitsOf(b2, 8);
    assert o == o + Zeros(0);
  }

  lemma SharedPrefix(a: seq<Bit>, x: seq<Bit>, y: seq<Bit>, b: seq<Bit>, z: seq<Bit>, more: seq<Bit>, k: nat)
    requires a + x + y == b + z + more
    requires k <= |z| && |a| == |b| + k && z == Zeros(|z|)
    ensures a == b + Zeros(k)
  {
    assert a == (a + x + y)[..|a|];
    assert (b + z + more)[..|a|] == b + z[..k];
  }

  lemma AppendChunk(vs: seq<nat>, input: seq<Byte>, i: nat, chunk: seq<Byte>)
    requires 1 <= |chunk| <= 3 && i + |chunk| <= |input| && chunk == input[i..i + |chunk|]
    requires Flatten(vs, 6) == Flatten(input[..i], 8)
    ensures Flatten(vs + ChunkSextets(chunk), 6) == Flatten(input[..i + |chunk|], 8) + Zeros(6 - 2 * |chunk|)
  {
    hide BitsOf, Flatten, ChunkSextets, Zeros;
    assert input[..i + |chunk|] == input[..i] + chunk;
    ChunkSextetsBits(chunk);
    FlattenAppend(vs, ChunkSextets(chunk), 6);
    FlattenAppend(input[..i], chunk, 8);
    Reassociate(Flatten(input[..i], 8), Flatten(chunk, 8), Zeros(6 - 2 * |chunk|));
  }

  lemma Reassociate<T>(a: seq<T>, b: seq<T>, c: seq<T>)
    ensures a + b + c == a + (b + c)
  {
  }

  lemma CharsAppend(vs: seq<nat>, ws: seq<nat>)
    requires forall k :: 0 <= k < |vs| ==> vs[k] < 64
    requires forall k :: 0 <= k < |ws| ==> ws[k] < 64
    ensures Chars(vs + ws) == Chars(vs) + Chars(ws)
  {
  }

  lemma PadUnique(n: nat, p: nat, m: nat)
    requires p < 6 && n + p == m * 6
    ensures p == PadBits(n)
  {
  }

  /** The body of the encoder's loop. */
  method EncodeChunk(chunk: seq<Byte>) returns (piece: string)
    requires 1 <= |chunk| <= 3
    ensures piece == Chars(ChunkSextets(chunk))
  {
    var b0 := chunk[0];
    var b1 := if |chunk| > 1 then chunk[1] else 0;
    var b2 := if |chunk| > 2 then chunk[2] else 0;
    var n := b0 as u32 * 65536 + b1 as u32 * 256 + b2 as u32;
    assert n as nat == Join24(b0, b1, b2);
    piece := [TABLE[n / 262144 % 64], TABLE[n / 4096 % 64]];
    if |chunk| > 1 {
      piece := piece + [TABLE[n / 64 % 64]];
    }
    if |chunk| > 2 {
      piece := piece + [TABLE[n % 64]];
    }
  }

  /** The encoder's loop over three-byte chunks. */
  method EncodeChunks(input: seq<Byte>) returns (out: string)
    ensures out == Encode(input)
  {
    hide BitsOf, Flatten, ChunkSextets, Group, Chars, Zeros, Pow2, PadBits;
    out := "";
    ghost var vs: seq<nat> := [];
    ghost var pad := 0;
    var i := 0;
    EmptyStream(input);
    while i < |input|
      invariant 0 <= i <= |input|
      invariant 0 <= pad < 6 && (i < |input| ==> pad == 0)
      invariant forall k :: 0 <= k < |vs| ==> vs[k] < 64
      invariant out == Chars(vs)
      invariant Flatten(vs, 6) == Flatten(input[..i], 8) + Zeros(pad)
    {
      var chunk := if |input| - i < 3 then input[i..] else input[i..i + 3];
      var piece := EncodeChunk(chunk);
      out := out + piece;
      assert Flatten(vs, 6) == Flatten(input[..i], 8) by {
        assert Flatten(input[..i], 8) + Zeros(0) == Flatten(input[..i], 8);
      }
      AppendChunk(vs, input, i, chunk);
      CharsAppend(vs, ChunkSextets(chunk));
      vs, pad, i := vs + ChunkSextets(chunk), 6 - 2 * |chunk|, i + |chunk|;
    }
    assert input[..i] == input;
    FinishEncode(input, vs, pad);
  }

  lemma EmptyStream(input: seq<Byte>)
    ensures Chars([]) == "" && Flatten([], 6) == Flatten(input[..0], 8) + Zeros(0)
  {
  }

  lemma FinishEncode(input: seq<Byte>, vs: seq<nat>, pad: nat)
    requires pad < 6
    requires forall k :: 0 <= k < |vs| ==> vs[k] < 64
    requires Flatten(vs, 6) == Flatten(input, 8) + Zeros(pad)
    ensures Chars(vs) == Encode(input)
  {
    hide BitsOf, Flatten, Group, Pow2, PadBits;
    Pow2Values();
    GroupOfFlatten(vs, [], 6);
    assert Flatten(vs, 6) + [] == Flatten(vs, 6);
    FlattenLength(vs, 6);
    PadUnique(|Flatten(input, 8)|, pad, |vs|);
  }

  /** The decoder's loop over a shift accumulator. The arithmetic is on 32 bits: the invariant on
      `bits` is what keeps the shift from overflowing. */
  method DecodeBits(input: string) returns (r: Option<seq<Byte>>)
    ensures r == Decode(input)
  {
    hide BitsOf, Flatten, Group, Pow2, Sextets;
    var bits: u32 := 0;
    var bitCount: u8 := 0;
    var out: seq<Byte> := [];
    var i := 0;
    EmptyAccumulator(input);
    while i < |input|
      invariant 0 <= i <= |input|
      invariant bitCount == 0 || bitCount == 2 || bitCount == 4 || bitCount == 6
      invariant bits as int < Pow2(bitCount as nat)
      invariant InAlphabet(input[..i])
      invariant Flatten(out, 8) + BitsOf(bits as nat, bitCount as nat) == Flatten(Sextets(input[..i]), 6)
    {
      var value := SextetOf(input[i]);
      if value.None? {
        return None;
      }
      Pow2Values();
      AppendSextet(input, i, out, bits as nat, bitCount as nat);
      bits := bits * 64 + value.value;
      bitCount := bitCount + 6;
      if bitCount >= 8 {
        bitCount := bitCount - 8;
        var unit := 1 + LowBitsMask(bitCount);
        TakeOctet(out, bits as nat, bitCount as nat, unit as nat);
        var octet := bits / unit;
        out := out + [octet as Byte];
        bits := bits % unit;
      }
      i := i + 1;
    }
    assert input[..i] == input;
    Pow2Values();
    GroupOfFlatten(out, BitsOf(bits as nat, bitCount as nat), 8);
    r := Some(out);
  }

  /** The mask of the decoder; `bits & mask` is the remainder modulo `mask + 1`. */
  function LowBitsMask(bitCount: u8): (m: u32)
    requires bitCount < 32
    ensures m as int + 1 == Pow2(bitCount as nat)
  {
    var p := Pow2(bitCount as nat);
    assert p <= 0x8000_0000 by {
      Pow2Monotone(bitCount as nat, 31);
      Pow2Of31();
    }
    if bitCount == 0 then 0 else (p - 1) as u32
  }

  lemma Pow2Of31()
    ensures Pow2(31) == 0x8000_0000
  {
    Pow2Values();
    assert Pow2(15) == 32768;
    assert Pow2(18) == 262144;
    assert Pow2(21) == 2097152;
    assert Pow2(24) == 16777216;
    assert Pow2(27) == 134217728;
    assert Pow2(30) == 1073741824;
  }

  lemma {:induction false} Pow2Monotone(j: nat, k: nat)
    requires j <= k
    ensures Pow2(j) <= Pow2(k)
  {
    if j < k {
      Pow2Monotone(j, k - 1);
    }
  }

  lemma EmptyAccumulator(input: string)
    ensures Pow2(0) == 1 && InAlphabet(input[..0])
    ensures Flatten([], 8) + BitsOf(0, 0) == Flatten(Sextets(input[..0]), 6)
  {
  }

  lemma AppendSextet(input: string, i: nat, out: seq<Byte>, bits: nat, bitCount: nat)
    requires i < |input| && InAlphabet(input[..i]) && SextetOf(input[i]).Some?
    requires Flatten(out, 8) + BitsOf(bits, bitCount) == Flatten(Sextets(input[..i]), 6)
    ensures InAlphabet(input[..i + 1])
    ensures Flatten(out, 8) + BitsOf(bits * 64 + SextetOf(input[i]).value as nat, bitCount + 6)
            == Flatten(Sextets(input[..i + 1]), 6)
  {
    hide BitsOf, Flatten, Pow2;
    var v := SextetOf(input[i]).value as nat;
    assert Sextets(input[..i + 1]) == Sextets(input[..i]) + [v];
    FlattenAppend(Sextets(input[..i]), [v], 6);
    Flatten1(v, 6);
    SplitAt(bits * 64 + v, bits, v, bitCount + 6, 6);
    Reassociate(Flatten(out, 8), BitsOf(bits, bitCount), BitsOf(v, 6));
  }

  /** Moving the top eight accumulator bits to the output keeps the bit stream. */
  lemma TakeOctet(out: seq<Byte>, bits: nat, k: nat, unit: nat)
    requires unit == Pow2(k) && bits < Pow2(k + 8)
    ensures 0 <= bits / unit < 256 && 0 <= bits % unit < unit
    ensures Flatten(out + [bits / unit], 8) + BitsOf(bits % unit, k) == Flatten(out, 8) + BitsOf(bits, k + 8)
  {
    hide BitsOf, Flatten;
    Pow2Sum(k);
    DivMod(bits, unit);
    QuotientBound(bits, unit);
    var q: Byte := bits / unit;
    SplitBits(bits, k + 8, k, unit);
    FlattenAppend(out, [q], 8);
    Flatten1(q, 8);
    Reassociate(Flatten(out, 8), BitsOf(q, 8), BitsOf(bits % unit, k));
  }

  lemma Pow2Sum(k: nat)
    ensures Pow2(k + 8) == 256 * Pow2(k)
  {
    assert Pow2(k + 4) == 16 * Pow2(k) by {
      assert Pow2(k + 2) == 4 * Pow2(k);
    }
    assert Pow2(k + 6) == 4 * Pow2(k + 4);
  }

  lemma QuotientBound(v: nat, u: nat)
    requires u > 0 && v < 256 * u
    ensures 0 <= v / u < 256
  {
    DivMod(v, u);
  }
}
