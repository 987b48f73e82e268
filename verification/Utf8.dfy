/** UTF-8 (RFC 3629): how the gateway's strings become bytes and how a strict decoder reads them back. */
module Utf8 {
  import opened Common

  function EncodeChar(c: char): (r: seq<Byte>)
    ensures 1 <= |r| <= 4
  {
    var n := c as int;
    if n < 0x80 then [n]
    else if n < 0x800 then [0xC0 + n / 64, 0x80 + n % 64]
    else if n < 0x10000 then [0xE0 + n / 4096, 0x80 + n / 64 % 64, 0x80 + n % 64]
    else [0xF0 + n / 262144, 0x80 + n / 4096 % 64, 0x80 + n / 64 % 64, 0x80 + n % 64]
  }

  function Encode(s: string): seq<Byte> {
    if s == "" then [] else EncodeChar(s[0]) + Encode(s[1..])
  }

  predicate Continuation(b: Byte) {
    0x80 <= b < 0xC0
  }

  predicate Scalar(n: int) {
    0 <= n < 0xD800 || 0xE000 <= n < 0x110000
  }

  /** The character at the front and its length; overlong forms and surrogates are refused. */
  function DecodeChar(b: seq<Byte>): (r: Option<(char, nat)>)
    requires b != []
    ensures r.Some? ==> 1 <= r.value.1 <= |b|
  {
    if b[0] < 0x80 then Some((b[0] as char, 1))
    else if 0xC2 <= b[0] < 0xE0 && |b| >= 2 && Continuation(b[1]) then
      Some((((b[0] as int - 0xC0) * 64 + (b[1] as int - 0x80)) as char, 2))
    else if 0xE0 <= b[0] < 0xF0 && |b| >= 3 && Continuation(b[1]) && Continuation(b[2]) then
      var n := (b[0] as int - 0xE0) * 4096 + (b[1] as int - 0x80) * 64 + (b[2] as int - 0x80);
      if n >= 0x800 && Scalar(n) then Some((n as char, 3)) else None
    else if 0xF0 <= b[0] && |b| >= 4 && Continuation(b[1]) && Continuation(b[2]) && Continuation(b[3]) then
      var n := (b[0] as int - 0xF0) * 262144 + (b[1] as int - 0x80) * 4096
               + (b[2] as int - 0x80) * 64 + (b[3] as int - 0x80);
      if n >= 0x10000 && Scalar(n) then Some((n as char, 4)) else None
    else None
  }

  function Decode(b: seq<Byte>): Option<string> {
    if b == [] then Some("") else
      var first := DecodeChar(b);
      if first.None? then None else
        var rest := Decode(b[first.value.1..]);
        if rest.None? then None else Some([first.value.0] + rest.value)
  }

  lemma Recompose2(n: nat)
    ensures n == n / 4096 * 4096 + n / 64 % 64 * 64 + n % 64
  {
    var q := n / 64;
    assert n == q * 64 + n % 64 && q == q / 64 * 64 + q % 64;
    assert n / 4096 == q / 64;
  }

  lemma Recompose3(n: nat)
    ensures n == n / 262144 * 262144 + n / 4096 % 64 * 4096 + n / 64 % 64 * 64 + n % 64
  {
    Recompose2(n);
    var q := n / 4096;
    assert q == q / 64 * 64 + q % 64;
    assert n / 262144 == q / 64;
  }

  lemma CharRoundTrip(c: char, rest: seq<Byte>)
    ensures DecodeChar(EncodeChar(c) + rest) == Some((c, |EncodeChar(c)|))
  {
    var n := c as int;
    var b := EncodeChar(c) + rest;
    if n < 0x80 {
      assert b[0] == n;
    } else if n < 0x800 {
      assert b[0] == 0xC0 + n / 64 && b[1] == 0x80 + n % 64;
    } else if n < 0x10000 {
      assert b[0] == 0xE0 + n / 4096 && b[1] == 0x80 + n / 64 % 64 && b[2] == 0x80 + n % 64;
      Recompose2(n);
    } else {
      assert b[0] == 0xF0 + n / 262144 && b[1] == 0x80 + n / 4096 % 64;
      assert b[2] == 0x80 + n / 64 % 64 && b[3] == 0x80 + n % 64;
      Recompose3(n);
    }
  }

  lemma {:induction false} RoundTrip(s: string)
    ensures Decode(Encode(s)) == Some(s)
  {
    hide EncodeChar, DecodeChar;
    if s == "" {
      assert Decode([]) == Some("");
    } else {
      var first, rest := EncodeChar(s[0]), Encode(s[1..]);
      CharRoundTrip(s[0], rest);
      RoundTrip(s[1..]);
      assert Encode(s) == first + rest;
      assert (first + rest)[|first|..] == rest;
      assert s == [s[0]] + s[1..];
    }
  }

  /** The decoder accepts at the front only what the encoder writes. */
  lemma CharIsExact(b: seq<Byte>)
    requires b != [] && DecodeChar(b).Some?
    ensures var (c, n) := DecodeChar(b).value; b[..n] == EncodeChar(c)
  {
    var (c, n) := DecodeChar(b).value;
    if n == 1 {
      assert b[..1] == [b[0]];
    } else if n == 2 {
      assert b[..2] == [b[0], b[1]];
      Digits2(b[0] - 0xC0, b[1] - 0x80);
    } else if n == 3 {
      assert b[..3] == [b[0], b[1], b[2]];
      Digits3(b[0] - 0xE0, b[1] - 0x80, b[2] - 0x80);
    } else {
      assert b[..4] == [b[0], b[1], b[2], b[3]];
      Digits4(b[0] - 0xF0, b[1] - 0x80, b[2] - 0x80, b[3] - 0x80);
    }
  }

  lemma Digits2(x: nat, y: nat)
    requires y < 64
    ensures (x * 64 + y) / 64 == x && (x * 64 + y) % 64 == y
  {
  }

  lemma Digits3(x: nat, y: nat, z: nat)
    requires y < 64 && z < 64
    ensures var n := x * 4096 + y * 64 + z; n / 4096 == x && n / 64 % 64 == y && n % 64 == z
  {
    var n := x * 4096 + y * 64 + z;
    assert n == (x * 64 + y) * 64 + z;
    Digits2(x * 64 + y, z);
    Digits2(x, y);
    assert n / 4096 == n / 64 / 64;
  }

  lemma Digits4(w: nat, x: nat, y: nat, z: nat)
    requires x < 64 && y < 64 && z < 64
    ensures var n := w * 262144 + x * 4096 + y * 64 + z;
            n / 262144 == w && n / 4096 % 64 == x && n / 64 % 64 == y && n % 64 == z
  {
    var m := w * 4096 + x * 64 + y;
    var n := w * 262144 + x * 4096 + y * 64 + z;
    assert n == m * 64 + z;
    Digits2(m, z);
    Digits3(w, x, y);
    assert n / 4096 == n / 64 / 64 && n / 262144 == n / 64 / 4096;
  }

  /** A byte sequence is read as a text exactly if it is the encoding of that text. */
  lemma {:induction false} DecodeIsExact(b: seq<Byte>, s: string)
    ensures Decode(b) == Some(s) <==> b == Encode(s)
  {
    RoundTrip(s);
    if Decode(b) == Some(s) {
      OnlyEncodings(b);
    }
  }

  lemma {:induction false} OnlyEncodings(b: seq<Byte>)
    requires Decode(b).Some?
    ensures b == Encode(Decode(b).value)
  {
    if b == [] {
      assert Decode(b).value == "";
    } else {
      hide Decode, DecodeChar, Encode, EncodeChar, Scalar, Continuation;
      DecodeUnfold(b);
      CharIsExact(b);
      var (c, n) := DecodeChar(b).value;
      OnlyEncodings(b[n..]);
      EncodeUnfold(c, Decode(b[n..]).value);
      Halves(b, n);
    }
  }

  lemma Halves(b: seq<Byte>, n: nat)
    requires n <= |b|
    ensures b == b[..n] + b[n..]
  {
  }

  lemma DecodeUnfold(b: seq<Byte>)
    requires b != [] && Decode(b).Some?
    ensures DecodeChar(b).Some?
    ensures var (c, n) := DecodeChar(b).value;
            && n <= |b| && Decode(b[n..]).Some? && Decode(b).value == [c] + Decode(b[n..]).value
  {
    hide DecodeChar;
  }

  lemma EncodeUnfold(c: char, rest: string)
    ensures Encode([c] + rest) == EncodeChar(c) + Encode(rest)
  {
    hide EncodeChar;
    assert ([c] + rest)[1..] == rest;
  }
}
