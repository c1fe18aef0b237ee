/**
 Modified UTF-8 (section 4.4.7 of the JVM Specification) and UTF-16.

 Bytes and 16-bit units are numbers; a C string is its bytes up to the terminator, none of
 which is zero.
 */
module Utf {
  import opened Arith

  const REPLACEMENT: nat := 0xfffd
  const UPPER_LIMIT: nat := 0x10fffd

  ghost predicate IsUnits(u: seq<nat>) {
    forall i :: 0 <= i < |u| ==> u[i] <= 0xffff
  }

  ghost predicate IsCString(s: seq<nat>) {
    forall i :: 0 <= i < |s| ==> 0 < s[i] <= 0xff
  }

  // -------------------------------------------------------------------------- encoding

  function EncodeUnit(u: nat): seq<nat> {
    if u > 0x7ff then [u / 4096 + 0xe0, u / 64 % 64 + 0x80, u % 64 + 0x80]
    else if u > 0x7f || u == 0 then [u / 64 + 0xc0, u % 64 + 0x80]
    else [u]
  }

  /** What strncpy16to8 writes before the terminator. */
  function Encode(u: seq<nat>): seq<nat> {
    if u == [] then [] else EncodeUnit(u[0]) + Encode(u[1..])
  }

  // -------------------------------------------------------------------------- decoding

  predicate Continues(b: nat) {
    0x80 <= b < 0xc0
  }

  function SeqLength(b: nat): (n: nat)
    ensures 1 <= n <= 4
  {
    if b < 0xc0 then 1 else if b < 0xe0 then 2 else if b < 0xf0 then 3 else 4
  }

  /** The payload bits of a leading byte. */
  function Lead(b: nat): nat {
    match SeqLength(b)
    case 1 => b
    case 2 => b % 32
    case 3 => b % 16
    case _ => b % 8
  }

  /** The rest of a sequence of n bytes, from the i-th: the character and where it ends. */
  function Follow(s: seq<nat>, c: nat, i: nat, n: nat): (r: (nat, nat))
    requires i <= |s| && 1 <= i <= n
    ensures i <= r.1 <= |s| && r.1 <= n
    decreases n - i
  {
    if i == n then (c, i)
    else if i == |s| || !Continues(s[i]) then (REPLACEMENT, i)
    else Follow(s, c * 64 + s[i] % 64, i + 1, n)
  }

  /** getUtf32FromUtf8: the next character and the bytes it takes. */
  function Utf32(s: seq<nat>): (r: (nat, nat))
    requires s != []
    ensures 1 <= r.1 <= |s|
  {
    if Continues(s[0]) then (REPLACEMENT, 1) else Follow(s, Lead(s[0]), 1, SeqLength(s[0]))
  }

  function Units(c: nat): (u: seq<nat>)
    ensures 1 <= |u| <= 2 && (|u| == 2 ==> c > 0xffff)
  {
    if c <= 0xffff then [c]
    else if c <= UPPER_LIMIT then [0xd800 + (c - 0x10000) / 1024, 0xdc00 + (c - 0x10000) % 1024]
    else [REPLACEMENT]
  }

  /** What strcpy8to16 writes. */
  function Decode(s: seq<nat>): seq<nat>
    decreases |s|
  {
    if s == [] then [] else var (c, k) := Utf32(s); Units(c) + Decode(s[k..])
  }

  /** strlen8to16, with expected the continuation bytes still due. */
  function Count(s: seq<nat>, expected: int): nat
    decreases |s|
  {
    if s == [] then 0
    else if Continues(s[0]) then (if expected - 1 < 0 then 1 else 0) + Count(s[1..], expected - 1)
    else (if SeqLength(s[0]) == 4 then 2 else 1) + Count(s[1..], SeqLength(s[0]) - 1)
  }

  // ------------------------------------------------------------------------- round trip

  lemma ThreeBytes(u: nat)
    requires 0x7ff < u <= 0xffff
    ensures 0xe0 <= u / 4096 + 0xe0 < 0xf0 && Continues(u / 64 % 64 + 0x80) && Continues(u % 64 + 0x80)
    ensures ((u / 4096 + 0xe0) % 16 * 64 + (u / 64 % 64 + 0x80) % 64) * 64 + (u % 64 + 0x80) % 64 == u
  {
    var a, b, c := u / 4096, u / 64 % 64, u % 64;
    assert u / 64 == a * 64 + b;
    assert u == u / 64 * 64 + c;
  }

  lemma FollowThree(s: seq<nat>)
    requires |s| >= 3 && SeqLength(s[0]) == 3 && Continues(s[1]) && Continues(s[2])
    ensures Utf32(s) == ((s[0] % 16 * 64 + s[1] % 64) * 64 + s[2] % 64, 3)
  {
    var c := Lead(s[0]) * 64 + s[1] % 64;
    assert Follow(s, Lead(s[0]), 1, 3) == Follow(s, c, 2, 3) == Follow(s, c * 64 + s[2] % 64, 3, 3);
  }

  lemma FollowTwo(s: seq<nat>)
    requires |s| >= 2 && SeqLength(s[0]) == 2 && Continues(s[1])
    ensures Utf32(s) == (s[0] % 32 * 64 + s[1] % 64, 2)
  {
    assert Follow(s, Lead(s[0]), 1, 2) == Follow(s, Lead(s[0]) * 64 + s[1] % 64, 2, 2);
  }

  lemma DecodeOne(u: nat, rest: seq<nat>)
    requires u <= 0xffff
    ensures var e := EncodeUnit(u);
      Utf32(e + rest) == (u, |e|) && (e + rest)[|e|..] == rest
  {
    hide Follow;
    var e := EncodeUnit(u);
    var s := e + rest;
    assert s[|e|..] == rest;
    if u > 0x7ff {
      ThreeBytes(u);
      FollowThree(s);
    } else if u > 0x7f || u == 0 {
      FollowTwo(s);
    } else {
      FollowOne(s);
    }
  }

  lemma FollowOne(s: seq<nat>)
    requires s != [] && s[0] < 0x80
    ensures Utf32(s) == (s[0], 1)
  {
  }

  /** Decoding what was encoded gives the units back, embedded zeros and lone surrogates
      included; the encoding has no zero byte and its units are counted exactly. */
  lemma {:induction false} DecodeEncode(u: seq<nat>)
    requires IsUnits(u)
    ensures Decode(Encode(u)) == u
  {
    if u != [] {
      DecodeOne(u[0], Encode(u[1..]));
      DecodeEncode(u[1..]);
      assert Decode(Encode(u)) == Units(u[0]) + Decode(Encode(u[1..]));
    }
  }

  lemma {:induction false} EncodeNoZero(u: seq<nat>)
    requires IsUnits(u)
    ensures IsCString(Encode(u))
  {
    if u != [] { EncodeNoZero(u[1..]); }
  }

  lemma CountUnit(u: nat, rest: seq<nat>, expected: int)
    requires u <= 0xffff
    ensures Count(EncodeUnit(u) + rest, expected) == 1 + Count(rest, 0)
  {
    var e := EncodeUnit(u);
    var s := e + rest;
    if u > 0x7ff {
      assert s[1..] == [e[1], e[2]] + rest && s[1..][1..] == [e[2]] + rest && s[1..][1..][1..] == rest;
      assert Count(s, expected) == 1 + Count(s[1..], 2);
      assert Count(s[1..], 2) == Count(s[1..][1..], 1) == Count(s[1..][1..][1..], 0);
    } else if u > 0x7f || u == 0 {
      assert s[1..] == [e[1]] + rest && s[1..][1..] == rest;
      assert Count(s[1..], 1) == Count(s[1..][1..], 0);
    } else {
      assert s[1..] == rest;
    }
  }

  lemma {:induction false} CountEncode(u: seq<nat>)
    requires IsUnits(u)
    ensures Count(Encode(u), 0) == |u|
  {
    if u != [] {
      CountUnit(u[0], Encode(u[1..]), 0);
      CountEncode(u[1..]);
    }
  }

  // --------------------------------------------------------------- standard UTF-8 text

  /** The UTF-8 form of a code point, as in section 3 of RFC 3629. */
  function CodeBytes(c: nat): seq<nat>
    requires c < 0x200000
  {
    if c < 0x80 then [c]
    else if c < 0x800 then [0xc0 + c / 64, 0x80 + c % 64]
    else if c < 0x10000 then [0xe0 + c / 64 / 64, 0x80 + c / 64 % 64, 0x80 + c % 64]
    else [0xf0 + c / 64 / 64 / 64, 0x80 + c / 64 / 64 % 64, 0x80 + c / 64 % 64, 0x80 + c % 64]
  }

  /** One unit, or a high and a low surrogate, that stand for a code point. */
  predicate StandsFor(u: seq<nat>, c: nat) {
    || u == [c]
    || (|u| == 2 && 0xd800 <= u[0] < 0xdc00 <= u[1] < 0xe000
        && c == 0x10000 + (u[0] - 0xd800) * 0x400 + (u[1] - 0xdc00))
  }

  lemma UnitsStand(c: nat)
    ensures c <= 0x10fffd ==> StandsFor(Units(c), c) && (|Units(c)| == 2 <==> c > 0xffff)
    ensures c > 0x10fffd ==> Units(c) == [0xfffd]
  {
  }

  lemma FourBytes(c: nat)
    requires 0x10000 <= c < 0x200000
    ensures 0xf0 <= 0xf0 + c / 64 / 64 / 64 < 0xf8
    ensures ((c / 64 / 64 / 64 * 64 + c / 64 / 64 % 64) * 64 + c / 64 % 64) * 64 + c % 64 == c
  {
    var x, y := c / 64, c / 64 / 64;
    assert c == x * 64 + c % 64 && x == y * 64 + x % 64 && y == y / 64 * 64 + y % 64;
  }

  lemma FollowFour(s: seq<nat>)
    requires |s| >= 4 && SeqLength(s[0]) == 4 && Continues(s[1]) && Continues(s[2]) && Continues(s[3])
    ensures Utf32(s) == (((s[0] % 8 * 64 + s[1] % 64) * 64 + s[2] % 64) * 64 + s[3] % 64, 4)
  {
    var c := Lead(s[0]) * 64 + s[1] % 64;
    var d := c * 64 + s[2] % 64;
    assert Follow(s, Lead(s[0]), 1, 4) == Follow(s, c, 2, 4) == Follow(s, d, 3, 4);
    assert Follow(s, d, 3, 4) == Follow(s, d * 64 + s[3] % 64, 4, 4);
  }

  lemma FourIs(w: nat, x: nat, y: nat, z: nat, rest: seq<nat>)
    requires w < 8 && x < 64 && y < 64 && z < 64
    ensures Utf32([0xf0 + w, 0x80 + x, 0x80 + y, 0x80 + z] + rest) == (((w * 64 + x) * 64 + y) * 64 + z, 4)
  {
    hide Follow, Utf32;
    FollowFour([0xf0 + w, 0x80 + x, 0x80 + y, 0x80 + z] + rest);
  }

  lemma DecodeCode(c: nat, rest: seq<nat>)
    requires c < 0x200000
    ensures var e := CodeBytes(c);
      Utf32(e + rest) == (c, |e|) && (e + rest)[|e|..] == rest
  {
    hide Follow, Utf32, EncodeUnit;
    var e := CodeBytes(c);
    var s := e + rest;
    assert s[|e|..] == rest;
    if c >= 0x10000 {
      FourBytes(c);
      FourIs(c / 64 / 64 / 64, c / 64 / 64 % 64, c / 64 % 64, c % 64, rest);
    } else if c > 0 {
      SameAsUnit(c);
      DecodeOne(c, rest);
    } else {
      FollowOne(s);
    }
  }

  lemma SameAsUnit(c: nat)
    requires 0 < c < 0x10000
    ensures CodeBytes(c) == EncodeUnit(c)
  {
    DivTwice(c);
  }

  lemma DivTwice(c: nat)
    ensures c / 64 / 64 == c / 4096
  {
  }

  predicate IsText(cs: seq<nat>) {
    forall i :: 0 <= i < |cs| ==> 0 < cs[i] <= 0x10fffd
  }

  function TextBytes(cs: seq<nat>): seq<nat>
    requires IsText(cs)
  {
    if cs == [] then [] else CodeBytes(cs[0]) + TextBytes(cs[1..])
  }

  /** The units stand for the code points one after the other. */
  ghost predicate Spells(u: seq<nat>, cs: seq<nat>) {
    if cs == [] then u == []
    else exists k :: 0 < k <= |u| && StandsFor(u[..k], cs[0]) && Spells(u[k..], cs[1..])
  }

  /** A UTF-8 text decodes to UTF-16 that spells the same code points, in exactly as many units
      as are counted for it, surrogate pairs included. */
  lemma {:induction false} DecodeText(cs: seq<nat>)
    requires IsText(cs)
    ensures Spells(Decode(TextBytes(cs)), cs) && Count(TextBytes(cs), 0) == |Decode(TextBytes(cs))|
  {
    hide Utf32, CodeBytes, StandsFor, Units;
    if cs != [] {
      var c, rest := cs[0], TextBytes(cs[1..]);
      var s, u := CodeBytes(c) + rest, Units(c);
      DecodeCode(c, rest);
      DecodeText(cs[1..]);
      UnitsStand(c);
      CountCode(c, rest, 0);
      CodeSome(c);
      assert Decode(s) == u + Decode(rest);
      assert Decode(s)[..|u|] == u && Decode(s)[|u|..] == Decode(rest);
    }
  }

  lemma CodeSome(c: nat)
    requires c < 0x200000
    ensures CodeBytes(c) != []
  {
  }

  lemma CountCode(c: nat, rest: seq<nat>, expected: int)
    requires c < 0x200000
    ensures Count(CodeBytes(c) + rest, expected) == (if c > 0xffff then 2 else 1) + Count(rest, 0)
  {
    var e := CodeBytes(c);
    var s := e + rest;
    if c >= 0x10000 {
      CountFour(e[0], e[1], e[2], e[3], rest, expected);
    } else if c >= 0x800 {
      assert s[1..] == [e[1], e[2]] + rest && s[1..][1..] == [e[2]] + rest && s[1..][1..][1..] == rest;
      assert Count(s, expected) == 1 + Count(s[1..], 2);
      assert Count(s[1..], 2) == Count(s[1..][1..], 1) == Count(s[1..][1..][1..], 0);
    } else if c >= 0x80 {
      assert s[1..] == [e[1]] + rest && s[1..][1..] == rest;
      assert Count(s[1..], 1) == Count(s[1..][1..], 0);
    } else {
      assert s[1..] == rest;
    }
  }

  lemma CountFour(a: nat, b: nat, c: nat, d: nat, rest: seq<nat>, expected: int)
    requires 0xf0 <= a < 0xf8 && Continues(b) && Continues(c) && Continues(d)
    ensures Count([a, b, c, d] + rest, expected) == 2 + Count(rest, 0)
  {
    var s := [a, b, c, d] + rest;
    assert s[1..] == [b, c, d] + rest && s[1..][1..] == [c, d] + rest;
    assert s[1..][1..][1..] == [d] + rest && s[1..][1..][1..][1..] == rest;
    assert Count(s, expected) == 2 + Count(s[1..], 3);
    assert Count(s[1..], 3) == Count(s[1..][1..], 2) == Count(s[1..][1..][1..], 1);
    assert Count(s[1..][1..][1..], 1) == Count(rest, 0);
  }

  // ------------------------------------------------------------------------- any string

  lemma {:induction false} BrokenFollow(s: seq<nat>, c: nat, j: nat, n: nat, i: nat)
    requires 1 <= j <= i <= |s| && i < n && (i == |s| || !Continues(s[i]))
    requires forall k :: j <= k < i ==> Continues(s[k])
    ensures Follow(s, c, j, n) == (0xfffd, i)
    decreases i - j
  {
    if j < i { BrokenFollow(s, c * 64 + s[j] % 64, j + 1, n, i); }
  }

  /** No four-byte sequence breaks off or stands for a character that has no pair. */
  predicate PairsWhole(s: seq<nat>)
    decreases |s|
  {
    s != [] ==>
      && (!Continues(s[0]) && SeqLength(s[0]) == 4 ==> |Units(Utf32(s).0)| == 2)
      && PairsWhole(s[Utf32(s).1..])
  }

  lemma OneUnit()
    ensures |Units(REPLACEMENT)| == 1
  {
  }

  /** As many units are written as were counted exactly when that is so. */
  lemma {:induction false} DecodeExact(s: seq<nat>, expected: int)
    requires IsCString(s) && Ready(s, expected)
    ensures |Decode(s)| == Count(s, expected) <==> PairsWhole(s)
    decreases |s|
  {
    hide Follow, Lead, Units;
    if s != [] {
      var k := Utf32(s).1;
      PairNeedsFour(s);
      if Continues(s[0]) {
        OneUnit();
        DecodeFits(s[1..], expected - 1);
        DecodeExact(s[1..], expected - 1);
      } else {
        var left := CountFollow(s, Lead(s[0]), 1, SeqLength(s[0]));
        DecodeFits(s[k..], left);
        DecodeExact(s[k..], left);
      }
    }
  }

  /** A stray continuation byte is replaced on its own, and a sequence that breaks off is
      replaced up to where it does. */
  lemma Replaced(s: seq<nat>, i: nat)
    requires s != [] && 1 <= i <= |s|
    ensures 0x80 <= s[0] < 0xc0 ==> Utf32(s) == (0xfffd, 1)
    ensures (&& !(0x80 <= s[0] < 0xc0) && i < SeqLength(s[0]) && (i == |s| || !(0x80 <= s[i] < 0xc0))
             && (forall k :: 1 <= k < i ==> 0x80 <= s[k] < 0xc0))
            ==> Utf32(s) == (0xfffd, i)
  {
    if !Continues(s[0]) && i < SeqLength(s[0]) && (i == |s| || !Continues(s[i]))
       && forall k :: 1 <= k < i ==> Continues(s[k]) {
      BrokenFollow(s, Lead(s[0]), 1, SeqLength(s[0]), i);
    }
  }

  /** The count is ready for the next character: stray continuation bytes will be counted. */
  ghost predicate Ready(s: seq<nat>, expected: int) {
    s == [] || !Continues(s[0]) || expected <= 0
  }

  /** Continuation bytes that belong to a sequence are not counted. */
  lemma {:induction false} CountFollow(s: seq<nat>, c: nat, i: nat, n: nat) returns (expected: int)
    requires 1 <= i <= |s| && i <= n
    ensures var k := Follow(s, c, i, n).1;
      Count(s[i..], n - i) == Count(s[k..], expected) && Ready(s[k..], expected)
    decreases n - i
  {
    if i == n || i == |s| || !Continues(s[i]) {
      expected := n - i;
    } else {
      expected := CountFollow(s, c * 64 + s[i] % 64, i + 1, n);
      assert s[i..][1..] == s[i + 1..];
    }
  }

  lemma {:induction false} FollowSmall(s: seq<nat>, c: nat, i: nat, n: nat, bound: nat)
    requires i <= |s| && 1 <= i <= n <= 3 && c < bound && (n == 3 && i == 1 ==> bound == 16)
    requires (n == 2 && i == 1 ==> bound == 32) && (n == 3 && i == 2 ==> bound == 1024)
    requires n == i && n > 1 ==> bound <= 65536
    requires n == 1 ==> bound <= 256
    ensures Follow(s, c, i, n).0 <= 0xffff
    decreases n - i
  {
    if i < n && i < |s| && Continues(s[i]) {
      FollowSmall(s, c * 64 + s[i] % 64, i + 1, n, bound * 64);
    }
  }

  /** Only a four-byte sequence can give a surrogate pair. */
  lemma PairNeedsFour(s: seq<nat>)
    requires s != [] && IsCString(s)
    ensures |Units(Utf32(s).0)| == 2 ==> !Continues(s[0]) && SeqLength(s[0]) == 4
  {
    if !Continues(s[0]) && SeqLength(s[0]) < 4 {
      var n := SeqLength(s[0]);
      FollowSmall(s, Lead(s[0]), 1, n, if n == 1 then 256 else if n == 2 then 32 else 16);
    }
  }

  /** On every byte string, malformed or not, no more units are written than were counted. */
  lemma {:induction false} DecodeFits(s: seq<nat>, expected: int)
    requires IsCString(s) && Ready(s, expected)
    ensures |Decode(s)| <= Count(s, expected)
    decreases |s|
  {
    hide Follow, Lead, Units;
    if s != [] {
      var k := Utf32(s).1;
      PairNeedsFour(s);
      if Continues(s[0]) {
        OneUnit();
        DecodeFits(s[1..], expected - 1);
      } else {
        var n := SeqLength(s[0]);
        var left := CountFollow(s, Lead(s[0]), 1, n);
        DecodeFits(s[k..], left);
      }
    }
  }

  // ------------------------------------------------------------------- the bits in the C

  /** UTF8_SEQ_LENGTH looks the length up in a constant by the top bits of the byte. */
  lemma SeqLengthBits(ch: bv32)
    requires ch < 0x100
    ensures (((0xe500_0000 as bv32) >> ((ch >> 3) & 0x1e)) & 3) + 1 ==
              (if ch < 0xc0 then 1 else if ch < 0xe0 then 2 else if ch < 0xf0 then 3 else 4)
  {
  }

  /** Shifting, masking and setting tag bits is dividing, taking remainders and adding. */
  lemma EncodeBits(u: bv32)
    requires u <= 0xffff
    ensures u > 0x7ff ==> (u >> 12) | 0xe0 == u / 4096 + 0xe0
    ensures ((u >> 6) & 0x3f) | 0x80 == u / 64 % 64 + 0x80 && (u & 0x3f) | 0x80 == u % 64 + 0x80
    ensures u <= 0x7ff ==> (u >> 6) | 0xc0 == u / 64 + 0xc0
  {
  }

  lemma DecodeBits(c: bv32, b: bv32)
    requires c <= 0xffff && b <= 0xff
    ensures b & 0x1f == b % 32 && b & 0x0f == b % 16 && b & 0x07 == b % 8
    ensures (c << 6) | (b & 0x3f) == c * 64 + b % 64
    ensures b & 0xc0 == 0x80 <==> 0x80 <= b < 0xc0
  {
  }

  lemma SurrogateBits(c: bv32)
    requires 0x10000 <= c <= 0x10fffd
    ensures 0xd800 | ((c - 0x10000) >> 10) == 0xd800 + (c - 0x10000) / 1024
    ensures 0xdc00 | ((c - 0x10000) & 0x3ff) == 0xdc00 + (c - 0x10000) % 1024
  {
  }

  // ---------------------------------------------------------------- lengths and buffers

  lemma {:induction false} EncodeLength(u: seq<nat>)
    ensures |u| <= |Encode(u)| <= 3 * |u|
  {
    if u != [] { EncodeLength(u[1..]); }
  }

  lemma {:induction false} EncodeSnoc(u: seq<nat>, x: nat)
    ensures Encode(u + [x]) == Encode(u) + EncodeUnit(x)
  {
    if u == [] {
      assert ([x])[1..] == [];
      assert Encode([x]) == EncodeUnit(x) + [];
    } else {
      assert (u + [x])[1..] == u[1..] + [x];
      EncodeSnoc(u[1..], x);
    }
  }

  lemma EncodePrefix(u: seq<nat>, i: nat)
    requires i < |u|
    ensures Encode(u[..i + 1]) == Encode(u[..i]) + EncodeUnit(u[i])
    ensures |EncodeUnit(u[i])| == if u[i] > 0x7ff then 3 else if u[i] > 0x7f || u[i] == 0 then 2 else 1
  {
    assert u[..i + 1] == u[..i] + [u[i]];
    EncodeSnoc(u[..i], u[i]);
  }

  /** strnlen16to8 where size_t holds at most sizeMax: the length, or one less than the
      maximum if it does not fit. */
  method StrnLen16To8(u: seq<nat>, sizeMax: nat) returns (len: nat)
    requires sizeMax >= 7
    ensures len == Min(|Encode(u)|, sizeMax - 1)
  {
    EncodeLength(u);
    if |u| < (sizeMax - 1) / 3 {
      len := CountFast(u);
    } else {
      len := CountSafely(u, sizeMax);
    }
  }

  method CountFast(u: seq<nat>) returns (len: nat)
    ensures len == |Encode(u)|
  {
    hide Encode, EncodeUnit;
    len := 0;
    var i := 0;
    EncodeNone(u);
    while i < |u|
      invariant i <= |u| && len == |Encode(u[..i])|
    {
      EncodePrefix(u, i);
      if u[i] > 0x7ff {
        len := len + 3;
      } else if u[i] > 0x7f || u[i] == 0 {
        len := len + 2;
      } else {
        len := len + 1;
      }
      i := i + 1;
    }
    assert u[..i] == u;
  }

  /** The slower loop, which notices when the sum wraps around. */
  method CountSafely(u: seq<nat>, sizeMax: nat) returns (len: nat)
    requires sizeMax >= 7
    ensures len == Min(|Encode(u)|, sizeMax - 1)
  {
    hide Encode, EncodeUnit, Wrapped;
    len := 0;
    var i := 0;
    EncodeNone(u);
    while i < |u|
      invariant i <= |u| && len == |Encode(u[..i])| <= sizeMax
    {
      EncodePrefix(u, i);
      var cur := len;
      var more := if u[i] > 0x7ff then 3 else if u[i] > 0x7f || u[i] == 0 then 2 else 1;
      len := Wrapped(cur, more, sizeMax);
      i := i + 1;
      if len < cur {
        EncodeMonotone(u, i);
        return sizeMax - 1;
      }
    }
    assert u[..i] == u;
    if len == sizeMax { len := sizeMax - 1; }
  }

  /** Addition in size_t. */
  function Wrapped(a: nat, b: nat, sizeMax: nat): (r: nat)
    requires a <= sizeMax && b <= sizeMax
    ensures r <= sizeMax && (r < a <==> a + b > sizeMax) && (a + b <= sizeMax ==> r == a + b)
  {
    if a + b <= sizeMax then a + b else a + b - (sizeMax + 1)
  }

  lemma {:induction false} EncodeMonotone(u: seq<nat>, i: nat)
    requires i <= |u|
    ensures |Encode(u[..i])| <= |Encode(u)|
    decreases |u| - i
  {
    if i < |u| {
      EncodePrefix(u, i);
      EncodeMonotone(u, i + 1);
    } else {
      assert u[..i] == u;
    }
  }

  /** strncpy16to8 into a buffer with room for the text and its terminator. */
  method StrnCpy16To8(dest: array<nat>, u: seq<nat>)
    requires |Encode(u)| < dest.Length
    modifies dest
    ensures dest[..|Encode(u)|] == Encode(u) && dest[|Encode(u)|] == 0
  {
    hide EncodeUnit, Encode;
    var i, cur: nat := 0, 0;
    assert u[..|u|] == u;
    EncodeNone(u);
    EncodeMonotone(u, 0);
    while i < |u|
      invariant i <= |u| && cur == |Encode(u[..i])| <= |Encode(u)| && dest[..cur] == Encode(u[..i])
    {
      EncodePrefix(u, i);
      EncodeMonotone(u, i + 1);
      cur := PutUnit(dest, cur, u[i]);
      i := i + 1;
    }
    dest[cur] := 0;
  }

  lemma EncodeNone(u: seq<nat>)
    ensures Encode(u[..0]) == []
  {
  }

  method PutUnit(dest: array<nat>, cur: nat, u: nat) returns (next: nat)
    requires cur + |EncodeUnit(u)| <= dest.Length
    modifies dest
    ensures next == cur + |EncodeUnit(u)| && dest[..next] == old(dest[..cur]) + EncodeUnit(u)
  {
    if u > 0x7ff {
      dest[cur], dest[cur + 1], dest[cur + 2] := u / 4096 + 0xe0, u / 64 % 64 + 0x80, u % 64 + 0x80;
      next := cur + 3;
    } else if u > 0x7f || u == 0 {
      dest[cur], dest[cur + 1] := u / 64 + 0xc0, u % 64 + 0x80;
      next := cur + 2;
    } else {
      dest[cur] := u;
      next := cur + 1;
    }
  }

  method StrLen8To16(s: seq<nat>) returns (len: nat)
    ensures len == Count(s, 0)
  {
    len := 0;
    var i, expected := 0, 0;
    assert s[0..] == s;
    while i < |s|
      invariant i <= |s| && len + Count(s[i..], expected) == Count(s, 0)
    {
      assert s[i..][1..] == s[i + 1..];
      if Continues(s[i]) {
        expected := expected - 1;
        if expected < 0 { len := len + 1; }
      } else {
        len := len + 1;
        expected := SeqLength(s[i]) - 1;
        if expected == 3 { len := len + 1; }
      }
      i := i + 1;
    }
  }

  method GetUtf32(s: seq<nat>, at: nat) returns (c: nat, next: nat)
    requires at < |s|
    ensures (c, next - at) == Utf32(s[at..]) && at < next <= |s|
  {
    ghost var t := s[at..];
    if Continues(s[at]) { return REPLACEMENT, at + 1; }
    var n := SeqLength(s[at]);
    c, next := Lead(s[at]), at + 1;
    var i := 1;
    while i < n
      invariant 1 <= i <= n && next == at + i <= |s| && Follow(t, c, i, n) == Utf32(t)
    {
      if next == |s| { return REPLACEMENT, next; }
      if !Continues(s[next]) { return REPLACEMENT, next; }
      c := c * 64 + s[next] % 64;
      i, next := i + 1, next + 1;
    }
  }

  lemma DecodeStep(s: seq<nat>, i: nat)
    requires i < |s|
    ensures var (c, k) := Utf32(s[i..]); i + k <= |s| && Decode(s[i..]) == Units(c) + Decode(s[i + k..])
  {
    var k := Utf32(s[i..]).1;
    assert s[i..][k..] == s[i + k..];
  }

  lemma DecodeNone()
    ensures Decode([]) == []
  {
  }

  method PutChar(dest: array<nat>, len: nat, c: nat) returns (next: nat)
    requires len + |Units(c)| <= dest.Length
    modifies dest
    ensures next == len + |Units(c)| && dest[..next] == old(dest[..len]) + Units(c)
  {
    if c <= 0xffff {
      dest[len] := c;
      next := len + 1;
    } else if c <= UPPER_LIMIT {
      dest[len] := 0xd800 + (c - 0x10000) / 1024;
      dest[len + 1] := 0xdc00 + (c - 0x10000) % 1024;
      next := len + 2;
    } else {
      dest[len] := REPLACEMENT;
      next := len + 1;
    }
  }

  /** strcpy8to16 into a buffer of as many units as strlen8to16 counts. */
  method StrCpy8To16(dest: array<nat>, s: seq<nat>) returns (len: nat)
    requires IsCString(s) && Count(s, 0) <= dest.Length
    modifies dest
    ensures len == |Decode(s)| <= dest.Length && dest[..len] == Decode(s)
  {
    hide Units, Decode, Utf32, Count;
    DecodeFits(s, 0);
    DecodeNone();
    var i: nat := 0;
    len := 0;
    assert s[0..] == s;
    while i < |s|
      invariant i <= |s| && len <= dest.Length && dest[..len] + Decode(s[i..]) == Decode(s)
    {
      var c, next := GetUtf32(s, i);
      DecodeStep(s, i);
      ghost var was := dest[..len];
      len := PutChar(dest, len, c);
      assert was + Units(c) + Decode(s[next..]) == was + (Units(c) + Decode(s[next..]));
      i := next;
    }
    assert s[i..] == [];
  }
}
