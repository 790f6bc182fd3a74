/**
  What happens to the text of a result_chunk on its way to the client: base64 (section 4 of
  RFC 4648) for binary data, and the JSON encoder's treatment of bytes that are not UTF-8.
 */
module Codec {
  import opened Base

  type byte = b: int | 0 <= b < 256

  type bytes = seq<byte>

  // ---------------------------------------------------------------- base64

  const PAD: byte := 61

  function Symbol(v: int): byte
    requires 0 <= v < 64
  {
    if v < 26 then 65 + v
    else if v < 52 then 71 + v
    else if v < 62 then v - 4
    else if v == 62 then 43
    else 47
  }

  function Value(c: byte): Option<int>
  {
    if 65 <= c <= 90 then Some(c - 65)
    else if 97 <= c <= 122 then Some(c - 71)
    else if 48 <= c <= 57 then Some(c + 4)
    else if c == 43 then Some(62)
    else if c == 47 then Some(63)
    else None
  }

  function Group(x: byte, y: byte, z: byte): bytes {
    [Symbol(x / 4), Symbol(x % 4 * 16 + y / 16), Symbol(y % 16 * 4 + z / 64), Symbol(z % 64)]
  }

  function Encode(bs: bytes): (cs: bytes)
    ensures bs != [] ==> |cs| >= 4
  {
    if bs == [] then []
    else if |bs| == 1 then Group(bs[0], 0, 0)[..2] + [PAD, PAD]
    else if |bs| == 2 then Group(bs[0], bs[1], 0)[..3] + [PAD]
    else Group(bs[0], bs[1], bs[2]) + Encode(bs[3..])
  }

  /** The bytes of four characters; `=` may stand for the last one or two. */
  function Ungroup(p: byte, q: byte, r: byte, s: byte): Option<bytes> {
    if Value(p).None? || Value(q).None? then None
    else
      var a, b := Value(p).value, Value(q).value;
      var x := (a * 4 + b / 16) % 256;
      if r == PAD && s == PAD then Some([x])
      else if Value(r).None? then None
      else
        var c := Value(r).value;
        var y := (b % 16 * 16 + c / 4) % 256;
        if s == PAD then Some([x, y])
        else if Value(s).None? then None
        else Some([x, y, (c % 4 * 64 + Value(s).value) % 256])
  }

  /** Padding is accepted only in the last group. Line breaks, which the Go decoder skips
      and Encode never writes, are refused. */
  function Decode(cs: bytes): Option<bytes> {
    if cs == [] then Some([])
    else if |cs| < 4 || (cs[3] == PAD && |cs| > 4) then None
    else
      match (Ungroup(cs[0], cs[1], cs[2], cs[3]), Decode(cs[4..]))
      case (Some(front), Some(rest)) => Some(front + rest)
      case _ => None
  }

  lemma SymbolValue(v: int)
    requires 0 <= v < 64
    ensures Value(Symbol(v)) == Some(v) && Symbol(v) != PAD && Symbol(v) < 128
  {
  }

  predicate Ascii(bs: bytes) {
    forall i :: 0 <= i < |bs| ==> bs[i] < 128
  }

  lemma RegroupFirst(x: byte, y: byte)
    ensures (x / 4 * 4 + (x % 4 * 16 + y / 16) / 16) % 256 == x
  {
    assert (x % 4 * 16 + y / 16) / 16 == x % 4;
  }

  lemma RegroupSecond(x: byte, y: byte, z: byte)
    ensures ((x % 4 * 16 + y / 16) % 16 * 16 + (y % 16 * 4 + z / 64) / 4) % 256 == y
  {
    assert (x % 4 * 16 + y / 16) % 16 == y / 16;
    assert (y % 16 * 4 + z / 64) / 4 == y % 16;
  }

  lemma RegroupThird(y: byte, z: byte)
    ensures ((y % 16 * 4 + z / 64) % 4 * 64 + z % 64) % 256 == z
  {
    assert (y % 16 * 4 + z / 64) % 4 == z / 64;
  }

  lemma GroupSymbols(x: byte, y: byte, z: byte)
    ensures var g := Group(x, y, z);
            && Value(g[0]) == Some(x / 4) && Value(g[1]) == Some(x % 4 * 16 + y / 16)
            && Value(g[2]) == Some(y % 16 * 4 + z / 64) && Value(g[3]) == Some(z % 64)
            && g[2] != PAD && g[3] != PAD && Ascii(g)
  {
    SymbolValue(x / 4);
    SymbolValue(x % 4 * 16 + y / 16);
    SymbolValue(y % 16 * 4 + z / 64);
    SymbolValue(z % 64);
  }

  lemma GroupRoundTrip(x: byte, y: byte, z: byte)
    ensures var g := Group(x, y, z);
            && Ungroup(g[0], g[1], g[2], g[3]) == Some([x, y, z])
            && Ungroup(g[0], g[1], g[2], PAD) == Some([x, y])
            && Ungroup(g[0], g[1], PAD, PAD) == Some([x])
            && Ascii(g) && g[3] != PAD
  {
    GroupSymbols(x, y, z);
    RegroupFirst(x, y);
    RegroupSecond(x, y, z);
    RegroupThird(y, z);
  }

  /** Decoding undoes encoding, and encoded text is plain ASCII. */
  lemma {:induction false} Base64RoundTrip(bs: bytes)
    ensures Decode(Encode(bs)) == Some(bs)
    ensures Ascii(Encode(bs))
    decreases |bs|
  {
    if bs != [] {
      var y: byte := if |bs| > 1 then bs[1] else 0;
      var z: byte := if |bs| > 2 then bs[2] else 0;
      GroupRoundTrip(bs[0], y, z);
      if |bs| > 2 {
        Base64RoundTrip(bs[3..]);
        assert Encode(bs)[4..] == Encode(bs[3..]);
        assert bs == [bs[0], bs[1], bs[2]] + bs[3..];
      } else {
        assert Encode(bs)[4..] == [];
        assert bs == if |bs| == 1 then [bs[0]] else [bs[0], bs[1]];
        var front := Ungroup(Encode(bs)[0], Encode(bs)[1], Encode(bs)[2], Encode(bs)[3]);
        assert front == Some(bs) && bs + [] == bs;
      }
    }
  }

  /** The alphabet of section 4 of RFC 4648. */
  const UPPER := "ABCDEFGHIJKLMNOPQRSTUVWXYZ"
  const LOWER := "abcdefghijklmnopqrstuvwxyz"
  const DIGITS := "0123456789"
  const ALPHABET := UPPER + LOWER + DIGITS + "+/"

  lemma SymbolIsRfc(v: int)
    requires 0 <= v < 64
    ensures |ALPHABET| == 64 && Symbol(v) as char == ALPHABET[v] && Value(Symbol(v)) == Some(v)
  {
  }

  /** `g` spells the 24 bits of three bytes, six to a character of the alphabet. */
  predicate Spells(g: bytes, x: byte, y: byte, z: byte) {
    && |g| == 4 && Value(g[0]).Some? && Value(g[1]).Some? && Value(g[2]).Some? && Value(g[3]).Some?
    && ((Value(g[0]).value * 64 + Value(g[1]).value) * 64 + Value(g[2]).value) * 64 + Value(g[3]).value
       == (x * 256 + y) * 256 + z
  }

  lemma GroupSpells(x: byte, y: byte, z: byte)
    ensures Spells(Group(x, y, z), x, y, z)
  {
    GroupSymbols(x, y, z);
  }

  lemma {:induction false} EncodeStep(bs: bytes)
    requires |bs| >= 3
    ensures Encode(bs) == Group(bs[0], bs[1], bs[2]) + Encode(bs[3..])
  {
  }

  /** Whole groups are encoded one after the other. */
  lemma {:induction false} EncodeAppends(bs: bytes, rest: bytes)
    requires |bs| % 3 == 0
    ensures Encode(bs + rest) == Encode(bs) + Encode(rest)
    decreases |bs|
  {
    if bs == [] {
      assert bs + rest == rest;
    } else {
      var tail := bs[3..];
      EncodeAppends(tail, rest);
      EncodeStep(bs);
      EncodeStep(bs + rest);
      assert (bs + rest)[3..] == tail + rest;
      Reassociate(Group(bs[0], bs[1], bs[2]), Encode(tail), Encode(rest));
    }
  }

  lemma EncodeThree(bs: bytes)
    requires |bs| == 3
    ensures Encode(bs) == Group(bs[0], bs[1], bs[2])
  {
    assert bs[3..] == [];
  }

  /** Base64 as the standard has it: the 24 bits of three bytes are spelt by four characters; one
      or two bytes left over are filled up with zero bytes, and `=` stands for each character
      that spells only those. */
  lemma EncodeIsRfc(bs: bytes)
    ensures |bs| == 3 ==> Spells(Encode(bs), bs[0], bs[1], bs[2])
    ensures |bs| == 2 ==> Encode(bs) == Encode(bs + [0])[..3] + [PAD]
    ensures |bs| == 1 ==> Encode(bs) == Encode(bs + [0, 0])[..2] + [PAD, PAD]
  {
    if 1 <= |bs| <= 3 {
      var three := if |bs| == 3 then bs else if |bs| == 2 then bs + [0] else bs + [0, 0];
      EncodeThree(three);
      GroupSpells(three[0], three[1], three[2]);
    }
  }

  /** `pads` characters of padding behind characters of the alphabet, in groups of four. */
  ghost predicate WellFormed(cs: bytes, pads: nat) {
    && pads <= 2 && |cs| % 4 == 0 && pads <= |cs|
    && (forall i :: 0 <= i < |cs| - pads ==> Value(cs[i]).Some?)
    && (forall i :: |cs| - pads <= i < |cs| ==> cs[i] == PAD)
  }

  ghost predicate Decodable(cs: bytes) {
    exists pads :: WellFormed(cs, pads)
  }

  lemma FirstGroup(cs: bytes)
    requires |cs| > 4
    ensures Decodable(cs) <==> Decodable(cs[4..]) && forall i :: 0 <= i < 4 ==> Value(cs[i]).Some?
  {
    RestLength(cs);
    if pads :| WellFormed(cs, pads) {
      assert forall i :: 0 <= i < |cs| - 4 ==> cs[4..][i] == cs[i + 4];
      assert WellFormed(cs[4..], pads);
    }
    if pads :| WellFormed(cs[4..], pads) && forall i :: 0 <= i < 4 ==> Value(cs[i]).Some? {
      assert forall i :: 4 <= i < |cs| ==> cs[i] == cs[4..][i - 4];
      assert WellFormed(cs, pads);
    }
  }

  lemma RestLength(cs: bytes)
    requires |cs| >= 4
    ensures |cs[4..]| % 4 == |cs| % 4
  {
  }

  lemma OneGroup(cs: bytes)
    requires |cs| == 4
    ensures Ungroup(cs[0], cs[1], cs[2], cs[3]).Some? <==> Decodable(cs)
  {
    assert Value(PAD).None?;
    if Ungroup(cs[0], cs[1], cs[2], cs[3]).Some? {
      var pads := if cs[3] != PAD then 0 else if cs[2] != PAD then 1 else 2;
      assert WellFormed(cs, pads);
    }
  }

  lemma FullGroup(p: byte, q: byte, r: byte, s: byte)
    requires s != PAD
    ensures Ungroup(p, q, r, s).Some? <==> Value(p).Some? && Value(q).Some? && Value(r).Some? && Value(s).Some?
  {
    assert Value(PAD).None?;
  }

  lemma DecodeNext(cs: bytes)
    requires |cs| > 4
    ensures Decode(cs).Some? <==> Decode(cs[4..]).Some? && forall i :: 0 <= i < 4 ==> Value(cs[i]).Some?
  {
    assert Value(PAD).None?;
    if cs[3] != PAD {
      FullGroup(cs[0], cs[1], cs[2], cs[3]);
      assert (forall i :: 0 <= i < 4 ==> Value(cs[i]).Some?) <==>
             Value(cs[0]).Some? && Value(cs[1]).Some? && Value(cs[2]).Some? && Value(cs[3]).Some?;
    }
  }

  lemma DecodeLast(cs: bytes)
    requires |cs| == 4
    ensures Decode(cs).Some? <==> Decodable(cs)
  {
    OneGroup(cs);
    assert cs[4..] == [];
  }

  lemma DecodeShort(cs: bytes)
    requires |cs| < 4
    ensures Decode(cs).Some? <==> Decodable(cs)
  {
    assert cs == [] ==> WellFormed(cs, 0);
  }

  /** The decoder accepts exactly well-formed text. */
  lemma {:induction false} DecodesIff(cs: bytes)
    ensures Decode(cs).Some? <==> Decodable(cs)
    decreases |cs|
  {
    if |cs| < 4 {
      DecodeShort(cs);
    } else if |cs| == 4 {
      DecodeLast(cs);
    } else {
      DecodesIff(cs[4..]);
      DecodeNext(cs);
      FirstGroup(cs);
    }
  }

  // ---------------------------------------------------------------- UTF-8 and JSON

  predicate Cont(b: byte) {
    0x80 <= b <= 0xBF
  }

  /** The length of the well-formed UTF-8 sequence `bs` starts with, or 0. */
  function RuneLen(bs: bytes): (n: nat)
    requires bs != []
    ensures n <= |bs| && n <= 4
  {
    var b := bs[0];
    if b < 0x80 then 1
    else if 0xC2 <= b <= 0xDF && |bs| >= 2 && Cont(bs[1]) then 2
    else if 0xE0 <= b <= 0xEF && |bs| >= 3 && Cont(bs[1]) && Cont(bs[2])
         && (b == 0xE0 ==> bs[1] >= 0xA0) && (b == 0xED ==> bs[1] <= 0x9F) then 3
    else if 0xF0 <= b <= 0xF4 && |bs| >= 4 && Cont(bs[1]) && Cont(bs[2]) && Cont(bs[3])
         && (b == 0xF0 ==> bs[1] >= 0x90) && (b == 0xF4 ==> bs[1] <= 0x8F) then 4
    else 0
  }

  predicate ValidUtf8(bs: bytes)
    decreases |bs|
  {
    bs == [] || (RuneLen(bs) > 0 && ValidUtf8(bs[RuneLen(bs)..]))
  }

  // A Unicode scalar value and its UTF-8 form (section 3 of RFC 3629).

  predicate Scalar(cp: int) {
    0 <= cp < 0x110000 && !(0xD800 <= cp < 0xE000)
  }

  function Utf8Of(cp: int): bytes
    requires Scalar(cp)
  {
    if cp < 0x80 then [cp]
    else if cp < 0x800 then [0xC0 + cp / 64, 0x80 + cp % 64]
    else if cp < 0x10000 then [0xE0 + cp / 4096, 0x80 + cp / 64 % 64, 0x80 + cp % 64]
    else [0xF0 + cp / 262144, 0x80 + cp / 4096 % 64, 0x80 + cp / 64 % 64, 0x80 + cp % 64]
  }

  function AllUtf8(cps: seq<int>): bytes
    requires forall cp <- cps :: Scalar(cp)
  {
    if cps == [] then [] else Utf8Of(cps[0]) + AllUtf8(cps[1..])
  }

  lemma RuneOfScalar(bs: bytes, cp: int)
    requires Scalar(cp) && Utf8Of(cp) <= bs
    ensures RuneLen(bs) == |Utf8Of(cp)|
  {
    var u := Utf8Of(cp);
    assert forall i :: 0 <= i < |u| ==> bs[i] == u[i];
  }

  lemma ScalarOfTwo(a: byte, b: byte) returns (cp: int)
    requires 0xC2 <= a <= 0xDF && Cont(b)
    ensures Scalar(cp) && Utf8Of(cp) == [a, b]
  {
    cp := (a - 0xC0) * 64 + (b - 0x80);
  }

  lemma ScalarOfThree(a: byte, b: byte, c: byte) returns (cp: int)
    requires 0xE0 <= a <= 0xEF && Cont(b) && Cont(c) && (a == 0xE0 ==> b >= 0xA0) && (a == 0xED ==> b <= 0x9F)
    ensures Scalar(cp) && Utf8Of(cp) == [a, b, c]
  {
    cp := (a - 0xE0) * 4096 + (b - 0x80) * 64 + (c - 0x80);
    assert cp / 64 == (a - 0xE0) * 64 + (b - 0x80);
  }

  lemma ScalarOfFour(a: byte, b: byte, c: byte, d: byte) returns (cp: int)
    requires 0xF0 <= a <= 0xF4 && Cont(b) && Cont(c) && Cont(d)
    requires (a == 0xF0 ==> b >= 0x90) && (a == 0xF4 ==> b <= 0x8F)
    ensures Scalar(cp) && Utf8Of(cp) == [a, b, c, d]
  {
    cp := (a - 0xF0) * 262144 + (b - 0x80) * 4096 + (c - 0x80) * 64 + (d - 0x80);
    assert cp / 64 == (a - 0xF0) * 4096 + (b - 0x80) * 64 + (c - 0x80);
    assert cp / 4096 == (a - 0xF0) * 64 + (b - 0x80);
  }

  lemma ScalarOfRune(bs: bytes) returns (cp: int)
    requires bs != [] && RuneLen(bs) > 0
    ensures Scalar(cp) && Utf8Of(cp) == bs[..RuneLen(bs)]
  {
    var n := RuneLen(bs);
    if n == 1 {
      cp := bs[0];
    } else if n == 2 {
      cp := ScalarOfTwo(bs[0], bs[1]);
    } else if n == 3 {
      cp := ScalarOfThree(bs[0], bs[1], bs[2]);
    } else {
      cp := ScalarOfFour(bs[0], bs[1], bs[2], bs[3]);
    }
  }

  lemma {:induction false} ScalarsOf(bs: bytes) returns (cps: seq<int>)
    requires ValidUtf8(bs)
    ensures (forall cp <- cps :: Scalar(cp)) && AllUtf8(cps) == bs
    decreases |bs|
  {
    if bs == [] {
      cps := [];
    } else {
      var n := RuneLen(bs);
      var cp := ScalarOfRune(bs);
      var rest := ScalarsOf(bs[n..]);
      cps := [cp] + rest;
      assert cps[1..] == rest && bs == bs[..n] + bs[n..];
    }
  }

  lemma {:induction false} ScalarsAreValid(cps: seq<int>)
    requires forall cp <- cps :: Scalar(cp)
    ensures ValidUtf8(AllUtf8(cps))
  {
    if cps != [] {
      ScalarsAreValid(cps[1..]);
      var u, bs := Utf8Of(cps[0]), AllUtf8(cps);
      RuneOfScalar(bs, cps[0]);
      assert bs[|u|..] == AllUtf8(cps[1..]);
    }
  }

  /** Valid are exactly the encodings of sequences of scalar values. */
  lemma ValidIffScalars(bs: bytes)
    ensures ValidUtf8(bs) <==> exists cps: seq<int> :: (forall cp <- cps :: Scalar(cp)) && AllUtf8(cps) == bs
  {
    if ValidUtf8(bs) {
      var cps := ScalarsOf(bs);
    }
    if cps: seq<int> :| (forall cp <- cps :: Scalar(cp)) && AllUtf8(cps) == bs {
      ScalarsAreValid(cps);
    }
  }

  const REPLACEMENT: bytes := [0xEF, 0xBF, 0xBD]

  /** A string as the receiver reads it back: each byte that starts no well-formed sequence
      has become U+FFFD. */
  function ThroughJson(bs: bytes): bytes
    decreases |bs|
  {
    if bs == [] then []
    else
      var n := RuneLen(bs);
      if n == 0 then REPLACEMENT + ThroughJson(bs[1..]) else bs[..n] + ThroughJson(bs[n..])
  }

  /** What begins with a rune is valid iff the rest is. */
  lemma RuneFirst(bs: bytes, rest: bytes)
    requires bs != [] && RuneLen(bs) > 0
    ensures ValidUtf8(bs[..RuneLen(bs)] + rest) <==> ValidUtf8(rest)
  {
    var n := RuneLen(bs);
    var t := bs[..n] + rest;
    assert RuneLen(t) == n && t[n..] == rest;
  }

  /** JSON carries a string unchanged iff it is valid UTF-8, and otherwise lengthens it; what
      arrives is valid in any case. */
  lemma {:induction false} JsonKeepsIff(bs: bytes)
    ensures |ThroughJson(bs)| >= |bs| && ValidUtf8(ThroughJson(bs))
    ensures ValidUtf8(bs) ==> ThroughJson(bs) == bs
    ensures !ValidUtf8(bs) ==> |ThroughJson(bs)| > |bs|
    decreases |bs|
  {
    if bs != [] {
      var n := RuneLen(bs);
      JsonKeepsIff(bs[if n == 0 then 1 else n..]);
      if n == 0 {
        RuneFirst(REPLACEMENT, ThroughJson(bs[1..]));
      } else {
        RuneFirst(bs, ThroughJson(bs[n..]));
      }
      assert bs == bs[..n] + bs[n..];
    }
  }

  lemma {:induction false} AsciiIsUtf8(bs: bytes)
    requires Ascii(bs)
    ensures ValidUtf8(bs)
    decreases |bs|
  {
    if bs != [] {
      AsciiIsUtf8(bs[1..]);
    }
  }
}
