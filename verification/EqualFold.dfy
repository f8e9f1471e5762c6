/**
 UTF-8 as Go's unicode/utf8 decodes it, following the syntax in section 4 and the
 code point ranges in section 3 of RFC 3629.
 */
module Utf8 {

  type Byte = b: int | 0 <= b < 0x100
  type Rune = r: int | 0 <= r < 0x110000

  const RUNE_ERROR: Rune := 0xFFFD

  /** Code points that UTF-8 can encode: all but the surrogates. */
  predicate IsScalar(r: Rune) {
    !(0xD800 <= r <= 0xDFFF)
  }

  predicate IsTail(b: Byte) {
    0x80 <= b <= 0xBF
  }

  function Encode(r: Rune): (bytes: seq<Byte>)
    requires IsScalar(r)
    ensures 1 <= |bytes| <= 4
    ensures |bytes| == 1 <==> r < 0x80
  {
    var q: int := r / 0x40;
    var p: int := q / 0x40;
    if r < 0x80 then [r]
    else if r < 0x800 then [0xC0 + q, 0x80 + r % 0x40]
    else if r < 0x10000 then [0xE0 + p, 0x80 + q % 0x40, 0x80 + r % 0x40]
    else [0xF0 + p / 0x40, 0x80 + p % 0x40, 0x80 + q % 0x40, 0x80 + r % 0x40]
  }

  /** Append the six payload bits of a tail byte. */
  function Extend(high: int, tail: int): int {
    high * 0x40 + (tail - 0x80)
  }

  /** Length of the sequence a lead byte announces; 0 for a byte that cannot lead. */
  function LeadSize(b: Byte): nat {
    if b < 0x80 then 1
    else if 0xC2 <= b <= 0xDF then 2
    else if 0xE0 <= b <= 0xEF then 3
    else if 0xF0 <= b <= 0xF4 then 4
    else 0
  }

  /** The second byte is restricted after E0, ED, F0 and F4. */
  predicate AcceptsSecond(lead: Byte, b: Byte) {
    && (if lead == 0xE0 then 0xA0 else if lead == 0xF0 then 0x90 else 0x80) <= b
    && b <= (if lead == 0xED then 0x9F else if lead == 0xF4 then 0x8F else 0xBF)
  }

  /** utf8.DecodeRuneInString: the rune and its width, (RUNE_ERROR, 1) at an invalid sequence and (RUNE_ERROR, 0) at the end. */
  function Decode(s: seq<Byte>): (Rune, nat) {
    if s == [] then (RUNE_ERROR, 0)
    else
      var n := LeadSize(s[0]);
      if n == 1 then (s[0], 1)
      else if n == 0 || |s| < n || !AcceptsSecond(s[0], s[1]) then (RUNE_ERROR, 1)
      else if n == 2 then (Extend(s[0] - 0xC0, s[1]), 2)
      else if !IsTail(s[2]) then (RUNE_ERROR, 1)
      else if n == 3 then (Extend(Extend(s[0] - 0xE0, s[1]), s[2]), 3)
      else if !IsTail(s[3]) then (RUNE_ERROR, 1)
      else (Extend(Extend(Extend(s[0] - 0xF0, s[1]), s[2]), s[3]), 4)
  }

  /** Whether decoding succeeds here, as opposed to yielding the replacement for an invalid byte. */
  predicate Decodes(s: seq<Byte>) {
    s != [] && (Decode(s).1 > 1 || s[0] < 0x80)
  }

  /** Decoding an encoding, with anything after it, gives the rune back. */
  lemma DecodeEncode(r: Rune, rest: seq<Byte>)
    requires IsScalar(r)
    ensures Decode(Encode(r) + rest) == (r, |Encode(r)|)
    ensures Decodes(Encode(r) + rest)
  {
  }

  lemma ExtendInverse(high: int, tail: Byte)
    requires IsTail(tail)
    ensures Extend(high, tail) / 0x40 == high && 0x80 + Extend(high, tail) % 0x40 == tail
  {
  }

  /** A successful decoding consumed exactly the encoding of a scalar value. */
  lemma EncodeDecode(s: seq<Byte>)
    requires Decodes(s)
    ensures var (r, n) := Decode(s); IsScalar(r) && n <= |s| && s[..n] == Encode(r)
  {
    var n := Decode(s).1;
    if n == 2 {
      ExtendInverse(s[0] - 0xC0, s[1]);
    } else if n == 3 {
      EncodeDecode3(s);
    } else if n == 4 {
      EncodeDecode4(s);
    }
  }

  lemma EncodeDecode3(s: seq<Byte>)
    requires Decodes(s) && Decode(s).1 == 3
    ensures var (r, n) := Decode(s); IsScalar(r) && n <= |s| && s[..n] == Encode(r)
  {
    ExtendInverse(s[0] - 0xE0, s[1]);
    ExtendInverse(Extend(s[0] - 0xE0, s[1]), s[2]);
  }

  lemma EncodeDecode4(s: seq<Byte>)
    requires Decodes(s) && Decode(s).1 == 4
    ensures var (r, n) := Decode(s); IsScalar(r) && n <= |s| && s[..n] == Encode(r)
  {
    var q := Extend(s[0] - 0xF0, s[1]);
    ExtendInverse(s[0] - 0xF0, s[1]);
    ExtendInverse(q, s[2]);
    ExtendInverse(Extend(q, s[2]), s[3]);
  }

  /** Decoding succeeds exactly where the encoding of a scalar value begins; elsewhere it yields the replacement for one byte. */
  lemma DecodesIff(s: seq<Byte>)
    ensures Decodes(s) <==> exists r: Rune :: IsScalar(r) && Encode(r) <= s
    ensures s != [] && !Decodes(s) ==> Decode(s) == (RUNE_ERROR, 1)
  {
    if Decodes(s) {
      EncodeDecode(s);
      assert Encode(Decode(s).0) <= s;
    }
    if r: Rune :| IsScalar(r) && Encode(r) <= s {
      DecodeEncode(r, s[|Encode(r)|..]);
      assert s == Encode(r) + s[|Encode(r)|..];
    }
  }

  /** The text of a sequence of code points. */
  function EncodeAll(rs: seq<Rune>): seq<Byte>
    requires forall r <- rs :: IsScalar(r)
  {
    if rs == [] then [] else Encode(rs[0]) + EncodeAll(rs[1..])
  }

  /** UTF-8 texts are equal only for equal code points. */
  lemma {:induction false} EncodeAllInjective(a: seq<Rune>, b: seq<Rune>)
    requires (forall r <- a :: IsScalar(r)) && (forall r <- b :: IsScalar(r))
    requires EncodeAll(a) == EncodeAll(b)
    ensures a == b
  {
    if a != [] && b != [] {
      DecodeEncode(a[0], EncodeAll(a[1..]));
      DecodeEncode(b[0], EncodeAll(b[1..]));
      var n := |Encode(a[0])|;
      assert EncodeAll(a[1..]) == EncodeAll(a)[n..];
      assert EncodeAll(b[1..]) == EncodeAll(b)[n..];
      EncodeAllInjective(a[1..], b[1..]);
    }
  }
}

/** ASCIIEqualFold of util/util.go: equality of byte strings up to the case of the letters A to Z. */
module EqualFold {
  import opened Utf8

  function LowerByte(b: Byte): Byte {
    if 'A' as int <= b <= 'Z' as int then b + 0x20 else b
  }

  function LowerRune(r: Rune): Rune {
    if 'A' as int <= r <= 'Z' as int then r + 0x20 else r
  }

  /** The reference: lower the letters A to Z byte by byte and leave every other byte alone. */
  function Lowered(s: seq<Byte>): seq<Byte> {
    seq(|s|, i requires 0 <= i < |s| => LowerByte(s[i]))
  }

  /** Lowering never turns a byte into or out of a tail byte, so it commutes with decoding. */
  lemma LoweringCommutesWithDecode(a: seq<Byte>, b: seq<Byte>)
    requires Lowered(a) == Lowered(b) && a != []
    ensures |a| == |b| && Decode(a).1 == Decode(b).1 <= |a|
    ensures LowerRune(Decode(a).0) == LowerRune(Decode(b).0)
    ensures a[0] >= 0x80 ==> Decode(a) == Decode(b) && a[..Decode(a).1] == b[..Decode(b).1]
  {
    forall i | 0 <= i < |a|
      ensures LowerByte(a[i]) == LowerByte(b[i])
    {
      assert Lowered(a)[i] == Lowered(b)[i];
    }
  }

  /** One round of the decoding loop: do the texts agree on the rune at their front? */
  predicate FrontsAgree(a: seq<Byte>, b: seq<Byte>)
    requires a != [] && b != []
  {
    var ((sr, n), (tr, m)) := (Decode(a), Decode(b));
    if sr == RUNE_ERROR || tr == RUNE_ERROR then
      sr == RUNE_ERROR && tr == RUNE_ERROR && n == m && n <= |a| && m <= |b| && a[..n] == b[..m]
    else LowerRune(sr) == LowerRune(tr)
  }

  lemma AgreeingFronts(a: seq<Byte>, b: seq<Byte>)
    requires a != [] && b != [] && FrontsAgree(a, b)
    ensures var n := Decode(a).1; n == Decode(b).1 && 1 <= n <= |a| && n <= |b| && Lowered(a[..n]) == Lowered(b[..n])
  {
    var ((sr, n), (tr, m)) := (Decode(a), Decode(b));
    if sr != RUNE_ERROR && tr != RUNE_ERROR {
      EncodeDecode(a);
      EncodeDecode(b);
    }
  }

  lemma SplitLowered(s: seq<Byte>, i: nat)
    requires i <= |s|
    ensures Lowered(s) == Lowered(s[..i]) + Lowered(s[i..])
  {
  }

  /** One round of the loop reduces the question to the rest of both texts, or answers it. */
  lemma RoundIsSound(a: seq<Byte>, b: seq<Byte>)
    requires a != [] && b != []
    ensures !FrontsAgree(a, b) ==> Lowered(a) != Lowered(b)
    ensures FrontsAgree(a, b) ==>
              var n := Decode(a).1;
              && n == Decode(b).1 && 1 <= n <= |a| && n <= |b|
              && (Lowered(a) == Lowered(b) <==> Lowered(a[n..]) == Lowered(b[n..]))
  {
    if FrontsAgree(a, b) {
      AgreeingFronts(a, b);
      var n := Decode(a).1;
      SplitLowered(a, n);
      SplitLowered(b, n);
      assert Lowered(a)[n..] == Lowered(a[n..]);
      assert Lowered(b)[n..] == Lowered(b[n..]);
    } else if Lowered(a) == Lowered(b) {
      LoweringCommutesWithDecode(a, b);
    }
  }

  method IsASCII(s: seq<Byte>) returns (r: bool)
    ensures r <==> forall i :: 0 <= i < |s| ==> s[i] < 0x80
  {
    for i := 0 to |s|
      invariant forall k :: 0 <= k < i ==> s[k] < 0x80
    {
      if s[i] >= 0x80 {
        return false;
      }
    }
    return true;
  }

  /** The fast path: compare byte by byte. */
  method EqualFoldBytes(s: seq<Byte>, t: seq<Byte>) returns (r: bool)
    requires |s| == |t|
    ensures r <==> Lowered(s) == Lowered(t)
  {
    for i := 0 to |s|
      invariant forall k :: 0 <= k < i ==> LowerByte(s[k]) == LowerByte(t[k])
    {
      var a: int, b: int := s[i], t[i];
      if a != b {
        if 'A' as int <= a <= 'Z' as int { a := a + 'a' as int - 'A' as int; }
        if 'A' as int <= b <= 'Z' as int { b := b + 'a' as int - 'A' as int; }
        if a != b {
          assert Lowered(s)[i] != Lowered(t)[i];
          return false;
        }
      }
    }
    return true;
  }

  /** The general path: decode both texts rune by rune. */
  method EqualFoldRunes(s: seq<Byte>, t: seq<Byte>) returns (r: bool)
    ensures r <==> Lowered(s) == Lowered(t)
  {
    var i, j := 0, 0;
    assert s[0..] == s && t[0..] == t;
    while i < |s| && j < |t|
      invariant i == j <= |s| && j <= |t|
      invariant Lowered(s) == Lowered(t) <==> Lowered(s[i..]) == Lowered(t[j..])
      decreases |s| - i
    {
      ghost var a, b := s[i..], t[j..];
      RoundIsSound(a, b);
      var (sr, sizeS) := Decode(s[i..]);
      var (tr, sizeT) := Decode(t[j..]);
      assert FrontsAgree(a, b) ==> a[sizeS..] == s[i + sizeS..] && b[sizeT..] == t[j + sizeT..];
      if sr == RUNE_ERROR || tr == RUNE_ERROR {
        if sr == RUNE_ERROR && tr == RUNE_ERROR {
          if sizeS == sizeT && s[i..][..sizeS] == t[j..][..sizeT] {
            i := i + sizeS;
            j := j + sizeT;
            continue;
          }
        }
        return false;
      }
      if sr != tr {
        if 'A' as int <= sr <= 'Z' as int { sr := sr + 'a' as int - 'A' as int; }
        if 'A' as int <= tr <= 'Z' as int { tr := tr + 'a' as int - 'A' as int; }
        if sr != tr {
          return false;
        }
      }
      i := i + sizeS;
      j := j + sizeT;
    }
    return i == |s| && j == |t|;
  }

  /** Both paths decide the same relation: equality after lowering A to Z, on all byte strings, valid UTF-8 or not. */
  method ASCIIEqualFold(s: seq<Byte>, t: seq<Byte>) returns (r: bool)
    ensures r <==> Lowered(s) == Lowered(t)
  {
    var asciiS := IsASCII(s);
    var asciiT := IsASCII(t);
    if |s| == |t| && asciiS && asciiT {
      r := EqualFoldBytes(s, t);
    } else {
      r := EqualFoldRunes(s, t);
    }
  }

  // ----- What the relation means for text -----

  function LoweredRunes(rs: seq<Rune>): seq<Rune> {
    seq(|rs|, i requires 0 <= i < |rs| => LowerRune(rs[i]))
  }

  lemma {:induction false} LoweredEncoding(rs: seq<Rune>)
    requires forall r <- rs :: IsScalar(r)
    ensures forall r <- LoweredRunes(rs) :: IsScalar(r)
    ensures Lowered(EncodeAll(rs)) == EncodeAll(LoweredRunes(rs))
  {
    if rs != [] {
      var front := Encode(rs[0]);
      SplitLowered(EncodeAll(rs), |front|);
      assert EncodeAll(rs)[..|front|] == front && EncodeAll(rs)[|front|..] == EncodeAll(rs[1..]);
      assert Lowered(front) == Encode(LowerRune(rs[0]));
      LoweredEncoding(rs[1..]);
      assert LoweredRunes(rs)[1..] == LoweredRunes(rs[1..]);
    }
  }

  /** On UTF-8 text the byte relation is equality of code points up to the case of A to Z, and nothing coarser. */
  lemma EqualFoldOnText(a: seq<Rune>, b: seq<Rune>)
    requires (forall r <- a :: IsScalar(r)) && (forall r <- b :: IsScalar(r))
    ensures Lowered(EncodeAll(a)) == Lowered(EncodeAll(b)) <==> LoweredRunes(a) == LoweredRunes(b)
  {
    LoweredEncoding(a);
    LoweredEncoding(b);
    if Lowered(EncodeAll(a)) == Lowered(EncodeAll(b)) {
      EncodeAllInjective(LoweredRunes(a), LoweredRunes(b));
    }
  }
}
