/** Content digests as OCI and PyPI write them: "sha256:" and 64 hexadecimal digits. */
module Digest {
  import opened Text
  import opened Basics

  const SHA256_SIZE := 32
  const LONG_S := '\U{017f}'

  predicate IsHexDigit(c: char) { '0' <= c <= '9' || 'a' <= c <= 'f' || 'A' <= c <= 'F' }

  /** The value of a hexadecimal digit, by table. */
  function HexValue(c: char): (v: Byte)
    requires IsHexDigit(c)
    ensures v < 16
  {
    match c
    case '0' => 0 case '1' => 1 case '2' => 2 case '3' => 3
    case '4' => 4 case '5' => 5 case '6' => 6 case '7' => 7
    case '8' => 8 case '9' => 9
    case 'a' => 10 case 'A' => 10 case 'b' => 11 case 'B' => 11
    case 'c' => 12 case 'C' => 12 case 'd' => 13 case 'D' => 13
    case 'e' => 14 case 'E' => 14
    case _ => 15
  }

  function HexDigit(v: Byte): (c: char)
    requires v < 16
    ensures IsHexDigit(c) && HexValue(c) == v && LowerChar(c) == c
  {
    match v
    case 0 => '0' case 1 => '1' case 2 => '2' case 3 => '3'
    case 4 => '4' case 5 => '5' case 6 => '6' case 7 => '7'
    case 8 => '8' case 9 => '9' case 10 => 'a' case 11 => 'b'
    case 12 => 'c' case 13 => 'd' case 14 => 'e'
    case _ => 'f'
  }

  function High(b: Byte): (v: Byte) ensures v < 16 { b >> 4 }
  function Low(b: Byte): (v: Byte) ensures v < 16 { b & 0xf }

  /** hex.DecodeString. */
  function DecodeHex(s: string): Option<seq<Byte>> {
    if s == "" then Some([])
    else if |s| == 1 || !IsHexDigit(s[0]) || !IsHexDigit(s[1]) then None
    else match DecodeHex(s[2..])
      case Some(rest) => Some([Pair(s[0], s[1])] + rest)
      case None => None
  }

  /** hex.EncodeToString. */
  function EncodeHex(b: seq<Byte>): string {
    if b == [] then "" else [HexDigit(High(b[0])), HexDigit(Low(b[0]))] + EncodeHex(b[1..])
  }

  function Pair(c: char, d: char): Byte
    requires IsHexDigit(c) && IsHexDigit(d)
  {
    (HexValue(c) << 4) | HexValue(d)
  }

  lemma BytesAreNibbles(b: Byte, v: Byte, w: Byte)
    requires v < 16 && w < 16
    ensures (High(b) << 4) | Low(b) == b
    ensures High((v << 4) | w) == v && Low((v << 4) | w) == w
  {
  }

  lemma PairOfDigits(b: Byte)
    ensures Pair(HexDigit(High(b)), HexDigit(Low(b))) == b
  {
    BytesAreNibbles(b, 0, 0);
  }

  lemma DigitOfValue(c: char)
    requires IsHexDigit(c) && LowerChar(c) == c
    ensures HexDigit(HexValue(c)) == c
  {
  }

  lemma DigitsOfPair(c: char, d: char)
    requires IsHexDigit(c) && IsHexDigit(d) && LowerChar(c) == c && LowerChar(d) == d
    ensures HexDigit(High(Pair(c, d))) == c && HexDigit(Low(Pair(c, d))) == d
  {
    BytesAreNibbles(0, HexValue(c), HexValue(d));
    DigitOfValue(c);
    DigitOfValue(d);
  }

  lemma {:induction false} DecodeOfEncode(b: seq<Byte>)
    ensures DecodeHex(EncodeHex(b)) == Some(b) && |EncodeHex(b)| == 2 * |b|
    ensures forall i :: 0 <= i < |EncodeHex(b)| ==> LowerChar(EncodeHex(b)[i]) == EncodeHex(b)[i]
  {
    if b != [] {
      DecodeOfEncode(b[1..]);
      PairOfDigits(b[0]);
      assert EncodeHex(b)[2..] == EncodeHex(b[1..]);
      assert b == [b[0]] + b[1..];
    }
  }

  /** Lower-case hexadecimal is read one way only. */
  lemma {:induction false} EncodeOfDecode(s: string)
    requires DecodeHex(s).Some? && forall i :: 0 <= i < |s| ==> LowerChar(s[i]) == s[i]
    ensures EncodeHex(DecodeHex(s).value) == s && |s| == 2 * |DecodeHex(s).value|
  {
    if s != "" {
      EncodeOfDecode(s[2..]);
      DigitsOfPair(s[0], s[1]);
      var rest := DecodeHex(s[2..]).value;
      assert DecodeHex(s).value == [Pair(s[0], s[1])] + rest;
      assert ([Pair(s[0], s[1])] + rest)[1..] == rest;
      assert s == [s[0], s[1]] + s[2..];
    }
  }

  function IndexOf(s: string, c: char): (i: nat)
    ensures i <= |s| && (i < |s| ==> s[i] == c) && forall j :: 0 <= j < i ==> s[j] != c
  {
    if s == "" || s[0] == c then 0 else IndexOf(s[1..], c) + 1
  }

  /** decodeSHA256: the algorithm name and the digits may be in any letter case. */
  function DecodeSHA256(value: string): Option<seq<Byte>> {
    var s := ToLower(value);
    var i := IndexOf(s, ':');
    if i < |s| && s[..i] == "sha256" && |s[i + 1..]| == 2 * SHA256_SIZE then DecodeHex(s[i + 1..]) else None
  }

  /** What decodes is "sha256:" and the digest in hexadecimal, up to letter case, and nothing else. */
  lemma DecodeIsCanonical(value: string, digest: seq<Byte>)
    requires |digest| == SHA256_SIZE
    ensures DecodeSHA256(value) == Some(digest) <==> ToLower(value) == "sha256:" + EncodeHex(digest)
  {
    var s := ToLower(value);
    var i := IndexOf(s, ':');
    if DecodeSHA256(value) == Some(digest) {
      LowerTwice(value);
      EncodeOfDecode(s[i + 1..]);
      assert s == s[..i] + [s[i]] + s[i + 1..];
    }
    if s == "sha256:" + EncodeHex(digest) { CanonicalDecodes(value, digest); }
  }

  lemma CanonicalDecodes(value: string, digest: seq<Byte>)
    requires |digest| == SHA256_SIZE && ToLower(value) == "sha256:" + EncodeHex(digest)
    ensures DecodeSHA256(value) == Some(digest)
  {
    var s := ToLower(value);
    DecodeOfEncode(digest);
    assert s[..7] == "sha256:" && s[7..] == EncodeHex(digest);
    assert s[6] == s[..7][6] == ':' && forall j :: 0 <= j < 6 ==> s[j] == s[..7][j] != ':';
    assert IndexOf(s, ':') == 6;
    assert s[..6] == s[..7][..6] == "sha256";
  }

  /** Folding agrees with lower-casing on everything a digest can contain but the long s. */
  lemma FoldIsLower(a: char, b: char)
    requires FoldChar(a) == FoldChar(b) && LowerChar(b) in DIGEST_ALPHABET && a != LONG_S
    ensures LowerChar(a) == LowerChar(b)
  {
  }

  /** Two values that fold together decode together, except for a long s written for an s: the
      exact condition under which the upstream's spelling of a cached digest decodes at all. */
  lemma FoldedDigestDecodes(upstream: string, cached: string, digest: seq<Byte>)
    requires EqualFold(upstream, cached) && DecodeSHA256(cached) == Some(digest) && |digest| == SHA256_SIZE
    ensures DecodeSHA256(upstream) == Some(digest) <==> LONG_S !in upstream
  {
    DecodeIsCanonical(upstream, digest);
    DecodeIsCanonical(cached, digest);
    FoldedIsCanonical(upstream, cached, "sha256:" + EncodeHex(digest));
    DigestAlphabet(digest);
  }

  const DIGEST_ALPHABET := "sha256:0123456789abcdef"

  lemma FoldedIsCanonical(upstream: string, cached: string, d: string)
    requires EqualFold(upstream, cached) && ToLower(cached) == d
    ensures (forall i :: 0 <= i < |d| ==> d[i] in DIGEST_ALPHABET) ==> (ToLower(upstream) == d <==> LONG_S !in upstream)
  {
    if forall i :: 0 <= i < |d| ==> d[i] in DIGEST_ALPHABET {
      if LONG_S !in upstream {
        forall i | 0 <= i < |d| ensures ToLower(upstream)[i] == d[i] {
          assert LowerChar(cached[i]) == d[i];
          FoldIsLower(upstream[i], cached[i]);
        }
      } else {
        var i :| 0 <= i < |upstream| && upstream[i] == LONG_S;
        assert ToLower(upstream)[i] == LONG_S;
      }
    }
  }

  lemma DigestAlphabet(digest: seq<Byte>)
    ensures forall i :: 0 <= i < |"sha256:" + EncodeHex(digest)| ==>
              ("sha256:" + EncodeHex(digest))[i] in DIGEST_ALPHABET
  {
    HexAlphabet(digest);
    var d := "sha256:" + EncodeHex(digest);
    forall i | 0 <= i < |d| ensures d[i] in DIGEST_ALPHABET {
      if i < 7 { assert d[i] == "sha256:"[i]; } else { assert d[i] == EncodeHex(digest)[i - 7]; }
    }
  }

  lemma {:induction false} HexAlphabet(b: seq<Byte>)
    ensures forall i :: 0 <= i < |EncodeHex(b)| ==> EncodeHex(b)[i] in DIGEST_ALPHABET
  {
    if b != [] {
      HexAlphabet(b[1..]);
      DigitAlphabet(High(b[0]));
      DigitAlphabet(Low(b[0]));
    }
  }

  lemma DigitAlphabet(v: Byte)
    requires v < 16
    ensures HexDigit(v) in DIGEST_ALPHABET
  {
    var digits := "0123456789abcdef";
    assert DIGEST_ALPHABET == "sha256:" + digits;
  }

  /** The comparison looks at every byte before it decides. */
  method EqualBytes(left: seq<Byte>, right: seq<Byte>) returns (equal: bool)
    ensures equal <==> left == right
  {
    if |left| != |right| {
      return false;
    }
    var difference: Byte := 0;
    var i := 0;
    while i < |left|
      invariant i <= |left|
      invariant difference == 0 <==> left[..i] == right[..i]
    {
      OrXorZero(difference, left[i], right[i]);
      assert left[..i + 1] == left[..i] + [left[i]] && right[..i + 1] == right[..i] + [right[i]];
      difference := difference | (left[i] ^ right[i]);
      i := i + 1;
    }
    assert left[..i] == left && right[..i] == right;
    return difference == 0;
  }

  lemma OrXorZero(d: Byte, a: Byte, b: Byte)
    ensures d | (a ^ b) == 0 <==> d == 0 && a == b
  {
  }

  /** verifySum. */
  method VerifySum(actual: seq<Byte>, expected: string) returns (ok: bool)
    ensures ok <==> DecodeSHA256(expected) == Some(actual)
  {
    var expectedBytes := DecodeSHA256(expected);
    if expectedBytes.None? {
      return false;
    }
    ok := EqualBytes(actual, expectedBytes.value);
  }
}
