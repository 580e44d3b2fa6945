/** RFC 4648 Base64 as the standard library decodes it with validation: the alphabet and
    the padding are strict, unused trailing bits are dropped silently. */
module Base64 {
  import opened Common

  predicate InAlphabet(c: char) {
    'A' <= c <= 'Z' || 'a' <= c <= 'z' || '0' <= c <= '9' || c == '+' || c == '/'
  }

  function Sextet(c: char): (n: int)
    requires InAlphabet(c)
    ensures 0 <= n < 64
  {
    if 'A' <= c <= 'Z' then c as int - 'A' as int
    else if 'a' <= c <= 'z' then c as int - 'a' as int + 26
    else if '0' <= c <= '9' then c as int - '0' as int + 52
    else if c == '+' then 62 else 63
  }

  function Symbol(n: int): (c: char)
    requires 0 <= n < 64
    ensures InAlphabet(c) && Sextet(c) == n
  {
    if n < 26 then 'A' + n as char
    else if n < 52 then 'a' + (n - 26) as char
    else if n < 62 then '0' + (n - 52) as char
    else if n == 62 then '+' else '/'
  }

  // The four sextets that hold three bytes, and the bytes read back from sextets.
  function Sextet0(a: Byte): (n: int) ensures 0 <= n < 64 { a / 4 }
  function Sextet1(a: Byte, b: Byte): (n: int) ensures 0 <= n < 64 { a % 4 * 16 + b / 16 }
  function Sextet2(b: Byte, c: Byte): (n: int) ensures 0 <= n < 64 { b % 16 * 4 + c / 64 }
  function Sextet3(c: Byte): (n: int) ensures 0 <= n < 64 { c % 64 }

  function Byte0(p: char, q: char): Byte requires InAlphabet(p) && InAlphabet(q) {
    Sextet(p) * 4 + Sextet(q) / 16
  }
  function Byte1(q: char, r: char): Byte requires InAlphabet(q) && InAlphabet(r) {
    Sextet(q) % 16 * 16 + Sextet(r) / 4
  }
  function Byte2(r: char, t: char): Byte requires InAlphabet(r) && InAlphabet(t) {
    Sextet(r) % 4 * 64 + Sextet(t)
  }

  /** Four characters for one to three bytes. */
  function EncodeGroup(g: seq<Byte>): (s: string)
    requires 1 <= |g| <= 3
    ensures |s| == 4
  {
    if |g| == 1 then [Symbol(Sextet0(g[0])), Symbol(Sextet1(g[0], 0)), '=', '=']
    else if |g| == 2 then [Symbol(Sextet0(g[0])), Symbol(Sextet1(g[0], g[1])), Symbol(Sextet2(g[1], 0)), '=']
    else [Symbol(Sextet0(g[0])), Symbol(Sextet1(g[0], g[1])), Symbol(Sextet2(g[1], g[2])), Symbol(Sextet3(g[2]))]
  }

  /** The bytes of four characters; a padded group yields fewer than three. */
  function DecodeGroup(s: string): (g: Option<seq<Byte>>)
    requires |s| == 4
    ensures g.Some? ==> 1 <= |g.value| <= 3
  {
    if !InAlphabet(s[0]) || !InAlphabet(s[1]) then None
    else if s[2] == '=' && s[3] == '=' then Some([Byte0(s[0], s[1])])
    else if !InAlphabet(s[2]) then None
    else if s[3] == '=' then Some([Byte0(s[0], s[1]), Byte1(s[1], s[2])])
    else if !InAlphabet(s[3]) then None
    else Some([Byte0(s[0], s[1]), Byte1(s[1], s[2]), Byte2(s[2], s[3])])
  }

  lemma {:induction false} StandardGroups()
    ensures EncodeGroup([0x66, 0x6f, 0x6f]) == "Zm9v" && EncodeGroup([0x62, 0x61, 0x72]) == "YmFy"
    ensures EncodeGroup([0x62, 0x61]) == "YmE=" && EncodeGroup([0x62]) == "Yg=="
  {}

  function Encode(bytes: seq<Byte>): (s: string) {
    if bytes == [] then ""
    else if |bytes| <= 3 then EncodeGroup(bytes)
    else EncodeGroup(bytes[..3]) + Encode(bytes[3..])
  }

  lemma {:induction false} StandardTail(head: seq<Byte>, tail: seq<Byte>, text: string)
    requires |head| == 3 && 1 <= |tail| <= 3 && EncodeGroup(tail) == text
    ensures Encode(head + tail) == EncodeGroup(head) + text
  {
    assert (head + tail)[..3] == head && (head + tail)[3..] == tail;
  }

  /** Examples of section 10 of RFC 4648: the octets of "foobar" and its prefixes. */
  lemma {:induction false} StandardExamples()
    ensures Encode([0x66, 0x6f, 0x6f, 0x62, 0x61, 0x72]) == "Zm9vYmFy"
    ensures Encode([0x66, 0x6f, 0x6f, 0x62, 0x61]) == "Zm9vYmE="
    ensures Encode([0x66, 0x6f, 0x6f, 0x62]) == "Zm9vYg=="
  {
    hide Encode, EncodeGroup;
    StandardGroups();
    var foo: seq<Byte> := [0x66, 0x6f, 0x6f];
    StandardTail(foo, [0x62, 0x61, 0x72], "YmFy");
    StandardTail(foo, [0x62, 0x61], "YmE=");
    StandardTail(foo, [0x62], "Yg==");
    assert foo + [0x62, 0x61, 0x72] == [0x66, 0x6f, 0x6f, 0x62, 0x61, 0x72];
    assert foo + [0x62, 0x61] == [0x66, 0x6f, 0x6f, 0x62, 0x61];
    assert foo + [0x62] == [0x66, 0x6f, 0x6f, 0x62];
  }

  lemma {:induction false} SextetsOfBytes(a: Byte, b: Byte, c: Byte)
    ensures var p, q, r, t := Symbol(Sextet0(a)), Symbol(Sextet1(a, b)), Symbol(Sextet2(b, c)), Symbol(Sextet3(c));
            Byte0(p, q) == a && Byte1(q, r) == b && Byte2(r, t) == c
  {}

  lemma {:induction false} PaddingIsNotASymbol(n: int)
    requires 0 <= n < 64
    ensures Symbol(n) != '='
  {}

  lemma {:induction false} FullGroup(p: char, q: char, r: char, t: char)
    requires InAlphabet(p) && InAlphabet(q) && InAlphabet(r) && InAlphabet(t)
    ensures DecodeGroup([p, q, '=', '=']) == Some([Byte0(p, q)])
    ensures DecodeGroup([p, q, r, '=']) == Some([Byte0(p, q), Byte1(q, r)])
    ensures DecodeGroup([p, q, r, t]) == Some([Byte0(p, q), Byte1(q, r), Byte2(r, t)])
  {}

  lemma {:induction false} GroupRoundTrip(g: seq<Byte>)
    requires 1 <= |g| <= 3
    ensures DecodeGroup(EncodeGroup(g)) == Some(g)
  {
    hide Symbol, Sextet, InAlphabet, Sextet0, Sextet1, Sextet2, Sextet3, Byte0, Byte1, Byte2;
    var a: Byte := g[0];
    var b: Byte := if |g| > 1 then g[1] else 0;
    var c: Byte := if |g| > 2 then g[2] else 0;
    SextetsOfBytes(a, b, c);
    PaddingIsNotASymbol(Sextet2(b, c));
    PaddingIsNotASymbol(Sextet3(c));
    FullGroup(Symbol(Sextet0(a)), Symbol(Sextet1(a, b)), Symbol(Sextet2(b, c)), Symbol(Sextet3(c)));
    if |g| == 1 {
      assert g == [a];
    } else if |g| == 2 {
      assert g == [a, b];
    } else {
      assert g == [a, b, c];
    }
  }

  function Decode(s: string): (r: Option<seq<Byte>>) {
    if s == "" then Some([])
    else if |s| < 4 then None
    else match DecodeGroup(s[..4])
      case None => None
      case Some(group) =>
        if |s| == 4 then Some(group)
        else if |group| < 3 then None
        else match Decode(s[4..])
          case None => None
          case Some(rest) => Some(group + rest)
  }

  lemma {:induction false} EncodeNonEmpty(bytes: seq<Byte>)
    requires bytes != []
    ensures Encode(bytes) != ""
  {}

  lemma {:induction false} DecodeLast(s: string)
    requires |s| == 4
    ensures Decode(s) == DecodeGroup(s)
  {
    assert s[..4] == s;
  }

  lemma {:induction false} DecodeMore(s: string, rest: string)
    requires |s| == 4 && rest != ""
    requires DecodeGroup(s).Some? && |DecodeGroup(s).value| == 3 && Decode(rest).Some?
    ensures Decode(s + rest) == Some(DecodeGroup(s).value + Decode(rest).value)
  {
    assert (s + rest)[..4] == s && (s + rest)[4..] == rest;
  }

  /** Decoding undoes encoding. */
  lemma {:induction false} DecodeEncode(bytes: seq<Byte>)
    ensures Decode(Encode(bytes)) == Some(bytes)
  {
    if 1 <= |bytes| <= 3 {
      GroupRoundTrip(bytes);
      DecodeLast(EncodeGroup(bytes));
    } else if bytes != [] {
      GroupRoundTrip(bytes[..3]);
      DecodeEncode(bytes[3..]);
      EncodeNonEmpty(bytes[3..]);
      DecodeMore(EncodeGroup(bytes[..3]), Encode(bytes[3..]));
      assert bytes == bytes[..3] + bytes[3..];
    }
  }

  lemma {:induction false} GroupCount(n: nat)
    requires n > 3
    ensures (n + 2) / 3 * 4 == 4 + ((n - 3) + 2) / 3 * 4
  {}
}

/** `_physical_row_fingerprint`: the row digest behind either cursor encoding. */
module RowFingerprint {
  import opened Common
  import opened Base64

  lemma {:induction false} EncodeLength(bytes: seq<Byte>)
    ensures |Encode(bytes)| == (|bytes| + 2) / 3 * 4
  {
    hide EncodeGroup;
    if |bytes| > 3 {
      EncodeLength(bytes[3..]);
      GroupCount(|bytes|);
    }
  }

  predicate IsHexDigit(c: char) { '0' <= c <= '9' || 'a' <= c <= 'f' }

  /** The stored form of a SHA-256 digest: 64 lower-case hexadecimal characters. */
  predicate IsDigest(s: string) {
    |s| == 64 && forall i :: 0 <= i < |s| ==> IsHexDigit(s[i])
  }

  lemma {:induction false} HexCharacter(c: char)
    ensures IsHexDigit(c) <==> c in "0123456789abcdef"
  {
    var hex := "0123456789abcdef";
    if '0' <= c <= '9' { assert hex[c as int - 48] == c; }
    if 'a' <= c <= 'f' { assert hex[c as int - 87] == c; }
  }

  lemma {:induction false} DigestCharacters(s: string)
    ensures IsDigest(s) <==> |s| == 64 && forall c :: c in s ==> c in "0123456789abcdef"
  {
    if IsDigest(s) {
      forall c | c in s ensures c in "0123456789abcdef" {
        assert IsHexDigit(c);
        HexCharacter(c);
      }
    }
    if |s| == 64 && forall c :: c in s ==> c in "0123456789abcdef" {
      forall i | 0 <= i < |s| ensures IsHexDigit(s[i]) {
        assert s[i] in s;
        HexCharacter(s[i]);
      }
    }
  }

  predicate IsAscii(s: string) { forall i :: 0 <= i < |s| ==> s[i] < 128 as char }

  function AsciiBytes(s: string): (bytes: seq<Byte>)
    requires IsAscii(s)
    ensures |bytes| == |s|
  {
    seq(|s|, i requires 0 <= i < |s| => s[i] as int)
  }

  function AsciiText(bytes: seq<Byte>): (s: Option<string>) {
    if forall i :: 0 <= i < |bytes| ==> bytes[i] < 128
    then Some(seq(|bytes|, i requires 0 <= i < |bytes| => bytes[i] as char))
    else None
  }

  function PhysicalRowFingerprint(value: Json): Result<string> {
    if !value.JStr? then Err(BadCursor)
    else if IsDigest(value.text) then Ok(value.text)
    else if |value.text| != 88 || !IsAscii(value.text) then Err(BadCursor)
    else match Decode(value.text)
      case None => Err(BadCursor)
      case Some(decoded) =>
        match AsciiText(decoded)
        case None => Err(BadCursor)
        case Some(fingerprint) =>
          if IsDigest(fingerprint) && Encode(decoded) == value.text then Ok(fingerprint) else Err(BadCursor)
  }

  lemma {:induction false} AsciiRoundTrip(s: string, bytes: seq<Byte>)
    ensures IsAscii(s) ==> AsciiText(AsciiBytes(s)) == Some(s)
    ensures AsciiText(bytes).Some? ==> IsAscii(AsciiText(bytes).value) && AsciiBytes(AsciiText(bytes).value) == bytes
  {
    if IsAscii(s) {
      assert AsciiText(AsciiBytes(s)).value == s;
    }
  }

  /** The two encodings that drivers have put into cursors. */
  function NativeText(digest: string): string
    requires IsDigest(digest)
  {
    Encode(AsciiBytes(digest))
  }

  lemma {:induction false} EncodeIsAscii(bytes: seq<Byte>)
    ensures IsAscii(Encode(bytes))
  {
    if |bytes| > 3 {
      EncodeIsAscii(bytes[3..]);
    }
  }

  lemma {:induction false} NativeTextShape(digest: string)
    requires IsDigest(digest)
    ensures |NativeText(digest)| == 88 && IsAscii(NativeText(digest))
    ensures Decode(NativeText(digest)) == Some(AsciiBytes(digest))
    ensures AsciiText(AsciiBytes(digest)) == Some(digest)
  {
    hide Encode, Decode, AsciiText;
    DecodeEncode(AsciiBytes(digest));
    EncodeLength(AsciiBytes(digest));
    AsciiRoundTrip(digest, []);
    EncodeIsAscii(AsciiBytes(digest));
  }

  lemma {:induction false} BothFormsAccepted(digest: string)
    requires IsDigest(digest)
    ensures PhysicalRowFingerprint(JStr(digest)) == Ok(digest)
    ensures PhysicalRowFingerprint(JStr(NativeText(digest))) == Ok(digest)
  {
    NativeTextShape(digest);
  }

  lemma {:induction false} OnlyFormsAccepted(value: Json, digest: string)
    requires PhysicalRowFingerprint(value) == Ok(digest)
    ensures IsDigest(digest) && (value == JStr(digest) || value == JStr(NativeText(digest)))
  {
    if !IsDigest(value.text) {
      AsciiRoundTrip("", Decode(value.text).value);
    }
  }

  /** A cursor value is accepted exactly when it is the raw or the canonical Base64 form of
      a stored digest, and then it yields that digest. */
  lemma {:induction false} FingerprintDecoding(value: Json, digest: string)
    ensures PhysicalRowFingerprint(value) == Ok(digest) <==>
            IsDigest(digest) && (value == JStr(digest) || value == JStr(NativeText(digest)))
  {
    if IsDigest(digest) {
      BothFormsAccepted(digest);
    }
    if PhysicalRowFingerprint(value) == Ok(digest) {
      OnlyFormsAccepted(value, digest);
    }
  }
}
