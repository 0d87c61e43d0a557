/**
 * The TTS cache key (src/lib/hash.ts): SHA-256 of "voiceId:say", written in
 * the URL-safe base64 alphabet of section 5 of RFC 4648 without padding.
 * The digest (UTF-8 encoding followed by SHA-256, FIPS 180-4) is a function
 * parameter; only its length is ever assumed.
 */
module Hash {
  import opened Wrappers

  type Byte = b: int | 0 <= b < 256

  /**
   * Value v of the alphabet of section 4 of RFC 4648 (`B64` in the source):
   * 'A'-'Z', 'a'-'z', '0'-'9', then '+' and '/'.
   */
  function Std(v: int): (c: char)
    requires 0 <= v < 64
    ensures c != '='
  {
    if v < 26 then ('A' as int + v) as char
    else if v < 52 then ('a' as int + v - 26) as char
    else if v < 62 then ('0' as int + v - 52) as char
    else if v == 62 then '+' else '/'
  }

  /** Value v of the URL- and filename-safe alphabet of section 5 of RFC 4648: '-' and '_' replace '+' and '/'. */
  function Url(v: int): (c: char)
    requires 0 <= v < 64
    ensures IsUrlChar(c)
    ensures c == if Std(v) == '+' then '-' else if Std(v) == '/' then '_' else Std(v)
  {
    if v < 62 then Std(v) else if v == 62 then '-' else '_'
  }

  predicate IsUrlChar(c: char) {
    ('A' <= c <= 'Z') || ('a' <= c <= 'z') || ('0' <= c <= '9') || c == '-' || c == '_'
  }

  // ---------------------------------------------------------------------------
  // The two encodings of RFC 4648
  // ---------------------------------------------------------------------------

  /** The four 6-bit values of a 3-byte group (section 4 of RFC 4648). */
  function Split3(b0: Byte, b1: Byte, b2: Byte): (v: (int, int, int, int))
    ensures 0 <= v.0 < 64 && 0 <= v.1 < 64 && 0 <= v.2 < 64 && 0 <= v.3 < 64
  {
    (b0 / 4, (b0 % 4) * 16 + b1 / 16, (b1 % 16) * 4 + b2 / 64, b2 % 64)
  }

  /** Padded base64 (section 4 of RFC 4648); trailing bits are zero-filled. */
  function StdEncode(b: seq<Byte>): string
    decreases |b|
  {
    if |b| >= 3 then
      var v := Split3(b[0], b[1], b[2]);
      [Std(v.0), Std(v.1), Std(v.2), Std(v.3)] + StdEncode(b[3..])
    else if |b| == 2 then
      var v := Split3(b[0], b[1], 0);
      [Std(v.0), Std(v.1), Std(v.2), '=']
    else if |b| == 1 then
      var v := Split3(b[0], 0, 0);
      [Std(v.0), Std(v.1), '=', '=']
    else []
  }

  /**
   * Unpadded base64url (section 5 of RFC 4648, padding omitted as its section 3.2
   * allows): only URL-safe characters, never '+', '/' or '=', and n bytes
   * give 4 * (n / 3) characters plus 2 or 3 for a trailing group of 1 or 2
   * bytes.
   */
  function UrlEncode(b: seq<Byte>): (r: string)
    ensures forall c :: c in r ==> IsUrlChar(c)
    ensures '+' !in r && '/' !in r && '=' !in r
    ensures |r| == 4 * (|b| / 3) + (if |b| % 3 == 0 then 0 else |b| % 3 + 1)
    decreases |b|
  {
    if |b| >= 3 then
      var v := Split3(b[0], b[1], b[2]);
      [Url(v.0), Url(v.1), Url(v.2), Url(v.3)] + UrlEncode(b[3..])
    else if |b| == 2 then
      var v := Split3(b[0], b[1], 0);
      [Url(v.0), Url(v.1), Url(v.2)]
    else if |b| == 1 then
      var v := Split3(b[0], 0, 0);
      [Url(v.0), Url(v.1)]
    else []
  }

  // ---------------------------------------------------------------------------
  // toBase64Url as written: padded standard base64, then the three replaces
  // ---------------------------------------------------------------------------

  /** `s.replace(/x/g, y)` for a single character x. */
  function ReplaceChar(s: string, x: char, y: char): (r: string)
    ensures |r| == |s|
    ensures forall k :: 0 <= k < |s| ==> r[k] == if s[k] == x then y else s[k]
  {
    seq(|s|, k requires 0 <= k < |s| => if s[k] == x then y else s[k])
  }

  /** `.replace(/\+/g, "-").replace(/\//g, "_")`. */
  function UrlSafe(s: string): (r: string)
    ensures |r| == |s|
    ensures forall k :: 0 <= k < |s| ==> r[k] == if s[k] == '+' then '-' else if s[k] == '/' then '_' else s[k]
  {
    ReplaceChar(ReplaceChar(s, '+', '-'), '/', '_')
  }

  /** `s.replace(/=+$/g, "")`: drops the run of '=' at the end. */
  function StripPadding(s: string): (r: string)
    ensures |r| <= |s| && r == s[..|r|]
    ensures r == [] || r[|r| - 1] != '='
    ensures forall k :: |r| <= k < |s| ==> s[k] == '='
  {
    if s != [] && s[|s| - 1] == '=' then StripPadding(s[..|s| - 1]) else s
  }

  /** The loop and the tail of `toBase64Url`: padded standard base64. */
  method StdBase64(bytes: seq<Byte>) returns (out: string)
    ensures out == StdEncode(bytes)
  {
    out := "";
    var i := 0;
    while i + 2 < |bytes|
      invariant i <= |bytes|
      invariant out + StdEncode(bytes[i..]) == StdEncode(bytes)
    {
      var v := Split3(bytes[i], bytes[i + 1], bytes[i + 2]);
      StdEncodeGroup(bytes, i);
      out := out + [Std(v.0), Std(v.1), Std(v.2), Std(v.3)];
      i := i + 3;
    }
    StdEncodeTail(bytes, i);
    // the trailing group of one or two bytes, zero-filled and padded
    if i + 1 < |bytes| {
      var v := Split3(bytes[i], bytes[i + 1], 0);
      out := out + [Std(v.0), Std(v.1), Std(v.2), '='];
    } else if i < |bytes| {
      var v := Split3(bytes[i], 0, 0);
      out := out + [Std(v.0), Std(v.1), '=', '='];
    } else {
      assert bytes[i..] == [];
    }
  }

  /** `toBase64Url(bytes)`: the padded encoding, made URL-safe, without its padding. */
  method ToBase64Url(bytes: seq<Byte>) returns (r: string)
    ensures r == UrlEncode(bytes)
  {
    var out := StdBase64(bytes);
    UrlFromStd(bytes);
    r := StripPadding(UrlSafe(out));
  }

  lemma StdEncodeGroup(b: seq<Byte>, i: nat)
    requires i + 2 < |b|
    ensures var v := Split3(b[i], b[i + 1], b[i + 2]);
      StdEncode(b[i..]) == [Std(v.0), Std(v.1), Std(v.2), Std(v.3)] + StdEncode(b[i + 3..])
  {
    assert b[i..][3..] == b[i + 3..];
  }

  lemma StdEncodeTail(b: seq<Byte>, i: nat)
    requires i <= |b| < i + 3
    ensures StdEncode(b[i..]) == if i + 1 < |b| then
        var v := Split3(b[i], b[i + 1], 0); [Std(v.0), Std(v.1), Std(v.2), '=']
      else if i < |b| then
        var v := Split3(b[i], 0, 0); [Std(v.0), Std(v.1), '=', '=']
      else []
  {
  }

  /** Mapping the two characters of the alphabet and dropping the padding turns section 4 of RFC 4648 into its section 5. */
  lemma UrlFromStd(b: seq<Byte>)
    ensures StripPadding(UrlSafe(StdEncode(b))) == UrlEncode(b)
  {
    UrlOfStdBody(b);
    StripAfterUrl(UrlEncode(b), PaddingOf(|b| % 3));
  }

  function PaddingOf(rem: nat): string {
    if rem == 1 then "==" else if rem == 2 then "=" else ""
  }

  lemma {:induction false} UrlOfStdBody(b: seq<Byte>)
    ensures UrlSafe(StdEncode(b)) == UrlEncode(b) + PaddingOf(|b| % 3)
    decreases |b|
  {
    if |b| >= 3 {
      var v := Split3(b[0], b[1], b[2]);
      var head := [Std(v.0), Std(v.1), Std(v.2), Std(v.3)];
      var rest := StdEncode(b[3..]);
      UrlOfStdBody(b[3..]);
      ModThree(|b|);
      UrlSafeAppend(head, rest);
      UrlSafeGroup(v.0, v.1, v.2, v.3);
      assert StdEncode(b) == head + rest;
      assert UrlEncode(b) == [Url(v.0), Url(v.1), Url(v.2), Url(v.3)] + UrlEncode(b[3..]);
    } else if |b| == 2 {
      var v := Split3(b[0], b[1], 0);
      UrlSafeGroup(v.0, v.1, v.2, 0);
    } else if |b| == 1 {
      var v := Split3(b[0], 0, 0);
      UrlSafeGroup(v.0, v.1, 0, 0);
    }
  }

  lemma ModThree(n: nat)
    requires n >= 3
    ensures (n - 3) % 3 == n % 3
  {
  }

  /** A group of characters of section 4 of RFC 4648, padded or not, maps to its counterpart in section 5. */
  lemma UrlSafeGroup(a: int, b: int, c: int, d: int)
    requires 0 <= a < 64 && 0 <= b < 64 && 0 <= c < 64 && 0 <= d < 64
    ensures UrlSafe([Std(a), Std(b), Std(c), Std(d)]) == [Url(a), Url(b), Url(c), Url(d)]
    ensures UrlSafe([Std(a), Std(b), Std(c), '=']) == [Url(a), Url(b), Url(c), '=']
    ensures UrlSafe([Std(a), Std(b), '=', '=']) == [Url(a), Url(b), '=', '=']
  {
  }

  lemma UrlSafeAppend(a: string, b: string)
    ensures UrlSafe(a + b) == UrlSafe(a) + UrlSafe(b)
  {
  }

  /** Stripping the padding after an encoding leaves exactly the encoding. */
  lemma StripAfterUrl(u: string, pad: string)
    requires pad == "" || pad == "=" || pad == "=="
    requires forall c :: c in u ==> IsUrlChar(c)
    ensures StripPadding(u + pad) == u
  {
    if u != [] {
      assert u[|u| - 1] in u;
    }
    if pad == "=" {
      StripOne(u);
    } else if pad == "==" {
      StripOne(u + "=");
      StripOne(u);
      assert u + pad == (u + "=") + "=";
    } else {
      assert u + pad == u;
    }
  }

  lemma StripOne(u: string)
    ensures StripPadding(u + "=") == StripPadding(u)
  {
    var s := u + "=";
    assert s[|s| - 1] == '=';
    assert s[..|s| - 1] == u;
  }

  // ---------------------------------------------------------------------------
  // Properties of the key
  // ---------------------------------------------------------------------------

  /** A 32-byte SHA-256 digest becomes a 43-character key. */
  lemma DigestKeyLength(d: seq<Byte>)
    requires |d| == 32
    ensures |UrlEncode(d)| == 43
  {
  }

  // ---------------------------------------------------------------------------
  // The inverse
  // ---------------------------------------------------------------------------

  /** Position of c in the alphabet of section 5 of RFC 4648. */
  function UrlIndex(c: char): (r: Option<int>)
    ensures r.Some? ==> 0 <= r.value < 64 && Url(r.value) == c
  {
    if 'A' <= c <= 'Z' then Some(c as int - 'A' as int)
    else if 'a' <= c <= 'z' then Some(c as int - 'a' as int + 26)
    else if '0' <= c <= '9' then Some(c as int - '0' as int + 52)
    else if c == '-' then Some(62)
    else if c == '_' then Some(63)
    else None
  }

  lemma UrlIndexOfUrl(v: int)
    requires 0 <= v < 64
    ensures UrlIndex(Url(v)) == Some(v)
  {
  }

  /** The bytes of a group from its 6-bit values. */
  function Join4(a: int, b: int, c: int, d: int): (Byte, Byte, Byte)
    requires 0 <= a < 64 && 0 <= b < 64 && 0 <= c < 64 && 0 <= d < 64
  {
    (a * 4 + b / 16, (b % 16) * 16 + c / 4, (c % 4) * 64 + d)
  }

  lemma Join4Split3(b0: Byte, b1: Byte, b2: Byte)
    ensures var v := Split3(b0, b1, b2); Join4(v.0, v.1, v.2, v.3) == (b0, b1, b2)
  {
    var v := Split3(b0, b1, b2);
    assert v.1 / 16 == b0 % 4 && v.1 % 16 == b1 / 16;
    assert v.2 / 4 == b1 % 16 && v.2 % 4 == b2 / 64;
  }

  /** A base64url decoder: groups of four characters, then a tail of two or three. */
  function UrlDecode(s: string): Option<seq<Byte>>
    decreases |s|
  {
    if |s| >= 4 then
      match (UrlIndex(s[0]), UrlIndex(s[1]), UrlIndex(s[2]), UrlIndex(s[3]), UrlDecode(s[4..]))
      case (Some(a), Some(b), Some(c), Some(d), Some(rest)) =>
        var g := Join4(a, b, c, d); Some([g.0, g.1, g.2] + rest)
      case _ => None
    else if |s| == 3 then
      match (UrlIndex(s[0]), UrlIndex(s[1]), UrlIndex(s[2]))
      case (Some(a), Some(b), Some(c)) => var g := Join4(a, b, c, 0); Some([g.0, g.1])
      case _ => None
    else if |s| == 2 then
      match (UrlIndex(s[0]), UrlIndex(s[1]))
      case (Some(a), Some(b)) => var g := Join4(a, b, 0, 0); Some([g.0])
      case _ => None
    else if |s| == 1 then None
    else Some([])
  }

  /** Decoding inverts the key encoding. */
  lemma {:induction false} DecodeEncode(b: seq<Byte>)
    ensures UrlDecode(UrlEncode(b)) == Some(b)
    decreases |b|
  {
    if |b| >= 3 {
      DecodeEncode(b[3..]);
      DecodeFullGroup(b);
    } else if |b| == 2 {
      DecodeTail2(b[0], b[1]);
      PairOf(b);
    } else if |b| == 1 {
      DecodeTail1(b[0]);
      PairOf(b);
    }
  }

  lemma DecodeFullGroup(b: seq<Byte>)
    requires |b| >= 3 && UrlDecode(UrlEncode(b[3..])) == Some(b[3..])
    ensures UrlDecode(UrlEncode(b)) == Some(b)
  {
    var v := Split3(b[0], b[1], b[2]);
    Join4Split3(b[0], b[1], b[2]);
    DecodeGroup(v.0, v.1, v.2, v.3, UrlEncode(b[3..]));
    assert UrlEncode(b) == [Url(v.0), Url(v.1), Url(v.2), Url(v.3)] + UrlEncode(b[3..]);
    HeadThree(b);
  }

  lemma PairOf<T>(b: seq<T>)
    ensures |b| == 2 ==> b == [b[0], b[1]]
    ensures |b| == 1 ==> b == [b[0]]
  {
  }

  lemma HeadThree<T>(b: seq<T>)
    requires |b| >= 3
    ensures b == [b[0], b[1], b[2]] + b[3..]
  {
    assert b[..3] == [b[0], b[1], b[2]];
    assert b == b[..3] + b[3..];
  }

  lemma DecodeTail2(b0: Byte, b1: Byte)
    ensures UrlDecode(UrlEncode([b0, b1])) == Some([b0, b1])
  {
    var v := Split3(b0, b1, 0);
    Join4Split3(b0, b1, 0);
    DecodeThree(v.0, v.1, v.2);
    assert UrlEncode([b0, b1]) == [Url(v.0), Url(v.1), Url(v.2)];
  }

  lemma DecodeTail1(b0: Byte)
    ensures UrlDecode(UrlEncode([b0])) == Some([b0])
  {
    var v := Split3(b0, 0, 0);
    Join4Split3(b0, 0, 0);
    DecodeTwo(v.0, v.1);
    assert UrlEncode([b0]) == [Url(v.0), Url(v.1)];
  }

  /** Four characters of the alphabet decode to the three bytes of their values. */
  lemma DecodeGroup(a: int, b: int, c: int, d: int, rest: string)
    requires 0 <= a < 64 && 0 <= b < 64 && 0 <= c < 64 && 0 <= d < 64
    ensures var g := Join4(a, b, c, d);
      UrlDecode([Url(a), Url(b), Url(c), Url(d)] + rest) ==
        match UrlDecode(rest)
        case None => None
        case Some(r) => Some([g.0, g.1, g.2] + r)
  {
    var s := [Url(a), Url(b), Url(c), Url(d)] + rest;
    UrlIndexOfUrl(a);
    UrlIndexOfUrl(b);
    UrlIndexOfUrl(c);
    UrlIndexOfUrl(d);
    assert s[0] == Url(a) && s[1] == Url(b) && s[2] == Url(c) && s[3] == Url(d);
    assert s[4..] == rest;
  }

  lemma DecodeThree(a: int, b: int, c: int)
    requires 0 <= a < 64 && 0 <= b < 64 && 0 <= c < 64
    ensures var g := Join4(a, b, c, 0); UrlDecode([Url(a), Url(b), Url(c)]) == Some([g.0, g.1])
  {
    var s := [Url(a), Url(b), Url(c)];
    UrlIndexOfUrl(a);
    UrlIndexOfUrl(b);
    UrlIndexOfUrl(c);
  }

  lemma DecodeTwo(a: int, b: int)
    requires 0 <= a < 64 && 0 <= b < 64
    ensures var g := Join4(a, b, 0, 0); UrlDecode([Url(a), Url(b)]) == Some([g.0])
  {
    var s := [Url(a), Url(b)];
    UrlIndexOfUrl(a);
    UrlIndexOfUrl(b);
  }

  /** Distinct digests give distinct keys. */
  lemma UrlEncodeInjective(a: seq<Byte>, b: seq<Byte>)
    ensures UrlEncode(a) == UrlEncode(b) ==> a == b
  {
    DecodeEncode(a);
    DecodeEncode(b);
  }

  // ---------------------------------------------------------------------------
  // hashKey and ttsCacheKey
  // ---------------------------------------------------------------------------

  /** The text that `ttsCacheKey` hashes. */
  function KeyInput(voiceId: string, say: string): (t: string)
    ensures |t| == |voiceId| + 1 + |say| && t[|voiceId|] == ':'
    ensures t[..|voiceId|] == voiceId && t[|voiceId| + 1..] == say
  {
    voiceId + ":" + say
  }

  /** `hashKey(input)`: the digest of the input in base64url. */
  method HashKey(digest: string -> seq<Byte>, input: string) returns (key: string)
    ensures key == UrlEncode(digest(input))
  {
    key := ToBase64Url(digest(input));
  }

  /** `ttsCacheKey(voiceId, say)`. */
  method TtsCacheKey(digest: string -> seq<Byte>, voiceId: string, say: string) returns (key: string)
    ensures key == UrlEncode(digest(KeyInput(voiceId, say)))
  {
    key := HashKey(digest, KeyInput(voiceId, say));
  }

  /**
   * Two pairs that hash to different digests get different keys; the pairs
   * themselves are not separated when the voice id holds a ':' — ("a:b", "c")
   * and ("a", "b:c") hash the same text.
   */
  lemma KeysSeparateDigests(digest: string -> seq<Byte>, v1: string, s1: string, v2: string, s2: string)
    ensures digest(KeyInput(v1, s1)) != digest(KeyInput(v2, s2)) ==>
      UrlEncode(digest(KeyInput(v1, s1))) != UrlEncode(digest(KeyInput(v2, s2)))
  {
    UrlEncodeInjective(digest(KeyInput(v1, s1)), digest(KeyInput(v2, s2)));
  }

  lemma ColonInVoiceIdCollides()
    ensures KeyInput("a:b", "c") == KeyInput("a", "b:c")
  {
  }
}
