/** The conversion of the server's VAPID public key in
    src/utils/notification.utils.js: a base64url string
    (section 5 of RFC 4648, padding omitted) is padded, mapped to the
    base64 alphabet of section 4 of RFC 4648, decoded by `atob` into a
    binary string, and copied byte by byte into a `Uint8Array`.

    `atob` is modelled as the decoding of section 4 of RFC 4648 for a
    padded string: the length must be a multiple of 4, only the final
    quantum may carry one or two `=`, and the bits a final quantum leaves
    over are discarded. A failure is `None`, where `atob` throws. */
module PushKey {
  import opened Wrappers

  newtype byte = x: int | 0 <= x < 256

  // ---------------------------------------------------------------------
  // Padding and alphabet (lines 224-227)
  // ---------------------------------------------------------------------

  /** `(4 - (n % 4)) % 4`. */
  function PadCount(n: nat): (k: nat)
    ensures k <= 3 && (n + k) % 4 == 0
    ensures n % 4 == 0 ==> k == 0
  {
    (4 - n % 4) % 4
  }

  function Repeat(c: char, k: nat): (r: string)
    ensures |r| == k && forall i :: 0 <= i < k ==> r[i] == c
  {
    if k == 0 then [] else [c] + Repeat(c, k - 1)
  }

  /** The two characters of the alphabet of section 5 of RFC 4648 mapped to
      those of section 4 of RFC 4648. */
  function StandardChar(c: char): char {
    if c == '-' then '+' else if c == '_' then '/' else c
  }

  /** `.replace(/\-/g, '+').replace(/_/g, '/')`. */
  function ToStandard(s: string): (r: string)
    ensures |r| == |s|
    ensures forall i :: 0 <= i < |s| ==>
      && (s[i] == '-' ==> r[i] == '+')
      && (s[i] == '_' ==> r[i] == '/')
      && (s[i] != '-' && s[i] != '_' ==> r[i] == s[i])
    ensures '-' !in r && '_' !in r
  {
    seq(|s|, i requires 0 <= i < |s| => StandardChar(s[i]))
  }

  /** The string handed to `atob`. */
  function Padded(s: string): (r: string)
    ensures |r| % 4 == 0 && |r| == |s| + PadCount(|s|)
    ensures forall i :: |s| <= i < |r| ==> r[i] == '='
  {
    ToStandard(s + Repeat('=', PadCount(|s|)))
  }

  // ---------------------------------------------------------------------
  // The alphabet of section 4 of RFC 4648
  // ---------------------------------------------------------------------

  /** The 6-bit value of a character of the alphabet of
      section 4 of RFC 4648. */
  function SextetValue(c: char): Option<nat> {
    if 'A' <= c <= 'Z' then Some(c as int - 'A' as int)
    else if 'a' <= c <= 'z' then Some(c as int - 'a' as int + 26)
    else if '0' <= c <= '9' then Some(c as int - '0' as int + 52)
    else if c == '+' then Some(62)
    else if c == '/' then Some(63)
    else None
  }

  /** The character of the alphabet of section 4 of RFC 4648 for a 6-bit
      value. */
  function SextetChar(v: nat): (c: char)
    requires v < 64
    ensures SextetValue(c) == Some(v)
  {
    if v < 26 then ('A' as int + v) as char
    else if v < 52 then ('a' as int + v - 26) as char
    else if v < 62 then ('0' as int + v - 52) as char
    else if v == 62 then '+'
    else '/'
  }

  lemma SextetValueBound(c: char)
    ensures SextetValue(c).Some? ==> SextetValue(c).value < 64
  {
  }

  /** A binary string: every character code is a byte. */
  predicate IsBinary(s: string) {
    forall i :: 0 <= i < |s| ==> s[i] as int < 256
  }

  /** The binary string of a byte sequence (`String.fromCharCode` per byte). */
  function Latin1(bs: seq<byte>): (r: string)
    ensures |r| == |bs| && IsBinary(r)
    ensures forall i :: 0 <= i < |bs| ==> r[i] as int == bs[i] as int
  {
    seq(|bs|, i requires 0 <= i < |bs| => bs[i] as int as char)
  }

  // ---------------------------------------------------------------------
  // Decoding (`atob`, line 229)
  // ---------------------------------------------------------------------

  /** The three bytes of four sextets. */
  function Bytes3(v0: nat, v1: nat, v2: nat, v3: nat): (r: string)
    requires v0 < 64 && v1 < 64 && v2 < 64 && v3 < 64
    ensures |r| == 3 && IsBinary(r)
  {
    [(v0 * 4 + v1 / 16) as char, ((v1 % 16) * 16 + v2 / 4) as char, ((v2 % 4) * 64 + v3) as char]
  }

  /** A quantum of four alphabet characters, not the last one. */
  function DecodeFull(q: string): (r: Option<string>)
    requires |q| == 4
    ensures r.Some? ==> |r.value| == 3 && IsBinary(r.value)
  {
    var v0, v1, v2, v3 := SextetValue(q[0]), SextetValue(q[1]), SextetValue(q[2]), SextetValue(q[3]);
    if v0.Some? && v1.Some? && v2.Some? && v3.Some? then
      SextetValueBound(q[0]); SextetValueBound(q[1]); SextetValueBound(q[2]); SextetValueBound(q[3]);
      Some(Bytes3(v0.value, v1.value, v2.value, v3.value))
    else None
  }

  /** The final quantum: four alphabet characters, or three and `=` (two
      bytes), or two and `==` (one byte). */
  function DecodeFinal(q: string): (r: Option<string>)
    requires |q| == 4
    ensures r.Some? ==> 1 <= |r.value| <= 3 && IsBinary(r.value)
    ensures r.Some? ==> |r.value| == 3 - (if q[3] == '=' then 1 else 0) - (if q[2] == '=' then 1 else 0)
  {
    var v0, v1, v2, v3 := SextetValue(q[0]), SextetValue(q[1]), SextetValue(q[2]), SextetValue(q[3]);
    SextetValueBound(q[0]); SextetValueBound(q[1]); SextetValueBound(q[2]); SextetValueBound(q[3]);
    if v0.Some? && v1.Some? && v2.Some? && v3.Some? then
      Some(Bytes3(v0.value, v1.value, v2.value, v3.value))
    else if v0.Some? && v1.Some? && v2.Some? && q[3] == '=' then
      Some(Bytes3(v0.value, v1.value, v2.value, 0)[..2])
    else if v0.Some? && v1.Some? && q[2] == '=' && q[3] == '=' then
      Some(Bytes3(v0.value, v1.value, 0, 0)[..1])
    else None
  }

  /** `atob(s)` for a padded string of the alphabet of
      section 4 of RFC 4648: three bytes for every four characters, one
      fewer for each `=`. */
  function Atob(s: string): (r: Option<string>)
    ensures r.Some? ==> IsBinary(r.value)
    ensures r.Some? ==> |s| % 4 == 0 && |r.value| <= |s| / 4 * 3
    ensures r.Some? && |s| >= 4 ==>
      |r.value| == |s| / 4 * 3 - (if s[|s| - 1] == '=' then 1 else 0) - (if s[|s| - 2] == '=' then 1 else 0)
    decreases |s|
  {
    if s == [] then Some([])
    else if |s| < 4 then None
    else if |s| == 4 then DecodeFinal(s)
    else
      match DecodeFull(s[..4])
      case None => None
      case Some(head) =>
        match Atob(s[4..])
        case None => None
        case Some(tail) => Some(head + tail)
  }

  // ---------------------------------------------------------------------
  // Encoding, the partner of decoding
  // ---------------------------------------------------------------------

  function EncodeBlock(a: byte, b: byte, c: byte): (r: string)
    ensures |r| == 4
  {
    [SextetChar(a as int / 4), SextetChar((a as int % 4) * 16 + b as int / 16),
     SextetChar((b as int % 16) * 4 + c as int / 64), SextetChar(c as int % 64)]
  }

  /** The encoding of section 4 of RFC 4648, with padding. */
  function Encode(bs: seq<byte>): (r: string)
    ensures |r| % 4 == 0
    decreases |bs|
  {
    if |bs| >= 3 then EncodeBlock(bs[0], bs[1], bs[2]) + Encode(bs[3..])
    else if |bs| == 2 then EncodeBlock(bs[0], bs[1], 0)[..3] + "="
    else if |bs| == 1 then EncodeBlock(bs[0], 0, 0)[..2] + "=="
    else []
  }

  /** The sextets of three bytes give the three bytes back. */
  lemma Bytes3OfBlock(a: byte, b: byte, c: byte)
    ensures var v0, v1, v2, v3 := a as int / 4, (a as int % 4) * 16 + b as int / 16,
                                  (b as int % 16) * 4 + c as int / 64, c as int % 64;
      Bytes3(v0, v1, v2, v3) == Latin1([a, b, c])
  {
    var v1 := (a as int % 4) * 16 + b as int / 16;
    var v2 := (b as int % 16) * 4 + c as int / 64;
    assert v1 / 16 == a as int % 4 && v1 % 16 == b as int / 16;
    assert v2 / 4 == b as int % 16 && v2 % 4 == c as int / 64;
  }

  lemma DecodeBlock(a: byte, b: byte, c: byte)
    ensures DecodeFull(EncodeBlock(a, b, c)) == Some(Latin1([a, b, c]))
    ensures DecodeFinal(EncodeBlock(a, b, c)) == Some(Latin1([a, b, c]))
  {
    Bytes3OfBlock(a, b, c);
  }

  lemma DecodeTail2(a: byte, b: byte)
    ensures DecodeFinal(EncodeBlock(a, b, 0)[..3] + "=") == Some(Latin1([a, b]))
  {
    Bytes3OfBlock(a, b, 0);
    var q := EncodeBlock(a, b, 0)[..3] + "=";
    assert q[3] == '=' && SextetValue(q[3]).None?;
    assert Latin1([a, b, 0])[..2] == Latin1([a, b]);
  }

  lemma DecodeTail1(a: byte)
    ensures DecodeFinal(EncodeBlock(a, 0, 0)[..2] + "==") == Some(Latin1([a]))
  {
    Bytes3OfBlock(a, 0, 0);
    var q := EncodeBlock(a, 0, 0)[..2] + "==";
    assert q[2] == '=' && q[3] == '=' && SextetValue(q[3]).None? && SextetValue(q[2]).None?;
    assert Latin1([a, 0, 0])[..1] == Latin1([a]);
  }

  /** Decoding undoes encoding. */
  lemma {:induction false} AtobEncode(bs: seq<byte>)
    ensures Atob(Encode(bs)) == Some(Latin1(bs))
    decreases |bs|
  {
    var s := Encode(bs);
    if |bs| >= 3 {
      var block := EncodeBlock(bs[0], bs[1], bs[2]);
      DecodeBlock(bs[0], bs[1], bs[2]);
      assert Latin1(bs) == Latin1([bs[0], bs[1], bs[2]]) + Latin1(bs[3..]);
      if |bs| == 3 {
        assert bs[3..] == [] && s == block;
        assert bs == [bs[0], bs[1], bs[2]];
      } else {
        AtobEncode(bs[3..]);
        assert s[..4] == block && s[4..] == Encode(bs[3..]);
      }
    } else if |bs| == 2 {
      DecodeTail2(bs[0], bs[1]);
      assert Latin1(bs) == Latin1([bs[0], bs[1]]);
    } else if |bs| == 1 {
      DecodeTail1(bs[0]);
      assert Latin1(bs) == Latin1([bs[0]]);
    }
  }

  // ---------------------------------------------------------------------
  // The helper: `urlBase64ToUint8Array` (lines 223-237)
  // ---------------------------------------------------------------------

  /** What the helper produces for a key: the decoded bytes, or `None` where
      `atob` throws. */
  function KeyBytes(key: string): (r: Option<seq<byte>>)
    ensures var raw := Atob(Padded(key));
      && (r.Some? <==> raw.Some?)
      && (r.Some? ==> |r.value| == |raw.value| && forall i :: 0 <= i < |raw.value| ==> r.value[i] as int == raw.value[i] as int)
  {
    match Atob(Padded(key))
    case None => None
    case Some(raw) => Some(seq(|raw|, i requires 0 <= i < |raw| => raw[i] as int as byte))
  }

  /** The key the server sends: the encoding of section 5 of RFC 4648
      with the padding left out. */
  function EncodeUrl(bs: seq<byte>): string {
    var s := Encode(bs);
    ToUrl(StripPadding(s))
  }

  function StripPadding(s: string): (r: string)
    ensures |r| <= |s| && r == s[..|r|]
    ensures forall i :: |r| <= i < |s| ==> s[i] == '='
    ensures r != [] ==> r[|r| - 1] != '='
    decreases |s|
  {
    if s != [] && s[|s| - 1] == '=' then StripPadding(s[..|s| - 1]) else s
  }

  function UrlChar(c: char): char {
    if c == '+' then '-' else if c == '/' then '_' else c
  }

  function ToUrl(s: string): (r: string)
    ensures |r| == |s| && forall i :: 0 <= i < |s| ==> r[i] == UrlChar(s[i])
  {
    seq(|s|, i requires 0 <= i < |s| => UrlChar(s[i]))
  }

  /** The encoder pads with at most two `=` and only at the end, after a
      character of the alphabet. */
  lemma EncodeShape(bs: seq<byte>)
    ensures var s := Encode(bs);
      && (forall i :: 0 <= i < |s| && s[i] != '=' ==> SextetValue(s[i]).Some?)
      && (bs != [] ==> |StripPadding(s)| >= |s| - 2 && |StripPadding(s)| > |s| - 4)
      && (forall i :: 0 <= i < |StripPadding(s)| ==> s[i] != '=')
  {
    EncodeAlphabet(bs);
    EncodePadding(bs);
  }

  /** Every character of an encoding is `=` or of the alphabet. */
  lemma {:induction false} EncodeAlphabet(bs: seq<byte>)
    ensures forall i :: 0 <= i < |Encode(bs)| && Encode(bs)[i] != '=' ==> SextetValue(Encode(bs)[i]).Some?
    decreases |bs|
  {
    var s := Encode(bs);
    if |bs| >= 3 {
      EncodeAlphabet(bs[3..]);
      var block, rest := EncodeBlock(bs[0], bs[1], bs[2]), Encode(bs[3..]);
      assert s == block + rest;
      forall i | 0 <= i < |s| && s[i] != '=' ensures SextetValue(s[i]).Some? {
        if i >= 4 {
          assert s[i] == rest[i - 4];
        } else {
          BlockChars(bs[0], bs[1], bs[2]);
          assert s[i] == block[i];
        }
      }
    } else if bs != [] {
      var block := if |bs| == 2 then EncodeBlock(bs[0], bs[1], 0) else EncodeBlock(bs[0], 0, 0);
      forall i | 0 <= i < |s| && s[i] != '=' ensures SextetValue(s[i]).Some? {
        BlockChars(bs[0], if |bs| == 2 then bs[1] else 0, 0);
        assert s[i] == block[i];
      }
    }
  }

  /** Four characters of the alphabet, none of them padding. */
  lemma BlockChars(a: byte, b: byte, c: byte)
    ensures forall i :: 0 <= i < 4 ==> EncodeBlock(a, b, c)[i] != '=' && SextetValue(EncodeBlock(a, b, c)[i]).Some?
  {
    var r := EncodeBlock(a, b, c);
    forall i | 0 <= i < 4 ensures r[i] != '=' && SextetValue(r[i]).Some? {
      assert SextetValue(r[i]).Some?;
    }
  }

  /** The padding of an encoding is its last one or two characters. */
  lemma {:induction false} EncodePadding(bs: seq<byte>)
    ensures var s := Encode(bs);
      && (bs != [] ==> |StripPadding(s)| >= |s| - 2 && |StripPadding(s)| > |s| - 4)
      && (forall i :: 0 <= i < |StripPadding(s)| ==> s[i] != '=')
    decreases |bs|
  {
    var s := Encode(bs);
    if |bs| >= 3 {
      EncodePadding(bs[3..]);
      var block := EncodeBlock(bs[0], bs[1], bs[2]);
      var rest := Encode(bs[3..]);
      BlockChars(bs[0], bs[1], bs[2]);
      assert s == block + rest;
      if bs[3..] == [] {
        assert rest == [] && s == block;
        assert StripPadding(s) == s;
      } else {
        StripPaddingAppend(block, rest);
      }
    } else if |bs| == 2 {
      BlockChars(bs[0], bs[1], 0);
      assert StripPadding(s) == s[..3];
    } else if |bs| == 1 {
      BlockChars(bs[0], 0, 0);
      assert StripPadding(s[..3]) == s[..2];
      assert StripPadding(s) == s[..2];
    }
  }

  /** Stripping a string whose second part is not all padding strips only
      the second part. */
  lemma StripPaddingAppend(a: string, b: string)
    requires exists i :: 0 <= i < |b| && b[i] != '='
    ensures StripPadding(a + b) == a + StripPadding(b)
    decreases |b|
  {
    var i :| 0 <= i < |b| && b[i] != '=';
    if b[|b| - 1] == '=' {
      assert (a + b)[..|a + b| - 1] == a + b[..|b| - 1];
      assert b[..|b| - 1][i] != '=';
      StripPaddingAppend(a, b[..|b| - 1]);
    }
  }

  /** Undoing the alphabet change. */
  lemma StandardOfUrl(s: string)
    requires '-' !in s && '_' !in s
    ensures ToStandard(ToUrl(s)) == s
  {
  }

  /** Padding the unpadded encoding restores the padded encoding. */
  lemma PaddedEncodeUrl(bs: seq<byte>)
    ensures Padded(EncodeUrl(bs)) == Encode(bs)
  {
    var s := Encode(bs);
    var t := StripPadding(s);
    EncodeShape(bs);
    if bs != [] {
      PadCountOfStripped(|s|, |t|);
    }
    var r := Padded(ToUrl(t));
    assert |r| == |s|;
    forall i | 0 <= i < |s| ensures r[i] == s[i] {
      if i < |t| {
        assert s[i] == t[i] && SextetValue(t[i]).Some?;
      }
    }
  }

  /** Stripping at most two `=` from a length that is a multiple of 4, and
      never all four of a quantum, leaves a length that pads back to it. */
  lemma PadCountOfStripped(n: nat, m: nat)
    requires n % 4 == 0 && m <= n && n - m <= 2
    ensures PadCount(m) == n - m
  {
    var q := n / 4;
    assert n == 4 * q;
    if n - m == 1 {
      assert m == 4 * (q - 1) + 3;
    } else if n - m == 2 {
      assert m == 4 * (q - 1) + 2;
    }
  }

  /** The helper returns the key's bytes for every key the server encodes
      with section 5 of RFC 4648 and no padding. */
  lemma KeyBytesRoundTrip(bs: seq<byte>)
    ensures KeyBytes(EncodeUrl(bs)) == Some(bs)
  {
    PaddedEncodeUrl(bs);
    AtobEncode(bs);
    var r := KeyBytes(EncodeUrl(bs));
    assert r.value == bs;
  }

  /** A key of length 1 modulo 4 is never decoded. */
  lemma ShortQuantumFails(key: string)
    requires |key| % 4 == 1
    ensures KeyBytes(key).None?
  {
    var p := Padded(key);
    assert p[|p| - 3] == '=';
    AtobFinalTriple(p);
  }

  /** No quantum decodes with three `=`. */
  lemma {:induction false} AtobFinalTriple(p: string)
    requires |p| >= 4 && |p| % 4 == 0 && p[|p| - 3] == '='
    ensures Atob(p).None?
    decreases |p|
  {
    if |p| > 4 {
      assert p[4..][|p[4..]| - 3] == '=';
      AtobFinalTriple(p[4..]);
    }
  }

  /** `urlBase64ToUint8Array(key)`: `None` where the source throws, else a
      new array holding the decoded bytes, filled one index at a time. */
  method UrlBase64ToUint8Array(key: string) returns (out: Option<array<byte>>)
    ensures out.None? <==> KeyBytes(key).None?
    ensures out.Some? ==> fresh(out.value) && out.value[..] == KeyBytes(key).value
  {
    var raw := Atob(Padded(key));
    if raw.None? {
      return None;
    }
    var rawData := raw.value;
    var outputArray := new byte[|rawData|];
    for i := 0 to |rawData|
      invariant forall j :: 0 <= j < i ==> outputArray[j] as int == rawData[j] as int
    {
      outputArray[i] := rawData[i] as int as byte;
    }
    assert outputArray[..] == KeyBytes(key).value;
    return Some(outputArray);
  }

  // ---------------------------------------------------------------------
  // The key check before subscribing (lines 86-112)
  // ---------------------------------------------------------------------

  datatype SubscribeStep = Abort | SubscribeWith(applicationServerKey: seq<byte>)

  /** A missing or empty key, or one the helper cannot convert, ends the
      subscription with `false`; otherwise the push manager is asked to
      subscribe with the converted key. */
  function KeyStep(vapidPublicKey: Option<string>): (r: SubscribeStep)
    ensures vapidPublicKey.None? || vapidPublicKey == Some("") ==> r == Abort
    ensures vapidPublicKey.Some? && KeyBytes(vapidPublicKey.value).None? ==> r == Abort
    ensures r.SubscribeWith? ==> vapidPublicKey.Some? && KeyBytes(vapidPublicKey.value) == Some(r.applicationServerKey)
  {
    if vapidPublicKey.None? || vapidPublicKey.value == "" then Abort
    else match KeyBytes(vapidPublicKey.value)
      case None => Abort
      case Some(bytes) => SubscribeWith(bytes)
  }

  /** A correctly encoded non-empty key always reaches the subscribe call
      with its own bytes. */
  lemma EncodedKeySubscribes(bs: seq<byte>)
    requires bs != []
    ensures KeyStep(Some(EncodeUrl(bs))) == SubscribeWith(bs)
  {
    KeyBytesRoundTrip(bs);
    EncodeShape(bs);
    assert EncodeUrl(bs) != "";
  }
}
