/**
 * The bytes the notification mail is sent as: `Buffer.from(message)` (UTF-8),
 * then `.toString('base64')`, then the URL-safe rewrite Gmail asks for
 * (`+` to `-`, `/` to `_`, trailing `=` dropped). Decoding functions are the
 * partners that show no information is lost on the way.
 */
module Encoding {
  import opened Wrappers
  import opened Text

  type byte = x: int | 0 <= x < 256

  // ------------------------------------------------------------ UTF-8

  /** A Unicode scalar value: what a Dafny `char` holds. */
  predicate IsScalar(n: int)
  {
    (0 <= n < 0xD800) || (0xE000 <= n < 0x11_0000)
  }

  predicate IsContinuation(b: byte)
  {
    0x80 <= b < 0xC0
  }

  /** The UTF-8 bytes of one character, shortest form. */
  function EncodeChar(c: char): (bs: seq<byte>)
    ensures 1 <= |bs| <= 4
    ensures |bs| == 1 <==> c as int < 0x80
    ensures forall i :: 1 <= i < |bs| ==> IsContinuation(bs[i])
  {
    var n := c as int;
    if n < 0x80 then [n]
    else if n < 0x800 then [0xC0 + n / 64, 0x80 + n % 64]
    else if n < 0x1_0000 then [0xE0 + n / 4096, 0x80 + (n / 64) % 64, 0x80 + n % 64]
    else [0xF0 + n / 262144, 0x80 + (n / 4096) % 64, 0x80 + (n / 64) % 64, 0x80 + n % 64]
  }

  /** `Buffer.from(s)` for a string of scalar values. */
  function Utf8Encode(s: string): (bs: seq<byte>)
    ensures |s| <= |bs| <= 4 * |s|
  {
    if s == [] then [] else EncodeChar(s[0]) + Utf8Encode(s[1..])
  }

  /** How many bytes the sequence led by `b` takes, or 0 for a byte that
      cannot start one. */
  function LeadLength(b: byte): nat
  {
    if b < 0x80 then 1
    else if b < 0xC2 then 0
    else if b < 0xE0 then 2
    else if b < 0xF0 then 3
    else if b < 0xF5 then 4
    else 0
  }

  /** The value of the `k`-byte sequence at the start of `bs`. */
  function SequenceValue(bs: seq<byte>, k: nat): int
    requires 1 <= k <= 4 && k <= |bs|
  {
    if k == 1 then bs[0]
    else if k == 2 then (bs[0] as int - 0xC0) * 64 + (bs[1] as int - 0x80)
    else if k == 3 then (bs[0] as int - 0xE0) * 4096 + (bs[1] as int - 0x80) * 64 + (bs[2] as int - 0x80)
    else ((bs[0] as int - 0xF0) * 262144 + (bs[1] as int - 0x80) * 4096 + (bs[2] as int - 0x80) * 64
          + (bs[3] as int - 0x80))
  }

  /** The smallest value a `k`-byte sequence may carry (anything less is overlong). */
  function MinValue(k: nat): int
  {
    if k <= 1 then 0 else if k == 2 then 0x80 else if k == 3 then 0x800 else 0x1_0000
  }

  /** Reads one character off the front of `bs`: the character and the bytes it
      took, or `None` for a malformed, overlong or surrogate sequence. */
  function DecodeChar(bs: seq<byte>): (r: Option<(char, nat)>)
    requires bs != []
    ensures r.Some? ==> 1 <= r.value.1 <= |bs|
  {
    var k := LeadLength(bs[0]);
    if k == 0 || |bs| < k || exists i :: 1 <= i < k && !IsContinuation(bs[i]) then None
    else
      var n := SequenceValue(bs, k);
      if n < MinValue(k) || !IsScalar(n) then None else Some((n as char, k))
  }

  /** UTF-8 decoding; `None` when the bytes are not well-formed UTF-8. */
  function Utf8Decode(bs: seq<byte>): Option<string>
    decreases |bs|
  {
    if bs == [] then Some("")
    else
      match DecodeChar(bs)
      case None => None
      case Some((c, k)) =>
        match Utf8Decode(bs[k..])
        case None => None
        case Some(rest) => Some([c] + rest)
  }

  lemma TwoByteValue(n: int)
    requires 0x80 <= n < 0x800
    ensures (n / 64) * 64 + n % 64 == n && 0xC2 <= 0xC0 + n / 64 < 0xE0
  {
  }

  lemma ThreeByteValue(n: int)
    requires 0x800 <= n < 0x1_0000
    ensures (n / 4096) * 4096 + ((n / 64) % 64) * 64 + n % 64 == n && 0xE0 <= 0xE0 + n / 4096 < 0xF0
  {
    assert n / 64 == (n / 4096) * 64 + (n / 64) % 64;
  }

  lemma FourByteValue(n: int)
    requires 0x1_0000 <= n < 0x11_0000
    ensures (n / 262144) * 262144 + ((n / 4096) % 64) * 4096 + ((n / 64) % 64) * 64 + n % 64 == n
    ensures 0xF0 <= 0xF0 + n / 262144 < 0xF5
  {
    assert n / 64 == (n / 4096) * 64 + (n / 64) % 64;
    assert n / 4096 == (n / 262144) * 64 + (n / 4096) % 64;
  }

  /** One character's bytes read back as that character, whatever follows. */
  lemma DecodeEncodedChar(c: char, rest: seq<byte>)
    ensures DecodeChar(EncodeChar(c) + rest) == Some((c, |EncodeChar(c)|))
  {
    var n := c as int;
    var e := EncodeChar(c);
    var bs := e + rest;
    var k := |e|;
    assert IsScalar(n);
    assert forall i :: 0 <= i < k ==> bs[i] == e[i];
    assert !exists i :: 1 <= i < k && !IsContinuation(bs[i]);
    if n < 0x80 {
    } else if n < 0x800 {
      TwoByteValue(n);
      assert LeadLength(bs[0]) == 2 && SequenceValue(bs, 2) == n;
    } else if n < 0x1_0000 {
      ThreeByteValue(n);
      assert LeadLength(bs[0]) == 3 && SequenceValue(bs, 3) == n;
    } else {
      FourByteValue(n);
      assert LeadLength(bs[0]) == 4 && SequenceValue(bs, 4) == n;
    }
    assert (n as char) == c;
  }

  /** Decoding undoes `Buffer.from`: no character is lost or changed. */
  lemma {:induction false} Utf8RoundTrip(s: string)
    ensures Utf8Decode(Utf8Encode(s)) == Some(s)
  {
    if s != [] {
      var bs := Utf8Encode(s);
      var head := EncodeChar(s[0]);
      DecodeEncodedChar(s[0], Utf8Encode(s[1..]));
      assert bs[|head|..] == Utf8Encode(s[1..]);
      Utf8RoundTrip(s[1..]);
      assert [s[0]] + s[1..] == s;
    }
  }

  /** ASCII text is its own encoding, one byte per character. */
  lemma {:induction false} AsciiEncoding(s: string)
    requires forall i :: 0 <= i < |s| ==> s[i] as int < 0x80
    ensures |Utf8Encode(s)| == |s|
    ensures forall i :: 0 <= i < |s| ==> Utf8Encode(s)[i] == s[i] as int
  {
    if s != [] {
      AsciiEncoding(s[1..]);
      assert forall i :: 1 <= i < |s| ==> s[i] == s[1..][i - 1];
    }
  }

  // ------------------------------------------------------------ base64

  /** The standard alphabet: `A-Z a-z 0-9 + /`. */
  function Digit(v: nat): (c: char)
    requires v < 64
  {
    if v < 26 then ('A' as int + v) as char
    else if v < 52 then ('a' as int + v - 26) as char
    else if v < 62 then ('0' as int + v - 52) as char
    else if v == 62 then '+'
    else '/'
  }

  /** The URL-safe alphabet: `A-Z a-z 0-9 - _`. */
  function UrlDigit(v: nat): (c: char)
    requires v < 64
  {
    if v == 62 then '-' else if v == 63 then '_' else Digit(v)
  }

  predicate IsUrlDigit(c: char)
  {
    ('A' <= c <= 'Z') || ('a' <= c <= 'z') || ('0' <= c <= '9') || c == '-' || c == '_'
  }

  /** The value a URL-safe digit stands for. */
  function UrlValue(c: char): (r: Option<nat>)
    ensures r.Some? <==> IsUrlDigit(c)
    ensures r.Some? ==> r.value < 64
  {
    if 'A' <= c <= 'Z' then Some(c as int - 'A' as int)
    else if 'a' <= c <= 'z' then Some(c as int - 'a' as int + 26)
    else if '0' <= c <= '9' then Some(c as int - '0' as int + 52)
    else if c == '-' then Some(62)
    else if c == '_' then Some(63)
    else None
  }

  lemma UrlDigitRoundTrip(v: nat)
    requires v < 64
    ensures IsUrlDigit(UrlDigit(v)) && UrlValue(UrlDigit(v)) == Some(v)
  {
  }

  /** Three bytes as four 6-bit digit values. */
  function Sextets(x: byte, y: byte, z: byte): (r: (nat, nat, nat, nat))
    ensures r.0 < 64 && r.1 < 64 && r.2 < 64 && r.3 < 64
  {
    (x / 4, (x % 4) * 16 + y / 16, (y % 16) * 4 + z / 64, z % 64)
  }

  /** `Buffer.toString('base64')`: four digits per three bytes, the last group
      padded with `=` to four characters. */
  function Base64(bs: seq<byte>): (s: string)
    ensures |s| % 4 == 0 && (bs == [] <==> s == [])
  {
    if |bs| == 0 then ""
    else if |bs| == 1 then
      var q := Sextets(bs[0], 0, 0);
      [Digit(q.0), Digit(q.1), '=', '=']
    else if |bs| == 2 then
      var q := Sextets(bs[0], bs[1], 0);
      [Digit(q.0), Digit(q.1), Digit(q.2), '=']
    else
      Quad(bs[0], bs[1], bs[2]) + Base64(bs[3..])
  }

  /** The four standard digits of a full group. */
  function Quad(x: byte, y: byte, z: byte): (s: string)
    ensures |s| == 4
  {
    var q := Sextets(x, y, z);
    [Digit(q.0), Digit(q.1), Digit(q.2), Digit(q.3)]
  }

  /** `s.replace(/<from>/g, to)` for one character. */
  function ReplaceAll(s: string, from: char, to: char): (r: string)
    ensures |r| == |s|
    ensures forall i :: 0 <= i < |s| ==> r[i] == if s[i] == from then to else s[i]
  {
    seq(|s|, i requires 0 <= i < |s| => if s[i] == from then to else s[i])
  }

  /** `s.replace(/=+$/, '')`. */
  function StripPadding(s: string): (r: string)
    ensures IsPrefix(r, s) && (r == [] || r[|r| - 1] != '=')
    ensures forall i :: |r| <= i < |s| ==> s[i] == '='
  {
    if s != [] && s[|s| - 1] == '=' then StripPadding(s[..|s| - 1]) else s
  }

  /** The encoded message as the server sends it. */
  function Base64Url(bs: seq<byte>): string
  {
    StripPadding(ReplaceAll(ReplaceAll(Base64(bs), '+', '-'), '/', '_'))
  }

  /** The digits a final short group of `n % 3` bytes leaves out, as the
      padding that stands in for them, and how many digits it does keep. */
  function Pad(n: nat): (string, nat)
  {
    if n % 3 == 1 then ("==", 2) else if n % 3 == 2 then ("=", 3) else ("", 0)
  }

  lemma PadShift(n: nat)
    ensures Pad(n + 3) == Pad(n)
  {
  }

  /** The URL-safe encoding written out group by group, without padding. */
  function UrlGroups(bs: seq<byte>): (s: string)
    ensures forall c <- s :: IsUrlDigit(c)
    ensures |s| == 4 * (|bs| / 3) + Pad(|bs|).1
  {
    if |bs| == 0 then ""
    else if |bs| == 1 then
      var q := Sextets(bs[0], 0, 0);
      UrlDigitRoundTrip(q.0); UrlDigitRoundTrip(q.1);
      [UrlDigit(q.0), UrlDigit(q.1)]
    else if |bs| == 2 then
      var q := Sextets(bs[0], bs[1], 0);
      UrlDigitRoundTrip(q.0); UrlDigitRoundTrip(q.1); UrlDigitRoundTrip(q.2);
      [UrlDigit(q.0), UrlDigit(q.1), UrlDigit(q.2)]
    else
      UrlQuad(bs[0], bs[1], bs[2]) + UrlGroups(bs[3..])
  }

  /** The four URL-safe digits of a full group. */
  function UrlQuad(x: byte, y: byte, z: byte): (s: string)
    ensures |s| == 4 && forall c <- s :: IsUrlDigit(c)
  {
    var q := Sextets(x, y, z);
    UrlDigitRoundTrip(q.0); UrlDigitRoundTrip(q.1); UrlDigitRoundTrip(q.2); UrlDigitRoundTrip(q.3);
    [UrlDigit(q.0), UrlDigit(q.1), UrlDigit(q.2), UrlDigit(q.3)]
  }

  /** One standard digit rewritten the URL-safe way. */
  function RewriteChar(c: char): char
  {
    if c == '+' then '-' else if c == '/' then '_' else c
  }

  /** The two `replace` calls of the source, as one pass. */
  function UrlRewrite(s: string): (r: string)
    ensures r == ReplaceAll(ReplaceAll(s, '+', '-'), '/', '_')
  {
    if s == [] then [] else [RewriteChar(s[0])] + UrlRewrite(s[1..])
  }

  lemma {:induction false} RewriteAppend(a: string, b: string)
    ensures UrlRewrite(a + b) == UrlRewrite(a) + UrlRewrite(b)
  {
    if a != [] {
      assert (a + b)[1..] == a[1..] + b;
      RewriteAppend(a[1..], b);
    }
  }

  /** The three rewrite steps of the source give exactly the unpadded
      URL-safe digits. */
  lemma Base64UrlIsUrlGroups(bs: seq<byte>)
    ensures Base64Url(bs) == UrlGroups(bs)
  {
    RewritesToGroups(bs);
    PaddingStripped(UrlGroups(bs), Pad(|bs|).0);
  }

  /** The digits of one full group, rewritten. */
  lemma RewriteGroup(x: byte, y: byte, z: byte)
    ensures UrlRewrite(Quad(x, y, z)) == UrlQuad(x, y, z)
  {
    var q := Sextets(x, y, z);
    assert Quad(x, y, z) == [Digit(q.0), Digit(q.1), Digit(q.2), Digit(q.3)];
    assert UrlQuad(x, y, z) == [UrlDigit(q.0), UrlDigit(q.1), UrlDigit(q.2), UrlDigit(q.3)];
    RewriteFour(Quad(x, y, z));
    RewriteDigit(q.0);
    RewriteDigit(q.1);
    RewriteDigit(q.2);
    RewriteDigit(q.3);
  }

  /** Before the padding is dropped: the URL-safe groups followed by the `=`s. */
  lemma {:induction false} RewritesToGroups(bs: seq<byte>)
    ensures UrlRewrite(Base64(bs)) == UrlGroups(bs) + Pad(|bs|).0
    decreases |bs|
  {
    if |bs| == 1 {
      RewriteOneByteGroup(bs);
    } else if |bs| == 2 {
      RewriteTwoByteGroup(bs);
    } else if |bs| >= 3 {
      RewritesToGroups(bs[3..]);
      RewriteFullGroup(bs);
    }
  }

  /** A full first group, rewritten, in front of the rest rewritten. */
  lemma RewriteFullGroup(bs: seq<byte>)
    requires |bs| >= 3
    requires UrlRewrite(Base64(bs[3..])) == UrlGroups(bs[3..]) + Pad(|bs[3..]|).0
    ensures UrlRewrite(Base64(bs)) == UrlGroups(bs) + Pad(|bs|).0
  {
    var rest := bs[3..];
    var head, urlHead := Quad(bs[0], bs[1], bs[2]), UrlQuad(bs[0], bs[1], bs[2]);
    assert Pad(|bs|) == Pad(|rest|) by {
      assert |rest| + 3 == |bs|;
      PadShift(|rest|);
    }
    calc {
      UrlRewrite(Base64(bs));
      UrlRewrite(head + Base64(rest));
      { RewriteAppend(head, Base64(rest)); }
      UrlRewrite(head) + UrlRewrite(Base64(rest));
      { RewriteGroup(bs[0], bs[1], bs[2]); }
      urlHead + (UrlGroups(rest) + Pad(|rest|).0);
      (urlHead + UrlGroups(rest)) + Pad(|rest|).0;
      UrlGroups(bs) + Pad(|bs|).0;
    }
  }


  /** The digits of a last group of one byte, rewritten, with their padding. */
  lemma RewriteOneByteGroup(bs: seq<byte>)
    requires |bs| == 1
    ensures UrlRewrite(Base64(bs)) == UrlGroups(bs) + Pad(|bs|).0
  {
    var q := Sextets(bs[0], 0, 0);
    assert Base64(bs) == [Digit(q.0), Digit(q.1), '=', '='];
    assert UrlGroups(bs) == [UrlDigit(q.0), UrlDigit(q.1)];
    RewriteTwoDigits(q.0, q.1);
  }

  /** The digits of a last group of two bytes, rewritten, with their padding. */
  lemma RewriteTwoByteGroup(bs: seq<byte>)
    requires |bs| == 2
    ensures UrlRewrite(Base64(bs)) == UrlGroups(bs) + Pad(|bs|).0
  {
    var q := Sextets(bs[0], bs[1], 0);
    assert Base64(bs) == [Digit(q.0), Digit(q.1), Digit(q.2), '='];
    assert UrlGroups(bs) == [UrlDigit(q.0), UrlDigit(q.1), UrlDigit(q.2)];
    RewriteThreeDigits(q.0, q.1, q.2);
  }

  /** Two digits and two `=`s, rewritten. */
  lemma RewriteTwoDigits(a: nat, b: nat)
    requires a < 64 && b < 64
    ensures UrlRewrite([Digit(a), Digit(b), '=', '=']) == [UrlDigit(a), UrlDigit(b)] + "=="
  {
    RewriteFour([Digit(a), Digit(b), '=', '=']);
    RewriteDigit(a);
    RewriteDigit(b);
  }

  /** Three digits and one `=`, rewritten. */
  lemma RewriteThreeDigits(a: nat, b: nat, c: nat)
    requires a < 64 && b < 64 && c < 64
    ensures UrlRewrite([Digit(a), Digit(b), Digit(c), '=']) == [UrlDigit(a), UrlDigit(b), UrlDigit(c)] + "="
  {
    RewriteFour([Digit(a), Digit(b), Digit(c), '=']);
    RewriteDigit(a);
    RewriteDigit(b);
    RewriteDigit(c);
  }

  /** Four characters rewritten one by one. */
  lemma RewriteFour(d: string)
    requires |d| == 4
    ensures UrlRewrite(d) == [RewriteChar(d[0]), RewriteChar(d[1]), RewriteChar(d[2]), RewriteChar(d[3])]
  {
    assert d[1..][1..][1..][1..] == [];
  }

  /** A standard digit rewritten is the URL-safe digit of the same value. */
  lemma RewriteDigit(v: nat)
    requires v < 64
    ensures RewriteChar(Digit(v)) == UrlDigit(v)
  {
  }

  lemma {:induction false} PaddingStripped(g: string, pad: string)
    requires forall c <- g :: IsUrlDigit(c)
    requires forall c <- pad :: c == '='
    ensures StripPadding(g + pad) == g
    decreases |pad|
  {
    if pad == [] {
      assert g + pad == g;
      if g != [] {
        assert g[|g| - 1] in g;
      }
    } else {
      assert pad[|pad| - 1] in pad;
      assert (g + pad)[..|g + pad| - 1] == g + pad[..|pad| - 1];
      var shorter := pad[..|pad| - 1];
      assert forall i :: 0 <= i < |shorter| ==> shorter[i] == pad[i];
      assert forall c <- shorter :: c == '=' by {
        forall c <- shorter ensures c == '=' {
          var i :| 0 <= i < |shorter| && shorter[i] == c;
          assert pad[i] in pad;
        }
      }
      PaddingStripped(g, pad[..|pad| - 1]);
    }
  }

  /** Four digit values back to three bytes. */
  function Octets(a: nat, b: nat, c: nat, d: nat): (byte, byte, byte)
    requires a < 64 && b < 64 && c < 64 && d < 64
  {
    (a * 4 + b / 16, (b % 16) * 16 + c / 4, (c % 4) * 64 + d)
  }

  lemma OctetsOfSextets(x: byte, y: byte, z: byte)
    ensures var q := Sextets(x, y, z); Octets(q.0, q.1, q.2, q.3) == (x, y, z)
  {
    assert ((x % 4) * 16 + y / 16) / 16 == x % 4;
    assert (((x % 4) * 16 + y / 16) % 16) * 16 + ((y % 16) * 4 + z / 64) / 4 == y;
    assert (((y % 16) * 4 + z / 64) % 4) * 64 + z % 64 == z;
  }

  /** The bytes one group of `|g|` digits (2, 3 or 4) stands for. */
  function DecodeGroup(g: string): (r: Option<seq<byte>>)
    requires 2 <= |g| <= 4
    ensures r.Some? ==> |r.value| == |g| - 1
  {
    if !(forall c <- g :: IsUrlDigit(c)) then None
    else
      var a, b := UrlValue(g[0]).value, UrlValue(g[1]).value;
      var c := if |g| >= 3 then UrlValue(g[2]).value else 0;
      var d := if |g| == 4 then UrlValue(g[3]).value else 0;
      var o := Octets(a, b, c, d);
      Some(if |g| == 2 then [o.0] else if |g| == 3 then [o.0, o.1] else [o.0, o.1, o.2])
  }

  /** Decodes unpadded URL-safe base64; `None` on a character outside the
      alphabet or a length no encoding has. */
  function FromBase64Url(s: string): Option<seq<byte>>
    decreases |s|
  {
    if s == [] then Some([])
    else if |s| == 1 then None
    else
      var k := if |s| >= 4 then 4 else |s|;
      match DecodeGroup(s[..k])
      case None => None
      case Some(group) =>
        match FromBase64Url(s[k..])
        case None => None
        case Some(rest) => Some(group + rest)
  }

  /** The digits of a group decode to the bytes they were made from. */
  lemma DecodeFullGroup(x: byte, y: byte, z: byte)
    ensures DecodeGroup(UrlQuad(x, y, z)) == Some([x, y, z])
  {
    var q := Sextets(x, y, z);
    var g := [UrlDigit(q.0), UrlDigit(q.1), UrlDigit(q.2), UrlDigit(q.3)];
    UrlDigitRoundTrip(q.0);
    UrlDigitRoundTrip(q.1);
    UrlDigitRoundTrip(q.2);
    UrlDigitRoundTrip(q.3);
    assert forall c <- g :: IsUrlDigit(c);
    assert UrlValue(g[0]).value == q.0;
    assert UrlValue(g[1]).value == q.1;
    assert UrlValue(g[2]).value == q.2;
    assert UrlValue(g[3]).value == q.3;
    OctetsOfSextets(x, y, z);
  }

  lemma DecodeTwoByteGroup(x: byte, y: byte)
    ensures var q := Sextets(x, y, 0);
      DecodeGroup([UrlDigit(q.0), UrlDigit(q.1), UrlDigit(q.2)]) == Some([x, y])
  {
    var q := Sextets(x, y, 0);
    var g := [UrlDigit(q.0), UrlDigit(q.1), UrlDigit(q.2)];
    UrlDigitRoundTrip(q.0);
    UrlDigitRoundTrip(q.1);
    UrlDigitRoundTrip(q.2);
    assert forall c <- g :: IsUrlDigit(c);
    assert UrlValue(g[0]).value == q.0;
    assert UrlValue(g[1]).value == q.1;
    assert UrlValue(g[2]).value == q.2;
    OctetsOfSextets(x, y, 0);
  }

  lemma DecodeOneByteGroup(x: byte)
    ensures var q := Sextets(x, 0, 0);
      DecodeGroup([UrlDigit(q.0), UrlDigit(q.1)]) == Some([x])
  {
    var q := Sextets(x, 0, 0);
    var g := [UrlDigit(q.0), UrlDigit(q.1)];
    UrlDigitRoundTrip(q.0);
    UrlDigitRoundTrip(q.1);
    assert forall c <- g :: IsUrlDigit(c);
    assert UrlValue(g[0]).value == q.0;
    assert UrlValue(g[1]).value == q.1;
    OctetsOfSextets(x, 0, 0);
  }

  lemma OneByteTail(x: byte)
    ensures FromBase64Url(UrlGroups([x])) == Some([x])
  {
    var s := UrlGroups([x]);
    var q := Sextets(x, 0, 0);
    assert s == [UrlDigit(q.0), UrlDigit(q.1)];
    DecodeOneByteGroup(x);
    assert s[..2] == s && s[2..] == [];
    assert FromBase64Url(s[2..]) == Some([]);
    assert [x] + [] == [x];
  }

  lemma TwoByteTail(x: byte, y: byte)
    ensures FromBase64Url(UrlGroups([x, y])) == Some([x, y])
  {
    var s := UrlGroups([x, y]);
    var q := Sextets(x, y, 0);
    assert s == [UrlDigit(q.0), UrlDigit(q.1), UrlDigit(q.2)];
    DecodeTwoByteGroup(x, y);
    assert s[..3] == s && s[3..] == [];
    assert FromBase64Url(s[3..]) == Some([]);
    assert [x, y] + [] == [x, y];
  }

  /** Four digits at the front are decoded as one group. */
  lemma DecodeFront(head: string, rest: string, group: seq<byte>)
    requires |head| == 4 && DecodeGroup(head) == Some(group)
    ensures FromBase64Url(head + rest) ==
      match FromBase64Url(rest)
      case None => None
      case Some(r) => Some(group + r)
  {
    var s := head + rest;
    assert s[..4] == head && s[4..] == rest;
  }

  /** A full group at the front decodes on its own. */
  lemma FullGroupFront(bs: seq<byte>)
    requires |bs| >= 3
    ensures FromBase64Url(UrlGroups(bs)) ==
      match FromBase64Url(UrlGroups(bs[3..]))
      case None => None
      case Some(rest) => Some(bs[..3] + rest)
  {
    FirstThree(bs);
    DecodeFullGroup(bs[0], bs[1], bs[2]);
    DecodeFront(UrlQuad(bs[0], bs[1], bs[2]), UrlGroups(bs[3..]), bs[..3]);
  }

  lemma FirstThree<T>(s: seq<T>)
    requires |s| >= 3
    ensures s[..3] == [s[0], s[1], s[2]]
  {
  }

  /** Decoding the URL-safe groups gives the bytes back. */
  lemma {:induction false} UrlGroupsRoundTrip(bs: seq<byte>)
    ensures FromBase64Url(UrlGroups(bs)) == Some(bs)
    decreases |bs|
  {
    if |bs| == 1 {
      assert bs == [bs[0]];
      OneByteTail(bs[0]);
    } else if |bs| == 2 {
      assert bs == [bs[0], bs[1]];
      TwoByteTail(bs[0], bs[1]);
    } else if |bs| >= 3 {
      FullGroupFront(bs);
      UrlGroupsRoundTrip(bs[3..]);
      assert bs[..3] + bs[3..] == bs;
    }
  }

  /** What the server sends decodes back to the bytes it encoded. */
  lemma Base64UrlRoundTrip(bs: seq<byte>)
    ensures FromBase64Url(Base64Url(bs)) == Some(bs)
  {
    Base64UrlIsUrlGroups(bs);
    UrlGroupsRoundTrip(bs);
  }

  /** The sent text uses only the URL-safe alphabet: no `+`, `/` or `=`, and
      it is as long as unpadded base64. */
  lemma Base64UrlAlphabet(bs: seq<byte>)
    ensures forall c <- Base64Url(bs) :: IsUrlDigit(c)
    ensures |Base64Url(bs)| == (4 * |bs| + 2) / 3
  {
    Base64UrlIsUrlGroups(bs);
  }

  /** `Buffer.from(message).toString('base64')` rewritten URL-safe. */
  function EncodeMessage(message: string): string
  {
    Base64Url(Utf8Encode(message))
  }

  /** The receiver gets the message text back exactly. */
  lemma MessageRoundTrip(message: string)
    ensures var bytes := FromBase64Url(EncodeMessage(message));
      bytes.Some? && Utf8Decode(bytes.value) == Some(message)
  {
    Base64UrlRoundTrip(Utf8Encode(message));
    Utf8RoundTrip(message);
  }
}
