/**
 Base 64 in four dialects (RFC 4648 sections 4 and 5, padded or not): the tolerant reader of
 internal/push/vapid.go and the text codec of the web client (web/ui.go).
 */
module Base64 {
  import opened Wrappers
  import opened Text

  type Sextet = x: int | 0 <= x < 64

  /** Which two characters stand for 62 and 63, and whether the text is filled up with '='. */
  datatype Dialect = Dialect(url: bool, padded: bool)

  function CharOf(url: bool, v: Sextet): char {
    if v < 26 then ('A' as int + v) as char
    else if v < 52 then ('a' as int + (v - 26)) as char
    else if v < 62 then ('0' as int + (v - 52)) as char
    else if v == 62 then if url then '-' else '+'
    else if url then '_' else '/'
  }

  function ValueOf(url: bool, c: char): Option<Sextet> {
    if 'A' <= c <= 'Z' then Some(c as int - 'A' as int)
    else if 'a' <= c <= 'z' then Some(c as int - 'a' as int + 26)
    else if '0' <= c <= '9' then Some(c as int - '0' as int + 52)
    else if c == (if url then '-' else '+') then Some(62)
    else if c == (if url then '_' else '/') then Some(63)
    else None
  }

  lemma ValueOfChar(url: bool, v: Sextet)
    ensures ValueOf(url, CharOf(url, v)) == Some(v)
    ensures CharOf(url, v) != '=' && !IsSpace(CharOf(url, v))
  {
  }

  // ---- Bytes and sextets ----

  function ToSextets(b: Bytes): (r: seq<Sextet>)
    ensures |r| % 4 != 1
    ensures |r| % 4 == 0 <==> |b| % 3 == 0
    decreases |b|
  {
    if |b| == 0 then []
    else if |b| == 1 then [b[0] as int / 4, b[0] as int % 4 * 16]
    else if |b| == 2 then [b[0] as int / 4, b[0] as int % 4 * 16 + b[1] as int / 16, b[1] as int % 16 * 4]
    else
      var rest := ToSextets(b[3..]);
      assert |b| % 3 == |b[3..]| % 3 && (4 + |rest|) % 4 == |rest| % 4;
      Triple(b[0], b[1], b[2]) + rest
  }

  function Triple(x: byte, y: byte, z: byte): (r: seq<Sextet>)
    ensures |r| == 4
  {
    [x as int / 4, x as int % 4 * 16 + y as int / 16, y as int % 16 * 4 + z as int / 64, z as int % 64]
  }

  /** Bits left over at the end are ignored, as both decoders do. */
  function FromSextets(v: seq<Sextet>): Bytes
    requires |v| % 4 != 1
    decreases |v|
  {
    if |v| == 0 then []
    else if |v| == 2 then [First(v[0], v[1])]
    else if |v| == 3 then [First(v[0], v[1]), Second(v[1], v[2])]
    else [First(v[0], v[1]), Second(v[1], v[2]), Third(v[2], v[3])] + FromSextets(v[4..])
  }

  function First(a: Sextet, b: Sextet): byte {
    (a * 4 + b / 16) as byte
  }

  function Second(b: Sextet, c: Sextet): byte {
    (b % 16 * 16 + c / 4) as byte
  }

  function Third(c: Sextet, d: Sextet): byte {
    (c % 4 * 64 + d) as byte
  }

  lemma TripleInverse(x: byte, y: byte, z: byte)
    ensures var v := Triple(x, y, z);
            First(v[0], v[1]) == x && Second(v[1], v[2]) == y && Third(v[2], v[3]) == z
  {
  }

  lemma {:induction false} SextetsInverse(b: Bytes)
    ensures FromSextets(ToSextets(b)) == b
    decreases |b|
  {
    if |b| >= 3 {
      var head, rest := Triple(b[0], b[1], b[2]), ToSextets(b[3..]);
      SextetsInverse(b[3..]);
      TripleInverse(b[0], b[1], b[2]);
      assert (head + rest)[4..] == rest;
      assert b == [b[0], b[1], b[2]] + b[3..];
    } else if |b| == 2 {
      TripleInverse(b[0], b[1], 0);
    } else if |b| == 1 {
      TripleInverse(b[0], 0, 0);
    }
  }

  // ---- Text ----

  function Chars(url: bool, v: seq<Sextet>): (r: string)
    ensures |r| == |v|
    ensures forall i :: 0 <= i < |v| ==> r[i] == CharOf(url, v[i])
  {
    seq(|v|, i requires 0 <= i < |v| => CharOf(url, v[i]))
  }

  predicate AllIn(url: bool, s: string) {
    forall i :: 0 <= i < |s| ==> ValueOf(url, s[i]).Some?
  }

  function Values(url: bool, s: string): (r: seq<Sextet>)
    requires AllIn(url, s)
    ensures |r| == |s|
  {
    seq(|s|, i requires 0 <= i < |s| => ValueOf(url, s[i]).value)
  }

  function Pads(n: nat): (r: string)
    ensures |r| == n && forall i :: 0 <= i < n ==> r[i] == '='
  {
    seq(n, _ => '=')
  }

  /** How much fills `n` characters up to a multiple of four. */
  function Fill(n: nat): (r: nat)
    ensures r < 4 && (n + r) % 4 == 0 && (n % 4 != 1 ==> r <= 2)
  {
    (4 - n % 4) % 4
  }

  function Encode(d: Dialect, b: Bytes): string {
    var text := Chars(d.url, ToSextets(b));
    text + if d.padded then Pads(Fill(|text|)) else ""
  }

  /** Go's decoder skips line breaks wherever they stand. */
  function WithoutBreaks(s: string): string {
    if s == "" then ""
    else (if s[0] == '\r' || s[0] == '\n' then "" else [s[0]]) + WithoutBreaks(s[1..])
  }

  /** Length of the text before its trailing '=' characters. */
  function BodyLength(s: string): (n: nat)
    ensures n <= |s| && (n > 0 ==> s[n - 1] != '=')
    ensures forall i :: n <= i < |s| ==> s[i] == '='
  {
    if s != "" && s[|s| - 1] == '=' then BodyLength(s[..|s| - 1]) else |s|
  }

  function DecodeBody(url: bool, s: string): Option<Bytes> {
    if AllIn(url, s) && |s| % 4 != 1 then Some(FromSextets(Values(url, s))) else None
  }

  function Decode(d: Dialect, s: string): Option<Bytes> {
    var clean := WithoutBreaks(s);
    if !d.padded then DecodeBody(d.url, clean)
    else
      var n := BodyLength(clean);
      if |clean| % 4 == 0 && |clean| - n <= 2 then DecodeBody(d.url, clean[..n]) else None
  }

  lemma {:induction false} NoBreaksToRemove(s: string)
    requires forall i :: 0 <= i < |s| ==> !IsSpace(s[i])
    ensures WithoutBreaks(s) == s
  {
    if s == "" {
    } else {
      assert !IsSpace(s[0]);
      NoBreaksToRemove(s[1..]);
    }
  }

  lemma {:induction false} PadsAreNotBody(body: string, n: nat)
    requires body == "" || body[|body| - 1] != '='
    ensures BodyLength(body + Pads(n)) == |body|
    decreases n
  {
    var s := body + Pads(n);
    if n > 0 {
      assert s[..|s| - 1] == body + Pads(n - 1);
      PadsAreNotBody(body, n - 1);
    } else {
      assert s == body;
    }
  }

  lemma BodyRoundTrip(url: bool, b: Bytes)
    ensures DecodeBody(url, Chars(url, ToSextets(b))) == Some(b)
  {
    var v := ToSextets(b);
    var text := Chars(url, v);
    forall i | 0 <= i < |text| ensures ValueOf(url, text[i]) == Some(v[i]) {
      ValueOfChar(url, v[i]);
    }
    assert Values(url, text) == v;
    SextetsInverse(b);
  }

  lemma EncodedIsSolid(d: Dialect, b: Bytes)
    ensures forall i :: 0 <= i < |Encode(d, b)| ==> !IsSpace(Encode(d, b)[i])
  {
    var v := ToSextets(b);
    forall i | 0 <= i < |v| ensures !IsSpace(CharOf(d.url, v[i])) {
      ValueOfChar(d.url, v[i]);
    }
  }

  lemma PaddedDecode(d: Dialect, text: string, n: nat)
    requires d.padded && (text == "" || text[|text| - 1] != '=') && n <= 2 && (|text| + n) % 4 == 0
    requires WithoutBreaks(text + Pads(n)) == text + Pads(n)
    ensures Decode(d, text + Pads(n)) == DecodeBody(d.url, text)
  {
    hide DecodeBody, WithoutBreaks, BodyLength;
    PadsAreNotBody(text, n);
    assert (text + Pads(n))[..|text|] == text;
  }

  lemma CharsEndInNoPad(url: bool, v: seq<Sextet>)
    ensures Chars(url, v) == "" || Chars(url, v)[|v| - 1] != '='
  {
    if |v| > 0 {
      ValueOfChar(url, v[|v| - 1]);
    }
  }

  /** Each dialect reads what it writes. */
  lemma DecodeInvertsEncode(d: Dialect, b: Bytes)
    ensures Decode(d, Encode(d, b)) == Some(b)
  {
    var text := Chars(d.url, ToSextets(b));
    EncodedIsSolid(d, b);
    NoBreaksToRemove(Encode(d, b));
    BodyRoundTrip(d.url, b);
    CharsEndInNoPad(d.url, ToSextets(b));
    hide ToSextets, DecodeBody, WithoutBreaks, Fill, BodyLength;
    if d.padded {
      PaddedDecode(d, text, Fill(|text|));
    } else {
      assert text + "" == text;
    }
  }

  lemma SameBodySameBytes(u1: bool, u2: bool, s: string)
    requires DecodeBody(u1, s).Some? && DecodeBody(u2, s).Some?
    ensures DecodeBody(u1, s) == DecodeBody(u2, s)
  {
    forall i | 0 <= i < |s| ensures ValueOf(u1, s[i]) == ValueOf(u2, s[i]) {
      assert ValueOf(u1, s[i]).Some? && ValueOf(u2, s[i]).Some?;
    }
    assert Values(u1, s) == Values(u2, s);
  }

  /** A text without '=' is its own body. */
  lemma AlphabetHasNoPads(url: bool, s: string)
    requires AllIn(url, s)
    ensures BodyLength(s) == |s| && s[..|s|] == s
  {
    if s != "" {
      assert ValueOf(url, s[|s| - 1]).Some?;
    }
  }

  /** Any two dialects that accept a text read the same bytes from it. */
  lemma DialectsAgree(d1: Dialect, d2: Dialect, s: string)
    requires Decode(d1, s).Some? && Decode(d2, s).Some?
    ensures Decode(d1, s) == Decode(d2, s)
  {
    var clean := WithoutBreaks(s);
    if !d1.padded {
      AlphabetHasNoPads(d1.url, clean);
    }
    if !d2.padded {
      AlphabetHasNoPads(d2.url, clean);
    }
    SameBodySameBytes(d1.url, d2.url, clean[..BodyLength(clean)]);
  }

  const RAW_URL := Dialect(true, false)
  const URL := Dialect(true, true)
  const RAW_STD := Dialect(false, false)
  const STD := Dialect(false, true)

  /** The server's reader: trims, then tries the dialects in this order. */
  function DecodeFlexible(text: string): Option<Bytes> {
    var s := Trim(text, IsSpace);
    if Decode(RAW_URL, s).Some? then Decode(RAW_URL, s)
    else if Decode(URL, s).Some? then Decode(URL, s)
    else if Decode(RAW_STD, s).Some? then Decode(RAW_STD, s)
    else Decode(STD, s)
  }

  /** The order of the attempts does not matter: the reader accepts what some dialect accepts. */
  lemma FlexibleIsAnyDialect(text: string, b: Bytes)
    ensures DecodeFlexible(text) == Some(b) <==> exists d :: Decode(d, Trim(text, IsSpace)) == Some(b)
  {
    var s := Trim(text, IsSpace);
    forall d | Decode(d, s) == Some(b) ensures DecodeFlexible(text) == Some(b) {
      assert d in {RAW_URL, URL, RAW_STD, STD} by {
        assert d == Dialect(d.url, d.padded);
      }
      forall e | Decode(e, s).Some? ensures Decode(e, s) == Some(b) {
        DialectsAgree(d, e, s);
      }
    }
  }

  /** Every byte string is recovered from each of its four encodings, whatever white space surrounds it. */
  lemma FlexibleReadsEveryDialect(d: Dialect, b: Bytes, left: string, right: string)
    requires forall i :: 0 <= i < |left| ==> IsSpace(left[i])
    requires forall i :: 0 <= i < |right| ==> IsSpace(right[i])
    ensures DecodeFlexible(left + Encode(d, b) + right) == Some(b)
  {
    EncodedIsSolid(d, b);
    TrimSurrounded(left, Encode(d, b), right, IsSpace);
    DecodeInvertsEncode(d, b);
    FlexibleIsAnyDialect(left + Encode(d, b) + right, b);
  }

  // ---- UTF-8 (RFC 3629) ----

  /** The continuation byte carrying the low six bits of `n`. */
  function Tail(n: nat): byte {
    (0x80 + n % 64) as byte
  }

  function Utf8Char(c: char): (r: Bytes)
    ensures 1 <= |r| <= 4
  {
    var n := c as int;
    if n < 0x80 then [n as byte]
    else if n < 0x800 then [(0xC0 + n / 64) as byte, Tail(n)]
    else if n < 0x10000 then [(0xE0 + n / 64 / 64) as byte, Tail(n / 64), Tail(n)]
    else [(0xF0 + n / 64 / 64 / 64) as byte, Tail(n / 64 / 64), Tail(n / 64), Tail(n)]
  }

  function Utf8(text: string): Bytes {
    if text == "" then [] else Utf8Char(text[0]) + Utf8(text[1..])
  }

  predicate IsTail(b: byte) {
    0x80 <= b < 0xC0
  }

  predicate IsScalar(n: int) {
    0 <= n < 0xD800 || 0xE000 <= n < 0x11_0000
  }

  /** The character a byte string starts with and its length; overlong forms and surrogates are errors. */
  function FirstChar(b: Bytes): (r: Option<(char, nat)>)
    ensures r.Some? ==> 1 <= r.value.1 <= |b|
  {
    if |b| >= 1 && b[0] < 0x80 then Some((b[0] as int as char, 1))
    else if |b| >= 2 && 0xC0 <= b[0] < 0xE0 && IsTail(b[1]) then
      Scalar((b[0] as int - 0xC0) * 64 + (b[1] as int - 0x80), 0x80, 2)
    else if |b| >= 3 && 0xE0 <= b[0] < 0xF0 && IsTail(b[1]) && IsTail(b[2]) then
      Scalar(((b[0] as int - 0xE0) * 64 + (b[1] as int - 0x80)) * 64 + (b[2] as int - 0x80), 0x800, 3)
    else if |b| >= 4 && 0xF0 <= b[0] < 0xF8 && IsTail(b[1]) && IsTail(b[2]) && IsTail(b[3]) then
      Scalar(
        (((b[0] as int - 0xF0) * 64 + (b[1] as int - 0x80)) * 64 + (b[2] as int - 0x80)) * 64 + (b[3] as int - 0x80),
        0x10000, 4)
    else None
  }

  function Scalar(n: int, least: int, length: nat): (r: Option<(char, nat)>)
    ensures r.Some? ==> r.value.1 == length && n >= least && n == r.value.0 as int
  {
    if n >= least && IsScalar(n) then Some((n as char, length)) else None
  }

  function Utf8Decode(b: Bytes): Option<string>
    decreases |b|
  {
    if b == [] then Some("")
    else
      var first := FirstChar(b);
      if first.None? then None
      else
        var rest := Utf8Decode(b[first.value.1..]);
        if rest.None? then None else Some([first.value.0] + rest.value)
  }

  lemma CharIsScalar(c: char)
    ensures IsScalar(c as int)
  {
  }

  lemma FirstCharOfChar(c: char, rest: Bytes)
    ensures FirstChar(Utf8Char(c) + rest) == Some((c, |Utf8Char(c)|))
  {
    CharIsScalar(c);
  }

  /** Decoding undoes encoding on every text. */
  lemma {:induction false} Utf8RoundTrip(text: string)
    ensures Utf8Decode(Utf8(text)) == Some(text)
  {
    if text == "" {
    } else {
      var head, rest := Utf8Char(text[0]), Utf8(text[1..]);
      Utf8RoundTrip(text[1..]);
      FirstCharOfChar(text[0], rest);
      assert (head + rest)[|head|..] == rest;
      assert [text[0]] + text[1..] == text;
    }
  }

  lemma Digits(high: nat, low: nat)
    requires low < 64
    ensures (high * 64 + low) / 64 == high && (high * 64 + low) % 64 == low
  {
  }

  lemma FirstCharIsItsBytes(b: Bytes)
    requires FirstChar(b).Some?
    ensures Utf8Char(FirstChar(b).value.0) == b[..FirstChar(b).value.1]
  {
    var (c, length) := FirstChar(b).value;
    if b[0] < 0x80 {
      assert b[..1] == [b[0]];
    } else if b[0] < 0xE0 {
      TwoBytes(b[0], b[1], c);
      assert b[..2] == [b[0], b[1]];
    } else if b[0] < 0xF0 {
      ThreeBytes(b[0], b[1], b[2], c);
      assert b[..3] == [b[0], b[1], b[2]];
    } else {
      FourBytes(b[0], b[1], b[2], b[3], c);
      assert b[..4] == [b[0], b[1], b[2], b[3]];
    }
  }

  lemma TwoBytes(x: byte, y: byte, c: char)
    requires 0xC0 <= x < 0xE0 && IsTail(y)
    requires c as int == (x as int - 0xC0) * 64 + (y as int - 0x80) >= 0x80
    ensures Utf8Char(c) == [x, y]
  {
    Digits(x as int - 0xC0, y as int - 0x80);
  }

  lemma ThreeBytes(x: byte, y: byte, z: byte, c: char)
    requires 0xE0 <= x < 0xF0 && IsTail(y) && IsTail(z)
    requires c as int == ((x as int - 0xE0) * 64 + (y as int - 0x80)) * 64 + (z as int - 0x80) >= 0x800
    ensures Utf8Char(c) == [x, y, z]
  {
    var high := (x as int - 0xE0) * 64 + (y as int - 0x80);
    Digits(x as int - 0xE0, y as int - 0x80);
    Digits(high, z as int - 0x80);
    assert c as int / 64 == high;
  }

  lemma FourBytes(x: byte, y: byte, z: byte, w: byte, c: char)
    requires 0xF0 <= x < 0xF8 && IsTail(y) && IsTail(z) && IsTail(w)
    requires c as int ==
             (((x as int - 0xF0) * 64 + (y as int - 0x80)) * 64 + (z as int - 0x80)) * 64 + (w as int - 0x80) >= 0x10000
    ensures Utf8Char(c) == [x, y, z, w]
  {
    var high := (x as int - 0xF0) * 64 + (y as int - 0x80);
    var higher := high * 64 + (z as int - 0x80);
    Digits(x as int - 0xF0, y as int - 0x80);
    Digits(high, z as int - 0x80);
    Digits(higher, w as int - 0x80);
    assert c as int / 64 == higher && higher / 64 == high;
  }

  /** And encoding undoes decoding on every byte string that decodes: UTF-8 texts have one form. */
  lemma {:induction false} Utf8IsUnique(b: Bytes)
    requires Utf8Decode(b).Some?
    ensures Utf8(Utf8Decode(b).value) == b
    decreases |b|
  {
    if b == [] {
    } else {
      hide FirstChar, Utf8Char;
      var n := FirstChar(b).value.1;
      FirstCharIsItsBytes(b);
      Utf8IsUnique(b[n..]);
      var text := Utf8Decode(b).value;
      assert text[1..] == Utf8Decode(b[n..]).value;
      assert b == b[..n] + b[n..];
    }
  }

  // ---- The web client ----

  function ReplaceChar(s: string, from: char, to: char): (r: string)
    ensures |r| == |s| && forall i :: 0 <= i < |s| ==> r[i] == if s[i] == from then to else s[i]
  {
    seq(|s|, i requires 0 <= i < |s| => if s[i] == from then to else s[i])
  }

  /** `encodeBase64URL`: btoa of the UTF-8 bytes, two characters replaced, padding stripped. */
  function ClientEncode(text: string): string {
    var base64 := ReplaceChar(ReplaceChar(Encode(STD, Utf8(text)), '+', '-'), '/', '_');
    base64[..BodyLength(base64)]
  }

  predicate IsAsciiSpace(c: char) {
    c == '\t' || c == '\n' || c == '\U{c}' || c == '\r' || c == ' '
  }

  function WithoutAsciiSpace(s: string): string {
    if s == "" then "" else (if IsAsciiSpace(s[0]) then "" else [s[0]]) + WithoutAsciiSpace(s[1..])
  }

  /** `atob`: the forgiving decoder of browsers. */
  function Atob(s: string): Option<Bytes> {
    var clean := WithoutAsciiSpace(s);
    var n := BodyLength(clean);
    var body := if |clean| % 4 != 0 then clean else if |clean| - n <= 2 then clean[..n] else clean[..|clean| - 2];
    DecodeBody(false, body)
  }

  function Padded(s: string): string {
    s + Pads(Fill(|s|))
  }

  /** What `atob` and `decodeURIComponent` throw. */
  datatype DecodeError = InvalidCharacter | MalformedUri

  function ClientDecode(s: string): Result<string, DecodeError> {
    var bytes := Atob(Padded(ReplaceChar(ReplaceChar(s, '-', '+'), '_', '/')));
    if bytes.None? then Err(InvalidCharacter)
    else
      var text := Utf8Decode(bytes.value);
      if text.None? then Err(MalformedUri) else Ok(text.value)
  }

  /** `decodeBase64URL`, with its padding loop. */
  method DecodeBase64URL(s: string) returns (r: Result<string, DecodeError>)
    ensures r == ClientDecode(s)
  {
    var base64 := ReplaceChar(ReplaceChar(s, '-', '+'), '_', '/');
    ghost var plain, n := base64, 0;
    hide Atob, Utf8Decode;
    while |base64| % 4 != 0
      invariant n <= Fill(|plain|)
      invariant base64 == plain + Pads(n)
      decreases Fill(|plain|) - n
    {
      base64 := base64 + "=";
      n := n + 1;
    }
    var bytes := Atob(base64);
    if bytes.None? {
      return Err(InvalidCharacter);
    }
    var text := Utf8Decode(bytes.value);
    if text.None? {
      return Err(MalformedUri);
    }
    r := Ok(text.value);
  }

  lemma UrlCharOf(v: Sextet)
    ensures var c := CharOf(false, v);
            var c1 := if c == '+' then '-' else c;
            (if c1 == '/' then '_' else c1) == CharOf(true, v)
    ensures var c := CharOf(true, v);
            var c1 := if c == '-' then '+' else c;
            (if c1 == '_' then '/' else c1) == CharOf(false, v)
  {
  }

  /** The client writes the server's unpadded URL dialect, over the UTF-8 bytes of the text. */
  lemma ClientWritesRawURL(text: string)
    ensures ClientEncode(text) == Encode(RAW_URL, Utf8(text))
  {
    var v := ToSextets(Utf8(text));
    var n := Fill(|v|);
    ToUrl(v, n);
    CharsEndInNoPad(true, v);
    hide ToSextets, Fill, BodyLength;
    PadsAreNotBody(Chars(true, v), n);
    assert (Chars(true, v) + Pads(n))[..|v|] == Chars(true, v) && Chars(true, v) + "" == Chars(true, v);
  }

  lemma ToUrl(v: seq<Sextet>, n: nat)
    ensures ReplaceChar(ReplaceChar(Chars(false, v) + Pads(n), '+', '-'), '/', '_') == Chars(true, v) + Pads(n)
  {
    var base64 := ReplaceChar(ReplaceChar(Chars(false, v) + Pads(n), '+', '-'), '/', '_');
    forall i | 0 <= i < |base64| ensures base64[i] == (Chars(true, v) + Pads(n))[i] {
      if i < |v| {
        UrlCharOf(v[i]);
      }
    }
  }

  /** Hence the server reads every text the client writes. */
  lemma ServerReadsClient(text: string)
    ensures DecodeFlexible(ClientEncode(text)) == Some(Utf8(text))
  {
    ClientWritesRawURL(text);
    var s := ClientEncode(text);
    hide ClientEncode, Encode, DecodeFlexible;
    FlexibleReadsEveryDialect(RAW_URL, Utf8(text), "", "");
    assert "" + s + "" == s;
  }

  lemma {:induction false} NoAsciiSpaceToRemove(s: string)
    requires forall i :: 0 <= i < |s| ==> !IsSpace(s[i])
    ensures WithoutAsciiSpace(s) == s
  {
    if s == "" {
    } else {
      assert !IsSpace(s[0]);
      NoAsciiSpaceToRemove(s[1..]);
    }
  }

  lemma PaddedAtob(text: string, n: nat)
    requires (text == "" || text[|text| - 1] != '=') && n <= 2 && (|text| + n) % 4 == 0
    requires WithoutAsciiSpace(text + Pads(n)) == text + Pads(n)
    ensures Atob(text + Pads(n)) == DecodeBody(false, text)
  {
    hide DecodeBody, WithoutAsciiSpace, BodyLength;
    PadsAreNotBody(text, n);
    var s := text + Pads(n);
    assert s[..|text|] == text;
    assert |s| % 4 == 0 && |s| - BodyLength(s) <= 2;
  }

  /** Undoing the two replacements turns the URL alphabet into the standard one. */
  lemma BackToStandard(v: seq<Sextet>)
    ensures ReplaceChar(ReplaceChar(Chars(true, v), '-', '+'), '_', '/') == Chars(false, v)
  {
    forall i | 0 <= i < |v|
      ensures ReplaceChar(ReplaceChar(Chars(true, v), '-', '+'), '_', '/')[i] == Chars(false, v)[i]
    {
      UrlCharOf(v[i]);
    }
  }

  lemma CharsAreSolid(v: seq<Sextet>, n: nat)
    ensures forall i :: 0 <= i < |v| + n ==> !IsSpace((Chars(false, v) + Pads(n))[i])
  {
    forall i | 0 <= i < |v| ensures !IsSpace(CharOf(false, v[i])) {
      ValueOfChar(false, v[i]);
    }
  }

  lemma ValuesOfChars(url: bool, v: seq<Sextet>)
    ensures AllIn(url, Chars(url, v)) && Values(url, Chars(url, v)) == v
  {
    var text := Chars(url, v);
    forall i | 0 <= i < |text| ensures ValueOf(url, text[i]) == Some(v[i]) {
      ValueOfChar(url, v[i]);
    }
    assert Values(url, text) == v;
  }

  /** The browser's decoder reads every text of the standard alphabet that has a possible length. */
  lemma AtobReadsStandard(v: seq<Sextet>)
    requires |v| % 4 != 1
    ensures Atob(Padded(Chars(false, v))) == Some(FromSextets(v))
  {
    var text := Chars(false, v);
    hide FromSextets, Fill, WithoutAsciiSpace, Atob, IsSpace, Chars, BodyLength, AllIn, Values;
    CharsAreSolid(v, Fill(|text|));
    NoAsciiSpaceToRemove(Padded(text));
    CharsEndInNoPad(false, v);
    ValuesOfChars(false, v);
    PaddedAtob(text, Fill(|text|));
  }

  lemma ClientReads(v: seq<Sextet>)
    requires |v| % 4 != 1
    ensures ClientDecode(Chars(true, v)) ==
            var text := Utf8Decode(FromSextets(v)); if text.None? then Err(MalformedUri) else Ok(text.value)
  {
    hide Atob, Utf8Decode, Padded, FromSextets;
    BackToStandard(v);
    AtobReadsStandard(v);
  }

  /** The client's decoder inverts its encoder on every well-formed text. */
  lemma ClientRoundTrip(text: string)
    ensures ClientDecode(ClientEncode(text)) == Ok(text)
  {
    var v := ToSextets(Utf8(text));
    ClientWritesRawURL(text);
    assert Encode(RAW_URL, Utf8(text)) == Chars(true, v) + "" == Chars(true, v);
    hide ToSextets, FromSextets, Utf8, Utf8Decode, ClientEncode, ClientDecode;
    ClientReads(v);
    SextetsInverse(Utf8(text));
    Utf8RoundTrip(text);
  }

  // ---- Encoding after decoding ----

  /** The bits that no byte uses are zero. */
  predicate TailClean(v: seq<Sextet>) {
    && (|v| % 4 == 2 ==> v[|v| - 1] % 16 == 0)
    && (|v| % 4 == 3 ==> v[|v| - 1] % 4 == 0)
  }

  /** A text of the unpadded URL alphabet, of a possible length, with nothing in the unused bits. */
  predicate Canonical(s: string) {
    AllIn(true, s) && |s| % 4 != 1 && TailClean(Values(true, s))
  }

  lemma FourSextets(a: Sextet, b: Sextet, c: Sextet, d: Sextet)
    ensures Triple(First(a, b), Second(b, c), Third(c, d)) == [a, b, c, d]
  {
    var x, y, z := First(a, b) as int, Second(b, c) as int, Third(c, d) as int;
    assert x / 4 == a && x % 4 == b / 16;
    assert y / 16 == b % 16 && y % 16 == c / 4;
    assert z / 64 == c % 4 && z % 64 == d;
  }

  lemma LastSextets(a: Sextet, b: Sextet, c: Sextet)
    ensures b % 16 == 0 ==> ToSextets([First(a, b)]) == [a, b]
    ensures c % 4 == 0 ==> ToSextets([First(a, b), Second(b, c)]) == [a, b, c]
  {
    FourSextets(a, b, c, 0);
    var x, y := First(a, b) as int, Second(b, c) as int;
    assert x / 4 == a && x % 4 == b / 16 && y / 16 == b % 16 && y % 16 == c / 4;
  }

  lemma {:induction false} BytesInverse(v: seq<Sextet>)
    requires |v| % 4 != 1 && TailClean(v)
    ensures ToSextets(FromSextets(v)) == v
    decreases |v|
  {
    if |v| == 0 {
    } else if |v| == 2 {
      LastSextets(v[0], v[1], 0);
    } else if |v| == 3 {
      LastSextets(v[0], v[1], v[2]);
    } else {
      CleanRest(v);
      BytesInverse(v[4..]);
      NextGroup(v);
    }
  }

  lemma CleanRest(v: seq<Sextet>)
    requires |v| >= 4 && |v| % 4 != 1 && TailClean(v)
    ensures |v[4..]| % 4 != 1 && TailClean(v[4..])
  {
  }

  lemma NextGroup(v: seq<Sextet>)
    requires |v| >= 4 && |v| % 4 != 1 && ToSextets(FromSextets(v[4..])) == v[4..]
    ensures ToSextets(FromSextets(v)) == v
  {
    var x, y, z := First(v[0], v[1]), Second(v[1], v[2]), Third(v[2], v[3]);
    var rest := FromSextets(v[4..]);
    FourSextets(v[0], v[1], v[2], v[3]);
    assert FromSextets(v) == [x, y, z] + rest by { hide First, Second, Third; }
    hide First, Second, Third, Triple, FromSextets;
    ThreeMore(x, y, z, rest);
    assert v == [v[0], v[1], v[2], v[3]] + v[4..];
  }

  lemma ThreeMore(x: byte, y: byte, z: byte, rest: Bytes)
    ensures ToSextets([x, y, z] + rest) == Triple(x, y, z) + ToSextets(rest)
  {
    hide Triple;
    assert ([x, y, z] + rest)[3..] == rest;
  }

  lemma {:induction false} SextetsAreClean(b: Bytes)
    ensures TailClean(ToSextets(b))
    decreases |b|
  {
    if |b| < 3 {
    } else {
      SextetsAreClean(b[3..]);
    }
  }

  lemma CharOfValue(url: bool, c: char)
    ensures ValueOf(url, c).Some? ==> CharOf(url, ValueOf(url, c).value) == c
  {
  }

  lemma CharsOfValues(url: bool, s: string)
    requires AllIn(url, s)
    ensures Chars(url, Values(url, s)) == s
  {
    forall i | 0 <= i < |s| ensures Chars(url, Values(url, s))[i] == s[i] {
      CharOfValue(url, s[i]);
    }
  }

  /** What the encoder writes is canonical. */
  lemma EncodedIsCanonical(text: string)
    ensures Canonical(ClientEncode(text))
  {
    var v := ToSextets(Utf8(text));
    ClientWritesRawURL(text);
    assert Encode(RAW_URL, Utf8(text)) == Chars(true, v) + "" == Chars(true, v);
    hide ToSextets, Utf8, ClientEncode;
    ValuesOfChars(true, v);
    SextetsAreClean(Utf8(text));
  }

  /** Encoding a decoded text gives back what was decoded exactly when that was canonical. */
  lemma EncodeInvertsDecodeExactly(s: string)
    requires ClientDecode(s).Ok?
    ensures ClientEncode(ClientDecode(s).value) == s <==> Canonical(s)
  {
    var text := ClientDecode(s).value;
    EncodedIsCanonical(text);
    if Canonical(s) {
      var v := Values(true, s);
      CharsOfValues(true, s);
      ClientReads(v);
      ClientWritesRawURL(text);
      var chars := Chars(true, ToSextets(Utf8(text)));
      assert Encode(RAW_URL, Utf8(text)) == chars + "" == chars;
      hide ToSextets, FromSextets, Utf8, Utf8Decode, ClientEncode, ClientDecode, Canonical, AllIn, Values;
      Utf8IsUnique(FromSextets(v));
      BytesInverse(v);
    }
  }
}
