/**
 What the base 64 and UTF-8 codecs write and read, digit by digit: the alphabets of RFC 4648, its groups
 as numbers, and the byte table of RFC 3629.
 */
module Base64Digits {
  import opened Wrappers
  import opened Base64

  // ---- The alphabets (tables 1 and 2 of RFC 4648) ----

  const UPPER := "ABCDEFGHIJKLMNOPQRSTUVWXYZ"
  const LOWER := "abcdefghijklmnopqrstuvwxyz"
  const DIGITS := "0123456789"

  function Alphabet(url: bool): string {
    UPPER + LOWER + DIGITS + if url then "-_" else "+/"
  }

  lemma UpperAt(v: nat)
    requires v < |UPPER|
    ensures |UPPER| == 26 && UPPER[v] as int == 65 + v
  {
  }

  lemma LowerAt(v: nat)
    requires v < |LOWER|
    ensures |LOWER| == 26 && LOWER[v] as int == 97 + v
  {
  }

  lemma DigitAt(v: nat)
    requires v < |DIGITS|
    ensures |DIGITS| == 10 && DIGITS[v] as int == 48 + v
  {
  }

  lemma AlphabetAt(url: bool, v: Sextet)
    ensures |Alphabet(url)| == 64 && Alphabet(url)[v] == CharOf(url, v)
  {
    assert |UPPER| == 26 && |LOWER| == 26 && |DIGITS| == 10;
    if v < 26 {
      UpperAt(v);
    } else if v < 52 {
      LowerAt(v - 26);
    } else if v < 62 {
      DigitAt(v - 52);
    }
    hide UPPER, LOWER, DIGITS;
  }

  /** A character has a value exactly when it stands there in the alphabet. */
  lemma AlphabetExactly(url: bool, v: Sextet, c: char)
    ensures |Alphabet(url)| == 64
    ensures ValueOf(url, c) == Some(v) <==> Alphabet(url)[v] == c
    ensures CharOf(url, v) == c <==> Alphabet(url)[v] == c
  {
    AlphabetAt(url, v);
    ValueOfChar(url, v);
    CharOfValue(url, c);
    hide Alphabet;
  }

  // ---- Groups as numbers (section 4 of RFC 4648) ----

  function ByteAt(b: Bytes, k: nat): int {
    if k < |b| then b[k] as int else 0
  }

  function SextetAt(v: seq<Sextet>, k: nat): int {
    if k < |v| then v[k] else 0
  }

  function GroupOfBytes(b: Bytes, i: nat): int {
    (ByteAt(b, 3 * i) * 256 + ByteAt(b, 3 * i + 1)) * 256 + ByteAt(b, 3 * i + 2)
  }

  function GroupOfSextets(v: seq<Sextet>, i: nat): int {
    ((SextetAt(v, 4 * i) * 64 + SextetAt(v, 4 * i + 1)) * 64 + SextetAt(v, 4 * i + 2)) * 64 + SextetAt(v, 4 * i + 3)
  }

  /** The bits of a group of three that lie beyond the end of `n` bytes. */
  function Beyond(n: nat): nat {
    if n == 1 then 65536 else if n == 2 then 256 else 1
  }

  /** `v` carries the bytes: just enough characters, and each group, beyond the end aside, the same number. */
  ghost predicate Carries(b: Bytes, v: seq<Sextet>) {
    && |v| == |b| + (|b| + 2) / 3
    && forall i :: 0 <= 3 * i < |b| ==> SameGroup(b, v, i)
  }

  predicate SameGroup(b: Bytes, v: seq<Sextet>, i: nat)
    requires 3 * i < |b|
  {
    GroupOfSextets(v, i) / Beyond(|b| - 3 * i) == GroupOfBytes(b, i) / Beyond(|b| - 3 * i)
  }

  lemma ShiftByte(b: Bytes, k: nat)
    requires |b| >= 3
    ensures ByteAt(b[3..], k) == ByteAt(b, k + 3)
  {
  }

  lemma ShiftSextet(v: seq<Sextet>, k: nat)
    requires |v| >= 4
    ensures SextetAt(v[4..], k) == SextetAt(v, k + 4)
  {
  }

  lemma ShiftGroup(b: Bytes, v: seq<Sextet>, i: nat)
    requires |b| >= 3 && |v| >= 4 && i >= 1 && 3 * i < |b|
    ensures SameGroup(b, v, i) <==> SameGroup(b[3..], v[4..], i - 1)
  {
    hide ByteAt, SextetAt;
    var j, k := 3 * (i - 1), 4 * (i - 1);
    assert 3 * i == j + 3 && 4 * i == k + 4;
    ShiftByte(b, j);
    ShiftByte(b, j + 1);
    ShiftByte(b, j + 2);
    ShiftSextet(v, k);
    ShiftSextet(v, k + 1);
    ShiftSextet(v, k + 2);
    ShiftSextet(v, k + 3);
    assert GroupOfBytes(b[3..], i - 1) == GroupOfBytes(b, i);
    assert GroupOfSextets(v[4..], i - 1) == GroupOfSextets(v, i);
    hide GroupOfBytes, GroupOfSextets;
  }

  lemma CarriesMore(b: Bytes, v: seq<Sextet>)
    requires |b| >= 3 && |v| >= 4
    ensures Carries(b, v) <==> SameGroup(b, v, 0) && Carries(b[3..], v[4..])
  {
    hide SameGroup;
    if Carries(b, v) {
      forall i | 0 <= 3 * i < |b[3..]| ensures SameGroup(b[3..], v[4..], i) {
        ShiftGroup(b, v, i + 1);
      }
    }
    if SameGroup(b, v, 0) && Carries(b[3..], v[4..]) {
      forall i | 0 <= 3 * i < |b| ensures SameGroup(b, v, i) {
        if i > 0 {
          ShiftGroup(b, v, i);
        }
      }
    }
  }

  /** Four sextets are three bytes, as numbers. */
  lemma Regroup(a: Sextet, b: Sextet, c: Sextet, d: Sextet)
    ensures ((a * 64 + b) * 64 + c) * 64 + d ==
            (First(a, b) as int * 256 + Second(b, c) as int) * 256 + Third(c, d) as int
  {
    assert b == b / 16 * 16 + b % 16 && c == c / 4 * 4 + c % 4;
  }

  lemma ThreeDigits(x: byte, y: byte, z: byte, x': byte, y': byte, z': byte)
    ensures (x as int * 256 + y as int) * 256 + z as int == (x' as int * 256 + y' as int) * 256 + z' as int <==>
            x == x' && y == y' && z == z'
  {
  }

  lemma FullGroup(b: Bytes, v: seq<Sextet>)
    requires |b| >= 3 && |v| >= 4
    ensures SameGroup(b, v, 0) <==>
            b[0] == First(v[0], v[1]) && b[1] == Second(v[1], v[2]) && b[2] == Third(v[2], v[3])
  {
    var x, y, z := First(v[0], v[1]), Second(v[1], v[2]), Third(v[2], v[3]);
    Regroup(v[0], v[1], v[2], v[3]);
    hide First, Second, Third;
    ThreeDigits(x, y, z, b[0], b[1], b[2]);
  }

  lemma LastOne(b: Bytes, v: seq<Sextet>)
    requires |b| == 1 && |v| == 2
    ensures SameGroup(b, v, 0) <==> b[0] == First(v[0], v[1])
  {
    Regroup(v[0], v[1], 0, 0);
    var x, y := First(v[0], v[1]) as int, Second(v[1], 0) as int;
    hide First, Second;
    assert (x * 256 + y) * 256 / 65536 == x;
    assert b[0] as int * 256 * 256 / 65536 == b[0] as int;
  }

  lemma LastTwo(b: Bytes, v: seq<Sextet>)
    requires |b| == 2 && |v| == 3
    ensures SameGroup(b, v, 0) <==> b[0] == First(v[0], v[1]) && b[1] == Second(v[1], v[2])
  {
    Regroup(v[0], v[1], v[2], 0);
    var x, y, z := First(v[0], v[1]) as int, Second(v[1], v[2]) as int, Third(v[2], 0) as int;
    hide First, Second, Third;
    assert ((x * 256 + y) * 256 + z) / 256 == x * 256 + y;
    assert (b[0] as int * 256 + b[1] as int) * 256 / 256 == b[0] as int * 256 + b[1] as int;
    ThreeDigits(0, x as byte, y as byte, 0, b[0], b[1]);
  }

  lemma CarriesOne(b: Bytes, v: seq<Sextet>)
    requires |b| == 1 && |v| == 2
    ensures Carries(b, v) <==> FromSextets(v) == b
  {
    LastOne(b, v);
    OneGroup(b, v);
    FromStep(v);
    hide SameGroup, First, FromSextets, Carries;
  }

  lemma CarriesTwo(b: Bytes, v: seq<Sextet>)
    requires |b| == 2 && |v| == 3
    ensures Carries(b, v) <==> FromSextets(v) == b
  {
    LastTwo(b, v);
    OneGroup(b, v);
    FromStep(v);
    hide SameGroup, First, Second, FromSextets, Carries;
  }

  lemma CarriesThree(b: Bytes, v: seq<Sextet>)
    requires |b| >= 3 && |v| >= 4 && |v| % 4 != 1
    requires Carries(b[3..], v[4..]) <==> FromSextets(v[4..]) == b[3..]
    ensures Carries(b, v) <==> FromSextets(v) == b
  {
    hide SameGroup, First, Second, Third, FromSextets, Carries;
    CarriesMore(b, v);
    FullGroup(b, v);
    FromFour(v);
    ThreeAndRest(b, First(v[0], v[1]), Second(v[1], v[2]), Third(v[2], v[3]), FromSextets(v[4..]));
  }

  /** Sextets are decoded to exactly the bytes they carry. */
  lemma {:induction false} CarriesExactly(b: Bytes, v: seq<Sextet>)
    requires |v| % 4 != 1
    ensures Carries(b, v) <==> FromSextets(v) == b
    decreases |v|
  {
    hide Carries, FromSextets;
    FromLength(v);
    if |b| != |FromSextets(v)| {
      LengthsDiffer(b, v);
    } else {
      Sizes(|b|, |v|);
      if |v| == 0 {
        CarriesNothing(b, v);
      } else if |v| == 2 {
        CarriesOne(b, v);
      } else if |v| == 3 {
        CarriesTwo(b, v);
      } else {
        CarriesExactly(b[3..], v[4..]);
        CarriesThree(b, v);
      }
    }
  }

  lemma Sizes(n: nat, m: nat)
    requires m == n + (n + 2) / 3
    ensures (m == 0 <==> n == 0) && (m == 2 <==> n == 1) && (m == 3 <==> n == 2) && (m >= 4 <==> n >= 3)
  {
  }

  lemma CarriesNothing(b: Bytes, v: seq<Sextet>)
    requires |b| == 0 && |v| == 0
    ensures Carries(b, v) && FromSextets(v) == b
  {
  }

  lemma FromStep(v: seq<Sextet>)
    requires |v| % 4 != 1
    ensures |v| == 0 ==> FromSextets(v) == []
    ensures |v| == 2 ==> FromSextets(v) == [First(v[0], v[1])]
    ensures |v| == 3 ==> FromSextets(v) == [First(v[0], v[1]), Second(v[1], v[2])]
  {
    hide First, Second, Third;
  }

  lemma FromFour(v: seq<Sextet>)
    requires |v| % 4 != 1 && |v| >= 4
    ensures FromSextets(v) == [First(v[0], v[1]), Second(v[1], v[2]), Third(v[2], v[3])] + FromSextets(v[4..])
  {
    hide First, Second, Third;
  }

  lemma ThreeAndRest(b: Bytes, x: byte, y: byte, z: byte, rest: Bytes)
    requires |b| >= 3
    ensures [x, y, z] + rest == b <==> b[0] == x && b[1] == y && b[2] == z && rest == b[3..]
  {
    var all := [x, y, z] + rest;
    assert all[0] == x && all[1] == y && all[2] == z && all[3..] == rest;
    assert b == [b[0], b[1], b[2]] + b[3..];
  }

  lemma OneGroup(b: Bytes, v: seq<Sextet>)
    requires 0 < |b| <= 3 && |v| == |b| + 1
    ensures Carries(b, v) <==> SameGroup(b, v, 0)
  {
    hide SameGroup;
  }

  lemma {:induction false} FromLength(v: seq<Sextet>)
    requires |v| % 4 != 1
    ensures var n := |FromSextets(v)|; |v| == n + (n + 2) / 3
    decreases |v|
  {
    if |v| < 4 {
    } else {
      FromLength(v[4..]);
    }
  }

  lemma LengthsDiffer(b: Bytes, v: seq<Sextet>)
    requires |v| % 4 != 1 && |b| != |FromSextets(v)|
    requires var n := |FromSextets(v)|; |v| == n + (n + 2) / 3
    ensures !Carries(b, v)
  {
    hide FromSextets, SameGroup;
    var n := |FromSextets(v)|;
    if n < |b| {
      assert n + (n + 2) / 3 < |b| + (|b| + 2) / 3;
    } else {
      assert |b| + (|b| + 2) / 3 < n + (n + 2) / 3;
    }
  }

  /** The encoder writes exactly the sextets that carry the bytes and have nothing beyond their end. */
  lemma EncodesExactly(b: Bytes, v: seq<Sextet>)
    ensures ToSextets(b) == v <==> Carries(b, v) && TailClean(v)
  {
    SextetsInverse(b);
    SextetsAreClean(b);
    CarriesExactly(b, ToSextets(b));
    if Carries(b, v) && TailClean(v) {
      CarriersFit(b, v);
      CarriesExactly(b, v);
      BytesInverse(v);
    }
    hide ToSextets, FromSextets, Carries, TailClean;
  }

  lemma CarriersFit(b: Bytes, v: seq<Sextet>)
    requires Carries(b, v)
    ensures |v| % 4 != 1
  {
    hide SameGroup;
    var q, r := |b| / 3, |b| % 3;
    assert |b| == 3 * q + r;
    assert (|b| + 2) / 3 == q + (r + 2) / 3;
  }

  // ---- Texts ----

  /** The alphabet's characters for these sextets. */
  function Spelled(url: bool, v: seq<Sextet>): (r: string)
    ensures |r| == |v|
  {
    seq(|v|, i requires 0 <= i < |v| => assert |Alphabet(url)| == 64 by { AlphabetAt(url, 0); } Alphabet(url)[v[i]])
  }

  lemma SpelledIsChars(url: bool, v: seq<Sextet>)
    ensures Spelled(url, v) == Chars(url, v)
  {
    forall i | 0 <= i < |v| ensures Spelled(url, v)[i] == Chars(url, v)[i] {
      AlphabetAt(url, v[i]);
    }
  }

  /** The text, filled up with equals signs to a multiple of four characters if `padded`. */
  predicate FilledUp(s: string, text: string, padded: bool) {
    && |text| <= |s| && s[..|text|] == text && (forall i :: |text| <= i < |s| ==> s[i] == '=')
    && |s| == if padded then (|text| + 3) / 4 * 4 else |text|
  }

  lemma FilledExactly(s: string, text: string)
    requires |text| % 4 != 1
    ensures FilledUp(s, text, true) <==> s == text + Pads(Fill(|text|))
    ensures FilledUp(s, text, false) <==> s == text
  {
    var n := |text|;
    assert n + Fill(n) == (n + 3) / 4 * 4;
    hide Fill;
    if FilledUp(s, text, true) {
      assert s == s[..n] + s[n..];
      assert s[n..] == Pads(Fill(n));
    }
    assert text + Pads(Fill(n)) == s ==> s[..n] == text;
    if FilledUp(s, text, false) {
      assert s == s[..n];
    }
  }

  /** What an encoder writes, from the standard alone. */
  lemma EncodingExactly(d: Dialect, b: Bytes, s: string)
    ensures Encode(d, b) == s <==>
            exists v :: Carries(b, v) && TailClean(v) && FilledUp(s, Spelled(d.url, v), d.padded)
  {
    var v := ToSextets(b);
    EncodesExactly(b, v);
    SpelledIsChars(d.url, v);
    FilledExactly(s, Chars(d.url, v));
    assert Chars(d.url, v) + "" == Chars(d.url, v);
    hide ToSextets, Carries, TailClean, FilledUp, Fill, Spelled;
    forall w | Carries(b, w) && TailClean(w) && FilledUp(s, Spelled(d.url, w), d.padded)
      ensures w == v
    {
      EncodesExactly(b, w);
    }
  }

  lemma BodyExactly(url: bool, s: string, b: Bytes)
    ensures DecodeBody(url, s) == Some(b) <==> exists v :: Carries(b, v) && s == Spelled(url, v)
  {
    if DecodeBody(url, s) == Some(b) {
      var v := Values(url, s);
      CarriesExactly(b, v);
      CharsOfValues(url, s);
      SpelledIsChars(url, v);
      assert Carries(b, v) && s == Spelled(url, v);
    }
    forall v | Carries(b, v) && s == Spelled(url, v) ensures DecodeBody(url, s) == Some(b) {
      SpelledIsChars(url, v);
      CarriersFit(b, v);
      ValuesOfChars(url, v);
      CarriesExactly(b, v);
    }
  }

  lemma FilledBody(clean: string, text: string)
    requires |text| % 4 != 1 && (text == "" || text[|text| - 1] != '=')
    ensures FilledUp(clean, text, true) <==>
            |clean| % 4 == 0 && |clean| - BodyLength(clean) <= 2 && clean[..BodyLength(clean)] == text
  {
    var n := BodyLength(clean);
    hide BodyLength;
    if FilledUp(clean, text, true) {
      FilledExactly(clean, text);
      PadsAreNotBody(text, Fill(|text|));
    }
    if |clean| % 4 == 0 && |clean| - n <= 2 && clean[..n] == text {
      RoundUp(n, |clean|);
    }
  }

  lemma RoundUp(n: nat, m: nat)
    requires n <= m <= n + 2 && m % 4 == 0
    ensures m == (n + 3) / 4 * 4
  {
  }

  lemma EndsInNoPad(url: bool, v: seq<Sextet>)
    ensures Spelled(url, v) == "" || Spelled(url, v)[|v| - 1] != '='
  {
    SpelledIsChars(url, v);
    CharsEndInNoPad(url, v);
  }

  /** What each of Go's decoders accepts: line breaks aside, what carries the bytes, filled up or not. */
  lemma DecodingExactly(d: Dialect, s: string, b: Bytes)
    ensures Decode(d, s) == Some(b) <==>
            exists v :: Carries(b, v) && FilledUp(WithoutBreaks(s), Spelled(d.url, v), d.padded)
  {
    var clean := WithoutBreaks(s);
    var n := BodyLength(clean);
    hide WithoutBreaks, BodyLength, DecodeBody, Carries, Spelled, FilledUp, Fill;
    BodyExactly(d.url, if d.padded then clean[..n] else clean, b);
    forall v | Carries(b, v)
      ensures FilledUp(clean, Spelled(d.url, v), d.padded) <==>
              if d.padded then |clean| % 4 == 0 && |clean| - n <= 2 && clean[..n] == Spelled(d.url, v)
              else clean == Spelled(d.url, v)
    {
      CarriersFit(b, v);
      EndsInNoPad(d.url, v);
      FilledBody(clean, Spelled(d.url, v));
      FilledExactly(clean, Spelled(d.url, v));
    }
  }

  lemma ThreeTexts(a: string, b: string, c: string)
    ensures a + b + c == a + (b + c)
  {
  }

  /** Only carriage returns and line feeds are skipped. */
  lemma {:induction false} BreaksAreSkipped(s: string, c: char, t: string)
    ensures WithoutBreaks("") == "" && WithoutBreaks([c] + t) == (if c in "\r\n" then "" else [c]) + WithoutBreaks(t)
    ensures WithoutBreaks(s + t) == WithoutBreaks(s) + WithoutBreaks(t)
  {
    assert ([c] + t)[1..] == t;
    if s == "" {
      assert s + t == t;
    } else {
      BreaksAreSkipped(s[1..], c, t);
      assert (s + t)[1..] == s[1..] + t;
      ThreeTexts(if s[0] == '\r' || s[0] == '\n' then "" else [s[0]], WithoutBreaks(s[1..]), WithoutBreaks(t));
    }
  }

  /** Only the white space of ASCII is skipped. */
  lemma {:induction false} SpacesAreSkipped(s: string, c: char, t: string)
    ensures WithoutAsciiSpace("") == ""
    ensures WithoutAsciiSpace([c] + t) == (if c in "\t\n\U{c}\r " then "" else [c]) + WithoutAsciiSpace(t)
    ensures WithoutAsciiSpace(s + t) == WithoutAsciiSpace(s) + WithoutAsciiSpace(t)
  {
    assert ([c] + t)[1..] == t;
    if s == "" {
      assert s + t == t;
    } else {
      SpacesAreSkipped(s[1..], c, t);
      assert (s + t)[1..] == s[1..] + t;
      ThreeTexts(if IsAsciiSpace(s[0]) then "" else [s[0]], WithoutAsciiSpace(s[1..]), WithoutAsciiSpace(t));
    }
  }

  /** What `atob` looks up in the alphabet. */
  function AtobBody(clean: string): string {
    var n := BodyLength(clean);
    if |clean| % 4 != 0 then clean else if |clean| - n <= 2 then clean[..n] else clean[..|clean| - 2]
  }

  lemma AtobReadsBody(s: string)
    ensures Atob(s) == DecodeBody(false, AtobBody(WithoutAsciiSpace(s)))
  {
    hide WithoutAsciiSpace, DecodeBody, BodyLength;
  }

  lemma BareOrFilled(clean: string, b: Bytes, v: seq<Sextet>)
    requires Carries(b, v)
    ensures AtobBody(clean) == Spelled(false, v) <==>
            clean == Spelled(false, v) || FilledUp(clean, Spelled(false, v), true)
  {
    CarriersFit(b, v);
    EndsInNoPad(false, v);
    var text := Spelled(false, v);
    hide Carries, Spelled, FilledUp;
    FilledBody(clean, text);
    BodyOrWhole(clean, BodyLength(clean), AtobBody(clean), text);
  }

  /** What the browser's decoder accepts: ASCII white space aside, what carries the bytes, filled up or bare. */
  lemma AtobExactly(s: string, b: Bytes)
    ensures var clean := WithoutAsciiSpace(s);
            Atob(s) == Some(b) <==>
            exists v :: Carries(b, v) && (clean == Spelled(false, v) || FilledUp(clean, Spelled(false, v), true))
  {
    var clean := WithoutAsciiSpace(s);
    hide Atob, AtobBody, WithoutAsciiSpace, DecodeBody, Carries, Spelled, FilledUp;
    AtobReadsBody(s);
    BodyExactly(false, AtobBody(clean), b);
    forall v | Carries(b, v)
      ensures AtobBody(clean) == Spelled(false, v) <==>
              clean == Spelled(false, v) || FilledUp(clean, Spelled(false, v), true)
    {
      BareOrFilled(clean, b, v);
    }
  }

  lemma BodyOrWhole(clean: string, n: nat, body: string, text: string)
    requires n <= |clean| && (forall i :: n <= i < |clean| ==> clean[i] == '=')
    requires body == if |clean| % 4 != 0 then clean else if |clean| - n <= 2 then clean[..n] else clean[..|clean| - 2]
    requires n > 0 ==> clean[n - 1] != '='
    requires text == "" || text[|text| - 1] != '='
    ensures body == text <==> clean == text || (|clean| % 4 == 0 && |clean| - n <= 2 && clean[..n] == text)
  {
    if clean == text {
      assert n == |clean|;
      assert clean[..n] == clean;
    }
    if |clean| % 4 == 0 && |clean| - n > 2 {
      assert body[|body| - 1] == '=';
    }
  }

  // ---- UTF-8 (section 3 of RFC 3629) ----

  /** The payload of a continuation byte. */
  predicate Continues(b: byte, bits: int) {
    0 <= bits < 64 && b as int == 128 + bits
  }

  /** The table of the standard: the shortest of the four forms, with the number's bits in order. */
  predicate InTable(n: int, r: Bytes) {
    || (|r| == 1 && n < 0x80 && r[0] as int == n)
    || (|r| == 2 && 0x80 <= n < 0x800 && r[0] as int == 0xC0 + n / 0x40 && Continues(r[1], n % 0x40))
    || (|r| == 3 && 0x800 <= n < 0x10000 && r[0] as int == 0xE0 + n / 0x1000
        && Continues(r[1], n / 0x40 % 0x40) && Continues(r[2], n % 0x40))
    || (|r| == 4 && 0x10000 <= n < 0x110000 && r[0] as int == 0xF0 + n / 0x40000
        && Continues(r[1], n / 0x1000 % 0x40) && Continues(r[2], n / 0x40 % 0x40) && Continues(r[3], n % 0x40))
  }

  lemma Utf8CharExactly(c: char, r: Bytes)
    ensures Utf8Char(c) == r <==> InTable(c as int, r)
  {
    CharIsScalar(c);
    var n := c as int;
    assert n / 64 / 64 == n / 0x1000;
    assert n / 64 / 64 / 64 == n / 0x40000;
  }

  /** A text is its characters one after another; and the decoder reads exactly what is the encoding of a text. */
  lemma {:induction false} Utf8Exactly(a: string, c: char, b: Bytes, text: string)
    ensures Utf8(a + [c]) == Utf8(a) + Utf8Char(c)
    ensures Utf8Decode(b) == Some(text) <==> Utf8(text) == b
    decreases |a|
  {
    Utf8RoundTrip(text);
    if Utf8Decode(b) == Some(text) {
      Utf8IsUnique(b);
    }
    hide Utf8Char, Utf8Decode;
    if a == "" {
      assert a + [c] == [c] && [c][1..] == "";
      assert Utf8("") == [];
    } else {
      assert (a + [c])[1..] == a[1..] + [c];
      Utf8Exactly(a[1..], c, b, text);
    }
  }

  // ---- The client's decoder ----

  /** `t` is `s` in the standard alphabet, filled up to a multiple of four characters. */
  predicate Restored(s: string, t: string) {
    && |t| == (|s| + 3) / 4 * 4
    && (forall i :: 0 <= i < |s| ==> t[i] == if s[i] == '-' then '+' else if s[i] == '_' then '/' else s[i])
    && (forall i :: |s| <= i < |t| ==> t[i] == '=')
  }

  lemma RestoredExactly(s: string, t: string)
    ensures Restored(s, t) <==> t == Padded(ReplaceChar(ReplaceChar(s, '-', '+'), '_', '/'))
  {
    var plain := ReplaceChar(ReplaceChar(s, '-', '+'), '_', '/');
    var n := |s|;
    assert n + Fill(n) == (n + 3) / 4 * 4;
    hide Fill;
    if Restored(s, t) {
      assert t[..n] == plain;
      assert t[n..] == Pads(Fill(n));
      assert t == t[..n] + t[n..];
    }
  }

  /** A text is read exactly when the browser's decoder gives its UTF-8 bytes; else the stage that failed is told. */
  lemma ClientDecodesExactly(s: string, t: string, text: string)
    requires Restored(s, t)
    ensures ClientDecode(s) == Ok(text) <==> Atob(t) == Some(Utf8(text))
    ensures ClientDecode(s) == Err(InvalidCharacter) <==> Atob(t) == None
  {
    RestoredExactly(s, t);
    hide Atob, Utf8, Utf8Decode, Padded, Restored;
    if Atob(t).Some? {
      Utf8Exactly("", 'a', Atob(t).value, text);
    }
  }
}
