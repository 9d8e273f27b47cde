/**
 The pattern that finds the Opus payload type looks at the start of a line only: nothing that follows
 a line break after a line that already names the codec can change its answer.
 */
module OpusLocality {
  import opened Wrappers
  import opened Breaks
  import opened Fmtp
  import opened OpusSdp
  import opened OpusText

  const CODEC := "opus/48000"

  lemma RunOfIs(s: string, n: nat, p: char -> bool)
    requires n < |s| && (forall i :: 0 <= i < n ==> p(s[i])) && !p(s[n])
    ensures RunOf(s, p) == n
  {
    hide RunOf;
  }

  lemma RunOfPrefix(s: string, k: nat, p: char -> bool)
    requires k <= |s| && RunOf(s, p) < k
    ensures RunOf(s[..k], p) == RunOf(s, p)
  {
    hide RunOf;
    RunOfIs(s[..k], RunOf(s, p), p);
  }

  function Low(c: char): char {
    if 'A' <= c <= 'Z' then c + ' ' else c
  }

  lemma StartsChars(s: string, prefix: string)
    ensures StartsAnyCase(s, prefix) <==>
            |prefix| <= |s| && forall i :: 0 <= i < |prefix| ==> Low(s[i]) == prefix[i]
  {
    if |prefix| <= |s| {
      var low := AsciiLower(s[..|prefix|]);
      assert forall i :: 0 <= i < |prefix| ==> low[i] == Low(s[i]);
      assert low == prefix <==> forall i :: 0 <= i < |prefix| ==> low[i] == prefix[i];
    }
  }

  /** Where the digits, the white space and the codec name end. */
  datatype Spans = Spans(digits: nat, spaces: nat, end: nat)

  function PayloadSpans(line: string): Spans
    requires OpusPayload(line).Some?
  {
    var rest := line[|RTPMAP|..];
    var n := RunOf(rest, IsDigit);
    var m := RunOf(rest[n..], IsJsSpace);
    Spans(|RTPMAP| + n, |RTPMAP| + n + m, |RTPMAP| + n + m + |CODEC|)
  }

  ghost predicate ShapedAs(line: string, at: Spans, head: string, codec: string) {
    && |head| < at.digits < at.spaces < at.end == at.spaces + |codec| <= |line|
    && (forall i :: 0 <= i < |head| ==> Low(line[i]) == head[i])
    && (forall i :: |head| <= i < at.digits ==> IsDigit(line[i]))
    && (forall i :: at.digits <= i < at.spaces ==> IsJsSpace(line[i]))
    && (forall i :: 0 <= i < |codec| ==> Low(line[at.spaces + i]) == codec[i])
  }

  ghost predicate Shaped(line: string, at: Spans) {
    ShapedAs(line, at, RTPMAP, CODEC)
  }

  lemma ShapeFits(s: string, t: string, at: Spans, head: string, codec: string)
    requires ShapedAs(s, at, head, codec) && at.end <= |t|
    requires forall i :: 0 <= i < at.end ==> t[i] == s[i]
    ensures ShapedAs(t, at, head, codec)
    ensures t[|head|..at.digits] == s[|head|..at.digits]
  {
    hide Low, IsDigit, IsJsSpace;
    forall i | 0 <= i < |codec| ensures Low(t[at.spaces + i]) == codec[i] {
      assert t[at.spaces + i] == s[at.spaces + i];
    }
  }

  lemma RunSlice(line: string, d: nat, p: char -> bool)
    requires d <= |line|
    ensures var n := RunOf(line[d..], p);
            d + n <= |line| && forall i :: d <= i < d + n ==> p(line[i])
  {
    hide RunOf;
    var n := RunOf(line[d..], p);
    forall i | d <= i < d + n ensures p(line[i]) {
      assert line[d..][i - d] == line[i];
    }
  }

  /** The white space and the codec name, wherever they stand. */
  lemma NamesCodecChars(line: string, d: nat, m: nat, codec: string)
    requires d + m <= |line|
    requires m == RunOf(line[d..], IsJsSpace)
    ensures NamesCodec(line[d..], codec) <==>
            m > 0 && d + m + |codec| <= |line| && forall i :: 0 <= i < |codec| ==> Low(line[d + m + i]) == codec[i]
  {
    hide RunOf, StartsAnyCase, Low, IsJsSpace;
    var after := line[d..][m..];
    StartsChars(after, codec);
    assert forall i :: 0 <= i < |after| ==> after[i] == line[d + m + i];
  }

  lemma PayloadShape(line: string)
    requires OpusPayload(line).Some?
    ensures Shaped(line, PayloadSpans(line))
    ensures OpusPayload(line) == Some(line[|RTPMAP|..PayloadSpans(line).digits])
  {
    var at := PayloadSpans(line);
    var n := at.digits - |RTPMAP|;
    assert line[|RTPMAP|..][n..] == line[at.digits..] && line[|RTPMAP|..][..n] == line[|RTPMAP|..at.digits];
    hide RunOf, StartsAnyCase, NamesCodec, Low, IsJsSpace, IsDigit;
    StartsChars(line, RTPMAP);
    RunSlice(line, |RTPMAP|, IsDigit);
    RunSlice(line, at.digits, IsJsSpace);
    NamesCodecChars(line, at.digits, at.spaces - at.digits, CODEC);
  }

  lemma ShapeDigits(line: string, at: Spans)
    requires Shaped(line, at)
    ensures RunOf(line[|RTPMAP|..], IsDigit) == at.digits - |RTPMAP|
  {
    assert IsJsSpace(line[at.digits]) && !IsDigit(line[at.digits]);
    hide RunOf, RTPMAP, CODEC, IsJsSpace, IsDigit, Low;
    RunOfIs(line[|RTPMAP|..], at.digits - |RTPMAP|, IsDigit);
  }

  lemma ShapeSpaces(line: string, at: Spans)
    requires Shaped(line, at)
    ensures RunOf(line[at.digits..], IsJsSpace) == at.spaces - at.digits
  {
    assert CODEC[0] == 'o' && Low(line[at.spaces + 0]) == 'o' && !IsJsSpace(line[at.spaces]);
    hide RunOf, RTPMAP, CODEC, IsJsSpace, IsDigit, Low;
    RunOfIs(line[at.digits..], at.spaces - at.digits, IsJsSpace);
  }

  lemma ShapeStarts(line: string, at: Spans)
    requires Shaped(line, at)
    ensures StartsAnyCase(line, RTPMAP)
  {
    StartsChars(line, RTPMAP);
    hide StartsAnyCase, Low, IsJsSpace, IsDigit;
  }

  lemma ShapeNames(line: string, at: Spans)
    requires Shaped(line, at)
    ensures NamesCodec(line[at.digits..], CODEC)
  {
    ShapeSpaces(line, at);
    hide RunOf, NamesCodec, Low, IsJsSpace, IsDigit;
    NamesCodecChars(line, at.digits, at.spaces - at.digits, CODEC);
  }

  lemma PayloadIs(line: string, d: nat)
    requires StartsAnyCase(line, RTPMAP) && |RTPMAP| < d <= |line|
    requires RunOf(line[|RTPMAP|..], IsDigit) == d - |RTPMAP| && NamesCodec(line[d..], CODEC)
    ensures OpusPayload(line) == Some(line[|RTPMAP|..d])
  {
    SliceTwice(line, |RTPMAP|, d);
    hide RunOf, StartsAnyCase, NamesCodec, IsDigit;
  }

  /** A line of that shape maps its digits to Opus. */
  lemma ShapeIsPayload(line: string, at: Spans)
    requires Shaped(line, at)
    ensures OpusPayload(line) == Some(line[|RTPMAP|..at.digits])
  {
    hide OpusPayload, RunOf, StartsAnyCase, NamesCodec, Low, IsJsSpace, IsDigit;
    ShapeStarts(line, at);
    ShapeDigits(line, at);
    ShapeNames(line, at);
    PayloadIs(line, at.digits);
  }

  lemma SliceTwice(s: string, i: nat, j: nat)
    requires i <= j <= |s|
    ensures s[i..][j - i..] == s[j..] && s[i..][..j - i] == s[i..j]
  {
  }

  /** Nothing after the match matters. */
  lemma PayloadOfPrefix(s: string, k: nat)
    requires OpusPayload(s).Some? && PayloadSpans(s).end <= k <= |s|
    ensures OpusPayload(s[..k]) == OpusPayload(s)
  {
    var at := PayloadSpans(s);
    PayloadShape(s);
    hide OpusPayload, PayloadSpans, IsJsSpace, IsDigit, Low;
    ShapeFits(s, s[..k], at, RTPMAP, CODEC);
    hide ShapedAs;
    ShapeIsPayload(s[..k], at);
  }

  lemma PayloadExtends(s: string, t: string)
    requires OpusPayload(s).Some?
    ensures OpusPayload(s + t) == OpusPayload(s)
  {
    var at := PayloadSpans(s);
    PayloadShape(s);
    hide OpusPayload, PayloadSpans, IsJsSpace, IsDigit, Low;
    ShapeFits(s, s + t, at, RTPMAP, CODEC);
    hide ShapedAs;
    ShapeIsPayload(s + t, at);
  }

  lemma NoBreakInNames(c: char, i: nat)
    requires c == '\r' || c == '\n'
    ensures i < |RTPMAP| ==> Low(c) != RTPMAP[i]
    ensures i < |CODEC| ==> Low(c) != CODEC[i]
    ensures !IsDigit(c)
  {
    assert NoBreaks(RTPMAP) && NoBreaks(CODEC);
  }

  lemma FrontHasNoBreak(s: string, at: Spans, i: nat)
    requires Shaped(s, at) && i < at.digits
    ensures s[i] != '\r' && s[i] != '\n'
  {
    NoBreakInNames('\r', i);
    NoBreakInNames('\n', i);
  }

  lemma CodecHasNoBreak(s: string, at: Spans, i: nat)
    requires Shaped(s, at) && at.spaces <= i < at.end
    ensures s[i] != '\r' && s[i] != '\n'
  {
    var k: nat := i - at.spaces;
    NoBreakInNames('\r', k);
    NoBreakInNames('\n', k);
    assert Low(s[at.spaces + k]) == CODEC[k];
  }

  /** Inside the match a line break can only be white space. */
  lemma BreakIsSpace(s: string, at: Spans, i: nat)
    requires Shaped(s, at) && i < at.end && (s[i] == '\r' || s[i] == '\n')
    ensures at.digits <= i < at.spaces
  {
    hide Shaped;
    if i < at.digits {
      FrontHasNoBreak(s, at, i);
    } else if i >= at.spaces {
      CodecHasNoBreak(s, at, i);
    }
  }

  // ---- A line that names the codec ----

  lemma MapsShape(line: string, pt: string)
    requires IsNumber(pt) && MapsOpus(line, pt)
    ensures var m := RunOf(line[|RTPMAP| + |pt|..], IsJsSpace);
            var w := |RTPMAP| + |pt| + m;
            && m > 0 && w + 4 <= |line|
            && (forall i :: 0 <= i < |RTPMAP| ==> Low(line[i]) == RTPMAP[i])
            && (forall i :: 0 <= i < |pt| ==> line[|RTPMAP| + i] == pt[i])
            && (forall i :: |RTPMAP| + |pt| <= i < w ==> IsJsSpace(line[i]))
            && Low(line[w]) == 'o' && line[w + 3] != '\r'
  {
    var after := line[|RTPMAP| + |pt|..];
    var m := RunOf(after, IsJsSpace);
    StartsChars(line, RTPMAP);
    StartsChars(after[m..], "opus");
    assert forall i :: 0 <= i < |pt| ==> line[|RTPMAP|..][..|pt|][i] == line[|RTPMAP| + i];
    assert after[m..][0] == line[|RTPMAP| + |pt| + m] && after[m..][3] == line[|RTPMAP| + |pt| + m + 3];
    assert Low(after[m..][3]) == 's';
    hide RunOf, StartsAnyCase;
    assert forall i :: |RTPMAP| + |pt| <= i < |line| ==> line[i] == after[i - |RTPMAP| - |pt|];
  }

  /** When the first line names the codec, the match cannot reach past it. */
  lemma FirstLineDecides(line: string, pt: string, c: char, r: string)
    requires IsNumber(pt) && MapsOpus(line, pt) && (c == '\r' || c == '\n')
    requires OpusPayload(line + [c] + r).Some?
    ensures PayloadSpans(line + [c] + r).end <= |line|
  {
    var s := line + [c] + r;
    var at := PayloadSpans(s);
    PayloadShape(s);
    assert forall i :: 0 <= i < |line| ==> s[i] == line[i];
    hide OpusPayload, PayloadSpans, MapsOpus, Shaped, IsNumber;
    FirstLineSpans(line, pt, s, at);
    if at.end > |line| {
      assert s[|line|] == c;
      BreakIsSpace(s, at, |line|);
    }
  }

  lemma FirstLineSpans(line: string, pt: string, s: string, at: Spans)
    requires IsNumber(pt) && MapsOpus(line, pt) && Shaped(s, at)
    requires |line| <= |s| && forall i :: 0 <= i < |line| ==> s[i] == line[i]
    ensures at.spaces < |line|
  {
    var m := RunOf(line[|RTPMAP| + |pt|..], IsJsSpace);
    var w := |RTPMAP| + |pt| + m;
    MapsShape(line, pt);
    assert !IsDigit(line[|RTPMAP| + |pt|]) && !IsJsSpace(line[w]);
    hide MapsOpus, RunOf, IsJsSpace, IsDigit, Low, Shaped, IsNumber;
    DigitsEnd(s, at, pt, line);
    SpacesEnd(s, at, w);
  }

  lemma DigitsEnd(s: string, at: Spans, pt: string, line: string)
    requires Shaped(s, at) && IsNumber(pt) && |RTPMAP| + |pt| < |line| <= |s|
    requires forall i :: 0 <= i < |pt| ==> s[|RTPMAP| + i] == pt[i]
    requires !IsDigit(s[|RTPMAP| + |pt|])
    ensures at.digits == |RTPMAP| + |pt|
  {
    forall i | |RTPMAP| <= i < |RTPMAP| + |pt| ensures IsDigit(s[i]) {
      assert s[|RTPMAP| + (i - |RTPMAP|)] == pt[i - |RTPMAP|];
    }
    assert !IsDigit(s[at.digits]);
  }

  lemma SpacesEnd(s: string, at: Spans, w: nat)
    requires Shaped(s, at) && at.digits < w < |s| && !IsJsSpace(s[w])
    requires forall i :: at.digits <= i < w ==> IsJsSpace(s[i])
    ensures at.spaces == w
  {
    assert CODEC[0] == 'o' && Low(s[at.spaces + 0]) == 'o' && !IsJsSpace(s[at.spaces]);
  }

  /** When a later line does, the match cannot reach it: it would have to run through a line break. */
  lemma LaterLineIsOutOfReach(front: string, line: string, pt: string, c: char, r: string)
    requires IsNumber(pt) && MapsOpus(line, pt)
    requires front != "" && front[|front| - 1] == '\n'
    requires OpusPayload(front + line + [c] + r).Some?
    ensures PayloadSpans(front + line + [c] + r).end <= |front + line|
  {
    var s := front + line + [c] + r;
    var at := PayloadSpans(s);
    var j: nat := |front| - 1;
    PayloadShape(s);
    MapsShape(line, pt);
    assert RTPMAP[0] == 'a' && CODEC[0] == 'o';
    assert s[j] == '\n' && s[j + 1] == line[0] && Low(line[0]) == 'a';
    assert !IsJsSpace(line[0]);
    hide OpusPayload, PayloadSpans, MapsOpus, RunOf, IsJsSpace, Low;
    if at.end > |front + line| {
      BreakIsSpace(s, at, j);
    }
  }

  /**
   The start of a text up to a line that names the codec decides what the text, read as a single line,
   maps to Opus.
   */
  lemma StartDecides(front: string, line: string, pt: string, c: char, r: string)
    requires IsNumber(pt) && MapsOpus(line, pt) && (c == '\r' || c == '\n')
    requires front == "" || front[|front| - 1] == '\n'
    ensures OpusPayload(front + line + [c] + r) == OpusPayload(front + line)
  {
    var p := front + line;
    var s := p + [c] + r;
    hide OpusPayload, PayloadSpans, MapsOpus;
    if OpusPayload(p).Some? {
      PayloadExtends(p, [c] + r);
      assert p + ([c] + r) == s;
    } else if OpusPayload(s).Some? {
      if front == "" {
        assert p == line;
        FirstLineDecides(line, pt, c, r);
      } else {
        LaterLineIsOutOfReach(front, line, pt, c, r);
      }
      PayloadOfPrefix(s, |p|);
      assert s[..|p|] == p;
    }
  }

  /** A carriage return at the end plays no part in naming the codec. */
  lemma MapsWithoutCR(line: string, pt: string)
    requires IsNumber(pt) && MapsOpus(line + "\r", pt)
    ensures MapsOpus(line, pt)
  {
    var long := line + "\r";
    var after := long[|RTPMAP| + |pt|..];
    var m := RunOf(after, IsJsSpace);
    var w := |RTPMAP| + |pt| + m;
    MapsShape(long, pt);
    assert w + 4 <= |line|;
    StartsChars(long, RTPMAP);
    StartsChars(line, RTPMAP);
    StartsChars(after[m..], "opus");
    var k: nat := |line| - |RTPMAP| - |pt|;
    assert after[..k] == line[|RTPMAP| + |pt|..];
    RunOfPrefix(after, k, IsJsSpace);
    StartsChars(after[..k][m..], "opus");
    assert long[|RTPMAP|..][..|pt|] == line[|RTPMAP|..][..|pt|];
  }
}
