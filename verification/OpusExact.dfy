/**
 What enhancing a description does, line by line (web/ui.go:3165-3208), with the patterns of the program
 written out as texts: which lines map which payload to Opus, which are its fmtp lines, what becomes of
 each, and where a missing one is added.
 */
module OpusExact {
  import opened Wrappers
  import opened Text
  import opened Breaks
  import opened Fmtp
  import opened OpusSdp
  import opened OpusText
  import opened OpusLocality

  // ---- Patterns ----

  /** `s` is `small`, which is in small letters, but for capitals of the ASCII alphabet. */
  predicate AnyCase(s: string, small: string) {
    && |s| == |small|
    && forall i :: 0 <= i < |s| ==>
                     s[i] == small[i] || ('A' <= s[i] <= 'Z' && s[i] as int + 32 == small[i] as int)
  }

  predicate NoCapitals(s: string) {
    forall i :: 0 <= i < |s| ==> !('A' <= s[i] <= 'Z')
  }

  ghost predicate AllSpaces(s: string) {
    forall i :: 0 <= i < |s| ==> IsJsSpace(s[i])
  }

  lemma StartsExactly(s: string, small: string)
    requires NoCapitals(small)
    ensures StartsAnyCase(s, small) <==> |small| <= |s| && AnyCase(s[..|small|], small)
  {
    StartsChars(s, small);
    if |small| <= |s| {
      assert forall i :: 0 <= i < |small| ==> s[..|small|][i] == s[i];
    }
    hide StartsAnyCase;
  }

  /** White space, at least one, then the name of the codec. */
  ghost predicate SpacedName(s: string, codec: string) {
    exists spaces, name, rest ::
      s == spaces + name + rest && spaces != "" && AllSpaces(spaces) && AnyCase(name, codec)
  }

  lemma NamesExactly(s: string, codec: string)
    requires NoCapitals(codec) && codec != "" && codec[0] == 'o'
    ensures NamesCodec(s, codec) <==> SpacedName(s, codec)
  {
    var m := RunOf(s, IsJsSpace);
    StartsExactly(s[m..], codec);
    hide RunOf, StartsAnyCase;
    if NamesCodec(s, codec) {
      var spaces, name, rest := s[..m], s[m..][..|codec|], s[m..][|codec|..];
      assert s == spaces + name + rest;
    }
    forall spaces, name, rest |
      s == spaces + name + rest && spaces != "" && AllSpaces(spaces) && AnyCase(name, codec)
      ensures NamesCodec(s, codec)
    {
      NameAfterSpaces(s, spaces, name, rest, codec);
    }
  }

  lemma NameAfterSpaces(s: string, spaces: string, name: string, rest: string, codec: string)
    requires NoCapitals(codec) && codec != "" && codec[0] == 'o'
    requires s == spaces + name + rest && spaces != "" && AllSpaces(spaces) && AnyCase(name, codec)
    ensures NamesCodec(s, codec)
  {
    var n := |spaces|;
    assert s[n] == name[0];
    assert !IsJsSpace('o') && !IsJsSpace('O');
    assert forall i :: 0 <= i < n ==> s[i] == spaces[i];
    hide RunOf, IsJsSpace;
    RunOfIs(s, n, IsJsSpace);
    assert s[n..][..|codec|] == name;
    StartsExactly(s[n..], codec);
    hide StartsAnyCase;
  }

  /** "a=rtpmap:", a payload type, white space, and the name of the codec; what follows does not matter. */
  ghost predicate Spells(line: string, pt: string, codec: string) {
    exists head, after :: line == head + pt + after && AnyCase(head, "a=rtpmap:") && SpacedName(after, codec)
  }

  lemma CutTwice(s: string, i: nat, j: nat)
    requires i <= j <= |s|
    ensures s == s[..i] + s[i..j] + s[j..]
  {
  }

  lemma Parts(head: string, pt: string, after: string)
    ensures var s := head + pt + after;
            s[..|head|] == head && s[|head|..] == pt + after && s[|head|..][..|pt|] == pt
            && s[|head|..][|pt|..] == after && s[|head| + |pt|..] == after
  {
  }

  lemma NamedIsSpelled(line: string, pt: string)
    requires MapsOpus(line, pt)
    ensures Spells(line, pt, "opus")
  {
    StartsExactly(line, RTPMAP);
    var n := |RTPMAP| + |pt|;
    assert line[|RTPMAP|..n] == line[|RTPMAP|..][..|pt|] == pt;
    hide StartsAnyCase, NamesCodec, AnyCase, SpacedName;
    NamesExactly(line[n..], "opus");
    CutTwice(line, |RTPMAP|, n);
  }

  lemma SpelledIsNamed(line: string, pt: string)
    requires Spells(line, pt, "opus")
    ensures MapsOpus(line, pt)
  {
    hide StartsAnyCase, NamesCodec, AnyCase, SpacedName;
    var head, after :| line == head + pt + after && AnyCase(head, "a=rtpmap:") && SpacedName(after, "opus");
    Parts(head, pt, after);
    SameLength(head, "a=rtpmap:");
    StartsExactly(line, RTPMAP);
    NamesExactly(after, "opus");
  }

  /** Where a missing line is added. */
  lemma MapsExactly(line: string, pt: string)
    ensures MapsOpus(line, pt) <==> Spells(line, pt, "opus")
  {
    hide MapsOpus, Spells;
    if MapsOpus(line, pt) {
      NamedIsSpelled(line, pt);
    }
    if Spells(line, pt, "opus") {
      SpelledIsNamed(line, pt);
    }
  }

  lemma SameLength(s: string, small: string)
    requires AnyCase(s, small)
    ensures |s| == |small|
  {
  }

  lemma SpacesStart(s: string, codec: string)
    requires SpacedName(s, codec)
    ensures s != "" && IsJsSpace(s[0])
  {
  }

  lemma PayloadParts(line: string, pt: string)
    requires OpusPayload(line) == Some(pt)
    ensures StartsAnyCase(line, RTPMAP) && IsNumber(pt) && |RTPMAP| + |pt| <= |line|
    ensures line[|RTPMAP|..|RTPMAP| + |pt|] == pt && NamesCodec(line[|RTPMAP| + |pt|..], "opus/48000")
  {
    assert |RTPMAP| <= |line|;
    hide StartsAnyCase, NamesCodec, IsDigit;
    var n := RunOf(line[|RTPMAP|..], IsDigit);
    hide RunOf;
    SliceTwice(line, |RTPMAP|, |RTPMAP| + n);
  }

  lemma PayloadIsSpelled(line: string, pt: string)
    requires OpusPayload(line) == Some(pt)
    ensures IsNumber(pt) && Spells(line, pt, "opus/48000")
  {
    hide OpusPayload, StartsAnyCase, NamesCodec, AnyCase, SpacedName, IsNumber;
    PayloadParts(line, pt);
    StartsExactly(line, RTPMAP);
    CutTwice(line, |RTPMAP|, |RTPMAP| + |pt|);
    NamesExactly(line[|RTPMAP| + |pt|..], "opus/48000");
  }

  lemma SpelledIsPayload(line: string, pt: string)
    requires IsNumber(pt) && Spells(line, pt, "opus/48000")
    ensures OpusPayload(line) == Some(pt)
  {
    StartsExactly(line, RTPMAP);
    hide StartsAnyCase, NamesCodec, AnyCase, SpacedName, RunOf, IsDigit;
    var head, after :| line == head + pt + after && AnyCase(head, "a=rtpmap:") && SpacedName(after, "opus/48000");
    hide OpusPayload, IsNumber;
    Parts(head, pt, after);
    SameLength(head, "a=rtpmap:");
    SpacesStart(after, "opus/48000");
    DigitsThenSpace(pt, after);
    NamesExactly(after, "opus/48000");
    NumberIsSome(pt);
    PayloadIs(line, |RTPMAP| + |pt|);
    SliceTwice(line, |RTPMAP|, |RTPMAP| + |pt|);
  }

  lemma NumberIsSome(pt: string)
    requires IsNumber(pt)
    ensures |pt| > 0
  {
  }

  /** The payload type a line maps to Opus at 48 kHz. */
  lemma PayloadExactly(line: string, pt: string)
    ensures OpusPayload(line) == Some(pt) <==> IsNumber(pt) && Spells(line, pt, "opus/48000")
  {
    hide OpusPayload, Spells, IsNumber;
    if OpusPayload(line) == Some(pt) {
      PayloadIsSpelled(line, pt);
    }
    if IsNumber(pt) && Spells(line, pt, "opus/48000") {
      SpelledIsPayload(line, pt);
    }
  }

  lemma DigitsThenSpace(pt: string, after: string)
    requires IsNumber(pt) && after != "" && IsJsSpace(after[0])
    ensures RunOf(pt + after, IsDigit) == |pt|
  {
    var s := pt + after;
    assert s[|pt|] == after[0] && !IsDigit(after[0]);
    assert forall i :: 0 <= i < |pt| ==> s[i] == pt[i];
    hide RunOf, IsDigit;
    RunOfIs(s, |pt|, IsDigit);
  }

  // ---- Lines ----

  /** The parameters the client asks for. */
  const WANTED :=
    "useinbandfec=1" + ";" + ("usedtx=1" + ";" + ("stereo=0" + ";" + ("sprop-stereo=0" + ";" +
    ("maxaveragebitrate=28000" + ";" + "cbr=0"))))

  lemma WantedIsAsked()
    ensures OPUS_PARAMS == WANTED
  {
  }

  /** A line of parameters for the payload type. */
  ghost predicate Parameters(line: string, pt: string) {
    exists rest :: line == "a=fmtp:" + pt + " " + rest || line == "a=fmtp:" + pt + "=" + rest
  }

  lemma ParametersExactly(line: string, pt: string)
    ensures IsFmtp(line, pt) <==> Parameters(line, pt)
  {
    var n := |pt| + 8;
    if HasPrefix(line, FmtpPrefix(pt)) {
      assert line == "a=fmtp:" + pt + " " + line[n..];
    }
    if HasPrefix(line, "a=fmtp:" + pt + "=") {
      assert line == "a=fmtp:" + pt + "=" + line[n..];
    }
    forall rest | line == "a=fmtp:" + pt + " " + rest ensures HasPrefix(line, FmtpPrefix(pt)) {
      assert line[..n] == FmtpPrefix(pt);
    }
    forall rest | line == "a=fmtp:" + pt + "=" + rest ensures HasPrefix(line, "a=fmtp:" + pt + "=") {
      assert line[..n] == "a=fmtp:" + pt + "=";
    }
  }

  /** `pt` is what the first line that maps any payload type to Opus at 48 kHz maps to it. */
  ghost predicate FirstMapped(lines: seq<string>, pt: string) {
    exists k ::
      0 <= k < |lines| && IsNumber(pt) && Spells(lines[k], pt, "opus/48000") &&
      forall i, other :: 0 <= i < k && IsNumber(other) ==> !Spells(lines[i], other, "opus/48000")
  }

  ghost predicate MapsSome(line: string) {
    exists pt :: IsNumber(pt) && Spells(line, pt, "opus/48000")
  }

  lemma MapsSomeExactly(line: string)
    ensures OpusPayload(line).Some? <==> MapsSome(line)
  {
    hide OpusPayload, Spells, IsNumber;
    if OpusPayload(line).Some? {
      PayloadExactly(line, OpusPayload(line).value);
    }
    forall pt | IsNumber(pt) && Spells(line, pt, "opus/48000") ensures OpusPayload(line).Some? {
      PayloadExactly(line, pt);
    }
  }

  lemma {:induction false} FirstPayloadFound(lines: seq<string>)
    ensures FirstPayload(lines) == None <==> forall i :: 0 <= i < |lines| ==> OpusPayload(lines[i]) == None
    ensures FirstPayload(lines).Some? ==>
              exists k :: 0 <= k < |lines| && OpusPayload(lines[k]) == FirstPayload(lines) &&
                          forall i :: 0 <= i < k ==> OpusPayload(lines[i]) == None
  {
    hide OpusPayload;
    if lines == [] {
    } else if OpusPayload(lines[0]).Some? {
      assert OpusPayload(lines[0]) == FirstPayload(lines);
    } else {
      var rest := lines[1..];
      FirstPayloadFound(rest);
      assert forall i :: 0 < i < |lines| ==> lines[i] == rest[i - 1];
      if FirstPayload(rest).Some? {
        var k :| 0 <= k < |rest| && OpusPayload(rest[k]) == FirstPayload(rest) &&
                 forall i :: 0 <= i < k ==> OpusPayload(rest[i]) == None;
        assert OpusPayload(lines[k + 1]) == FirstPayload(lines);
        forall i | 0 <= i < k + 1 ensures OpusPayload(lines[i]) == None {
          assert i > 0 ==> lines[i] == rest[i - 1];
        }
      } else {
        forall i | 0 <= i < |lines| ensures OpusPayload(lines[i]) == None {
          assert i > 0 ==> lines[i] == rest[i - 1];
        }
      }
    }
  }

  /** The payload type the enhancement looks for. */
  lemma FirstPayloadExactly(lines: seq<string>, pt: string)
    ensures FirstPayload(lines) == Some(pt) <==> FirstMapped(lines, pt)
    ensures FirstPayload(lines) == None <==> forall i :: 0 <= i < |lines| ==> !MapsSome(lines[i])
  {
    hide OpusPayload, Spells, IsNumber, FirstPayload, MapsSome;
    FirstPayloadFound(lines);
    forall i | 0 <= i < |lines| ensures OpusPayload(lines[i]).Some? <==> MapsSome(lines[i]) {
      MapsSomeExactly(lines[i]);
    }
    if FirstPayload(lines) == Some(pt) {
      var k :| 0 <= k < |lines| && OpusPayload(lines[k]) == FirstPayload(lines) &&
               forall i :: 0 <= i < k ==> OpusPayload(lines[i]) == None;
      MappedAt(lines, pt, k);
    }
    if FirstMapped(lines, pt) {
      var j :| 0 <= j < |lines| && IsNumber(pt) && Spells(lines[j], pt, "opus/48000") &&
               forall i, other :: 0 <= i < j && IsNumber(other) ==> !Spells(lines[i], other, "opus/48000");
      PayloadExactly(lines[j], pt);
      var k :| 0 <= k < |lines| && OpusPayload(lines[k]) == FirstPayload(lines) &&
               forall i :: 0 <= i < k ==> OpusPayload(lines[i]) == None;
      NoneBefore(lines, j, k);
    }
  }

  lemma MappedAt(lines: seq<string>, pt: string, k: nat)
    requires k < |lines| && OpusPayload(lines[k]) == Some(pt)
    requires forall i :: 0 <= i < k ==> OpusPayload(lines[i]) == None
    ensures FirstMapped(lines, pt)
  {
    hide OpusPayload, Spells, IsNumber;
    PayloadExactly(lines[k], pt);
    forall i, other | 0 <= i < k && IsNumber(other) ensures !Spells(lines[i], other, "opus/48000") {
      PayloadExactly(lines[i], other);
    }
  }

  lemma NoneBefore(lines: seq<string>, j: nat, k: nat)
    requires j < |lines| && k < |lines| && OpusPayload(lines[j]).Some? && OpusPayload(lines[k]).Some?
    requires forall i :: 0 <= i < k ==> OpusPayload(lines[i]) == None
    requires forall i, other :: 0 <= i < j && IsNumber(other) ==> !Spells(lines[i], other, "opus/48000")
    ensures j == k
  {
    hide OpusPayload, Spells, IsNumber;
    if k < j {
      PayloadExactly(lines[k], OpusPayload(lines[k]).value);
    }
  }

  // ---- The enhancement ----

  /** How many of the lines before `i` name the codec for the payload type. */
  ghost function NamedBefore(lines: seq<string>, pt: string, i: nat): nat
    requires i <= |lines|
  {
    if i == 0 then 0 else NamedBefore(lines, pt, i - 1) + if Spells(lines[i - 1], pt, "opus") then 1 else 0
  }

  /** Every line stays, but those of parameters, which ask for the wanted ones merged into their own. */
  ghost predicate Merges(lower: Lowercase, lines: seq<string>, pt: string, out: seq<string>) {
    && |out| == |lines|
    && forall i :: 0 <= i < |lines| ==>
                     out[i] == if Parameters(lines[i], pt) && |lines[i]| >= |pt| + 8
                               then "a=fmtp:" + pt + " " + Merged(lower, lines[i][|pt| + 8..], WANTED)
                               else lines[i]
  }

  lemma TunedMerges(lower: Lowercase, pt: string, lines: seq<string>)
    ensures Merges(lower, lines, pt, AllTuned(lower, pt, lines))
  {
    AllTunedAt(lower, pt, lines);
    WantedIsAsked();
    hide AllTuned, Merged, WANTED, OPUS_PARAMS, IsFmtp, Parameters;
    forall i | 0 <= i < |lines| ensures IsFmtp(lines[i], pt) <==> Parameters(lines[i], pt) && |lines[i]| >= |pt| + 8 {
      ParametersExactly(lines[i], pt);
      if IsFmtp(lines[i], pt) {
        FmtpIsLong(lines[i], pt);
      }
    }
  }


  lemma AddedSnoc(pt: string, lines: seq<string>, n: nat)
    requires n < |lines|
    ensures AllAdded(pt, lines[..n + 1]) == AllAdded(pt, lines[..n]) + Added(pt, lines[n])
  {
    hide Added;
    assert lines[..n + 1] == lines[..n] + [lines[n]];
    AddedConcat(pt, lines[..n], [lines[n]]);
    assert [lines[n]][1..] == [];
  }

  /** Line `i` stands behind those before it and the new ones among them; a new one follows it if it names the codec. */
  ghost predicate Placed(lines: seq<string>, pt: string, i: nat, out: seq<string>)
    requires i < |lines|
  {
    var at := i + NamedBefore(lines, pt, i);
    && at < |out| && out[at] == lines[i]
    && (Spells(lines[i], pt, "opus") ==> at + 1 < |out| && out[at + 1] == "a=fmtp:" + pt + " " + WANTED)
  }

  /** The first `n` lines, and after each that names the codec a new one that asks for the wanted parameters. */
  ghost predicate AddsTo(lines: seq<string>, pt: string, n: nat, out: seq<string>)
    requires n <= |lines|
  {
    |out| == n + NamedBefore(lines, pt, n) && forall i :: 0 <= i < n ==> Placed(lines, pt, i, out)
  }

  lemma AddedExactly(pt: string, line: string)
    ensures Added(pt, line) == [line] + if Spells(line, pt, "opus") then ["a=fmtp:" + pt + " " + WANTED] else []
  {
    MapsExactly(line, pt);
    WantedIsAsked();
    hide MapsOpus, Spells, WANTED, OPUS_PARAMS;
  }

  lemma PlacedStays(lines: seq<string>, pt: string, i: nat, out: seq<string>, more: seq<string>)
    requires i < |lines| && Placed(lines, pt, i, out)
    ensures Placed(lines, pt, i, out + more)
  {
    hide Spells, WANTED;
  }

  lemma PlacedLast(lines: seq<string>, pt: string, n: nat, out: seq<string>)
    requires n < |lines| && |out| == n + NamedBefore(lines, pt, n)
    ensures Placed(lines, pt, n, out + Added(pt, lines[n]))
    ensures |Added(pt, lines[n])| == 1 + NamedBefore(lines, pt, n + 1) - NamedBefore(lines, pt, n)
  {
    AddedExactly(pt, lines[n]);
    hide Spells, WANTED, Added;
    var added := Added(pt, lines[n]);
    assert (out + added)[|out|] == added[0];
    assert |added| > 1 ==> (out + added)[|out| + 1] == added[1];
  }

  lemma AddsOneMore(lines: seq<string>, pt: string, n: nat, out: seq<string>)
    requires n < |lines| && AddsTo(lines, pt, n, out)
    ensures AddsTo(lines, pt, n + 1, out + Added(pt, lines[n]))
  {
    hide Placed, Added, NamedBefore;
    PlacedLast(lines, pt, n, out);
    forall i | 0 <= i < n ensures Placed(lines, pt, i, out + Added(pt, lines[n])) {
      PlacedStays(lines, pt, i, out, Added(pt, lines[n]));
    }
  }

  lemma {:induction false} AllAddedAt(pt: string, lines: seq<string>, n: nat)
    requires n <= |lines|
    ensures AddsTo(lines, pt, n, AllAdded(pt, lines[..n]))
  {
    if n == 0 {
      assert lines[..0] == [];
    } else {
      hide AddsTo, AllAdded, Added, Placed, NamedBefore;
      AllAddedAt(pt, lines, n - 1);
      AddedSnoc(pt, lines, n - 1);
      AddsOneMore(lines, pt, n - 1, AllAdded(pt, lines[..n - 1]));
    }
  }

  lemma EnhancedLinesExactly(lower: Lowercase, lines: seq<string>, pt: string)
    ensures (forall i :: 0 <= i < |lines| ==> !MapsSome(lines[i])) ==> EnhancedLines(lower, lines) == lines
    ensures FirstMapped(lines, pt) ==>
              if exists i :: 0 <= i < |lines| && Parameters(lines[i], pt)
              then Merges(lower, lines, pt, EnhancedLines(lower, lines))
              else AddsTo(lines, pt, |lines|, EnhancedLines(lower, lines))
  {
    FirstPayloadExactly(lines, pt);
    hide MapsSome, FirstMapped, Merges, AddsTo, AllTuned, AllAdded, Parameters, IsFmtp, FirstPayload;
    forall i | 0 <= i < |lines| ensures IsFmtp(lines[i], pt) <==> Parameters(lines[i], pt) {
      ParametersExactly(lines[i], pt);
    }
    if FirstMapped(lines, pt) {
      if HasFmtp(lines, pt) {
        TunedMerges(lower, pt, lines);
      } else {
        AllAddedAt(pt, lines, |lines|);
        assert lines[..|lines|] == lines;
      }
    }
  }

  /**
   Enhancing a description. If no line of it maps a payload type to Opus at 48 kHz, nothing changes.
   Otherwise, broken where the text received is broken: if there are lines of parameters for the first
   such type, exactly those change, each asking for the wanted ones merged into its own; if there are
   none, all lines stay and a line that asks for the wanted ones follows each that names the codec for it.
   */
  lemma EnhancesExactly(lower: Lowercase, sdp: string, pt: string)
    ensures var lines := Split(sdp, Separator(sdp));
            var out := Split(Enhanced(lower, sdp), Separator(sdp));
            && ((forall i :: 0 <= i < |lines| ==> !MapsSome(lines[i])) ==> Enhanced(lower, sdp) == sdp)
            && (FirstMapped(lines, pt) ==>
                  if exists i :: 0 <= i < |lines| && Parameters(lines[i], pt)
                  then Merges(lower, lines, pt, out) else AddsTo(lines, pt, |lines|, out))
  {
    EnhancedTextLines(lower, sdp);
    EnhancedIsJoin(lower, sdp);
    JoinOfSplit(sdp, Separator(sdp));
    hide Enhanced, Separator, Split, Join, MapsSome, FirstMapped, Merges, AddsTo, Parameters, EnhancedLines;
    EnhancedLinesExactly(lower, Split(sdp, Separator(sdp)), pt);
  }
}
