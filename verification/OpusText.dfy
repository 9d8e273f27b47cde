/**
 Enhancing a description as a text: what survives joining the lines and breaking them again, where a
 new CRLF can appear, and how often an enhancement has to be repeated.
 */
module OpusText {
  import opened Wrappers
  import opened Text
  import opened Breaks
  import opened Fmtp
  import opened FmtpBreaks
  import opened OpusSdp

  function Lines(sdp: string): (r: seq<string>)
    ensures |r| >= 1
  {
    Split(sdp, Separator(sdp))
  }

  ghost predicate AllFree(lines: seq<string>, sep: string) {
    forall line :: line in lines ==> !Contains(line, sep)
  }

  // ---- The payload type is a number ----

  predicate IsNumber(pt: string) {
    pt != "" && forall i :: 0 <= i < |pt| ==> IsDigit(pt[i])
  }

  lemma PayloadIsNumber(line: string)
    ensures OpusPayload(line).Some? ==> IsNumber(OpusPayload(line).value)
  {
    hide NamesCodec, StartsAnyCase;
  }

  lemma {:induction false} FirstPayloadIsNumber(lines: seq<string>)
    ensures FirstPayload(lines).Some? ==> IsNumber(FirstPayload(lines).value)
  {
    hide OpusPayload, IsNumber;
    if lines == [] {
    } else {
      PayloadIsNumber(lines[0]);
      FirstPayloadIsNumber(lines[1..]);
    }
  }

  // ---- The enhanced lines contain no break ----

  lemma PrefixFree(pt: string, rest: string, sep: string)
    requires IsNumber(pt) && IsBreak(sep) && !Contains(rest, sep)
    ensures !Contains(FmtpPrefix(pt) + rest, sep)
  {
    var head := "a=fmtp:" + pt;
    assert NoBreaks(head);
    NoBreaksFree(head, sep);
    hide Contains, IsNumber;
    GluedFree(head, " ", rest, sep);
    assert FmtpPrefix(pt) == head + " ";
  }

  lemma TunedFree(lower: Lowercase, pt: string, line: string, sep: string)
    requires IsNumber(pt) && IsBreak(sep) && !Contains(line, sep)
    ensures !Contains(Tuned(lower, pt, line), sep)
  {
    if IsFmtp(line, pt) {
      FmtpIsLong(line, pt);
      hide Contains, Merged, IsNumber, FmtpPrefix, Lowers;
      var rest := line[|FmtpPrefix(pt)|..];
      PartFree(line, |FmtpPrefix(pt)|, |line|, sep);
      assert line[|FmtpPrefix(pt)|..|line|] == rest;
      OpusParamsFree(sep);
      MergedFree(lower, rest, OPUS_PARAMS, sep);
      PrefixFree(pt, Merged(lower, rest, OPUS_PARAMS), sep);
    }
  }

  lemma OpusParamsNoBreaks()
    ensures NoBreaks(OPUS_PARAMS)
  {
    assert NoBreaks("useinbandfec=1") && NoBreaks("usedtx=1") && NoBreaks("stereo=0") && NoBreaks("sprop-stereo=0");
    assert NoBreaks("maxaveragebitrate=28000") && NoBreaks("cbr=0") && NoBreaks(";");
    hide NoBreaks;
    Linked("maxaveragebitrate=28000", "cbr=0");
    Linked("sprop-stereo=0", "maxaveragebitrate=28000" + ";" + "cbr=0");
    Linked("stereo=0", "sprop-stereo=0" + ";" + ("maxaveragebitrate=28000" + ";" + "cbr=0"));
    Linked("usedtx=1", "stereo=0" + ";" + ("sprop-stereo=0" + ";" + ("maxaveragebitrate=28000" + ";" + "cbr=0")));
    Linked("useinbandfec=1",
      "usedtx=1" + ";" + ("stereo=0" + ";" + ("sprop-stereo=0" + ";" + ("maxaveragebitrate=28000" + ";" + "cbr=0"))));
  }

  lemma Linked(a: string, b: string)
    requires NoBreaks(a) && NoBreaks(b)
    ensures NoBreaks(a + ";" + b)
  {
    NoBreaksConcat(a, ";");
    NoBreaksConcat(a + ";", b);
  }

  lemma OpusParamsFree(sep: string)
    requires IsBreak(sep)
    ensures !Contains(OPUS_PARAMS, sep)
  {
    OpusParamsNoBreaks();
    hide OPUS_PARAMS, NoBreaks;
    NoBreaksFree(OPUS_PARAMS, sep);
  }

  lemma EnhancedFree(lower: Lowercase, lines: seq<string>, sep: string)
    requires IsBreak(sep) && AllFree(lines, sep)
    ensures AllFree(EnhancedLines(lower, lines), sep)
  {
    FirstPayloadIsNumber(lines);
    var out := EnhancedLines(lower, lines);
    hide Contains, FirstPayload, IsNumber, Tuned, AllTuned, AllAdded, HasFmtp, IsBreak, OPUS_PARAMS, FmtpPrefix, Lowers;
    match FirstPayload(lines)
    case None =>
    case Some(pt) =>
      if HasFmtp(lines, pt) {
        AllTunedAt(lower, pt, lines);
        forall i | 0 <= i < |lines| ensures !Contains(out[i], sep) {
          TunedFree(lower, pt, lines[i], sep);
        }
      } else {
        OpusParamsFree(sep);
        PrefixFree(pt, OPUS_PARAMS, sep);
        forall line | line in out ensures !Contains(line, sep) {
          AllAddedMembers(pt, lines, line);
        }
      }
  }

  lemma {:induction false} AddedLength(pt: string, lines: seq<string>)
    ensures |AllAdded(pt, lines)| >= |lines|
  {
    hide MapsOpus;
    if lines == [] {
    } else {
      AddedLength(pt, lines[1..]);
    }
  }

  lemma EnhancedLength(lower: Lowercase, lines: seq<string>)
    ensures |EnhancedLines(lower, lines)| >= |lines|
  {
    hide FirstPayload, HasFmtp, AllTuned, AllAdded;
    match FirstPayload(lines)
    case None =>
    case Some(pt) =>
      AllTunedAt(lower, pt, lines);
      AddedLength(pt, lines);
  }

  lemma LinesFree(sdp: string)
    ensures AllFree(Lines(sdp), Separator(sdp))
  {
    SplitPartsAreFree(sdp, Separator(sdp));
  }

  lemma EnhancedIsJoin(lower: Lowercase, sdp: string)
    ensures Enhanced(lower, sdp) == Join(EnhancedLines(lower, Lines(sdp)), Separator(sdp))
  {
    if sdp == "" {
      SplitEmpty(Separator(sdp));
      NoPayloadInNothing();
      assert FirstPayload([""]) == None;
    }
  }

  lemma NoPayloadInNothing()
    ensures OpusPayload("") == None
  {
  }

  /** Broken at the breaks of the text received, the enhanced text is exactly the enhanced lines. */
  lemma EnhancedTextLines(lower: Lowercase, sdp: string)
    ensures Split(Enhanced(lower, sdp), Separator(sdp)) == EnhancedLines(lower, Lines(sdp))
  {
    var sep := Separator(sdp);
    hide Separator, Split, Join, Contains, EnhancedLines, Enhanced, Lowers, Borderless;
    LinesFree(sdp);
    EnhancedFree(lower, Lines(sdp), sep);
    EnhancedLength(lower, Lines(sdp));
    EnhancedIsJoin(lower, sdp);
    SeparatorsAreBorderless(sep);
    SplitOfJoin(EnhancedLines(lower, Lines(sdp)), sep);
  }

  // ---- Where a new CRLF appears ----

  /**
   The text breaks at line feeds, its last line ends in a carriage return and maps Opus, and the added
   line follows it.
   */
  predicate MakesCRLF(sdp: string) {
    !Contains(sdp, CRLF) &&
    var lines := Lines(sdp);
    var pt := FirstPayload(lines);
    && pt.Some? && !HasFmtp(lines, pt.value)
    && EndsInCR(lines[|lines| - 1]) && MapsOpus(lines[|lines| - 1], pt.value)
  }

  lemma TunedEnd(lower: Lowercase, pt: string, line: string)
    ensures EndsInCR(Tuned(lower, pt, line)) ==> EndsInCR(line)
  {
    if IsFmtp(line, pt) {
      FmtpIsLong(line, pt);
      MergedEnd(lower, line[|FmtpPrefix(pt)|..]);
      hide Merged, FmtpPrefix, Lowers;
    }
  }

  lemma OpusParamsEnd(pt: string)
    ensures !EndsInCR(FmtpPrefix(pt) + OPUS_PARAMS)
  {
    var n := |OPUS_PARAMS|;
    assert OPUS_PARAMS[n - 1] == '0';
    hide OPUS_PARAMS, FmtpPrefix;
  }

  lemma TunedInner(lower: Lowercase, pt: string, lines: seq<string>)
    requires NoInnerCR(lines)
    ensures NoInnerCR(AllTuned(lower, pt, lines))
  {
    AllTunedAt(lower, pt, lines);
    hide AllTuned, Tuned, EndsInCR;
    forall k | 0 <= k < |lines| - 1 ensures !EndsInCR(AllTuned(lower, pt, lines)[k]) {
      TunedEnd(lower, pt, lines[k]);
    }
  }

  lemma {:induction false} AddedConcat(pt: string, a: seq<string>, b: seq<string>)
    ensures AllAdded(pt, a + b) == AllAdded(pt, a) + AllAdded(pt, b)
  {
    hide Added;
    if a == [] {
      assert a + b == b;
    } else {
      assert (a + b)[0] == a[0] && (a + b)[1..] == a[1..] + b;
      AddedConcat(pt, a[1..], b);
    }
  }

  /** No carriage return at the end of any line. */
  ghost predicate NoCREnds(lines: seq<string>) {
    forall line :: line in lines ==> !EndsInCR(line)
  }

  lemma AddedNoCREnds(pt: string, lines: seq<string>)
    requires NoCREnds(lines)
    ensures NoCREnds(AllAdded(pt, lines))
  {
    OpusParamsEnd(pt);
    hide EndsInCR, AllAdded, OPUS_PARAMS, FmtpPrefix, MapsOpus;
    forall line | line in AllAdded(pt, lines) ensures !EndsInCR(line) {
      AllAddedMembers(pt, lines, line);
    }
  }

  lemma InitHasNoCREnds(lines: seq<string>)
    requires lines != [] && NoInnerCR(lines)
    ensures NoCREnds(lines[..|lines| - 1])
  {
    hide EndsInCR;
    var init := lines[..|lines| - 1];
    forall line | line in init ensures !EndsInCR(line) {
      var i :| 0 <= i < |init| && init[i] == line;
      assert lines[i] == line;
    }
  }

  lemma InnerOfAppended(init: seq<string>, last: string)
    requires NoCREnds(init)
    ensures NoInnerCR(init + [last])
  {
    hide EndsInCR;
    forall k | 0 <= k < |init| ensures !EndsInCR((init + [last])[k]) {
      assert init[k] in init;
    }
  }

  lemma AddedOne(pt: string, line: string)
    ensures AllAdded(pt, [line]) == Added(pt, line)
  {
    assert [line][1..] == [];
    hide MapsOpus;
  }

  lemma AddedInit(pt: string, lines: seq<string>)
    requires lines != []
    ensures AllAdded(pt, lines) == AllAdded(pt, lines[..|lines| - 1]) + Added(pt, lines[|lines| - 1])
  {
    var init, last := lines[..|lines| - 1], lines[|lines| - 1];
    assert init + [last] == lines;
    hide AllAdded;
    AddedConcat(pt, init, [last]);
    AddedOne(pt, last);
  }

  /** Added lines leave carriage returns at the end, unless the last line had one and is followed. */
  lemma AddedInner(pt: string, lines: seq<string>)
    requires lines != [] && NoInnerCR(lines)
    requires !(EndsInCR(lines[|lines| - 1]) && MapsOpus(lines[|lines| - 1], pt))
    ensures NoInnerCR(AllAdded(pt, lines))
  {
    var init, last := lines[..|lines| - 1], lines[|lines| - 1];
    OpusParamsEnd(pt);
    AddedInit(pt, lines);
    InitHasNoCREnds(lines);
    AddedNoCREnds(pt, init);
    var front := AllAdded(pt, init);
    hide EndsInCR, AllAdded, OPUS_PARAMS, FmtpPrefix, MapsOpus, NoInnerCR;
    if MapsOpus(last, pt) {
      var extra := FmtpPrefix(pt) + OPUS_PARAMS;
      InnerOfAppended(front + [last], extra);
      assert front + [last, extra] == front + [last] + [extra];
    } else {
      InnerOfAppended(front, last);
    }
  }

  lemma LFLines(sdp: string)
    requires !Contains(sdp, CRLF)
    ensures Separator(sdp) == LF && NoInnerCR(Lines(sdp))
  {
    SplitHasNoInnerCR(sdp);
  }

  lemma EnhancedInner(lower: Lowercase, sdp: string)
    requires !Contains(sdp, CRLF) && !MakesCRLF(sdp)
    ensures NoInnerCR(EnhancedLines(lower, Lines(sdp)))
  {
    hide Lines, Contains, FirstPayload, HasFmtp, AllTuned, AllAdded, NoInnerCR, EndsInCR, MapsOpus, Separator;
    LFLines(sdp);
    var lines := Lines(sdp);
    match FirstPayload(lines)
    case None =>
    case Some(pt) =>
      if HasFmtp(lines, pt) {
        TunedInner(lower, pt, lines);
      } else {
        AddedInner(pt, lines);
      }
  }

  lemma CRLFMeansTwoLines(s: string)
    requires Contains(s, CRLF)
    ensures |Split(s, CRLF)| >= 2
  {
    FindContains(s, CRLF);
  }

  lemma TwoLinesMeanCRLF(lines: seq<string>)
    requires |lines| >= 2
    ensures Contains(Join(lines, CRLF), CRLF)
  {
    var s := lines[0] + CRLF + Join(lines[1..], CRLF);
    assert OccursAt(s, CRLF, |lines[0]|);
  }

  /** Otherwise the enhanced text breaks where the lines were joined. */
  lemma SameBreaks(lower: Lowercase, sdp: string)
    requires !MakesCRLF(sdp)
    ensures Separator(Enhanced(lower, sdp)) == Separator(sdp)
    ensures Lines(Enhanced(lower, sdp)) == EnhancedLines(lower, Lines(sdp))
  {
    var out := EnhancedLines(lower, Lines(sdp));
    EnhancedTextLines(lower, sdp);
    EnhancedIsJoin(lower, sdp);
    if Contains(sdp, CRLF) {
      CRLFMeansTwoLines(sdp);
      EnhancedLength(lower, Lines(sdp));
      hide Enhanced, Join, Split, Contains, EnhancedLines, MakesCRLF;
      TwoLinesMeanCRLF(out);
    } else {
      EnhancedInner(lower, sdp);
      LinesFree(sdp);
      EnhancedFree(lower, Lines(sdp), LF);
      hide Enhanced, Join, Split, Contains, EnhancedLines, MakesCRLF, NoInnerCR;
      JoinHasNoCRLF(out);
    }
  }
}
