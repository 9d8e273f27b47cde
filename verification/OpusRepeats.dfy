/** Enhancing a description again and again: exactly when the second or third time changes nothing. */
module OpusRepeats {
  import opened Wrappers
  import opened Text
  import opened Breaks
  import opened Fmtp
  import opened FmtpPasses
  import opened FmtpBreaks
  import opened OpusSdp
  import opened OpusPasses
  import opened OpusText
  import opened OpusLocality

  function Extra(pt: string): string {
    FmtpPrefix(pt) + OPUS_PARAMS
  }

  // ---- Joining ----

  lemma {:induction false} JoinConcat(a: seq<string>, b: seq<string>, sep: string)
    requires a != [] && b != []
    ensures Join(a + b, sep) == Join(a, sep) + sep + Join(b, sep)
    decreases |a|
  {
    if |a| == 1 {
      assert a == [a[0]];
      JoinCons(a[0], b, sep);
    } else {
      var rest := a[1..];
      JoinConcat(rest, b, sep);
      assert [a[0]] + rest == a && [a[0]] + (rest + b) == a + b;
      JoinCons(a[0], rest, sep);
      JoinCons(a[0], rest + b, sep);
      Grouping(a[0], sep, Join(rest, sep), sep + Join(b, sep));
    }
  }

  lemma Grouping(a: string, b: string, c: string, d: string)
    ensures a + b + (c + d) == a + b + c + d
  {
  }

  lemma JoinOne(line: string, sep: string)
    ensures Join([line], sep) == line
  {
  }

  /** The front of a text before its last line. */
  function FrontOf(lines: seq<string>): string {
    if lines == [] then "" else Join(lines, LF) + LF
  }

  lemma JoinFront(lines: seq<string>, last: string)
    ensures Join(lines + [last], LF) == FrontOf(lines) + last
  {
    if lines == [] {
      assert lines + [last] == [last];
    } else {
      JoinConcat(lines, [last], LF);
    }
  }

  // ---- As long as no CRLF is made ----

  lemma SameTextSameLines(a: seq<string>, b: seq<string>, sep: string)
    requires IsBreak(sep) && AllFree(a, sep) && AllFree(b, sep) && a != [] && b != []
    ensures Join(a, sep) == Join(b, sep) <==> a == b
  {
    SeparatorsAreBorderless(sep);
    hide Join, Split, Borderless;
    SplitOfJoin(a, sep);
    SplitOfJoin(b, sep);
  }

  lemma PayloadStays(lower: Lowercase, lines: seq<string>)
    ensures var once := EnhancedLines(lower, lines);
            && FirstPayload(once) == FirstPayload(lines)
            && (FirstPayload(lines).Some? ==> HasFmtp(once, FirstPayload(lines).value))
  {
    hide HasFmtp, FirstPayload, AllTuned, AllAdded;
    if FirstPayload(lines).Some? {
      LaterIsTuning(lower, lines, FirstPayload(lines).value);
    }
  }

  lemma NoCRLFLater(lower: Lowercase, sdp: string)
    requires !MakesCRLF(sdp)
    ensures !MakesCRLF(Enhanced(lower, sdp))
  {
    hide Enhanced, EnhancedLines, Contains, FirstPayload, HasFmtp, Lines;
    SameBreaks(lower, sdp);
    PayloadStays(lower, Lines(sdp));
  }

  /** Then enhancing the text again is enhancing its lines again. */
  lemma AgainByLines(lower: Lowercase, sdp: string)
    requires !MakesCRLF(sdp)
    ensures var out := EnhancedLines(lower, Lines(sdp));
            Enhanced(lower, Enhanced(lower, sdp)) == Enhanced(lower, sdp) <==> EnhancedLines(lower, out) == out
  {
    var sep := Separator(sdp);
    var out := EnhancedLines(lower, Lines(sdp));
    LinesFree(sdp);
    hide Enhanced, EnhancedLines, Contains, MakesCRLF, Lines, AllFree;
    SameBreaks(lower, sdp);
    EnhancedIsJoin(lower, sdp);
    EnhancedIsJoin(lower, Enhanced(lower, sdp));
    EnhancedFree(lower, Lines(sdp), sep);
    EnhancedFree(lower, out, sep);
    EnhancedLength(lower, Lines(sdp));
    EnhancedLength(lower, out);
    SameTextSameLines(EnhancedLines(lower, out), out, sep);
  }

  lemma RepeatsByLines(lower: Lowercase, sdp: string)
    requires !MakesCRLF(sdp)
    ensures var one := Enhanced(lower, sdp);
            var two := Enhanced(lower, one);
            var three := Enhanced(lower, two);
            var lines1 := EnhancedLines(lower, Lines(sdp));
            var lines2 := EnhancedLines(lower, lines1);
            var lines3 := EnhancedLines(lower, lines2);
            && (two == one <==> lines2 == lines1)
            && (three == two <==> lines3 == lines2)
            && (Enhanced(lower, three) == three <==> EnhancedLines(lower, lines3) == lines3)
  {
    hide Enhanced, EnhancedLines, MakesCRLF, Lines;
    var one := Enhanced(lower, sdp);
    var two := Enhanced(lower, one);
    AgainByLines(lower, sdp);
    NoCRLFLater(lower, sdp);
    SameBreaks(lower, sdp);
    AgainByLines(lower, one);
    NoCRLFLater(lower, one);
    SameBreaks(lower, one);
    AgainByLines(lower, two);
  }

  // ---- When a CRLF is made ----

  lemma {:induction false} AddedToNothing(pt: string, lines: seq<string>)
    requires forall i :: 0 <= i < |lines| ==> !MapsOpus(lines[i], pt)
    ensures AllAdded(pt, lines) == lines
  {
    hide MapsOpus;
    if lines == [] {
    } else {
      assert forall i :: 0 <= i < |lines[1..]| ==> lines[1..][i] == lines[i + 1];
      AddedToNothing(pt, lines[1..]);
    }
  }

  function FirstMap(lines: seq<string>, pt: string): (k: nat)
    ensures k <= |lines| && (k < |lines| ==> MapsOpus(lines[k], pt))
    ensures forall i :: 0 <= i < k ==> !MapsOpus(lines[i], pt)
  {
    if lines == [] || MapsOpus(lines[0], pt) then 0 else 1 + FirstMap(lines[1..], pt)
  }

  function Last(lines: seq<string>): string
    requires lines != []
  {
    lines[|lines| - 1]
  }

  function Init(lines: seq<string>): seq<string>
    requires lines != []
  {
    lines[..|lines| - 1]
  }

  /** What stands before the new CRLF. */
  function BeforeCRLF(lines: seq<string>, pt: string): string
    requires lines != [] && EndsInCR(Last(lines))
  {
    FrontOf(AllAdded(pt, Init(lines))) + Last(lines)[..|Last(lines)| - 1]
  }

  lemma ChompCR(line: string)
    requires EndsInCR(line)
    ensures line == line[..|line| - 1] + "\r"
  {
  }

  lemma AddedBeforeCR(pt: string, lines: seq<string>)
    requires lines != [] && EndsInCR(Last(lines)) && MapsOpus(Last(lines), pt)
    ensures Join(AllAdded(pt, lines), LF) == BeforeCRLF(lines, pt) + CRLF + Extra(pt)
  {
    var front := AllAdded(pt, Init(lines));
    var last := Last(lines);
    AddedInit(pt, lines);
    ChompCR(last);
    hide AllAdded, MapsOpus, Join, FrontOf, Extra, EndsInCR;
    CRBeforeLF(front, last[..|last| - 1], Extra(pt));
  }

  lemma CRBeforeLF(front: seq<string>, line: string, extra: string)
    ensures Join(front + [line + "\r", extra], LF) == FrontOf(front) + line + CRLF + extra
  {
    var last := line + "\r";
    hide Join, FrontOf;
    assert front + [last, extra] == front + [last] + [extra];
    JoinConcat(front + [last], [extra], LF);
    JoinOne(extra, LF);
    JoinFront(front, last);
    CRThenLF(FrontOf(front), line, extra);
  }

  lemma CRThenLF(a: string, b: string, c: string)
    ensures a + (b + "\r") + LF + c == a + b + CRLF + c
  {
    assert CRLF == "\r" + LF;
  }

  /** No line feed inside a line of a text broken at line feeds. */
  lemma BeforeCRLFIsOneLine(lines: seq<string>, pt: string)
    requires lines != [] && EndsInCR(Last(lines)) && NoInnerCR(lines) && AllFree(lines, LF) && IsNumber(pt)
    ensures !Contains(BeforeCRLF(lines, pt), CRLF)
  {
    var init, last := Init(lines), Last(lines);
    var chomped := last[..|last| - 1];
    InitHasNoCREnds(lines);
    AddedNoCREnds(pt, init);
    OpusParamsFree(LF);
    var front := AllAdded(pt, init);
    hide EndsInCR, AllAdded, MapsOpus, FmtpPrefix, OPUS_PARAMS, NoInnerCR, NoCREnds, Contains, IsNumber, Join;
    PrefixFree(pt, OPUS_PARAMS, LF);
    PartFree(last, 0, |last| - 1, LF);
    assert last[0..|last| - 1] == chomped;
    forall line | line in front + [chomped] ensures !Contains(line, LF) {
      AllAddedMembers(pt, init, line);
    }
    InnerOfAppended(front, chomped);
    JoinHasNoCRLF(front + [chomped]);
    JoinFront(front, chomped);
  }

  /** The first enhancement of such a text, as it is broken the next time. */
  lemma BrokenAtCRLF(lower: Lowercase, sdp: string)
    requires MakesCRLF(sdp)
    ensures var lines := Lines(sdp);
            var pt := FirstPayload(lines).value;
            && EndsInCR(Last(lines))
            && Contains(Enhanced(lower, sdp), CRLF)
            && Lines(Enhanced(lower, sdp)) == [BeforeCRLF(lines, pt), Extra(pt)]
  {
    var lines := Lines(sdp);
    var pt := FirstPayload(lines).value;
    LFLines(sdp);
    LinesFree(sdp);
    FirstPayloadIsNumber(lines);
    EnhancedIsJoin(lower, sdp);
    assert EnhancedLines(lower, lines) == AllAdded(pt, lines) by { hide AllAdded, AllTuned; }
    hide Lines, FirstPayload, HasFmtp, AllAdded, AllTuned, MapsOpus, Enhanced, EnhancedLines, FmtpPrefix, OPUS_PARAMS,
      IsNumber, NoInnerCR, Contains, Join, BeforeCRLF, Split, Borderless;
    AddedBeforeCR(pt, lines);
    BeforeCRLFIsOneLine(lines, pt);
    OpusParamsFree(CRLF);
    PrefixFree(pt, OPUS_PARAMS, CRLF);
    SeparatorsAreBorderless(CRLF);
    TwoPartSplit(BeforeCRLF(lines, pt), Extra(pt), CRLF);
    MiddleOccurs(BeforeCRLF(lines, pt), Extra(pt));
    LinesAtCRLF(Enhanced(lower, sdp));
  }

  lemma MiddleOccurs(a: string, b: string)
    ensures Contains(a + CRLF + b, CRLF)
  {
    assert OccursAt(a + CRLF + b, CRLF, |a|);
  }

  lemma LinesAtCRLF(sdp: string)
    requires Contains(sdp, CRLF)
    ensures Lines(sdp) == Split(sdp, CRLF)
  {
  }

  // ---- What the part before the CRLF maps to Opus ----

  lemma FrontEnds(lines: seq<string>)
    ensures FrontOf(lines) == "" || FrontOf(lines)[|FrontOf(lines)| - 1] == '\n'
  {
  }

  lemma ThreeWays<T>(s: seq<T>, k: nat)
    requires k < |s|
    ensures s == s[..k] + [s[k]] + s[k + 1..] && s[..k + 1] == s[..k] + [s[k]]
  {
  }

  lemma TextFrom(lines: seq<string>, k: nat)
    requires k + 1 < |lines|
    ensures Join(lines, LF) == FrontOf(lines[..k]) + lines[k] + ['\n'] + Join(lines[k + 1..], LF)
  {
    hide Join, FrontOf;
    ThreeWays(lines, k);
    JoinConcat(lines[..k + 1], lines[k + 1..], LF);
    JoinFront(lines[..k], lines[k]);
  }

  lemma AddedStart(pt: string, lines: seq<string>, k: nat)
    requires k < |lines| && MapsOpus(lines[k], pt) && forall i :: 0 <= i < k ==> !MapsOpus(lines[i], pt)
    ensures AllAdded(pt, lines) == lines[..k] + [lines[k], Extra(pt)] + AllAdded(pt, lines[k + 1..])
  {
    ThreeWays(lines, k);
    AddedToNothing(pt, lines[..k]);
    hide AllAdded, FmtpPrefix, OPUS_PARAMS;
    AddedConcat(pt, lines[..k] + [lines[k]], lines[k + 1..]);
    AddedConcat(pt, lines[..k], [lines[k]]);
    AddedOne(pt, lines[k]);
  }

  /** Up to the first line that names the codec, the new text is the old one. */
  lemma StartOfBefore(lines: seq<string>, pt: string, k: nat)
    requires lines != [] && EndsInCR(Last(lines)) && k + 1 < |lines|
    requires MapsOpus(lines[k], pt) && forall i :: 0 <= i < k ==> !MapsOpus(lines[i], pt)
    ensures exists r :: BeforeCRLF(lines, pt) == FrontOf(lines[..k]) + lines[k] + ['\n'] + r
  {
    var init := Init(lines);
    var chomped := Last(lines)[..|Last(lines)| - 1];
    hide EndsInCR, MapsOpus, FmtpPrefix, OPUS_PARAMS, Join;
    assert init[..k] == lines[..k] && init[k] == lines[k];
    AddedStart(pt, init, k);
    hide AllAdded;
    JoinFront(AllAdded(pt, init), chomped);
    hide FrontOf, AllAdded, Extra;
    AllFrom(init[..k], init[k], Extra(pt), AllAdded(pt, init[k + 1..]), chomped);
  }

  lemma AllFrom(front: seq<string>, line: string, extra: string, rest: seq<string>, last: string)
    ensures exists r :: Join(front + [line, extra] + rest + [last], LF) == FrontOf(front) + line + ['\n'] + r
  {
    var all := front + [line, extra] + rest + [last];
    var k := |front|;
    assert all[..k] == front && all[k] == line;
    hide Join, FrontOf;
    TextFrom(all, k);
  }

  /** The whole text and the part before the new CRLF, each read as one line, map the same to Opus. */
  lemma SamePayload(sdp: string)
    requires MakesCRLF(sdp)
    ensures var lines := Lines(sdp);
            EndsInCR(Last(lines)) && OpusPayload(BeforeCRLF(lines, FirstPayload(lines).value)) == OpusPayload(sdp)
  {
    var lines := Lines(sdp);
    var pt := FirstPayload(lines).value;
    var k := FirstMap(lines, pt);
    FirstPayloadIsNumber(lines);
    JoinOfSplit(sdp, LF);
    assert Join(lines, LF) == sdp;
    FrontEnds(lines[..k]);
    hide Lines, FirstPayload, HasFmtp, OpusPayload, MapsOpus, AllAdded, IsNumber, EndsInCR, Join, Contains;
    hide FirstMap, FrontOf;
    if k + 1 < |lines| {
      TextFrom(lines, k);
      StartDecides(FrontOf(lines[..k]), lines[k], pt, '\n', Join(lines[k + 1..], LF));
      StartOfBefore(lines, pt, k);
      var r :| BeforeCRLF(lines, pt) == FrontOf(lines[..k]) + lines[k] + ['\n'] + r;
      StartDecides(FrontOf(lines[..k]), lines[k], pt, '\n', r);
    } else {
      OnlyLastMaps(lines, pt, sdp);
    }
  }

  lemma OnlyLastMaps(lines: seq<string>, pt: string, sdp: string)
    requires lines != [] && EndsInCR(Last(lines)) && MapsOpus(Last(lines), pt) && IsNumber(pt)
    requires forall i :: 0 <= i < |lines| - 1 ==> !MapsOpus(lines[i], pt)
    requires Join(lines, LF) == sdp
    ensures OpusPayload(BeforeCRLF(lines, pt)) == OpusPayload(sdp)
  {
    hide OpusPayload, MapsOpus, AllAdded, IsNumber, Join, FrontOf, BeforeCRLF, EndsInCR;
    BeforeWhenOnlyLast(lines, pt);
    WholeText(lines);
    EndDecides(FrontOf(Init(lines)), Last(lines), pt) by {
      FrontEnds(Init(lines));
    }
  }

  lemma EndDecides(front: string, last: string, pt: string)
    requires EndsInCR(last) && MapsOpus(last, pt) && IsNumber(pt)
    requires front == "" || front[|front| - 1] == '\n'
    ensures OpusPayload(front + last[..|last| - 1]) == OpusPayload(front + last)
  {
    ChompCR(last);
    hide OpusPayload, MapsOpus, IsNumber, EndsInCR;
    LastLineDecides(front, last[..|last| - 1], last, pt);
  }

  lemma WholeText(lines: seq<string>)
    requires lines != []
    ensures Join(lines, LF) == FrontOf(Init(lines)) + Last(lines)
  {
    TailSplits(lines);
    JoinFront(Init(lines), Last(lines));
  }

  lemma TailSplits(lines: seq<string>)
    requires lines != []
    ensures Init(lines) + [Last(lines)] == lines
  {
  }

  lemma BeforeWhenOnlyLast(lines: seq<string>, pt: string)
    requires lines != [] && EndsInCR(Last(lines))
    requires forall i :: 0 <= i < |lines| - 1 ==> !MapsOpus(lines[i], pt)
    ensures BeforeCRLF(lines, pt) == FrontOf(Init(lines)) + Last(lines)[..|Last(lines)| - 1]
  {
    var init := Init(lines);
    hide MapsOpus, AllAdded, FrontOf, EndsInCR;
    assert forall i :: 0 <= i < |init| ==> init[i] == lines[i];
    AddedToNothing(pt, init);
  }

  lemma LastLineDecides(front: string, line: string, long: string, pt: string)
    requires IsNumber(pt) && MapsOpus(long, pt) && long == line + "\r"
    requires front == "" || front[|front| - 1] == '\n'
    ensures OpusPayload(front + long) == OpusPayload(front + line)
  {
    hide OpusPayload, MapsOpus, IsNumber;
    MapsWithoutCR(line, pt);
    StartDecides(front, line, pt, '\r', "");
    assert front + line + ['\r'] + "" == front + long;
  }

  // ---- The two lines that follow ----

  lemma ExtraIsNoMap(pt: string)
    ensures OpusPayload(Extra(pt)) == None && IsFmtp(Extra(pt), pt)
  {
    PrefixedIsFmtp(pt, OPUS_PARAMS);
    FmtpIsNoMap(Extra(pt), pt);
  }

  lemma PairPayload(x: string, pt: string)
    ensures FirstPayload([x, Extra(pt)]) == OpusPayload(x)
  {
    ExtraIsNoMap(pt);
    hide OpusPayload, IsFmtp, FmtpPrefix, OPUS_PARAMS;
    assert [x, Extra(pt)][1..] == [Extra(pt)] && [Extra(pt)][1..] == [];
    assert FirstPayload([]) == None;
    assert FirstPayload([Extra(pt)]) == None;
  }

  lemma OtherNumber(pt: string, q: string, rest: string)
    requires IsNumber(pt) && IsNumber(q) && IsFmtp(FmtpPrefix(pt) + rest, q)
    ensures q == pt
  {
    var line := FmtpPrefix(pt) + rest;
    PrefixedIsFmtp(pt, rest);
    hide IsFmtp, FmtpPrefix, IsNumber;
    FmtpNumber(line, pt);
    FmtpNumber(line, q);
    NumberRun(line, pt);
    NumberRun(line, q);
  }

  lemma NumberRun(line: string, q: string)
    requires IsNumber(q) && |line| >= 7 + |q| + 1 && line[7..7 + |q|] == q
    requires line[7 + |q|] == ' ' || line[7 + |q|] == '='
    ensures RunOf(line[7..], IsDigit) == |q|
  {
    hide RunOf;
    var rest := line[7..];
    forall i | 0 <= i < |q| ensures IsDigit(rest[i]) {
      assert rest[i] == line[7..7 + |q|][i];
    }
    RunOfIs(rest, |q|, IsDigit);
  }

  lemma FmtpNumber(line: string, q: string)
    requires IsFmtp(line, q)
    ensures |line| >= 7 + |q| + 1 && line[7..7 + |q|] == q
    ensures line[7 + |q|] == ' ' || line[7 + |q|] == '='
  {
    var n := 7 + |q| + 1;
    assert line[..n][7..7 + |q|] == line[7..7 + |q|] && line[..n][n - 1] == line[n - 1];
    assert FmtpPrefix(q)[7..7 + |q|] == q && ("a=fmtp:" + q + "=")[7..7 + |q|] == q;
  }

  lemma PairHasFmtp(x: string, pt: string, q: string)
    requires IsNumber(pt) && IsNumber(q) && OpusPayload(x) == Some(q)
    ensures HasFmtp([x, Extra(pt)], q) <==> q == pt
    ensures !IsFmtp(x, q)
  {
    ExtraIsNoMap(pt);
    var lines := [x, Extra(pt)];
    hide OpusPayload, IsFmtp, IsNumber, OPUS_PARAMS;
    if IsFmtp(x, q) {
      FmtpIsNoMap(x, q);
    }
    if IsFmtp(Extra(pt), q) {
      OtherNumber(pt, q, OPUS_PARAMS);
    }
    assert lines[0] == x && lines[1] == Extra(pt);
    if q == pt {
      assert IsFmtp(lines[1], q);
    }
  }

  /** Another enhancement changes the two lines as soon as the first of them maps anything to Opus. */
  lemma PairMoves(lower: Lowercase, x: string, pt: string, q: string)
    requires IsNumber(pt) && IsNumber(q) && OpusPayload(x) == Some(q)
    ensures EnhancedLines(lower, [x, Extra(pt)]) != [x, Extra(pt)]
  {
    var lines := [x, Extra(pt)];
    PairPayload(x, pt);
    PairHasFmtp(x, pt, q);
    AddedIsRespaced(lower, pt);
    AllTunedAt(lower, q, lines);
    PayloadMaps(x);
    AddedAtLeast(x, Extra(pt), q);
    hide OpusPayload, IsFmtp, HasFmtp, IsNumber, OPUS_PARAMS, FmtpPrefix, AllTuned, AllAdded, Tuned;
    hide FirstPayload, Settled, MapsOpus;
    if q == pt {
      assert AllTuned(lower, q, lines)[1] == Tuned(lower, q, lines[1]);
    }
  }

  lemma AddedAtLeast(x: string, y: string, q: string)
    requires MapsOpus(x, q)
    ensures |AllAdded(q, [x, y])| > 2
  {
    assert [x, y][1..] == [y];
    AddedLength(q, [y]);
    hide MapsOpus;
  }

  /** And once more, exactly when it is another payload type than the line was added for. */
  lemma PairMovesAgain(lower: Lowercase, x: string, pt: string, q: string)
    requires IsNumber(pt) && IsNumber(q) && OpusPayload(x) == Some(q)
    ensures var once := EnhancedLines(lower, [x, Extra(pt)]);
            EnhancedLines(lower, once) == once <==> q == pt
  {
    var lines := [x, Extra(pt)];
    PairPayload(x, pt);
    PairHasFmtp(x, pt, q);
    AddedIsRespaced(lower, pt);
    StableExactlyWhenSettled(lower, lines, q);
    hide OpusPayload, HasFmtp, IsNumber, OPUS_PARAMS, FmtpPrefix, FirstPayload, EnhancedLines, IsFmtp;
    if q == pt {
      assert Settled(lower, q, x);
      hide Settled;
      forall line | line in lines ensures Settled(lower, q, line) {
      }
    }
  }

  /** And never after that. */
  lemma PairStays(lower: Lowercase, x: string, pt: string, q: string)
    requires IsNumber(pt) && IsNumber(q) && OpusPayload(x) == Some(q)
    ensures var twice := EnhancedLines(lower, EnhancedLines(lower, [x, Extra(pt)]));
            EnhancedLines(lower, twice) == twice
  {
    var lines := [x, Extra(pt)];
    PairPayload(x, pt);
    PairHasFmtp(x, pt, q);
    AddedIsSettledAfterOne(lower, pt);
    LinesTwiceExactly(lower, lines, q);
    hide OpusPayload, HasFmtp, IsNumber, OPUS_PARAMS, FmtpPrefix, FirstPayload, EnhancedLines, IsFmtp;
    if q == pt {
      assert SettledAfterOne(lower, q, x);
      hide SettledAfterOne;
      forall line | line in lines ensures SettledAfterOne(lower, q, line) {
      }
    }
  }

  // ---- The results ----

  /** What enhancing does to a text whose first enhancement makes a CRLF. */
  lemma RepeatsAfterCRLF(lower: Lowercase, sdp: string)
    requires MakesCRLF(sdp)
    ensures var one := Enhanced(lower, sdp);
            var two := Enhanced(lower, one);
            var three := Enhanced(lower, two);
            var pt := FirstPayload(Lines(sdp));
            && (two == one <==> OpusPayload(sdp) == None)
            && (three == two <==> OpusPayload(sdp) == None || OpusPayload(sdp) == pt)
            && Enhanced(lower, three) == three
  {
    var one := Enhanced(lower, sdp);
    var lines := Lines(sdp);
    var pt := FirstPayload(lines).value;
    FirstPayloadIsNumber(lines);
    BrokenAtCRLF(lower, sdp);
    SamePayload(sdp);
    assert !MakesCRLF(one) by { hide Contains, Enhanced; }
    hide MakesCRLF, OpusPayload, FirstPayload, HasFmtp, Lines, EndsInCR, Contains, IsNumber, Enhanced, EnhancedLines;
    var x := BeforeCRLF(lines, pt);
    hide BeforeCRLF;
    RepeatsByLines(lower, one);
    FirstRepeat(lower, one);
    PairPayload(x, pt);
    if OpusPayload(x).None? {
      NothingToDo(lower, [x, Extra(pt)]);
    } else {
      var q := OpusPayload(x).value;
      PayloadIsNumber(x);
      PairMoves(lower, x, pt, q);
      PairMovesAgain(lower, x, pt, q);
      PairStays(lower, x, pt, q);
    }
  }

  lemma NothingToDo(lower: Lowercase, lines: seq<string>)
    requires FirstPayload(lines) == None
    ensures EnhancedLines(lower, lines) == lines
  {
  }

  /** A text is unchanged exactly when its lines are. */
  lemma FirstRepeat(lower: Lowercase, sdp: string)
    ensures Enhanced(lower, sdp) == sdp <==> EnhancedLines(lower, Lines(sdp)) == Lines(sdp)
  {
    var sep := Separator(sdp);
    LinesFree(sdp);
    JoinOfSplit(sdp, sep);
    hide Enhanced, EnhancedLines, Join, Split, Contains, AllFree;
    EnhancedIsJoin(lower, sdp);
    EnhancedFree(lower, Lines(sdp), sep);
    EnhancedLength(lower, Lines(sdp));
    SameTextSameLines(EnhancedLines(lower, Lines(sdp)), Lines(sdp), sep);
  }

  ghost predicate AllSettled(lower: Lowercase, pt: string, lines: seq<string>) {
    forall line :: line in lines ==> Settled(lower, pt, line)
  }

  ghost predicate AllSettledAfterOne(lower: Lowercase, pt: string, lines: seq<string>) {
    forall line :: line in lines ==> SettledAfterOne(lower, pt, line)
  }

  /**
   Enhancing a description twice is enhancing it once exactly when it maps nothing to Opus; or it has
   fmtp lines for the payload, and every one of them can be read back after the merge; or the added
   line makes a CRLF and the whole text, read as one line, maps nothing to Opus.
   */
  lemma EnhancedTwiceExactly(lower: Lowercase, sdp: string)
    ensures var once := Enhanced(lower, sdp);
            var lines := Lines(sdp);
            Enhanced(lower, once) == once <==>
            match FirstPayload(lines)
            case None => true
            case Some(pt) =>
              if HasFmtp(lines, pt) then AllSettled(lower, pt, lines)
              else MakesCRLF(sdp) && OpusPayload(sdp) == None
  {
    var lines := Lines(sdp);
    if MakesCRLF(sdp) {
      hide Enhanced, Lines, OpusPayload, HasFmtp, FirstPayload, Contains;
      RepeatsAfterCRLF(lower, sdp);
    } else {
      hide Enhanced, EnhancedLines, Lines, OpusPayload, HasFmtp, FirstPayload, MakesCRLF, Settled;
      AgainByLines(lower, sdp);
      match FirstPayload(lines)
      case None => NothingToDo(lower, lines);
      case Some(pt) => StableExactlyWhenSettled(lower, lines, pt);
    }
  }

  /**
   The third enhancement changes nothing exactly when the fmtp lines the description came with, if it
   had any, can be read back after one merge; or, where the first enhancement made a CRLF, the whole
   text read as one line maps no other payload to Opus.
   */
  lemma EnhancedThriceExactly(lower: Lowercase, sdp: string)
    ensures var twice := Enhanced(lower, Enhanced(lower, sdp));
            var lines := Lines(sdp);
            Enhanced(lower, twice) == twice <==>
            match FirstPayload(lines)
            case None => true
            case Some(pt) =>
              if HasFmtp(lines, pt) then AllSettledAfterOne(lower, pt, lines)
              else MakesCRLF(sdp) ==> OpusPayload(sdp) == None || OpusPayload(sdp) == Some(pt)
  {
    var lines := Lines(sdp);
    if MakesCRLF(sdp) {
      hide Enhanced, Lines, OpusPayload, HasFmtp, FirstPayload, Contains;
      RepeatsAfterCRLF(lower, sdp);
    } else {
      hide Enhanced, EnhancedLines, Lines, OpusPayload, HasFmtp, FirstPayload, MakesCRLF, SettledAfterOne;
      RepeatsByLines(lower, sdp);
      match FirstPayload(lines)
      case None => NothingToDo(lower, lines);
      case Some(pt) => LinesTwiceExactly(lower, lines, pt);
    }
  }

  /** The fourth enhancement never changes anything. */
  lemma ThreeEnhancementsSuffice(lower: Lowercase, sdp: string)
    ensures var thrice := Enhanced(lower, Enhanced(lower, Enhanced(lower, sdp)));
            Enhanced(lower, thrice) == thrice
  {
    hide Enhanced, EnhancedLines, Lines, MakesCRLF, OpusPayload, FirstPayload;
    if MakesCRLF(sdp) {
      RepeatsAfterCRLF(lower, sdp);
    } else {
      RepeatsByLines(lower, sdp);
      LinesThreeSuffice(lower, Lines(sdp));
    }
  }

  // ---- The text as the next reader breaks it ----

  /** The breaks of a text stay what they were exactly when no CRLF is made. */
  lemma BreaksKeptExactly(lower: Lowercase, sdp: string)
    ensures Separator(Enhanced(lower, sdp)) == Separator(sdp) <==> !MakesCRLF(sdp)
  {
    hide Enhanced, Contains, FirstPayload, HasFmtp, MapsOpus, EndsInCR, Lines;
    if MakesCRLF(sdp) {
      BrokenAtCRLF(lower, sdp);
    } else {
      SameBreaks(lower, sdp);
    }
  }

  /** At its own breaks the enhanced text maps the same payload type to Opus, unless a CRLF was made. */
  lemma PayloadOfText(lower: Lowercase, sdp: string)
    ensures FirstPayload(Lines(Enhanced(lower, sdp))) ==
            if MakesCRLF(sdp) then OpusPayload(sdp) else FirstPayload(Lines(sdp))
  {
    hide Enhanced, EnhancedLines, Contains, HasFmtp, MapsOpus, EndsInCR, Lines, OpusPayload, BeforeCRLF;
    if MakesCRLF(sdp) {
      BrokenAtCRLF(lower, sdp);
      SamePayload(sdp);
      PairPayload(BeforeCRLF(Lines(sdp), FirstPayload(Lines(sdp)).value), FirstPayload(Lines(sdp)).value);
    } else {
      hide FirstPayload;
      SameBreaks(lower, sdp);
      EnhancedPayload(lower, Lines(sdp));
    }
  }

  /**
   Broken where the text received was broken, the enhanced text has all the other lines unchanged and
   in order.
   */
  lemma OtherLinesOfText(lower: Lowercase, sdp: string, pt: string)
    requires FirstPayload(Lines(sdp)) == Some(pt)
    ensures Others(Split(Enhanced(lower, sdp), Separator(sdp)), pt) == Others(Lines(sdp), pt)
  {
    hide Enhanced, EnhancedLines, Lines, FirstPayload, Others, Split;
    EnhancedTextLines(lower, sdp);
    OtherLinesUntouched(lower, Lines(sdp), pt);
  }

  /** And an fmtp line for the Opus payload; every such line asks for every parameter the client wants. */
  lemma OpusLinesOfText(lower: Lowercase, sdp: string, pt: string)
    requires FirstPayload(Lines(sdp)) == Some(pt)
    ensures var out := Split(Enhanced(lower, sdp), Separator(sdp));
            HasFmtp(out, pt) && forall line :: line in out && IsFmtp(line, pt) ==> Asks(lower, pt, line)
  {
    hide Enhanced, EnhancedLines, Lines, FirstPayload, HasFmtp, IsFmtp, Asks, Split;
    EnhancedTextLines(lower, sdp);
    EveryOpusLineAsks(lower, Lines(sdp), pt);
  }

  // ---- Witnesses ----

  const MAP := RTPMAP + "111" + " " + CODEC

  lemma PlainMap(pt: string)
    requires IsNumber(pt)
    ensures OpusPayload(RTPMAP + pt + " " + CODEC) == Some(pt)
  {
    var line := RTPMAP + pt + " " + CODEC;
    var at := Spans(|RTPMAP| + |pt|, |RTPMAP| + |pt| + 1, |line|);
    NamesAreLow();
    hide OpusPayload, ShapedAs, Low, IsNumber;
    PlainShape(RTPMAP, pt, CODEC);
    ShapeIsPayload(line, at);
  }

  lemma NamesAreLow()
    ensures forall i :: 0 <= i < |RTPMAP| ==> Low(RTPMAP[i]) == RTPMAP[i]
    ensures forall i :: 0 <= i < |CODEC| ==> Low(CODEC[i]) == CODEC[i]
  {
  }

  lemma PlainChars(head: string, pt: string, codec: string)
    ensures var line := head + pt + " " + codec;
            var n := |head| + |pt|;
            && |line| == n + 1 + |codec| && line[n] == ' ' && line[|head|..n] == pt
            && (forall i :: 0 <= i < |head| ==> line[i] == head[i])
            && (forall i :: |head| <= i < n ==> line[i] == pt[i - |head|])
            && (forall i :: 0 <= i < |codec| ==> line[n + 1 + i] == codec[i])
  {
  }

  lemma PlainShape(head: string, pt: string, codec: string)
    requires IsNumber(pt) && codec != ""
    requires forall i :: 0 <= i < |head| ==> Low(head[i]) == head[i]
    requires forall i :: 0 <= i < |codec| ==> Low(codec[i]) == codec[i]
    ensures var line := head + pt + " " + codec;
            && ShapedAs(line, Spans(|head| + |pt|, |head| + |pt| + 1, |line|), head, codec)
            && line[|head|..|head| + |pt|] == pt
  {
    assert IsJsSpace(' ');
    hide Low, IsDigit, IsJsSpace;
    PlainChars(head, pt, codec);
  }

  lemma MapHasNoBreaks()
    ensures NoBreaks(MAP) && MAP != "" && !EndsInCR(MAP)
  {
    assert NoBreaks(RTPMAP) && NoBreaks("111") && NoBreaks(" ") && NoBreaks(CODEC);
    NoBreaksConcat(RTPMAP, "111");
    NoBreaksConcat(RTPMAP + "111", " ");
    NoBreaksConcat(RTPMAP + "111" + " ", CODEC);
  }

  lemma MapIsPlain()
    ensures OpusPayload(MAP) == Some("111") && IsNumber("111")
    ensures NoBreaks(MAP) && MAP != "" && !EndsInCR(MAP)
  {
    MapHasNoBreaks();
    hide OpusPayload, NoBreaks, EndsInCR;
    PlainMap("111");
  }

  lemma LoneLine(line: string)
    requires NoBreaks(line)
    ensures Lines(line) == [line]
  {
    FreeOf(line);
    UnbrokenIsOnePart(line, Separator(line));
  }

  /** A lone Opus map: the added line is re-spaced by the second enhancement. */
  lemma EnhancedTwiceDiffers(lower: Lowercase)
    ensures var once := Enhanced(lower, MAP); Enhanced(lower, once) != once
  {
    MapIsPlain();
    hide MAP, OpusPayload, Enhanced, Lines, Contains, EndsInCR, NoBreaks;
    LoneLine(MAP);
    assert FirstPayload([MAP]) == Some("111");
    MapIsNoFmtp("111");
    assert !HasFmtp([MAP], "111");
    EnhancedTwiceExactly(lower, MAP);
  }

  lemma MapIsNoFmtp(pt: string)
    requires OpusPayload(MAP).Some?
    ensures !IsFmtp(MAP, pt)
  {
    hide MAP, OpusPayload, IsFmtp;
    if IsFmtp(MAP, pt) {
      FmtpIsNoMap(MAP, pt);
    }
  }

  const CR_TEXT := "v=0" + LF + (MAP + "\r")

  /** The map on a last line that ends in a carriage return: the added line makes the only CRLF. */
  lemma CRLFHidesTheMap(lower: Lowercase)
    ensures var once := Enhanced(lower, CR_TEXT);
            && once != CR_TEXT && Enhanced(lower, once) == once
            && EnhancedLines(lower, EnhancedLines(lower, Lines(CR_TEXT))) != EnhancedLines(lower, Lines(CR_TEXT))
  {
    hide CR_TEXT, OpusPayload, Enhanced, EnhancedLines, Lines, MakesCRLF, FirstPayload, HasFmtp, Contains, Separator;
    CRTextFacts();
    EnhancedTwiceExactly(lower, CR_TEXT);
    BreaksKeptExactly(lower, CR_TEXT);
    StableExactlyWhenSettled(lower, Lines(CR_TEXT), "111");
  }

  lemma CRTextFacts()
    ensures MakesCRLF(CR_TEXT) && OpusPayload(CR_TEXT) == None
    ensures FirstPayload(Lines(CR_TEXT)) == Some("111") && !HasFmtp(Lines(CR_TEXT), "111")
  {
    hide MAP, OpusPayload, Contains, MapsOpus, Lines, FirstPayload, HasFmtp;
    TextOfMap();
    MapMaps();
    CRLines();
    VIsNoMap(LF + (MAP + "\r"));
    Grouped("v=0", LF, MAP + "\r");
    assert CR_TEXT == "v=0" + LF + (MAP + "\r");
    hide CR_TEXT;
    NoFmtpHere(["v=0", MAP + "\r"], "111");
  }

  lemma CRLines()
    ensures OpusPayload(MAP + "\r") == Some("111")
    ensures FirstPayload(["v=0", MAP + "\r"]) == Some("111")
  {
    MapIsPlain();
    PayloadExtends(MAP, "\r");
    VIsNoMap("");
    hide MAP, OpusPayload;
    var lines := ["v=0", MAP + "\r"];
    assert lines[1..] == [MAP + "\r"];
  }

  lemma MapMaps()
    ensures MapsOpus(MAP + "\r", "111")
  {
    MapIsPlain();
    PayloadExtends(MAP, "\r");
    hide OpusPayload, MapsOpus;
    PayloadMaps(MAP + "\r");
  }

  lemma VIsNoMap(rest: string)
    ensures OpusPayload("v=0") == None && OpusPayload("v=0" + rest) == None
  {
    StartsChars("v=0", RTPMAP);
    StartsChars("v=0" + rest, RTPMAP);
    assert RTPMAP[0] == 'a' && Low('v') == 'v';
  }

  lemma NoFmtpHere(lines: seq<string>, pt: string)
    requires lines == ["v=0", MAP + "\r"] && OpusPayload(MAP + "\r").Some?
    ensures !HasFmtp(lines, pt)
  {
    assert !IsFmtp("v=0", pt);
    hide MAP, OpusPayload, IsFmtp;
    if IsFmtp(MAP + "\r", pt) {
      FmtpIsNoMap(MAP + "\r", pt);
    }
  }

  lemma TwoLines(a: string, b: string)
    requires !Contains(a, LF) && !Contains(b, LF) && !EndsInCR(a)
    ensures var sdp := a + LF + b; !Contains(sdp, CRLF) && Lines(sdp) == [a, b]
  {
    hide Contains, Split, EndsInCR;
    SeparatorsAreBorderless(LF);
    TwoPartSplit(a, b, LF);
    InnerOfAppended([a], b);
    assert [a] + [b] == [a, b];
    JoinHasNoCRLF([a, b]);
    JoinFront([a], b);
    JoinOne(a, LF);
  }

  lemma TextOfMap()
    ensures var sdp := "v=0" + LF + (MAP + "\r");
            !Contains(sdp, CRLF) && Lines(sdp) == ["v=0", MAP + "\r"]
  {
    MapIsPlain();
    hide MAP, OpusPayload;
    CharOccurs(MAP + "\r", '\n');
    CharOccurs("v=0", '\n');
    TwoLines("v=0", MAP + "\r");
  }

  const SIGN_LINE := FmtpPrefix("111") + "x;="

  /** An fmtp line with a lone "=" after another parameter: the third enhancement still changes it. */
  lemma EnhancedThriceDiffers(lower: Lowercase)
    ensures var twice := Enhanced(lower, Enhanced(lower, MAP + LF + SIGN_LINE)); Enhanced(lower, twice) != twice
  {
    var sdp := MAP + LF + SIGN_LINE;
    var lines := [MAP, SIGN_LINE];
    MapIsPlain();
    SignText();
    SignIsUnsettled(lower);
    hide MAP, SIGN_LINE, OpusPayload, Enhanced, Lines, Contains, EndsInCR, NoBreaks, IsFmtp, SettledAfterOne;
    assert FirstPayload(lines) == Some("111");
    assert IsFmtp(lines[1], "111");
    EnhancedThriceExactly(lower, sdp);
  }

  lemma SignIsUnsettled(lower: Lowercase)
    ensures IsFmtp(SIGN_LINE, "111") && !SettledAfterOne(lower, "111", SIGN_LINE)
  {
    PrefixedIsFmtp("111", "x;=");
    LoneSign(lower);
    LoneSignTable(lower);
    hide ReadableAfterOne, Table, Entries, IsFmtp, FmtpPrefix;
  }

  lemma SignText()
    ensures Lines(MAP + LF + SIGN_LINE) == [MAP, SIGN_LINE]
  {
    MapIsPlain();
    FreeOf(MAP);
    FreeOf("x;=");
    hide MAP, OpusPayload, FmtpPrefix, Contains;
    PrefixFree("111", "x;=", LF);
    hide SIGN_LINE;
    TwoLines(MAP, SIGN_LINE);
  }
}
