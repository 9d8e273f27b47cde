/**
 Tuning the Opus lines of a session description (web/ui.go, `enhanceOpusSDP`): find the payload type
 of the first Opus map, merge the client's parameters into its fmtp lines, or add such a line.
 */
module OpusSdp {
  import opened Wrappers
  import opened Text
  import opened Breaks
  import opened Fmtp
  import opened FmtpStability

  const RTPMAP := "a=rtpmap:"

  /** `prefix` in any mix of ASCII capitals and small letters; `prefix` itself is in small letters. */
  predicate StartsAnyCase(s: string, prefix: string) {
    |prefix| <= |s| && AsciiLower(s[..|prefix|]) == prefix
  }

  predicate IsDigit(c: char) {
    '0' <= c <= '9'
  }

  /** Length of the longest prefix of such characters. */
  function RunOf(s: string, p: char -> bool): (n: nat)
    ensures n <= |s| && (forall i :: 0 <= i < n ==> p(s[i])) && (n < |s| ==> !p(s[n]))
  {
    if s == "" || !p(s[0]) then 0 else 1 + RunOf(s[1..], p)
  }

  /** White space, then the codec name. */
  predicate NamesCodec(s: string, codec: string) {
    var m := RunOf(s, IsJsSpace);
    m > 0 && StartsAnyCase(s[m..], codec)
  }

  /** The payload type a line maps to Opus at 48 kHz. */
  function OpusPayload(line: string): Option<string> {
    if !StartsAnyCase(line, RTPMAP) then None
    else
      var rest := line[|RTPMAP|..];
      var n := RunOf(rest, IsDigit);
      if n > 0 && NamesCodec(rest[n..], "opus/48000") then Some(rest[..n]) else None
  }

  /** The looser test that decides where a missing line is added. */
  predicate MapsOpus(line: string, pt: string) {
    && StartsAnyCase(line, RTPMAP)
    && HasPrefix(line[|RTPMAP|..], pt)
    && NamesCodec(line[|RTPMAP| + |pt|..], "opus")
  }

  function FirstPayload(lines: seq<string>): Option<string> {
    if lines == [] then None
    else if OpusPayload(lines[0]).Some? then OpusPayload(lines[0])
    else FirstPayload(lines[1..])
  }

  function FmtpPrefix(pt: string): string {
    "a=fmtp:" + pt + " "
  }

  predicate IsFmtp(line: string, pt: string) {
    HasPrefix(line, FmtpPrefix(pt)) || HasPrefix(line, "a=fmtp:" + pt + "=")
  }

  function Tuned(lower: Lowercase, pt: string, line: string): string {
    if IsFmtp(line, pt) then FmtpPrefix(pt) + Merged(lower, line[|FmtpPrefix(pt)|..], OPUS_PARAMS) else line
  }

  function AllTuned(lower: Lowercase, pt: string, lines: seq<string>): seq<string> {
    if lines == [] then [] else [Tuned(lower, pt, lines[0])] + AllTuned(lower, pt, lines[1..])
  }

  predicate HasFmtp(lines: seq<string>, pt: string) {
    exists i :: 0 <= i < |lines| && IsFmtp(lines[i], pt)
  }

  function Added(pt: string, line: string): seq<string> {
    if MapsOpus(line, pt) then [line, FmtpPrefix(pt) + OPUS_PARAMS] else [line]
  }

  function AllAdded(pt: string, lines: seq<string>): seq<string> {
    if lines == [] then [] else Added(pt, lines[0]) + AllAdded(pt, lines[1..])
  }

  function EnhancedLines(lower: Lowercase, lines: seq<string>): seq<string> {
    match FirstPayload(lines)
    case None => lines
    case Some(pt) => if HasFmtp(lines, pt) then AllTuned(lower, pt, lines) else AllAdded(pt, lines)
  }

  function Enhanced(lower: Lowercase, sdp: string): string {
    if sdp == "" then sdp else Join(EnhancedLines(lower, Split(sdp, Separator(sdp))), Separator(sdp))
  }

  // ---- The program ----

  method FindPayload(lines: seq<string>) returns (r: Option<string>)
    ensures r == FirstPayload(lines)
  {
    assert lines[0..] == lines;
    for i := 0 to |lines|
      invariant FirstPayload(lines) == FirstPayload(lines[i..])
    {
      hide OpusPayload;
      assert lines[i..][1..] == lines[i + 1..];
      var m := OpusPayload(lines[i]);
      if m.Some? {
        return m;
      }
    }
    assert lines[|lines|..] == [];
    r := None;
  }

  lemma TunedStep(lower: Lowercase, pt: string, lines: seq<string>, i: nat, done: seq<string>)
    requires i < |lines|
    ensures done + AllTuned(lower, pt, lines[i..]) ==
            done + [Tuned(lower, pt, lines[i])] + AllTuned(lower, pt, lines[i + 1..])
  {
    hide Tuned;
    assert lines[i..][1..] == lines[i + 1..];
  }

  lemma FmtpIsLong(line: string, pt: string)
    requires IsFmtp(line, pt)
    ensures |FmtpPrefix(pt)| <= |line|
  {
  }

  method TuneLine(lower: Lowercase, pt: string, line: string) returns (r: string)
    requires IsFmtp(line, pt)
    ensures r == Tuned(lower, pt, line)
  {
    FmtpIsLong(line, pt);
    hide Merged;
    var prefix := FmtpPrefix(pt);
    var merged := MergeFmtpParams(lower, line[|prefix|..], OPUS_PARAMS);
    r := prefix + merged;
  }

  lemma OtherLine(lower: Lowercase, pt: string, line: string)
    ensures !IsFmtp(line, pt) ==> Tuned(lower, pt, line) == line
  {
  }

  method TuneLines(lower: Lowercase, pt: string, lines: seq<string>) returns (found: bool, r: seq<string>)
    ensures found == HasFmtp(lines, pt)
    ensures r == AllTuned(lower, pt, lines)
  {
    found, r := false, [];
    assert lines[0..] == lines;
    for i := 0 to |lines|
      invariant found == HasFmtp(lines[..i], pt)
      invariant r + AllTuned(lower, pt, lines[i..]) == AllTuned(lower, pt, lines)
    {
      TunedStep(lower, pt, lines, i, r);
      FoundStep(lines, i, pt);
      hide AllTuned, Tuned, IsFmtp, HasFmtp;
      var line, tuned := lines[i], lines[i];
      if IsFmtp(line, pt) {
        found := true;
        tuned := TuneLine(lower, pt, line);
      }
      OtherLine(lower, pt, line);
      r := r + [tuned];
    }
    assert lines[|lines|..] == [] && r + [] == r && lines[..|lines|] == lines;
  }

  lemma FoundStep(lines: seq<string>, i: nat, pt: string)
    requires i < |lines|
    ensures HasFmtp(lines[..i + 1], pt) <==> HasFmtp(lines[..i], pt) || IsFmtp(lines[i], pt)
  {
    hide IsFmtp;
    assert lines[..i + 1][i] == lines[i];
    assert forall k :: 0 <= k < i ==> lines[..i + 1][k] == lines[k] && lines[..i][k] == lines[k];
  }

  lemma AddedStep(pt: string, lines: seq<string>, i: nat, done: seq<string>)
    requires i < |lines|
    ensures done + AllAdded(pt, lines[i..]) == done + Added(pt, lines[i]) + AllAdded(pt, lines[i + 1..])
  {
    hide Added;
    assert lines[i..][1..] == lines[i + 1..];
  }

  method AddLines(pt: string, lines: seq<string>) returns (r: seq<string>)
    ensures r == AllAdded(pt, lines)
  {
    r := [];
    assert lines[0..] == lines;
    for i := 0 to |lines|
      invariant r + AllAdded(pt, lines[i..]) == AllAdded(pt, lines)
    {
      AddedStep(pt, lines, i, r);
      hide AllAdded, MapsOpus;
      ghost var before := r;
      var line := lines[i];
      r := r + [line];
      if MapsOpus(line, pt) {
        r := r + [FmtpPrefix(pt) + OPUS_PARAMS];
      }
      assert r == before + Added(pt, line);
    }
    assert lines[|lines|..] == [] && r + [] == r;
  }

  /** Without an fmtp line tuning changes nothing. */
  lemma {:induction false} NothingToTune(lower: Lowercase, pt: string, lines: seq<string>)
    requires !HasFmtp(lines, pt)
    ensures AllTuned(lower, pt, lines) == lines
  {
    if lines == [] {
    } else {
      assert !IsFmtp(lines[0], pt);
      forall i | 0 <= i < |lines[1..]| ensures !IsFmtp(lines[1..][i], pt) {
        assert lines[1..][i] == lines[i + 1];
      }
      hide IsFmtp;
      NothingToTune(lower, pt, lines[1..]);
    }
  }

  method EnhanceOpusSDP(lower: Lowercase, sdp: string) returns (r: string)
    ensures r == Enhanced(lower, sdp)
  {
    hide Contains, Split, Join, Find, AllTuned, AllAdded, HasFmtp, FirstPayload;
    if sdp == "" {
      return sdp;
    }
    FindContains(sdp, CRLF);
    var separator := if Find(sdp, CRLF, 0) < |sdp| then CRLF else LF;
    assert separator == Separator(sdp);
    hide Separator;
    var lines := Split(sdp, separator);
    var opusPt := FindPayload(lines);
    if opusPt.None? {
      JoinOfSplit(sdp, separator);
      return sdp;
    }
    var found, newLines := TuneLines(lower, opusPt.value, lines);
    if !found {
      NothingToTune(lower, opusPt.value, lines);
      newLines := AddLines(opusPt.value, newLines);
    }
    r := Join(newLines, separator);
  }

  // ---- What an enhancement changes ----

  /** The lines that are not fmtp lines of the payload type. */
  function Others(lines: seq<string>, pt: string): seq<string> {
    if lines == [] then []
    else (if IsFmtp(lines[0], pt) then [] else [lines[0]]) + Others(lines[1..], pt)
  }

  lemma {:induction false} OthersConcat(a: seq<string>, b: seq<string>, pt: string)
    ensures Others(a + b, pt) == Others(a, pt) + Others(b, pt)
  {
    hide IsFmtp;
    if a == [] {
      assert a + b == b;
    } else {
      assert (a + b)[0] == a[0] && (a + b)[1..] == a[1..] + b;
      OthersConcat(a[1..], b, pt);
    }
  }

  lemma PrefixedIsFmtp(pt: string, rest: string)
    ensures IsFmtp(FmtpPrefix(pt) + rest, pt)
    ensures (FmtpPrefix(pt) + rest)[|FmtpPrefix(pt)|..] == rest
  {
    assert (FmtpPrefix(pt) + rest)[..|FmtpPrefix(pt)|] == FmtpPrefix(pt);
  }

  lemma TunedStaysFmtp(lower: Lowercase, pt: string, line: string)
    ensures IsFmtp(Tuned(lower, pt, line), pt) <==> IsFmtp(line, pt)
  {
    if IsFmtp(line, pt) {
      FmtpIsLong(line, pt);
      PrefixedIsFmtp(pt, Merged(lower, line[|FmtpPrefix(pt)|..], OPUS_PARAMS));
    }
    hide IsFmtp, Merged;
  }

  lemma {:induction false} TunedOthers(lower: Lowercase, pt: string, lines: seq<string>)
    ensures Others(AllTuned(lower, pt, lines), pt) == Others(lines, pt)
  {
    if lines == [] {
    } else {
      TunedStaysFmtp(lower, pt, lines[0]);
      OtherLine(lower, pt, lines[0]);
      TunedOthers(lower, pt, lines[1..]);
      hide Tuned, IsFmtp;
      assert AllTuned(lower, pt, lines)[1..] == AllTuned(lower, pt, lines[1..]);
    }
  }

  lemma AddedOthers(pt: string, line: string)
    ensures Others(Added(pt, line), pt) == Others([line], pt)
  {
    PrefixedIsFmtp(pt, OPUS_PARAMS);
    hide MapsOpus, IsFmtp, OPUS_PARAMS, FmtpPrefix;
    if MapsOpus(line, pt) {
      var extra := FmtpPrefix(pt) + OPUS_PARAMS;
      assert Added(pt, line) == [line] + [extra];
      OthersConcat([line], [extra], pt);
    }
  }

  lemma {:induction false} AllAddedOthers(pt: string, lines: seq<string>)
    ensures Others(AllAdded(pt, lines), pt) == Others(lines, pt)
  {
    hide Added, IsFmtp;
    if lines == [] {
    } else {
      AddedOthers(pt, lines[0]);
      AllAddedOthers(pt, lines[1..]);
      OthersConcat(Added(pt, lines[0]), AllAdded(pt, lines[1..]), pt);
      OthersConcat([lines[0]], lines[1..], pt);
      assert [lines[0]] + lines[1..] == lines;
    }
  }

  /** Every line but the fmtp lines of the payload type passes unchanged, in order, and none is added. */
  lemma OtherLinesUntouched(lower: Lowercase, lines: seq<string>, pt: string)
    requires FirstPayload(lines) == Some(pt)
    ensures Others(EnhancedLines(lower, lines), pt) == Others(lines, pt)
  {
    hide HasFmtp, FirstPayload;
    TunedOthers(lower, pt, lines);
    AllAddedOthers(pt, lines);
  }

  /** The line asks for every parameter the client wants. */
  ghost predicate Asks(lower: Lowercase, pt: string, line: string) {
    && HasPrefix(line, FmtpPrefix(pt))
    && forall i :: 0 <= i < |OPUS| ==>
                     ValueOf(Entries(lower, line[|FmtpPrefix(pt)|..]), OPUS[i].key) == Some(OPUS[i].value)
  }

  lemma PrefixedAsks(lower: Lowercase, pt: string, rest: string)
    requires forall i :: 0 <= i < |OPUS| ==> ValueOf(Entries(lower, rest), OPUS[i].key) == Some(OPUS[i].value)
    ensures Asks(lower, pt, FmtpPrefix(pt) + rest)
  {
    PrefixedIsFmtp(pt, rest);
    hide OPUS, ValueOf, Entries, Lowers;
    assert HasPrefix(FmtpPrefix(pt) + rest, FmtpPrefix(pt));
  }

  lemma TunedAsks(lower: Lowercase, pt: string, line: string)
    requires IsFmtp(line, pt)
    ensures Asks(lower, pt, Tuned(lower, pt, line))
  {
    FmtpIsLong(line, pt);
    hide OPUS, ValueOf, Entries, Merged, Lowers, IsFmtp, Asks;
    var rest := line[|FmtpPrefix(pt)|..];
    forall i | 0 <= i < |OPUS|
      ensures ValueOf(Entries(lower, Merged(lower, rest, OPUS_PARAMS)), OPUS[i].key) == Some(OPUS[i].value)
    {
      OpusWins(lower, rest, i);
    }
    PrefixedAsks(lower, pt, Merged(lower, rest, OPUS_PARAMS));
  }

  lemma AddedAsks(lower: Lowercase, pt: string)
    ensures Asks(lower, pt, FmtpPrefix(pt) + OPUS_PARAMS) && IsFmtp(FmtpPrefix(pt) + OPUS_PARAMS, pt)
  {
    OpusEntries(lower);
    OpusKeysDiffer();
    PrefixedIsFmtp(pt, OPUS_PARAMS);
    hide OPUS, OPUS_PARAMS, ValueOf, Entries, Lowers, UniqueKeys, Asks;
    forall i | 0 <= i < |OPUS| ensures ValueOf(OPUS, OPUS[i].key) == Some(OPUS[i].value) {
      ValueAt(OPUS, OPUS[i]);
    }
    PrefixedAsks(lower, pt, OPUS_PARAMS);
  }

  lemma {:induction false} AllTunedAt(lower: Lowercase, pt: string, lines: seq<string>)
    ensures |AllTuned(lower, pt, lines)| == |lines|
    ensures forall i :: 0 <= i < |lines| ==> AllTuned(lower, pt, lines)[i] == Tuned(lower, pt, lines[i])
  {
    hide Tuned;
    if lines == [] {
    } else {
      AllTunedAt(lower, pt, lines[1..]);
    }
  }

  /** The lines of the second loop are the old ones and the new line. */
  lemma {:induction false} AllAddedMembers(pt: string, lines: seq<string>, line: string)
    ensures line in AllAdded(pt, lines) <==>
            || line in lines
            || (line == FmtpPrefix(pt) + OPUS_PARAMS && exists i :: 0 <= i < |lines| && MapsOpus(lines[i], pt))
  {
    hide MapsOpus, OPUS_PARAMS, FmtpPrefix;
    if lines == [] {
    } else {
      AllAddedMembers(pt, lines[1..], line);
      assert forall i :: 0 <= i < |lines[1..]| ==> lines[1..][i] == lines[i + 1];
      assert forall i :: 1 <= i < |lines| ==> lines[i] == lines[1..][i - 1];
      assert [lines[0]] + lines[1..] == lines;
    }
  }

  lemma AnyCasePrefix(s: string, longer: string, shorter: string)
    requires StartsAnyCase(s, longer) && HasPrefix(longer, shorter)
    ensures StartsAnyCase(s, shorter)
  {
    assert AsciiLower(s[..|longer|])[..|shorter|] == AsciiLower(s[..|shorter|]);
  }

  lemma PayloadMaps(line: string)
    requires OpusPayload(line).Some?
    ensures MapsOpus(line, OpusPayload(line).value)
  {
    var rest := line[|RTPMAP|..];
    var n := RunOf(rest, IsDigit);
    var tail := rest[n..];
    AnyCasePrefix(tail[RunOf(tail, IsJsSpace)..], "opus/48000", "opus");
    hide AsciiLower;
    assert line[|RTPMAP| + n..] == tail;
  }

  lemma {:induction false} FirstPayloadAt(lines: seq<string>)
    requires FirstPayload(lines).Some?
    ensures exists i :: 0 <= i < |lines| && MapsOpus(lines[i], FirstPayload(lines).value)
  {
    hide MapsOpus, OpusPayload;
    if OpusPayload(lines[0]).Some? {
      PayloadMaps(lines[0]);
    } else {
      FirstPayloadAt(lines[1..]);
      var i :| 0 <= i < |lines[1..]| && MapsOpus(lines[1..][i], FirstPayload(lines[1..]).value);
      assert lines[i + 1] == lines[1..][i];
    }
  }

  /**
   When the description maps a payload type to Opus, the enhanced one has an fmtp line for it, and
   every such line asks for every parameter the client wants.
   */
  lemma EveryOpusLineAsks(lower: Lowercase, lines: seq<string>, pt: string)
    requires FirstPayload(lines) == Some(pt)
    ensures HasFmtp(EnhancedLines(lower, lines), pt)
    ensures forall line :: line in EnhancedLines(lower, lines) && IsFmtp(line, pt) ==> Asks(lower, pt, line)
  {
    var out := EnhancedLines(lower, lines);
    AddedAsks(lower, pt);
    AllTunedAt(lower, pt, lines);
    FirstPayloadAt(lines);
    hide IsFmtp, Asks, Tuned, OPUS_PARAMS, MapsOpus, FmtpPrefix, AllTuned, AllAdded, FirstPayload;
    if HasFmtp(lines, pt) {
      var i :| 0 <= i < |lines| && IsFmtp(lines[i], pt);
      TunedStaysFmtp(lower, pt, lines[i]);
      assert IsFmtp(out[i], pt);
      forall k | 0 <= k < |out| && IsFmtp(out[k], pt) ensures Asks(lower, pt, out[k]) {
        TunedStaysFmtp(lower, pt, lines[k]);
        TunedAsks(lower, pt, lines[k]);
      }
    } else {
      var extra := FmtpPrefix(pt) + OPUS_PARAMS;
      AllAddedMembers(pt, lines, extra);
      var i :| 0 <= i < |out| && out[i] == extra;
      forall line | line in out && IsFmtp(line, pt) ensures Asks(lower, pt, line) {
        AllAddedMembers(pt, lines, line);
      }
    }
  }

  // ---- Enhancing twice ----

  lemma FmtpIsNoMap(line: string, pt: string)
    requires IsFmtp(line, pt)
    ensures OpusPayload(line) == None
  {
    assert line[2] == 'f' by {
      var n := |"a=fmtp:"|;
      assert "a=fmtp:"[2] == 'f';
      assert line[..n] == "a=fmtp:" by { FmtpStart(line, pt); }
    }
    ThirdOfMap(line);
    hide StartsAnyCase;
  }

  lemma ThirdOfMap(line: string)
    ensures StartsAnyCase(line, RTPMAP) ==> line[2] == 'r' || line[2] == 'R'
  {
    if StartsAnyCase(line, RTPMAP) {
      assert AsciiLower(line[..|RTPMAP|])[2] == RTPMAP[2] == 'r';
    }
  }

  lemma FmtpStart(line: string, pt: string)
    requires IsFmtp(line, pt)
    ensures |line| >= 7 && line[..7] == "a=fmtp:"
  {
    var n := 7 + |pt| + 1;
    assert line[..n][..7] == line[..7];
    assert FmtpPrefix(pt)[..7] == "a=fmtp:" && ("a=fmtp:" + pt + "=")[..7] == "a=fmtp:";
  }

  lemma {:induction false} TunedPayload(lower: Lowercase, pt: string, lines: seq<string>)
    ensures FirstPayload(AllTuned(lower, pt, lines)) == FirstPayload(lines)
  {
    if lines == [] {
    } else {
      OtherLine(lower, pt, lines[0]);
      TunedStaysFmtp(lower, pt, lines[0]);
      hide IsFmtp, Tuned, OpusPayload;
      if IsFmtp(lines[0], pt) {
        FmtpIsNoMap(lines[0], pt);
        FmtpIsNoMap(Tuned(lower, pt, lines[0]), pt);
      }
      TunedPayload(lower, pt, lines[1..]);
      assert AllTuned(lower, pt, lines)[1..] == AllTuned(lower, pt, lines[1..]);
    }
  }

  lemma PayloadOfTwo(line: string, extra: string, more: seq<string>)
    requires OpusPayload(extra) == None
    ensures FirstPayload([line, extra] + more) ==
            if OpusPayload(line).Some? then OpusPayload(line) else FirstPayload(more)
  {
    hide OpusPayload;
    var lines := [line, extra] + more;
    assert lines[1..] == [extra] + more && lines[1..][1..] == more;
  }

  lemma PayloadOfAdded(pt: string, line: string, more: seq<string>)
    ensures FirstPayload(Added(pt, line) + more) ==
            if OpusPayload(line).Some? then OpusPayload(line) else FirstPayload(more)
  {
    PrefixedIsFmtp(pt, OPUS_PARAMS);
    FmtpIsNoMap(FmtpPrefix(pt) + OPUS_PARAMS, pt);
    hide IsFmtp, OpusPayload, MapsOpus, OPUS_PARAMS, FmtpPrefix;
    if MapsOpus(line, pt) {
      PayloadOfTwo(line, FmtpPrefix(pt) + OPUS_PARAMS, more);
    } else {
      assert ([line] + more)[1..] == more;
    }
  }

  lemma {:induction false} AddedPayload(pt: string, lines: seq<string>)
    ensures FirstPayload(AllAdded(pt, lines)) == FirstPayload(lines)
  {
    hide OpusPayload, Added;
    if lines == [] {
    } else {
      AddedPayload(pt, lines[1..]);
      PayloadOfAdded(pt, lines[0], AllAdded(pt, lines[1..]));
    }
  }

  lemma EnhancedPayload(lower: Lowercase, lines: seq<string>)
    ensures FirstPayload(EnhancedLines(lower, lines)) == FirstPayload(lines)
  {
    hide HasFmtp, AllTuned, AllAdded;
    match FirstPayload(lines)
    case None =>
    case Some(pt) =>
      hide FirstPayload;
      TunedPayload(lower, pt, lines);
      AddedPayload(pt, lines);
  }

  /** The parameters of an fmtp line can be read back after the merge. */
  ghost predicate Settled(lower: Lowercase, pt: string, line: string) {
    IsFmtp(line, pt) ==>
      |FmtpPrefix(pt)| <= |line| && NamesReadable(lower, Table(Entries(lower, line[|FmtpPrefix(pt)|..])))
  }

  lemma TunedTwice(lower: Lowercase, pt: string, line: string)
    ensures var once := Tuned(lower, pt, line);
            Tuned(lower, pt, once) == once <==> Settled(lower, pt, line)
  {
    if IsFmtp(line, pt) {
      FmtpIsLong(line, pt);
      var rest := line[|FmtpPrefix(pt)|..];
      OpusEntries(lower);
      OpusIsSomething();
      hide OPUS, OPUS_PARAMS, Merged, Table, NamesReadable, Entries, AllNamed, Lowers, IsFmtp, FmtpPrefix;
      var once := Merged(lower, rest, OPUS_PARAMS);
      PrefixedIsFmtp(pt, once);
      IdempotentExactlyWhenNamesReadable(lower, rest, OPUS_PARAMS);
      SamePrefix(FmtpPrefix(pt), Merged(lower, once, OPUS_PARAMS), once);
    }
  }

  /** A freshly added line is re-spaced by the second enhancement, and then stays. */
  lemma AddedIsRespaced(lower: Lowercase, pt: string)
    ensures var extra := FmtpPrefix(pt) + OPUS_PARAMS;
            Tuned(lower, pt, extra) != extra && Settled(lower, pt, extra)
  {
    PrefixedIsFmtp(pt, OPUS_PARAMS);
    MergedHasSpaces(lower, OPUS_PARAMS);
    OpusEntries(lower);
    hide OPUS, OPUS_PARAMS, Merged, MergedTable, Entries, Lowers, IsFmtp, FmtpPrefix, Legible;
    SamePrefix(FmtpPrefix(pt), Merged(lower, OPUS_PARAMS, OPUS_PARAMS), OPUS_PARAMS);
    NamedTable(OPUS);
    NamedAreReadable(lower, Table(OPUS));
  }

  /** The requested parameters are written without spaces, merged ones with them. */
  lemma MergedHasSpaces(lower: Lowercase, existing: string)
    ensures Merged(lower, existing, OPUS_PARAMS) != OPUS_PARAMS
  {
    var t := MergedTable(lower, existing, OPUS_PARAMS);
    OpusJoined();
    OpusItems();
    OpusEntries(lower);
    hide OPUS, OPUS_PARAMS, Table, ParseAll, Entries, Split, Join, Lowers, AllOk, Named;
    var items := Items(OPUS);
    MergedIsNotEmpty(lower, existing);
    MergedTableIsOk(lower, existing, OPUS_PARAMS);
    SplitOfOpus();
    SomeTextHasEntries(t);
    SplitOfMerged(lower, t);
    assert |t| > 1 ==> Pairs(t)[1][0] == ' ';
    assert items[1][0] == 'u';
  }

  lemma SomeTextHasEntries(table: seq<Entry>)
    requires Join(Items(table), "; ") != ""
    ensures table != []
  {
  }

  lemma SplitOfOpus()
    ensures Split(OPUS_PARAMS, ";") == Items(OPUS)
  {
    hide OPUS, OPUS_PARAMS, Split, Join, Contains, Plain;
    OpusJoined();
    OpusItems();
    var items := Items(OPUS);
    forall i | 0 <= i < |items| ensures !Contains(items[i], ";") {
      OpusHasNoBreak(i);
      CharOccurs(items[i], ';');
    }
    SplitOfJoin(items, ";");
  }

  lemma OpusHasNoBreak(i: nat)
    requires i < |OPUS|
    ensures ';' !in Item(OPUS[i])
  {
    OpusIsPlain(i);
    PlainText(OPUS[i].key);
    PlainText(OPUS[i].value);
    hide OPUS, Plain;
  }

  lemma TunedStable(lower: Lowercase, pt: string, lines: seq<string>)
    ensures var once := AllTuned(lower, pt, lines);
            AllTuned(lower, pt, once) == once <==> forall line :: line in lines ==> Settled(lower, pt, line)
  {
    var once := AllTuned(lower, pt, lines);
    AllTunedAt(lower, pt, lines);
    AllTunedAt(lower, pt, once);
    hide Settled, Tuned, AllTuned;
    forall i | 0 <= i < |lines| ensures Tuned(lower, pt, once[i]) == once[i] <==> Settled(lower, pt, lines[i]) {
      TunedTwice(lower, pt, lines[i]);
    }
  }

  /**
   A second enhancement changes nothing exactly when the description had fmtp lines for its Opus
   payload from the start, all of whose parameters can be read back.
   */
  lemma StableExactlyWhenSettled(lower: Lowercase, lines: seq<string>, pt: string)
    requires FirstPayload(lines) == Some(pt)
    ensures var once := EnhancedLines(lower, lines);
            EnhancedLines(lower, once) == once <==>
            HasFmtp(lines, pt) && forall line :: line in lines ==> Settled(lower, pt, line)
  {
    var once := EnhancedLines(lower, lines);
    EnhancedPayload(lower, lines);
    EveryOpusLineAsks(lower, lines, pt);
    FirstPayloadAt(lines);
    hide Asks, Settled, Tuned, IsFmtp, MapsOpus, OPUS_PARAMS, FirstPayload, AllTuned, AllAdded, FmtpPrefix, HasFmtp;
    if HasFmtp(lines, pt) {
      TunedStable(lower, pt, lines);
    } else {
      AddedLineMoves(lower, pt, lines);
    }
  }

  lemma AddedLineMoves(lower: Lowercase, pt: string, lines: seq<string>)
    requires exists i :: 0 <= i < |lines| && MapsOpus(lines[i], pt)
    ensures var once := AllAdded(pt, lines); AllTuned(lower, pt, once) != once
  {
    var once := AllAdded(pt, lines);
    var extra := FmtpPrefix(pt) + OPUS_PARAMS;
    AllTunedAt(lower, pt, once);
    hide Settled, Tuned, OPUS_PARAMS, MapsOpus, FmtpPrefix, AllTuned, AllAdded;
    AllAddedMembers(pt, lines, extra);
    AddedIsRespaced(lower, pt);
    var i :| 0 <= i < |once| && once[i] == extra;
    assert AllTuned(lower, pt, once)[i] == Tuned(lower, pt, extra);
  }
}
