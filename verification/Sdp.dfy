/**
 Sanitizing session descriptions (internal/signaling/candidate.go): candidate lines whose address is
 not an IP address are dropped, every other line is relayed byte for byte.
 */
module Sdp {
  import opened Wrappers
  import opened Text
  import opened Breaks

  function TrimSpace(s: string): string {
    Trim(s, IsSpace)
  }

  /** The maximal runs of characters that are not white space, in order. */
  function Fields(s: string): seq<string>
    decreases |s|
  {
    if s == "" then []
    else if IsSpace(s[0]) then Fields(s[1..])
    else
      var n := RunLength(s);
      [s[..n]] + Fields(s[n..])
  }

  function RunLength(s: string): (n: nat)
    ensures n <= |s| && (s != "" && !IsSpace(s[0]) ==> n > 0)
    ensures n < |s| ==> IsSpace(s[n])
    ensures forall i :: 0 <= i < n ==> !IsSpace(s[i])
  {
    if s == "" || IsSpace(s[0]) then 0 else 1 + RunLength(s[1..])
  }

  predicate IsBracket(c: char) {
    c == '[' || c == ']'
  }

  /** The part before the last '%'. */
  function WithoutZone(s: string): string
  {
    if LastPercent(s) < |s| then s[..LastPercent(s)] else s
  }

  function LastPercent(s: string): (r: nat)
    ensures r <= |s| && (r < |s| ==> s[r] == '%')
    ensures forall i :: 0 <= i < |s| && (i > r || r == |s|) ==> s[i] != '%'
  {
    if s == "" then 0
    else
      var rest := LastPercent(s[..|s| - 1]);
      if s[|s| - 1] == '%' then |s| - 1 else if rest == |s| - 1 then |s| else rest
  }

  /** `isIP` stands for the library's address parser. */
  predicate IsValidCandidate(candidate: string, isIP: string -> bool) {
    var fields := Fields(TrimPrefix(TrimSpace(candidate), "a="));
    |fields| >= 6 && HasPrefix(fields[0], "candidate:") && isIP(WithoutZone(Trim(fields[4], IsBracket)))
  }

  predicate Keeps(line: string, isIP: string -> bool) {
    var trimmed := TrimSpace(line);
    HasPrefix(trimmed, "a=candidate:") ==> IsValidCandidate(TrimPrefix(trimmed, "a="), isIP)
  }

  function Kept(lines: seq<string>, isIP: string -> bool): seq<string> {
    if lines == [] then []
    else (if Keeps(lines[0], isIP) then [lines[0]] else []) + Kept(lines[1..], isIP)
  }

  function Sanitized(sdp: string, isIP: string -> bool): string {
    Join(Kept(Split(sdp, Separator(sdp)), isIP), Separator(sdp))
  }

  lemma KeptStep(lines: seq<string>, i: nat, isIP: string -> bool, filtered: seq<string>)
    requires i < |lines|
    ensures filtered + Kept(lines[i..], isIP) ==
            (if Keeps(lines[i], isIP) then filtered + [lines[i]] else filtered) + Kept(lines[i + 1..], isIP)
  {
    hide Keeps;
    assert lines[i..][1..] == lines[i + 1..];
  }

  /** The loop of the program. */
  method SanitizeSDP(sdp: string, isIP: string -> bool) returns (r: string)
    ensures r == Sanitized(sdp, isIP)
  {
    var separator := LF;
    if Find(sdp, CRLF, 0) < |sdp| {
      separator := CRLF;
    }
    FindContains(sdp, CRLF);
    assert separator == Separator(sdp);
    hide Separator, Split, Join, Find, Contains, Sanitized;
    var lines := Split(sdp, separator);
    var filtered: seq<string> := [];
    assert lines[0..] == lines;
    for i := 0 to |lines|
      invariant filtered + Kept(lines[i..], isIP) == Kept(lines, isIP)
    {
      KeptStep(lines, i, isIP, filtered);
      hide Kept, IsValidCandidate;
      var trimmed := TrimSpace(lines[i]);
      if HasPrefix(trimmed, "a=candidate:") && !IsValidCandidate(TrimPrefix(trimmed, "a="), isIP) {
        continue;
      }
      filtered := filtered + [lines[i]];
    }
    assert lines[|lines|..] == [] && filtered + [] == filtered;
    r := Join(filtered, separator);
    SanitizedIs(sdp, isIP);
  }

  lemma SanitizedIs(sdp: string, isIP: string -> bool)
    ensures Sanitized(sdp, isIP) == Join(Kept(Split(sdp, Separator(sdp)), isIP), Separator(sdp))
  {
  }

  // ---- Which lines survive ----

  /** The positions, from `from` on, of the lines that are kept. */
  function Picks(lines: seq<string>, from: nat, isIP: string -> bool): seq<nat>
    requires from <= |lines|
    decreases |lines| - from
  {
    if from == |lines| then []
    else (if Keeps(lines[from], isIP) then [from] else []) + Picks(lines, from + 1, isIP)
  }

  /** The increasing positions, from `from` on, of exactly the lines that are kept. */
  ghost predicate ArePicks(lines: seq<string>, from: nat, isIP: string -> bool, picks: seq<nat>) {
    && (forall i :: 0 <= i < |picks| ==> from <= picks[i] < |lines|)
    && (forall i, j :: 0 <= i < j < |picks| ==> picks[i] < picks[j])
    && (forall i :: from <= i < |lines| ==> (i in picks <==> Keeps(lines[i], isIP)))
  }

  lemma InFront(first: nat, picks: seq<nat>)
    ensures forall i :: i in [first] + picks <==> i == first || i in picks
  {
  }

  lemma FirstPick(lines: seq<string>, from: nat, isIP: string -> bool, picks: seq<nat>)
    requires from < |lines| && ArePicks(lines, from + 1, isIP, picks) && Keeps(lines[from], isIP)
    ensures ArePicks(lines, from, isIP, [from] + picks)
  {
    hide Keeps;
    InFront(from, picks);
    var all := [from] + picks;
    forall i, j | 0 <= i < j < |all| ensures all[i] < all[j] {
      assert all[j] == picks[j - 1];
    }
    forall i | from <= i < |lines| ensures i in all <==> Keeps(lines[i], isIP) {
      if i == from {
      } else {
        assert i in all <==> i in picks;
      }
    }
  }

  lemma NoPick(lines: seq<string>, from: nat, isIP: string -> bool, picks: seq<nat>)
    requires from < |lines| && ArePicks(lines, from + 1, isIP, picks) && !Keeps(lines[from], isIP)
    ensures ArePicks(lines, from, isIP, picks)
  {
    hide Keeps;
    assert from !in picks;
  }

  lemma {:induction false} PicksAreTheKept(lines: seq<string>, from: nat, isIP: string -> bool)
    requires from <= |lines|
    ensures ArePicks(lines, from, isIP, Picks(lines, from, isIP))
    decreases |lines| - from
  {
    hide Keeps;
    if from == |lines| {
    } else {
      hide ArePicks;
      var rest := Picks(lines, from + 1, isIP);
      PicksAreTheKept(lines, from + 1, isIP);
      if Keeps(lines[from], isIP) {
        FirstPick(lines, from, isIP, rest);
      } else {
        NoPick(lines, from, isIP, rest);
        assert [] + rest == rest;
      }
    }
  }

  /** The kept lines are the lines at those positions, in order and unchanged. */
  lemma {:induction false} KeptAreTheKeptLines(lines: seq<string>, from: nat, isIP: string -> bool)
    requires from <= |lines|
    ensures var picks := Picks(lines, from, isIP);
            && |Kept(lines[from..], isIP)| == |picks|
            && (forall i :: 0 <= i < |picks| ==> picks[i] < |lines| && Kept(lines[from..], isIP)[i] == lines[picks[i]])
    decreases |lines| - from
  {
    hide Keeps;
    if from == |lines| {
    } else {
      KeptAreTheKeptLines(lines, from + 1, isIP);
      KeptStep(lines, from, isIP, []);
    }
  }

  lemma KeptKeep(lines: seq<string>, isIP: string -> bool)
    ensures forall line :: line in Kept(lines, isIP) ==> line in lines && Keeps(line, isIP)
  {
  }

  lemma {:induction false} NothingDropped(lines: seq<string>, isIP: string -> bool)
    ensures |Kept(lines, isIP)| <= |lines|
    ensures Kept(lines, isIP) == lines <==> forall line :: line in lines ==> Keeps(line, isIP)
  {
    hide Keeps;
    if lines == [] {
    } else {
      NothingDropped(lines[1..], isIP);
      assert lines == [lines[0]] + lines[1..];
      if Keeps(lines[0], isIP) {
        assert Kept(lines, isIP)[1..] == Kept(lines[1..], isIP);
      } else {
        assert lines[0] in lines;
      }
    }
  }

  /** Split at the separator it was built with, the output is exactly the kept lines. */
  lemma OutputLines(sdp: string, isIP: string -> bool)
    ensures var sep := Separator(sdp);
            var kept := Kept(Split(sdp, sep), isIP);
            if kept == [] then Sanitized(sdp, isIP) == "" else Split(Sanitized(sdp, isIP), sep) == kept
  {
    var sep := Separator(sdp);
    var lines := Split(sdp, sep);
    KeptKeep(lines, isIP);
    SplitPartsAreFree(sdp, sep);
    SeparatorsAreBorderless(sep);
    if Kept(lines, isIP) != [] {
      SplitOfJoin(Kept(lines, isIP), sep);
    }
  }

  /** Sanitizing changes nothing exactly when no line is an invalid candidate. */
  lemma IdentityIffNothingInvalid(sdp: string, isIP: string -> bool)
    ensures Sanitized(sdp, isIP) == sdp <==>
            forall line :: line in Split(sdp, Separator(sdp)) ==> Keeps(line, isIP)
  {
    var sep := Separator(sdp);
    var lines := Split(sdp, sep);
    JoinOfSplit(sdp, sep);
    NothingDropped(lines, isIP);
    OutputLines(sdp, isIP);
    if Sanitized(sdp, isIP) == sdp && Kept(lines, isIP) == [] {
      EmptyText(isIP);
      SplitEmpty(sep);
    }
  }

  lemma EmptyText(isIP: string -> bool)
    ensures Keeps("", isIP)
  {
  }

  // ---- Sanitizing twice ----

  lemma {:induction false} KeptHasNoInnerCR(lines: seq<string>, isIP: string -> bool)
    requires NoInnerCR(lines)
    ensures NoInnerCR(Kept(lines, isIP))
  {
    hide Keeps;
    if lines == [] {
    } else {
      forall k | 0 <= k < |lines[1..]| - 1 ensures !EndsInCR(lines[1..][k]) {
        assert lines[1..][k] == lines[k + 1];
      }
      KeptHasNoInnerCR(lines[1..], isIP);
      NothingDropped(lines[1..], isIP);
    }
  }

  /** Sanitizing never introduces a CRLF. */
  lemma NoCRLFIntroduced(sdp: string, isIP: string -> bool)
    requires !Contains(sdp, CRLF)
    ensures !Contains(Sanitized(sdp, isIP), CRLF)
  {
    var lines := Split(sdp, LF);
    SplitHasNoInnerCR(sdp);
    KeptHasNoInnerCR(lines, isIP);
    SplitPartsAreFree(sdp, LF);
    KeptKeep(lines, isIP);
    JoinHasNoCRLF(Kept(lines, isIP));
  }

  /** Sanitizing a second time changes nothing. */
  predicate Stable(sdp: string, isIP: string -> bool) {
    Sanitized(Sanitized(sdp, isIP), isIP) == Sanitized(sdp, isIP)
  }

  /** When the output keeps the input's separator, sanitizing again changes nothing. */
  lemma SameSeparatorIsStable(sdp: string, isIP: string -> bool)
    requires Separator(Sanitized(sdp, isIP)) == Separator(sdp)
    ensures Stable(sdp, isIP)
  {
    var out, sep := Sanitized(sdp, isIP), Separator(sdp);
    var lines := Split(sdp, sep);
    OutputLines(sdp, isIP);
    KeptKeep(lines, isIP);
    EmptyText(isIP);
    SplitEmpty(sep);
    IdentityIffNothingInvalid(out, isIP);
  }

  /**
   The text keeps its line breaks: it has no CRLF at all, or does not shrink to a single line, or
   that single line has no invalid candidate among its own LF lines.
   */
  predicate BreaksSurvive(sdp: string, isIP: string -> bool) {
    !Contains(sdp, CRLF) ||
    (var kept := Kept(Split(sdp, CRLF), isIP);
     |kept| != 1 || forall line :: line in Split(kept[0], LF) ==> Keeps(line, isIP))
  }

  /** Sanitizing is idempotent on exactly these texts. */
  lemma IdempotentExactlyWhenBreaksSurvive(sdp: string, isIP: string -> bool)
    ensures Stable(sdp, isIP) <==> BreaksSurvive(sdp, isIP)
  {
    var out := Sanitized(sdp, isIP);
    if !Contains(sdp, CRLF) {
      NoCRLFIntroduced(sdp, isIP);
      SameSeparatorIsStable(sdp, isIP);
    } else {
      var lines := Split(sdp, CRLF);
      var kept := Kept(lines, isIP);
      KeptKeep(lines, isIP);
      SplitPartsAreFree(sdp, CRLF);
      if |kept| == 1 {
        IdentityIffNothingInvalid(out, isIP);
      } else if |kept| == 0 {
        EmptyText(isIP);
        SplitEmpty(LF);
        IdentityIffNothingInvalid(out, isIP);
      } else {
        assert OccursAt(out, CRLF, |kept[0]|);
        SameSeparatorIsStable(sdp, isIP);
      }
    }
  }

  /** None of the lines of the text, at its own breaks, is an invalid candidate. */
  ghost predicate Clean(sdp: string, isIP: string -> bool) {
    forall line :: line in Split(sdp, Separator(sdp)) ==> Keeps(line, isIP)
  }

  /** And on exactly these texts the output is clean at its own breaks. */
  lemma CleanExactlyWhenBreaksSurvive(sdp: string, isIP: string -> bool)
    ensures Clean(Sanitized(sdp, isIP), isIP) <==> BreaksSurvive(sdp, isIP)
  {
    IdentityIffNothingInvalid(Sanitized(sdp, isIP), isIP);
    IdempotentExactlyWhenBreaksSurvive(sdp, isIP);
  }

  /** In particular on text with uniform line endings. */
  lemma IdempotentOnUniformBreaks(sdp: string, isIP: string -> bool)
    requires Contains(sdp, CRLF) ==> forall line :: line in Split(sdp, CRLF) ==> !Contains(line, LF)
    ensures Stable(sdp, isIP)
  {
    IdempotentExactlyWhenBreaksSurvive(sdp, isIP);
    if Contains(sdp, CRLF) {
      var kept := Kept(Split(sdp, CRLF), isIP);
      KeptKeep(Split(sdp, CRLF), isIP);
      if |kept| == 1 {
        FindContains(kept[0], LF);
        assert Split(kept[0], LF) == [kept[0]];
      }
    }
  }

  predicate Solid(s: string) {
    s != "" && forall i :: 0 <= i < |s| ==> !IsSpace(s[i])
  }

  lemma SolidIsOneField(s: string)
    requires Solid(s)
    ensures Fields(s) == [s]
  {
    assert RunLength(s) == |s|;
    assert s[|s|..] == "" && s[..|s|] == s;
  }

  /** A candidate line with a single field is dropped. */
  lemma LoneCandidateIsDropped(line: string, isIP: string -> bool)
    requires HasPrefix(line, "a=candidate:") && Solid(line)
    ensures !Keeps(line, isIP)
  {
    TrimOfTrimmed(line, IsSpace);
    var rest := line[2..];
    assert line[..2] == line[..|"a=candidate:"|][..2] == "a=";
    assert rest[0] == line[..|"a=candidate:"|][2] == 'c';
    assert Solid(rest);
    TrimOfTrimmed(rest, IsSpace);
    OtherFirstChar(rest, "a=");
    SolidIsOneField(rest);
  }

  lemma OtherFirstChar(s: string, prefix: string)
    requires s != "" && prefix != "" && s[0] != prefix[0]
    ensures !HasPrefix(s, prefix)
  {
    if |prefix| <= |s| {
      assert s[..|prefix|][0] == s[0];
    }
  }

  /**
   Not every text: a line whose own LF lines hide an invalid candidate survives alone, and only the
   second pass, which then breaks at LF, drops that candidate.
   */
  lemma HiddenCandidateIsNotStable(plain: string, hidden: string, dropped: string, isIP: string -> bool)
    requires NoBreaks(plain) && NoBreaks(hidden) && NoBreaks(dropped)
    requires Keeps(plain + LF + hidden, isIP) && !Keeps(hidden, isIP) && !Keeps(dropped, isIP)
    ensures var sdp := plain + LF + hidden + CRLF + dropped;
            !Stable(sdp, isIP)
  {
    var first := plain + LF + hidden;
    var sdp := first + CRLF + dropped;
    hide Keeps, Sanitized, Split, Kept, BreaksSurvive;
    FreeOf(plain);
    FreeOf(hidden);
    FreeOf(dropped);
    NoCR(first);
    SeparatorsAreBorderless(LF);
    SeparatorsAreBorderless(CRLF);
    TwoPartSplit(first, dropped, CRLF);
    TwoPartSplit(plain, hidden, LF);
    assert OccursAt(sdp, CRLF, |first|);
    OnlyFirstKept(first, dropped, isIP);
    assert [plain, hidden][1] == hidden;
    BreaksDoNotSurvive(sdp, first, hidden, isIP);
    IdempotentExactlyWhenBreaksSurvive(sdp, isIP);
  }

  lemma BreaksDoNotSurvive(sdp: string, first: string, hidden: string, isIP: string -> bool)
    requires Contains(sdp, CRLF) && Kept(Split(sdp, CRLF), isIP) == [first]
    requires hidden in Split(first, LF) && !Keeps(hidden, isIP)
    ensures !BreaksSurvive(sdp, isIP)
  {
    hide Keeps, Split, Kept;
  }

  lemma PlainIsKept(line: string, isIP: string -> bool)
    requires line != "" && line[0] != 'a' && Trimmed(line, IsSpace)
    ensures Keeps(line, isIP)
  {
    TrimOfTrimmed(line, IsSpace);
    OtherFirstChar(line, "a=candidate:");
  }

  const BARE := "a=candidate:"

  lemma BareCandidateIsDropped(isIP: string -> bool)
    ensures !Keeps(BARE, isIP)
  {
    assert BARE[..|BARE|] == BARE;
    LoneCandidateIsDropped(BARE, isIP);
  }

  lemma BareIsSolid()
    ensures Solid(BARE) && NoBreaks(BARE) && NoBreaks("v")
  {
  }

  lemma PlainThenBare(bad: string, isIP: string -> bool)
    requires Solid(bad)
    ensures Keeps("v" + LF + bad, isIP)
  {
    var line := "v" + LF + bad;
    assert line[0] == 'v' && line[|line| - 1] == bad[|bad| - 1];
    PlainIsKept(line, isIP);
  }

  /** A line, LF, a bare candidate, CRLF, another one. */
  const MIXED := "v" + LF + BARE + CRLF + BARE

  /** Such a text, whatever addresses are accepted. */
  lemma MixedBreaksAreNotStable(isIP: string -> bool)
    ensures !Stable(MIXED, isIP)
  {
    hide Keeps, Sanitized, Stable, Solid, NoBreaks;
    BareCandidateIsDropped(isIP);
    BareIsSolid();
    PlainThenBare(BARE, isIP);
    HiddenCandidateIsNotStable("v", BARE, BARE, isIP);
  }

  lemma OnlyFirstKept(first: string, second: string, isIP: string -> bool)
    requires Keeps(first, isIP) && !Keeps(second, isIP)
    ensures Kept([first, second], isIP) == [first]
  {
    hide Keeps;
    assert [first, second][1..] == [second] && [second][1..] == [];
    assert Kept([second], isIP) == [];
  }

  // ---- Fields ----

  ghost predicate Blank(s: string) {
    forall i :: 0 <= i < |s| ==> IsSpace(s[i])
  }

  /** After `g` white-space characters stands a whole field: it ends the text, or white space follows. */
  ghost predicate FieldAt(s: string, g: nat, field: string) {
    && g + |field| <= |s| && Blank(s[..g]) && s[g..g + |field|] == field && Solid(field)
    && (g + |field| < |s| ==> IsSpace(s[g + |field|]))
  }

  /** The text is these fields, with white space around and between them. */
  ghost predicate Separated(s: string, fields: seq<string>)
    decreases |fields|
  {
    if fields == [] then Blank(s)
    else exists g: nat :: FieldAt(s, g, fields[0]) && Separated(s[g + |fields[0]|..], fields[1..])
  }

  lemma {:induction false} SkipBlank(s: string, g: nat)
    requires g <= |s| && Blank(s[..g])
    ensures Fields(s) == Fields(s[g..])
    decreases g
  {
    if g == 0 {
      assert s[0..] == s;
    } else {
      assert IsSpace(s[..g][0]);
      var less := s[1..][..g - 1];
      forall i | 0 <= i < |less| ensures IsSpace(less[i]) {
        assert less[i] == s[..g][i + 1];
      }
      SkipBlank(s[1..], g - 1);
      assert s[1..][g - 1..] == s[g..];
    }
  }

  lemma SolidRun(s: string, field: string)
    requires FieldAt(s, 0, field)
    ensures Fields(s) == [field] + Fields(s[|field|..])
  {
    var n := RunLength(s);
    assert s[0..|field|] == s[..|field|];
    assert forall i :: 0 <= i < |field| ==> s[i] == field[i];
    assert !IsSpace(s[0]);
    hide RunLength;
    assert n == |field|;
  }

  lemma {:induction false} SeparatedAreFields(s: string, fields: seq<string>)
    requires Separated(s, fields)
    ensures Fields(s) == fields
    decreases |fields|
  {
    if fields == [] {
      assert s[..|s|] == s && s[|s|..] == "";
      SkipBlank(s, |s|);
    } else {
      var f := fields[0];
      var g: nat :| FieldAt(s, g, f) && Separated(s[g + |f|..], fields[1..]);
      SkipBlank(s, g);
      var rest := s[g..];
      FieldFromStart(s, g, f);
      SolidRun(rest, f);
      assert rest[|f|..] == s[g + |f|..];
      SeparatedAreFields(s[g + |f|..], fields[1..]);
    }
  }

  lemma FieldFromStart(s: string, g: nat, f: string)
    requires FieldAt(s, g, f)
    ensures FieldAt(s[g..], 0, f)
  {
    assert s[g..][0..|f|] == s[g..g + |f|];
    assert g + |f| < |s| ==> s[g..][|f|] == s[g + |f|];
  }

  lemma BlankBefore(s: string, fields: seq<string>)
    requires s != "" && IsSpace(s[0]) && Separated(s[1..], fields)
    ensures Separated(s, fields)
  {
    var rest := s[1..];
    if fields == [] {
      assert forall i :: 1 <= i < |s| ==> s[i] == rest[i - 1];
    } else {
      var f := fields[0];
      var g: nat :| FieldAt(rest, g, f) && Separated(rest[g + |f|..], fields[1..]);
      assert rest[g + |f|..] == s[g + 1 + |f|..];
      FieldLater(s, g, f);
    }
  }

  lemma FieldLater(s: string, g: nat, f: string)
    requires s != "" && IsSpace(s[0]) && FieldAt(s[1..], g, f)
    ensures FieldAt(s, g + 1, f)
  {
    var rest := s[1..];
    assert s[g + 1..g + 1 + |f|] == rest[g..g + |f|];
    assert g + |f| < |rest| ==> rest[g + |f|] == s[g + 1 + |f|];
    var gap := s[..g + 1];
    forall i | 0 <= i < |gap| ensures IsSpace(gap[i]) {
      assert i > 0 ==> gap[i] == rest[..g][i - 1];
    }
  }

  lemma {:induction false} FieldsAreSeparated(s: string)
    ensures Separated(s, Fields(s))
    decreases |s|
  {
    if s == "" {
    } else if IsSpace(s[0]) {
      FieldsAreSeparated(s[1..]);
      BlankBefore(s, Fields(s[1..]));
    } else {
      var n := RunLength(s);
      FieldsAreSeparated(s[n..]);
      assert FieldAt(s, 0, s[..n]) by {
        assert s[0..n] == s[..n];
      }
      var fields := [s[..n]] + Fields(s[n..]);
      assert fields[0] == s[..n] && fields[1..] == Fields(s[n..]);
      assert 0 + |fields[0]| == n && s[0 + |fields[0]|..] == s[n..];
    }
  }

  /** The fields of a text are the one way to cut it at white space: how many there are, and which. */
  lemma FieldsAreTheText(s: string, fields: seq<string>)
    ensures Fields(s) == fields <==> Separated(s, fields)
  {
    FieldsAreSeparated(s);
    if Separated(s, fields) {
      SeparatedAreFields(s, fields);
    }
  }

  // ---- Messages ----

  /** What the payload of a signaling message decodes to; `Undecodable` is a JSON error. */
  datatype Payload =
    | Candidate(candidate: string)
    | Description(kind: string, sdp: string)
    | Undecodable

  datatype Message = Message(kind: string, payload: Payload)

  datatype Rejection = BadPayload | InvalidCandidate | TypeMismatch | Unsupported

  function SanitizeMessage(msg: Message, isIP: string -> bool): Result<Message, Rejection> {
    if msg.kind == "ice-candidate" then
      if !msg.payload.Candidate? then Err(BadPayload)
      else if !IsValidCandidate(msg.payload.candidate, isIP) then Err(InvalidCandidate)
      else Ok(msg)
    else if msg.kind == "offer" || msg.kind == "answer" then
      if !msg.payload.Description? then Err(BadPayload)
      else if msg.payload.kind != msg.kind then Err(TypeMismatch)
      else Ok(msg.(payload := Description(msg.kind, Sanitized(msg.payload.sdp, isIP))))
    else Err(Unsupported)
  }

  /**
   What is relayed: a valid candidate, or a description of the message's own kind none of whose
   lines, at the breaks of the text received, is an invalid candidate. Nothing else ever is. At its
   own breaks the relayed description is clean exactly when the breaks of the text survived.
   */
  lemma RelayedMessagesAreClean(msg: Message, isIP: string -> bool)
    requires SanitizeMessage(msg, isIP).Ok?
    ensures var sent := SanitizeMessage(msg, isIP).value;
            && sent.kind == msg.kind
            && (if sent.kind == "ice-candidate" then
                  sent == msg && sent.payload.Candidate? && IsValidCandidate(sent.payload.candidate, isIP)
                else
                  && sent.kind in {"offer", "answer"}
                  && sent.payload.Description? && msg.payload.Description? && sent.payload.kind == sent.kind
                  && (forall line :: line in Split(sent.payload.sdp, Separator(msg.payload.sdp)) ==> Keeps(line, isIP))
                  && (Clean(sent.payload.sdp, isIP) <==> BreaksSurvive(msg.payload.sdp, isIP)))
  {
    if msg.kind != "ice-candidate" {
      var sdp := msg.payload.sdp;
      OutputLines(sdp, isIP);
      KeptKeep(Split(sdp, Separator(sdp)), isIP);
      EmptyText(isIP);
      SplitEmpty(Separator(sdp));
      CleanExactlyWhenBreaksSurvive(sdp, isIP);
      hide Clean, BreaksSurvive, Keeps, Sanitized, IsValidCandidate;
    }
  }

  /** An offer that is relayed with an invalid candidate among its lines, whatever addresses are accepted. */
  lemma UncleanOfferIsRelayed(isIP: string -> bool)
    ensures var msg := Message("offer", Description("offer", MIXED));
            && SanitizeMessage(msg, isIP).Ok?
            && !Clean(SanitizeMessage(msg, isIP).value.payload.sdp, isIP)
  {
    hide MIXED, Clean, BreaksSurvive, Sanitized, Keeps;
    MixedBreaksAreNotStable(isIP);
    IdempotentExactlyWhenBreaksSurvive(MIXED, isIP);
    CleanExactlyWhenBreaksSurvive(MIXED, isIP);
  }
}
