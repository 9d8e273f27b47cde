/**
 Which candidates pass (internal/signaling/candidate.go:57-71), said of the fields of a line: what
 RFC 8839 section 5.1 puts in its fifth field must be an IP address.
 */
module SdpCandidates {
  import opened Wrappers
  import opened Text
  import opened Breaks
  import opened Sdp

  // ---- The address of a field ----

  ghost predicate AllBrackets(s: string) {
    forall i :: 0 <= i < |s| ==> s[i] == '[' || s[i] == ']'
  }

  /** `address`, or `address` and a zone from its last percent sign on, with all the brackets around it. */
  ghost predicate NamesAddress(field: string, left: string, address: string, zone: string, right: string) {
    && field == left + (address + zone) + right && AllBrackets(left) && AllBrackets(right)
    && Unbracketed(address + zone)
    && (if zone == "" then '%' !in address else zone[0] == '%' && '%' !in zone[1..])
  }

  predicate Unbracketed(s: string) {
    s != "" ==> s[0] != '[' && s[0] != ']' && s[|s| - 1] != '[' && s[|s| - 1] != ']'
  }

  ghost predicate HasAddress(field: string, address: string) {
    exists left, zone, right :: NamesAddress(field, left, address, zone, right)
  }

  lemma BracketsExactly(s: string)
    ensures AllBrackets(s) <==> forall i :: 0 <= i < |s| ==> IsBracket(s[i])
  {
  }

  lemma UnbracketedExactly(s: string)
    ensures Unbracketed(s) <==> Trimmed(s, IsBracket)
  {
  }

  lemma ZoneExactly(s: string, address: string)
    ensures WithoutZone(s) == address <==>
            exists zone :: s == address + zone &&
                           if zone == "" then '%' !in address else zone[0] == '%' && '%' !in zone[1..]
  {
    var k := LastPercent(s);
    if WithoutZone(s) == address {
      assert s == s[..k] + s[k..];
      if k < |s| {
        var zone := s[k..];
        assert s == address + zone && zone[0] == '%' && '%' !in zone[1..];
      } else {
        assert s == address + "" && '%' !in address;
      }
    }
    forall zone | s == address + zone &&
                  if zone == "" then '%' !in address else zone[0] == '%' && '%' !in zone[1..]
      ensures WithoutZone(s) == address
    {
      LastPercentAt(s, address, zone);
    }
  }

  lemma LastPercentAt(s: string, address: string, zone: string)
    requires s == address + zone && if zone == "" then '%' !in address else zone[0] == '%' && '%' !in zone[1..]
    ensures WithoutZone(s) == address
  {
    var k := LastPercent(s);
    if zone == "" {
      assert s == address;
    } else {
      assert s[|address|] == '%';
      assert forall i :: |address| < i < |s| ==> s[i] == zone[1..][i - |address| - 1];
      assert k == |address|;
    }
  }

  /** The brackets and the zone off, what is left is the address. */
  lemma AddressExactly(field: string, address: string)
    ensures WithoutZone(Trim(field, IsBracket)) == address <==> HasAddress(field, address)
  {
    var core := Trim(field, IsBracket);
    if WithoutZone(core) == address {
      ZoneExactly(core, address);
      var zone :| core == address + zone && if zone == "" then '%' !in address else zone[0] == '%' && '%' !in zone[1..];
      TrimmedParts(field, address, zone);
    }
    forall left, zone, right | NamesAddress(field, left, address, zone, right)
      ensures WithoutZone(core) == address
    {
      NamedIsTrimmed(field, left, address, zone, right);
      ZoneExactly(core, address);
    }
  }

  lemma TrimmedParts(field: string, address: string, zone: string)
    requires Trim(field, IsBracket) == address + zone
    requires if zone == "" then '%' !in address else zone[0] == '%' && '%' !in zone[1..]
    ensures HasAddress(field, address)
  {
    var core := address + zone;
    TrimIsTrimmed(field, IsBracket);
    TrimCuts(field, IsBracket);
    hide Trim, Unbracketed, Trimmed, AllBrackets;
    var left, right :| && field == left + core + right
                       && (forall i :: 0 <= i < |left| ==> IsBracket(left[i]))
                       && (forall i :: 0 <= i < |right| ==> IsBracket(right[i]));
    BracketsExactly(left);
    BracketsExactly(right);
    UnbracketedExactly(core);
    assert NamesAddress(field, left, address, zone, right);
  }

  lemma NamedIsTrimmed(field: string, left: string, address: string, zone: string, right: string)
    requires NamesAddress(field, left, address, zone, right)
    ensures Trim(field, IsBracket) == address + zone
  {
    var core := address + zone;
    BracketsExactly(left);
    BracketsExactly(right);
    UnbracketedExactly(core);
    TrimSurrounded(left, core, right, IsBracket);
  }

  // ---- Fields without the blanks at the ends ----

  lemma FieldAtStill(s: string, blank: string, g: nat, f: string)
    requires FieldAt(s, g, f) && Blank(blank)
    ensures FieldAt(s + blank, g, f) && (s + blank)[g + |f|..] == s[g + |f|..] + blank
  {
    var t := s + blank;
    hide IsSpace;
    assert t[..g] == s[..g] && t[g..g + |f|] == s[g..g + |f|];
    assert g + |f| == |s| < |t| ==> t[|s|] == blank[0];
  }

  lemma TwoBlanks(a: string, b: string)
    requires Blank(a) && Blank(b)
    ensures Blank(a + b)
  {
    hide IsSpace;
  }

  lemma {:induction false} BlankAfter(s: string, blank: string, fields: seq<string>)
    requires Separated(s, fields) && Blank(blank)
    ensures Separated(s + blank, fields)
    decreases |fields|
  {
    if fields == [] {
      TwoBlanks(s, blank);
    } else {
      hide Blank;
      var f := fields[0];
      var g: nat :| FieldAt(s, g, f) && Separated(s[g + |f|..], fields[1..]);
      assert g + |f| <= |s| && |f| > 0;
      hide FieldAt;
      BlankAfter(s[g + |f|..], blank, fields[1..]);
      FieldAtStill(s, blank, g, f);
    }
  }

  lemma BlankBeforeAndAfter(left: string, core: string, right: string)
    requires Blank(left) && Blank(right)
    ensures Fields(left + core + right) == Fields(core)
  {
    hide Blank, Fields;
    FieldsAreTheText(core, Fields(core));
    BlankAfter(core, right, Fields(core));
    FieldsAreTheText(core + right, Fields(core));
    var s := left + (core + right);
    Grouped(left, core, right);
    assert s[..|left|] == left && s[|left|..] == core + right;
    SkipBlank(s, |left|);
  }

  /** Trimming white space off a text leaves its fields. */
  lemma TrimKeepsFields(s: string)
    ensures Fields(TrimSpace(s)) == Fields(s)
  {
    TrimCuts(s, IsSpace);
    hide Trim, Fields, IsSpace;
    var left, right :| && s == left + TrimSpace(s) + right
                       && (forall i :: 0 <= i < |left| ==> IsSpace(left[i]))
                       && (forall i :: 0 <= i < |right| ==> IsSpace(right[i]));
    BlankBeforeAndAfter(left, TrimSpace(s), right);
  }

  // ---- The attribute's "a=" ----

  /** The fields once "a=" is taken off the front of the first one. */
  function Bare(fields: seq<string>): seq<string> {
    if fields == [] || !HasPrefix(fields[0], "a=") then fields
    else (if fields[0] == "a=" then [] else [fields[0][2..]]) + fields[1..]
  }

  lemma FirstField(t: string)
    requires t != "" && !IsSpace(t[0])
    ensures Fields(t) == [t[..RunLength(t)]] + Fields(t[RunLength(t)..]) && RunLength(t) > 0
  {
  }

  lemma PrefixInRun(t: string, prefix: string)
    requires t != "" && !IsSpace(t[0]) && Solid(prefix)
    ensures HasPrefix(t, prefix) <==> HasPrefix(t[..RunLength(t)], prefix)
  {
    var n := RunLength(t);
    if HasPrefix(t, prefix) {
      assert forall i :: 0 <= i < |prefix| ==> t[i] == t[..|prefix|][i];
      assert |prefix| <= n;
      assert t[..n][..|prefix|] == t[..|prefix|];
    }
    if HasPrefix(t[..n], prefix) {
      assert t[..|prefix|] == t[..n][..|prefix|];
    }
  }

  lemma {:induction false} RunIs(t: string, n: nat)
    requires n <= |t| && (forall i :: 0 <= i < n ==> !IsSpace(t[i])) && (n < |t| ==> IsSpace(t[n]))
    ensures RunLength(t) == n
  {
    hide IsSpace;
    if t == "" || IsSpace(t[0]) {
    } else {
      RunIs(t[1..], n - 1);
    }
  }

  lemma RunAfter(t: string, k: nat)
    requires k <= RunLength(t)
    ensures RunLength(t[k..]) == RunLength(t) - k
  {
    var n := RunLength(t);
    hide RunLength, IsSpace;
    var rest := t[k..];
    assert forall i :: 0 <= i < |rest| ==> rest[i] == t[k + i];
    RunIs(rest, n - k);
  }

  lemma BareOfPrefixed(first: string, others: seq<string>)
    requires HasPrefix(first, "a=")
    ensures Bare([first] + others) == (if |first| == 2 then [] else [first[2..]]) + others
  {
    assert ([first] + others)[1..] == others;
    assert |first| == 2 ==> first == first[..2] == "a=";
  }

  lemma BareOfOther(first: string, others: seq<string>)
    requires !HasPrefix(first, "a=")
    ensures Bare([first] + others) == [first] + others
  {
  }

  /** Taking "a=" off a text that starts with no blank takes it off its first field. */
  lemma BareFields(t: string)
    requires t != "" ==> !IsSpace(t[0])
    ensures Fields(TrimPrefix(t, "a=")) == Bare(Fields(t))
  {
    if t == "" {
    } else {
      PrefixInRun(t, "a=");
      FirstField(t);
      var n := RunLength(t);
      if HasPrefix(t, "a=") {
        BareOfPrefixed(t[..n], Fields(t[n..]));
        hide Fields, Bare, IsSpace, RunLength;
        RestOfRun(t, n);
      } else {
        BareOfOther(t[..n], Fields(t[n..]));
      }
    }
  }

  lemma RestOfRun(t: string, n: nat)
    requires 2 <= n <= |t| && RunLength(t) == n
    ensures Fields(t[2..]) == (if n == 2 then [] else [t[..n][2..]]) + Fields(t[n..])
  {
    var rest := t[2..];
    assert n > 2 ==> !IsSpace(rest[0]);
    hide Fields, RunLength, IsSpace;
    RunAfter(t, 2);
    assert rest[n - 2..] == t[n..];
    if n == 2 {
      assert [] + Fields(t[n..]) == Fields(t[n..]);
    } else {
      assert rest[..n - 2] == t[..n][2..];
      FirstField(rest);
    }
  }

  lemma TrimStarts(s: string)
    ensures TrimSpace(s) != "" ==> !IsSpace(TrimSpace(s)[0])
  {
    TrimIsTrimmed(s, IsSpace);
  }

  // ---- Candidates ----

  /** At least six fields, the first a "candidate:", the fifth an address that is an IP address. */
  ghost predicate Passes(fields: seq<string>, isIP: string -> bool) {
    |fields| >= 6 && HasPrefix(fields[0], "candidate:") && exists a :: HasAddress(fields[4], a) && isIP(a)
  }

  lemma AddressOf(field: string, isIP: string -> bool)
    ensures isIP(WithoutZone(Trim(field, IsBracket))) <==> exists a :: HasAddress(field, a) && isIP(a)
  {
    var a := WithoutZone(Trim(field, IsBracket));
    AddressExactly(field, a);
    forall b | HasAddress(field, b) ensures b == a {
      AddressExactly(field, b);
    }
  }

  /** A candidate made of these fields, with or without "a=", is valid exactly when they pass. */
  lemma ValidExactly(candidate: string, fields: seq<string>, isIP: string -> bool)
    requires Separated(candidate, fields)
    ensures IsValidCandidate(candidate, isIP) <==> Passes(Bare(fields), isIP)
  {
    FieldsAreTheText(candidate, fields);
    TrimKeepsFields(candidate);
    TrimStarts(candidate);
    BareFields(TrimSpace(candidate));
    if |Bare(fields)| >= 6 {
      AddressOf(Bare(fields)[4], isIP);
    }
  }

  /** A line made of these fields is dropped exactly when it is a candidate attribute that does not pass. */
  lemma DroppedExactly(line: string, fields: seq<string>, isIP: string -> bool)
    requires Separated(line, fields)
    ensures !Keeps(line, isIP) <==>
            fields != [] && HasPrefix(fields[0], "a=candidate:") && !Passes(Bare(fields), isIP)
  {
    var t := TrimSpace(line);
    FieldsAreTheText(line, fields);
    TrimKeepsFields(line);
    TrimStarts(line);
    hide Trim, IsValidCandidate, Passes, Bare, Separated;
    AttributePrefix(t);
    if HasPrefix(t, "a=candidate:") {
      AttributeIsBare(t, fields, isIP);
    }
  }

  lemma AttributePrefix(t: string)
    requires t != "" ==> !IsSpace(t[0])
    ensures HasPrefix(t, "a=candidate:") <==> Fields(t) != [] && HasPrefix(Fields(t)[0], "a=candidate:")
  {
    if t == "" {
    } else {
      assert Solid("a=candidate:");
      hide RunLength, IsSpace, Solid, HasPrefix;
      PrefixInRun(t, "a=candidate:");
      FirstField(t);
      hide Fields;
    }
  }

  lemma AttributeStarts(t: string)
    requires HasPrefix(t, "a=candidate:")
    ensures HasPrefix(t, "a=") && t[2..] != "" && t[2] == 'c' && !IsSpace(t[2..][0])
  {
    assert t[..2] == t[..12][..2] == "a=" && t[2] == t[..12][2] == 'c';
  }

  lemma FirstFieldStarts(t: string)
    requires t != "" && !IsSpace(t[0])
    ensures Fields(t) != [] && Fields(t)[0] != "" && Fields(t)[0][0] == t[0]
  {
    FirstField(t);
  }

  lemma AttributeIsBare(t: string, fields: seq<string>, isIP: string -> bool)
    requires Fields(t) == fields && HasPrefix(t, "a=candidate:") && !IsSpace(t[0])
    ensures IsValidCandidate(TrimPrefix(t, "a="), isIP) <==> Passes(Bare(fields), isIP)
  {
    var rest := t[2..];
    AttributeStarts(t);
    BareFields(t);
    FirstFieldStarts(rest);
    hide Fields, IsSpace, IsValidCandidate, Passes, Separated;
    FieldsAreTheText(rest, Fields(rest));
    OtherFirstChar(Fields(rest)[0], "a=");
    ValidExactly(rest, Fields(rest), isIP);
  }

  // ---- Messages ----

  /**
   What is relayed, in terms of fields: a message is relayed exactly when it is an ICE candidate that
   passes, and then unchanged, or a description of the message's own kind; anything else is refused with
   the reason. The lines of the relayed description, at the breaks of the one received, are those
   received but for the candidate attributes that do not pass, in order and unchanged.
   */
  lemma RelaysExactly(msg: Message, fields: seq<string>, isIP: string -> bool)
    requires msg.payload.Candidate? ==> Separated(msg.payload.candidate, fields)
    ensures var r := SanitizeMessage(msg, isIP);
            if msg.kind == "ice-candidate" then
              r == if !msg.payload.Candidate? then Err(BadPayload)
                   else if Passes(Bare(fields), isIP) then Ok(msg)
                   else Err(InvalidCandidate)
            else if msg.kind != "offer" && msg.kind != "answer" then r == Err(Unsupported)
            else if !msg.payload.Description? then r == Err(BadPayload)
            else if msg.payload.kind != msg.kind then r == Err(TypeMismatch)
            else
              && r.Ok? && r.value.kind == msg.kind && r.value.payload.Description? && r.value.payload.kind == msg.kind
              && Filtered(msg.payload.sdp, r.value.payload.sdp, isIP)
  {
    if msg.payload.Candidate? {
      ValidExactly(msg.payload.candidate, fields, isIP);
    }
    hide IsValidCandidate, Passes, Bare, Separated, Sanitized, Filtered;
    if msg.payload.Description? {
      SanitizedIsFiltered(msg.payload.sdp, isIP);
    }
  }

  /** A candidate attribute whose fields do not pass. */
  ghost predicate Dropped(line: string, isIP: string -> bool) {
    exists fields ::
      Separated(line, fields) && fields != [] && HasPrefix(fields[0], "a=candidate:") && !Passes(Bare(fields), isIP)
  }

  /** `picks` are the increasing positions of exactly the lines that are not dropped. */
  ghost predicate Survivors(lines: seq<string>, picks: seq<nat>, isIP: string -> bool) {
    && (forall i :: 0 <= i < |picks| ==> picks[i] < |lines|)
    && (forall i, j :: 0 <= i < j < |picks| ==> picks[i] < picks[j])
    && (forall i :: 0 <= i < |lines| ==> (i in picks <==> !Dropped(lines[i], isIP)))
  }

  ghost predicate LinesAt(lines: seq<string>, picks: seq<nat>, out: seq<string>) {
    |out| == |picks| && forall i :: 0 <= i < |picks| ==> picks[i] < |lines| && out[i] == lines[picks[i]]
  }

  /** `out`, broken where `sdp` is broken, has the surviving lines of `sdp`; it is empty if there is none. */
  ghost predicate Filtered(sdp: string, out: string, isIP: string -> bool) {
    var lines := Split(sdp, Separator(sdp));
    exists picks ::
      Survivors(lines, picks, isIP) &&
      if picks == [] then out == "" else LinesAt(lines, picks, Split(out, Separator(sdp)))
  }

  lemma KeptExactly(line: string, isIP: string -> bool)
    ensures Keeps(line, isIP) <==> !Dropped(line, isIP)
  {
    hide Keeps, Separated, Passes, Bare, Fields;
    FieldsAreTheText(line, Fields(line));
    DroppedExactly(line, Fields(line), isIP);
    forall fields | Separated(line, fields) ensures fields == Fields(line) {
      FieldsAreTheText(line, fields);
    }
  }

  lemma PicksSurvive(lines: seq<string>, picks: seq<nat>, isIP: string -> bool)
    requires ArePicks(lines, 0, isIP, picks)
    ensures Survivors(lines, picks, isIP)
  {
    hide Keeps, Dropped;
    forall i | 0 <= i < |lines| ensures i in picks <==> !Dropped(lines[i], isIP) {
      KeptExactly(lines[i], isIP);
    }
  }

  lemma KeptLinesAt(lines: seq<string>, isIP: string -> bool)
    ensures LinesAt(lines, Picks(lines, 0, isIP), Kept(lines, isIP))
  {
    KeptAreTheKeptLines(lines, 0, isIP);
    assert lines[0..] == lines;
    hide Kept, Picks;
  }

  lemma SanitizedIsFiltered(sdp: string, isIP: string -> bool)
    ensures Filtered(sdp, Sanitized(sdp, isIP), isIP)
  {
    var lines := Split(sdp, Separator(sdp));
    var picks := Picks(lines, 0, isIP);
    hide Keeps, Kept, Picks, Split, Sanitized, Separator, ArePicks, Survivors;
    OutputLines(sdp, isIP);
    PicksAreTheKept(lines, 0, isIP);
    PicksSurvive(lines, picks, isIP);
    KeptLinesAt(lines, isIP);
  }

  // ---- Two candidates ----

  lemma {:induction false} JoinedAreSeparated(fields: seq<string>)
    requires fields != [] && forall f :: f in fields ==> Solid(f)
    ensures Separated(Join(fields, " "), fields)
    decreases |fields|
  {
    hide Solid, Join;
    var f := fields[0];
    if |fields| == 1 {
      LoneField(f);
      assert fields == [f];
    } else {
      JoinedAreSeparated(fields[1..]);
      OneMoreField(f, Join(fields[1..], " "), fields[1..]);
      JoinCons(f, fields[1..], " ");
      assert [f] + fields[1..] == fields;
    }
  }

  lemma LoneField(f: string)
    requires Solid(f)
    ensures Separated(Join([f], " "), [f])
  {
    assert f[0..0 + |f|] == f && f[..0] == "" && f[|f|..] == "";
    assert FieldAt(f, 0, f);
    assert [f][1..] == [] && Separated(f[0 + |f|..], []);
  }

  lemma OneMoreField(f: string, rest: string, others: seq<string>)
    requires Solid(f) && Separated(rest, others)
    ensures Separated(f + " " + rest, [f] + others)
  {
    var s := f + " " + rest;
    assert s[..0] == "" && s[0..0 + |f|] == f && s[|f|] == ' ';
    assert FieldAt(s, 0, f);
    assert s[0 + |f|..] == " " + rest && (" " + rest)[1..] == rest;
    BlankBefore(" " + rest, others);
    var fields := [f] + others;
    assert fields[0] == f && fields[1..] == others;
    assert FieldAt(s, 0, fields[0]) && Separated(s[0 + |fields[0]|..], fields[1..]);
  }

  /** A host candidate with `address` in its place, as browsers write it. */
  function HostFields(address: string): seq<string> {
    ["candidate:1", "1", "udp", "2122260223", address, "54321", "typ", "host"]
  }

  /** It is relayed exactly when the address, bracketed or with a zone or as it is, is an IP address. */
  lemma HostCandidate(field: string, address: string, isIP: string -> bool)
    requires Solid(field) && HasAddress(field, address)
    ensures var msg := Message("ice-candidate", Candidate(Join(HostFields(field), " ")));
            SanitizeMessage(msg, isIP) == if isIP(address) then Ok(msg) else Err(InvalidCandidate)
  {
    var fields := HostFields(field);
    HostIsSolid(field);
    HostPasses(field, address, isIP);
    hide HostFields, Separated, Join, HasAddress, Solid, Passes, Bare, SanitizeMessage;
    JoinedAreSeparated(fields);
    var msg := Message("ice-candidate", Candidate(Join(fields, " ")));
    RelaysExactly(msg, fields, isIP);
    assert Passes(Bare(fields), isIP) <==> isIP(address);
    assert msg.kind == "ice-candidate" && msg.payload.Candidate?;
  }

  lemma HostPasses(field: string, address: string, isIP: string -> bool)
    requires HasAddress(field, address)
    ensures HostFields(field) != [] && (Passes(Bare(HostFields(field)), isIP) <==> isIP(address))
  {
    var fields := HostFields(field);
    assert fields[0][..10] == "candidate:";
    OtherFirstChar(fields[0], "a=");
    assert Bare(fields) == fields;
    AddressExactly(field, address);
    AddressOf(field, isIP);
    hide HasAddress, Trim, WithoutZone;
  }

  lemma HostIsSolid(field: string)
    requires Solid(field)
    ensures forall f :: f in HostFields(field) ==> Solid(f)
  {
    assert Solid("candidate:1") && Solid("1") && Solid("udp") && Solid("2122260223");
    assert Solid("54321") && Solid("typ") && Solid("host");
    hide Solid;
  }

  /** A host name in place of an address, as browsers send to hide it, is refused unless it is taken for an address. */
  lemma HostNamesAreRefused(isIP: string -> bool)
    ensures var msg := Message("ice-candidate", Candidate(Join(HostFields("printer.local"), " ")));
            SanitizeMessage(msg, isIP) == if isIP("printer.local") then Ok(msg) else Err(InvalidCandidate)
  {
    var field := "printer.local";
    assert field == "" + (field + "") + "" && field + "" == field;
    assert NamesAddress(field, "", field, "", "");
    assert Solid(field);
    hide HasAddress, NamesAddress, Solid, HostFields, SanitizeMessage, Join;
    assert HasAddress(field, field) by { ByName(field); }
    HostCandidate(field, field, isIP);
  }

  lemma ByName(field: string)
    requires NamesAddress(field, "", field, "", "")
    ensures HasAddress(field, field)
  {
  }
}
