/** Enhancing the lines of a description again and again. */
module OpusPasses {
  import opened Wrappers
  import opened Fmtp
  import opened FmtpStability
  import opened FmtpPasses
  import opened OpusSdp

  /** The parameters of an fmtp line can be read back after the second merge. */
  ghost predicate SettledAfterOne(lower: Lowercase, pt: string, line: string) {
    IsFmtp(line, pt) ==>
      && |FmtpPrefix(pt)| <= |line|
      && ReadableAfterOne(lower, Table(Entries(lower, line[|FmtpPrefix(pt)|..])))
  }

  lemma TunedOf(lower: Lowercase, pt: string, rest: string)
    ensures Tuned(lower, pt, FmtpPrefix(pt) + rest) == FmtpPrefix(pt) + Merged(lower, rest, OPUS_PARAMS)
  {
    PrefixedIsFmtp(pt, rest);
    hide IsFmtp, FmtpPrefix, Merged, OPUS_PARAMS;
  }

  lemma TunedThrice(lower: Lowercase, pt: string, line: string)
    ensures var twice := Tuned(lower, pt, Tuned(lower, pt, line));
            && (Tuned(lower, pt, twice) == twice <==> SettledAfterOne(lower, pt, line))
            && Tuned(lower, pt, Tuned(lower, pt, twice)) == Tuned(lower, pt, twice)
  {
    if IsFmtp(line, pt) {
      FmtpIsLong(line, pt);
      OpusEntries(lower);
      OpusIsSomething();
      hide OPUS, OPUS_PARAMS, Merged, Entries, Table, ReadableAfterOne, AllNamed, Lowers, IsFmtp, FmtpPrefix;
      var rest := line[|FmtpPrefix(pt)|..];
      assert Tuned(lower, pt, line) == FmtpPrefix(pt) + Merged(lower, rest, OPUS_PARAMS);
      hide Tuned;
      var once := Merged(lower, rest, OPUS_PARAMS);
      var twice := Merged(lower, once, OPUS_PARAMS);
      var thrice := Merged(lower, twice, OPUS_PARAMS);
      TunedOf(lower, pt, once);
      TunedOf(lower, pt, twice);
      TunedOf(lower, pt, thrice);
      SamePrefix(FmtpPrefix(pt), thrice, twice);
      TwoMergesSufficeExactly(lower, rest, OPUS_PARAMS);
      ThreeMergesSuffice(lower, rest, OPUS_PARAMS);
    } else {
      OtherLine(lower, pt, line);
    }
  }

  lemma NamedAreReadableAfterOne(lower: Lowercase, table: seq<Entry>)
    requires AllNamed(table)
    ensures ReadableAfterOne(lower, table)
  {
    LastLateIsLast(table);
  }

  /** A freshly added line is re-spaced once and then stays. */
  lemma AddedIsSettledAfterOne(lower: Lowercase, pt: string)
    ensures SettledAfterOne(lower, pt, FmtpPrefix(pt) + OPUS_PARAMS)
  {
    PrefixedIsFmtp(pt, OPUS_PARAMS);
    OpusEntries(lower);
    hide OPUS, OPUS_PARAMS, Entries, Table, ReadableAfterOne, AllNamed, Lowers, IsFmtp, FmtpPrefix;
    NamedTable(OPUS);
    NamedAreReadableAfterOne(lower, Table(OPUS));
  }

  /** From the second enhancement on the lines are tuned, never added. */
  lemma LaterIsTuning(lower: Lowercase, lines: seq<string>, pt: string)
    requires FirstPayload(lines) == Some(pt)
    ensures var once := EnhancedLines(lower, lines);
            && FirstPayload(once) == Some(pt) && HasFmtp(once, pt)
            && EnhancedLines(lower, once) == AllTuned(lower, pt, once)
  {
    EnhancedPayload(lower, lines);
    EveryOpusLineAsks(lower, lines, pt);
    hide HasFmtp, AllTuned, AllAdded, FirstPayload;
  }

  lemma TunedTwiceLines(lower: Lowercase, pt: string, lines: seq<string>)
    ensures var twice := AllTuned(lower, pt, AllTuned(lower, pt, lines));
            && (AllTuned(lower, pt, twice) == twice <==>
                forall line :: line in lines ==> SettledAfterOne(lower, pt, line))
            && AllTuned(lower, pt, AllTuned(lower, pt, twice)) == AllTuned(lower, pt, twice)
  {
    var once := AllTuned(lower, pt, lines);
    var twice := AllTuned(lower, pt, once);
    var thrice := AllTuned(lower, pt, twice);
    AllTunedAt(lower, pt, lines);
    AllTunedAt(lower, pt, once);
    AllTunedAt(lower, pt, twice);
    AllTunedAt(lower, pt, thrice);
    hide SettledAfterOne, Tuned, AllTuned;
    forall i | 0 <= i < |lines|
      ensures thrice[i] == twice[i] <==> SettledAfterOne(lower, pt, lines[i])
      ensures AllTuned(lower, pt, thrice)[i] == thrice[i]
    {
      TunedThrice(lower, pt, lines[i]);
    }
  }

  /**
   A third enhancement of the lines changes nothing exactly when none of the fmtp lines they came with
   ends up with an unreadable parameter after one merge; added lines never do.
   */
  lemma LinesTwiceExactly(lower: Lowercase, lines: seq<string>, pt: string)
    requires FirstPayload(lines) == Some(pt)
    ensures var twice := EnhancedLines(lower, EnhancedLines(lower, lines));
            EnhancedLines(lower, twice) == twice <==>
            (HasFmtp(lines, pt) ==> forall line :: line in lines ==> SettledAfterOne(lower, pt, line))
  {
    var once := EnhancedLines(lower, lines);
    var twice := EnhancedLines(lower, once);
    LaterIsTuning(lower, lines, pt);
    LaterIsTuning(lower, once, pt);
    hide Settled, SettledAfterOne, IsFmtp, HasFmtp, FirstPayload, AllTuned, AllAdded, FmtpPrefix, OPUS_PARAMS, MapsOpus;
    if HasFmtp(lines, pt) {
      TunedTwiceLines(lower, pt, lines);
    } else {
      AddedIsRespaced(lower, pt);
      forall line | line in once ensures Settled(lower, pt, line) {
        AllAddedMembers(pt, lines, line);
        if line in lines {
          NotFmtpIsSettled(lower, pt, lines, line);
        }
      }
      TunedStable(lower, pt, once);
    }
  }

  lemma NotFmtpIsSettled(lower: Lowercase, pt: string, lines: seq<string>, line: string)
    requires !HasFmtp(lines, pt) && line in lines
    ensures Settled(lower, pt, line)
  {
    var i :| 0 <= i < |lines| && lines[i] == line;
    assert !IsFmtp(lines[i], pt);
    hide IsFmtp;
  }

  /** A fourth enhancement of the lines never changes anything. */
  lemma LinesThreeSuffice(lower: Lowercase, lines: seq<string>)
    ensures var thrice := EnhancedLines(lower, EnhancedLines(lower, EnhancedLines(lower, lines)));
            EnhancedLines(lower, thrice) == thrice
  {
    var once := EnhancedLines(lower, lines);
    var twice := EnhancedLines(lower, once);
    var thrice := EnhancedLines(lower, twice);
    if FirstPayload(lines).Some? {
      var pt := FirstPayload(lines).value;
      LaterIsTuning(lower, lines, pt);
      LaterIsTuning(lower, once, pt);
      LaterIsTuning(lower, twice, pt);
      hide IsFmtp, HasFmtp, FirstPayload, AllTuned, AllAdded, SettledAfterOne;
      if HasFmtp(lines, pt) {
        TunedTwiceLines(lower, pt, lines);
      } else {
        LinesTwiceExactly(lower, lines, pt);
      }
    }
  }
}
