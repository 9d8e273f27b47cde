/** Merging parameters introduces no line break, and no carriage return at the end of a line. */
module FmtpBreaks {
  import opened Wrappers
  import opened Text
  import opened Breaks
  import opened Fmtp
  import opened FmtpStability

  predicate IsBreak(sep: string) {
    sep == LF || sep == CRLF
  }

  lemma OccursAsChars(s: string, sep: string, i: nat)
    requires IsBreak(sep)
    ensures OccursAt(s, sep, i) <==>
            i + |sep| <= |s| && (if sep == LF then s[i] == '\n' else s[i] == '\r' && s[i + 1] == '\n')
  {
    if i + |sep| <= |s| {
      if sep == LF {
        assert s[i..i + 1] == [s[i]];
      } else {
        TwoChars(s, i);
      }
    }
  }

  lemma PartFree(s: string, i: nat, j: nat, sep: string)
    requires sep != "" && i <= j <= |s| && !Contains(s, sep)
    ensures !Contains(s[i..j], sep)
  {
    var head := s[..j];
    assert s[i..j] == head[i..];
    forall k: nat | k <= j - i ensures !OccursAt(head[i..], sep, k) {
      SuffixOccurs(head, i, sep, k);
      if i + k + |sep| <= j {
        OccursInPrefix(s, j, sep, i + k);
      }
    }
  }

  /** Text joined by something without break characters has no break of its own. */
  lemma GluedFree(a: string, m: string, b: string, sep: string)
    requires IsBreak(sep) && !Contains(a, sep) && !Contains(b, sep)
    requires m != "" && NoBreaks(m)
    ensures !Contains(a + m + b, sep)
  {
    var s := a + m + b;
    var n := |a| + |m|;
    forall i: nat | i <= |s| ensures !OccursAt(s, sep, i) {
      OccursAsChars(s, sep, i);
      OccursAsChars(a, sep, i);
      if i < |a| {
        assert s[i] == a[i] && !OccursAt(a, sep, i);
        assert i + 1 < |a| ==> s[i + 1] == a[i + 1];
        assert i + 1 == |a| ==> s[i + 1] == m[0];
      } else if i < n {
        assert s[i] == m[i - |a|];
      } else {
        OccursAsChars(b, sep, i - n);
        assert !OccursAt(b, sep, i - n);
        assert i < |s| ==> s[i] == b[i - n];
        assert i + 1 < |s| ==> s[i + 1] == b[i + 1 - n];
      }
    }
  }

  lemma NoBreaksFree(s: string, sep: string)
    requires IsBreak(sep) && NoBreaks(s)
    ensures !Contains(s, sep)
  {
    FreeOf(s);
  }

  lemma TrimFree(s: string, sep: string)
    requires sep != "" && !Contains(s, sep)
    ensures !Contains(TrimJs(s), sep)
  {
    hide TrimLeft, TrimRight, Contains;
    var l := TrimLeft(s, IsJsSpace);
    PartFree(s, |s| - |l|, |s|, sep);
    assert s[|s| - |l|..|s|] == l;
    var r := TrimRight(l, IsJsSpace);
    PartFree(l, 0, |r|, sep);
    assert l[0..|r|] == r;
  }

  lemma LowerFree(lower: Lowercase, s: string, sep: string)
    requires IsBreak(sep) && !Contains(s, sep)
    ensures !Contains(lower(s), sep)
  {
    assert Contains(lower(s), LF) ==> Contains(s, LF);
    assert Contains(lower(s), CRLF) ==> Contains(s, CRLF);
  }

  // ---- Entries ----

  predicate EntryFree(e: Entry, sep: string) {
    !Contains(e.key, sep) && !Contains(e.value, sep)
  }

  lemma NameFree(lower: Lowercase, name: string, sep: string)
    requires IsBreak(sep) && !Contains(name, sep)
    ensures !Contains(lower(TrimJs(name)), sep)
  {
    hide Contains, Trim, Lowers;
    TrimFree(name, sep);
    LowerFree(lower, TrimJs(name), sep);
  }

  lemma ParseFree(lower: Lowercase, pair: string, sep: string)
    requires IsBreak(sep) && !Contains(pair, sep) && Parse(lower, pair).Some?
    ensures EntryFree(Parse(lower, pair).value, sep)
  {
    var i := Find(pair, "=", 0);
    EmptyIsFree(sep);
    SlicesFree(pair, i, sep);
    hide Contains, Trim, Lowers, IsBreak, Find;
    NameFree(lower, pair, sep);
    if 0 < i < |pair| {
      NameFree(lower, pair[..i], sep);
      TrimFree(pair[i + 1..], sep);
    }
  }

  lemma SlicesFree(s: string, i: nat, sep: string)
    requires sep != "" && i <= |s| && !Contains(s, sep)
    ensures !Contains(s[..i], sep) && (i < |s| ==> !Contains(s[i + 1..], sep))
  {
    hide Contains;
    PartFree(s, 0, i, sep);
    assert s[0..i] == s[..i];
    if i < |s| {
      PartFree(s, i + 1, |s|, sep);
      assert s[i + 1..|s|] == s[i + 1..];
    }
  }

  lemma EmptyIsFree(sep: string)
    requires IsBreak(sep)
    ensures !Contains("", sep)
  {
  }

  lemma {:induction false} SplitFree(s: string, sep: string)
    requires IsBreak(sep) && !Contains(s, sep)
    ensures forall part :: part in Split(s, ";") ==> !Contains(part, sep)
    decreases |s|
  {
    var i := Find(s, ";", 0);
    hide Contains, Find;
    if i == |s| {
    } else {
      SlicesFree(s, i, sep);
      SplitFree(s[i + 1..], sep);
    }
  }

  lemma EntriesFree(lower: Lowercase, text: string, sep: string)
    requires IsBreak(sep) && !Contains(text, sep)
    ensures forall e :: e in Entries(lower, text) ==> EntryFree(e, sep)
  {
    SplitFree(text, sep);
    var pairs := Split(text, ";");
    hide Contains, Split, Parse, ParseAll, EntryFree, Lowers, IsBreak;
    forall e | e in ParseAll(lower, pairs) ensures EntryFree(e, sep) {
      ParseAllMembers(lower, pairs, e);
      var i :| 0 <= i < |pairs| && Parse(lower, pairs[i]) == Some(e);
      ParseFree(lower, pairs[i], sep);
    }
  }

  lemma ItemFree(e: Entry, sep: string)
    requires IsBreak(sep) && EntryFree(e, sep)
    ensures !Contains(Item(e), sep)
  {
    hide Contains;
    GluedFree(e.key, "=", e.value, sep);
  }

  lemma {:induction false} JoinFree(items: seq<string>, sep: string)
    requires IsBreak(sep) && forall item :: item in items ==> !Contains(item, sep)
    ensures !Contains(Join(items, "; "), sep)
    decreases |items|
  {
    EmptyIsFree(sep);
    hide Contains;
    if |items| <= 1 {
    } else {
      JoinFree(items[1..], sep);
      assert NoBreaks("; ");
      GluedFree(items[0], "; ", Join(items[1..], "; "), sep);
    }
  }

  lemma MergedTableFree(lower: Lowercase, existing: string, desired: string, sep: string)
    requires IsBreak(sep) && !Contains(existing, sep) && !Contains(desired, sep)
    ensures forall e :: e in MergedTable(lower, existing, desired) ==> EntryFree(e, sep)
  {
    hide Table, Entries, EntryFree, Contains, Lowers;
    EntriesFree(lower, existing, sep);
    EntriesFree(lower, desired, sep);
    TableFromEntries(Entries(lower, existing) + Entries(lower, desired));
  }

  /** A merged text has no break that neither text had. */
  lemma MergedFree(lower: Lowercase, existing: string, desired: string, sep: string)
    requires IsBreak(sep) && !Contains(existing, sep) && !Contains(desired, sep)
    ensures !Contains(Merged(lower, existing, desired), sep)
  {
    var t := MergedTable(lower, existing, desired);
    MergedTableFree(lower, existing, desired, sep);
    hide MergedTable, EntryFree, Contains, Item, Lowers;
    forall item | item in Items(t) ensures !Contains(item, sep) {
      var i :| 0 <= i < |t| && Items(t)[i] == item;
      ItemFree(t[i], sep);
    }
    JoinFree(Items(t), sep);
  }

  // ---- How a merged text ends ----

  lemma {:induction false} JoinEnd(items: seq<string>)
    requires items != [] && Join(items, "; ") != ""
    ensures var text, last := Join(items, "; "), items[|items| - 1];
            text[|text| - 1] == if last == "" then ' ' else last[|last| - 1]
    decreases |items|
  {
    if |items| == 1 {
    } else {
      var rest := items[1..];
      var text := items[0] + "; " + Join(rest, "; ");
      if Join(rest, "; ") == "" {
        EmptyEnd(rest);
        assert text == items[0] + "; ";
      } else {
        JoinEnd(rest);
      }
    }
  }

  lemma EmptyEnd(items: seq<string>)
    requires items != [] && Join(items, "; ") == ""
    ensures items[|items| - 1] == ""
  {
    if |items| >= 2 {
      TwoItemsAreSomeText(items);
    }
  }

  lemma ItemEnd(lower: Lowercase, e: Entry)
    requires EntryOk(lower, e) && Item(e) != ""
    ensures Item(e)[|Item(e)| - 1] != '\r'
  {
    hide Lowers;
    assert IsJsSpace('\r');
  }

  lemma MergedEnd(lower: Lowercase, existing: string)
    ensures var text := Merged(lower, existing, OPUS_PARAMS); text != "" && !EndsInCR(text)
  {
    var t := MergedTable(lower, existing, OPUS_PARAMS);
    MergedIsNotEmpty(lower, existing);
    MergedTableIsOk(lower, existing, OPUS_PARAMS);
    BlankText(t);
    hide OPUS_PARAMS, MergedTable, AllOk, EntryOk, Item, Lowers, Join;
    JoinEnd(Items(t));
    OneIsOk(lower, t, |t| - 1);
    if Item(t[|t| - 1]) != "" {
      ItemEnd(lower, t[|t| - 1]);
    }
  }
}
