/**
 Merging codec parameters into an `a=fmtp` line (web/ui.go, `mergeFmtpParams`): the existing
 parameters in the order in which they were first seen, overridden by the desired ones.
 */
module Fmtp {
  import opened Wrappers
  import opened Text

  /** The parameters the client asks for, written pair by pair. */
  const OPUS_PARAMS :=
    "useinbandfec=1" + ";" + ("usedtx=1" + ";" + ("stereo=0" + ";" + ("sprop-stereo=0" + ";" +
    ("maxaveragebitrate=28000" + ";" + "cbr=0"))))

  /** The white space of JavaScript's `trim`. */
  predicate IsJsSpace(c: char) {
    || '\t' <= c <= '\r' || c == ' ' || c == '\U{a0}' || c == '\U{1680}'
    || '\U{2000}' <= c <= '\U{200a}' || '\U{2028}' <= c <= '\U{2029}'
    || c == '\U{202f}' || c == '\U{205f}' || c == '\U{3000}' || c == '\U{feff}'
  }

  /** By code point. */
  lemma JsSpacesExactly(c: char)
    ensures IsJsSpace(c) <==>
            c as int in {
              9, 10, 11, 12, 13, 32, 160, 5760, 8192, 8193, 8194, 8195, 8196, 8197, 8198, 8199, 8200, 8201, 8202,
              8232, 8233, 8239, 8287, 12288, 65279}
  {
  }

  function TrimJs(s: string): string {
    Trim(s, IsJsSpace)
  }

  // ---- Lower case ----

  /** Text that lower-casing leaves alone whatever the alphabet: small letters, digits, hyphens. */
  predicate Plain(s: string) {
    forall i :: 0 <= i < |s| ==> 'a' <= s[i] <= 'z' || '0' <= s[i] <= '9' || s[i] == '-'
  }

  /** What the merge needs of `toLowerCase`. */
  ghost predicate Lowers(f: string -> string) {
    && (forall s {:trigger f(s)} :: f(f(s)) == f(s))
    && (forall s {:trigger f(s)} :: ('=' in f(s) ==> '=' in s) && (';' in f(s) ==> ';' in s))
    && (forall s {:trigger f(s)} :: Trimmed(s, IsJsSpace) ==> Trimmed(f(s), IsJsSpace))
    && (forall s {:trigger f(s)} :: s != "" ==> f(s) != "")
    && (forall s {:trigger f("=" + s)} :: f("=" + s) == "=" + f(s))
    && (forall s {:trigger f(s)} :: Plain(s) ==> f(s) == s)
    && (forall s {:trigger f(s)} :: (Contains(f(s), "\n") ==> Contains(s, "\n")))
    && (forall s {:trigger f(s)} :: (Contains(f(s), "\r\n") ==> Contains(s, "\r\n")))
  }

  function AsciiLower(s: string): (r: string)
    ensures |r| == |s|
    ensures forall i :: 0 <= i < |s| ==> r[i] == if 'A' <= s[i] <= 'Z' then s[i] + ' ' else s[i]
  {
    seq(|s|, i requires 0 <= i < |s| => if 'A' <= s[i] <= 'Z' then s[i] + ' ' else s[i])
  }

  lemma AsciiLowerTwice(s: string)
    ensures AsciiLower(AsciiLower(s)) == AsciiLower(s)
  {
  }

  lemma AsciiLowerSigned(s: string)
    ensures AsciiLower("=" + s) == "=" + AsciiLower(s)
  {
    assert forall i :: 0 < i < |("=" + s)| ==> ("=" + s)[i] == s[i - 1];
  }

  lemma AsciiLowerPlain(s: string)
    ensures Plain(s) ==> AsciiLower(s) == s
  {
  }

  lemma AsciiLowerEnds(s: string)
    ensures ('=' in AsciiLower(s) ==> '=' in s) && (';' in AsciiLower(s) ==> ';' in s)
    ensures Trimmed(s, IsJsSpace) ==> Trimmed(AsciiLower(s), IsJsSpace)
  {
  }

  lemma AsciiLowerBreaks(s: string, sep: string)
    requires sep == "\n" || sep == "\r\n"
    ensures Contains(AsciiLower(s), sep) ==> Contains(s, sep)
  {
    forall i: nat | OccursAt(AsciiLower(s), sep, i) ensures OccursAt(s, sep, i) {
      var x := s[i..i + |sep|];
      assert AsciiLower(s)[i..i + |sep|] == AsciiLower(x);
      assert forall k :: 0 <= k < |sep| ==> AsciiLower(x)[k] == sep[k];
      assert x == sep;
    }
  }

  lemma AsciiLowerLowers()
    ensures Lowers(AsciiLower)
  {
    hide AsciiLower, Trimmed, Plain, Contains;
    forall s
      ensures Contains(AsciiLower(s), "\n") ==> Contains(s, "\n")
      ensures Contains(AsciiLower(s), "\r\n") ==> Contains(s, "\r\n")
    {
      AsciiLowerBreaks(s, "\n");
      AsciiLowerBreaks(s, "\r\n");
    }
    forall s ensures AsciiLower(AsciiLower(s)) == AsciiLower(s) {
      AsciiLowerTwice(s);
    }
    forall s ensures AsciiLower("=" + s) == "=" + AsciiLower(s) {
      AsciiLowerSigned(s);
    }
    forall s ensures Plain(s) ==> AsciiLower(s) == s {
      AsciiLowerPlain(s);
    }
    forall s
      ensures ('=' in AsciiLower(s) ==> '=' in s) && (';' in AsciiLower(s) ==> ';' in s)
      ensures Trimmed(s, IsJsSpace) ==> Trimmed(AsciiLower(s), IsJsSpace)
    {
      AsciiLowerEnds(s);
    }
  }

  type Lowercase = f: string -> string | Lowers(f) ghost witness (AsciiLowerLowers(); AsciiLower)

  // ---- The merge ----

  datatype Entry = Entry(key: string, value: string)

  /** One parameter: a name and a value, a bare word, or nothing at all. */
  function Parse(lower: Lowercase, pair: string): Option<Entry> {
    var i := Find(pair, "=", 0);
    if 0 < i < |pair| then Some(Entry(lower(TrimJs(pair[..i])), TrimJs(pair[i + 1..])))
    else if TrimJs(pair) != "" then Some(Entry(lower(TrimJs(pair)), ""))
    else None
  }

  function Listed(e: Option<Entry>): seq<Entry> {
    if e.Some? then [e.value] else []
  }

  function ParseAll(lower: Lowercase, pairs: seq<string>): seq<Entry> {
    if pairs == [] then []
    else ParseAll(lower, pairs[..|pairs| - 1]) + Listed(Parse(lower, pairs[|pairs| - 1]))
  }

  function Entries(lower: Lowercase, text: string): seq<Entry> {
    ParseAll(lower, Split(text, ";"))
  }

  /** Insertion into an ordered map: a known key keeps its place, a new one goes last. */
  function Put(table: seq<Entry>, e: Entry): seq<Entry> {
    if table == [] then [e]
    else if table[0].key == e.key then [e] + table[1..]
    else [table[0]] + Put(table[1..], e)
  }

  function Table(entries: seq<Entry>): seq<Entry> {
    if entries == [] then [] else Put(Table(entries[..|entries| - 1]), entries[|entries| - 1])
  }

  function Item(e: Entry): string {
    if e.value != "" then e.key + "=" + e.value else e.key
  }

  function Items(table: seq<Entry>): (r: seq<string>)
    ensures |r| == |table| && forall i :: 0 <= i < |table| ==> r[i] == Item(table[i])
  {
    seq(|table|, i requires 0 <= i < |table| => Item(table[i]))
  }

  function MergedTable(lower: Lowercase, existing: string, desired: string): seq<Entry> {
    Table(Entries(lower, existing) + Entries(lower, desired))
  }

  function Merged(lower: Lowercase, existing: string, desired: string): string {
    Join(Items(MergedTable(lower, existing, desired)), "; ")
  }

  lemma ParseAllStep(lower: Lowercase, pairs: seq<string>, i: nat)
    requires i < |pairs|
    ensures ParseAll(lower, pairs[..i + 1]) == ParseAll(lower, pairs[..i]) + Listed(Parse(lower, pairs[i]))
  {
    hide Parse;
    assert pairs[..i + 1][..i] == pairs[..i];
  }

  lemma TableStep(entries: seq<Entry>, e: Entry)
    ensures Table(entries + [e]) == Put(Table(entries), e)
  {
    assert (entries + [e])[..|entries|] == entries;
  }

  /** The two loops of the program over the pairs of one text. */
  method PutPairs(lower: Lowercase, table: seq<Entry>, text: string, ghost before: seq<Entry>) returns (r: seq<Entry>)
    requires table == Table(before)
    ensures r == Table(before + Entries(lower, text))
  {
    hide Table, Put, Split, Find, TrimJs;
    var pairs := Split(text, ";");
    r := table;
    assert pairs[..0] == [] && before + [] == before;
    for i := 0 to |pairs|
      invariant r == Table(before + ParseAll(lower, pairs[..i]))
    {
      ghost var seen := before + ParseAll(lower, pairs[..i]);
      ParseAllStep(lower, pairs, i);
      hide ParseAll;
      var pair := pairs[i];
      var idx := Find(pair, "=", 0);
      if 0 < idx < |pair| {
        var e := Entry(lower(TrimJs(pair[..idx])), TrimJs(pair[idx + 1..]));
        TableStep(seen, e);
        assert seen + [e] == before + ParseAll(lower, pairs[..i + 1]);
        r := Put(r, e);
      } else if TrimJs(pair) != "" {
        var e := Entry(lower(TrimJs(pair)), "");
        TableStep(seen, e);
        assert seen + [e] == before + ParseAll(lower, pairs[..i + 1]);
        r := Put(r, e);
      } else {
        assert seen == before + ParseAll(lower, pairs[..i + 1]);
      }
    }
    assert pairs[..|pairs|] == pairs;
  }

  method MergeFmtpParams(lower: Lowercase, existing: string, desired: string) returns (r: string)
    ensures r == Merged(lower, existing, desired)
  {
    hide Entries, Join, Put, Lowers;
    EmptyTextHasNoEntries(lower);
    var table: seq<Entry> := [];
    if existing != "" {
      table := PutPairs(lower, table, existing, []);
    }
    assert [] + Entries(lower, existing) == Entries(lower, existing);
    assert table == Table(Entries(lower, existing));
    hide Table;
    table := PutPairs(lower, table, desired, Entries(lower, existing));
    var result := WriteItems(table);
    r := Join(result, "; ");
  }

  /** The loop over the map's entries. */
  method WriteItems(table: seq<Entry>) returns (result: seq<string>)
    ensures result == Items(table)
  {
    result := [];
    for i := 0 to |table|
      invariant result == Items(table[..i])
    {
      result := result + [if table[i].value != "" then table[i].key + "=" + table[i].value else table[i].key];
    }
    assert table[..|table|] == table;
  }

  lemma EmptyTextHasNoEntries(lower: Lowercase)
    ensures Entries(lower, "") == []
  {
    hide Lowers, Parse, Split, Trim;
    BlankIsNothing(lower);
    SplitNothing();
    assert [""][..0] == [];
    assert ParseAll(lower, [""]) == ParseAll(lower, []) + Listed(Parse(lower, ""));
  }

  lemma BlankIsNothing(lower: Lowercase)
    ensures Parse(lower, "") == None
  {
    hide Lowers;
    assert Find("", "=", 0) == 0;
    assert TrimJs("") == "";
  }

  lemma SplitNothing()
    ensures Split("", ";") == [""]
  {
  }

  // ---- What the table is ----

  function FirstIndex(entries: seq<Entry>, key: string): (r: nat)
    ensures r <= |entries| && (r < |entries| ==> entries[r].key == key)
    ensures forall i :: 0 <= i < r ==> entries[i].key != key
  {
    if entries == [] || entries[0].key == key then 0 else 1 + FirstIndex(entries[1..], key)
  }

  function LastIndex(entries: seq<Entry>, key: string): (r: int)
    ensures -1 <= r < |entries| && (r >= 0 ==> entries[r].key == key)
    ensures forall i :: r < i < |entries| ==> entries[i].key != key
  {
    if entries == [] then -1
    else if entries[|entries| - 1].key == key then |entries| - 1
    else LastIndex(entries[..|entries| - 1], key)
  }

  predicate Has(entries: seq<Entry>, key: string) {
    exists i :: 0 <= i < |entries| && entries[i].key == key
  }

  ghost predicate UniqueKeys(table: seq<Entry>) {
    forall i, j :: 0 <= i < j < |table| ==> table[i].key != table[j].key
  }

  /** Keys in the order in which they were first seen, each with the value it was last given. */
  ghost predicate FirstSeenLastWins(table: seq<Entry>, entries: seq<Entry>) {
    && (forall k :: Has(table, k) <==> Has(entries, k))
    && (forall i, j :: 0 <= i < j < |table| ==> FirstIndex(entries, table[i].key) < FirstIndex(entries, table[j].key))
    && (forall i :: 0 <= i < |table| ==>
          LastIndex(entries, table[i].key) >= 0 && table[i].value == entries[LastIndex(entries, table[i].key)].value)
  }

  /** Where Put writes. */
  lemma {:induction false} PutAt(table: seq<Entry>, e: Entry)
    ensures var n := FirstIndex(table, e.key);
            Put(table, e) == if n < |table| then table[n := e] else table + [e]
  {
    if table == [] {
      assert Put(table, e) == [e];
    } else if table[0].key == e.key {
      assert FirstIndex(table, e.key) == 0;
    } else {
      var rest := table[1..];
      PutAt(rest, e);
      assert FirstIndex(table, e.key) == 1 + FirstIndex(rest, e.key);
      assert Put(table, e) == [table[0]] + Put(rest, e);
      hide Put, FirstIndex;
      assert [table[0]] + rest == table;
    }
  }

  lemma SnocIndices(entries: seq<Entry>, e: Entry, key: string)
    ensures FirstIndex(entries + [e], key) ==
            if FirstIndex(entries, key) < |entries| || key == e.key then FirstIndex(entries, key) else |entries| + 1
    ensures LastIndex(entries + [e], key) == if key == e.key then |entries| else LastIndex(entries, key)
  {
    assert (entries + [e])[|entries|] == e;
    var f, l := FirstIndex(entries + [e], key), LastIndex(entries + [e], key);
    assert forall i :: 0 <= i < |entries| ==> (entries + [e])[i] == entries[i];
  }

  lemma PutKeys(table: seq<Entry>, e: Entry, key: string)
    ensures Has(Put(table, e), key) <==> Has(table, key) || key == e.key
  {
    PutAt(table, e);
    var n := FirstIndex(table, e.key);
    var t' := Put(table, e);
    hide Put, FirstIndex;
    if n < |table| {
      assert forall i :: 0 <= i < |table| ==> t'[i].key == table[i].key;
    } else {
      assert t'[|table|] == e && forall i :: 0 <= i < |table| ==> t'[i] == table[i];
    }
  }

  lemma SnocKeys(entries: seq<Entry>, e: Entry, key: string)
    ensures Has(entries + [e], key) <==> Has(entries, key) || key == e.key
  {
    var all := entries + [e];
    assert all[|entries|] == e && forall i :: 0 <= i < |entries| ==> all[i] == entries[i];
  }

  lemma HasIndex(entries: seq<Entry>, key: string)
    ensures Has(entries, key) <==> FirstIndex(entries, key) < |entries|
    ensures Has(entries, key) <==> LastIndex(entries, key) >= 0
  {
  }

  lemma FirstSeenMeansUnique(table: seq<Entry>, entries: seq<Entry>)
    requires FirstSeenLastWins(table, entries)
    ensures UniqueKeys(table)
  {
  }

  /** Indices of the keys a table already had, after one more parameter. */
  lemma OldKey(table: seq<Entry>, entries: seq<Entry>, e: Entry, i: nat)
    requires FirstSeenLastWins(table, entries) && i < |table|
    ensures FirstIndex(entries + [e], table[i].key) == FirstIndex(entries, table[i].key) < |entries|
    ensures LastIndex(entries + [e], table[i].key) ==
            if table[i].key == e.key then |entries| else LastIndex(entries, table[i].key)
  {
    assert Has(table, table[i].key);
    HasIndex(entries, table[i].key);
    hide FirstSeenLastWins;
    SnocIndices(entries, e, table[i].key);
  }

  /** A key not in the table is not among the parameters either. */
  lemma NewKey(table: seq<Entry>, entries: seq<Entry>, e: Entry)
    requires FirstSeenLastWins(table, entries) && FirstIndex(table, e.key) == |table|
    ensures FirstIndex(entries + [e], e.key) == |entries|
  {
    hide FirstSeenLastWins, Has;
    KeysAgree(table, entries, e.key);
    HasIndex(table, e.key);
    HasIndex(entries, e.key);
    SnocIndices(entries, e, e.key);
  }

  lemma KeysAgree(table: seq<Entry>, entries: seq<Entry>, key: string)
    requires FirstSeenLastWins(table, entries)
    ensures Has(table, key) <==> Has(entries, key)
  {
    hide Has, FirstIndex, LastIndex;
  }

  lemma PutKeepsOrder(table: seq<Entry>, entries: seq<Entry>, e: Entry, i: nat, j: nat)
    requires FirstSeenLastWins(table, entries) && i < j < |Put(table, e)|
    ensures var t' := Put(table, e);
            FirstIndex(entries + [e], t'[i].key) < FirstIndex(entries + [e], t'[j].key)
  {
    PutAt(table, e);
    hide Put, FirstIndex, LastIndex, Has;
    OldKey(table, entries, e, i);
    if j < |table| {
      OldKey(table, entries, e, j);
      assert FirstIndex(entries, table[i].key) < FirstIndex(entries, table[j].key);
    } else {
      NewKey(table, entries, e);
    }
  }

  lemma PutKeepsValues(table: seq<Entry>, entries: seq<Entry>, e: Entry, i: nat)
    requires FirstSeenLastWins(table, entries) && i < |Put(table, e)|
    ensures var t', all := Put(table, e), entries + [e];
            var l := LastIndex(all, t'[i].key); l >= 0 && t'[i].value == all[l].value
  {
    var n := FirstIndex(table, e.key);
    hide Put, LastIndex, Has, FirstIndex;
    PutAt(table, e);
    SnocIndices(entries, e, e.key);
    if i < |table| {
      OldKey(table, entries, e, i);
      OldValue(table, entries, e, i);
    }
    FirstSeenMeansUnique(table, entries);
  }

  lemma OldValue(table: seq<Entry>, entries: seq<Entry>, e: Entry, i: nat)
    requires FirstSeenLastWins(table, entries) && i < |table|
    ensures var l := LastIndex(entries, table[i].key);
            0 <= l < |entries| && table[i].value == entries[l].value == (entries + [e])[l].value
  {
    hide LastIndex, FirstIndex, Has;
  }

  lemma PutFollows(table: seq<Entry>, entries: seq<Entry>, e: Entry)
    requires FirstSeenLastWins(table, entries)
    ensures FirstSeenLastWins(Put(table, e), entries + [e])
  {
    var t', all := Put(table, e), entries + [e];
    hide Put, FirstIndex, LastIndex, Has;
    forall k ensures Has(t', k) <==> Has(all, k) {
      PutKeys(table, e, k);
      SnocKeys(entries, e, k);
    }
    forall i, j | 0 <= i < j < |t'| ensures FirstIndex(all, t'[i].key) < FirstIndex(all, t'[j].key) {
      PutKeepsOrder(table, entries, e, i, j);
    }
    forall i | 0 <= i < |t'|
      ensures LastIndex(all, t'[i].key) >= 0 && t'[i].value == all[LastIndex(all, t'[i].key)].value
    {
      PutKeepsValues(table, entries, e, i);
    }
  }

  /** The table of any sequence of parameters: first-seen order, last value wins, no key twice. */
  lemma {:induction false} TableIsFirstSeenLastWins(entries: seq<Entry>)
    ensures FirstSeenLastWins(Table(entries), entries)
    ensures UniqueKeys(Table(entries))
  {
    if entries == [] {
    } else {
      var n := |entries| - 1;
      TableIsFirstSeenLastWins(entries[..n]);
      PutFollows(Table(entries[..n]), entries[..n], entries[n]);
      assert entries[..n] + [entries[n]] == entries;
    }
    FirstSeenMeansUnique(Table(entries), entries);
  }

  /** The value a key is left with. */
  function ValueOf(entries: seq<Entry>, key: string): Option<string> {
    if LastIndex(entries, key) >= 0 then Some(entries[LastIndex(entries, key)].value) else None
  }

  lemma ConcatLast(a: seq<Entry>, b: seq<Entry>, key: string)
    ensures LastIndex(a + b, key) ==
            if LastIndex(b, key) >= 0 then |a| + LastIndex(b, key) else LastIndex(a, key)
  {
    var n := LastIndex(a + b, key);
    assert forall i :: 0 <= i < |a| ==> (a + b)[i] == a[i];
    assert forall i :: 0 <= i < |b| ==> (a + b)[|a| + i] == b[i];
  }

  lemma ValueOfConcat(a: seq<Entry>, b: seq<Entry>, key: string)
    ensures ValueOf(a + b, key) == if ValueOf(b, key).Some? then ValueOf(b, key) else ValueOf(a, key)
  {
    ConcatLast(a, b, key);
    hide LastIndex;
  }

  lemma TableValues(entries: seq<Entry>, key: string)
    ensures ValueOf(Table(entries), key) == ValueOf(entries, key)
    ensures forall i :: 0 <= i < |Table(entries)| && Table(entries)[i].key == key ==>
                          ValueOf(entries, key) == Some(Table(entries)[i].value)
  {
    TableIsFirstSeenLastWins(entries);
    KeysAgree(Table(entries), entries, key);
    HasIndex(Table(entries), key);
    HasIndex(entries, key);
    hide Table, LastIndex, Has;
  }

  /**
   Every desired parameter gets its desired value, every other one keeps its last existing value, no
   key occurs twice, and the keys stand in the order in which they were first seen.
   */
  lemma DesiredWins(lower: Lowercase, existing: string, desired: string, key: string)
    ensures var table := MergedTable(lower, existing, desired);
            var e, d := Entries(lower, existing), Entries(lower, desired);
            && UniqueKeys(table)
            && FirstSeenLastWins(table, e + d)
            && ValueOf(table, key) == if ValueOf(d, key).Some? then ValueOf(d, key) else ValueOf(e, key)
  {
    var e, d := Entries(lower, existing), Entries(lower, desired);
    TableIsFirstSeenLastWins(e + d);
    TableValues(e + d, key);
    ValueOfConcat(e, d, key);
    hide Table, LastIndex, Entries, FirstSeenLastWins, UniqueKeys;
  }

  // ---- Reading a merged text back ----

  /** What every parsed parameter satisfies. */
  ghost predicate EntryOk(lower: Lowercase, e: Entry) {
    && Trimmed(e.key, IsJsSpace) && Trimmed(e.value, IsJsSpace)
    && lower(e.key) == e.key
    && ';' !in e.key && ';' !in e.value
    && ('=' in e.key ==> e.key[0] == '=' && e.value == "")
  }

  predicate Named(e: Entry) {
    e.key != "" && e.key[0] != '='
  }

  lemma CharOccurs(s: string, c: char)
    ensures Contains(s, [c]) <==> c in s
  {
    forall i | 0 <= i < |s| && s[i] == c ensures OccursAt(s, [c], i) {
      assert s[i..i + 1] == [s[i]];
    }
    forall i: nat | OccursAt(s, [c], i) ensures c in s {
      assert s[i..i + 1][0] == s[i];
    }
  }

  lemma FindChar(s: string, c: char)
    ensures var i := Find(s, [c], 0);
            && (i < |s| ==> s[i] == c && c !in s[..i])
            && (i == |s| <==> c !in s)
  {
    var i := Find(s, [c], 0);
    FindContains(s, [c]);
    CharOccurs(s, c);
    if i < |s| {
      assert s[i..i + 1][0] == s[i];
    }
    forall k | 0 <= k < i ensures s[k] != c {
      assert !OccursAt(s, [c], k) && s[k..k + 1] == [s[k]];
    }
  }

  lemma FindCharAt(a: string, c: char, b: string)
    requires c !in a
    ensures Find(a + [c] + b, [c], 0) == |a|
  {
    var s := a + [c] + b;
    FindChar(s, c);
    var i := Find(s, [c], 0);
    assert s[|a|] == c;
    assert OccursAt(s, [c], |a|) by {
      assert s[|a|..|a| + 1] == [c];
    }
    assert forall k :: 0 <= k < |a| ==> s[k] == a[k];
  }

  lemma TrimIsPart(s: string, c: char)
    ensures c in TrimJs(s) ==> c in s
  {
    var l := TrimLeft(s, IsJsSpace);
  }

  lemma TrimKeepsSign(w: string)
    ensures TrimLeft("=" + w, IsJsSpace) == "=" + w
    ensures |TrimJs("=" + w)| > 0 && TrimJs("=" + w)[0] == '='
  {
    hide TrimLeft, TrimRight;
    var s := "=" + w;
    assert s[0] == '=' && !IsJsSpace('=');
    var l := TrimLeft(s, IsJsSpace);
    assert |l| == |s|;
    var r := TrimRight(s, IsJsSpace);
    assert |r| > 0;
  }

  lemma ValueOk(value: string)
    ensures Trimmed(TrimJs(value), IsJsSpace) && (';' in TrimJs(value) ==> ';' in value)
  {
    TrimIsTrimmed(value, IsJsSpace);
    TrimIsPart(value, ';');
  }

  lemma SignedOk(lower: Lowercase, pair: string)
    requires pair != "" && pair[0] == '='
    ensures var key := lower(TrimJs(pair)); key != "" && key[0] == '='
  {
    assert pair == "=" + pair[1..];
    TrimKeepsSign(pair[1..]);
    hide Trim;
    SignedKey(lower, TrimJs(pair));
  }

  lemma ParseOk(lower: Lowercase, pair: string)
    requires ';' !in pair && Parse(lower, pair).Some?
    ensures EntryOk(lower, Parse(lower, pair).value)
  {
    hide Find, Trim, Lowers;
    var i := Find(pair, "=", 0);
    FindChar(pair, '=');
    if 0 < i < |pair| {
      KeyOk(lower, pair[..i]);
      ValueOk(pair[i + 1..]);
    } else {
      KeyOk(lower, pair);
      if i == 0 && pair != "" {
        SignedOk(lower, pair);
      }
    }
  }

  lemma KeyOk(lower: Lowercase, name: string)
    ensures var key := lower(TrimJs(name));
            && Trimmed(key, IsJsSpace) && lower(key) == key
            && (';' in key ==> ';' in name) && ('=' in key ==> '=' in name)
  {
    TrimIsTrimmed(name, IsJsSpace);
    TrimIsPart(name, ';');
    TrimIsPart(name, '=');
    hide Trim;
  }

  lemma SignedKey(lower: Lowercase, s: string)
    requires s != "" && s[0] == '='
    ensures lower(s) == "=" + lower(s[1..])
  {
    assert s == "=" + s[1..];
  }

  function Gap(i: nat): string {
    if i == 0 then "" else " "
  }

  /** What the item of `e` at place `i` of a merged text is read as. */
  function Reread(lower: Lowercase, i: nat, e: Entry): Option<Entry> {
    Parse(lower, Gap(i) + Item(e))
  }

  lemma TrimGap(i: nat, s: string)
    requires Trimmed(s, IsJsSpace)
    ensures TrimJs(Gap(i) + s) == s
  {
    TrimSurrounded(Gap(i), s, "", IsJsSpace);
    assert Gap(i) + s + "" == Gap(i) + s;
  }

  /** A name, a sign and a value are read as such. */
  lemma ParseSigned(lower: Lowercase, name: string, value: string)
    requires '=' !in name && name != ""
    ensures Parse(lower, name + "=" + value) == Some(Entry(lower(TrimJs(name)), TrimJs(value)))
  {
    var pair := name + "=" + value;
    FindCharAt(name, '=', value);
    hide Trim, Find;
    assert pair[..|name|] == name;
    assert pair[|name| + 1..] == value;
  }

  lemma Regroup(a: string, b: string, c: string)
    ensures a + (b + "=" + c) == a + b + "=" + c
  {
  }

  lemma ParseBare(lower: Lowercase, i: nat, key: string)
    requires '=' !in key && Trimmed(key, IsJsSpace)
    ensures Parse(lower, Gap(i) + key) == if key == "" then None else Some(Entry(lower(key), ""))
  {
    FindChar(Gap(i) + key, '=');
    TrimGap(i, key);
    hide Trim, Find;
  }

  lemma ParseSignFirst(lower: Lowercase, w: string)
    requires Trimmed("=" + w, IsJsSpace)
    ensures Parse(lower, Gap(0) + ("=" + w)) == Some(Entry("=" + lower(w), ""))
  {
    assert Gap(0) + ("=" + w) == "=" + w;
    FindCharAt("", '=', w);
    assert "" + "=" + w == "=" + w;
    TrimOfTrimmed("=" + w, IsJsSpace);
    hide Trim, Find;
  }

  /** A named parameter survives being written and read. */
  lemma RereadNamed(lower: Lowercase, i: nat, e: Entry)
    requires EntryOk(lower, e) && Named(e)
    ensures Reread(lower, i, e) == Some(e)
  {
    hide Parse, Trim;
    if e.value == "" {
      ParseBare(lower, i, e.key);
    } else {
      ParseSigned(lower, Gap(i) + e.key, e.value);
      Regroup(Gap(i), e.key, e.value);
      TrimGap(i, e.key);
      TrimOfTrimmed(e.value, IsJsSpace);
    }
  }

  lemma EmptyKey(lower: Lowercase)
    ensures lower("") == ""
  {
    assert Plain("");
  }

  lemma NamelessItem(lower: Lowercase, e: Entry)
    requires EntryOk(lower, e) && !Named(e)
    ensures Item(e) != "" ==> Item(e)[0] == '=' && Item(e) == "=" + Item(e)[1..]
    ensures e.key != "" ==> Item(e) == e.key
    ensures e.key == "" && Item(e) != "" ==> e.value != "" && Item(e) == "=" + e.value && Item(e)[1..] == e.value
  {
    hide Lowers;
  }

  lemma RereadFirst(lower: Lowercase, e: Entry)
    requires EntryOk(lower, e) && !Named(e) && Item(e) != ""
    ensures Reread(lower, 0, e) == Some(Entry(if e.key == "" then "=" + lower(e.value) else e.key, ""))
  {
    NamelessItem(lower, e);
    var w := Item(e)[1..];
    assert Trimmed("=" + w, IsJsSpace);
    if e.key != "" {
      SignedKey(lower, e.key);
    }
    hide Parse, Trim, Lowers, Trimmed, Item;
    ParseSignFirst(lower, w);
  }

  /** What becomes of a parameter without a name. */
  lemma RereadNameless(lower: Lowercase, i: nat, e: Entry)
    requires EntryOk(lower, e) && !Named(e)
    ensures Reread(lower, i, e) ==
            if Item(e) == "" then None
            else if i == 0 then Some(Entry(if e.key == "" then "=" + lower(e.value) else e.key, ""))
            else Some(Entry("", TrimJs(Item(e)[1..])))
  {
    hide Parse, Trim, EntryOk, Named, Lowers;
    NamelessItem(lower, e);
    hide Item;
    if Item(e) == "" {
      ParseBare(lower, i, "");
    } else if i == 0 {
      RereadFirst(lower, e);
    } else {
      ParseLateSign(lower, i, Item(e)[1..]);
      EmptyKey(lower);
    }
  }

  lemma ParseLateSign(lower: Lowercase, i: nat, w: string)
    requires i > 0
    ensures Parse(lower, Gap(i) + ("=" + w)) == Some(Entry(lower(""), TrimJs(w)))
  {
    hide Parse, Trim;
    ParseSigned(lower, " ", w);
    Regroup(" ", "", w);
    TrimGap(1, "");
    assert " " + "" == " " && "" + "=" + w == "=" + w;
  }
}
