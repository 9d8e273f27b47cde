/**
 When merging a second time changes nothing: exactly when the parameters without a name, if there
 are any, can be read back.
 */
module FmtpStability {
  import opened Wrappers
  import opened Text
  import opened Fmtp

  /** The merged text as its own split sees it. */
  function Pairs(table: seq<Entry>): (r: seq<string>)
    ensures |r| == |table| && forall i :: 0 <= i < |table| ==> r[i] == Gap(i) + Item(table[i])
  {
    seq(|table|, i requires 0 <= i < |table| => Gap(i) + Item(table[i]))
  }

  function Spaced(items: seq<string>): (r: seq<string>)
    ensures |r| == |items| && forall i :: 0 <= i < |items| ==> r[i] == " " + items[i]
  {
    seq(|items|, i requires 0 <= i < |items| => " " + items[i])
  }

  lemma {:induction false} JoinSpaced(first: string, rest: seq<string>)
    ensures Join([first] + rest, "; ") == Join([first] + Spaced(rest), ";")
    decreases |rest|
  {
    if rest == [] {
      assert [first] + rest == [first] && [first] + Spaced(rest) == [first];
    } else {
      hide Join;
      var more := rest[1..];
      JoinSpaced(rest[0], more);
      assert [rest[0]] + more == rest;
      assert Spaced(rest) == [" " + rest[0]] + Spaced(more);
      JoinCons(first, rest, "; ");
      JoinCons(first, Spaced(rest), ";");
      JoinPrefixed(" ", rest[0], Spaced(more), ";");
      Respace(first, Join([rest[0]] + Spaced(more), ";"));
    }
  }

  lemma Respace(first: string, tail: string)
    ensures first + "; " + tail == first + ";" + (" " + tail)
  {
    assert "; " == ";" + " ";
  }

  lemma JoinPrefixed(p: string, first: string, rest: seq<string>, sep: string)
    ensures Join([p + first] + rest, sep) == p + Join([first] + rest, sep)
  {
    if rest == [] {
      assert [p + first] + rest == [p + first] && [first] + rest == [first];
    } else {
      JoinCons(p + first, rest, sep);
      JoinCons(first, rest, sep);
      var tail := Join(rest, sep);
      assert p + first + sep + tail == p + (first + sep + tail);
    }
  }

  ghost predicate AllOk(lower: Lowercase, table: seq<Entry>) {
    forall e :: e in table ==> EntryOk(lower, e)
  }

  lemma ItemHasNoBreak(lower: Lowercase, i: nat, e: Entry)
    requires EntryOk(lower, e)
    ensures ';' !in Gap(i) + Item(e)
  {
  }

  lemma SpacedItems(table: seq<Entry>)
    requires table != []
    ensures var items := Items(table); Pairs(table) == [items[0]] + Spaced(items[1..])
  {
    assert "" + Items(table)[0] == Items(table)[0];
  }

  lemma SplitOfMerged(lower: Lowercase, table: seq<Entry>)
    requires AllOk(lower, table) && table != []
    ensures Split(Join(Items(table), "; "), ";") == Pairs(table)
  {
    hide Join, Split, Contains, EntryOk, Item, Lowers;
    var items := Items(table);
    JoinSpaced(items[0], items[1..]);
    assert [items[0]] + items[1..] == items;
    SpacedItems(table);
    forall i | 0 <= i < |table| ensures !Contains(Pairs(table)[i], ";") {
      ItemHasNoBreak(lower, i, table[i]);
      CharOccurs(Pairs(table)[i], ';');
    }
    SplitOfJoin(Pairs(table), ";");
  }

  // ---- Parsing lists ----

  lemma {:induction false} ParseAllMembers(lower: Lowercase, pairs: seq<string>, e: Entry)
    ensures e in ParseAll(lower, pairs) <==> exists i :: 0 <= i < |pairs| && Parse(lower, pairs[i]) == Some(e)
  {
    hide Parse;
    if pairs == [] {
    } else {
      var n := |pairs| - 1;
      ParseAllMembers(lower, pairs[..n], e);
      assert pairs[..n] + [pairs[n]] == pairs;
      assert forall i :: 0 <= i < n ==> pairs[..n][i] == pairs[i];
    }
  }

  lemma {:induction false} ParseAllLength(lower: Lowercase, pairs: seq<string>)
    ensures var r := ParseAll(lower, pairs);
            && |r| <= |pairs|
            && (|r| == |pairs| <==> forall i :: 0 <= i < |pairs| ==> Parse(lower, pairs[i]).Some?)
            && (|r| == |pairs| ==> forall i :: 0 <= i < |pairs| ==> Parse(lower, pairs[i]) == Some(r[i]))
  {
    hide Parse, Lowers;
    if pairs == [] {
    } else {
      var n := |pairs| - 1;
      ParseAllLength(lower, pairs[..n]);
      assert forall i :: 0 <= i < n ==> pairs[..n][i] == pairs[i];
      assert ParseAll(lower, pairs) == ParseAll(lower, pairs[..n]) + Listed(Parse(lower, pairs[n]));
      hide ParseAll;
    }
  }

  lemma ParsedAreOk(lower: Lowercase, pairs: seq<string>)
    requires forall p :: p in pairs ==> ';' !in p
    ensures AllOk(lower, ParseAll(lower, pairs))
  {
    forall e | e in ParseAll(lower, pairs) ensures EntryOk(lower, e) {
      ParseAllMembers(lower, pairs, e);
      var i :| 0 <= i < |pairs| && Parse(lower, pairs[i]) == Some(e);
      ParseOk(lower, pairs[i]);
    }
  }

  lemma EntriesAreOk(lower: Lowercase, text: string)
    ensures AllOk(lower, Entries(lower, text))
  {
    SplitPartsAreFree(text, ";");
    forall p | p in Split(text, ";") ensures ';' !in p {
      CharOccurs(p, ';');
    }
    ParsedAreOk(lower, Split(text, ";"));
  }

  // ---- Tables ----

  lemma TableFromEntries(entries: seq<Entry>)
    ensures forall e :: e in Table(entries) ==> e in entries
  {
    TableIsFirstSeenLastWins(entries);
    var t := Table(entries);
    forall i | 0 <= i < |t| ensures t[i] in entries {
      var l := LastIndex(entries, t[i].key);
      assert entries[l] == t[i];
    }
  }

  lemma MergedTableIsOk(lower: Lowercase, existing: string, desired: string)
    ensures AllOk(lower, MergedTable(lower, existing, desired))
  {
    EntriesAreOk(lower, existing);
    EntriesAreOk(lower, desired);
    TableFromEntries(Entries(lower, existing) + Entries(lower, desired));
    hide Entries, Table, EntryOk;
  }

  /** A list of parameters is its own table exactly when no key occurs twice. */
  lemma {:induction false} TableOfUnique(entries: seq<Entry>)
    ensures |Table(entries)| <= |entries|
    ensures |Table(entries)| == |entries| <==> UniqueKeys(entries)
    ensures UniqueKeys(entries) ==> Table(entries) == entries
  {
    hide Put, Has, FirstIndex, LastIndex, FirstSeenLastWins, UniqueKeys, Table;
    if entries == [] {
      EmptyTable();
    } else {
      var n := |entries| - 1;
      var init, last := entries[..n], entries[n];
      assert init + [last] == entries;
      TableOfUnique(init);
      TableStep(init, last);
      PutAt(Table(init), last);
      LastIsNew(entries);
      TableIsFirstSeenLastWins(init);
      KeysAgree(Table(init), init, last.key);
      HasIndex(Table(init), last.key);
    }
  }

  lemma EmptyTable()
    ensures Table([]) == [] && UniqueKeys([])
  {
  }

  lemma LastIsNew(entries: seq<Entry>)
    requires entries != []
    ensures var n := |entries| - 1;
            UniqueKeys(entries) <==> UniqueKeys(entries[..n]) && !Has(entries[..n], entries[n].key)
  {
    var n := |entries| - 1;
    assert forall i :: 0 <= i < n ==> entries[..n][i] == entries[i];
  }

  ghost predicate SameKeys(a: seq<Entry>, b: seq<Entry>) {
    |a| == |b| && forall i :: 0 <= i < |a| ==> a[i].key == b[i].key
  }

  lemma PutKnown(table: seq<Entry>, e: Entry)
    requires Has(table, e.key)
    ensures SameKeys(Put(table, e), table)
  {
    PutAt(table, e);
    HasIndex(table, e.key);
    hide Put, Has;
  }

  /** Parameters whose keys are all there add no keys and move none. */
  lemma {:induction false} KnownKeysStay(r: seq<Entry>, d: seq<Entry>)
    requires forall e :: e in d ==> Has(r, e.key)
    ensures SameKeys(Table(r + d), Table(r))
    decreases |d|
  {
    hide Table, Has, Put;
    if d == [] {
      assert r + d == r;
    } else {
      var last := d[|d| - 1];
      var init := d[..|d| - 1];
      assert d == init + [last];
      KnownKeysStay(r, init);
      assert r + d == (r + init) + [last];
      TableStep(r + init, last);
      TableIsFirstSeenLastWins(r);
      KeysAgree(Table(r), r, last.key);
      SameKeysHave(Table(r + init), Table(r), last.key);
      PutKnown(Table(r + init), last);
    }
  }

  lemma SameKeysHave(a: seq<Entry>, b: seq<Entry>, key: string)
    requires SameKeys(a, b)
    ensures Has(a, key) <==> Has(b, key)
  {
  }

  // ---- The second merge ----

  /** What the items of a merged text are read as. */
  function Again(lower: Lowercase, table: seq<Entry>): seq<Entry> {
    ParseAll(lower, Pairs(table))
  }

  ghost predicate AllNamed(entries: seq<Entry>) {
    forall e :: e in entries ==> Named(e)
  }

  lemma NamedSurvive(lower: Lowercase, table: seq<Entry>, e: Entry)
    requires AllOk(lower, table) && Named(e)
    ensures e in Again(lower, table) <==> e in table
  {
    ParseAllMembers(lower, Pairs(table), e);
    hide EntryOk, Item, Named;
    if e in table {
      var i :| 0 <= i < |table| && table[i] == e;
      RereadNamed(lower, i, e);
      assert Parse(lower, Pairs(table)[i]) == Some(e);
    }
    if e in Again(lower, table) {
      var i :| 0 <= i < |table| && Parse(lower, Pairs(table)[i]) == Some(e);
      assert Reread(lower, i, table[i]) == Some(e);
      if Named(table[i]) {
        RereadNamed(lower, i, table[i]);
      } else {
        NamelessStays(lower, i, table[i]);
      }
    }
  }

  /** A parameter without a name never acquires one. */
  lemma NamelessStays(lower: Lowercase, i: nat, e: Entry)
    requires EntryOk(lower, e) && !Named(e)
    ensures Reread(lower, i, e).Some? ==> !Named(Reread(lower, i, e).value)
  {
    RereadNameless(lower, i, e);
    hide Reread;
  }

  lemma ValueAt(entries: seq<Entry>, e: Entry)
    requires UniqueKeys(entries) && e in entries
    ensures ValueOf(entries, e.key) == Some(e.value)
  {
  }

  lemma HasValue(entries: seq<Entry>, key: string)
    ensures Has(entries, key) <==> ValueOf(entries, key).Some?
    ensures ValueOf(entries, key).Some? ==> Entry(key, ValueOf(entries, key).value) in entries
  {
    HasIndex(entries, key);
    hide Has;
  }

  lemma MemberHas(entries: seq<Entry>, e: Entry)
    requires e in entries
    ensures Has(entries, e.key)
  {
  }

  lemma SameKeySameEntry(table: seq<Entry>, a: Entry, b: Entry)
    requires UniqueKeys(table) && a in table && b in table && a.key == b.key
    ensures a == b
  {
  }

  /** A desired parameter is read back with its desired value. */
  lemma DesiredValue(lower: Lowercase, e: seq<Entry>, d: seq<Entry>, key: string)
    requires AllOk(lower, e + d) && AllNamed(d) && ValueOf(d, key).Some?
    ensures ValueOf(Again(lower, Table(e + d)), key) == ValueOf(d, key)
  {
    var t := Table(e + d);
    var r := Again(lower, t);
    var x := Entry(key, ValueOf(d, key).value);
    TableFromEntries(e + d);
    TableIsFirstSeenLastWins(e + d);
    assert AllOk(lower, t) by { hide Table, EntryOk; }
    hide Again, Table, EntryOk, FirstSeenLastWins, UniqueKeys, ValueOf, Has, AllOk;
    HasValue(d, key);
    assert Named(x);
    ValueOfConcat(e, d, key);
    TableValues(e + d, key);
    HasValue(t, key);
    NamedSurvive(lower, t, x);
    MemberHas(r, x);
    HasValue(r, key);
    var y := Entry(key, ValueOf(r, key).value);
    assert Named(y) by { SameName(x, y); }
    NamedSurvive(lower, t, y);
    SameKeySameEntry(t, x, y);
  }

  lemma SameName(x: Entry, y: Entry)
    requires x.key == y.key && Named(x)
    ensures Named(y)
  {
  }

  lemma DesiredIsThere(lower: Lowercase, e: seq<Entry>, d: seq<Entry>, x: Entry)
    requires AllOk(lower, e + d) && AllNamed(d) && x in d
    ensures Has(Again(lower, Table(e + d)), x.key)
  {
    hide Again, Table, Has, ValueOf, AllOk, AllNamed;
    MemberHas(d, x);
    HasValue(d, x.key);
    DesiredValue(lower, e, d, x.key);
    HasValue(Again(lower, Table(e + d)), x.key);
  }

  /** The desired parameters change nothing the second time. */
  lemma DesiredIsNoNews(lower: Lowercase, e: seq<Entry>, d: seq<Entry>)
    requires AllOk(lower, e + d) && AllNamed(d)
    ensures var r := Again(lower, Table(e + d)); Table(r + d) == Table(r)
  {
    hide Again, Table, EntryOk, Named, Has, ValueOf;
    var r := Again(lower, Table(e + d));
    forall x | x in d ensures Has(r, x.key) {
      DesiredIsThere(lower, e, d, x);
    }
    KnownKeysStay(r, d);
    forall i | 0 <= i < |Table(r)| ensures Table(r + d)[i] == Table(r)[i] {
      var key := Table(r)[i].key;
      TableValues(r, key);
      TableValues(r + d, key);
      ValueOfConcat(r, d, key);
      if ValueOf(d, key).Some? {
        DesiredValue(lower, e, d, key);
      }
    }
  }

  // ---- Exactly when ----

  /** The second reading gives the same items, one for each, under different keys. */
  ghost predicate ReadsBack(lower: Lowercase, table: seq<Entry>) {
    var r := Again(lower, table);
    && |r| == |table|
    && UniqueKeys(r)
    && (forall i :: 0 <= i < |r| ==> Item(r[i]) == Item(table[i]))
  }

  lemma MergedAgain(lower: Lowercase, existing: string, desired: string)
    requires AllNamed(Entries(lower, desired))
    ensures var t := MergedTable(lower, existing, desired);
            t != [] ==>
              Merged(lower, Merged(lower, existing, desired), desired) == Join(Items(Table(Again(lower, t))), "; ")
  {
    var e, d := Entries(lower, existing), Entries(lower, desired);
    var t := MergedTable(lower, existing, desired);
    MergedTableIsOk(lower, existing, desired);
    EntriesAreOk(lower, existing);
    EntriesAreOk(lower, desired);
    hide Table, Split, Join, Items, Pairs, EntryOk, Named, ParseAll;
    if t != [] {
      SplitOfMerged(lower, t);
      DesiredIsNoNews(lower, e, d);
    }
  }

  lemma AgainIsOk(lower: Lowercase, table: seq<Entry>)
    requires AllOk(lower, table)
    ensures AllOk(lower, Again(lower, table)) && AllOk(lower, Table(Again(lower, table)))
  {
    forall p | p in Pairs(table) ensures ';' !in p {
      var i :| 0 <= i < |table| && Pairs(table)[i] == p;
      ItemHasNoBreak(lower, i, table[i]);
    }
    ParsedAreOk(lower, Pairs(table));
    TableFromEntries(Again(lower, table));
    hide Again, Table, EntryOk;
  }

  /** Merged texts are equal only if their items are. */
  lemma ItemsAreText(lower: Lowercase, a: seq<Entry>, b: seq<Entry>)
    requires AllOk(lower, a) && AllOk(lower, b) && a != [] && b != []
    ensures Join(Items(a), "; ") == Join(Items(b), "; ") <==> Items(a) == Items(b)
  {
    SplitOfMerged(lower, a);
    SplitOfMerged(lower, b);
    hide AllOk, Split, Join;
    if Pairs(a) == Pairs(b) {
      forall i | 0 <= i < |a| ensures Item(a[i]) == Item(b[i]) {
        assert Pairs(a)[i] == Gap(i) + Item(a[i]) && Pairs(b)[i] == Gap(i) + Item(b[i]);
        SamePrefix(Gap(i), Item(a[i]), Item(b[i]));
      }
      assert Items(a) == Items(b);
    }
  }

  lemma SamePrefix(p: string, a: string, b: string)
    ensures p + a == p + b <==> a == b
  {
    assert (p + a)[|p|..] == a && (p + b)[|p|..] == b;
  }

  lemma EmptyMerge(lower: Lowercase, existing: string, desired: string)
    requires AllNamed(Entries(lower, desired)) && Merged(lower, existing, desired) == ""
    ensures Merged(lower, "", desired) == ""
  {
    var t := MergedTable(lower, existing, desired);
    EmptyTextHasNoEntries(lower);
    if t == [] {
      NoEntries(Entries(lower, existing) + Entries(lower, desired));
      assert Entries(lower, "") + Entries(lower, desired) == [];
    } else {
      MergedTableIsOk(lower, existing, desired);
      MergedAgain(lower, existing, desired);
      hide MergedTable, Table, ParseAll, Split;
      SplitOfMerged(lower, t);
      assert Again(lower, t) == Entries(lower, "");
      assert Table([]) == [];
    }
  }

  lemma NoEntries(entries: seq<Entry>)
    requires Table(entries) == []
    ensures entries == []
  {
    if entries != [] {
      PutAt(Table(entries[..|entries| - 1]), entries[|entries| - 1]);
    }
  }

  lemma ReadsBackIsSameItems(lower: Lowercase, t: seq<Entry>)
    ensures Items(Table(Again(lower, t))) == Items(t) <==> ReadsBack(lower, t)
  {
    var r := Again(lower, t);
    var u := Table(r);
    ParseAllLength(lower, Pairs(t));
    TableOfUnique(r);
    hide Parse, Table, UniqueKeys, ParseAll, Pairs, Item;
    if Items(u) == Items(t) {
      assert |u| == |Items(u)| == |t|;
      assert forall i :: 0 <= i < |r| ==> Items(u)[i] == Item(r[i]) && Items(t)[i] == Item(t[i]);
    }
  }

  lemma ReadsBackIsSameText(lower: Lowercase, t: seq<Entry>)
    requires AllOk(lower, t) && t != [] && Join(Items(t), "; ") != ""
    ensures Join(Items(Table(Again(lower, t))), "; ") == Join(Items(t), "; ") <==> ReadsBack(lower, t)
  {
    var u := Table(Again(lower, t));
    assert Join(Items([]), "; ") == "";
    hide AllOk, Join, Again, Table, ReadsBack, Item;
    AgainIsOk(lower, t);
    ReadsBackIsSameItems(lower, t);
    if u != [] {
      ItemsAreText(lower, u, t);
    }
  }

  /** A parameter without a name that can be read back where it stands. */
  predicate Legible(lower: Lowercase, i: nat, e: Entry) {
    && Item(e) != ""
    && (if i == 0 then e.key == "" ==> lower(e.value) == e.value
        else |Item(e)| > 1 && Trimmed(Item(e)[1..], IsJsSpace))
  }

  /** Parameters without a name are legible, and only one of them stands after the first place. */
  ghost predicate NamesReadable(lower: Lowercase, table: seq<Entry>) {
    && (forall i :: 0 <= i < |table| ==> Named(table[i]) || Legible(lower, i, table[i]))
    && (forall i, j :: 0 < i < j < |table| ==> Named(table[i]) || Named(table[j]))
  }

  lemma TrimChangesNothing(w: string)
    ensures TrimJs(w) == w <==> Trimmed(w, IsJsSpace)
  {
    TrimIsTrimmed(w, IsJsSpace);
    if Trimmed(w, IsJsSpace) {
      TrimOfTrimmed(w, IsJsSpace);
    }
  }

  lemma LegibleFirst(lower: Lowercase, e: Entry)
    requires EntryOk(lower, e) && !Named(e) && Item(e) != ""
    ensures Legible(lower, 0, e) <==> Item(Entry(if e.key == "" then "=" + lower(e.value) else e.key, "")) == Item(e)
  {
    NamelessItem(lower, e);
    hide EntryOk, Named, Lowers;
    SamePrefix("=", lower(e.value), e.value);
  }

  lemma LegibleLater(lower: Lowercase, i: nat, e: Entry)
    requires EntryOk(lower, e) && !Named(e) && Item(e) != "" && i > 0
    ensures Legible(lower, i, e) <==> Item(Entry("", TrimJs(Item(e)[1..]))) == Item(e)
  {
    NamelessItem(lower, e);
    hide EntryOk, Named, Lowers, Trim, Trimmed;
    var w := Item(e)[1..];
    assert Item(e) == "=" + w;
    TrimChangesNothing(w);
    SamePrefix("=", TrimJs(w), w);
    SignedItem(TrimJs(w));
    hide Item;
  }

  lemma SignedItem(v: string)
    ensures Item(Entry("", v)) == if v == "" then "" else "=" + v
  {
    assert "" + "=" + v == "=" + v;
  }

  lemma LegibleMeans(lower: Lowercase, i: nat, e: Entry)
    requires EntryOk(lower, e) && !Named(e)
    ensures Legible(lower, i, e) <==> Reread(lower, i, e).Some? && Item(Reread(lower, i, e).value) == Item(e)
  {
    RereadNameless(lower, i, e);
    assert Legible(lower, i, e) ==> Item(e) != "";
    hide Reread, EntryOk, Named, Lowers, TrimJs, Trimmed, Item, Legible;
    if Item(e) != "" {
      if i == 0 {
        LegibleFirst(lower, e);
      } else {
        LegibleLater(lower, i, e);
      }
    }
  }

  /** Where the keys of the second reading can clash. */
  lemma RereadKeys(lower: Lowercase, i: nat, e: Entry)
    requires EntryOk(lower, e) && Reread(lower, i, e).Some?
    ensures var r := Reread(lower, i, e).value;
            if Named(e) then r == e else !Named(r) && (i == 0 <==> r.key != "")
  {
    if Named(e) {
      RereadNamed(lower, i, e);
    } else {
      RereadNameless(lower, i, e);
    }
    hide Reread, Trim;
  }

  lemma AgainAt(lower: Lowercase, t: seq<Entry>)
    ensures var r := Again(lower, t);
            && (|r| == |t| <==> forall i :: 0 <= i < |t| ==> Reread(lower, i, t[i]).Some?)
            && (|r| == |t| ==> forall i :: 0 <= i < |t| ==> Reread(lower, i, t[i]) == Some(r[i]))
  {
    ParseAllLength(lower, Pairs(t));
    hide Parse, ParseAll;
    assert forall i :: 0 <= i < |t| ==> Reread(lower, i, t[i]) == Parse(lower, Pairs(t)[i]);
  }

  lemma ReadableReadsBack(lower: Lowercase, t: seq<Entry>)
    requires AllOk(lower, t) && UniqueKeys(t) && NamesReadable(lower, t)
    ensures ReadsBack(lower, t)
  {
    var r := Again(lower, t);
    AgainAt(lower, t);
    hide Again, Reread, Legible, Item, EntryOk;
    forall i | 0 <= i < |t|
      ensures Reread(lower, i, t[i]).Some? && Item(Reread(lower, i, t[i]).value) == Item(t[i])
    {
      if Named(t[i]) {
        RereadNamed(lower, i, t[i]);
      } else {
        LegibleMeans(lower, i, t[i]);
      }
    }
    forall i, j | 0 <= i < j < |r| ensures r[i].key != r[j].key {
      RereadKeys(lower, i, t[i]);
      RereadKeys(lower, j, t[j]);
    }
  }

  lemma ReadsBackReadable(lower: Lowercase, t: seq<Entry>)
    requires AllOk(lower, t) && ReadsBack(lower, t)
    ensures NamesReadable(lower, t)
  {
    var r := Again(lower, t);
    AgainAt(lower, t);
    hide Again, Reread, Legible, Item, EntryOk;
    forall i | 0 <= i < |t| ensures Named(t[i]) || Legible(lower, i, t[i]) {
      assert Reread(lower, i, t[i]) == Some(r[i]);
      if !Named(t[i]) {
        LegibleMeans(lower, i, t[i]);
      }
    }
    forall i, j | 0 < i < j < |t| ensures Named(t[i]) || Named(t[j]) {
      assert Reread(lower, i, t[i]) == Some(r[i]) && Reread(lower, j, t[j]) == Some(r[j]);
      RereadKeys(lower, i, t[i]);
      RereadKeys(lower, j, t[j]);
    }
  }

  lemma BlankText(t: seq<Entry>)
    ensures Join(Items(t), "; ") == "" <==> t == [] || t == [Entry("", "")]
  {
    if |t| >= 2 {
      TwoItemsAreSomeText(Items(t));
    } else if |t| == 1 {
      assert Join(Items(t), "; ") == Item(t[0]);
    }
  }

  lemma TwoItemsAreSomeText(items: seq<string>)
    requires |items| >= 2
    ensures Join(items, "; ") != ""
  {
  }

  lemma IdempotentExactlyWhenMergedReadable(lower: Lowercase, existing: string, desired: string)
    requires AllNamed(Entries(lower, desired))
    ensures var once := Merged(lower, existing, desired);
            var table := MergedTable(lower, existing, desired);
            Merged(lower, once, desired) == once <==> table == [Entry("", "")] || NamesReadable(lower, table)
  {
    var once := Merged(lower, existing, desired);
    var t := MergedTable(lower, existing, desired);
    BlankText(t);
    if once == "" {
      assert t == [] ==> NamesReadable(lower, t);
      hide Table, AllNamed, Join, Items, NamesReadable, Entries, Lowers;
      EmptyMerge(lower, existing, desired);
    } else {
      hide Table, AllNamed, AllOk, UniqueKeys, FirstSeenLastWins, Join, Items, Again, Entries, Lowers;
      hide NamesReadable, ReadsBack;
      MergedTableIsOk(lower, existing, desired);
      TableIsFirstSeenLastWins(Entries(lower, existing) + Entries(lower, desired));
      MergedAgain(lower, existing, desired);
      ReadsBackIsSameText(lower, t);
      if ReadsBack(lower, t) {
        ReadsBackReadable(lower, t);
      }
      if NamesReadable(lower, t) {
        ReadableReadsBack(lower, t);
      }
    }
  }

  // ---- The existing parameters alone decide ----

  /** `later` has the nameless parameters of `base`, where they were, and no others. */
  ghost predicate SameNameless(base: seq<Entry>, later: seq<Entry>) {
    && |base| <= |later|
    && (forall i :: 0 <= i < |base| ==> later[i].key == base[i].key && (Named(base[i]) || later[i] == base[i]))
    && (forall i :: |base| <= i < |later| ==> Named(later[i]))
  }

  lemma PutNamed(base: seq<Entry>, table: seq<Entry>, e: Entry)
    requires SameNameless(base, table) && Named(e)
    ensures SameNameless(base, Put(table, e))
  {
    PutAt(table, e);
    hide Put;
  }

  /** Named parameters neither move nor change nor add nameless ones. */
  lemma {:induction false} DesiredKeepsNameless(e: seq<Entry>, d: seq<Entry>)
    requires AllNamed(d)
    ensures SameNameless(Table(e), Table(e + d))
    decreases |d|
  {
    hide Table, Named, Put;
    if d == [] {
      assert e + d == e;
    } else {
      var init, last := d[..|d| - 1], d[|d| - 1];
      DesiredKeepsNameless(e, init);
      assert e + d == (e + init) + [last];
      TableStep(e + init, last);
      PutNamed(Table(e), Table(e + init), last);
    }
  }

  lemma SameNamelessReadable(lower: Lowercase, base: seq<Entry>, later: seq<Entry>)
    requires SameNameless(base, later)
    ensures NamesReadable(lower, base) <==> NamesReadable(lower, later)
  {
    hide Legible, Lowers;
    assert forall i :: 0 <= i < |base| ==> (Named(base[i]) <==> Named(later[i]));
  }

  lemma SameNamelessBlank(e: seq<Entry>, d: seq<Entry>)
    requires AllNamed(d)
    ensures Table(e + d) == [Entry("", "")] <==> Table(e) == [Entry("", "")] && d == []
  {
    var base, t := Table(e), Table(e + d);
    DesiredKeepsNameless(e, d);
    if d == [] {
      assert e + d == e;
    } else {
      var x := d[0];
      assert x in d && (e + d)[|e|] == x;
      MemberHas(e + d, x);
      TableIsFirstSeenLastWins(e + d);
      hide Table, SameNameless;
      KeysAgree(t, e + d, x.key);
      assert t == [Entry("", "")] ==> x.key == "";
    }
  }

  /**
   Merging the same named parameters again changes nothing exactly when the nameless ones among the
   existing parameters, if any, are legible, or one blank parameter is all there is.
   */
  lemma IdempotentExactlyWhenNamesReadable(lower: Lowercase, existing: string, desired: string)
    requires AllNamed(Entries(lower, desired))
    ensures var once := Merged(lower, existing, desired);
            var own := Table(Entries(lower, existing));
            Merged(lower, once, desired) == once <==>
            NamesReadable(lower, own) || (own == [Entry("", "")] && Entries(lower, desired) == [])
  {
    var e, d := Entries(lower, existing), Entries(lower, desired);
    IdempotentExactlyWhenMergedReadable(lower, existing, desired);
    hide Table, Merged, NamesReadable, Entries, AllNamed;
    DesiredKeepsNameless(e, d);
    SameNamelessReadable(lower, Table(e), Table(e + d));
    SameNamelessBlank(e, d);
  }

  /** In particular when every parameter has a name. */
  lemma IdempotentWhenNamed(lower: Lowercase, existing: string, desired: string)
    requires AllNamed(Entries(lower, existing)) && AllNamed(Entries(lower, desired))
    ensures var once := Merged(lower, existing, desired); Merged(lower, once, desired) == once
  {
    hide Merged, Table, Entries, AllNamed, NamesReadable, Lowers;
    NamedTable(Entries(lower, existing));
    NamedAreReadable(lower, Table(Entries(lower, existing)));
    IdempotentExactlyWhenNamesReadable(lower, existing, desired);
  }

  lemma NamedAreReadable(lower: Lowercase, table: seq<Entry>)
    requires AllNamed(table)
    ensures NamesReadable(lower, table)
  {
    hide Legible, Named, Lowers;
  }

  lemma NamedTable(entries: seq<Entry>)
    requires AllNamed(entries)
    ensures AllNamed(Table(entries))
  {
    hide Table, Named;
    TableFromEntries(entries);
  }

  /** And what is read back from the merged text is what was written. */
  lemma MergedIsReadBack(lower: Lowercase, existing: string, desired: string)
    requires AllNamed(Entries(lower, existing)) && AllNamed(Entries(lower, desired))
    ensures Entries(lower, Merged(lower, existing, desired)) == MergedTable(lower, existing, desired)
  {
    var t := MergedTable(lower, existing, desired);
    NamedTable(Entries(lower, existing) + Entries(lower, desired));
    MergedTableIsOk(lower, existing, desired);
    hide Table, AllOk;
    if t == [] {
      EmptyTextHasNoEntries(lower);
    } else {
      SplitOfMerged(lower, t);
      hide Join, Split, ParseAll;
      NamedReadBack(lower, t);
    }
  }

  lemma NamedReadBack(lower: Lowercase, t: seq<Entry>)
    requires AllOk(lower, t) && AllNamed(t)
    ensures Again(lower, t) == t
  {
    AgainAt(lower, t);
    hide Again, Reread, AllOk;
    forall i | 0 <= i < |t| ensures Reread(lower, i, t[i]) == Some(t[i]) {
      OneIsOk(lower, t, i);
      RereadNamed(lower, i, t[i]);
    }
  }

  lemma OneIsOk(lower: Lowercase, t: seq<Entry>, i: nat)
    requires AllOk(lower, t) && i < |t|
    ensures EntryOk(lower, t[i])
  {
  }

  // ---- The parameters the client asks for ----

  const OPUS: seq<Entry> := [
    Entry("useinbandfec", "1"), Entry("usedtx", "1"), Entry("stereo", "0"), Entry("sprop-stereo", "0"),
    Entry("maxaveragebitrate", "28000"), Entry("cbr", "0")]

  lemma PlainText(s: string)
    requires Plain(s)
    ensures Trimmed(s, IsJsSpace) && '=' !in s && ';' !in s
  {
  }

  lemma PlainPair(lower: Lowercase, name: string, value: string)
    requires Plain(name) && name != "" && Plain(value)
    ensures Parse(lower, name + "=" + value) == Some(Entry(name, value))
    ensures ';' !in name + "=" + value
  {
    assert lower(name) == name;
    PlainText(name);
    PlainText(value);
    hide Lowers, Plain, Parse, Trimmed;
    ParseSigned(lower, name, value);
    TrimOfTrimmed(name, IsJsSpace);
    TrimOfTrimmed(value, IsJsSpace);
    hide Trim;
  }

  lemma OpusIsPlain(i: nat)
    requires i < |OPUS|
    ensures Plain(OPUS[i].key) && OPUS[i].key != "" && Plain(OPUS[i].value) && OPUS[i].value != ""
    ensures Named(OPUS[i])
  {
  }

  lemma OpusItems()
    ensures var items := Items(OPUS);
            && |items| == 6
            && items[0] == "useinbandfec=1" && items[1] == "usedtx=1" && items[2] == "stereo=0"
            && items[3] == "sprop-stereo=0" && items[4] == "maxaveragebitrate=28000" && items[5] == "cbr=0"
  {
    var items := Items(OPUS);
    assert items[0] == "useinbandfec=1";
    assert items[1] == "usedtx=1";
    assert items[2] == "stereo=0";
    assert items[3] == "sprop-stereo=0";
    assert items[4] == "maxaveragebitrate=28000";
    assert items[5] == "cbr=0";
  }

  lemma OpusJoined()
    ensures Join(Items(OPUS), ";") == OPUS_PARAMS
  {
    hide OPUS, Item, Join;
    var items := Items(OPUS);
    OpusItems();
    JoinFrom(items, 4);
    JoinFrom(items, 3);
    JoinFrom(items, 2);
    JoinFrom(items, 1);
    JoinFrom(items, 0);
    JoinLast(items, 5);
    assert items[0..] == items;
  }

  lemma JoinLast(items: seq<string>, i: nat)
    requires i + 1 == |items|
    ensures Join(items[i..], ";") == items[i]
  {
    assert items[i..] == [items[i]];
  }

  lemma JoinFrom(items: seq<string>, i: nat)
    requires i + 1 < |items|
    ensures Join(items[i..], ";") == items[i] + ";" + Join(items[i + 1..], ";")
  {
    assert items[i..] == [items[i]] + items[i + 1..];
    JoinCons(items[i], items[i + 1..], ";");
  }

  /** The text the client merges in says what it is meant to say. */
  lemma OpusEntries(lower: Lowercase)
    ensures Entries(lower, OPUS_PARAMS) == OPUS && AllNamed(OPUS)
  {
    hide OPUS, OPUS_PARAMS, Parse, Split, Join, Named, Contains, Plain, Lowers;
    OpusJoined();
    OpusItems();
    var items := Items(OPUS);
    forall i | 0 <= i < |OPUS|
      ensures Parse(lower, items[i]) == Some(OPUS[i]) && !Contains(items[i], ";") && Named(OPUS[i])
    {
      OpusIsPlain(i);
      PlainPair(lower, OPUS[i].key, OPUS[i].value);
      CharOccurs(items[i], ';');
    }
    SplitOfJoin(items, ";");
    ParseAllLength(lower, items);
  }

  lemma OpusKeysDiffer()
    ensures UniqueKeys(OPUS)
  {
    assert |OPUS[0].key| == 12 && OPUS[0].key[0] == 'u' && |OPUS[1].key| == 6 && OPUS[1].key[0] == 'u';
    assert |OPUS[2].key| == 6 && OPUS[2].key[0] == 's' && |OPUS[3].key| == 12 && OPUS[3].key[0] == 's';
    assert |OPUS[4].key| == 17 && |OPUS[5].key| == 3;
  }

  /**
   Whatever the line said before, the merged text, when read, gives every requested parameter its
   requested value.
   */
  lemma OpusWins(lower: Lowercase, existing: string, i: nat)
    requires i < |OPUS|
    ensures ValueOf(Entries(lower, Merged(lower, existing, OPUS_PARAMS)), OPUS[i].key) == Some(OPUS[i].value)
  {
    OpusEntries(lower);
    OpusKeysDiffer();
    hide OPUS, OPUS_PARAMS, Table, ValueOf, UniqueKeys, AllNamed, ParseAll, Split, Join, EntryOk, Named, Lowers;
    var e := Entries(lower, existing);
    var t := MergedTable(lower, existing, OPUS_PARAMS);
    ValueAt(OPUS, OPUS[i]);
    EntriesAreOk(lower, existing);
    EntriesAreOk(lower, OPUS_PARAMS);
    DesiredValue(lower, e, OPUS, OPUS[i].key);
    TableIsNotEmpty(e + OPUS);
    MergedTableIsOk(lower, existing, OPUS_PARAMS);
    SplitOfMerged(lower, t);
  }

  lemma MergedIsNotEmpty(lower: Lowercase, existing: string)
    ensures Merged(lower, existing, OPUS_PARAMS) != ""
  {
    OpusWins(lower, existing, 0);
    EmptyTextHasNoEntries(lower);
    hide Merged, OPUS, OPUS_PARAMS, Entries;
  }

  lemma TableIsNotEmpty(entries: seq<Entry>)
    ensures entries != [] ==> Table(entries) != []
  {
    if entries != [] {
      PutAt(Table(entries[..|entries| - 1]), entries[|entries| - 1]);
    }
  }

  lemma BlankEntry(lower: Lowercase)
    ensures Entries(lower, " =") == [Entry("", "")]
  {
    hide Parse, Split, Lowers, Contains;
    var s := " =";
    CharOccurs(s, ';');
    UnbrokenIsOnePart(s, ";");
    BlankParameter(lower);
    assert [s][..0] == [];
    assert ParseAll(lower, [s]) == ParseAll(lower, []) + Listed(Parse(lower, s));
  }

  lemma BlankParameter(lower: Lowercase)
    ensures Parse(lower, " =") == Some(Entry("", ""))
  {
    EmptyKey(lower);
    hide Parse, Lowers, Trim;
    ParseSigned(lower, " ", "");
    assert " " + "=" + "" == " =";
    TrimGap(1, "");
    assert Gap(1) + "" == " ";
    TrimOfTrimmed("", IsJsSpace);
  }

  lemma BlankIsIllegible(lower: Lowercase, table: seq<Entry>)
    requires Entry("", "") in table
    ensures !NamesReadable(lower, table)
  {
    var i :| 0 <= i < |table| && table[i] == Entry("", "");
    assert !Named(table[i]) && !Legible(lower, i, table[i]);
  }

  /** A parameter without a name and without a value does not survive the second merge. */
  lemma NamelessIsNotStable(lower: Lowercase)
    ensures var once := Merged(lower, " =", OPUS_PARAMS); Merged(lower, once, OPUS_PARAMS) != once
  {
    OpusEntries(lower);
    BlankEntry(lower);
    hide OPUS, OPUS_PARAMS, Entries, Merged, NamesReadable, Lowers;
    TableOfOne(Entry("", ""));
    BlankIsIllegible(lower, [Entry("", "")]);
    OpusIsSomething();
    IdempotentExactlyWhenNamesReadable(lower, " =", OPUS_PARAMS);
  }

  lemma TableOfOne(e: Entry)
    ensures Table([e]) == [e]
  {
    assert [e][..0] == [];
  }

  lemma OpusIsSomething()
    ensures OPUS != []
  {
  }
}
