/**
 Merging the same parameters again and again: when the second merge is the last that changes
 anything, and that the third always is.
 */
module FmtpPasses {
  import opened Wrappers
  import opened Text
  import opened Fmtp
  import opened FmtpStability

  /** A parameter that is read back without a name: not in the first place, and not blank. */
  predicate Late(i: nat, e: Entry) {
    i > 0 && !Named(e) && Item(e) != ""
  }

  /** The value such a parameter is read back with. */
  function LateValue(e: Entry): string {
    if Item(e) == "" then "" else TrimJs(Item(e)[1..])
  }

  /** Where the last of them stands; zero when there is none. */
  function LastLate(table: seq<Entry>): (m: nat)
    ensures m > 0 ==> m < |table|
  {
    if table == [] then 0
    else
      var init, last := table[..|table| - 1], table[|table| - 1];
      if Late(|init|, last) then |init| else LastLate(init)
  }

  lemma {:induction false} LastLateIsLast(table: seq<Entry>)
    ensures var m := LastLate(table);
            && (m > 0 ==> Late(m, table[m]))
            && (forall i :: m < i < |table| ==> !Late(i, table[i]))
  {
    hide Named, Item;
    if table == [] {
    } else {
      var init := table[..|table| - 1];
      LastLateIsLast(init);
      assert forall i :: 0 <= i < |init| ==> init[i] == table[i];
    }
  }

  /**
   The last late parameter has a value, in small letters if the blank parameter in front of it is
   going to leave it the first place.
   */
  predicate ReadableAfterOne(lower: Lowercase, table: seq<Entry>) {
    var m := LastLate(table);
    m > 0 ==>
      var v := LateValue(table[m]);
      v != "" && (Item(table[0]) == "" && !Named(table[1]) ==> lower(v) == v)
  }

  // ---- What is read back ----

  lemma ListedValue(o: Option<Entry>)
    ensures ValueOf(Listed(o), "") == if o.Some? && o.value.key == "" then Some(o.value.value) else None
  {
  }

  lemma RereadValue(lower: Lowercase, i: nat, e: Entry)
    requires EntryOk(lower, e)
    ensures ValueOf(Listed(Reread(lower, i, e)), "") == if Late(i, e) then Some(LateValue(e)) else None
  {
    hide Reread, EntryOk, Lowers, Trim, ValueOf, Listed, LastIndex;
    ListedValue(Reread(lower, i, e));
    if Named(e) {
      RereadNamed(lower, i, e);
    } else {
      RereadNameless(lower, i, e);
      assert Item(e) == "" ==> e.key == "";
    }
  }

  lemma LastLateStep(t: seq<Entry>, n: nat)
    requires 0 < n <= |t|
    ensures LastLate(t[..n]) == if Late(n - 1, t[n - 1]) then n - 1 else LastLate(t[..n - 1])
    ensures Late(n - 1, t[n - 1]) ==> n - 1 > 0
  {
    hide Named, Item;
    assert t[..n][..n - 1] == t[..n - 1] && t[..n][n - 1] == t[n - 1];
  }

  lemma ValueStep(lower: Lowercase, t: seq<Entry>, n: nat)
    requires AllOk(lower, t) && 0 < n <= |t|
    ensures ValueOf(ParseAll(lower, Pairs(t)[..n]), "") ==
            if Late(n - 1, t[n - 1]) then Some(LateValue(t[n - 1])) else ValueOf(ParseAll(lower, Pairs(t)[..n - 1]), "")
  {
    hide EntryOk, Parse, Lowers, LateValue, Late, ValueOf, Item, ParseAll, AllOk;
    ParseAllStep(lower, Pairs(t), n - 1);
    OneIsOk(lower, t, n - 1);
    RereadValue(lower, n - 1, t[n - 1]);
    ValueOfConcat(ParseAll(lower, Pairs(t)[..n - 1]), Listed(Reread(lower, n - 1, t[n - 1])), "");
  }

  lemma ValueGrows(lower: Lowercase, t: seq<Entry>, n: nat)
    requires AllOk(lower, t) && 0 < n <= |t|
    requires ValueOf(ParseAll(lower, Pairs(t)[..n - 1]), "") ==
             var m := LastLate(t[..n - 1]); if m > 0 then Some(LateValue(t[m])) else None
    ensures var m := LastLate(t[..n]);
            ValueOf(ParseAll(lower, Pairs(t)[..n]), "") == if m > 0 then Some(LateValue(t[m])) else None
  {
    hide Lowers, LateValue, Late, ValueOf, Item, ParseAll, AllOk, Pairs, LastLate;
    ValueStep(lower, t, n);
    LastLateStep(t, n);
  }

  lemma ValueOfNothing(lower: Lowercase, t: seq<Entry>)
    ensures LastLate(t[..0]) == 0 && ValueOf(ParseAll(lower, Pairs(t)[..0]), "") == None
  {
    NothingRead(lower, Pairs(t)[..0]);
    assert t[..0] == [];
  }

  lemma {:induction false} ValueOfLate(lower: Lowercase, t: seq<Entry>, n: nat)
    requires AllOk(lower, t) && n <= |t|
    ensures var m := LastLate(t[..n]);
            ValueOf(ParseAll(lower, Pairs(t)[..n]), "") == if m > 0 then Some(LateValue(t[m])) else None
  {
    hide Lowers, LateValue, Late, ValueOf, Item, ParseAll, AllOk, Pairs, LastLate;
    if n == 0 {
      ValueOfNothing(lower, t);
    } else {
      ValueOfLate(lower, t, n - 1);
      ValueGrows(lower, t, n);
    }
  }

  lemma NothingRead(lower: Lowercase, pairs: seq<string>)
    requires pairs == []
    ensures ValueOf(ParseAll(lower, pairs), "") == None
  {
  }

  lemma {:induction false} ParseAllFront(lower: Lowercase, first: string, rest: seq<string>)
    ensures ParseAll(lower, [first] + rest) == Listed(Parse(lower, first)) + ParseAll(lower, rest)
    decreases |rest|
  {
    hide Parse, Lowers;
    var all := [first] + rest;
    if rest == [] {
      assert all == [first] && all[..0] == [];
    } else {
      ParseAllFront(lower, first, rest[..|rest| - 1]);
      assert all[..|all| - 1] == [first] + rest[..|rest| - 1];
    }
  }

  lemma TailOf<T>(s: seq<T>, i: nat)
    requires i < |s|
    ensures s[i..] == [s[i]] + s[i + 1..]
  {
  }

  lemma ParseAllFrom(lower: Lowercase, t: seq<Entry>, i: nat)
    requires i < |t|
    ensures ParseAll(lower, Pairs(t)[i..]) == Listed(Reread(lower, i, t[i])) + ParseAll(lower, Pairs(t)[i + 1..])
  {
    hide Parse, ParseAll, Item, Gap, Lowers;
    var pairs := Pairs(t);
    assert pairs[i] == Gap(i) + Item(t[i]);
    TailOf(pairs, i);
    ParseAllFront(lower, pairs[i], pairs[i + 1..]);
  }

  lemma AgainFront(lower: Lowercase, t: seq<Entry>)
    requires t != []
    ensures Again(lower, t) == Listed(Reread(lower, 0, t[0])) + ParseAll(lower, Pairs(t)[1..])
  {
    hide ParseAll, Reread, Lowers;
    ParseAllFrom(lower, t, 0);
    assert Pairs(t)[0..] == Pairs(t);
  }

  lemma SomethingIsReread(lower: Lowercase, i: nat, e: Entry)
    requires EntryOk(lower, e) && Item(e) != ""
    ensures Reread(lower, i, e).Some? && (Reread(lower, i, e).value.key == "" <==> i > 0 && !Named(e))
  {
    if Named(e) {
      RereadNamed(lower, i, e);
    } else {
      RereadNameless(lower, i, e);
      RereadKeys(lower, i, e);
    }
    hide Reread, EntryOk, Lowers;
  }

  lemma BlankIsNotReread(lower: Lowercase, i: nat, e: Entry)
    requires EntryOk(lower, e) && Item(e) == ""
    ensures Reread(lower, i, e) == None && e == Entry("", "")
  {
    RereadNameless(lower, i, e);
    hide Reread, EntryOk, Lowers;
  }

  /** Whether the second reading starts with a parameter without any name. */
  lemma AgainHead(lower: Lowercase, t: seq<Entry>)
    requires AllOk(lower, t) && UniqueKeys(t) && LastLate(t) > 0
    ensures var r := Again(lower, t);
            r != [] && (r[0].key == "" <==> Item(t[0]) == "" && !Named(t[1]))
  {
    TwoApart(t);
    OneIsOk(lower, t, 0);
    OneIsOk(lower, t, 1);
    hide AllOk, EntryOk, Reread, ParseAll, Again, UniqueKeys, LastLate, Lowers, Named, Item, Pairs, Listed;
    AgainFront(lower, t);
    ParseAllFrom(lower, t, 1);
    FirstListed(
      Reread(lower, 0, t[0]), Reread(lower, 1, t[1]), ParseAll(lower, Pairs(t)[1..]), ParseAll(lower, Pairs(t)[2..]));
    if Item(t[0]) == "" {
      BlankIsNotReread(lower, 0, t[0]);
      OnlyOneBlank(t[0], t[1]);
      SomethingIsReread(lower, 1, t[1]);
    } else {
      SomethingIsReread(lower, 0, t[0]);
    }
  }

  lemma FirstListed(a: Option<Entry>, b: Option<Entry>, rest: seq<Entry>, later: seq<Entry>)
    requires rest == Listed(b) + later
    ensures a.Some? || b.Some? ==>
              Listed(a) + rest != [] && (Listed(a) + rest)[0] == if a.Some? then a.value else b.value
  {
  }

  lemma TwoApart(t: seq<Entry>)
    requires UniqueKeys(t) && LastLate(t) > 0
    ensures |t| >= 2 && t[0].key != t[1].key
  {
  }

  lemma OnlyOneBlank(a: Entry, b: Entry)
    requires a == Entry("", "") && a.key != b.key
    ensures Item(b) != ""
  {
  }

  // ---- The second table ----

  lemma {:induction false} TableHead(entries: seq<Entry>)
    requires entries != []
    ensures Table(entries) != [] && Table(entries)[0].key == entries[0].key
    decreases |entries|
  {
    var init, last := entries[..|entries| - 1], entries[|entries| - 1];
    PutAt(Table(init), last);
    if init == [] {
      assert Table(init) == [];
    } else {
      TableHead(init);
    }
    hide Put, FirstIndex;
  }

  /** In the second table a nameless key is empty, or it still stands first. */
  lemma NamelessPlaces(lower: Lowercase, t: seq<Entry>, j: nat)
    requires AllOk(lower, t) && j < |Table(Again(lower, t))|
    ensures var u := Table(Again(lower, t)); Named(u[j]) || u[j].key == "" || j == 0
  {
    var r := Again(lower, t);
    var u := Table(r);
    TableFromEntries(r);
    TableIsFirstSeenLastWins(r);
    assert u[j] in r;
    assert forall k :: 0 < k < |u| ==> u[k].key != u[0].key;
    hide Table, FirstSeenLastWins, UniqueKeys, EntryOk, Named, Reread, ParseAll, Lowers;
    ParseAllMembers(lower, Pairs(t), u[j]);
    var i :| 0 <= i < |t| && Parse(lower, Pairs(t)[i]) == Some(u[j]);
    hide Parse;
    assert Reread(lower, i, t[i]) == Some(u[j]);
    OneIsOk(lower, t, i);
    RereadKeys(lower, i, t[i]);
    if i == 0 {
      AgainFront(lower, t);
      TableHead(r);
    }
  }

  lemma LegibleCases(lower: Lowercase, j: nat, e: Entry)
    requires EntryOk(lower, e) && !Named(e) && (e.key == "" || j == 0)
    ensures Legible(lower, j, e) <==> (e.key == "" ==> e.value != "" && (j == 0 ==> lower(e.value) == e.value))
  {
    NamelessItem(lower, e);
    assert Item(e) != "" && e.key == "" ==> Item(e)[1..] == e.value;
    hide Lowers;
  }

  lemma SecondReadable(lower: Lowercase, t: seq<Entry>, j: nat)
    requires AllOk(lower, t) && j < |Table(Again(lower, t))|
    ensures var e := Table(Again(lower, t))[j];
            Named(e) || Legible(lower, j, e) <==>
            (e.key == "" ==> e.value != "" && (j == 0 ==> lower(e.value) == e.value))
  {
    var e := Table(Again(lower, t))[j];
    AgainIsOk(lower, t);
    OneIsOk(lower, Table(Again(lower, t)), j);
    NamelessPlaces(lower, t, j);
    hide Table, Again, EntryOk, Legible, Lowers, AllOk;
    if !Named(e) {
      LegibleCases(lower, j, e);
    }
  }

  lemma SecondNamelessApart(lower: Lowercase, t: seq<Entry>, i: nat, j: nat)
    requires AllOk(lower, t) && 0 < i < j < |Table(Again(lower, t))|
    ensures var u := Table(Again(lower, t)); Named(u[i]) || Named(u[j])
  {
    TableIsFirstSeenLastWins(Again(lower, t));
    assert Table(Again(lower, t))[i].key != Table(Again(lower, t))[j].key;
    hide Table, Again, FirstSeenLastWins, UniqueKeys, Named, AllOk;
    NamelessPlaces(lower, t, i);
    NamelessPlaces(lower, t, j);
  }

  /** The table of the second reading has at most one parameter to worry about. */
  lemma SecondTableReadable(lower: Lowercase, t: seq<Entry>)
    requires AllOk(lower, t)
    ensures var u := Table(Again(lower, t));
            NamesReadable(lower, u) <==>
            forall j :: 0 <= j < |u| && u[j].key == "" ==>
                          u[j].value != "" && (j == 0 ==> lower(u[j].value) == u[j].value)
  {
    var u := Table(Again(lower, t));
    hide Table, Again, Legible, Named, AllOk, Lowers;
    forall j | 0 <= j < |u|
      ensures Named(u[j]) || Legible(lower, j, u[j]) <==>
              (u[j].key == "" ==> u[j].value != "" && (j == 0 ==> lower(u[j].value) == u[j].value))
    {
      SecondReadable(lower, t, j);
    }
    forall i, j | 0 < i < j < |u| ensures Named(u[i]) || Named(u[j]) {
      SecondNamelessApart(lower, t, i, j);
    }
  }

  /** The blank key of the second table, told from the first one. */
  lemma BlankKey(lower: Lowercase, t: seq<Entry>, j: nat)
    requires AllOk(lower, t) && UniqueKeys(t) && j < |Table(Again(lower, t))| && Table(Again(lower, t))[j].key == ""
    ensures LastLate(t) > 0 && Table(Again(lower, t))[j].value == LateValue(t[LastLate(t)])
    ensures j == 0 <==> Item(t[0]) == "" && !Named(t[1])
  {
    var r := Again(lower, t);
    var u := Table(r);
    TableValues(r, "");
    ValueOfLate(lower, t, |t|);
    assert Pairs(t)[..|t|] == Pairs(t) && t[..|t|] == t;
    assert ValueOf(r, "") == Some(u[j].value);
    TableIsFirstSeenLastWins(r);
    assert j > 0 ==> u[0].key != u[j].key;
    hide Table, Again, FirstSeenLastWins, ValueOf, LastLate, LateValue, Named, Item, AllOk, ParseAll;
    AgainHead(lower, t);
    TableHead(r);
  }

  lemma BlankKeyExists(lower: Lowercase, t: seq<Entry>)
    requires AllOk(lower, t) && LastLate(t) > 0
    ensures Has(Table(Again(lower, t)), "")
  {
    hide Table, ValueOf, Has, AllOk, LastLate, LateValue, ParseAll, Lowers;
    var r := Again(lower, t);
    ValueOfLate(lower, t, |t|);
    assert Pairs(t)[..|t|] == Pairs(t) && t[..|t|] == t;
    TableValues(r, "");
    HasValue(Table(r), "");
  }

  /** Whether the second merged text can be read back is seen on the first table. */
  lemma SecondReadableExactly(lower: Lowercase, t: seq<Entry>)
    requires AllOk(lower, t) && UniqueKeys(t)
    ensures NamesReadable(lower, Table(Again(lower, t))) <==> ReadableAfterOne(lower, t)
  {
    var u := Table(Again(lower, t));
    hide Table, Again, NamesReadable, AllOk, UniqueKeys, LastLate, LateValue, Named, Item, Lowers;
    SecondTableReadable(lower, t);
    forall j | 0 <= j < |u| && u[j].key == ""
      ensures LastLate(t) > 0 && u[j].value == LateValue(t[LastLate(t)])
      ensures j == 0 <==> Item(t[0]) == "" && !Named(t[1])
    {
      BlankKey(lower, t, j);
    }
    if LastLate(t) > 0 {
      BlankKeyExists(lower, t);
    }
  }

  /** The third text can always be read back. */
  lemma ThirdReadable(lower: Lowercase, t: seq<Entry>)
    requires AllOk(lower, t)
    ensures ReadableAfterOne(lower, Table(Again(lower, t)))
  {
    var u := Table(Again(lower, t));
    var m := LastLate(u);
    LastLateIsLast(u);
    if m > 0 {
      AgainIsOk(lower, t);
      OneIsOk(lower, u, m);
      TableIsFirstSeenLastWins(Again(lower, t));
      assert u[0].key != u[m].key;
      hide Table, Again, FirstSeenLastWins, UniqueKeys, LastLate, AllOk;
      NamelessPlaces(lower, t, m);
      NamelessItem(lower, u[m]);
      assert Item(u[m])[1..] == u[m].value;
      TrimChangesNothing(u[m].value);
      hide Trim, Lowers;
    }
  }

  // ---- The existing parameters alone decide ----

  lemma SameNamelessAfterOne(lower: Lowercase, base: seq<Entry>, later: seq<Entry>)
    requires SameNameless(base, later)
    ensures ReadableAfterOne(lower, base) <==> ReadableAfterOne(lower, later)
  {
    hide Lowers, LateValue;
    LastLateIsLast(base);
    LastLateIsLast(later);
    var m := LastLate(base);
    forall i | 0 <= i < |later| ensures Late(i, later[i]) <==> i < |base| && Late(i, base[i]) {
    }
    assert LastLate(later) == m;
    if m > 0 {
      assert later[m] == base[m];
      assert Item(later[0]) == "" <==> Item(base[0]) == "";
      assert Named(later[1]) <==> Named(base[1]);
    }
  }

  lemma EntriesOfMerged(lower: Lowercase, existing: string, desired: string)
    requires AllNamed(Entries(lower, desired))
    ensures var t := MergedTable(lower, existing, desired);
            Entries(lower, Merged(lower, existing, desired)) == Again(lower, t)
  {
    var t := MergedTable(lower, existing, desired);
    MergedTableIsOk(lower, existing, desired);
    hide AllNamed, Entries, Table, AllOk, Lowers;
    if t == [] {
      EmptyTextHasNoEntries(lower);
    } else {
      hide MergedTable, Split, Join, ParseAll;
      SplitOfMerged(lower, t);
      SameSplit(lower, Merged(lower, existing, desired), t);
    }
  }

  lemma SameSplit(lower: Lowercase, text: string, t: seq<Entry>)
    requires Split(text, ";") == Pairs(t)
    ensures Entries(lower, text) == Again(lower, t)
  {
  }

  // ---- When only a blank parameter is left ----

  /** A blank parameter, and after it nothing but late ones, the last of them without a value. */
  predicate LeavesBlank(table: seq<Entry>) {
    && |table| > 1 && Item(table[0]) == ""
    && (forall i :: 0 < i < |table| ==> !Named(table[i]))
    && LateValue(table[|table| - 1]) == ""
  }

  lemma LateAfterBlank(lower: Lowercase, t: seq<Entry>)
    requires AllOk(lower, t) && UniqueKeys(t) && |t| > 1 && Item(t[0]) == "" && !Named(t[|t| - 1])
    ensures LastLate(t) == |t| - 1
  {
    OneIsOk(lower, t, 0);
    OneIsOk(lower, t, |t| - 1);
    assert t[0].key != t[|t| - 1].key;
    hide AllOk, UniqueKeys, EntryOk;
    BlankIsNotReread(lower, 0, t[0]);
  }

  lemma NamedStays(lower: Lowercase, t: seq<Entry>, i: nat)
    requires AllOk(lower, t) && i < |t| && Named(t[i])
    ensures Has(Table(Again(lower, t)), t[i].key)
  {
    var r := Again(lower, t);
    OneIsOk(lower, t, i);
    TableIsFirstSeenLastWins(r);
    hide AllOk, EntryOk, Table, ParseAll, Parse, Named, Item, Lowers;
    RereadNamed(lower, i, t[i]);
    assert Parse(lower, Pairs(t)[i]) == Some(t[i]);
    ParseAllMembers(lower, Pairs(t), t[i]);
  }

  lemma OnlyBlankKeys(lower: Lowercase, t: seq<Entry>, e: Entry)
    requires AllOk(lower, t) && UniqueKeys(t) && LeavesBlank(t) && e in Again(lower, t)
    ensures e.key == ""
  {
    hide Named, LateValue, ParseAll, Lowers, Item, Parse;
    ParseAllMembers(lower, Pairs(t), e);
    var i :| 0 <= i < |t| && Parse(lower, Pairs(t)[i]) == Some(e);
    OneIsOk(lower, t, 0);
    OneIsOk(lower, t, i);
    assert Reread(lower, i, t[i]) == Some(e);
    assert i > 0 ==> t[0].key != t[i].key;
    hide AllOk, UniqueKeys, EntryOk, Reread;
    BlankIsNotReread(lower, 0, t[0]);
    if Item(t[i]) == "" {
      BlankIsNotReread(lower, i, t[i]);
    } else {
      SomethingIsReread(lower, i, t[i]);
    }
  }

  lemma OneKey(table: seq<Entry>, key: string)
    requires UniqueKeys(table) && table != [] && forall e :: e in table ==> e.key == key
    ensures |table| == 1 && table[0].key == key
  {
    assert forall i :: 0 <= i < |table| ==> table[i] in table;
    assert |table| > 1 ==> table[0].key != table[1].key;
  }

  lemma BlankIsLeft(lower: Lowercase, t: seq<Entry>)
    requires AllOk(lower, t) && UniqueKeys(t) && LeavesBlank(t)
    ensures Table(Again(lower, t)) == [Entry("", "")]
  {
    var r := Again(lower, t);
    var u := Table(r);
    LateAfterBlank(lower, t);
    forall e | e in r ensures e.key == "" {
      OnlyBlankKeys(lower, t, e);
    }
    AgainHead(lower, t);
    hide AllOk, LeavesBlank, Again, LastLate, Table, LateValue, Named, Item;
    TableHead(r);
    TableFromEntries(r);
    TableIsFirstSeenLastWins(r);
    OneKey(u, "");
    hide UniqueKeys;
    BlankKeyValue(lower, t);
  }

  lemma BlankKeyValue(lower: Lowercase, t: seq<Entry>)
    requires AllOk(lower, t) && UniqueKeys(t) && LeavesBlank(t)
    requires |Table(Again(lower, t))| == 1 && Table(Again(lower, t))[0].key == ""
    ensures Table(Again(lower, t))[0].value == ""
  {
    LateAfterBlank(lower, t);
    hide Table, Again, LastLate, LateValue, Named, Item, AllOk;
    BlankKey(lower, t, 0);
  }

  /** The second table is one blank parameter exactly when the first one leaves nothing else. */
  lemma LeavesBlankExactly(lower: Lowercase, t: seq<Entry>)
    requires AllOk(lower, t) && UniqueKeys(t)
    ensures Table(Again(lower, t)) == [Entry("", "")] <==> LeavesBlank(t)
  {
    var u := Table(Again(lower, t));
    hide Table, Again, LastLate, LateValue, Named, Item, AllOk, UniqueKeys;
    if LeavesBlank(t) {
      BlankIsLeft(lower, t);
    }
    if u == [Entry("", "")] {
      BlankKey(lower, t, 0);
      forall i | 0 < i < |t| ensures !Named(t[i]) {
        if Named(t[i]) {
          NamedStays(lower, t, i);
          NamedKey(t[i]);
        }
      }
      LateAfterBlank(lower, t);
    }
  }

  lemma NamedKey(e: Entry)
    requires Named(e)
    ensures e.key != ""
  {
  }

  // ---- Results ----

  /**
   The third merge changes nothing exactly when the last late parameter among the existing ones has a
   value, in small letters if a blank one stands before it; or nothing is asked for and nothing but a
   blank parameter is left.
   */
  lemma TwoMergesSufficeExactly(lower: Lowercase, existing: string, desired: string)
    requires AllNamed(Entries(lower, desired))
    ensures var once := Merged(lower, existing, desired);
            var twice := Merged(lower, once, desired);
            var own := Table(Entries(lower, existing));
            Merged(lower, twice, desired) == twice <==>
            ReadableAfterOne(lower, own) || (Entries(lower, desired) == [] && LeavesBlank(own))
  {
    var e, d := Entries(lower, existing), Entries(lower, desired);
    var t := MergedTable(lower, existing, desired);
    MergedTableIsOk(lower, existing, desired);
    TableIsFirstSeenLastWins(e + d);
    EntriesOfMerged(lower, existing, desired);
    assert d == [] ==> e + d == e;
    hide AllNamed, Entries, Table, AllOk, UniqueKeys, FirstSeenLastWins, Again, Merged, Lowers;
    hide NamesReadable, ReadableAfterOne, LeavesBlank;
    IdempotentExactlyWhenNamesReadable(lower, Merged(lower, existing, desired), desired);
    SecondReadableExactly(lower, t);
    LeavesBlankExactly(lower, t);
    DesiredKeepsNameless(e, d);
    SameNamelessAfterOne(lower, Table(e), Table(e + d));
  }

  /** The fourth merge never changes anything. */
  lemma ThreeMergesSuffice(lower: Lowercase, existing: string, desired: string)
    requires AllNamed(Entries(lower, desired))
    ensures var once := Merged(lower, existing, desired);
            var twice := Merged(lower, once, desired);
            var thrice := Merged(lower, twice, desired);
            Merged(lower, thrice, desired) == thrice
  {
    var once := Merged(lower, existing, desired);
    var twice := Merged(lower, once, desired);
    var t := MergedTable(lower, existing, desired);
    var u := MergedTable(lower, once, desired);
    EntriesOfMerged(lower, existing, desired);
    EntriesOfMerged(lower, once, desired);
    MergedTableIsOk(lower, existing, desired);
    MergedTableIsOk(lower, once, desired);
    EntriesAreOk(lower, existing);
    EntriesAreOk(lower, desired);
    TableIsFirstSeenLastWins(Entries(lower, once) + Entries(lower, desired));
    assert AllOk(lower, Entries(lower, existing) + Entries(lower, desired)) by { hide Entries, EntryOk; }
    hide Entries, Table, AllOk, UniqueKeys, FirstSeenLastWins, Again, Merged, Lowers, AllNamed;
    hide NamesReadable, ReadableAfterOne;
    DesiredIsNoNews(lower, Entries(lower, existing), Entries(lower, desired));
    assert u == Table(Again(lower, t));
    ThirdReadable(lower, t);
    SecondReadableExactly(lower, u);
    IdempotentExactlyWhenNamesReadable(lower, twice, desired);
  }

  // ---- Three are needed ----

  lemma LoneSignSplit()
    ensures Split("x;=", ";") == ["x", "="]
  {
    CharOccurs("x", ';');
    CharOccurs("=", ';');
    hide Split, Contains;
    assert "x;=" == "x" + ";" + "=";
    SplitFirst("x", ";", "=");
    UnbrokenIsOnePart("=", ";");
  }

  lemma BareX(lower: Lowercase)
    ensures Parse(lower, "x") == Some(Entry("x", ""))
  {
    assert Plain("x") && Trimmed("x", IsJsSpace);
    hide Parse;
    ParseBare(lower, 0, "x");
    assert Gap(0) + "x" == "x";
    hide Lowers;
  }

  lemma BareSign(lower: Lowercase)
    ensures Parse(lower, "=") == Some(Entry("=", ""))
  {
    EmptyKey(lower);
    hide Parse, Lowers;
    ParseSignFirst(lower, "");
    assert "=" + "" == "=" && Gap(0) + "=" == "=";
  }

  lemma LoneSign(lower: Lowercase)
    ensures Entries(lower, "x;=") == [Entry("x", ""), Entry("=", "")]
  {
    LoneSignSplit();
    BareX(lower);
    BareSign(lower);
    hide Parse, Split, Lowers;
    var parts := ["x", "="];
    assert parts == ["x"] + ["="];
    ParseAllFront(lower, "x", ["="]);
    assert ["="] == ["="] + [];
    ParseAllFront(lower, "=", []);
  }

  lemma LoneSignTable(lower: Lowercase)
    ensures var t := [Entry("x", ""), Entry("=", "")];
            Table(t) == t && !ReadableAfterOne(lower, t)
  {
    var t := [Entry("x", ""), Entry("=", "")];
    TableOfUnique(t);
    assert Late(1, t[1]);
    assert LastLate(t) == 1;
    assert Item(t[1])[1..] == "";
    TrimOfTrimmed("", IsJsSpace);
  }

  /** On a bare parameter followed by a lone "=" the third merge still changes the text. */
  lemma TwoMergesAreNotEnough(lower: Lowercase)
    ensures var twice := Merged(lower, Merged(lower, "x;=", OPUS_PARAMS), OPUS_PARAMS);
            Merged(lower, twice, OPUS_PARAMS) != twice
  {
    OpusEntries(lower);
    OpusIsSomething();
    LoneSign(lower);
    LoneSignTable(lower);
    hide OPUS, OPUS_PARAMS, Entries, Merged, Table, ReadableAfterOne, Lowers, AllNamed;
    TwoMergesSufficeExactly(lower, "x;=", OPUS_PARAMS);
  }
}
