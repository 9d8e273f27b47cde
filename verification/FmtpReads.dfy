/**
 What the parameters of a text are (web/ui.go:3214-3230), said without the program's scanning: a name
 and a value around the first equals sign, or a bare word, blanks around either of no account.
 */
module FmtpReads {
  import opened Wrappers
  import opened Text
  import opened Fmtp
  import opened FmtpPasses

  /** `core` with white space around it, and none at its ends. */
  ghost predicate Surrounds(s: string, core: string) {
    Trimmed(core, IsJsSpace) &&
    exists left, right ::
      && s == left + core + right
      && (forall i :: 0 <= i < |left| ==> IsJsSpace(left[i])) && (forall i :: 0 <= i < |right| ==> IsJsSpace(right[i]))
  }

  lemma TrimExactly(s: string, core: string)
    ensures TrimJs(s) == core <==> Surrounds(s, core)
  {
    hide IsJsSpace;
    TrimIsTrimmed(s, IsJsSpace);
    TrimCuts(s, IsJsSpace);
    hide Trim;
    forall left: string, right: string |
      && s == left + core + right && Trimmed(core, IsJsSpace)
      && (forall i :: 0 <= i < |left| ==> IsJsSpace(left[i])) && (forall i :: 0 <= i < |right| ==> IsJsSpace(right[i]))
      ensures TrimJs(s) == core
    {
      TrimSurrounded(left, core, right, IsJsSpace);
    }
  }

  /** A name, an equals sign and a value. */
  ghost predicate ReadsPair(lower: Lowercase, text: string, e: Entry) {
    exists name, value, key, v ::
      && text == name + "=" + value && name != "" && '=' !in name
      && Surrounds(name, key) && Surrounds(value, v) && e == Entry(lower(key), v)
  }

  /** A bare word, or one that starts with the sign. */
  ghost predicate ReadsWord(lower: Lowercase, text: string, e: Entry) {
    ('=' in text ==> text[0] == '=') &&
    exists word :: word != "" && Surrounds(text, word) && e == Entry(lower(word), "")
  }

  lemma WordExactly(lower: Lowercase, text: string, e: Entry)
    requires '=' in text ==> text[0] == '='
    ensures Parse(lower, text) == Some(e) <==> ReadsWord(lower, text, e)
  {
    FindChar(text, '=');
    TrimExactly(text, TrimJs(text));
    hide Trim, Find, Lowers, Surrounds;
    forall word | Surrounds(text, word) ensures word == TrimJs(text) {
      TrimExactly(text, word);
    }
  }

  lemma PairExactly(lower: Lowercase, name: string, value: string, e: Entry)
    requires name != "" && '=' !in name
    ensures Parse(lower, name + "=" + value) == Some(e) <==>
            exists key, v :: Surrounds(name, key) && Surrounds(value, v) && e == Entry(lower(key), v)
  {
    ParseSigned(lower, name, value);
    TrimExactly(name, TrimJs(name));
    TrimExactly(value, TrimJs(value));
    hide Parse, Trim, Lowers, Surrounds;
    forall key | Surrounds(name, key) ensures key == TrimJs(name) {
      TrimExactly(name, key);
    }
    forall v | Surrounds(value, v) ensures v == TrimJs(value) {
      TrimExactly(value, v);
    }
  }

  lemma FirstSign(text: string) returns (name: string, value: string)
    requires '=' in text && text[0] != '='
    ensures text == name + "=" + value && name != "" && '=' !in name
  {
    FindChar(text, '=');
    hide Find;
    var i := Find(text, "=", 0);
    name, value := text[..i], text[i + 1..];
    assert text == text[..i] + [text[i]] + text[i + 1..];
  }

  lemma OneSign(a: string, x: string, b: string, y: string)
    requires a + "=" + x == b + "=" + y && '=' !in a && '=' !in b
    ensures a == b && x == y
  {
    var s := a + "=" + x;
    assert s[|a|] == '=' && s[|b|] == '=';
    assert forall i :: 0 <= i < |a| ==> s[i] == a[i];
    assert forall i :: 0 <= i < |b| ==> s[i] == b[i];
    assert |a| == |b|;
    assert a == s[..|a|] == b && x == s[|a| + 1..] == y;
  }

  /** What one piece of a text is read as: nothing exactly when it is neither. */
  lemma ReadsExactly(lower: Lowercase, text: string, e: Entry)
    ensures Parse(lower, text) == Some(e) <==> ReadsPair(lower, text, e) || ReadsWord(lower, text, e)
  {
    hide Parse, Surrounds, Lowers;
    if '=' in text && text[0] != '=' {
      var name, value := FirstSign(text);
      PairExactly(lower, name, value, e);
      forall n, v | text == n + "=" + v && '=' !in n ensures n == name && v == value {
        OneSign(n, v, name, value);
      }
    } else {
      WordExactly(lower, text, e);
      forall n, v | text == n + "=" + v && n != "" ensures '=' in n {
        if '=' !in n {
          SignIsInside(n, v);
        }
      }
    }
  }

  lemma SignIsInside(name: string, value: string)
    requires name != "" && '=' !in name
    ensures var text := name + "=" + value; '=' in text && text[0] != '='
  {
    var text := name + "=" + value;
    assert text[|name|] == '=' && text[0] == name[0];
  }

  /** The parameters of a text are those of its pieces between semicolons, one after another. */
  lemma EntriesExactly(lower: Lowercase, a: string, b: string)
    requires ';' !in a
    ensures Entries(lower, a) == Listed(Parse(lower, a))
    ensures Entries(lower, a + ";" + b) == Listed(Parse(lower, a)) + Entries(lower, b)
  {
    CharOccurs(a, ';');
    SplitPieces(a, b);
    hide Split, Contains, Parse, Lowers, ParseAll;
    ParseAllFront(lower, a, Split(b, ";"));
    ParseAllFront(lower, a, []);
    assert [a] + [] == [a];
    NothingToParse(lower);
  }

  lemma NothingToParse(lower: Lowercase)
    ensures ParseAll(lower, []) == []
  {
  }

  lemma SplitPieces(a: string, b: string)
    requires !Contains(a, ";")
    ensures Split(a, ";") == [a] && Split(a + ";" + b, ";") == [a] + Split(b, ";")
  {
    hide Split, Contains;
    UnbrokenIsOnePart(a, ";");
    SplitFirst(a, ";", b);
  }

  /**
   The merged text: an ordered table in which every key stands once, where it was first seen, with the
   value it was last given, the existing parameters before the desired ones; a parameter with a value is
   written with an equals sign, one without as its name; and between them stand a semicolon and a blank.
   */
  lemma MergesExactly(lower: Lowercase, existing: string, desired: string)
    ensures exists table ::
              && FirstSeenLastWins(table, Entries(lower, existing) + Entries(lower, desired)) && UniqueKeys(table)
              && Merged(lower, existing, desired) == Join(Written(table), "; ")
  {
    var all := Entries(lower, existing) + Entries(lower, desired);
    var table := Table(all);
    TableIsFirstSeenLastWins(all);
    hide Entries, Table, Lowers, FirstSeenLastWins, UniqueKeys;
    WrittenIsItems(table);
  }

  lemma WrittenIsItems(table: seq<Entry>)
    ensures Items(table) == Written(table)
  {
    forall i | 0 <= i < |table| ensures Items(table)[i] == Written(table)[i] {
      var e := table[i];
      assert e.key + "" == e.key;
      assert e.key + ("=" + e.value) == e.key + "=" + e.value;
    }
  }

  function Written(table: seq<Entry>): (r: seq<string>)
    ensures |r| == |table|
    ensures forall i :: 0 <= i < |r| ==>
                          r[i] == table[i].key + if table[i].value == "" then "" else "=" + table[i].value
  {
    seq(|table|, i requires 0 <= i < |table| =>
      table[i].key + if table[i].value == "" then "" else "=" + table[i].value)
  }
}
