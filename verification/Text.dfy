/** Splitting, joining and trimming of text, as the Go and JavaScript libraries do it. */
module Text {
  predicate OccursAt(s: string, sep: string, i: nat) {
    i + |sep| <= |s| && s[i..i + |sep|] == sep
  }

  predicate Contains(s: string, sep: string) {
    exists i: nat :: i <= |s| && OccursAt(s, sep, i)
  }

  /** Index of the first occurrence at or after `from`; the length of `s` when there is none. */
  function Find(s: string, sep: string, from: nat): (r: nat)
    requires sep != "" && from <= |s|
    ensures from <= r <= |s|
    ensures r < |s| ==> OccursAt(s, sep, r)
    ensures forall i: nat :: from <= i < r ==> !OccursAt(s, sep, i)
    decreases |s| - from
  {
    if from == |s| || OccursAt(s, sep, from) then from else Find(s, sep, from + 1)
  }

  lemma FindContains(s: string, sep: string)
    requires sep != ""
    ensures Find(s, sep, 0) < |s| <==> Contains(s, sep)
  {
  }

  function Split(s: string, sep: string): (r: seq<string>)
    requires sep != ""
    ensures |r| >= 1
    decreases |s|
  {
    var i := Find(s, sep, 0);
    if i == |s| then [s] else [s[..i]] + Split(s[i + |sep|..], sep)
  }

  function Join(parts: seq<string>, sep: string): string {
    if |parts| == 0 then ""
    else if |parts| == 1 then parts[0]
    else parts[0] + sep + Join(parts[1..], sep)
  }

  /** Joining undoes splitting. */
  lemma {:induction false} JoinOfSplit(s: string, sep: string)
    requires sep != ""
    ensures Join(Split(s, sep), sep) == s
    decreases |s|
  {
    var i := Find(s, sep, 0);
    if i == |s| {
    } else {
      var rest := s[i + |sep|..];
      JoinOfSplit(rest, sep);
      JoinCons(s[..i], Split(rest, sep), sep);
      ThreeParts(s, i, sep);
    }
  }

  lemma ThreeParts(s: string, i: nat, sep: string)
    requires OccursAt(s, sep, i)
    ensures s[..i] + sep + s[i + |sep|..] == s
  {
  }

  lemma JoinCons(first: string, parts: seq<string>, sep: string)
    requires |parts| >= 1
    ensures Join([first] + parts, sep) == first + sep + Join(parts, sep)
  {
    assert ([first] + parts)[1..] == parts;
  }

  lemma OccursInPrefix(s: string, n: nat, sep: string, k: nat)
    requires n <= |s| && k + |sep| <= n
    ensures OccursAt(s[..n], sep, k) <==> OccursAt(s, sep, k)
  {
    assert s[..n][k..k + |sep|] == s[k..k + |sep|];
  }

  /** No part of a split contains the separator. */
  lemma {:induction false} SplitPartsAreFree(s: string, sep: string)
    requires sep != ""
    ensures forall part :: part in Split(s, sep) ==> !Contains(part, sep)
    decreases |s|
  {
    var i := Find(s, sep, 0);
    if i == |s| {
      FindContains(s, sep);
    } else {
      forall k: nat | k + |sep| <= i ensures !OccursAt(s[..i], sep, k) {
        OccursInPrefix(s, i, sep, k);
      }
      SplitPartsAreFree(s[i + |sep|..], sep);
    }
  }

  /** No proper prefix of the separator is also its suffix. */
  ghost predicate Borderless(sep: string) {
    forall k :: 0 < k < |sep| ==> sep[..k] != sep[|sep| - k..]
  }

  lemma FirstBreak(part: string, sep: string, rest: string)
    requires sep != "" && Borderless(sep) && !Contains(part, sep)
    ensures Find(part + sep + rest, sep, 0) == |part|
  {
    var s := part + sep + rest;
    assert OccursAt(s, sep, |part|);
    assert s[..|part|] == part;
    forall i: nat | i < |part| ensures !OccursAt(s, sep, i) {
      if i + |sep| <= |part| {
        OccursInPrefix(s, |part|, sep, i);
      } else {
        Straddling(part, sep, rest, i);
      }
    }
  }

  /** An occurrence across the boundary before a separator would give the separator a border. */
  lemma Straddling(part: string, sep: string, rest: string, i: nat)
    requires i < |part| < i + |sep|
    ensures var k := i + |sep| - |part|;
            OccursAt(part + sep + rest, sep, i) ==> sep[..k] == sep[|sep| - k..]
  {
    var s := part + sep + rest;
    var k := i + |sep| - |part|;
    assert s[i..i + |sep|][|sep| - k..] == s[|part|..|part| + k] == sep[..k];
  }

  /** Splitting undoes joining, for parts free of a borderless separator. */
  lemma {:induction false} SplitOfJoin(parts: seq<string>, sep: string)
    requires sep != "" && Borderless(sep) && |parts| >= 1
    requires forall part :: part in parts ==> !Contains(part, sep)
    ensures Split(Join(parts, sep), sep) == parts
    decreases |parts|
  {
    if |parts| == 1 {
      UnbrokenIsOnePart(parts[0], sep);
    } else {
      SplitFirst(parts[0], sep, Join(parts[1..], sep));
      hide Borderless, Contains, Split;
      SplitOfJoin(parts[1..], sep);
      assert [parts[0]] + parts[1..] == parts;
    }
  }

  lemma UnbrokenIsOnePart(s: string, sep: string)
    requires sep != "" && !Contains(s, sep)
    ensures Split(s, sep) == [s]
  {
    FindContains(s, sep);
  }

  lemma SplitFirst(part: string, sep: string, rest: string)
    requires sep != "" && Borderless(sep) && !Contains(part, sep)
    ensures Split(part + sep + rest, sep) == [part] + Split(rest, sep)
  {
    FirstBreak(part, sep, rest);
    hide Find, Borderless, Contains;
    var s := part + sep + rest;
    assert s[..|part|] == part && s[|part| + |sep|..] == rest;
  }

  // ---- Trimming ----

  function TrimLeft(s: string, space: char -> bool): (r: string)
    ensures |r| <= |s| && (r != "" ==> !space(r[0]))
    ensures r == s[|s| - |r|..] && forall i :: 0 <= i < |s| - |r| ==> space(s[i])
  {
    if s != "" && space(s[0]) then TrimLeft(s[1..], space) else s
  }

  function TrimRight(s: string, space: char -> bool): (r: string)
    ensures |r| <= |s| && (r != "" ==> !space(r[|r| - 1]))
    ensures r == s[..|r|] && forall i :: |r| <= i < |s| ==> space(s[i])
  {
    if s != "" && space(s[|s| - 1]) then TrimRight(s[..|s| - 1], space) else s
  }

  function Trim(s: string, space: char -> bool): string {
    TrimRight(TrimLeft(s, space), space)
  }

  /** Neither end is a space. */
  predicate Trimmed(s: string, space: char -> bool) {
    s != "" ==> !space(s[0]) && !space(s[|s| - 1])
  }

  lemma TrimIsTrimmed(s: string, space: char -> bool)
    ensures Trimmed(Trim(s, space), space)
  {
    var l := TrimLeft(s, space);
    var r := TrimRight(l, space);
    if r != "" {
      assert r[0] == l[0];
    }
  }

  lemma TrimOfTrimmed(s: string, space: char -> bool)
    requires Trimmed(s, space)
    ensures Trim(s, space) == s
  {
  }

  /** The white space of Go's `unicode.IsSpace`. */
  predicate IsSpace(c: char) {
    || '\t' <= c <= '\r' || c == ' ' || c == '\U{85}' || c == '\U{a0}' || c == '\U{1680}'
    || '\U{2000}' <= c <= '\U{200a}' || '\U{2028}' <= c <= '\U{2029}'
    || c == '\U{202f}' || c == '\U{205f}' || c == '\U{3000}'
  }

  /** By code point. */
  lemma SpacesExactly(c: char)
    ensures IsSpace(c) <==>
            c as int in {
              9, 10, 11, 12, 13, 32, 133, 160, 5760, 8192, 8193, 8194, 8195, 8196, 8197, 8198, 8199, 8200, 8201, 8202,
              8232, 8233, 8239, 8287, 12288}
  {
  }

  lemma TrimSurrounded(left: string, core: string, right: string, space: char -> bool)
    requires forall i :: 0 <= i < |left| ==> space(left[i])
    requires forall i :: 0 <= i < |right| ==> space(right[i])
    requires Trimmed(core, space)
    ensures Trim(left + core + right, space) == core
  {
    hide TrimLeft, TrimRight;
    Grouped(left, core, right);
    TrimLeftSpaces(left, core + right, space);
    if core == "" {
      OnlySpaces(right, space);
      assert core + right == right;
    } else {
      assert (core + right)[0] == core[0];
      TrimLeftStops(core + right, space);
      TrimRightSpaces(core, right, space);
    }
  }

  lemma Grouped(a: string, b: string, c: string)
    ensures a + b + c == a + (b + c)
  {
  }

  lemma OnlySpaces(s: string, space: char -> bool)
    requires forall i :: 0 <= i < |s| ==> space(s[i])
    ensures Trim(s, space) == ""
  {
    TrimLeftSpaces(s, "", space);
    assert s + "" == s;
  }

  lemma TrimLeftStops(s: string, space: char -> bool)
    requires s != "" && !space(s[0])
    ensures TrimLeft(s, space) == s
  {
  }

  lemma {:induction false} TrimLeftSpaces(left: string, rest: string, space: char -> bool)
    requires forall i :: 0 <= i < |left| ==> space(left[i])
    ensures TrimLeft(left + rest, space) == TrimLeft(rest, space)
  {
    if left == "" {
      assert left + rest == rest;
    } else {
      assert (left + rest)[1..] == left[1..] + rest;
      TrimLeftSpaces(left[1..], rest, space);
    }
  }

  lemma {:induction false} TrimRightSpaces(core: string, right: string, space: char -> bool)
    requires forall i :: 0 <= i < |right| ==> space(right[i])
    requires core != "" && !space(core[|core| - 1])
    ensures TrimRight(core + right, space) == core
    decreases |right|
  {
    if right == "" {
      assert core + right == core;
    } else {
      var s := core + right;
      assert s[..|s| - 1] == core + right[..|right| - 1];
      TrimRightSpaces(core, right[..|right| - 1], space);
    }
  }

  /** What a trim takes off. */
  lemma TrimCuts(s: string, space: char -> bool)
    ensures exists left, right ::
              && s == left + Trim(s, space) + right
              && (forall i :: 0 <= i < |left| ==> space(left[i])) && (forall i :: 0 <= i < |right| ==> space(right[i]))
  {
    var l := TrimLeft(s, space);
    var r := TrimRight(l, space);
    hide TrimLeft, TrimRight;
    var left, right := s[..|s| - |l|], l[|r|..];
    assert l == r + right;
    assert s == left + l;
    Grouped(left, r, right);
    assert s == left + Trim(s, space) + right;
  }

  predicate HasPrefix(s: string, prefix: string) {
    |prefix| <= |s| && s[..|prefix|] == prefix
  }

  function TrimPrefix(s: string, prefix: string): string {
    if HasPrefix(s, prefix) then s[|prefix|..] else s
  }
}
