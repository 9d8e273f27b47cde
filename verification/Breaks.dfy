/**
 Line breaks of session descriptions. Both the server's sanitizer (internal/signaling/candidate.go)
 and the client's codec tuning (web/ui.go) break a text at CRLF if it contains one, and at LF otherwise.
 */
module Breaks {
  import opened Text

  const LF := "\n"
  const CRLF := "\r\n"

  function Separator(sdp: string): (sep: string)
    ensures sep == LF || sep == CRLF
  {
    if Contains(sdp, CRLF) then CRLF else LF
  }

  lemma SeparatorsAreBorderless(sep: string)
    requires sep == LF || sep == CRLF
    ensures Borderless(sep)
  {
    if sep == CRLF {
      assert sep[..1] == "\r" && sep[1..] == "\n";
    }
  }

  lemma SplitEmpty(sep: string)
    requires sep != ""
    ensures Split("", sep) == [""]
  {
  }

  lemma TwoPartSplit(a: string, b: string, sep: string)
    requires sep != "" && Borderless(sep) && !Contains(a, sep) && !Contains(b, sep)
    ensures Split(a + sep + b, sep) == [a, b]
  {
    assert [a, b][1..] == [b];
    SplitOfJoin([a, b], sep);
  }

  predicate EndsInCR(line: string) {
    line != "" && line[|line| - 1] == '\r'
  }

  /** Only the last line may end in a carriage return. */
  ghost predicate NoInnerCR(lines: seq<string>) {
    forall k :: 0 <= k < |lines| - 1 ==> !EndsInCR(lines[k])
  }

  lemma SuffixOccurs(s: string, from: nat, sep: string, k: nat)
    requires from <= |s|
    ensures OccursAt(s[from..], sep, k) ==> OccursAt(s, sep, from + k)
  {
    if k + |sep| <= |s| - from {
      assert s[from..][k..k + |sep|] == s[from + k..from + k + |sep|];
    }
  }

  lemma TwoChars(s: string, i: nat)
    requires i + 1 < |s|
    ensures OccursAt(s, CRLF, i) <==> s[i] == '\r' && s[i + 1] == '\n'
  {
    assert s[i..i + 2] == [s[i], s[i + 1]];
    assert CRLF == ['\r', '\n'];
  }

  lemma {:induction false} SplitHasNoInnerCR(s: string)
    requires !Contains(s, CRLF)
    ensures NoInnerCR(Split(s, LF))
    decreases |s|
  {
    var i := Find(s, LF, 0);
    if i == |s| {
    } else {
      var rest := s[i + 1..];
      assert s[i] == '\n' by {
        assert s[i..i + |LF|] == LF;
        assert s[i..i + 1][0] == s[i];
      }
      forall k: nat | k <= |rest| ensures !OccursAt(rest, CRLF, k) {
        SuffixOccurs(s, i + 1, CRLF, k);
      }
      SplitHasNoInnerCR(rest);
      assert !EndsInCR(s[..i]) by {
        if i > 0 {
          var j: nat := i - 1;
          TwoChars(s, j);
          assert j <= |s| && s[..i][j] == s[j];
        }
      }
    }
  }

  lemma AppendHasNoCRLF(first: string, rest: string)
    requires !EndsInCR(first) && !Contains(rest, CRLF)
    requires forall i :: 0 <= i < |first| ==> first[i] != '\n'
    ensures !Contains(first + LF + rest, CRLF)
  {
    var s := first + LF + rest;
    var n := |first| + 1;
    assert s[n..] == rest && s[|first|] == '\n';
    forall i: nat | i + 1 < |s| ensures !OccursAt(s, CRLF, i) {
      TwoChars(s, i);
      if i >= n {
        TwoChars(rest, i - n);
        assert s[i] == rest[i - n] && s[i + 1] == rest[i + 1 - n];
        assert !OccursAt(rest, CRLF, i - n);
      }
    }
  }

  lemma {:induction false} JoinHasNoCRLF(parts: seq<string>)
    requires NoInnerCR(parts) && forall part :: part in parts ==> !Contains(part, LF)
    ensures !Contains(Join(parts, LF), CRLF)
  {
    if |parts| == 0 {
    } else {
      var first := parts[0];
      assert first in parts;
      forall i: nat | i < |first| ensures first[i] != '\n' {
        assert !OccursAt(first, LF, i);
        assert first[i..i + 1] == [first[i]] && LF == ['\n'];
      }
      if |parts| == 1 {
        forall i: nat | i + 1 < |first| ensures !OccursAt(first, CRLF, i) {
          TwoChars(first, i);
        }
      } else {
        forall k | 0 <= k < |parts[1..]| - 1 ensures !EndsInCR(parts[1..][k]) {
          assert parts[1..][k] == parts[k + 1];
        }
        JoinHasNoCRLF(parts[1..]);
        AppendHasNoCRLF(first, Join(parts[1..], LF));
      }
    }
  }

  predicate NoBreaks(s: string) {
    forall i :: 0 <= i < |s| ==> s[i] != '\r' && s[i] != '\n'
  }

  lemma NoCR(s: string)
    requires forall i :: 0 <= i < |s| ==> s[i] != '\r'
    ensures !Contains(s, CRLF)
  {
    forall i: nat | i + 1 < |s| ensures !OccursAt(s, CRLF, i) {
      TwoChars(s, i);
    }
  }

  lemma FreeOf(s: string)
    requires NoBreaks(s)
    ensures !Contains(s, LF) && !Contains(s, CRLF)
  {
    NoCR(s);
    forall i: nat | i < |s| ensures !OccursAt(s, LF, i) {
      assert s[i..i + 1] == [s[i]] && LF == ['\n'];
    }
  }

  lemma NoBreaksConcat(a: string, b: string)
    requires NoBreaks(a) && NoBreaks(b)
    ensures NoBreaks(a + b)
  {
  }
}
