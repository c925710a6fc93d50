/** Trimming of texts. */
module Trimming {

  /** White space and line terminators as trimming knows them; the byte order mark is one. */
  predicate IsSpace(c: char) {
    || c in "\t\n\r \U{000B}\U{000C}\U{00A0}\U{1680}\U{2028}\U{2029}\U{202F}\U{205F}\U{3000}\U{FEFF}"
    || '\U{2000}' <= c <= '\U{200A}'
  }

  function TrimStart(s: string): string {
    if s != "" && IsSpace(s[0]) then TrimStart(s[1..]) else s
  }

  function TrimEnd(s: string): string {
    if s != "" && IsSpace(s[|s| - 1]) then TrimEnd(s[..|s| - 1]) else s
  }

  function Trim(s: string): string {
    TrimEnd(TrimStart(s))
  }

  /** Text without white space at either end. */
  predicate IsTrimmed(s: string) {
    s == "" || (!IsSpace(s[0]) && !IsSpace(s[|s| - 1]))
  }

  lemma TrimmedIsFixed(s: string)
    requires IsTrimmed(s)
    ensures Trim(s) == s
  {
  }

  ghost predicate AllSpace(s: string) {
    forall c | c in s :: IsSpace(c)
  }

  lemma {:induction false} StartCut(s: string) returns (i: nat)
    ensures i <= |s| && TrimStart(s) == s[i..] && AllSpace(s[..i]) && (i < |s| ==> !IsSpace(s[i]))
  {
    if s != "" && IsSpace(s[0]) {
      var k := StartCut(s[1..]);
      i := k + 1;
      assert s[1..][..k] == s[1..i] && s[..i] == [s[0]] + s[1..i];
    } else {
      i := 0;
    }
  }

  lemma {:induction false} EndCut(s: string) returns (i: nat)
    ensures i <= |s| && TrimEnd(s) == s[..i] && AllSpace(s[i..]) && (0 < i ==> !IsSpace(s[i - 1]))
  {
    hide IsSpace;
    if s != "" && IsSpace(s[|s| - 1]) {
      var before := s[..|s| - 1];
      i := EndCut(before);
      assert before[..i] == s[..i] && s[i..] == before[i..] + [s[|s| - 1]];
    } else {
      i := |s|;
    }
  }

  /** Trimming takes away white space at the ends, all of it, and nothing else. */
  lemma TrimCuts(s: string) returns (i: nat, j: nat)
    ensures i <= j <= |s| && Trim(s) == s[i..j] && AllSpace(s[..i]) && AllSpace(s[j..])
    ensures IsTrimmed(Trim(s))
  {
    i := StartCut(s);
    var rest := TrimStart(s);
    var k := EndCut(rest);
    j := i + k;
    assert rest[..k] == s[i..j] && rest[k..] == s[j..];
    if 0 < k {
      assert rest[0] == s[i];
    }
  }
}
