/** The string functions of Go's standard library that the repository relies on. */
module Texts {

  /** Position of the first c, or the length. */
  function Find(s: string, c: char): (i: nat)
    ensures i <= |s| && c !in s[..i] && (i < |s| ==> s[i] == c)
  {
    if s == [] || s[0] == c then 0
    else
      var j := Find(s[1..], c);
      assert s[..j + 1] == [s[0]] + s[1..][..j];
      j + 1
  }

  /** strings.Split with a one-character separator. */
  function Split(s: string, c: char): (r: seq<string>)
    ensures r != [] && forall i :: 0 <= i < |r| ==> c !in r[i]
  {
    var i := Find(s, c);
    if i == |s| then
      assert s[..i] == s;
      [s]
    else [s[..i]] + Split(s[i + 1..], c)
  }

  /** strings.ReplaceAll(s, pat, ""). */
  function Erase(s: string, pat: string): (r: string)
    requires pat != ""
    ensures |r| <= |s|
    decreases |s|
  {
    if s == "" then "" else if pat <= s then Erase(s[|pat|..], pat) else [s[0]] + Erase(s[1..], pat)
  }

  function Joined(parts: seq<string>, c: char): string
    requires parts != []
  {
    if |parts| == 1 then parts[0] else parts[0] + [c] + Joined(parts[1..], c)
  }

  /** Joining what Split gives restores the text. With no c in the parts there is no other way to split. */
  lemma {:induction false} JoinedSplit(s: string, c: char)
    ensures Joined(Split(s, c), c) == s
    decreases |s|
  {
    var i := Find(s, c);
    if i < |s| {
      JoinedSplit(s[i + 1..], c);
      assert Split(s, c)[1..] == Split(s[i + 1..], c);
      assert s == s[..i] + [c] + s[i + 1..];
    }
  }

  lemma FindAt(k: string, c: char, rest: string)
    requires c !in k
    ensures Find(k + [c] + rest, c) == |k| && Find(k, c) == |k|
  {
    var s := k + [c] + rest;
    assert forall j :: 0 <= j < |k| ==> s[j] == k[j];
    assert s[|k|] == c;
  }

  /** No occurrence of the pattern. */
  ghost predicate Clear(s: string, pat: string) { forall i :: 0 <= i <= |s| ==> !(pat <= s[i..]) }

  lemma {:induction false} EraseClear(s: string, pat: string)
    requires pat != "" && Clear(s, pat)
    ensures Erase(s, pat) == s
    decreases |s|
  {
    if s != "" {
      assert s[0..] == s;
      assert forall i :: 0 <= i <= |s[1..]| ==> s[1..][i..] == s[i + 1..];
      EraseClear(s[1..], pat);
    }
  }

  /** A pattern in front of a text without it is taken off, and nothing else. */
  lemma EraseFront(pat: string, s: string)
    requires pat != "" && Clear(s, pat)
    ensures Erase(pat + s, pat) == s
  {
    assert (pat + s)[|pat|..] == s;
    EraseClear(s, pat);
  }
}
