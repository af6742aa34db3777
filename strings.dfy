/** The handful of Go `strings` operations the mapping code relies on, over
    `seq<char>`: splitting on a separator, trimming a cut set, and deleting
    every occurrence of a character. */
module Strings {

  predicate IsDigit(c: char) { '0' <= c <= '9' }

  predicate IsAlnum(c: char) { 'a' <= c <= 'z' || 'A' <= c <= 'Z' || IsDigit(c) }

  /** `n` spaces. */
  function Spaces(n: nat): (s: string)
    ensures |s| == n && forall i :: 0 <= i < n ==> s[i] == ' '
  {
    if n == 0 then [] else [' '] + Spaces(n - 1)
  }

  /** `strings.Split(s, string(sep))`: the pieces between separators. There is
      always at least one piece, even for the empty string. */
  function Split(s: string, sep: char): (r: seq<string>)
    ensures |r| >= 1
    ensures forall i :: 0 <= i < |r| ==> sep !in r[i]
    ensures |r| == 1 <==> sep !in s
  {
    if s == [] then [[]]
    else
      var rest := Split(s[1..], sep);
      if s[0] == sep then [[]] + rest
      else [[s[0]] + rest[0]] + rest[1..]
  }

  /** `strings.Join(parts, string(sep))`. */
  function Join(parts: seq<string>, sep: char): string
    requires |parts| >= 1
  {
    if |parts| == 1 then parts[0] else parts[0] + [sep] + Join(parts[1..], sep)
  }

  /** Splitting loses nothing: joining the pieces back gives the input. */
  lemma {:induction false} JoinSplit(s: string, sep: char)
    ensures Join(Split(s, sep), sep) == s
  {
    if s != [] {
      var rest := Split(s[1..], sep);
      JoinSplit(s[1..], sep);
      if s[0] != sep {
        if |rest| == 1 {
          assert Split(s, sep) == [[s[0]] + rest[0]];
        } else {
          assert Split(s, sep)[1..] == rest[1..];
        }
      }
    }
  }

  /** The first piece is the text before the first separator. */
  lemma {:induction false} SplitFirst(s: string, sep: char, i: nat)
    requires i <= |s| && sep !in s[..i] && (i == |s| || s[i] == sep)
    ensures Split(s, sep)[0] == s[..i]
    ensures i < |s| ==> |Split(s, sep)| >= 2 && Split(s, sep)[1..] == Split(s[i + 1..], sep)
  {
    if i > 0 {
      assert s[1..][..i - 1] == s[1..i];
      SplitFirst(s[1..], sep, i - 1);
      if i < |s| {
        assert s[1..][i..] == s[i + 1..];
      }
    }
  }

  /** `strings.TrimLeft(s, cutset)`: drops leading characters of the cut set. */
  function TrimLeft(s: string, cutset: set<char>): (r: string)
    ensures |r| <= |s| && r == s[|s| - |r|..]
    ensures r == [] || r[0] !in cutset
    ensures forall i :: 0 <= i < |s| - |r| ==> s[i] in cutset
  {
    if s != [] && s[0] in cutset then TrimLeft(s[1..], cutset) else s
  }

  /** `strings.TrimRight(s, cutset)`: drops trailing characters of the cut set. */
  function TrimRight(s: string, cutset: set<char>): (r: string)
    ensures |r| <= |s| && r == s[..|r|]
    ensures r == [] || r[|r| - 1] !in cutset
    ensures forall i :: |r| <= i < |s| ==> s[i] in cutset
  {
    if s != [] && s[|s| - 1] in cutset then TrimRight(s[..|s| - 1], cutset) else s
  }

  /** `strings.Trim(s, cutset)`. */
  function Trim(s: string, cutset: set<char>): string
  {
    TrimLeft(TrimRight(s, cutset), cutset)
  }

  /** Characters outside the cut set are never trimmed: text that neither
      starts nor ends with one of them comes back unchanged. */
  lemma TrimKeepsInner(s: string, cutset: set<char>)
    requires s == [] || (s[0] !in cutset && s[|s| - 1] !in cutset)
    ensures Trim(s, cutset) == s
  {
  }

  /** Trimming the padding put around a text that has none gives the text back. */
  lemma {:induction false} TrimPadding(pre: string, t: string, post: string, cutset: set<char>)
    requires forall i :: 0 <= i < |pre| ==> pre[i] in cutset
    requires forall i :: 0 <= i < |post| ==> post[i] in cutset
    requires t != [] && t[0] !in cutset && t[|t| - 1] !in cutset
    ensures Trim(pre + t + post, cutset) == t
  {
    var r := TrimRight(pre + t + post, cutset);
    assert (pre + t + post)[|pre| + |t| - 1] == t[|t| - 1];
    assert r == pre + t;
    assert r[|pre|] == t[0];
  }

  /** `strings.ReplaceAll(s, string(c), "")`. */
  function RemoveAll(s: string, c: char): (r: string)
    ensures c !in r
    ensures |r| <= |s|
    ensures forall i :: 0 <= i < |r| ==> r[i] in s
  {
    if s == [] then []
    else if s[0] == c then RemoveAll(s[1..], c)
    else [s[0]] + RemoveAll(s[1..], c)
  }

  /** Removing a character a text does not contain changes nothing. */
  lemma {:induction false} RemoveAllAbsent(s: string, c: char)
    requires c !in s
    ensures RemoveAll(s, c) == s
  {
    if s != [] {
      RemoveAllAbsent(s[1..], c);
    }
  }

  /** Removal distributes over concatenation. */
  lemma {:induction false} RemoveAllConcat(a: string, b: string, c: char)
    ensures RemoveAll(a + b, c) == RemoveAll(a, c) + RemoveAll(b, c)
  {
    if a == [] {
      assert a + b == b;
    } else {
      assert (a + b)[1..] == a[1..] + b;
      RemoveAllConcat(a[1..], b, c);
    }
  }
}
