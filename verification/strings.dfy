/** The few Python `str` operations the framework relies on, as functions on
    `seq<char>` with contracts that pin down what each one returns. */
module Strings {
  import opened Outcomes

  predicate StartsWith(s: string, prefix: string) {
    |prefix| <= |s| && s[..|prefix|] == prefix
  }

  /** `pat` occurs in `s` starting at index `i`. */
  predicate OccursAt(s: string, pat: string, i: int) {
    0 <= i && i + |pat| <= |s| && s[i..i + |pat|] == pat
  }

  /** `str.find` from index `from`: the first occurrence at or after `from`. */
  function FindFrom(s: string, pat: string, from: nat): (r: Option<nat>)
    requires from <= |s|
    ensures r.Some? ==> from <= r.value && OccursAt(s, pat, r.value)
    ensures r.Some? ==> forall j :: from <= j < r.value ==> !OccursAt(s, pat, j)
    ensures r.None? ==> forall j :: from <= j <= |s| ==> !OccursAt(s, pat, j)
    decreases |s| - from
  {
    if OccursAt(s, pat, from) then Some(from)
    else if from == |s| then None
    else FindFrom(s, pat, from + 1)
  }

  /** `str.find`: the index of the first occurrence of `pat`, if any. */
  function Find(s: string, pat: string): (r: Option<nat>)
    ensures r.Some? ==> OccursAt(s, pat, r.value)
    ensures r.Some? ==> forall j :: 0 <= j < r.value ==> !OccursAt(s, pat, j)
    ensures r.None? <==> forall j :: 0 <= j <= |s| ==> !OccursAt(s, pat, j)
  {
    FindFrom(s, pat, 0)
  }

  /** `s.replace(old, new, 1)`: without an occurrence the text is unchanged;
      otherwise the leftmost occurrence, and only it, is replaced. */
  function ReplaceFirst(s: string, pat: string, with: string): (r: string)
    ensures (forall j :: 0 <= j <= |s| ==> !OccursAt(s, pat, j)) ==> r == s
    ensures forall i :: OccursAt(s, pat, i) && (forall j :: 0 <= j < i ==> !OccursAt(s, pat, j)) ==>
              r == s[..i] + with + s[i + |pat|..]
  {
    match Find(s, pat)
    case None => s
    case Some(i) => s[..i] + with + s[i + |pat|..]
  }

  /** `s.lstrip(chars)`: drops the longest prefix made of characters in `chars`. */
  function StripLeft(s: string, chars: set<char>): string
    decreases |s|
  {
    if |s| > 0 && s[0] in chars then StripLeft(s[1..], chars) else s
  }

  /** What `lstrip` leaves is a suffix, what it drops is all in `chars`, and
      what it keeps does not start with one of them. */
  lemma {:induction false} StripLeftShape(s: string, chars: set<char>)
    ensures var r := StripLeft(s, chars);
            && |r| <= |s| && r == s[|s| - |r|..]
            && (forall k :: 0 <= k < |s| - |r| ==> s[k] in chars)
            && (|r| > 0 ==> r[0] !in chars)
    decreases |s|
  {
    if |s| > 0 && s[0] in chars {
      StripLeftShape(s[1..], chars);
      var r := StripLeft(s, chars);
      assert s[1..][|s[1..]| - |r|..] == s[|s| - |r|..];
      forall k | 1 <= k < |s| - |r|
        ensures s[k] in chars
      {
        assert s[k] == s[1..][k - 1];
      }
    }
  }

  /** `s.rstrip(chars)`: drops the longest suffix made of characters in `chars`. */
  function StripRight(s: string, chars: set<char>): string
    decreases |s|
  {
    if |s| > 0 && s[|s| - 1] in chars then StripRight(s[..|s| - 1], chars) else s
  }

  /** What `rstrip` leaves is a prefix, what it drops is all in `chars`, and
      what it keeps does not end with one of them. */
  lemma {:induction false} StripRightShape(s: string, chars: set<char>)
    ensures var r := StripRight(s, chars);
            && |r| <= |s| && r == s[..|r|]
            && (forall k :: |r| <= k < |s| ==> s[k] in chars)
            && (|r| > 0 ==> r[|r| - 1] !in chars)
    decreases |s|
  {
    if |s| > 0 && s[|s| - 1] in chars {
      StripRightShape(s[..|s| - 1], chars);
      var r := StripRight(s, chars);
      assert s[..|s| - 1][..|r|] == s[..|r|];
      forall k | |r| <= k < |s| - 1
        ensures s[k] in chars
      {
        assert s[k] == s[..|s| - 1][k];
      }
    }
  }

  lemma StripLeftDrops(c: char, s: string, chars: set<char>)
    requires c in chars
    ensures StripLeft([c] + s, chars) == StripLeft(s, chars)
  {
    assert ([c] + s)[1..] == s;
  }

  lemma StripRightDrops(s: string, c: char, chars: set<char>)
    requires c in chars
    ensures StripRight(s + [c], chars) == StripRight(s, chars)
  {
    assert (s + [c])[..|s|] == s;
  }

  lemma StripLeftKeeps(s: string, chars: set<char>)
    requires |s| > 0 && s[0] !in chars
    ensures StripLeft(s, chars) == s
  {
  }

  lemma StripRightKeeps(s: string, chars: set<char>)
    requires |s| > 0 && s[|s| - 1] !in chars
    ensures StripRight(s, chars) == s
  {
  }

  /** `s.strip(chars)`. */
  function Strip(s: string, chars: set<char>): string {
    StripRight(StripLeft(s, chars), chars)
  }

  /** Index of the first `c` in `s`, if any. */
  function FindChar(s: string, c: char): (r: Option<nat>)
    ensures r.Some? ==> r.value < |s| && s[r.value] == c && c !in s[..r.value]
    ensures r.None? ==> c !in s
  {
    if |s| == 0 then None
    else if s[0] == c then Some(0)
    else match FindChar(s[1..], c)
      case None => None
      case Some(i) => assert s[1..][..i] == s[1..i + 1]; Some(i + 1)
  }

  /** The first occurrence is found. */
  lemma {:induction false} FindCharIs(s: string, c: char, i: nat)
    requires i < |s| && s[i] == c && c !in s[..i]
    ensures FindChar(s, c) == Some(i)
    decreases i
  {
    if i > 0 {
      assert s[0] == s[..i][0];
      assert s[1..][..i - 1] == s[1..i];
      assert s[1..i] == s[..i][1..];
      FindCharIs(s[1..], c, i - 1);
    }
  }

  /** `sep.join(parts)`. */
  function Join(parts: seq<string>, sep: char): string
  {
    if |parts| == 0 then ""
    else if |parts| == 1 then parts[0]
    else parts[0] + [sep] + Join(parts[1..], sep)
  }

  /** `s.split(sep)` for a one-character separator: never empty, no piece
      contains the separator, and joining the pieces gives `s` back. */
  function Split(s: string, sep: char): (r: seq<string>)
    ensures |r| >= 1
    ensures forall k :: 0 <= k < |r| ==> sep !in r[k]
    ensures Join(r, sep) == s
    decreases |s|
  {
    match FindChar(s, sep)
    case None => [s]
    case Some(i) =>
      var rest := Split(s[i + 1..], sep);
      assert s == s[..i] + [sep] + s[i + 1..];
      [s[..i]] + rest
  }

  /** Splitting undoes joining when no part holds the separator. */
  lemma {:induction false} SplitJoin(parts: seq<string>, sep: char)
    requires |parts| >= 1
    requires forall k :: 0 <= k < |parts| ==> sep !in parts[k]
    ensures Split(Join(parts, sep), sep) == parts
    decreases |parts|
  {
    if |parts| == 1 {
      assert FindChar(parts[0], sep).None?;
    } else {
      var s := Join(parts, sep);
      assert s == parts[0] + [sep] + Join(parts[1..], sep);
      var i := |parts[0]|;
      assert s[i] == sep;
      assert s[..i] == parts[0];
      assert FindChar(s, sep) == Some(i);
      assert s[i + 1..] == Join(parts[1..], sep);
      SplitJoin(parts[1..], sep);
    }
  }
}
