/** The documentation helper `remove_markdown_paragraph` of apistar/utils.py.
    The Markdown renderer wraps a one-paragraph text as `<p>…</p>`; the helper
    drops the opening tag and then the first occurrence of a closing tag.
    As written, the closing tag it looks for is the four characters `<`, `\`,
    `p`, `>` (a backslash where HTML has a slash), so the real `</p>` stays.
    `RemoveMarkdownParagraph` models the code as written and
    `RemoveParagraphWrapper` the evident intent; the routes' documentation
    text goes through the former, as the source does. */
module Utils {
  import opened Outcomes
  import opened Strings

  const OpeningTag: string := "<p>"
  /** The closing tag as spelled in the source: backslash, not slash. */
  const MisspelledClosingTag: string := "<\\p>"
  const ClosingTag: string := "</p>"

  /** remove_markdown_paragraph as written. */
  function RemoveMarkdownParagraph(md: string): (r: string)
    ensures !StartsWith(md, OpeningTag) ==> r == md
    ensures StartsWith(md, OpeningTag) && Find(md[3..], MisspelledClosingTag).None? ==>
              r == md[3..]
    ensures StartsWith(md, OpeningTag) && Find(md[3..], MisspelledClosingTag).Some? ==>
              var i := 3 + Find(md[3..], MisspelledClosingTag).value;
              OccursAt(md, MisspelledClosingTag, i) && r == md[3..i] + md[i + 4..]
    ensures |r| == |md| || |r| == |md| - 3 || |r| == |md| - 7
  {
    if StartsWith(md, OpeningTag) then ReplaceFirst(md[|OpeningTag|..], MisspelledClosingTag, "")
    else md
  }

  /** The evidently intended helper: drop `<p>` and the first `</p>`. */
  function RemoveParagraphWrapper(md: string): (r: string)
    ensures !StartsWith(md, OpeningTag) ==> r == md
    ensures StartsWith(md, OpeningTag) && Find(md[3..], ClosingTag).None? ==> r == md[3..]
    ensures StartsWith(md, OpeningTag) && Find(md[3..], ClosingTag).Some? ==>
              var i := 3 + Find(md[3..], ClosingTag).value;
              OccursAt(md, ClosingTag, i) && r == md[3..i] + md[i + 4..]
    ensures |r| == |md| || |r| == |md| - 3 || |r| == |md| - 7
  {
    if StartsWith(md, OpeningTag) then ReplaceFirst(md[|OpeningTag|..], ClosingTag, "")
    else md
  }

  /** A four-character tag that starts with `<` and has no other `<` is first
      found right after a text that does not contain it: the tag cannot
      straddle the boundary. */
  lemma {:induction false} TagFoundAfter(a: string, tag: string, rest: string)
    requires |tag| == 4 && tag[0] == '<' && '<' !in tag[1..]
    requires Find(a, tag).None?
    ensures Find(a + tag + rest, tag) == Some(|a|)
  {
    var s := a + tag + rest;
    assert OccursAt(s, tag, |a|) by {
      assert s[|a|..|a| + 4] == tag;
    }
    forall j | 0 <= j < |a|
      ensures !OccursAt(s, tag, j)
    {
      if j + 4 <= |a| {
        assert s[j..j + 4] == a[j..j + 4];
        assert !OccursAt(a, tag, j);
      } else if j + 4 <= |s| {
        var k := |a| - j;
        assert s[j + k] == '<';
        assert tag[k] != '<' by { assert tag[k] == tag[1..][k - 1]; }
        assert s[j..j + 4][k] != tag[k];
      }
    }
  }

  /** The as-written helper unwraps a paragraph closed by the misspelled tag. */
  lemma MisspelledWrapperRemoved(a: string, rest: string)
    requires Find(a, MisspelledClosingTag).None?
    ensures RemoveMarkdownParagraph(OpeningTag + a + MisspelledClosingTag + rest) == a + rest
  {
    var md := OpeningTag + a + MisspelledClosingTag + rest;
    assert StartsWith(md, OpeningTag) by { assert md[..3] == OpeningTag; }
    assert md[3..] == a + MisspelledClosingTag + rest;
    TagFoundAfter(a, MisspelledClosingTag, rest);
    CutFirst(md[3..], a, MisspelledClosingTag, rest);
  }

  /** On the renderer's actual paragraph `<p>a</p>` the as-written helper
      keeps the closing tag: only the opening tag is removed. */
  lemma RealClosingTagKept(a: string, rest: string)
    requires '\\' !in a && '\\' !in rest
    ensures RemoveMarkdownParagraph(OpeningTag + a + ClosingTag + rest) == a + ClosingTag + rest
  {
    var md := OpeningTag + a + ClosingTag + rest;
    assert StartsWith(md, OpeningTag) by { assert md[..3] == OpeningTag; }
    var t := md[3..];
    assert t == a + ClosingTag + rest;
    assert '\\' !in t;
    forall j | 0 <= j <= |t|
      ensures !OccursAt(t, MisspelledClosingTag, j)
    {
      if j + 4 <= |t| {
        assert t[j..j + 4][1] == t[j + 1];
        assert t[j + 1] != '\\';
        assert MisspelledClosingTag[1] == '\\';
      }
    }
  }

  /** The intended helper removes exactly a `<p>…</p>` wrapper whose body
      contains no closing tag of its own. */
  lemma ParagraphWrapperRemoved(a: string, rest: string)
    requires Find(a, ClosingTag).None?
    ensures RemoveParagraphWrapper(OpeningTag + a + ClosingTag + rest) == a + rest
  {
    var md := OpeningTag + a + ClosingTag + rest;
    assert StartsWith(md, OpeningTag) by { assert md[..3] == OpeningTag; }
    assert md[3..] == a + ClosingTag + rest;
    TagFoundAfter(a, ClosingTag, rest);
    CutFirst(md[3..], a, ClosingTag, rest);
  }

  /** Replacing the first occurrence of a tag, found right after `a`, by
      nothing joins `a` and what follows the tag. */
  lemma CutFirst(t: string, a: string, tag: string, rest: string)
    requires t == a + tag + rest && Find(t, tag) == Some(|a|)
    ensures ReplaceFirst(t, tag, "") == a + rest
  {
    assert t[..|a|] == a;
    assert t[|a| + |tag|..] == rest;
  }

  /** Cutting out an occurrence of the misspelled tag leaves every `</p>`
      in place: the two tags cannot overlap. */
  lemma CutKeepsClosingTag(t: string, i: nat, c: nat)
    requires OccursAt(t, MisspelledClosingTag, i) && OccursAt(t, ClosingTag, c)
    ensures c < i ==> OccursAt(t[..i] + t[i + 4..], ClosingTag, c)
    ensures i < c ==> OccursAt(t[..i] + t[i + 4..], ClosingTag, c - 4)
  {
    var r := t[..i] + t[i + 4..];
    assert t[c..c + 4] == ['<', '/', 'p', '>'];
    assert t[i..i + 4] == ['<', '\\', 'p', '>'];
    assert t[c..c + 4][0] == t[c] && t[c..c + 4][1] == t[c + 1];
    assert t[c..c + 4][2] == t[c + 2] && t[c..c + 4][3] == t[c + 3];
    assert t[i..i + 4][0] == t[i] && t[i..i + 4][1] == t[i + 1];
    assert t[i..i + 4][2] == t[i + 2] && t[i..i + 4][3] == t[i + 3];
    if c < i {
      assert c + 4 <= i;
      assert r[c..c + 4] == t[c..c + 4];
    } else if i < c {
      assert i + 4 <= c;
      assert r[c - 4..c] == t[c..c + 4];
    }
  }

  /** The as-written helper never destroys a `</p>`: every occurrence in the
      input is still there, shifted left by the characters removed before it. */
  lemma ClosingTagSurvives(md: string, j: nat)
    requires OccursAt(md, ClosingTag, j)
    ensures var r := RemoveMarkdownParagraph(md);
            OccursAt(r, ClosingTag, j) || OccursAt(r, ClosingTag, j - 3) || OccursAt(r, ClosingTag, j - 7)
  {
    var r := RemoveMarkdownParagraph(md);
    if StartsWith(md, OpeningTag) {
      assert md[j..j + 4] == ClosingTag;
      // the opening tag and a closing tag cannot share a character
      assert md[..3] == OpeningTag;
      assert md[0] == '<' && md[1] == 'p' && md[2] == '>';
      assert md[j..j + 4][0] == md[j] && md[j..j + 4][1] == md[j + 1];
      assert md[j] == '<' && md[j + 1] == '/';
      assert j >= 3;
      var t := md[3..];
      assert t[j - 3..j + 1] == ClosingTag;
      assert OccursAt(t, ClosingTag, j - 3);
      match Find(t, MisspelledClosingTag)
      case None =>
        assert r == t;
      case Some(i) =>
        assert r == t[..i] + t[i + 4..];
        CutKeepsClosingTag(t, i, j - 3);
    } else {
      assert r == md;
    }
  }
}
