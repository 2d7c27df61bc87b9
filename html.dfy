/**
 * `clean_html`: `re.sub('<.*?>', '', s)`. At each position the regular
 * expression tries to match a `<`, then as few characters as possible other
 * than a line break, then a `>`; a match is deleted and the scan resumes after
 * it, and a `<` with no `>` later on its own line is kept as text.
 */
module Html {
  import opened Common

  /**
   * Where the shortest `.*?>` match of `t` ends: the index of the first `>`,
   * provided no line break comes before it.
   */
  function TagEnd(t: string): (r: Option<nat>)
    ensures r.Some? ==> r.value < |t| && t[r.value] == '>'
                        && '>' !in t[..r.value] && '\n' !in t[..r.value]
    ensures r.None? ==> forall i :: 0 <= i < |t| && t[i] == '>' ==> '\n' in t[..i]
    decreases |t|
  {
    if t == [] then None
    else if t[0] == '>' then Some(0)
    else if t[0] == '\n' then None
    else match TagEnd(t[1..])
      case None =>
        assert forall i :: 1 <= i < |t| ==> t[1..][..i - 1] == t[1..i];
        None
      case Some(k) =>
        assert t[..k + 1] == [t[0]] + t[1..][..k];
        Some(k + 1)
  }

  /** `re.sub('<.*?>', '', s)`, scanning left to right. */
  function CleanHtml(s: string): (r: string)
    decreases |s|
  {
    if s == [] then []
    else if s[0] == '<' && TagEnd(s[1..]).Some? then CleanHtml(s[TagEnd(s[1..]).value + 2..])
    else [s[0]] + CleanHtml(s[1..])
  }

  /** No `<` of `r` is followed by a `>` on the same line: nothing is left to delete. */
  predicate NoLineTag(r: string) {
    forall i :: 0 <= i < |r| && r[i] == '<' ==> TagEnd(r[i + 1..]).None?
  }

  /** A text whose first `>` (if any) comes after a line break keeps that property once cleaned. */
  lemma {:induction false} CleanHtmlKeepsNoTagEnd(s: string)
    requires TagEnd(s).None?
    ensures TagEnd(CleanHtml(s)).None?
    decreases |s|
  {
    if s != [] && s[0] != '\n' {
      assert s[0] != '>';
      assert TagEnd(s[1..]).None?;
      CleanHtmlKeepsNoTagEnd(s[1..]);
      var r := CleanHtml(s);
      assert r == [s[0]] + CleanHtml(s[1..]);
      assert r[1..] == CleanHtml(s[1..]);
    }
  }

  /** Every tag that lies within one line is removed: the result has none left. */
  lemma {:induction false} CleanHtmlRemovesLineTags(s: string)
    ensures NoLineTag(CleanHtml(s))
    decreases |s|
  {
    if s != [] {
      if s[0] == '<' && TagEnd(s[1..]).Some? {
        CleanHtmlRemovesLineTags(s[TagEnd(s[1..]).value + 2..]);
      } else {
        CleanHtmlRemovesLineTags(s[1..]);
        var rest := CleanHtml(s[1..]);
        var r := [s[0]] + rest;
        assert r == CleanHtml(s);
        if s[0] == '<' {
          CleanHtmlKeepsNoTagEnd(s[1..]);
        }
        forall i | 0 <= i < |r| && r[i] == '<' ensures TagEnd(r[i + 1..]).None? {
          if i > 0 {
            assert r[i] == rest[i - 1];
            assert r[i + 1..] == rest[i..];
          } else {
            assert r[1..] == rest;
          }
        }
      }
    }
  }

  /** A text with no tag within a line is left unchanged. */
  lemma {:induction false} CleanHtmlNoLineTag(s: string)
    requires NoLineTag(s)
    ensures CleanHtml(s) == s
    decreases |s|
  {
    if s != [] {
      assert s[0] == '<' ==> TagEnd(s[1..]).None?;
      assert NoLineTag(s[1..]) by {
        forall i | 0 <= i < |s[1..]| && s[1..][i] == '<' ensures TagEnd(s[1..][i + 1..]).None? {
          assert s[1..][i + 1..] == s[i + 2..];
        }
      }
      CleanHtmlNoLineTag(s[1..]);
    }
  }

  /** Cleaning twice is the same as cleaning once. */
  lemma CleanHtmlIdempotent(s: string)
    ensures CleanHtml(CleanHtml(s)) == CleanHtml(s)
  {
    CleanHtmlRemovesLineTags(s);
    CleanHtmlNoLineTag(CleanHtml(s));
  }

  /** A tag at the front whose body has no `>` and no line break is deleted. */
  lemma CleanHtmlTag(body: string, rest: string)
    requires '>' !in body && '\n' !in body
    ensures CleanHtml("<" + body + ">" + rest) == CleanHtml(rest)
  {
    var s := "<" + body + ">" + rest;
    var t := s[1..];
    assert t == body + ">" + rest;
    assert t[|body|] == '>' && t[..|body|] == body;
    TagEndAt(t, |body|);
    assert s[|body| + 2..] == rest;
  }

  /** The shortest match ends at the first `>` when no line break precedes it. */
  lemma TagEndAt(t: string, k: nat)
    requires k < |t| && t[k] == '>' && '>' !in t[..k] && '\n' !in t[..k]
    ensures TagEnd(t) == Some(k)
  {
  }

  /** Cleaning never lengthens a text. */
  lemma {:induction false} CleanHtmlShortens(s: string)
    ensures |CleanHtml(s)| <= |s|
    decreases |s|
  {
    if s != [] {
      if s[0] == '<' && TagEnd(s[1..]).Some? {
        CleanHtmlShortens(s[TagEnd(s[1..]).value + 2..]);
      } else {
        CleanHtmlShortens(s[1..]);
      }
    }
  }

  /** Text without `<` in front of the rest is copied through unchanged. */
  lemma {:induction false} CleanHtmlText(t: string, rest: string)
    requires '<' !in t
    ensures CleanHtml(t + rest) == t + CleanHtml(rest)
    decreases |t|
  {
    if t != [] {
      var s := t + rest;
      assert s[0] == t[0] && s[1..] == t[1..] + rest;
      CleanHtmlText(t[1..], rest);
      assert t + CleanHtml(rest) == [t[0]] + (t[1..] + CleanHtml(rest));
    } else {
      assert t + rest == rest;
    }
  }
}
