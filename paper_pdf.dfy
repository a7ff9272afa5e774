/**
 * `stripHtml` of frontend/src/components/PaperPDF.jsx: `html.replace(/<[^>]*>?/gm, '')`.
 * Scanning from the left, every `<` starts a match that runs through the next `>`, or to the
 * end of the text when there is none; the matches are removed and everything else is kept.
 */
module HtmlText {
  /** What follows a tag whose `<` has been consumed: the text after the next `>`, or nothing. */
  function AfterTag(t: string): (r: string)
    ensures |r| <= |t|
    ensures r == t[|t| - |r|..]
  {
    if t == [] then []
    else if t[0] == '>' then t[1..]
    else AfterTag(t[1..])
  }

  /** `stripHtml(html)`. */
  function StripHtml(s: string): (r: string)
    ensures '<' !in r
    ensures |r| <= |s|
    decreases |s|
  {
    if s == [] then []
    else if s[0] == '<' then StripHtml(AfterTag(s[1..]))
    else [s[0]] + StripHtml(s[1..])
  }

  /** `a` is obtained from `b` by deleting characters. */
  predicate Subsequence(a: string, b: string)
    decreases |b|
  {
    if a == [] then true
    else if b == [] then false
    else (a[0] == b[0] && Subsequence(a[1..], b[1..])) || Subsequence(a, b[1..])
  }

  /** A text without `<` is left as it is. */
  lemma {:induction false} NoTagUnchanged(s: string)
    requires '<' !in s
    ensures StripHtml(s) == s
  {
    if s != [] {
      assert '<' !in s[1..] by {
        forall c | c in s[1..] ensures c != '<' {
          assert c in s;
        }
      }
      NoTagUnchanged(s[1..]);
      assert s == [s[0]] + s[1..];
    }
  }

  /** The text is returned unchanged exactly when it holds no `<`. */
  lemma UnchangedIffNoTag(s: string)
    ensures StripHtml(s) == s <==> '<' !in s
  {
    if '<' !in s {
      NoTagUnchanged(s);
    }
  }

  /** Stripping twice is stripping once. */
  lemma Idempotent(s: string)
    ensures StripHtml(StripHtml(s)) == StripHtml(s)
  {
    NoTagUnchanged(StripHtml(s));
  }

  /** Text without `<` in front of the rest is kept as it is. */
  lemma {:induction false} PlainPrefixKept(a: string, c: string)
    requires '<' !in a
    ensures StripHtml(a + c) == a + StripHtml(c)
  {
    if a != [] {
      assert (a + c)[0] == a[0] && (a + c)[1..] == a[1..] + c;
      assert a[0] in a;
      assert '<' !in a[1..] by {
        forall ch | ch in a[1..] ensures ch != '<' {
          assert ch in a;
        }
      }
      PlainPrefixKept(a[1..], c);
      assert StripHtml(a + c) == [a[0]] + StripHtml(a[1..] + c);
      assert a == [a[0]] + a[1..];
    } else {
      assert a + c == c;
    }
  }

  /** A tag body without `>` is skipped together with its closing `>`, or to the end. */
  lemma {:induction false} TagBodySkipped(t: string, c: string)
    requires '>' !in t
    ensures AfterTag(t + ">" + c) == c
    ensures AfterTag(t) == []
  {
    if t != [] {
      assert t[0] in t;
      assert (t + ">" + c)[0] == t[0] && (t + ">" + c)[1..] == t[1..] + ">" + c;
      assert '>' !in t[1..] by {
        forall ch | ch in t[1..] ensures ch != '>' {
          assert ch in t;
        }
      }
      TagBodySkipped(t[1..], c);
    } else {
      assert t + ">" + c == ">" + c;
    }
  }

  /** A closed tag `<t>` is removed and the text around it is kept. */
  lemma {:induction false} ClosedTagRemoved(a: string, t: string, c: string)
    requires '<' !in a && '>' !in t
    ensures StripHtml(a + "<" + t + ">" + c) == a + StripHtml(c)
  {
    var tail := "<" + t + ">" + c;
    assert a + "<" + t + ">" + c == a + tail;
    PlainPrefixKept(a, tail);
    assert tail[0] == '<' && tail[1..] == t + ">" + c;
    TagBodySkipped(t, c);
    assert StripHtml(tail) == StripHtml(AfterTag(t + ">" + c));
  }

  /** A `<` that is never closed removes everything after it. */
  lemma {:induction false} UnclosedTagRemoved(a: string, t: string)
    requires '<' !in a && '>' !in t
    ensures StripHtml(a + "<" + t) == a
  {
    var tail := "<" + t;
    assert a + "<" + t == a + tail;
    PlainPrefixKept(a, tail);
    assert tail[0] == '<' && tail[1..] == t;
    TagBodySkipped(t, "");
  }

  /** Deleting a prefix of the larger text keeps a subsequence a subsequence. */
  lemma {:induction false} SubsequenceOfSuffix(a: string, b: string, k: nat)
    requires k <= |b| && Subsequence(a, b[k..])
    ensures Subsequence(a, b)
    decreases k
  {
    if k > 0 {
      assert b[k - 1..][1..] == b[k..];
      SubsequenceOfSuffix(a, b, k - 1);
    }
  }

  /** Only characters are deleted: the result is a subsequence of the input. */
  lemma {:induction false} StripIsSubsequence(s: string)
    ensures Subsequence(StripHtml(s), s)
    decreases |s|
  {
    if s != [] {
      if s[0] == '<' {
        var rest := AfterTag(s[1..]);
        StripIsSubsequence(rest);
        assert rest == s[|s| - |rest|..];
        SubsequenceOfSuffix(StripHtml(rest), s, |s| - |rest|);
      } else {
        StripIsSubsequence(s[1..]);
        assert StripHtml(s) == [s[0]] + StripHtml(s[1..]);
      }
    }
  }
}
