/**
 * JavaScript string whitespace, as used by `String.prototype.trim`, by the
 * `\s` class of regular expressions and by the string-to-number conversion.
 */
module Text {

  /** The ECMAScript WhiteSpace and LineTerminator code points. */
  predicate IsSpace(c: char)
  {
    || c == ' ' || c == '\t' || c == '\n' || c == '\r'
    || c == '\U{000B}' || c == '\U{000C}' || c == '\U{00A0}' || c == '\U{1680}'
    || ('\U{2000}' <= c <= '\U{200A}')
    || c == '\U{2028}' || c == '\U{2029}' || c == '\U{202F}' || c == '\U{205F}'
    || c == '\U{3000}' || c == '\U{FEFF}'
  }

  predicate AllSpace(s: string)
  {
    forall i :: 0 <= i < |s| ==> IsSpace(s[i])
  }

  predicate NoSpace(s: string)
  {
    forall i :: 0 <= i < |s| ==> !IsSpace(s[i])
  }

  /** The non-whitespace characters of `s`, in order. */
  function Visible(s: string): string
  {
    if |s| == 0 then []
    else if IsSpace(s[0]) then Visible(s[1..])
    else [s[0]] + Visible(s[1..])
  }

  lemma {:induction false} VisibleAppend(a: string, b: string)
    ensures Visible(a + b) == Visible(a) + Visible(b)
  {
    if |a| == 0 {
      assert a + b == b;
    } else {
      assert (a + b)[1..] == a[1..] + b;
      VisibleAppend(a[1..], b);
    }
  }

  lemma {:induction false} VisibleOfSpaces(s: string)
    requires AllSpace(s)
    ensures Visible(s) == []
  {
    if |s| > 0 {
      VisibleOfSpaces(s[1..]);
    }
  }

  /**
   * The words of `s`: its maximal runs of non-whitespace characters, in
   * order. Each word is non-empty and holds no whitespace.
   */
  function Words(s: string): (ws: seq<string>)
    ensures |s| > 0 && !IsSpace(s[0]) ==> |ws| > 0
    ensures forall i :: 0 <= i < |ws| ==> |ws[i]| > 0 && NoSpace(ws[i])
    decreases |s|
  {
    if |s| == 0 then []
    else if IsSpace(s[0]) then Words(s[1..])
    else
      var rest := Words(s[1..]);
      if |s| > 1 && !IsSpace(s[1]) then
        assert forall i :: 1 <= i < |rest[0]| + 1 ==> ([s[0]] + rest[0])[i] == rest[0][i - 1];
        [[s[0]] + rest[0]] + rest[1..]
      else [[s[0]]] + rest
  }

  /** `words.join(" ")`. */
  function JoinWords(ws: seq<string>): string
  {
    if |ws| == 0 then ""
    else if |ws| == 1 then ws[0]
    else ws[0] + " " + JoinWords(ws[1..])
  }

  /** Leading whitespace does not change the words. */
  lemma {:induction false} WordsSkipSpaces(s: string, n: nat)
    requires n <= |s| && AllSpace(s[..n])
    ensures Words(s) == Words(s[n..])
  {
    if n == 0 {
      assert s[0..] == s;
    } else {
      assert IsSpace(s[..n][0]);
      var t := s[1..][..n - 1];
      assert AllSpace(t) by {
        assert forall i :: 0 <= i < |t| ==> t[i] == s[..n][i + 1];
      }
      WordsSkipSpaces(s[1..], n - 1);
      assert s[1..][n - 1..] == s[n..];
    }
  }

  /** Trailing whitespace does not change the words. */
  lemma {:induction false} WordsAppendSpaces(x: string, y: string)
    requires AllSpace(y)
    ensures Words(x + y) == Words(x)
  {
    if |x| == 0 {
      assert x + y == y;
      WordsSkipSpaces(y, |y|);
      assert y[|y|..] == [];
    } else {
      assert (x + y)[1..] == x[1..] + y;
      WordsAppendSpaces(x[1..], y);
      if |x| == 1 && |y| > 0 {
        assert IsSpace((x + y)[1]) by { assert (x + y)[1] == y[0]; }
      }
    }
  }

  /** A character in front of the first word joins that word. */
  lemma JoinConsHead(c: char, ws: seq<string>)
    requires |ws| > 0
    ensures JoinWords([[c] + ws[0]] + ws[1..]) == [c] + JoinWords(ws)
  {
    if |ws| == 1 {
      assert [[c] + ws[0]] + ws[1..] == [[c] + ws[0]];
    } else {
      JoinConsHeadOfMany(c, ws);
    }
  }

  lemma JoinConsHeadOfMany(c: char, ws: seq<string>)
    requires |ws| > 1
    ensures JoinWords([[c] + ws[0]] + ws[1..]) == [c] + JoinWords(ws)
  {
    var v := [[c] + ws[0]] + ws[1..];
    var j := JoinWords(ws[1..]);
    assert JoinWords(v) == ([c] + ws[0]) + " " + j by {
      assert v[1..] == ws[1..];
    }
    ConsAppend(c, ws[0], " ");
    ConsAppend(c, ws[0] + " ", j);
  }

  lemma ConsAppend(c: char, a: string, b: string)
    ensures ([c] + a) + b == [c] + (a + b)
  {
  }

  /** Length of the whitespace run that starts `s`. */
  function LeadingSpaces(s: string): (n: nat)
    ensures n <= |s|
    ensures AllSpace(s[..n])
    ensures n < |s| ==> !IsSpace(s[n])
  {
    if |s| == 0 || !IsSpace(s[0]) then 0
    else
      var k := LeadingSpaces(s[1..]);
      assert forall i :: 1 <= i < 1 + k ==> s[i] == s[1..][i - 1];
      1 + k
  }

  /** `s` without its leading whitespace run. */
  function TrimStart(s: string): (r: string)
    ensures r == s[LeadingSpaces(s)..]
    ensures Visible(r) == Visible(s)
    decreases |s|
  {
    if |s| > 0 && IsSpace(s[0]) then
      var r := TrimStart(s[1..]);
      assert s[1..][LeadingSpaces(s[1..])..] == s[1 + LeadingSpaces(s[1..])..];
      r
    else s
  }

  /** `t` without its trailing whitespace run: a prefix of `t` followed only by whitespace. */
  function TrimEnd(t: string): (r: string)
    ensures |r| <= |t| && r == t[..|r|]
    ensures AllSpace(t[|r|..])
    ensures |r| > 0 ==> !IsSpace(r[|r| - 1])
    ensures Visible(r) == Visible(t)
    decreases |t|
  {
    if |t| > 0 && IsSpace(t[|t| - 1]) then
      var r := TrimEnd(t[..|t| - 1]);
      TrimEndStep(t, t[..|t| - 1], r);
      r
    else
      assert t[..|t|] == t;
      t
  }

  /** A trimmed prefix of all but a trailing space is a trimmed prefix of the whole. */
  lemma TrimEndStep(t: string, init: string, r: string)
    requires |t| > 0 && IsSpace(t[|t| - 1]) && init == t[..|t| - 1]
    requires |r| <= |init| && r == init[..|r|] && AllSpace(init[|r|..])
    requires Visible(r) == Visible(init)
    ensures |r| <= |t| && r == t[..|r|]
    ensures AllSpace(t[|r|..])
    ensures Visible(r) == Visible(t)
  {
    PrefixOfPrefix(t, init, r);
    SpacesThenSpace(t, init, |r|);
    VisibleOfInit(t, init);
  }

  lemma PrefixOfPrefix(t: string, init: string, r: string)
    requires |init| <= |t| && init == t[..|init|]
    requires |r| <= |init| && r == init[..|r|]
    ensures r == t[..|r|]
  {
    assert forall i :: 0 <= i < |r| ==> r[i] == init[i];
  }

  lemma SpacesThenSpace(t: string, init: string, k: nat)
    requires |t| > 0 && IsSpace(t[|t| - 1]) && init == t[..|t| - 1]
    requires k <= |init| && AllSpace(init[k..])
    ensures AllSpace(t[k..])
  {
    var tail := t[k..];
    forall i | 0 <= i < |tail|
      ensures IsSpace(tail[i])
    {
      if i < |tail| - 1 {
        assert tail[i] == init[k..][i];
      }
    }
  }

  lemma VisibleOfInit(t: string, init: string)
    requires |t| > 0 && IsSpace(t[|t| - 1]) && init == t[..|t| - 1]
    ensures Visible(t) == Visible(init)
  {
    assert t == init + [t[|t| - 1]];
    VisibleAppend(init, [t[|t| - 1]]);
    VisibleOfSpaces([t[|t| - 1]]);
  }

  /**
   * What trimming promises: `r` starts and ends with a visible character
   * (or is empty), it is the infix of `s` right after the leading
   * whitespace, only whitespace follows it, and no visible character is
   * lost.
   */
  predicate Trimmed(r: string, s: string)
  {
    && (|r| > 0 ==> !IsSpace(r[0]) && !IsSpace(r[|r| - 1]))
    && LeadingSpaces(s) + |r| <= |s|
    && r == s[LeadingSpaces(s)..LeadingSpaces(s) + |r|]
    && AllSpace(s[LeadingSpaces(s) + |r|..])
    && Visible(r) == Visible(s)
  }

  /** `String.prototype.trim`: `s` with its leading and trailing whitespace removed. */
  function Trim(s: string): (r: string)
    ensures Trimmed(r, s)
  {
    var t := TrimStart(s);
    var r := TrimEnd(t);
    TrimmedOfParts(s, t, r);
    r
  }

  /** Dropping the leading run and then a trailing run of whitespace trims. */
  lemma TrimmedOfParts(s: string, t: string, r: string)
    requires t == s[LeadingSpaces(s)..] && Visible(t) == Visible(s)
    requires |r| <= |t| && r == t[..|r|] && AllSpace(t[|r|..])
    requires |r| > 0 ==> !IsSpace(r[|r| - 1])
    requires Visible(r) == Visible(t)
    ensures Trimmed(r, s)
  {
    var lead := LeadingSpaces(s);
    InfixOfSuffix(s, lead, t, r);
    SpacesOfSuffix(s, lead, t, |r|);
  }

  lemma InfixOfSuffix(s: string, lead: nat, t: string, r: string)
    requires lead <= |s| && t == s[lead..]
    requires |r| <= |t| && r == t[..|r|]
    ensures lead + |r| <= |s| && r == s[lead..lead + |r|]
  {
    assert forall i :: 0 <= i < |r| ==> r[i] == t[i];
  }

  lemma SpacesOfSuffix(s: string, lead: nat, t: string, k: nat)
    requires lead <= |s| && t == s[lead..]
    requires k <= |t| && AllSpace(t[k..])
    ensures AllSpace(s[lead + k..])
  {
    var tail := s[lead + k..];
    forall i | 0 <= i < |tail|
      ensures IsSpace(tail[i])
    {
      assert tail[i] == t[k..][i];
    }
  }

  lemma TrimNoSpace(s: string)
    requires NoSpace(s)
    ensures Trim(s) == s
  {
    assert LeadingSpaces(s) == 0;
    assert TrimStart(s) == s;
  }

  /** True when no two adjacent characters of `s` are both whitespace. */
  predicate NoDoubleSpace(s: string)
  {
    forall i :: 0 <= i < |s| - 1 ==> !(IsSpace(s[i]) && IsSpace(s[i + 1]))
  }

  /** True when every whitespace character of `s` is a plain space. */
  predicate OnlyPlainSpaces(s: string)
  {
    forall i :: 0 <= i < |s| ==> IsSpace(s[i]) ==> s[i] == ' '
  }

  /**
   * What collapsing whitespace promises: the words and the visible
   * characters are kept, no two whitespace characters are adjacent and all
   * of them are plain spaces, the result is empty only for an empty input,
   * and it begins and ends with whitespace exactly when the input does.
   */
  predicate Collapsed(r: string, s: string)
  {
    && Words(r) == Words(s)
    && Visible(r) == Visible(s)
    && NoDoubleSpace(r)
    && OnlyPlainSpaces(r)
    && (|r| > 0 <==> |s| > 0)
    && (|s| > 0 ==> (IsSpace(r[0]) <==> IsSpace(s[0])))
    && (|s| > 0 ==> (IsSpace(r[|r| - 1]) <==> IsSpace(s[|s| - 1])))
  }

  /**
   * `s.replace(/\s+/g, ' ')`: every maximal whitespace run becomes one plain
   * space; the other characters are kept in order.
   */
  function CollapseSpaces(s: string): (r: string)
    ensures Collapsed(r, s)
    ensures r == SpacedWords(s)
    decreases |s|
  {
    if |s| == 0 then []
    else if IsSpace(s[0]) then
      var n := LeadingSpaces(s);
      var tail := CollapseSpaces(s[n..]);
      CollapseRunStep(s, n, tail);
      CollapsedIsSpacedWords([' '] + tail, s);
      [' '] + tail
    else
      var tail := CollapseSpaces(s[1..]);
      CollapseVisibleStep(s, tail);
      CollapsedIsSpacedWords([s[0]] + tail, s);
      [s[0]] + tail
  }

  /** A leading whitespace run followed by a collapsed rest collapses to one space and that rest. */
  lemma CollapseRunStep(s: string, n: nat, tail: string)
    requires 0 < n == LeadingSpaces(s)
    requires Collapsed(tail, s[n..])
    ensures Collapsed([' '] + tail, s)
  {
    var r := [' '] + tail;
    assert Words(r) == Words(s) by {
      WordsSkipSpaces(s, n);
      assert r[1..] == tail;
    }
    assert Visible(r) == Visible(s) by {
      assert s == s[..n] + s[n..];
      VisibleAppend(s[..n], s[n..]);
      VisibleOfSpaces(s[..n]);
      VisibleAppend([' '], tail);
    }
  }

  /** A visible first character is kept in front of the collapsed rest. */
  lemma CollapseVisibleStep(s: string, tail: string)
    requires |s| > 0 && !IsSpace(s[0])
    requires Collapsed(tail, s[1..])
    ensures Collapsed([s[0]] + tail, s)
  {
    var r := [s[0]] + tail;
    assert Words(r) == Words(s) by {
      assert r[1..] == tail;
    }
    assert Visible(r) == Visible(s) by {
      assert s == [s[0]] + s[1..];
      VisibleAppend([s[0]], s[1..]);
      VisibleAppend([s[0]], tail);
    }
  }

  /** Any infix of a collapsed string is collapsed too. */
  lemma InfixKeepsCollapse(c: string, lo: nat, hi: nat, r: string)
    requires lo <= hi <= |c| && r == c[lo..hi]
    requires NoDoubleSpace(c) && OnlyPlainSpaces(c)
    ensures NoDoubleSpace(r) && OnlyPlainSpaces(r)
  {
    assert forall i :: 0 <= i < |r| ==> r[i] == c[lo + i];
  }

  /** Trimming keeps the words. */
  lemma TrimKeepsWords(r: string, s: string)
    requires Trimmed(r, s)
    ensures Words(r) == Words(s)
  {
    var lead := LeadingSpaces(s);
    assert Words(s) == Words(s[lead..]) by {
      WordsSkipSpaces(s, lead);
    }
    assert Words(s[lead..]) == Words(r) by {
      assert s[lead..] == r + s[lead + |r|..];
      WordsAppendSpaces(r, s[lead + |r|..]);
    }
  }

  /**
   * A string with only single plain spaces, none at either end, is the
   * join of its own words.
   */
  lemma {:induction false} JoinOfWords(r: string)
    requires NoDoubleSpace(r) && OnlyPlainSpaces(r)
    requires |r| > 0 ==> !IsSpace(r[0]) && !IsSpace(r[|r| - 1])
    ensures r == JoinWords(Words(r))
  {
    if |r| == 1 {
      assert Words(r) == [[r[0]]] + Words([]);
    } else if |r| > 1 && !IsSpace(r[1]) {
      var t := r[1..];
      InfixKeepsCollapse(r, 1, |r|, t);
      JoinOfWords(t);
      JoinStepWord(r, t);
    } else if |r| > 1 {
      assert r[1] == ' ' && |r| > 2 && !IsSpace(r[2]);
      var t := r[2..];
      InfixKeepsCollapse(r, 2, |r|, t);
      JoinOfWords(t);
      JoinStepSpace(r, t);
    }
  }

  /** A visible character in front of a word extends that word. */
  lemma JoinStepWord(r: string, t: string)
    requires |r| > 1 && t == r[1..] && !IsSpace(r[0]) && !IsSpace(r[1])
    requires t == JoinWords(Words(t))
    ensures r == JoinWords(Words(r))
  {
    JoinConsHead(r[0], Words(t));
    assert r == [r[0]] + t;
  }

  /** A visible character and a space in front of a word start a new word. */
  lemma JoinStepSpace(r: string, t: string)
    requires |r| > 2 && !IsSpace(r[0]) && r[1] == ' ' && t == r[2..] && !IsSpace(r[2])
    requires t == JoinWords(Words(t))
    ensures r == JoinWords(Words(r))
  {
    var ws := Words(t);
    assert Words(r[1..]) == ws by { assert r[1..][1..] == t; }
    assert Words(r) == [[r[0]]] + ws;
    assert ([[r[0]]] + ws)[1..] == ws;
    assert r == [r[0]] + " " + t;
  }


  /**
   * The words of `s` joined by single plain spaces, with one space in front
   * when `s` begins with whitespace and one behind when it ends with
   * whitespace after a word.
   */
  function SpacedWords(s: string): string
  {
    (if |s| > 0 && IsSpace(s[0]) then " " else "")
    + JoinWords(Words(s))
    + (if |s| > 0 && IsSpace(s[|s| - 1]) && |Words(s)| > 0 then " " else "")
  }

  /**
   * A string with only single plain spaces that starts with a word is the
   * join of its words, followed by one space when it ends with whitespace.
   */
  lemma JoinOfWordsThenSpace(u: string)
    requires NoDoubleSpace(u) && OnlyPlainSpaces(u)
    requires |u| > 0 && !IsSpace(u[0])
    ensures |Words(u)| > 0
    ensures u == JoinWords(Words(u)) + (if IsSpace(u[|u| - 1]) then " " else "")
  {
    if IsSpace(u[|u| - 1]) {
      var w := u[..|u| - 1];
      assert w == JoinWords(Words(w)) && |Words(w)| > 0 by {
        assert |w| > 0 && !IsSpace(w[0]) && !IsSpace(w[|w| - 1]);
        InfixKeepsCollapse(u, 0, |u| - 1, w);
        JoinOfWords(w);
      }
      assert Words(u) == Words(w) by {
        assert u == w + [u[|u| - 1]];
        WordsAppendSpaces(w, [u[|u| - 1]]);
      }
      assert u == w + " ";
    } else {
      JoinOfWords(u);
    }
  }

  /** A string with only single plain spaces is its own spaced words. */
  lemma SpacedWordsOfCollapsed(r: string)
    requires NoDoubleSpace(r) && OnlyPlainSpaces(r)
    ensures r == SpacedWords(r)
  {
    if |r| == 1 && IsSpace(r[0]) {
      assert Words(r) == Words([]);
    } else if |r| > 0 && IsSpace(r[0]) {
      var u := r[1..];
      InfixKeepsCollapse(r, 1, |r|, u);
      JoinOfWordsThenSpace(u);
      assert Words(r) == Words(u);
      assert r == " " + u;
    } else if |r| > 0 {
      JoinOfWordsThenSpace(r);
    }
  }

  /** Whatever meets `Collapsed` is the spaced words of the input. */
  lemma CollapsedIsSpacedWords(r: string, s: string)
    requires Collapsed(r, s)
    ensures r == SpacedWords(s)
  {
    SpacedWordsOfCollapsed(r);
  }

  /** `Collapsed` admits exactly one result. */
  lemma CollapsedUnique(r1: string, r2: string, s: string)
    requires Collapsed(r1, s) && Collapsed(r2, s)
    ensures r1 == r2
  {
    CollapsedIsSpacedWords(r1, s);
    CollapsedIsSpacedWords(r2, s);
  }

  /**
   * Collapsing and then trimming leaves the words of the original joined
   * by single plain spaces.
   */
  lemma TrimOfCollapsed(s: string)
    ensures Trim(CollapseSpaces(s)) == JoinWords(Words(s))
    ensures Visible(Trim(CollapseSpaces(s))) == Visible(s)
    ensures NoDoubleSpace(Trim(CollapseSpaces(s))) && OnlyPlainSpaces(Trim(CollapseSpaces(s)))
    ensures var r := Trim(CollapseSpaces(s)); |r| > 0 ==> !IsSpace(r[0]) && !IsSpace(r[|r| - 1])
  {
    var c := CollapseSpaces(s);
    TrimOfCollapsedString(s, c, Trim(c));
  }

  lemma TrimOfCollapsedString(s: string, c: string, r: string)
    requires Collapsed(c, s) && Trimmed(r, c)
    ensures r == JoinWords(Words(s))
    ensures Visible(r) == Visible(s)
    ensures NoDoubleSpace(r) && OnlyPlainSpaces(r)
  {
    var lead := LeadingSpaces(c);
    InfixKeepsCollapse(c, lead, lead + |r|, r);
    TrimKeepsWords(r, c);
    JoinOfWords(r);
  }
}
