/**
 * The seven script-injection patterns of PHPAmor::isXSS and the meaning of
 * `preg_match` for them.
 *
 * Every pattern is a concatenation of three kinds of pieces, so a pattern is a
 * sequence of atoms:
 *   - `Lit(c)`  one character, compared ASCII-case-insensitively (flag `i`);
 *   - `Line`    `.*`, any run of characters other than a newline;
 *   - `Any`     `[\s\S]*`, any run of characters at all.
 * No pattern is anchored, so a pattern matches a subject when it matches
 * some contiguous piece of it.
 */
module XssPatterns {

  datatype Atom = Lit(c: char) | Line | Any

  type Pattern = seq<Atom>

  /** ASCII case folding, as PCRE's default character tables do for flag `i`. */
  function Fold(c: char): char
  {
    if 'A' <= c <= 'Z' then (c as int - 'A' as int + 'a' as int) as char else c
  }

  /** `x` spells `w` up to letter case. */
  predicate FoldEq(x: string, w: string)
  {
    |x| == |w| && forall i :: 0 <= i < |x| ==> Fold(x[i]) == Fold(w[i])
  }

  /** The pattern of a literal word. */
  function Word(w: string): Pattern
  {
    seq(|w|, i requires 0 <= i < |w| => Lit(w[i]))
  }

  /** `p` matches the whole of `s`. */
  predicate FullMatch(p: Pattern, s: string)
    decreases |p|
  {
    if p == [] then s == []
    else match p[0]
      case Lit(c) => s != [] && Fold(s[0]) == Fold(c) && FullMatch(p[1..], s[1..])
      case Line => exists k {:trigger FullMatch(p[1..], s[k..])} :: 0 <= k <= |s| && '\n' !in s[..k] && FullMatch(p[1..], s[k..])
      case Any => exists k {:trigger FullMatch(p[1..], s[k..])} :: 0 <= k <= |s| && FullMatch(p[1..], s[k..])
  }

  /** `preg_match(p, s)` finds a match: some piece `s[i..j]` is matched by `p`. */
  predicate Matches(p: Pattern, s: string)
  {
    exists i, j :: 0 <= i <= j <= |s| && FullMatch(p, s[i..j])
  }

  /** `<.*script.*>` */
  const OPEN_TAG: Pattern := Word("<") + [Line] + Word("script") + [Line, Lit('>')]
  /** `<\/.*script.*>` */
  const CLOSE_TAG: Pattern := Word("</") + [Line] + Word("script") + [Line, Lit('>')]

  /** Pattern 2: `<.*script.*>[\s\S]*<\/.*script.*>` */
  const SCRIPT_BLOCK: Pattern := OPEN_TAG + [Any] + CLOSE_TAG
  /** Pattern 1: `<script>[\s\S]*<\/script>` */
  const BARE_SCRIPT: Pattern := Word("<script>") + [Any] + Word("</script>")
  /** Pattern 3: `<.*>[\s\S]*<.*>[\s\S]*` + pattern 2 + `[\s\S]*<.*>[\s\S]*<\/.*>` */
  const HTML_SCRIPT: Pattern :=
    [Lit('<'), Line, Lit('>'), Any, Lit('<'), Line, Lit('>'), Any]
    + SCRIPT_BLOCK
    + [Any, Lit('<'), Line, Lit('>'), Any, Lit('<'), Lit('/'), Line, Lit('>')]
  /** Pattern 4: `"[\s\S]*` + pattern 2 + `[\s\S]*"` */
  const QUOTED_SCRIPT: Pattern := [Lit('"'), Any] + SCRIPT_BLOCK + [Any, Lit('"')]
  /** Pattern 5: `<svg>[\s\S]*` + pattern 2 + `[\s\S]*<\/svg>` */
  const SVG_SCRIPT: Pattern := Word("<svg>") + [Any] + SCRIPT_BLOCK + ([Any] + Word("</svg>"))
  /** Pattern 6: `data:text\/html;[\s\S]*` + pattern 2 */
  const DATA_URI_SCRIPT: Pattern := Word("data:text/html;") + [Any] + SCRIPT_BLOCK + []
  /** Pattern 7: `<style>[\s\S]*` + pattern 2 + `[\s\S]*<\/style>` */
  const STYLE_SCRIPT: Pattern := Word("<style>") + [Any] + SCRIPT_BLOCK + ([Any] + Word("</style>"))

  /** The patterns in the order isXSS tries them. */
  const PATTERNS: seq<Pattern> :=
    [BARE_SCRIPT, SCRIPT_BLOCK, HTML_SCRIPT, QUOTED_SCRIPT, SVG_SCRIPT, DATA_URI_SCRIPT, STYLE_SCRIPT]

  /** Some pattern of the list matches `s`. */
  predicate MatchesAny(s: string)
  {
    exists n :: 0 <= n < |PATTERNS| && Matches(PATTERNS[n], s)
  }

  // ---------------------------------------------------------------------
  // Matching a concatenation

  /** Matching a literal and then `p`. */
  lemma ConsLit(c: char, p: Pattern, s: string)
    requires s != [] && Fold(s[0]) == Fold(c) && FullMatch(p, s[1..])
    ensures FullMatch([Lit(c)] + p, s)
  {
    assert ([Lit(c)] + p)[1..] == p;
  }

  /** Matching `.*` over the first `m` characters and then `p`. */
  lemma ConsLine(p: Pattern, s: string, m: nat)
    requires m <= |s| && '\n' !in s[..m] && FullMatch(p, s[m..])
    ensures FullMatch([Line] + p, s)
  {
    assert ([Line] + p)[1..] == p;
  }

  /** Matching `[\s\S]*` over the first `m` characters and then `p`. */
  lemma ConsAny(p: Pattern, s: string, m: nat)
    requires m <= |s| && FullMatch(p, s[m..])
    ensures FullMatch([Any] + p, s)
  {
    assert ([Any] + p)[1..] == p;
  }

  /** A match of `a + b` splits, at `k`, into a match of `a` followed by a match of `b`. */
  lemma {:induction false} SplitMatch(a: Pattern, b: Pattern, t: string) returns (k: nat)
    requires FullMatch(a + b, t)
    ensures k <= |t| && FullMatch(a, t[..k]) && FullMatch(b, t[k..])
    decreases |a|
  {
    if a == [] {
      assert a + b == b;
      assert t[..0] == [] && t[0..] == t;
      k := 0;
    } else {
      var rest := a[1..];
      assert a == [a[0]] + rest;
      assert (a + b)[0] == a[0];
      assert (a + b)[1..] == rest + b;
      match a[0]
      case Lit(c) =>
        var k' := SplitMatch(rest, b, t[1..]);
        k := k' + 1;
        assert t[..k][1..] == t[1..][..k'];
        assert t[k..] == t[1..][k'..];
        ConsLit(c, rest, t[..k]);
      case Line =>
        var m :| 0 <= m <= |t| && '\n' !in t[..m] && FullMatch(rest + b, t[m..]);
        var k' := SplitMatch(rest, b, t[m..]);
        k := m + k';
        assert t[..k][..m] == t[..m];
        assert t[..k][m..] == t[m..][..k'];
        assert t[k..] == t[m..][k'..];
        ConsLine(rest, t[..k], m);
      case Any =>
        var m :| 0 <= m <= |t| && FullMatch(rest + b, t[m..]);
        var k' := SplitMatch(rest, b, t[m..]);
        k := m + k';
        assert t[..k][m..] == t[m..][..k'];
        assert t[k..] == t[m..][k'..];
        ConsAny(rest, t[..k], m);
    }
  }

  /** A match of `a` followed by a match of `b` is a match of `a + b`. */
  lemma {:induction false} JoinMatch(a: Pattern, b: Pattern, x: string, y: string)
    requires FullMatch(a, x) && FullMatch(b, y)
    ensures FullMatch(a + b, x + y)
    decreases |a|
  {
    if a == [] {
      assert a + b == b && x + y == y;
    } else {
      var rest := a[1..];
      assert a + b == [a[0]] + (rest + b);
      match a[0]
      case Lit(c) =>
        JoinMatch(rest, b, x[1..], y);
        assert (x + y)[1..] == x[1..] + y;
        ConsLit(c, rest + b, x + y);
      case Line =>
        var m :| 0 <= m <= |x| && '\n' !in x[..m] && FullMatch(rest, x[m..]);
        JoinMatch(rest, b, x[m..], y);
        assert (x + y)[..m] == x[..m];
        assert (x + y)[m..] == x[m..] + y;
        ConsLine(rest + b, x + y, m);
      case Any =>
        var m :| 0 <= m <= |x| && FullMatch(rest, x[m..]);
        JoinMatch(rest, b, x[m..], y);
        assert (x + y)[m..] == x[m..] + y;
        ConsAny(rest + b, x + y, m);
    }
  }

  /** A word pattern matches exactly the strings that spell it up to case. */
  lemma {:induction false} WordMatch(w: string, x: string)
    ensures FullMatch(Word(w), x) <==> FoldEq(x, w)
    decreases |w|
  {
    if w == [] {
      assert Word(w) == [];
    } else {
      assert Word(w)[0] == Lit(w[0]);
      assert Word(w)[1..] == Word(w[1..]);
      if x != [] {
        WordMatch(w[1..], x[1..]);
        if FoldEq(x, w) {
          assert FoldEq(x[1..], w[1..]) by {
            forall i | 0 <= i < |x[1..]| ensures Fold(x[1..][i]) == Fold(w[1..][i]) {
              assert x[1..][i] == x[i + 1] && w[1..][i] == w[i + 1];
            }
          }
        }
        if FullMatch(Word(w), x) {
          forall i | 0 <= i < |x| ensures Fold(x[i]) == Fold(w[i]) {
            if i > 0 {
              assert x[1..][i - 1] == x[i] && w[1..][i - 1] == w[i];
            }
          }
        }
      }
    }
  }

  lemma SliceOfSlice(s: string, i: nat, j: nat, x: nat, y: nat)
    requires i <= j <= |s| && x <= y <= j - i
    ensures s[i..j][x..y] == s[i + x..i + y]
  {
    var t := s[i..j];
    assert |t[x..y]| == |s[i + x..i + y]|;
    forall n | 0 <= n < y - x ensures t[x..y][n] == s[i + x..i + y][n] {
      assert t[x..y][n] == t[x + n] == s[i + x + n];
    }
  }

  /** A pattern that occurs contiguously inside another matches a piece of what the other matches. */
  lemma InnerFullMatch(a: Pattern, q: Pattern, b: Pattern, t: string) returns (x: nat, y: nat)
    requires FullMatch(a + (q + b), t)
    ensures x <= y <= |t| && FullMatch(q, t[x..y])
  {
    x := SplitMatch(a, q + b, t);
    var n := SplitMatch(q, b, t[x..]);
    y := x + n;
    assert t[x..][..n] == t[x..y];
  }

  /** A pattern that occurs contiguously inside another matches wherever the other does. */
  lemma InnerMatch(a: Pattern, q: Pattern, b: Pattern, s: string)
    requires Matches(a + q + b, s)
    ensures Matches(q, s)
  {
    var i, j :| 0 <= i <= j <= |s| && FullMatch(a + q + b, s[i..j]);
    assert a + q + b == a + (q + b);
    var x, y := InnerFullMatch(a, q, b, s[i..j]);
    SliceOfSlice(s, i, j, x, y);
  }

  // ---------------------------------------------------------------------
  // Pattern 1 is a special case of pattern 2

  /** `.*` may match the empty string. */
  lemma LineEmpty(q: Pattern, x: string)
    requires FullMatch(q, x)
    ensures FullMatch([Line] + q, x)
  {
    assert ([Line] + q)[1..] == q;
    assert x[..0] == [] && x[0..] == x;
  }

  /** Case-insensitive spelling carries over to the pieces of a word. */
  lemma FoldEqSlice(x: string, w: string, i: nat, j: nat)
    requires FoldEq(x, w) && i <= j <= |x|
    ensures FoldEq(x[i..j], w[i..j])
  {
    forall n | 0 <= n < j - i ensures Fold(x[i..j][n]) == Fold(w[i..j][n]) {
      assert x[i..j][n] == x[i + n] && w[i..j][n] == w[i + n];
    }
  }

  /** `name` and `>` in a row are an instance of `.*`, `name`, `.*` and `>`. */
  lemma NameCovers(name: string, y: string)
    requires FoldEq(y, name + ">")
    ensures FullMatch([Line] + (Word(name) + [Line, Lit('>')]), y)
  {
    var w, e := name + ">", |name|;
    FoldEqSlice(y, w, 0, e);
    assert w[..e] == name;
    WordMatch(name, y[..e]);
    CloseAngle(y[e..]) by {
      assert y[e..][0] == y[e] && Fold(y[e]) == Fold(w[e]) && w[e] == '>';
    }
    JoinMatch(Word(name), [Line, Lit('>')], y[..e], y[e..]);
    assert y[..e] + y[e..] == y;
    LineEmpty(Word(name) + [Line, Lit('>')], y);
  }

  /** `lead`, `name` and `>` in a row are an instance of `lead`, `.*`, `name`, `.*` and `>`. */
  lemma TagCovers(lead: string, name: string, x: string)
    requires FoldEq(x, lead + name + ">")
    ensures FullMatch(Word(lead) + [Line] + Word(name) + [Line, Lit('>')], x)
  {
    var w, n := lead + name + ">", |lead|;
    FoldEqSlice(x, w, 0, n);
    assert w[..n] == lead;
    WordMatch(lead, x[..n]);
    FoldEqSlice(x, w, n, |x|);
    assert w[n..] == name + ">";
    NameCovers(name, x[n..]);
    JoinMatch(Word(lead), [Line] + (Word(name) + [Line, Lit('>')]), x[..n], x[n..]);
    assert x[..n] + x[n..] == x;
    assert Word(lead) + ([Line] + (Word(name) + [Line, Lit('>')]))
        == Word(lead) + [Line] + Word(name) + [Line, Lit('>')];
  }

  /** `>` is an instance of `.*>`. */
  lemma CloseAngle(x: string)
    requires |x| == 1 && Fold(x[0]) == '>'
    ensures FullMatch([Line, Lit('>')], x)
  {
    assert FullMatch([Lit('>')], x) by {
      assert x[1..] == [];
    }
    LineEmpty([Lit('>')], x);
    assert [Line] + [Lit('>')] == [Line, Lit('>')];
  }

  /** `<script>[\s\S]*` is an instance of `<.*script.*>[\s\S]*`. */
  lemma OpenPartCovers(u: string)
    requires FullMatch(Word("<script>") + [Any], u)
    ensures FullMatch(OPEN_TAG + [Any], u)
  {
    var k := SplitMatch(Word("<script>"), [Any], u);
    WordMatch("<script>", u[..k]);
    assert "<script>" == "<" + "script" + ">";
    TagCovers("<", "script", u[..k]);
    JoinMatch(OPEN_TAG, [Any], u[..k], u[k..]);
    assert u[..k] + u[k..] == u;
  }

  /** `<\/script>` is an instance of `<\/.*script.*>`. */
  lemma ClosePartCovers(y: string)
    requires FullMatch(Word("</script>"), y)
    ensures FullMatch(CLOSE_TAG, y)
  {
    WordMatch("</script>", y);
    assert "</script>" == "</" + "script" + ">";
    TagCovers("</", "script", y);
  }

  /** Every piece of text pattern 1 matches, pattern 2 matches too. */
  lemma BareScriptIsScriptBlock(t: string)
    requires FullMatch(BARE_SCRIPT, t)
    ensures FullMatch(SCRIPT_BLOCK, t)
  {
    var k := SplitMatch(Word("<script>") + [Any], Word("</script>"), t);
    OpenPartCovers(t[..k]);
    ClosePartCovers(t[k..]);
    JoinMatch(OPEN_TAG + [Any], CLOSE_TAG, t[..k], t[k..]);
    assert t[..k] + t[k..] == t;
  }

  // ---------------------------------------------------------------------
  // The verdict of the pattern list

  /** Each of the seven patterns matches only where pattern 2 matches. */
  lemma PatternImpliesScriptBlock(n: nat, s: string)
    requires n < |PATTERNS| && Matches(PATTERNS[n], s)
    ensures Matches(SCRIPT_BLOCK, s)
  {
    if n == 0 {
      var i, j :| 0 <= i <= j <= |s| && FullMatch(BARE_SCRIPT, s[i..j]);
      BareScriptIsScriptBlock(s[i..j]);
    } else if n == 2 {
      InnerMatch([Lit('<'), Line, Lit('>'), Any, Lit('<'), Line, Lit('>'), Any], SCRIPT_BLOCK,
                 [Any, Lit('<'), Line, Lit('>'), Any, Lit('<'), Lit('/'), Line, Lit('>')], s);
    } else if n == 3 {
      InnerMatch([Lit('"'), Any], SCRIPT_BLOCK, [Any, Lit('"')], s);
    } else if n == 4 {
      InnerMatch(Word("<svg>") + [Any], SCRIPT_BLOCK, [Any] + Word("</svg>"), s);
    } else if n == 5 {
      InnerMatch(Word("data:text/html;") + [Any], SCRIPT_BLOCK, [], s);
    } else if n == 6 {
      InnerMatch(Word("<style>") + [Any], SCRIPT_BLOCK, [Any] + Word("</style>"), s);
    }
  }

  /**
   * The list of seven patterns flags exactly the strings pattern 2 flags:
   * the other six add nothing to the verdict.
   */
  lemma MatchesAnyIffScriptBlock(s: string)
    ensures MatchesAny(s) <==> Matches(SCRIPT_BLOCK, s)
  {
    if MatchesAny(s) {
      var n :| 0 <= n < |PATTERNS| && Matches(PATTERNS[n], s);
      PatternImpliesScriptBlock(n, s);
    }
    if Matches(SCRIPT_BLOCK, s) {
      assert PATTERNS[1] == SCRIPT_BLOCK;
    }
  }

  /** Pattern 2 needs a `<` in the subject, so a string without one is never flagged. */
  lemma ScriptBlockNeedsAngle(s: string)
    requires Matches(SCRIPT_BLOCK, s)
    ensures '<' in s
  {
    var i, j :| 0 <= i <= j <= |s| && FullMatch(SCRIPT_BLOCK, s[i..j]);
    assert SCRIPT_BLOCK[0] == Lit('<');
    assert Fold(s[i..j][0]) == Fold('<');
    assert s[i..j][0] == s[i];
  }

  /**
   * An opening `<script>` in any letter case followed later by a closing
   * `</script>` is matched by pattern 1, and so by pattern 2.
   */
  lemma ScriptTagsMatch(s: string, i: nat, j: nat)
    requires i + 8 <= j && j + 9 <= |s|
    requires FoldEq(s[i..i + 8], "<script>") && FoldEq(s[j..j + 9], "</script>")
    ensures Matches(BARE_SCRIPT, s) && Matches(SCRIPT_BLOCK, s)
  {
    WordMatch("<script>", s[i..i + 8]);
    assert FullMatch([Any], s[i + 8..j]) by {
      var x := s[i + 8..j];
      assert [Any][1..] == [] && x[|x|..] == [];
      assert FullMatch([Any][1..], x[|x|..]);
    }
    JoinMatch(Word("<script>"), [Any], s[i..i + 8], s[i + 8..j]);
    assert s[i..i + 8] + s[i + 8..j] == s[i..j];
    WordMatch("</script>", s[j..j + 9]);
    JoinMatch(Word("<script>") + [Any], Word("</script>"), s[i..j], s[j..j + 9]);
    assert s[i..j] + s[j..j + 9] == s[i..j + 9];
    assert Matches(BARE_SCRIPT, s);
    PatternImpliesScriptBlock(0, s);
  }
}
