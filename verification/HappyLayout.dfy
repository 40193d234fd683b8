/**
 Layout never influences a parse: replacing every run of blanks and comments between
 tokens by any other self-terminated run leaves the outcome unchanged but for positions.
 */
module HappyLayout {
  import opened Common
  import opened HappyAst
  import opened HappyLexer
  import opened HappyGrammar
  import opened HappyOrigins

  /** Blanks and comments, every comment being closed by an end of line. */
  predicate IsRun(g: string, inComment: bool) {
    if g == "" then !inComment
    else if inComment then g[0] != '\0' && IsRun(g[1..], !EndsComment(g[0]))
    else IsLayout(g[0]) && IsRun(g[1..], g[0] == '#')
  }

  predicate IsGap(g: string) { IsRun(g, false) }

  /** The same, but the last comment may still be open. */
  predicate IsOpenRun(g: string, inComment: bool) {
    g == ""
    || (if inComment then g[0] != '\0' && IsOpenRun(g[1..], !EndsComment(g[0]))
        else IsLayout(g[0]) && IsOpenRun(g[1..], g[0] == '#'))
  }

  /** Layout in front of what can follow it: only where the input ends may a comment be open. */
  predicate IsLayoutBefore(g: string, u: string, inComment: bool) {
    if CharAt(u, 0) == '\0' then IsOpenRun(g, inComment) else IsRun(g, inComment) && !IsLayout(CharAt(u, 0))
  }

  // ---------------------------------------------------------------- what the lexer skips

  lemma {:induction false} SkipsComment(g: string, u: string, p: Position)
    requires IsLayoutBefore(g, u, true)
    ensures SkipLayout(SkipComment(Cursor(g + u, p))).text == u
    decreases |g|
  {
    if g == "" {
      assert g + u == u;
    } else {
      assert (g + u)[1..] == g[1..] + u;
      if EndsComment(g[0]) {
        SkipsGap(g, u, p);
      } else {
        SkipsComment(g[1..], u, NextColumn(p));
      }
    }
  }

  /** Layout in front of a text that does not start with layout is skipped, and nothing else. */
  lemma {:induction false} SkipsGap(g: string, u: string, p: Position)
    requires IsLayoutBefore(g, u, false)
    ensures SkipLayout(Cursor(g + u, p)).text == u
    decreases |g|, 0
  {
    if g == "" {
      assert g + u == u;
    } else {
      assert (g + u)[1..] == g[1..] + u;
      if g[0] == '#' {
        SkipsComment(g[1..], u, NextColumn(p));
      } else if g[0] == '\n' {
        SkipsGap(g[1..], u, NextLine(p));
      } else if g[0] == '\r' {
        SkipsGap(g[1..], u, p);
      } else {
        SkipsGap(g[1..], u, NextColumn(p));
      }
    }
  }

  lemma {:induction false} RunMayBeOpen(g: string, inComment: bool)
    requires IsRun(g, inComment)
    ensures IsOpenRun(g, inComment)
  {
    if g != "" {
      RunMayBeOpen(g[1..], if inComment then !EndsComment(g[0]) else g[0] == '#');
    }
  }

  predicate IsSuffix(u: string, t: string) {
    |u| <= |t| && t[|t| - |u|..] == u
  }

  /** What stands in t before its suffix u is layout; its last comment may be open if the input ends at u. */
  predicate LayoutBefore(t: string, u: string, inComment: bool) {
    IsSuffix(u, t) && IsLayoutBefore(t[..|t| - |u|], u, inComment)
  }

  lemma OneBefore(t: string, u: string, inComment: bool, after: bool)
    requires t != "" && LayoutBefore(t[1..], u, after)
    requires if inComment then t[0] != '\0' && after == !EndsComment(t[0]) else IsLayout(t[0]) && after == (t[0] == '#')
    ensures LayoutBefore(t, u, inComment)
  {
    RunStep(t, u);
  }

  /** What is skipped inside a comment closes it, unless the input ends there. */
  lemma {:induction false} CommentIsRun(c: Cursor)
    ensures LayoutBefore(c.text, SkipLayout(SkipComment(c)).text, true)
    decreases |c.text|, 1
  {
    if EndsComment(CharAt(c.text, 0)) {
      LayoutIsGap(c);
      EndsAsComment(c.text, SkipLayout(c).text);
    } else {
      var next := Cursor(c.text[1..], NextColumn(c.pos));
      CommentIsRun(next);
      OneBefore(c.text, SkipLayout(SkipComment(next)).text, true, true);
    }
  }

  lemma EndsAsComment(t: string, u: string)
    requires LayoutBefore(t, u, false) && EndsComment(CharAt(t, 0)) && (CharAt(t, 0) != '\0' ==> u != t)
    requires CharAt(t, 0) == '\0' ==> u == t
    ensures LayoutBefore(t, u, true)
  {
  }

  /** What the lexer skips is a gap, or layout with an open comment that runs into the end of the input. */
  lemma {:induction false} LayoutIsGap(c: Cursor)
    ensures LayoutBefore(c.text, SkipLayout(c).text, false)
    decreases |c.text|, 0
  {
    var h := CharAt(c.text, 0);
    if h == '#' {
      var next := Cursor(c.text[1..], NextColumn(c.pos));
      CommentIsRun(next);
      CommentStep(c);
      OneBefore(c.text, SkipLayout(SkipComment(next)).text, false, true);
    } else if IsBlank(h) {
      var next := Cursor(c.text[1..], AfterBlank(c.pos, h));
      BlankStep(c);
      LayoutIsGap(next);
      OneBefore(c.text, SkipLayout(next).text, false, false);
    } else {
      assert c.text[..0] == "" && c.text[0..] == c.text;
    }
  }

  lemma CommentStep(c: Cursor)
    requires CharAt(c.text, 0) == '#'
    ensures SkipLayout(c) == SkipLayout(SkipComment(Cursor(c.text[1..], NextColumn(c.pos))))
  {
  }

  function AfterBlank(p: Position, h: char): Position {
    if h == '\n' then NextLine(p) else if h == '\r' then p else NextColumn(p)
  }

  lemma BlankStep(c: Cursor)
    requires IsBlank(CharAt(c.text, 0))
    ensures SkipLayout(c) == SkipLayout(Cursor(c.text[1..], AfterBlank(c.pos, c.text[0])))
  {
  }

  lemma RunStep(t: string, u: string)
    requires t != "" && IsSuffix(u, t[1..])
    ensures IsSuffix(u, t) && t[..|t| - |u|] != "" && t[..|t| - |u|][0] == t[0]
    ensures t[..|t| - |u|][1..] == t[1..][..|t| - 1 - |u|]
  {
  }

  // ---------------------------------------------------------------- scanning is local

  /** Whether the character c cannot belong to the token before it. */
  predicate Separates(l: Lexeme, c: char) {
    match l
    case Whole(_) => !IsDigit(c) && c != '.'
    case Quoted(_) => true
    case Name(_) => !IsNameChar(c)
    case Fixed(_) => !IsNameChar(c)
  }

  lemma {:induction false} NameEndLocal(u: string, v: string, k: nat)
    requires k <= |u| && NameEnd(u, k) <= |v| && u[..NameEnd(u, k)] == v[..NameEnd(u, k)]
    requires !IsNameChar(CharAt(v, NameEnd(u, k)))
    ensures NameEnd(v, k) == NameEnd(u, k)
    decreases |u| - k
  {
    var n := NameEnd(u, k);
    if k < n {
      assert u[..n][k] == v[..n][k];
      NameEndLocal(u, v, k + 1);
    }
  }

  lemma {:induction false} DigitsEndLocal(u: string, v: string, k: nat)
    requires k <= |u| && DigitsEnd(u, k) <= |v| && u[..DigitsEnd(u, k)] == v[..DigitsEnd(u, k)]
    requires !IsDigit(CharAt(v, DigitsEnd(u, k)))
    ensures DigitsEnd(v, k) == DigitsEnd(u, k)
    decreases |u| - k
  {
    var n := DigitsEnd(u, k);
    if k < n {
      assert u[..n][k] == v[..n][k];
      DigitsEndLocal(u, v, k + 1);
    }
  }

  lemma {:induction false} ScanStringLocal(u: string, v: string, k: nat, delim: char, content: string)
    requires ScanString(u, k, delim, content).Closed?
    requires var n := ScanString(u, k, delim, content).extent; n <= |v| && u[..n] == v[..n]
    ensures ScanString(v, k, delim, content) == ScanString(u, k, delim, content)
    decreases |u| - k
  {
    var n := ScanString(u, k, delim, content).extent;
    assert forall i :: 0 <= i < n ==> u[i] == u[..n][i] == v[..n][i] == v[i];
    if u[k] == delim {
    } else if u[k] != '\\' {
      ScanStringLocal(u, v, k + 1, delim, content + [u[k]]);
    } else {
      ScanStringLocal(u, v, k + 2, delim, content + [Unescape(u[k + 1])]);
    }
  }

  lemma {:induction false} DigitsValueLocal(u: string, a: nat, b: nat, v: string, c: nat)
    requires a <= b <= |u| && c + (b - a) <= |v|
    requires forall i :: a <= i < b ==> u[i] == v[i - a + c]
    ensures DigitsValue(u, a, b) == DigitsValue(v, c, c + (b - a))
    decreases b
  {
    if a < b {
      assert u[b - 1] == v[c + (b - a) - 1];
      DigitsValueLocal(u, a, b - 1, v, c);
    }
  }

  lemma ScanIntegerLocal(u: string, v: string, n: nat, l: Lexeme)
    requires StartsInteger(CharAt(u, 0)) && ScanInteger(u) == Found(l, n)
    requires n <= |v| && u[..n] == v[..n] && Separates(l, CharAt(v, n))
    ensures StartsInteger(CharAt(v, 0)) && ScanInteger(v) == Found(l, n)
  {
    assert u[..n][0] == v[..n][0];
    DigitsEndLocal(u, v, 1);
    var k := IntegerStart(u);
    assert forall i :: 0 <= i < n ==> u[i] == u[..n][i] == v[..n][i] == v[i];
    DigitsValueLocal(u, k, n, v, k);
  }

  lemma ScanWordLocal(u: string, v: string, n: nat, l: Lexeme)
    requires u != "" && ScanWord(u) == Found(l, n)
    requires n <= |v| && u[..n] == v[..n] && Separates(l, CharAt(v, n))
    ensures v != "" && v[0] == u[0] && ScanWord(v) == Found(l, n)
  {
    assert u[..n][0] == v[..n][0];
    NameEndLocal(u, v, 1);
  }

  lemma ScanLiteralLocal(u: string, v: string, n: nat, l: Lexeme)
    requires u != "" && ScanLiteral(u) == Found(l, n)
    requires n <= |v| && u[..n] == v[..n]
    ensures v != "" && v[0] == u[0] && ScanLiteral(v) == Found(l, n)
  {
    assert u[..n][0] == v[..n][0];
    ScanStringLocal(u, v, 1, u[0], "");
  }

  /** A token is scanned the same wherever its text stands, if what follows cannot belong to it. */
  lemma {:induction false} ScanLocal(u: string, w: string, rest: string, l: Lexeme)
    requires Scan(u) == Found(l, |w|) && u[..|w|] == w && Separates(l, CharAt(rest, 0))
    ensures Scan(w + rest) == Found(l, |w|)
  {
    var v := w + rest;
    var n := |w|;
    assert v[..n] == w && CharAt(v, n) == CharAt(rest, 0);
    assert u[0] == w[0] == v[0];
    if StartsInteger(u[0]) {
      ScanIntegerLocal(u, v, n, l);
    } else if SignOf(u[0]) != Invalid {
    } else if u[0] == '\'' || u[0] == '"' {
      ScanLiteralLocal(u, v, n, l);
    } else {
      ScanWordLocal(u, v, n, l);
    }
  }

  /** What stands for itself or behind a backslash between two delimiters; None if a delimiter is among it. */
  function Unquoted(body: string, delim: char): Option<string> {
    if body == "" then Some("")
    else if body[0] == delim then None
    else if body[0] != '\\' then Prepend(body[0], Unquoted(body[1..], delim))
    else if |body| == 1 then None
    else Prepend(Meant(body[1]), Unquoted(body[2..], delim))
  }

  /** Behind a backslash, three letters stand for control characters and all else for itself. */
  function Meant(c: char): char {
    if c == 'n' then '\n' else if c == 't' then '\t' else if c == '0' then '\0' else c
  }

  function Prepend(c: char, r: Option<string>): Option<string> {
    if r.None? then None else Some([c] + r.value)
  }

  /** What the first n characters of t must be to spell the token l. */
  predicate Spells(t: string, n: nat, l: Lexeme)
    requires 0 < n <= |t|
  {
    match l
    case Fixed(s) => t[..n] == Spelling(s) && (IsLetter(t[0]) ==> !IsNameChar(CharAt(t, n)))
    case Name(w) =>
      t[..n] == w && IsLetter(t[0]) && !IsNameChar(CharAt(t, n))
      && (forall i :: 0 <= i < n ==> IsNameChar(t[i]))
      && forall s: FixedSymbol :: w != Spelling(s)
    case Whole(v) =>
      StartsInteger(t[0]) && !IsDigit(CharAt(t, n)) && CharAt(t, n) != '.'
      && (forall i :: 1 <= i < n ==> IsDigit(t[i])) && -TWO63 < v as int
      && v as int == (if t[0] == '-' then 0 - DigitsValue(t, 1, n)
                      else if t[0] == '+' then DigitsValue(t, 1, n) else DigitsValue(t, 0, n))
    case Quoted(content) =>
      n >= 2 && (t[0] == '\'' || t[0] == '"') && t[n - 1] == t[0] && Unquoted(t[1..n - 1], t[0]) == Some(content)
  }

  lemma {:induction false} NameEndIsMaximal(t: string, k: nat)
    requires k <= |t|
    ensures !IsNameChar(CharAt(t, NameEnd(t, k))) && forall i :: k <= i < NameEnd(t, k) ==> IsNameChar(t[i])
    decreases |t| - k
  {
    if IsNameChar(CharAt(t, k)) {
      NameEndIsMaximal(t, k + 1);
    }
  }

  lemma {:induction false} DigitsEndIsMaximal(t: string, k: nat)
    requires k <= |t|
    ensures !IsDigit(CharAt(t, DigitsEnd(t, k))) && forall i :: k <= i < DigitsEnd(t, k) ==> IsDigit(t[i])
    decreases |t| - k
  {
    if IsDigit(CharAt(t, k)) {
      DigitsEndIsMaximal(t, k + 1);
    }
  }

  /** A literal ends at the first delimiter that is not behind a backslash, and holds what is before it. */
  lemma {:induction false} LiteralIsUnquoted(t: string, k: nat, delim: char, done: string)
    requires ScanString(t, k, delim, done).Closed?
    ensures var r := ScanString(t, k, delim, done);
            k < r.extent <= |t| && t[r.extent - 1] == delim
            && Unquoted(t[k..r.extent - 1], delim).Some? && r.content == done + Unquoted(t[k..r.extent - 1], delim).value
    decreases |t| - k
  {
    var n := ScanString(t, k, delim, done).extent;
    if t[k] != delim {
      var step, c := if t[k] != '\\' then 1 else 2, if t[k] != '\\' then t[k] else Unescape(t[k + 1]);
      LiteralIsUnquoted(t, k + step, delim, done + [c]);
      assert t[k..n - 1][step..] == t[k + step..n - 1];
      var more := Unquoted(t[k + step..n - 1], delim).value;
      assert done + [c] + more == done + ([c] + more);
    }
  }

  lemma KeywordSpelling(s: FixedSymbol, w: string)
    requires NameOrKeyword(w) == Name(w) && w != "" && IsLetter(w[0])
    ensures w != Spelling(s)
  {
  }

  lemma WordIsMaximal(t: string)
    requires t != "" && IsLetter(t[0])
    ensures var r := ScanWord(t); Spells(t, r.extent, r.lexeme)
  {
    NameEndIsMaximal(t, 1);
    var w := t[..NameEnd(t, 1)];
    if NameOrKeyword(w).Name? {
      forall s: FixedSymbol
        ensures w != Spelling(s)
      {
        KeywordSpelling(s, w);
      }
    }
  }

  lemma IntegerIsMaximal(t: string)
    requires StartsInteger(CharAt(t, 0)) && ScanInteger(t).Found?
    ensures var r := ScanInteger(t); Spells(t, r.extent, r.lexeme)
  {
    DigitsEndIsMaximal(t, 1);
  }

  /** Every token takes exactly the longest text that can belong to it, and that text spells it. */
  lemma MaximalMunch(t: string)
    requires Scan(t).Found?
    ensures Spells(t, Scan(t).extent, Scan(t).lexeme)
  {
    if StartsInteger(t[0]) {
      IntegerIsMaximal(t);
    } else if SignOf(t[0]) != Invalid {
      assert t[..1] == [t[0]];
    } else if t[0] == '\'' || t[0] == '"' {
      LiteralIsUnquoted(t, 1, t[0], "");
      var body := Unquoted(t[1..Scan(t).extent - 1], t[0]).value;
      assert "" + body == body;
    } else {
      WordIsMaximal(t);
    }
  }

  // ---------------------------------------------------------------- respacing

  /** The text t with the i-th run of layout between its tokens replaced by gaps(i). */
  function Respace(t: string, gaps: nat -> string, i: nat): string
    decreases |t|
  {
    var u := SkipLayout(Cursor(t, NOWHERE)).text;
    var r := Scan(u);
    gaps(i) + if r.Stops? then u else u[..r.extent] + Respace(u[r.extent..], gaps, i + 1)
  }

  ghost predicate AreGaps(gaps: nat -> string) {
    forall i: nat :: IsGap(gaps(i)) && (i > 0 ==> gaps(i) != "")
  }

  lemma {:induction false} CommentTextAnywhere(t: string, p: Position, q: Position)
    ensures SkipComment(Cursor(t, p)).text == SkipComment(Cursor(t, q)).text
    decreases |t|
  {
    if !EndsComment(CharAt(t, 0)) {
      CommentTextAnywhere(t[1..], NextColumn(p), NextColumn(q));
    }
  }

  lemma {:induction false} LayoutTextAnywhere(t: string, p: Position, q: Position)
    ensures SkipLayout(Cursor(t, p)).text == SkipLayout(Cursor(t, q)).text
    decreases |t|
  {
    var h := CharAt(t, 0);
    if h == '\n' {
      LayoutTextAnywhere(t[1..], NextLine(p), NextLine(q));
    } else if h == '\r' {
      LayoutTextAnywhere(t[1..], p, q);
    } else if h == '#' {
      CommentTextAnywhere(t[1..], NextColumn(p), NextColumn(q));
      var c := SkipComment(Cursor(t[1..], NextColumn(p)));
      var d := SkipComment(Cursor(t[1..], NextColumn(q)));
      LayoutTextAnywhere(c.text, c.pos, d.pos);
    } else if IsLayout(h) {
      LayoutTextAnywhere(t[1..], NextColumn(p), NextColumn(q));
    }
  }

  /** A respaced text has the tokens of the original. */
  lemma {:induction false} RespaceKeepsTokens(t: string, gaps: nat -> string, i: nat, p: Position, q: Position)
    requires AreGaps(gaps)
    ensures Forget(Tokens(Cursor(Respace(t, gaps, i), p))) == Forget(Tokens(Cursor(t, q)))
    decreases |t|
  {
    LayoutTextAnywhere(t, q, NOWHERE);
    var at := SkipLayout(Cursor(t, q));
    var u := at.text;
    var r := Scan(u);
    if r.Stops? {
      RunMayBeOpen(gaps(i), false);
      SkipsGap(gaps(i), u, p);
    } else {
      var n := r.extent;
      var rest := Respace(u[n..], gaps, i + 1);
      NextGapSeparates(u[n..], gaps, i + 1, r.lexeme);
      ScanLocal(u, u[..n], rest, r.lexeme);
      SkipsGap(gaps(i), u[..n] + rest, p);
      var at' := SkipLayout(Cursor(Respace(t, gaps, i), p));
      assert at'.text == u[..n] + rest && (u[..n] + rest)[n..] == rest;
      RespaceKeepsTokens(u[n..], gaps, i + 1, Advance(at', n).pos, Advance(at, n).pos);
    }
  }

  lemma NextGapSeparates(t: string, gaps: nat -> string, i: nat, l: Lexeme)
    requires AreGaps(gaps) && i > 0
    ensures Separates(l, CharAt(Respace(t, gaps, i), 0))
  {
    assert IsLayout(gaps(i)[0]);
    assert CharAt(Respace(t, gaps, i), 0) == gaps(i)[0];
  }

  /**
   Replacing the layout of any text, accepted or not, by other gaps leaves the outcome of
   parsing it unchanged but for positions.
   */
  lemma LayoutDoesNotMatter(file: string, text: string, gaps: nat -> string)
    requires AreGaps(gaps)
    ensures ForgetOutcome(ParseText(file, Respace(text, gaps, 0)), ForgetRoot) == ForgetOutcome(ParseText(file, text), ForgetRoot)
  {
    var p := Start(file, text).pos;
    RespaceKeepsTokens(text, gaps, 0, p, p);
    PositionsDoNotMatter(Tokens(Start(file, Respace(text, gaps, 0))), p, Tokens(Start(file, text)), p);
  }
}
