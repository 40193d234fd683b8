/**
 The front end on texts, said from characters alone: which tokens a text is made of, where and why
 scanning stops, and that a text is accepted exactly when it is the tokens of a document with layout
 between them.
 */
module HappyTexts {
  import opened Common
  import opened HappyAst
  import opened HappyLexer
  import opened HappyGrammar
  import opened HappyOrigins
  import opened HappyLayout
  import opened HappyPositions
  import opened HappyRoundTrip
  import opened HappySyntax

  // ---------------------------------------------------------------- one token

  predicate AreDigits(t: string, from: nat, end: nat)
    requires end <= |t|
  {
    forall i :: from <= i < end ==> IsDigit(t[i])
  }

  /** Why no token starts a text, layout apart. */
  predicate StopsAt(t: string, e: Terminal) {
    match e
    case EndOfInput => t == "" || t[0] == '\0'
    case DottedNumber =>
      t != "" && StartsInteger(t[0]) && exists n :: 1 <= n < |t| && t[n] == '.' && AreDigits(t, 1, n)
    case HugeInteger =>
      t != "" && StartsInteger(t[0])
      && exists n :: 1 <= n <= |t| && AreDigits(t, 1, n) && !IsDigit(CharAt(t, n)) && CharAt(t, n) != '.'
                     && DigitsValue(t, if IsDigit(t[0]) then 0 else 1, n) >= TWO63
    case UnclosedString =>
      t != "" && (t[0] == '\'' || t[0] == '"')
      && forall n :: 1 <= n < |t| && t[n] == t[0] ==> Unquoted(t[1..n], t[0]).None?
    case BadCharacter =>
      t != "" && !IsDigit(t[0]) && !IsLetter(t[0]) && t[0] !in "\0+-:.{}[]'\""
  }

  /** A literal is closed by a delimiter with nothing but characters and escapes before it. */
  lemma {:induction false} UnquotedScans(t: string, k: nat, n: nat, delim: char, done: string)
    requires k < n <= |t| && t[n - 1] == delim && delim != '\\' && Unquoted(t[k..n - 1], delim).Some?
    ensures ScanString(t, k, delim, done) == Closed(done + Unquoted(t[k..n - 1], delim).value, n)
    decreases n - k
  {
    var body := t[k..n - 1];
    if body != "" {
      assert body[0] == t[k];
      var step, c := if t[k] != '\\' then 1 else 2, if t[k] != '\\' then t[k] else Meant(body[1]);
      assert body[step..] == t[k + step..n - 1];
      UnquotedScans(t, k + step, n, delim, done + [c]);
      var more := Unquoted(body[step..], delim).value;
      assert done + [c] + more == done + ([c] + more);
    } else {
      assert done + "" == done;
    }
  }

  lemma SpelledLiteralScans(t: string, n: nat, content: string)
    requires 0 < n <= |t| && Spells(t, n, Quoted(content))
    ensures Scan(t) == Found(Quoted(content), n)
  {
    UnquotedScans(t, 1, n, t[0], "");
    assert "" + content == content;
  }

  lemma SpelledIntegerScans(t: string, n: nat, v: int64)
    requires 0 < n <= |t| && Spells(t, n, Whole(v))
    ensures Scan(t) == Found(Whole(v), n)
  {
    DigitsEndIs(t, 1, n);
    assert IntegerStart(t) == if IsDigit(t[0]) then 0 else 1;
  }

  lemma SpelledWordScans(t: string, n: nat, l: Lexeme)
    requires 0 < n <= |t| && Spells(t, n, l) && (l.Name? || l.Fixed?) && IsLetter(t[0])
    ensures Scan(t) == Found(l, n)
  {
    var w := t[..n];
    if l.Fixed? {
      KeywordIsWord(l.symbol, t[0]);
      assert forall i :: 0 <= i < n ==> t[i] == w[i];
    }
    NameEndIs(t, 1, n);
    assert NameOrKeyword(w) == l;
  }

  lemma KeywordIsWord(s: FixedSymbol, h: char)
    requires Spelling(s)[0] == h && IsLetter(h)
    ensures NameOrKeyword(Spelling(s)) == Fixed(s) && forall i :: 0 <= i < |Spelling(s)| ==> IsNameChar(Spelling(s)[i])
  {
  }

  lemma SpelledSignScans(t: string, n: nat, s: FixedSymbol)
    requires 0 < n <= |t| && Spells(t, n, Fixed(s)) && !IsLetter(t[0])
    ensures Scan(t) == Found(Fixed(s), n)
  {
    assert t[0] == t[..n][0] == Spelling(s)[0];
    assert SignOf(t[0]) == s && n == 1;
  }

  /** A token is scanned exactly when the text spells it, and takes the longest text that can belong to it. */
  lemma ScansExactly(t: string, n: nat, l: Lexeme)
    requires 0 < n <= |t|
    ensures Scan(t) == Found(l, n) <==> Spells(t, n, l)
  {
    if Scan(t) == Found(l, n) {
      MaximalMunch(t);
    }
    if Spells(t, n, l) {
      match l
      case Quoted(content) => SpelledLiteralScans(t, n, content);
      case Whole(v) => SpelledIntegerScans(t, n, v);
      case Name(_) => SpelledWordScans(t, n, l);
      case Fixed(s) =>
        if IsLetter(t[0]) {
          SpelledWordScans(t, n, l);
        } else {
          SpelledSignScans(t, n, s);
        }
    }
  }

  // ---------------------------------------------------------------- where scanning stops

  lemma IntegerStops(t: string, e: Terminal)
    requires t != "" && StartsInteger(t[0]) && (e.DottedNumber? || e.HugeInteger?)
    ensures Scan(t) == Stops(e) <==> StopsAt(t, e)
  {
    var n := DigitsEnd(t, 1);
    DigitsEndIsMaximal(t, 1);
    assert AreDigits(t, 1, n);
    assert IntegerStart(t) == if IsDigit(t[0]) then 0 else 1;
    forall m | 1 <= m <= |t| && AreDigits(t, 1, m) && !IsDigit(CharAt(t, m))
      ensures m == n
    {
      DigitsEndIs(t, 1, m);
    }
  }

  lemma LiteralStops(t: string)
    requires t != "" && (t[0] == '\'' || t[0] == '"')
    ensures Scan(t) == Stops(UnclosedString) <==> StopsAt(t, UnclosedString)
  {
    if Scan(t).Found? {
      LiteralIsUnquoted(t, 1, t[0], "");
    } else {
      forall n | 1 <= n < |t| && t[n] == t[0]
        ensures Unquoted(t[1..n], t[0]).None?
      {
        if Unquoted(t[1..n], t[0]).Some? {
          UnquotedScans(t, 1, n + 1, t[0], "");
        }
      }
    }
  }

  lemma SignsAre(c: char)
    ensures SignOf(c) == Invalid <==> c !in ":.{}[]"
  {
  }

  /**
   Scanning stops at the end of the text or at a NUL, at a number with a dot, at an integer that does not fit 64
   bits, at a literal without an end, or at a character that starts no token, and in each case exactly then.
   */
  lemma StopsExactly(t: string, e: Terminal)
    ensures Scan(t) == Stops(e) <==> StopsAt(t, e)
  {
    if t != "" {
      SignsAre(t[0]);
      if StartsInteger(t[0]) {
        IntegerStops(t, DottedNumber);
        IntegerStops(t, HugeInteger);
      } else if t[0] == '\'' || t[0] == '"' {
        LiteralStops(t);
      }
    }
  }

  // ---------------------------------------------------------------- whole texts

  /** The text is the tokens of ts with layout around them, up to where scanning stops. */
  predicate Written(t: string, ts: Stream) {
    match ts
    case Stop(e, _) => exists a: nat :: a <= |t| && IsLayoutBefore(t[..a], t[a..], false) && StopsAt(t[a..], e)
    case Step(l, _, tail) =>
      exists a: nat, b: nat :: a < b <= |t| && IsGap(t[..a]) && Spells(t[a..], b - a, l) && Written(t[b..], tail)
  }

  lemma SpellsNoLayout(t: string, n: nat, l: Lexeme)
    requires 0 < n <= |t| && Spells(t, n, l)
    ensures !IsLayout(t[0]) && t[0] != '\0'
  {
    ScansExactly(t, n, l);
  }

  lemma SkipsTo(t: string, a: nat, p: Position)
    requires a <= |t| && IsLayoutBefore(t[..a], t[a..], false)
    ensures SkipLayout(Cursor(t, p)).text == t[a..]
  {
    SkipsGap(t[..a], t[a..], p);
    assert t[..a] + t[a..] == t;
  }

  lemma ReadFound(t: string, a: nat, b: nat, l: Lexeme)
    requires a < b <= |t| && IsLayoutBefore(t[..a], t[a..], false) && Scan(t[a..]) == Found(l, b - a)
    ensures Read(t) == Step(l, NOWHERE, Read(t[b..]))
  {
    SkipsTo(t, a, NOWHERE);
    var at := SkipLayout(Cursor(t, NOWHERE));
    assert at.text[b - a..] == t[b..];
    ReadAnywhere(t[b..], Advance(at, b - a).pos);
  }

  lemma ReadStopped(t: string, a: nat, e: Terminal)
    requires a <= |t| && IsLayoutBefore(t[..a], t[a..], false) && Scan(t[a..]) == Stops(e)
    ensures Read(t) == Stop(e, NOWHERE)
  {
    SkipsTo(t, a, NOWHERE);
  }

  /** Every text starts with layout, and then a token or the end of scanning. */
  lemma LayoutFirst(t: string) returns (a: nat)
    ensures a <= |t| && IsLayoutBefore(t[..a], t[a..], false)
  {
    LayoutIsGap(Cursor(t, NOWHERE));
    a := |t| - |SkipLayout(Cursor(t, NOWHERE)).text|;
  }

  /** The tokens of a text are exactly those it is written with. */
  lemma {:induction false} ReadsExactly(t: string, ts: Stream)
    ensures Read(t) == Forget(ts) <==> Written(t, ts)
    decreases ts
  {
    if Read(t) == Forget(ts) {
      ReadIsWritten(t, ts);
    }
    if Written(t, ts) {
      WrittenIsRead(t, ts);
    }
  }

  lemma StopIsRead(t: string, a: nat, e: Terminal)
    requires a <= |t| && IsLayoutBefore(t[..a], t[a..], false)
    ensures StopsAt(t[a..], e) <==> Read(t) == Stop(e, NOWHERE)
  {
    StopsExactly(t[a..], e);
    var r := Scan(t[a..]);
    if r.Stops? {
      ReadStopped(t, a, r.terminal);
    } else {
      ReadFound(t, a, a + r.extent, r.lexeme);
    }
  }

  lemma StepIsRead(t: string, a: nat, b: nat, l: Lexeme)
    requires a < b <= |t| && IsGap(t[..a]) && Spells(t[a..], b - a, l)
    ensures Read(t) == Step(l, NOWHERE, Read(t[b..]))
  {
    ScansExactly(t[a..], b - a, l);
    SpellsNoLayout(t[a..], b - a, l);
    ReadFound(t, a, b, l);
  }

  /** A text that has a first token starts with a gap and that token. */
  lemma FirstIsWritten(t: string) returns (a: nat, b: nat)
    requires Read(t).Step?
    ensures a < b <= |t| && IsGap(t[..a]) && Spells(t[a..], b - a, Read(t).lexeme) && Read(t).tail == Read(t[b..])
  {
    a := LayoutFirst(t);
    var r := Scan(t[a..]);
    if r.Stops? {
      ReadStopped(t, a, r.terminal);
      assert false;
    }
    b := a + r.extent;
    ReadFound(t, a, b, r.lexeme);
    ScansExactly(t[a..], b - a, r.lexeme);
    SpellsNoLayout(t[a..], b - a, r.lexeme);
  }

  lemma {:induction false} ReadIsWritten(t: string, ts: Stream)
    requires Read(t) == Forget(ts)
    ensures Written(t, ts)
    decreases ts
  {
    if ts.Stop? {
      var a := LayoutFirst(t);
      StopIsRead(t, a, ts.terminal);
    } else {
      var a, b := FirstIsWritten(t);
      ReadIsWritten(t[b..], ts.tail);
    }
  }

  lemma {:induction false} WrittenIsRead(t: string, ts: Stream)
    requires Written(t, ts)
    ensures Read(t) == Forget(ts)
    decreases ts
  {
    match ts
    case Stop(e, _) =>
      var a: nat :| a <= |t| && IsLayoutBefore(t[..a], t[a..], false) && StopsAt(t[a..], e);
      StopIsRead(t, a, e);
    case Step(l, _, tail) =>
      var a: nat, b: nat :| a < b <= |t| && IsGap(t[..a]) && Spells(t[a..], b - a, l) && Written(t[b..], tail);
      StepIsRead(t, a, b, l);
      WrittenIsRead(t[b..], tail);
  }

  /**
   A text is parsed as a tree, origins aside, exactly when it is the tokens of a document standing for that tree
   with layout between them, up to its end or its first NUL outside a literal.
   */
  lemma TextIsParsedIff(file: string, s: string, root: Root)
    ensures var o := ParseText(file, s);
            (o.Done? && ForgetRoot(o.value) == ForgetRoot(root))
            <==> exists d: DocumentSyntax :: Written(s, DocumentTokens(d)) && ForgetRoot(DocumentTree(d, NOWHERE)) == ForgetRoot(root)
  {
    var o, start := ParseText(file, s), Start(file, s);
    ReadAnywhere(s, start.pos);
    if o.Done? && ForgetRoot(o.value) == ForgetRoot(root) {
      var d := DocumentSound(Tokens(start), start.pos);
      ReadsExactly(s, DocumentTokens(d));
      assert Written(s, DocumentTokens(d)) && ForgetRoot(DocumentTree(d, NOWHERE)) == ForgetRoot(root);
    }
    if d: DocumentSyntax :| Written(s, DocumentTokens(d)) && ForgetRoot(DocumentTree(d, NOWHERE)) == ForgetRoot(root) {
      ReadsExactly(s, DocumentTokens(d));
      DocumentComplete(d, NOWHERE);
      PositionsDoNotMatter(Tokens(start), start.pos, DocumentTokens(d), NOWHERE);
    }
  }

  // ---------------------------------------------------------------- characters

  const DIGITS := "0123456789"
  const SMALL := "abcdefghijklmnopqrstuvwxyz"
  const LARGE := "ABCDEFGHIJKLMNOPQRSTUVWXYZ"

  lemma DigitsAre(c: char)
    ensures '0' <= c <= '9' <==> c in DIGITS
  {
    if '0' <= c <= '9' {
      assert DIGITS[c as int - '0' as int] == c;
    }
  }

  lemma SmallAre(c: char)
    ensures 'a' <= c <= 'z' <==> c in SMALL
  {
    if 'a' <= c <= 'z' {
      assert SMALL[c as int - 'a' as int] == c;
    }
  }

  lemma LargeAre(c: char)
    ensures 'A' <= c <= 'Z' <==> c in LARGE
  {
    if 'A' <= c <= 'Z' {
      assert LARGE[c as int - 'A' as int] == c;
    }
  }

  /** The characters of each class, one by one. */
  lemma CharacterClasses(c: char)
    ensures IsDigit(c) <==> c in DIGITS
    ensures IsLetter(c) <==> c in SMALL || c in LARGE
    ensures IsNameChar(c) <==> c in SMALL || c in LARGE || c in DIGITS || c in "_"
    ensures IsLayout(c) <==> c in " \t\n\r#"
  {
    DigitsAre(c);
    SmallAre(c);
    LargeAre(c);
  }
}
