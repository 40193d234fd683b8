/**
 Tokens and texts: exactly which token streams are those of a text, and so that every document with
 proper names can be written down and parsed.
 */
module HappySpelling {
  import opened HappyAst
  import opened HappyLexer
  import opened HappyGrammar
  import opened HappyOrigins
  import opened HappyLayout
  import opened HappyPositions
  import opened HappyPrint
  import opened HappyRoundTrip
  import HappySyntax

  /** A name is a word that is no keyword, and the least 64-bit integer has no spelling. */
  predicate Spellable(l: Lexeme) {
    match l
    case Fixed(_) => true
    case Name(w) => IsIdentifier(w)
    case Quoted(_) => true
    case Whole(n) => -TWO63 < n as int
  }

  predicate AllSpellable(ts: Stream) {
    ts.Step? ==> Spellable(ts.lexeme) && AllSpellable(ts.tail)
  }

  function SpellLexeme(l: Lexeme): string {
    match l
    case Fixed(s) => Spelling(s)
    case Name(w) => w
    case Quoted(content) => ['\''] + (Escape(content, '\'') + ['\''])
    case Whole(n) => IntegerText(n)
  }

  /** The tokens with a blank after each. */
  function Spell(ts: Stream): string {
    if ts.Stop? then "" else SpellLexeme(ts.lexeme) + ([' '] + Spell(ts.tail))
  }

  lemma SpellingIsWordOrSign(s: FixedSymbol)
    ensures var w := Spelling(s);
            if |w| == 1 then SignOf(w[0]) == s && w == [w[0]] else IsWord(w) && NameOrKeyword(w) == Fixed(s)
  {
  }

  lemma FixedReads(s: FixedSymbol, rest: string)
    requires !IsNameChar(CharAt(rest, 0))
    ensures Read(Spelling(s) + rest) == Step(Fixed(s), NOWHERE, Read(rest))
  {
    var w := Spelling(s);
    SpellingIsWordOrSign(s);
    if |w| == 1 {
      ReadSign(w[0], rest);
    } else {
      ReadWord(w, rest);
    }
  }

  lemma QuotedReads(content: string, rest: string)
    ensures Read(SpellLexeme(Quoted(content)) + rest) == Step(Quoted(content), NOWHERE, Read(rest))
  {
    var w := SpellLexeme(Quoted(content));
    EveryStringCanBeWritten(content, '\'', rest);
    assert w + rest == ['\''] + (Escape(content, '\'') + (['\''] + rest));
    ReadToken(w, rest, Quoted(content));
  }

  lemma LexemeReads(l: Lexeme, rest: string)
    requires Spellable(l)
    ensures Read(SpellLexeme(l) + ([' '] + rest)) == Step(l, NOWHERE, Read(rest))
  {
    var more := [' '] + rest;
    assert more[0] == ' ';
    ReadBlank(' ', rest);
    match l
    case Fixed(s) => FixedReads(s, more);
    case Name(w) => ReadWord(w, more);
    case Quoted(content) => QuotedReads(content, more);
    case Whole(n) => ReadInteger(n, more);
  }

  lemma {:induction false} SpellReads(ts: Stream)
    requires AllSpellable(ts) && Last(ts).terminal == EndOfInput
    ensures Read(Spell(ts)) == Forget(ts)
  {
    if ts.Step? {
      SpellReads(ts.tail);
      LexemeReads(ts.lexeme, Spell(ts.tail));
    }
  }

  lemma NamesAreWords(t: string, n: nat, w: string)
    requires 0 < n <= |t| && Spells(t, n, Name(w))
    ensures IsIdentifier(w)
  {
    assert w[0] == t[0];
    assert forall i :: 0 <= i < n ==> w[i] == t[i];
  }

  lemma ScannedIsSpellable(t: string)
    requires Scan(t).Found?
    ensures Spellable(Scan(t).lexeme)
  {
    MaximalMunch(t);
    match Scan(t).lexeme
    case Fixed(_) =>
    case Quoted(_) =>
    case Name(w) => NamesAreWords(t, Scan(t).extent, w);
    case Whole(_) =>
  }

  lemma {:induction false} TokensAreSpellable(c: Cursor)
    ensures AllSpellable(Tokens(c))
    decreases |c.text|
  {
    var at := SkipLayout(c);
    var r := Scan(at.text);
    if r.Found? {
      ScannedIsSpellable(at.text);
      TokensAreSpellable(Advance(at, r.extent));
    }
  }

  lemma {:induction false} ForgetSpellable(ts: Stream)
    ensures AllSpellable(Forget(ts)) == AllSpellable(ts)
  {
    if ts.Step? {
      ForgetSpellable(ts.tail);
    }
  }

  /** A complete token stream is that of some text, positions aside, exactly when all its tokens can be spelled. */
  lemma TextsWriteExactlyTheSpellable(ts: Stream)
    requires Last(ts).terminal == EndOfInput
    ensures (exists text: string :: Read(text) == Forget(ts)) <==> AllSpellable(ts)
  {
    if AllSpellable(ts) {
      SpellReads(ts);
      assert Read(Spell(ts)) == Forget(ts);
    }
    if text: string :| Read(text) == Forget(ts) {
      TokensAreSpellable(Cursor(text, NOWHERE));
      ForgetSpellable(Tokens(Cursor(text, NOWHERE)));
      ForgetSpellable(ts);
    }
  }

  lemma DocumentIsComplete(d: HappySyntax.DocumentSyntax)
    ensures Last(HappySyntax.DocumentTokens(d)).terminal == EndOfInput
  {
    var ts := HappySyntax.DocumentTokens(d);
    HappySyntax.DocumentComplete(d, NOWHERE);
    DocumentPlaced(ts, NOWHERE);
    TailHasLast(ParseDocument(ts, NOWHERE).rest, ts);
  }

  /** The text of a syntax tree is read back as that tree, whatever is nested in it, if its names are proper. */
  lemma EveryTreeHasAText(file: string, r: Root)
    requires AllSpellable(HappySyntax.DocumentTokens(HappySyntax.Write(r)))
    ensures var o := ParseText(file, Spell(HappySyntax.DocumentTokens(HappySyntax.Write(r))));
            o.Done? && ForgetRoot(o.value) == ForgetRoot(r)
  {
    var d := HappySyntax.Write(r);
    var ts := HappySyntax.DocumentTokens(d);
    DocumentIsComplete(d);
    SpellReads(ts);
    HappySyntax.EveryTreeIsParsed(r);
    var start := Start(file, Spell(ts));
    ReadAnywhere(Spell(ts), start.pos);
    PositionsDoNotMatter(Tokens(start), start.pos, ts, r.origin);
  }

  lemma LoneQuote()
    ensures Read("'") == Stop(UnclosedString, NOWHERE)
  {
    var c := Cursor("'", NOWHERE);
    assert SkipLayout(c) == c;
    TokenHead(c);
  }

  /** A text whose literal is never closed: parsing it has no outcome. */
  lemma SomeTextIsEndless(file: string)
    ensures ParseText(file, "INCLUDE" + ([' '] + "'")).Stuck?
  {
    var t := "INCLUDE" + ([' '] + "'");
    LexemeReads(Fixed(IncludeKw), "'");
    LoneQuote();
    ReadAnywhere(t, Start(file, t).pos);
    EndlessTokens(Tokens(Start(file, t)), Start(file, t).pos);
  }

  lemma EndlessTokens(ts: Stream, origin: Position)
    requires Forget(ts) == Step(Fixed(IncludeKw), NOWHERE, Stop(UnclosedString, NOWHERE))
    ensures ParseDocument(ts, origin).Stuck?
  {
    var root := EmptyRoot(origin);
    assert ts.lexeme == Fixed(IncludeKw) && Forget(ts.tail) == Stop(UnclosedString, NOWHERE);
    assert TakeString(ts.tail).Stuck?;
    assert Includes(ts, root).Stuck?;
  }
}
