/**
 Reading back what the printer writes. Qualified identifiers, types and struct fields always
 come back. A whole document comes back exactly when it has no declarations and no include
 path with a single quote or a backslash in it.
 */
module HappyRoundTrip {
  import opened HappyAst
  import opened HappyLexer
  import opened HappyGrammar
  import opened HappyOrigins
  import opened HappyLayout
  import opened HappyPrint
  import HappySyntax

  /** The tokens of a text, without their positions. */
  function Read(t: string): Stream {
    Forget(Tokens(Cursor(t, NOWHERE)))
  }

  lemma {:induction false} ReadAnywhere(t: string, p: Position)
    ensures Forget(Tokens(Cursor(t, p))) == Read(t)
    decreases |t|
  {
    LayoutTextAnywhere(t, p, NOWHERE);
    var a, b := SkipLayout(Cursor(t, p)), SkipLayout(Cursor(t, NOWHERE));
    var r := Scan(a.text);
    if r.Found? {
      ReadAnywhere(a.text[r.extent..], Advance(a, r.extent).pos);
      ReadAnywhere(a.text[r.extent..], Advance(b, r.extent).pos);
    }
  }

  lemma ReadToken(w: string, rest: string, l: Lexeme)
    requires Scan(w + rest) == Found(l, |w|)
    ensures Read(w + rest) == Step(l, NOWHERE, Read(rest))
  {
    var c := Cursor(w + rest, NOWHERE);
    assert SkipLayout(c) == c;
    assert (w + rest)[|w|..] == rest;
    ReadAnywhere(rest, Advance(c, |w|).pos);
  }

  lemma ReadBlank(b: char, rest: string)
    requires IsBlank(b)
    ensures Read([b] + rest) == Read(rest)
  {
    var c := Cursor([b] + rest, NOWHERE);
    assert c.text[1..] == rest;
    BlankStep(c);
    var d := Cursor(rest, AfterBlank(NOWHERE, b));
    SkipLayoutTwice(c);
    SkipLayoutTwice(d);
    ReadAnywhere(rest, d.pos);
  }

  // ---------------------------------------------------------------- words and signs

  predicate IsWord(w: string) {
    w != "" && IsLetter(w[0]) && forall i :: 0 <= i < |w| ==> IsNameChar(w[i])
  }

  /** What can be written as an identifier: a word that is not a keyword. */
  predicate IsIdentifier(w: string) {
    IsWord(w) && NameOrKeyword(w) == Name(w)
  }

  lemma {:induction false} NameEndIs(t: string, k: nat, n: nat)
    requires k <= n <= |t| && (forall i :: k <= i < n ==> IsNameChar(t[i])) && !IsNameChar(CharAt(t, n))
    ensures NameEnd(t, k) == n
    decreases n - k
  {
    if k < n {
      NameEndIs(t, k + 1, n);
    }
  }

  lemma ReadWord(w: string, rest: string)
    requires IsWord(w) && !IsNameChar(CharAt(rest, 0))
    ensures Read(w + rest) == Step(NameOrKeyword(w), NOWHERE, Read(rest))
  {
    var t := w + rest;
    assert t[..|w|] == w && CharAt(t, |w|) == CharAt(rest, 0);
    assert forall i :: 1 <= i < |w| ==> t[i] == w[i];
    NameEndIs(t, 1, |w|);
    assert Scan(t) == Found(NameOrKeyword(w), |w|);
    ReadToken(w, rest, NameOrKeyword(w));
  }

  lemma ReadSign(c: char, rest: string)
    requires SignOf(c) != Invalid
    ensures Read([c] + rest) == Step(Fixed(SignOf(c)), NOWHERE, Read(rest))
  {
    assert ([c] + rest)[0] == c;
    ReadToken([c], rest, Fixed(SignOf(c)));
  }

  // ---------------------------------------------------------------- integers

  lemma {:induction false} DecimalDigits(n: nat)
    ensures Decimal(n) != "" && forall i :: 0 <= i < |Decimal(n)| ==> IsDigit(Decimal(n)[i])
    ensures DigitsValue(Decimal(n), 0, |Decimal(n)|) == n
  {
    if n < 10 {
      assert DigitsValue(Decimal(n), 0, 0) == 0;
    } else {
      DecimalDigits(n / 10);
      var w, init := Decimal(n), Decimal(n / 10);
      DigitsValueLocal(init, 0, |init|, w, 0);
    }
  }

  lemma {:induction false} DigitsEndIs(t: string, k: nat, n: nat)
    requires k <= n <= |t| && (forall i :: k <= i < n ==> IsDigit(t[i])) && !IsDigit(CharAt(t, n))
    ensures DigitsEnd(t, k) == n
    decreases n - k
  {
    if k < n {
      DigitsEndIs(t, k + 1, n);
    }
  }

  /** The text that stands for a magnitude, behind a minus sign or not. */
  function SignedText(negative: bool, magnitude: nat): string {
    if negative then "-" + Decimal(magnitude) else Decimal(magnitude)
  }

  lemma MinusDigits(d: string)
    requires forall i :: 0 <= i < |d| ==> IsDigit(d[i])
    ensures var w := "-" + d; w[0] == '-' && |w| == 1 + |d| && forall i :: 1 <= i < |w| ==> IsDigit(w[i])
  {
    var w := "-" + d;
    forall i | 1 <= i < |w|
      ensures IsDigit(w[i])
    {
      assert w[i] == d[i - 1];
    }
  }

  lemma {:induction false} MinusValue(d: string, n: nat)
    requires n <= |d|
    ensures DigitsValue("-" + d, 1, 1 + n) == DigitsValue(d, 0, n)
    decreases n
  {
    if n > 0 {
      MinusValue(d, n - 1);
      assert ("-" + d)[n] == d[n - 1];
    }
  }

  lemma MinusShape(d: string)
    requires forall i :: 0 <= i < |d| ==> IsDigit(d[i])
    ensures var w := "-" + d;
            w[0] == '-' && |w| == 1 + |d| && (forall i :: 1 <= i < |w| ==> IsDigit(w[i]))
            && DigitsValue(w, 1, |w|) == DigitsValue(d, 0, |d|)
  {
    MinusDigits(d);
    MinusValue(d, |d|);
  }

  lemma SignedShape(negative: bool, magnitude: nat)
    ensures var w := SignedText(negative, magnitude); var first := if negative then 1 else 0;
            |w| > first && (w[0] == '-' <==> negative) && w[0] != '+' && StartsInteger(w[0])
            && (forall i :: first <= i < |w| ==> IsDigit(w[i]))
            && DigitsValue(w, first, |w|) == magnitude
  {
    DecimalDigits(magnitude);
    var d := Decimal(magnitude);
    assert IsDigit(d[0]);
    if negative {
      MinusShape(d);
    }
  }

  lemma SignedEnd(negative: bool, magnitude: nat, rest: string)
    requires !IsDigit(CharAt(rest, 0)) && CharAt(rest, 0) != '.'
    ensures var w := SignedText(negative, magnitude); var t := w + rest; var first := if negative then 1 else 0;
            |w| > first && StartsInteger(CharAt(t, 0)) && IntegerStart(t) == first && (t[0] == '-' <==> negative)
            && DigitsEnd(t, 1) == |w| && CharAt(t, |w|) != '.' && DigitsValue(t, first, |w|) == magnitude
  {
    SignedShape(negative, magnitude);
    var w := SignedText(negative, magnitude);
    var t := w + rest;
    var first := if negative then 1 else 0;
    assert forall i :: 0 <= i < |w| ==> t[i] == w[i];
    assert CharAt(t, |w|) == CharAt(rest, 0);
    DigitsEndIs(t, 1, |w|);
    DigitsValueLocal(w, first, |w|, t, first);
  }

  /** Every 64-bit integer but the least is read back; the least overflows before its sign is applied. */
  lemma ReadInteger(n: int64, rest: string)
    requires -TWO63 < n as int && !IsDigit(CharAt(rest, 0)) && CharAt(rest, 0) != '.'
    ensures Read(IntegerText(n) + rest) == Step(Whole(n), NOWHERE, Read(rest))
  {
    var magnitude: nat := if n < 0 then -(n as int) else n as int;
    SignedEnd(n < 0, magnitude, rest);
    var w := SignedText(n < 0, magnitude);
    assert w == IntegerText(n);
    assert ScanInteger(w + rest) == Found(Whole(n), |w|);
    ReadToken(w, rest, Whole(n));
  }

  /** The least 64-bit integer is printed, but is not read back. */
  lemma LeastIntegerIsLost(n: int64)
    requires n as int == -TWO63
    ensures Scan(IntegerText(n)) == Stops(HugeInteger)
  {
    var magnitude := -(n as int);
    SignedEnd(true, magnitude, "");
    var w := SignedText(true, magnitude);
    assert w == IntegerText(n) == w + "";
    assert ScanInteger(w + "") == Stops(HugeInteger);
  }

  // ---------------------------------------------------------------- string literals

  function EscapeChar(c: char, delim: char): string {
    if c == delim || c == '\\' then ['\\', c]
    else if c == '\n' then ['\\', 'n']
    else if c == '\t' then ['\\', 't']
    else if c == '\0' then ['\\', '0']
    else [c]
  }

  /** How a writer can spell any content between two delimiters. */
  function Escape(content: string, delim: char): string {
    if content == "" then "" else EscapeChar(content[0], delim) + Escape(content[1..], delim)
  }

  lemma ScanEscaped(t: string, k: nat, c: char, delim: char, done: string)
    requires delim == '\'' || delim == '"'
    requires var e := EscapeChar(c, delim); k + |e| <= |t| && t[k..k + |e|] == e
    ensures ScanString(t, k, delim, done) == ScanString(t, k + |EscapeChar(c, delim)|, delim, done + [c])
  {
    var e := EscapeChar(c, delim);
    assert t[k] == t[k..k + |e|][0];
    if |e| == 2 {
      assert t[k + 1] == t[k..k + |e|][1];
    }
  }

  /** The text at k spells the content, and a delimiter follows. */
  predicate Spelled(t: string, k: nat, content: string, delim: char) {
    var w := Escape(content, delim);
    k + |w| < |t| && t[k + |w|] == delim && t[k..k + |w|] == w
  }

  lemma SpelledFirst(t: string, k: nat, content: string, delim: char)
    requires content != "" && Spelled(t, k, content, delim)
    ensures var e := EscapeChar(content[0], delim);
            k + |e| <= |t| && t[k..k + |e|] == e && Spelled(t, k + |e|, content[1..], delim)
            && |Escape(content, delim)| == |e| + |Escape(content[1..], delim)|
  {
    var e, more := EscapeChar(content[0], delim), Escape(content[1..], delim);
    var w := Escape(content, delim);
    assert w == e + more && |w| == |e| + |more|;
    SplitSlice(t, k, e, more);
    assert (k + |e|) + |more| == k + |w|;
  }

  lemma SplitSlice(t: string, k: nat, e: string, more: string)
    requires k + |e + more| <= |t| && t[k..k + |e + more|] == e + more
    ensures t[k..k + |e|] == e && t[k + |e|..k + |e| + |more|] == more
  {
    var w := t[k..k + |e + more|];
    assert w[..|e|] == e && w[|e|..] == more;
    assert w[..|e|] == t[k..k + |e|];
    assert w[|e|..] == t[k + |e|..k + |e| + |more|];
  }

  lemma FirstOf(done: string, content: string)
    requires content != ""
    ensures done + [content[0]] + content[1..] == done + content
  {
    assert [content[0]] + content[1..] == content;
  }

  lemma {:induction false} EscapedScan(t: string, k: nat, content: string, delim: char, done: string)
    requires (delim == '\'' || delim == '"') && Spelled(t, k, content, delim)
    ensures ScanString(t, k, delim, done) == Closed(done + content, k + |Escape(content, delim)| + 1)
    decreases |content|
  {
    if content == "" {
      HappySyntax.Unit(done);
    } else {
      SpelledFirst(t, k, content, delim);
      ScanEscaped(t, k, content[0], delim, done);
      EscapedScan(t, k + |EscapeChar(content[0], delim)|, content[1..], delim, done + [content[0]]);
      FirstOf(done, content);
    }
  }

  lemma Enclosed(w: string, delim: char, rest: string)
    ensures var t := [delim] + (w + ([delim] + rest)); t[0] == delim && t[1..1 + |w|] == w && t[1 + |w|] == delim
  {
  }

  /** Every content, whatever its characters, has a spelling that is read back as it. */
  lemma EveryStringCanBeWritten(content: string, delim: char, rest: string)
    requires delim == '\'' || delim == '"'
    ensures Scan([delim] + (Escape(content, delim) + ([delim] + rest)))
            == Found(Quoted(content), |Escape(content, delim)| + 2)
  {
    var t := [delim] + (Escape(content, delim) + ([delim] + rest));
    Enclosed(Escape(content, delim), delim, rest);
    EscapedScan(t, 1, content, delim, "");
    HappySyntax.Unit(content);
  }

  // ---------------------------------------------------------------- include paths

  /** A path that the printer's quotes can hold. */
  predicate IsClean(path: string) {
    '\'' !in path && '\\' !in path
  }

  function QuotedText(path: string, rest: string): string {
    "'" + path + "'" + rest
  }

  lemma QuotedTextAt(path: string, rest: string, k: nat)
    requires 1 <= k <= |path| + 1
    ensures QuotedText(path, rest)[k] == if k <= |path| then path[k - 1] else '\''
  {
  }

  lemma {:induction false} CleanScan(path: string, rest: string, k: nat)
    requires IsClean(path) && 1 <= k <= |path| + 1
    ensures ScanString(QuotedText(path, rest), k, '\'', path[..k - 1]) == Closed(path, |path| + 2)
    decreases |path| - k
  {
    QuotedTextAt(path, rest, k);
    if k <= |path| {
      CleanScan(path, rest, k + 1);
      assert path[..k] == path[..k - 1] + [path[k - 1]];
    } else {
      assert path[..k - 1] == path;
    }
  }

  lemma {:induction false} ScanExtends(t: string, k: nat, delim: char, content: string)
    requires ScanString(t, k, delim, content).Closed?
    ensures content <= ScanString(t, k, delim, content).content
    decreases |t| - k
  {
    if t[k] == delim {
    } else if t[k] != '\\' {
      ScanExtends(t, k + 1, delim, content + [t[k]]);
    } else {
      ScanExtends(t, k + 2, delim, content + [Unescape(t[k + 1])]);
    }
  }

  /** Once the scan is behind the path, inside a run of backslashes, it never catches up. */
  lemma {:induction false} BehindForever(path: string, rest: string, k: nat, content: string)
    requires |content| < k - 1 <= |path| && content <= path
    requires forall i :: |content| <= i < k - 1 ==> path[i] == '\\'
    ensures var r := ScanString(QuotedText(path, rest), k, '\'', content); !(r.Closed? && r.content == path)
    decreases |path| - k
  {
    var t := QuotedText(path, rest);
    QuotedTextAt(path, rest, k);
    var r := ScanString(t, k, '\'', content);
    if r.Closed? && r.content == path && t[k] != '\'' {
      assert k <= |path|;
      if t[k] != '\\' {
        assert (content + [t[k]])[|content|] == t[k];
        ScanExtends(t, k + 1, '\'', content + [t[k]]);
      } else {
        QuotedTextAt(path, rest, k + 1);
        var c := Unescape(t[k + 1]);
        ScanExtends(t, k + 2, '\'', content + [c]);
        assert path[|content|] == c;
        BehindForever(path, rest, k + 2, content + [c]);
      }
    }
  }

  lemma {:induction false} DirtyScan(path: string, rest: string, k: nat)
    requires 1 <= k <= |path| + 1 && !IsClean(path[k - 1..])
    ensures var r := ScanString(QuotedText(path, rest), k, '\'', path[..k - 1]); !(r.Closed? && r.content == path)
    decreases |path| - k
  {
    var t := QuotedText(path, rest);
    var content := path[..k - 1];
    QuotedTextAt(path, rest, k);
    QuotedTextAt(path, rest, k + 1);
    if path[k - 1] == '\'' {
    } else if path[k - 1] == '\\' {
      var c := Unescape(t[k + 1]);
      var r := ScanString(t, k, '\'', content);
      if r.Closed? && r.content == path {
        ScanExtends(t, k + 2, '\'', content + [c]);
        assert path[|content|] == c;
        BehindForever(path, rest, k + 2, content + [c]);
      }
    } else {
      assert path[k - 1..][1..] == path[k..];
      assert path[..k] == content + [path[k - 1]];
      DirtyScan(path, rest, k + 1);
    }
  }

  /** A printed path is read back exactly when it has no single quote and no backslash in it. */
  lemma PathReadsBackIffClean(path: string, rest: string)
    ensures (Scan(QuotedText(path, rest)).Found? && Scan(QuotedText(path, rest)).lexeme == Quoted(path)) <==> IsClean(path)
    ensures IsClean(path) ==> Scan(QuotedText(path, rest)) == Found(Quoted(path), |path| + 2)
  {
    assert path[..0] == "" && path[0..] == path;
    if IsClean(path) {
      CleanScan(path, rest, 1);
    } else {
      DirtyScan(path, rest, 1);
    }
  }

  // ---------------------------------------------------------------- identifiers, types, fields

  predicate IsQualified(q: QualifiedIdentifier) {
    IsIdentifier(q.name) && forall i :: 0 <= i < |q.space| ==> IsIdentifier(q.space[i])
  }

  /** The tokens of a qualified identifier in front of the tokens k. */
  function QualifiedStream(q: QualifiedIdentifier, k: Stream): Stream
    decreases |q.space|
  {
    if q.space == [] then Step(Name(q.name), NOWHERE, k)
    else Step(Name(q.space[0]), NOWHERE, Step(Fixed(NamespaceSep), NOWHERE, QualifiedStream(q.(space := q.space[1..]), k)))
  }

  lemma DottedWritten(word: string, tail: string)
    requires IsIdentifier(word)
    ensures Read(word + ("." + tail)) == Step(Name(word), NOWHERE, Step(Fixed(NamespaceSep), NOWHERE, Read(tail)))
  {
    ReadSign('.', tail);
    ReadWord(word, "." + tail);
  }

  lemma DottedGroup(word: string, more: string, rest: string)
    ensures (word + "." + more) + rest == word + ("." + (more + rest))
  {
  }

  lemma {:induction false} QualifiedWritten(q: QualifiedIdentifier, rest: string)
    requires IsQualified(q) && !IsNameChar(CharAt(rest, 0))
    ensures Read(QualifiedText(q) + rest) == QualifiedStream(q, Read(rest))
    decreases |q.space|
  {
    if q.space == [] {
      ReadWord(q.name, rest);
    } else {
      var more := q.(space := q.space[1..]);
      QualifiedWritten(more, rest);
      DottedWritten(q.space[0], QualifiedText(more) + rest);
      DottedGroup(q.space[0], QualifiedText(more), rest);
    }
  }

  lemma FirstPart(done: seq<string>, space: seq<string>)
    requires space != []
    ensures done + [space[0]] + space[1..] == done + space
  {
    assert [space[0]] + space[1..] == space;
  }

  lemma {:induction false} QualifiedPartsReadBack(done: seq<string>, q: QualifiedIdentifier, k: Stream)
    requires k.Symbol() != NamespaceSep
    ensures var ts := QualifiedStream(q, k);
            QualifiedMore(ts.tail, done, ts.lexeme.text) == Done(QualifiedIdentifier(done + q.space, q.name), k)
    decreases |q.space|
  {
    if q.space == [] {
      assert done + [] == done;
    } else {
      var more := q.(space := q.space[1..]);
      QualifiedPartsReadBack(done + [q.space[0]], more, k);
      FirstPart(done, q.space);
    }
  }

  lemma QualifiedStreamReadBack(q: QualifiedIdentifier, k: Stream)
    requires k.Symbol() != NamespaceSep
    ensures ParseQualified(QualifiedStream(q, k)) == Done(q, k)
  {
    QualifiedPartsReadBack([], q, k);
    assert [] + q.space == q.space;
  }

  /** A printed qualified identifier is read back. */
  lemma QualifiedReadsBack(q: QualifiedIdentifier, rest: string)
    requires IsQualified(q) && !IsNameChar(CharAt(rest, 0)) && Read(rest).Symbol() != NamespaceSep
    ensures ParseQualified(Read(QualifiedText(q) + rest)) == Done(q, Read(rest))
  {
    QualifiedWritten(q, rest);
    QualifiedStreamReadBack(q, Read(rest));
  }

  predicate IsType(t: Type) {
    IsQualified(t.identifier) && (t.arraySize.ArrayOf? ==> -TWO63 < t.arraySize.size as int)
  }

  function ArrayStream(n: int64, k: Stream): Stream {
    Step(Fixed(BracketOpen), NOWHERE, Step(Whole(n), NOWHERE, Step(Fixed(BracketClose), NOWHERE, k)))
  }

  function TypeStream(t: Type, k: Stream): Stream {
    QualifiedStream(t.identifier, if t.arraySize.NotArray? then k else ArrayStream(t.arraySize.size, k))
  }

  lemma SizeWritten(n: int64, rest: string)
    requires -TWO63 < n as int
    ensures Read(IntegerText(n) + ("]" + rest)) == ArrayStream(n, Read(rest)).tail
  {
    var close := "]" + rest;
    ReadSign(']', rest);
    assert CharAt(close, 0) == ']';
    ReadInteger(n, close);
  }

  lemma ArrayWritten(n: int64, rest: string)
    requires -TWO63 < n as int
    ensures Read("[" + (IntegerText(n) + ("]" + rest))) == ArrayStream(n, Read(rest))
  {
    SizeWritten(n, rest);
    ReadSign('[', IntegerText(n) + ("]" + rest));
  }

  lemma TypeWritten(t: Type, rest: string)
    requires IsType(t) && !IsNameChar(CharAt(rest, 0))
    ensures Read(TypeText(t) + rest) == TypeStream(t, Read(rest))
  {
    if t.arraySize.NotArray? {
      assert TypeText(t) == QualifiedText(t.identifier);
      QualifiedWritten(t.identifier, rest);
    } else {
      var size := IntegerText(t.arraySize.size);
      var brackets := "[" + (size + ("]" + rest));
      ArrayWritten(t.arraySize.size, rest);
      QualifiedWritten(t.identifier, brackets);
      BracketsGroup(QualifiedText(t.identifier), size, rest);
    }
  }

  lemma BracketsGroup(id: string, size: string, rest: string)
    ensures id + ("[" + size + "]") + rest == id + ("[" + (size + ("]" + rest)))
  {
  }

  lemma TypeStreamReadBack(t: Type, k: Stream)
    requires k.Symbol() != NamespaceSep && k.Symbol() != BracketOpen
    ensures ParseType(TypeStream(t, k)) == Done(t, k)
  {
    QualifiedStreamReadBack(t.identifier, if t.arraySize.NotArray? then k else ArrayStream(t.arraySize.size, k));
  }

  /** A printed type is read back. */
  lemma TypeReadsBack(t: Type, rest: string)
    requires IsType(t) && !IsNameChar(CharAt(rest, 0)) && Read(rest).Symbol() !in {NamespaceSep, BracketOpen}
    ensures ParseType(Read(TypeText(t) + rest)) == Done(t, Read(rest))
  {
    TypeWritten(t, rest);
    TypeStreamReadBack(t, Read(rest));
  }

  predicate IsField(f: StructField) {
    IsIdentifier(f.identifier) && IsType(f.typ)
  }

  function FieldStream(f: StructField, k: Stream): Stream {
    Step(Name(f.identifier), NOWHERE, Step(Fixed(Colon), NOWHERE, TypeStream(f.typ, k)))
  }

  function FieldsStream(fs: seq<StructField>, k: Stream): Stream {
    if fs == [] then k else FieldStream(fs[0], FieldsStream(fs[1..], k))
  }

  lemma ColonWritten(t: Type, rest: string)
    requires IsType(t)
    ensures Read(":" + (" " + (TypeText(t) + ("\n" + rest)))) == Step(Fixed(Colon), NOWHERE, TypeStream(t, Read(rest)))
  {
    var typ := TypeText(t) + ("\n" + rest);
    ReadSign(':', " " + typ);
    ReadBlank(' ', typ);
    TypeWritten(t, "\n" + rest);
    ReadBlank('\n', rest);
  }

  lemma FieldWritten(f: StructField, rest: string)
    requires IsField(f)
    ensures Read((" " + StructFieldText(f) + "\n") + rest) == FieldStream(f, Read(rest))
  {
    var colon := ":" + (" " + (TypeText(f.typ) + ("\n" + rest)));
    ColonWritten(f.typ, rest);
    ReadWord(f.identifier, colon);
    ReadBlank(' ', f.identifier + colon);
    FieldGroup(f.identifier, TypeText(f.typ), rest);
  }

  lemma FieldGroup(id: string, typ: string, rest: string)
    ensures (" " + (id + ": " + typ) + "\n") + rest == " " + (id + (":" + (" " + (typ + ("\n" + rest)))))
  {
  }

  lemma {:induction false} FieldsWritten(fs: seq<StructField>, rest: string)
    requires forall i :: 0 <= i < |fs| ==> IsField(fs[i])
    ensures Read(StructFieldsText(fs) + ("}" + rest)) == FieldsStream(fs, Step(Fixed(CurlyClose), NOWHERE, Read(rest)))
    decreases |fs|
  {
    if fs == [] {
      ReadSign('}', rest);
      assert StructFieldsText(fs) + ("}" + rest) == "}" + rest;
    } else {
      FieldsWritten(fs[1..], rest);
      FieldWritten(fs[0], StructFieldsText(fs[1..]) + ("}" + rest));
      HappyPrint.Regroup(" " + StructFieldText(fs[0]) + "\n", StructFieldsText(fs[1..]), "}" + rest);
    }
  }

  lemma ForgetFirst(fs: seq<StructField>)
    requires fs != []
    ensures ForgetStructFields(fs) == [ForgetStructField(fs[0])] + ForgetStructFields(fs[1..])
  {
  }

  lemma {:induction false} FieldsStreamReadBack(fs: seq<StructField>, k: Stream, done: seq<StructField>)
    requires k.Symbol() == CurlyClose
    ensures StructFields(FieldsStream(fs, k), done) == Done(done + ForgetStructFields(fs), k)
    decreases |fs|
  {
    if fs == [] {
      assert ForgetStructFields(fs) == [];
      HappySyntax.Unit(done);
    } else {
      TypeStreamReadBack(fs[0].typ, FieldsStream(fs[1..], k));
      FieldsStreamReadBack(fs[1..], k, done + [ForgetStructField(fs[0])]);
      ForgetFirst(fs);
      HappySyntax.Regroup(done, ForgetStructField(fs[0]), ForgetStructFields(fs[1..]));
    }
  }

  /** The printed fields of a struct, in front of its closing brace, are read back. */
  lemma FieldsReadBack(fs: seq<StructField>, rest: string)
    requires forall i :: 0 <= i < |fs| ==> IsField(fs[i])
    ensures StructFields(Read(StructFieldsText(fs) + ("}" + rest)), [])
            == Done(ForgetStructFields(fs), Step(Fixed(CurlyClose), NOWHERE, Read(rest)))
  {
    var k := Step(Fixed(CurlyClose), NOWHERE, Read(rest));
    FieldsWritten(fs, rest);
    FieldsStreamReadBack(fs, k, []);
    HappySyntax.Unit(ForgetStructFields(fs));
  }

  // ---------------------------------------------------------------- documents

  function IncludesStream(incs: seq<Include>, k: Stream): Stream {
    if incs == [] then k
    else Step(Fixed(IncludeKw), NOWHERE, Step(Quoted(incs[0].path), NOWHERE, IncludesStream(incs[1..], k)))
  }

  /** Whatever the path is, its printed INCLUDE line starts with the keyword and a quote. */
  lemma IncludeStarts(path: string, rest: string)
    ensures Read((IncludeText(Include(path, NOWHERE)) + "\n") + rest)
            == Step(Fixed(IncludeKw), NOWHERE, Read(QuotedText(path, "\n" + rest)))
  {
    var quoted := QuotedText(path, "\n" + rest);
    IncludeGroup(path, rest);
    ReadWord("INCLUDE", " " + quoted);
    ReadBlank(' ', quoted);
  }

  lemma IncludeGroup(path: string, rest: string)
    ensures (("INCLUDE '" + path + "'") + "\n") + rest == "INCLUDE" + (" " + QuotedText(path, "\n" + rest))
  {
  }

  lemma CleanQuoted(path: string, rest: string)
    requires IsClean(path)
    ensures Read(QuotedText(path, "\n" + rest)) == Step(Quoted(path), NOWHERE, Read(rest))
  {
    var w := "'" + path + "'";
    assert QuotedText(path, "\n" + rest) == w + ("\n" + rest);
    PathReadsBackIffClean(path, "\n" + rest);
    ReadToken(w, "\n" + rest, Quoted(path));
    ReadBlank('\n', rest);
  }

  predicate AreClean(incs: seq<Include>) {
    forall i :: 0 <= i < |incs| ==> IsClean(incs[i].path)
  }

  lemma {:induction false} IncludesWritten(incs: seq<Include>, rest: string)
    requires AreClean(incs)
    ensures Read(IncludesText(incs) + rest) == IncludesStream(incs, Read(rest))
    decreases |incs|
  {
    if incs == [] {
      assert IncludesText(incs) + rest == rest;
    } else {
      var more := IncludesText(incs[1..]) + rest;
      IncludesWritten(incs[1..], rest);
      HappyPrint.Regroup(IncludeText(incs[0]) + "\n", IncludesText(incs[1..]), rest);
      IncludeStarts(incs[0].path, more);
      CleanQuoted(incs[0].path, more);
    }
  }

  function ForgetIncludes(incs: seq<Include>): seq<Include> {
    seq(|incs|, i requires 0 <= i < |incs| => ForgetInclude(incs[i]))
  }

  lemma {:induction false} IncludesStreamReadBack(incs: seq<Include>, k: Stream, root: Root)
    requires k.Symbol() != IncludeKw
    ensures Includes(IncludesStream(incs, k), root) == Done(root.(includes := root.includes + ForgetIncludes(incs)), k)
    decreases |incs|
  {
    if incs == [] {
      assert root.includes + ForgetIncludes(incs) == root.includes;
    } else {
      var i := ForgetInclude(incs[0]);
      IncludesStreamReadBack(incs[1..], k, root.(includes := root.includes + [i]));
      assert root.includes + [i] + ForgetIncludes(incs[1..]) == root.includes + ForgetIncludes(incs);
    }
  }

  /** The name space a document can have: none, or a qualified identifier. */
  predicate IsSpace(q: QualifiedIdentifier) {
    q == NO_NAMESPACE || IsQualified(q)
  }

  function SpaceStream(q: QualifiedIdentifier, k: Stream): Stream {
    if q == NO_NAMESPACE then k else Step(Fixed(NamespaceKw), NOWHERE, QualifiedStream(q, k))
  }

  lemma SpaceWritten(q: QualifiedIdentifier, rest: string)
    requires IsSpace(q)
    ensures Read(NamespaceText(q) + rest) == SpaceStream(q, Read(rest))
  {
    if q == NO_NAMESPACE {
      assert NamespaceText(q) + rest == rest;
    } else {
      var space := QualifiedText(q) + ("\n" + rest);
      SpaceGroup(QualifiedText(q), rest);
      ReadWord("NAMESPACE", " " + space);
      ReadBlank(' ', space);
      QualifiedWritten(q, "\n" + rest);
      ReadBlank('\n', rest);
    }
  }

  lemma SpaceGroup(q: string, rest: string)
    ensures ("NAMESPACE " + q + "\n") + rest == "NAMESPACE" + (" " + (q + ("\n" + rest)))
  {
  }

  /** The header of a printed document, when its paths are clean, is read back. */
  lemma HeaderReadsBack(incs: seq<Include>, space: QualifiedIdentifier, k: Stream)
    requires k.Symbol() in {Eof, Identifier, StructKw}
    ensures Header(IncludesStream(incs, SpaceStream(space, k)), EmptyRoot(NOWHERE))
            == Done(EmptyRoot(NOWHERE).(includes := ForgetIncludes(incs), space := space), k)
  {
    IncludesStreamReadBack(incs, SpaceStream(space, k), EmptyRoot(NOWHERE));
    assert [] + ForgetIncludes(incs) == ForgetIncludes(incs);
    if space != NO_NAMESPACE {
      QualifiedStreamReadBack(space, k);
    }
  }

  lemma IncludesExtend(ts: Stream, root: Root)
    requires Includes(ts, root).Done?
    ensures root.includes <= Includes(ts, root).value.includes
  {
    var incs := HappySyntax.IncludesSound(ts, root);
  }

  /** A path that is not clean is read as another path, or not at all. */
  lemma DirtyQuoted(path: string, rest: string)
    requires !IsClean(path)
    ensures var o := TakeString(Read(QuotedText(path, rest))); o.Done? ==> o.value != path
  {
    var t := QuotedText(path, rest);
    PathReadsBackIffClean(path, rest);
    assert t[0] == '\'';
    TokenHead(Cursor(t, NOWHERE));
  }

  lemma DirtyInclude(q: Stream, path: string, root: Root)
    requires var o := TakeString(q); o.Done? ==> o.value != path
    ensures var r := Includes(Step(Fixed(IncludeKw), NOWHERE, q), root);
            r.Done? ==> |root.includes| < |r.value.includes| && r.value.includes[|root.includes|].path != path
  {
    var ts := Step(Fixed(IncludeKw), NOWHERE, q);
    var o := TakeString(q);
    if Includes(ts, root).Done? {
      var next := root.(includes := root.includes + [Include(o.value, NOWHERE)]);
      IncludesExtend(o.rest, next);
      assert next.includes[|root.includes|].path == o.value;
    }
  }

  lemma CleanInclude(path: string, k: Stream, root: Root)
    ensures Includes(Step(Fixed(IncludeKw), NOWHERE, Step(Quoted(path), NOWHERE, k)), root)
            == Includes(k, root.(includes := root.includes + [Include(path, NOWHERE)]))
  {
  }

  lemma WithFirst(done: seq<Include>, incs: seq<Include>)
    requires incs != []
    ensures var both := done + ForgetIncludes(incs);
            |both| > |done| && both[|done|].path == incs[0].path
            && done + [Include(incs[0].path, NOWHERE)] + ForgetIncludes(incs[1..]) == both
  {
  }

  lemma {:induction false} DirtyIncludes(incs: seq<Include>, rest: string, root: Root)
    requires !AreClean(incs)
    ensures var o := Includes(Read(IncludesText(incs) + rest), root);
            o.Done? ==> !(root.includes + ForgetIncludes(incs) <= o.value.includes)
    decreases |incs|
  {
    var more := IncludesText(incs[1..]) + rest;
    var path := incs[0].path;
    HappyPrint.Regroup(IncludeText(incs[0]) + "\n", IncludesText(incs[1..]), rest);
    IncludeStarts(path, more);
    WithFirst(root.includes, incs);
    if IsClean(path) {
      CleanQuoted(path, more);
      CleanInclude(path, Read(more), root);
      DirtyIncludes(incs[1..], rest, root.(includes := root.includes + [Include(path, NOWHERE)]));
    } else {
      DirtyQuoted(path, "\n" + more);
      DirtyInclude(Read(QuotedText(path, "\n" + more)), path, root);
    }
  }

  lemma DocumentKeepsIncludes(ts: Stream)
    requires ParseDocument(ts, NOWHERE).Done?
    ensures Includes(ts, EmptyRoot(NOWHERE)).Done?
    ensures ParseDocument(ts, NOWHERE).value.includes == Includes(ts, EmptyRoot(NOWHERE)).value.includes
  {
    var r := Header(ts, EmptyRoot(NOWHERE));
    var ds, end := HappySyntax.DeclarationsSound(r.rest, r.value);
  }

  lemma StructsStart(ss: seq<Struct>)
    ensures Read(StructsText(ss)) == Stop(EndOfInput, NOWHERE) || Read(StructsText(ss)).Symbol() == Identifier
    ensures Read(StructsText(ss)).Symbol() == Identifier <==> ss != []
  {
    if ss == [] {
      assert Scan("") == Stops(EndOfInput);
      TokenHead(Cursor("", NOWHERE));
    } else {
      var body := ss[0].identifier + "\n{\n" + (StructFieldsText(ss[0].fields) + "}") + "\n" + StructsText(ss[1..]);
      StructGroup(ss[0], StructsText(ss[1..]));
      ReadWord("DATA", " " + body);
    }
  }

  lemma StructGroup(s: Struct, rest: string)
    ensures (StructText(s) + "\n") + rest
            == "DATA" + (" " + (s.identifier + "\n{\n" + (StructFieldsText(s.fields) + "}") + "\n" + rest))
  {
  }

  /** The printed document parses to the same tree, origins aside. */
  predicate ComesBack(file: string, root: Root) {
    var o := ParseText(file, RootText(root));
    o.Done? && ForgetRoot(o.value) == ForgetRoot(root)
  }

  lemma ComesBackForgetting(file: string, root: Root)
    ensures var o := ParseDocument(Read(RootText(root)), NOWHERE);
            ComesBack(file, root) <==> o.Done? && o.value == ForgetRoot(root)
  {
    var start := Start(file, RootText(root));
    ReadAnywhere(RootText(root), start.pos);
    DocumentForgets(Tokens(start), start.pos);
  }

  lemma RootWritten(root: Root)
    requires IsSpace(root.space) && AreClean(root.includes)
    ensures Read(RootText(root)) == IncludesStream(root.includes, SpaceStream(root.space, Read(StructsText(root.structs))))
  {
    IncludesWritten(root.includes, NamespaceText(root.space) + StructsText(root.structs));
    SpaceWritten(root.space, StructsText(root.structs));
  }

  lemma HeaderThenEnd(incs: seq<Include>, space: QualifiedIdentifier, k: Stream)
    requires k == Stop(EndOfInput, NOWHERE) || k.Symbol() == Identifier
    ensures var o := ParseDocument(IncludesStream(incs, SpaceStream(space, k)), NOWHERE);
            if k.Symbol() == Identifier then o.Thrown?
            else o == Done(EmptyRoot(NOWHERE).(includes := ForgetIncludes(incs), space := space), k)
  {
    HeaderReadsBack(incs, space, k);
  }

  lemma CleanComesBack(root: Root)
    requires IsSpace(root.space) && AreClean(root.includes)
    ensures var o := ParseDocument(Read(RootText(root)), NOWHERE);
            if root.structs == []
            then o == Done(EmptyRoot(NOWHERE).(includes := ForgetIncludes(root.includes), space := root.space), Stop(EndOfInput, NOWHERE))
            else o.Thrown?
  {
    RootWritten(root);
    StructsStart(root.structs);
    HeaderThenEnd(root.includes, root.space, Read(StructsText(root.structs)));
  }

  lemma DirtyDoesNotComeBack(root: Root)
    requires !AreClean(root.includes)
    ensures var o := ParseDocument(Read(RootText(root)), NOWHERE); !(o.Done? && o.value == ForgetRoot(root))
  {
    var ts := Read(RootText(root));
    DirtyIncludes(root.includes, NamespaceText(root.space) + StructsText(root.structs), EmptyRoot(NOWHERE));
    assert [] + ForgetIncludes(root.includes) == ForgetIncludes(root.includes) == ForgetRoot(root).includes;
    if ParseDocument(ts, NOWHERE).Done? {
      DocumentKeepsIncludes(ts);
    }
  }

  lemma BareRootIff(root: Root)
    ensures EmptyRoot(NOWHERE).(includes := ForgetIncludes(root.includes), space := root.space) == ForgetRoot(root)
            <==> root.structs == [] && root.mappings == [] && root.encodings == []
  {
    var f := ForgetRoot(root);
    assert |f.structs| == |root.structs| && |f.mappings| == |root.mappings| && |f.encodings| == |root.encodings|;
  }

  /** Exactly which printed documents are read back. */
  lemma DocumentComesBackIff(file: string, root: Root)
    requires IsSpace(root.space)
    ensures ComesBack(file, root)
            <==> root.structs == [] && root.mappings == [] && root.encodings == [] && AreClean(root.includes)
  {
    ComesBackForgetting(file, root);
    if AreClean(root.includes) {
      CleanComesBack(root);
      BareRootIff(root);
    } else {
      DirtyDoesNotComeBack(root);
    }
  }
}
