/**
 Positions are exact, errors point at the token that caused them, and the parser can only
 hang on a string literal whose closing delimiter is missing.
 */
module HappyPositions {
  import opened HappyAst
  import opened HappyLexer
  import opened HappyGrammar
  import opened HappyLayout

  // ---------------------------------------------------------------- lines and columns

  function Newlines(w: string): nat {
    if w == "" then 0 else Newlines(w[..|w| - 1]) + if w[|w| - 1] == '\n' then 1 else 0
  }

  /** Where the last line of w starts. */
  function LastLine(w: string): (n: nat)
    ensures n <= |w| && (n == 0 || w[n - 1] == '\n')
    ensures forall i :: n <= i < |w| ==> w[i] != '\n'
  {
    if w == "" || w[|w| - 1] == '\n' then |w| else LastLine(w[..|w| - 1])
  }

  /** The line is exact; the column is, unless a carriage return has been passed. */
  predicate Exact(w: string, p: Position) {
    p.line == 1 + Newlines(w) && ('\r' !in w ==> p.column == |w| - LastLine(w))
  }

  /** c is a place in the text s of a file, at its exact position. */
  predicate Within(file: string, s: string, c: Cursor) {
    IsSuffix(c.text, s) && c.pos.file == file && Exact(s[..|s| - |c.text|], c.pos)
  }

  lemma Grow(s: string, c: Cursor)
    requires IsSuffix(c.text, s) && c.text != ""
    ensures IsSuffix(c.text[1..], s)
    ensures s[..|s| - |c.text| + 1] == s[..|s| - |c.text|] + [c.text[0]]
    ensures s[..|s| - |c.text| + 1][..|s| - |c.text|] == s[..|s| - |c.text|]
  {
  }

  lemma OverIsExact(file: string, s: string, c: Cursor)
    requires Within(file, s, c) && c.text != ""
    ensures Within(file, s, Cursor(c.text[1..], Over(c.pos, c.text[0])))
  {
    Grow(s, c);
  }

  lemma ReturnIsExact(file: string, s: string, c: Cursor)
    requires Within(file, s, c) && c.text != "" && c.text[0] == '\r'
    ensures Within(file, s, Cursor(c.text[1..], c.pos))
  {
    Grow(s, c);
  }

  lemma {:induction false} AdvanceIsExact(file: string, s: string, c: Cursor, n: nat)
    requires Within(file, s, c) && n <= |c.text|
    ensures Within(file, s, Advance(c, n))
  {
    if n == 0 {
      assert Advance(c, 0) == c;
    } else {
      var d := Advance(c, n - 1);
      AdvanceIsExact(file, s, c, n - 1);
      OverIsExact(file, s, d);
      assert d.text[1..] == c.text[n..];
    }
  }

  lemma {:induction false} CommentIsExact(file: string, s: string, c: Cursor)
    requires Within(file, s, c)
    ensures Within(file, s, SkipComment(c))
    decreases |c.text|
  {
    if !EndsComment(CharAt(c.text, 0)) {
      OverIsExact(file, s, c);
      CommentIsExact(file, s, Cursor(c.text[1..], NextColumn(c.pos)));
    }
  }

  lemma {:induction false} LayoutIsExact(file: string, s: string, c: Cursor)
    requires Within(file, s, c)
    ensures Within(file, s, SkipLayout(c))
    decreases |c.text|
  {
    var h := CharAt(c.text, 0);
    if h == '#' {
      OverIsExact(file, s, c);
      var d := Cursor(c.text[1..], NextColumn(c.pos));
      CommentIsExact(file, s, d);
      LayoutIsExact(file, s, SkipComment(d));
    } else if h == '\r' {
      ReturnIsExact(file, s, c);
      LayoutIsExact(file, s, Cursor(c.text[1..], c.pos));
    } else if IsBlank(h) {
      OverIsExact(file, s, c);
      LayoutIsExact(file, s, Cursor(c.text[1..], Over(c.pos, h)));
    }
  }

  // ---------------------------------------------------------------- what is passed moves the position

  /** The characters that take a column, when a carriage return does not. */
  function Visible(w: string): nat {
    if w == "" then 0 else Visible(w[..|w| - 1]) + if w[|w| - 1] == '\r' then 0 else 1
  }

  /** Down a line for every newline, and the columns of what follows the last one. */
  function Past(p: Position, w: string, columns: string -> nat): Position {
    Position(p.file, p.line + Newlines(w),
             columns(w[LastLine(w)..]) + if Newlines(w) == 0 then p.column else 0)
  }

  lemma {:induction false} NewlinesFirst(h: char, w: string)
    ensures Newlines([h] + w) == Newlines(w) + (if h == '\n' then 1 else 0)
    ensures Visible([h] + w) == Visible(w) + (if h == '\r' then 0 else 1)
    decreases |w|
  {
    var all := [h] + w;
    if w == "" {
      assert all[..0] == "";
    } else {
      NewlinesFirst(h, w[..|w| - 1]);
      assert all[..|all| - 1] == [h] + w[..|w| - 1];
    }
  }

  lemma {:induction false} NoNewlines(w: string)
    ensures Newlines(w) == 0 <==> '\n' !in w
  {
    if w != "" {
      NoNewlines(w[..|w| - 1]);
      assert w == w[..|w| - 1] + [w[|w| - 1]];
    }
  }

  lemma LastLineIs(w: string, n: nat)
    requires n <= |w| && (n == 0 || w[n - 1] == '\n') && forall i :: n <= i < |w| ==> w[i] != '\n'
    ensures LastLine(w) == n
  {
    var m := LastLine(w);
    assert m > 0 ==> w[m - 1] == '\n';
    assert n > 0 ==> w[n - 1] == '\n';
  }

  lemma LastLineFirst(h: char, w: string)
    ensures var all := [h] + w; var n := LastLine(w);
            LastLine(all) == if n > 0 || h == '\n' then n + 1 else 0
  {
    var all, n := [h] + w, LastLine(w);
    assert forall i :: 1 <= i < |all| ==> all[i] == w[i - 1];
    if n > 0 {
      assert all[n] == w[n - 1];
      LastLineIs(all, n + 1);
    } else if h == '\n' {
      assert all[0] == h;
      LastLineIs(all, 1);
    } else {
      LastLineIs(all, 0);
    }
  }

  lemma LastLineAfterNewline(w: string)
    ensures LastLine(w) > 0 <==> Newlines(w) > 0
  {
    NoNewlines(w);
  }

  /** One character of layout, and then the rest. */
  lemma PastFirst(p: Position, h: char, w: string)
    ensures Past(p, [h] + w, Visible) == Past(if h == '\n' then NextLine(p) else if h == '\r' then p else NextColumn(p), w, Visible)
  {
    var all, n := [h] + w, LastLine(w);
    NewlinesFirst(h, w);
    LastLineFirst(h, w);
    LastLineAfterNewline(w);
    LastLineOfBoth(h, w, n);
  }

  lemma LastLineOfBoth(h: char, w: string, n: nat)
    requires n <= |w|
    ensures ([h] + w)[n + 1..] == w[n..] && ([h] + w)[0..] == [h] + w && w[0..] == w
  {
  }

  lemma {:induction false} CommentMoves(c: Cursor)
    ensures var u := SkipLayout(SkipComment(c));
            IsSuffix(u.text, c.text) && u.pos == Past(c.pos, c.text[..|c.text| - |u.text|], Visible)
    decreases |c.text|, 1
  {
    if EndsComment(CharAt(c.text, 0)) {
      LayoutMoves(c);
    } else {
      var d := Cursor(c.text[1..], NextColumn(c.pos));
      CommentMoves(d);
      MovesFirst(c, d, SkipLayout(SkipComment(d)));
    }
  }

  lemma MovesFirst(c: Cursor, d: Cursor, u: Cursor)
    requires c.text != "" && d.text == c.text[1..] && IsSuffix(u.text, d.text)
    requires u.pos == Past(d.pos, d.text[..|d.text| - |u.text|], Visible)
    requires var h := c.text[0];
             d.pos == if h == '\n' then NextLine(c.pos) else if h == '\r' then c.pos else NextColumn(c.pos)
    ensures IsSuffix(u.text, c.text) && u.pos == Past(c.pos, c.text[..|c.text| - |u.text|], Visible)
  {
    var w := d.text[..|d.text| - |u.text|];
    assert c.text[..|c.text| - |u.text|] == [c.text[0]] + w;
    PastFirst(c.pos, c.text[0], w);
  }

  /** Layout moves the position over what is skipped, where a carriage return takes no column. */
  lemma {:induction false} LayoutMoves(c: Cursor)
    ensures var u := SkipLayout(c);
            IsSuffix(u.text, c.text) && u.pos == Past(c.pos, c.text[..|c.text| - |u.text|], Visible)
    decreases |c.text|, 0
  {
    var h := CharAt(c.text, 0);
    if h == '#' {
      var d := Cursor(c.text[1..], NextColumn(c.pos));
      CommentMoves(d);
      CommentStep(c);
      MovesFirst(c, d, SkipLayout(c));
    } else if IsBlank(h) {
      var d := Cursor(c.text[1..], AfterBlank(c.pos, h));
      BlankStep(c);
      LayoutMoves(d);
      MovesFirst(c, d, SkipLayout(c));
    } else {
      assert c.text[..0] == "" && c.text[0..] == c.text;
    }
  }

  /** A token moves the position over its text, where every character takes a column. */
  lemma {:induction false} AdvanceMoves(c: Cursor, n: nat)
    requires n <= |c.text|
    ensures Advance(c, n).pos == Past(c.pos, c.text[..n], (w: string) => |w|)
    decreases n
  {
    if n > 0 {
      AdvanceMoves(c, n - 1);
      var w := c.text[..n];
      assert w[..n - 1] == c.text[..n - 1];
    }
  }

  /** The tokens from the k-th on. */
  function Drop(ts: Stream, k: nat): Stream
    requires k <= ts.Size()
  {
    if k == 0 then ts else Drop(ts.tail, k - 1)
  }

  /** The text starts with the first token of t. */
  predicate ScansTo(text: string, t: Stream) {
    match Scan(text)
    case Found(l, _) => t.Step? && t.lexeme == l
    case Stops(e) => t.Stop? && t.terminal == e
  }

  lemma {:induction false} TokenPlace(file: string, s: string, c: Cursor, k: nat) returns (at: Cursor)
    requires Within(file, s, c) && k <= Tokens(c).Size()
    ensures Within(file, s, at) && Drop(Tokens(c), k).pos == at.pos && ScansTo(at.text, Drop(Tokens(c), k))
    decreases k
  {
    at := SkipLayout(c);
    LayoutIsExact(file, s, c);
    if k > 0 {
      var next := Advance(at, Scan(at.text).extent);
      AdvanceIsExact(file, s, at, Scan(at.text).extent);
      at := TokenPlace(file, s, next, k - 1);
    }
  }

  /** Every token of a text carries the exact position of a place where the text starts with that token. */
  lemma TokensAreExact(file: string, s: string, k: nat)
    requires k <= Tokens(Start(file, s)).Size()
    ensures var t := Drop(Tokens(Start(file, s)), k);
            exists at: Cursor :: Within(file, s, at) && t.pos == at.pos && ScansTo(at.text, t)
  {
    assert s[..0] == "" && s[0..] == s;
    var at := TokenPlace(file, s, Start(file, s), k);
  }

  // ---------------------------------------------------------------- errors

  predicate TailOf(at: Stream, ts: Stream) {
    at == ts || (ts.Step? && TailOf(at, ts.tail))
  }

  /**
   What an outcome may say about where it stopped: an error carries the position and the symbol
   of the token it was raised at, and only a literal without a value leaves the code undefined.
   */
  predicate Placed<T>(ts: Stream, o: Outcome<T>) {
    match o
    case Done(_, rest) => TailOf(rest, ts)
    case Thrown(e, at) => TailOf(at, ts) && e.pos == at.pos && e.found == at.Symbol()
    case Stuck(at) => TailOf(at, ts) && at.Stop? && (at.terminal.UnclosedString? || at.terminal.HugeInteger?)
  }

  lemma {:induction false} TailTransitive(a: Stream, b: Stream, c: Stream)
    requires TailOf(a, b) && TailOf(b, c)
    ensures TailOf(a, c)
    decreases c
  {
    if b != c {
      TailTransitive(a, b, c.tail);
    }
  }

  lemma Later<T>(ts: Stream, mid: Stream, o: Outcome<T>)
    requires TailOf(mid, ts) && Placed(mid, o)
    ensures Placed(ts, o)
  {
    TailTransitive(if o.Done? then o.rest else o.at, mid, ts);
  }

  lemma DeclaredPlaced(ts: Stream, keyword: FixedSymbol)
    ensures Placed(ts, TakeDeclared(ts, keyword))
  {
    var o := TakeSymbol(ts, keyword);
    if o.Done? {
      Later(ts, o.rest, TakeName(o.rest));
    }
  }

  lemma {:induction false} QualifiedMorePlaced(ts: Stream, space: seq<string>, name: string)
    ensures Placed(ts, QualifiedMore(ts, space, name))
    decreases ts.Size()
  {
    if ts.Symbol() == NamespaceSep {
      var o := TakeName(ts.tail);
      Later(ts, ts.tail, o);
      if o.Done? {
        QualifiedMorePlaced(o.rest, space + [name], o.value);
        Later(ts, o.rest, QualifiedMore(o.rest, space + [name], o.value));
      }
    }
  }

  lemma {:induction false} QualifiedPlaced(ts: Stream)
    ensures Placed(ts, ParseQualified(ts))
  {
    var o := TakeName(ts);
    if o.Done? {
      QualifiedMorePlaced(o.rest, [], o.value);
      Later(ts, o.rest, QualifiedMore(o.rest, [], o.value));
    }
  }

  lemma {:induction false} TypePlaced(ts: Stream)
    ensures Placed(ts, ParseType(ts))
  {
    QualifiedPlaced(ts);
    var q := ParseQualified(ts);
    if q.IsFailure() || q.rest.Symbol() != BracketOpen { return; }
    Later(ts, q.rest, TakeSymbol(q.rest, BracketOpen));
    var n := TakeInteger(q.rest.tail);
    Later(ts, q.rest.tail, n);
    if n.IsFailure() { return; }
    Later(ts, n.rest, TakeSymbol(n.rest, BracketClose));
  }

  lemma {:induction false} StructFieldPlaced(ts: Stream)
    ensures Placed(ts, ParseStructField(ts))
  {
    var o1 := TakeName(ts);
    if o1.IsFailure() { return; }
    var o2 := TakeSymbol(o1.rest, Colon);
    Later(ts, o1.rest, o2);
    if o2.IsFailure() { return; }
    TypePlaced(o2.rest);
    Later(ts, o2.rest, ParseType(o2.rest));
  }

  lemma {:induction false} StructFieldsPlaced(ts: Stream, done: seq<StructField>)
    ensures Placed(ts, StructFields(ts, done))
    decreases ts.Size()
  {
    StructFieldPlaced(ts);
    var o := ParseStructField(ts);
    if ts.Symbol() != CurlyClose && o.Done? {
      StructFieldsPlaced(o.rest, done + [o.value]);
      Later(ts, o.rest, StructFields(o.rest, done + [o.value]));
    }
  }

  lemma {:induction false} StructBodyPlaced(ts: Stream)
    ensures Placed(ts, StructBody(ts))
  {
    var o1 := TakeSymbol(ts, CurlyOpen);
    if o1.IsFailure() { return; }
    var o2 := StructFields(o1.rest, []);
    StructFieldsPlaced(o1.rest, []);
    Later(ts, o1.rest, o2);
    if o2.IsFailure() { return; }
    Later(ts, o2.rest, TakeSymbol(o2.rest, CurlyClose));
  }

  lemma {:induction false} StructPlaced(ts: Stream)
    ensures Placed(ts, ParseStruct(ts))
  {
    DeclaredPlaced(ts, StructKw);
    var o2 := TakeDeclared(ts, StructKw);
    if o2.IsFailure() { return; }
    StructBodyPlaced(o2.rest);
    Later(ts, o2.rest, StructBody(o2.rest));
  }

  lemma {:induction false} MappingFieldPlaced(ts: Stream)
    ensures Placed(ts, ParseMappingField(ts))
  {
    var o1 := TakeName(ts);
    if o1.IsFailure() { return; }
    var o2 := TakeSymbol(o1.rest, Colon);
    Later(ts, o1.rest, o2);
    if o2.IsFailure() { return; }
    Later(ts, o2.rest, TakeString(o2.rest));
  }

  lemma {:induction false} MappingFieldsPlaced(ts: Stream, done: seq<MappingField>)
    ensures Placed(ts, MappingFields(ts, done))
    decreases ts.Size()
  {
    MappingFieldPlaced(ts);
    var o := ParseMappingField(ts);
    if ts.Symbol() != CurlyClose && o.Done? {
      MappingFieldsPlaced(o.rest, done + [o.value]);
      Later(ts, o.rest, MappingFields(o.rest, done + [o.value]));
    }
  }

  lemma {:induction false} MappingBodyPlaced(ts: Stream)
    ensures Placed(ts, MappingBody(ts))
  {
    var o1 := TakeSymbol(ts, CurlyOpen);
    if o1.IsFailure() { return; }
    var o2 := MappingFields(o1.rest, []);
    MappingFieldsPlaced(o1.rest, []);
    Later(ts, o1.rest, o2);
    if o2.IsFailure() { return; }
    Later(ts, o2.rest, TakeSymbol(o2.rest, CurlyClose));
  }

  lemma {:induction false} CategoryPlaced(ts: Stream)
    ensures Placed(ts, TakeCategory(ts))
  {
    var o := TakeSymbol(ts, Colon);
    if o.Done? {
      QualifiedPlaced(o.rest);
      Later(ts, o.rest, ParseQualified(o.rest));
    }
  }

  lemma {:induction false} MappingPlaced(ts: Stream)
    ensures Placed(ts, ParseMapping(ts))
  {
    DeclaredPlaced(ts, MappingKw);
    var o2 := TakeDeclared(ts, MappingKw);
    if o2.IsFailure() { return; }
    CategoryPlaced(o2.rest);
    var o3 := TakeCategory(o2.rest);
    Later(ts, o2.rest, o3);
    if o3.IsFailure() { return; }
    MappingBodyPlaced(o3.rest);
    Later(ts, o3.rest, MappingBody(o3.rest));
  }

  lemma {:induction false} OptionalEncodingPlaced(ts: Stream)
    ensures Placed(ts, OptionalEncoding(ts))
  {
    if ts.Symbol() == Colon {
      Later(ts, ts.tail, TakeName(ts.tail));
    }
  }

  lemma {:induction false} EncodingFieldPlaced(ts: Stream)
    ensures Placed(ts, ParseEncodingField(ts))
  {
    var o := TakeName(ts);
    if o.Done? {
      OptionalEncodingPlaced(o.rest);
      Later(ts, o.rest, OptionalEncoding(o.rest));
    }
  }

  lemma {:induction false} EncodingNodePlaced(ts: Stream)
    ensures Placed(ts, ParseEncodingNode(ts))
    decreases ts.Size(), 1
  {
    if ts.Symbol() == DeltaKw {
      DeltaBlockPlaced(ts);
    } else {
      EncodingFieldPlaced(ts);
    }
  }

  lemma {:induction false} EncodingBodyPlaced(ts: Stream)
    ensures Placed(ts, EncodingBody(ts))
    decreases ts.Size(), 0
  {
    var o1 := TakeSymbol(ts, CurlyOpen);
    if o1.IsFailure() { return; }
    var o2 := EncodingNodes(o1.rest, []);
    EncodingNodesPlaced(o1.rest, []);
    Later(ts, o1.rest, o2);
    if o2.IsFailure() { return; }
    Later(ts, o2.rest, TakeSymbol(o2.rest, CurlyClose));
  }

  lemma {:induction false} DeltaBlockPlaced(ts: Stream)
    requires ts.Symbol() == DeltaKw
    ensures Placed(ts, ParseDeltaBlock(ts))
    decreases ts.Size(), 0
  {
    var ts1 := ts.tail;
    if ts1.Symbol() == Identifier {
      EncodingNodePlaced(ts1);
      Later(ts, ts1, ParseEncodingNode(ts1));
    } else if ts1.Symbol() == CurlyOpen {
      EncodingBodyPlaced(ts1);
      Later(ts, ts1, EncodingBody(ts1));
    }
  }

  lemma {:induction false} EncodingNodesPlaced(ts: Stream, done: seq<EncodingNode>)
    ensures Placed(ts, EncodingNodes(ts, done))
    decreases ts.Size(), 2
  {
    EncodingNodePlaced(ts);
    var o := ParseEncodingNode(ts);
    if ts.Symbol() != CurlyClose && o.Done? {
      EncodingNodesPlaced(o.rest, done + [o.value]);
      Later(ts, o.rest, EncodingNodes(o.rest, done + [o.value]));
    }
  }

  lemma {:induction false} EncodingPlaced(ts: Stream)
    ensures Placed(ts, ParseEncoding(ts))
  {
    DeclaredPlaced(ts, EncodingKw);
    var o2 := TakeDeclared(ts, EncodingKw);
    if o2.IsFailure() { return; }
    var o3 := OptionalEncoding(o2.rest);
    OptionalEncodingPlaced(o2.rest);
    Later(ts, o2.rest, o3);
    if o3.IsFailure() { return; }
    EncodingBodyPlaced(o3.rest);
    Later(ts, o3.rest, EncodingBody(o3.rest));
  }

  lemma {:induction false} IncludesPlaced(ts: Stream, root: Root)
    ensures Placed(ts, Includes(ts, root))
    decreases ts.Size()
  {
    if ts.Symbol() == IncludeKw {
      var o := TakeString(ts.tail);
      Later(ts, ts.tail, o);
      if o.Done? {
        var next := root.(includes := root.includes + [ParseInclude(ts).value]);
        IncludesPlaced(o.rest, next);
        Later(ts, o.rest, Includes(o.rest, next));
      }
    }
  }

  lemma {:induction false} HeaderPlaced(ts: Stream, root: Root)
    ensures Placed(ts, Header(ts, root))
  {
    IncludesPlaced(ts, root);
    var o := Includes(ts, root);
    if o.Done? && o.rest.Symbol() == NamespaceKw {
      QualifiedPlaced(o.rest.tail);
      Later(o.rest, o.rest.tail, ParseQualified(o.rest.tail));
      Later(ts, o.rest, OptionalNamespace(o.rest, o.value));
    }
  }

  lemma {:induction false} DeclarationsPlaced(ts: Stream, root: Root)
    ensures Placed(ts, Declarations(ts, root))
    decreases ts.Size()
  {
    if ts.Symbol() == StructKw {
      StructPlaced(ts);
      var o := ParseStruct(ts);
      if o.Done? {
        DeclarationsPlaced(o.rest, root.(structs := root.structs + [o.value]));
        Later(ts, o.rest, Declarations(ts, root));
      }
    } else if ts.Symbol() == MappingKw {
      MappingPlaced(ts);
      var o := ParseMapping(ts);
      if o.Done? {
        DeclarationsPlaced(o.rest, root.(mappings := root.mappings + [o.value]));
        Later(ts, o.rest, Declarations(ts, root));
      }
    } else if ts.Symbol() == EncodingKw {
      EncodingPlaced(ts);
      var o := ParseEncoding(ts);
      if o.Done? {
        DeclarationsPlaced(o.rest, root.(encodings := root.encodings + [o.value]));
        Later(ts, o.rest, Declarations(ts, root));
      }
    }
  }

  lemma {:induction false} DocumentPlaced(ts: Stream, origin: Position)
    ensures Placed(ts, ParseDocument(ts, origin))
  {
    HeaderPlaced(ts, EmptyRoot(origin));
    var o := Header(ts, EmptyRoot(origin));
    if o.Done? {
      DeclarationsPlaced(o.rest, o.value);
      Later(ts, o.rest, Declarations(o.rest, o.value));
    }
  }

  lemma {:induction false} TailIsDrop(at: Stream, ts: Stream) returns (k: nat)
    requires TailOf(at, ts)
    ensures k <= ts.Size() && at == Drop(ts, k)
  {
    k := 0;
    if at != ts {
      var j := TailIsDrop(at, ts.tail);
      k := j + 1;
    }
  }

  /**
   A parse error carries the exact position of a token of the text, and the symbol of that token;
   nothing else is ever reported.
   */
  lemma ErrorsPointAtTokens(file: string, s: string)
    requires ParseText(file, s).Thrown?
    ensures var o := ParseText(file, s);
            o.error.pos == o.at.pos && o.error.found == o.at.Symbol()
            && TailOf(o.at, Tokens(Start(file, s)))
            && exists at: Cursor :: Within(file, s, at) && o.error.pos == at.pos && ScansTo(at.text, o.at)
  {
    var ts := Tokens(Start(file, s));
    DocumentPlaced(ts, Start(file, s).pos);
    var k := TailIsDrop(ParseText(file, s).at, ts);
    TokensAreExact(file, s, k);
  }

  // ---------------------------------------------------------------- totality

  function Last(ts: Stream): (r: Stream)
    ensures r.Stop?
  {
    if ts.Stop? then ts else Last(ts.tail)
  }

  lemma {:induction false} TailHasLast(at: Stream, ts: Stream)
    requires TailOf(at, ts)
    ensures Last(at) == Last(ts)
  {
    if at != ts {
      TailHasLast(at, ts.tail);
    }
  }

  /**
   Parsing returns a tree or raises an error, unless the text stops in a string literal that is
   never closed or in an integer that does not fit 64 bits.
   */
  lemma ParsingEnds(file: string, s: string)
    ensures ParseText(file, s).Stuck? ==>
              var last := Last(Tokens(Start(file, s)));
              ParseText(file, s).at == last && last.terminal in {UnclosedString, HugeInteger}
  {
    var ts := Tokens(Start(file, s));
    DocumentPlaced(ts, Start(file, s).pos);
    if ParseText(file, s).Stuck? {
      TailHasLast(ParseText(file, s).at, ts);
    }
  }

  /** Where the loop of `parse_string` looks in its n-th iteration. */
  function LoopIndex(t: string, n: nat): (k: nat)
    ensures k > n
  {
    if n == 0 then 1
    else
      var k := LoopIndex(t, n - 1);
      if CharAt(t, k) == '\\' then k + 2 else k + 1
  }

  lemma {:induction false} UnclosedFrom(t: string, n: nat, delim: char, content: string)
    requires delim != '\\' && delim != '\0'
    ensures ScanString(t, LoopIndex(t, n), delim, content).Unclosed?
            <==> forall m: nat :: m >= n ==> CharAt(t, LoopIndex(t, m)) != delim
    decreases |t| - LoopIndex(t, n)
  {
    var k := LoopIndex(t, n);
    if k >= |t| {
      forall m: nat | m >= n
        ensures CharAt(t, LoopIndex(t, m)) != delim
      {
        LoopIndexGrows(t, n, m);
      }
    } else if t[k] != delim {
      var next := if t[k] != '\\' then t[k] else Unescape(CharAt(t, k + 1));
      UnclosedFrom(t, n + 1, delim, content + [next]);
      assert LoopIndex(t, n + 1) == if t[k] == '\\' then k + 2 else k + 1;
    }
  }

  lemma {:induction false} LoopIndexGrows(t: string, n: nat, m: nat)
    requires n <= m
    ensures LoopIndex(t, n) <= LoopIndex(t, m)
    decreases m
  {
    if n < m {
      LoopIndexGrows(t, n, m - 1);
    }
  }

  /** A literal is unclosed exactly when no iteration of the loop that reads it finds the delimiter. */
  lemma UnclosedMeansEndless(t: string)
    requires t != "" && (t[0] == '\'' || t[0] == '"')
    ensures Scan(t) == Stops(UnclosedString) <==> forall n: nat :: CharAt(t, LoopIndex(t, n)) != t[0]
  {
    UnclosedFrom(t, 0, t[0], "");
  }
}
