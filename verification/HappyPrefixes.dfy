/**
 What the parser has read when it stops is always the beginning of a document: the tokens before
 an error, or before a literal or integer it cannot read, can be completed, and by the very
 symbol the error asks for.
 */
module HappyPrefixes {
  import opened HappyAst
  import opened HappyLexer
  import opened HappyGrammar
  import opened HappySyntax
  import opened HappyPositions
  import opened HappyErrors

  /** us is what ts has before its tail `at`, and then `here`. */
  predicate Leads(ts: Stream, us: Stream, at: Stream, here: Stream) {
    (ts == at && us == here)
    || (ts.Step? && us.Step? && us.lexeme == ts.lexeme && us.pos == ts.pos && Leads(ts.tail, us.tail, at, here))
  }

  /** The symbol that an error asks for, or one that the context it names can go on with. */
  predicate Meets(wanted: Expectation, p: Position, here: Stream) {
    match wanted
    case ExpectedSymbol(s) => here.Step? && here.pos == p && here.Symbol() == s
    case InContext(context) =>
      (context == "document" && here.Symbol() == Eof)
      || (context == "encoding_node" && here.Symbol() == Identifier)
      || (context == "encoding_delta_block" && here.Symbol() == CurlyOpen)
  }

  /** A token that is wanted where parsing stopped: the symbol the error names, or one that could be read. */
  predicate Wanted<T>(o: Outcome<T>, here: Stream) {
    match o
    case Done(_, _) => false
    case Thrown(e, at) => Meets(e.wanted, at.pos, here)
    case Stuck(at) => here.Step? && here.pos == at.pos && here.Symbol() == at.Symbol()
  }

  /** us starts like ts up to where parsing ts stopped, and goes on there as wanted. */
  predicate Mends<T>(ts: Stream, us: Stream, o: Outcome<T>, here: Stream) {
    o.IsFailure() && Leads(ts, us, o.at, here) && Wanted(o, here)
  }

  // ---------------------------------------------------------------- what is written before stays

  lemma {:induction false} PartsLead(ps: seq<QualifiedPart>, k: Stream, us: Stream, at: Stream, here: Stream)
    requires Leads(k, us, at, here)
    ensures Leads(PartsTokens(ps, k), PartsTokens(ps, us), at, here)
  {
    if ps != [] {
      PartsLead(ps[1..], k, us, at, here);
      assert Leads(WordTokens(ps[0].word, PartsTokens(ps[1..], k)), WordTokens(ps[0].word, PartsTokens(ps[1..], us)), at, here);
    }
  }

  lemma TypeLeads(t: TypeSyntax, k: Stream, us: Stream, at: Stream, here: Stream)
    requires Leads(k, us, at, here)
    ensures Leads(TypeTokens(t, k), TypeTokens(t, us), at, here)
  {
    if t.brackets.Brackets? {
      var close := t.brackets.close;
      assert Leads(Mark(BracketClose, close, k), Mark(BracketClose, close, us), at, here);
      assert Leads(Step(Whole(t.brackets.size), t.brackets.at, Mark(BracketClose, close, k)),
                   Step(Whole(t.brackets.size), t.brackets.at, Mark(BracketClose, close, us)), at, here);
    }
    PartsLead(t.id.more, ArrayTokens(t.brackets, k), ArrayTokens(t.brackets, us), at, here);
  }

  lemma StructFieldLeads(f: StructFieldSyntax, k: Stream, us: Stream, at: Stream, here: Stream)
    requires Leads(k, us, at, here)
    ensures Leads(StructFieldTokens(f, k), StructFieldTokens(f, us), at, here)
  {
    TypeLeads(f.typ, k, us, at, here);
    assert Leads(Mark(Colon, f.colon, TypeTokens(f.typ, k)), Mark(Colon, f.colon, TypeTokens(f.typ, us)), at, here);
  }

  lemma {:induction false} StructFieldsLead(fs: seq<StructFieldSyntax>, k: Stream, us: Stream, at: Stream, here: Stream)
    requires Leads(k, us, at, here)
    ensures Leads(StructFieldsTokens(fs, k), StructFieldsTokens(fs, us), at, here)
  {
    if fs != [] {
      StructFieldsLead(fs[1..], k, us, at, here);
      StructFieldLeads(fs[0], StructFieldsTokens(fs[1..], k), StructFieldsTokens(fs[1..], us), at, here);
    }
  }

  lemma MappingFieldLeads(f: MappingFieldSyntax, k: Stream, us: Stream, at: Stream, here: Stream)
    requires Leads(k, us, at, here)
    ensures Leads(MappingFieldTokens(f, k), MappingFieldTokens(f, us), at, here)
  {
    assert Leads(TextTokens(f.text, k), TextTokens(f.text, us), at, here);
    assert Leads(Mark(Colon, f.colon, TextTokens(f.text, k)), Mark(Colon, f.colon, TextTokens(f.text, us)), at, here);
  }

  lemma {:induction false} MappingFieldsLead(fs: seq<MappingFieldSyntax>, k: Stream, us: Stream, at: Stream, here: Stream)
    requires Leads(k, us, at, here)
    ensures Leads(MappingFieldsTokens(fs, k), MappingFieldsTokens(fs, us), at, here)
  {
    if fs != [] {
      MappingFieldsLead(fs[1..], k, us, at, here);
      MappingFieldLeads(fs[0], MappingFieldsTokens(fs[1..], k), MappingFieldsTokens(fs[1..], us), at, here);
    }
  }

  lemma EncodingNameLeads(e: EncodingName, k: Stream, us: Stream, at: Stream, here: Stream)
    requires Leads(k, us, at, here)
    ensures Leads(EncodingNameTokens(e, k), EncodingNameTokens(e, us), at, here)
  {
    if e.Given? {
      assert Leads(WordTokens(e.name, k), WordTokens(e.name, us), at, here);
    }
  }

  lemma {:induction false} NodeLeads(n: NodeSyntax, k: Stream, us: Stream, at: Stream, here: Stream)
    requires Leads(k, us, at, here)
    ensures Leads(NodeTokens(n, k), NodeTokens(n, us), at, here)
    decreases n, 1
  {
    match n
    case FieldSyntax(name, enco) => EncodingNameLeads(enco, k, us, at, here);
    case BareDelta(_, name, enco) =>
      EncodingNameLeads(enco, k, us, at, here);
      assert Leads(WordTokens(name, EncodingNameTokens(enco, k)), WordTokens(name, EncodingNameTokens(enco, us)), at, here);
    case BracedDelta(_, open, nodes, close) =>
      var k', us' := Mark(CurlyClose, close, k), Mark(CurlyClose, close, us);
      NodesLead(nodes, k', us', at, here);
      assert Leads(Mark(CurlyOpen, open, NodesTokens(nodes, k')), Mark(CurlyOpen, open, NodesTokens(nodes, us')), at, here);
  }

  lemma {:induction false} NodesLead(ns: seq<NodeSyntax>, k: Stream, us: Stream, at: Stream, here: Stream)
    requires Leads(k, us, at, here)
    ensures Leads(NodesTokens(ns, k), NodesTokens(ns, us), at, here)
    decreases ns, 0
  {
    if ns != [] {
      NodesLead(ns[1..], k, us, at, here);
      NodeLeads(ns[0], NodesTokens(ns[1..], k), NodesTokens(ns[1..], us), at, here);
    }
  }

  /** A block whose inside is written alike. */
  lemma BlockLeads(open: Position, inside: Stream, inside': Stream, at: Stream, here: Stream)
    requires Leads(inside, inside', at, here)
    ensures Leads(Mark(CurlyOpen, open, inside), Mark(CurlyOpen, open, inside'), at, here)
  {
  }

  lemma CloseLeads(close: Position, k: Stream, us: Stream, at: Stream, here: Stream)
    requires Leads(k, us, at, here)
    ensures Leads(Mark(CurlyClose, close, k), Mark(CurlyClose, close, us), at, here)
  {
  }

  /** A keyword and a name, and what follows. */
  lemma DeclaredLeads(s: FixedSymbol, p: Position, name: Word, k: Stream, us: Stream, at: Stream, here: Stream)
    requires Leads(k, us, at, here)
    ensures Leads(Mark(s, p, WordTokens(name, k)), Mark(s, p, WordTokens(name, us)), at, here)
  {
    assert Leads(WordTokens(name, k), WordTokens(name, us), at, here);
  }

  lemma CategoryLeads(colon: Position, q: QualifiedSyntax, k: Stream, us: Stream, at: Stream, here: Stream)
    requires Leads(k, us, at, here)
    ensures Leads(Mark(Colon, colon, QualifiedTokens(q, k)), Mark(Colon, colon, QualifiedTokens(q, us)), at, here)
  {
    PartsLead(q.more, k, us, at, here);
    assert Leads(QualifiedTokens(q, k), QualifiedTokens(q, us), at, here);
  }

  lemma {:induction false} DeclarationLeads(d: DeclarationSyntax, k: Stream, us: Stream, at: Stream, here: Stream)
    requires Leads(k, us, at, here)
    ensures Leads(DeclarationTokens(d, k), DeclarationTokens(d, us), at, here)
  {
    match d
    case StructDeclaration(s) =>
      var k', us' := Mark(CurlyClose, s.close, k), Mark(CurlyClose, s.close, us);
      CloseLeads(s.close, k, us, at, here);
      StructFieldsLead(s.fields, k', us', at, here);
      BlockLeads(s.open, StructFieldsTokens(s.fields, k'), StructFieldsTokens(s.fields, us'), at, here);
      DeclaredLeads(StructKw, s.kw, s.name, Mark(CurlyOpen, s.open, StructFieldsTokens(s.fields, k')),
                    Mark(CurlyOpen, s.open, StructFieldsTokens(s.fields, us')), at, here);
    case MappingDeclaration(m) =>
      var k', us' := Mark(CurlyClose, m.close, k), Mark(CurlyClose, m.close, us);
      CloseLeads(m.close, k, us, at, here);
      MappingFieldsLead(m.fields, k', us', at, here);
      var b, b' := Mark(CurlyOpen, m.open, MappingFieldsTokens(m.fields, k')), Mark(CurlyOpen, m.open, MappingFieldsTokens(m.fields, us'));
      BlockLeads(m.open, b.tail, b'.tail, at, here);
      CategoryLeads(m.colon, m.category, b, b', at, here);
      DeclaredLeads(MappingKw, m.kw, m.name, Mark(Colon, m.colon, QualifiedTokens(m.category, b)),
                    Mark(Colon, m.colon, QualifiedTokens(m.category, b')), at, here);
    case EncodingDeclaration(e) =>
      var k', us' := Mark(CurlyClose, e.close, k), Mark(CurlyClose, e.close, us);
      CloseLeads(e.close, k, us, at, here);
      NodesLead(e.nodes, k', us', at, here);
      var b, b' := Mark(CurlyOpen, e.open, NodesTokens(e.nodes, k')), Mark(CurlyOpen, e.open, NodesTokens(e.nodes, us'));
      BlockLeads(e.open, b.tail, b'.tail, at, here);
      EncodingNameLeads(e.enco, b, b', at, here);
      DeclaredLeads(EncodingKw, e.kw, e.name, EncodingNameTokens(e.enco, b), EncodingNameTokens(e.enco, b'), at, here);
  }

  lemma {:induction false} IncludesLead(incs: seq<IncludeSyntax>, k: Stream, us: Stream, at: Stream, here: Stream)
    requires Leads(k, us, at, here)
    ensures Leads(IncludesTokens(incs, k), IncludesTokens(incs, us), at, here)
  {
    if incs != [] {
      var k', us' := IncludesTokens(incs[1..], k), IncludesTokens(incs[1..], us);
      IncludesLead(incs[1..], k, us, at, here);
      assert Leads(TextTokens(incs[0].path, k'), TextTokens(incs[0].path, us'), at, here);
    }
  }

  lemma NamespaceLeads(n: NamespaceSyntax, k: Stream, us: Stream, at: Stream, here: Stream)
    requires Leads(k, us, at, here)
    ensures Leads(NamespaceTokens(n, k), NamespaceTokens(n, us), at, here)
  {
    if n.Namespace? {
      PartsLead(n.space.more, k, us, at, here);
      assert Leads(QualifiedTokens(n.space, k), QualifiedTokens(n.space, us), at, here);
    }
  }

  // ---------------------------------------------------------------- where a production stops

  const HERE := Position("", 0, 0)
  const SOME_TYPE := TypeSyntax(SomeName(HERE), NoBrackets)

  function SomeWord(p: Position): Word { Word("x", p) }

  function SomeName(p: Position): QualifiedSyntax { QualifiedSyntax(SomeWord(p), []) }

  lemma {:induction false} PartsPrefix(ts: Stream, k: Stream, space: seq<string>, name: string)
    returns (ps: seq<QualifiedPart>, here: Stream)
    requires QualifiedMore(ts, space, name).IsFailure()
    ensures Mends(ts, PartsTokens(ps, k), QualifiedMore(ts, space, name), here)
    decreases ts.Size()
  {
    var next := ts.tail;
    if TakeName(next).IsFailure() {
      ps, here := [QualifiedPart(ts.pos, SomeWord(next.pos))], WordTokens(SomeWord(next.pos), k);
      assert ps[1..] == [];
      assert Leads(next, here, next, here);
    } else {
      var word := Word(next.lexeme.text, next.pos);
      var rest;
      rest, here := PartsPrefix(next.tail, k, space + [name], word.text);
      ps := [QualifiedPart(ts.pos, word)] + rest;
      assert ps[1..] == rest;
      assert Leads(next, WordTokens(word, PartsTokens(rest, k)), QualifiedMore(ts, space, name).at, here);
    }
  }

  lemma {:induction false} QualifiedPrefix(ts: Stream, k: Stream) returns (q: QualifiedSyntax, here: Stream)
    requires ParseQualified(ts).IsFailure()
    ensures Mends(ts, QualifiedTokens(q, k), ParseQualified(ts), here)
  {
    if TakeName(ts).IsFailure() {
      q := SomeName(ts.pos);
      here := QualifiedTokens(q, k);
    } else {
      var more;
      more, here := PartsPrefix(ts.tail, k, [], ts.lexeme.text);
      q := QualifiedSyntax(Word(ts.lexeme.text, ts.pos), more);
    }
  }

  lemma {:induction false} ArrayPrefix(ts: Stream, k: Stream) returns (a: ArraySyntax, here: Stream)
    requires ArrayPart(ts).IsFailure()
    ensures Mends(ts, ArrayTokens(a, k), ArrayPart(ts), here)
  {
    var size := ts.tail;
    if TakeInteger(size).IsFailure() {
      a := Brackets(ts.pos, 0, size.pos, HERE);
      here := Step(Whole(0), size.pos, Mark(BracketClose, HERE, k));
      assert Leads(size, here, size, here);
    } else {
      a := Brackets(ts.pos, size.lexeme.value, size.pos, size.tail.pos);
      here := Mark(BracketClose, size.tail.pos, k);
      assert Leads(size.tail, here, size.tail, here);
      assert Leads(size, Step(size.lexeme, size.pos, here), size.tail, here);
    }
  }

  lemma {:induction false} TypePrefix(ts: Stream, k: Stream) returns (t: TypeSyntax, here: Stream)
    requires ParseType(ts).IsFailure()
    ensures Mends(ts, TypeTokens(t, k), ParseType(ts), here)
  {
    TypeIsTwoParts(ts);
    var o := ParseQualified(ts);
    if o.IsFailure() {
      var q;
      q, here := QualifiedPrefix(ts, k);
      t := TypeSyntax(q, NoBrackets);
    } else {
      var q := QualifiedSound(ts);
      var a;
      a, here := ArrayPrefix(o.rest, k);
      t := TypeSyntax(q, a);
      TypeLeads(TypeSyntax(q, NoBrackets), o.rest, ArrayTokens(a, k), ParseType(ts).at, here);
    }
  }

  lemma {:induction false} StructFieldPrefix(ts: Stream, k: Stream) returns (f: StructFieldSyntax, here: Stream)
    requires ParseStructField(ts).IsFailure()
    ensures Mends(ts, StructFieldTokens(f, k), ParseStructField(ts), here)
  {
    if TakeName(ts).IsFailure() {
      f := StructFieldSyntax(SomeWord(ts.pos), HERE, SOME_TYPE);
      here := StructFieldTokens(f, k);
      return;
    }
    var name := Word(ts.lexeme.text, ts.pos);
    var colon := ts.tail;
    if TakeSymbol(colon, Colon).IsFailure() {
      f := StructFieldSyntax(name, colon.pos, SOME_TYPE);
      here := Mark(Colon, colon.pos, TypeTokens(SOME_TYPE, k));
      assert Leads(colon, here, colon, here);
      return;
    }
    var t;
    t, here := TypePrefix(colon.tail, k);
    f := StructFieldSyntax(name, colon.pos, t);
    assert Leads(colon, Mark(Colon, colon.pos, TypeTokens(t, k)), ParseStructField(ts).at, here);
  }

  lemma StructFieldSound(ts: Stream) returns (f: StructFieldSyntax)
    requires ParseStructField(ts).Done?
    ensures ts == StructFieldTokens(f, ParseStructField(ts).rest)
  {
    var t := TypeSound(ts.tail.tail);
    f := StructFieldSyntax(Word(ts.lexeme.text, ts.pos), ts.tail.pos, t);
  }

  lemma {:induction false} StructFieldsPrefix(ts: Stream, k: Stream, done: seq<StructField>)
    returns (fs: seq<StructFieldSyntax>, here: Stream)
    requires StructFields(ts, done).IsFailure()
    ensures Mends(ts, StructFieldsTokens(fs, k), StructFields(ts, done), here)
    decreases ts.Size()
  {
    var o := ParseStructField(ts);
    if o.IsFailure() {
      var f;
      f, here := StructFieldPrefix(ts, k);
      fs := [f];
      assert fs[1..] == [];
    } else {
      var f := StructFieldSound(ts);
      var rest;
      rest, here := StructFieldsPrefix(o.rest, k, done + [o.value]);
      fs := [f] + rest;
      assert fs[1..] == rest;
      StructFieldLeads(f, o.rest, StructFieldsTokens(rest, k), StructFields(ts, done).at, here);
    }
  }

  /** The loop is left at a closing brace only. */
  lemma {:induction false} StructFieldsExit(ts: Stream, done: seq<StructField>)
    requires StructFields(ts, done).Done?
    ensures StructFields(ts, done).rest.Symbol() == CurlyClose
    decreases ts.Size()
  {
    if ts.Symbol() != CurlyClose {
      var o := ParseStructField(ts);
      StructFieldsExit(o.rest, done + [o.value]);
    }
  }

  /** Past the opening brace, only the loop can stop parsing. */
  lemma StructBodyStops(ts: Stream)
    requires TakeSymbol(ts, CurlyOpen).Done? && StructBody(ts).IsFailure()
    ensures StructFields(ts.tail, []).IsFailure() && StructBody(ts) == StructFields(ts.tail, []).PropagateFailure()
  {
    if StructFields(ts.tail, []).Done? {
      StructFieldsExit(ts.tail, []);
    }
  }

  lemma {:induction false} StructBodyPrefix(ts: Stream, k: Stream) returns (open: Position, fs: seq<StructFieldSyntax>, here: Stream)
    requires StructBody(ts).IsFailure()
    ensures Mends(ts, Mark(CurlyOpen, open, StructFieldsTokens(fs, Mark(CurlyClose, HERE, k))), StructBody(ts), here)
  {
    var close := Mark(CurlyClose, HERE, k);
    if TakeSymbol(ts, CurlyOpen).IsFailure() {
      open, fs := ts.pos, [];
      here := Mark(CurlyOpen, open, close);
      return;
    }
    open := ts.pos;
    StructBodyStops(ts);
    fs, here := StructFieldsPrefix(ts.tail, close, []);
  }

  lemma {:induction false} StructPrefix(ts: Stream, k: Stream) returns (s: StructSyntax, here: Stream)
    requires ts.Symbol() == StructKw && ParseStruct(ts).IsFailure()
    ensures Mends(ts, StructTokens(s, k), ParseStruct(ts), here)
  {
    var close := Mark(CurlyClose, HERE, k);
    var name := ts.tail;
    if TakeName(name).IsFailure() {
      s := StructSyntax(ts.pos, SomeWord(name.pos), HERE, [], HERE);
      here := WordTokens(SomeWord(name.pos), Mark(CurlyOpen, HERE, close));
      assert Leads(name, here, name, here);
    } else {
      var open, fs;
      open, fs, here := StructBodyPrefix(name.tail, k);
      var word := Word(name.lexeme.text, name.pos);
      s := StructSyntax(ts.pos, word, open, fs, HERE);
      DeclaredLeads(StructKw, ts.pos, word, name.tail, Mark(CurlyOpen, open, StructFieldsTokens(fs, close)), ParseStruct(ts).at, here);
    }
  }

  lemma {:induction false} MappingFieldPrefix(ts: Stream, k: Stream) returns (f: MappingFieldSyntax, here: Stream)
    requires ParseMappingField(ts).IsFailure()
    ensures Mends(ts, MappingFieldTokens(f, k), ParseMappingField(ts), here)
  {
    if TakeName(ts).IsFailure() {
      f := MappingFieldSyntax(SomeWord(ts.pos), HERE, SomeWord(HERE));
      here := MappingFieldTokens(f, k);
      return;
    }
    var name := Word(ts.lexeme.text, ts.pos);
    var colon := ts.tail;
    if TakeSymbol(colon, Colon).IsFailure() {
      f := MappingFieldSyntax(name, colon.pos, SomeWord(HERE));
      here := Mark(Colon, colon.pos, TextTokens(SomeWord(HERE), k));
      assert Leads(colon, here, colon, here);
      return;
    }
    f := MappingFieldSyntax(name, colon.pos, SomeWord(colon.tail.pos));
    here := TextTokens(SomeWord(colon.tail.pos), k);
    assert Leads(colon.tail, here, colon.tail, here);
    assert Leads(colon, Mark(Colon, colon.pos, here), colon.tail, here);
  }

  lemma MappingFieldSound(ts: Stream) returns (f: MappingFieldSyntax)
    requires ParseMappingField(ts).Done?
    ensures ts == MappingFieldTokens(f, ParseMappingField(ts).rest)
  {
    var text := ts.tail.tail;
    f := MappingFieldSyntax(Word(ts.lexeme.text, ts.pos), ts.tail.pos, Word(text.lexeme.content, text.pos));
  }

  lemma {:induction false} MappingFieldsPrefix(ts: Stream, k: Stream, done: seq<MappingField>)
    returns (fs: seq<MappingFieldSyntax>, here: Stream)
    requires MappingFields(ts, done).IsFailure()
    ensures Mends(ts, MappingFieldsTokens(fs, k), MappingFields(ts, done), here)
    decreases ts.Size()
  {
    var o := ParseMappingField(ts);
    if o.IsFailure() {
      var f;
      f, here := MappingFieldPrefix(ts, k);
      fs := [f];
      assert fs[1..] == [];
    } else {
      var f := MappingFieldSound(ts);
      var rest;
      rest, here := MappingFieldsPrefix(o.rest, k, done + [o.value]);
      fs := [f] + rest;
      assert fs[1..] == rest;
      MappingFieldLeads(f, o.rest, MappingFieldsTokens(rest, k), MappingFields(ts, done).at, here);
    }
  }

  /** The loop is left at a closing brace only. */
  lemma {:induction false} MappingFieldsExit(ts: Stream, done: seq<MappingField>)
    requires MappingFields(ts, done).Done?
    ensures MappingFields(ts, done).rest.Symbol() == CurlyClose
    decreases ts.Size()
  {
    if ts.Symbol() != CurlyClose {
      var o := ParseMappingField(ts);
      MappingFieldsExit(o.rest, done + [o.value]);
    }
  }

  /** Past the opening brace, only the loop can stop parsing. */
  lemma MappingBodyStops(ts: Stream)
    requires TakeSymbol(ts, CurlyOpen).Done? && MappingBody(ts).IsFailure()
    ensures MappingFields(ts.tail, []).IsFailure() && MappingBody(ts) == MappingFields(ts.tail, []).PropagateFailure()
  {
    if MappingFields(ts.tail, []).Done? {
      MappingFieldsExit(ts.tail, []);
    }
  }

  lemma {:induction false} MappingBodyPrefix(ts: Stream, k: Stream) returns (open: Position, fs: seq<MappingFieldSyntax>, here: Stream)
    requires MappingBody(ts).IsFailure()
    ensures Mends(ts, Mark(CurlyOpen, open, MappingFieldsTokens(fs, Mark(CurlyClose, HERE, k))), MappingBody(ts), here)
  {
    var close := Mark(CurlyClose, HERE, k);
    if TakeSymbol(ts, CurlyOpen).IsFailure() {
      open, fs := ts.pos, [];
      here := Mark(CurlyOpen, open, close);
      return;
    }
    open := ts.pos;
    MappingBodyStops(ts);
    fs, here := MappingFieldsPrefix(ts.tail, close, []);
  }

  /** The colon and category of a mapping. */
  lemma {:induction false} CategoryPrefix(ts: Stream, k: Stream) returns (colon: Position, q: QualifiedSyntax, here: Stream)
    requires TakeCategory(ts).IsFailure()
    ensures Mends(ts, Mark(Colon, colon, QualifiedTokens(q, k)), TakeCategory(ts), here)
  {
    if TakeSymbol(ts, Colon).IsFailure() {
      colon, q := ts.pos, SomeName(HERE);
      here := Mark(Colon, colon, QualifiedTokens(q, k));
    } else {
      colon := ts.pos;
      q, here := QualifiedPrefix(ts.tail, k);
    }
  }

  lemma {:induction false} MappingPrefix(ts: Stream, k: Stream) returns (m: MappingSyntax, here: Stream)
    requires ts.Symbol() == MappingKw && ParseMapping(ts).IsFailure()
    ensures Mends(ts, MappingTokens(m, k), ParseMapping(ts), here)
  {
    var close := Mark(CurlyClose, HERE, k);
    var name := ts.tail;
    if TakeName(name).IsFailure() {
      m := MappingSyntax(ts.pos, SomeWord(name.pos), HERE, SomeName(HERE), HERE, [], HERE);
      here := WordTokens(SomeWord(name.pos), Mark(Colon, HERE, QualifiedTokens(SomeName(HERE), Mark(CurlyOpen, HERE, close))));
      assert Leads(name, here, name, here);
      return;
    }
    var word := Word(name.lexeme.text, name.pos);
    var o := TakeCategory(name.tail);
    var colon, q, open, fs;
    if o.IsFailure() {
      open, fs := HERE, [];
      colon, q, here := CategoryPrefix(name.tail, Mark(CurlyOpen, HERE, close));
    } else {
      q := QualifiedSound(name.tail.tail);
      colon := name.tail.pos;
      open, fs, here := MappingBodyPrefix(o.rest, k);
      CategoryLeads(colon, q, o.rest, Mark(CurlyOpen, open, MappingFieldsTokens(fs, close)), ParseMapping(ts).at, here);
    }
    m := MappingSyntax(ts.pos, word, colon, q, open, fs, HERE);
    DeclaredLeads(MappingKw, ts.pos, word, name.tail,
                  Mark(Colon, colon, QualifiedTokens(q, Mark(CurlyOpen, open, MappingFieldsTokens(fs, close)))),
                  ParseMapping(ts).at, here);
  }

  lemma {:induction false} EncodingNamePrefix(ts: Stream, k: Stream) returns (e: EncodingName, here: Stream)
    requires OptionalEncoding(ts).IsFailure()
    ensures Mends(ts, EncodingNameTokens(e, k), OptionalEncoding(ts), here)
  {
    e, here := Given(ts.pos, SomeWord(ts.tail.pos)), WordTokens(SomeWord(ts.tail.pos), k);
    assert Leads(ts.tail, here, ts.tail, here);
  }

  lemma {:induction false} EncodingFieldPrefix(ts: Stream, k: Stream) returns (name: Word, e: EncodingName, here: Stream)
    requires ts.Symbol() == Identifier && ParseEncodingField(ts).IsFailure()
    ensures Mends(ts, WordTokens(name, EncodingNameTokens(e, k)), ParseEncodingField(ts), here)
  {
    name := Word(ts.lexeme.text, ts.pos);
    e, here := EncodingNamePrefix(ts.tail, k);
  }

  lemma {:induction false} NodePrefix(ts: Stream, k: Stream) returns (n: NodeSyntax, here: Stream)
    requires ParseEncodingNode(ts).IsFailure()
    ensures Mends(ts, NodeTokens(n, k), ParseEncodingNode(ts), here)
    decreases ts.Size(), 1
  {
    if ts.Symbol() == DeltaKw {
      n, here := DeltaPrefix(ts, k);
    } else if ts.Symbol() == Identifier {
      var name, e;
      name, e, here := EncodingFieldPrefix(ts, k);
      n := FieldSyntax(name, e);
    } else {
      n := FieldSyntax(SomeWord(ts.pos), Omitted);
      here := NodeTokens(n, k);
    }
  }

  lemma {:induction false} DeltaPrefix(ts: Stream, k: Stream) returns (n: NodeSyntax, here: Stream)
    requires ts.Symbol() == DeltaKw && ParseDeltaBlock(ts).IsFailure()
    ensures Mends(ts, NodeTokens(n, k), ParseDeltaBlock(ts), here)
    decreases ts.Size(), 0
  {
    var next := ts.tail;
    if next.Symbol() == Identifier {
      var name, e;
      assert ParseEncodingNode(next) == ParseEncodingField(next);
      name, e, here := EncodingFieldPrefix(next, k);
      n := BareDelta(ts.pos, name, e);
    } else if next.Symbol() == CurlyOpen {
      var open, ns;
      open, ns, here := EncodingBodyPrefix(next, k);
      n := BracedDelta(ts.pos, open, ns, HERE);
    } else {
      n := BracedDelta(ts.pos, HERE, [], HERE);
      here := Mark(CurlyOpen, HERE, Mark(CurlyClose, HERE, k));
      assert Leads(next, here, next, here);
    }
  }

  lemma {:induction false} NodesPrefix(ts: Stream, k: Stream, done: seq<EncodingNode>) returns (ns: seq<NodeSyntax>, here: Stream)
    requires EncodingNodes(ts, done).IsFailure()
    ensures Mends(ts, NodesTokens(ns, k), EncodingNodes(ts, done), here)
    decreases ts.Size(), 2
  {
    var o := ParseEncodingNode(ts);
    if o.IsFailure() {
      var n;
      n, here := NodePrefix(ts, k);
      ns := [n];
      assert ns[1..] == [];
    } else {
      var n := NodeSound(ts);
      var rest;
      rest, here := NodesPrefix(o.rest, k, done + [o.value]);
      ns := [n] + rest;
      assert ns[1..] == rest;
      NodeLeads(n, o.rest, NodesTokens(rest, k), EncodingNodes(ts, done).at, here);
    }
  }

  /** The loop is left at a closing brace only. */
  lemma {:induction false} EncodingNodesExit(ts: Stream, done: seq<EncodingNode>)
    requires EncodingNodes(ts, done).Done?
    ensures EncodingNodes(ts, done).rest.Symbol() == CurlyClose
    decreases ts.Size()
  {
    if ts.Symbol() != CurlyClose {
      var o := ParseEncodingNode(ts);
      EncodingNodesExit(o.rest, done + [o.value]);
    }
  }

  /** Past the opening brace, only the loop can stop parsing. */
  lemma EncodingBodyStops(ts: Stream)
    requires TakeSymbol(ts, CurlyOpen).Done? && EncodingBody(ts).IsFailure()
    ensures EncodingNodes(ts.tail, []).IsFailure() && EncodingBody(ts) == EncodingNodes(ts.tail, []).PropagateFailure()
  {
    if EncodingNodes(ts.tail, []).Done? {
      EncodingNodesExit(ts.tail, []);
    }
  }

  lemma {:induction false} EncodingBodyPrefix(ts: Stream, k: Stream) returns (open: Position, ns: seq<NodeSyntax>, here: Stream)
    requires EncodingBody(ts).IsFailure()
    ensures Mends(ts, Mark(CurlyOpen, open, NodesTokens(ns, Mark(CurlyClose, HERE, k))), EncodingBody(ts), here)
    decreases ts.Size(), 0
  {
    var close := Mark(CurlyClose, HERE, k);
    if TakeSymbol(ts, CurlyOpen).IsFailure() {
      open, ns := ts.pos, [];
      here := Mark(CurlyOpen, open, close);
      return;
    }
    open := ts.pos;
    EncodingBodyStops(ts);
    ns, here := NodesPrefix(ts.tail, close, []);
  }

  lemma {:induction false} EncodingPrefix(ts: Stream, k: Stream) returns (e: EncodingSyntax, here: Stream)
    requires ts.Symbol() == EncodingKw && ParseEncoding(ts).IsFailure()
    ensures Mends(ts, EncodingTokens(e, k), ParseEncoding(ts), here)
  {
    var close := Mark(CurlyClose, HERE, k);
    var name := ts.tail;
    if TakeName(name).IsFailure() {
      e := EncodingSyntax(ts.pos, SomeWord(name.pos), Omitted, HERE, [], HERE);
      here := WordTokens(SomeWord(name.pos), Mark(CurlyOpen, HERE, close));
      assert Leads(name, here, name, here);
      return;
    }
    var word := Word(name.lexeme.text, name.pos);
    var o := OptionalEncoding(name.tail);
    var enco, open, ns;
    if o.IsFailure() {
      open, ns := HERE, [];
      enco, here := EncodingNamePrefix(name.tail, Mark(CurlyOpen, HERE, close));
    } else {
      enco := EncodingNameSound(name.tail);
      open, ns, here := EncodingBodyPrefix(o.rest, k);
      EncodingNameLeads(enco, o.rest, Mark(CurlyOpen, open, NodesTokens(ns, close)), ParseEncoding(ts).at, here);
    }
    e := EncodingSyntax(ts.pos, word, enco, open, ns, HERE);
    DeclaredLeads(EncodingKw, ts.pos, word, name.tail,
                  EncodingNameTokens(enco, Mark(CurlyOpen, open, NodesTokens(ns, close))), ParseEncoding(ts).at, here);
  }

  // ---------------------------------------------------------------- documents

  lemma {:induction false} DeclarationPrefix(ts: Stream, k: Stream, root: Root) returns (d: DeclarationSyntax, here: Stream)
    requires ts.Symbol() in {StructKw, MappingKw, EncodingKw}
    requires if ts.Symbol() == StructKw then ParseStruct(ts).IsFailure()
             else if ts.Symbol() == MappingKw then ParseMapping(ts).IsFailure() else ParseEncoding(ts).IsFailure()
    ensures Mends(ts, DeclarationTokens(d, k), Declarations(ts, root), here)
  {
    if ts.Symbol() == StructKw {
      var s;
      s, here := StructPrefix(ts, k);
      d := StructDeclaration(s);
    } else if ts.Symbol() == MappingKw {
      var m;
      m, here := MappingPrefix(ts, k);
      d := MappingDeclaration(m);
    } else {
      var e;
      e, here := EncodingPrefix(ts, k);
      d := EncodingDeclaration(e);
    }
  }

  /** One turn of the declaration loop that does not fail. */
  lemma DeclarationTurn(ts: Stream, root: Root) returns (d: DeclarationSyntax, rest: Stream, next: Root)
    requires ts.Symbol() in {StructKw, MappingKw, EncodingKw}
    requires if ts.Symbol() == StructKw then ParseStruct(ts).Done?
             else if ts.Symbol() == MappingKw then ParseMapping(ts).Done? else ParseEncoding(ts).Done?
    ensures ts == DeclarationTokens(d, rest) && rest.Size() < ts.Size() && Declarations(ts, root) == Declarations(rest, next)
  {
    if ts.Symbol() == StructKw {
      var s := StructSound(ts);
      d, rest := StructDeclaration(s), ParseStruct(ts).rest;
      next := root.(structs := root.structs + [ParseStruct(ts).value]);
    } else if ts.Symbol() == MappingKw {
      var m := MappingSound(ts);
      d, rest := MappingDeclaration(m), ParseMapping(ts).rest;
      next := root.(mappings := root.mappings + [ParseMapping(ts).value]);
    } else {
      var e := EncodingSound(ts);
      d, rest := EncodingDeclaration(e), ParseEncoding(ts).rest;
      next := root.(encodings := root.encodings + [ParseEncoding(ts).value]);
    }
  }

  lemma {:induction false} DeclarationsPrefix(ts: Stream, k: Stream, root: Root) returns (ds: seq<DeclarationSyntax>, here: Stream)
    requires Declarations(ts, root).IsFailure() && k.Symbol() == Eof
    ensures Mends(ts, DeclarationsTokens(ds, k), Declarations(ts, root), here)
    decreases ts.Size()
  {
    if ts.Symbol() !in {StructKw, MappingKw, EncodingKw} {
      ds, here := [], k;
    } else if (if ts.Symbol() == StructKw then ParseStruct(ts).IsFailure()
               else if ts.Symbol() == MappingKw then ParseMapping(ts).IsFailure() else ParseEncoding(ts).IsFailure()) {
      var d;
      d, here := DeclarationPrefix(ts, k, root);
      ds := [d];
      assert ds[1..] == [];
    } else {
      var d, rest, next := DeclarationTurn(ts, root);
      var more;
      more, here := DeclarationsPrefix(rest, k, next);
      ds := [d] + more;
      assert ds[1..] == more;
      DeclarationLeads(d, rest, DeclarationsTokens(more, k), Declarations(ts, root).at, here);
    }
  }

  lemma {:induction false} IncludesPrefix(ts: Stream, k: Stream, root: Root) returns (incs: seq<IncludeSyntax>, here: Stream)
    requires Includes(ts, root).IsFailure()
    ensures Mends(ts, IncludesTokens(incs, k), Includes(ts, root), here)
    decreases ts.Size()
  {
    var path := ts.tail;
    if TakeString(path).IsFailure() {
      incs, here := [IncludeSyntax(ts.pos, SomeWord(path.pos))], TextTokens(SomeWord(path.pos), k);
      assert incs[1..] == [];
      assert Leads(path, here, path, here);
    } else {
      var o := ParseInclude(ts);
      var word := Word(path.lexeme.content, path.pos);
      var rest;
      rest, here := IncludesPrefix(o.rest, k, root.(includes := root.includes + [o.value]));
      incs := [IncludeSyntax(ts.pos, word)] + rest;
      assert incs[1..] == rest;
      assert Leads(path, TextTokens(word, IncludesTokens(rest, k)), Includes(ts, root).at, here);
    }
  }

  lemma {:induction false} HeaderPrefix(ts: Stream, k: Stream, origin: Position)
    returns (incs: seq<IncludeSyntax>, space: NamespaceSyntax, here: Stream)
    requires Header(ts, EmptyRoot(origin)).IsFailure()
    ensures Mends(ts, IncludesTokens(incs, NamespaceTokens(space, k)), Header(ts, EmptyRoot(origin)), here)
  {
    var o := Includes(ts, EmptyRoot(origin));
    if o.IsFailure() {
      incs, here := IncludesPrefix(ts, k, EmptyRoot(origin));
      space := NoNamespace;
    } else {
      incs := IncludesSound(ts, EmptyRoot(origin));
      var q;
      q, here := QualifiedPrefix(o.rest.tail, k);
      space := Namespace(o.rest.pos, q);
      IncludesLead(incs, o.rest, NamespaceTokens(space, k), Header(ts, EmptyRoot(origin)).at, here);
    }
  }

  /**
   Wherever parsing stops, the tokens before that place start a document, which goes on there with the
   symbol the error asks for, or with a literal or integer that can be read.
   */
  lemma {:induction false} DocumentPrefix(ts: Stream, origin: Position) returns (d: DocumentSyntax, here: Stream)
    requires ParseDocument(ts, origin).IsFailure()
    ensures Mends(ts, DocumentTokens(d), ParseDocument(ts, origin), here)
  {
    var end := Stop(EndOfInput, HERE);
    var o := Header(ts, EmptyRoot(origin));
    if o.IsFailure() {
      var incs, space;
      incs, space, here := HeaderPrefix(ts, end, origin);
      d := DocumentSyntax(incs, space, [], HERE);
    } else {
      var incs, space := HeaderSound(ts, origin);
      var ds;
      ds, here := DeclarationsPrefix(o.rest, end, o.value);
      d := DocumentSyntax(incs, space, ds, HERE);
      var at, body := ParseDocument(ts, origin).at, DeclarationsTokens(ds, end);
      NamespaceLeads(space, o.rest, body, at, here);
      IncludesLead(incs, NamespaceTokens(space, o.rest), NamespaceTokens(space, body), at, here);
    }
  }

  // ---------------------------------------------------------------- exactly where parsing stops

  lemma {:induction false} TailsCompare(a: Stream, b: Stream, ts: Stream)
    requires TailOf(a, ts) && TailOf(b, ts)
    ensures TailOf(a, b) || TailOf(b, a)
  {
    if a != ts && b != ts {
      TailsCompare(a, b, ts.tail);
    }
  }

  lemma {:induction false} SharesItself(ts: Stream, at: Stream)
    requires TailOf(at, ts)
    ensures Shares(ts, ts, at)
  {
    if ts != at {
      SharesItself(ts.tail, at);
    }
  }

  /** What is shared up to a place is shared up to any place before it. */
  lemma {:induction false} SharesEarlier(ts: Stream, us: Stream, at: Stream, y: Stream)
    requires Shares(ts, us, at) && TailOf(y, ts) && TailOf(at, y)
    ensures Shares(ts, us, y)
  {
    if ts != y {
      TailTransitive(at, y, ts.tail);
      SharesTail(ts, us, at);
      SharesEarlier(ts.tail, us.tail, at, y);
    }
  }

  lemma {:induction false} LeadsTail(ts: Stream, us: Stream, at: Stream, here: Stream)
    requires Leads(ts, us, at, here)
    ensures TailOf(at, ts)
  {
    if !(ts == at && us == here) {
      LeadsTail(ts.tail, us.tail, at, here);
    }
  }

  lemma {:induction false} LeadsShares(ts: Stream, us: Stream, at: Stream, here: Stream)
    requires Leads(ts, us, at, here) && here.pos == at.pos && here.Symbol() == at.Symbol()
    ensures Shares(ts, us, at)
  {
    if !(ts == at && us == here) {
      LeadsShares(ts.tail, us.tail, at, here);
    }
  }

  /** Before the place where it is replaced, all of a stream is shared. */
  lemma {:induction false} LeadsSharesEarlier(ts: Stream, us: Stream, at: Stream, here: Stream, y: Stream)
    requires Leads(ts, us, at, here) && TailOf(y, ts) && TailOf(at, y) && y != at
    ensures Shares(ts, us, y)
  {
    if ts == at {
      TailIsSmaller(at, y);
      TailIsSmaller(y, ts);
      SameSizeTail(y, ts);
    } else if ts != y {
      LeadsSharesEarlier(ts.tail, us.tail, at, here, y);
    }
  }

  lemma SameSizeTail(at: Stream, ts: Stream)
    requires TailOf(at, ts) && at.Size() >= ts.Size()
    ensures at == ts
  {
    if at != ts {
      TailIsSmaller(at, ts.tail);
    }
  }

  /** The tokens before `at` start a document. */
  ghost predicate Viable(ts: Stream, at: Stream) {
    exists d: DocumentSyntax, here: Stream :: Leads(ts, DocumentTokens(d), at, here)
  }

  /** And so they do with a token of the same symbol in the place of the first one of `at`. */
  ghost predicate CanStand(ts: Stream, at: Stream) {
    exists d: DocumentSyntax :: Shares(ts, DocumentTokens(d), at)
  }

  lemma StopIsViable(ts: Stream, origin: Position)
    requires ParseDocument(ts, origin).IsFailure()
    ensures var o := ParseDocument(ts, origin);
            TailOf(o.at, ts) && Viable(ts, o.at) && (o.Thrown? ==> !CanStand(ts, o.at)) && (o.Stuck? ==> CanStand(ts, o.at))
  {
    var o := ParseDocument(ts, origin);
    var d, here := DocumentPrefix(ts, origin);
    LeadsTail(ts, DocumentTokens(d), o.at, here);
    if o.Stuck? {
      LeadsShares(ts, DocumentTokens(d), o.at, here);
    } else {
      forall e: DocumentSyntax
        ensures !Shares(ts, DocumentTokens(e), o.at)
      {
        if Shares(ts, DocumentTokens(e), o.at) {
          ErrorsAreUnavoidable(ts, origin, DocumentTokens(e));
        }
      }
    }
  }

  /** Parsing reaches every place up to which the tokens can stand. */
  lemma ReachesWhatCanStand(ts: Stream, origin: Position, at: Stream)
    requires ParseDocument(ts, origin).IsFailure() && TailOf(at, ts) && at != ParseDocument(ts, origin).at
    ensures TailOf(at, ParseDocument(ts, origin).at) ==> !Viable(ts, at) || ParseDocument(ts, origin).Stuck?
    ensures TailOf(ParseDocument(ts, origin).at, at) ==> CanStand(ts, at)
  {
    var o := ParseDocument(ts, origin);
    StopIsViable(ts, origin);
    if TailOf(at, o.at) && Viable(ts, at) && o.Thrown? {
      var d: DocumentSyntax, here: Stream :| Leads(ts, DocumentTokens(d), at, here);
      LeadsSharesEarlier(ts, DocumentTokens(d), at, here, o.at);
    }
    if TailOf(o.at, at) {
      var d: DocumentSyntax, here: Stream :| Leads(ts, DocumentTokens(d), o.at, here);
      LeadsSharesEarlier(ts, DocumentTokens(d), o.at, here, at);
    }
  }

  /**
   An error is raised at a token exactly when it is the first that cannot stand where it does: the
   tokens before it start a document, and with it, or any token of its symbol, they start none.
   */
  lemma ErrorIff(ts: Stream, origin: Position, at: Stream)
    ensures (ParseDocument(ts, origin).Thrown? && ParseDocument(ts, origin).at == at)
            <==> TailOf(at, ts) && Viable(ts, at) && !CanStand(ts, at)
  {
    var o := ParseDocument(ts, origin);
    if o.Done? {
      var d := DocumentSound(ts, origin);
      if TailOf(at, ts) {
        SharesItself(ts, at);
      }
    } else {
      StopIsViable(ts, origin);
      if TailOf(at, ts) && at != o.at {
        TailsCompare(at, o.at, ts);
        ReachesWhatCanStand(ts, origin, at);
        if o.Stuck? && TailOf(at, o.at) {
          DocumentPlaced(ts, origin);
        }
      }
    }
  }

  /**
   Parsing has no outcome exactly when the tokens end in a literal that is not closed, or an integer
   beyond 64 bits, and some document has a literal or an integer in that place.
   */
  lemma StuckIff(ts: Stream, origin: Position)
    ensures ParseDocument(ts, origin).Stuck?
            <==> Last(ts).terminal in {UnclosedString, HugeInteger} && CanStand(ts, Last(ts))
  {
    var o := ParseDocument(ts, origin);
    DocumentPlaced(ts, origin);
    LastIsTail(ts);
    if o.Done? {
      var d := DocumentSound(ts, origin);
      DocumentComplete(d, origin);
      TailHasLast(o.rest, ts);
    } else {
      StopIsViable(ts, origin);
      TailHasLast(o.at, ts);
      if o.Thrown? && CanStand(ts, Last(ts)) {
        var d: DocumentSyntax :| Shares(ts, DocumentTokens(d), Last(ts));
        LastIsTail(o.at);
        SharesEarlier(ts, DocumentTokens(d), Last(ts), o.at);
      }
    }
  }

  lemma {:induction false} LastIsTail(ts: Stream)
    ensures TailOf(Last(ts), ts)
  {
    if ts.Step? {
      LastIsTail(ts.tail);
    }
  }

  /**
   Tokens that end inside a brace block, or close one that is not open, are never accepted: an error is
   raised, unless they end in a literal that is not closed or an integer beyond 64 bits.
   */
  lemma UnbalancedIsRejected(ts: Stream, origin: Position)
    requires !Nested(ts, 0)
    ensures !ParseDocument(ts, origin).Done?
    ensures Last(ts).terminal !in {UnclosedString, HugeInteger} ==> ParseDocument(ts, origin).Thrown?
  {
    if ParseDocument(ts, origin).Done? {
      var d := DocumentSound(ts, origin);
      DocumentNested(d);
    } else {
      StuckIff(ts, origin);
    }
  }
}
