/**
 The grammar of `happy`, independent of any parser: concrete syntax trees that keep
 every choice a writer has (an omitted encoding name, braces around a DELTA field, the
 order of declarations) and every token position. `...Tokens(c, k)` writes a tree in
 front of the tokens k; `...Tree(c)` is the node it stands for.

 The main result is that the parser accepts exactly the streams these trees write,
 and returns exactly the node each stands for.
 */
module HappySyntax {
  import opened HappyAst
  import opened HappyLexer
  import opened HappyGrammar

  datatype Word = Word(text: string, pos: Position)

  datatype QualifiedPart = QualifiedPart(sep: Position, word: Word)

  datatype QualifiedSyntax = QualifiedSyntax(first: Word, more: seq<QualifiedPart>)

  datatype ArraySyntax = NoBrackets | Brackets(open: Position, size: int64, at: Position, close: Position)

  datatype TypeSyntax = TypeSyntax(id: QualifiedSyntax, brackets: ArraySyntax)

  datatype StructFieldSyntax = StructFieldSyntax(name: Word, colon: Position, typ: TypeSyntax)

  datatype StructSyntax =
    StructSyntax(kw: Position, name: Word, open: Position, fields: seq<StructFieldSyntax>, close: Position)

  datatype MappingFieldSyntax = MappingFieldSyntax(name: Word, colon: Position, text: Word)

  datatype MappingSyntax = MappingSyntax(
    kw: Position, name: Word, colon: Position, category: QualifiedSyntax,
    open: Position, fields: seq<MappingFieldSyntax>, close: Position)

  datatype EncodingName = Omitted | Given(colon: Position, name: Word)

  datatype NodeSyntax =
    | FieldSyntax(name: Word, enco: EncodingName)
    | BareDelta(kw: Position, name: Word, enco: EncodingName)
    | BracedDelta(kw: Position, open: Position, nodes: seq<NodeSyntax>, close: Position)

  datatype EncodingSyntax = EncodingSyntax(
    kw: Position, name: Word, enco: EncodingName, open: Position, nodes: seq<NodeSyntax>, close: Position)

  datatype IncludeSyntax = IncludeSyntax(kw: Position, path: Word)

  datatype NamespaceSyntax = NoNamespace | Namespace(kw: Position, space: QualifiedSyntax)

  datatype DeclarationSyntax =
    | StructDeclaration(struct: StructSyntax)
    | MappingDeclaration(mapping: MappingSyntax)
    | EncodingDeclaration(encoding: EncodingSyntax)

  datatype DocumentSyntax = DocumentSyntax(
    includes: seq<IncludeSyntax>, space: NamespaceSyntax, declarations: seq<DeclarationSyntax>, end: Position)

  // ---------------------------------------------------------------- the tokens a tree writes

  function Mark(s: FixedSymbol, p: Position, k: Stream): Stream { Step(Fixed(s), p, k) }

  function WordTokens(w: Word, k: Stream): Stream { Step(Name(w.text), w.pos, k) }

  function TextTokens(w: Word, k: Stream): Stream { Step(Quoted(w.text), w.pos, k) }

  function PartsTokens(ps: seq<QualifiedPart>, k: Stream): Stream {
    if ps == [] then k
    else Mark(NamespaceSep, ps[0].sep, WordTokens(ps[0].word, PartsTokens(ps[1..], k)))
  }

  function QualifiedTokens(q: QualifiedSyntax, k: Stream): Stream {
    WordTokens(q.first, PartsTokens(q.more, k))
  }

  function ArrayTokens(a: ArraySyntax, k: Stream): Stream {
    match a
    case NoBrackets => k
    case Brackets(open, size, at, close) =>
      Mark(BracketOpen, open, Step(Whole(size), at, Mark(BracketClose, close, k)))
  }

  function TypeTokens(t: TypeSyntax, k: Stream): Stream {
    QualifiedTokens(t.id, ArrayTokens(t.brackets, k))
  }

  function StructFieldTokens(f: StructFieldSyntax, k: Stream): Stream {
    WordTokens(f.name, Mark(Colon, f.colon, TypeTokens(f.typ, k)))
  }

  function StructFieldsTokens(fs: seq<StructFieldSyntax>, k: Stream): Stream {
    if fs == [] then k else StructFieldTokens(fs[0], StructFieldsTokens(fs[1..], k))
  }

  function StructTokens(s: StructSyntax, k: Stream): Stream {
    Mark(StructKw, s.kw, WordTokens(s.name,
      Mark(CurlyOpen, s.open, StructFieldsTokens(s.fields, Mark(CurlyClose, s.close, k)))))
  }

  function MappingFieldTokens(f: MappingFieldSyntax, k: Stream): Stream {
    WordTokens(f.name, Mark(Colon, f.colon, TextTokens(f.text, k)))
  }

  function MappingFieldsTokens(fs: seq<MappingFieldSyntax>, k: Stream): Stream {
    if fs == [] then k else MappingFieldTokens(fs[0], MappingFieldsTokens(fs[1..], k))
  }

  function MappingTokens(m: MappingSyntax, k: Stream): Stream {
    Mark(MappingKw, m.kw, WordTokens(m.name, Mark(Colon, m.colon, QualifiedTokens(m.category,
      Mark(CurlyOpen, m.open, MappingFieldsTokens(m.fields, Mark(CurlyClose, m.close, k)))))))
  }

  function EncodingNameTokens(e: EncodingName, k: Stream): Stream {
    match e
    case Omitted => k
    case Given(colon, name) => Mark(Colon, colon, WordTokens(name, k))
  }

  function NodeTokens(n: NodeSyntax, k: Stream): Stream
    decreases n, 1
  {
    match n
    case FieldSyntax(name, enco) => WordTokens(name, EncodingNameTokens(enco, k))
    case BareDelta(kw, name, enco) => Mark(DeltaKw, kw, WordTokens(name, EncodingNameTokens(enco, k)))
    case BracedDelta(kw, open, nodes, close) =>
      Mark(DeltaKw, kw, Mark(CurlyOpen, open, NodesTokens(nodes, Mark(CurlyClose, close, k))))
  }

  function NodesTokens(ns: seq<NodeSyntax>, k: Stream): Stream
    decreases ns, 0
  {
    if ns == [] then k else NodeTokens(ns[0], NodesTokens(ns[1..], k))
  }

  function EncodingTokens(e: EncodingSyntax, k: Stream): Stream {
    Mark(EncodingKw, e.kw, WordTokens(e.name, EncodingNameTokens(e.enco,
      Mark(CurlyOpen, e.open, NodesTokens(e.nodes, Mark(CurlyClose, e.close, k))))))
  }

  function IncludesTokens(incs: seq<IncludeSyntax>, k: Stream): Stream {
    if incs == [] then k
    else Mark(IncludeKw, incs[0].kw, TextTokens(incs[0].path, IncludesTokens(incs[1..], k)))
  }

  function NamespaceTokens(n: NamespaceSyntax, k: Stream): Stream {
    match n
    case NoNamespace => k
    case Namespace(kw, space) => Mark(NamespaceKw, kw, QualifiedTokens(space, k))
  }

  function DeclarationTokens(d: DeclarationSyntax, k: Stream): Stream {
    match d
    case StructDeclaration(s) => StructTokens(s, k)
    case MappingDeclaration(m) => MappingTokens(m, k)
    case EncodingDeclaration(e) => EncodingTokens(e, k)
  }

  function DeclarationsTokens(ds: seq<DeclarationSyntax>, k: Stream): Stream {
    if ds == [] then k else DeclarationTokens(ds[0], DeclarationsTokens(ds[1..], k))
  }

  function DocumentTokens(d: DocumentSyntax): Stream {
    IncludesTokens(d.includes, NamespaceTokens(d.space, DeclarationsTokens(d.declarations, Stop(EndOfInput, d.end))))
  }

  // ---------------------------------------------------------------- the node a tree stands for

  function Texts(first: string, ps: seq<QualifiedPart>): (r: seq<string>)
    ensures |r| == |ps| + 1
    decreases ps
  {
    if ps == [] then [first] else [first] + Texts(ps[0].word.text, ps[1..])
  }

  /** The last name is the identifier, the ones before it its name space. */
  function Qualify(texts: seq<string>): QualifiedIdentifier
    requires texts != []
  {
    QualifiedIdentifier(texts[..|texts| - 1], texts[|texts| - 1])
  }

  function QualifiedTree(q: QualifiedSyntax): QualifiedIdentifier {
    Qualify(Texts(q.first.text, q.more))
  }

  function TypeTree(t: TypeSyntax): Type {
    Type(QualifiedTree(t.id), if t.brackets.NoBrackets? then NotArray else ArrayOf(t.brackets.size))
  }

  function StructFieldTree(f: StructFieldSyntax): StructField {
    StructField(f.name.text, TypeTree(f.typ), f.name.pos)
  }

  function StructFieldTrees(fs: seq<StructFieldSyntax>): seq<StructField> {
    if fs == [] then [] else [StructFieldTree(fs[0])] + StructFieldTrees(fs[1..])
  }

  function StructTree(s: StructSyntax): Struct {
    Struct(s.name.text, StructFieldTrees(s.fields), s.kw)
  }

  function MappingFieldTree(f: MappingFieldSyntax): MappingField {
    MappingField(f.name.text, f.text.text, f.name.pos)
  }

  function MappingFieldTrees(fs: seq<MappingFieldSyntax>): seq<MappingField> {
    if fs == [] then [] else [MappingFieldTree(fs[0])] + MappingFieldTrees(fs[1..])
  }

  function MappingTree(m: MappingSyntax): Mapping {
    Mapping(m.name.text, QualifiedTree(m.category), MappingFieldTrees(m.fields), m.kw)
  }

  function EncodingNameTree(e: EncodingName): string {
    if e.Omitted? then "DEFAULT" else e.name.text
  }

  function NodeTree(n: NodeSyntax): EncodingNode
    decreases n, 1
  {
    match n
    case FieldSyntax(name, enco) => EncodingField(name.text, EncodingNameTree(enco), name.pos)
    case BareDelta(kw, name, enco) =>
      DeltaBlock([EncodingField(name.text, EncodingNameTree(enco), name.pos)], kw)
    case BracedDelta(kw, _, nodes, _) => DeltaBlock(NodeTrees(nodes), kw)
  }

  function NodeTrees(ns: seq<NodeSyntax>): seq<EncodingNode>
    decreases ns, 0
  {
    if ns == [] then [] else [NodeTree(ns[0])] + NodeTrees(ns[1..])
  }

  function EncodingTree(e: EncodingSyntax): Encoding {
    Encoding(e.name.text, EncodingNameTree(e.enco), NodeTrees(e.nodes), e.kw)
  }

  function IncludeTrees(incs: seq<IncludeSyntax>): seq<Include> {
    if incs == [] then [] else [Include(incs[0].path.text, incs[0].kw)] + IncludeTrees(incs[1..])
  }

  function NamespaceTree(n: NamespaceSyntax): QualifiedIdentifier {
    if n.NoNamespace? then NO_NAMESPACE else QualifiedTree(n.space)
  }

  /** The declarations of each kind, in the order they were written. */
  function StructTrees(ds: seq<DeclarationSyntax>): seq<Struct> {
    if ds == [] then []
    else (if ds[0].StructDeclaration? then [StructTree(ds[0].struct)] else []) + StructTrees(ds[1..])
  }

  function MappingTrees(ds: seq<DeclarationSyntax>): seq<Mapping> {
    if ds == [] then []
    else (if ds[0].MappingDeclaration? then [MappingTree(ds[0].mapping)] else []) + MappingTrees(ds[1..])
  }

  function EncodingTrees(ds: seq<DeclarationSyntax>): seq<Encoding> {
    if ds == [] then []
    else (if ds[0].EncodingDeclaration? then [EncodingTree(ds[0].encoding)] else []) + EncodingTrees(ds[1..])
  }

  function DocumentTree(d: DocumentSyntax, origin: Position): Root {
    Root(IncludeTrees(d.includes), NamespaceTree(d.space), StructTrees(d.declarations),
         MappingTrees(d.declarations), EncodingTrees(d.declarations), origin)
  }

  // ---------------------------------------------------------------- completeness

  lemma Regroup<T>(a: seq<T>, x: T, b: seq<T>)
    ensures a + ([x] + b) == (a + [x]) + b
  {
  }

  lemma Unit<T>(a: seq<T>)
    ensures [] + a == a && a + [] == a
  {
  }

  lemma {:induction false} PartsComplete(ps: seq<QualifiedPart>, k: Stream, space: seq<string>, name: string)
    requires k.Symbol() != NamespaceSep
    ensures QualifiedMore(PartsTokens(ps, k), space, name) == Done(Qualify(space + Texts(name, ps)), k)
  {
    if ps == [] {
      assert Qualify(space + [name]) == QualifiedIdentifier(space, name);
    } else {
      PartsComplete(ps[1..], k, space + [name], ps[0].word.text);
      Regroup(space, name, Texts(ps[0].word.text, ps[1..]));
    }
  }

  lemma {:induction false} QualifiedComplete(q: QualifiedSyntax, k: Stream)
    requires k.Symbol() != NamespaceSep
    ensures ParseQualified(QualifiedTokens(q, k)) == Done(QualifiedTree(q), k)
  {
    PartsComplete(q.more, k, [], q.first.text);
    Unit(Texts(q.first.text, q.more));
  }

  lemma {:induction false} TypeComplete(t: TypeSyntax, k: Stream)
    requires k.Symbol() != NamespaceSep && k.Symbol() != BracketOpen
    ensures ParseType(TypeTokens(t, k)) == Done(TypeTree(t), k)
  {
    QualifiedComplete(t.id, ArrayTokens(t.brackets, k));
  }

  lemma {:induction false} StructFieldsComplete(fs: seq<StructFieldSyntax>, k: Stream, done: seq<StructField>)
    requires k.Symbol() == CurlyClose
    ensures StructFields(StructFieldsTokens(fs, k), done) == Done(done + StructFieldTrees(fs), k)
  {
    if fs == [] {
      Unit(done);
    } else {
      TypeComplete(fs[0].typ, StructFieldsTokens(fs[1..], k));
      StructFieldsComplete(fs[1..], k, done + [StructFieldTree(fs[0])]);
      Regroup(done, StructFieldTree(fs[0]), StructFieldTrees(fs[1..]));
    }
  }

  lemma {:induction false} StructBodyComplete(open: Position, fs: seq<StructFieldSyntax>, close: Position, k: Stream)
    ensures StructBody(Mark(CurlyOpen, open, StructFieldsTokens(fs, Mark(CurlyClose, close, k)))) == Done(StructFieldTrees(fs), k)
  {
    var k' := Mark(CurlyClose, close, k);
    StructFieldsComplete(fs, k', []);
    Unit(StructFieldTrees(fs));
    StructBlock(open, StructFieldsTokens(fs, k'), StructFieldTrees(fs), close, k);
  }

  lemma StructBlock(open: Position, inside: Stream, fields: seq<StructField>, close: Position, k: Stream)
    requires StructFields(inside, []) == Done(fields, Mark(CurlyClose, close, k))
    ensures StructBody(Mark(CurlyOpen, open, inside)) == Done(fields, k)
  {
  }

  lemma {:induction false} StructComplete(s: StructSyntax, k: Stream)
    ensures ParseStruct(StructTokens(s, k)) == Done(StructTree(s), k)
  {
    StructBodyComplete(s.open, s.fields, s.close, k);
  }

  lemma {:induction false} MappingFieldsComplete(fs: seq<MappingFieldSyntax>, k: Stream, done: seq<MappingField>)
    requires k.Symbol() == CurlyClose
    ensures MappingFields(MappingFieldsTokens(fs, k), done) == Done(done + MappingFieldTrees(fs), k)
  {
    if fs == [] {
      Unit(done);
    } else {
      MappingFieldsComplete(fs[1..], k, done + [MappingFieldTree(fs[0])]);
      Regroup(done, MappingFieldTree(fs[0]), MappingFieldTrees(fs[1..]));
    }
  }

  lemma {:induction false} MappingBodyComplete(open: Position, fs: seq<MappingFieldSyntax>, close: Position, k: Stream)
    ensures MappingBody(Mark(CurlyOpen, open, MappingFieldsTokens(fs, Mark(CurlyClose, close, k)))) == Done(MappingFieldTrees(fs), k)
  {
    MappingFieldsComplete(fs, Mark(CurlyClose, close, k), []);
    Unit(MappingFieldTrees(fs));
  }

  lemma {:induction false} MappingComplete(m: MappingSyntax, k: Stream)
    ensures ParseMapping(MappingTokens(m, k)) == Done(MappingTree(m), k)
  {
    MappingBodyComplete(m.open, m.fields, m.close, k);
    QualifiedComplete(m.category, Mark(CurlyOpen, m.open, MappingFieldsTokens(m.fields, Mark(CurlyClose, m.close, k))));
  }

  lemma EncodingNameComplete(e: EncodingName, k: Stream)
    requires k.Symbol() != Colon
    ensures OptionalEncoding(EncodingNameTokens(e, k)) == Done(EncodingNameTree(e), k)
  {
  }

  lemma NodesHead(ns: seq<NodeSyntax>, k: Stream)
    requires k.Symbol() == CurlyClose
    ensures NodesTokens(ns, k).Symbol() in {CurlyClose, Identifier, DeltaKw}
  {
    if ns != [] {
      assert NodesTokens(ns, k) == NodeTokens(ns[0], NodesTokens(ns[1..], k));
    }
  }

  lemma {:induction false} EncodingBodyComplete(open: Position, ns: seq<NodeSyntax>, close: Position, k: Stream)
    requires EncodingNodes(NodesTokens(ns, Mark(CurlyClose, close, k)), []) == Done(NodeTrees(ns), Mark(CurlyClose, close, k))
    ensures EncodingBody(Mark(CurlyOpen, open, NodesTokens(ns, Mark(CurlyClose, close, k)))) == Done(NodeTrees(ns), k)
  {
  }

  lemma {:induction false} NodeComplete(n: NodeSyntax, k: Stream)
    requires k.Symbol() != Colon
    ensures ParseEncodingNode(NodeTokens(n, k)) == Done(NodeTree(n), k)
    decreases n, 1
  {
    match n
    case FieldSyntax(_, enco) => EncodingNameComplete(enco, k);
    case BareDelta(kw, name, enco) =>
      EncodingNameComplete(enco, k);
      var field := NodeTokens(FieldSyntax(name, enco), k);
      assert ParseEncodingNode(field) == ParseEncodingField(field);
    case BracedDelta(_, open, nodes, close) =>
      NodesComplete(nodes, Mark(CurlyClose, close, k), []);
      Unit(NodeTrees(nodes));
      EncodingBodyComplete(open, nodes, close, k);
  }

  lemma {:induction false} NodesComplete(ns: seq<NodeSyntax>, k: Stream, done: seq<EncodingNode>)
    requires k.Symbol() == CurlyClose
    ensures EncodingNodes(NodesTokens(ns, k), done) == Done(done + NodeTrees(ns), k)
    decreases ns, 0
  {
    if ns == [] {
      Unit(done);
    } else {
      NodesHead(ns[1..], k);
      NodeComplete(ns[0], NodesTokens(ns[1..], k));
      NodesComplete(ns[1..], k, done + [NodeTree(ns[0])]);
      Regroup(done, NodeTree(ns[0]), NodeTrees(ns[1..]));
    }
  }

  lemma {:induction false} EncodingComplete(e: EncodingSyntax, k: Stream)
    ensures ParseEncoding(EncodingTokens(e, k)) == Done(EncodingTree(e), k)
  {
    var close := Mark(CurlyClose, e.close, k);
    NodesComplete(e.nodes, close, []);
    Unit(NodeTrees(e.nodes));
    EncodingBodyComplete(e.open, e.nodes, e.close, k);
    EncodingNameComplete(e.enco, Mark(CurlyOpen, e.open, NodesTokens(e.nodes, close)));
  }

  lemma {:induction false} IncludesComplete(incs: seq<IncludeSyntax>, k: Stream, root: Root)
    requires k.Symbol() != IncludeKw
    ensures Includes(IncludesTokens(incs, k), root) == Done(root.(includes := root.includes + IncludeTrees(incs)), k)
  {
    if incs == [] {
      Unit(root.includes);
    } else {
      var i := Include(incs[0].path.text, incs[0].kw);
      IncludesComplete(incs[1..], k, root.(includes := root.includes + [i]));
      Regroup(root.includes, i, IncludeTrees(incs[1..]));
    }
  }

  function WithDeclarations(root: Root, ds: seq<DeclarationSyntax>): Root {
    root.(structs := root.structs + StructTrees(ds),
          mappings := root.mappings + MappingTrees(ds),
          encodings := root.encodings + EncodingTrees(ds))
  }

  /** What the declaration loop adds to the root for one declaration. */
  function WithDeclaration(root: Root, d: DeclarationSyntax): Root {
    match d
    case StructDeclaration(s) => root.(structs := root.structs + [StructTree(s)])
    case MappingDeclaration(m) => root.(mappings := root.mappings + [MappingTree(m)])
    case EncodingDeclaration(e) => root.(encodings := root.encodings + [EncodingTree(e)])
  }

  lemma WithDeclarationFirst(root: Root, ds: seq<DeclarationSyntax>)
    requires ds != []
    ensures WithDeclarations(root, ds) == WithDeclarations(WithDeclaration(root, ds[0]), ds[1..])
  {
    var rest := ds[1..];
    Unit(StructTrees(rest));
    Unit(MappingTrees(rest));
    Unit(EncodingTrees(rest));
    match ds[0]
    case StructDeclaration(s) => Regroup(root.structs, StructTree(s), StructTrees(rest));
    case MappingDeclaration(m) => Regroup(root.mappings, MappingTree(m), MappingTrees(rest));
    case EncodingDeclaration(e) => Regroup(root.encodings, EncodingTree(e), EncodingTrees(rest));
  }

  lemma {:induction false} DeclarationComplete(d: DeclarationSyntax, k: Stream, root: Root)
    ensures Declarations(DeclarationTokens(d, k), root) == Declarations(k, WithDeclaration(root, d))
  {
    match d
    case StructDeclaration(s) => StructComplete(s, k);
    case MappingDeclaration(m) => MappingComplete(m, k);
    case EncodingDeclaration(e) => EncodingComplete(e, k);
  }

  lemma {:induction false} DeclarationsComplete(ds: seq<DeclarationSyntax>, end: Position, root: Root)
    ensures var k := Stop(EndOfInput, end);
            Declarations(DeclarationsTokens(ds, k), root) == Done(WithDeclarations(root, ds), k)
  {
    var k := Stop(EndOfInput, end);
    if ds == [] {
      assert WithDeclarations(root, []) == root;
    } else {
      DeclarationComplete(ds[0], DeclarationsTokens(ds[1..], k), root);
      DeclarationsComplete(ds[1..], end, WithDeclaration(root, ds[0]));
      WithDeclarationFirst(root, ds);
    }
  }

  lemma DeclarationsHead(ds: seq<DeclarationSyntax>, end: Position)
    ensures DeclarationsTokens(ds, Stop(EndOfInput, end)).Symbol() in {StructKw, MappingKw, EncodingKw, Eof}
  {
  }

  lemma {:induction false} HeaderComplete(incs: seq<IncludeSyntax>, space: NamespaceSyntax, k: Stream, origin: Position)
    requires k.Symbol() in {StructKw, MappingKw, EncodingKw, Eof}
    ensures Header(IncludesTokens(incs, NamespaceTokens(space, k)), EmptyRoot(origin))
            == Done(EmptyRoot(origin).(includes := IncludeTrees(incs), space := NamespaceTree(space)), k)
  {
    IncludesComplete(incs, NamespaceTokens(space, k), EmptyRoot(origin));
    Unit(IncludeTrees(incs));
    if space.Namespace? {
      QualifiedComplete(space.space, k);
    }
  }

  /** Every document the grammar writes is accepted, and read as the tree it stands for. */
  lemma {:induction false} DocumentComplete(d: DocumentSyntax, origin: Position)
    ensures ParseDocument(DocumentTokens(d), origin) == Done(DocumentTree(d, origin), Stop(EndOfInput, d.end))
  {
    DeclarationsHead(d.declarations, d.end);
    HeaderComplete(d.includes, d.space, DeclarationsTokens(d.declarations, Stop(EndOfInput, d.end)), origin);
    var root := EmptyRoot(origin).(includes := IncludeTrees(d.includes), space := NamespaceTree(d.space));
    DeclarationsComplete(d.declarations, d.end, root);
    Unit(StructTrees(d.declarations));
    Unit(MappingTrees(d.declarations));
    Unit(EncodingTrees(d.declarations));
  }

  // ---------------------------------------------------------------- soundness

  lemma {:induction false} PartsSound(ts: Stream, space: seq<string>, name: string) returns (ps: seq<QualifiedPart>)
    requires QualifiedMore(ts, space, name).Done?
    ensures var r := QualifiedMore(ts, space, name);
            ts == PartsTokens(ps, r.rest)
            && r.value == Qualify(space + Texts(name, ps))
            && r.rest.Symbol() != NamespaceSep
    decreases ts.Size()
  {
    if ts.Symbol() != NamespaceSep {
      ps := [];
      assert Qualify(space + [name]) == QualifiedIdentifier(space, name);
    } else {
      var word := Word(ts.tail.lexeme.text, ts.tail.pos);
      var rest := PartsSound(ts.tail.tail, space + [name], word.text);
      ps := [QualifiedPart(ts.pos, word)] + rest;
      assert ps[1..] == rest;
      Regroup(space, name, Texts(word.text, rest));
    }
  }

  lemma QualifiedSound(ts: Stream) returns (q: QualifiedSyntax)
    requires ParseQualified(ts).Done?
    ensures var r := ParseQualified(ts);
            ts == QualifiedTokens(q, r.rest) && r.value == QualifiedTree(q) && r.rest.Symbol() != NamespaceSep
  {
    var first := Word(ts.lexeme.text, ts.pos);
    var more := PartsSound(ts.tail, [], first.text);
    q := QualifiedSyntax(first, more);
    Unit(Texts(first.text, more));
  }

  lemma TypeSound(ts: Stream) returns (t: TypeSyntax)
    requires ParseType(ts).Done?
    ensures var r := ParseType(ts);
            ts == TypeTokens(t, r.rest) && r.value == TypeTree(t)
  {
    var q := QualifiedSound(ts);
    var s := ParseQualified(ts).rest;
    if s.Symbol() != BracketOpen {
      t := TypeSyntax(q, NoBrackets);
    } else {
      t := TypeSyntax(q, Brackets(s.pos, s.tail.lexeme.value, s.tail.pos, s.tail.tail.pos));
    }
  }

  lemma {:induction false} StructFieldsSound(ts: Stream, done: seq<StructField>) returns (fs: seq<StructFieldSyntax>)
    requires StructFields(ts, done).Done?
    ensures var r := StructFields(ts, done);
            ts == StructFieldsTokens(fs, r.rest) && r.value == done + StructFieldTrees(fs)
    decreases ts.Size()
  {
    if ts.Symbol() == CurlyClose {
      fs := [];
      Unit(done);
    } else {
      var typ := TypeSound(ts.tail.tail);
      var f := StructFieldSyntax(Word(ts.lexeme.text, ts.pos), ts.tail.pos, typ);
      var r := ParseStructField(ts);
      var rest := StructFieldsSound(r.rest, done + [r.value]);
      fs := [f] + rest;
      assert fs[1..] == rest;
      Regroup(done, r.value, StructFieldTrees(rest));
    }
  }

  lemma StructBodySound(ts: Stream) returns (open: Position, fs: seq<StructFieldSyntax>, close: Position)
    requires StructBody(ts).Done?
    ensures var r := StructBody(ts);
            ts == Mark(CurlyOpen, open, StructFieldsTokens(fs, Mark(CurlyClose, close, r.rest))) && r.value == StructFieldTrees(fs)
  {
    fs := StructFieldsSound(ts.tail, []);
    Unit(StructFieldTrees(fs));
    open, close := ts.pos, StructFields(ts.tail, []).rest.pos;
  }

  lemma StructSound(ts: Stream) returns (s: StructSyntax)
    requires ParseStruct(ts).Done?
    ensures var r := ParseStruct(ts); ts == StructTokens(s, r.rest) && r.value == StructTree(s)
  {
    var open, fs, close := StructBodySound(ts.tail.tail);
    s := StructSyntax(ts.pos, Word(ts.tail.lexeme.text, ts.tail.pos), open, fs, close);
  }

  lemma {:induction false} MappingFieldsSound(ts: Stream, done: seq<MappingField>) returns (fs: seq<MappingFieldSyntax>)
    requires MappingFields(ts, done).Done?
    ensures var r := MappingFields(ts, done);
            ts == MappingFieldsTokens(fs, r.rest) && r.value == done + MappingFieldTrees(fs)
    decreases ts.Size()
  {
    if ts.Symbol() == CurlyClose {
      fs := [];
      Unit(done);
    } else {
      var text := ts.tail.tail;
      var f := MappingFieldSyntax(Word(ts.lexeme.text, ts.pos), ts.tail.pos, Word(text.lexeme.content, text.pos));
      var r := ParseMappingField(ts);
      var rest := MappingFieldsSound(r.rest, done + [r.value]);
      fs := [f] + rest;
      assert fs[1..] == rest;
      Regroup(done, r.value, MappingFieldTrees(rest));
    }
  }

  lemma MappingBodySound(ts: Stream) returns (open: Position, fs: seq<MappingFieldSyntax>, close: Position)
    requires MappingBody(ts).Done?
    ensures var r := MappingBody(ts);
            ts == Mark(CurlyOpen, open, MappingFieldsTokens(fs, Mark(CurlyClose, close, r.rest))) && r.value == MappingFieldTrees(fs)
  {
    fs := MappingFieldsSound(ts.tail, []);
    Unit(MappingFieldTrees(fs));
    open, close := ts.pos, MappingFields(ts.tail, []).rest.pos;
  }

  lemma MappingSound(ts: Stream) returns (m: MappingSyntax)
    requires ParseMapping(ts).Done?
    ensures var r := ParseMapping(ts); ts == MappingTokens(m, r.rest) && r.value == MappingTree(m)
  {
    var name := ts.tail;
    var category := QualifiedSound(name.tail.tail);
    var open, fs, close := MappingBodySound(ParseQualified(name.tail.tail).rest);
    m := MappingSyntax(ts.pos, Word(name.lexeme.text, name.pos), name.tail.pos, category, open, fs, close);
  }

  lemma EncodingNameSound(ts: Stream) returns (e: EncodingName)
    requires OptionalEncoding(ts).Done?
    ensures var r := OptionalEncoding(ts); ts == EncodingNameTokens(e, r.rest) && r.value == EncodingNameTree(e)
  {
    if ts.Symbol() != Colon {
      e := Omitted;
    } else {
      e := Given(ts.pos, Word(ts.tail.lexeme.text, ts.tail.pos));
    }
  }

  lemma {:induction false} NodeSound(ts: Stream) returns (n: NodeSyntax)
    requires ParseEncodingNode(ts).Done?
    ensures var r := ParseEncodingNode(ts); ts == NodeTokens(n, r.rest) && r.value == NodeTree(n)
    decreases ts.Size(), 1
  {
    if ts.Symbol() == Identifier {
      var enco := EncodingNameSound(ts.tail);
      n := FieldSyntax(Word(ts.lexeme.text, ts.pos), enco);
    } else if ts.tail.Symbol() == Identifier {
      var field := ts.tail;
      assert ParseEncodingNode(ts) == ParseDeltaBlock(ts);
      assert ParseEncodingNode(field) == ParseEncodingField(field);
      var enco := EncodingNameSound(field.tail);
      n := BareDelta(ts.pos, Word(field.lexeme.text, field.pos), enco);
    } else {
      assert ParseEncodingNode(ts) == ParseDeltaBlock(ts);
      var body := ts.tail;
      assert EncodingBody(body).Done? && EncodingNodes(body.tail, []).Done?;
      var nodes := NodesSound(body.tail, []);
      var open, close := EncodingBodySound(body, nodes);
      n := BracedDelta(ts.pos, open, nodes, close);
    }
  }

  lemma {:induction false} NodesSound(ts: Stream, done: seq<EncodingNode>) returns (ns: seq<NodeSyntax>)
    requires EncodingNodes(ts, done).Done?
    ensures var r := EncodingNodes(ts, done);
            ts == NodesTokens(ns, r.rest) && r.value == done + NodeTrees(ns)
    decreases ts.Size(), 2
  {
    if ts.Symbol() == CurlyClose {
      ns := [];
      Unit(done);
    } else {
      var n := NodeSound(ts);
      var r := ParseEncodingNode(ts);
      var rest := NodesSound(r.rest, done + [r.value]);
      ns := [n] + rest;
      assert ns[1..] == rest;
      Regroup(done, r.value, NodeTrees(rest));
    }
  }

  lemma EncodingBodySound(ts: Stream, ns: seq<NodeSyntax>) returns (open: Position, close: Position)
    requires EncodingBody(ts).Done?
    requires var r := EncodingNodes(ts.tail, []); ts.tail == NodesTokens(ns, r.rest) && r.value == [] + NodeTrees(ns)
    ensures var r := EncodingBody(ts);
            ts == Mark(CurlyOpen, open, NodesTokens(ns, Mark(CurlyClose, close, r.rest))) && r.value == NodeTrees(ns)
  {
    Unit(NodeTrees(ns));
    open, close := ts.pos, EncodingNodes(ts.tail, []).rest.pos;
  }

  lemma EncodingSound(ts: Stream) returns (e: EncodingSyntax)
    requires ParseEncoding(ts).Done?
    ensures var r := ParseEncoding(ts); ts == EncodingTokens(e, r.rest) && r.value == EncodingTree(e)
  {
    var name := ts.tail;
    var enco := EncodingNameSound(name.tail);
    var body := OptionalEncoding(name.tail).rest;
    var nodes := NodesSound(body.tail, []);
    var open, close := EncodingBodySound(body, nodes);
    e := EncodingSyntax(ts.pos, Word(name.lexeme.text, name.pos), enco, open, nodes, close);
  }

  lemma {:induction false} IncludesSound(ts: Stream, root: Root) returns (incs: seq<IncludeSyntax>)
    requires Includes(ts, root).Done?
    ensures var r := Includes(ts, root);
            ts == IncludesTokens(incs, r.rest) && r.value == root.(includes := root.includes + IncludeTrees(incs))
    decreases ts.Size()
  {
    if ts.Symbol() != IncludeKw {
      incs := [];
      Unit(root.includes);
    } else {
      var i := IncludeSyntax(ts.pos, Word(ts.tail.lexeme.content, ts.tail.pos));
      var r := ParseInclude(ts);
      var rest := IncludesSound(r.rest, root.(includes := root.includes + [r.value]));
      incs := [i] + rest;
      assert incs[1..] == rest;
      Regroup(root.includes, r.value, IncludeTrees(rest));
    }
  }

  /** One turn of the declaration loop that does not throw. */
  lemma DeclarationSound(ts: Stream, root: Root) returns (d: DeclarationSyntax, k: Stream)
    requires Declarations(ts, root).Done? && ts.Symbol() != Eof
    ensures ts == DeclarationTokens(d, k) && k.Size() < ts.Size()
    ensures Declarations(ts, root) == Declarations(k, WithDeclaration(root, d))
  {
    if ts.Symbol() == StructKw {
      var s := StructSound(ts);
      d, k := StructDeclaration(s), ParseStruct(ts).rest;
    } else if ts.Symbol() == MappingKw {
      var m := MappingSound(ts);
      d, k := MappingDeclaration(m), ParseMapping(ts).rest;
    } else {
      var e := EncodingSound(ts);
      d, k := EncodingDeclaration(e), ParseEncoding(ts).rest;
    }
  }

  lemma {:induction false} DeclarationsSound(ts: Stream, root: Root) returns (ds: seq<DeclarationSyntax>, end: Position)
    requires Declarations(ts, root).Done?
    ensures ts == DeclarationsTokens(ds, Stop(EndOfInput, end))
    ensures Declarations(ts, root) == Done(WithDeclarations(root, ds), Stop(EndOfInput, end))
    decreases ts.Size()
  {
    if ts.Symbol() == Eof {
      ds, end := [], ts.pos;
      assert WithDeclarations(root, []) == root;
    } else {
      var d, k := DeclarationSound(ts, root);
      var rest, e := DeclarationsSound(k, WithDeclaration(root, d));
      ds, end := [d] + rest, e;
      assert ds[1..] == rest;
      WithDeclarationFirst(root, ds);
    }
  }

  lemma HeaderSound(ts: Stream, origin: Position) returns (incs: seq<IncludeSyntax>, space: NamespaceSyntax)
    requires Header(ts, EmptyRoot(origin)).Done?
    ensures var r := Header(ts, EmptyRoot(origin));
            ts == IncludesTokens(incs, NamespaceTokens(space, r.rest))
            && r.value == EmptyRoot(origin).(includes := IncludeTrees(incs), space := NamespaceTree(space))
  {
    incs := IncludesSound(ts, EmptyRoot(origin));
    Unit(IncludeTrees(incs));
    space := NoNamespace;
    var k := Includes(ts, EmptyRoot(origin)).rest;
    if k.Symbol() == NamespaceKw {
      var q := QualifiedSound(k.tail);
      space := Namespace(k.pos, q);
    }
  }

  /** Whatever the parser accepts, the grammar writes, and the result is the tree it stands for. */
  lemma {:induction false} DocumentSound(ts: Stream, origin: Position) returns (d: DocumentSyntax)
    requires ParseDocument(ts, origin).Done?
    ensures ts == DocumentTokens(d) && ParseDocument(ts, origin).value == DocumentTree(d, origin)
  {
    var incs, space := HeaderSound(ts, origin);
    var r := Header(ts, EmptyRoot(origin));
    var ds, end := DeclarationsSound(r.rest, r.value);
    d := DocumentSyntax(incs, space, ds, end);
    Unit(StructTrees(ds));
    Unit(MappingTrees(ds));
    Unit(EncodingTrees(ds));
  }

  /**
   The parser accepts a token stream with a given result exactly when the grammar writes
   that stream from a document standing for that result; every origin in the result is the
   position of the first token of its node.
   */
  lemma ParsesExactlyTheGrammar(ts: Stream, origin: Position, root: Root)
    ensures (exists rest :: ParseDocument(ts, origin) == Done(root, rest))
            <==> (exists d: DocumentSyntax :: DocumentTokens(d) == ts && DocumentTree(d, origin) == root)
  {
    if rest :| ParseDocument(ts, origin) == Done(root, rest) {
      var d := DocumentSound(ts, origin);
      assert DocumentTokens(d) == ts;
    }
    if d: DocumentSyntax :| DocumentTokens(d) == ts && DocumentTree(d, origin) == root {
      DocumentComplete(d, origin);
    }
  }

  /** The grammar is unambiguous: one token stream stands for at most one tree. */
  lemma GrammarIsUnambiguous(d: DocumentSyntax, e: DocumentSyntax, origin: Position)
    requires DocumentTokens(d) == DocumentTokens(e)
    ensures DocumentTree(d, origin) == DocumentTree(e, origin)
  {
    DocumentComplete(d, origin);
    DocumentComplete(e, origin);
  }

  // ---------------------------------------------------------------- braces

  /** Inside `depth` blocks, every brace that closes a block closes an open one, and none is left open. */
  predicate Nested(ts: Stream, depth: nat) {
    if ts.Stop? then depth == 0
    else if ts.lexeme == Fixed(CurlyOpen) then Nested(ts.tail, depth + 1)
    else if ts.lexeme == Fixed(CurlyClose) then depth > 0 && Nested(ts.tail, depth - 1)
    else Nested(ts.tail, depth)
  }

  lemma {:induction false} PartsNested(ps: seq<QualifiedPart>, k: Stream, depth: nat)
    ensures Nested(PartsTokens(ps, k), depth) == Nested(k, depth)
  {
    if ps != [] {
      PartsNested(ps[1..], k, depth);
    }
  }

  lemma TypeNested(t: TypeSyntax, k: Stream, depth: nat)
    ensures Nested(TypeTokens(t, k), depth) == Nested(k, depth)
  {
    PartsNested(t.id.more, ArrayTokens(t.brackets, k), depth);
    if t.brackets.Brackets? {
      var close := Mark(BracketClose, t.brackets.close, k);
      assert Nested(close, depth) == Nested(k, depth);
    }
  }

  lemma {:induction false} StructFieldsNested(fs: seq<StructFieldSyntax>, k: Stream, depth: nat)
    ensures Nested(StructFieldsTokens(fs, k), depth) == Nested(k, depth)
  {
    if fs != [] {
      StructFieldsNested(fs[1..], k, depth);
      TypeNested(fs[0].typ, StructFieldsTokens(fs[1..], k), depth);
    }
  }

  lemma {:induction false} MappingFieldsNested(fs: seq<MappingFieldSyntax>, k: Stream, depth: nat)
    ensures Nested(MappingFieldsTokens(fs, k), depth) == Nested(k, depth)
  {
    if fs != [] {
      var rest := MappingFieldsTokens(fs[1..], k);
      MappingFieldsNested(fs[1..], k, depth);
      assert Nested(TextTokens(fs[0].text, rest), depth) == Nested(rest, depth);
    }
  }

  lemma EncodingNameNested(e: EncodingName, k: Stream, depth: nat)
    ensures Nested(EncodingNameTokens(e, k), depth) == Nested(k, depth)
  {
  }

  lemma {:induction false} NodeNested(n: NodeSyntax, k: Stream, depth: nat)
    ensures Nested(NodeTokens(n, k), depth) == Nested(k, depth)
    decreases n, 1
  {
    match n
    case FieldSyntax(_, enco) => EncodingNameNested(enco, k, depth);
    case BareDelta(_, name, enco) =>
      EncodingNameNested(enco, k, depth);
      assert Nested(WordTokens(name, EncodingNameTokens(enco, k)), depth) == Nested(k, depth);
    case BracedDelta(_, open, nodes, close) =>
      var inner := NodesTokens(nodes, Mark(CurlyClose, close, k));
      NodesNested(nodes, Mark(CurlyClose, close, k), depth + 1);
      assert Nested(Mark(CurlyOpen, open, inner), depth) == Nested(k, depth);
  }

  lemma {:induction false} NodesNested(ns: seq<NodeSyntax>, k: Stream, depth: nat)
    ensures Nested(NodesTokens(ns, k), depth) == Nested(k, depth)
    decreases ns, 0
  {
    if ns != [] {
      NodesNested(ns[1..], k, depth);
      NodeNested(ns[0], NodesTokens(ns[1..], k), depth);
    }
  }

  lemma {:induction false} DeclarationNested(d: DeclarationSyntax, k: Stream, depth: nat)
    ensures Nested(DeclarationTokens(d, k), depth) == Nested(k, depth)
  {
    match d
    case StructDeclaration(s) =>
      var close := Mark(CurlyClose, s.close, k);
      StructFieldsNested(s.fields, close, depth + 1);
      assert Nested(Mark(CurlyOpen, s.open, StructFieldsTokens(s.fields, close)), depth) == Nested(k, depth);
    case MappingDeclaration(m) =>
      var close := Mark(CurlyClose, m.close, k);
      var body := Mark(CurlyOpen, m.open, MappingFieldsTokens(m.fields, close));
      MappingFieldsNested(m.fields, close, depth + 1);
      assert Nested(body, depth) == Nested(k, depth);
      PartsNested(m.category.more, body, depth);
      assert Nested(Mark(Colon, m.colon, QualifiedTokens(m.category, body)), depth) == Nested(k, depth);
    case EncodingDeclaration(e) =>
      var close := Mark(CurlyClose, e.close, k);
      var body := Mark(CurlyOpen, e.open, NodesTokens(e.nodes, close));
      NodesNested(e.nodes, close, depth + 1);
      EncodingNameNested(e.enco, body, depth);
      assert Nested(WordTokens(e.name, EncodingNameTokens(e.enco, body)), depth) == Nested(k, depth);
  }

  lemma {:induction false} DeclarationsNested(ds: seq<DeclarationSyntax>, k: Stream, depth: nat)
    ensures Nested(DeclarationsTokens(ds, k), depth) == Nested(k, depth)
  {
    if ds != [] {
      DeclarationsNested(ds[1..], k, depth);
      DeclarationNested(ds[0], DeclarationsTokens(ds[1..], k), depth);
    }
  }

  lemma {:induction false} IncludesNested(incs: seq<IncludeSyntax>, k: Stream, depth: nat)
    ensures Nested(IncludesTokens(incs, k), depth) == Nested(k, depth)
  {
    if incs != [] {
      var rest := IncludesTokens(incs[1..], k);
      IncludesNested(incs[1..], k, depth);
      assert Nested(TextTokens(incs[0].path, rest), depth) == Nested(rest, depth);
    }
  }

  /** In every document of the grammar the braces are nested. */
  lemma DocumentNested(d: DocumentSyntax)
    ensures Nested(DocumentTokens(d), 0)
  {
    var body := DeclarationsTokens(d.declarations, Stop(EndOfInput, d.end));
    DeclarationsNested(d.declarations, Stop(EndOfInput, d.end), 0);
    if d.space.Namespace? {
      PartsNested(d.space.space.more, body, 0);
      assert Nested(QualifiedTokens(d.space.space, body), 0);
    }
    IncludesNested(d.includes, NamespaceTokens(d.space, body), 0);
  }

  // ---------------------------------------------------------------- every tree can be written

  function PartsOf(texts: seq<string>, p: Position): (ps: seq<QualifiedPart>)
    ensures |ps| == |texts|
  {
    seq(|texts|, i requires 0 <= i < |texts| => QualifiedPart(p, Word(texts[i], p)))
  }

  function WriteQualified(q: QualifiedIdentifier, p: Position): QualifiedSyntax {
    var texts := q.space + [q.name];
    QualifiedSyntax(Word(texts[0], p), PartsOf(texts[1..], p))
  }

  lemma {:induction false} TextsOfParts(first: string, texts: seq<string>, p: Position)
    ensures Texts(first, PartsOf(texts, p)) == [first] + texts
    decreases |texts|
  {
    if texts != [] {
      assert PartsOf(texts, p)[1..] == PartsOf(texts[1..], p);
      TextsOfParts(texts[0], texts[1..], p);
    }
  }

  lemma QualifiedWritten(q: QualifiedIdentifier, p: Position)
    ensures QualifiedTree(WriteQualified(q, p)) == q
  {
    var texts := q.space + [q.name];
    TextsOfParts(texts[0], texts[1..], p);
    assert [texts[0]] + texts[1..] == texts;
    assert texts[..|texts| - 1] == q.space;
  }

  function WriteStructField(f: StructField): StructFieldSyntax {
    var size := match f.typ.arraySize case NotArray => NoBrackets case ArrayOf(n) => Brackets(f.origin, n, f.origin, f.origin);
    StructFieldSyntax(Word(f.identifier, f.origin), f.origin, TypeSyntax(WriteQualified(f.typ.identifier, f.origin), size))
  }

  function WriteStructFields(fs: seq<StructField>): seq<StructFieldSyntax> {
    if fs == [] then [] else [WriteStructField(fs[0])] + WriteStructFields(fs[1..])
  }

  lemma StructFieldWritten(f: StructField)
    ensures StructFieldTree(WriteStructField(f)) == f
  {
    QualifiedWritten(f.typ.identifier, f.origin);
  }

  lemma {:induction false} StructFieldsWritten(fs: seq<StructField>)
    ensures StructFieldTrees(WriteStructFields(fs)) == fs
  {
    if fs != [] {
      StructFieldWritten(fs[0]);
      StructFieldsWritten(fs[1..]);
      assert WriteStructFields(fs)[1..] == WriteStructFields(fs[1..]);
    }
  }

  function WriteStruct(s: Struct): StructSyntax {
    StructSyntax(s.origin, Word(s.identifier, s.origin), s.origin, WriteStructFields(s.fields), s.origin)
  }

  function WriteMappingFields(fs: seq<MappingField>): seq<MappingFieldSyntax> {
    if fs == [] then []
    else [MappingFieldSyntax(Word(fs[0].identifier, fs[0].origin), fs[0].origin, Word(fs[0].mapping, fs[0].origin))]
         + WriteMappingFields(fs[1..])
  }

  lemma {:induction false} MappingFieldsWritten(fs: seq<MappingField>)
    ensures MappingFieldTrees(WriteMappingFields(fs)) == fs
  {
    if fs != [] {
      MappingFieldsWritten(fs[1..]);
      assert WriteMappingFields(fs)[1..] == WriteMappingFields(fs[1..]);
    }
  }

  function WriteMapping(m: Mapping): MappingSyntax {
    MappingSyntax(m.origin, Word(m.structId, m.origin), m.origin, WriteQualified(m.category, m.origin),
                  m.origin, WriteMappingFields(m.fields), m.origin)
  }

  function WriteNode(n: EncodingNode): NodeSyntax
    decreases n, 1
  {
    match n
    case EncodingField(id, enco, p) => FieldSyntax(Word(id, p), Given(p, Word(enco, p)))
    case DeltaBlock(fields, p) => BracedDelta(p, p, WriteNodes(fields), p)
  }

  function WriteNodes(ns: seq<EncodingNode>): seq<NodeSyntax>
    decreases ns, 0
  {
    if ns == [] then [] else [WriteNode(ns[0])] + WriteNodes(ns[1..])
  }

  lemma {:induction false} NodeWritten(n: EncodingNode)
    ensures NodeTree(WriteNode(n)) == n
    decreases n, 1
  {
    if n.DeltaBlock? {
      NodesWritten(n.fields);
    }
  }

  lemma {:induction false} NodesWritten(ns: seq<EncodingNode>)
    ensures NodeTrees(WriteNodes(ns)) == ns
    decreases ns, 0
  {
    if ns != [] {
      NodeWritten(ns[0]);
      NodesWritten(ns[1..]);
      assert WriteNodes(ns)[1..] == WriteNodes(ns[1..]);
    }
  }

  function WriteEncoding(e: Encoding): EncodingSyntax {
    EncodingSyntax(e.origin, Word(e.structId, e.origin), Given(e.origin, Word(e.encoId, e.origin)),
                   e.origin, WriteNodes(e.fields), e.origin)
  }

  function WriteIncludes(incs: seq<Include>): seq<IncludeSyntax> {
    if incs == [] then []
    else [IncludeSyntax(incs[0].origin, Word(incs[0].path, incs[0].origin))] + WriteIncludes(incs[1..])
  }

  lemma {:induction false} IncludesWritten(incs: seq<Include>)
    ensures IncludeTrees(WriteIncludes(incs)) == incs
  {
    if incs != [] {
      IncludesWritten(incs[1..]);
      assert WriteIncludes(incs)[1..] == WriteIncludes(incs[1..]);
    }
  }

  /** Structs first, then mappings, then encodings. */
  function WriteDeclarations(structs: seq<Struct>, mappings: seq<Mapping>, encodings: seq<Encoding>): seq<DeclarationSyntax> {
    if structs != [] then [StructDeclaration(WriteStruct(structs[0]))] + WriteDeclarations(structs[1..], mappings, encodings)
    else if mappings != [] then [MappingDeclaration(WriteMapping(mappings[0]))] + WriteDeclarations([], mappings[1..], encodings)
    else if encodings != [] then [EncodingDeclaration(WriteEncoding(encodings[0]))] + WriteDeclarations([], [], encodings[1..])
    else []
  }

  /** The declarations stand for the given ones. */
  predicate Declares(ds: seq<DeclarationSyntax>, structs: seq<Struct>, mappings: seq<Mapping>, encodings: seq<Encoding>) {
    StructTrees(ds) == structs && MappingTrees(ds) == mappings && EncodingTrees(ds) == encodings
  }

  lemma {:induction false} DeclarationsWritten(structs: seq<Struct>, mappings: seq<Mapping>, encodings: seq<Encoding>)
    ensures Declares(WriteDeclarations(structs, mappings, encodings), structs, mappings, encodings)
    decreases |structs| + |mappings| + |encodings|
  {
    if structs != [] {
      var rest := WriteDeclarations(structs[1..], mappings, encodings);
      StructFieldsWritten(structs[0].fields);
      DeclarationsWritten(structs[1..], mappings, encodings);
      DeclaresMore(StructDeclaration(WriteStruct(structs[0])), rest);
      assert [structs[0]] + structs[1..] == structs;
    } else if mappings != [] {
      var rest := WriteDeclarations([], mappings[1..], encodings);
      QualifiedWritten(mappings[0].category, mappings[0].origin);
      MappingFieldsWritten(mappings[0].fields);
      DeclarationsWritten([], mappings[1..], encodings);
      DeclaresMore(MappingDeclaration(WriteMapping(mappings[0])), rest);
      assert [mappings[0]] + mappings[1..] == mappings;
    } else if encodings != [] {
      var rest := WriteDeclarations([], [], encodings[1..]);
      NodesWritten(encodings[0].fields);
      DeclarationsWritten([], [], encodings[1..]);
      DeclaresMore(EncodingDeclaration(WriteEncoding(encodings[0])), rest);
      assert [encodings[0]] + encodings[1..] == encodings;
    }
  }

  lemma DeclaresMore(d: DeclarationSyntax, rest: seq<DeclarationSyntax>)
    ensures Declares([d] + rest,
                     (if d.StructDeclaration? then [StructTree(d.struct)] else []) + StructTrees(rest),
                     (if d.MappingDeclaration? then [MappingTree(d.mapping)] else []) + MappingTrees(rest),
                     (if d.EncodingDeclaration? then [EncodingTree(d.encoding)] else []) + EncodingTrees(rest))
  {
    assert ([d] + rest)[1..] == rest;
  }

  /** A document for every tree; the empty qualified identifier is the one of a document without NAMESPACE. */
  function Write(r: Root): DocumentSyntax {
    DocumentSyntax(WriteIncludes(r.includes),
                   if r.space == NO_NAMESPACE then NoNamespace else Namespace(r.origin, WriteQualified(r.space, r.origin)),
                   WriteDeclarations(r.structs, r.mappings, r.encodings), r.origin)
  }

  /** Every syntax tree, with whatever origins, is the tree of a document, and is what parsing that document gives. */
  lemma EveryTreeIsParsed(r: Root)
    ensures DocumentTree(Write(r), r.origin) == r
    ensures ParseDocument(DocumentTokens(Write(r)), r.origin) == Done(r, Stop(EndOfInput, r.origin))
  {
    IncludesWritten(r.includes);
    QualifiedWritten(r.space, r.origin);
    DeclarationsWritten(r.structs, r.mappings, r.encodings);
    DocumentComplete(Write(r), r.origin);
  }
}
